/**
  The tenant's tables as the database holds them, changed row by row. Each transaction leaves exactly the tables its
  specification commits, or, when any statement of it fails, the tables it found.
*/
module FederationStore {
  import opened Assurances
  import opened Common
  import opened ExternalSubjects
  import opened Federation
  import opened FederationBindings
  import opened FederationInvariants

  /** What a transaction reports and leaves agrees with its specification. */
  ghost predicate Runs<T>(before: Tables, after: Tables, r: Result<T, Error>, spec: Transaction<T>) {
    match spec
    case Committed(db, value) => r == Ok(value) && after == db
    case RolledBack(error) => r == Err(error) && after == before
  }

  /** No attempt that was left had expired before one that is gone. */
  ghost predicate EarliestGone(attempts: map<Id, Attempt>, gone: set<Id>, now: int)
    requires gone <= attempts.Keys
  {
    forall id, g :: id in attempts && id !in gone && g in gone && attempts[id].expiry <= now ==>
      attempts[g].expiry <= attempts[id].expiry
  }

  lemma {:induction false} EarliestExists(attempts: map<Id, Attempt>, ids: set<Id>)
    requires ids != {} && ids <= attempts.Keys
    ensures exists id :: id in ids && forall other :: other in ids ==> attempts[id].expiry <= attempts[other].expiry
    decreases |ids|
  {
    var x :| x in ids;
    if ids != {x} {
      EarliestExists(attempts, ids - {x});
      var y :| y in ids - {x} && forall other :: other in ids - {x} ==> attempts[y].expiry <= attempts[other].expiry;
      var least := if attempts[x].expiry <= attempts[y].expiry then x else y;
      assert least in ids && forall other :: other in ids ==> attempts[least].expiry <= attempts[other].expiry;
    }
  }

  lemma OneMoreGone(attempts: map<Id, Attempt>, gone: set<Id>, id: Id, now: int)
    requires gone <= attempts.Keys && id in attempts - gone && EarliestGone(attempts, gone, now)
    requires forall other :: other in attempts - gone ==> attempts[id].expiry <= attempts[other].expiry
    ensures EarliestGone(attempts, gone + {id}, now)
  {
    forall other, g | other in attempts && other !in gone + {id} && g in gone + {id} && attempts[other].expiry <= now
      ensures attempts[g].expiry <= attempts[other].expiry
    {
      assert other in attempts - gone;
    }
  }

  class Store {
    var providers: map<Id, Provider>
    var identities: map<Id, Identity>
    var accounts: map<Id, Account>
    var sessions: map<Id, Session>
    var attempts: map<Id, Attempt>
    var intents: map<Id, Intent>
    var grants: map<Id, Grant>

    function View(): Tables
      reads this
    {
      Tables(providers, identities, accounts, sessions, attempts, intents, grants)
    }

    /** The unique index on external identities. */
    ghost predicate Valid()
      reads this
    {
      forall i, j :: i in identities && j in identities && SameKey(identities[i], identities[j]) ==> i == j
    }

    constructor ()
      ensures Valid() && View() == Tables(map[], map[], map[], map[], map[], map[], map[])
    {
      providers, identities, accounts, sessions := map[], map[], map[], map[];
      attempts, intents, grants := map[], map[], map[];
    }

    method Rollback(before: Tables)
      modifies this
      ensures View() == before
    {
      providers, identities, accounts, sessions := before.providers, before.identities, before.accounts, before.sessions;
      attempts, intents, grants := before.attempts, before.intents, before.grants;
    }

    // Statements

    method Consume(id: Id)
      modifies this`attempts
      ensures attempts == old(attempts) - {id}
    {
      attempts := attempts - {id};
    }

    /** Compare-and-set of an intent's stage. */
    method AdvanceIntent(id: Id, from: Stage) returns (r: Result<(), Error>)
      modifies this`intents
      ensures
        var spec := Advance(old(View()), id, from);
        match spec case Ok(db) => r == Ok(()) && View() == db case Err(e) => r == Err(e) && intents == old(intents)
    {
      if from == Completed { return Err(Rejected); }
      var next := if from == ReauthenticationRequired then TargetReady else Completed;
      var rows := 0;
      if id in intents && intents[id].stage == from {
        intents := intents[id := intents[id].(stage := next)];
        rows := 1;
      }
      if rows != 1 { return Err(Rejected); }
      r := Ok(());
    }

    /** Deletes expired attempts, the earliest first, up to the limit. */
    method CleanupAttempts(now: int) returns (ghost gone: set<Id>)
      modifies this`attempts
      ensures |gone| <= PURGE_LIMIT && gone <= old(attempts).Keys && attempts == old(attempts) - gone
      ensures forall id :: id in gone ==> old(attempts)[id].expiry <= now
      ensures |gone| < PURGE_LIMIT ==> forall id :: id in old(attempts) && old(attempts)[id].expiry <= now ==> id in gone
      ensures EarliestGone(old(attempts), gone, now)
    {
      gone := {};
      var n := 0;
      assert attempts - gone == attempts;
      while n < PURGE_LIMIT && exists id :: id in attempts && attempts[id].expiry <= now
        invariant n == |gone| <= PURGE_LIMIT
        invariant gone <= old(attempts).Keys && attempts == old(attempts) - gone
        invariant forall id :: id in gone ==> old(attempts)[id].expiry <= now
        invariant EarliestGone(old(attempts), gone, now)
      {
        EarliestExists(attempts, attempts.Keys);
        var id :| id in attempts && forall other :: other in attempts ==> attempts[id].expiry <= attempts[other].expiry;
        OneMoreGone(old(attempts), gone, id, now);
        attempts := attempts - {id};
        gone := gone + {id};
        n := n + 1;
      }
      forall id | |gone| < PURGE_LIMIT && id in old(attempts) && old(attempts)[id].expiry <= now ensures id in gone {
        assert id in gone || id in attempts;
      }
    }

    /** Deletes expired intents no attempt refers to, up to the limit. */
    method CleanupIntents(now: int) returns (ghost gone: set<Id>)
      modifies this`intents
      ensures |gone| <= PURGE_LIMIT && gone <= old(intents).Keys && intents == old(intents) - gone
      ensures forall i :: i in gone ==> old(intents)[i].expiry <= now && Unreferenced(i)
      ensures |gone| < PURGE_LIMIT ==>
        forall i :: i in old(intents) && old(intents)[i].expiry <= now && Unreferenced(i) ==> i in gone
    {
      gone := {};
      var n := 0;
      assert intents - gone == intents;
      while n < PURGE_LIMIT && exists i :: i in intents && intents[i].expiry <= now && Unreferenced(i)
        invariant n == |gone| <= PURGE_LIMIT
        invariant gone <= old(intents).Keys && intents == old(intents) - gone
        invariant forall i :: i in gone ==> old(intents)[i].expiry <= now && Unreferenced(i)
      {
        var i :| i in intents && intents[i].expiry <= now && Unreferenced(i);
        intents := intents - {i};
        gone := gone + {i};
        n := n + 1;
      }
      forall i | |gone| < PURGE_LIMIT && i in old(intents) && old(intents)[i].expiry <= now && Unreferenced(i)
        ensures i in gone
      {
        assert i in gone || i in intents;
      }
    }

    method Cleanup(now: int) returns (ghost purge: Purge)
      modifies this`attempts, this`intents
      ensures PurgeAllowed(old(View()), now, purge) && View() == Purged(old(View()), purge)
    {
      ghost var attempts' := CleanupAttempts(now);
      ghost var intents' := CleanupIntents(now);
      purge := Purge(attempts', intents');
      forall i, id | i in intents' && id in old(attempts) && old(attempts)[id].link == Some(i) ensures id in attempts' {
        assert id in attempts' || id in attempts;
      }
      forall i | |intents'| < PURGE_LIMIT && i in old(intents) && old(intents)[i].expiry <= now && i !in intents'
        ensures StillReferred(old(View()), purge, i)
      {
        var a :| a in attempts && attempts[a].link == Some(i);
        assert a in old(attempts) && a !in attempts';
      }
    }

    predicate Unreferenced(i: Id)
      reads this`attempts
    {
      forall a :: a in attempts ==> attempts[a].link != Some(i)
    }

    method InsertNewAttempt(input: NewAttempt, now: int) returns (r: Result<(), Error>, ghost purge: Purge)
      modifies this`attempts, this`intents
      ensures r.Ok? ==> PurgeAllowed(old(View()), now, purge)
      ensures
        var spec := InsertAttempt(old(View()), input, now, purge);
        match spec case Ok(db) => r == Ok(()) && View() == db case Err(e) => r == Err(e)
    {
      purge := Purge({}, {});
      var exact := ExactProvider(View(), input.provider, input.version);
      if exact.Err? { return Err(exact.error), purge; }
      var expiry := AttemptExpiry(input, now);
      if (input.mode == StepUpMode) != input.hasContext { return Err(Rejected), purge; }
      if now >= expiry { return Err(Rejected), purge; }
      r, purge := CleanAndInsert(input.id, AttemptRow(input, now), now);
    }

    method CleanAndInsert(id: Id, row: Attempt, now: int) returns (r: Result<(), Error>, ghost purge: Purge)
      modifies this`attempts, this`intents
      ensures PurgeAllowed(old(View()), now, purge)
      ensures var clean := Purged(old(View()), purge);
        && r == (if |clean.attempts| >= ATTEMPT_LIMIT then Err(Rejected) else Ok(()))
        && (r.Ok? ==> View() == clean.(attempts := clean.attempts[id := row]))
    {
      purge := Cleanup(now);
      if |attempts| >= ATTEMPT_LIMIT { return Err(Rejected), purge; }
      attempts := attempts[id := row];
      r := Ok(());
    }

    method InsertSession(id: Id, row: Session, replaced: Option<Id>)
      modifies this`sessions
      ensures View() == WithSession(old(View()), id, row, replaced)
    {
      if replaced.Some? && replaced.value in sessions {
        sessions := sessions[replaced.value := sessions[replaced.value].(revoked := true)];
      }
      sessions := sessions[id := row];
    }

    /** Looks an external subject up by its unique key. */
    method SelectIdentity(provider: Id, issuer: string, subject: string) returns (r: Option<Id>)
      requires Valid()
      ensures r == FindIdentity(View(), provider, issuer, subject)
    {
      if id :| id in identities && Names(identities[id], provider, issuer, subject) {
        r := Some(id);
        assert FindIdentity(View(), provider, issuer, subject).Some?;
        assert SameKey(identities[id], identities[FindIdentity(View(), provider, issuer, subject).value]);
      } else {
        r := None;
      }
    }

    // Transactions of one attempt

    method BeginAuthentication(input: NewAttempt, proof: Option<Id>, profile: AssuranceProfile, checked: int, now: int)
      returns (r: Result<(), Error>, ghost purge: Purge)
      requires Valid()
      modifies this
      ensures Valid()
      ensures r.Ok? ==> PurgeAllowed(old(View()), now, purge)
      ensures Runs(
        old(View()), View(), r,
        Federation.BeginAuthentication(old(View()), input, proof, profile, checked, now, purge))
    {
      var before := View();
      purge := Purge({}, {});
      if input.mode == StepUpMode && proof.None? { return Err(Rejected), purge; }
      if proof.Some? {
        var actor := Lookup(View(), proof.value, checked);
        if actor.Err? { return Err(actor.error), purge; }
        if input.mode == StepUpMode {
          var current := ExactProvider(View(), input.provider, input.version);
          if current.Err? { return Err(current.error), purge; }
          if !StepUpReady(View(), actor.value.principal, input.provider, current.value, profile) {
            return Err(StepUpRefusal(current.value, profile)), purge;
          }
        }
      }
      r, purge := InsertNewAttempt(input.(purpose := Login, link := None, replacement := proof, expiry := None), now);
      if r.Err? { Rollback(before); }
    }

    method Cancel(call: Callback, issuer: string, at: Reads) returns (r: Result<(), Error>)
      requires Valid()
      modifies this
      ensures Valid()
      ensures LinksConsistent(old(attempts), old(intents)) ==>
        (r.Ok? <==>
           && Bound(old(View()), call, false, at)
           && old(providers)[old(attempts)[call.attempt].provider].settings.issuer == issuer)
      ensures View() == if r.Ok? then old(View()).(attempts := old(attempts) - {call.attempt}) else old(View())
      ensures Runs(old(View()), View(), r, Federation.Cancel(old(View()), call, issuer, at))
    {
      if LinksConsistent(attempts, intents) {
        CancelBound(View(), call, issuer, at);
      }
      var attempt := FindAttempt(View(), call, false, at.first);
      if attempt.Err? { return Err(attempt.error); }
      var provider := ExactProvider(View(), attempt.value.provider, attempt.value.version);
      if provider.Err? { return Err(provider.error); }
      if provider.value.settings.issuer != issuer { return Err(Claims); }
      var actor := CheckActor(View(), attempt.value, call.session, at.viewed, at.checked);
      if actor.Err? { return Err(actor.error); }
      Consume(call.attempt);
      r := Ok(());
    }

    method Claim(call: Callback, issuer: string, profile: AssuranceProfile, at: Reads) returns (r: Result<Claimed, Error>)
      requires Valid()
      modifies this
      ensures Valid()
      ensures LinksConsistent(old(attempts), old(intents)) ==> (r.Ok? <==> Claimable(old(View()), call, issuer, profile, at))
      ensures r.Ok? ==>
        && call.attempt in old(attempts)
        && var row := old(attempts)[call.attempt];
        && row.provider in providers && row.secrets.Some?
        && r.value == Claimed(row, providers[row.provider], row.secrets.value)
        && View() == old(View()).(attempts := old(attempts)[call.attempt := row.(secrets := None)])
      ensures r.Err? ==> View() == old(View())
      ensures Runs(old(View()), View(), r, Federation.Claim(old(View()), call, issuer, profile, at))
    {
      if LinksConsistent(attempts, intents) {
        ClaimBound(View(), call, issuer, profile, at);
      }
      var attempt := FindAttempt(View(), call, false, at.first);
      if attempt.Err? { return Err(attempt.error); }
      var row := attempt.value;
      var provider := ExactProvider(View(), row.provider, row.version);
      if provider.Err? { return Err(provider.error); }
      if provider.value.settings.issuer != issuer { return Err(Claims); }
      var actor := CheckActor(View(), row, call.session, at.viewed, at.checked);
      if actor.Err? { return Err(actor.error); }
      if row.mode == StepUpMode {
        if actor.value.None? { return Err(Rejected); }
        if !StepUpReady(View(), actor.value.value.principal, row.provider, provider.value, profile) {
          return Err(StepUpRefusal(provider.value, profile));
        }
      }
      var secrets := row.secrets.value;
      attempts := attempts[call.attempt := row.(secrets := None)];
      r := Ok(Claimed(row, provider.value, secrets));
    }

    /** Resolves or provisions the principal of an upstream subject. */
    method ResolvePrincipal(admission: Admission, claims: Upstream, drawn: Fresh)
      returns (r: Result<(Id, Id, bool), Error>)
      requires Valid()
      modifies this`accounts, this`identities
      ensures Valid() || r.Err?
      ensures
        var spec := Resolve(old(View()), admission, claims, drawn);
        match spec
        case Ok(resolved) => r == Ok((resolved.principal, resolved.identity, resolved.already)) && View() == resolved.db
        case Err(e) => r == Err(e)
    {
      var key, provider := StorageKey(claims.subject), admission.attempt.provider;
      var existing := SelectIdentity(provider, claims.issuer, key);
      var linked := admission.attempt.purpose == Link;
      var owner := drawn.principal;
      if linked {
        if admission.actor.None? { return Err(Rejected); }
        owner := admission.actor.value.principal;
      } else if existing.Some? {
        owner := identities[existing.value].principal;
      } else {
        if admission.attempt.mode == StepUpMode || !admission.provider.settings.jit { return Err(Rejected); }
        accounts := accounts[owner := Account(true, true, 1, 1, false)];
      }
      if existing.Some? {
        if identities[existing.value].principal != owner { return Err(Conflict); }
        r := Ok((owner, existing.value, true));
      } else {
        ghost var before := identities;
        identities := identities[drawn.identity := Identity(owner, provider, claims.issuer, key)];
        StillUnique(before, drawn.identity, identities[drawn.identity]);
        r := Ok((owner, drawn.identity, false));
      }
    }

    method Complete(
      call: Callback, claims: Upstream, profile: AssuranceProfile, drawn: Fresh, expires: int, at: Reads
    ) returns (r: Result<Completion, Error>)
      requires Valid()
      modifies this
      ensures Valid()
      ensures Runs(old(View()), View(), r, Federation.Complete(old(View()), call, claims, profile, drawn, expires, at))
    {
      var before := View();
      r := CompleteOpen(call, claims, profile, drawn, expires, at);
      if r.Err? { Rollback(before); }
    }

    /** The statements of a completion; a failure may leave some of them done, for the caller to roll back. */
    method CompleteOpen(
      call: Callback, claims: Upstream, profile: AssuranceProfile, drawn: Fresh, expires: int, at: Reads
    ) returns (r: Result<Completion, Error>)
      requires Valid()
      modifies this
      ensures Valid() || r.Err?
      ensures
        match Federation.Complete(old(View()), call, claims, profile, drawn, expires, at)
        case Committed(db, value) => r == Ok(value) && View() == db
        case RolledBack(e) => r == Err(e)
    {
      var admitted := Admit(View(), call, profile, at);
      if admitted.Err? { return Err(admitted.error); }
      var admission := admitted.value;
      var found := ResolvePrincipal(admission, claims, drawn);
      if found.Err? { return Err(found.error); }
      var principal, identity, already := found.value.0, found.value.1, found.value.2;
      if principal !in accounts || !accounts[principal].Active() { return Err(Rejected); }
      if !AssuranceMeets(claims.assurance, admission.attempt.mode, admission.attempt.created, at.now) {
        return Err(Claims);
      }
      ghost var resolved := Resolved(View(), principal, identity, already);
      if admission.attempt.mode == StepUpMode {
        r := CompleteStepUp(call, claims, admission, resolved, principal, identity, drawn, at);
      } else if admission.attempt.purpose == Link {
        r := CompleteLinking(call, admission, resolved, principal, already, drawn, expires, at);
      } else {
        r := CompleteLogin(call, claims, admission, resolved, principal, identity, already, drawn, expires, at);
      }
    }

    method CompleteStepUp(
      call: Callback, claims: Upstream, admission: Admission, ghost resolved: Resolved, principal: Id, identity: Id,
      drawn: Fresh, at: Reads
    ) returns (r: Result<Completion, Error>)
      requires resolved.db == View() && resolved.principal == principal && resolved.identity == identity
      modifies this`grants, this`attempts
      ensures
        match GrantStepUp(call, claims, admission, resolved, drawn, at)
        case Committed(db, value) => r == Ok(value) && View() == db
        case RolledBack(e) => r == Err(e)
    {
      if admission.actor.None? || admission.actor.value.principal != principal { return Err(Rejected); }
      var authenticated := claims.assurance.authTime;
      if authenticated.None? { return Err(Rejected); }
      if authenticated.value <= 0 || authenticated.value > at.granted || at.granted - authenticated.value >= GRANT_SECONDS {
        return Err(Rejected);
      }
      var provider := admission.provider;
      var expires := GrantExpiry(authenticated.value, admission.actor.value.expires);
      if expires <= at.granted { return Err(Rejected); }
      grants := grants - EndedGrants(grants, principal, at.granted);
      if |GrantsOf(grants, principal)| >= GRANT_LIMIT { return Err(Rejected); }
      grants := grants[drawn.grant := Grant(
        principal, admission.actor.value.session, identity, admission.attempt.provider, provider.version, provider.epoch,
        authenticated.value, expires)];
      if at.last >= admission.attempt.expiry { return Err(Rejected); }
      Consume(call.attempt);
      r := Ok(Granted(drawn.grant));
    }

    method CompleteLogin(
      call: Callback, claims: Upstream, admission: Admission, ghost resolved: Resolved, principal: Id, identity: Id,
      already: bool, drawn: Fresh, expires: int, at: Reads
    ) returns (r: Result<Completion, Error>)
      requires resolved == Resolved(View(), principal, identity, already) && principal in accounts
      modifies this`sessions, this`attempts
      ensures
        match IssueLogin(call, claims, admission, resolved, drawn, expires, at)
        case Committed(db, value) => r == Ok(value) && View() == db
        case RolledBack(e) => r == Err(e)
    {
      if admission.actor.Some? && admission.actor.value.principal != principal { return Err(Rejected); }
      if claims.facts.Err? { return Err(claims.facts.error); }
      var account := accounts[principal];
      var origin := Origin(identity, admission.provider.epoch, admission.provider.version, claims.facts.value);
      InsertSession(
        drawn.session, Session(principal, account.epoch, account.memberEpoch, Some(origin), false, expires),
        admission.attempt.replacement);
      if at.last >= admission.attempt.expiry { return Err(Rejected); }
      Consume(call.attempt);
      r := Ok(Issued(drawn.session, principal, false, already));
    }

    method CompleteLinking(
      call: Callback, admission: Admission, ghost resolved: Resolved, principal: Id, already: bool, drawn: Fresh,
      expires: int, at: Reads
    ) returns (r: Result<Completion, Error>)
      requires resolved.db == View() && resolved.principal == principal && resolved.already == already
      requires principal in accounts
      modifies this`accounts, this`intents, this`sessions, this`attempts
      ensures
        match CompleteLink(call, admission, resolved, drawn, expires, at)
        case Committed(db, value) => r == Ok(value) && View() == db
        case RolledBack(e) => r == Err(e)
    {
      if admission.attempt.link.None? || admission.attempt.link.value !in intents { return Err(Rejected); }
      var id := admission.attempt.link.value;
      var intent := intents[id];
      if intent.stage != TargetReady || intent.target != admission.attempt.provider
        || intent.version != admission.provider.version
      {
        return Err(Rejected);
      }
      var account := accounts[principal];
      var epoch := Checked(account.epoch + 1);
      if epoch.None? { return Err(Rejected); }
      accounts := accounts[principal := account.(epoch := epoch.value)];
      var advanced := AdvanceIntent(id, TargetReady);
      if advanced.Err? {
        // The stage was read in this transaction, so the compare-and-set cannot miss it.
        assert false;
      }
      if intent.origin.Some? {
        if !OriginAccepted(View(), principal, intent.origin.value) { return Err(Rejected); }
      } else if intent.localAuthenticatedAt.None? || !(0 < intent.localAuthenticatedAt.value <= at.now) {
        return Err(Rejected);
      }
      InsertSession(
        drawn.session, Session(principal, epoch.value, account.memberEpoch, intent.origin, false, expires),
        Some(intent.session));
      if at.last >= admission.attempt.expiry { return Err(Rejected); }
      Consume(call.attempt);
      r := Ok(Issued(drawn.session, principal, true, already));
    }

    // Linking

    method OpenIntent(
      session: Id, account: Account, candidate: Option<Candidate>, target: Id, targetVersion: int, intent: Id,
      input: NewAttempt, at: Reads
    ) returns (r: Result<NewAttempt, Error>)
      modifies this`intents
      ensures
        match Federation.OpenIntent(old(View()), session, account, candidate, target, targetVersion, intent, input, at)
        case Ok(open) => r == Ok(open.1) && View() == open.0
        case Err(e) => r == Err(e) && View() == old(View())
    {
      if candidate.Some? != account.localPassword { return Err(Rejected); }
      var found := Lookup(View(), session, at.first);
      if found.Err? { return Err(found.error); }
      var actor := found.value;
      var origin := if candidate.Some? then None else sessions[session].origin;
      if !actor.account.MatchesVerification(account) { return Err(Rejected); }
      if candidate.None? && origin.None? { return Err(Rejected); }
      var exact := ExactProvider(View(), target, targetVersion);
      if exact.Err? { return Err(exact.error); }
      if candidate.Some? && !actor.account.MatchesVerification(candidate.value.account) { return Err(Rejected); }
      if candidate.None? && origin.value.identity !in identities { return Err(Rejected); }
      var row := Intent(
        input.browser, actor.principal, session, account.epoch, account.memberEpoch, origin, None, target,
        exact.value.version, ReauthenticationRequired, at.now, at.now + INTENT_SECONDS);
      var bound := input.(hasContext := false, link := Some(intent), replacement := None, expiry := Some(row.expiry));
      if candidate.Some? {
        row := row.(localAuthenticatedAt := Some(candidate.value.authenticatedAt), stage := TargetReady);
        bound := bound.(provider := target, version := exact.value.version, purpose := Link, mode := LoginMode);
      } else {
        var source := identities[origin.value.identity].provider;
        bound := bound.(provider := source, purpose := Reauthenticate, mode := ReauthenticateMode);
      }
      intents := intents[intent := row];
      r := Ok(bound);
    }

    /** The statements of the transaction; a failure may leave the intent behind, for the caller to roll back. */
    method LinkRows(
      session: Id, account: Account, candidate: Option<Candidate>, target: Id, targetVersion: int, intent: Id,
      input: NewAttempt, at: Reads
    ) returns (r: Result<(), Error>, ghost purge: Purge)
      requires intent !in intents
      modifies this`intents, this`attempts
      ensures r.Ok? ==> PurgeAllowed(old(View()), at.last, purge)
      ensures
        var spec := Federation.BeginLink(
          old(View()), session, account, candidate, target, targetVersion, intent, input, at, purge);
        if spec.Committed? then r == Ok(spec.value) && View() == spec.db else r == Err(spec.error)
    {
      ghost var before := View();
      purge := Purge({}, {});
      var bound := OpenIntent(session, account, candidate, target, targetVersion, intent, input, at);
      if bound.Err? { return Err(bound.error), purge; }
      ghost var open := View();
      r, purge := InsertNewAttempt(bound.value, at.last);
      LinkInserts(before, session, account, candidate, target, targetVersion, intent, input, at, open, bound.value, purge);
    }

    method BeginLink(
      session: Id, account: Account, candidate: Option<Candidate>, target: Id, targetVersion: int, intent: Id,
      input: NewAttempt, at: Reads
    ) returns (r: Result<(), Error>, ghost purge: Purge)
      requires Valid() && intent !in intents
      modifies this
      ensures Valid()
      ensures r.Ok? ==> PurgeAllowed(old(View()), at.last, purge)
      ensures Runs(
        old(View()), View(), r,
        Federation.BeginLink(old(View()), session, account, candidate, target, targetVersion, intent, input, at, purge))
    {
      var before := View();
      r, purge := LinkRows(session, account, candidate, target, targetVersion, intent, input, at);
      if r.Err? { Rollback(before); }
    }

    method ReadTarget(intent: Id) returns (r: Result<(Id, Provider), Error>)
      ensures r.Ok? <==>
        && intent in intents && intents[intent].target in providers
        && providers[intents[intent].target].enabled && providers[intents[intent].target].version == intents[intent].version
      ensures r.Ok? ==> r.value == (intents[intent].target, providers[intents[intent].target])
      ensures r == Federation.ReadTarget(View(), intent)
    {
      if intent !in intents { return Err(Rejected); }
      var row := intents[intent];
      var exact := ExactProvider(View(), row.target, row.version);
      r := if exact.Err? then Err(exact.error) else Ok((row.target, exact.value));
    }

    /** The reauthenticated facts become the intent's source, its stage moves on and the old attempt goes. */
    method StoreSource(call: Callback, id: Id, version: I64, facts: Id) returns (r: Result<(), Error>)
      requires id in intents && intents[id].origin.Some?
      modifies this`intents, this`attempts
      ensures r == if old(intents)[id].stage == ReauthenticationRequired then Ok(()) else Err(Rejected)
      ensures r.Ok? ==> View() == Reauthenticated(old(View()), call, id, version, facts)
    {
      var origin := intents[id].origin.value.(version := version, facts := facts);
      intents := intents[id := intents[id].(origin := Some(origin))];
      r := AdvanceIntent(id, ReauthenticationRequired);
      if r.Ok? { Consume(call.attempt); }
    }

    /** The writes of a reauthentication; a failure may leave some of them done, for the caller to roll back. */
    method OpenTarget(call: Callback, id: Id, version: I64, facts: Id, bound: NewAttempt, now: int)
      returns (r: Result<(), Error>, ghost purge: Purge)
      requires id in intents && intents[id].origin.Some?
      modifies this`intents, this`attempts
      ensures r.Ok? ==> PurgeAllowed(Consumed(old(View()), call.attempt), now, purge)
      ensures old(intents)[id].stage != ReauthenticationRequired ==> r == Err(Rejected)
      ensures old(intents)[id].stage == ReauthenticationRequired ==>
        match InsertAttempt(Reauthenticated(old(View()), call, id, version, facts), bound, now, purge)
        case Ok(db) => r == Ok(()) && View() == db
        case Err(e) => r == Err(e)
    {
      ghost var before := View();
      purge := Purge({}, {});
      r := StoreSource(call, id, version, facts);
      if r.Err? { return r, purge; }
      r, purge := InsertNewAttempt(bound, now);
      if r.Ok? {
        PurgeBeforeStoring(before, call, id, version, facts, now, purge);
      }
    }

    method FinishReauthentication(
      call: Callback, source: (Id, Provider), target: (Id, Provider), claims: Upstream, input: NewAttempt, at: Reads
    ) returns (r: Result<(), Error>, ghost purge: Purge)
      requires Valid()
      modifies this
      ensures Valid()
      ensures r.Ok? ==> PurgeAllowed(Consumed(old(View()), call.attempt), at.last, purge)
      ensures Runs(
        old(View()), View(), r,
        Federation.FinishReauthentication(old(View()), call, source, target, claims, input, at, purge))
    {
      var before := View();
      purge := Purge({}, {});
      var found := FindAttempt(View(), call, true, at.first);
      if found.Err? { return Err(found.error), purge; }
      var row := found.value;
      var current := ExactProvider(View(), source.0, source.1.version);
      if current.Err? { return Err(current.error), purge; }
      var actor := CheckActor(View(), row, call.session, at.viewed, at.checked);
      if actor.Err? { return Err(actor.error), purge; }
      if row.link.None? || row.link.value !in intents { return Err(Rejected), purge; }
      var id := row.link.value;
      var intent := intents[id];
      if intent.origin.None? || !OriginAccepted(View(), intent.principal, intent.origin.value) {
        return Err(Rejected), purge;
      }
      var identity := identities[intent.origin.value.identity];
      if identity.provider != source.0 || identity.issuer != claims.issuer || identity.subject != StorageKey(claims.subject)
        || !AssuranceMeets(claims.assurance, ReauthenticateMode, row.created, at.now)
      {
        return Err(Claims), purge;
      }
      if claims.facts.Err? { return Err(claims.facts.error), purge; }
      r, purge := OpenTarget(
        call, id, source.1.version, claims.facts.value,
        input.(
          provider := target.0, version := target.1.version, purpose := Link, mode := LoginMode, hasContext := false,
          browser := row.browser, link := Some(id), replacement := None, expiry := Some(intent.expiry)),
        at.last);
      if r.Err? { Rollback(before); }
    }

    // Providers and native subjects

    method CreateProvider(id: Id, settings: Settings, assurance: Id) returns (r: Result<(), Error>)
      requires Valid()
      modifies this`providers
      ensures Valid()
      ensures r.Ok? <==> |old(providers)| < PROVIDER_LIMIT
      ensures r.Ok? ==>
        && id in providers && providers == old(providers)[id := providers[id]]
        && !providers[id].enabled && providers[id].settings == settings && providers[id].assurance == assurance
        && providers[id].version == providers[id].epoch == providers[id].credentialVersion == 1
      ensures r.Err? ==> providers == old(providers)
      ensures Runs(old(View()), View(), r, Federation.CreateProvider(old(View()), id, settings, assurance))
    {
      if |providers| >= PROVIDER_LIMIT { return Err(LimitReached); }
      providers := providers[id := Provider(1, 1, false, settings, assurance, 1)];
      r := Ok(());
    }

    method EditProvider(id: Id, expected: int, settings: Settings, assurance: Id) returns (r: Result<(), Error>)
      requires Valid()
      modifies this`providers
      ensures Valid()
      ensures r.Ok? <==>
        && id in old(providers)
        && var row := old(providers)[id];
        && row.version == expected && settings.issuer == row.settings.issuer
        && row.version < I64_MAX && row.epoch < I64_MAX && row.credentialVersion < I64_MAX
      ensures r.Ok? ==>
        && id in providers && providers == old(providers)[id := providers[id]]
        && var was, row := old(providers)[id], providers[id];
        && row.version == was.version + 1 && row.epoch == was.epoch + 1
        && row.credentialVersion == was.credentialVersion + 1
        && row.enabled == was.enabled && row.settings == settings && row.assurance == assurance
      ensures r.Err? ==> providers == old(providers)
      ensures Runs(old(View()), View(), r, Federation.EditProvider(old(View()), id, expected, settings, assurance))
    {
      if id !in providers { return Err(Rejected); }
      var view := providers[id];
      if view.version != expected { return Err(StaleConfiguration); }
      if settings.issuer != view.settings.issuer { return Err(Configuration); }
      var credential := Checked(view.credentialVersion + 1);
      if credential.None? { return Err(Rejected); }
      view := view.(settings := settings, assurance := assurance, credentialVersion := credential.value);
      var epoch := Checked(view.epoch + 1);
      if epoch.None? { return Err(Rejected); }
      view := view.(epoch := epoch.value);
      var version := Checked(view.version + 1);
      if version.None? { return Err(Rejected); }
      view := view.(version := version.value);
      providers := providers[id := view];
      r := Ok(());
    }

    method EnableProvider(id: Id, expected: int, enabled: bool) returns (r: Result<(), Error>)
      requires Valid()
      modifies this`providers
      ensures Valid()
      ensures r.Ok? <==>
        && id in old(providers)
        && var row := old(providers)[id];
        && row.version == expected && row.version < I64_MAX && (row.enabled != enabled ==> row.epoch < I64_MAX)
      ensures r.Ok? ==>
        && id in providers && providers == old(providers)[id := providers[id]]
        && var was, row := old(providers)[id], providers[id];
        && row.version == was.version + 1 && row.enabled == enabled
        && row.epoch == was.epoch + (if was.enabled != enabled then 1 else 0)
        && row.credentialVersion == was.credentialVersion && row.settings == was.settings && row.assurance == was.assurance
      ensures r.Err? ==> providers == old(providers)
      ensures Runs(old(View()), View(), r, Federation.EnableProvider(old(View()), id, expected, enabled))
    {
      if id !in providers { return Err(Rejected); }
      var view := providers[id];
      if view.version != expected { return Err(StaleConfiguration); }
      if view.enabled != enabled {
        var epoch := Checked(view.epoch + 1);
        if epoch.None? { return Err(Rejected); }
        view := view.(epoch := epoch.value, enabled := enabled);
      }
      var version := Checked(view.version + 1);
      if version.None? { return Err(Rejected); }
      providers := providers[id := view.(version := version.value)];
      r := Ok(());
    }

    method ResolveEntra(proof: EntraProof, drawn: Fresh) returns (r: Result<Id, Error>)
      requires Valid()
      modifies this
      ensures Valid()
      ensures Runs(old(View()), View(), r, Federation.ResolveEntra(old(View()), proof, drawn))
    {
      var before := View();
      if proof.provider !in providers { return Err(Rejected); }
      var row := providers[proof.provider];
      if !EntraCurrent(proof, row) { return Err(Rejected); }
      var key := StorageKey(EntraSubject(proof.tenant, proof.user));
      var existing := SelectIdentity(proof.provider, row.settings.issuer, key);
      var principal := drawn.principal;
      if existing.Some? {
        principal := identities[existing.value].principal;
      } else {
        if !row.settings.jit { return Err(Rejected); }
        accounts := accounts[principal := Account(true, true, 1, 1, false)];
        ghost var known := identities;
        identities := identities[drawn.identity := Identity(principal, proof.provider, row.settings.issuer, key)];
        StillUnique(known, drawn.identity, identities[drawn.identity]);
      }
      if principal !in accounts || !accounts[principal].Active() {
        Rollback(before);
        return Err(Rejected);
      }
      r := Ok(principal);
    }
  }

  lemma StillUnique(identities: map<Id, Identity>, id: Id, row: Identity)
    requires forall i, j :: i in identities && j in identities && SameKey(identities[i], identities[j]) ==> i == j
    requires forall i :: i in identities ==> !SameKey(identities[i], row)
    ensures var next := identities[id := row];
      forall i, j :: i in next && j in next && SameKey(next[i], next[j]) ==> i == j
  {
  }

  /** What a cleanup may pick depends on nothing but the attempts and the ends of the intents. */
  lemma PurgeSameTimes(db: Tables, other: Tables, now: int, purge: Purge)
    requires PurgeAllowed(db, now, purge)
    requires other.attempts == db.attempts && other.intents.Keys == db.intents.Keys
    requires forall i :: i in db.intents ==> other.intents[i].expiry == db.intents[i].expiry
    ensures PurgeAllowed(other, now, purge)
  {
    forall i | StillReferred(db, purge, i) ensures StillReferred(other, purge, i) {
    }
  }

  /** The new source changes no expiry, so the cleanup after it picks rows it could have picked before. */
  lemma PurgeBeforeStoring(db: Tables, call: Callback, id: Id, version: I64, facts: Id, now: int, purge: Purge)
    requires id in db.intents && db.intents[id].origin.Some?
    requires PurgeAllowed(Reauthenticated(db, call, id, version, facts), now, purge)
    ensures PurgeAllowed(Consumed(db, call.attempt), now, purge)
  {
    PurgeSameTimes(Reauthenticated(db, call, id, version, facts), Consumed(db, call.attempt), now, purge);
  }

  /** Once the intent is open, what the insertion does is what the transaction does. */
  lemma LinkInserts(
    before: Tables, session: Id, account: Account, candidate: Option<Candidate>, target: Id, targetVersion: int,
    intent: Id, input: NewAttempt, at: Reads, open: Tables, bound: NewAttempt, purge: Purge)
    requires intent !in before.intents
    requires Federation.OpenIntent(before, session, account, candidate, target, targetVersion, intent, input, at)
      == Ok((open, bound))
    ensures
      Federation.BeginLink(before, session, account, candidate, target, targetVersion, intent, input, at, purge)
      == match InsertAttempt(open, bound, at.last, purge) case Ok(db) => Committed(db, ()) case Err(e) => RolledBack(e)
    ensures InsertAttempt(open, bound, at.last, purge).Ok? && PurgeAllowed(open, at.last, purge) ==>
      PurgeAllowed(before, at.last, purge)
  {
    if InsertAttempt(open, bound, at.last, purge).Ok? && PurgeAllowed(open, at.last, purge) {
      var row := open.intents[intent];
      assert open == before.(intents := before.intents[intent := row]);
      PurgeBeforeOpening(before, intent, row, at.last, purge);
    }
  }

  /** The cleanup that follows the opening of an unexpired intent picks rows it could have picked before. */
  lemma PurgeBeforeOpening(db: Tables, id: Id, row: Intent, now: int, purge: Purge)
    requires id !in db.intents && row.expiry > now
    requires PurgeAllowed(db.(intents := db.intents[id := row]), now, purge)
    ensures PurgeAllowed(db, now, purge)
  {
    assert id !in purge.intents;
  }
}
