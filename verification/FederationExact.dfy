/**
  When each transaction of the protocol commits and what it leaves, in terms of the tables it finds: no condition names a
  step of the transaction it is about.
*/
module FederationExact {
  import opened Assurances
  import opened Common
  import opened ExternalSubjects
  import opened Federation
  import opened FederationRuns
  import opened FederationInvariants
  import opened FederationSteps
  import opened FederationTheorems
  import opened FederationBindings

  // Beginning

  predicate Offered(db: Tables, provider: Id, version: int) {
    provider in db.providers && db.providers[provider].enabled && db.providers[provider].version == version
  }

  /** An attempt row as it is inserted: for 120 seconds, or less if it must end before. */
  function NewRow(input: NewAttempt, now: int): Attempt {
    Attempt(
      input.provider, input.version, input.state, input.browser, input.purpose, input.mode, Some(input.secrets), now,
      match input.expiry case None => now + 120 case Some(end) => Min(end, now + 120), input.link, input.replacement)
  }

  lemma InsertsExactly(db: Tables, input: NewAttempt, now: int, purge: Purge)
    ensures
      var r := InsertAttempt(db, input, now, purge);
      && (r.Ok? <==>
            && Offered(db, input.provider, input.version)
            && (input.hasContext <==> input.mode == StepUpMode)
            && (input.expiry.Some? ==> now < input.expiry.value)
            && |db.attempts - purge.attempts| < 10000)
      && (r.Ok? ==>
            r.value == db.(
              attempts := (db.attempts - purge.attempts)[input.id := NewRow(input, now)],
              intents := db.intents - purge.intents))
  {
  }

  /** What a caller can check before it begins a login or a step-up. */
  ghost predicate Beginnable(
    db: Tables, input: NewAttempt, proof: Option<Id>, profile: AssuranceProfile, checked: int, purge: Purge)
  {
    && (proof.Some? ==> Live(db, proof.value, checked))
    && (input.mode == StepUpMode ==>
          proof.Some? && CanStepUp(db, db.sessions[proof.value].principal, input.provider, profile))
    && (input.hasContext <==> input.mode == StepUpMode)
    && Offered(db, input.provider, input.version)
    && |db.attempts - purge.attempts| < 10000
  }

  /**
    A login or a step-up begins exactly when a presented session is live, a step-up has one whose principal can step up and
    an operation to step up for, the provider is offered, and the cleanup leaves room. The attempt lives for 120 seconds.
  */
  lemma BeginsExactly(
    db: Tables, input: NewAttempt, proof: Option<Id>, profile: AssuranceProfile, checked: int, now: int, purge: Purge)
    ensures
      var r := BeginAuthentication(db, input, proof, profile, checked, now, purge);
      && (r.Committed? <==> Beginnable(db, input, proof, profile, checked, purge))
      && (r.Committed? ==>
            r.db == db.(
              attempts := (db.attempts - purge.attempts)[input.id := Attempt(
                input.provider, input.version, input.state, input.browser, Login, input.mode, Some(input.secrets), now,
                now + 120, None, proof)],
              intents := db.intents - purge.intents))
  {
    if proof.Some? {
      LookupFinds(db, proof.value, checked);
      if Live(db, proof.value, checked) && input.provider in db.providers {
        StepUpWhen(db, db.sessions[proof.value].principal, input.provider, profile);
      }
    }
    InsertsExactly(db, input.(purpose := Login, link := None, replacement := proof, expiry := None), now, purge);
  }

  // Linking

  predicate SameAccount(read: Account, now: Account) {
    read.epoch == now.epoch && read.memberEpoch == now.memberEpoch && read.localPassword == now.localPassword
  }

  /** The session is live on the account that was read, and the target is offered; with a password, it was proved. */
  predicate LinkOpenable(
    db: Tables, session: Id, account: Account, candidate: Option<Candidate>, target: Id, version: int, now: int)
  {
    && Live(db, session, now)
    && var row := db.sessions[session];
    && var current := db.accounts[row.principal];
    && SameAccount(account, current)
    && Offered(db, target, version)
    && match candidate
       case Some(proved) => current.localPassword && SameAccount(proved.account, current)
       case None => !current.localPassword && row.origin.Some?
  }

  /** What a caller can check before it opens a link. */
  ghost predicate LinkBeginnable(
    db: Tables, session: Id, account: Account, candidate: Option<Candidate>, target: Id, version: int, input: NewAttempt,
    at: Reads, purge: Purge)
  {
    && LinkOpenable(db, session, account, candidate, target, version, at.first)
    && (candidate.None? ==>
          Offered(db, db.identities[db.sessions[session].origin.value.identity].provider, input.version))
    && at.last < at.now + 300
    && |db.attempts - purge.attempts| < 10000
  }

  /** The intent of a new link, column by column: ready for its target after a password, else to be reauthenticated. */
  function NewIntent(
    db: Tables, session: Id, candidate: Option<Candidate>, target: Id, version: I64, browser: Id, now: int): Intent
    requires session in db.sessions && db.sessions[session].principal in db.accounts
  {
    var row := db.sessions[session];
    var account := db.accounts[row.principal];
    match candidate
    case Some(proved) =>
      Intent(browser, row.principal, session, account.epoch, account.memberEpoch, None, Some(proved.authenticatedAt),
             target, version, TargetReady, now, now + 300)
    case None =>
      Intent(browser, row.principal, session, account.epoch, account.memberEpoch, row.origin, None,
             target, version, ReauthenticationRequired, now, now + 300)
  }

  /** Its first attempt, column by column: at the target after a password, else at the provider the session came from. */
  function FirstAttempt(
    db: Tables, session: Id, candidate: Option<Candidate>, target: Id, version: I64, intent: Id, input: NewAttempt,
    at: Reads): Attempt
    requires session in db.sessions
    requires candidate.None? ==>
      db.sessions[session].origin.Some? && db.sessions[session].origin.value.identity in db.identities
  {
    var end := Min(at.now + 300, at.last + 120);
    match candidate
    case Some(_) =>
      Attempt(target, version, input.state, input.browser, Link, LoginMode, Some(input.secrets), at.last, end,
              Some(intent), None)
    case None =>
      Attempt(db.identities[db.sessions[session].origin.value.identity].provider, input.version, input.state,
              input.browser, Reauthenticate, ReauthenticateMode, Some(input.secrets), at.last, end, Some(intent), None)
  }

  ghost function LinkOpened(
    db: Tables, session: Id, candidate: Option<Candidate>, target: Id, version: I64, intent: Id, input: NewAttempt,
    at: Reads, purge: Purge): Tables
    requires session in db.sessions && db.sessions[session].principal in db.accounts
    requires candidate.None? ==>
      db.sessions[session].origin.Some? && db.sessions[session].origin.value.identity in db.identities
  {
    db.(
      intents := db.intents[intent := NewIntent(db, session, candidate, target, version, input.browser, at.now)]
        - purge.intents,
      attempts := (db.attempts - purge.attempts)[
        input.id := FirstAttempt(db, session, candidate, target, version, intent, input, at)])
  }

  lemma OpensExactly(
    db: Tables, session: Id, account: Account, candidate: Option<Candidate>, target: Id, version: int, intent: Id,
    input: NewAttempt, at: Reads)
    ensures
      var r := OpenIntent(db, session, account, candidate, target, version, intent, input, at);
      && (r.Ok? <==> LinkOpenable(db, session, account, candidate, target, version, at.first))
      && (r.Ok? ==>
            && r.value.0 == db.(
                 intents := db.intents[
                   intent := NewIntent(db, session, candidate, target, version, input.browser, at.now)])
            && r.value.1.id == input.id && !r.value.1.hasContext && r.value.1.mode != StepUpMode
            && r.value.1.expiry == Some(at.now + 300)
            && NewRow(r.value.1, at.last) == FirstAttempt(db, session, candidate, target, version, intent, input, at))
  {
    LookupFinds(db, session, at.first);
  }

  /**
    A link opens exactly when its session is live on the account that was read, the target is offered, and either a password
    of that account was proved, if it has one, or the session came from a provider that is offered.
  */
  lemma LinksExactly(
    db: Tables, session: Id, account: Account, candidate: Option<Candidate>, target: Id, version: int, intent: Id,
    input: NewAttempt, at: Reads, purge: Purge)
    ensures
      var r := BeginLink(db, session, account, candidate, target, version, intent, input, at, purge);
      && (r.Committed? <==> LinkBeginnable(db, session, account, candidate, target, version, input, at, purge))
      && (r.Committed? ==> r.db == LinkOpened(db, session, candidate, target, version, intent, input, at, purge))
  {
    OpensExactly(db, session, account, candidate, target, version, intent, input, at);
    var open := OpenIntent(db, session, account, candidate, target, version, intent, input, at);
    if open.Ok? {
      InsertsExactly(open.value.0, open.value.1, at.last, purge);
    }
  }

  // Reauthentication

  /** The caller is bound to a claimed reauthentication, and the owner of the session's identity was just authenticated. */
  ghost predicate Reauthenticates(db: Tables, call: Callback, claims: Upstream, at: Reads) {
    && Bound(db, call, true, at)
    && var row := db.attempts[call.attempt];
    && row.purpose == Reauthenticate && row.link.Some?
    && var intent := db.intents[row.link.value];
    && intent.origin.Some? && OriginCurrent(db, intent.principal, intent.origin.value)
    && var identity := db.identities[intent.origin.value.identity];
    && identity.provider == row.provider && identity.issuer == claims.issuer
    && identity.subject == StorageKey(claims.subject)
    && Proves(claims.assurance, ReauthenticateMode, row.created, at.now) && claims.facts.Ok?
  }

  /** What a caller can check before it finishes a reauthentication. */
  ghost predicate Finishable(db: Tables, call: Callback, target: Seen, claims: Upstream, at: Reads, purge: Purge) {
    && Reauthenticates(db, call, claims, at)
    && Offered(db, target.0, target.1.version)
    && at.last < db.intents[db.attempts[call.attempt].link.value].expiry
    && |db.attempts - {call.attempt} - purge.attempts| < 10000
  }

  /** What it leaves, column by column: the intent under its new facts, and the attempt at its target. */
  ghost function Redirected(
    db: Tables, call: Callback, target: Seen, facts: Id, input: NewAttempt, at: Reads, purge: Purge): Tables
    requires call.attempt in db.attempts && db.attempts[call.attempt].link.Some?
    requires db.attempts[call.attempt].link.value in db.intents
    requires db.intents[db.attempts[call.attempt].link.value].origin.Some?
  {
    var row := db.attempts[call.attempt];
    var id := row.link.value;
    var intent := db.intents[id];
    var origin := Origin(intent.origin.value.identity, intent.origin.value.epoch, row.version, facts);
    db.(
      intents := db.intents[id := Intent(
        intent.browser, intent.principal, intent.session, intent.epoch, intent.memberEpoch, Some(origin),
        intent.localAuthenticatedAt, intent.target, intent.version, TargetReady, intent.created, intent.expiry)]
        - purge.intents,
      attempts := (db.attempts - {call.attempt} - purge.attempts)[input.id := Attempt(
        target.0, target.1.version, input.state, row.browser, Link, LoginMode, Some(input.secrets), at.last,
        Min(intent.expiry, at.last + 120), Some(id), None)])
  }

  /** What the reauthentication inserts: the linking attempt of the same intent and browser. */
  function NextAttempt(row: Attempt, intent: Intent, target: Seen, input: NewAttempt): NewAttempt {
    input.(
      provider := target.0, version := target.1.version, purpose := Link, mode := LoginMode, hasContext := false,
      browser := row.browser, link := row.link, replacement := None, expiry := Some(intent.expiry))
  }

  lemma FinishChecks(
    db: Tables, call: Callback, source: Seen, target: Seen, claims: Upstream, input: NewAttempt, at: Reads, purge: Purge)
    requires LinksConsistent(db.attempts, db.intents) && call.purpose == Reauthenticate
    requires call.attempt in db.attempts ==>
      source.0 == db.attempts[call.attempt].provider && source.1.version == db.attempts[call.attempt].version
    ensures FinishReauthentication(db, call, source, target, claims, input, at, purge).Committed? <==>
      && Reauthenticates(db, call, claims, at)
      && var row := db.attempts[call.attempt];
      InsertAttempt(Reauthenticated(db, call, row.link.value, source.1.version, claims.facts.value),
                    NextAttempt(row, db.intents[row.link.value], target, input), at.last, purge).Ok?
  {
    if call.attempt in db.attempts && db.attempts[call.attempt].browser == call.browser {
      ActorBound(db, call, at);
      AssuranceWhen(claims.assurance, ReauthenticateMode, db.attempts[call.attempt].created, at.now);
    }
  }

  lemma FinishWhen(
    db: Tables, call: Callback, source: Seen, target: Seen, claims: Upstream, input: NewAttempt, at: Reads, purge: Purge)
    requires LinksConsistent(db.attempts, db.intents) && call.purpose == Reauthenticate
    requires call.attempt in db.attempts ==>
      source.0 == db.attempts[call.attempt].provider && source.1.version == db.attempts[call.attempt].version
    ensures FinishReauthentication(db, call, source, target, claims, input, at, purge).Committed?
      <==> Finishable(db, call, target, claims, at, purge)
  {
    FinishChecks(db, call, source, target, claims, input, at, purge);
    if Reauthenticates(db, call, claims, at) {
      var row := db.attempts[call.attempt];
      InsertsExactly(Reauthenticated(db, call, row.link.value, source.1.version, claims.facts.value),
                     NextAttempt(row, db.intents[row.link.value], target, input), at.last, purge);
    }
  }

  lemma FinishLeaves(
    db: Tables, call: Callback, source: Seen, target: Seen, claims: Upstream, input: NewAttempt, at: Reads, purge: Purge)
    requires FinishReauthentication(db, call, source, target, claims, input, at, purge).Committed?
    requires call.attempt in db.attempts ==> source.1.version == db.attempts[call.attempt].version
    ensures call.attempt in db.attempts && claims.facts.Ok?
    ensures
      var link := db.attempts[call.attempt].link;
      link.Some? && link.value in db.intents && db.intents[link.value].origin.Some?
    ensures FinishReauthentication(db, call, source, target, claims, input, at, purge).db
      == Redirected(db, call, target, claims.facts.value, input, at, purge)
  {
    FinishInserts(db, call, source, target, claims, input, at, purge);
    var row := db.attempts[call.attempt];
    InsertsExactly(Reauthenticated(db, call, row.link.value, source.1.version, claims.facts.value),
                   NextAttempt(row, db.intents[row.link.value], target, input), at.last, purge);
  }

  lemma FinishInserts(
    db: Tables, call: Callback, source: Seen, target: Seen, claims: Upstream, input: NewAttempt, at: Reads, purge: Purge)
    requires FinishReauthentication(db, call, source, target, claims, input, at, purge).Committed?
    ensures call.attempt in db.attempts && claims.facts.Ok?
    ensures
      var row := db.attempts[call.attempt];
      && row.link.Some? && row.link.value in db.intents && db.intents[row.link.value].origin.Some?
      && InsertAttempt(
           Reauthenticated(db, call, row.link.value, source.1.version, claims.facts.value),
           NextAttempt(row, db.intents[row.link.value], target, input), at.last, purge)
         == Ok(FinishReauthentication(db, call, source, target, claims, input, at, purge).db)
  {
  }

  /**
    A reauthentication finishes exactly when its caller is bound to the claimed attempt, the owner of the session's own
    identity was freshly authenticated, and the target is still offered.
  */
  lemma FinishesExactly(w: World, s: Step)
    requires Reachable(w) && Possible(w, s) && s.FinishReauthenticationStep?
    ensures
      var target := w.flights[s.call.attempt].target.value;
      var r := FinishReauthentication(
        w.db, s.call, w.flights[s.call.attempt].source, target, s.claims, s.input, s.at, s.purge);
      && (r.Committed? <==> Finishable(w.db, s.call, target, s.claims, s.at, s.purge))
      && (r.Committed? ==> r.db == Redirected(w.db, s.call, target, s.claims.facts.value, s.input, s.at, s.purge))
  {
    ReachableInv(w);
    var flight := w.flights[s.call.attempt];
    assert flight.source in RowsOf(w.log, s.call.attempt);
    FinishWhen(w.db, s.call, flight.source, flight.target.value, s.claims, s.input, s.at, s.purge);
    if Finishable(w.db, s.call, flight.target.value, s.claims, s.at, s.purge) {
      FinishLeaves(w.db, s.call, flight.source, flight.target.value, s.claims, s.input, s.at, s.purge);
    }
  }

  // Completion

  /** The session a completion ends, closed. */
  function Closed(sessions: map<Id, Session>, id: Id): map<Id, Session> {
    if id in sessions then sessions[id := sessions[id].(revoked := true)] else sessions
  }

  /** The identity of a subject and the tables with it: the row there is, or a new one of this principal. */
  ghost function IdentityOf(db: Tables, provider: Id, claims: Upstream, drawn: Fresh): Id {
    var found := FindIdentity(db, provider, claims.issuer, StorageKey(claims.subject));
    if found.Some? then found.value else drawn.identity
  }

  /** A completed login, column by column. */
  ghost function LoggedIn(db: Tables, call: Callback, claims: Upstream, drawn: Fresh, expires: int): Tables
    requires call.attempt in db.attempts && db.attempts[call.attempt].provider in db.providers && claims.facts.Ok?
    requires
      var owner := Owner(db, db.attempts[call.attempt].provider, claims.issuer, claims.subject);
      owner.Some? ==> owner.value in db.accounts
  {
    var row := db.attempts[call.attempt];
    var provider := db.providers[row.provider];
    var origin := Some(
      Origin(IdentityOf(db, row.provider, claims, drawn), provider.epoch, provider.version, claims.facts.value));
    var closed := if row.replacement.Some? then Closed(db.sessions, row.replacement.value) else db.sessions;
    match Owner(db, row.provider, claims.issuer, claims.subject)
    case Some(owner) =>
      var account := db.accounts[owner];
      db.(
        attempts := db.attempts - {call.attempt},
        sessions := closed[drawn.session := Session(owner, account.epoch, account.memberEpoch, origin, false, expires)])
    case None =>
      Provisioned(db, drawn.principal, drawn.identity, row.provider, claims.issuer, claims.subject).(
        attempts := db.attempts - {call.attempt},
        sessions := closed[drawn.session := Session(drawn.principal, 1, 1, origin, false, expires)])
  }

  /** A login leaves its session, the account and identity where it provisions, and nothing of its attempt. */
  lemma LoginLeaves(
    db: Tables, call: Callback, claims: Upstream, profile: AssuranceProfile, drawn: Fresh, expires: int, at: Reads)
    requires LinksConsistent(db.attempts, db.intents) && call.purpose == Login
    requires
      var r := Complete(db, call, claims, profile, drawn, expires, at);
      r.Committed? && r.value.Issued?
    ensures call.attempt in db.attempts && db.attempts[call.attempt].provider in db.providers && claims.facts.Ok?
    ensures
      var owner := Owner(db, db.attempts[call.attempt].provider, claims.issuer, claims.subject);
      && (owner.Some? ==> owner.value in db.accounts)
      && Complete(db, call, claims, profile, drawn, expires, at) == Committed(
           LoggedIn(db, call, claims, drawn, expires),
           Issued(drawn.session, if owner.Some? then owner.value else drawn.principal, false, owner.Some?))
  {
    assert PurposeFits(db.attempts[call.attempt]);
  }

  /** A completed link, column by column. */
  ghost function LinkedUp(db: Tables, call: Callback, claims: Upstream, drawn: Fresh, expires: int): Tables
    requires call.attempt in db.attempts && db.attempts[call.attempt].link.Some?
    requires db.attempts[call.attempt].link.value in db.intents
    requires var intent := db.intents[db.attempts[call.attempt].link.value];
      intent.principal in db.accounts && intent.epoch < I64_MAX
  {
    var row := db.attempts[call.attempt];
    var id := row.link.value;
    var intent := db.intents[id];
    var account := db.accounts[intent.principal];
    var key := StorageKey(claims.subject);
    db.(
      accounts := db.accounts[intent.principal := account.(epoch := intent.epoch + 1)],
      intents := db.intents[id := intent.(stage := Completed)],
      attempts := db.attempts - {call.attempt},
      sessions := Closed(db.sessions, intent.session)[
        drawn.session :=
          Session(intent.principal, intent.epoch + 1, intent.memberEpoch, intent.origin, false, expires)],
      identities :=
        if Owner(db, row.provider, claims.issuer, claims.subject).Some? then db.identities
        else db.identities[drawn.identity := Identity(intent.principal, row.provider, claims.issuer, key)])
  }

  /** A link leaves the raised epoch, the completed intent, its session, and the identity if nobody had it. */
  lemma LinkLeaves(
    db: Tables, call: Callback, claims: Upstream, profile: AssuranceProfile, drawn: Fresh, expires: int, at: Reads)
    requires LinksConsistent(db.attempts, db.intents) && call.purpose == Link
    requires Complete(db, call, claims, profile, drawn, expires, at).Committed?
    ensures call.attempt in db.attempts && db.attempts[call.attempt].link.Some?
    ensures db.attempts[call.attempt].link.value in db.intents
    ensures var intent := db.intents[db.attempts[call.attempt].link.value];
      && intent.principal in db.accounts && intent.epoch < I64_MAX
      && Complete(db, call, claims, profile, drawn, expires, at) == Committed(
           LinkedUp(db, call, claims, drawn, expires),
           Issued(drawn.session, intent.principal, true,
                  Owner(db, db.attempts[call.attempt].provider, claims.issuer, claims.subject).Some?))
  {
    assert PurposeFits(db.attempts[call.attempt]);
  }

  /** A granted step-up, column by column: the principal's ended grants go, and the new one ends with its session at most. */
  ghost function SteppedUp(db: Tables, call: Callback, claims: Upstream, drawn: Fresh, granted: int): Tables
    requires call.attempt in db.attempts && db.attempts[call.attempt].provider in db.providers
    requires call.session.Some? && call.session.value in db.sessions && claims.assurance.authTime.Some?
  {
    var row := db.attempts[call.attempt];
    var provider := db.providers[row.provider];
    var session := db.sessions[call.session.value];
    var proved := claims.assurance.authTime.value;
    var ended := set g | g in db.grants && db.grants[g].principal == session.principal && db.grants[g].expires <= granted;
    db.(
      attempts := db.attempts - {call.attempt},
      grants := (db.grants - ended)[drawn.grant := Grant(
        session.principal, call.session.value, IdentityOf(db, row.provider, claims, drawn), row.provider,
        provider.version, provider.epoch, proved, Min(proved + 300, session.expires))])
  }

  /** A step-up leaves its grant, and nothing of its attempt. */
  lemma StepUpLeaves(
    db: Tables, call: Callback, claims: Upstream, profile: AssuranceProfile, drawn: Fresh, expires: int, at: Reads)
    requires
      var r := Complete(db, call, claims, profile, drawn, expires, at);
      r.Committed? && r.value.Granted?
    requires LinksConsistent(db.attempts, db.intents)
    ensures call.attempt in db.attempts && db.attempts[call.attempt].provider in db.providers
    ensures call.session.Some? && call.session.value in db.sessions && claims.assurance.authTime.Some?
    ensures Complete(db, call, claims, profile, drawn, expires, at)
      == Committed(SteppedUp(db, call, claims, drawn, at.granted), Granted(drawn.grant))
  {
    assert PurposeFits(db.attempts[call.attempt]);
    LookupFinds(db, call.session.value, at.checked);
  }

  // Native resolution

  /** What a caller can check before it resolves a native subject. */
  ghost predicate Resolvable(db: Tables, proof: EntraProof) {
    && proof.provider in db.providers
    && var row := db.providers[proof.provider];
    && row.enabled && row.version == proof.version && row.epoch == proof.epoch
    && row.settings.issuer == proof.issuer && row.settings.subject == EntraMapping(proof.tenant)
    && match Owner(db, proof.provider, proof.issuer, EntraSubject(proof.tenant, proof.user))
       case Some(owner) => owner in db.accounts && db.accounts[owner].enabled && db.accounts[owner].memberActive
       case None => row.settings.jit
  }

  /** A principal nobody had: an active account without a password, and the identity that leads to it. */
  function Provisioned(db: Tables, principal: Id, identity: Id, provider: Id, issuer: string, subject: ExternalSubject)
    : Tables
  {
    db.(
      accounts := db.accounts[principal := Account(true, true, 1, 1, false)],
      identities := db.identities[identity := Identity(principal, provider, issuer, StorageKey(subject))])
  }

  /** Native resolution answers exactly for the current provider row, with the active owner or a new account. */
  lemma NativeResolvesExactly(db: Tables, proof: EntraProof, drawn: Fresh)
    ensures
      var r := ResolveEntra(db, proof, drawn);
      var subject := EntraSubject(proof.tenant, proof.user);
      && (r.Committed? <==> Resolvable(db, proof)) && (r.RolledBack? ==> r.error == Rejected)
      && (r.Committed? ==>
            match Owner(db, proof.provider, proof.issuer, subject)
            case Some(owner) => r.value == owner && r.db == db
            case None =>
              && r.value == drawn.principal
              && r.db == Provisioned(db, drawn.principal, drawn.identity, proof.provider, proof.issuer, subject))
  {
  }

  // Administration

  /** What each write of a provider needs and leaves: a new row is disabled, an edit raises all three counters. */
  lemma WritesExactly(db: Tables, id: Id, expected: int, settings: Settings, assurance: Id, enabled: bool)
    ensures
      var r := CreateProvider(db, id, settings, assurance);
      && (r.Committed? <==> |db.providers| < 100)
      && (r.Committed? ==> r.db == db.(providers := db.providers[id := Provider(1, 1, false, settings, assurance, 1)]))
    ensures
      var r := EditProvider(db, id, expected, settings, assurance);
      && (r.Committed? <==>
            && id in db.providers
            && var row := db.providers[id];
            && row.version == expected && row.settings.issuer == settings.issuer
            && row.version < I64_MAX && row.epoch < I64_MAX && row.credentialVersion < I64_MAX)
      && (r.Committed? ==>
            var row := db.providers[id];
            r.db == db.(providers := db.providers[id := Provider(
              row.version + 1, row.epoch + 1, row.enabled, settings, assurance, row.credentialVersion + 1)]))
    ensures
      var r := EnableProvider(db, id, expected, enabled);
      && (r.Committed? <==>
            && id in db.providers
            && var row := db.providers[id];
            && row.version == expected && row.version < I64_MAX && (row.enabled != enabled ==> row.epoch < I64_MAX))
      && (r.Committed? ==>
            var row := db.providers[id];
            r.db == db.(providers := db.providers[id := Provider(
              row.version + 1, if row.enabled == enabled then row.epoch else row.epoch + 1, enabled, row.settings,
              row.assurance, row.credentialVersion)]))
  {
  }

  // Changes of accounts

  /**
    A change of an account commits exactly when the account is there, has a password to change or is active to be revoked,
    and its epochs can rise. Every change raises the epoch, and a changed membership its own.
  */
  lemma ChangesExactly(db: Tables, principal: Id, change: AccountChange)
    ensures
      var r := ChangeAccount(db, principal, change);
      && (r.Committed? <==>
            && principal in db.accounts
            && var account := db.accounts[principal];
            && (change == ChangePassword ==> account.localPassword)
            && (change == RevokeAll ==> account.enabled && account.memberActive)
            && account.epoch < I64_MAX
            && (change == SetMembership(!account.memberActive) ==> account.memberEpoch < I64_MAX))
      && (r.RolledBack? ==> r.error == Rejected)
      && (r.Committed? ==>
            var account := db.accounts[principal];
            r.db == db.(accounts := db.accounts[principal := Account(
              match change case SetEnabled(on) => on case _ => account.enabled,
              match change case SetMembership(on) => on case _ => account.memberActive,
              account.epoch + 1,
              if change == SetMembership(!account.memberActive) then account.memberEpoch + 1 else account.memberEpoch,
              account.localPassword)]))
  {
  }

  /**
    A new local account is active and has a password; a session it gets is its own, at its epochs, without an origin; and
    a session that is touched can be moved or closed, but never opened again.
  */
  lemma LocalsExactly(db: Tables, principal: Id, session: Id, replaced: Option<Id>, expires: int, revoke: bool)
    ensures CreateLocalAccount(db, principal)
      == Committed(db.(accounts := db.accounts[principal := Account(true, true, 1, 1, true)]), ())
    ensures
      var r := IssueLocal(db, principal, session, replaced, expires);
      && (r.Committed? <==>
            principal in db.accounts && db.accounts[principal].enabled && db.accounts[principal].memberActive)
      && (r.RolledBack? ==> r.error == Rejected)
      && (r.Committed? ==>
            r.db == db.(sessions := (if replaced.Some? then Closed(db.sessions, replaced.value) else db.sessions)[
              session := Session(
                principal, db.accounts[principal].epoch, db.accounts[principal].memberEpoch, None, false, expires)]))
    ensures TouchSession(db, session, expires, revoke) ==
      if session !in db.sessions then RolledBack(Rejected)
      else
        var row := db.sessions[session];
        Committed(db.(sessions := db.sessions[session := Session(
          row.principal, row.epoch, row.memberEpoch, row.origin, if revoke then true else row.revoked, expires)]), ())
  {
  }

  /** Any change of an account closes its sessions and its open links for good. */
  lemma ChangeClosesSessions(w: World, principal: Id, change: AccountChange, more: seq<Step>, session: Id, now: int)
    requires Reachable(w) && ChangeAccount(w.db, principal, change).Committed?
    requires session in w.db.sessions && w.db.sessions[session].principal == principal
    ensures !Live(Run(After(w, ChangeAccountStep(principal, change)), more).db, session, now)
  {
    ReachableInv(w);
    var next := After(w, ChangeAccountStep(principal, change));
    ReachableStep(w, ChangeAccountStep(principal, change));
    assert SessionTracked(w.db.sessions[session], w.db.accounts, w.db.identities, w.db.providers);
    OutdatedSessionIsDead(next, more, session, now);
    LookupFinds(Run(next, more).db, session, now);
  }
}
