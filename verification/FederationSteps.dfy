/** Every transaction is a composition of statements, so every step of a run keeps the invariant. */
module FederationSteps {
  import opened Common
  import opened ExternalSubjects
  import opened Federation
  import opened FederationRuns
  import opened FederationInvariants

  /** The world just before an insertion: clock and identifiers taken, expired rows purged. */
  function Cleaned(w: World, now: int, drawn: set<Id>, purge: Purge): World {
    Committing(w, Purged(w.db, purge), now, drawn)
  }

  lemma CleanedKeeps(w: World, now: int, drawn: set<Id>, purge: Purge)
    requires Inv(w)
    requires forall i, id :: (i in purge.intents && id in w.db.attempts && w.db.attempts[id].link == Some(i)) ==>
        id in purge.attempts
    ensures Kept(w, Cleaned(w, now, drawn, purge))
  {
    var early := Committing(w, w.db, now, drawn);
    TimeKeeps(w, now, drawn);
    ShrinkKeeps(early, w.db.attempts - purge.attempts, w.db.intents - purge.intents);
    LaterTransitive(w, early, Cleaned(w, now, drawn, purge));
  }

  lemma UnusedAttempt(w: World, id: Id)
    requires Inv(w) && id !in w.used
    ensures id !in w.db.attempts && id !in w.flights
    ensures Releases(w.log, id) == 0 && Endings(w.log, id) == 0 && RowsOf(w.log, id) == {}
  {
    assert Releases(w.log, id) <= 1;
    assert RowsOf(w.log, id) <= w.rows;
  }

  lemma InsertLater(v: World, w: World, id: Id, row: Attempt, e: Event)
    requires Later(v, w) && id !in v.used
    ensures Later(v, Log(w.(db := w.db.(attempts := w.db.attempts[id := row])), e))
  {
  }

  lemma BeginShape(w: World, s: Step) returns (row: Attempt)
    requires s.BeginAuthenticationStep? && AfterBegin(w, s) != w && s.input.mode != ReauthenticateMode
    ensures s.input.provider in w.db.providers && row.provider == s.input.provider
    ensures row.version == w.db.providers[s.input.provider].version && row.link.None? && PurposeFits(row)
    ensures AfterBegin(w, s) ==
      var clean := Cleaned(w, s.now, {s.input.id}, s.purge);
      Log(clean.(db := clean.db.(attempts := clean.db.attempts[s.input.id := row])),
          Began(s.input.id, Row(w.db, s.input.provider)))
  {
    row := AttemptRow(s.input.(purpose := Login, link := None, replacement := s.bound, expiry := None), s.now);
  }

  lemma BeginKeeps(w: World, s: Step)
    requires Inv(w) && Possible(w, s) && s.BeginAuthenticationStep?
    ensures Kept(w, AfterBegin(w, s))
  {
    if AfterBegin(w, s) != w {
      var row := BeginShape(w, s);
      BegunKeeps(w, s.now, s.purge, s.input.id, row, Row(w.db, s.input.provider), AfterBegin(w, s));
    }
  }

  lemma BegunKeeps(w: World, now: int, purge: Purge, id: Id, row: Attempt, seen: Seen, next: World)
    requires Inv(w) && id !in w.used && PurgeAllowed(w.db, now, purge)
    requires seen in w.rows && row.provider == seen.0 && row.version == seen.1.version && row.link.None? && PurposeFits(row)
    requires next ==
      var clean := Cleaned(w, now, {id}, purge);
      Log(clean.(db := clean.db.(attempts := clean.db.attempts[id := row])), Began(id, seen))
    ensures Kept(w, next)
  {
    UnusedAttempt(w, id);
    CleanedKeeps(w, now, {id}, purge);
    InsertKeeps(Cleaned(w, now, {id}, purge), id, row, seen, next);
    InsertLater(w, Cleaned(w, now, {id}, purge), id, row, Began(id, seen));
  }

  lemma CancelKeeps(w: World, s: Step)
    requires Inv(w) && Possible(w, s) && s.CancelStep?
    ensures Kept(w, AfterCancel(w, s))
  {
    var r := Cancel(w.db, s.call, s.issuer, s.at);
    if r.Committed? {
      var early := Committing(w, w.db, s.at.last, {});
      TimeKeeps(w, s.at.last, {});
      EndKeeps(early, s.call.attempt, Row(w.db, w.db.attempts[s.call.attempt].provider), Cancelled, AfterCancel(w, s));
      LaterTransitive(w, early, AfterCancel(w, s));
    }
  }

  lemma ClaimShape(w: World, s: Step)
    requires s.ClaimStep?
    requires Claim(w.db, s.call, s.issuer, s.profile, s.at).Committed?
    ensures s.call.attempt in w.db.attempts
    ensures var row := w.db.attempts[s.call.attempt];
      && row.secrets.Some? && row.provider in w.db.providers
      && row.version == w.db.providers[row.provider].version
      && AfterClaim(w, s) ==
         var claimed := ClaimedWorld(Committing(w, w.db, s.at.last, {}), s.call.attempt);
         var seen := Row(w.db, row.provider);
         if s.delivered
         then Log(claimed.(flights := w.flights[s.call.attempt := Flight(seen, None)]),
                  Released(s.call.attempt, seen, row.secrets.value))
         else claimed
  {
  }

  lemma ClaimKeeps(w: World, s: Step)
    requires Inv(w) && Possible(w, s) && s.ClaimStep?
    ensures Kept(w, AfterClaim(w, s))
  {
    if Claim(w.db, s.call, s.issuer, s.profile, s.at).Committed? {
      ClaimShape(w, s);
      ClaimedKeeps(w, s.call.attempt, s.at.last, s.delivered, AfterClaim(w, s));
    }
  }

  lemma ClaimedKeeps(w: World, id: Id, now: int, delivered: bool, next: World)
    requires Inv(w) && id in w.db.attempts
    requires var row := w.db.attempts[id];
      && row.secrets.Some? && row.provider in w.db.providers && row.version == w.db.providers[row.provider].version
      && next == var claimed := ClaimedWorld(Committing(w, w.db, now, {}), id);
                 var seen := Row(w.db, row.provider);
                 if delivered
                 then Log(claimed.(flights := w.flights[id := Flight(seen, None)]), Released(id, seen, row.secrets.value))
                 else claimed
    ensures Kept(w, next)
  {
    var early := Committing(w, w.db, now, {});
    TimeKeeps(w, now, {});
    if delivered {
      ReleaseKeeps(early, id, Row(w.db, w.db.attempts[id].provider), next);
    } else {
      LostReleaseKeeps(early, id);
    }
    LaterTransitive(w, early, next);
  }

  lemma TargetHolds(w: World, a: Id, target: Seen)
    requires FlightsHold(w.flights, w.log, w.rows, w.db.attempts, w.db.intents)
    requires a in w.flights && a in w.db.attempts && target in w.rows
    requires w.db.attempts[a].link.Some? && w.db.attempts[a].link.value in w.db.intents
    requires var i := w.db.intents[w.db.attempts[a].link.value]; i.target == target.0 && i.version == target.1.version
    ensures FlightsHold(
      w.flights[a := w.flights[a].(target := Some(target))], w.log, w.rows, w.db.attempts, w.db.intents)
  {
  }

  lemma ReadTargetShape(w: World, s: Step)
    requires s.ReadTargetStep? && s.attempt in w.flights && s.attempt in w.db.attempts
    requires AfterReadTarget(w, s) != w
    ensures w.db.attempts[s.attempt].link.Some? && w.db.attempts[s.attempt].link.value in w.db.intents
    ensures var i := w.db.intents[w.db.attempts[s.attempt].link.value];
      && i.target in w.db.providers && i.version == w.db.providers[i.target].version
      && AfterReadTarget(w, s) ==
         w.(flights := w.flights[s.attempt := w.flights[s.attempt].(target := Some(Row(w.db, i.target)))])
  {
  }

  lemma ReadTargetKeeps(w: World, s: Step)
    requires Inv(w) && Possible(w, s) && s.ReadTargetStep?
    ensures Kept(w, AfterReadTarget(w, s))
  {
    if AfterReadTarget(w, s) != w {
      ReadTargetShape(w, s);
      TargetHolds(w, s.attempt, Row(w.db, w.db.intents[w.db.attempts[s.attempt].link.value].target));
    }
  }

  // Completion

  lemma GrantKeeps(w: World, grants: map<Id, Grant>)
    requires Inv(w)
    ensures Kept(w, w.(db := w.db.(grants := grants)))
  {
  }

  /** The world of a completion once its clock, identifiers and flight are settled and its principal is resolved. */
  ghost function Resolving(w: World, s: Step, resolved: Resolved): World
    requires s.CompleteStep?
  {
    Landed(Committing(w, resolved.db, s.at.last,
                      {s.drawn.principal, s.drawn.identity, s.drawn.session, s.drawn.grant}), s.call.attempt)
  }

  lemma ResolvedShape(db: Tables, admission: Admission, claims: Upstream, drawn: Fresh, resolved: Resolved)
    requires Resolve(db, admission, claims, drawn) == Ok(resolved)
    requires admission.actor.Some? ==> admission.actor.value.principal in db.accounts
    requires forall id :: id in db.identities ==> db.identities[id].principal in db.accounts
    ensures resolved.identity in resolved.db.identities
    ensures resolved.db.identities[resolved.identity].principal == resolved.principal
    ensures resolved.db.identities[resolved.identity].provider == admission.attempt.provider
    ensures resolved.principal in resolved.db.accounts
    ensures resolved.already ==> resolved.db == db
    ensures !resolved.already ==>
      && resolved.identity == drawn.identity
      && (forall i :: i in db.identities ==> !SameKey(db.identities[i], resolved.db.identities[resolved.identity]))
      && resolved.db == WithIdentity(
           if admission.attempt.purpose == Link then db else WithFederatedAccount(db, drawn.principal),
           resolved.identity, resolved.db.identities[resolved.identity])
      && (admission.attempt.purpose != Link ==> resolved.principal == drawn.principal)
  {
    var key := StorageKey(claims.subject);
    var row := Identity(resolved.principal, admission.attempt.provider, claims.issuer, key);
    forall i | i in db.identities && SameKey(db.identities[i], row)
      ensures Names(db.identities[i], admission.attempt.provider, claims.issuer, key)
    {
    }
  }

  lemma AdmittedShape(w: World, call: Callback, profile: AssuranceProfile, at: Reads, admission: Admission)
    requires Admit(w.db, call, profile, at) == Ok(admission)
    ensures call.attempt in w.db.attempts && admission.attempt == w.db.attempts[call.attempt]
    ensures admission.attempt.provider in w.db.providers
    ensures admission.provider == w.db.providers[admission.attempt.provider]
    ensures admission.provider.enabled && admission.provider.version == admission.attempt.version
    ensures admission.attempt.secrets.None?
    ensures CheckActor(w.db, admission.attempt, call.session, at.viewed, at.checked) == Ok(admission.actor)
    ensures admission.actor.Some? ==> admission.actor.value.principal in w.db.accounts
  {
  }

  lemma ResolvingKeeps(w: World, s: Step, admission: Admission, resolved: Resolved)
    requires Inv(w) && Possible(w, s) && s.CompleteStep?
    requires Admit(w.db, s.call, s.profile, s.at) == Ok(admission)
    requires Resolve(w.db, admission, s.claims, s.drawn) == Ok(resolved)
    ensures Kept(w, Resolving(w, s, resolved))
  {
    AdmittedShape(w, s.call, s.profile, s.at, admission);
    ResolvedShape(w.db, admission, s.claims, s.drawn, resolved);
    var drawn := {s.drawn.principal, s.drawn.identity, s.drawn.session, s.drawn.grant};
    var settled := Committing(w, w.db, s.at.last, drawn);
    TimeKeeps(w, s.at.last, drawn);
    LandKeeps(settled, s.call.attempt);
    var landed := Landed(settled, s.call.attempt);
    LaterTransitive(w, settled, landed);
    if !resolved.already {
      var owned := landed;
      if admission.attempt.purpose != Link {
        owned := landed.(db := WithFederatedAccount(w.db, s.drawn.principal));
        SetAccountKeeps(landed, s.drawn.principal, Account(true, true, 1, 1, false));
        LaterTransitive(w, landed, owned);
      }
      AddIdentityKeeps(owned, s.drawn.identity, resolved.db.identities[s.drawn.identity]);
      LaterTransitive(w, owned, Resolving(w, s, resolved));
    }
  }

  /** The end of every completion: the attempt is consumed and the event recorded. */
  ghost function Finished(w: World, attempt: Id, seen: Seen, ending: Ending): World {
    Log(w.(db := Consumed(w.db, attempt)), Ended(attempt, seen, ending))
  }

  lemma FinishedKeeps(w: World, attempt: Id, seen: Seen, ending: Ending)
    requires Inv(w) && attempt in w.db.attempts && seen in w.rows
    requires w.db.attempts[attempt].provider == seen.0 && w.db.attempts[attempt].version == seen.1.version
    requires Releases(w.log, attempt) == 1
    ensures Kept(w, Finished(w, attempt, seen, ending))
  {
    EndKeeps(w, attempt, seen, ending, Finished(w, attempt, seen, ending));
  }

  lemma StepUpKeeps(w: World, s: Step, admission: Admission, resolved: Resolved, r: Transaction<Completion>)
    requires Inv(w) && Possible(w, s) && s.CompleteStep?
    requires Admit(w.db, s.call, s.profile, s.at) == Ok(admission)
    requires Resolve(w.db, admission, s.claims, s.drawn) == Ok(resolved)
    requires r == GrantStepUp(s.call, s.claims, admission, resolved, s.drawn, s.at) && r.Committed?
    ensures Kept(w, Finished(
      Resolving(w, s, resolved).(db := r.db),
      s.call.attempt, (admission.attempt.provider, admission.provider), StepUpGranted))
  {
    AdmittedShape(w, s.call, s.profile, s.at, admission);
    ResolvedShape(w.db, admission, s.claims, s.drawn, resolved);
    ResolvingKeeps(w, s, admission, resolved);
    var seen := (admission.attempt.provider, admission.provider);
    GrantedKeeps(w, Resolving(w, s, resolved), s, seen, r.db.grants);
    FinishedTwice(Resolving(w, s, resolved), resolved.db.(grants := r.db.grants), s.call.attempt, seen, StepUpGranted);
  }

  lemma GrantedKeeps(w: World, mid: World, s: Step, seen: Seen, grants: map<Id, Grant>)
    requires Kept(w, mid) && s.CompleteStep?
    requires s.call.attempt in mid.db.attempts && seen in mid.rows && Releases(mid.log, s.call.attempt) == 1
    requires mid.db.attempts[s.call.attempt].provider == seen.0 && mid.db.attempts[s.call.attempt].version == seen.1.version
    ensures Kept(w, Finished(mid.(db := mid.db.(grants := grants)), s.call.attempt, seen, StepUpGranted))
  {
    GrantKeeps(mid, grants);
    var granted := mid.(db := mid.db.(grants := grants));
    LaterTransitive(w, mid, granted);
    FinishedKeeps(granted, s.call.attempt, seen, StepUpGranted);
    LaterTransitive(w, granted, Finished(granted, s.call.attempt, seen, StepUpGranted));
  }

  lemma LoginKeeps(w: World, s: Step, admission: Admission, resolved: Resolved, r: Transaction<Completion>)
    requires Inv(w) && Possible(w, s) && s.CompleteStep?
    requires Admit(w.db, s.call, s.profile, s.at) == Ok(admission)
    requires Resolve(w.db, admission, s.claims, s.drawn) == Ok(resolved)
    requires resolved.principal in resolved.db.accounts
    requires r == IssueLogin(s.call, s.claims, admission, resolved, s.drawn, s.expires, s.at) && r.Committed?
    ensures Kept(w, Finished(
      Resolving(w, s, resolved).(db := r.db),
      s.call.attempt, (admission.attempt.provider, admission.provider), SessionIssued(s.drawn.session)))
  {
    AdmittedShape(w, s.call, s.profile, s.at, admission);
    ResolvedShape(w.db, admission, s.claims, s.drawn, resolved);
    ResolvingKeeps(w, s, admission, resolved);
    var row := LoginShape(s, admission, resolved);
    var mid := Resolving(w, s, resolved);
    var seen := (admission.attempt.provider, admission.provider);
    IssuedKeeps(w, mid, s, seen, row, admission.attempt.replacement);
    FinishedTwice(mid, WithSession(mid.db, s.drawn.session, row, admission.attempt.replacement), s.call.attempt, seen,
                  SessionIssued(s.drawn.session));
  }

  lemma FinishedTwice(w: World, db: Tables, attempt: Id, seen: Seen, ending: Ending)
    ensures Finished(w.(db := Consumed(db, attempt)), attempt, seen, ending) == Finished(w.(db := db), attempt, seen, ending)
  {
    assert db.attempts - {attempt} - {attempt} == db.attempts - {attempt};
  }

  lemma IssuedKeeps(w: World, mid: World, s: Step, seen: Seen, row: Session, replaced: Option<Id>)
    requires Kept(w, mid) && s.CompleteStep?
    requires s.call.attempt in mid.db.attempts && seen in mid.rows && Releases(mid.log, s.call.attempt) == 1
    requires mid.db.attempts[s.call.attempt].provider == seen.0 && mid.db.attempts[s.call.attempt].version == seen.1.version
    requires s.drawn.session in mid.used && s.drawn.session !in mid.db.sessions
    requires SessionTracked(row, mid.db.accounts, mid.db.identities, mid.db.providers)
    ensures Kept(w, Finished(
      mid.(db := WithSession(mid.db, s.drawn.session, row, replaced)), s.call.attempt, seen, SessionIssued(s.drawn.session)))
  {
    WithSessionKeeps(mid, s.drawn.session, row, replaced);
    var issued := mid.(db := WithSession(mid.db, s.drawn.session, row, replaced));
    LaterTransitive(w, mid, issued);
    FinishedKeeps(issued, s.call.attempt, seen, SessionIssued(s.drawn.session));
    LaterTransitive(w, issued, Finished(issued, s.call.attempt, seen, SessionIssued(s.drawn.session)));
  }

  lemma LinkShape(
    db: Tables, s: Step, admission: Admission, resolved: Resolved, r: Transaction<Completion>)
    requires s.CompleteStep?
    requires CheckActor(db, admission.attempt, s.call.session, s.at.viewed, s.at.checked) == Ok(admission.actor)
    requires Resolve(db, admission, s.claims, s.drawn) == Ok(resolved) && admission.attempt.purpose == Link
    requires resolved.principal in resolved.db.accounts
    requires r == CompleteLink(s.call, admission, resolved, s.drawn, s.expires, s.at) && r.Committed?
    ensures admission.attempt.link.Some? && admission.attempt.link.value in db.intents
    ensures resolved.principal in db.accounts && resolved.db.accounts == db.accounts
    ensures var id := admission.attempt.link.value;
      var intent := db.intents[id];
      var account := db.accounts[resolved.principal];
      && intent.principal == resolved.principal && intent.epoch == account.epoch && intent.stage == TargetReady
      && account.epoch < I64_MAX
      && r.value == Issued(s.drawn.session, resolved.principal, true, resolved.already)
      && r.db == LinkedTables(resolved.db, s, id, intent, resolved.principal, account)
      && (intent.origin.Some? ==> OriginAccepted(resolved.db, resolved.principal, intent.origin.value))
  {
  }

  /** What a committed link leaves: epoch bumped, intent completed, session issued, attempt consumed. */
  function LinkedTables(db: Tables, s: Step, id: Id, intent: Intent, principal: Id, account: Account): Tables
    requires s.CompleteStep? && account.epoch < I64_MAX
  {
    var done := db.(
      attempts := db.attempts - {s.call.attempt},
      accounts := db.accounts[principal := account.(epoch := account.epoch + 1)],
      intents := db.intents[id := intent.(stage := Completed)]);
    WithSession(done, s.drawn.session,
                Session(principal, account.epoch + 1, account.memberEpoch, intent.origin, false, s.expires),
                Some(intent.session))
  }

  lemma LinkKeeps(
    w: World, s: Step, admission: Admission, resolved: Resolved, r: Transaction<Completion>)
    requires Inv(w) && Possible(w, s) && s.CompleteStep?
    requires Admit(w.db, s.call, s.profile, s.at) == Ok(admission)
    requires Resolve(w.db, admission, s.claims, s.drawn) == Ok(resolved) && admission.attempt.purpose == Link
    requires resolved.principal in resolved.db.accounts
    requires r == CompleteLink(s.call, admission, resolved, s.drawn, s.expires, s.at) && r.Committed?
    ensures Kept(w, Finished(
      Resolving(w, s, resolved).(db := r.db),
      s.call.attempt, (admission.attempt.provider, admission.provider), SessionIssued(s.drawn.session)))
  {
    AdmittedShape(w, s.call, s.profile, s.at, admission);
    LinkShape(w.db, s, admission, resolved, r);
    ResolvedShape(w.db, admission, s.claims, s.drawn, resolved);
    ResolvingKeeps(w, s, admission, resolved);
    LinkedKeeps(w, Resolving(w, s, resolved), s, (admission.attempt.provider, admission.provider),
                admission.attempt.link.value, resolved.principal);
  }

  lemma LinkedKeeps(w: World, mid: World, s: Step, seen: Seen, id: Id, principal: Id)
    requires Kept(w, mid) && s.CompleteStep?
    requires s.call.attempt in mid.db.attempts && seen in mid.rows && Releases(mid.log, s.call.attempt) == 1
    requires var row := mid.db.attempts[s.call.attempt];
      row.link == Some(id) && row.provider == seen.0 && row.version == seen.1.version
    requires id in mid.db.intents && mid.db.intents[id].principal == principal && mid.db.intents[id].stage == TargetReady
    requires principal in mid.db.accounts && mid.db.accounts[principal].epoch == mid.db.intents[id].epoch < I64_MAX
    requires s.drawn.session in mid.used && s.drawn.session !in mid.db.sessions
    ensures Kept(w, Finished(
      mid.(db := LinkedTables(mid.db, s, id, mid.db.intents[id], principal, mid.db.accounts[principal])),
      s.call.attempt, seen, SessionIssued(s.drawn.session)))
  {
    LinkedEnded(w, mid, s.call.attempt, seen, id, SessionIssued(s.drawn.session));
    LinkedEqual(mid, s, seen, id, principal);
    var intent, account := mid.db.intents[id], mid.db.accounts[principal];
    LinkedTail(w, Finished(mid, s.call.attempt, seen, SessionIssued(s.drawn.session)), id, principal,
               account.(epoch := account.epoch + 1), intent.(stage := Completed), s.drawn.session,
               Session(principal, account.epoch + 1, account.memberEpoch, intent.origin, false, s.expires));
  }

  lemma LinkedEnded(w: World, mid: World, attempt: Id, seen: Seen, id: Id, ending: Ending)
    requires Kept(w, mid) && attempt in mid.db.attempts && seen in mid.rows && Releases(mid.log, attempt) == 1
    requires var row := mid.db.attempts[attempt];
      row.link == Some(id) && row.provider == seen.0 && row.version == seen.1.version
    ensures Kept(w, Finished(mid, attempt, seen, ending))
    ensures forall a :: a in Finished(mid, attempt, seen, ending).db.attempts ==>
      Finished(mid, attempt, seen, ending).db.attempts[a].link != Some(id)
  {
    FinishedKeeps(mid, attempt, seen, ending);
    LaterTransitive(w, mid, Finished(mid, attempt, seen, ending));
    Unreferenced(mid.db.attempts, mid.db.intents, attempt, id);
  }

  lemma LinkedTail(
    w: World, ended: World, id: Id, principal: Id, bumped: Account, done: Intent, session: Id, row: Session)
    requires Kept(w, ended)
    requires forall a :: a in ended.db.attempts ==> ended.db.attempts[a].link != Some(id)
    requires id in ended.db.intents && done == ended.db.intents[id].(stage := Completed) && done.principal == principal
    requires principal in ended.db.accounts && ended.db.accounts[principal].epoch < bumped.epoch && done.epoch < bumped.epoch
    requires session in ended.used && session !in ended.db.sessions
    requires row.principal == principal && row.origin == done.origin && row.epoch == bumped.epoch
    ensures Kept(w, LinkTail(ended, id, principal, bumped, done, session, row))
  {
    CompletedKeeps(w, ended, id, principal, bumped, done);
    LinkedSessionKeeps(w, ended.(db := ended.db.(
      accounts := ended.db.accounts[principal := bumped], intents := ended.db.intents[id := done])), id, session, row);
  }

  function LinkTail(
    ended: World, id: Id, principal: Id, bumped: Account, done: Intent, session: Id, row: Session): World
  {
    ended.(db := WithSession(
      ended.db.(accounts := ended.db.accounts[principal := bumped], intents := ended.db.intents[id := done]),
      session, row, Some(done.session)))
  }

  lemma LinkedEqual(mid: World, s: Step, seen: Seen, id: Id, principal: Id)
    requires s.CompleteStep? && id in mid.db.intents
    requires principal in mid.db.accounts && mid.db.accounts[principal].epoch < I64_MAX
    ensures var intent, account := mid.db.intents[id], mid.db.accounts[principal];
      var bumped := account.(epoch := account.epoch + 1);
      Finished(mid.(db := LinkedTables(mid.db, s, id, intent, principal, account)),
               s.call.attempt, seen, SessionIssued(s.drawn.session))
      == LinkTail(Finished(mid, s.call.attempt, seen, SessionIssued(s.drawn.session)), id, principal, bumped,
                  intent.(stage := Completed), s.drawn.session,
                  Session(principal, bumped.epoch, account.memberEpoch, intent.origin, false, s.expires))
  {
    assert mid.db.attempts - {s.call.attempt} - {s.call.attempt} == mid.db.attempts - {s.call.attempt};
  }

  lemma Unreferenced(attempts: map<Id, Attempt>, intents: map<Id, Intent>, a: Id, id: Id)
    requires LinksConsistent(attempts, intents) && a in attempts && attempts[a].link == Some(id)
    ensures forall b :: b in attempts - {a} ==> attempts[b].link != Some(id)
  {
  }

  lemma CompletedKeeps(w: World, ended: World, id: Id, principal: Id, bumped: Account, done: Intent)
    requires Kept(w, ended)
    requires forall a :: a in ended.db.attempts ==> ended.db.attempts[a].link != Some(id)
    requires id in ended.db.intents && done == ended.db.intents[id].(stage := Completed) && done.principal == principal
    requires principal in ended.db.accounts && ended.db.accounts[principal].epoch < bumped.epoch && done.epoch < bumped.epoch
    ensures Kept(w, ended.(db := ended.db.(
      accounts := ended.db.accounts[principal := bumped], intents := ended.db.intents[id := done])))
  {
    var account := ended.(db := ended.db.(accounts := ended.db.accounts[principal := bumped]));
    SetAccountKeeps(ended, principal, bumped);
    LaterTransitive(w, ended, account);
    SetIntentKeeps(account, id, done);
    var next := account.(db := account.db.(intents := account.db.intents[id := done]));
    LaterTransitive(w, account, next);
  }

  lemma LinkedSessionKeeps(w: World, mid: World, id: Id, session: Id, row: Session)
    requires Kept(w, mid) && session in mid.used && session !in mid.db.sessions
    requires id in mid.db.intents && row.principal == mid.db.intents[id].principal && row.origin == mid.db.intents[id].origin
    requires row.principal in mid.db.accounts && row.epoch <= mid.db.accounts[row.principal].epoch
    ensures Kept(w, mid.(db := WithSession(mid.db, session, row, Some(mid.db.intents[id].session))))
  {
    assert IntentTracked(mid.db.intents[id], mid.db.accounts, mid.db.identities, mid.db.providers);
    WithSessionKeeps(mid, session, row, Some(mid.db.intents[id].session));
    LaterTransitive(w, mid, mid.(db := WithSession(mid.db, session, row, Some(mid.db.intents[id].session))));
  }

  /** What a committed completion went through, and the world it leaves. */
  lemma CompleteShape(w: World, s: Step, r: Transaction<Completion>)
    requires s.CompleteStep? && r == Complete(w.db, s.call, s.claims, s.profile, s.drawn, s.expires, s.at) && r.Committed?
    ensures Admit(w.db, s.call, s.profile, s.at).Ok?
    ensures var admission := Admit(w.db, s.call, s.profile, s.at).value;
      && Resolve(w.db, admission, s.claims, s.drawn).Ok?
      && var resolved := Resolve(w.db, admission, s.claims, s.drawn).value;
      && resolved.principal in resolved.db.accounts
      && r == CompletionOf(s, admission, resolved)
      && AfterComplete(w, s) == Finished(
           Resolving(w, s, resolved).(db := r.db), s.call.attempt, (admission.attempt.provider, admission.provider),
           if r.value.Granted? then StepUpGranted else SessionIssued(r.value.session))
  {
    var admission := Admit(w.db, s.call, s.profile, s.at).value;
    AdmittedShape(w, s.call, s.profile, s.at, admission);
    var resolved := Resolve(w.db, admission, s.claims, s.drawn).value;
    ConsumesAttempt(s, admission, resolved);
    assert Consumed(r.db, s.call.attempt) == r.db;
  }

  ghost function CompletionOf(s: Step, admission: Admission, resolved: Resolved): Transaction<Completion>
    requires s.CompleteStep? && resolved.principal in resolved.db.accounts
  {
    if admission.attempt.mode == StepUpMode then GrantStepUp(s.call, s.claims, admission, resolved, s.drawn, s.at)
    else if admission.attempt.purpose == Link then CompleteLink(s.call, admission, resolved, s.drawn, s.expires, s.at)
    else IssueLogin(s.call, s.claims, admission, resolved, s.drawn, s.expires, s.at)
  }

  lemma ConsumesAttempt(s: Step, admission: Admission, resolved: Resolved)
    requires s.CompleteStep? && resolved.principal in resolved.db.accounts
    requires CompletionOf(s, admission, resolved).Committed?
    ensures s.call.attempt !in CompletionOf(s, admission, resolved).db.attempts
  {
  }

  lemma LoginShape(s: Step, admission: Admission, resolved: Resolved) returns (row: Session)
    requires s.CompleteStep? && resolved.principal in resolved.db.accounts
    requires IssueLogin(s.call, s.claims, admission, resolved, s.drawn, s.expires, s.at).Committed?
    ensures row.principal == resolved.principal && row.epoch == resolved.db.accounts[resolved.principal].epoch
    ensures row.origin.Some? && row.origin.value.identity == resolved.identity
      && row.origin.value.epoch == admission.provider.epoch && row.origin.value.version == admission.provider.version
    ensures IssueLogin(s.call, s.claims, admission, resolved, s.drawn, s.expires, s.at) == Committed(
      Consumed(WithSession(resolved.db, s.drawn.session, row, admission.attempt.replacement), s.call.attempt),
      Issued(s.drawn.session, resolved.principal, false, resolved.already))
  {
    var account := resolved.db.accounts[resolved.principal];
    var origin := Origin(resolved.identity, admission.provider.epoch, admission.provider.version, s.claims.facts.value);
    row := Session(resolved.principal, account.epoch, account.memberEpoch, Some(origin), false, s.expires);
  }

  lemma CompletionKind(s: Step, admission: Admission, resolved: Resolved, r: Transaction<Completion>)
    requires s.CompleteStep? && resolved.principal in resolved.db.accounts
    requires r == CompletionOf(s, admission, resolved) && r.Committed?
    ensures r.value.Granted? <==> admission.attempt.mode == StepUpMode
    ensures r.value.Issued? ==> r.value.session == s.drawn.session
  {
  }

  lemma CompletionKeeps(w: World, s: Step, admission: Admission, resolved: Resolved, r: Transaction<Completion>)
    requires Inv(w) && Possible(w, s) && s.CompleteStep?
    requires Admit(w.db, s.call, s.profile, s.at) == Ok(admission)
    requires Resolve(w.db, admission, s.claims, s.drawn) == Ok(resolved)
    requires resolved.principal in resolved.db.accounts
    requires r == CompletionOf(s, admission, resolved) && r.Committed?
    ensures Kept(w, Finished(
      Resolving(w, s, resolved).(db := r.db), s.call.attempt, (admission.attempt.provider, admission.provider),
      if r.value.Granted? then StepUpGranted else SessionIssued(r.value.session)))
  {
    CompletionKind(s, admission, resolved, r);
    if admission.attempt.mode == StepUpMode {
      StepUpKeeps(w, s, admission, resolved, r);
    } else if admission.attempt.purpose == Link {
      LinkKeeps(w, s, admission, resolved, r);
    } else {
      LoginKeeps(w, s, admission, resolved, r);
    }
  }

  lemma CompleteKeeps(w: World, s: Step)
    requires Inv(w) && Possible(w, s) && s.CompleteStep?
    ensures Kept(w, AfterComplete(w, s))
  {
    var r := Complete(w.db, s.call, s.claims, s.profile, s.drawn, s.expires, s.at);
    if r.RolledBack? {
      LandKeeps(w, s.call.attempt);
    } else {
      CompleteShape(w, s, r);
      var admission := Admit(w.db, s.call, s.profile, s.at).value;
      CompletionKeeps(w, s, admission, Resolve(w.db, admission, s.claims, s.drawn).value, r);
    }
  }

  // Linking

  lemma BeginLinkShape(w: World, s: Step) returns (row: Intent, attempt: Attempt)
    requires s.BeginLinkStep? && AfterBeginLink(w, s) != w && s.intent !in s.purge.intents
    ensures s.session in w.db.sessions && row.principal == w.db.sessions[s.session].principal
    ensures row.principal in w.db.accounts && row.epoch == w.db.accounts[row.principal].epoch
    ensures row.origin.Some? ==> row.origin == w.db.sessions[s.session].origin
    ensures attempt.provider in w.db.providers && attempt.version == w.db.providers[attempt.provider].version
    ensures attempt.link == Some(s.intent) && PurposeFits(attempt) && Fits(attempt, row)
    ensures AfterBeginLink(w, s) ==
      var open := Committing(w, w.db.(intents := w.db.intents[s.intent := row]), s.at.last, {s.intent, s.input.id});
      var clean := open.(db := Purged(open.db, s.purge));
      Log(clean.(db := clean.db.(attempts := clean.db.attempts[s.input.id := attempt])),
          Began(s.input.id, Row(w.db, attempt.provider)))
  {
    var next := AfterBeginLink(w, s);
    row := BeginLink(
      w.db, s.session, s.account, s.candidate, s.target.0, s.target.1.version, s.intent, s.input, s.at, s.purge)
      .db.intents[s.intent];
    attempt := next.db.attempts[s.input.id];
  }

  /** Opening an intent, purging, and inserting its first attempt. */
  lemma OpenedKeeps(
    w: World, now: int, id: Id, row: Intent, purge: Purge, attempt: Id, added: Attempt, seen: Seen, next: World)
    requires Inv(w) && id !in w.used && attempt !in w.used && id != attempt
    requires IntentTracked(row, w.db.accounts, w.db.identities, w.db.providers)
    requires PurgeAllowed(w.db, now, purge)
    requires seen in w.rows && added.provider == seen.0 && added.version == seen.1.version
    requires added.link == Some(id) && PurposeFits(added) && Fits(added, row)
    requires next ==
      var open := Committing(w, w.db.(intents := w.db.intents[id := row]), now, {id, attempt});
      var clean := open.(db := Purged(open.db, purge));
      Log(clean.(db := clean.db.(attempts := clean.db.attempts[attempt := added])), Began(attempt, seen))
    ensures Kept(w, next)
  {
    UnusedAttempt(w, attempt);
    var open := Committing(w, w.db.(intents := w.db.intents[id := row]), now, {id, attempt});
    IntentOpenKeeps(w, now, id, row, attempt, open);
    var clean := open.(db := Purged(open.db, purge));
    PurgedKeeps(w, open, purge);
    InsertKeeps(clean, attempt, added, seen, next);
    InsertLater(w, clean, attempt, added, Began(attempt, seen));
  }

  lemma PurgedKeeps(v: World, w: World, purge: Purge)
    requires Kept(v, w)
    requires forall a :: a in w.db.attempts && a !in purge.attempts && w.db.attempts[a].link.Some? ==>
      w.db.attempts[a].link.value !in purge.intents
    ensures Kept(v, w.(db := Purged(w.db, purge)))
  {
    ShrinkKeeps(w, w.db.attempts - purge.attempts, w.db.intents - purge.intents);
    LaterTransitive(v, w, w.(db := Purged(w.db, purge)));
  }

  lemma IntentOpenKeeps(w: World, now: int, id: Id, row: Intent, attempt: Id, open: World)
    requires Inv(w) && id !in w.used
    requires IntentTracked(row, w.db.accounts, w.db.identities, w.db.providers)
    requires open == Committing(w, w.db.(intents := w.db.intents[id := row]), now, {id, attempt})
    ensures Kept(w, open)
  {
    var early := Committing(w, w.db, now, {id, attempt});
    TimeKeeps(w, now, {id, attempt});
    SetIntentKeeps(early, id, row);
    OpenLater(w, early, id, row);
  }

  lemma OpenLater(v: World, w: World, id: Id, row: Intent)
    requires Later(v, w) && id !in v.used
    ensures Later(v, w.(db := w.db.(intents := w.db.intents[id := row])))
  {
  }

  lemma BeginLinkKeeps(w: World, s: Step)
    requires Inv(w) && Possible(w, s) && s.BeginLinkStep?
    ensures Kept(w, AfterBeginLink(w, s))
  {
    if AfterBeginLink(w, s) != w {
      var row, attempt := BeginLinkShape(w, s);
      assert SessionTracked(w.db.sessions[s.session], w.db.accounts, w.db.identities, w.db.providers);
      OpenedKeeps(w, s.at.last, s.intent, row, s.purge, s.input.id, attempt, Row(w.db, attempt.provider),
                  AfterBeginLink(w, s));
    }
  }

  /** The world a finished reauthentication leaves, statement by statement. */
  ghost function Redirecting(
    w: World, prior: Id, source: Seen, id: Id, row: Intent, now: int, purge: Purge, attempt: Id, added: Attempt, target: Seen
  ): World
  {
    var ended := Finished(Landed(Committing(w, w.db, now, {attempt}), prior), prior, source, Redirected(attempt));
    var moved := ended.(db := ended.db.(intents := ended.db.intents[id := row]));
    var clean := moved.(db := Purged(moved.db, purge));
    Log(clean.(db := clean.db.(attempts := clean.db.attempts[attempt := added])), Began(attempt, target))
  }

  lemma FinishShape(w: World, s: Step) returns (id: Id, row: Intent, added: Attempt)
    requires s.FinishReauthenticationStep? && s.call.attempt in w.flights && w.flights[s.call.attempt].target.Some?
    requires AfterFinishReauthentication(w, s) != Landed(w, s.call.attempt)
    ensures s.call.attempt in w.db.attempts && w.db.attempts[s.call.attempt].link == Some(id) && id in w.db.intents
    ensures var source, target := w.flights[s.call.attempt].source, w.flights[s.call.attempt].target.value;
      var intent := w.db.intents[id];
      && intent.stage == ReauthenticationRequired
      && intent.origin.Some? && OriginAccepted(w.db, intent.principal, intent.origin.value)
      && w.db.identities[intent.origin.value.identity].provider == source.0
      && w.db.providers[source.0].version == source.1.version
      && row == intent.(stage := TargetReady,
                        origin := Some(intent.origin.value.(version := source.1.version, facts := s.claims.facts.value)))
      && s.at.last < intent.expiry
      && target.0 in w.db.providers && w.db.providers[target.0].version == target.1.version
      && added.provider == target.0 && added.version == target.1.version
      && added.link == Some(id) && added.purpose == Link && added.mode == LoginMode && added.expiry <= intent.expiry
      && AfterFinishReauthentication(w, s) ==
         Redirecting(w, s.call.attempt, source, id, row, s.at.last, s.purge, s.input.id, added, target)
  {
    var next := AfterFinishReauthentication(w, s);
    id := w.db.attempts[s.call.attempt].link.value;
    row := Reauthenticated(w.db, s.call, id, w.flights[s.call.attempt].source.1.version, s.claims.facts.value).intents[id];
    added := next.db.attempts[s.input.id];
  }

  lemma RedirectingKeeps(
    w: World, prior: Id, source: Seen, id: Id, row: Intent, now: int, purge: Purge, attempt: Id, added: Attempt,
    target: Seen)
    requires Inv(w) && prior in w.flights && prior in w.db.attempts && attempt !in w.used
    requires w.flights[prior].source == source && w.db.attempts[prior].link == Some(id) && id in w.db.intents
    requires IntentLater(w.db.intents[id], row)
    requires IntentTracked(row, w.db.accounts, w.db.identities, w.db.providers)
    requires PurgeAllowed(Consumed(w.db, prior), now, purge) && now < row.expiry
    requires target in w.rows && added.provider == target.0 && added.version == target.1.version
    requires added.link == Some(id) && PurposeFits(added) && Fits(added, row)
    ensures Kept(w, Redirecting(w, prior, source, id, row, now, purge, attempt, added, target))
  {
    UnusedAttempt(w, attempt);
    var settled := Committing(w, w.db, now, {attempt});
    TimeKeeps(w, now, {attempt});
    var landed := Landed(settled, prior);
    LandKeeps(settled, prior);
    LaterTransitive(w, settled, landed);
    var ended := Finished(landed, prior, source, Redirected(attempt));
    assert source in RowsOf(w.log, prior);
    FinishedKeeps(landed, prior, source, Redirected(attempt));
    LaterTransitive(w, landed, ended);
    Unreferenced(w.db.attempts, w.db.intents, prior, id);
    Push(landed.log, Ended(prior, source, Redirected(attempt)), attempt);
    RedirectTail(w, ended, id, row, now, purge, attempt, added, target);
  }

  lemma RedirectTail(
    w: World, ended: World, id: Id, row: Intent, now: int, purge: Purge, attempt: Id, added: Attempt, target: Seen)
    requires Kept(w, ended) && attempt !in w.used && attempt in ended.used
    requires attempt !in ended.db.attempts && attempt !in ended.flights
    requires Releases(ended.log, attempt) == 0 && Endings(ended.log, attempt) == 0 && RowsOf(ended.log, attempt) == {}
    requires id in ended.db.intents && IntentLater(ended.db.intents[id], row)
    requires IntentTracked(row, ended.db.accounts, ended.db.identities, ended.db.providers)
    requires forall a :: a in ended.db.attempts ==> ended.db.attempts[a].link != Some(id)
    requires PurgeAllowed(ended.db, now, purge) && now < row.expiry
    requires target in ended.rows && added.provider == target.0 && added.version == target.1.version
    requires added.link == Some(id) && PurposeFits(added) && Fits(added, row)
    ensures var moved := ended.(db := ended.db.(intents := ended.db.intents[id := row]));
      var clean := moved.(db := Purged(moved.db, purge));
      Kept(w, Log(clean.(db := clean.db.(attempts := clean.db.attempts[attempt := added])), Began(attempt, target)))
  {
    var moved := ended.(db := ended.db.(intents := ended.db.intents[id := row]));
    SetIntentKeeps(ended, id, row);
    LaterTransitive(w, ended, moved);
    var clean := moved.(db := Purged(moved.db, purge));
    PurgedKeeps(w, moved, purge);
    InsertKeeps(clean, attempt, added, target,
                Log(clean.(db := clean.db.(attempts := clean.db.attempts[attempt := added])), Began(attempt, target)));
    InsertLater(w, clean, attempt, added, Began(attempt, target));
  }

  lemma FinishReauthenticationKeeps(w: World, s: Step)
    requires Inv(w) && Possible(w, s) && s.FinishReauthenticationStep?
    ensures Kept(w, AfterFinishReauthentication(w, s))
  {
    if AfterFinishReauthentication(w, s) == Landed(w, s.call.attempt) {
      LandKeeps(w, s.call.attempt);
    } else {
      var id, row, added := FinishShape(w, s);
      var flight := w.flights[s.call.attempt];
      assert IntentTracked(w.db.intents[id], w.db.accounts, w.db.identities, w.db.providers);
      RedirectingKeeps(
        w, s.call.attempt, flight.source, id, row, s.at.last, s.purge, s.input.id, added, flight.target.value);
    }
  }

  // The other transactions

  lemma WritingKeeps(w: World, r: Transaction<()>, id: Id, drawn: set<Id>)
    requires Inv(w)
    requires r.Committed? ==> id in r.db.providers && r.db == WithProvider(w.db, id, r.db.providers[id])
    requires r.Committed? && id in w.db.providers ==>
      && r.db.providers[id].version == w.db.providers[id].version + 1
      && r.db.providers[id].settings.issuer == w.db.providers[id].settings.issuer
    requires r.Committed? && id !in w.db.providers ==> id in drawn && r.db.providers[id].version == 1
    ensures Kept(w, AfterWrite(w, r, id, drawn))
  {
    if r.Committed? {
      var early := Committing(w, w.db, w.clock, drawn);
      TimeKeeps(w, w.clock, drawn);
      assert AfterWrite(w, r, id, drawn) == Writing(early, r.db, id, {});
      WriteKeeps(early, id, r.db.providers[id], Writing(early, r.db, id, {}));
      LaterTransitive(w, early, AfterWrite(w, r, id, drawn));
    }
  }

  lemma ResolveEntraShape(w: World, s: Step)
    requires s.ResolveEntraStep? && AfterResolve(w, s) != w
    requires forall id :: id in w.db.identities ==> w.db.identities[id].principal in w.db.accounts
    ensures s.proof.provider in w.db.providers
    ensures
      var drawn := {s.drawn.principal, s.drawn.identity};
      var next := AfterResolve(w, s);
      || next == Committing(w, w.db, w.clock, drawn)
      || (exists row: Identity ::
            && row.principal == s.drawn.principal && row.provider == s.proof.provider
            && (forall i :: i in w.db.identities ==> !SameKey(w.db.identities[i], row))
            && next == Committing(w, WithIdentity(WithFederatedAccount(w.db, s.drawn.principal), s.drawn.identity, row),
                                  w.clock, drawn))
  {
    var r := ResolveEntra(w.db, s.proof, s.drawn);
    var provider := w.db.providers[s.proof.provider];
    var key := StorageKey(EntraSubject(s.proof.tenant, s.proof.user));
    var row := Identity(s.drawn.principal, s.proof.provider, provider.settings.issuer, key);
    if FindIdentity(w.db, s.proof.provider, provider.settings.issuer, key).None? {
      forall i | i in w.db.identities ensures !SameKey(w.db.identities[i], row) {
        assert !Names(w.db.identities[i], s.proof.provider, provider.settings.issuer, key);
      }
      assert AfterResolve(w, s) == Committing(
        w, WithIdentity(WithFederatedAccount(w.db, s.drawn.principal), s.drawn.identity, row), w.clock,
        {s.drawn.principal, s.drawn.identity});
    }
  }

  lemma ResolveEntraKeeps(w: World, s: Step)
    requires Inv(w) && Possible(w, s) && s.ResolveEntraStep?
    ensures Kept(w, AfterResolve(w, s))
  {
    var next := AfterResolve(w, s);
    if next != w {
      ResolveEntraShape(w, s);
      var drawn := {s.drawn.principal, s.drawn.identity};
      TimeKeeps(w, w.clock, drawn);
      if next != Committing(w, w.db, w.clock, drawn) {
        var row: Identity :|
          && row.principal == s.drawn.principal && row.provider == s.proof.provider
          && (forall i :: i in w.db.identities ==> !SameKey(w.db.identities[i], row))
          && next == Committing(w, WithIdentity(WithFederatedAccount(w.db, s.drawn.principal), s.drawn.identity, row),
                                w.clock, drawn);
        ProvisionedKeeps(w, s.drawn.principal, s.drawn.identity, row, next);
      }
    }
  }

  lemma ProvisionedKeeps(w: World, principal: Id, id: Id, row: Identity, next: World)
    requires Inv(w) && principal !in w.used && id !in w.used
    requires row.principal == principal && row.provider in w.db.providers
    requires forall i :: i in w.db.identities ==> !SameKey(w.db.identities[i], row)
    requires next == Committing(w, WithIdentity(WithFederatedAccount(w.db, principal), id, row), w.clock, {principal, id})
    ensures Kept(w, next)
  {
    var early := Committing(w, w.db, w.clock, {principal, id});
    TimeKeeps(w, w.clock, {principal, id});
    var owned := early.(db := WithFederatedAccount(w.db, principal));
    SetAccountKeeps(early, principal, Account(true, true, 1, 1, false));
    LaterTransitive(w, early, owned);
    AddIdentityKeeps(owned, id, row);
    LaterTransitive(w, owned, next);
  }

  lemma AccountKeeps(w: World, r: Transaction<()>, principal: Id, drawn: set<Id>)
    requires Inv(w)
    requires r.Committed? ==>
      && principal in r.db.accounts
      && r.db == w.db.(accounts := w.db.accounts[principal := r.db.accounts[principal]])
      && (principal in w.db.accounts ==> w.db.accounts[principal].epoch <= r.db.accounts[principal].epoch)
      && (principal in w.db.accounts || principal in drawn)
    ensures Kept(w, AfterPlain(w, r, drawn))
  {
    if r.Committed? {
      var early := Committing(w, w.db, w.clock, drawn);
      TimeKeeps(w, w.clock, drawn);
      SetAccountKeeps(early, principal, r.db.accounts[principal]);
      LaterTransitive(w, early, AfterPlain(w, r, drawn));
    }
  }

  lemma LocalSessionKeeps(w: World, s: Step)
    requires Inv(w) && Possible(w, s) && s.IssueLocalStep?
    ensures Kept(w, AfterPlain(w, IssueLocal(w.db, s.principal, s.session, s.replaced, s.expires), {s.session}))
  {
    var r := IssueLocal(w.db, s.principal, s.session, s.replaced, s.expires);
    if r.Committed? {
      var early := Committing(w, w.db, w.clock, {s.session});
      var account := w.db.accounts[s.principal];
      TimeKeeps(w, w.clock, {s.session});
      WithSessionKeeps(
        early, s.session, Session(s.principal, account.epoch, account.memberEpoch, None, false, s.expires), s.replaced);
      LaterTransitive(w, early, AfterPlain(w, r, {s.session}));
    }
  }

  lemma TouchKeeps(w: World, s: Step)
    requires Inv(w) && s.TouchSessionStep?
    ensures Kept(w, AfterPlain(w, TouchSession(w.db, s.session, s.expires, s.revoke), {}))
  {
    if s.session in w.db.sessions {
      var row := w.db.sessions[s.session];
      SetSessionKeeps(w, s.session, row.(expires := s.expires, revoked := row.revoked || s.revoke));
      assert Committing(w, w.db, w.clock, {}) == w;
    }
  }

  predicate ProtocolStep(s: Step) {
    || s.BeginAuthenticationStep? || s.CancelStep? || s.ClaimStep? || s.CompleteStep? || s.BeginLinkStep?
    || s.ReadTargetStep? || s.FinishReauthenticationStep?
  }

  predicate ProviderStep(s: Step) {
    s.CreateProviderStep? || s.EditProviderStep? || s.EnableProviderStep? || s.ReprofileStep?
  }

  lemma ProtocolKeeps(w: World, s: Step)
    requires Inv(w) && Possible(w, s) && ProtocolStep(s)
    ensures Kept(w, After(w, s))
  {
    match s
    case BeginAuthenticationStep(_, _, _, _, _, _, _) => BeginKeeps(w, s);
    case CancelStep(_, _, _) => CancelKeeps(w, s);
    case ClaimStep(_, _, _, _, _) => ClaimKeeps(w, s);
    case CompleteStep(_, _, _, _, _, _) => CompleteKeeps(w, s);
    case BeginLinkStep(_, _, _, _, _, _, _, _, _) => BeginLinkKeeps(w, s);
    case ReadTargetStep(_) => ReadTargetKeeps(w, s);
    case FinishReauthenticationStep(_, _, _, _, _) => FinishReauthenticationKeeps(w, s);
  }

  /** A provider write that commits writes one row: the next version of it, or its first. */
  lemma ProviderShape(w: World, s: Step) returns (r: Transaction<()>, id: Id, drawn: set<Id>)
    requires Possible(w, s) && ProviderStep(s)
    requires forall p :: p in w.db.providers ==> p in w.used
    ensures After(w, s) == AfterWrite(w, r, id, drawn)
    ensures r.Committed? ==> id in r.db.providers && r.db == WithProvider(w.db, id, r.db.providers[id])
    ensures r.Committed? && id in w.db.providers ==>
      && r.db.providers[id].version == w.db.providers[id].version + 1
      && r.db.providers[id].settings.issuer == w.db.providers[id].settings.issuer
    ensures r.Committed? && id !in w.db.providers ==> id in drawn && r.db.providers[id].version == 1
  {
    match s
    case CreateProviderStep(p, settings, assurance) => r, id, drawn := CreateProvider(w.db, p, settings, assurance), p, {p};
    case EditProviderStep(p, expected, settings, assurance) =>
      r, id, drawn := EditProvider(w.db, p, expected, settings, assurance), p, {};
    case EnableProviderStep(p, expected, enabled) => r, id, drawn := EnableProvider(w.db, p, expected, enabled), p, {};
    case ReprofileStep(p, assurance) => r, id, drawn := Reprofile(w.db, p, assurance), p, {};
  }

  lemma ProviderKeeps(w: World, s: Step)
    requires Inv(w) && Possible(w, s) && ProviderStep(s)
    ensures Kept(w, After(w, s))
  {
    var r, id, drawn := ProviderShape(w, s);
    WritingKeeps(w, r, id, drawn);
  }

  lemma OtherKeeps(w: World, s: Step)
    requires Inv(w) && Possible(w, s) && !ProtocolStep(s) && !ProviderStep(s)
    ensures Kept(w, After(w, s))
  {
    match s
    case ResolveEntraStep(_, _) => ResolveEntraKeeps(w, s);
    case ChangeAccountStep(principal, change) => AccountKeeps(w, ChangeAccount(w.db, principal, change), principal, {});
    case CreateLocalAccountStep(principal) => AccountKeeps(w, CreateLocalAccount(w.db, principal), principal, {principal});
    case IssueLocalStep(_, _, _, _) => LocalSessionKeeps(w, s);
    case TouchSessionStep(_, _, _) => TouchKeeps(w, s);
  }

  /** Every step of every run keeps the invariant and takes nothing back. */
  lemma StepKeeps(w: World, s: Step)
    requires Inv(w)
    ensures Kept(w, After(w, s))
  {
    if Possible(w, s) {
      if ProtocolStep(s) {
        ProtocolKeeps(w, s);
      } else if ProviderStep(s) {
        ProviderKeeps(w, s);
      } else {
        OtherKeeps(w, s);
      }
    }
  }

  lemma {:induction false} RunKeeps(w: World, steps: seq<Step>)
    requires Inv(w)
    ensures Kept(w, Run(w, steps))
    decreases |steps|
  {
    if steps != [] {
      StepKeeps(w, steps[0]);
      RunKeeps(After(w, steps[0]), steps[1..]);
      LaterTransitive(w, After(w, steps[0]), Run(w, steps));
    }
  }

  lemma InitialInv(w: World)
    requires Initial(w)
    ensures Inv(w)
  {
  }
}
