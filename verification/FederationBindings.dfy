/** Who can take an attempt further, what each transaction binds it to, and how much the tables can hold. */
module FederationBindings {
  import opened Assurances
  import opened Common
  import opened ExternalSubjects
  import opened Federation
  import opened FederationRuns
  import opened FederationInvariants
  import opened FederationSteps
  import opened FederationTheorems

  // What is released is what was inserted

  lemma ReleaseShape(w: World, s: Step, k: nat)
    requires |w.log| <= k < |After(w, s).log| && After(w, s).log[k].Released?
    ensures var e := After(w, s).log[k];
      e.attempt in w.db.attempts && w.db.attempts[e.attempt].secrets == Some(e.secrets)
  {
    var events := LogShape(w, s);
    assert After(w, s).log[k] == events[k - |w.log|];
    ClaimShape(w, s);
  }

  lemma ReleasedNow(v: World, w: World, s: Step, k: nat)
    requires Later(v, w) && IdsUsed(v.db, v.used)
    requires |w.log| <= k < |After(w, s).log| && After(w, s).log[k].Released? && After(w, s).log[k].attempt in v.used
    ensures var e := After(w, s).log[k];
      e.attempt in v.db.attempts && v.db.attempts[e.attempt].secrets == Some(e.secrets)
  {
    ReleaseShape(w, s, k);
    assert AttemptsLater(v.used, v.db.attempts, w.db.attempts);
  }

  lemma {:induction false} ReleasedLater(v: World, w: World, more: seq<Step>, k: nat)
    requires Inv(w) && Later(v, w) && IdsUsed(v.db, v.used)
    requires |w.log| <= k < |Run(w, more).log| && Run(w, more).log[k].Released?
    requires Run(w, more).log[k].attempt in v.used
    ensures var e := Run(w, more).log[k];
      e.attempt in v.db.attempts && v.db.attempts[e.attempt].secrets == Some(e.secrets)
    decreases |more|
  {
    if more != [] {
      var next := After(w, more[0]);
      StepKeeps(w, more[0]);
      RunKeeps(next, more[1..]);
      if k < |next.log| {
        assert next.log[k] == Run(w, more).log[k];
        ReleasedNow(v, w, more[0], k);
      } else {
        LaterTransitive(v, w, next);
        ReleasedLater(v, next, more[1..], k);
      }
    }
  }

  /** What a claim hands out, whenever it happens, are the nonce and the verifier its attempt was inserted with. */
  lemma ReleasesTheInserted(w: World, more: seq<Step>, k: nat)
    requires Reachable(w) && |w.log| <= k < |Run(w, more).log|
    requires var e := Run(w, more).log[k]; e.Released? && e.attempt in w.db.attempts
    ensures var e := Run(w, more).log[k]; w.db.attempts[e.attempt].secrets == Some(e.secrets)
  {
    ReachableInv(w);
    ReleasedLater(w, w, more, k);
  }

  /** While an attempt exists nothing about it changes but that its secrets leave. */
  lemma AttemptsAreFixed(w: World, more: seq<Step>, a: Id)
    requires Reachable(w) && a in w.db.attempts && a in Run(w, more).db.attempts
    ensures
      var row, later := w.db.attempts[a], Run(w, more).db.attempts[a];
      later == row || later == row.(secrets := None)
  {
    ReachableInv(w);
    ReachableOn(w, more);
    assert AttemptLater(w.db.attempts[a], Run(w, more).db.attempts[a]);
  }

  // Who can take an attempt further

  /** A session that speaks for its account now. */
  predicate Live(db: Tables, session: Id, now: int) {
    && session in db.sessions
    && var row := db.sessions[session];
    && row.principal in db.accounts
    && var account := db.accounts[row.principal];
    && account.enabled && account.memberActive
    && row.epoch == account.epoch && row.memberEpoch == account.memberEpoch
    && !row.revoked && now < row.expires
    && (row.origin.Some? ==> OriginCurrent(db, row.principal, row.origin.value))
  }

  lemma LookupFinds(db: Tables, session: Id, now: int)
    ensures Lookup(db, session, now).Ok? <==> Live(db, session, now)
    ensures Live(db, session, now) ==>
      var row := db.sessions[session];
      Lookup(db, session, now) == Ok(Actor(session, row.principal, db.accounts[row.principal], row.expires))
  {
  }

  /**
    The caller presents the state, browser and purpose the attempt was inserted with, in its lifetime and under its
    provider row; and, for an attempt begun from a session, that very session, still live, with its intent still open.
  */
  ghost predicate Bound(db: Tables, call: Callback, claimed: bool, at: Reads) {
    && call.attempt in db.attempts
    && var row := db.attempts[call.attempt];
    && row.state == call.state && row.browser == call.browser && row.purpose == call.purpose
    && row.secrets.None? == claimed
    && row.created <= at.first < row.expiry
    && row.provider in db.providers
    && db.providers[row.provider].enabled && db.providers[row.provider].version == row.version
    && match row.link
       case Some(id) =>
         && StartedBy(db, call, id) && Live(db, db.intents[id].session, at.checked)
         && db.intents[id].created <= at.viewed < db.intents[id].expiry
       case None => row.replacement.Some? ==> call.session == row.replacement && Live(db, row.replacement.value, at.checked)
  }

  lemma ActorBound(db: Tables, call: Callback, at: Reads)
    requires LinksConsistent(db.attempts, db.intents)
    requires call.attempt in db.attempts && db.attempts[call.attempt].browser == call.browser
    ensures
      var row := db.attempts[call.attempt];
      CheckActor(db, row, call.session, at.viewed, at.checked).Ok? <==>
      match row.link
      case Some(id) =>
        && StartedBy(db, call, id) && Live(db, db.intents[id].session, at.checked)
        && db.intents[id].created <= at.viewed < db.intents[id].expiry
      case None => row.replacement.Some? ==> call.session == row.replacement && Live(db, row.replacement.value, at.checked)
  {
    var row := db.attempts[call.attempt];
    if call.session.Some? {
      LookupFinds(db, call.session.value, at.checked);
    }
    assert PurposeFits(row);
  }

  lemma CancelBound(db: Tables, call: Callback, issuer: string, at: Reads)
    requires LinksConsistent(db.attempts, db.intents)
    ensures Cancel(db, call, issuer, at).Committed? <==>
      Bound(db, call, false, at) && db.providers[db.attempts[call.attempt].provider].settings.issuer == issuer
  {
    if call.attempt in db.attempts && db.attempts[call.attempt].browser == call.browser {
      ActorBound(db, call, at);
    }
  }

  /** A rejection ends an attempt exactly when it is bound, unclaimed and of the presented issuer. */
  lemma CancelsExactly(w: World, call: Callback, issuer: string, at: Reads)
    requires Reachable(w)
    ensures Cancel(w.db, call, issuer, at).Committed? <==>
      Bound(w.db, call, false, at) && w.db.providers[w.db.attempts[call.attempt].provider].settings.issuer == issuer
    ensures Cancel(w.db, call, issuer, at).Committed? ==>
      Cancel(w.db, call, issuer, at).db == w.db.(attempts := w.db.attempts - {call.attempt})
  {
    ReachableInv(w);
    CancelBound(w.db, call, issuer, at);
  }

  /** The attempt is bound and unclaimed, of the presented issuer, and a step-up is still possible. */
  ghost predicate Claimable(db: Tables, call: Callback, issuer: string, profile: AssuranceProfile, at: Reads) {
    && Bound(db, call, false, at)
    && db.providers[db.attempts[call.attempt].provider].settings.issuer == issuer
    && StepUpPossible(db, db.attempts[call.attempt], profile)
  }

  /** A step-up needs its session, and a provider linked to the principal that can prove a second factor. */
  predicate StepUpPossible(db: Tables, row: Attempt, profile: AssuranceProfile)
    requires row.provider in db.providers
  {
    row.mode == StepUpMode ==>
      && row.link.None? && row.replacement.Some? && row.replacement.value in db.sessions
      && CanStepUp(db, db.sessions[row.replacement.value].principal, row.provider, profile)
  }

  lemma ClaimBound(db: Tables, call: Callback, issuer: string, profile: AssuranceProfile, at: Reads)
    requires LinksConsistent(db.attempts, db.intents)
    ensures Claim(db, call, issuer, profile, at).Committed? <==> Claimable(db, call, issuer, profile, at)
  {
    if call.attempt in db.attempts && db.attempts[call.attempt].browser == call.browser {
      ActorBound(db, call, at);
      assert PurposeFits(db.attempts[call.attempt]);
      if call.session.Some? {
        LookupFinds(db, call.session.value, at.checked);
      }
    }
  }

  /** A claim succeeds exactly when its attempt is bound, unclaimed, of this issuer, and a step-up still possible. */
  lemma ClaimsExactly(w: World, call: Callback, issuer: string, profile: AssuranceProfile, at: Reads)
    requires Reachable(w)
    ensures Claim(w.db, call, issuer, profile, at).Committed? <==> Claimable(w.db, call, issuer, profile, at)
    ensures Claimable(w.db, call, issuer, profile, at) ==>
      var row := w.db.attempts[call.attempt];
      Claim(w.db, call, issuer, profile, at) == Committed(
        w.db.(attempts := w.db.attempts[call.attempt := row.(secrets := None)]),
        Claimed(row, w.db.providers[row.provider], row.secrets.value))
  {
    ReachableInv(w);
    ClaimBound(w.db, call, issuer, profile, at);
  }

  function CallOf(s: Step): Callback
    requires Subject(s).Some?
  {
    s.call
  }

  function ReadsOf(s: Step): Reads
    requires Subject(s).Some?
  {
    s.at
  }

  lemma AdmittedBound(w: World, s: Step)
    requires Inv(w) && s.CompleteStep? && Admit(w.db, s.call, s.profile, s.at).Ok?
    ensures Bound(w.db, s.call, true, s.at)
  {
    AdmittedShape(w, s.call, s.profile, s.at, Admit(w.db, s.call, s.profile, s.at).value);
    ActorBound(w.db, s.call, s.at);
  }

  lemma FinishBound(w: World, s: Step)
    requires Inv(w) && Possible(w, s) && s.FinishReauthenticationStep?
    requires AfterFinishReauthentication(w, s) != Landed(w, s.call.attempt)
    ensures Bound(w.db, s.call, true, s.at)
  {
    var source := w.flights[s.call.attempt].source;
    var id, row, added := FinishShape(w, s);
    assert source in RowsOf(w.log, s.call.attempt);
    ActorBound(w.db, s.call, s.at);
  }

  /**
    No step of any run cancels, claims or completes an attempt unless its caller is bound to it; and completing takes a
    claimed attempt, the others an unclaimed one.
  */
  lemma EveryActIsBound(w: World, s: Step)
    requires Reachable(w) && Subject(s).Some? && (After(w, s).db != w.db || After(w, s).log != w.log)
    ensures Bound(w.db, CallOf(s), s.CompleteStep? || s.FinishReauthenticationStep?, ReadsOf(s))
  {
    ReachableInv(w);
    if s.CancelStep? {
      CancelsExactly(w, s.call, s.issuer, s.at);
    } else if s.ClaimStep? {
      ClaimsExactly(w, s.call, s.issuer, s.profile, s.at);
    } else if s.CompleteStep? {
      AdmittedBound(w, s);
    } else {
      FinishBound(w, s);
    }
  }

  // When a completion commits

  predicate GrantPossible(db: Tables, session: Session, owner: Option<Id>, claims: Upstream, at: Reads) {
    && owner == Some(session.principal)
    && claims.assurance.authTime.Some?
    && claims.assurance.authTime.value <= at.granted < claims.assurance.authTime.value + 300
    && at.granted < session.expires
    && |LiveGrants(db.grants, session.principal, at.granted)| < 32
  }

  function LiveGrants(grants: map<Id, Grant>, principal: Id, now: int): set<Id> {
    set g | g in grants && grants[g].principal == principal && grants[g].expires > now
  }

  predicate LinkPossible(db: Tables, intent: Intent, owner: Option<Id>, at: Reads) {
    && (owner.Some? ==> owner.value == intent.principal)
    && intent.epoch < I64_MAX
    && match intent.origin
       case Some(origin) => OriginCurrent(db, intent.principal, origin)
       case None => intent.localAuthenticatedAt.Some? && 0 < intent.localAuthenticatedAt.value <= at.now
  }

  predicate LoginPossible(db: Tables, row: Attempt, jit: bool, owner: Option<Id>, claims: Upstream) {
    && claims.facts.Ok?
    && match owner
       case Some(principal) =>
         && principal in db.accounts && db.accounts[principal].Active()
         && (row.replacement.Some? ==>
               row.replacement.value in db.sessions && db.sessions[row.replacement.value].principal == principal)
       case None => jit && row.replacement.None?
  }

  /** What a caller can check before it completes an attempt: everything that could still refuse it. */
  ghost predicate Completable(db: Tables, call: Callback, claims: Upstream, profile: AssuranceProfile, at: Reads) {
    && Bound(db, call, true, at)
    && var row := db.attempts[call.attempt];
    && StepUpPossible(db, row, profile)
    && Proves(claims.assurance, row.mode, row.created, at.now)
    && at.last < row.expiry
    && var owner := Owner(db, row.provider, claims.issuer, claims.subject);
    && if row.mode == StepUpMode then GrantPossible(db, db.sessions[row.replacement.value], owner, claims, at)
       else
         match row.link
         case Some(id) => LinkPossible(db, db.intents[id], owner, at)
         case None => LoginPossible(db, row, db.providers[row.provider].settings.jit, owner, claims)
  }

  function ActorOf(db: Tables, session: Id): Option<Actor> {
    if session in db.sessions && db.sessions[session].principal in db.accounts then
      var row := db.sessions[session];
      Some(Actor(session, row.principal, db.accounts[row.principal], row.expires))
    else None
  }

  /** The session an attempt began from. */
  function SessionOf(db: Tables, row: Attempt): Option<Id> {
    match row.link
    case Some(id) => if id in db.intents then Some(db.intents[id].session) else None
    case None => row.replacement
  }

  lemma ActorIs(db: Tables, call: Callback, at: Reads)
    requires LinksConsistent(db.attempts, db.intents)
    requires call.attempt in db.attempts
    requires CheckActor(db, db.attempts[call.attempt], call.session, at.viewed, at.checked).Ok?
    ensures
      var row := db.attempts[call.attempt];
      CheckActor(db, row, call.session, at.viewed, at.checked).value
      == if SessionOf(db, row).Some? then ActorOf(db, SessionOf(db, row).value) else None
  {
    if call.session.Some? {
      LookupFinds(db, call.session.value, at.checked);
    }
  }

  lemma Admits(db: Tables, call: Callback, profile: AssuranceProfile, at: Reads)
    requires LinksConsistent(db.attempts, db.intents)
    ensures Admit(db, call, profile, at).Ok? <==>
      Bound(db, call, true, at) && StepUpPossible(db, db.attempts[call.attempt], profile)
    ensures Admit(db, call, profile, at).Ok? ==>
      var row := db.attempts[call.attempt];
      Admit(db, call, profile, at).value == Admission(
        row, db.providers[row.provider], if SessionOf(db, row).Some? then ActorOf(db, SessionOf(db, row).value) else None)
  {
    if call.attempt in db.attempts && db.attempts[call.attempt].browser == call.browser {
      ActorBound(db, call, at);
      assert PurposeFits(db.attempts[call.attempt]);
      if CheckActor(db, db.attempts[call.attempt], call.session, at.viewed, at.checked).Ok? {
        ActorIs(db, call, at);
      }
      if call.session.Some? {
        LookupFinds(db, call.session.value, at.checked);
      }
    }
  }

  /** The principal of a completion is found, or provisioned, and may act. */
  ghost predicate Resolves(db: Tables, admission: Admission, claims: Upstream, drawn: Fresh) {
    var found := Resolve(db, admission, claims, drawn);
    found.Ok? && found.value.principal in found.value.db.accounts && found.value.db.accounts[found.value.principal].Active()
  }

  ghost function Ending(
    db: Tables, call: Callback, claims: Upstream, admission: Admission, drawn: Fresh, expires: int, at: Reads
  ): Transaction<Completion>
    requires Resolves(db, admission, claims, drawn)
  {
    var resolved := Resolve(db, admission, claims, drawn).value;
    if admission.attempt.mode == StepUpMode then GrantStepUp(call, claims, admission, resolved, drawn, at)
    else if admission.attempt.purpose == Link then CompleteLink(call, admission, resolved, drawn, expires, at)
    else IssueLogin(call, claims, admission, resolved, drawn, expires, at)
  }

  lemma CommitsWhen(
    db: Tables, call: Callback, claims: Upstream, profile: AssuranceProfile, drawn: Fresh, expires: int, at: Reads)
    ensures Complete(db, call, claims, profile, drawn, expires, at).Committed? <==>
      && Admit(db, call, profile, at).Ok?
      && var admission := Admit(db, call, profile, at).value;
      && Resolves(db, admission, claims, drawn)
      && Proves(claims.assurance, admission.attempt.mode, admission.attempt.created, at.now)
      && Ending(db, call, claims, admission, drawn, expires, at).Committed?
  {
    if Admit(db, call, profile, at).Ok? {
      var row := Admit(db, call, profile, at).value.attempt;
      AssuranceWhen(claims.assurance, row.mode, row.created, at.now);
    }
  }

  lemma GrantsLeft(grants: map<Id, Grant>, principal: Id, now: int)
    ensures GrantsOf(grants - EndedGrants(grants, principal, now), principal) == LiveGrants(grants, principal, now)
  {
  }

  lemma GrantWhen(
    db: Tables, call: Callback, claims: Upstream, admission: Admission, session: Id, drawn: Fresh, expires: int, at: Reads)
    requires admission.attempt.mode == StepUpMode && admission.attempt.purpose == Login
    requires session in db.sessions && db.sessions[session].principal in db.accounts
    requires db.accounts[db.sessions[session].principal].Active() && admission.actor == ActorOf(db, session)
    ensures Resolves(db, admission, claims, drawn) && Ending(db, call, claims, admission, drawn, expires, at).Committed? <==>
      var owner := Owner(db, admission.attempt.provider, claims.issuer, claims.subject);
      GrantPossible(db, db.sessions[session], owner, claims, at) && at.last < admission.attempt.expiry
  {
    GrantsLeft(db.grants, db.sessions[session].principal, at.granted);
  }

  lemma LoginWhen(
    db: Tables, call: Callback, claims: Upstream, admission: Admission, drawn: Fresh, expires: int, at: Reads)
    requires admission.attempt.mode == LoginMode && admission.attempt.purpose == Login
    requires admission.actor ==
      if admission.attempt.replacement.Some? then ActorOf(db, admission.attempt.replacement.value) else None
    requires admission.attempt.replacement.Some? ==> admission.actor.Some?
    requires drawn.principal !in db.accounts
    ensures Resolves(db, admission, claims, drawn) && Ending(db, call, claims, admission, drawn, expires, at).Committed? <==>
      var owner := Owner(db, admission.attempt.provider, claims.issuer, claims.subject);
      && LoginPossible(db, admission.attempt, admission.provider.settings.jit, owner, claims)
      && at.last < admission.attempt.expiry
  {
  }

  lemma LinkWhen(
    db: Tables, call: Callback, claims: Upstream, admission: Admission, id: Id, drawn: Fresh, expires: int, at: Reads)
    requires admission.attempt.mode == LoginMode && admission.attempt.purpose == Link && admission.attempt.link == Some(id)
    requires id in db.intents && db.intents[id].stage == TargetReady
    requires db.intents[id].target == admission.attempt.provider && db.intents[id].version == admission.provider.version
    requires admission.actor == ActorOf(db, db.intents[id].session) && admission.actor.Some?
    requires admission.actor.value.principal == db.intents[id].principal && admission.actor.value.account.Active()
    requires admission.actor.value.account.epoch == db.intents[id].epoch
    requires drawn.identity !in db.identities
    requires db.intents[id].origin.Some? ==> db.intents[id].origin.value.identity in db.identities
    ensures Resolves(db, admission, claims, drawn) && Ending(db, call, claims, admission, drawn, expires, at).Committed? <==>
      var owner := Owner(db, admission.attempt.provider, claims.issuer, claims.subject);
      LinkPossible(db, db.intents[id], owner, at) && at.last < admission.attempt.expiry
  {
  }

  /**
    A completion commits exactly when its caller is bound to a claimed attempt and nothing refuses what the attempt is for:
    a step-up, a link or a login.
  */
  lemma CompletesExactly(
    w: World, call: Callback, claims: Upstream, profile: AssuranceProfile, drawn: Fresh, expires: int, at: Reads)
    requires Reachable(w) && call.purpose != Reauthenticate && Unused(w, drawn)
    ensures Complete(w.db, call, claims, profile, drawn, expires, at).Committed? <==>
      Completable(w.db, call, claims, profile, at)
  {
    ReachableInv(w);
    Admits(w.db, call, profile, at);
    CommitsWhen(w.db, call, claims, profile, drawn, expires, at);
    if Admit(w.db, call, profile, at).Ok? {
      var row, admission := w.db.attempts[call.attempt], Admit(w.db, call, profile, at).value;
      assert PurposeFits(row);
      EndsWhen(w, call, claims, admission, drawn, expires, at);
    }
  }

  lemma EndsWhen(
    w: World, call: Callback, claims: Upstream, admission: Admission, drawn: Fresh, expires: int, at: Reads)
    requires Inv(w) && call.purpose != Reauthenticate && Unused(w, drawn) && Bound(w.db, call, true, at)
    requires admission.attempt == w.db.attempts[call.attempt]
    requires admission.provider == w.db.providers[admission.attempt.provider]
    requires admission.actor ==
      if SessionOf(w.db, admission.attempt).Some? then ActorOf(w.db, SessionOf(w.db, admission.attempt).value) else None
    requires admission.attempt.mode == StepUpMode ==> admission.attempt.link.None? && admission.attempt.replacement.Some?
    ensures
      var row := admission.attempt;
      var owner := Owner(w.db, row.provider, claims.issuer, claims.subject);
      Resolves(w.db, admission, claims, drawn) && Ending(w.db, call, claims, admission, drawn, expires, at).Committed? <==>
        && at.last < row.expiry
        && if row.mode == StepUpMode then GrantPossible(w.db, w.db.sessions[row.replacement.value], owner, claims, at)
           else
             match row.link
             case Some(id) => LinkPossible(w.db, w.db.intents[id], owner, at)
             case None => LoginPossible(w.db, row, w.db.providers[row.provider].settings.jit, owner, claims)
  {
    var row := admission.attempt;
    assert PurposeFits(row);
    if row.mode == StepUpMode {
      GrantWhen(w.db, call, claims, admission, row.replacement.value, drawn, expires, at);
    } else if row.link.Some? {
      var id := row.link.value;
      assert IntentTracked(w.db.intents[id], w.db.accounts, w.db.identities, w.db.providers);
      LinkWhen(w.db, call, claims, admission, id, drawn, expires, at);
    } else {
      LoginWhen(w.db, call, claims, admission, drawn, expires, at);
    }
  }

  // What the other transactions bind

  /** The linking attempt that follows a reauthentication: same browser and intent, the intent's target, its own secrets. */
  predicate FollowsOn(next: Tables, call: Callback, id: Id, intent: Intent, input: NewAttempt) {
    && input.id in next.attempts
    && var row := next.attempts[input.id];
    && row.purpose == Link && row.mode == LoginMode && row.link == Some(id)
    && row.provider == intent.target && row.version == intent.version
    && row.browser == call.browser && row.state == input.state && row.secrets == Some(input.secrets)
    && row.expiry <= intent.expiry
  }

  /** The reauthenticated subject is the principal's, freshly proved; the intent keeps an accepted origin with new facts. */
  ghost predicate SourceProved(
    db: Tables, next: Tables, id: Id, row: Attempt, claims: Upstream, now: int)
    requires id in db.intents
  {
    var intent := db.intents[id];
    && Owner(db, row.provider, claims.issuer, claims.subject) == Some(intent.principal)
    && Proves(claims.assurance, ReauthenticateMode, row.created, now)
    && claims.facts.Ok? && intent.origin.Some? && intent.stage == ReauthenticationRequired
    && id in next.intents
    && next.intents[id] == intent.(stage := TargetReady, origin := next.intents[id].origin)
    && next.intents[id].origin.Some?
    && var origin := next.intents[id].origin.value;
    && origin.identity == intent.origin.value.identity && origin.facts == claims.facts.value
    && OriginCurrent(next, intent.principal, origin)
  }

  lemma FinishClaims(w: World, s: Step)
    requires s.FinishReauthenticationStep? && s.call.attempt in w.flights && w.flights[s.call.attempt].target.Some?
    requires AfterFinishReauthentication(w, s) != Landed(w, s.call.attempt)
    ensures s.call.attempt in w.db.attempts && w.db.attempts[s.call.attempt].link.Some?
    ensures var row := w.db.attempts[s.call.attempt];
      && row.browser == s.call.browser && row.link.value in w.db.intents
      && var intent := w.db.intents[row.link.value];
      && intent.origin.Some? && intent.origin.value.identity in w.db.identities && s.claims.facts.Ok?
      && Names(w.db.identities[intent.origin.value.identity], w.flights[s.call.attempt].source.0, s.claims.issuer,
               StorageKey(s.claims.subject))
      && AssuranceMeets(s.claims.assurance, ReauthenticateMode, row.created, s.at.now)
  {
  }

  lemma FollowOn(w: World, s: Step)
    requires s.FinishReauthenticationStep? && s.call.attempt in w.flights && w.flights[s.call.attempt].target.Some?
    requires AfterFinishReauthentication(w, s) != Landed(w, s.call.attempt)
    ensures s.input.id in AfterFinishReauthentication(w, s).db.attempts
    ensures var row := AfterFinishReauthentication(w, s).db.attempts[s.input.id];
      row.browser == s.call.browser && row.state == s.input.state && row.secrets == Some(s.input.secrets) && ShortLived(row)
    ensures |w.db.attempts - {s.call.attempt} - s.purge.attempts| < 10000
  {
  }

  lemma FinishProves(w: World, s: Step) returns (id: Id)
    requires IdentitiesUnique(w.db.identities, w.db.accounts.Keys, w.db.providers.Keys)
    requires s.FinishReauthenticationStep? && s.call.attempt in w.flights && w.flights[s.call.attempt].target.Some?
    requires AfterFinishReauthentication(w, s) != Landed(w, s.call.attempt)
    requires s.call.attempt in w.db.attempts && w.flights[s.call.attempt].source.0 == w.db.attempts[s.call.attempt].provider
    requires Possible(w, s)
    ensures w.db.attempts[s.call.attempt].link == Some(id)
    ensures SourceProved(w.db, AfterFinishReauthentication(w, s).db, id, w.db.attempts[s.call.attempt], s.claims, s.at.now)
  {
    FinishClaims(w, s);
    var row, added;
    id, row, added := FinishShape(w, s);
    OwnerIs(w.db, w.db.intents[id].origin.value.identity, w.db.attempts[s.call.attempt].provider,
            s.claims.issuer, s.claims.subject);
  }

  lemma FinishRedirects(w: World, s: Step) returns (id: Id)
    requires IdsUsed(w.db, w.used) && FlightsHold(w.flights, w.log, w.rows, w.db.attempts, w.db.intents)
    requires Possible(w, s) && s.FinishReauthenticationStep?
    requires AfterFinishReauthentication(w, s) != Landed(w, s.call.attempt)
    ensures s.call.attempt in w.db.attempts && w.db.attempts[s.call.attempt].link == Some(id) && id in w.db.intents
    ensures s.call.attempt !in AfterFinishReauthentication(w, s).db.attempts
    ensures FollowsOn(AfterFinishReauthentication(w, s).db, s.call, id, w.db.intents[id], s.input)
  {
    FollowOn(w, s);
    var row, added;
    id, row, added := FinishShape(w, s);
  }

  /**
    A finished reauthentication was for the browser and session of its intent, by the owner of the session's own identity
    and after the attempt began; it opens the one linking attempt of the intent and ends the old one.
  */
  lemma ReauthenticationIsForTheSource(w: World, s: Step) returns (id: Id)
    requires Reachable(w) && Possible(w, s) && s.FinishReauthenticationStep?
    requires AfterFinishReauthentication(w, s) != Landed(w, s.call.attempt)
    ensures s.call.attempt in w.db.attempts && w.db.attempts[s.call.attempt].link == Some(id)
    ensures StartedBy(w.db, s.call, id) && s.call.attempt !in After(w, s).db.attempts
    ensures SourceProved(w.db, After(w, s).db, id, w.db.attempts[s.call.attempt], s.claims, s.at.now)
    ensures FollowsOn(After(w, s).db, s.call, id, w.db.intents[id], s.input)
  {
    ReachableInv(w);
    FinishBound(w, s);
    assert w.flights[s.call.attempt].source in RowsOf(w.log, s.call.attempt);
    id := FinishRedirects(w, s);
    var proved := FinishProves(w, s);
  }

  lemma NativeResolves(db: Tables, proof: EntraProof, drawn: Fresh) returns (id: Id)
    requires ResolveEntra(db, proof, drawn).Committed?
    ensures proof.provider in db.providers && EntraCurrent(proof, db.providers[proof.provider])
    ensures
      var issuer, subject := db.providers[proof.provider].settings.issuer, EntraSubject(proof.tenant, proof.user);
      var r := ResolveEntra(db, proof, drawn);
      && id in r.db.identities && Names(r.db.identities[id], proof.provider, issuer, StorageKey(subject))
      && r.db.identities[id].principal == r.value && r.value in r.db.accounts && r.db.accounts[r.value].Active()
      && match Owner(db, proof.provider, issuer, subject)
         case Some(owner) => r.db == db
         case None => id == drawn.identity && db.providers[proof.provider].settings.jit
  {
    var key := StorageKey(EntraSubject(proof.tenant, proof.user));
    var found := FindIdentity(db, proof.provider, db.providers[proof.provider].settings.issuer, key);
    id := if found.Some? then found.value else drawn.identity;
  }

  /**
    Native resolution answers with the owner of the native subject, under the provider row the proof was made for; it adds
    an identity exactly when nobody owned the subject, and only where the provider may provision.
  */
  lemma NativeResolveIsForTheOwner(w: World, s: Step)
    requires Reachable(w) && Possible(w, s) && s.ResolveEntraStep?
    requires ResolveEntra(w.db, s.proof, s.drawn).Committed?
    ensures s.proof.provider in w.db.providers && EntraCurrent(s.proof, w.db.providers[s.proof.provider])
    ensures
      var row, r := w.db.providers[s.proof.provider], ResolveEntra(w.db, s.proof, s.drawn);
      var subject := EntraSubject(s.proof.tenant, s.proof.user);
      && Owner(After(w, s).db, s.proof.provider, row.settings.issuer, subject) == Some(r.value)
      && r.value in After(w, s).db.accounts && After(w, s).db.accounts[r.value].Active()
      && (After(w, s).db != w.db <==> Owner(w.db, s.proof.provider, row.settings.issuer, subject).None?)
      && (After(w, s).db != w.db ==> row.settings.jit)
  {
    ReachableInv(w);
    ResolveEntraKeeps(w, s);
    var id := NativeResolves(w.db, s.proof, s.drawn);
    assert After(w, s).db == ResolveEntra(w.db, s.proof, s.drawn).db;
    OwnerIs(After(w, s).db, id, s.proof.provider, w.db.providers[s.proof.provider].settings.issuer,
            EntraSubject(s.proof.tenant, s.proof.user));
  }

  /**
    A login or step-up attempt begins under the current row of an enabled provider, for the presented session if there is
    one; a step-up always has one, of a principal the provider knows, and the provider can prove a second factor.
  */
  lemma BegunForItsSession(w: World, s: Step)
    requires s.BeginAuthenticationStep? && AfterBegin(w, s) != w
    ensures s.input.id in AfterBegin(w, s).db.attempts
    ensures var row := AfterBegin(w, s).db.attempts[s.input.id];
      && row.purpose == Login && row.link.None? && row.mode == s.input.mode && row.replacement == s.bound
      && row.state == s.input.state && row.browser == s.input.browser && row.secrets == Some(s.input.secrets)
      && row.provider in w.db.providers
      && var provider := w.db.providers[row.provider];
      && provider.enabled && provider.version == row.version == s.input.version && row.provider == s.input.provider
      && (s.bound.Some? ==> Live(w.db, s.bound.value, s.checked))
      && (row.mode == StepUpMode ==>
            && s.bound.Some?
            && CanStepUp(w.db, w.db.sessions[s.bound.value].principal, row.provider, s.profile))
  {
    if s.bound.Some? {
      LookupFinds(w.db, s.bound.value, s.checked);
    }
  }

  /** The intent of a new link: for the presented live session, from its own identity or from a password just proved. */
  ghost predicate Opened(db: Tables, s: Step, row: Intent, attempt: Attempt)
    requires s.BeginLinkStep?
  {
    && Live(db, s.session, s.at.first)
    && var session := db.sessions[s.session];
    && var account := db.accounts[session.principal];
    && row.session == s.session && row.principal == session.principal && row.browser == attempt.browser == s.input.browser
    && row.epoch == account.epoch && row.memberEpoch == account.memberEpoch
    && row.expiry == row.created + 300 && row.created == s.at.now && attempt.expiry <= row.expiry
    && row.target == s.target.0 && row.target in db.providers
    && db.providers[row.target].enabled && db.providers[row.target].version == row.version == s.target.1.version
    && (s.candidate.Some? <==> account.localPassword)
    && (account.localPassword ==>
          && row.stage == TargetReady && row.origin.None?
          && row.localAuthenticatedAt == Some(s.candidate.value.authenticatedAt)
          && s.candidate.value.account.epoch == account.epoch && attempt.provider == row.target)
    && (!account.localPassword ==>
          && row.stage == ReauthenticationRequired && row.origin.Some? && row.origin == session.origin
          && row.localAuthenticatedAt.None?
          && db.identities[row.origin.value.identity].provider == attempt.provider)
  }

  lemma OpenedRows(db: Tables, s: Step, r: (Tables, NewAttempt))
    requires s.BeginLinkStep?
    requires
      OpenIntent(db, s.session, s.account, s.candidate, s.target.0, s.target.1.version, s.intent, s.input, s.at) == Ok(r)
    ensures s.intent in r.0.intents && r.1.link == Some(s.intent) && r.1.id == s.input.id
    ensures Opened(db, s, r.0.intents[s.intent], AttemptRow(r.1, s.at.last))
  {
    LookupFinds(db, s.session, s.at.first);
  }

  /** A link that begins opens its intent and inserts the attempt that goes with it. */
  lemma BeginLinkLeaves(w: World, s: Step) returns (open: (Tables, NewAttempt))
    requires s.BeginLinkStep? && AfterBeginLink(w, s) != w
    ensures
      OpenIntent(w.db, s.session, s.account, s.candidate, s.target.0, s.target.1.version, s.intent, s.input, s.at)
      == Ok(open)
    ensures var next := AfterBeginLink(w, s).db;
      && next.intents == open.0.intents - s.purge.intents
      && open.1.id in next.attempts && next.attempts[open.1.id] == AttemptRow(open.1, s.at.last)
  {
    open := OpenIntent(
      w.db, s.session, s.account, s.candidate, s.target.0, s.target.1.version, s.intent, s.input, s.at).value;
  }

  /** A link opens for the session that asks for it: by password if the account has one, else by the session's provider. */
  lemma LinkOpensForItsSession(w: World, s: Step)
    requires Reachable(w) && Possible(w, s) && s.BeginLinkStep? && AfterBeginLink(w, s) != w
    ensures var next := After(w, s).db;
      && s.intent in next.intents && s.input.id in next.attempts && next.attempts[s.input.id].link == Some(s.intent)
      && Opened(w.db, s, next.intents[s.intent], next.attempts[s.input.id])
  {
    ReachableInv(w);
    assert s.intent !in s.purge.intents;
    var open := BeginLinkLeaves(w, s);
    OpenedRows(w.db, s, open);
  }

  // How much the tables hold

  predicate ShortLived(row: Attempt) {
    row.created < row.expiry <= row.created + 120
  }

  ghost predicate AttemptLimits(attempts: map<Id, Attempt>) {
    (forall a :: a in attempts ==> ShortLived(attempts[a])) && |attempts| <= 10000
  }

  ghost predicate IntentLimits(intents: map<Id, Intent>) {
    forall i :: i in intents ==> intents[i].expiry == intents[i].created + 300
  }

  ghost predicate Limits(db: Tables) {
    AttemptLimits(db.attempts) && IntentLimits(db.intents) && |db.providers| <= 100
  }

  lemma FewerAttempts(before: map<Id, Attempt>, after: map<Id, Attempt>)
    requires AttemptLimits(before)
    requires forall a :: a in after ==> a in before && AttemptLater(before[a], after[a])
    ensures AttemptLimits(after)
  {
    SubsetSize(after.Keys, before.Keys);
    assert |after| == |after.Keys| && |before| == |before.Keys|;
  }

  lemma OneMoreAttempt(attempts: map<Id, Attempt>, id: Id, row: Attempt)
    requires AttemptLimits(attempts) && |attempts| < 10000 && ShortLived(row)
    ensures AttemptLimits(attempts[id := row])
  {
    var next := attempts[id := row];
    assert next.Keys == attempts.Keys + {id};
    assert |next| == |next.Keys| && |attempts| == |attempts.Keys|;
  }

  lemma InsertedLimits(db: Tables, input: NewAttempt, now: int, purge: Purge)
    requires Limits(db) && InsertAttempt(db, input, now, purge).Ok?
    ensures Limits(InsertAttempt(db, input, now, purge).value)
  {
    FewerAttempts(db.attempts, Purged(db, purge).attempts);
    OneMoreAttempt(Purged(db, purge).attempts, input.id, AttemptRow(input, now));
  }

  lemma BegunLimits(w: World, s: Step)
    requires Limits(w.db) && s.BeginAuthenticationStep?
    ensures Limits(AfterBegin(w, s).db)
  {
    if AfterBegin(w, s) != w {
      InsertedLimits(w.db, s.input.(purpose := Login, link := None, replacement := s.bound, expiry := None), s.now, s.purge);
    }
  }

  lemma OpenedLimits(w: World, s: Step)
    requires Limits(w.db) && s.BeginLinkStep?
    ensures Limits(AfterBeginLink(w, s).db)
  {
    if AfterBeginLink(w, s) != w {
      var open := OpenIntent(
        w.db, s.session, s.account, s.candidate, s.target.0, s.target.1.version, s.intent, s.input, s.at).value;
      InsertedLimits(open.0, open.1, s.at.last, s.purge);
    }
  }

  lemma RedirectingLimits(
    w: World, prior: Id, source: Seen, id: Id, row: Intent, now: int, purge: Purge, attempt: Id, added: Attempt,
    target: Seen)
    requires Limits(w.db) && row.expiry == row.created + 300
    requires |w.db.attempts - {prior} - purge.attempts| < 10000 && ShortLived(added)
    ensures Limits(Redirecting(w, prior, source, id, row, now, purge, attempt, added, target).db)
  {
    var left := w.db.attempts - {prior} - purge.attempts;
    FewerAttempts(w.db.attempts, left);
    OneMoreAttempt(left, attempt, added);
    var intents := w.db.intents[id := row] - purge.intents;
    assert IntentLimits(intents);
    var next := Redirecting(w, prior, source, id, row, now, purge, attempt, added, target).db;
    assert next.attempts == left[attempt := added] && next.intents == intents;
  }

  lemma RedirectedLimits(w: World, s: Step)
    requires Limits(w.db) && Possible(w, s) && s.FinishReauthenticationStep?
    ensures Limits(AfterFinishReauthentication(w, s).db)
  {
    if AfterFinishReauthentication(w, s) != Landed(w, s.call.attempt) {
      var id, row, added := FinishShape(w, s);
      var flight := w.flights[s.call.attempt];
      FollowOn(w, s);
      assert added == AfterFinishReauthentication(w, s).db.attempts[s.input.id];
      RedirectingLimits(
        w, s.call.attempt, flight.source, id, row, s.at.last, s.purge, s.input.id, added, flight.target.value);
    }
  }

  lemma ResolvedRest(db: Tables, admission: Admission, claims: Upstream, drawn: Fresh)
    requires Resolve(db, admission, claims, drawn).Ok?
    ensures var next := Resolve(db, admission, claims, drawn).value.db;
      next.attempts == db.attempts && next.intents == db.intents && next.providers == db.providers
  {
  }

  lemma CompletionRest(s: Step, admission: Admission, resolved: Resolved, r: Transaction<Completion>)
    requires s.CompleteStep? && resolved.principal in resolved.db.accounts
    requires r == CompletionOf(s, admission, resolved) && r.Committed?
    ensures r.db.attempts == resolved.db.attempts - {s.call.attempt} && r.db.providers == resolved.db.providers
  {
  }

  lemma CompletedLimits(w: World, s: Step)
    requires Limits(w.db) && Possible(w, s) && s.CompleteStep?
    ensures Limits(AfterComplete(w, s).db)
  {
    var r := Complete(w.db, s.call, s.claims, s.profile, s.drawn, s.expires, s.at);
    if r.Committed? {
      CompleteShape(w, s, r);
      var admission := Admit(w.db, s.call, s.profile, s.at).value;
      var resolved := Resolve(w.db, admission, s.claims, s.drawn).value;
      ResolvedRest(w.db, admission, s.claims, s.drawn);
      CompletionRest(s, admission, resolved, r);
      CompletionIntents(w.db, s, admission, resolved, r);
      FinishedLimits(w.db, r.db, s.call.attempt);
      assert AfterComplete(w, s).db == r.db;
    }
  }

  lemma FinishedLimits(db: Tables, next: Tables, attempt: Id)
    requires Limits(db) && next.attempts == db.attempts - {attempt} && next.providers == db.providers
    requires next.intents == db.intents
      || exists id :: id in db.intents && next.intents == db.intents[id := db.intents[id].(stage := Completed)]
    ensures Limits(next)
  {
    FewerAttempts(db.attempts, next.attempts);
  }

  lemma CancelledLimits(w: World, s: Step)
    requires Limits(w.db) && s.CancelStep?
    ensures Limits(AfterCancel(w, s).db)
  {
    FewerAttempts(w.db.attempts, w.db.attempts - {s.call.attempt});
  }

  lemma ClaimedLimits(w: World, s: Step)
    requires Limits(w.db) && s.ClaimStep?
    ensures Limits(AfterClaim(w, s).db)
  {
    if AfterClaim(w, s) != w {
      ClaimShape(w, s);
      FewerAttempts(w.db.attempts, AfterClaim(w, s).db.attempts);
    }
  }

  lemma WrittenLimits(w: World, r: Transaction<()>, id: Id, drawn: set<Id>)
    requires Limits(w.db)
    requires r.Committed? ==> id in r.db.providers && r.db == WithProvider(w.db, id, r.db.providers[id])
    requires r.Committed? ==> id in w.db.providers || |w.db.providers| < 100
    ensures Limits(AfterWrite(w, r, id, drawn).db)
  {
    if r.Committed? {
      assert r.db.providers.Keys == w.db.providers.Keys + {id};
      assert |r.db.providers| == |r.db.providers.Keys| && |w.db.providers| == |w.db.providers.Keys|;
    }
  }

  lemma ProviderLimits(w: World, s: Step)
    requires Limits(w.db) && Possible(w, s) && ProviderStep(s)
    ensures Limits(After(w, s).db)
  {
    match s
    case CreateProviderStep(p, settings, assurance) =>
      WrittenLimits(w, CreateProvider(w.db, p, settings, assurance), p, {p});
    case EditProviderStep(p, expected, settings, assurance) =>
      WrittenLimits(w, EditProvider(w.db, p, expected, settings, assurance), p, {});
    case EnableProviderStep(p, expected, enabled) => WrittenLimits(w, EnableProvider(w.db, p, expected, enabled), p, {});
    case ReprofileStep(p, assurance) => WrittenLimits(w, Reprofile(w.db, p, assurance), p, {});
  }

  lemma OtherLimits(w: World, s: Step)
    requires Limits(w.db) && !ProviderStep(s) && (!ProtocolStep(s) || s.ReadTargetStep?)
    ensures Limits(After(w, s).db)
  {
  }

  lemma StepLimits(w: World, s: Step)
    requires Limits(w.db)
    ensures Limits(After(w, s).db)
  {
    if Possible(w, s) {
      match s
      case BeginAuthenticationStep(_, _, _, _, _, _, _) => BegunLimits(w, s);
      case CancelStep(_, _, _) => CancelledLimits(w, s);
      case ClaimStep(_, _, _, _, _) => ClaimedLimits(w, s);
      case CompleteStep(_, _, _, _, _, _) => CompletedLimits(w, s);
      case BeginLinkStep(_, _, _, _, _, _, _, _, _) => OpenedLimits(w, s);
      case FinishReauthenticationStep(_, _, _, _, _) => RedirectedLimits(w, s);
      case _ => if ProviderStep(s) { ProviderLimits(w, s); } else { OtherLimits(w, s); }
    }
  }

  lemma {:induction false} RunLimits(w: World, steps: seq<Step>)
    requires Limits(w.db)
    ensures Limits(Run(w, steps).db)
    decreases |steps|
  {
    if steps != [] {
      StepLimits(w, steps[0]);
      RunLimits(After(w, steps[0]), steps[1..]);
    }
  }

  /**
    In every run an attempt lives for at most 120 seconds and an intent for exactly 300, and there are at most 10,000
    attempts and 100 providers.
  */
  lemma LimitsHold(w: World)
    requires Reachable(w)
    ensures forall a :: a in w.db.attempts ==> ShortLived(w.db.attempts[a])
    ensures forall i :: i in w.db.intents ==> w.db.intents[i].expiry == w.db.intents[i].created + 300
    ensures |w.db.attempts| <= 10000 && |w.db.providers| <= 100
  {
    var start, steps :| Initial(start) && w == Run(start, steps);
    RunLimits(start, steps);
  }
}
