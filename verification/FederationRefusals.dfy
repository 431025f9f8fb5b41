/** Which error each transaction of the protocol ends with when it does not commit. */
module FederationRefusals {
  import opened Assurances
  import opened Common
  import opened ExternalSubjects
  import opened Federation
  import opened FederationRuns
  import opened FederationInvariants
  import opened FederationSteps
  import opened FederationTheorems
  import opened FederationBindings
  import opened FederationExact

  /** The provider is there and enabled, but was written since. */
  predicate Outdated(db: Tables, provider: Id, version: int) {
    provider in db.providers && db.providers[provider].enabled && db.providers[provider].version != version
  }

  /** The attempt the call names, in its lifetime, under its state, browser and purpose. */
  predicate Presented(db: Tables, call: Callback, claimed: bool, at: Reads) {
    && call.attempt in db.attempts
    && var row := db.attempts[call.attempt];
    && row.state == call.state && row.browser == call.browser && row.purpose == call.purpose
    && row.secrets.None? == claimed && row.created <= at.first < row.expiry
  }

  /** The caller acts from the session the attempt began from, which is still live, its intent still open. */
  ghost predicate Acts(db: Tables, call: Callback, at: Reads)
    requires call.attempt in db.attempts
  {
    var row := db.attempts[call.attempt];
    match row.link
    case Some(id) =>
      && StartedBy(db, call, id) && Live(db, db.intents[id].session, at.checked)
      && db.intents[id].created <= at.viewed < db.intents[id].expiry
    case None => row.replacement.Some? ==> call.session == row.replacement && Live(db, row.replacement.value, at.checked)
  }

  /** The host approves another fingerprint than the provider was written under. */
  predicate Unapproved(db: Tables, row: Attempt, profile: AssuranceProfile)
    requires row.provider in db.providers
  {
    row.mode == StepUpMode && row.replacement.Some? && profile.fingerprint != db.providers[row.provider].assurance
  }

  /**
    A begin fails for a stale configuration exactly when whoever it is for is admitted and the provider was written since
    it was read, or is to prove a second factor under another fingerprint.
  */
  lemma BeginRefuses(
    db: Tables, input: NewAttempt, proof: Option<Id>, profile: AssuranceProfile, checked: int, now: int, purge: Purge)
    requires BeginAuthentication(db, input, proof, profile, checked, now, purge).RolledBack?
    ensures BeginAuthentication(db, input, proof, profile, checked, now, purge).error ==
      if
        && (proof.Some? ==> Live(db, proof.value, checked))
        && (input.mode == StepUpMode ==> proof.Some?)
        && (|| Outdated(db, input.provider, input.version)
            || (&& Offered(db, input.provider, input.version) && input.mode == StepUpMode
                && profile.fingerprint != db.providers[input.provider].assurance))
      then StaleConfiguration else Rejected
  {
    if proof.Some? {
      LookupFinds(db, proof.value, checked);
    }
  }

  /** A rejection fails for a stale configuration when the provider was written since, for the claims at another issuer. */
  lemma CancelRefuses(db: Tables, call: Callback, issuer: string, at: Reads)
    requires Cancel(db, call, issuer, at).RolledBack?
    ensures Cancel(db, call, issuer, at).error ==
      if !Presented(db, call, false, at) then Rejected
      else
        var row := db.attempts[call.attempt];
        if Outdated(db, row.provider, row.version) then StaleConfiguration
        else if Offered(db, row.provider, row.version) && db.providers[row.provider].settings.issuer != issuer then Claims
        else Rejected
  {
    ActorRefused(db, call, at);
  }

  /** Whoever may not act is rejected, whatever the reason. */
  lemma ActorRefused(db: Tables, call: Callback, at: Reads)
    ensures call.attempt in db.attempts ==>
      var actor := CheckActor(db, db.attempts[call.attempt], call.session, at.viewed, at.checked);
      actor.Err? ==> actor.error == Rejected
  {
    if call.session.Some? {
      LookupFinds(db, call.session.value, at.checked);
    }
  }

  /** A claim fails alike, and for a stale configuration also when the host approves another fingerprint for a step-up. */
  lemma ClaimRefuses(db: Tables, call: Callback, issuer: string, profile: AssuranceProfile, at: Reads)
    requires LinksConsistent(db.attempts, db.intents) && Claim(db, call, issuer, profile, at).RolledBack?
    ensures Claim(db, call, issuer, profile, at).error ==
      if !Presented(db, call, false, at) then Rejected
      else
        var row := db.attempts[call.attempt];
        if Outdated(db, row.provider, row.version) then StaleConfiguration
        else if !Offered(db, row.provider, row.version) then Rejected
        else if db.providers[row.provider].settings.issuer != issuer then Claims
        else if Acts(db, call, at) && Unapproved(db, row, profile) then StaleConfiguration
        else Rejected
  {
    ActorRefused(db, call, at);
    if Presented(db, call, false, at) {
      ActorBound(db, call, at);
      assert PurposeFits(db.attempts[call.attempt]);
    }
  }

  /** A completion that is not admitted fails in the same way. */
  lemma AdmitRefuses(
    db: Tables, call: Callback, claims: Upstream, profile: AssuranceProfile, drawn: Fresh, expires: int, at: Reads)
    requires LinksConsistent(db.attempts, db.intents)
    requires !(Bound(db, call, true, at) && StepUpPossible(db, db.attempts[call.attempt], profile))
    ensures Complete(db, call, claims, profile, drawn, expires, at) == RolledBack(
      if !Presented(db, call, true, at) then Rejected
      else
        var row := db.attempts[call.attempt];
        if Outdated(db, row.provider, row.version) then StaleConfiguration
        else if Offered(db, row.provider, row.version) && Acts(db, call, at) && Unapproved(db, row, profile)
        then StaleConfiguration
        else Rejected)
  {
    Admits(db, call, profile, at);
    ActorRefused(db, call, at);
    if Presented(db, call, true, at) {
      ActorBound(db, call, at);
      assert PurposeFits(db.attempts[call.attempt]);
    }
  }

  /** The subject is the linker's or nobody's, or for an attempt without a link an active principal's or a new one's. */
  ghost predicate Answers(db: Tables, row: Attempt, owner: Option<Id>) {
    match owner
    case Some(principal) =>
      if row.link.Some? then row.link.value in db.intents && db.intents[row.link.value].principal == principal
      else principal in db.accounts && db.accounts[principal].enabled && db.accounts[principal].memberActive
    case None =>
      row.link.Some? || (row.mode != StepUpMode && row.provider in db.providers && db.providers[row.provider].settings.jit)
  }

  /**
    Once admitted, a completion fails with a conflict exactly when somebody other than the linker owns the subject, for the
    claims exactly when the principal is found and the authentication is not enough, and a login of nobody else for
    whatever refused its facts.
  */
  lemma CompleteRefuses(
    db: Tables, call: Callback, claims: Upstream, profile: AssuranceProfile, drawn: Fresh, expires: int, at: Reads)
    requires LinksConsistent(db.attempts, db.intents) && call.purpose != Reauthenticate && drawn.principal !in db.accounts
    requires Complete(db, call, claims, profile, drawn, expires, at).RolledBack?
    requires Bound(db, call, true, at) && StepUpPossible(db, db.attempts[call.attempt], profile)
    ensures
      var row := db.attempts[call.attempt];
      var owner := Owner(db, row.provider, claims.issuer, claims.subject);
      Complete(db, call, claims, profile, drawn, expires, at).error ==
        if !Answers(db, row, owner) then if row.link.Some? && owner.Some? then Conflict else Rejected
        else if !Proves(claims.assurance, row.mode, row.created, at.now) then Claims
        else if
          && row.link.None? && row.mode == LoginMode && claims.facts.Err?
          && (row.replacement.Some? ==>
                && owner.Some? && row.replacement.value in db.sessions
                && db.sessions[row.replacement.value].principal == owner.value)
        then claims.facts.error
        else Rejected
  {
    Admits(db, call, profile, at);
    var row := db.attempts[call.attempt];
    ActorBound(db, call, at);
    assert PurposeFits(row);
    AssuranceWhen(claims.assurance, row.mode, row.created, at.now);
  }

  /** Everything a link needs of its caller, but for the providers. */
  predicate LinkAdmitted(db: Tables, session: Id, account: Account, candidate: Option<Candidate>, now: int) {
    && Live(db, session, now)
    && var row := db.sessions[session];
    && (candidate.Some? <==> account.localPassword)
    && SameAccount(account, db.accounts[row.principal]) && (candidate.None? ==> row.origin.Some?)
  }

  /** A link fails for a stale configuration when its target, or the provider of its session, was written since. */
  lemma LinkRefuses(
    db: Tables, session: Id, account: Account, candidate: Option<Candidate>, target: Id, version: int, intent: Id,
    input: NewAttempt, at: Reads, purge: Purge)
    requires BeginLink(db, session, account, candidate, target, version, intent, input, at, purge).RolledBack?
    ensures BeginLink(db, session, account, candidate, target, version, intent, input, at, purge).error ==
      if !LinkAdmitted(db, session, account, candidate, at.first) then Rejected
      else if Outdated(db, target, version) then StaleConfiguration
      else if
        && Offered(db, target, version) && candidate.None?
        && db.sessions[session].origin.value.identity in db.identities
        && Outdated(db, db.identities[db.sessions[session].origin.value.identity].provider, input.version)
      then StaleConfiguration
      else Rejected
  {
    LookupFinds(db, session, at.first);
  }

  /** The target of an intent is read exactly while it is offered at the intent's version. */
  lemma TargetsRefuse(db: Tables, intent: Id)
    ensures
      var r := ReadTarget(db, intent);
      && (r.Ok? <==> intent in db.intents && Offered(db, db.intents[intent].target, db.intents[intent].version))
      && (r.Ok? ==> r.value == (db.intents[intent].target, db.providers[db.intents[intent].target]))
      && (r == Err(StaleConfiguration) <==>
            intent in db.intents && Outdated(db, db.intents[intent].target, db.intents[intent].version))
      && (r.Err? ==> r.error == StaleConfiguration || r.error == Rejected)
  {
  }

  /** The authenticated subject is the one the session came from, authenticated after the attempt began. */
  predicate Confirms(db: Tables, row: Attempt, identity: Identity, claims: Upstream, now: int) {
    && identity.provider == row.provider && identity.issuer == claims.issuer
    && identity.subject == StorageKey(claims.subject) && Proves(claims.assurance, ReauthenticateMode, row.created, now)
  }

  /**
    A reauthentication fails for a stale configuration when its provider or its target was written since, for the claims
    when another identity was authenticated or too early, and for whatever refused its facts.
  */
  lemma FinishRefuses(
    db: Tables, call: Callback, source: Seen, target: Seen, claims: Upstream, input: NewAttempt, at: Reads, purge: Purge)
    requires LinksConsistent(db.attempts, db.intents) && call.purpose == Reauthenticate
    requires call.attempt in db.attempts ==>
      source.0 == db.attempts[call.attempt].provider && source.1.version == db.attempts[call.attempt].version
    requires FinishReauthentication(db, call, source, target, claims, input, at, purge).RolledBack?
    ensures FinishReauthentication(db, call, source, target, claims, input, at, purge).error ==
      if !Presented(db, call, true, at) then Rejected
      else
        var row := db.attempts[call.attempt];
        if Outdated(db, row.provider, row.version) then StaleConfiguration
        else if !Offered(db, row.provider, row.version) || row.link.None? || !Acts(db, call, at) then Rejected
        else
          var intent := db.intents[row.link.value];
          if intent.origin.None? || !OriginCurrent(db, intent.principal, intent.origin.value) then Rejected
          else if !Confirms(db, row, db.identities[intent.origin.value.identity], claims, at.now) then Claims
          else if claims.facts.Err? then claims.facts.error
          else if Outdated(db, target.0, target.1.version) then StaleConfiguration
          else Rejected
  {
    ActorRefused(db, call, at);
    if Presented(db, call, true, at) {
      ActorBound(db, call, at);
      AssuranceWhen(claims.assurance, ReauthenticateMode, db.attempts[call.attempt].created, at.now);
      assert PurposeFits(db.attempts[call.attempt]);
    }
  }

  /** Why the administration of a provider fails: the limit, another version, another issuer, or a counter at its end. */
  lemma WritesRefuse(db: Tables, id: Id, expected: int, settings: Settings, assurance: Id, enabled: bool)
    ensures CreateProvider(db, id, settings, assurance).RolledBack? ==>
      |db.providers| >= 100 && CreateProvider(db, id, settings, assurance).error == LimitReached
    ensures EditProvider(db, id, expected, settings, assurance).RolledBack? ==>
      EditProvider(db, id, expected, settings, assurance).error ==
        if id in db.providers && db.providers[id].version != expected then StaleConfiguration
        else if id in db.providers && db.providers[id].settings.issuer != settings.issuer then Configuration
        else Rejected
    ensures EnableProvider(db, id, expected, enabled).RolledBack? ==>
      EnableProvider(db, id, expected, enabled).error ==
        if id in db.providers && db.providers[id].version != expected then StaleConfiguration else Rejected
    ensures Reprofile(db, id, assurance).RolledBack? ==> Reprofile(db, id, assurance).error == Rejected
  {
  }
}
