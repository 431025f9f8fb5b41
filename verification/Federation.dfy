/**
  The tenant tables of federated authentication and every transaction over them.

  A transaction maps the tables it finds to the tables it commits, or rolls back with an error. Values the database or
  the process draws from outside (clock readings, fresh identifiers, upstream claims, the rows a bounded cleanup picks)
  are arguments.
*/
module Federation {
  import opened Assurances
  import opened Common
  import opened ExternalSubjects

  /** UUIDs, digests and random identifiers; only equality matters. */
  type Id = nat

  datatype Settings = Settings(issuer: string, jit: bool, subject: SubjectMapping, other: Id)

  datatype Provider = Provider(
    version: I64,
    epoch: I64,
    enabled: bool,
    settings: Settings,
    assurance: Id,
    credentialVersion: I64
  )

  datatype Identity = Identity(principal: Id, provider: Id, issuer: string, subject: string)

  datatype Account = Account(
    enabled: bool,
    memberActive: bool,
    epoch: I64,
    memberEpoch: I64,
    localPassword: bool
  )
  {
    predicate Active() { enabled && memberActive }

    predicate MatchesVerification(expected: Account) {
      && Active()
      && epoch == expected.epoch
      && localPassword == expected.localPassword
      && memberEpoch == expected.memberEpoch
    }
  }

  /** Where a federated session comes from: the identity, and the provider epoch and version it was minted under. */
  datatype Origin = Origin(identity: Id, epoch: I64, version: I64, facts: Id)

  datatype Session = Session(
    principal: Id,
    epoch: I64,
    memberEpoch: I64,
    origin: Option<Origin>,
    revoked: bool,
    expires: int
  )

  datatype Purpose = Login | Reauthenticate | Link

  datatype Mode = LoginMode | ReauthenticateMode | StepUpMode

  datatype Secrets = Secrets(nonce: Id, verifier: Id)

  /** One OIDC transaction row; a row without secrets is a claimed one. */
  datatype Attempt = Attempt(
    provider: Id,
    version: I64,
    state: Id,
    browser: Id,
    purpose: Purpose,
    mode: Mode,
    secrets: Option<Secrets>,
    created: int,
    expiry: int,
    link: Option<Id>,
    replacement: Option<Id>
  )

  datatype Stage = ReauthenticationRequired | TargetReady | Completed

  datatype Intent = Intent(
    browser: Id,
    principal: Id,
    session: Id,
    epoch: I64,
    memberEpoch: I64,
    origin: Option<Origin>,
    localAuthenticatedAt: Option<int>,
    target: Id,
    version: I64,
    stage: Stage,
    created: int,
    expiry: int
  )

  /** A step-up grant, bound to the session that asked for it and to the provider state that proved it. */
  datatype Grant = Grant(
    principal: Id, session: Id, identity: Id, provider: Id, version: I64, epoch: I64, authenticated: int, expires: int)

  datatype Tables = Tables(
    providers: map<Id, Provider>,
    identities: map<Id, Identity>,
    accounts: map<Id, Account>,
    sessions: map<Id, Session>,
    attempts: map<Id, Attempt>,
    intents: map<Id, Intent>,
    grants: map<Id, Grant>
  )

  datatype Error = Rejected | StaleConfiguration | Conflict | Claims | Configuration | LimitReached

  datatype Transaction<+T> = Committed(db: Tables, value: T) | RolledBack(error: Error)

  /** What a browser callback presents: the signed state (locator and digest), the browser and session cookies. */
  datatype Callback = Callback(attempt: Id, purpose: Purpose, state: Id, browser: Id, session: Option<Id>)

  datatype Upstream = Upstream(issuer: string, subject: ExternalSubject, assurance: Assurance, facts: Result<Id, Error>)

  /**
    The successive clock readings of one transaction: for the attempt, for the intent, for the session, for the assurance,
    for a grant, and at the end.
  */
  datatype Reads = Reads(first: int, viewed: int, checked: int, now: int, granted: int, last: int)

  /** The identifiers one completion would draw. */
  datatype Fresh = Fresh(principal: Id, identity: Id, session: Id, grant: Id)

  /** The rows picked by the two bounded cleanup statements. */
  datatype Purge = Purge(attempts: set<Id>, intents: set<Id>)

  /** The host's interpretation of one provider's assurance claims. */
  datatype AssuranceProfile = AssuranceProfile(fingerprint: Id, supportsStepUp: bool)

  datatype NewAttempt = NewAttempt(
    id: Id,
    provider: Id,
    version: I64,
    state: Id,
    browser: Id,
    purpose: Purpose,
    mode: Mode,
    secrets: Secrets,
    hasContext: bool,
    link: Option<Id>,
    replacement: Option<Id>,
    expiry: Option<int>
  )

  /** A rechecked session: its identifier, the current state of its account, and its end. */
  datatype Actor = Actor(session: Id, principal: Id, account: Account, expires: int)

  const ATTEMPT_SECONDS: int := 120
  const INTENT_SECONDS: int := 300
  const ATTEMPT_LIMIT: int := 10000
  const PURGE_LIMIT: int := 128
  const PROVIDER_LIMIT: int := 100
  const GRANT_SECONDS: int := 300
  const GRANT_LIMIT: int := 32

  // Statements shared by the transactions

  /** The provider row, required to be enabled and at exactly this version. */
  function ExactProvider(db: Tables, id: Id, version: int): (r: Result<Provider, Error>)
    ensures r.Ok? <==> id in db.providers && db.providers[id].enabled && db.providers[id].version == version
    ensures r.Ok? ==> r.value == db.providers[id]
    ensures r == Err(StaleConfiguration) <==>
      id in db.providers && db.providers[id].enabled && db.providers[id].version != version
    ensures r.Err? ==> r.error == Rejected || r.error == StaleConfiguration
  {
    if id !in db.providers then Err(Rejected)
    else if !db.providers[id].enabled then Err(Rejected)
    else if db.providers[id].version != version then Err(StaleConfiguration)
    else Ok(db.providers[id])
  }

  /** The join of an identity with its provider accepts this origin for this principal. */
  predicate OriginAccepted(db: Tables, principal: Id, origin: Origin) {
    && origin.identity in db.identities
    && var identity := db.identities[origin.identity];
    && identity.principal == principal
    && identity.provider in db.providers
    && var provider := db.providers[identity.provider];
    && provider.enabled
    && provider.epoch == origin.epoch
    && provider.version == origin.version
  }

  /** Looks up a session by its presented secret under the tenant guard. */
  function Lookup(db: Tables, session: Id, now: int): Result<Actor, Error> {
    if session !in db.sessions then Err(Rejected) else
    var row := db.sessions[session];
    if row.principal !in db.accounts then Err(Rejected) else
    var account := db.accounts[row.principal];
    if
      || !account.Active()
      || row.epoch != account.epoch
      || row.memberEpoch != account.memberEpoch
      || row.revoked
      || (row.origin.Some? && !OriginAccepted(db, row.principal, row.origin.value))
      || now >= row.expires
    then Err(Rejected)
    else Ok(Actor(session, row.principal, account, row.expires))
  }

  function FindAttempt(db: Tables, call: Callback, claimed: bool, now: int): Result<Attempt, Error> {
    if call.attempt !in db.attempts then Err(Rejected) else
    var row := db.attempts[call.attempt];
    if
      || row.state != call.state
      || row.browser != call.browser
      || row.secrets.None? != claimed
      || row.purpose != call.purpose
      || now < row.created
      || now >= row.expiry
    then Err(Rejected)
    else Ok(row)
  }

  function RequiredStage(purpose: Purpose): Stage {
    if purpose == Reauthenticate then ReauthenticationRequired else TargetReady
  }

  /** The session an attempt is bound to, rechecked; attempts bound to no session have no actor. */
  function CheckActor(db: Tables, attempt: Attempt, session: Option<Id>, viewed: int, now: int)
    : Result<Option<Actor>, Error>
  {
    if attempt.link.Some? then
      if attempt.link.value !in db.intents || session.None? then Err(Rejected) else
      var intent := db.intents[attempt.link.value];
      if
        || intent.browser != attempt.browser
        || viewed < intent.created
        || viewed >= intent.expiry
        || intent.stage != RequiredStage(attempt.purpose)
      then Err(Rejected) else
      var actor := Lookup(db, session.value, now);
      if actor.Err? then Err(actor.error)
      else if
        || actor.value.session != intent.session
        || actor.value.principal != intent.principal
        || actor.value.account.epoch != intent.epoch
        || actor.value.account.memberEpoch != intent.memberEpoch
      then Err(Rejected)
      else Ok(Some(actor.value))
    else if attempt.replacement.Some? then
      if session.None? then Err(Rejected) else
      var actor := Lookup(db, session.value, now);
      if actor.Err? then Err(actor.error)
      else if actor.value.session != attempt.replacement.value then Err(Rejected)
      else Ok(Some(actor.value))
    else Ok(None)
  }

  /** Some identity of this principal belongs to this provider under this issuer. */
  predicate Linked(db: Tables, principal: Id, provider: Id, issuer: string) {
    exists id :: id in db.identities && db.identities[id].principal == principal
      && db.identities[id].provider == provider && db.identities[id].issuer == issuer
  }

  predicate StepUpReady(db: Tables, principal: Id, id: Id, provider: Provider, profile: AssuranceProfile) {
    && profile.fingerprint == provider.assurance
    && provider.enabled
    && profile.supportsStepUp
    && Linked(db, principal, id, provider.settings.issuer)
  }

  function StepUpRefusal(provider: Provider, profile: AssuranceProfile): Error {
    if profile.fingerprint != provider.assurance then StaleConfiguration else Rejected
  }

  predicate AssuranceMeets(a: Assurance, mode: Mode, started: int, now: int) {
    && started > 0
    && now >= started
    && (a.authTime.Some? ==> a.authTime.value <= Saturated(now + 30))
    && (mode != LoginMode ==> a.authTime.Some? && a.authTime.value >= Saturated(started - 30))
    && (mode == StepUpMode ==> a.acr == Mfa)
  }

  /** Some attempt the cleanup leaves refers to this intent. */
  predicate StillReferred(db: Tables, purge: Purge, intent: Id) {
    exists id :: id in db.attempts && id !in purge.attempts && db.attempts[id].link == Some(intent)
  }

  /**
    The cleanup picks expired attempts, all of them when fewer than the limit and otherwise the earliest, and then expired
    intents no remaining attempt refers to, all of them when fewer than the limit.
  */
  ghost predicate PurgeAllowed(db: Tables, now: int, purge: Purge) {
    && purge.attempts <= db.attempts.Keys
    && purge.intents <= db.intents.Keys
    && |purge.attempts| <= 128
    && |purge.intents| <= 128
    && (forall id :: id in purge.attempts ==> db.attempts[id].expiry <= now)
    && (|purge.attempts| < 128 ==>
          forall id :: id in db.attempts && db.attempts[id].expiry <= now ==> id in purge.attempts)
    && (forall id, gone ::
          id in db.attempts && id !in purge.attempts && gone in purge.attempts && db.attempts[id].expiry <= now ==>
            db.attempts[gone].expiry <= db.attempts[id].expiry)
    && (forall i :: i in purge.intents ==> db.intents[i].expiry <= now)
    && (forall i, id :: i in purge.intents && id in db.attempts && db.attempts[id].link == Some(i) ==> id in purge.attempts)
    && (|purge.intents| < 128 ==>
          forall i :: i in db.intents && db.intents[i].expiry <= now ==> i in purge.intents || StillReferred(db, purge, i))
  }

  function Purged(db: Tables, purge: Purge): Tables {
    db.(attempts := db.attempts - purge.attempts, intents := db.intents - purge.intents)
  }

  function AttemptExpiry(input: NewAttempt, now: int): int {
    Min(if input.expiry.Some? then input.expiry.value else now + ATTEMPT_SECONDS, now + ATTEMPT_SECONDS)
  }

  function AttemptRow(input: NewAttempt, now: int): Attempt {
    Attempt(input.provider, input.version, input.state, input.browser, input.purpose, input.mode, Some(input.secrets),
            now, AttemptExpiry(input, now), input.link, input.replacement)
  }

  function InsertAttempt(db: Tables, input: NewAttempt, now: int, purge: Purge): Result<Tables, Error> {
    var exact := ExactProvider(db, input.provider, input.version);
    if exact.Err? then Err(exact.error)
    else if (input.mode == StepUpMode) != input.hasContext then Err(Rejected)
    else if now >= AttemptExpiry(input, now) then Err(Rejected)
    else
      var clean := Purged(db, purge);
      if |clean.attempts| >= ATTEMPT_LIMIT then Err(Rejected)
      else Ok(clean.(attempts := clean.attempts[input.id := AttemptRow(input, now)]))
  }

  function Consumed(db: Tables, attempt: Id): Tables {
    db.(attempts := db.attempts - {attempt})
  }

  // Login and step-up attempts

  /**
    The insertion that ends `begin_login` and `begin_step_up`. `input` was built from a provider row read by an earlier
    transaction; `proof` is the session to replace or to step up.
  */
  function BeginAuthentication(
    db: Tables, input: NewAttempt, proof: Option<Id>, profile: AssuranceProfile, checked: int, now: int, purge: Purge
  ): Transaction<()>
  {
    if input.mode == StepUpMode && proof.None? then RolledBack(Rejected) else
    var actor := if proof.Some? then Lookup(db, proof.value, checked) else Err(Rejected);
    if proof.Some? && actor.Err? then RolledBack(actor.error) else
    var exact := ExactProvider(db, input.provider, input.version);
    if input.mode == StepUpMode && exact.Err? then RolledBack(exact.error) else
    if input.mode == StepUpMode && !StepUpReady(db, actor.value.principal, input.provider, exact.value, profile)
    then RolledBack(StepUpRefusal(exact.value, profile)) else
    var bound := input.(purpose := Login, link := None, replacement := proof, expiry := None);
    var inserted := InsertAttempt(db, bound, now, purge);
    if inserted.Err? then RolledBack(inserted.error) else Committed(inserted.value, ())
  }

  /** Ends a bound upstream rejection. */
  function Cancel(db: Tables, call: Callback, issuer: string, at: Reads): Transaction<()> {
    var attempt := FindAttempt(db, call, false, at.first);
    if attempt.Err? then RolledBack(attempt.error) else
    var provider := ExactProvider(db, attempt.value.provider, attempt.value.version);
    if provider.Err? then RolledBack(provider.error)
    else if provider.value.settings.issuer != issuer then RolledBack(Claims)
    else
      var actor := CheckActor(db, attempt.value, call.session, at.viewed, at.checked);
      if actor.Err? then RolledBack(actor.error) else Committed(Consumed(db, call.attempt), ())
  }

  /** What the claim hands to the code exchange. */
  datatype Claimed = Claimed(attempt: Attempt, provider: Provider, secrets: Secrets)

  /** The first transaction of `complete`: marks the attempt claimed and hands out its secrets. */
  function Claim(
    db: Tables, call: Callback, issuer: string, profile: AssuranceProfile, at: Reads
  ): Transaction<Claimed>
  {
    var attempt := FindAttempt(db, call, false, at.first);
    if attempt.Err? then RolledBack(attempt.error) else
    var row := attempt.value;
    var provider := ExactProvider(db, row.provider, row.version);
    if provider.Err? then RolledBack(provider.error)
    else if provider.value.settings.issuer != issuer then RolledBack(Claims)
    else
      var actor := CheckActor(db, row, call.session, at.viewed, at.checked);
      if actor.Err? then RolledBack(actor.error)
      else if row.mode == StepUpMode && actor.value.None? then RolledBack(Rejected)
      else if row.mode == StepUpMode
        && !StepUpReady(db, actor.value.value.principal, row.provider, provider.value, profile)
      then RolledBack(StepUpRefusal(provider.value, profile))
      else Committed(
        db.(attempts := db.attempts[call.attempt := row.(secrets := None)]),
        Claimed(row, provider.value, row.secrets.value)
      )
  }

  // Completion

  predicate Names(row: Identity, provider: Id, issuer: string, subject: string) {
    row.provider == provider && row.issuer == issuer && row.subject == subject
  }

  /** The identity row with this unique key, if there is one. */
  ghost function FindIdentity(db: Tables, provider: Id, issuer: string, subject: string): (r: Option<Id>)
    ensures r.Some? ==> r.value in db.identities && Names(db.identities[r.value], provider, issuer, subject)
    ensures r.None? ==> forall id :: id in db.identities ==> !Names(db.identities[id], provider, issuer, subject)
  {
    if exists id :: id in db.identities && Names(db.identities[id], provider, issuer, subject) then
      var id :| id in db.identities && Names(db.identities[id], provider, issuer, subject);
      Some(id)
    else None
  }

  function WithFederatedAccount(db: Tables, principal: Id): Tables {
    db.(accounts := db.accounts[principal := Account(true, true, 1, 1, false)])
  }

  function WithIdentity(db: Tables, id: Id, row: Identity): Tables {
    db.(identities := db.identities[id := row])
  }

  /** Inserts a session and closes the one it replaces. */
  function WithSession(db: Tables, id: Id, row: Session, replaced: Option<Id>): Tables {
    var closed :=
      if replaced.Some? && replaced.value in db.sessions
      then db.sessions[replaced.value := db.sessions[replaced.value].(revoked := true)]
      else db.sessions;
    db.(sessions := closed[id := row])
  }

  /** Moves an intent one stage forward if it is still at `from`. */
  function Advance(db: Tables, id: Id, from: Stage): Result<Tables, Error> {
    if id !in db.intents || db.intents[id].stage != from || from == Completed then Err(Rejected)
    else
      var next := if from == ReauthenticationRequired then TargetReady else Completed;
      Ok(db.(intents := db.intents[id := db.intents[id].(stage := next)]))
  }

  datatype Admission = Admission(attempt: Attempt, provider: Provider, actor: Option<Actor>)

  /** The checks every completion repeats under the guard after the code exchange. */
  function Admit(db: Tables, call: Callback, profile: AssuranceProfile, at: Reads): Result<Admission, Error> {
    var attempt := FindAttempt(db, call, true, at.first);
    if attempt.Err? then Err(attempt.error) else
    var row := attempt.value;
    var provider := ExactProvider(db, row.provider, row.version);
    if provider.Err? then Err(provider.error) else
    var actor := CheckActor(db, row, call.session, at.viewed, at.checked);
    if actor.Err? then Err(actor.error)
    else if row.mode == StepUpMode && actor.value.None? then Err(Rejected)
    else if row.mode == StepUpMode
      && !StepUpReady(db, actor.value.value.principal, row.provider, provider.value, profile)
    then Err(StepUpRefusal(provider.value, profile))
    else Ok(Admission(row, provider.value, actor.value))
  }

  /** The account a completion acts for, the identity row it uses, and the tables with both present. */
  datatype Resolved = Resolved(db: Tables, principal: Id, identity: Id, already: bool)

  /** Finds or creates the principal of an upstream subject; a linking attempt never takes an owned identity. */
  ghost function Resolve(db: Tables, admission: Admission, claims: Upstream, minted: Fresh): Result<Resolved, Error> {
    var key := StorageKey(claims.subject);
    var provider := admission.attempt.provider;
    var existing := FindIdentity(db, provider, claims.issuer, key);
    var linked := admission.attempt.purpose == Link;
    if linked && admission.actor.None? then Err(Rejected)
    else if !linked && existing.None?
      && (admission.attempt.mode == StepUpMode || !admission.provider.settings.jit)
    then Err(Rejected)
    else
      var owner :=
        if linked then admission.actor.value.principal
        else if existing.Some? then db.identities[existing.value].principal
        else minted.principal;
      if existing.Some? then
        if db.identities[existing.value].principal != owner then Err(Conflict)
        else Ok(Resolved(db, owner, existing.value, true))
      else
        var owned := if linked then db else WithFederatedAccount(db, owner);
        Ok(Resolved(
          WithIdentity(owned, minted.identity, Identity(owner, provider, claims.issuer, key)),
          owner, minted.identity, false))
  }

  datatype Completion =
    | Granted(grant: Id)
    | Issued(session: Id, principal: Id, linked: bool, already: bool)

  /** The commit step of `complete` for login, step-up and link attempts. */
  ghost function Complete(
    db: Tables, call: Callback, claims: Upstream, profile: AssuranceProfile, minted: Fresh, expires: int, at: Reads
  ): Transaction<Completion>
  {
    var admitted := Admit(db, call, profile, at);
    if admitted.Err? then RolledBack(admitted.error) else
    var admission := admitted.value;
    var found := Resolve(db, admission, claims, minted);
    if found.Err? then RolledBack(found.error) else
    var resolved := found.value;
    if resolved.principal !in resolved.db.accounts then RolledBack(Rejected)
    else if !resolved.db.accounts[resolved.principal].Active() then RolledBack(Rejected)
    else if !AssuranceMeets(claims.assurance, admission.attempt.mode, admission.attempt.created, at.now)
    then RolledBack(Claims)
    else if admission.attempt.mode == StepUpMode
    then GrantStepUp(call, claims, admission, resolved, minted, at)
    else if admission.attempt.purpose == Link
    then CompleteLink(call, admission, resolved, minted, expires, at)
    else IssueLogin(call, claims, admission, resolved, minted, expires, at)
  }

  /** A principal's grants that have ended. */
  function EndedGrants(grants: map<Id, Grant>, principal: Id, now: int): set<Id> {
    set g | g in grants && grants[g].principal == principal && grants[g].expires <= now
  }

  function GrantsOf(grants: map<Id, Grant>, principal: Id): set<Id> {
    set g | g in grants && grants[g].principal == principal
  }

  /** A grant never outlives its session, nor its proof by more than 300 seconds. */
  function GrantExpiry(authenticated: int, session: int): int {
    Min(authenticated + GRANT_SECONDS, session)
  }

  ghost function GrantStepUp(
    call: Callback, claims: Upstream, admission: Admission, resolved: Resolved, minted: Fresh, at: Reads
  ): Transaction<Completion>
  {
    var authenticated := claims.assurance.authTime;
    if admission.actor.None? || admission.actor.value.principal != resolved.principal || authenticated.None?
    then RolledBack(Rejected)
    else if authenticated.value <= 0 || authenticated.value > at.granted || at.granted - authenticated.value >= GRANT_SECONDS
    then RolledBack(Rejected)
    else
      var expires := GrantExpiry(authenticated.value, admission.actor.value.expires);
      var grants := resolved.db.grants - EndedGrants(resolved.db.grants, resolved.principal, at.granted);
      if expires <= at.granted || |GrantsOf(grants, resolved.principal)| >= GRANT_LIMIT then RolledBack(Rejected)
      else if at.last >= admission.attempt.expiry then RolledBack(Rejected)
      else
        var grant := Grant(
          resolved.principal, admission.actor.value.session, resolved.identity, admission.attempt.provider,
          admission.provider.version, admission.provider.epoch, authenticated.value, expires);
        Committed(
          Consumed(resolved.db.(grants := grants[minted.grant := grant]), call.attempt), Granted(minted.grant))
  }

  ghost function IssueLogin(
    call: Callback, claims: Upstream, admission: Admission, resolved: Resolved, minted: Fresh, expires: int, at: Reads
  ): Transaction<Completion>
    requires resolved.principal in resolved.db.accounts
  {
    if admission.actor.Some? && admission.actor.value.principal != resolved.principal then RolledBack(Rejected)
    else if claims.facts.Err? then RolledBack(claims.facts.error)
    else if at.last >= admission.attempt.expiry then RolledBack(Rejected)
    else
      var account := resolved.db.accounts[resolved.principal];
      var origin := Origin(resolved.identity, admission.provider.epoch, admission.provider.version, claims.facts.value);
      var row := Session(resolved.principal, account.epoch, account.memberEpoch, Some(origin), false, expires);
      Committed(
        Consumed(WithSession(resolved.db, minted.session, row, admission.attempt.replacement), call.attempt),
        Issued(minted.session, resolved.principal, false, resolved.already))
  }

  /** Linking bumps the account's epoch, completes the intent and issues a session with the intent's own origin. */
  ghost function CompleteLink(
    call: Callback, admission: Admission, resolved: Resolved, minted: Fresh, expires: int, at: Reads
  ): Transaction<Completion>
    requires resolved.principal in resolved.db.accounts
  {
    if admission.attempt.link.None? || admission.attempt.link.value !in resolved.db.intents then RolledBack(Rejected) else
    var id := admission.attempt.link.value;
    var intent := resolved.db.intents[id];
    if intent.stage != TargetReady || intent.target != admission.attempt.provider
      || intent.version != admission.provider.version
    then RolledBack(Rejected) else
    var account := resolved.db.accounts[resolved.principal];
    var epoch := Checked(account.epoch + 1);
    if epoch.None? then RolledBack(Rejected) else
    var bumped := resolved.db.(accounts := resolved.db.accounts[resolved.principal := account.(epoch := epoch.value)]);
    var advanced := Advance(bumped, id, TargetReady);
    if advanced.Err? then RolledBack(advanced.error)
    else if intent.origin.Some? && !OriginAccepted(advanced.value, resolved.principal, intent.origin.value)
    then RolledBack(Rejected)
    else if intent.origin.None?
      && !(intent.localAuthenticatedAt.Some? && 0 < intent.localAuthenticatedAt.value <= at.now)
    then RolledBack(Rejected)
    else if at.last >= admission.attempt.expiry then RolledBack(Rejected)
    else
      var row := Session(resolved.principal, epoch.value, account.memberEpoch, intent.origin, false, expires);
      Committed(
        Consumed(WithSession(advanced.value, minted.session, row, Some(intent.session)), call.attempt),
        Issued(minted.session, resolved.principal, true, resolved.already))
  }

  // Linking

  datatype Candidate = Candidate(account: Account, authenticatedAt: int)

  /**
    The checks that end `begin_link` and the opening of its intent, with the attempt to insert for it. `account` and
    `candidate` were read by earlier transactions; a password candidate is required exactly when the account has a local
    password, and replaces the reauthentication stage.
  */
  function OpenIntent(
    db: Tables, session: Id, account: Account, candidate: Option<Candidate>, target: Id, targetVersion: int,
    intent: Id, input: NewAttempt, at: Reads
  ): Result<(Tables, NewAttempt), Error>
  {
    if candidate.Some? != account.localPassword then Err(Rejected) else
    var found := Lookup(db, session, at.first);
    if found.Err? then Err(found.error) else
    var actor := found.value;
    var origin := if candidate.Some? then None else db.sessions[session].origin;
    if !actor.account.MatchesVerification(account) then Err(Rejected)
    else if candidate.None? && origin.None? then Err(Rejected) else
    var exact := ExactProvider(db, target, targetVersion);
    if exact.Err? then Err(exact.error)
    else if candidate.Some? && !actor.account.MatchesVerification(candidate.value.account) then Err(Rejected)
    else if candidate.None? && origin.value.identity !in db.identities then Err(Rejected)
    else
      var source := if candidate.Some? then target else db.identities[origin.value.identity].provider;
      var row := Intent(
        input.browser, actor.principal, session, account.epoch, account.memberEpoch, origin,
        if candidate.Some? then Some(candidate.value.authenticatedAt) else None,
        target, exact.value.version, if candidate.Some? then TargetReady else ReauthenticationRequired,
        at.now, at.now + INTENT_SECONDS);
      Ok((
        db.(intents := db.intents[intent := row]),
        input.(
          provider := source,
          version := if candidate.Some? then exact.value.version else input.version,
          purpose := if candidate.Some? then Link else Reauthenticate,
          mode := if candidate.Some? then LoginMode else ReauthenticateMode,
          hasContext := false, link := Some(intent), replacement := None, expiry := Some(row.expiry))))
  }

  /** The last transaction of `begin_link`. */
  function BeginLink(
    db: Tables, session: Id, account: Account, candidate: Option<Candidate>, target: Id, targetVersion: int,
    intent: Id, input: NewAttempt, at: Reads, purge: Purge
  ): Transaction<()>
  {
    var open := OpenIntent(db, session, account, candidate, target, targetVersion, intent, input, at);
    if open.Err? then RolledBack(open.error) else
    var inserted := InsertAttempt(open.value.0, open.value.1, at.last, purge);
    if inserted.Err? then RolledBack(inserted.error) else Committed(inserted.value, ())
  }

  /** The provider an intent links to, still enabled and at the intent's version. */
  function ReadTarget(db: Tables, intent: Id): Result<(Id, Provider), Error> {
    if intent !in db.intents then Err(Rejected) else
    var exact := ExactProvider(db, db.intents[intent].target, db.intents[intent].version);
    if exact.Err? then Err(exact.error) else Ok((db.intents[intent].target, exact.value))
  }

  /** The old attempt consumed and its intent advanced, with the reauthenticated facts stored as its source. */
  function Reauthenticated(db: Tables, call: Callback, intent: Id, version: I64, facts: Id): Tables
    requires intent in db.intents && db.intents[intent].origin.Some?
  {
    var row := db.intents[intent];
    var origin := row.origin.value.(version := version, facts := facts);
    Consumed(db.(intents := db.intents[intent := row.(origin := Some(origin), stage := TargetReady)]), call.attempt)
  }

  /** The commit step of a reauthentication: consumes its attempt and opens the linking attempt of the same intent. */
  function FinishReauthentication(
    db: Tables, call: Callback, source: (Id, Provider), target: (Id, Provider), claims: Upstream, input: NewAttempt,
    at: Reads, purge: Purge
  ): Transaction<()>
  {
    var found := FindAttempt(db, call, true, at.first);
    if found.Err? then RolledBack(found.error) else
    var row := found.value;
    var current := ExactProvider(db, source.0, source.1.version);
    if current.Err? then RolledBack(current.error) else
    var actor := CheckActor(db, row, call.session, at.viewed, at.checked);
    if actor.Err? then RolledBack(actor.error)
    else if row.link.None? || row.link.value !in db.intents then RolledBack(Rejected) else
    var id := row.link.value;
    var intent := db.intents[id];
    if intent.origin.None? || !OriginAccepted(db, intent.principal, intent.origin.value) then RolledBack(Rejected) else
    var identity := db.identities[intent.origin.value.identity];
    if
      || identity.provider != source.0
      || identity.issuer != claims.issuer
      || identity.subject != StorageKey(claims.subject)
      || !AssuranceMeets(claims.assurance, ReauthenticateMode, row.created, at.now)
    then RolledBack(Claims)
    else if claims.facts.Err? then RolledBack(claims.facts.error)
    else if intent.stage != ReauthenticationRequired then RolledBack(Rejected)
    else
      var bound := input.(
        provider := target.0, version := target.1.version, purpose := Link, mode := LoginMode, hasContext := false,
        browser := row.browser, link := Some(id), replacement := None, expiry := Some(intent.expiry));
      var inserted := InsertAttempt(
        Reauthenticated(db, call, id, source.1.version, claims.facts.value), bound, at.last, purge);
      if inserted.Err? then RolledBack(inserted.error) else Committed(inserted.value, ())
  }

  // Providers

  function CreateProvider(db: Tables, id: Id, settings: Settings, assurance: Id): Transaction<()> {
    if |db.providers| >= PROVIDER_LIMIT then RolledBack(LimitReached)
    else Committed(db.(providers := db.providers[id := Provider(1, 1, false, settings, assurance, 1)]), ())
  }

  function WithProvider(db: Tables, id: Id, row: Provider): Tables {
    db.(providers := db.providers[id := row])
  }

  function EditProvider(db: Tables, id: Id, expected: int, settings: Settings, assurance: Id): Transaction<()> {
    if id !in db.providers then RolledBack(Rejected) else
    var row := db.providers[id];
    if row.version != expected then RolledBack(StaleConfiguration)
    else if settings.issuer != row.settings.issuer then RolledBack(Configuration) else
    var credential, epoch, version := Checked(row.credentialVersion + 1), Checked(row.epoch + 1), Checked(row.version + 1);
    if credential.None? || epoch.None? || version.None? then RolledBack(Rejected)
    else Committed(
      WithProvider(db, id, Provider(version.value, epoch.value, row.enabled, settings, assurance, credential.value)), ())
  }

  function EnableProvider(db: Tables, id: Id, expected: int, enabled: bool): Transaction<()> {
    if id !in db.providers then RolledBack(Rejected) else
    var row := db.providers[id];
    if row.version != expected then RolledBack(StaleConfiguration) else
    var epoch := if row.enabled != enabled then Checked(row.epoch + 1) else Some(row.epoch);
    var version := Checked(row.version + 1);
    if epoch.None? || version.None? then RolledBack(Rejected)
    else Committed(
      WithProvider(db, id, row.(version := version.value, epoch := epoch.value, enabled := enabled)), ())
  }

  /** One row of the assurance reconcile: a provider whose fingerprint differs is rewritten under the approved one. */
  function Reprofile(db: Tables, id: Id, approved: Id): Transaction<()> {
    if id !in db.providers || db.providers[id].assurance == approved then RolledBack(Rejected) else
    var row := db.providers[id];
    var epoch, version := Checked(row.epoch + 1), Checked(row.version + 1);
    if epoch.None? || version.None? then RolledBack(Rejected)
    else Committed(
      WithProvider(db, id, row.(version := version.value, epoch := epoch.value, assurance := approved)), ())
  }

  // Native Entra resolution shares the identity table

  datatype EntraProof = EntraProof(provider: Id, version: int, epoch: int, issuer: string, tenant: Uuid, user: Uuid)

  predicate EntraCurrent(proof: EntraProof, row: Provider) {
    && row.enabled
    && row.settings.issuer == proof.issuer
    && row.settings.subject == EntraMapping(proof.tenant)
    && row.version == proof.version
    && row.epoch == proof.epoch
  }

  ghost function ResolveEntra(db: Tables, proof: EntraProof, minted: Fresh): Transaction<Id> {
    if proof.provider !in db.providers then RolledBack(Rejected) else
    var row := db.providers[proof.provider];
    if !EntraCurrent(proof, row) then RolledBack(Rejected) else
    var key := StorageKey(EntraSubject(proof.tenant, proof.user));
    var existing := FindIdentity(db, proof.provider, row.settings.issuer, key);
    if existing.None? && !row.settings.jit then RolledBack(Rejected) else
    var principal := if existing.Some? then db.identities[existing.value].principal else minted.principal;
    var next :=
      if existing.Some? then db
      else WithIdentity(WithFederatedAccount(db, principal), minted.identity,
                        Identity(principal, proof.provider, row.settings.issuer, key));
    if principal !in next.accounts || !next.accounts[principal].Active() then RolledBack(Rejected)
    else Committed(next, principal)
  }

  // Accounts and sessions as the rest of the authority changes them

  datatype AccountChange = SetEnabled(on: bool) | SetMembership(on: bool) | ChangePassword | RevokeAll

  function ChangeAccount(db: Tables, principal: Id, change: AccountChange): Transaction<()> {
    if principal !in db.accounts then RolledBack(Rejected) else
    var a := db.accounts[principal];
    if (change == ChangePassword && !a.localPassword) || (change == RevokeAll && !a.Active()) then RolledBack(Rejected) else
    var epoch := Checked(a.epoch + 1);
    var member :=
      if change.SetMembership? && change.on != a.memberActive then Checked(a.memberEpoch + 1) else Some(a.memberEpoch);
    if epoch.None? || member.None? then RolledBack(Rejected) else
    var next := a.(
      epoch := epoch.value, memberEpoch := member.value,
      enabled := if change.SetEnabled? then change.on else a.enabled,
      memberActive := if change.SetMembership? then change.on else a.memberActive);
    Committed(db.(accounts := db.accounts[principal := next]), ())
  }

  function CreateLocalAccount(db: Tables, principal: Id): Transaction<()> {
    Committed(db.(accounts := db.accounts[principal := Account(true, true, 1, 1, true)]), ())
  }

  /** A password or platform login; such a session has no federated origin. */
  function IssueLocal(db: Tables, principal: Id, session: Id, replaced: Option<Id>, expires: int): Transaction<()> {
    if principal !in db.accounts || !db.accounts[principal].Active() then RolledBack(Rejected)
    else
      var a := db.accounts[principal];
      Committed(WithSession(db, session, Session(principal, a.epoch, a.memberEpoch, None, false, expires), replaced), ())
  }

  /** Renewal moves the expiry of a session, revocation closes it. */
  function TouchSession(db: Tables, session: Id, expires: int, revoke: bool): Transaction<()> {
    if session !in db.sessions then RolledBack(Rejected)
    else
      var row := db.sessions[session];
      Committed(db.(sessions := db.sessions[session := row.(expires := expires, revoked := row.revoked || revoke)]), ())
  }
}
