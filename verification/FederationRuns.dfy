/**
  Runs of the whole authority: any interleaving of the transactions of any number of concurrent operations.

  A world is the committed tables together with what the processes still hold and what has happened so far. `used`,
  `rows` and `log` are history: every identifier ever drawn, every provider row ever committed, every observable event.
*/
module FederationRuns {
  import opened Common
  import opened ExternalSubjects
  import opened Federation

  datatype Ending = Cancelled | SessionIssued(session: Id) | StepUpGranted | Redirected(next: Id)

  /** A provider row as some transaction saw it. */
  type Seen = (Id, Provider)

  datatype Event =
    | Began(attempt: Id, row: Seen)
    | Released(attempt: Id, row: Seen, secrets: Secrets)
    | Ended(attempt: Id, row: Seen, ending: Ending)
    | Wrote(provider: Id)

  /** What a running `complete` holds between its transactions. */
  datatype Flight = Flight(source: Seen, target: Option<Seen>)

  datatype World = World(
    db: Tables,
    clock: int,
    used: set<Id>,
    rows: set<Seen>,
    flights: map<Id, Flight>,
    log: seq<Event>
  )

  datatype Step =
    | BeginAuthenticationStep(
        view: Seen, input: NewAttempt, bound: Option<Id>, profile: AssuranceProfile, checked: int, now: int,
        purge: Purge)
    | CancelStep(call: Callback, issuer: string, at: Reads)
    | ClaimStep(call: Callback, issuer: string, profile: AssuranceProfile, at: Reads, delivered: bool)
    | CompleteStep(call: Callback, claims: Upstream, profile: AssuranceProfile, drawn: Fresh, expires: int, at: Reads)
    | BeginLinkStep(
        session: Id, account: Account, candidate: Option<Candidate>, target: Seen, source: Seen, intent: Id,
        input: NewAttempt, at: Reads, purge: Purge)
    | ReadTargetStep(attempt: Id)
    | FinishReauthenticationStep(call: Callback, claims: Upstream, input: NewAttempt, at: Reads, purge: Purge)
    | CreateProviderStep(provider: Id, settings: Settings, assurance: Id)
    | EditProviderStep(provider: Id, expected: int, settings: Settings, assurance: Id)
    | EnableProviderStep(provider: Id, expected: int, enabled: bool)
    | ReprofileStep(provider: Id, assurance: Id)
    | ResolveEntraStep(proof: EntraProof, drawn: Fresh)
    | ChangeAccountStep(principal: Id, change: AccountChange)
    | CreateLocalAccountStep(principal: Id)
    | IssueLocalStep(principal: Id, session: Id, replaced: Option<Id>, expires: int)
    | TouchSessionStep(session: Id, expires: int, revoke: bool)

  // What has happened

  function Bit(b: bool): nat { if b then 1 else 0 }

  /** How often the nonce and verifier of this attempt were handed out. */
  function Releases(log: seq<Event>, attempt: Id): nat {
    if log == [] then 0
    else
      var e := log[|log| - 1];
      Releases(log[..|log| - 1], attempt) + Bit(e.Released? && e.attempt == attempt)
  }

  /** How often this attempt ended, in whatever way. */
  function Endings(log: seq<Event>, attempt: Id): nat {
    if log == [] then 0
    else
      var e := log[|log| - 1];
      Endings(log[..|log| - 1], attempt) + Bit(e.Ended? && e.attempt == attempt)
  }

  /** How often this attempt ended in a session, a grant or a follow-on redirect. */
  function Yields(log: seq<Event>, attempt: Id): nat {
    if log == [] then 0
    else
      var e := log[|log| - 1];
      Yields(log[..|log| - 1], attempt) + Bit(e.Ended? && e.attempt == attempt && e.ending != Cancelled)
  }

  /** How often this provider row was written. */
  function Writes(log: seq<Event>, provider: Id): nat {
    if log == [] then 0
    else
      var e := log[|log| - 1];
      Writes(log[..|log| - 1], provider) + Bit(e.Wrote? && e.provider == provider)
  }

  /** The provider rows under which this attempt began, was claimed and ended. */
  function RowsOf(log: seq<Event>, attempt: Id): set<Seen> {
    if log == [] then {}
    else
      var e := log[|log| - 1];
      RowsOf(log[..|log| - 1], attempt) + (if !e.Wrote? && e.attempt == attempt then {e.row} else {})
  }

  lemma Push(log: seq<Event>, e: Event, a: Id)
    ensures Releases(log + [e], a) == Releases(log, a) + Bit(e.Released? && e.attempt == a)
    ensures Endings(log + [e], a) == Endings(log, a) + Bit(e.Ended? && e.attempt == a)
    ensures Yields(log + [e], a) == Yields(log, a) + Bit(e.Ended? && e.attempt == a && e.ending != Cancelled)
    ensures Writes(log + [e], a) == Writes(log, a) + Bit(e.Wrote? && e.provider == a)
    ensures RowsOf(log + [e], a) == RowsOf(log, a) + (if !e.Wrote? && e.attempt == a then {e.row} else {})
  {
    assert (log + [e])[..|log|] == log;
  }

  // Steps

  ghost predicate Ordered(w: World, at: Reads) {
    w.clock <= at.first <= at.viewed <= at.checked <= at.now <= at.granted <= at.last
  }

  ghost predicate Unused(w: World, drawn: Fresh) {
    && drawn.principal !in w.used && drawn.identity !in w.used && drawn.session !in w.used && drawn.grant !in w.used
    && drawn.principal != drawn.identity && drawn.principal != drawn.session && drawn.identity != drawn.session
  }

  /** The upstream result was obtained by exchanging the code under this provider row, and passed its validation. */
  predicate Exchanged(claims: Upstream, view: Provider) {
    && claims.subject.Valid()
    && claims.subject.Matches(view.settings.subject)
    && claims.issuer == view.settings.issuer
  }

  /**
    What the processes and the database guarantee about a step: identifiers are fresh, clock readings do not go back,
    provider rows passed along were read earlier, and a completion continues the operation that claimed its attempt.
  */
  ghost predicate Possible(w: World, s: Step) {
    match s
    case BeginAuthenticationStep(view, input, bound, profile, checked, now, purge) =>
      && w.clock <= checked <= now
      && view in w.rows && input.provider == view.0 && input.version == view.1.version
      && input.id !in w.used && input.mode != ReauthenticateMode
      && PurgeAllowed(w.db, now, purge)
    case CancelStep(call, issuer, at) => Ordered(w, at)
    case ClaimStep(call, issuer, profile, at, delivered) => Ordered(w, at)
    case CompleteStep(call, claims, profile, drawn, expires, at) =>
      && Ordered(w, at) && Unused(w, drawn)
      && call.attempt in w.flights && call.purpose != Reauthenticate
      && Exchanged(claims, w.flights[call.attempt].source.1)
    case BeginLinkStep(session, account, candidate, target, source, intent, input, at, purge) =>
      && Ordered(w, at)
      && target in w.rows && source in w.rows
      && intent !in w.used && input.id !in w.used && intent != input.id
      && input.version == source.1.version
      && (session in w.db.sessions && w.db.sessions[session].origin.Some? ==>
            var identity := w.db.sessions[session].origin.value.identity;
            identity in w.db.identities ==> w.db.identities[identity].provider == source.0)
      && PurgeAllowed(w.db, at.last, purge)
    case ReadTargetStep(attempt) => attempt in w.flights && attempt in w.db.attempts
    case FinishReauthenticationStep(call, claims, input, at, purge) =>
      && Ordered(w, at)
      && call.attempt in w.flights && call.purpose == Reauthenticate
      && w.flights[call.attempt].target.Some?
      && Exchanged(claims, w.flights[call.attempt].source.1)
      && input.id !in w.used
      && PurgeAllowed(Consumed(w.db, call.attempt), at.last, purge)
    case CreateProviderStep(provider, settings, assurance) => provider !in w.used
    case EditProviderStep(provider, expected, settings, assurance) => true
    case EnableProviderStep(provider, expected, enabled) => true
    case ReprofileStep(provider, assurance) => true
    case ResolveEntraStep(proof, drawn) => Unused(w, drawn)
    case ChangeAccountStep(principal, change) => true
    case CreateLocalAccountStep(principal) => principal !in w.used
    case IssueLocalStep(principal, session, replaced, expires) => session !in w.used
    case TouchSessionStep(session, expires, revoke) => true
  }

  function Row(db: Tables, id: Id): Seen
    requires id in db.providers
  {
    (id, db.providers[id])
  }

  function Committing(w: World, db: Tables, now: int, drawn: set<Id>): World {
    w.(db := db, clock := Max(w.clock, now), used := w.used + drawn)
  }

  function Log(w: World, e: Event): World {
    w.(log := w.log + [e])
  }

  /** A committed write of one provider row. */
  function Writing(w: World, db: Tables, id: Id, drawn: set<Id>): World
    requires id in db.providers
  {
    Log(Committing(w, db, w.clock, drawn).(rows := w.rows + {Row(db, id)}), Wrote(id))
  }

  function Landed(w: World, attempt: Id): World {
    w.(flights := w.flights - {attempt})
  }

  ghost function AfterBegin(w: World, s: Step): World
    requires s.BeginAuthenticationStep?
  {
    var r := BeginAuthentication(w.db, s.input, s.bound, s.profile, s.checked, s.now, s.purge);
    if r.RolledBack? || s.input.provider !in w.db.providers then w
    else Log(Committing(w, r.db, s.now, {s.input.id}), Began(s.input.id, Row(w.db, s.input.provider)))
  }

  ghost function AfterCancel(w: World, s: Step): World
    requires s.CancelStep?
  {
    var r := Cancel(w.db, s.call, s.issuer, s.at);
    if r.RolledBack? then w
    else Log(Committing(w, r.db, s.at.last, {}),
             Ended(s.call.attempt, Row(w.db, w.db.attempts[s.call.attempt].provider), Cancelled))
  }

  /** A claim whose reply is lost commits all the same, but hands out nothing. */
  ghost function AfterClaim(w: World, s: Step): World
    requires s.ClaimStep?
  {
    var r := Claim(w.db, s.call, s.issuer, s.profile, s.at);
    if r.RolledBack? then w
    else
      var next := Committing(w, r.db, s.at.last, {});
      if !s.delivered then next
      else
        var seen := (r.value.attempt.provider, r.value.provider);
        Log(next.(flights := w.flights[s.call.attempt := Flight(seen, None)]),
            Released(s.call.attempt, seen, r.value.secrets))
  }

  ghost function AfterComplete(w: World, s: Step): World
    requires s.CompleteStep?
  {
    var r := Complete(w.db, s.call, s.claims, s.profile, s.drawn, s.expires, s.at);
    if r.RolledBack? then Landed(w, s.call.attempt)
    else
      var ending := if r.value.Granted? then StepUpGranted else SessionIssued(r.value.session);
      Log(Landed(Committing(w, r.db, s.at.last, {s.drawn.principal, s.drawn.identity, s.drawn.session, s.drawn.grant}),
                 s.call.attempt),
          Ended(s.call.attempt, Row(w.db, w.db.attempts[s.call.attempt].provider), ending))
  }

  ghost function AfterBeginLink(w: World, s: Step): World
    requires s.BeginLinkStep?
  {
    var r := BeginLink(
      w.db, s.session, s.account, s.candidate, s.target.0, s.target.1.version, s.intent, s.input, s.at, s.purge);
    if r.RolledBack? then w
    else
      var provider := r.db.attempts[s.input.id].provider;
      Log(Committing(w, r.db, s.at.last, {s.intent, s.input.id}), Began(s.input.id, Row(w.db, provider)))
  }

  ghost function AfterReadTarget(w: World, s: Step): World
    requires s.ReadTargetStep?
    requires s.attempt in w.flights && s.attempt in w.db.attempts
  {
    var link := w.db.attempts[s.attempt].link;
    if link.None? then w
    else
      var r := ReadTarget(w.db, link.value);
      if r.Err? then w
      else w.(flights := w.flights[s.attempt := w.flights[s.attempt].(target := Some(r.value))])
  }

  ghost function AfterFinishReauthentication(w: World, s: Step): World
    requires s.FinishReauthenticationStep?
    requires s.call.attempt in w.flights && w.flights[s.call.attempt].target.Some?
  {
    var flight := w.flights[s.call.attempt];
    var r := FinishReauthentication(w.db, s.call, flight.source, flight.target.value, s.claims, s.input, s.at, s.purge);
    if r.RolledBack? then Landed(w, s.call.attempt)
    else
      Log(Log(Landed(Committing(w, r.db, s.at.last, {s.input.id}), s.call.attempt),
              Ended(s.call.attempt, flight.source, Redirected(s.input.id))),
          Began(s.input.id, flight.target.value))
  }

  ghost function AfterWrite(w: World, r: Transaction<()>, id: Id, drawn: set<Id>): World {
    if r.RolledBack? || id !in r.db.providers then w else Writing(w, r.db, id, drawn)
  }

  ghost function AfterResolve(w: World, s: Step): World
    requires s.ResolveEntraStep?
  {
    var r := ResolveEntra(w.db, s.proof, s.drawn);
    if r.RolledBack? then w else Committing(w, r.db, w.clock, {s.drawn.principal, s.drawn.identity})
  }

  ghost function AfterPlain(w: World, r: Transaction<()>, drawn: set<Id>): World {
    if r.RolledBack? then w else Committing(w, r.db, w.clock, drawn)
  }

  /** One transaction of the run; a step that is not possible, or rolls back, commits nothing. */
  ghost function After(w: World, s: Step): World {
    if !Possible(w, s) then w else
    match s
    case BeginAuthenticationStep(_, _, _, _, _, _, _) => AfterBegin(w, s)
    case CancelStep(_, _, _) => AfterCancel(w, s)
    case ClaimStep(_, _, _, _, _) => AfterClaim(w, s)
    case CompleteStep(_, _, _, _, _, _) => AfterComplete(w, s)
    case BeginLinkStep(_, _, _, _, _, _, _, _, _) => AfterBeginLink(w, s)
    case ReadTargetStep(_) => AfterReadTarget(w, s)
    case FinishReauthenticationStep(_, _, _, _, _) => AfterFinishReauthentication(w, s)
    case CreateProviderStep(id, settings, assurance) =>
      AfterWrite(w, CreateProvider(w.db, id, settings, assurance), id, {id})
    case EditProviderStep(id, expected, settings, assurance) =>
      AfterWrite(w, EditProvider(w.db, id, expected, settings, assurance), id, {})
    case EnableProviderStep(id, expected, enabled) => AfterWrite(w, EnableProvider(w.db, id, expected, enabled), id, {})
    case ReprofileStep(id, assurance) => AfterWrite(w, Reprofile(w.db, id, assurance), id, {})
    case ResolveEntraStep(_, _) => AfterResolve(w, s)
    case ChangeAccountStep(principal, change) => AfterPlain(w, ChangeAccount(w.db, principal, change), {})
    case CreateLocalAccountStep(principal) => AfterPlain(w, CreateLocalAccount(w.db, principal), {principal})
    case IssueLocalStep(principal, session, replaced, expires) =>
      AfterPlain(w, IssueLocal(w.db, principal, session, replaced, expires), {session})
    case TouchSessionStep(session, expires, revoke) => AfterPlain(w, TouchSession(w.db, session, expires, revoke), {})
  }

  ghost function Run(w: World, steps: seq<Step>): World
    decreases |steps|
  {
    if steps == [] then w else Run(After(w, steps[0]), steps[1..])
  }

  ghost predicate Initial(w: World) {
    && w.db == Tables(map[], map[], map[], map[], map[], map[], map[])
    && w.rows == {}
    && w.flights == map[]
    && w.log == []
  }
}
