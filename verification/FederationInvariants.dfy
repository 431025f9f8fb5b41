/** What every transaction of every run keeps, and how two worlds of one run are related. */
module FederationInvariants {
  import opened Common
  import opened ExternalSubjects
  import opened Federation
  import opened FederationRuns

  // One world

  ghost predicate IdsUsed(db: Tables, used: set<Id>) {
    && db.providers.Keys <= used
    && db.identities.Keys <= used
    && db.accounts.Keys <= used
    && db.sessions.Keys <= used
    && db.attempts.Keys <= used
    && db.intents.Keys <= used
  }

  /** Equal versions of a provider mean equal rows, over the whole history. */
  ghost predicate VersionsNameRows(providers: map<Id, Provider>, rows: set<Seen>) {
    && (forall id :: id in providers ==> (id, providers[id]) in rows)
    && (forall r :: r in rows ==>
          && r.0 in providers
          && r.1.version <= providers[r.0].version
          && r.1.settings.issuer == providers[r.0].settings.issuer)
    && (forall r, s :: r in rows && s in rows && r.0 == s.0 && r.1.version == s.1.version ==> r == s)
  }

  /** A version counts the writes of its row. */
  ghost predicate VersionsCountWrites(providers: map<Id, Provider>, log: seq<Event>) {
    && (forall id :: id in providers ==> providers[id].version == Writes(log, id))
    && (forall id :: id !in providers ==> Writes(log, id) == 0)
  }

  ghost predicate SameKey(a: Identity, b: Identity) {
    a.provider == b.provider && a.issuer == b.issuer && a.subject == b.subject
  }

  ghost predicate IdentitiesUnique(identities: map<Id, Identity>, principals: set<Id>, providers: set<Id>) {
    && (forall id :: id in identities ==> identities[id].principal in principals && identities[id].provider in providers)
    && (forall i, j :: i in identities && j in identities && SameKey(identities[i], identities[j]) ==> i == j)
  }

  /** An origin belongs to its principal, and is at the current version only with the current epoch and enabled. */
  ghost predicate Tracked(
    identities: map<Id, Identity>, providers: map<Id, Provider>, principal: Id, origin: Origin)
  {
    && origin.identity in identities
    && identities[origin.identity].principal == principal
    && identities[origin.identity].provider in providers
    && var row := providers[identities[origin.identity].provider];
    && origin.version <= row.version
    && (origin.version == row.version ==> origin.epoch == row.epoch && row.enabled)
  }

  ghost predicate SessionTracked(
    row: Session, accounts: map<Id, Account>, identities: map<Id, Identity>, providers: map<Id, Provider>)
  {
    && row.principal in accounts
    && row.epoch <= accounts[row.principal].epoch
    && (row.origin.Some? ==> Tracked(identities, providers, row.principal, row.origin.value))
  }

  ghost predicate SessionsTracked(
    sessions: map<Id, Session>, accounts: map<Id, Account>, identities: map<Id, Identity>, providers: map<Id, Provider>)
  {
    forall id :: id in sessions ==> SessionTracked(sessions[id], accounts, identities, providers)
  }

  ghost predicate PurposeFits(a: Attempt) {
    && (a.purpose == Login <==> a.link.None?)
    && (a.purpose == Reauthenticate <==> a.mode == ReauthenticateMode)
    && (a.mode == StepUpMode ==> a.purpose == Login)
  }

  /** The live attempt of an intent is the one its stage asks for, and ends no later than the intent. */
  ghost predicate Fits(a: Attempt, i: Intent) {
    && i.stage != Completed
    && (a.purpose == Reauthenticate <==> i.stage == ReauthenticationRequired)
    && a.expiry <= i.expiry
    && (a.purpose == Link ==> a.provider == i.target && a.version == i.version)
  }

  ghost predicate LinksConsistent(attempts: map<Id, Attempt>, intents: map<Id, Intent>) {
    && (forall a :: a in attempts ==>
          && PurposeFits(attempts[a])
          && (attempts[a].link.Some? ==>
                attempts[a].link.value in intents && Fits(attempts[a], intents[attempts[a].link.value])))
    && (forall a, b :: (a in attempts && b in attempts && attempts[a].link.Some? && attempts[a].link == attempts[b].link)
          ==> a == b)
  }

  ghost predicate IntentTracked(
    row: Intent, accounts: map<Id, Account>, identities: map<Id, Identity>, providers: map<Id, Provider>)
  {
    && row.principal in accounts
    && row.epoch <= accounts[row.principal].epoch
    && (row.stage == Completed ==> row.epoch < accounts[row.principal].epoch)
    && (row.origin.Some? ==> Tracked(identities, providers, row.principal, row.origin.value))
  }

  ghost predicate IntentsTracked(
    intents: map<Id, Intent>, accounts: map<Id, Account>, identities: map<Id, Identity>, providers: map<Id, Provider>)
  {
    forall i :: i in intents ==> IntentTracked(intents[i], accounts, identities, providers)
  }

  /** Secrets leave once, an attempt ends once, and only what was released can yield anything. */
  ghost predicate Once(log: seq<Event>, used: set<Id>, attempts: map<Id, Attempt>) {
    forall a {:trigger Releases(log, a)} {:trigger Endings(log, a)} ::
      && Releases(log, a) <= 1
      && Endings(log, a) <= 1
      && Yields(log, a) <= Releases(log, a)
      && Yields(log, a) <= Endings(log, a)
      && (a !in used ==> Releases(log, a) == 0 && Endings(log, a) == 0)
      && (a in attempts ==> Endings(log, a) == 0)
      && (a in attempts && attempts[a].secrets.Some? ==> Releases(log, a) == 0)
  }

  /** Every event of an attempt was under one provider row: the one its row still names. */
  ghost predicate OneRow(log: seq<Event>, used: set<Id>, rows: set<Seen>, attempts: map<Id, Attempt>) {
    forall a {:trigger RowsOf(log, a)} ::
      && RowsOf(log, a) <= rows
      && (forall r, s :: r in RowsOf(log, a) && s in RowsOf(log, a) ==> r == s)
      && (a !in used ==> RowsOf(log, a) == {})
      && (a in attempts ==> forall r :: r in RowsOf(log, a) ==>
            r.0 == attempts[a].provider && r.1.version == attempts[a].version)
  }

  /** What a running completion holds agrees with its attempt, and a target it read with its intent. */
  ghost predicate FlightsHold(
    flights: map<Id, Flight>, log: seq<Event>, rows: set<Seen>, attempts: map<Id, Attempt>, intents: map<Id, Intent>)
  {
    forall a :: a in flights ==>
      && Releases(log, a) == 1
      && flights[a].source in RowsOf(log, a)
      && (a in attempts ==> attempts[a].secrets.None?)
      && (flights[a].target.Some? ==> flights[a].target.value in rows)
      && (flights[a].target.Some? && a in attempts && attempts[a].link.Some? && attempts[a].link.value in intents ==>
            var i := intents[attempts[a].link.value];
            && i.target == flights[a].target.value.0
            && i.version == flights[a].target.value.1.version)
  }

  ghost predicate Inv(w: World) {
    && IdsUsed(w.db, w.used)
    && VersionsNameRows(w.db.providers, w.rows)
    && VersionsCountWrites(w.db.providers, w.log)
    && IdentitiesUnique(w.db.identities, w.db.accounts.Keys, w.db.providers.Keys)
    && SessionsTracked(w.db.sessions, w.db.accounts, w.db.identities, w.db.providers)
    && LinksConsistent(w.db.attempts, w.db.intents)
    && IntentsTracked(w.db.intents, w.db.accounts, w.db.identities, w.db.providers)
    && Once(w.log, w.used, w.db.attempts)
    && OneRow(w.log, w.used, w.rows, w.db.attempts)
    && FlightsHold(w.flights, w.log, w.rows, w.db.attempts, w.db.intents)
  }

  // Two worlds of one run

  function Rank(s: Stage): nat {
    match s case ReauthenticationRequired => 0 case TargetReady => 1 case Completed => 2
  }

  ghost predicate IntentLater(a: Intent, b: Intent) {
    && Rank(a.stage) <= Rank(b.stage)
    && a.browser == b.browser && a.principal == b.principal && a.session == b.session
    && a.epoch == b.epoch && a.memberEpoch == b.memberEpoch
    && a.target == b.target && a.version == b.version && a.created == b.created && a.expiry == b.expiry
  }

  ghost predicate AttemptLater(a: Attempt, b: Attempt) {
    b == a || b == a.(secrets := None)
  }

  ghost predicate SessionLater(a: Session, b: Session) {
    && a.principal == b.principal && a.epoch == b.epoch && a.memberEpoch == b.memberEpoch && a.origin == b.origin
    && (a.revoked ==> b.revoked)
  }

  ghost predicate ProviderLater(a: Provider, b: Provider) {
    a.version < b.version || a == b
  }

  ghost predicate Grown<T(!new)>(a: map<Id, T>, b: map<Id, T>) {
    forall id :: id in a ==> id in b && b[id] == a[id]
  }

  ghost predicate AccountsLater(a: map<Id, Account>, b: map<Id, Account>) {
    forall p :: p in a ==> p in b && a[p].epoch <= b[p].epoch
  }

  ghost predicate ProvidersLater(a: map<Id, Provider>, b: map<Id, Provider>) {
    forall p :: p in a ==> p in b && ProviderLater(a[p], b[p])
  }

  ghost predicate SessionsLater(a: map<Id, Session>, b: map<Id, Session>) {
    forall s :: s in a ==> s in b && SessionLater(a[s], b[s])
  }

  /** Rows that were ever deleted stay deleted, because their identifiers were used. */
  ghost predicate IntentsLater(used: set<Id>, a: map<Id, Intent>, b: map<Id, Intent>) {
    forall i :: i in b && i in used ==> i in a && IntentLater(a[i], b[i])
  }

  ghost predicate AttemptsLater(used: set<Id>, a: map<Id, Attempt>, b: map<Id, Attempt>) {
    forall i :: i in b && i in used ==> i in a && AttemptLater(a[i], b[i])
  }

  /** Nothing is taken back: what may still change between an earlier and a later world of a run. */
  ghost predicate Later(v: World, w: World) {
    && v.clock <= w.clock
    && v.used <= w.used
    && v.rows <= w.rows
    && v.log <= w.log
    && Grown(v.db.identities, w.db.identities)
    && AccountsLater(v.db.accounts, w.db.accounts)
    && ProvidersLater(v.db.providers, w.db.providers)
    && SessionsLater(v.db.sessions, w.db.sessions)
    && IntentsLater(v.used, v.db.intents, w.db.intents)
    && AttemptsLater(v.used, v.db.attempts, w.db.attempts)
  }

  lemma LaterTransitive(u: World, v: World, w: World)
    requires Later(u, v) && Later(v, w)
    ensures Later(u, w)
  {
  }

  // Statements: each keeps the invariant

  ghost predicate Kept(v: World, w: World) {
    Inv(w) && Later(v, w)
  }

  lemma TimeKeeps(w: World, now: int, drawn: set<Id>)
    requires Inv(w)
    ensures Kept(w, Committing(w, w.db, now, drawn))
  {
  }

  lemma LandKeeps(w: World, attempt: Id)
    requires Inv(w)
    ensures Kept(w, Landed(w, attempt))
  {
  }

  /** Deleting attempts, and intents no remaining attempt refers to. */
  lemma ShrinkKeeps(w: World, attempts: map<Id, Attempt>, intents: map<Id, Intent>)
    requires Inv(w)
    requires Grown(attempts, w.db.attempts) && Grown(intents, w.db.intents)
    requires forall a :: a in attempts && attempts[a].link.Some? ==> attempts[a].link.value in intents
    ensures Kept(w, w.(db := w.db.(attempts := attempts, intents := intents)))
  {
  }

  // How the parts that read the log change with one event

  /** `after` differs from `before` in the row of `id` at most: it is new, claimed, or gone. */
  ghost predicate OneAttempt(before: map<Id, Attempt>, after: map<Id, Attempt>, id: Id) {
    forall a :: a in after && a != id ==> a in before && after[a] == before[a]
  }

  lemma OnceKeeps(log: seq<Event>, used: set<Id>, before: map<Id, Attempt>, after: map<Id, Attempt>, id: Id, e: Event)
    requires Once(log, used, before) && OneAttempt(before, after, id)
    requires id in used && !e.Wrote? && e.attempt == id
    requires e.Began? ==> Releases(log, id) == 0 && Endings(log, id) == 0
    requires e.Released? ==> id in before && before[id].secrets.Some? && id in after && after[id].secrets.None?
    requires e.Ended? ==> id in before && id !in after && (e.ending != Cancelled ==> Releases(log, id) == 1)
    ensures Once(log + [e], used, after)
  {
    forall a
      ensures
        && Releases(log + [e], a) <= 1
        && Endings(log + [e], a) <= 1
        && Yields(log + [e], a) <= Releases(log + [e], a)
        && Yields(log + [e], a) <= Endings(log + [e], a)
        && (a !in used ==> Releases(log + [e], a) == 0 && Endings(log + [e], a) == 0)
        && (a in after ==> Endings(log + [e], a) == 0)
        && (a in after && after[a].secrets.Some? ==> Releases(log + [e], a) == 0)
    {
      Push(log, e, a);
      assert Releases(log, a) <= 1;
    }
  }

  lemma OneRowKeeps(
    log: seq<Event>, used: set<Id>, rows: set<Seen>, providers: map<Id, Provider>,
    before: map<Id, Attempt>, after: map<Id, Attempt>, id: Id, e: Event)
    requires OneRow(log, used, rows, before) && VersionsNameRows(providers, rows) && OneAttempt(before, after, id)
    requires id in used && !e.Wrote? && e.attempt == id && e.row in rows
    requires e.Began? ==> RowsOf(log, id) == {}
    requires !e.Began? ==> id in before && before[id].provider == e.row.0 && before[id].version == e.row.1.version
    requires id in after ==> after[id].provider == e.row.0 && after[id].version == e.row.1.version
    ensures OneRow(log + [e], used, rows, after)
  {
    forall a
      ensures
        && RowsOf(log + [e], a) <= rows
        && (forall r, s :: r in RowsOf(log + [e], a) && s in RowsOf(log + [e], a) ==> r == s)
        && (a !in used ==> RowsOf(log + [e], a) == {})
        && (a in after ==> forall r :: r in RowsOf(log + [e], a) ==>
              r.0 == after[a].provider && r.1.version == after[a].version)
    {
      Push(log, e, a);
      assert RowsOf(log, a) <= rows;
    }
  }

  lemma FlightsKeep(
    flights: map<Id, Flight>, log: seq<Event>, rows: set<Seen>, before: map<Id, Attempt>, after: map<Id, Attempt>,
    intents: map<Id, Intent>, id: Id, e: Event)
    requires FlightsHold(flights, log, rows, before, intents) && OneAttempt(before, after, id)
    requires !e.Wrote? && e.attempt == id
    requires id in flights ==> !e.Released? && id !in after
    ensures FlightsHold(flights, log + [e], rows, after, intents)
  {
    forall a | a in flights
      ensures Releases(log + [e], a) == 1 && flights[a].source in RowsOf(log + [e], a)
    {
      Push(log, e, a);
    }
  }

  lemma WritesKeep(providers: map<Id, Provider>, log: seq<Event>, e: Event)
    requires VersionsCountWrites(providers, log) && !e.Wrote?
    ensures VersionsCountWrites(providers, log + [e])
  {
    forall id ensures Writes(log + [e], id) == Writes(log, id) {
      Push(log, e, id);
    }
  }

  lemma LinksInsert(attempts: map<Id, Attempt>, intents: map<Id, Intent>, id: Id, row: Attempt)
    requires LinksConsistent(attempts, intents)
    requires PurposeFits(row)
    requires row.link.Some? ==> row.link.value in intents && Fits(row, intents[row.link.value])
    requires forall a :: a in attempts && a != id && row.link.Some? ==> attempts[a].link != row.link
    ensures LinksConsistent(attempts[id := row], intents)
  {
  }

  lemma FlightsRelease(
    flights: map<Id, Flight>, log: seq<Event>, used: set<Id>, rows: set<Seen>, attempts: map<Id, Attempt>,
    intents: map<Id, Intent>, id: Id, e: Event)
    requires FlightsHold(flights, log, rows, attempts, intents) && Once(log, used, attempts)
    requires e.Released? && e.attempt == id && id in attempts && attempts[id].secrets.Some? && e.row in rows
    ensures FlightsHold(
      flights[id := Flight(e.row, None)], log + [e], rows, attempts[id := attempts[id].(secrets := None)], intents)
  {
    var after := attempts[id := attempts[id].(secrets := None)];
    assert Releases(log, id) == 0;
    Push(log, e, id);
    FlightsKeep(flights - {id}, log, rows, attempts, after, intents, id, e);
  }

  /** A fresh attempt under the current row of its provider. */
  lemma InsertKeeps(w: World, id: Id, row: Attempt, seen: Seen, next: World)
    requires Inv(w)
    requires id !in w.db.attempts && Releases(w.log, id) == 0 && Endings(w.log, id) == 0 && RowsOf(w.log, id) == {}
    requires id in w.used && id !in w.flights
    requires seen in w.rows && row.provider == seen.0 && row.version == seen.1.version
    requires PurposeFits(row)
    requires row.link.Some? ==> row.link.value in w.db.intents && Fits(row, w.db.intents[row.link.value])
    requires forall a :: a in w.db.attempts && row.link.Some? ==> w.db.attempts[a].link != row.link
    requires next == Log(w.(db := w.db.(attempts := w.db.attempts[id := row])), Began(id, seen))
    ensures Inv(next)
  {
    var e := Began(id, seen);
    OnceKeeps(w.log, w.used, w.db.attempts, next.db.attempts, id, e);
    OneRowKeeps(w.log, w.used, w.rows, w.db.providers, w.db.attempts, next.db.attempts, id, e);
    FlightsKeep(w.flights, w.log, w.rows, w.db.attempts, next.db.attempts, w.db.intents, id, e);
    WritesKeep(w.db.providers, w.log, e);
    LinksInsert(w.db.attempts, w.db.intents, id, row);
  }

  /** Deleting an attempt for good, with the event that says how it ended. */
  lemma EndKeeps(w: World, id: Id, seen: Seen, ending: Ending, next: World)
    requires Inv(w)
    requires id in w.db.attempts
    requires seen in w.rows && w.db.attempts[id].provider == seen.0 && w.db.attempts[id].version == seen.1.version
    requires ending != Cancelled ==> Releases(w.log, id) == 1
    requires next == Log(w.(db := Consumed(w.db, id)), Ended(id, seen, ending))
    ensures Kept(w, next)
  {
    var e := Ended(id, seen, ending);
    OnceKeeps(w.log, w.used, w.db.attempts, next.db.attempts, id, e);
    OneRowKeeps(w.log, w.used, w.rows, w.db.providers, w.db.attempts, next.db.attempts, id, e);
    FlightsKeep(w.flights, w.log, w.rows, w.db.attempts, next.db.attempts, w.db.intents, id, e);
    WritesKeep(w.db.providers, w.log, e);
  }

  /** Clearing the secrets of an attempt and releasing them. */
  lemma ReleaseKeeps(w: World, id: Id, seen: Seen, next: World)
    requires Inv(w)
    requires id in w.db.attempts && w.db.attempts[id].secrets.Some?
    requires seen in w.rows && w.db.attempts[id].provider == seen.0 && w.db.attempts[id].version == seen.1.version
    requires next == Log(
      ClaimedWorld(w, id).(flights := w.flights[id := Flight(seen, None)]),
      Released(id, seen, w.db.attempts[id].secrets.value))
    ensures Kept(w, next)
  {
    var e := Released(id, seen, w.db.attempts[id].secrets.value);
    ReleaseLater(w, id, e, next);
    LinksInsert(w.db.attempts, w.db.intents, id, w.db.attempts[id].(secrets := None));
    OnceKeeps(w.log, w.used, w.db.attempts, next.db.attempts, id, e);
    OneRowKeeps(w.log, w.used, w.rows, w.db.providers, w.db.attempts, next.db.attempts, id, e);
    FlightsRelease(w.flights, w.log, w.used, w.rows, w.db.attempts, w.db.intents, id, e);
    WritesKeep(w.db.providers, w.log, e);
  }

  lemma ReleaseLater(w: World, id: Id, e: Event, next: World)
    requires id in w.db.attempts
    requires next.db == ClaimedWorld(w, id).db && next.log == w.log + [e]
    requires next.clock == w.clock && next.used == w.used && next.rows == w.rows
    ensures Later(w, next)
  {
  }

  function ClaimedWorld(w: World, id: Id): World
    requires id in w.db.attempts
  {
    w.(db := w.db.(attempts := w.db.attempts[id := w.db.attempts[id].(secrets := None)]))
  }

  /** Clearing the secrets of an attempt whose caller never learns of it. */
  lemma LostReleaseKeeps(w: World, id: Id)
    requires Inv(w) && id in w.db.attempts
    ensures Kept(w, ClaimedWorld(w, id))
  {
    LinksInsert(w.db.attempts, w.db.intents, id, w.db.attempts[id].(secrets := None));
    ClaimLost(w, id);
  }

  lemma ClaimLost(w: World, id: Id)
    requires Once(w.log, w.used, w.db.attempts) && OneRow(w.log, w.used, w.rows, w.db.attempts)
    requires FlightsHold(w.flights, w.log, w.rows, w.db.attempts, w.db.intents)
    requires id in w.db.attempts
    ensures var after := w.db.attempts[id := w.db.attempts[id].(secrets := None)];
      && Once(w.log, w.used, after) && OneRow(w.log, w.used, w.rows, after)
      && FlightsHold(w.flights, w.log, w.rows, after, w.db.intents)
  {
  }

  lemma TrackedGrown(
    identities: map<Id, Identity>, more: map<Id, Identity>, providers: map<Id, Provider>, principal: Id, origin: Origin)
    requires Grown(identities, more) && Tracked(identities, providers, principal, origin)
    ensures Tracked(more, providers, principal, origin)
  {
  }

  lemma OwnersGrown(w: World, more: map<Id, Identity>)
    requires SessionsTracked(w.db.sessions, w.db.accounts, w.db.identities, w.db.providers)
    requires IntentsTracked(w.db.intents, w.db.accounts, w.db.identities, w.db.providers)
    requires Grown(w.db.identities, more)
    ensures SessionsTracked(w.db.sessions, w.db.accounts, more, w.db.providers)
    ensures IntentsTracked(w.db.intents, w.db.accounts, more, w.db.providers)
  {
    forall id | id in w.db.sessions && w.db.sessions[id].origin.Some?
      ensures SessionTracked(w.db.sessions[id], w.db.accounts, more, w.db.providers)
    {
      TrackedGrown(w.db.identities, more, w.db.providers, w.db.sessions[id].principal, w.db.sessions[id].origin.value);
    }
    forall id | id in w.db.intents && w.db.intents[id].origin.Some?
      ensures IntentTracked(w.db.intents[id], w.db.accounts, more, w.db.providers)
    {
      TrackedGrown(w.db.identities, more, w.db.providers, w.db.intents[id].principal, w.db.intents[id].origin.value);
    }
  }

  lemma AddIdentityKeeps(w: World, id: Id, row: Identity)
    requires Inv(w)
    requires id in w.used && id !in w.db.identities
    requires row.principal in w.db.accounts && row.provider in w.db.providers
    requires forall i :: i in w.db.identities ==> !SameKey(w.db.identities[i], row)
    ensures Kept(w, w.(db := WithIdentity(w.db, id, row)))
  {
    OwnersGrown(w, w.db.identities[id := row]);
  }

  lemma SetAccountKeeps(w: World, id: Id, row: Account)
    requires Inv(w)
    requires id in w.used
    requires id in w.db.accounts ==> w.db.accounts[id].epoch <= row.epoch
    ensures Kept(w, w.(db := w.db.(accounts := w.db.accounts[id := row])))
  {
    var accounts := w.db.accounts[id := row];
    assert AccountsLater(w.db.accounts, accounts);
    SessionsStayTracked(w.db.sessions, w.db.accounts, accounts, w.db.identities, w.db.providers);
    IntentsStayTracked(w.db.intents, w.db.accounts, accounts, w.db.identities, w.db.providers);
  }

  lemma SessionsStayTracked(
    sessions: map<Id, Session>, before: map<Id, Account>, after: map<Id, Account>, identities: map<Id, Identity>,
    providers: map<Id, Provider>)
    requires SessionsTracked(sessions, before, identities, providers) && AccountsLater(before, after)
    ensures SessionsTracked(sessions, after, identities, providers)
  {
  }

  lemma IntentsStayTracked(
    intents: map<Id, Intent>, before: map<Id, Account>, after: map<Id, Account>, identities: map<Id, Identity>,
    providers: map<Id, Provider>)
    requires IntentsTracked(intents, before, identities, providers) && AccountsLater(before, after)
    ensures IntentsTracked(intents, after, identities, providers)
  {
  }

  lemma SetSessionKeeps(w: World, id: Id, row: Session)
    requires Inv(w)
    requires id in w.used
    requires SessionTracked(row, w.db.accounts, w.db.identities, w.db.providers)
    requires id in w.db.sessions ==> SessionLater(w.db.sessions[id], row)
    ensures Kept(w, w.(db := w.db.(sessions := w.db.sessions[id := row])))
  {
  }

  lemma WithSessionKeeps(w: World, id: Id, row: Session, replaced: Option<Id>)
    requires Inv(w)
    requires id in w.used && id !in w.db.sessions
    requires SessionTracked(row, w.db.accounts, w.db.identities, w.db.providers)
    ensures Kept(w, w.(db := WithSession(w.db, id, row, replaced)))
  {
    if replaced.Some? && replaced.value in w.db.sessions {
      var closed := w.db.sessions[replaced.value].(revoked := true);
      SetSessionKeeps(w, replaced.value, closed);
      var mid := w.(db := w.db.(sessions := w.db.sessions[replaced.value := closed]));
      SetSessionKeeps(mid, id, row);
      LaterTransitive(w, mid, w.(db := WithSession(w.db, id, row, replaced)));
    } else {
      SetSessionKeeps(w, id, row);
    }
  }

  /** Adding an intent, or rewriting one while no attempt refers to it. */
  lemma SetIntentKeeps(w: World, id: Id, row: Intent)
    requires Inv(w)
    requires id in w.used
    requires IntentTracked(row, w.db.accounts, w.db.identities, w.db.providers)
    requires forall a :: a in w.db.attempts ==> w.db.attempts[a].link != Some(id)
    requires id in w.db.intents ==> IntentLater(w.db.intents[id], row)
    ensures Inv(w.(db := w.db.(intents := w.db.intents[id := row])))
    ensures id in w.db.intents ==> Later(w, w.(db := w.db.(intents := w.db.intents[id := row])))
  {
  }

  /** A provider write raises the version by one, or creates the row at version one. */
  lemma WriteKeeps(w: World, id: Id, row: Provider, next: World)
    requires Inv(w)
    requires id in w.used
    requires id in w.db.providers ==>
      row.version == w.db.providers[id].version + 1 && row.settings.issuer == w.db.providers[id].settings.issuer
    requires id !in w.db.providers ==> row.version == 1
    requires next == Writing(w, WithProvider(w.db, id, row), id, {})
    ensures Kept(w, next)
  {
    HistoryKeeps(w, id, row);
    RowsKeep(w, id, row);
    OriginsKeep(w, id, row);
    CountsKeep(w, id, row);
    WriteLater(w, id, row, next);
    assert next.rows == w.rows + {(id, row)} && next.log == w.log + [Wrote(id)];
    assert next.db == w.db.(providers := w.db.providers[id := row]);
  }

  lemma WriteLater(w: World, id: Id, row: Provider, next: World)
    requires id in w.db.providers ==> row.version == w.db.providers[id].version + 1
    requires next == Writing(w, WithProvider(w.db, id, row), id, {})
    ensures Later(w, next)
  {
  }

  lemma CountsKeep(w: World, id: Id, row: Provider)
    requires VersionsCountWrites(w.db.providers, w.log)
    requires row.version == if id in w.db.providers then w.db.providers[id].version + 1 else 1
    ensures VersionsCountWrites(w.db.providers[id := row], w.log + [Wrote(id)])
  {
    forall a ensures Writes(w.log + [Wrote(id)], a) == Writes(w.log, a) + Bit(a == id) {
      Push(w.log, Wrote(id), a);
    }
  }

  lemma HistoryKeeps(w: World, id: Id, row: Provider)
    requires Once(w.log, w.used, w.db.attempts) && OneRow(w.log, w.used, w.rows, w.db.attempts)
    requires FlightsHold(w.flights, w.log, w.rows, w.db.attempts, w.db.intents)
    ensures Once(w.log + [Wrote(id)], w.used, w.db.attempts)
    ensures OneRow(w.log + [Wrote(id)], w.used, w.rows + {(id, row)}, w.db.attempts)
    ensures FlightsHold(w.flights, w.log + [Wrote(id)], w.rows + {(id, row)}, w.db.attempts, w.db.intents)
  {
    forall a
      ensures
        && Releases(w.log + [Wrote(id)], a) == Releases(w.log, a) && Endings(w.log + [Wrote(id)], a) == Endings(w.log, a)
        && Yields(w.log + [Wrote(id)], a) == Yields(w.log, a) && RowsOf(w.log + [Wrote(id)], a) == RowsOf(w.log, a)
    {
      Push(w.log, Wrote(id), a);
    }
  }

  lemma RowsKeep(w: World, id: Id, row: Provider)
    requires VersionsNameRows(w.db.providers, w.rows)
    requires id in w.db.providers ==>
      row.version == w.db.providers[id].version + 1 && row.settings.issuer == w.db.providers[id].settings.issuer
    ensures VersionsNameRows(w.db.providers[id := row], w.rows + {(id, row)})
  {
  }

  lemma OriginsKeep(w: World, id: Id, row: Provider)
    requires SessionsTracked(w.db.sessions, w.db.accounts, w.db.identities, w.db.providers)
    requires IntentsTracked(w.db.intents, w.db.accounts, w.db.identities, w.db.providers)
    requires id in w.db.providers ==> row.version == w.db.providers[id].version + 1
    ensures SessionsTracked(w.db.sessions, w.db.accounts, w.db.identities, w.db.providers[id := row])
    ensures IntentsTracked(w.db.intents, w.db.accounts, w.db.identities, w.db.providers[id := row])
  {
  }
}
