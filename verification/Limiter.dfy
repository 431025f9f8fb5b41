/**
  Password and source attempt limits: counters in fixed windows and fenced claims, in two tables of one tenant. Every
  clock reading of a statement is an argument of its own; times are in microseconds.
*/
module Limiter {
  import opened Common

  type Id = nat

  const SECOND: int := 1_000_000
  const FAILURE_LIMIT: int := 5
  const FAILURE_WINDOW: int := 600 * SECOND
  const SOURCE_LIMIT: int := 30
  const SOURCE_WINDOW: int := 300 * SECOND
  const SCOPE_LIMIT: int := 5
  const SCOPE_WINDOW: int := 900 * SECOND
  const LONGEST_CLAIM: int := 60 * SECOND
  const ROW_LIMIT: int := 10_000
  const CLEANUP_LIMIT: int := 128

  /** What an attempt counts against: a source, or the scope of one login flow. */
  datatype Key = Source(id: Id) | Scope(id: Id)
  {
    function Limit(): int { if Source? then SOURCE_LIMIT else SCOPE_LIMIT }

    function Window(): int { if Source? then SOURCE_WINDOW else SCOPE_WINDOW }
  }

  datatype Counter = Counter(count: int, expires: int)

  datatype Claim = Claim(token: Id, until: int)

  datatype Login = Login(failures: int, window: Option<int>, claim: Option<Claim>)

  datatype Tables = Tables(attempts: map<Key, Counter>, logins: map<Id, Login>)

  function CeilSeconds(t: int): int { (t + SECOND - 1) / SECOND }

  /** The table's check that only a counting row has a window, and its bound on failures. */
  predicate Storable(row: Login) {
    (row.failures == 0 <==> row.window.None?) && 0 <= row.failures <= FAILURE_LIMIT
  }

  // Rows that no longer matter

  predicate CounterLapsed(row: Counter, now: int) { row.expires <= now }

  predicate LoginLapsed(row: Login, now: int) {
    (row.window.Some? ==> row.window.value <= now) && (row.claim.Some? ==> row.claim.value.until <= now)
  }

  /** The rows one cleanup deletes. */
  datatype Gone = Gone(attempts: set<Key>, logins: set<Id>)

  ghost predicate OnlyLapsed(db: Tables, gone: Gone, now: int) {
    && gone.attempts <= db.attempts.Keys && gone.logins <= db.logins.Keys
    && |gone.attempts| + |gone.logins| <= 128
    && (forall k :: k in gone.attempts ==> db.attempts[k].expires <= now)
    && (forall l :: l in gone.logins ==>
      && (db.logins[l].window.Some? ==> db.logins[l].window.value <= now)
      && (db.logins[l].claim.Some? ==> db.logins[l].claim.value.until <= now))
  }

  /** A window that is none comes before any other. */
  predicate NoLater(a: Option<int>, b: Option<int>) {
    a.None? || (b.Some? && a.value <= b.value)
  }

  /**
    The clock is read anew for every row a cleanup looks at, between `from` and `to`. A row that had lapsed from the start
    is left only when the limit is reached, and then only behind earlier ones.
  */
  ghost predicate CleanupAllowed(db: Tables, gone: Gone, from: int, to: int) {
    && OnlyLapsed(db, gone, to)
    && (forall k :: k in db.attempts && k !in gone.attempts && db.attempts[k].expires <= from ==>
          && |gone.attempts| == 128
          && forall g :: g in gone.attempts ==> db.attempts[g].expires <= db.attempts[k].expires)
    && (forall l ::
        && l in db.logins && l !in gone.logins
        && (db.logins[l].window.Some? ==> db.logins[l].window.value <= from)
        && (db.logins[l].claim.Some? ==> db.logins[l].claim.value.until <= from)
        ==>
        && |gone.attempts| + |gone.logins| == 128
        && forall g :: g in gone.logins ==> NoLater(db.logins[g].window, db.logins[l].window))
  }

  function Cleaned(db: Tables, gone: Gone): Tables {
    Tables(db.attempts - gone.attempts, db.logins - gone.logins)
  }

  // Admission

  /** The readings of one look: for the count, for the retry test, and for the retry time. */
  datatype LookReads = LookReads(count: int, test: int, left: int)

  datatype Look = Look(present: bool, count: int, retry: int)

  function LookAt(db: Tables, key: Key, at: LookReads): Look {
    if key !in db.attempts then Look(false, 0, 0)
    else
      var row := db.attempts[key];
      Look(
        true,
        if row.expires > at.count then row.count else 0,
        if row.count >= key.Limit() && row.expires > at.test then Max(1, CeilSeconds(row.expires - at.left)) else 0)
  }

  function Consumed(db: Tables, key: Key, look: Look, now: int): Tables {
    var count := look.count + 1;
    var row :=
      if key !in db.attempts then Counter(1, now + key.Window())
      else Counter(count, if count == 1 then now + key.Window() else db.attempts[key].expires);
    db.(attempts := db.attempts[key := row])
  }

  function New(known: bool): int { if known then 0 else 1 }

  function Total(db: Tables): int { |db.attempts| + |db.logins| }

  datatype Outcome = Admitted | RateLimited(retry: int) | Busy | Failed

  /** The readings of a claim, in the order its statements take them. */
  datatype ClaimReads = ClaimReads(
    from: int, cleanup: int, source: LookReads, retry: int, left: int, busy: int, consume: int, lease: int, failures: int,
    window: int)

  function LoginRetry(db: Tables, login: Id, at: ClaimReads): int {
    if login !in db.logins then 0
    else
      var row := db.logins[login];
      if row.failures == FAILURE_LIMIT && row.window.Some? && row.window.value > at.retry
      then Max(1, CeilSeconds(row.window.value - at.left)) else 0
  }

  predicate ClaimBusy(db: Tables, login: Id, at: ClaimReads) {
    login in db.logins && db.logins[login].claim.Some? && db.logins[login].claim.value.until > at.busy
  }

  /** The row a claim writes: failures and window are kept or dropped by two separate readings of the clock. */
  function ClaimedRow(db: Tables, login: Id, token: Id, lease: int, at: ClaimReads): Login {
    var claim := Some(Claim(token, at.lease + lease));
    if login !in db.logins then Login(0, None, claim)
    else
      var row := db.logins[login];
      Login(
        if row.window.Some? && row.window.value > at.failures then row.failures else 0,
        if row.window.Some? && row.window.value > at.window then row.window else None,
        claim)
  }

  /** One permission to verify a password. A row the table refuses rolls everything back, the cleanup included. */
  function ClaimPassword(
    db: Tables, login: Id, source: Id, token: Id, lease: int, at: ClaimReads, gone: Gone
  ): (Tables, Outcome)
  {
    var clean := Cleaned(db, gone);
    var look := LookAt(clean, Source(source), at.source);
    var retry := Max(LoginRetry(clean, login, at), look.retry);
    if retry > 0 then (clean, RateLimited(retry))
    else if ClaimBusy(clean, login, at) then (clean, Busy)
    else if Total(clean) + New(look.present) + New(login in clean.logins) > ROW_LIMIT then (clean, Busy)
    else
      var row := ClaimedRow(clean, login, token, lease, at);
      if !Storable(row) then (db, Failed)
      else
        var consumed := Consumed(clean, Source(source), look, at.consume);
        (consumed.(logins := consumed.logins[login := row]), Admitted)
  }

  datatype Verdict = Verified(current: bool) | WrongPassword | Undecided

  datatype Settlement = NotOwned | Succeeded | Counted | Released | Stale

  /** The readings of a settlement: for ownership, then for the failures, the window, and a new window's start. */
  datatype SettleReads = SettleReads(owned: int, failures: int, window: int, start: int)

  predicate Owned(db: Tables, login: Id, token: Id, now: int) {
    && login in db.logins && db.logins[login].claim.Some?
    && db.logins[login].claim.value.token == token && db.logins[login].claim.value.until > now
  }

  function CountedRow(row: Login, at: SettleReads): Login {
    Login(
      if row.window.Some? && row.window.value > at.failures then row.failures + 1 else 1,
      if row.window.Some? && row.window.value > at.window then row.window else Some(at.start + FAILURE_WINDOW),
      None)
  }

  function SettlePassword(db: Tables, login: Id, token: Id, verdict: Verdict, at: SettleReads): (Tables, Settlement) {
    if !Owned(db, login, token, at.owned) then (db, NotOwned)
    else match verdict
      case Verified(current) => if current then (db.(logins := db.logins - {login}), Succeeded) else (db, Stale)
      case WrongPassword => (db.(logins := db.logins[login := CountedRow(db.logins[login], at)]), Counted)
      case Undecided => (db.(logins := db.logins[login := db.logins[login].(claim := None)]), Released)
  }

  /** One more failure while the window lasts, the first of a new window otherwise; failures and window look separately. */
  predicate Rejects(before: Login, after: Login, at: SettleReads) {
    && (before.window.Some? && at.failures < before.window.value ==> after.failures == before.failures + 1)
    && (before.window.None? || before.window.value <= at.failures ==> after.failures == 1)
    && (before.window.Some? && at.window < before.window.value ==> after.window == before.window)
    && (before.window.None? || before.window.value <= at.window ==> after.window == Some(at.start + 600_000_000))
  }

  datatype ReserveReads = ReserveReads(from: int, cleanup: int, source: LookReads, scope: LookReads, first: int, second: int)

  /** A reservation counts against its source and its scope, or against neither. */
  function Reserve(db: Tables, source: Id, scope: Id, at: ReserveReads, gone: Gone): (Tables, Outcome) {
    var clean := Cleaned(db, gone);
    var first, second := LookAt(clean, Source(source), at.source), LookAt(clean, Scope(scope), at.scope);
    var retry := Max(first.retry, second.retry);
    if retry > 0 then (clean, RateLimited(retry))
    else if Total(clean) + New(first.present) + New(second.present) > ROW_LIMIT then (clean, Busy)
    else (Consumed(Consumed(clean, Source(source), first, at.first), Scope(scope), second, at.second), Admitted)
  }

  function Clear(db: Tables, login: Id): Tables {
    db.(logins := db.logins - {login})
  }

  // The tables changed row by row

  /** The readings of one cleanup, row by row. */
  datatype Clocks = Clocks(attempts: Key -> int, logins: Id -> int)
  {
    ghost predicate Within(from: int, to: int) {
      && from <= to
      && (forall k :: from <= attempts(k) <= to)
      && (forall l :: from <= logins(l) <= to)
    }
  }

  function LapsedCounters(attempts: map<Key, Counter>, clock: Key -> int): set<Key> {
    set k | k in attempts && CounterLapsed(attempts[k], clock(k))
  }

  function LapsedLogins(logins: map<Id, Login>, clock: Id -> int): set<Id> {
    set l | l in logins && LoginLapsed(logins[l], clock(l))
  }

  ghost predicate EarliestCounters(attempts: map<Key, Counter>, gone: set<Key>, clock: Key -> int)
    requires gone <= attempts.Keys
  {
    forall k, g :: k in LapsedCounters(attempts, clock) && k !in gone && g in gone ==>
      attempts[g].expires <= attempts[k].expires
  }

  ghost predicate EarliestLogins(logins: map<Id, Login>, gone: set<Id>, clock: Id -> int)
    requires gone <= logins.Keys
  {
    forall l, g :: l in LapsedLogins(logins, clock) && l !in gone && g in gone ==>
      NoLater(logins[g].window, logins[l].window)
  }

  lemma {:induction false} EarliestCounter(attempts: map<Key, Counter>, keys: set<Key>)
    requires keys != {} && keys <= attempts.Keys
    ensures exists k :: k in keys && forall other :: other in keys ==> attempts[k].expires <= attempts[other].expires
    decreases |keys|
  {
    var x :| x in keys;
    if keys != {x} {
      EarliestCounter(attempts, keys - {x});
      var y :| y in keys - {x} && forall other :: other in keys - {x} ==> attempts[y].expires <= attempts[other].expires;
      var least := if attempts[x].expires <= attempts[y].expires then x else y;
      assert least in keys && forall other :: other in keys ==> attempts[least].expires <= attempts[other].expires;
    }
  }

  lemma {:induction false} EarliestLogin(logins: map<Id, Login>, ids: set<Id>)
    requires ids != {} && ids <= logins.Keys
    ensures exists l :: l in ids && forall other :: other in ids ==> NoLater(logins[l].window, logins[other].window)
    decreases |ids|
  {
    var x :| x in ids;
    if ids != {x} {
      EarliestLogin(logins, ids - {x});
      var y :| y in ids - {x} && forall other :: other in ids - {x} ==> NoLater(logins[y].window, logins[other].window);
      var least := if NoLater(logins[x].window, logins[y].window) then x else y;
      assert least in ids && forall other :: other in ids ==> NoLater(logins[least].window, logins[other].window);
    }
  }

  lemma NextCounter(attempts: map<Key, Counter>, gone: set<Key>, key: Key, clock: Key -> int)
    requires gone <= attempts.Keys && EarliestCounters(attempts, gone, clock)
    requires key in LapsedCounters(attempts - gone, clock)
    requires forall other :: other in LapsedCounters(attempts - gone, clock) ==>
      attempts[key].expires <= attempts[other].expires
    ensures EarliestCounters(attempts, gone + {key}, clock)
  {
    forall k, g | k in LapsedCounters(attempts, clock) && k !in gone + {key} && g in gone + {key}
      ensures attempts[g].expires <= attempts[k].expires
    {
      assert k in LapsedCounters(attempts - gone, clock);
    }
  }

  lemma NextLogin(logins: map<Id, Login>, gone: set<Id>, login: Id, clock: Id -> int)
    requires gone <= logins.Keys && EarliestLogins(logins, gone, clock)
    requires login in LapsedLogins(logins - gone, clock)
    requires forall other :: other in LapsedLogins(logins - gone, clock) ==>
      NoLater(logins[login].window, logins[other].window)
    ensures EarliestLogins(logins, gone + {login}, clock)
  {
    forall l, g | l in LapsedLogins(logins, clock) && l !in gone + {login} && g in gone + {login}
      ensures NoLater(logins[g].window, logins[l].window)
    {
      assert l in LapsedLogins(logins - gone, clock);
    }
  }

  lemma CleanedInOrder(db: Tables, gone: Gone, clocks: Clocks, from: int, to: int)
    requires clocks.Within(from, to)
    requires gone.attempts <= db.attempts.Keys && gone.logins <= db.logins.Keys
    requires |gone.attempts| <= CLEANUP_LIMIT && |gone.logins| <= CLEANUP_LIMIT - |gone.attempts|
    requires forall k :: k in gone.attempts ==> CounterLapsed(db.attempts[k], clocks.attempts(k))
    requires forall l :: l in gone.logins ==> LoginLapsed(db.logins[l], clocks.logins(l))
    requires |gone.attempts| < CLEANUP_LIMIT ==> LapsedCounters(db.attempts - gone.attempts, clocks.attempts) == {}
    requires |gone.attempts| + |gone.logins| < CLEANUP_LIMIT ==> LapsedLogins(db.logins - gone.logins, clocks.logins) == {}
    requires EarliestCounters(db.attempts, gone.attempts, clocks.attempts)
    requires EarliestLogins(db.logins, gone.logins, clocks.logins)
    ensures CleanupAllowed(db, gone, from, to)
  {
    forall k | k in db.attempts && k !in gone.attempts && CounterLapsed(db.attempts[k], from)
      ensures |gone.attempts| == CLEANUP_LIMIT
      ensures forall g :: g in gone.attempts ==> db.attempts[g].expires <= db.attempts[k].expires
    {
      assert k in LapsedCounters(db.attempts - gone.attempts, clocks.attempts);
      assert k in LapsedCounters(db.attempts, clocks.attempts);
    }
    forall l | l in db.logins && l !in gone.logins && LoginLapsed(db.logins[l], from)
      ensures |gone.attempts| + |gone.logins| == CLEANUP_LIMIT
      ensures forall g :: g in gone.logins ==> NoLater(db.logins[g].window, db.logins[l].window)
    {
      assert l in LapsedLogins(db.logins - gone.logins, clocks.logins);
      assert l in LapsedLogins(db.logins, clocks.logins);
    }
  }

  class LimiterStore {
    var attempts: map<Key, Counter>
    var logins: map<Id, Login>

    function View(): Tables
      reads this
    {
      Tables(attempts, logins)
    }

    constructor ()
      ensures View() == Tables(map[], map[])
    {
      attempts, logins := map[], map[];
    }

    /** Lapsed counters, the earliest first, up to the limit. */
    method CleanupAttempts(clock: Key -> int) returns (removed: int, ghost gone: set<Key>)
      modifies this`attempts
      ensures removed == |gone| <= CLEANUP_LIMIT && gone <= old(attempts).Keys && attempts == old(attempts) - gone
      ensures forall k :: k in gone ==> CounterLapsed(old(attempts)[k], clock(k))
      ensures removed < CLEANUP_LIMIT ==> LapsedCounters(attempts, clock) == {}
      ensures EarliestCounters(old(attempts), gone, clock)
    {
      removed, gone := 0, {};
      assert attempts - gone == attempts;
      while removed < CLEANUP_LIMIT && LapsedCounters(attempts, clock) != {}
        invariant removed == |gone| <= CLEANUP_LIMIT
        invariant gone <= old(attempts).Keys && attempts == old(attempts) - gone
        invariant forall k :: k in gone ==> CounterLapsed(old(attempts)[k], clock(k))
        invariant EarliestCounters(old(attempts), gone, clock)
        decreases CLEANUP_LIMIT - removed
      {
        EarliestCounter(attempts, LapsedCounters(attempts, clock));
        var k :| k in LapsedCounters(attempts, clock)
          && forall other :: other in LapsedCounters(attempts, clock) ==> attempts[k].expires <= attempts[other].expires;
        NextCounter(old(attempts), gone, k, clock);
        attempts := attempts - {k};
        gone := gone + {k};
        removed := removed + 1;
      }
    }

    /** Lapsed logins, those without a window first and then the earliest, up to what is left of the limit. */
    method CleanupLogins(clock: Id -> int, limit: int) returns (ghost gone: set<Id>)
      requires limit >= 0
      modifies this`logins
      ensures |gone| <= limit && gone <= old(logins).Keys && logins == old(logins) - gone
      ensures forall l :: l in gone ==> LoginLapsed(old(logins)[l], clock(l))
      ensures |gone| < limit ==> LapsedLogins(logins, clock) == {}
      ensures EarliestLogins(old(logins), gone, clock)
    {
      gone := {};
      var removed := 0;
      assert logins - gone == logins;
      while removed < limit && LapsedLogins(logins, clock) != {}
        invariant removed == |gone| <= limit
        invariant gone <= old(logins).Keys && logins == old(logins) - gone
        invariant forall l :: l in gone ==> LoginLapsed(old(logins)[l], clock(l))
        invariant EarliestLogins(old(logins), gone, clock)
        decreases limit - removed
      {
        EarliestLogin(logins, LapsedLogins(logins, clock));
        var l :| l in LapsedLogins(logins, clock)
          && forall other :: other in LapsedLogins(logins, clock) ==> NoLater(logins[l].window, logins[other].window);
        NextLogin(old(logins), gone, l, clock);
        logins := logins - {l};
        gone := gone + {l};
        removed := removed + 1;
      }
    }

    /** At most 128 lapsed rows over both tables. */
    method Cleanup(clocks: Clocks, from: int, to: int) returns (ghost gone: Gone)
      requires clocks.Within(from, to)
      modifies this
      ensures CleanupAllowed(old(View()), gone, from, to) && View() == Cleaned(old(View()), gone)
    {
      var removed, a := CleanupAttempts(clocks.attempts);
      ghost var l := CleanupLogins(clocks.logins, CLEANUP_LIMIT - removed);
      gone := Gone(a, l);
      CleanedInOrder(old(View()), gone, clocks, from, to);
    }

    method Consume(key: Key, look: Look, now: int)
      modifies this`attempts
      ensures key in attempts && attempts == old(attempts)[key := attempts[key]]
      ensures attempts[key].count == if key in old(attempts) then look.count + 1 else 1
      ensures attempts[key].expires ==
        if key !in old(attempts) || look.count == 0 then now + key.Window() else old(attempts)[key].expires
      ensures View() == Consumed(old(View()), key, look, now)
    {
      var count := look.count + 1;
      if key !in attempts {
        attempts := attempts[key := Counter(1, now + key.Window())];
      } else {
        var expires := attempts[key].expires;
        if count == 1 {
          expires := now + key.Window();
        }
        attempts := attempts[key := Counter(count, expires)];
      }
    }

    method ClaimPasswordRow(login: Id, source: Id, token: Id, lease: int, clocks: Clocks, at: ClaimReads)
      returns (r: Outcome, ghost gone: Gone)
      requires clocks.Within(at.from, at.cleanup)
      modifies this
      ensures CleanupAllowed(old(View()), gone, at.from, at.cleanup)
      ensures (View(), r) == ClaimPassword(old(View()), login, source, token, lease, at, gone)
    {
      var before := View();
      gone := Cleanup(clocks, at.from, at.cleanup);
      var look := LookAt(View(), Source(source), at.source);
      var retry := Max(LoginRetry(View(), login, at), look.retry);
      if retry > 0 { return RateLimited(retry), gone; }
      if ClaimBusy(View(), login, at) { return Busy, gone; }
      if Total(View()) + New(look.present) + New(login in logins) > ROW_LIMIT { return Busy, gone; }
      var row := ClaimedRow(View(), login, token, lease, at);
      Consume(Source(source), look, at.consume);
      if !Storable(row) {
        attempts, logins := before.attempts, before.logins;
        return Failed, gone;
      }
      logins := logins[login := row];
      r := Admitted;
    }

    method SettlePasswordRow(login: Id, token: Id, verdict: Verdict, at: SettleReads) returns (r: Settlement)
      modifies this`logins
      ensures r == NotOwned <==> !Owned(old(View()), login, token, at.owned)
      ensures r == NotOwned || r == Stale ==> logins == old(logins)
      ensures r == Succeeded ==> verdict == Verified(true) && logins == old(logins) - {login}
      ensures r == Released || r == Counted ==>
        login in old(logins) && login in logins && logins == old(logins)[login := logins[login]] && logins[login].claim.None?
      ensures r == Released ==>
        && verdict == Undecided
        && logins[login].failures == old(logins)[login].failures && logins[login].window == old(logins)[login].window
      ensures r == Counted ==>
        && verdict == WrongPassword
        && Rejects(old(logins)[login], logins[login], at)
      ensures (View(), r) == SettlePassword(old(View()), login, token, verdict, at)
    {
      if !Owned(View(), login, token, at.owned) { return NotOwned; }
      match verdict
      case Verified(current) =>
        if !current { return Stale; }
        logins := logins - {login};
        r := Succeeded;
      case WrongPassword =>
        logins := logins[login := CountedRow(logins[login], at)];
        r := Counted;
      case Undecided =>
        logins := logins[login := logins[login].(claim := None)];
        r := Released;
    }

    method ReserveRows(source: Id, scope: Id, clocks: Clocks, at: ReserveReads) returns (r: Outcome, ghost gone: Gone)
      requires clocks.Within(at.from, at.cleanup)
      modifies this
      ensures CleanupAllowed(old(View()), gone, at.from, at.cleanup)
      ensures (View(), r) == Reserve(old(View()), source, scope, at, gone)
    {
      gone := Cleanup(clocks, at.from, at.cleanup);
      var first, second := LookAt(View(), Source(source), at.source), LookAt(View(), Scope(scope), at.scope);
      var retry := Max(first.retry, second.retry);
      if retry > 0 { return RateLimited(retry), gone; }
      if Total(View()) + New(first.present) + New(second.present) > ROW_LIMIT { return Busy, gone; }
      Consume(Source(source), first, at.first);
      Consume(Scope(scope), second, at.second);
      r := Admitted;
    }
  }

  // When a claim fails

  predicate InOrder(at: ClaimReads) {
    && at.from <= at.cleanup <= at.source.count <= at.source.test <= at.source.left
    && at.source.left <= at.retry <= at.left <= at.busy <= at.consume <= at.lease <= at.failures <= at.window
  }

  /**
    A claim that passed every check is lost exactly when its login's window runs out between the two readings that decide
    whether to keep the failures and whether to keep the window.
  */
  lemma ClaimFailsExactlyWhenStraddled(
    db: Tables, login: Id, source: Id, token: Id, lease: int, at: ClaimReads, gone: Gone)
    requires InOrder(at) && OnlyLapsed(db, gone, at.cleanup)
    requires forall l :: l in db.logins ==> Storable(db.logins[l])
    requires var r := ClaimPassword(db, login, source, token, lease, at, gone).1; r == Admitted || r == Failed
    ensures ClaimPassword(db, login, source, token, lease, at, gone).1 == Failed
      <==> login in db.logins && db.logins[login].window.Some? && at.failures < db.logins[login].window.value <= at.window
    ensures ClaimPassword(db, login, source, token, lease, at, gone).1 == Failed ==>
      ClaimPassword(db, login, source, token, lease, at, gone).0 == db
  {
    if login in gone.logins {
      assert LoginLapsed(db.logins[login], at.cleanup);
    }
  }

  /** Such a claim exists: a window that ends while the row is being written. */
  lemma ClaimCanFail()
    ensures
      var db := Tables(map[], map[0 := Login(1, Some(10), None)]);
      var at := ClaimReads(1, 1, LookReads(2, 3, 4), 5, 6, 7, 8, 8, 9, 10);
      InOrder(at) && ClaimPassword(db, 0, 0, 7, LONGEST_CLAIM, at, Gone({}, {})) == (db, Failed)
  {
    var db := Tables(map[], map[0 := Login(1, Some(10), None)]);
    assert Cleaned(db, Gone({}, {})) == db;
    assert |db.logins| == 1 by {
      assert db.logins.Keys == {0};
    }
  }
}
