/** Deleting lapsed rows is invisible: a limiter that never deletes any makes the same decisions. */
module LimiterCleanup {
  import opened Common
  import opened Limiter
  import opened LimiterRuns

  datatype Decision = Admission(outcome: Outcome) | Settling(settlement: Settlement) | Cleared

  /** What a step decides and leaves. */
  function Decide(db: Tables, s: Step): (Tables, Decision) {
    match s
    case ClaimStep(login, source, token, lease, at, gone) =>
      var (next, outcome) := ClaimPassword(db, login, source, token, lease, at, gone);
      (next, Admission(outcome))
    case SettleStep(login, token, verdict, at) =>
      var (next, settlement) := SettlePassword(db, login, token, verdict, at);
      (next, Settling(settlement))
    case ReserveStep(source, scope, at, gone) =>
      var (next, outcome) := Reserve(db, source, scope, at, gone);
      (next, Admission(outcome))
    case ClearStep(login) => (Clear(db, login), Cleared)
  }

  const NOTHING: Gone := Gone({}, {})

  /** The same step without its cleanup. */
  function Keeping(s: Step): Step {
    match s
    case ClaimStep(login, source, token, lease, at, _) => ClaimStep(login, source, token, lease, at, NOTHING)
    case ReserveStep(source, scope, at, _) => ReserveStep(source, scope, at, NOTHING)
    case _ => s
  }

  function Starts(s: Step, clock: int): int {
    match s
    case ClaimStep(_, _, _, _, at, _) => at.from
    case SettleStep(_, _, _, at) => at.owned
    case ReserveStep(_, _, at, _) => at.from
    case ClearStep(_) => clock
  }

  function Ends(s: Step, clock: int): int {
    match s
    case ClaimStep(_, _, _, _, at, _) => at.window
    case SettleStep(_, _, _, at) => at.start
    case ReserveStep(_, _, at, _) => at.second
    case ClearStep(_) => clock
  }

  ghost predicate Timely(db: Tables, s: Step, clock: int) {
    && clock <= Starts(s, clock)
    && match s
       case ClaimStep(_, _, _, _, at, gone) => InOrder(at) && CleanupAllowed(db, gone, at.from, at.cleanup)
       case SettleStep(_, _, _, at) => SettleInOrder(at)
       case ReserveStep(_, _, at, gone) => ReserveInOrder(at) && CleanupAllowed(db, gone, at.from, at.cleanup)
       case ClearStep(_) => true
  }

  /** The step finds room for the rows it may add. */
  predicate Roomy(db: Tables, s: Step) {
    match s
    case ClaimStep(login, source, _, _, _, _) =>
      Total(db) + New(Source(source) in db.attempts) + New(login in db.logins) <= ROW_LIMIT
    case ReserveStep(source, scope, _, _) =>
      Total(db) + New(Source(source) in db.attempts) + New(Scope(scope) in db.attempts) <= ROW_LIMIT
    case _ => true
  }

  // The relation

  ghost predicate SameCounters(a: map<Key, Counter>, b: map<Key, Counter>, now: int) {
    && a.Keys <= b.Keys
    && (forall k :: k in b ==> if k in a then a[k] == b[k] else CounterLapsed(b[k], now))
  }

  ghost predicate SameLogins(a: map<Id, Login>, b: map<Id, Login>, now: int) {
    && a.Keys <= b.Keys
    && (forall l :: l in b ==> if l in a then a[l] == b[l] else LoginLapsed(b[l], now))
  }

  /** The same rows, but for lapsed ones that only `b` still has. */
  ghost predicate Same(a: Tables, b: Tables, now: int) {
    SameCounters(a.attempts, b.attempts, now) && SameLogins(a.logins, b.logins, now)
  }

  lemma SameLater(a: Tables, b: Tables, now: int, later: int)
    requires Same(a, b, now) && now <= later
    ensures Same(a, b, later)
  {
  }

  lemma SameCleaned(a: Tables, b: Tables, gone: Gone, now: int)
    requires Same(a, b, now) && OnlyLapsed(a, gone, now)
    ensures Same(Cleaned(a, gone), Cleaned(b, NOTHING), now) && Cleaned(b, NOTHING) == b
  {
    assert Cleaned(b, NOTHING) == b;
  }

  lemma SameLook(a: Tables, b: Tables, now: int, key: Key, at: LookReads)
    requires Same(a, b, now) && now <= at.count <= at.test
    ensures LookAt(a, key, at).retry == LookAt(b, key, at).retry
    ensures LookAt(a, key, at).count == LookAt(b, key, at).count
    ensures LookAt(a, key, at).present == (key in a.attempts) && LookAt(b, key, at).present == (key in b.attempts)
  {
  }

  lemma SameConsumed(a: Tables, b: Tables, now: int, key: Key, at: LookReads, consume: int)
    requires Same(a, b, now) && now <= at.count <= at.test
    ensures Same(Consumed(a, key, LookAt(a, key, at), consume), Consumed(b, key, LookAt(b, key, at), consume), now)
  {
  }

  /** The cleaned tables are never fuller, whatever rows the step adds. */
  lemma NotFuller(a: Tables, b: Tables, now: int, keys: set<Key>, logins: set<Id>)
    requires Same(a, b, now)
    ensures |a.attempts.Keys + keys| + |a.logins.Keys + logins| <= |b.attempts.Keys + keys| + |b.logins.Keys + logins|
  {
    SubsetSize(a.attempts.Keys + keys, b.attempts.Keys + keys);
    SubsetSize(a.logins.Keys + logins, b.logins.Keys + logins);
  }

  lemma SizeWith<T>(s: set<T>, x: T)
    ensures |s + {x}| == |s| + New(x in s)
  {
    if x in s {
      assert s + {x} == s;
    }
  }

  lemma ClaimRoom(a: Tables, b: Tables, now: int, source: Id, login: Id)
    requires Same(a, b, now)
    ensures Total(a) + New(Source(source) in a.attempts) + New(login in a.logins)
      <= Total(b) + New(Source(source) in b.attempts) + New(login in b.logins)
  {
    NotFuller(a, b, now, {Source(source)}, {login});
    SizeWith(a.attempts.Keys, Source(source));
    SizeWith(b.attempts.Keys, Source(source));
    SizeWith(a.logins.Keys, login);
    SizeWith(b.logins.Keys, login);
    assert |a.attempts| == |a.attempts.Keys| && |b.attempts| == |b.attempts.Keys|;
    assert |a.logins| == |a.logins.Keys| && |b.logins| == |b.logins.Keys|;
  }

  lemma SizeWithBoth<T>(s: set<T>, x: T, y: T)
    requires x != y
    ensures |s + {x, y}| == |s| + New(x in s) + New(y in s)
  {
    SizeWith(s, x);
    SizeWith(s + {x}, y);
    assert s + {x} + {y} == s + {x, y};
  }

  lemma ReserveRoom(a: Tables, b: Tables, now: int, source: Id, scope: Id)
    requires Same(a, b, now)
    ensures Total(a) + New(Source(source) in a.attempts) + New(Scope(scope) in a.attempts)
      <= Total(b) + New(Source(source) in b.attempts) + New(Scope(scope) in b.attempts)
  {
    NotFuller(a, b, now, {Source(source), Scope(scope)}, {});
    SizeWithBoth(a.attempts.Keys, Source(source), Scope(scope));
    SizeWithBoth(b.attempts.Keys, Source(source), Scope(scope));
    assert a.logins.Keys + {} == a.logins.Keys && b.logins.Keys + {} == b.logins.Keys;
    assert |a.attempts| == |a.attempts.Keys| && |b.attempts| == |b.attempts.Keys|;
    assert |a.logins| == |a.logins.Keys| && |b.logins| == |b.logins.Keys|;
  }

  // The steps

  lemma SameLoginDecisions(a: Tables, b: Tables, now: int, login: Id, token: Id, lease: int, at: ClaimReads)
    requires Same(a, b, now) && now <= at.cleanup && InOrder(at)
    ensures LoginRetry(a, login, at) == LoginRetry(b, login, at)
    ensures ClaimBusy(a, login, at) == ClaimBusy(b, login, at)
    ensures ClaimedRow(a, login, token, lease, at) == ClaimedRow(b, login, token, lease, at)
  {
  }

  lemma SameClaim(a: Tables, b: Tables, clock: int, s: Step)
    requires Same(a, b, clock) && s.ClaimStep? && Timely(a, s, clock) && Roomy(b, s)
    ensures Decide(a, s).1 == Decide(b, Keeping(s)).1
    ensures Same(Decide(a, s).0, Decide(b, Keeping(s)).0, Ends(s, clock))
  {
    SameAdmission(a, b, clock, s);
    SameLater(a, b, clock, s.claimAt.cleanup);
    SameClaimTables(a, b, s);
  }

  lemma SameClaimTables(a: Tables, b: Tables, s: Step)
    requires s.ClaimStep? && Same(a, b, s.claimAt.cleanup) && OnlyLapsed(a, s.gone, s.claimAt.cleanup) && InOrder(s.claimAt)
    requires Decide(a, s).1 == Decide(b, Keeping(s)).1
    ensures Same(Decide(a, s).0, Decide(b, Keeping(s)).0, s.claimAt.window)
  {
    var at, clean, outcome := s.claimAt, Cleaned(a, s.gone), Decide(a, s).1.outcome;
    SameCleaned(a, b, s.gone, at.cleanup);
    ClaimLeaves(a, s.login, s.source, s.token, s.lease, at, s.gone);
    ClaimLeaves(b, s.login, s.source, s.token, s.lease, at, NOTHING);
    if outcome == Admitted {
      SameLoginDecisions(clean, b, at.cleanup, s.login, s.token, s.lease, at);
      SameClaimed(clean, b, at.cleanup, s.login, s.source, at, ClaimedRow(clean, s.login, s.token, s.lease, at));
    } else if outcome == Failed {
      SameLater(a, b, at.cleanup, at.window);
    } else {
      SameLater(clean, b, at.cleanup, at.window);
    }
  }

  /** The tables a claim leaves, by its outcome. */
  lemma ClaimLeaves(db: Tables, login: Id, source: Id, token: Id, lease: int, at: ClaimReads, gone: Gone)
    ensures
      var (next, outcome) := ClaimPassword(db, login, source, token, lease, at, gone);
      var clean := Cleaned(db, gone);
      next ==
        if outcome == Failed then db
        else if outcome == Admitted then
          ClaimedTables(clean, login, source, at, ClaimedRow(clean, login, token, lease, at))
        else clean
  {
  }

  function ClaimedTables(db: Tables, login: Id, source: Id, at: ClaimReads, row: Login): Tables {
    var counted := Consumed(db, Source(source), LookAt(db, Source(source), at.source), at.consume);
    counted.(logins := counted.logins[login := row])
  }

  lemma SameAdmission(a: Tables, b: Tables, clock: int, s: Step)
    requires Same(a, b, clock) && s.ClaimStep? && Timely(a, s, clock) && Roomy(b, s)
    ensures Decide(a, s).1 == Decide(b, Keeping(s)).1
  {
    var at, clean := s.claimAt, Cleaned(a, s.gone);
    SameLater(a, b, clock, at.cleanup);
    SameCleaned(a, b, s.gone, at.cleanup);
    SameLook(clean, b, at.cleanup, Source(s.source), at.source);
    SameLoginDecisions(clean, b, at.cleanup, s.login, s.token, s.lease, at);
    ClaimRoom(clean, b, at.cleanup, s.source, s.login);
  }

  lemma SameClaimed(a: Tables, b: Tables, now: int, login: Id, source: Id, at: ClaimReads, row: Login)
    requires Same(a, b, now) && now <= at.cleanup && InOrder(at)
    ensures Same(ClaimedTables(a, login, source, at, row), ClaimedTables(b, login, source, at, row), at.window)
  {
    SameConsumed(a, b, now, Source(source), at.source, at.consume);
    SameLater(Consumed(a, Source(source), LookAt(a, Source(source), at.source), at.consume),
              Consumed(b, Source(source), LookAt(b, Source(source), at.source), at.consume), now, at.window);
  }

  lemma SameSettle(a: Tables, b: Tables, clock: int, s: Step)
    requires Same(a, b, clock) && s.SettleStep? && Timely(a, s, clock)
    ensures Decide(a, s).1 == Decide(b, s).1
    ensures Same(Decide(a, s).0, Decide(b, s).0, Ends(s, clock))
  {
  }

  lemma SameReserve(a: Tables, b: Tables, clock: int, s: Step)
    requires Same(a, b, clock) && s.ReserveStep? && Timely(a, s, clock) && Roomy(b, s)
    ensures Decide(a, s).1 == Decide(b, Keeping(s)).1
    ensures Same(Decide(a, s).0, Decide(b, Keeping(s)).0, Ends(s, clock))
  {
    SameReservation(a, b, clock, s);
    SameLater(a, b, clock, s.reserveAt.cleanup);
    SameReserved(a, b, s.source, s.scope, s.reserveAt, s.gone);
  }

  lemma SameReserved(a: Tables, b: Tables, source: Id, scope: Id, at: ReserveReads, gone: Gone)
    requires Same(a, b, at.cleanup) && OnlyLapsed(a, gone, at.cleanup) && ReserveInOrder(at)
    requires Reserve(a, source, scope, at, gone).1 == Reserve(b, source, scope, at, NOTHING).1
    ensures Same(Reserve(a, source, scope, at, gone).0, Reserve(b, source, scope, at, NOTHING).0, at.second)
  {
    SameCleaned(a, b, gone, at.cleanup);
    if Reserve(a, source, scope, at, gone).1 == Admitted {
      BothConsumed(Cleaned(a, gone), b, at.cleanup, source, scope, at);
    } else {
      SameLater(Cleaned(a, gone), b, at.cleanup, at.second);
    }
  }

  lemma SameReservation(a: Tables, b: Tables, clock: int, s: Step)
    requires Same(a, b, clock) && s.ReserveStep? && Timely(a, s, clock) && Roomy(b, s)
    ensures Decide(a, s).1 == Decide(b, Keeping(s)).1
  {
    var at, clean := s.reserveAt, Cleaned(a, s.gone);
    SameLater(a, b, clock, at.cleanup);
    SameCleaned(a, b, s.gone, at.cleanup);
    SameLook(clean, b, at.cleanup, Source(s.source), at.source);
    SameLook(clean, b, at.cleanup, Scope(s.scope), at.scope);
    ReserveRoom(clean, b, at.cleanup, s.source, s.scope);
  }

  lemma BothConsumed(a: Tables, b: Tables, now: int, source: Id, scope: Id, at: ReserveReads)
    requires Same(a, b, now) && now <= at.cleanup && ReserveInOrder(at)
    ensures
      var first, second := LookAt(a, Source(source), at.source), LookAt(a, Scope(scope), at.scope);
      var third, fourth := LookAt(b, Source(source), at.source), LookAt(b, Scope(scope), at.scope);
      Same(Consumed(Consumed(a, Source(source), first, at.first), Scope(scope), second, at.second),
           Consumed(Consumed(b, Source(source), third, at.first), Scope(scope), fourth, at.second), at.second)
  {
    SameConsumed(a, b, now, Source(source), at.source, at.first);
    var c := Consumed(a, Source(source), LookAt(a, Source(source), at.source), at.first);
    var d := Consumed(b, Source(source), LookAt(b, Source(source), at.source), at.first);
    LookElsewhere(a, Source(source), LookAt(a, Source(source), at.source), at.first, Scope(scope), at.scope);
    LookElsewhere(b, Source(source), LookAt(b, Source(source), at.source), at.first, Scope(scope), at.scope);
    SameConsumed(c, d, now, Scope(scope), at.scope, at.second);
    SameLater(Consumed(c, Scope(scope), LookAt(c, Scope(scope), at.scope), at.second),
              Consumed(d, Scope(scope), LookAt(d, Scope(scope), at.scope), at.second), now, at.second);
  }

  lemma SameStep(a: Tables, b: Tables, clock: int, s: Step)
    requires Same(a, b, clock) && Timely(a, s, clock) && Roomy(b, s)
    ensures Decide(a, s).1 == Decide(b, Keeping(s)).1
    ensures Same(Decide(a, s).0, Decide(b, Keeping(s)).0, Ends(s, clock))
  {
    match s
    case ClaimStep(_, _, _, _, _, _) => SameClaim(a, b, clock, s);
    case SettleStep(_, _, _, _) => SameSettle(a, b, clock, s);
    case ReserveStep(_, _, _, _) => SameReserve(a, b, clock, s);
    case ClearStep(_) =>
  }

  // Runs

  function Decisions(db: Tables, steps: seq<Step>): seq<Decision>
    decreases |steps|
  {
    if steps == [] then []
    else
      var (next, decision) := Decide(db, steps[0]);
      [decision] + Decisions(next, steps[1..])
  }

  ghost predicate AllTimely(db: Tables, steps: seq<Step>, clock: int)
    decreases |steps|
  {
    steps != [] ==> Timely(db, steps[0], clock) && AllTimely(Decide(db, steps[0]).0, steps[1..], Ends(steps[0], clock))
  }

  predicate AllRoomy(db: Tables, steps: seq<Step>)
    decreases |steps|
  {
    steps != [] ==> Roomy(db, steps[0]) && AllRoomy(Decide(db, Keeping(steps[0])).0, steps[1..])
  }

  function AllKeeping(steps: seq<Step>): (r: seq<Step>)
    ensures |r| == |steps|
  {
    if steps == [] then [] else [Keeping(steps[0])] + AllKeeping(steps[1..])
  }

  /**
    As long as the tables that are never cleaned have room, every admission, refusal, retry time and settlement is the same
    with cleanup and without.
  */
  lemma {:induction false} CleanupIsInvisible(a: Tables, b: Tables, steps: seq<Step>, clock: int)
    requires Same(a, b, clock) && AllTimely(a, steps, clock) && AllRoomy(b, steps)
    ensures Decisions(a, steps) == Decisions(b, AllKeeping(steps))
    decreases |steps|
  {
    if steps != [] {
      SameStep(a, b, clock, steps[0]);
      CleanupIsInvisible(Decide(a, steps[0]).0, Decide(b, Keeping(steps[0])).0, steps[1..], Ends(steps[0], clock));
      assert AllKeeping(steps)[1..] == AllKeeping(steps[1..]);
    }
  }
}
