/** What the limiter keeps in every run, and how many wrong passwords it lets through in any stretch of time. */
module LimiterRuns {
  import opened Common
  import opened Limiter

  /** One counted rejection: when, the first rejection and the end of its window, and its number in the window. */
  datatype Hit = Hit(at: int, started: int, until: int, nth: int)

  /**
    `hits` are the rejections counted against each login since its last success or credential change, `settled` the tokens
    of all settlements that changed anything.
  */
  datatype World = World(db: Tables, clock: int, used: set<Id>, hits: map<Id, seq<Hit>>, settled: seq<Id>)

  datatype Step =
    | ClaimStep(login: Id, source: Id, token: Id, lease: int, claimAt: ClaimReads, gone: Gone)
    | SettleStep(login: Id, token: Id, verdict: Verdict, settleAt: SettleReads)
    | ReserveStep(source: Id, scope: Id, reserveAt: ReserveReads, gone: Gone)
    | ClearStep(login: Id)

  function HitsOf(hits: map<Id, seq<Hit>>, login: Id): seq<Hit> {
    if login in hits then hits[login] else []
  }

  predicate SettleInOrder(at: SettleReads) {
    at.owned <= at.failures <= at.window <= at.start
  }

  predicate ReserveInOrder(at: ReserveReads) {
    && at.from <= at.cleanup <= at.source.count <= at.source.test <= at.source.left
    && at.source.left <= at.scope.count <= at.scope.test <= at.scope.left <= at.first <= at.second
  }

  ghost predicate Possible(w: World, s: Step) {
    match s
    case ClaimStep(login, source, token, lease, at, gone) =>
      && w.clock <= at.from && InOrder(at) && CleanupAllowed(w.db, gone, at.from, at.cleanup)
      && token !in w.used && 0 <= lease <= LONGEST_CLAIM
    case SettleStep(login, token, verdict, at) => w.clock <= at.owned && SettleInOrder(at)
    case ReserveStep(source, scope, at, gone) =>
      w.clock <= at.from && ReserveInOrder(at) && CleanupAllowed(w.db, gone, at.from, at.cleanup)
    case ClearStep(login) => true
  }

  function NextHit(row: Login, hits: seq<Hit>, at: SettleReads): Hit {
    var after := CountedRow(row, at);
    Hit(
      at.window,
      if row.window.Some? && row.window.value > at.window && hits != [] then hits[|hits| - 1].started else at.window,
      after.window.value, after.failures)
  }

  predicate Settles(r: Settlement) { r == Succeeded || r == Counted || r == Released }

  function AfterSettle(w: World, login: Id, token: Id, verdict: Verdict, at: SettleReads): World {
    var (db, r) := SettlePassword(w.db, login, token, verdict, at);
    var hits := HitsOf(w.hits, login);
    w.(db := db, clock := at.start, settled := w.settled + (if Settles(r) then [token] else []), hits :=
      if r == Succeeded then w.hits - {login}
      else if r == Counted && login in w.db.logins then w.hits[login := hits + [NextHit(w.db.logins[login], hits, at)]]
      else w.hits)
  }

  ghost function After(w: World, s: Step): World {
    if !Possible(w, s) then w
    else match s
      case ClaimStep(login, source, token, lease, at, gone) =>
        w.(db := ClaimPassword(w.db, login, source, token, lease, at, gone).0, clock := at.window, used := w.used + {token})
      case SettleStep(login, token, verdict, at) => AfterSettle(w, login, token, verdict, at)
      case ReserveStep(source, scope, at, gone) =>
        w.(db := Reserve(w.db, source, scope, at, gone).0, clock := at.second)
      case ClearStep(login) => w.(db := Clear(w.db, login), hits := w.hits - {login})
  }

  ghost function Run(w: World, steps: seq<Step>): World
    decreases |steps|
  {
    if steps == [] then w else Run(After(w, steps[0]), steps[1..])
  }

  ghost predicate Initial(w: World) {
    w.db == Tables(map[], map[]) && w.hits == map[] && w.settled == []
  }

  // The invariant

  /** A claim leaves room for one more failure. */
  ghost predicate LoginFits(row: Login, used: set<Id>, clock: int) {
    && Storable(row)
    && (row.claim.Some? ==>
          && row.failures < FAILURE_LIMIT
          && row.claim.value.token in used
          && row.claim.value.until <= clock + LONGEST_CLAIM)
  }

  predicate CounterFits(key: Key, row: Counter, clock: int) {
    row.count >= 1 && (row.expires > clock ==> row.count <= key.Limit())
  }

  /** Each rejection continues the window of the one before, or opens a new window after that one has ended. */
  predicate Follows(a: Hit, b: Hit) {
    || (b.started == a.started && b.until == a.until && b.nth == a.nth + 1 && a.at <= b.at < b.until)
    || (b.started == b.at >= a.until)
  }

  predicate HitFits(h: Hit) {
    h.started <= h.at < h.until && h.started + FAILURE_WINDOW <= h.until && 1 <= h.nth <= FAILURE_LIMIT
  }

  predicate Chain(hits: seq<Hit>) {
    && (forall i :: 0 <= i < |hits| ==> HitFits(hits[i]))
    && (forall i :: 0 < i < |hits| ==> Follows(hits[i - 1], hits[i]))
  }

  /** The row remembers the last window as long as it lasts, and no other. */
  predicate Remembers(logins: map<Id, Login>, login: Id, hits: seq<Hit>, clock: int) {
    && (hits != [] && clock < hits[|hits| - 1].until ==> login in logins && logins[login].window.Some?)
    && (login in logins && logins[login].window.Some? ==>
          hits != [] && logins[login].window.value == hits[|hits| - 1].until
          && logins[login].failures == hits[|hits| - 1].nth)
    && (hits != [] ==> hits[|hits| - 1].at <= clock)
  }

  ghost predicate LoginsFit(logins: map<Id, Login>, used: set<Id>, clock: int) {
    forall l :: l in logins ==> LoginFits(logins[l], used, clock)
  }

  ghost predicate CountersFit(attempts: map<Key, Counter>, clock: int) {
    forall k :: k in attempts ==> CounterFits(k, attempts[k], clock)
  }

  ghost predicate HitsFit(logins: map<Id, Login>, hits: map<Id, seq<Hit>>, clock: int) {
    forall l {:trigger HitsOf(hits, l)} :: Chain(HitsOf(hits, l)) && Remembers(logins, l, HitsOf(hits, l), clock)
  }

  ghost predicate Inv(w: World) {
    && LoginsFit(w.db.logins, w.used, w.clock)
    && CountersFit(w.db.attempts, w.clock)
    && HitsFit(w.db.logins, w.hits, w.clock)
    && Total(w.db) <= ROW_LIMIT
  }

  lemma CleanedSmaller(db: Tables, gone: Gone, now: int)
    requires OnlyLapsed(db, gone, now)
    ensures Total(Cleaned(db, gone)) <= Total(db)
  {
    assert Cleaned(db, gone).attempts.Keys == db.attempts.Keys - gone.attempts;
    assert Cleaned(db, gone).logins.Keys == db.logins.Keys - gone.logins;
  }

  lemma CleanedFits(w: World, gone: Gone, cleanup: int, now: int)
    requires Inv(w) && OnlyLapsed(w.db, gone, cleanup) && w.clock <= cleanup <= now
    ensures
      var clean := Cleaned(w.db, gone);
      && LoginsFit(clean.logins, w.used, now) && CountersFit(clean.attempts, now)
      && HitsFit(clean.logins, w.hits, now) && Total(clean) <= ROW_LIMIT
  {
    CleanedSmaller(w.db, gone, cleanup);
    var clean := Cleaned(w.db, gone);
    forall l ensures Chain(HitsOf(w.hits, l)) && Remembers(clean.logins, l, HitsOf(w.hits, l), now) {
      assert Remembers(w.db.logins, l, HitsOf(w.hits, l), w.clock);
      if l in gone.logins {
        assert LoginLapsed(w.db.logins[l], cleanup);
      }
    }
  }

  lemma ConsumedFits(db: Tables, key: Key, at: LookReads, consume: int, now: int)
    requires CountersFit(db.attempts, now) && LookAt(db, key, at).retry <= 0
    requires at.count <= at.test <= now && consume <= now
    requires key in db.attempts ==> db.attempts[key].count >= 1
    ensures CountersFit(Consumed(db, key, LookAt(db, key, at), consume).attempts, now)
    ensures Consumed(db, key, LookAt(db, key, at), consume).logins == db.logins
    ensures Total(Consumed(db, key, LookAt(db, key, at), consume)) == Total(db) + New(LookAt(db, key, at).present)
  {
    var next := Consumed(db, key, LookAt(db, key, at), consume);
    assert next.attempts.Keys == db.attempts.Keys + {key};
  }

  /** The invariant of a world put together from its parts. */
  ghost predicate Fits(db: Tables, clock: int, used: set<Id>, hits: map<Id, seq<Hit>>) {
    && LoginsFit(db.logins, used, clock) && CountersFit(db.attempts, clock) && HitsFit(db.logins, hits, clock)
    && Total(db) <= ROW_LIMIT
  }

  lemma FitsLater(db: Tables, clock: int, now: int, used: set<Id>, more: set<Id>, hits: map<Id, seq<Hit>>)
    requires Fits(db, clock, used, hits) && clock <= now && used <= more
    ensures Fits(db, now, more, hits)
  {
    forall l ensures Chain(HitsOf(hits, l)) && Remembers(db.logins, l, HitsOf(hits, l), now) {
      assert Remembers(db.logins, l, HitsOf(hits, l), clock);
    }
  }

  lemma ClaimKeeps(w: World, s: Step)
    requires Inv(w) && Possible(w, s) && s.ClaimStep?
    ensures Inv(After(w, s))
  {
    var at := s.claimAt;
    var (db, outcome) := ClaimPassword(w.db, s.login, s.source, s.token, s.lease, at, s.gone);
    var used := w.used + {s.token};
    assert Fits(db, at.window, used, w.hits) by {
      if outcome == Failed {
        FitsLater(w.db, w.clock, at.window, w.used, used, w.hits);
      } else if outcome == Admitted {
        AdmittedFits(w, s, db);
        AdmittedCounts(w, s, db);
      } else {
        CleanedFits(w, s.gone, at.cleanup, at.window);
        FitsLater(db, at.window, at.window, w.used, used, w.hits);
      }
    }
  }

  lemma AdmittedCounts(w: World, s: Step, db: Tables)
    requires Inv(w) && Possible(w, s) && s.ClaimStep?
    requires (db, Admitted) == ClaimPassword(w.db, s.login, s.source, s.token, s.lease, s.claimAt, s.gone)
    ensures CountersFit(db.attempts, s.claimAt.window)
  {
    var at := s.claimAt;
    CleanedFits(w, s.gone, at.cleanup, at.window);
    ConsumedFits(Cleaned(w.db, s.gone), Source(s.source), at.source, at.consume, at.window);
  }

  lemma AdmittedFits(w: World, s: Step, db: Tables)
    requires Inv(w) && Possible(w, s) && s.ClaimStep?
    requires (db, Admitted) == ClaimPassword(w.db, s.login, s.source, s.token, s.lease, s.claimAt, s.gone)
    ensures LoginsFit(db.logins, w.used + {s.token}, s.claimAt.window)
    ensures HitsFit(db.logins, w.hits, s.claimAt.window)
    ensures Total(db) <= ROW_LIMIT
  {
    var at := s.claimAt;
    var clean := Cleaned(w.db, s.gone);
    CleanedFits(w, s.gone, at.cleanup, at.window);
    var look := LookAt(clean, Source(s.source), at.source);
    var consumed := Consumed(clean, Source(s.source), look, at.consume);
    ConsumedFits(clean, Source(s.source), at.source, at.consume, at.window);
    var row := ClaimedRow(clean, s.login, s.token, s.lease, at);
    assert db.logins == clean.logins[s.login := row];
    assert db.logins.Keys == clean.logins.Keys + {s.login};
    ClaimedLogins(clean.logins, w.hits, w.used, s.login, s.token, s.lease, at, row);
  }

  lemma ClaimedLogins(
    logins: map<Id, Login>, hits: map<Id, seq<Hit>>, used: set<Id>, login: Id, token: Id, lease: int, at: ClaimReads,
    row: Login)
    requires LoginsFit(logins, used, at.window) && HitsFit(logins, hits, at.window) && InOrder(at)
    requires row == ClaimedRow(Tables(map[], logins), login, token, lease, at) && Storable(row)
        && 0 <= lease <= LONGEST_CLAIM
    requires LoginRetry(Tables(map[], logins), login, at) <= 0
    ensures LoginsFit(logins[login := row], used + {token}, at.window)
    ensures HitsFit(logins[login := row], hits, at.window)
  {
    forall l ensures Chain(HitsOf(hits, l)) && Remembers(logins[login := row], l, HitsOf(hits, l), at.window) {
      assert Remembers(logins, l, HitsOf(hits, l), at.window);
    }
    var more := logins[login := row];
    forall l | l in more ensures LoginFits(more[l], used + {token}, at.window) {
      if l != login || login in logins {
        assert LoginFits(logins[l], used, at.window);
      }
    }
  }

  lemma CountedFits(row: Login, hits: seq<Hit>, at: SettleReads, clock: int)
    requires Storable(row) && row.failures < FAILURE_LIMIT && clock <= at.owned && SettleInOrder(at)
    requires Chain(hits) && Remembers(map[0 := row], 0, hits, clock)
    ensures Chain(hits + [NextHit(row, hits, at)])
    ensures Remembers(map[0 := CountedRow(row, at)], 0, hits + [NextHit(row, hits, at)], at.start)
    ensures Storable(CountedRow(row, at))
  {
    var next := NextHit(row, hits, at);
    var all := hits + [next];
    if hits != [] {
      var last := hits[|hits| - 1];
      assert HitFits(last);
      if row.window.Some? && row.window.value > at.window {
        assert Follows(last, next);
      } else {
        assert at.window >= last.until;
        assert Follows(last, next);
      }
    }
    assert HitFits(next);
    forall i | 0 < i < |all| ensures Follows(all[i - 1], all[i]) {
      if i < |hits| {
        assert Follows(hits[i - 1], hits[i]);
      }
    }
  }

  lemma SettleKeeps(w: World, s: Step)
    requires Inv(w) && Possible(w, s) && s.SettleStep?
    ensures Inv(After(w, s))
  {
    var at := s.settleAt;
    if !Owned(w.db, s.login, s.token, at.owned) || s.verdict == Verified(false) {
      FitsLater(w.db, w.clock, at.start, w.used, w.used, w.hits);
    } else {
      SettledSize(w.db, s.login, s.token, s.verdict, at);
      SettledLogins(w, s);
      SettledHits(w, s);
    }
  }

  lemma SettledLogins(w: World, s: Step)
    requires Inv(w) && Possible(w, s) && s.SettleStep? && Owned(w.db, s.login, s.token, s.settleAt.owned)
    ensures var next := After(w, s);
      LoginsFit(next.db.logins, next.used, next.clock) && CountersFit(next.db.attempts, next.clock)
  {
    SettledRowFits(w, s);
    var next := After(w, s);
    forall l | l in next.db.logins && l != s.login ensures LoginFits(next.db.logins[l], next.used, next.clock) {
      assert LoginFits(w.db.logins[l], w.used, w.clock);
    }
  }

  lemma SettledHits(w: World, s: Step)
    requires Inv(w) && Possible(w, s) && s.SettleStep? && Owned(w.db, s.login, s.token, s.settleAt.owned)
    ensures var next := After(w, s); HitsFit(next.db.logins, next.hits, next.clock)
  {
    SettledRowFits(w, s);
    var next := After(w, s);
    forall l
      ensures Chain(HitsOf(next.hits, l)) && Remembers(next.db.logins, l, HitsOf(next.hits, l), next.clock)
    {
      assert Chain(HitsOf(w.hits, l)) && Remembers(w.db.logins, l, HitsOf(w.hits, l), w.clock);
    }
  }

  lemma SettledSize(db: Tables, login: Id, token: Id, verdict: Verdict, at: SettleReads)
    ensures Total(SettlePassword(db, login, token, verdict, at).0) <= Total(db)
  {
    var next := SettlePassword(db, login, token, verdict, at).0;
    SubsetSize(next.logins.Keys, db.logins.Keys);
    assert |next.logins| == |next.logins.Keys| && |db.logins| == |db.logins.Keys|;
  }

  lemma SettledRowFits(w: World, s: Step)
    requires Inv(w) && Possible(w, s) && s.SettleStep? && Owned(w.db, s.login, s.token, s.settleAt.owned)
    ensures var next := After(w, s);
      && (s.login in next.db.logins ==> LoginFits(next.db.logins[s.login], w.used, next.clock))
      && Chain(HitsOf(next.hits, s.login))
      && Remembers(next.db.logins, s.login, HitsOf(next.hits, s.login), next.clock)
  {
    var hits := HitsOf(w.hits, s.login);
    assert Chain(hits) && Remembers(w.db.logins, s.login, hits, w.clock);
    assert LoginFits(w.db.logins[s.login], w.used, w.clock);
    if s.verdict == WrongPassword {
      CountedFits(w.db.logins[s.login], hits, s.settleAt, w.clock);
    }
  }

  lemma ReserveKeeps(w: World, s: Step)
    requires Inv(w) && Possible(w, s) && s.ReserveStep?
    ensures Inv(After(w, s))
  {
    var at := s.reserveAt;
    CleanedFits(w, s.gone, at.cleanup, at.second);
    if Reserve(w.db, s.source, s.scope, at, s.gone).1 == Admitted {
      ReservedFits(w.db, s.source, s.scope, at, s.gone);
    }
  }

  /** Counting one key leaves what is found at another. */
  lemma LookElsewhere(db: Tables, key: Key, look: Look, now: int, other: Key, at: LookReads)
    requires other != key
    ensures LookAt(Consumed(db, key, look, now), other, at) == LookAt(db, other, at)
  {
  }

  lemma ReservedFits(db: Tables, source: Id, scope: Id, at: ReserveReads, gone: Gone)
    requires CountersFit(Cleaned(db, gone).attempts, at.second) && ReserveInOrder(at)
    requires Reserve(db, source, scope, at, gone).1 == Admitted
    ensures var next := Reserve(db, source, scope, at, gone).0;
      && CountersFit(next.attempts, at.second) && next.logins == Cleaned(db, gone).logins && Total(next) <= ROW_LIMIT
  {
    var clean := Cleaned(db, gone);
    var look := LookAt(clean, Source(source), at.source);
    ConsumedFits(clean, Source(source), at.source, at.first, at.second);
    var mid := Consumed(clean, Source(source), look, at.first);
    LookElsewhere(clean, Source(source), look, at.first, Scope(scope), at.scope);
    ConsumedFits(mid, Scope(scope), at.scope, at.second, at.second);
  }

  lemma ClearKeeps(w: World, s: Step)
    requires Inv(w) && s.ClearStep?
    ensures Inv(After(w, s))
  {
    var logins := w.db.logins - {s.login};
    SubsetSize(logins.Keys, w.db.logins.Keys);
    assert |logins| == |logins.Keys| && |w.db.logins| == |w.db.logins.Keys|;
    ClearedHits(w.db.logins, w.hits, s.login, w.clock);
  }

  lemma ClearedHits(logins: map<Id, Login>, hits: map<Id, seq<Hit>>, login: Id, clock: int)
    requires HitsFit(logins, hits, clock)
    ensures HitsFit(logins - {login}, hits - {login}, clock)
  {
    forall l
      ensures Chain(HitsOf(hits - {login}, l)) && Remembers(logins - {login}, l, HitsOf(hits - {login}, l), clock)
    {
      assert Chain(HitsOf(hits, l)) && Remembers(logins, l, HitsOf(hits, l), clock);
    }
  }

  lemma StepKeeps(w: World, s: Step)
    requires Inv(w)
    ensures Inv(After(w, s))
  {
    if Possible(w, s) {
      match s
      case ClaimStep(_, _, _, _, _, _) => ClaimKeeps(w, s);
      case SettleStep(_, _, _, _) => SettleKeeps(w, s);
      case ReserveStep(_, _, _, _) => ReserveKeeps(w, s);
      case ClearStep(_) => ClearKeeps(w, s);
    }
  }

  lemma {:induction false} RunKeeps(w: World, steps: seq<Step>)
    requires Inv(w)
    ensures Inv(Run(w, steps))
    decreases |steps|
  {
    if steps != [] {
      StepKeeps(w, steps[0]);
      RunKeeps(After(w, steps[0]), steps[1..]);
    }
  }

  // Theorems

  /** Failures and counters never pass their limits while they matter, and the tables never pass their size. */
  lemma LimitsHold(start: World, steps: seq<Step>)
    requires Initial(start)
    ensures var w := Run(start, steps);
      && (forall l :: l in w.db.logins ==>
            && 0 <= w.db.logins[l].failures <= 5
            && (w.db.logins[l].claim.Some? ==> w.db.logins[l].failures < 5))
      && (forall k :: k in w.db.attempts && w.db.attempts[k].expires > w.clock ==>
            1 <= w.db.attempts[k].count <= match k case Source(_) => 30 case Scope(_) => 5)
      && |w.db.attempts| + |w.db.logins| <= 10_000
  {
    RunKeeps(start, steps);
    var w := Run(start, steps);
    forall l | l in w.db.logins ensures LoginFits(w.db.logins[l], w.used, w.clock) {
    }
  }

  /** No claim is admitted for a login while another one is live when the claim looks. */
  lemma LiveClaimExcludes(db: Tables, login: Id, source: Id, held: Id, token: Id, lease: int, at: ClaimReads, gone: Gone)
    requires InOrder(at) && OnlyLapsed(db, gone, at.cleanup) && Owned(db, login, held, at.busy)
    ensures ClaimPassword(db, login, source, token, lease, at, gone).1 != Admitted
  {
    assert !LoginLapsed(db.logins[login], at.cleanup);
  }

  ghost predicate Dead(db: Tables, token: Id, now: int) {
    forall l :: l in db.logins && db.logins[l].claim.Some? ==>
      db.logins[l].claim.value.token != token || db.logins[l].claim.value.until <= now
  }

  /** The claim of a row was there before, or carries this token. */
  predicate ClaimKnown(before: Tables, after: Tables, l: Id, token: Option<Id>) {
    l in after.logins && after.logins[l].claim.Some? ==>
      || (l in before.logins && before.logins[l].claim == after.logins[l].claim)
      || token == Some(after.logins[l].claim.value.token)
  }

  lemma ClaimClaims(db: Tables, login: Id, source: Id, token: Id, lease: int, at: ClaimReads, gone: Gone, l: Id)
    ensures ClaimKnown(db, ClaimPassword(db, login, source, token, lease, at, gone).0, l, Some(token))
  {
  }

  lemma ReserveClaims(db: Tables, source: Id, scope: Id, at: ReserveReads, gone: Gone, l: Id)
    ensures ClaimKnown(db, Reserve(db, source, scope, at, gone).0, l, None)
  {
  }

  lemma SettleClaims(db: Tables, login: Id, token: Id, verdict: Verdict, at: SettleReads, l: Id)
    ensures ClaimKnown(db, SettlePassword(db, login, token, verdict, at).0, l, None)
  {
  }

  /** A step drops claims, keeps them, or writes one with the token it drew. */
  lemma ClaimsAfter(w: World, s: Step, l: Id)
    ensures ClaimKnown(w.db, After(w, s).db, l, if s.ClaimStep? && Possible(w, s) then Some(s.token) else None)
  {
    if Possible(w, s) {
      match s
      case ClaimStep(login, source, token, lease, at, gone) => ClaimClaims(w.db, login, source, token, lease, at, gone, l);
      case SettleStep(login, token, verdict, at) => SettleClaims(w.db, login, token, verdict, at, l);
      case ReserveStep(source, scope, at, gone) => ReserveClaims(w.db, source, scope, at, gone, l);
      case ClearStep(_) =>
    }
  }

  lemma TimeAfter(w: World, s: Step)
    ensures w.clock <= After(w, s).clock && w.used <= After(w, s).used
    ensures s.ClaimStep? && Possible(w, s) ==> s.token !in w.used
  {
  }

  lemma DeadStays(w: World, s: Step, token: Id)
    requires token in w.used && Dead(w.db, token, w.clock)
    ensures token in After(w, s).used && Dead(After(w, s).db, token, After(w, s).clock)
  {
    var next := After(w, s);
    TimeAfter(w, s);
    forall l | l in next.db.logins && next.db.logins[l].claim.Some?
      ensures next.db.logins[l].claim.value.token != token || next.db.logins[l].claim.value.until <= next.clock
    {
      ClaimsAfter(w, s, l);
    }
  }

  /** A token that lapsed, was overwritten or was settled changes nothing ever again, whatever its verification found. */
  lemma {:induction false} DeadTokenChangesNothing(
    w: World, more: seq<Step>, login: Id, token: Id, verdict: Verdict, at: SettleReads)
    requires token in w.used && Dead(w.db, token, w.clock) && Run(w, more).clock <= at.owned
    ensures SettlePassword(Run(w, more).db, login, token, verdict, at) == (Run(w, more).db, NotOwned)
    decreases |more|
  {
    if more != [] {
      DeadStays(w, more[0], token);
      DeadTokenChangesNothing(After(w, more[0]), more[1..], login, token, verdict, at);
    }
  }

  // Tokens

  /** No two logins are claimed with the same token, and no token that settled is alive or settled before. */
  ghost predicate TokensFit(w: World) {
    && (forall a, b :: a in w.db.logins && b in w.db.logins && SameToken(w.db.logins[a], w.db.logins[b]) ==> a == b)
    && (forall i :: 0 <= i < |w.settled| ==> w.settled[i] in w.used && Dead(w.db, w.settled[i], w.clock))
    && (forall i, j :: 0 <= i < j < |w.settled| ==> w.settled[i] != w.settled[j])
  }

  predicate SameToken(a: Login, b: Login) {
    a.claim.Some? && b.claim.Some? && a.claim.value.token == b.claim.value.token
  }

  /** The claim of a login is an old one, or the one just made with a token never used before. */
  predicate OldOrNew(w: World, s: Step, l: Id, claim: Claim) {
    || (l in w.db.logins && w.db.logins[l].claim == Some(claim) && claim.token in w.used)
    || (s.ClaimStep? && l == s.login && claim.token == s.token && s.token !in w.used)
  }

  /** Only the login that is claimed can carry the new token. */
  lemma ClaimedOnce(w: World, s: Step, l: Id)
    requires s.ClaimStep? && Possible(w, s) && l in After(w, s).db.logins && l != s.login
    ensures l in w.db.logins && After(w, s).db.logins[l] == w.db.logins[l]
  {
  }

  lemma ClaimIsKnown(w: World, s: Step, l: Id)
    requires Inv(w) && l in After(w, s).db.logins && After(w, s).db.logins[l].claim.Some?
    ensures OldOrNew(w, s, l, After(w, s).db.logins[l].claim.value)
  {
    ClaimsAfter(w, s, l);
    TimeAfter(w, s);
    if l in w.db.logins {
      assert LoginFits(w.db.logins[l], w.used, w.clock);
    }
    if s.ClaimStep? && Possible(w, s) && l != s.login {
      ClaimedOnce(w, s, l);
    }
  }

  lemma StillDistinct(w: World, s: Step, a: Id, b: Id, first: Claim, second: Claim)
    requires TokensFit(w) && OldOrNew(w, s, a, first) && OldOrNew(w, s, b, second) && first.token == second.token
    ensures a == b
  {
    if a in w.db.logins && b in w.db.logins && w.db.logins[a].claim == Some(first) && w.db.logins[b].claim == Some(second) {
      assert SameToken(w.db.logins[a], w.db.logins[b]);
    }
  }

  /** A settlement releases its claim. */
  lemma SettledIsDead(w: World, login: Id, token: Id, verdict: Verdict, at: SettleReads)
    requires TokensFit(w) && Settles(SettlePassword(w.db, login, token, verdict, at).1)
    ensures Dead(SettlePassword(w.db, login, token, verdict, at).0, token, at.start)
  {
  }

  lemma TokensKept(w: World, s: Step)
    requires Inv(w) && TokensFit(w)
    ensures TokensFit(After(w, s))
  {
    var next := After(w, s);
    forall a, b | a in next.db.logins && b in next.db.logins && SameToken(next.db.logins[a], next.db.logins[b])
      ensures a == b
    {
      ClaimIsKnown(w, s, a);
      ClaimIsKnown(w, s, b);
      StillDistinct(w, s, a, b, next.db.logins[a].claim.value, next.db.logins[b].claim.value);
    }
    forall i | 0 <= i < |w.settled| ensures w.settled[i] in next.used && Dead(next.db, w.settled[i], next.clock) {
      DeadStays(w, s, w.settled[i]);
    }
    if next.settled != w.settled {
      SettledAnew(w, s);
    }
  }

  /** A token that settles has not settled before, because it was alive. */
  lemma SettledAnew(w: World, s: Step)
    requires Inv(w) && TokensFit(w) && After(w, s).settled != w.settled
    ensures s.SettleStep? && After(w, s).settled == w.settled + [s.token]
    ensures s.token in w.used && Dead(After(w, s).db, s.token, After(w, s).clock)
    ensures forall i :: 0 <= i < |w.settled| ==> w.settled[i] != s.token
  {
    assert LoginFits(w.db.logins[s.login], w.used, w.clock);
    SettledIsDead(w, s.login, s.token, s.verdict, s.settleAt);
    assert !Dead(w.db, s.token, w.clock);
  }

  lemma {:induction false} RunTokens(w: World, steps: seq<Step>)
    requires Inv(w) && TokensFit(w)
    ensures TokensFit(Run(w, steps))
    decreases |steps|
  {
    if steps != [] {
      StepKeeps(w, steps[0]);
      TokensKept(w, steps[0]);
      RunTokens(After(w, steps[0]), steps[1..]);
    }
  }

  /** In every run a token settles at most once, and owns one login at most. */
  lemma TokensSettleOnce(start: World, steps: seq<Step>)
    requires Initial(start)
    ensures var w := Run(start, steps);
      && (forall i, j :: 0 <= i < j < |w.settled| ==> w.settled[i] != w.settled[j])
      && (forall a, b, token, now, later {:trigger Owned(w.db, a, token, now), Owned(w.db, b, token, later)} ::
            Owned(w.db, a, token, now) && Owned(w.db, b, token, later) ==> a == b)
  {
    RunTokens(start, steps);
    var w := Run(start, steps);
    forall a, b, token, now: int, later: int | Owned(w.db, a, token, now) && Owned(w.db, b, token, later) ensures a == b {
      assert SameToken(w.db.logins[a], w.db.logins[b]);
    }
  }

  // Reservations

  /**
    One more attempt of a key: a counter still running when it was looked at goes on, below its limit unless it ran out
    during the look; any other starts a new window at one.
  */
  predicate CountedOnce(before: map<Key, Counter>, after: map<Key, Counter>, key: Key, at: LookReads, now: int) {
    && key in after
    && if key in before && before[key].expires > at.count then
         && after[key] == Counter(before[key].count + 1, before[key].expires)
         && (before[key].expires > at.test ==> before[key].count < match key case Source(_) => 30 case Scope(_) => 5)
       else after[key] == Counter(1, now + match key case Source(_) => 300_000_000 case Scope(_) => 900_000_000)
  }

  lemma ConsumedOnce(db: Tables, key: Key, at: LookReads, now: int)
    requires LookAt(db, key, at).retry <= 0 && (key in db.attempts ==> db.attempts[key].count >= 1)
    ensures var next := Consumed(db, key, LookAt(db, key, at), now);
      && CountedOnce(db.attempts, next.attempts, key, at, now)
      && next == db.(attempts := db.attempts[key := next.attempts[key]])
  {
  }

  /** Counted once against both keys, and no other row written. */
  ghost predicate CountedBoth(clean: Tables, next: Tables, source: Id, scope: Id, at: ReserveReads) {
    && next.logins == clean.logins
    && next.attempts.Keys == clean.attempts.Keys + {Source(source), Scope(scope)}
    && CountedOnce(clean.attempts, next.attempts, Source(source), at.source, at.first)
    && CountedOnce(clean.attempts, next.attempts, Scope(scope), at.scope, at.second)
    && forall k :: k in clean.attempts && k != Source(source) && k != Scope(scope) ==> next.attempts[k] == clean.attempts[k]
  }

  lemma BothOnce(clean: Tables, source: Id, scope: Id, at: ReserveReads)
    requires forall k :: k in clean.attempts ==> clean.attempts[k].count >= 1
    requires LookAt(clean, Source(source), at.source).retry <= 0 && LookAt(clean, Scope(scope), at.scope).retry <= 0
    ensures
      var first, second := LookAt(clean, Source(source), at.source), LookAt(clean, Scope(scope), at.scope);
      CountedBoth(
        clean, Consumed(Consumed(clean, Source(source), first, at.first), Scope(scope), second, at.second),
        source, scope, at)
  {
    var first := LookAt(clean, Source(source), at.source);
    ConsumedOnce(clean, Source(source), at.source, at.first);
    var mid := Consumed(clean, Source(source), first, at.first);
    assert LookAt(mid, Scope(scope), at.scope) == LookAt(clean, Scope(scope), at.scope);
    ConsumedOnce(mid, Scope(scope), at.scope, at.second);
  }

  lemma AdmittedLooks(db: Tables, source: Id, scope: Id, at: ReserveReads, gone: Gone)
    ensures
      var (next, outcome) := Reserve(db, source, scope, at, gone);
      var clean := Cleaned(db, gone);
      var first, second := LookAt(clean, Source(source), at.source), LookAt(clean, Scope(scope), at.scope);
      if outcome != Admitted then next == clean
      else
        && first.retry <= 0 && second.retry <= 0
        && next == Consumed(Consumed(clean, Source(source), first, at.first), Scope(scope), second, at.second)
  {
  }

  /**
    In every run a reservation counts once against its source and once against its scope, and touches no other row but
    lapsed ones; or it counts against neither.
  */
  lemma ReserveCountsBothOrNeither(start: World, steps: seq<Step>, source: Id, scope: Id, at: ReserveReads, gone: Gone)
    requires Initial(start)
    ensures
      var db := Run(start, steps).db;
      var (next, outcome) := Reserve(db, source, scope, at, gone);
      if outcome == Admitted then CountedBoth(Cleaned(db, gone), next, source, scope, at) else next == Cleaned(db, gone)
  {
    RunKeeps(start, steps);
    var w := Run(start, steps);
    var clean := Cleaned(w.db, gone);
    forall k | k in clean.attempts ensures clean.attempts[k].count >= 1 {
      assert CounterFits(k, w.db.attempts[k], w.clock);
    }
    AdmittedLooks(w.db, source, scope, at, gone);
    if Reserve(w.db, source, scope, at, gone).1 == Admitted {
      BothOnce(clean, source, scope, at);
    }
  }

  // How many rejections

  /** The rejections in the half-open interval from `x` to `y`. */
  function Count(hits: seq<Hit>, x: int, y: int): nat {
    if hits == [] then 0
    else
      var last := hits[|hits| - 1];
      Count(hits[..|hits| - 1], x, y) + if x <= last.at < y then 1 else 0
  }

  lemma {:induction false} CountNone(hits: seq<Hit>, x: int, y: int)
    requires Chain(hits) && (hits != [] ==> hits[|hits| - 1].at < x)
    ensures Count(hits, x, y) == 0
    decreases |hits|
  {
    if hits != [] {
      var n := |hits| - 1;
      if n > 0 {
        assert Follows(hits[n - 1], hits[n]) && HitFits(hits[n - 1]);
      }
      CountNone(hits[..n], x, y);
    }
  }

  lemma {:induction false} CountBounded(hits: seq<Hit>, x: int, y: int)
    requires Chain(hits) && hits != [] && hits[|hits| - 1].at < y
    ensures var last := hits[|hits| - 1];
      Count(hits, x, y) <=
      (if last.started < x then 0 else FAILURE_LIMIT * ((last.started - x) / FAILURE_WINDOW + 1)) + last.nth
    decreases |hits|
  {
    var n := |hits| - 1;
    var last := hits[n];
    assert HitFits(last);
    if n > 0 {
      var before := hits[..n];
      var previous := before[n - 1];
      assert Follows(hits[n - 1], hits[n]) && HitFits(previous);
      CountBounded(before, x, y);
      if last.started != previous.started {
        if last.at < x {
          CountNone(hits, x, y);
        }
        NextWindow(previous.started - x, last.started - x);
      }
    }
  }

  /** Windows start at least their length apart. */
  lemma NextWindow(a: int, b: int)
    requires a + FAILURE_WINDOW <= b
    ensures a >= 0 ==> a / FAILURE_WINDOW + 1 <= b / FAILURE_WINDOW
    ensures b >= 0 ==> b / FAILURE_WINDOW >= 0
  {
  }

  /** The windows of 600 seconds begun in a stretch of time. */
  function Windows(length: int): int { (length + 600_000_000 - 1) / 600_000_000 }

  lemma {:induction false} ChainCount(hits: seq<Hit>, x: int, length: int)
    requires Chain(hits) && length > 0
    ensures Count(hits, x, x + length) <= 5 * (Windows(length) + 1)
    decreases |hits|
  {
    if hits != [] {
      var n := |hits| - 1;
      if hits[n].at >= x + length {
        ChainCount(hits[..n], x, length);
      } else {
        CountBounded(hits, x, x + length);
        assert HitFits(hits[n]);
        if hits[n].started >= x {
          LastWindow(hits[n].started - x, length);
        }
      }
    }
  }

  lemma LastWindow(s: int, length: int)
    requires 0 <= s < length
    ensures s / FAILURE_WINDOW + 1 <= Windows(length)
  {
  }

  /**
    In every run, the rejections counted against a login since its last success or credential change that fall into any
    stretch of time are at most five for each 600 seconds begun, and five more.
  */
  lemma RejectionsAreBounded(start: World, steps: seq<Step>, login: Id, x: int, length: int)
    requires Initial(start) && length > 0
    ensures Count(HitsOf(Run(start, steps).hits, login), x, x + length) <= 5 * (Windows(length) + 1)
  {
    RunKeeps(start, steps);
    assert Chain(HitsOf(Run(start, steps).hits, login));
    ChainCount(HitsOf(Run(start, steps).hits, login), x, length);
  }
}
