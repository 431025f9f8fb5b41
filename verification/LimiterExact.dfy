/** What every decision of the limiter is, in terms of the rows and of the readings it is taken at. */
module LimiterExact {
  import opened Common
  import opened Limiter
  import opened LimiterRuns
  import LimiterCleanup

  /** Whoever waits so many whole seconds finds the window over, and no fewer would do; one second at least. */
  predicate Waits(retry: int, until: int, now: int) {
    retry >= 1 && until <= now + 1_000_000 * retry && (retry > 1 ==> now + 1_000_000 * (retry - 1) < until)
  }

  /** A running counter that has reached its limit: 30 for a source, five for a scope. */
  predicate Full(attempts: map<Key, Counter>, key: Key, now: int) {
    && key in attempts && now < attempts[key].expires
    && match key case Source(_) => attempts[key].count >= 30 case Scope(_) => attempts[key].count >= 5
  }

  /** A login with five failures in a running window. */
  predicate Locked(logins: map<Id, Login>, login: Id, now: int) {
    login in logins && logins[login].failures == 5 && logins[login].window.Some? && now < logins[login].window.value
  }

  lemma WaitIs(until: int, now: int)
    ensures Waits(Max(1, CeilSeconds(until - now)), until, now)
  {
  }

  lemma LooksExactly(db: Tables, key: Key, at: LookReads)
    ensures var look := LookAt(db, key, at);
      && (look.present <==> key in db.attempts)
      && (look.retry > 0 <==> Full(db.attempts, key, at.test))
      && (look.retry > 0 ==> Waits(look.retry, db.attempts[key].expires, at.left))
      && look.retry >= 0
      && look.count == if key in db.attempts && at.count < db.attempts[key].expires then db.attempts[key].count else 0
  {
    if key in db.attempts {
      WaitIs(db.attempts[key].expires, at.left);
    }
  }

  lemma LoginLooksExactly(db: Tables, login: Id, at: ClaimReads)
    ensures var retry := LoginRetry(db, login, at);
      && (retry > 0 <==> Locked(db.logins, login, at.retry)) && retry >= 0
      && (retry > 0 ==> Waits(retry, db.logins[login].window.value, at.left))
  {
    if login in db.logins && db.logins[login].window.Some? {
      WaitIs(db.logins[login].window.value, at.left);
    }
  }

  /** Whoever waits so many whole seconds finds every such window over, and no fewer would do; one second at least. */
  predicate LongerWait(retry: int, first: bool, a: int, now: int, second: bool, b: int, later: int) {
    && retry >= 1
    && (first ==> a <= now + 1_000_000 * retry) && (second ==> b <= later + 1_000_000 * retry)
    && (retry > 1 ==>
          (first && now + 1_000_000 * (retry - 1) < a) || (second && later + 1_000_000 * (retry - 1) < b))
  }

  function Until(attempts: map<Key, Counter>, key: Key): int {
    if key in attempts then attempts[key].expires else 0
  }

  function WindowOf(logins: map<Id, Login>, login: Id): int {
    if login in logins && logins[login].window.Some? then logins[login].window.value else 0
  }

  /** Rows after the cleanup and the two keys. */
  function RowsWith(attempts: map<Key, Counter>, logins: map<Id, Login>, keys: set<Key>, more: set<Id>): nat {
    |attempts.Keys + keys| + |logins.Keys + more|
  }

  lemma SizeWithOne<T>(s: set<T>, x: T)
    ensures |s + {x}| == |s| + New(x in s)
  {
    if x in s {
      assert s + {x} == s;
    }
  }

  lemma SizeWithTwo<T>(s: set<T>, x: T, y: T)
    requires x != y
    ensures |s + {x, y}| == |s| + New(x in s) + New(y in s)
  {
    SizeWithOne(s, x);
    SizeWithOne(s + {x}, y);
    assert s + {x, y} == (s + {x}) + {y};
  }

  /** The rows a reservation needs. */
  lemma RoomForBoth(db: Tables, source: Id, scope: Id)
    ensures RowsWith(db.attempts, db.logins, {Source(source), Scope(scope)}, {})
      == Total(db) + New(Source(source) in db.attempts) + New(Scope(scope) in db.attempts)
  {
    SizeWithTwo(db.attempts.Keys, Source(source), Scope(scope));
    assert db.logins.Keys + {} == db.logins.Keys;
    assert |db.attempts| == |db.attempts.Keys| && |db.logins| == |db.logins.Keys|;
  }

  lemma RoomForClaim(db: Tables, source: Id, login: Id)
    ensures RowsWith(db.attempts, db.logins, {Source(source)}, {login})
      == Total(db) + New(Source(source) in db.attempts) + New(login in db.logins)
  {
    SizeWithOne(db.attempts.Keys, Source(source));
    SizeWithOne(db.logins.Keys, login);
    assert |db.attempts| == |db.attempts.Keys| && |db.logins| == |db.logins.Keys|;
  }

  /**
    A reservation is rate limited exactly when its source has 30 attempts in a running window or its scope has five, and
    says how long the longer of these windows still runs; else it is refused as busy exactly when the rows it needs would
    be more than 10,000.
  */
  lemma ReservesExactly(db: Tables, source: Id, scope: Id, at: ReserveReads, gone: Gone)
    ensures
      var attempts, logins := db.attempts - gone.attempts, db.logins - gone.logins;
      var r := Reserve(db, source, scope, at, gone).1;
      var first, second := Full(attempts, Source(source), at.source.test), Full(attempts, Scope(scope), at.scope.test);
      && (r.RateLimited? <==> first || second)
      && (r.RateLimited? ==> LongerWait(r.retry, first, Until(attempts, Source(source)), at.source.left,
                                        second, Until(attempts, Scope(scope)), at.scope.left))
      && (r == Busy <==>
            !first && !second && RowsWith(attempts, logins, {Source(source), Scope(scope)}, {}) > 10_000)
      && r != Failed
  {
    var clean := Cleaned(db, gone);
    LooksExactly(clean, Source(source), at.source);
    LooksExactly(clean, Scope(scope), at.scope);
    RoomForBoth(clean, source, scope);
    var first, second := LookAt(clean, Source(source), at.source).retry, LookAt(clean, Scope(scope), at.scope).retry;
    if first > 0 || second > 0 {
      Longer(first, Until(clean.attempts, Source(source)), at.source.left,
             second, Until(clean.attempts, Scope(scope)), at.scope.left);
    }
  }

  /**
    A claim is rate limited exactly when its login has five failures in a running window or its source has 30 attempts;
    else it is refused as busy exactly while another claim of the login is live or the rows it needs would be more than
    10,000.
  */
  lemma ClaimsExactly(db: Tables, login: Id, source: Id, token: Id, lease: int, at: ClaimReads, gone: Gone)
    ensures
      var attempts, logins := db.attempts - gone.attempts, db.logins - gone.logins;
      var r := ClaimPassword(db, login, source, token, lease, at, gone).1;
      var first, second := Locked(logins, login, at.retry), Full(attempts, Source(source), at.source.test);
      var held := login in logins && logins[login].claim.Some? && at.busy < logins[login].claim.value.until;
      && (r.RateLimited? <==> first || second)
      && (r.RateLimited? ==> LongerWait(r.retry, first, WindowOf(logins, login), at.left,
                                        second, Until(attempts, Source(source)), at.source.left))
      && (r == Busy <==>
            !first && !second && (held || RowsWith(attempts, logins, {Source(source)}, {login}) > 10_000))
  {
    var clean := Cleaned(db, gone);
    var first, second := LoginRetry(clean, login, at), LookAt(clean, Source(source), at.source).retry;
    ClaimDecides(db, login, source, token, lease, at, gone);
    LooksExactly(clean, Source(source), at.source);
    LoginLooksExactly(clean, login, at);
    if first > 0 || second > 0 {
      Longer(first, WindowOf(clean.logins, login), at.left, second, Until(clean.attempts, Source(source)), at.source.left);
    }
  }

  /** What decides a claim: the two waits, a live claim, and the room. */
  lemma ClaimDecides(db: Tables, login: Id, source: Id, token: Id, lease: int, at: ClaimReads, gone: Gone)
    ensures
      var clean := Cleaned(db, gone);
      var r := ClaimPassword(db, login, source, token, lease, at, gone).1;
      var retry := Max(LoginRetry(clean, login, at), LookAt(clean, Source(source), at.source).retry);
      && (r.RateLimited? <==> retry > 0) && (r.RateLimited? ==> r.retry == retry)
      && (r == Busy <==>
            retry <= 0 && (ClaimBusy(clean, login, at)
                           || RowsWith(clean.attempts, clean.logins, {Source(source)}, {login}) > 10_000))
  {
    RoomForClaim(Cleaned(db, gone), source, login);
    ClaimWaits(db, login, source, token, lease, at, gone);
  }

  lemma ClaimWaits(db: Tables, login: Id, source: Id, token: Id, lease: int, at: ClaimReads, gone: Gone)
    ensures
      var clean := Cleaned(db, gone);
      var r := ClaimPassword(db, login, source, token, lease, at, gone).1;
      var retry := Max(LoginRetry(clean, login, at), LookAt(clean, Source(source), at.source).retry);
      (r.RateLimited? <==> retry > 0) && (r.RateLimited? ==> r.retry == retry)
  {
  }

  lemma Longer(first: int, a: int, now: int, second: int, b: int, later: int)
    requires first > 0 || second > 0
    requires (first > 0 ==> Waits(first, a, now)) && (second > 0 ==> Waits(second, b, later))
    ensures LongerWait(Max(first, second), first > 0, a, now, second > 0, b, later)
  {
  }

  /** The rows every run leaves. */
  ghost predicate Sound(db: Tables) {
    && (forall k :: k in db.attempts ==> db.attempts[k].count >= 1)
    && (forall l :: l in db.logins ==> Storable(db.logins[l]))
  }

  lemma RunsAreSound(start: World, steps: seq<Step>)
    requires Initial(start)
    ensures Sound(Run(start, steps).db)
  {
    RunKeeps(start, steps);
    var w := Run(start, steps);
    forall k | k in w.db.attempts ensures w.db.attempts[k].count >= 1 {
      assert CounterFits(k, w.db.attempts[k], w.clock);
    }
    forall l | l in w.db.logins ensures Storable(w.db.logins[l]) {
      assert LoginFits(w.db.logins[l], w.used, w.clock);
    }
  }

  /** One row of a login after a claim: a running window is kept with its failures, one that is over is forgotten. */
  function LeasedRow(logins: map<Id, Login>, login: Id, token: Id, lease: int, at: ClaimReads): Login {
    if login in logins && logins[login].window.Some? && at.window < logins[login].window.value
    then Login(logins[login].failures, logins[login].window, Some(Claim(token, at.lease + lease)))
    else Login(0, None, Some(Claim(token, at.lease + lease)))
  }

  /** In every run an admitted claim counts once against its source and leaves its lease, and nothing else. */
  lemma ClaimLeavesExactly(
    start: World, steps: seq<Step>, login: Id, source: Id, token: Id, lease: int, at: ClaimReads, gone: Gone)
    requires Initial(start) && InOrder(at)
    requires ClaimPassword(Run(start, steps).db, login, source, token, lease, at, gone).1 == Admitted
    ensures
      var db := Run(start, steps).db;
      var attempts, logins := db.attempts - gone.attempts, db.logins - gone.logins;
      var next := ClaimPassword(db, login, source, token, lease, at, gone).0;
      && next.logins == logins[login := LeasedRow(logins, login, token, lease, at)]
      && CountedOnce(attempts, next.attempts, Source(source), at.source, at.consume)
      && next.attempts == attempts[Source(source) := next.attempts[Source(source)]]
  {
    RunsAreSound(start, steps);
    ClaimLeavesRows(Run(start, steps).db, login, source, token, lease, at, gone);
  }

  lemma ClaimLeavesRows(db: Tables, login: Id, source: Id, token: Id, lease: int, at: ClaimReads, gone: Gone)
    requires Sound(db) && InOrder(at)
    requires ClaimPassword(db, login, source, token, lease, at, gone).1 == Admitted
    ensures
      var attempts, logins := db.attempts - gone.attempts, db.logins - gone.logins;
      var next := ClaimPassword(db, login, source, token, lease, at, gone).0;
      && next.logins == logins[login := LeasedRow(logins, login, token, lease, at)]
      && CountedOnce(attempts, next.attempts, Source(source), at.source, at.consume)
      && next.attempts == attempts[Source(source) := next.attempts[Source(source)]]
  {
    var clean := Cleaned(db, gone);
    LimiterCleanup.ClaimLeaves(db, login, source, token, lease, at, gone);
    ClaimedStorable(db, login, source, token, lease, at, gone);
    ClaimedRowIs(clean, login, token, lease, at);
    ConsumedOnce(clean, Source(source), at.source, at.consume);
  }

  /** What an admitted claim has passed. */
  lemma ClaimedStorable(db: Tables, login: Id, source: Id, token: Id, lease: int, at: ClaimReads, gone: Gone)
    requires ClaimPassword(db, login, source, token, lease, at, gone).1 == Admitted
    ensures Storable(ClaimedRow(Cleaned(db, gone), login, token, lease, at))
    ensures LookAt(Cleaned(db, gone), Source(source), at.source).retry <= 0
  {
  }

  lemma ClaimedRowIs(db: Tables, login: Id, token: Id, lease: int, at: ClaimReads)
    requires (login in db.logins ==> Storable(db.logins[login])) && at.failures <= at.window
    requires Storable(ClaimedRow(db, login, token, lease, at))
    ensures ClaimedRow(db, login, token, lease, at) == LeasedRow(db.logins, login, token, lease, at)
  {
  }

  /**
    A settlement changes something exactly when its token holds a live claim of the login: a current password clears the
    row, a wrong one counts, and an outcome nobody knows only releases the claim.
  */
  lemma SettlesExactly(db: Tables, login: Id, token: Id, verdict: Verdict, at: SettleReads)
    ensures
      var held :=
        && login in db.logins && db.logins[login].claim.Some?
        && db.logins[login].claim.value.token == token && at.owned < db.logins[login].claim.value.until;
      var (next, r) := SettlePassword(db, login, token, verdict, at);
      if !held then r == NotOwned && next == db
      else match verdict
        case Verified(true) => r == Succeeded && next == db.(logins := db.logins - {login})
        case Verified(false) => r == Stale && next == db
        case WrongPassword =>
          && r == Counted && login in next.logins && next == db.(logins := db.logins[login := next.logins[login]])
          && next.logins[login].claim == None && Rejects(db.logins[login], next.logins[login], at)
        case Undecided =>
          && r == Released
          && next == db.(logins := db.logins[
               login := Login(db.logins[login].failures, db.logins[login].window, None)])
  {
  }
}
