/** The window in which a personnel read stays true: how long no row it looked at can change its status. */
module PersonnelWindow {
  import opened Common
  import opened Deadlines

  datatype SessionRow = SessionRow(revoked: bool, idle: I64, absolute: I64)

  datatype ProfileRow = ProfileRow(observed: I64, expires: I64)

  datatype FactRow = FactRow(observed: I64, expires: I64)

  datatype Rows = Rows(sessions: seq<SessionRow>, profiles: seq<ProfileRow>, departments: seq<FactRow>)

  const LONGEST: int := 60

  function Earlier(a: Option<int>, b: Option<int>): Option<int> {
    if a.None? then b else if b.None? then a else Some(Min(a.value, b.value))
  }

  function Boundary(t: int, now: int): Option<int> {
    if t > now then Some(t) else None
  }

  /** The earliest idle or absolute end of a live session. */
  function SessionEnds(rows: seq<SessionRow>, now: int): (r: Option<int>)
    ensures r.Some? ==> r.value > now
    ensures forall i :: 0 <= i < |rows| && !rows[i].revoked ==>
      && (rows[i].idle > now ==> r.Some? && r.value <= rows[i].idle)
      && (rows[i].absolute > now ==> r.Some? && r.value <= rows[i].absolute)
  {
    if rows == [] then None
    else
      var first := if rows[0].revoked then None else Earlier(Boundary(rows[0].idle, now), Boundary(rows[0].absolute, now));
      Earlier(first, SessionEnds(rows[1..], now))
  }

  /** The earliest end of a profile, by its own expiry or by its age. */
  function ProfileEnds(rows: seq<ProfileRow>, maxAge: int, now: int): (r: Option<int>)
    ensures r.Some? ==> r.value > now
    ensures forall i :: 0 <= i < |rows| ==>
      && (rows[i].expires > now ==> r.Some? && r.value <= rows[i].expires)
      && (rows[i].observed + maxAge > now ==> r.Some? && r.value <= rows[i].observed + maxAge)
  {
    if rows == [] then None
    else
      Earlier(
        Earlier(Boundary(rows[0].expires, now), Boundary(rows[0].observed + maxAge, now)),
        ProfileEnds(rows[1..], maxAge, now))
  }

  /** The earliest beginning or end of an available department fact. */
  function FactBounds(rows: seq<FactRow>, now: int): (r: Option<int>)
    ensures r.Some? ==> r.value > now
    ensures forall i :: 0 <= i < |rows| ==>
      && (rows[i].observed > now ==> r.Some? && r.value <= rows[i].observed)
      && (rows[i].expires > now ==> r.Some? && r.value <= rows[i].expires)
  {
    if rows == [] then None
    else
      Earlier(
        Earlier(Boundary(rows[0].observed, now), Boundary(rows[0].expires, now)),
        FactBounds(rows[1..], now))
  }

  datatype Window = Window(validUntil: int, now: int, expires: real)

  /** `maxAge` is given when profiles are read, `departments` says whether department facts are. */
  function ReadWindow(
    rows: Rows, sample: Sample, maxAge: Option<nat>, departments: bool, budget: real, actorUntil: Option<I64>): Window
  {
    var now := sample.Seconds();
    var live := SessionEnds(rows.sessions, now);
    var read := if maxAge.None? then live else Earlier(live, ProfileEnds(rows.profiles, maxAge.value, now));
    var next := if departments then Earlier(read, FactBounds(rows.departments, now)) else read;
    var validUntil := Min(
      Min(if next.Some? then next.value else I64_MAX, if actorUntil.Some? then actorUntil.value else I64_MAX),
      Saturated(now + LONGEST));
    var remaining := Max(0, Saturated(Saturated(Saturated(validUntil * MICROS) - sample.micros) - 1));
    var end := sample.started + remaining as real;
    Window(validUntil, now, if end <= budget then end else budget)
  }

  /** Any instant inside the window has database time strictly before its end. */
  lemma WindowIsSafe(
    rows: Rows, sample: Sample, maxAge: Option<nat>, departments: bool, budget: real, actorUntil: Option<I64>,
    queried: real, offset: real, now: real)
    requires sample.Taken(queried, offset)
    requires var w := ReadWindow(rows, sample, maxAge, departments, budget, actorUntil); sample.started <= now < w.expires
    ensures var w := ReadWindow(rows, sample, maxAge, departments, budget, actorUntil);
      now + offset < (w.validUntil * MICROS) as real && now < budget
  {
    assert queried + offset < sample.micros as real + 1.0;
  }

  /** Nothing saturates while the clock is a minute short of the end of time: the window is as long as it may be. */
  lemma WindowIsExact(
    rows: Rows, sample: Sample, maxAge: Option<nat>, departments: bool, budget: real, actorUntil: Option<I64>)
    requires 0 < sample.micros <= I64_MAX - 61_000_000 && (actorUntil.Some? ==> actorUntil.value >= 0)
    ensures var w := ReadWindow(rows, sample, maxAge, departments, budget, actorUntil);
      var end := sample.started + Max(0, w.validUntil * 1_000_000 - sample.micros - 1) as real;
      w.expires == (if end <= budget then end else budget) && w.validUntil <= w.now + 60
  {
  }

  // The window's end is the latest there may be

  /** A time that is still to come bounds the window; one that has passed does not. */
  predicate Before(until: int, t: int, now: int) {
    t > now ==> until <= t
  }

  /** A minute at most, not past the actor's own end, and not past any time to come that a row among those read names. */
  predicate MayLast(
    rows: Rows, maxAge: Option<nat>, departments: bool, actorUntil: Option<I64>, now: int, until: I64)
  {
    && until <= now + 60
    && (actorUntil.Some? ==> until <= actorUntil.value)
    && (forall row :: row in rows.sessions && !row.revoked ==>
          Before(until, row.idle, now) && Before(until, row.absolute, now))
    && (maxAge.Some? ==> forall row :: row in rows.profiles ==>
          Before(until, row.expires, now) && Before(until, row.observed + maxAge.value, now))
    && (departments ==> forall row :: row in rows.departments ==>
          Before(until, row.observed, now) && Before(until, row.expires, now))
  }

  predicate NotPast(until: int, end: Option<int>) {
    end.Some? ==> until <= end.value
  }

  lemma {:induction false} SessionEndsLatest(rows: seq<SessionRow>, now: int, until: int)
    ensures NotPast(until, SessionEnds(rows, now)) <==> forall row :: row in rows && !row.revoked ==>
      Before(until, row.idle, now) && Before(until, row.absolute, now)
  {
    if rows != [] {
      SessionEndsLatest(rows[1..], now, until);
      assert rows == [rows[0]] + rows[1..];
    }
  }

  lemma {:induction false} ProfileEndsLatest(rows: seq<ProfileRow>, maxAge: int, now: int, until: int)
    ensures NotPast(until, ProfileEnds(rows, maxAge, now)) <==> forall row :: row in rows ==>
      Before(until, row.expires, now) && Before(until, row.observed + maxAge, now)
  {
    if rows != [] {
      ProfileEndsLatest(rows[1..], maxAge, now, until);
      assert rows == [rows[0]] + rows[1..];
    }
  }

  lemma {:induction false} FactBoundsLatest(rows: seq<FactRow>, now: int, until: int)
    ensures NotPast(until, FactBounds(rows, now)) <==> forall row :: row in rows ==>
      Before(until, row.observed, now) && Before(until, row.expires, now)
  {
    if rows != [] {
      FactBoundsLatest(rows[1..], now, until);
      assert rows == [rows[0]] + rows[1..];
    }
  }

  /** The reading's own second, and the latest end a window may have: any later one is past some bound. */
  lemma WindowIsLongest(
    rows: Rows, sample: Sample, maxAge: Option<nat>, departments: bool, budget: real, actorUntil: Option<I64>, until: I64)
    ensures var w := ReadWindow(rows, sample, maxAge, departments, budget, actorUntil);
      && w.now == sample.micros / 1_000_000
      && (until <= w.validUntil <==> MayLast(rows, maxAge, departments, actorUntil, w.now, until))
  {
    var now := sample.Seconds();
    SessionEndsLatest(rows.sessions, now, until);
    if maxAge.Some? {
      ProfileEndsLatest(rows.profiles, maxAge.value, now, until);
    }
    FactBoundsLatest(rows.departments, now, until);
  }

  // Statuses

  predicate SessionLive(row: SessionRow, t: int) { !row.revoked && t < row.idle && t < row.absolute }

  datatype Status = NotYet | Current | Ended

  function ProfileStatus(row: ProfileRow, maxAge: int, t: int): Status {
    if row.observed > t then NotYet
    else if Min(row.expires, row.observed + maxAge) <= t then Ended
    else Current
  }

  function FactStatus(row: FactRow, t: int): Status {
    if row.observed > t then NotYet else if row.expires <= t then Ended else Current
  }

  /** No session and no department fact changes its status inside the window. */
  lemma SessionsAndFactsAreSteady(
    rows: Rows, sample: Sample, maxAge: Option<nat>, budget: real, actorUntil: Option<I64>, t: int)
    requires var w := ReadWindow(rows, sample, maxAge, true, budget, actorUntil); w.now <= t < w.validUntil
    ensures forall row :: row in rows.sessions ==> SessionLive(row, t) == SessionLive(row, sample.Seconds())
    ensures forall row :: row in rows.departments ==> FactStatus(row, t) == FactStatus(row, sample.Seconds())
  {
    var now := sample.Seconds();
    forall row | row in rows.sessions ensures SessionLive(row, t) == SessionLive(row, now) {
      var i :| 0 <= i < |rows.sessions| && rows.sessions[i] == row;
      assert SessionEnds(rows.sessions, now).Some? || row.revoked || row.idle <= now || row.absolute <= now;
    }
    forall row | row in rows.departments ensures FactStatus(row, t) == FactStatus(row, now) {
      var i :| 0 <= i < |rows.departments| && rows.departments[i] == row;
      assert FactBounds(rows.departments, now).Some? || (row.observed <= now && row.expires <= now);
    }
  }

  /**
    A profile keeps its status throughout the window exactly when it was not observed inside it: the beginning of a
    profile is no boundary of the window.
  */
  lemma ProfileIsSteadyExactlyWhenObserved(
    rows: Rows, sample: Sample, maxAge: nat, departments: bool, budget: real, actorUntil: Option<I64>, row: ProfileRow)
    requires row in rows.profiles && maxAge > 0
    ensures var w := ReadWindow(rows, sample, Some(maxAge), departments, budget, actorUntil);
      (forall t :: w.now <= t < w.validUntil ==> ProfileStatus(row, maxAge, t) == ProfileStatus(row, maxAge, w.now))
      <==> (row.observed <= w.now || row.observed >= w.validUntil)
  {
    var w := ReadWindow(rows, sample, Some(maxAge), departments, budget, actorUntil);
    var i :| 0 <= i < |rows.profiles| && rows.profiles[i] == row;
    assert ProfileEnds(rows.profiles, maxAge, w.now).Some? || (row.expires <= w.now && row.observed + maxAge <= w.now);
    if w.now < row.observed < w.validUntil {
      assert ProfileStatus(row, maxAge, row.observed) != ProfileStatus(row, maxAge, w.now);
    }
  }

  /** A profile observed ten seconds ahead becomes current inside a window of sixty seconds. */
  lemma FutureProfileIsNotSteady()
    ensures
      var row := ProfileRow(110, 1000);
      var w := ReadWindow(Rows([], [row], []), Sample(0.0, 100 * MICROS), Some(500), true, 1.0, None);
      && w.now == 100 && w.validUntil == 160
      && ProfileStatus(row, 500, 100) == NotYet && ProfileStatus(row, 500, 110) == Current
  {
    assert ProfileEnds([ProfileRow(110, 1000)], 500, 100) == Some(610) by {
      assert [ProfileRow(110, 1000)][1..] == [];
    }
  }

  /** What is stored of an observation: nothing from the future, and nothing already over. */
  function AcceptProfile(sourceTime: I64, sourceExpiry: I64, absolute: I64, maxAge: nat, now: int): Option<ProfileRow> {
    var end := Checked(sourceTime + maxAge);
    if end.None? then None
    else
      var expiry := Min(Min(end.value, sourceExpiry), absolute);
      if sourceTime > now || expiry <= now then None else Some(ProfileRow(sourceTime, expiry))
  }

  /**
    An observation is stored exactly when it is not from the future and none of its three ends has come: its own, the
    session's, and that of its age; and then until the first of them.
  */
  lemma AcceptsProfileExactly(sourceTime: I64, sourceExpiry: I64, absolute: I64, maxAge: nat, now: int, until: int)
    requires sourceTime + maxAge <= I64_MAX
    ensures var r := AcceptProfile(sourceTime, sourceExpiry, absolute, maxAge, now);
      && (r.Some? <==> sourceTime <= now < absolute && now < sourceExpiry && now < sourceTime + maxAge)
      && (r.Some? ==>
        && r.value.observed == sourceTime
        && (until <= r.value.expires <==> until <= sourceTime + maxAge && until <= sourceExpiry && until <= absolute))
  {
  }

  /** Profiles that were accepted before the sample was taken keep their status throughout the window. */
  lemma AcceptedProfilesAreSteady(
    rows: Rows, sample: Sample, maxAge: nat, departments: bool, budget: real, actorUntil: Option<I64>,
    sourceTime: I64, sourceExpiry: I64, absolute: I64, age: nat, accepted: int, t: int)
    requires AcceptProfile(sourceTime, sourceExpiry, absolute, age, accepted).Some? && accepted <= sample.Seconds()
    requires AcceptProfile(sourceTime, sourceExpiry, absolute, age, accepted).value in rows.profiles && maxAge > 0
    requires var w := ReadWindow(rows, sample, Some(maxAge), departments, budget, actorUntil); w.now <= t < w.validUntil
    ensures var row := AcceptProfile(sourceTime, sourceExpiry, absolute, age, accepted).value;
      ProfileStatus(row, maxAge, t) == ProfileStatus(row, maxAge, sample.Seconds())
  {
    ProfileIsSteadyExactlyWhenObserved(rows, sample, maxAge, departments, budget, actorUntil,
                                       AcceptProfile(sourceTime, sourceExpiry, absolute, age, accepted).value);
  }
}
