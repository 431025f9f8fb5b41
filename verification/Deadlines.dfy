/**
  From database times to process deadlines. Process instants are real numbers of microseconds; the database's clock runs
  at the same rate, at an unknown offset.
*/
module Deadlines {
  import opened Common
  import opened ExternalSubjects
  import Department
  import opened Facts

  const MICROS: int := 1_000_000
  const U64_MAX: int := 0xffff_ffff_ffff_ffff

  /** A reading of the database clock, anchored at the process instant before the query was sent. */
  datatype Sample = Sample(started: real, micros: I64)
  {
    function Seconds(): I64 { micros / MICROS }

    /** The reading was taken at `queried`, when the database clock stood at `queried + offset`. */
    ghost predicate Taken(queried: real, offset: real) {
      queried >= started && micros == (queried + offset).Floor && micros > 0
    }

    /** Facts are judged by the later of the database's and the host's clock. */
    function ForFacts(hostSeconds: I64): Sample {
      Sample(started, Max(micros, Saturated(hostSeconds * MICROS)))
    }
  }

  /** The last instant at which `seconds` has surely not been reached: a whole microsecond is given up for the floor. */
  function Deadline(sample: Sample, seconds: I64): Result<real, Error> {
    if seconds <= 0 then Err(Corrupt)
    else
      var remaining := seconds * MICROS - sample.micros - 1;
      if remaining <= 0 then Ok(sample.started)
      else if remaining > U64_MAX then Err(Corrupt)
      else Ok(sample.started + remaining as real)
  }

  /** Before its deadline, database time is strictly below the second it stands for. */
  lemma DeadlineIsSafe(sample: Sample, seconds: I64, queried: real, offset: real, now: real)
    requires sample.Taken(queried, offset) && Deadline(sample, seconds).Ok?
    requires sample.started <= now < Deadline(sample, seconds).value
    ensures now + offset < (seconds * MICROS) as real
  {
    assert queried + offset < sample.micros as real + 1.0;
  }

  /** No later deadline would be safe: beyond it, however little, the second may have been reached. */
  lemma DeadlineIsTight(sample: Sample, seconds: I64, extra: real) returns (offset: real)
    requires sample.micros > 0 && Deadline(sample, seconds).Ok? && Deadline(sample, seconds).value > sample.started
    requires extra > 0.0
    ensures sample.Taken(sample.started, offset)
    ensures Deadline(sample, seconds).value + extra + offset >= (seconds * MICROS) as real
  {
    var gap := if extra < 1.0 then extra else 1.0;
    offset := sample.micros as real + 1.0 - gap - sample.started;
    assert sample.started + offset == sample.micros as real + (1.0 - gap);
  }

  /** A host clock ahead of the database only shortens the deadline. */
  lemma HostClockOnlyShortens(sample: Sample, seconds: I64, hostSeconds: I64)
    requires Deadline(sample, seconds).Ok? && sample.micros > 0
    ensures Deadline(sample.ForFacts(hostSeconds), seconds).Ok?
    ensures sample.started <= Deadline(sample.ForFacts(hostSeconds), seconds).value <= Deadline(sample, seconds).value
  {
  }

  // Group facts held by a checked identity

  datatype HeldGroups = HeldGroups(facts: Groups, expires: real)

  function HoldGroups(facts: Groups, sample: Sample): Result<HeldGroups, Error> {
    if !StructurallyValidAt(facts, sample.Seconds()) then Err(Corrupt)
    else if facts.GroupsAvailable? then
      var end := Deadline(sample, facts.expires);
      if end.Err? then Err(end.error) else Ok(HeldGroups(facts, end.value))
    else Ok(HeldGroups(facts, sample.started))
  }

  datatype AccessError = ProofExpired | SnapshotExpired

  datatype GroupView =
    | ViewAvailable(values: seq<string>, proof: real, expires: real)
    | ViewUnavailable(reason: Reason)
    | ViewExpired

  function ViewGroups(held: HeldGroups, proof: real, now: real): Result<GroupView, AccessError> {
    if now >= proof then Err(ProofExpired)
    else Ok(match held.facts
      case GroupsUnavailable(_, reason) => ViewUnavailable(reason)
      case GroupsExpired(_) => ViewExpired
      case GroupsAvailable(_, _, _, _, _, values) =>
        if now >= held.expires then ViewExpired else ViewAvailable(values, proof, held.expires))
  }

  function ValuesAt(view: GroupView, now: real): Result<seq<string>, AccessError>
    requires view.ViewAvailable?
  {
    if now >= view.proof then Err(ProofExpired)
    else if now >= view.expires then Err(SnapshotExpired)
    else Ok(view.values)
  }

  /** Facts that are structurally valid at the sample always get a deadline. */
  lemma HoldingNeverFails(facts: Groups, sample: Sample)
    requires sample.micros > 0
    ensures HoldGroups(facts, sample).Ok? <==> StructurallyValidAt(facts, sample.Seconds())
  {
  }

  /**
    Values read from a view that was obtained and kept in any way are the snapshot's own, are read before the proof ends,
    and while database time is strictly before the signed end of the snapshot.
  */
  lemma ValuesNeverOutliveTheirSnapshot(
    facts: Groups, sample: Sample, queried: real, offset: real, proof: real, viewed: real, now: real)
    requires sample.Taken(queried, offset) && HoldGroups(facts, sample).Ok? && sample.started <= viewed
        && sample.started <= now
    requires var view := ViewGroups(HoldGroups(facts, sample).value, proof, viewed);
      view.Ok? && view.value.ViewAvailable? && ValuesAt(view.value, now).Ok?
    ensures facts.GroupsAvailable?
    ensures ValuesAt(ViewGroups(HoldGroups(facts, sample).value, proof, viewed).value, now).value == facts.values
    ensures now < proof && now + offset < (facts.expires * MICROS) as real
  {
    DeadlineIsSafe(sample, facts.expires, queried, offset, now);
  }

  // Department facts held by a checked identity

  datatype HeldDepartment =
    | HeldUnavailable(reason: Reason)
    | HeldExpired
    | HeldAvailable(observed: I64, end: I64, snapshot: Department.Snapshot, expires: real)

  function HoldDepartment(o: Observation<Department.Snapshot>, sample: Sample): Result<HeldDepartment, Error> {
    match o
    case Unavailable(reason) => Ok(HeldUnavailable(reason))
    case Available(_, observed, expires, snapshot) =>
      if !AcceptableObservation(observed, sample.Seconds()) then Err(Rejected)
      else if sample.Seconds() < observed then Ok(HeldUnavailable(NotYetValid))
      else if sample.Seconds() >= expires then Ok(HeldExpired)
      else
        var end := Deadline(sample, expires);
        if end.Err? then Err(end.error) else Ok(HeldAvailable(observed, expires, snapshot, end.value))
  }

  /** One access: the view is made at `viewed` and its snapshot read at `now`. */
  function SnapshotAt(held: HeldDepartment, proof: real, viewed: real, now: real)
    : Result<Option<Department.Snapshot>, AccessError>
  {
    if viewed >= proof then Err(ProofExpired)
    else match held
      case HeldUnavailable(_) => Ok(None)
      case HeldExpired => Ok(None)
      case HeldAvailable(_, _, snapshot, expires) =>
        if viewed >= expires then Ok(None)
        else if now >= proof then Err(ProofExpired)
        else if now >= expires then Err(SnapshotExpired)
        else Ok(Some(snapshot))
  }

  /** A department snapshot is read only between its observation and its end, by database time. */
  lemma SnapshotNeverOutlivesItself(
    o: Observation<Department.Snapshot>, sample: Sample, queried: real, offset: real, proof: real, viewed: real, now: real)
    requires sample.Taken(queried, offset) && HoldDepartment(o, sample).Ok? && sample.started <= viewed && queried <= now
    requires var r := SnapshotAt(HoldDepartment(o, sample).value, proof, viewed, now); r.Ok? && r.value.Some?
    ensures o.Available? && SnapshotAt(HoldDepartment(o, sample).value, proof, viewed, now).value == Some(o.value)
    ensures (o.observed * MICROS) as real <= now + offset < (o.expires * MICROS) as real && now < proof
  {
    DeadlineIsSafe(sample, o.expires, queried, offset, now);
    ObservedBefore(sample, o.observed, queried, offset);
  }

  lemma ObservedBefore(sample: Sample, observed: int, queried: real, offset: real)
    requires sample.Taken(queried, offset) && observed <= sample.Seconds()
    ensures (observed * MICROS) as real <= queried + offset
  {
    assert observed * MICROS <= sample.micros;
  }

  // Native token proofs

  /** The database clock is rounded up to milliseconds, so that the conversion cannot extend the token. */
  function ProofExpiry(exp: I64, nowMillis: I64, sampled: real, budget: real): Result<real, Error> {
    var end := Checked(exp * 1000);
    if end.None? then Err(Rejected)
    else
      var remaining := Checked(end.value - nowMillis);
      if remaining.None? || remaining.value <= 0 then Err(Rejected)
      else
        var limit := sampled + (Min(remaining.value, 10_000) * 1000) as real;
        Ok(if limit <= budget then limit else budget)
  }

  /** A proof is live only while database time is strictly before the token's end, ten seconds at most. */
  lemma ProofIsSafe(exp: I64, nowMillis: I64, sampled: real, budget: real, queried: real, offset: real, now: real)
    requires queried >= sampled && queried + offset <= (nowMillis * 1000) as real
    requires ProofExpiry(exp, nowMillis, sampled, budget).Ok?
    requires sampled <= now < ProofExpiry(exp, nowMillis, sampled, budget).value
    ensures now + offset < (exp * MICROS) as real
    ensures now < budget && now < sampled + 10_000_000.0
  {
  }

  /** It is refused exactly when the token has ended, or its times do not fit the arithmetic. */
  lemma ProofRefusal(exp: I64, nowMillis: I64, sampled: real, budget: real)
    requires nowMillis > 0
    ensures ProofExpiry(exp, nowMillis, sampled, budget).Err? <==> exp * 1000 <= nowMillis || exp * 1000 > I64_MAX
  {
  }
}
