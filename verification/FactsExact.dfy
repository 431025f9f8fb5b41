/**
  When authentication facts are collected, decoded, shown and read, and what each of these gives: the conditions and the
  results written out, without the functions that compute them.
*/
module FactsExact {
  import opened Common
  import opened Text
  import opened ExternalSubjects
  import opened Deadlines
  import Department
  import F = Facts

  // Collection

  /** A token issued at most half a minute ahead, still running, whose lifetime is not empty. */
  predicate InTime(issued: I64, expires: I64, now: I64) {
    && issued > 0 && now > 0 && issued - now <= 30
    && expires > issued && expires > now
  }

  predicate CanonicalGroups(values: seq<string>) {
    && |values| <= 100
    && (forall v :: v in values ==> v != "" && Utf8Length(v) <= 256 && forall c :: c in v ==> !IsControl(c))
    && (forall i :: 0 <= i < |values| - 1 ==> Before(values[i], values[i + 1]))
  }

  predicate WellFormed(token: F.Token) {
    && token.wellFormed && token.issued > 0 && token.expires > token.issued
    && (token.groups.GroupsPresent? ==> CanonicalGroups(token.groups.values))
  }

  /** A provider that maps departments gets an answer about them, one that does not gets none. */
  predicate MappedAlike(token: F.Token, mapping: Option<I64>) {
    mapping.None? <==> token.department.DepartmentNotConfigured?
  }

  lemma CanonicalAlike(values: seq<string>)
    ensures F.CanonicalValues(values) <==> CanonicalGroups(values)
  {
    if CanonicalGroups(values) {
      forall i | 0 <= i < |values|
        ensures values[i] != "" && Utf8Length(values[i]) <= 256 && Printable(values[i])
      {
        assert values[i] in values;
      }
      forall i | 0 < i < |values| ensures Before(values[i - 1], values[i]) {
        assert Before(values[i - 1], values[i - 1 + 1]);
      }
    }
    if F.CanonicalValues(values) {
      forall i | 0 <= i < |values| - 1 ensures Before(values[i], values[i + 1]) {
        assert Before(values[i + 1 - 1], values[i + 1]);
      }
    }
  }

  /** The deadline exists exactly for a token in time whose bound fits the arithmetic. */
  lemma ExpiresExactly(maxAge: I64, issued: I64, expires: I64, now: I64)
    requires 1 <= maxAge <= 300
    ensures var r := F.ExpiresAt(maxAge, issued, expires, now);
      && (r.Ok? <==> InTime(issued, expires, now) && issued + maxAge <= I64_MAX)
      && (r.Ok? ==> r.value == if issued + maxAge < expires then issued + maxAge else expires)
      && (r.Err? ==> r.error == F.Claims)
  {
  }

  /** Everything a collection must have. */
  predicate Collectable(token: F.Token, version: I64, maxAge: I64, mapping: Option<I64>, now: I64) {
    && WellFormed(token) && version >= 1
    && InTime(token.issued, token.expires, now) && token.issued + maxAge <= I64_MAX
    && MappedAlike(token, mapping)
    && (mapping.Some? && token.department.DepartmentPresent? ==> token.issued + mapping.value <= I64_MAX)
  }

  /** Which fact is stored of the groups a token carries, does not carry, or was never asked for. */
  predicate GroupsAre(o: F.Observation<seq<string>>, token: F.Token, maxAge: I64, id: Uuid) {
    && (token.groups.GroupsNotConfigured? ==> o == F.Unavailable(F.NotConfigured))
    && (token.groups.GroupsMissing? ==> o == F.Unavailable(F.ClaimMissing))
    && (token.groups.GroupsPresent? ==>
      && o.Available? && o.id == id && o.observed == token.issued && o.value == token.groups.values
      && o.expires == if token.issued + maxAge < token.expires then token.issued + maxAge else token.expires)
  }

  predicate DepartmentIs(
    o: F.Observation<Department.Snapshot>, token: F.Token, mapping: Option<I64>, id: Uuid)
    requires MappedAlike(token, mapping)
  {
    && (token.department.DepartmentNotConfigured? ==> o == F.Unavailable(F.NotConfigured))
    && (token.department.DepartmentMissing? ==> o == F.Unavailable(F.ClaimMissing))
    && (token.department.DepartmentInvalid? ==> o == F.Unavailable(F.InvalidClaim))
    && (token.department.DepartmentPresent? ==>
      && o.Available? && o.id == id && o.observed == token.issued && o.value == token.department.snapshot
      && o.expires ==
        if token.issued + mapping.value < token.expires then token.issued + mapping.value else token.expires)
  }

  /** A collection succeeds exactly then, and leaves this record; every refusal is one of the claims. */
  lemma CollectsExactly(token: F.Token, version: I64, maxAge: I64, mapping: Option<I64>, ids: (Uuid, Uuid), now: I64)
    requires 1 <= maxAge <= 300 && (mapping.Some? ==> 1 <= mapping.value <= 300)
    ensures var r := F.Collect(token, version, maxAge, mapping, ids, now);
      && (r.Ok? <==> Collectable(token, version, maxAge, mapping, now))
      && (r.Err? ==> r.error == F.Claims)
      && (r.Ok? ==>
        && r.value.format == 3 && r.value.version == version && r.value.assurance == token.assurance
        && GroupsAre(r.value.groups, token, maxAge, ids.0)
        && DepartmentIs(r.value.department, token, mapping, ids.1))
  {
    if token.groups.GroupsPresent? {
      CanonicalAlike(token.groups.values);
    }
    ExpiresExactly(maxAge, token.issued, token.expires, now);
    if mapping.Some? {
      ExpiresExactly(mapping.value, token.issued, token.expires, now);
    }
  }

  // Decoding

  /** A window of one to three hundred seconds that begins after the epoch. */
  predicate Windowed(observed: I64, expires: I64) {
    observed > 0 && 1 <= expires - observed <= 300
  }

  predicate Stored(r: F.Record) {
    && r.format == 3 && r.version >= 1
    && (r.groups.Unavailable? ==> r.groups.reason == F.NotConfigured || r.groups.reason == F.ClaimMissing)
    && (r.groups.Available? ==>
      r.groups.id != NIL && Windowed(r.groups.observed, r.groups.expires) && CanonicalGroups(r.groups.value))
    && (r.department.Unavailable? ==>
      r.department.reason == F.NotConfigured || r.department.reason == F.ClaimMissing
      || r.department.reason == F.InvalidClaim)
    && (r.department.Available? ==> r.department.id != NIL && Windowed(r.department.observed, r.department.expires))
  }

  /** The encoding of a record decodes exactly when the record may be stored, and then to the record. */
  lemma DecodesExactly(r: F.Record)
    requires r.department.Available? ==> F.ValidSnapshot(r.department.value)
    ensures F.Decode(F.RecordJson(r)) == if Stored(r) then Ok(r) else Err(F.Corrupt)
  {
    RecordRead(r);
    StoredAlike(r);
  }

  /** The encoding of a record reads as the record, unless its format is no 64-bit number. */
  lemma RecordRead(r: F.Record)
    requires r.department.Available? ==> F.ValidSnapshot(r.department.value)
    ensures F.ReadRecord(F.RecordJson(r)) == if I64_MIN <= r.format <= I64_MAX then Some(r) else None
  {
    F.RecordMembers(r);
    if I64_MIN <= r.format <= I64_MAX {
      F.GroupsRead(r.groups);
      F.DepartmentRead(r.department);
      F.A.Decodes(r.assurance);
      F.RecordOf(F.RecordJson(r), r);
    }
  }

  lemma StoredAlike(r: F.Record)
    ensures Stored(r) <==> F.Storable(r) && F.TypedGroups(r.groups)
  {
    if r.groups.Available? {
      CanonicalAlike(r.groups.value);
    }
  }

  /** The names under which the parts of an observation are stored, and the name of each reason. */
  lemma WrittenExactly(o: F.Observation<seq<string>>)
    ensures F.GroupsJson(o).Object?
    ensures var m := F.GroupsJson(o).members;
      match o
      case Unavailable(reason) =>
        m == map[
          "status" := F.J.String("unavailable"),
          "reason" := F.J.String(
            if reason == F.LocalIdentity then "local_identity"
            else if reason == F.NotConfigured then "not_configured"
            else if reason == F.ClaimMissing then "claim_missing"
            else if reason == F.InvalidClaim then "invalid_claim"
            else "not_yet_valid")]
      case Available(id, observed, expires, values) =>
        m == map[
          "status" := F.J.String("available"), "snapshot_id" := F.J.String(Hyphenated(id)),
          "observed_at" := F.J.Number(observed as real), "expires_at" := F.J.Number(expires as real),
          "values" := F.J.Strings(values)]
  {
  }

  // Showing

  /** What is shown of groups at any time: refused far ahead, not yet valid ahead, then the values, then their end. */
  lemma ProjectsExactly(r: F.Record, now: I64)
    requires F.Storable(r) && now > 0
    ensures var p := F.Project(r, now);
      match r.groups
      case Unavailable(reason) => p == Ok(F.GroupsUnavailable(1, reason))
      case Available(id, observed, expires, values) =>
        p == if observed - now > 30 then Err(F.Rejected)
             else if observed > now then Ok(F.GroupsUnavailable(1, F.NotYetValid))
             else if now < expires then Ok(F.GroupsAvailable(1, id, r.version, observed, expires, values))
             else Ok(F.GroupsExpired(1))
  {
  }

  /** Groups are structurally valid exactly in this version and, when available, with an identifier, a window and values. */
  lemma ValidExactly(g: F.Groups, now: I64)
    requires now > 0
    ensures F.StructurallyValidAt(g, now) <==>
      && g.version == 1
      && (g.GroupsAvailable? ==>
        && g.id != NIL && g.config >= 1 && g.observed - now <= 30
        && Windowed(g.observed, g.expires) && CanonicalGroups(g.values))
  {
    if g.GroupsAvailable? {
      CanonicalAlike(g.values);
    }
  }

  // Reading

  /** The last instant before a second, as the sample knows it; the sample's own start when that has passed. */
  function LastInstant(sample: Sample, seconds: I64): real {
    var left := seconds * 1_000_000 - sample.micros - 1;
    if left > 0 then sample.started + left as real else sample.started
  }

  /** A second after the epoch has a deadline, unless it is farther away than 64 bits of microseconds. */
  lemma DeadlinesExactly(sample: Sample, seconds: I64)
    ensures Deadline(sample, seconds) ==
      if seconds >= 1 && seconds * 1_000_000 - sample.micros - 1 <= 18_446_744_073_709_551_615
      then Ok(LastInstant(sample, seconds)) else Err(F.Corrupt)
  {
  }

  /** Which view a holder of available groups gets, and which value or error each reading of it. */
  lemma ValuesAreReadExactly(facts: F.Groups, sample: Sample, proof: real, viewed: real, now: real)
    requires sample.micros > 0 && facts.GroupsAvailable? && HoldGroups(facts, sample).Ok?
    ensures var view := ViewGroups(HoldGroups(facts, sample).value, proof, viewed);
      var end := LastInstant(sample, facts.expires);
      if viewed >= proof then view == Err(ProofExpired)
      else if viewed >= end then view == Ok(ViewExpired)
      else
        && view == Ok(ViewAvailable(facts.values, proof, end))
        && ValuesAt(view.value, now) ==
          if now >= proof then Err(ProofExpired) else if now >= end then Err(SnapshotExpired) else Ok(facts.values)
  {
  }

  /** Groups that are not available are shown as what they are, while the proof lasts. */
  lemma OthersAreShownExactly(facts: F.Groups, sample: Sample, proof: real, viewed: real)
    requires !facts.GroupsAvailable? && HoldGroups(facts, sample).Ok?
    ensures ViewGroups(HoldGroups(facts, sample).value, proof, viewed) ==
      if viewed >= proof then Err(ProofExpired)
      else if facts.GroupsExpired? then Ok(ViewExpired)
      else Ok(ViewUnavailable(facts.reason))
  {
  }

  /** What is held of a department fact of whole windows, by database time. */
  lemma DepartmentIsHeldExactly(o: F.Observation<Department.Snapshot>, sample: Sample)
    requires sample.micros >= 1_000_000 && (o.Available? ==> Windowed(o.observed, o.expires))
    ensures var t := sample.micros / 1_000_000;
      HoldDepartment(o, sample) ==
        match o
        case Unavailable(reason) => Ok(HeldUnavailable(reason))
        case Available(_, observed, expires, snapshot) =>
          if observed - t > 30 then Err(F.Rejected)
          else if observed > t then Ok(HeldUnavailable(F.NotYetValid))
          else if t < expires then Ok(HeldAvailable(observed, expires, snapshot, LastInstant(sample, expires)))
          else Ok(HeldExpired)
  {
  }

  /** One access to it: the snapshot while the proof and the snapshot last, and which error afterwards. */
  lemma SnapshotIsReadExactly(held: HeldDepartment, proof: real, viewed: real, now: real)
    ensures SnapshotAt(held, proof, viewed, now) ==
      if viewed >= proof then Err(ProofExpired)
      else if !held.HeldAvailable? || viewed >= held.expires then Ok(None)
      else if now >= proof then Err(ProofExpired)
      else if now >= held.expires then Err(SnapshotExpired)
      else Ok(Some(held.snapshot))
  {
  }

  /** A native proof ends with the token or ten seconds after the sample, whichever is first, and within the budget. */
  lemma ProofExpiresExactly(exp: I64, nowMillis: I64, sampled: real, budget: real)
    requires nowMillis > 0 && ProofExpiry(exp, nowMillis, sampled, budget).Ok?
    ensures var left := if exp * 1000 - nowMillis < 10_000 then exp * 1000 - nowMillis else 10_000;
      var end := sampled + (left * 1000) as real;
      ProofExpiry(exp, nowMillis, sampled, budget) == Ok(if end <= budget then end else budget)
  {
  }
}
