/**
  Authentication facts: what is collected from a verified token, how it is stored, and what it says as time passes.
  Group values and the department snapshot are independent; each is fixed by the token's own times.
*/
module Facts {
  import opened Common
  import opened Text
  import opened ExternalSubjects
  import A = Assurances
  import Department
  import J = Json

  const MIN_TTL: int := 1
  const MAX_TTL: int := 300
  const MAX_FUTURE_SKEW: int := 30
  const STORED_BYTES: nat := 32768
  const FORMAT: int := 3
  const GROUPS_VERSION: int := 1

  datatype Error = Claims | Corrupt | Rejected

  // Times

  predicate ValidMaxAge(seconds: int) { MIN_TTL <= seconds <= MAX_TTL }

  predicate ValidWindow(observed: I64, expires: I64) {
    observed > 0 && Checked(expires - observed).Some? && ValidMaxAge(expires - observed)
  }

  predicate AcceptableObservation(observed: I64, now: I64) {
    observed > 0 && now > 0 && Checked(observed - now).Some? && observed - now <= MAX_FUTURE_SKEW
  }

  /** The deadline the signed times fix: no later than the token's own, and `maxAge` seconds at most. */
  function ExpiresAt(maxAge: I64, issued: I64, expires: I64, now: I64): (r: Result<I64, Error>)
    ensures r.Ok? && ValidMaxAge(maxAge) ==> ValidWindow(issued, r.value) && r.value == Min(issued + maxAge, expires)
  {
    if !AcceptableObservation(issued, now) || expires <= issued || expires <= now then Err(Claims)
    else
      var end := Checked(issued + maxAge);
      if end.None? then Err(Claims) else Ok(Min(end.value, expires))
  }

  // Group values

  predicate BoundedValues(values: seq<string>) {
    |values| <= 100 && forall i :: 0 <= i < |values| ==>
      values[i] != "" && Utf8Length(values[i]) <= 256 && Printable(values[i])
  }

  predicate CanonicalValues(values: seq<string>) {
    BoundedValues(values) && Ascending(values)
  }

  /** A value put into its place among sorted ones, unless it is there. */
  function Inserted(values: seq<string>, v: string): seq<string> {
    if values == [] then [v]
    else if values[0] == v then values
    else if Before(v, values[0]) then [v] + values
    else [values[0]] + Inserted(values[1..], v)
  }

  predicate Ascending(values: seq<string>) {
    forall i :: 0 < i < |values| ==> Before(values[i - 1], values[i])
  }

  lemma {:induction false} InsertedAscends(values: seq<string>, v: string)
    requires Ascending(values)
    ensures Ascending(Inserted(values, v))
    ensures forall x :: x in Inserted(values, v) <==> x in values || x == v
    ensures |Inserted(values, v)| <= |values| + 1
    ensures values != [] && Before(values[0], v) ==> Inserted(values, v)[0] == values[0]
  {
    if values != [] {
      BeforeOrders(v, values[0], v);
      if values[0] != v && !Before(v, values[0]) {
        assert forall i :: 0 < i < |values[1..]| ==> values[1..][i - 1] == values[i] && values[1..][i] == values[i + 1];
        InsertedAscends(values[1..], v);
        assert values == [values[0]] + values[1..];
        var rest := Inserted(values[1..], v);
        if |values| > 1 {
          BeforeOrders(values[0], values[1], v);
          BeforeOrders(values[1], v, values[1]);
        }
      }
    }
  }

  /** Sorts and removes repetitions: the same values, in canonical form. */
  method PresentGroups(values: seq<string>) returns (r: Option<seq<string>>)
    ensures r.Some? <==> |values| <= 100 && forall i :: 0 <= i < |values| ==>
      values[i] != "" && Utf8Length(values[i]) <= 256 && Printable(values[i])
    ensures r.Some? ==> CanonicalValues(r.value) && forall v :: v in r.value <==> v in values
  {
    if !BoundedValues(values) { return None; }
    var sorted: seq<string> := [];
    for i := 0 to |values|
      invariant Ascending(sorted) && |sorted| <= i
      invariant forall v :: v in sorted <==> v in values[..i]
    {
      InsertedAscends(sorted, values[i]);
      sorted := Inserted(sorted, values[i]);
    }
    assert values[..|values|] == values;
    forall i | 0 <= i < |sorted| ensures sorted[i] != "" && Utf8Length(sorted[i]) <= 256 && Printable(sorted[i]) {
      assert sorted[i] in values;
    }
    r := Some(sorted);
  }

  datatype UpstreamGroups = GroupsNotConfigured | GroupsMissing | GroupsPresent(values: seq<string>)

  datatype UpstreamDepartment =
    DepartmentNotConfigured | DepartmentMissing | DepartmentInvalid | DepartmentPresent(snapshot: Department.Snapshot)

  datatype Token = Token(
    issued: I64, expires: I64, groups: UpstreamGroups, department: UpstreamDepartment, assurance: A.Assurance,
    wellFormed: bool)
  {
    predicate Valid() {
      && wellFormed
      && (groups.GroupsPresent? ==> CanonicalValues(groups.values))
      && issued > 0 && expires > issued
    }
  }

  // What is stored

  datatype Reason = LocalIdentity | NotConfigured | ClaimMissing | InvalidClaim | NotYetValid
  {
    function Name(): string {
      match this
      case LocalIdentity => "local_identity"
      case NotConfigured => "not_configured"
      case ClaimMissing => "claim_missing"
      case InvalidClaim => "invalid_claim"
      case NotYetValid => "not_yet_valid"
    }
  }

  datatype Observation<T> =
    | Unavailable(reason: Reason)
    | Available(id: Uuid, observed: I64, expires: I64, value: T)

  datatype Record = Record(
    format: int,
    version: I64,
    assurance: A.Assurance,
    groups: Observation<seq<string>>,
    department: Observation<Department.Snapshot>
  )

  /** The input of a mapping: the maximum age of a department snapshot, if the provider maps one. */
  function CollectDepartment(token: Token, mapping: Option<I64>, id: Uuid, now: I64)
    : Result<Observation<Department.Snapshot>, Error>
  {
    match (token.department, mapping)
    case (DepartmentNotConfigured, None) => Ok(Unavailable(NotConfigured))
    case (DepartmentMissing, Some(_)) => Ok(Unavailable(ClaimMissing))
    case (DepartmentInvalid, Some(_)) => Ok(Unavailable(InvalidClaim))
    case (DepartmentPresent(snapshot), Some(maxAge)) =>
      var end := ExpiresAt(maxAge, token.issued, token.expires, now);
      if end.Err? then Err(end.error) else Ok(Available(id, token.issued, end.value, snapshot))
    case (_, _) => Err(Claims)
  }

  function CollectGroups(token: Token, id: Uuid, expires: I64): Observation<seq<string>> {
    match token.groups
    case GroupsNotConfigured => Unavailable(NotConfigured)
    case GroupsMissing => Unavailable(ClaimMissing)
    case GroupsPresent(values) => Available(id, token.issued, expires, values)
  }

  function Collect(token: Token, version: I64, maxAge: I64, mapping: Option<I64>, ids: (Uuid, Uuid), now: I64)
    : Result<Record, Error>
  {
    if !token.Valid() then Err(Claims)
    else
      var end := ExpiresAt(maxAge, token.issued, token.expires, now);
      if end.Err? then Err(end.error)
      else if version < 1 then Err(Claims)
      else
        var department := CollectDepartment(token, mapping, ids.1, now);
        if department.Err? then Err(department.error)
        else Ok(Record(FORMAT, version, token.assurance, CollectGroups(token, ids.0, end.value), department.value))
  }

  // The codec

  function Id(id: Uuid): J.Value { J.String(Hyphenated(id)) }

  function NodeJson(n: Department.Node): J.Value {
    J.Object(map[
      "id" := J.String(n.id), "displayName" := J.String(n.name),
      "parentId" := if n.parent.None? then J.Null else J.String(n.parent.value)])
  }

  function NodesJson(nodes: seq<Department.Node>): (r: seq<J.Value>)
    ensures |r| == |nodes| && forall i :: 0 <= i < |nodes| ==> r[i] == NodeJson(nodes[i])
  {
    if nodes == [] then [] else [NodeJson(nodes[0])] + NodesJson(nodes[1..])
  }

  function SnapshotJson(s: Department.Snapshot): J.Value {
    J.Object(map[
      "version" := J.Integer(1), "sourceRevision" := J.String(s.revision), "nodes" := J.Array(NodesJson(s.nodes)),
      "memberships" := J.Strings(s.memberships)])
  }

  function UnavailableJson(reason: Reason): J.Value {
    J.Object(map["status" := J.String("unavailable"), "reason" := J.String(reason.Name())])
  }

  function AvailableJson(id: Uuid, observed: I64, expires: I64, key: string, value: J.Value): J.Value {
    J.Object(map[
      "status" := J.String("available"), "snapshot_id" := Id(id), "observed_at" := J.Integer(observed),
      "expires_at" := J.Integer(expires), key := value])
  }

  function GroupsJson(o: Observation<seq<string>>): J.Value {
    match o
    case Unavailable(reason) => UnavailableJson(reason)
    case Available(id, observed, expires, values) => AvailableJson(id, observed, expires, "values", J.Strings(values))
  }

  function DepartmentJson(o: Observation<Department.Snapshot>): J.Value {
    match o
    case Unavailable(reason) => UnavailableJson(reason)
    case Available(id, observed, expires, s) => AvailableJson(id, observed, expires, "snapshot", SnapshotJson(s))
  }

  function RecordJson(r: Record): J.Value {
    J.Object(map[
      "format_version" := J.Integer(r.format), "provider_config_version" := J.Integer(r.version),
      "assurance" := A.Encode(r.assurance), "groups" := GroupsJson(r.groups),
      "department_snapshot" := DepartmentJson(r.department)])
  }

  ghost function ReadId(v: J.Value): (r: Option<Uuid>)
    ensures r.Some? ==> v == Id(r.value)
  {
    if exists id: Uuid :: v == Id(id) then
      var id: Uuid :| v == Id(id);
      Some(id)
    else None
  }

  function ReadReason(v: J.Value): Option<Reason> {
    if v == J.String("local_identity") then Some(LocalIdentity)
    else if v == J.String("not_configured") then Some(NotConfigured)
    else if v == J.String("claim_missing") then Some(ClaimMissing)
    else if v == J.String("invalid_claim") then Some(InvalidClaim)
    else if v == J.String("not_yet_valid") then Some(NotYetValid)
    else None
  }

  ghost predicate ValidNode(n: Department.Node) {
    && Department.ValidId(n.id) && Department.ValidId(n.name)
    && (n.parent.Some? ==> Department.ValidId(n.parent.value))
  }

  /** A snapshot as its types and its constructor demand it. */
  ghost predicate ValidSnapshot(s: Department.Snapshot) {
    && Department.IsTree(s)
    && (forall i :: 0 <= i < |s.nodes| ==> ValidNode(s.nodes[i]))
    && (forall i :: 0 <= i < |s.memberships| ==> Department.ValidId(s.memberships[i]))
  }

  const NODE_KEYS: set<string> := {"id", "displayName", "parentId"}
  const SNAPSHOT_KEYS: set<string> := {"version", "sourceRevision", "nodes", "memberships"}
  const UNAVAILABLE_KEYS: set<string> := {"status", "reason"}
  const RECORD_KEYS: set<string> :=
    {"format_version", "provider_config_version", "assurance", "groups", "department_snapshot"}

  function AvailableKeys(key: string): set<string> {
    {"status", "snapshot_id", "observed_at", "expires_at", key}
  }

  ghost function ReadNode(v: J.Value): Option<Department.Node> {
    if !J.Closed(v, NODE_KEYS) then None
    else
      var id, name, parent := v.members["id"], v.members["displayName"], v.members["parentId"];
      if !id.String? || !name.String? || !(parent.Null? || parent.String?) then None
      else
        var n := Department.Node(id.text, name.text, if parent.Null? then None else Some(parent.text));
        if ValidNode(n) then Some(n) else None
  }

  ghost function ReadNodes(items: seq<J.Value>): (r: Option<seq<Department.Node>>) {
    if items == [] then Some([])
    else
      var first, others := ReadNode(items[0]), ReadNodes(items[1..]);
      if first.None? || others.None? then None else Some([first.value] + others.value)
  }

  ghost function ReadSnapshot(v: J.Value): Option<Department.Snapshot> {
    if !J.Closed(v, SNAPSHOT_KEYS) || v.members["version"] != J.Integer(1) then None
    else
      var revision, nodes, memberships := v.members["sourceRevision"], v.members["nodes"], v.members["memberships"];
      if !revision.String? || !nodes.Array? || !memberships.Array? || !J.AreStrings(memberships.items) then None
      else
        var list := ReadNodes(nodes.items);
        if list.None? then None
        else
          var s := Department.Snapshot(revision.text, list.value, J.Texts(memberships.items));
          if ValidSnapshot(s) then Some(s) else None
  }

  ghost function ReadUnavailable<T>(v: J.Value): Option<Observation<T>> {
    if !J.Closed(v, UNAVAILABLE_KEYS) || v.members["status"] != J.String("unavailable") then None
    else
      var reason := ReadReason(v.members["reason"]);
      if reason.None? then None else Some(Unavailable(reason.value))
  }

  ghost function ReadAvailable(v: J.Value, key: string): Option<(Uuid, I64, I64, J.Value)> {
    if !J.Closed(v, AvailableKeys(key)) || v.members["status"] != J.String("available") then None
    else
      var id, observed, expires :=
        ReadId(v.members["snapshot_id"]), J.ReadI64(v.members["observed_at"]), J.ReadI64(v.members["expires_at"]);
      if id.None? || observed.None? || expires.None? then None
      else Some((id.value, observed.value, expires.value, v.members[key]))
  }

  ghost function ReadGroups(v: J.Value): Option<Observation<seq<string>>> {
    var available := ReadAvailable(v, "values");
    if available.None? then ReadUnavailable(v)
    else
      var (id, observed, expires, values) := available.value;
      if !values.Array? || !J.AreStrings(values.items) then None
      else Some(Available(id, observed, expires, J.Texts(values.items)))
  }

  ghost function ReadDepartment(v: J.Value): Option<Observation<Department.Snapshot>> {
    var available := ReadAvailable(v, "snapshot");
    if available.None? then ReadUnavailable(v)
    else
      var (id, observed, expires, value) := available.value;
      var s := ReadSnapshot(value);
      if s.None? then None else Some(Available(id, observed, expires, s.value))
  }

  ghost function ReadRecord(v: J.Value): Option<Record> {
    if !J.Closed(v, RECORD_KEYS) then None
    else
      var format, version := J.ReadI64(v.members["format_version"]), J.ReadI64(v.members["provider_config_version"]);
      var groups, department := ReadGroups(v.members["groups"]), ReadDepartment(v.members["department_snapshot"]);
      var assurance := A.Decode(v.members["assurance"]);
      if format.None? || version.None? || assurance.None? || groups.None? || department.None? then None
      else Some(Record(format.value, version.value, assurance.value, groups.value, department.value))
  }

  predicate StorableGroups(o: Observation<seq<string>>) {
    match o
    case Unavailable(reason) => reason == NotConfigured || reason == ClaimMissing
    case Available(id, observed, expires, values) => id != NIL && ValidWindow(observed, expires) && CanonicalValues(values)
  }

  predicate StorableDepartment(o: Observation<Department.Snapshot>) {
    match o
    case Unavailable(reason) => reason == NotConfigured || reason == ClaimMissing || reason == InvalidClaim
    case Available(id, observed, expires, _) => id != NIL && ValidWindow(observed, expires)
  }

  predicate Storable(r: Record) {
    r.format == FORMAT && r.version >= 1 && StorableGroups(r.groups) && StorableDepartment(r.department)
  }

  /** Group facts know four reasons; a department's fifth one is not among them. */
  predicate TypedGroups(o: Observation<seq<string>>) {
    o.Unavailable? ==> o.reason != InvalidClaim
  }

  ghost function Decode(v: J.Value): Result<Record, Error> {
    var r := ReadRecord(v);
    if r.None? || !TypedGroups(r.value.groups) || !Storable(r.value) then Err(Corrupt) else Ok(r.value)
  }

  // Round trips

  lemma NodeRead(n: Department.Node)
    requires ValidNode(n)
    ensures ReadNode(NodeJson(n)) == Some(n)
  {
    var m := NodeJson(n).members;
    assert m.Keys == NODE_KEYS;
    assert |"id"| != |"displayName"| && |"id"| != |"parentId"| && |"displayName"| != |"parentId"|;
    assert m["id"] == J.String(n.id) && m["displayName"] == J.String(n.name);
  }

  lemma NodesReadOn(items: seq<J.Value>, first: Department.Node, others: seq<Department.Node>)
    requires items != [] && ReadNode(items[0]) == Some(first) && ReadNodes(items[1..]) == Some(others)
    ensures ReadNodes(items) == Some([first] + others)
  {
  }

  lemma {:induction false} NodesRead(nodes: seq<Department.Node>)
    requires forall i :: 0 <= i < |nodes| ==> ValidNode(nodes[i])
    ensures ReadNodes(NodesJson(nodes)) == Some(nodes)
  {
    if nodes == [] {
      assert NodesJson(nodes) == [];
    } else {
      NodesRead(nodes[1..]);
      NodeRead(nodes[0]);
      assert NodesJson(nodes)[1..] == NodesJson(nodes[1..]);
      NodesReadOn(NodesJson(nodes), nodes[0], nodes[1..]);
      assert nodes == [nodes[0]] + nodes[1..];
    }
  }

  lemma SnapshotMembers(s: Department.Snapshot)
    ensures
      var m := SnapshotJson(s).members;
      && m.Keys == SNAPSHOT_KEYS
      && m["version"] == J.Integer(1) && m["sourceRevision"] == J.String(s.revision)
      && m["nodes"] == J.Array(NodesJson(s.nodes)) && m["memberships"] == J.Strings(s.memberships)
  {
    assert |"version"| == 7 && |"sourceRevision"| == 14 && |"nodes"| == 5 && |"memberships"| == 11;
  }

  lemma SnapshotOf(v: J.Value, nodes: seq<J.Value>, memberships: seq<J.Value>, s: Department.Snapshot)
    requires J.Closed(v, SNAPSHOT_KEYS) && v.members["version"] == J.Integer(1)
    requires v.members["sourceRevision"] == J.String(s.revision)
    requires v.members["nodes"] == J.Array(nodes) && v.members["memberships"] == J.Array(memberships)
    requires ReadNodes(nodes) == Some(s.nodes) && J.AreStrings(memberships) && J.Texts(memberships) == s.memberships
    requires ValidSnapshot(s)
    ensures ReadSnapshot(v) == Some(s)
  {
  }

  lemma SnapshotRead(s: Department.Snapshot)
    requires ValidSnapshot(s)
    ensures ReadSnapshot(SnapshotJson(s)) == Some(s)
  {
    NodesRead(s.nodes);
    J.TextsOfStrings(s.memberships);
    SnapshotMembers(s);
    SnapshotOf(SnapshotJson(s), NodesJson(s.nodes), J.Strings(s.memberships).items, s);
  }

  lemma UnavailableRead<T>(reason: Reason)
    ensures ReadUnavailable<T>(UnavailableJson(reason)) == Some(Unavailable(reason))
  {
    assert UnavailableJson(reason).members.Keys == UNAVAILABLE_KEYS;
  }

  lemma NotAvailable(reason: Reason, key: string)
    ensures ReadAvailable(UnavailableJson(reason), key) == None
  {
    assert UnavailableJson(reason).members["status"] == J.String("unavailable");
    assert "unavailable" != "available" by {
      assert |"unavailable"| != |"available"|;
    }
  }

  lemma AvailableRead(id: Uuid, observed: I64, expires: I64, key: string, value: J.Value)
    requires key == "values" || key == "snapshot"
    ensures ReadAvailable(AvailableJson(id, observed, expires, key, value), key) == Some((id, observed, expires, value))
  {
    var v := AvailableJson(id, observed, expires, key, value);
    assert v.members.Keys == AvailableKeys(key);
    assert v.members[key] == value;
    assert v.members["status"] == J.String("available") && v.members["snapshot_id"] == Id(id);
    assert v.members["observed_at"] == J.Integer(observed) && v.members["expires_at"] == J.Integer(expires);
    HyphenatedInjective(id, ReadId(Id(id)).value);
  }

  lemma GroupsRead(o: Observation<seq<string>>)
    ensures ReadGroups(GroupsJson(o)) == Some(o)
  {
    match o
    case Unavailable(reason) =>
      NotAvailable(reason, "values");
      UnavailableRead<seq<string>>(reason);
    case Available(id, observed, expires, values) =>
      AvailableRead(id, observed, expires, "values", J.Strings(values));
      J.TextsOfStrings(values);
  }

  lemma DepartmentRead(o: Observation<Department.Snapshot>)
    requires o.Available? ==> ValidSnapshot(o.value)
    ensures ReadDepartment(DepartmentJson(o)) == Some(o)
  {
    match o
    case Unavailable(reason) =>
      NotAvailable(reason, "snapshot");
      UnavailableRead<Department.Snapshot>(reason);
    case Available(id, observed, expires, s) =>
      AvailableRead(id, observed, expires, "snapshot", SnapshotJson(s));
      SnapshotRead(s);
  }

  lemma RecordMembers(r: Record)
    ensures
      var m := RecordJson(r).members;
      && m.Keys == RECORD_KEYS
      && m["format_version"] == J.Integer(r.format) && m["provider_config_version"] == J.Integer(r.version)
      && m["assurance"] == A.Encode(r.assurance) && m["groups"] == GroupsJson(r.groups)
      && m["department_snapshot"] == DepartmentJson(r.department)
  {
    assert |"format_version"| == 14 && |"provider_config_version"| == 23 && |"assurance"| == 9 && |"groups"| == 6
      && |"department_snapshot"| == 19;
  }

  lemma RecordOf(v: J.Value, r: Record)
    requires J.Closed(v, RECORD_KEYS)
    requires J.ReadI64(v.members["format_version"]) == Some(r.format)
    requires J.ReadI64(v.members["provider_config_version"]) == Some(r.version)
    requires A.Decode(v.members["assurance"]) == Some(r.assurance)
    requires ReadGroups(v.members["groups"]) == Some(r.groups)
    requires ReadDepartment(v.members["department_snapshot"]) == Some(r.department)
    ensures ReadRecord(v) == Some(r)
  {
  }

  /** Whatever is storable decodes back unchanged. */
  lemma StorableDecodes(r: Record)
    requires Storable(r) && (r.department.Available? ==> ValidSnapshot(r.department.value))
    ensures Decode(RecordJson(r)) == Ok(r)
  {
    GroupsRead(r.groups);
    DepartmentRead(r.department);
    A.Decodes(r.assurance);
    RecordMembers(r);
    RecordOf(RecordJson(r), r);
  }

  /** Everything collected is storable. */
  lemma CollectedDecodes(token: Token, version: I64, maxAge: I64, mapping: Option<I64>, ids: (Uuid, Uuid), now: I64)
    requires ValidMaxAge(maxAge) && (mapping.Some? ==> ValidMaxAge(mapping.value)) && ids.0 != NIL && ids.1 != NIL
    requires token.department.DepartmentPresent? ==> ValidSnapshot(token.department.snapshot)
    requires Collect(token, version, maxAge, mapping, ids, now).Ok?
    ensures var r := Collect(token, version, maxAge, mapping, ids, now).value;
      Storable(r) && (r.department.Available? ==> ValidSnapshot(r.department.value)) && Decode(RecordJson(r)) == Ok(r)
  {
    StorableDecodes(Collect(token, version, maxAge, mapping, ids, now).value);
  }

  // Encoding within the storage limit

  function Withheld(r: Record): Record {
    r.(department := Unavailable(InvalidClaim))
  }

  /**
    The stored form. When it is too large the department fact alone is withheld, by overwriting its member in place;
    `size` is the length of the database's own text for a value.
  */
  method Encode(r: Record, size: J.Value -> nat) returns (v: Result<J.Value, Error>)
    requires Storable(r) && (r.department.Available? ==> ValidSnapshot(r.department.value))
    ensures v.Ok? ==> size(v.value) <= 32_768 && Decode(v.value) == Ok(if Fits(r, size) then r else Withheld(r))
    ensures v.Err? <==> !Fits(r, size) && !(r.department.Available? && Fits(Withheld(r), size))
  {
    var value := RecordJson(r);
    StorableDecodes(r);
    if size(value) > STORED_BYTES {
      if !r.department.Available? { return Err(Rejected); }
      WithholdingPatches(r);
      value := J.Object(value.members["department_snapshot" := DepartmentJson(Unavailable(InvalidClaim))]);
      StorableDecodes(Withheld(r));
      if size(value) > STORED_BYTES { return Err(Rejected); }
    }
    v := Ok(value);
  }

  predicate Fits(r: Record, size: J.Value -> nat) {
    size(RecordJson(r)) <= 32_768
  }

  /** Overwriting one member is the same as encoding the record with that fact withheld. */
  lemma WithholdingPatches(r: Record)
    ensures J.Object(RecordJson(r).members["department_snapshot" := DepartmentJson(Unavailable(InvalidClaim))])
      == RecordJson(Withheld(r))
  {
    var patched := RecordJson(r).members["department_snapshot" := DepartmentJson(Unavailable(InvalidClaim))];
    assert patched == RecordJson(Withheld(r)).members;
  }

  // What the facts say at some time

  datatype Groups =
    | GroupsAvailable(version: int, id: Uuid, config: I64, observed: I64, expires: I64, values: seq<string>)
    | GroupsUnavailable(version: int, reason: Reason)
    | GroupsExpired(version: int)

  function Project(r: Record, now: I64): Result<Groups, Error> {
    match r.groups
    case Unavailable(reason) => Ok(GroupsUnavailable(GROUPS_VERSION, reason))
    case Available(id, observed, expires, values) =>
      if !AcceptableObservation(observed, now) then Err(Rejected)
      else if now < observed then Ok(GroupsUnavailable(GROUPS_VERSION, NotYetValid))
      else if now >= expires then Ok(GroupsExpired(GROUPS_VERSION))
      else Ok(GroupsAvailable(GROUPS_VERSION, id, r.version, observed, expires, values))
  }

  predicate StructurallyValidAt(g: Groups, now: I64) {
    match g
    case GroupsUnavailable(version, _) => version == GROUPS_VERSION
    case GroupsExpired(version) => version == GROUPS_VERSION
    case GroupsAvailable(version, id, config, observed, expires, values) =>
      && version == GROUPS_VERSION && id != NIL && config > 0
      && AcceptableObservation(observed, now) && ValidWindow(observed, expires) && CanonicalValues(values)
  }

  /** Refused, not yet valid, available, expired. */
  function Phase(p: Result<Groups, Error>): nat {
    if p.Err? then 0
    else
      match p.value
      case GroupsUnavailable(_, _) => 1
      case GroupsAvailable(_, _, _, _, _, _) => 2
      case GroupsExpired(_) => 3
  }

  /** As time passes the projection only moves forward through its phases. */
  lemma PhasesOnlyAdvance(r: Record, now: I64, later: I64)
    requires now <= later
    ensures Phase(Project(r, now)) <= Phase(Project(r, later))
  {
  }

  /**
    The values of a collected token are available exactly from its issue until the shorter of its own end and the maximum
    age, never longer than 300 seconds; and what is then shown is structurally valid and shows exactly those values.
  */
  lemma AvailableExactly(
    token: Token, version: I64, maxAge: I64, mapping: Option<I64>, ids: (Uuid, Uuid), now: I64, at: I64)
    requires ValidMaxAge(maxAge) && ids.0 != NIL && at > 0
    requires Collect(token, version, maxAge, mapping, ids, now).Ok? && token.groups.GroupsPresent?
    ensures
      var p := Project(Collect(token, version, maxAge, mapping, ids, now).value, at);
      && (Phase(p) == 2 <==> token.issued <= at < Min(token.issued + maxAge, token.expires))
      && (Phase(p) == 2 ==> StructurallyValidAt(p.value, at) && p.value.values == token.groups.values)
      && Min(token.issued + maxAge, token.expires) - token.issued <= MAX_TTL
  {
  }

  /** Whatever is shown of a storable record, at any time it is shown, is structurally valid. */
  lemma ShownIsValid(r: Record, now: I64)
    requires Storable(r) && Project(r, now).Ok?
    ensures StructurallyValidAt(Project(r, now).value, now)
  {
  }
}
