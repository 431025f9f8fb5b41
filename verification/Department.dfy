/** Department snapshots: the tree validator, and the ancestors a recursive query finds. */
module Department {
  import opened Common
  import opened Text

  datatype Node = Node(id: string, name: string, parent: Option<string>)

  datatype Snapshot = Snapshot(revision: string, nodes: seq<Node>, memberships: seq<string>)

  const NODE_LIMIT: nat := 256
  const MEMBERSHIP_LIMIT: nat := 16
  const LEVEL_LIMIT: nat := 16

  predicate ValidId(id: string) {
    id != "" && Utf8Length(id) <= 256 && Trimmed(id) && Printable(id)
  }

  /** At most 256 bytes, no control character, and no white space at either end. */
  lemma IdsExactly(id: string)
    ensures ValidId(id) <==>
      && 0 < Utf8Length(id) <= 256
      && (forall c :: c in id ==> !(c as int < 32 || 127 <= c as int <= 159))
      && (|id| > 0 ==> !Whitespace(id[0]) && !Whitespace(id[|id| - 1]))
  {
    assert forall i :: 0 <= i < |id| ==> id[i] in id;
  }

  type Parents = map<string, Option<string>>

  // What a tree is

  ghost predicate DistinctIds(nodes: seq<Node>) {
    forall i, j :: 0 <= i < j < |nodes| ==> nodes[i].id != nodes[j].id
  }

  ghost function ParentsOf(nodes: seq<Node>): Parents
    requires DistinctIds(nodes)
  {
    map i | 0 <= i < |nodes| :: nodes[i].id := nodes[i].parent
  }

  /** A node without a parent is at level one, any other is one level below its parent. */
  ghost predicate LevelFits(parents: Parents, level: map<string, nat>, id: string)
    requires id in parents && level.Keys == parents.Keys
  {
    && 1 <= level[id] <= 16
    && match parents[id]
       case None => level[id] == 1
       case Some(parent) => parent in parents && level[id] == level[parent] + 1
  }

  ghost predicate Levelled(parents: Parents, level: map<string, nat>) {
    && level.Keys == parents.Keys
    && (forall id {:trigger LevelFits(parents, level, id)} :: id in parents ==> LevelFits(parents, level, id))
  }

  ghost function Roots(nodes: seq<Node>): set<nat> {
    set i: nat | i < |nodes| && nodes[i].parent.None?
  }

  /** A single-rooted tree of at most sixteen levels, with distinct known memberships. */
  ghost predicate IsTree(s: Snapshot) {
    && 1 <= |s.nodes| <= 256 && |s.memberships| <= 16 && ValidId(s.revision)
    && DistinctIds(s.nodes)
    && |Roots(s.nodes)| == 1
    && (exists level :: Levelled(ParentsOf(s.nodes), level))
    && (forall i :: 0 <= i < |s.memberships| ==> s.memberships[i] in ParentsOf(s.nodes))
    && (forall i, j :: 0 <= i < j < |s.memberships| ==> s.memberships[i] != s.memberships[j])
  }

  // Climbing a chain

  /** The number of levels from a node to the end of its chain, if it ends within `fuel` known nodes. */
  function Climb(parents: Parents, id: string, fuel: nat): Option<nat>
    decreases fuel
  {
    if fuel == 0 || id !in parents then None
    else match parents[id]
      case None => Some(1)
      case Some(parent) =>
        var above := Climb(parents, parent, fuel - 1);
        if above.None? then None else Some(above.value + 1)
  }

  lemma {:induction false} ClimbBounded(parents: Parents, id: string, fuel: nat)
    ensures Climb(parents, id, fuel).Some? ==> 1 <= Climb(parents, id, fuel).value <= fuel
    decreases fuel
  {
    if fuel > 0 && id in parents && parents[id].Some? {
      ClimbBounded(parents, parents[id].value, fuel - 1);
    }
  }

  lemma {:induction false} ClimbMore(parents: Parents, id: string, fuel: nat)
    requires Climb(parents, id, fuel).Some?
    ensures Climb(parents, id, fuel + 1) == Climb(parents, id, fuel)
    decreases fuel
  {
    if parents[id].Some? {
      ClimbMore(parents, parents[id].value, fuel - 1);
    }
  }

  lemma {:induction false} ClimbIsLevel(parents: Parents, level: map<string, nat>, id: string, fuel: nat)
    requires Levelled(parents, level) && id in parents && level[id] <= fuel
    ensures Climb(parents, id, fuel) == Some(level[id])
    decreases fuel
  {
    assert LevelFits(parents, level, id);
    if parents[id].Some? {
      ClimbIsLevel(parents, level, parents[id].value, fuel - 1);
    }
  }

  ghost predicate AllClimb(parents: Parents) {
    forall id :: id in parents ==> Climb(parents, id, LEVEL_LIMIT).Some?
  }

  /** Levels exist exactly when every chain ends within sixteen nodes. */
  lemma LevelsAreClimbs(parents: Parents)
    ensures (exists level :: Levelled(parents, level)) <==> AllClimb(parents)
  {
    if AllClimb(parents) {
      var level := map id | id in parents :: Climb(parents, id, LEVEL_LIMIT).value;
      forall id | id in parents ensures LevelFits(parents, level, id) {
        ClimbBounded(parents, id, LEVEL_LIMIT);
        if parents[id].Some? {
          ClimbMore(parents, parents[id].value, LEVEL_LIMIT - 1);
        }
      }
      assert Levelled(parents, level);
    }
    if level :| Levelled(parents, level) {
      forall id | id in parents ensures Climb(parents, id, LEVEL_LIMIT).Some? {
        assert LevelFits(parents, level, id);
        ClimbIsLevel(parents, level, id, LEVEL_LIMIT);
      }
    }
  }

  // The validator

  lemma ParentsAppend(nodes: seq<Node>, n: Node)
    requires DistinctIds(nodes + [n])
    ensures DistinctIds(nodes) && ParentsOf(nodes + [n]) == ParentsOf(nodes)[n.id := n.parent]
  {
    forall i, j | 0 <= i < j < |nodes| ensures nodes[i].id != nodes[j].id {
      assert (nodes + [n])[i].id != (nodes + [n])[j].id;
    }
    var more := nodes + [n];
    var all, one := ParentsOf(more), ParentsOf(nodes)[n.id := n.parent];
    forall i | 0 <= i < |more| ensures more[i].id in one && one[more[i].id] == more[i].parent {
      if i < |nodes| {
        ParentIs(nodes, i);
        assert more[i].id != more[|nodes|].id;
      }
    }
    ParentIs(more, |nodes|);
    forall id | id in one ensures id in all {
      if id != n.id {
        var i :| 0 <= i < |nodes| && nodes[i].id == id;
        ParentIs(more, i);
      }
    }
    assert all.Keys == one.Keys;
  }

  lemma RepeatedId(nodes: seq<Node>, n: Node)
    requires DistinctIds(nodes) && n.id in ParentsOf(nodes)
    ensures !DistinctIds(nodes + [n])
  {
    var i :| 0 <= i < |nodes| && nodes[i].id == n.id;
    assert (nodes + [n])[i].id == (nodes + [n])[|nodes|].id;
  }

  lemma NewId(nodes: seq<Node>, n: Node)
    requires DistinctIds(nodes) && n.id !in ParentsOf(nodes)
    ensures DistinctIds(nodes + [n])
  {
    forall i, j | 0 <= i < j < |nodes + [n]| ensures (nodes + [n])[i].id != (nodes + [n])[j].id {
      if j == |nodes| {
        assert nodes[i].id in ParentsOf(nodes);
      }
    }
  }

  lemma PrefixDistinct(nodes: seq<Node>, i: nat)
    requires i <= |nodes| && DistinctIds(nodes)
    ensures DistinctIds(nodes[..i])
  {
  }

  /** The first loop: fills the map of parents, refusing a repeated identifier. */
  method CollectParents(nodes: seq<Node>) returns (r: Option<Parents>)
    ensures r.Some? <==> DistinctIds(nodes)
    ensures r.Some? ==> r.value == ParentsOf(nodes)
  {
    var parents: Parents := map[];
    for i := 0 to |nodes|
      invariant DistinctIds(nodes[..i]) && parents == ParentsOf(nodes[..i])
    {
      assert nodes[..i + 1] == nodes[..i] + [nodes[i]];
      if nodes[i].id in parents {
        RepeatedId(nodes[..i], nodes[i]);
        if DistinctIds(nodes) {
          PrefixDistinct(nodes, i + 1);
        }
        return None;
      }
      NewId(nodes[..i], nodes[i]);
      ParentsAppend(nodes[..i], nodes[i]);
      parents := parents[nodes[i].id := nodes[i].parent];
    }
    assert nodes[..|nodes|] == nodes;
    r := Some(parents);
  }

  method CountRoots(nodes: seq<Node>) returns (n: nat)
    ensures n == |Roots(nodes)|
  {
    n := 0;
    assert Roots(nodes[..0]) == {};
    for i := 0 to |nodes|
      invariant n == |Roots(nodes[..i])|
    {
      assert Roots(nodes[..i + 1]) == Roots(nodes[..i]) + if nodes[i].parent.None? then {i} else {};
      if nodes[i].parent.None? {
        n := n + 1;
      }
    }
    assert nodes[..|nodes|] == nodes;
  }

  /** Follows one chain up, counting its nodes. */
  method ChainEnds(parents: Parents, start: string) returns (ok: bool)
    ensures ok == Climb(parents, start, LEVEL_LIMIT).Some?
  {
    var cursor := Some(start);
    var depth := 0;
    while cursor.Some?
      invariant depth <= LEVEL_LIMIT
      invariant Climb(parents, start, LEVEL_LIMIT).Some? ==
        (cursor.None? || Climb(parents, cursor.value, LEVEL_LIMIT - depth).Some?)
      decreases LEVEL_LIMIT - depth
    {
      if depth + 1 > LEVEL_LIMIT { return false; }
      depth := depth + 1;
      if cursor.value !in parents { return false; }
      cursor := parents[cursor.value];
    }
    ok := true;
  }

  method ChainsEnd(nodes: seq<Node>, parents: Parents) returns (ok: bool)
    requires DistinctIds(nodes) && parents == ParentsOf(nodes)
    ensures ok <==> AllClimb(parents)
  {
    for i := 0 to |nodes|
      invariant forall j :: 0 <= j < i ==> Climb(parents, nodes[j].id, LEVEL_LIMIT).Some?
    {
      ok := ChainEnds(parents, nodes[i].id);
      if !ok {
        ParentIs(nodes, i);
        return;
      }
    }
    ok := true;
  }

  method KnownAndDistinct(parents: Parents, memberships: seq<string>) returns (ok: bool)
    ensures ok <==>
      && (forall i :: 0 <= i < |memberships| ==> memberships[i] in parents)
      && (forall i, j :: 0 <= i < j < |memberships| ==> memberships[i] != memberships[j])
  {
    var members: set<string> := {};
    for i := 0 to |memberships|
      invariant members == set j | 0 <= j < i :: memberships[j]
      invariant forall j :: 0 <= j < i ==> memberships[j] in parents
      invariant forall j, k :: 0 <= j < k < i ==> memberships[j] != memberships[k]
    {
      if memberships[i] !in parents { return false; }
      if memberships[i] in members { return false; }
      members := members + {memberships[i]};
    }
    ok := true;
  }

  /** Accepts exactly the trees. */
  method NewSnapshot(s: Snapshot) returns (r: Option<Snapshot>)
    ensures r == if IsTree(s) then Some(s) else None
  {
    if |s.nodes| == 0 || |s.nodes| > NODE_LIMIT || |s.memberships| > MEMBERSHIP_LIMIT || !ValidId(s.revision) {
      return None;
    }
    var collected := CollectParents(s.nodes);
    if collected.None? { return None; }
    var parents := collected.value;
    LevelsAreClimbs(parents);
    var roots := CountRoots(s.nodes);
    if roots != 1 { return None; }
    var ended := ChainsEnd(s.nodes, parents);
    if !ended { return None; }
    var known := KnownAndDistinct(parents, s.memberships);
    if !known { return None; }
    r := Some(s);
  }

  // The recursive ancestor query

  function ParentIds(nodes: seq<Node>): set<string> {
    set i | 0 <= i < |nodes| && nodes[i].parent.Some? :: nodes[i].parent.value
  }

  /** The rows one round of the recursive term adds for these working rows. */
  function Above(nodes: seq<Node>, working: set<string>): set<string> {
    set i | 0 <= i < |nodes| && nodes[i].id in working && nodes[i].parent.Some? :: nodes[i].parent.value
  }

  /** Repeats the recursive term on the rows that were new in the last round until a round adds none. */
  function Iterate(nodes: seq<Node>, rows: set<string>, working: set<string>): (r: set<string>)
    requires working <= rows
    ensures rows <= r
    decreases |ParentIds(nodes) - rows|
  {
    var more := Above(nodes, working) - rows;
    if more == {} then rows
    else
      RoundShrinks(nodes, rows, more);
      Iterate(nodes, rows + more, more)
  }

  lemma RoundShrinks(nodes: seq<Node>, rows: set<string>, more: set<string>)
    requires more != {} && more <= ParentIds(nodes) && more !! rows
    ensures |ParentIds(nodes) - (rows + more)| < |ParentIds(nodes) - rows|
  {
    var before, after := ParentIds(nodes) - rows, ParentIds(nodes) - (rows + more);
    assert before == after + more && after !! more;
  }

  function Members(s: Snapshot): set<string> {
    set i | 0 <= i < |s.memberships| :: s.memberships[i]
  }

  /** The rows of `ancestors`; without `subtree` the recursive term is switched off. */
  function AncestorRows(s: Snapshot, subtree: bool): set<string> {
    if subtree then Iterate(s.nodes, Members(s), Members(s)) else Members(s)
  }

  /** The identifier `n` steps above another one. */
  ghost function Up(nodes: seq<Node>, id: string, n: nat): set<string> {
    if n == 0 then {id} else Above(nodes, Up(nodes, id, n - 1))
  }

  ghost predicate AtOrBelow(nodes: seq<Node>, id: string, ancestor: string) {
    exists n: nat :: ancestor in Up(nodes, id, n)
  }

  lemma AboveHas(nodes: seq<Node>, working: set<string>, x: string) returns (i: nat)
    requires x in Above(nodes, working)
    ensures i < |nodes| && nodes[i].id in working && nodes[i].parent == Some(x)
  {
    i :| 0 <= i < |nodes| && nodes[i].id in working && nodes[i].parent == Some(x);
  }

  ghost predicate OverMember(s: Snapshot, x: string) {
    exists m :: m in Members(s) && AtOrBelow(s.nodes, m, x)
  }

  lemma OneStepUp(s: Snapshot, below: string, x: string)
    requires OverMember(s, below) && x in Above(s.nodes, {below})
    ensures OverMember(s, x)
  {
    var m :| m in Members(s) && AtOrBelow(s.nodes, m, below);
    var n: nat :| below in Up(s.nodes, m, n);
    var i := AboveHas(s.nodes, {below}, x);
    assert x in Up(s.nodes, m, n + 1);
  }

  lemma {:induction false} IterateSound(s: Snapshot, rows: set<string>, working: set<string>)
    requires working <= rows && forall x :: x in rows ==> OverMember(s, x)
    ensures forall x :: x in Iterate(s.nodes, rows, working) ==> OverMember(s, x)
    decreases |ParentIds(s.nodes) - rows|
  {
    var more := Above(s.nodes, working) - rows;
    if more != {} {
      forall x | x in more ensures OverMember(s, x) {
        var i := AboveHas(s.nodes, working, x);
        assert x in Above(s.nodes, {s.nodes[i].id});
        OneStepUp(s, s.nodes[i].id, x);
      }
      RoundShrinks(s.nodes, rows, more);
      IterateSound(s, rows + more, more);
    }
  }

  /** The query ends at a fixpoint: another round would add nothing. */
  lemma {:induction false} IterateCloses(nodes: seq<Node>, rows: set<string>, working: set<string>)
    requires working <= rows && Above(nodes, rows - working) <= rows
    ensures Above(nodes, Iterate(nodes, rows, working)) <= Iterate(nodes, rows, working)
    decreases |ParentIds(nodes) - rows|
  {
    var more := Above(nodes, working) - rows;
    AboveSplits(nodes, rows, working);
    assert Above(nodes, rows) <= rows + more;
    if more == {} {
      assert rows + more == rows;
      assert Iterate(nodes, rows, working) == rows;
    } else {
      RoundShrinks(nodes, rows, more);
      assert (rows + more) - more == rows;
      IterateCloses(nodes, rows + more, more);
      assert Iterate(nodes, rows, working) == Iterate(nodes, rows + more, more);
    }
  }

  /** What lies above some rows lies above the working rows among them or above the others. */
  lemma AboveSplits(nodes: seq<Node>, rows: set<string>, working: set<string>)
    requires Above(nodes, rows - working) <= rows
    ensures Above(nodes, rows) <= rows + Above(nodes, working)
  {
    forall x | x in Above(nodes, rows) ensures x in rows + Above(nodes, working) {
      var i := AboveHas(nodes, rows, x);
      if nodes[i].id in working {
        assert x in Above(nodes, working);
      } else {
        assert x in Above(nodes, rows - working);
      }
    }
  }

  lemma {:induction false} ClosedHoldsUp(nodes: seq<Node>, rows: set<string>, id: string, n: nat)
    requires id in rows && Above(nodes, rows) <= rows
    ensures Up(nodes, id, n) <= rows
  {
    if n > 0 {
      ClosedHoldsUp(nodes, rows, id, n - 1);
      forall x | x in Up(nodes, id, n) ensures x in rows {
        assert x in Above(nodes, rows);
      }
    }
  }

  /** "Subtree of x" matches exactly when some membership lies at or below x. */
  lemma SubtreeMatches(s: Snapshot, x: string)
    ensures x in AncestorRows(s, true) <==> OverMember(s, x)
  {
    MembersAreOver(s);
    IterateSound(s, Members(s), Members(s));
    if OverMember(s, x) {
      var m :| m in Members(s) && AtOrBelow(s.nodes, m, x);
      var n: nat :| x in Up(s.nodes, m, n);
      QueryCloses(s);
      ClosedHoldsUp(s.nodes, AncestorRows(s, true), m, n);
    }
  }

  lemma MembersAreOver(s: Snapshot)
    ensures forall m :: m in Members(s) ==> OverMember(s, m)
  {
    forall m | m in Members(s) ensures OverMember(s, m) {
      assert m in Up(s.nodes, m, 0);
    }
  }

  lemma QueryCloses(s: Snapshot)
    ensures Above(s.nodes, AncestorRows(s, true)) <= AncestorRows(s, true)
  {
    assert Members(s) - Members(s) == {};
    IterateCloses(s.nodes, Members(s), Members(s));
  }

  // In a tree the levels bound the query

  lemma ParentIs(nodes: seq<Node>, i: nat)
    requires DistinctIds(nodes) && i < |nodes|
    ensures nodes[i].id in ParentsOf(nodes) && ParentsOf(nodes)[nodes[i].id] == nodes[i].parent
  {
  }

  lemma {:induction false} UpIsLower(nodes: seq<Node>, level: map<string, nat>, id: string, n: nat, x: string)
    requires DistinctIds(nodes) && Levelled(ParentsOf(nodes), level) && id in level && x in Up(nodes, id, n)
    ensures x in level && level[x] + n == level[id]
    decreases n
  {
    if n > 0 {
      var i := AboveHas(nodes, Up(nodes, id, n - 1), x);
      UpIsLower(nodes, level, id, n - 1, nodes[i].id);
      ParentIs(nodes, i);
      assert LevelFits(ParentsOf(nodes), level, nodes[i].id);
    }
  }

  /** In an accepted snapshot every ancestor row is a node of the tree, at most fifteen steps above a membership. */
  lemma AncestorsAreNodes(s: Snapshot, x: string)
    requires IsTree(s) && x in AncestorRows(s, true)
    ensures x in ParentsOf(s.nodes)
    ensures exists m, n: nat :: m in Members(s) && n < LEVEL_LIMIT && x in Up(s.nodes, m, n)
  {
    SubtreeMatches(s, x);
    var level :| Levelled(ParentsOf(s.nodes), level);
    var m :| m in Members(s) && AtOrBelow(s.nodes, m, x);
    var n: nat :| x in Up(s.nodes, m, n);
    UpIsLower(s.nodes, level, m, n, x);
    assert LevelFits(ParentsOf(s.nodes), level, m) && LevelFits(ParentsOf(s.nodes), level, x);
  }
}
