/**
  Keyset pagination: the predicate for "after this position", the order it follows, and the pages a client gets by
  following cursors over one snapshot of the table.
*/
module DirectoryPages {
  import opened Common
  import opened Text
  import opened Directory
  import opened DirectorySql

  datatype Sort = Sort(field: Field, descending: bool)

  /** The sorted columns of one row, null where the row has no value. */
  type Key = seq<Option<Cell>>

  // The order

  /** Whether `a` comes after `b` in one column: nulls last in either direction. */
  predicate LaterIn(descending: bool, a: Option<Cell>, b: Option<Cell>) {
    if b.None? then false
    else if a.None? then true
    else if descending then CellBefore(a.value, b.value) else CellBefore(b.value, a.value)
  }

  predicate Later(sorts: seq<Sort>, a: Key, b: Key)
    requires |a| == |b| == |sorts|
  {
    sorts != [] &&
    (LaterIn(sorts[0].descending, a[0], b[0]) || (a[0] == b[0] && Later(sorts[1..], a[1..], b[1..])))
  }

  lemma LaterInOrders(descending: bool, a: Option<Cell>, b: Option<Cell>, c: Option<Cell>)
    ensures !(LaterIn(descending, a, b) && LaterIn(descending, b, a)) && !LaterIn(descending, a, a)
    ensures LaterIn(descending, a, b) || LaterIn(descending, b, a) || a == b
    ensures LaterIn(descending, a, b) && LaterIn(descending, b, c) ==> LaterIn(descending, a, c)
  {
    if a.Some? && b.Some? && a.value.Text? && b.value.Text? {
      var third := if c.Some? && c.value.Text? then c.value.text else "";
      BeforeOrders(a.value.text, b.value.text, third);
      BeforeOrders(third, b.value.text, a.value.text);
    }
    if a.Some? && a.value.Text? {
      BeforeOrders(a.value.text, "", "");
    }
  }

  /** "Later" is a strict total order on keys. */
  lemma {:induction false} LaterOrders(sorts: seq<Sort>, a: Key, b: Key, c: Key)
    requires |a| == |b| == |c| == |sorts|
    ensures !(Later(sorts, a, b) && Later(sorts, b, a)) && !Later(sorts, a, a)
    ensures Later(sorts, a, b) || Later(sorts, b, a) || a == b
    ensures Later(sorts, a, b) && Later(sorts, b, c) ==> Later(sorts, a, c)
    decreases |sorts|
  {
    if sorts != [] {
      LaterInOrders(sorts[0].descending, a[0], b[0], c[0]);
      LaterOrders(sorts[1..], a[1..], b[1..], c[1..]);
      if a[0] == b[0] && a[1..] == b[1..] {
        assert a == [a[0]] + a[1..] && b == [b[0]] + b[1..];
      }
    }
  }

  // The predicate

  function LastTest(sort: Sort, value: Option<Cell>): seq<Token> {
    if value.None? then [Test(Never)]
    else Bracketed(Join(
      [[Test(Compares(sort.field, if sort.descending then Lt else Gt, value.value))], [Test(Missing(sort.field, false))]],
      OrWord))
  }

  function PrefixTests(sorts: seq<Sort>, values: Key, n: nat): (r: seq<seq<Token>>)
    requires n <= |sorts| == |values|
    ensures |r| == n
    ensures forall i :: 0 <= i < n ==> r[i] == [Test(Same(sorts[i].field, values[i]))]
  {
    if n == 0 then [] else PrefixTests(sorts, values, n - 1) + [[Test(Same(sorts[n - 1].field, values[n - 1]))]]
  }

  /** Equal to the position in the first columns, and after it in the next one. */
  function Alternative(sorts: seq<Sort>, values: Key, n: nat): seq<Token>
    requires n < |sorts| == |values|
  {
    Bracketed(Join(PrefixTests(sorts, values, n) + [LastTest(sorts[n], values[n])], AndWord))
  }

  function Alternatives(sorts: seq<Sort>, values: Key, n: nat): (r: seq<seq<Token>>)
    requires n <= |sorts| == |values|
    ensures |r| == n
    ensures forall i :: 0 <= i < n ==> r[i] == Alternative(sorts, values, i)
  {
    if n == 0 then [] else Alternatives(sorts, values, n - 1) + [Alternative(sorts, values, n - 1)]
  }

  function EmitAfter(sorts: seq<Sort>, values: Key): seq<Token>
    requires |sorts| == |values|
  {
    Bracketed(Join(Alternatives(sorts, values, |sorts|), OrWord))
  }

  function KeyOf(sorts: seq<Sort>, row: Row): (k: Key)
    ensures |k| == |sorts|
    ensures forall i :: 0 <= i < |sorts| ==> k[i] == row.At(sorts[i].field)
  {
    if sorts == [] then [] else [row.At(sorts[0].field)] + KeyOf(sorts[1..], row)
  }

  lemma LastReads(sort: Sort, value: Option<Cell>, env: Env) returns (truth: Truth)
    ensures Reads(LastTest(sort, value), truth, env)
    ensures truth == Yes <==> LaterIn(sort.descending, env.row.At(sort.field), value)
  {
    if value.None? {
      truth := No;
      TestReads(Never, env);
    } else {
      var compares := Compares(sort.field, if sort.descending then Lt else Gt, value.value);
      var missing := Missing(sort.field, false);
      TestReads(compares, env);
      TestReads(missing, env);
      var truths := [EvalAtom(compares, env), EvalAtom(missing, env)];
      OrGroupReads([[Test(compares)], [Test(missing)]], truths, env);
      OrAllYes(truths);
      truth := OrAll(truths);
      assert truths[0] == Yes || truths[1] == Yes <==> truth == Yes;
    }
  }

  ghost predicate LaterAt(sorts: seq<Sort>, key: Key, values: Key, n: nat)
    requires n < |sorts| == |key| == |values|
  {
    key[..n] == values[..n] && LaterIn(sorts[n].descending, key[n], values[n])
  }

  lemma AlternativeReads(sorts: seq<Sort>, values: Key, n: nat, env: Env) returns (truth: Truth)
    requires n < |sorts| == |values|
    ensures Reads(Alternative(sorts, values, n), truth, env)
    ensures truth == Yes <==> LaterAt(sorts, KeyOf(sorts, env.row), values, n)
  {
    var key := KeyOf(sorts, env.row);
    var prefix := seq(n, i requires 0 <= i < n => EvalAtom(Same(sorts[i].field, values[i]), env));
    var last := LastReads(sorts[n], values[n], env);
    var parts, truths := PrefixTests(sorts, values, n) + [LastTest(sorts[n], values[n])], prefix + [last];
    forall i | 0 <= i <= n ensures Reads(parts[i], truths[i], env) {
      if i < n {
        TestReads(Same(sorts[i].field, values[i]), env);
      }
    }
    AndGroupReads(parts, truths, env);
    AndAllYes(truths);
    truth := AndAll(truths);
    if truth == Yes {
      forall i | 0 <= i < n ensures key[..n][i] == values[..n][i] {
        assert truths[i] == Yes;
      }
      assert truths[n] == Yes;
    }
    if LaterAt(sorts, key, values, n) {
      forall i | 0 <= i <= n ensures truths[i] == Yes {
        if i < n {
          assert key[i] == key[..n][i] == values[..n][i] == values[i];
        }
      }
    }
  }

  lemma {:induction false} LaterSomewhere(sorts: seq<Sort>, a: Key, b: Key)
    requires |a| == |b| == |sorts|
    ensures Later(sorts, a, b) <==> exists n: nat :: n < |sorts| && LaterAt(sorts, a, b, n)
    decreases |sorts|
  {
    if sorts != [] {
      LaterSomewhere(sorts[1..], a[1..], b[1..]);
      if Later(sorts, a, b) {
        if LaterIn(sorts[0].descending, a[0], b[0]) {
          assert LaterAt(sorts, a, b, 0);
        } else {
          var n: nat :| n < |sorts| - 1 && LaterAt(sorts[1..], a[1..], b[1..], n);
          assert a[..n + 1] == [a[0]] + a[1..][..n] && b[..n + 1] == [b[0]] + b[1..][..n];
          assert LaterAt(sorts, a, b, n + 1);
        }
      }
      if exists n: nat :: n < |sorts| && LaterAt(sorts, a, b, n) {
        var n: nat :| n < |sorts| && LaterAt(sorts, a, b, n);
        if n > 0 {
          assert a[0] == a[..n][0] && b[0] == b[..n][0];
          assert a[1..][..n - 1] == a[..n][1..] && b[1..][..n - 1] == b[..n][1..];
          assert LaterAt(sorts[1..], a[1..], b[1..], n - 1);
        }
      }
    }
  }

  /** The `after` predicate is one operand, true exactly of the rows strictly later than the position. */
  lemma AfterReads(sorts: seq<Sort>, values: Key, env: Env) returns (truth: Truth)
    requires sorts != [] && |sorts| == |values|
    ensures Reads(EmitAfter(sorts, values), truth, env)
    ensures truth == Yes <==> Later(sorts, KeyOf(sorts, env.row), values)
  {
    var truths := AlternativesRead(sorts, values, |sorts|, KeyOf(sorts, env.row), env);
    OrGroupReads(Alternatives(sorts, values, |sorts|), truths, env);
    OrAllYes(truths);
    truth := OrAll(truths);
    LaterSomewhere(sorts, KeyOf(sorts, env.row), values);
  }

  lemma {:induction false} AlternativesRead(sorts: seq<Sort>, values: Key, n: nat, key: Key, env: Env)
    returns (truths: seq<Truth>)
    requires n <= |sorts| == |values| && key == KeyOf(sorts, env.row)
    ensures ReadAll(Alternatives(sorts, values, n), truths, env)
    ensures forall i :: 0 <= i < n ==> (truths[i] == Yes <==> LaterAt(sorts, key, values, i))
  {
    if n == 0 {
      truths := [];
    } else {
      var before := AlternativesRead(sorts, values, n - 1, key, env);
      var truth := AlternativeReads(sorts, values, n - 1, env);
      truths := before + [truth];
      AppendRead(Alternatives(sorts, values, n - 1), before, Alternative(sorts, values, n - 1), truth, env);
    }
  }

  // The query

  datatype Query = Query(filter: Option<Expression>, sorts: seq<Sort>, limit: nat)
  {
    ghost predicate Valid() {
      && 1 <= limit <= 100
      && (exists i :: 0 <= i < |sorts| && sorts[i].field == PrincipalId)
      && (filter.Some? ==> NonEmpty(filter.value))
    }
  }

  function WhereClause(query: Query, seek: Option<Key>): seq<Token>
    requires seek.Some? ==> |seek.value| == |query.sorts|
  {
    (if query.filter.Some? then Emit(query.filter.value) else [Test(Always)])
    + if seek.Some? then [AndWord] + EmitAfter(query.sorts, seek.value) else []
  }

  /** What the client asked for: rows that match, after the position it has reached. */
  ghost predicate Wanted(query: Query, seek: Option<Key>, env: Env)
    requires seek.Some? ==> |seek.value| == |query.sorts|
  {
    && (query.filter.Some? ==> Holds(query.filter.value, env))
    && (seek.Some? ==> Later(query.sorts, KeyOf(query.sorts, env.row), seek.value))
  }

  /** Two operands joined by AND, and nothing else. */
  lemma BothRead(a: seq<Token>, b: seq<Token>, first: Truth, second: Truth, env: Env)
    requires Reads(a, first, env) && Reads(b, second, env)
    ensures EvalDisjunction(a + ([AndWord] + b), env) == Some((And3(first, second), []))
  {
    var tail := [AndWord] + b;
    assert EvalPrimary(a + tail, env) == Some((first, tail));
    assert tail[1..] == b && b + [] == b;
    assert EvalPrimary(b + [], env) == Some((second, []));
    assert EvalConjunction(b, env) == Some((second, []));
    assert EvalConjunction(a + tail, env) == Some((And3(first, second), []));
  }

  lemma ConditionReads(query: Query, env: Env) returns (condition: seq<Token>, truth: Truth)
    requires query.Valid()
    ensures condition == if query.filter.Some? then Emit(query.filter.value) else [Test(Always)]
    ensures Reads(condition, truth, env)
    ensures truth == Yes <==> (query.filter.Some? ==> Holds(query.filter.value, env))
  {
    if query.filter.Some? {
      condition := Emit(query.filter.value);
      truth := FilterReads(query.filter.value, env);
    } else {
      condition, truth := [Test(Always)], Yes;
      TestReads(Always, env);
    }
  }

  lemma ClauseSelects(query: Query, seek: Option<Key>, env: Env)
    requires query.Valid() && (seek.Some? ==> |seek.value| == |query.sorts|)
    ensures Selects(WhereClause(query, seek), env) <==> Wanted(query, seek, env)
  {
    var condition, first := ConditionReads(query, env);
    if seek.Some? {
      var second := AfterReads(query.sorts, seek.value, env);
      BothRead(condition, EmitAfter(query.sorts, seek.value), first, second, env);
    } else {
      assert WhereClause(query, seek) == condition;
      OneOperand(condition, first, env);
    }
  }

  // What the database returns: the selected rows, in order, up to a limit

  function FilterRows(table: seq<Row>, t: seq<Token>, lower: string -> string): (r: seq<Row>) {
    if table == [] then []
    else (if Selects(t, Env(table[0], lower)) then [table[0]] else []) + FilterRows(table[1..], t, lower)
  }

  function InsertRow(rows: seq<Row>, row: Row, sorts: seq<Sort>): seq<Row> {
    if rows == [] || Later(sorts, KeyOf(sorts, rows[0]), KeyOf(sorts, row)) then [row] + rows
    else [rows[0]] + InsertRow(rows[1..], row, sorts)
  }

  function SortRows(rows: seq<Row>, sorts: seq<Sort>): seq<Row> {
    if rows == [] then [] else InsertRow(SortRows(rows[1..], sorts), rows[0], sorts)
  }

  function Take(rows: seq<Row>, n: nat): seq<Row> {
    if |rows| <= n then rows else rows[..n]
  }

  function Fetch(table: seq<Row>, t: seq<Token>, sorts: seq<Sort>, limit: nat, lower: string -> string): seq<Row> {
    Take(SortRows(FilterRows(table, t, lower), sorts), limit)
  }

  /** Principal identifiers are unique and never null. */
  ghost predicate Keyed(table: seq<Row>) {
    && (forall i :: 0 <= i < |table| ==> table[i].At(PrincipalId).Some?)
    && (forall i, j :: 0 <= i < j < |table| ==> table[i].At(PrincipalId) != table[j].At(PrincipalId))
  }

  ghost predicate DistinctKeys(rows: seq<Row>, sorts: seq<Sort>) {
    forall i, j :: 0 <= i < j < |rows| ==> KeyOf(sorts, rows[i]) != KeyOf(sorts, rows[j])
  }

  ghost predicate Ordered(rows: seq<Row>, sorts: seq<Sort>) {
    forall i, j :: 0 <= i < j < |rows| ==> Later(sorts, KeyOf(sorts, rows[j]), KeyOf(sorts, rows[i]))
  }

  lemma KeyedRowsHaveKeys(table: seq<Row>, query: Query)
    requires Keyed(table) && query.Valid()
    ensures DistinctKeys(table, query.sorts)
  {
    var k :| 0 <= k < |query.sorts| && query.sorts[k].field == PrincipalId;
    forall i, j | 0 <= i < j < |table| ensures KeyOf(query.sorts, table[i]) != KeyOf(query.sorts, table[j]) {
      assert KeyOf(query.sorts, table[i])[k] != KeyOf(query.sorts, table[j])[k];
    }
  }

  lemma OtherKey(table: seq<Row>, x: Row, sorts: seq<Sort>)
    requires table != [] && DistinctKeys(table, sorts) && x in table[1..]
    ensures KeyOf(sorts, x) != KeyOf(sorts, table[0])
  {
    var j :| 0 <= j < |table[1..]| && table[1..][j] == x;
    assert table[j + 1] == x;
  }

  lemma DistinctTail(table: seq<Row>, sorts: seq<Sort>)
    requires table != [] && DistinctKeys(table, sorts)
    ensures DistinctKeys(table[1..], sorts)
  {
  }

  lemma DistinctWith(head: Row, rest: seq<Row>, sorts: seq<Sort>)
    requires DistinctKeys(rest, sorts) && forall x :: x in rest ==> KeyOf(sorts, x) != KeyOf(sorts, head)
    ensures DistinctKeys([head] + rest, sorts)
  {
  }

  lemma {:induction false} FilterRowsKeeps(table: seq<Row>, t: seq<Token>, lower: string -> string, sorts: seq<Sort>)
    requires DistinctKeys(table, sorts)
    ensures DistinctKeys(FilterRows(table, t, lower), sorts)
  {
    if table != [] {
      DistinctTail(table, sorts);
      FilterRowsKeeps(table[1..], t, lower, sorts);
      var rest := FilterRows(table[1..], t, lower);
      FilterRowsHolds(table[1..], t, lower);
      forall x | x in rest ensures KeyOf(sorts, x) != KeyOf(sorts, table[0]) {
        OtherKey(table, x, sorts);
      }
      DistinctWith(table[0], rest, sorts);
      assert [] + rest == rest;
    }
  }

  lemma {:induction false} FilterRowsHolds(table: seq<Row>, t: seq<Token>, lower: string -> string)
    ensures forall row :: row in FilterRows(table, t, lower) <==> row in table && Selects(t, Env(row, lower))
  {
    if table != [] {
      FilterRowsHolds(table[1..], t, lower);
      assert table == [table[0]] + table[1..];
    }
  }

  lemma HeadOrders(head: Row, rest: seq<Row>, sorts: seq<Sort>)
    requires Ordered(rest, sorts)
    requires forall x :: x in rest ==> Later(sorts, KeyOf(sorts, x), KeyOf(sorts, head))
    ensures Ordered([head] + rest, sorts)
  {
  }

  lemma FirstIsLeast(rows: seq<Row>, sorts: seq<Sort>, x: Row)
    requires rows != [] && Ordered(rows, sorts) && x in rows[1..]
    ensures x in rows && Later(sorts, KeyOf(sorts, x), KeyOf(sorts, rows[0]))
  {
    var i :| 0 <= i < |rows[1..]| && rows[1..][i] == x;
    assert rows[i + 1] == x;
  }

  lemma {:induction false} InsertRowHolds(rows: seq<Row>, row: Row, sorts: seq<Sort>)
    ensures forall x :: x in InsertRow(rows, row, sorts) <==> x == row || x in rows
  {
    if rows != [] {
      InsertRowHolds(rows[1..], row, sorts);
      assert rows == [rows[0]] + rows[1..];
    }
  }

  lemma {:induction false} InsertRowOrders(rows: seq<Row>, row: Row, sorts: seq<Sort>)
    requires Ordered(rows, sorts) && forall x :: x in rows ==> KeyOf(sorts, x) != KeyOf(sorts, row)
    ensures Ordered(InsertRow(rows, row, sorts), sorts)
  {
    if rows != [] {
      var key, head := KeyOf(sorts, row), KeyOf(sorts, rows[0]);
      LaterOrders(sorts, head, key, key);
      assert rows == [rows[0]] + rows[1..];
      if Later(sorts, head, key) {
        forall x | x in rows ensures Later(sorts, KeyOf(sorts, x), key) {
          if x != rows[0] {
            FirstIsLeast(rows, sorts, x);
            LaterOrders(sorts, KeyOf(sorts, x), head, key);
          }
        }
        HeadOrders(row, rows, sorts);
      } else {
        InsertRowOrders(rows[1..], row, sorts);
        var rest := InsertRow(rows[1..], row, sorts);
        InsertRowHolds(rows[1..], row, sorts);
        forall x | x in rest ensures Later(sorts, KeyOf(sorts, x), head) {
          if x != row {
            FirstIsLeast(rows, sorts, x);
          }
        }
        HeadOrders(rows[0], rest, sorts);
      }
    }
  }

  lemma {:induction false} SortRowsHolds(rows: seq<Row>, sorts: seq<Sort>)
    ensures forall x :: x in SortRows(rows, sorts) <==> x in rows
  {
    if rows != [] {
      SortRowsHolds(rows[1..], sorts);
      InsertRowHolds(SortRows(rows[1..], sorts), rows[0], sorts);
      assert rows == [rows[0]] + rows[1..];
    }
  }

  lemma {:induction false} SortRowsOrders(rows: seq<Row>, sorts: seq<Sort>)
    requires DistinctKeys(rows, sorts)
    ensures Ordered(SortRows(rows, sorts), sorts)
  {
    if rows != [] {
      DistinctTail(rows, sorts);
      SortRowsOrders(rows[1..], sorts);
      SortRowsHolds(rows[1..], sorts);
      var rest := SortRows(rows[1..], sorts);
      forall x | x in rest ensures KeyOf(sorts, x) != KeyOf(sorts, rows[0]) {
        OtherKey(rows, x, sorts);
      }
      InsertRowOrders(rest, rows[0], sorts);
    }
  }

  lemma HeadIn(rows: seq<Row>)
    ensures rows != [] ==> rows[0] in rows
  {
  }

  /** There is one way to list a set of rows in order. */
  lemma {:induction false} OrderedOnce(a: seq<Row>, b: seq<Row>, sorts: seq<Sort>)
    requires Ordered(a, sorts) && Ordered(b, sorts) && forall x :: x in a <==> x in b
    ensures a == b
    decreases |a|
  {
    HeadIn(a);
    HeadIn(b);
    if a != [] && b != [] {
      SameHead(a, b, sorts);
      SameTail(a, b, sorts);
      OrderedTail(a, sorts);
      OrderedTail(b, sorts);
      OrderedOnce(a[1..], b[1..], sorts);
      assert a == [a[0]] + a[1..] && b == [b[0]] + b[1..];
    }
  }

  lemma OrderedTail(rows: seq<Row>, sorts: seq<Sort>)
    requires rows != [] && Ordered(rows, sorts)
    ensures Ordered(rows[1..], sorts)
  {
  }

  lemma SameHead(a: seq<Row>, b: seq<Row>, sorts: seq<Sort>)
    requires a != [] && b != [] && Ordered(a, sorts) && Ordered(b, sorts)
    requires a[0] in b && b[0] in a
    ensures a[0] == b[0]
  {
    var i :| 0 <= i < |b| && b[i] == a[0];
    var j :| 0 <= j < |a| && a[j] == b[0];
    LaterOrders(sorts, KeyOf(sorts, a[0]), KeyOf(sorts, b[0]), KeyOf(sorts, a[0]));
  }

  lemma SameTail(a: seq<Row>, b: seq<Row>, sorts: seq<Sort>)
    requires a != [] && b != [] && Ordered(a, sorts) && Ordered(b, sorts)
    requires a[0] == b[0] && forall x :: x in a <==> x in b
    ensures forall x :: x in a[1..] <==> x in b[1..]
  {
    forall x ensures x in a[1..] <==> x in b[1..] {
      TailElements(a, sorts, x);
      TailElements(b, sorts, x);
    }
  }

  lemma TailElements(rows: seq<Row>, sorts: seq<Sort>, x: Row)
    requires rows != [] && Ordered(rows, sorts)
    ensures x in rows[1..] <==> x in rows && x != rows[0]
  {
    if x in rows[1..] {
      var i :| 0 <= i < |rows[1..]| && rows[1..][i] == x;
      LaterOrders(sorts, KeyOf(sorts, x), KeyOf(sorts, rows[0]), KeyOf(sorts, x));
      assert rows[i + 1] == x;
    }
    assert rows == [rows[0]] + rows[1..];
  }

  // Pages

  /** All rows the query selects after a position, in order. */
  function Remaining(table: seq<Row>, query: Query, seek: Option<Key>, lower: string -> string): seq<Row>
    requires seek.Some? ==> |seek.value| == |query.sorts|
  {
    SortRows(FilterRows(table, WhereClause(query, seek), lower), query.sorts)
  }

  /** Filter, sort, return everything. */
  function Everything(table: seq<Row>, query: Query, lower: string -> string): seq<Row> {
    Remaining(table, query, None, lower)
  }

  /** Everything is exactly the matching rows, strictly in order. */
  lemma EverythingIsComplete(table: seq<Row>, query: Query, lower: string -> string)
    requires Keyed(table) && query.Valid()
    ensures var all := Everything(table, query, lower);
      && Ordered(all, query.sorts)
      && (forall row :: row in all <==> row in table && (query.filter.Some? ==> Holds(query.filter.value, Env(row, lower))))
  {
    Listed(table, query, None, lower);
    forall row
      ensures Wanted(query, None, Env(row, lower)) <==> (query.filter.Some? ==> Holds(query.filter.value, Env(row, lower)))
    {
    }
  }

  lemma Listed(table: seq<Row>, query: Query, seek: Option<Key>, lower: string -> string)
    requires Keyed(table) && query.Valid() && (seek.Some? ==> |seek.value| == |query.sorts|)
    ensures var rows := Remaining(table, query, seek, lower);
      && Ordered(rows, query.sorts)
      && (forall row :: row in rows <==> row in table && Wanted(query, seek, Env(row, lower)))
  {
    KeyedRowsHaveKeys(table, query);
    var found := FilterRows(table, WhereClause(query, seek), lower);
    FilterRowsHolds(table, WhereClause(query, seek), lower);
    FilterRowsKeeps(table, WhereClause(query, seek), lower, query.sorts);
    SortRowsHolds(found, query.sorts);
    SortRowsOrders(found, query.sorts);
    forall row ensures Selects(WhereClause(query, seek), Env(row, lower)) <==> Wanted(query, seek, Env(row, lower)) {
      ClauseSelects(query, seek, Env(row, lower));
    }
  }

  /** In one column one value comes first: the smaller one, or the greater when descending; null comes last. */
  predicate ComesFirst(descending: bool, a: Option<Cell>, b: Option<Cell>) {
    a.Some? && (b.None? || if descending then CellBefore(b.value, a.value) else CellBefore(a.value, b.value))
  }

  /** Of two rows of a listing the earlier one comes first in the first sorted column in which they differ. */
  lemma ListedAsAsked(table: seq<Row>, query: Query, lower: string -> string, i: nat, j: nat) returns (n: nat)
    requires Keyed(table) && query.Valid() && i < j < |Everything(table, query, lower)|
    ensures n < |query.sorts|
    ensures var a, b := Everything(table, query, lower)[i], Everything(table, query, lower)[j];
      && (forall m :: 0 <= m < n ==> a.At(query.sorts[m].field) == b.At(query.sorts[m].field))
      && ComesFirst(query.sorts[n].descending, a.At(query.sorts[n].field), b.At(query.sorts[n].field))
  {
    EverythingIsComplete(table, query, lower);
    var all := Everything(table, query, lower);
    var earlier, later := KeyOf(query.sorts, all[i]), KeyOf(query.sorts, all[j]);
    LaterSomewhere(query.sorts, later, earlier);
    n :| n < |query.sorts| && LaterAt(query.sorts, later, earlier, n);
    forall m | 0 <= m < n ensures later[m] == earlier[m] {
      assert later[..n][m] == earlier[..n][m];
    }
  }

  function Position(all: seq<Row>, k: nat, sorts: seq<Sort>): (r: Option<Key>)
    requires k <= |all|
    ensures r.Some? ==> |r.value| == |sorts|
  {
    if k == 0 then None else Some(KeyOf(sorts, all[k - 1]))
  }

  /** After the position of a row, the query finds exactly the rows that come after it. */
  lemma SeekFindsTheRest(table: seq<Row>, query: Query, lower: string -> string, k: nat)
    requires Keyed(table) && query.Valid() && k <= |Everything(table, query, lower)|
    ensures var all := Everything(table, query, lower);
      Remaining(table, query, Position(all, k, query.sorts), lower) == all[k..]
  {
    var all := Everything(table, query, lower);
    var seek := Position(all, k, query.sorts);
    var rest := Remaining(table, query, seek, lower);
    Listed(table, query, None, lower);
    Listed(table, query, seek, lower);
    if k == 0 {
      assert all[0..] == all;
    } else {
      forall row ensures row in rest <==> row in all[k..] {
        SuffixElements(all, query.sorts, k, row);
      }
      OrderedOnce(rest, all[k..], query.sorts);
    }
  }

  lemma SuffixElements(all: seq<Row>, sorts: seq<Sort>, k: nat, row: Row)
    requires Ordered(all, sorts) && 0 < k <= |all|
    ensures row in all[k..] <==> row in all && Later(sorts, KeyOf(sorts, row), KeyOf(sorts, all[k - 1]))
  {
    var at := KeyOf(sorts, all[k - 1]);
    if row in all[k..] {
      var i :| 0 <= i < |all[k..]| && all[k..][i] == row;
      assert all[k + i] == row;
    }
    if row in all && Later(sorts, KeyOf(sorts, row), at) {
      var i :| 0 <= i < |all| && all[i] == row;
      LaterOrders(sorts, KeyOf(sorts, row), at, at);
      assert i >= k;
      assert all[k..][i - k] == row;
    }
  }
}
