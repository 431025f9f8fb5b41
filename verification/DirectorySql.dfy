/**
  The SQL predicate a filter is compiled to, as the tokens pushed into the query, and what the database makes of them:
  SQL precedence and three-valued logic.
*/
module DirectorySql {
  import opened Common
  import opened Text
  import opened Directory
  import Department

  // Rows

  datatype Cell = Text(text: string) | Flag(flag: bool)

  /** One row of the directory view; a column without a cell is null. */
  datatype Row = Row(cells: map<Field, Cell>, snapshot: Option<Department.Snapshot>)
  {
    function At(field: Field): Option<Cell> {
      if field in cells then Some(cells[field]) else None
    }
  }

  /** A row and the database's case folding. */
  datatype Env = Env(row: Row, lower: string -> string)

  predicate CellBefore(a: Cell, b: Cell) {
    match (a, b)
    case (Text(s), Text(t)) => Before(s, t)
    case (Flag(x), Flag(y)) => !x && y
    case (Flag(_), Text(_)) => true
    case (Text(_), Flag(_)) => false
  }

  datatype Relation = Eq | Ne | Lt | Le | Gt | Ge

  predicate Related(relation: Relation, a: Cell, b: Cell) {
    match relation
    case Eq => a == b
    case Ne => a != b
    case Lt => CellBefore(a, b)
    case Le => !CellBefore(b, a)
    case Gt => CellBefore(b, a)
    case Ge => !CellBefore(a, b)
  }

  /** `strpos(haystack, needle) > 0`. */
  predicate Contained(haystack: string, needle: string) {
    exists i | 0 <= i <= |haystack| - |needle| :: haystack[i..][..|needle|] == needle
  }

  // SQL text

  datatype Atom =
    | Compares(field: Field, relation: Relation, operand: Cell)
    | Same(field: Field, value: Option<Cell>)
    | Missing(field: Field, negated: bool)
    | Holding(field: Field, text: string)
    | Available
    | Ancestor(subtree: bool, id: string)
    | Always
    | Never

  datatype Token = Open | Close | AndWord | OrWord | Test(atom: Atom)

  datatype Truth = Yes | No | Unknown

  function Known(b: bool): Truth { if b then Yes else No }

  function And3(a: Truth, b: Truth): Truth {
    if a == No || b == No then No else if a == Unknown || b == Unknown then Unknown else Yes
  }

  function Or3(a: Truth, b: Truth): Truth {
    if a == Yes || b == Yes then Yes else if a == Unknown || b == Unknown then Unknown else No
  }

  /** Both ways of joining follow the stronger of their operands: a known one where it decides, else the unknown one. */
  lemma ThreeValued(a: Truth, b: Truth)
    ensures And3(a, b) == No <==> a == No || b == No
    ensures And3(a, b) == Yes <==> a == Yes && b == Yes
    ensures Or3(a, b) == Yes <==> a == Yes || b == Yes
    ensures Or3(a, b) == No <==> a == No && b == No
  {
  }

  const AVAILABLE: Cell := Text("available")

  function EvalAtom(a: Atom, env: Env): Truth {
    match a
    case Compares(field, relation, operand) =>
      var cell := env.row.At(field);
      if cell.None? then Unknown else Known(Related(relation, cell.value, operand))
    case Same(field, value) => Known(env.row.At(field) == value)
    case Missing(field, negated) => Known(env.row.At(field).None? != negated)
    case Holding(field, text) =>
      var cell := env.row.At(field);
      if cell.None? || !cell.value.Text? then Unknown else Known(Contained(env.lower(cell.value.text), env.lower(text)))
    case Available =>
      var cell := env.row.At(DepartmentStatus);
      if cell.None? then Unknown else Known(cell.value == AVAILABLE)
    case Ancestor(subtree, id) =>
      Known(env.row.snapshot.Some? && id in Department.AncestorRows(env.row.snapshot.value, subtree))
    case Always => Yes
    case Never => No
  }

  /** OR binds weakest, then AND; parentheses group. The value read, and the tokens after it. */
  function EvalDisjunction(t: seq<Token>, env: Env): (r: Option<(Truth, seq<Token>)>)
    ensures r.Some? ==> |r.value.1| < |t|
    decreases |t|, 2
  {
    var first := EvalConjunction(t, env);
    if first.None? then None
    else if first.value.1 == [] || first.value.1[0] != OrWord then first
    else
      var others := EvalDisjunction(first.value.1[1..], env);
      if others.None? then None else Some((Or3(first.value.0, others.value.0), others.value.1))
  }

  function EvalConjunction(t: seq<Token>, env: Env): (r: Option<(Truth, seq<Token>)>)
    ensures r.Some? ==> |r.value.1| < |t|
    decreases |t|, 1
  {
    var first := EvalPrimary(t, env);
    if first.None? then None
    else if first.value.1 == [] || first.value.1[0] != AndWord then first
    else
      var others := EvalConjunction(first.value.1[1..], env);
      if others.None? then None else Some((And3(first.value.0, others.value.0), others.value.1))
  }

  function EvalPrimary(t: seq<Token>, env: Env): (r: Option<(Truth, seq<Token>)>)
    ensures r.Some? ==> |r.value.1| < |t|
    decreases |t|, 0
  {
    if t == [] then None
    else match t[0]
      case Test(a) => Some((EvalAtom(a, env), t[1..]))
      case Open =>
        var inner := EvalDisjunction(t[1..], env);
        if inner.None? || inner.value.1 == [] || inner.value.1[0] != Close then None
        else Some((inner.value.0, inner.value.1[1..]))
      case _ => None
  }

  /** A WHERE clause selects a row when all its tokens make one condition and the condition is true. */
  predicate Selects(t: seq<Token>, env: Env) {
    EvalDisjunction(t, env) == Some((Yes, []))
  }

  // What is emitted

  function Join(parts: seq<seq<Token>>, word: Token): seq<Token> {
    if parts == [] then []
    else if |parts| == 1 then parts[0]
    else parts[0] + [word] + Join(parts[1..], word)
  }

  function Bracketed(t: seq<Token>): seq<Token> {
    [Open] + t + [Close]
  }

  function RelationOf(operator: Operator): Relation {
    match operator
    case NotEqual => Ne
    case Out => Ne
    case Less => Lt
    case LessEqual => Le
    case Greater => Gt
    case GreaterEqual => Ge
    case _ => Eq
  }

  function Operand(field: Field, value: string): Cell {
    if field.Boolean() then Flag(value == "true") else Text(value)
  }

  function ValueTests(field: Field, operator: Operator, values: seq<string>): (r: seq<seq<Token>>)
    ensures |r| == |values|
    ensures forall i :: 0 <= i < |values| ==>
      r[i] == [Test(Compares(field, RelationOf(operator), Operand(field, values[i])))]
  {
    if values == [] then []
    else
      [[Test(Compares(field, RelationOf(operator), Operand(field, values[0])))]] + ValueTests(field, operator, values[1..])
  }

  function ValueWord(operator: Operator): Token {
    if operator.Out? then AndWord else OrWord
  }

  function First(values: seq<string>): string {
    if values == [] then "" else values[0]
  }

  function EmitCompare(field: Field, operator: Operator, values: seq<string>): seq<Token> {
    if field.Membership() then [Test(Available), AndWord, Test(Ancestor(field.DepartmentSubtree?, First(values)))]
    else if operator.NullTest() then [Test(Missing(field, operator.IsNotNull?))]
    else if operator.Contains? then [Test(Holding(field, First(values)))]
    else Join(ValueTests(field, operator, values), ValueWord(operator))
  }

  function Emit(e: Expression): seq<Token>
    decreases e, 1
  {
    Bracketed(EmitBody(e))
  }

  function EmitBody(e: Expression): seq<Token>
    decreases e, 0
  {
    match e
    case Compare(field, operator, values) => EmitCompare(field, operator, values)
    case And(items) => Join(EmitAll(items), AndWord)
    case Or(items) => Join(EmitAll(items), OrWord)
  }

  function EmitAll(items: seq<Expression>): (r: seq<seq<Token>>)
    ensures |r| == |items|
    ensures forall i :: 0 <= i < |items| ==> r[i] == Emit(items[i])
    decreases items, 0
  {
    if items == [] then [] else [Emit(items[0])] + EmitAll(items[1..])
  }

  // What a filter means

  /** What one operand asks of the value of a column; on the three boolean columns it stands for a flag. */
  predicate Satisfies(field: Field, operator: Operator, cell: Cell, v: string) {
    var meant := if field in {Enabled, MemberActive, HasLocalPassword} then Flag(v == "true") else Text(v);
    match operator
    case Equal => cell == meant
    case In => cell == meant
    case NotEqual => cell != meant
    case Out => cell != meant
    case Less => CellBefore(cell, meant)
    case LessEqual => cell == meant || CellBefore(cell, meant)
    case Greater => CellBefore(meant, cell)
    case GreaterEqual => cell == meant || CellBefore(meant, cell)
    case _ => false
  }

  /**
    The two-valued reading: a comparison on a null column does not hold. A column is out of a set if it differs from every
    item; otherwise one operand is enough.
  */
  ghost predicate HoldsCompare(field: Field, operator: Operator, values: seq<string>, env: Env) {
    var cell := env.row.At(field);
    if field == Department || field == DepartmentSubtree then
      && env.row.At(DepartmentStatus) == Some(Text("available")) && env.row.snapshot.Some?
      && values != [] && InDepartment(env.row.snapshot.value, field == DepartmentSubtree, values[0])
    else match operator
      case IsNull => cell.None?
      case IsNotNull => cell.Some?
      case Contains =>
        cell.Some? && cell.value.Text? && values != [] && Within(env.lower(values[0]), env.lower(cell.value.text))
      case Out => cell.Some? && forall v :: v in values ==> Satisfies(field, operator, cell.value, v)
      case _ => cell.Some? && exists v :: v in values && Satisfies(field, operator, cell.value, v)
  }

  /** The text is the one, with something or nothing before and after it. */
  ghost predicate Within(text: string, whole: string) {
    exists before, after :: whole == before + text + after
  }

  lemma ContainedMeans(whole: string, text: string)
    ensures Contained(whole, text) <==> Within(text, whole)
  {
    if Contained(whole, text) {
      var i :| 0 <= i <= |whole| - |text| && whole[i..][..|text|] == text;
      assert whole == whole[..i] + text + whole[i + |text|..];
    }
    if Within(text, whole) {
      var before, after :| whole == before + text + after;
      assert whole[|before|..][..|text|] == text;
    }
  }

  /** A member of the department itself, or of any department at or below it. */
  ghost predicate InDepartment(s: Department.Snapshot, subtree: bool, id: string) {
    if subtree then exists m :: m in s.memberships && Department.AtOrBelow(s.nodes, m, id) else id in s.memberships
  }

  ghost predicate Holds(e: Expression, env: Env)
    decreases e
  {
    match e
    case Compare(field, operator, values) => HoldsCompare(field, operator, values, env)
    case And(items) => forall i :: 0 <= i < |items| ==> Holds(items[i], env)
    case Or(items) => exists i :: 0 <= i < |items| && Holds(items[i], env)
  }

  // Tokens that make one operand

  /** Wherever these tokens stand as an operand, they are read whole, with this value. */
  ghost predicate Reads(part: seq<Token>, value: Truth, env: Env) {
    forall rest {:trigger EvalPrimary(part + rest, env)} :: EvalPrimary(part + rest, env) == Some((value, rest))
  }

  ghost predicate ReadAll(parts: seq<seq<Token>>, values: seq<Truth>, env: Env) {
    |parts| == |values| && forall i :: 0 <= i < |parts| ==> Reads(parts[i], values[i], env)
  }

  lemma AppendRead(parts: seq<seq<Token>>, values: seq<Truth>, part: seq<Token>, value: Truth, env: Env)
    requires ReadAll(parts, values, env) && Reads(part, value, env)
    ensures ReadAll(parts + [part], values + [value], env)
  {
    forall i | 0 <= i <= |parts| ensures Reads((parts + [part])[i], (values + [value])[i], env) {
      if i < |parts| {
        assert Reads(parts[i], values[i], env);
      }
    }
  }

  function AndAll(values: seq<Truth>): Truth {
    if values == [] then Yes else if |values| == 1 then values[0] else And3(values[0], AndAll(values[1..]))
  }

  function OrAll(values: seq<Truth>): Truth {
    if values == [] then No else if |values| == 1 then values[0] else Or3(values[0], OrAll(values[1..]))
  }

  lemma {:induction false} AndAllYes(values: seq<Truth>)
    ensures AndAll(values) == Yes <==> forall i :: 0 <= i < |values| ==> values[i] == Yes
  {
    if |values| > 1 {
      AndAllYes(values[1..]);
      assert values == [values[0]] + values[1..];
    }
  }

  lemma {:induction false} OrAllYes(values: seq<Truth>)
    ensures OrAll(values) == Yes <==> exists i :: 0 <= i < |values| && values[i] == Yes
  {
    if |values| > 1 {
      OrAllYes(values[1..]);
      assert values == [values[0]] + values[1..];
      if exists i :: 0 <= i < |values| && values[i] == Yes {
        var i :| 0 <= i < |values| && values[i] == Yes;
        assert i > 0 ==> values[1..][i - 1] == Yes;
      }
    }
  }

  predicate Ends(rest: seq<Token>, word: Token) {
    rest == [] || rest[0] == Close || (word == AndWord && rest[0] == OrWord)
  }

  lemma {:induction false} ConjunctionReads(parts: seq<seq<Token>>, values: seq<Truth>, rest: seq<Token>, env: Env)
    requires parts != [] && ReadAll(parts, values, env) && Ends(rest, AndWord)
    ensures EvalConjunction(Join(parts, AndWord) + rest, env) == Some((AndAll(values), rest))
    decreases |parts|
  {
    if |parts| == 1 {
      assert EvalPrimary(parts[0] + rest, env) == Some((values[0], rest));
    } else {
      var tail := [AndWord] + (Join(parts[1..], AndWord) + rest);
      assert Join(parts, AndWord) + rest == parts[0] + tail;
      assert EvalPrimary(parts[0] + tail, env) == Some((values[0], tail));
      assert tail[1..] == Join(parts[1..], AndWord) + rest;
      ConjunctionReads(parts[1..], values[1..], rest, env);
    }
  }

  lemma {:induction false} DisjunctionReads(parts: seq<seq<Token>>, values: seq<Truth>, rest: seq<Token>, env: Env)
    requires parts != [] && ReadAll(parts, values, env) && Ends(rest, OrWord)
    ensures EvalDisjunction(Join(parts, OrWord) + rest, env) == Some((OrAll(values), rest))
    decreases |parts|
  {
    if |parts| == 1 {
      assert EvalPrimary(parts[0] + rest, env) == Some((values[0], rest));
    } else {
      var tail := [OrWord] + (Join(parts[1..], OrWord) + rest);
      assert Join(parts, OrWord) + rest == parts[0] + tail;
      assert EvalPrimary(parts[0] + tail, env) == Some((values[0], tail));
      assert tail[1..] == Join(parts[1..], OrWord) + rest;
      DisjunctionReads(parts[1..], values[1..], rest, env);
    }
  }

  lemma TestReads(a: Atom, env: Env)
    ensures Reads([Test(a)], EvalAtom(a, env), env)
  {
    forall rest ensures EvalPrimary([Test(a)] + rest, env) == Some((EvalAtom(a, env), rest)) {
      assert ([Test(a)] + rest)[1..] == rest;
    }
  }

  lemma BracketReads(inner: seq<Token>, value: Truth, env: Env)
    requires forall rest :: rest != [] && rest[0] == Close ==> EvalDisjunction(inner + rest, env) == Some((value, rest))
    ensures Reads(Bracketed(inner), value, env)
  {
    forall rest ensures EvalPrimary(Bracketed(inner) + rest, env) == Some((value, rest)) {
      var t := Bracketed(inner) + rest;
      assert t[1..] == inner + ([Close] + rest);
      assert ([Close] + rest)[1..] == rest;
    }
  }

  /** A bracketed list of operands joined by AND is one operand: their conjunction. */
  lemma AndGroupReads(parts: seq<seq<Token>>, values: seq<Truth>, env: Env)
    requires parts != [] && ReadAll(parts, values, env)
    ensures Reads(Bracketed(Join(parts, AndWord)), AndAll(values), env)
  {
    forall rest | rest != [] && rest[0] == Close
      ensures EvalDisjunction(Join(parts, AndWord) + rest, env) == Some((AndAll(values), rest))
    {
      ConjunctionReads(parts, values, rest, env);
    }
    BracketReads(Join(parts, AndWord), AndAll(values), env);
  }

  lemma OrGroupReads(parts: seq<seq<Token>>, values: seq<Truth>, env: Env)
    requires parts != [] && ReadAll(parts, values, env)
    ensures Reads(Bracketed(Join(parts, OrWord)), OrAll(values), env)
  {
    forall rest | rest != [] && rest[0] == Close
      ensures EvalDisjunction(Join(parts, OrWord) + rest, env) == Some((OrAll(values), rest))
    {
      DisjunctionReads(parts, values, rest, env);
    }
    BracketReads(Join(parts, OrWord), OrAll(values), env);
  }

  // The filter

  lemma MembershipMeans(s: Department.Snapshot, subtree: bool, id: string)
    ensures id in Department.AncestorRows(s, subtree) <==> InDepartment(s, subtree, id)
  {
    assert forall m :: m in Department.Members(s) <==> m in s.memberships;
    if subtree {
      Department.SubtreeMatches(s, id);
    }
  }

  lemma ValuesRead(field: Field, operator: Operator, values: seq<string>, env: Env) returns (truths: seq<Truth>)
    ensures ReadAll(ValueTests(field, operator, values), truths, env)
    ensures forall i :: 0 <= i < |values| ==>
      truths[i] == EvalAtom(Compares(field, RelationOf(operator), Operand(field, values[i])), env)
  {
    truths := seq(|values|, i requires 0 <= i < |values| =>
      EvalAtom(Compares(field, RelationOf(operator), Operand(field, values[i])), env));
    forall i | 0 <= i < |values| ensures Reads(ValueTests(field, operator, values)[i], truths[i], env) {
      TestReads(Compares(field, RelationOf(operator), Operand(field, values[i])), env);
    }
  }

  lemma CellsOrder(a: Cell, b: Cell)
    ensures CellBefore(a, b) || CellBefore(b, a) || a == b
    ensures !(CellBefore(a, b) && CellBefore(b, a)) && !CellBefore(a, a)
  {
    if a.Text? {
      BeforeOrders(a.text, if b.Text? then b.text else "", a.text);
    }
  }

  /** Texts are in the order of their characters, a prefix first; of flags false is first. */
  lemma CellsCompare(s: string, t: string, x: bool, y: bool)
    ensures CellBefore(Text(s), Text(t)) <==>
      exists i :: 0 <= i <= |s| && i < |t| && s[..i] == t[..i] && (i == |s| || s[i] < t[i])
    ensures CellBefore(Flag(x), Flag(y)) <==> !x && y
  {
    BeforeMeans(s, t);
  }

  /** The relation and the operand that are emitted ask of a cell what the operator means. */
  lemma RelatedWhen(field: Field, operator: Operator, cell: Cell, v: string)
    requires Plain(field, operator)
    ensures Related(RelationOf(operator), cell, Operand(field, v)) <==> Satisfies(field, operator, cell, v)
  {
    CellsOrder(cell, Operand(field, v));
  }

  ghost predicate Plain(field: Field, operator: Operator) {
    !field.Membership() && !operator.NullTest() && !operator.Contains?
  }

  lemma PlainTruths(field: Field, operator: Operator, values: seq<string>, env: Env) returns (truths: seq<Truth>)
    requires Plain(field, operator)
    ensures ReadAll(ValueTests(field, operator, values), truths, env)
    ensures forall i :: 0 <= i < |values| ==>
      (truths[i] == Yes <==> env.row.At(field).Some? && Satisfies(field, operator, env.row.At(field).value, values[i]))
  {
    truths := ValuesRead(field, operator, values, env);
    if env.row.At(field).Some? {
      forall i | 0 <= i < |values|
        ensures Related(RelationOf(operator), env.row.At(field).value, Operand(field, values[i]))
          <==> Satisfies(field, operator, env.row.At(field).value, values[i])
      {
        RelatedWhen(field, operator, env.row.At(field).value, values[i]);
      }
    }
  }

  lemma PlainReads(field: Field, operator: Operator, values: seq<string>, env: Env) returns (value: Truth)
    requires Plain(field, operator) && values != []
    ensures Reads(Bracketed(EmitCompare(field, operator, values)), value, env)
    ensures value == Yes <==> HoldsCompare(field, operator, values, env)
  {
    var truths := PlainTruths(field, operator, values, env);
    var parts := ValueTests(field, operator, values);
    if operator.Out? {
      AndGroupReads(parts, truths, env);
      AndAllYes(truths);
      value := AndAll(truths);
      assert forall v :: v in values <==> exists i :: 0 <= i < |values| && values[i] == v;
    } else {
      OrGroupReads(parts, truths, env);
      OrAllYes(truths);
      value := OrAll(truths);
      if HoldsCompare(field, operator, values, env) {
        var v :| v in values && Satisfies(field, operator, env.row.At(field).value, v);
        var i :| 0 <= i < |values| && values[i] == v;
        assert truths[i] == Yes;
      }
    }
  }

  lemma CompareReads(field: Field, operator: Operator, values: seq<string>, env: Env) returns (value: Truth)
    requires values != []
    ensures Reads(Bracketed(EmitCompare(field, operator, values)), value, env)
    ensures value == Yes <==> HoldsCompare(field, operator, values, env)
  {
    if field.Membership() {
      var available, ancestor := Available, Ancestor(field.DepartmentSubtree?, First(values));
      TestReads(available, env);
      TestReads(ancestor, env);
      var truths := [EvalAtom(available, env), EvalAtom(ancestor, env)];
      var parts := [[Test(available)], [Test(ancestor)]];
      assert Join(parts, AndWord) == [Test(available), AndWord, Test(ancestor)] by {
        assert parts[1..] == [[Test(ancestor)]];
      }
      AndGroupReads(parts, truths, env);
      AndAllYes(truths);
      value := AndAll(truths);
      if env.row.snapshot.Some? {
        MembershipMeans(env.row.snapshot.value, field.DepartmentSubtree?, First(values));
      }
    } else if Plain(field, operator) {
      value := PlainReads(field, operator, values, env);
    } else {
      var a := if operator.Contains? then Holding(field, First(values)) else Missing(field, operator.IsNotNull?);
      TestReads(a, env);
      value := EvalAtom(a, env);
      OrGroupReads([[Test(a)]], [value], env);
      if operator.Contains? && env.row.At(field).Some? && env.row.At(field).value.Text? {
        ContainedMeans(env.lower(env.row.At(field).value.text), env.lower(First(values)));
      }
    }
  }

  ghost predicate NonEmpty(e: Expression)
    decreases e
  {
    match e
    case Compare(_, _, values) => values != []
    case And(items) => items != [] && forall i :: 0 <= i < |items| ==> NonEmpty(items[i])
    case Or(items) => items != [] && forall i :: 0 <= i < |items| ==> NonEmpty(items[i])
  }

  /**
    At every subtree the emitted tokens are one operand, which is true exactly when the subtree holds: the database's
    third truth value never selects more or less than the two-valued reading.
  */
  lemma {:induction false} FilterReads(e: Expression, env: Env) returns (value: Truth)
    requires NonEmpty(e)
    ensures Reads(Emit(e), value, env)
    ensures value == Yes <==> Holds(e, env)
    decreases e, 1
  {
    match e
    case Compare(field, operator, values) => value := CompareReads(field, operator, values, env);
    case And(items) =>
      var values := FiltersRead(items, env);
      AndGroupReads(EmitAll(items), values, env);
      AndAllYes(values);
      value := AndAll(values);
    case Or(items) =>
      var values := FiltersRead(items, env);
      OrGroupReads(EmitAll(items), values, env);
      OrAllYes(values);
      value := OrAll(values);
  }

  lemma {:induction false} FiltersRead(items: seq<Expression>, env: Env) returns (values: seq<Truth>)
    requires forall i :: 0 <= i < |items| ==> NonEmpty(items[i])
    ensures ReadAll(EmitAll(items), values, env)
    ensures forall i :: 0 <= i < |items| ==> (values[i] == Yes <==> Holds(items[i], env))
    decreases items, 0
  {
    if items == [] {
      values := [];
    } else {
      var value := FilterReads(items[0], env);
      var others := FiltersRead(items[1..], env);
      values := [value] + others;
      assert EmitAll(items) == [Emit(items[0])] + EmitAll(items[1..]);
      forall i | 0 <= i < |items|
        ensures Reads(EmitAll(items)[i], values[i], env) && (values[i] == Yes <==> Holds(items[i], env))
      {
        if i > 0 {
          assert Reads(EmitAll(items[1..])[i - 1], others[i - 1], env) && items[1..][i - 1] == items[i];
        }
      }
    }
  }

  /** The emitted WHERE clause selects a row exactly when the filter holds of it. */
  lemma FilterSelects(e: Expression, env: Env)
    requires NonEmpty(e)
    ensures Selects(Emit(e), env) <==> Holds(e, env)
  {
    var value := FilterReads(e, env);
    OneOperand(Emit(e), value, env);
  }

  lemma OneOperand(t: seq<Token>, value: Truth, env: Env)
    requires Reads(t, value, env)
    ensures EvalDisjunction(t, env) == Some((value, []))
  {
    assert t + [] == t;
    assert EvalPrimary(t + [], env) == Some((value, []));
    assert EvalConjunction(t, env) == Some((value, []));
  }
}
