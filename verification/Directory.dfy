/**
  Account directory queries: fields, operators, filter expressions, and the grammar their textual form is parsed by.
  The grammar is given as functions from the text not read yet; `DirectoryParser` holds the parser that walks it.
*/
module Directory {
  import opened Common
  import opened Text

  datatype Field =
    | PrincipalId | Login | Enabled | MemberActive | HasLocalPassword | DisplayName | Email | ProfileStatus
    | DepartmentStatus | DepartmentSnapshot | Department | DepartmentSubtree
  {
    function Name(): string {
      match this
      case PrincipalId => "principalId"
      case Login => "login"
      case Enabled => "enabled"
      case MemberActive => "memberActive"
      case HasLocalPassword => "hasLocalPassword"
      case DisplayName => "displayName"
      case Email => "email"
      case ProfileStatus => "profileStatus"
      case DepartmentStatus => "departmentStatus"
      case DepartmentSnapshot => "departmentSnapshot"
      case Department => "department"
      case DepartmentSubtree => "departmentSubtree"
    }

    predicate Boolean() { Enabled? || MemberActive? || HasLocalPassword? }

    predicate Sortable() { !DepartmentSnapshot? && !Department? && !DepartmentSubtree? }

    predicate Membership() { Department? || DepartmentSubtree? }
  }

  const FIELDS: seq<Field> :=
    [PrincipalId, Login, Enabled, MemberActive, HasLocalPassword, DisplayName, Email, ProfileStatus, DepartmentStatus,
     DepartmentSnapshot, Department, DepartmentSubtree]

  function FindField(name: string, from: nat): (f: Option<Field>)
    requires from <= |FIELDS|
    ensures f.Some? ==> f.value.Name() == name
    decreases |FIELDS| - from
  {
    if from == |FIELDS| then None
    else if FIELDS[from].Name() == name then Some(FIELDS[from])
    else FindField(name, from + 1)
  }

  function ParseField(name: string): (f: Option<Field>)
    ensures f.Some? ==> f.value.Name() == name
  {
    FindField(name, 0)
  }

  lemma NamesDiffer(f: Field, g: Field)
    requires f.Name() == g.Name()
    ensures f == g
  {
  }

  lemma {:induction false} FindsField(f: Field, from: nat)
    requires from <= |FIELDS| && f in FIELDS[from..]
    ensures FindField(f.Name(), from) == Some(f)
    decreases |FIELDS| - from
  {
    if FIELDS[from].Name() == f.Name() {
      NamesDiffer(f, FIELDS[from]);
    } else {
      FindsField(f, from + 1);
    }
  }

  /** Every field is found under its own name. */
  lemma FieldNames(f: Field)
    ensures ParseField(f.Name()) == Some(f)
  {
    assert f in FIELDS by {
      match f
      case PrincipalId => assert FIELDS[0] == f;
      case Login => assert FIELDS[1] == f;
      case Enabled => assert FIELDS[2] == f;
      case MemberActive => assert FIELDS[3] == f;
      case HasLocalPassword => assert FIELDS[4] == f;
      case DisplayName => assert FIELDS[5] == f;
      case Email => assert FIELDS[6] == f;
      case ProfileStatus => assert FIELDS[7] == f;
      case DepartmentStatus => assert FIELDS[8] == f;
      case DepartmentSnapshot => assert FIELDS[9] == f;
      case Department => assert FIELDS[10] == f;
      case DepartmentSubtree => assert FIELDS[11] == f;
    }
    assert FIELDS[0..] == FIELDS;
    FindsField(f, 0);
  }

  datatype Operator =
    | Equal | NotEqual | Less | LessEqual | Greater | GreaterEqual | Contains | In | Out | IsNull | IsNotNull
  {
    function Text(): string {
      match this
      case Equal => "=="
      case NotEqual => "!="
      case Less => "=lt="
      case LessEqual => "=le="
      case Greater => "=gt="
      case GreaterEqual => "=ge="
      case Contains => "=icontains="
      case In => "=in="
      case Out => "=out="
      case IsNull => "=isnull="
      case IsNotNull => "=isnotnull="
    }

    predicate IsSet() { In? || Out? }

    predicate NullTest() { IsNull? || IsNotNull? }
  }

  /** In the order they are tried. */
  const OPERATORS: seq<Operator> :=
    [Equal, NotEqual, Less, LessEqual, Greater, GreaterEqual, Contains, In, Out, IsNull, IsNotNull]

  datatype Expression =
    | Compare(field: Field, operator: Operator, values: seq<string>)
    | And(items: seq<Expression>)
    | Or(items: seq<Expression>)

  /** How a principal identifier is read: its canonical form, if it is one. */
  type Canonical = string -> Option<string>

  const NODE_LIMIT: nat := 128
  const DEPTH_LIMIT: nat := 16
  const ITEM_LIMIT: nat := 256
  const SET_LIMIT: nat := 64
  const VALUE_BYTES: nat := 1024
  const FILTER_BYTES: nat := 8192

  // The grammar

  /** The text still to read, and the budget used so far. */
  datatype State = State(rest: string, nodes: nat, items: nat)

  datatype Parsed<+T> = Fail | Done(value: T, state: State)

  predicate StartsWith(s: string, text: string) {
    |text| <= |s| && s[..|text|] == text
  }

  predicate Alphanumeric(c: char) {
    '0' <= c <= '9' || 'A' <= c <= 'Z' || 'a' <= c <= 'z'
  }

  /** The length of the longest ASCII alphanumeric prefix. */
  function Word(s: string): (n: nat)
    ensures n <= |s|
  {
    if s == "" || !Alphanumeric(s[0]) then 0 else 1 + Word(s[1..])
  }

  function FindOperator(s: string, from: nat): (r: Option<Operator>)
    requires from <= |OPERATORS|
    ensures r.Some? ==> StartsWith(s, r.value.Text())
    decreases |OPERATORS| - from
  {
    if from == |OPERATORS| then None
    else if StartsWith(s, OPERATORS[from].Text()) then Some(OPERATORS[from])
    else FindOperator(s, from + 1)
  }

  predicate Escapable(c: char) {
    c == '\\' || c == '\'' || c == '"' || c == ',' || c == ';' || c == '(' || c == ')'
  }

  predicate Delimiter(c: char) { c == ',' || c == ';' || c == ')' }

  predicate BareForbidden(c: char) {
    Whitespace(c) || c == '(' || c == '\'' || c == '"' || c == '=' || c == '!' || c == '<' || c == '>' || c == '*'
  }

  /** The next character of an operand: its meaning and how many characters of text it takes; none if it is malformed. */
  function NextChar(s: string, quote: Option<char>): (r: Option<(char, nat)>)
    requires s != ""
    ensures r.Some? ==> 1 <= r.value.1 <= 2 && r.value.1 <= |s| && !IsControl(r.value.0)
  {
    if s[0] == '\\' then
      if |s| < 2 || !Escapable(s[1]) then None else Some((s[1], 2))
    else if quote.None? && BareForbidden(s[0]) then None
    else if IsControl(s[0]) then None
    else Some((s[0], 1))
  }

  /** An operand after its opening quote, if it has one. */
  function ParseChars(s: string, quote: Option<char>, read: string): (r: Option<(string, string)>)
    ensures r.Some? ==> |r.value.1| <= |s|
    decreases |s|
  {
    if s == "" then
      if quote.Some? || read == "" then None else Some((read, s))
    else if quote == Some(s[0]) then Some((read, s[1..]))
    else if quote.None? && Delimiter(s[0]) then
      if read == "" then None else Some((read, s))
    else
      var next := NextChar(s, quote);
      if next.None? || Utf8Length(read + [next.value.0]) > VALUE_BYTES then None
      else ParseChars(s[next.value.1..], quote, read + [next.value.0])
  }

  function ParseValue(s: string): (r: Option<(string, string)>)
    ensures r.Some? ==> |r.value.1| <= |s|
  {
    if StartsWith(s, "'") then ParseChars(s[1..], Some('\''), "")
    else if StartsWith(s, "\"") then ParseChars(s[1..], Some('"'), "")
    else ParseChars(s, None, "")
  }

  /** One item of a set that has `count` items already. */
  function ParseItem(s: State, count: nat): (r: Option<(string, State)>)
    ensures r.Some? ==> |r.value.1.rest| <= |s.rest|
  {
    if s.items + 1 > ITEM_LIMIT || count >= SET_LIMIT then None
    else
      var v := ParseValue(s.rest);
      if v.None? then None else Some((v.value.0, State(v.value.1, s.nodes, s.items + 1)))
  }

  /** The rest of a set after its opening parenthesis or a comma. */
  function ParseSet(s: State, read: seq<string>): (r: Parsed<seq<string>>)
    ensures r.Done? ==> |r.state.rest| <= |s.rest|
    decreases |s.rest|
  {
    var item := ParseItem(s, |read|);
    if item.None? then Fail
    else
      var (value, next) := item.value;
      if StartsWith(next.rest, ")") then Done(read + [value], next.(rest := next.rest[1..]))
      else if StartsWith(next.rest, ",") then ParseSet(next.(rest := next.rest[1..]), read + [value])
      else Fail
  }

  function ParseOperand(s: State, operator: Operator): (r: Parsed<seq<string>>)
    ensures r.Done? ==> |r.state.rest| <= |s.rest|
  {
    if operator.IsSet() then
      if !StartsWith(s.rest, "(") then Fail else ParseSet(s.(rest := s.rest[1..]), [])
    else
      var v := ParseValue(s.rest);
      if v.None? then Fail else Done([v.value.0], s.(rest := v.value.1))
  }

  /** The combinations of field, operator and values that mean anything. */
  predicate Sensible(field: Field, operator: Operator, values: seq<string>) {
    && (!field.Sortable() ==> field.Membership() && operator == Equal)
    && (field.Boolean() ==> (operator == Equal || operator == NotEqual) && forall v <- values :: v == "true" || v == "false")
    && (operator.NullTest() ==> values == ["true"])
  }

  function Canonicalized(values: seq<string>, canonical: Canonical): (r: Option<seq<string>>)
    ensures r.Some? ==> |r.value| == |values|
    ensures r.Some? ==> forall i :: 0 <= i < |values| ==> canonical(values[i]) == Some(r.value[i])
    ensures r.None? ==> exists i :: 0 <= i < |values| && canonical(values[i]) == None
  {
    if values == [] then Some([])
    else
      var first, rest := canonical(values[0]), Canonicalized(values[1..], canonical);
      if first.None? || rest.None? then None else Some([first.value] + rest.value)
  }

  function CheckedComparison(
    field: Field, operator: Operator, values: seq<string>, canonical: Canonical): Option<Expression>
  {
    if !Sensible(field, operator, values) then None
    else if field != PrincipalId then Some(Compare(field, operator, values))
    else
      var ids := Canonicalized(values, canonical);
      if ids.None? then None else Some(Compare(field, operator, ids.value))
  }

  /** A field name and an operator. */
  function ParseHead(s: string): (r: Option<(Field, Operator, string)>)
    ensures r.Some? ==> |r.value.2| < |s|
  {
    var n := Word(s);
    var field := ParseField(s[..n]);
    if field.None? then None
    else
      var operator := FindOperator(s[n..], 0);
      if operator.None? then None
      else
        OperatorLength(operator.value);
        Some((field.value, operator.value, s[n..][|operator.value.Text()|..]))
  }

  lemma OperatorLength(o: Operator)
    ensures |o.Text()| >= 2
  {
  }

  function ParseTail(s: State, field: Field, operator: Operator, canonical: Canonical): (r: Parsed<Expression>)
    ensures r.Done? ==> |r.state.rest| <= |s.rest|
  {
    var operand := ParseOperand(s, operator);
    if operand.Fail? then Fail
    else
      var e := CheckedComparison(field, operator, operand.value, canonical);
      if e.None? then Fail else Done(e.value, operand.state)
  }

  /** A node of the tree counted, and its head. */
  function ParseStart(s: State): (r: Option<(Field, Operator, State)>)
    ensures r.Some? ==> |r.value.2.rest| < |s.rest|
  {
    if s.nodes + 1 > NODE_LIMIT then None else Counted(s, ParseHead(s.rest))
  }

  function Counted(s: State, head: Option<(Field, Operator, string)>): Option<(Field, Operator, State)> {
    if head.None? then None else Some((head.value.0, head.value.1, State(head.value.2, s.nodes + 1, s.items)))
  }

  function ParseCompare(s: State, canonical: Canonical): (r: Parsed<Expression>)
    ensures r.Done? ==> |r.state.rest| < |s.rest|
  {
    var start := ParseStart(s);
    if start.None? then Fail else ParseTail(start.value.2, start.value.0, start.value.1, canonical)
  }

  function Separator(precedence: nat): string {
    if precedence == 0 then "," else ";"
  }

  function Grouped(precedence: nat, items: seq<Expression>): Expression {
    if precedence == 0 then Or(items) else And(items)
  }

  function GroupOf(precedence: nat, items: Parsed<seq<Expression>>): (r: Parsed<Expression>)
    ensures r.Done? ==> items.Done? && r.state == items.state
  {
    if items.Fail? then Fail else Done(Grouped(precedence, items.value), items.state)
  }

  /** Precedence 0 reads alternatives, 1 conjunctions, 2 a comparison or a group. */
  function ParseExpression(s: State, precedence: nat, depth: nat, canonical: Canonical): (r: Parsed<Expression>)
    requires precedence <= 2
    ensures r.Done? ==> |r.state.rest| < |s.rest|
    decreases |s.rest|, 2 - precedence, 1
  {
    if depth > DEPTH_LIMIT then Fail
    else if precedence < 2 then
      var first := ParseExpression(s, precedence + 1, depth, canonical);
      if first.Fail? then Fail else ParseGroup(first.value, first.state, precedence, depth, canonical)
    else if StartsWith(s.rest, "(") then
      var inner := ParseExpression(s.(rest := s.rest[1..]), 0, depth + 1, canonical);
      if inner.Fail? || !StartsWith(inner.state.rest, ")") then Fail
      else Done(inner.value, inner.state.(rest := inner.state.rest[1..]))
    else ParseCompare(s, canonical)
  }

  /** What follows the first item of a level: nothing, or a separator and the other items of its group. */
  function ParseGroup(first: Expression, next: State, precedence: nat, depth: nat, canonical: Canonical)
    : (r: Parsed<Expression>)
    requires precedence < 2
    ensures r.Done? ==> |r.state.rest| <= |next.rest|
    decreases |next.rest|, 3, 0
  {
    if !StartsWith(next.rest, Separator(precedence)) then Done(first, next)
    else if next.nodes + 1 > NODE_LIMIT then Fail
    else
      GroupOf(
        precedence,
        ParseItems(State(next.rest[1..], next.nodes + 1, next.items), precedence, depth, [first], canonical))
  }

  /** The remaining items of a group after a separator. */
  function ParseItems(
    s: State, precedence: nat, depth: nat, read: seq<Expression>, canonical: Canonical
  ): (r: Parsed<seq<Expression>>)
    requires precedence < 2
    ensures r.Done? ==> |r.state.rest| < |s.rest|
    decreases |s.rest|, 2 - precedence, 0
  {
    var item := ParseExpression(s, precedence + 1, depth, canonical);
    if item.Fail? then Fail
    else if !StartsWith(item.state.rest, Separator(precedence)) then Done(read + [item.value], item.state)
    else ParseItems(item.state.(rest := item.state.rest[1..]), precedence, depth, read + [item.value], canonical)
  }

  function ParseFilter(raw: string, canonical: Canonical): Option<Expression> {
    if raw == "" || Utf8Length(raw) > FILTER_BYTES then None
    else
      var r := ParseExpression(State(raw, 0, 0), 0, 0, canonical);
      if r.Fail? || r.state.rest != "" then None else Some(r.value)
  }

  // The printed form

  function Escaped(value: string): string {
    if value == "" then ""
    else (if value[0] == '\'' || value[0] == '\\' then ['\\', value[0]] else [value[0]]) + Escaped(value[1..])
  }

  function Quoted(value: string): string {
    "'" + Escaped(value) + "'"
  }

  function PrintValues(values: seq<string>): string
    requires values != []
  {
    if |values| == 1 then Quoted(values[0]) + ")" else Quoted(values[0]) + "," + PrintValues(values[1..])
  }

  predicate NeedsGroup(e: Expression, precedence: nat) {
    (e.Or? && precedence > 0) || (e.And? && precedence > 1)
  }

  ghost predicate WellFormed(e: Expression, canonical: Canonical)
    decreases e
  {
    match e
    case Compare(field, operator, values) =>
      && Sensible(field, operator, values)
      && (operator.IsSet() ==> 1 <= |values| <= SET_LIMIT)
      && (!operator.IsSet() ==> |values| == 1)
      && (forall i :: 0 <= i < |values| ==> Printable(values[i]) && Utf8Length(values[i]) <= VALUE_BYTES)
      && (field == PrincipalId ==> forall i :: 0 <= i < |values| ==> canonical(values[i]) == Some(values[i]))
    case And(items) => |items| >= 2 && forall i :: 0 <= i < |items| ==> WellFormed(items[i], canonical)
    case Or(items) => |items| >= 2 && forall i :: 0 <= i < |items| ==> WellFormed(items[i], canonical)
  }

  /** A tree as text at top level. */
  function Print(e: Expression): string
    decreases e, 0
  {
    match e
    case Compare(field, operator, values) =>
      field.Name() + operator.Text() +
      (if values == [] then "" else if operator.IsSet() then "(" + PrintValues(values) else Quoted(values[0]))
    case And(items) => PrintItems(items, 1)
    case Or(items) => PrintItems(items, 0)
  }

  /** A tree as an operand of the next weaker operator: in parentheses where it would be read differently. */
  function PrintAt(e: Expression, precedence: nat): string
    decreases e, 1
  {
    if NeedsGroup(e, precedence) then "(" + Print(e) + ")" else Print(e)
  }

  function PrintItems(items: seq<Expression>, precedence: nat): string
    decreases items, 0
  {
    if items == [] then ""
    else if |items| == 1 then PrintAt(items[0], precedence + 1)
    else PrintAt(items[0], precedence + 1) + Separator(precedence) + PrintItems(items[1..], precedence)
  }

  // Budgets

  function Nodes(e: Expression): nat {
    match e
    case Compare(_, _, _) => 1
    case And(items) => 1 + NodesOf(items)
    case Or(items) => 1 + NodesOf(items)
  }

  function NodesOf(items: seq<Expression>): nat {
    if items == [] then 0 else Nodes(items[0]) + NodesOf(items[1..])
  }

  function SetItems(e: Expression): nat {
    match e
    case Compare(_, operator, values) => if operator.IsSet() then |values| else 0
    case And(items) => SetItemsOf(items)
    case Or(items) => SetItemsOf(items)
  }

  function SetItemsOf(items: seq<Expression>): nat {
    if items == [] then 0 else SetItems(items[0]) + SetItemsOf(items[1..])
  }

  /** Levels of parentheses the printed form needs below this one. */
  function Levels(e: Expression): nat
    decreases e, 0
  {
    match e
    case Compare(_, _, _) => 0
    case And(items) => LevelsOf(items, 1)
    case Or(items) => LevelsOf(items, 0)
  }

  function LevelsAt(e: Expression, precedence: nat): nat
    decreases e, 1
  {
    Levels(e) + if NeedsGroup(e, precedence) then 1 else 0
  }

  function LevelsOf(items: seq<Expression>, precedence: nat): nat
    decreases items, 0
  {
    if items == [] then 0
    else Max(LevelsAt(items[0], precedence + 1), LevelsOf(items[1..], precedence))
  }

  predicate InBudget(e: Expression) {
    && Nodes(e) <= NODE_LIMIT && SetItems(e) <= ITEM_LIMIT && Levels(e) <= DEPTH_LIMIT
    && Utf8Length(Print(e)) <= FILTER_BYTES
  }
}
