/** Printing and parsing directory filters are inverse, and the parser accepts only trees within its budgets. */
module DirectoryGrammar {
  import opened Common
  import opened Text
  import opened Directory

  // Words and operators

  lemma {:induction false} WordEnds(s: string, rest: string)
    requires Word(s) == |s| && (rest == "" || !Alphanumeric(rest[0]))
    ensures Word(s + rest) == |s|
  {
    if s == "" {
      assert s + rest == rest;
    } else {
      WordEnds(s[1..], rest);
      assert (s + rest)[1..] == s[1..] + rest;
    }
  }

  predicate AllAlphanumeric(s: string) {
    forall i :: 0 <= i < |s| ==> Alphanumeric(s[i])
  }

  lemma {:induction false} WordOfAll(s: string)
    requires AllAlphanumeric(s)
    ensures Word(s) == |s|
  {
    if s != "" {
      WordOfAll(s[1..]);
    }
  }

  lemma NamesAreWords(f: Field)
    ensures Word(f.Name()) == |f.Name()| > 0
  {
    NamesAreAlphanumeric(f);
    WordOfAll(f.Name());
  }

  lemma NamesAreAlphanumeric(f: Field)
    ensures AllAlphanumeric(f.Name()) && f.Name() != ""
  {
  }

  /** The characters that tell the operators apart. */
  function Mark(o: Operator): (nat, char) {
    match o
    case Equal => (1, '=')
    case NotEqual => (0, '!')
    case Less => (2, 't')
    case LessEqual => (2, 'e')
    case Greater => (2, 't')
    case GreaterEqual => (2, 'e')
    case Contains => (2, 'c')
    case In => (2, 'n')
    case Out => (1, 'o')
    case IsNull => (4, 'u')
    case IsNotNull => (4, 'o')
  }

  lemma MarkIs(o: Operator, s: string)
    requires StartsWith(s, o.Text())
    ensures Mark(o).0 < |s| && s[Mark(o).0] == Mark(o).1
    ensures |s| >= 2 && s[0] == (if o == NotEqual then '!' else '=')
    ensures s[1] == match o
      case Equal => '=' case NotEqual => '=' case Less => 'l' case LessEqual => 'l' case Greater => 'g'
      case GreaterEqual => 'g' case Contains => 'i' case In => 'i' case Out => 'o' case IsNull => 'i' case IsNotNull => 'i'
    ensures o == IsNull || o == IsNotNull ==> s[2] == 's'
  {
    assert s[..|o.Text()|] == o.Text();
    assert forall i :: 0 <= i < |o.Text()| ==> s[i] == o.Text()[i];
  }

  /** No two operators start the same text. */
  lemma OperatorsDiffer(a: Operator, b: Operator, s: string)
    requires StartsWith(s, a.Text()) && StartsWith(s, b.Text())
    ensures a == b
  {
    MarkIs(a, s);
    MarkIs(b, s);
  }

  lemma {:induction false} FindsThe(o: Operator, s: string, from: nat)
    requires StartsWith(s, o.Text()) && from <= |OPERATORS| && o in OPERATORS[from..]
    ensures FindOperator(s, from) == Some(o)
    decreases |OPERATORS| - from
  {
    if StartsWith(s, OPERATORS[from].Text()) {
      OperatorsDiffer(o, OPERATORS[from], s);
    } else {
      FindsThe(o, s, from + 1);
    }
  }

  lemma OperatorFound(o: Operator, rest: string)
    ensures FindOperator(o.Text() + rest, 0) == Some(o)
    ensures |o.Text()| > 0 && !Alphanumeric(o.Text()[0])
  {
    assert (o.Text() + rest)[..|o.Text()|] == o.Text();
    assert OPERATORS[0..] == OPERATORS;
    assert o in OPERATORS by {
      match o
      case Equal => assert OPERATORS[0] == o;
      case NotEqual => assert OPERATORS[1] == o;
      case Less => assert OPERATORS[2] == o;
      case LessEqual => assert OPERATORS[3] == o;
      case Greater => assert OPERATORS[4] == o;
      case GreaterEqual => assert OPERATORS[5] == o;
      case Contains => assert OPERATORS[6] == o;
      case In => assert OPERATORS[7] == o;
      case Out => assert OPERATORS[8] == o;
      case IsNull => assert OPERATORS[9] == o;
      case IsNotNull => assert OPERATORS[10] == o;
    }
    FindsThe(o, o.Text() + rest, 0);
    MarkIs(o, o.Text());
  }

  // Operands

  lemma {:induction false} Utf8Append(a: string, b: string)
    ensures Utf8Length(a + b) == Utf8Length(a) + Utf8Length(b)
  {
    if a == "" {
      assert a + b == b;
    } else {
      Utf8Append(a[1..], b);
      assert (a + b)[1..] == a[1..] + b;
    }
  }

  lemma {:induction false} CharsParse(read: string, v: string, rest: string)
    requires Printable(v) && Utf8Length(read + v) <= VALUE_BYTES
    ensures ParseChars(Escaped(v) + ("'" + rest), Some('\''), read) == Some((read + v, rest))
    decreases |v|
  {
    var s := Escaped(v) + ("'" + rest);
    if v == "" {
      assert s == "'" + rest && s[1..] == rest && read + v == read;
    } else {
      var c := v[0];
      assert read + v == (read + [c]) + v[1..];
      Utf8Append(read + [c], v[1..]);
      var width := if c == '\'' || c == '\\' then 2 else 1;
      assert s[width..] == Escaped(v[1..]) + ("'" + rest);
      assert NextChar(s, Some('\'')) == Some((c, width));
      CharsParse(read + [c], v[1..], rest);
    }
  }

  lemma Peel(a: string, b: string)
    ensures StartsWith(a + b, a) && (a + b)[|a|..] == b
  {
  }

  /** A quoted operand reads back as itself, whatever it holds. */
  lemma ValueParses(v: string, rest: string)
    requires Printable(v) && Utf8Length(v) <= VALUE_BYTES
    ensures ParseValue(Quoted(v) + rest) == Some((v, rest))
  {
    var s := Quoted(v) + rest;
    assert s[..1] == "'";
    assert s[1..] == Escaped(v) + ("'" + rest);
    assert "" + v == v;
    CharsParse("", v, rest);
  }

  ghost predicate Operands(values: seq<string>) {
    forall i :: 0 <= i < |values| ==> Printable(values[i]) && Utf8Length(values[i]) <= VALUE_BYTES
  }

  lemma SetEnds(s: State, read: seq<string>, v: string, rest: string)
    requires ParseValue(s.rest) == Some((v, ")" + rest)) && |read| < SET_LIMIT && s.items < ITEM_LIMIT
    ensures ParseSet(s, read) == Done(read + [v], State(rest, s.nodes, s.items + 1))
  {
    Peel(")", rest);
  }

  lemma SetGoesOn(s: State, read: seq<string>, v: string, rest: string)
    requires ParseValue(s.rest) == Some((v, "," + rest)) && |read| < SET_LIMIT && s.items < ITEM_LIMIT
    ensures ParseSet(s, read) == ParseSet(State(rest, s.nodes, s.items + 1), read + [v])
  {
    Peel(",", rest);
    assert ("," + rest)[0] != ')';
  }

  lemma PrintedValues(values: seq<string>, rest: string)
    requires values != []
    ensures PrintValues(values) + rest == Quoted(values[0]) +
      (if |values| == 1 then ")" + rest else "," + (PrintValues(values[1..]) + rest))
  {
    var first := Quoted(values[0]);
    if |values| == 1 {
      Associates(first, ")", rest);
    } else {
      var others := PrintValues(values[1..]);
      Associates(first + ",", others, rest);
      Associates(first, ",", others + rest);
    }
  }

  lemma Associates<T>(a: seq<T>, b: seq<T>, c: seq<T>)
    ensures (a + b) + c == a + (b + c)
  {
  }

  /** The text reads as these values one by one, with commas between them and a parenthesis and `rest` after them. */
  ghost predicate ReadsAs(text: string, values: seq<string>, rest: string)
    requires values != []
    decreases |values|
  {
    if |values| == 1 then ParseValue(text) == Some((values[0], ")" + rest))
    else exists more :: ParseValue(text) == Some((values[0], "," + more)) && ReadsAs(more, values[1..], rest)
  }

  lemma {:induction false} PrintedReads(values: seq<string>, rest: string)
    requires values != [] && Operands(values)
    ensures ReadsAs(PrintValues(values) + rest, values, rest)
    decreases |values|
  {
    PrintedValues(values, rest);
    if |values| == 1 {
      ValueParses(values[0], ")" + rest);
    } else {
      var more := PrintValues(values[1..]) + rest;
      ValueParses(values[0], "," + more);
      PrintedReads(values[1..], rest);
    }
  }

  lemma OneMore(read: seq<string>, values: seq<string>)
    requires values != []
    ensures (read + [values[0]]) + values[1..] == read + values
  {
  }

  lemma {:induction false} SetParses(s: State, values: seq<string>, read: seq<string>, rest: string)
    requires values != [] && ReadsAs(s.rest, values, rest)
    requires |read| + |values| <= SET_LIMIT && s.items + |values| <= ITEM_LIMIT
    ensures ParseSet(s, read) == Done(read + values, State(rest, s.nodes, s.items + |values|))
    decreases |values|
  {
    if |values| == 1 {
      SetEnds(s, read, values[0], rest);
      assert values == [values[0]];
    } else {
      var more :| ParseValue(s.rest) == Some((values[0], "," + more)) && ReadsAs(more, values[1..], rest);
      SetGoesOn(s, read, values[0], more);
      SetParses(State(more, s.nodes, s.items + 1), values[1..], read + [values[0]], rest);
      OneMore(read, values);
    }
  }

  function PrintOperand(operator: Operator, values: seq<string>): string {
    if values == [] then "" else if operator.IsSet() then "(" + PrintValues(values) else Quoted(values[0])
  }

  lemma SetOpens(s: State, operator: Operator, rest: string)
    requires operator.IsSet() && s.rest == "(" + rest
    ensures ParseOperand(s, operator) == ParseSet(s.(rest := rest), [])
  {
    Peel("(", rest);
  }

  lemma OperandParses(operator: Operator, values: seq<string>, rest: string, nodes: nat, items: nat)
    requires Operands(values)
    requires if operator.IsSet() then 1 <= |values| <= SET_LIMIT && items + |values| <= ITEM_LIMIT else |values| == 1
    ensures ParseOperand(State(PrintOperand(operator, values) + rest, nodes, items), operator)
      == Done(values, State(rest, nodes, items + if operator.IsSet() then |values| else 0))
  {
    var s := State(PrintOperand(operator, values) + rest, nodes, items);
    if operator.IsSet() {
      var inner := PrintValues(values);
      assert ("(" + inner) + rest == "(" + (inner + rest);
      SetOpens(s, operator, inner + rest);
      PrintedReads(values, rest);
      SetParses(s.(rest := inner + rest), values, [], rest);
      assert [] + values == values;
    } else {
      ValueParses(values[0], rest);
      assert values == [values[0]];
    }
  }

  lemma {:induction false} CanonicalFixed(values: seq<string>, canonical: Canonical)
    requires forall i :: 0 <= i < |values| ==> canonical(values[i]) == Some(values[i])
    ensures Canonicalized(values, canonical) == Some(values)
  {
    if values != [] {
      CanonicalFixed(values[1..], canonical);
      assert [values[0]] + values[1..] == values;
    }
  }

  lemma CheckedFixed(e: Expression, canonical: Canonical)
    requires e.Compare? && WellFormed(e, canonical)
    ensures CheckedComparison(e.field, e.operator, e.values, canonical) == Some(e)
  {
    if e.field == PrincipalId {
      CanonicalFixed(e.values, canonical);
    }
  }

  /** The head of a printed comparison is read as it was printed. */
  lemma HeadParses(field: Field, operator: Operator, tail: string)
    ensures ParseHead(field.Name() + (operator.Text() + tail)) == Some((field, operator, tail))
  {
    var name, op := field.Name(), operator.Text();
    NamesAreWords(field);
    FieldNames(field);
    OperatorFound(operator, tail);
    WordEnds(name, op + tail);
    Peel(name, op + tail);
    Peel(op, tail);
  }

  lemma PrintedCompare(e: Expression, rest: string)
    requires e.Compare?
    ensures Print(e) + rest == e.field.Name() + (e.operator.Text() + (PrintOperand(e.operator, e.values) + rest))
  {
  }

  lemma TailRead(
    s: State, field: Field, operator: Operator, values: seq<string>, next: State, e: Expression, canonical: Canonical)
    requires ParseOperand(s, operator) == Done(values, next)
    requires CheckedComparison(field, operator, values, canonical) == Some(e)
    ensures ParseTail(s, field, operator, canonical) == Done(e, next)
  {
  }

  lemma StartCounts(s: State)
    requires s.nodes < NODE_LIMIT
    ensures ParseStart(s) == Counted(s, ParseHead(s.rest))
  {
  }

  lemma StartParses(s: State, field: Field, operator: Operator, tail: string)
    requires s.rest == field.Name() + (operator.Text() + tail) && s.nodes < NODE_LIMIT
    ensures ParseStart(s) == Some((field, operator, State(tail, s.nodes + 1, s.items)))
  {
    HeadParses(field, operator, tail);
    StartCounts(s);
    CountedIs(s, ParseHead(s.rest), field, operator, tail);
  }

  lemma CountedIs(
    s: State, head: Option<(Field, Operator, string)>, field: Field, operator: Operator, tail: string)
    requires head == Some((field, operator, tail))
    ensures Counted(s, head) == Some((field, operator, State(tail, s.nodes + 1, s.items)))
  {
  }

  lemma StartRead(s: State, field: Field, operator: Operator, inner: State, r: Parsed<Expression>, canonical: Canonical)
    requires ParseStart(s) == Some((field, operator, inner))
    requires ParseTail(inner, field, operator, canonical) == r
    ensures ParseCompare(s, canonical) == r
  {
  }

  lemma CompareRead(
    s: State, field: Field, operator: Operator, tail: string, r: Parsed<Expression>, canonical: Canonical)
    requires s.rest == field.Name() + (operator.Text() + tail) && s.nodes < NODE_LIMIT
    requires ParseTail(State(tail, s.nodes + 1, s.items), field, operator, canonical) == r
    ensures ParseCompare(s, canonical) == r
  {
    StartParses(s, field, operator, tail);
    StartRead(s, field, operator, State(tail, s.nodes + 1, s.items), r, canonical);
  }

  lemma OperandRead(e: Expression, rest: string, nodes: nat, items: nat, canonical: Canonical)
    requires e.Compare? && WellFormed(e, canonical) && items + SetItems(e) <= ITEM_LIMIT
    ensures ParseTail(State(PrintOperand(e.operator, e.values) + rest, nodes, items), e.field, e.operator, canonical)
      == Done(e, State(rest, nodes, items + SetItems(e)))
  {
    OperandParses(e.operator, e.values, rest, nodes, items);
    CheckedFixed(e, canonical);
    TailRead(State(PrintOperand(e.operator, e.values) + rest, nodes, items), e.field, e.operator, e.values,
             State(rest, nodes, items + SetItems(e)), e, canonical);
  }

  lemma CompareParses(e: Expression, rest: string, nodes: nat, items: nat, canonical: Canonical)
    requires e.Compare? && WellFormed(e, canonical)
    requires nodes + 1 <= NODE_LIMIT && items + SetItems(e) <= ITEM_LIMIT
    ensures ParseCompare(State(Print(e) + rest, nodes, items), canonical)
      == Done(e, State(rest, nodes + 1, items + SetItems(e)))
  {
    PrintedCompare(e, rest);
    OperandRead(e, rest, nodes + 1, items, canonical);
    CompareRead(
      State(Print(e) + rest, nodes, items), e.field, e.operator, PrintOperand(e.operator, e.values) + rest,
      Done(e, State(rest, nodes + 1, items + SetItems(e))), canonical);
  }

  // Trees

  /** What may follow a complete expression of this precedence: nothing that would continue it. */
  predicate Stops(rest: string, precedence: nat) {
    || rest == "" || rest[0] == ')'
    || (precedence >= 1 && rest[0] == ',')
    || (precedence >= 2 && rest[0] == ';')
  }

  lemma {:induction false} PrintStartsNoGroup(e: Expression, rest: string, canonical: Canonical)
    requires e.Compare? && WellFormed(e, canonical)
    ensures !StartsWith(Print(e) + rest, "(")
  {
    NamesAreWords(e.field);
    assert (Print(e) + rest)[0] == e.field.Name()[0];
  }

  function Rank(e: Expression, precedence: nat): nat {
    match e
    case Compare(_, _, _) => if precedence <= 2 then 2 - precedence else 0
    case And(_) => if precedence == 2 then 4 else if precedence == 0 then 2 else 1
    case Or(_) => if precedence == 2 then 3 else if precedence == 0 then 2 else 4
  }

  /** One level of the grammar with nothing to group. */
  lemma Single(s: State, precedence: nat, depth: nat, e: Expression, next: State, canonical: Canonical)
    requires precedence < 2 && depth <= DEPTH_LIMIT
    requires ParseExpression(s, precedence + 1, depth, canonical) == Done(e, next)
    requires Stops(next.rest, precedence)
    ensures ParseExpression(s, precedence, depth, canonical) == Done(e, next)
  {
  }

  /** One level of the grammar with a first item and the rest of its group. */
  lemma Several(
    s: State, precedence: nat, depth: nat, first: Expression, next: State, e: Expression, last: State, canonical: Canonical)
    requires precedence < 2 && depth <= DEPTH_LIMIT
    requires ParseExpression(s, precedence + 1, depth, canonical) == Done(first, next)
    requires ParseGroup(first, next, precedence, depth, canonical) == Done(e, last)
    ensures ParseExpression(s, precedence, depth, canonical) == Done(e, last)
  {
  }

  lemma GroupGoesOn(precedence: nat, depth: nat, first: Expression, next: State, more: string, canonical: Canonical)
    requires precedence < 2 && next.nodes < NODE_LIMIT
    requires StartsWith(next.rest, Separator(precedence)) && next.rest[1..] == more
    ensures ParseGroup(first, next, precedence, depth, canonical)
      == GroupOf(
           precedence, ParseItems(State(more, next.nodes + 1, next.items), precedence, depth, [first], canonical))
  {
  }

  lemma Separated(
    precedence: nat, depth: nat, first: Expression, next: State, more: string, list: seq<Expression>, last: State,
    canonical: Canonical)
    requires precedence < 2 && next.nodes < NODE_LIMIT && next.rest == Separator(precedence) + more
    requires ParseItems(State(more, next.nodes + 1, next.items), precedence, depth, [first], canonical) == Done(list, last)
    ensures ParseGroup(first, next, precedence, depth, canonical) == Done(Grouped(precedence, list), last)
  {
    Peel(Separator(precedence), more);
    GroupGoesOn(precedence, depth, first, next, more, canonical);
  }

  lemma Bracketed(
    s: State, depth: nat, inner: string, e: Expression, rest: string, nodes: nat, items: nat, canonical: Canonical)
    requires depth < DEPTH_LIMIT && s.rest == "(" + inner
    requires ParseExpression(s.(rest := inner), 0, depth + 1, canonical) == Done(e, State(")" + rest, nodes, items))
    ensures ParseExpression(s, 2, depth, canonical) == Done(e, State(rest, nodes, items))
  {
    Peel("(", inner);
    Peel(")", rest);
  }

  lemma ItemsEnd(
    s: State, precedence: nat, depth: nat, read: seq<Expression>, e: Expression, next: State, canonical: Canonical)
    requires precedence < 2
    requires ParseExpression(s, precedence + 1, depth, canonical) == Done(e, next)
    requires Stops(next.rest, precedence)
    ensures ParseItems(s, precedence, depth, read, canonical) == Done(read + [e], next)
  {
  }

  lemma ItemsGoOn(
    s: State, precedence: nat, depth: nat, read: seq<Expression>, e: Expression, next: State, more: string,
    canonical: Canonical)
    requires precedence < 2
    requires ParseExpression(s, precedence + 1, depth, canonical) == Done(e, next)
    requires next.rest == Separator(precedence) + more
    ensures ParseItems(s, precedence, depth, read, canonical)
      == ParseItems(next.(rest := more), precedence, depth, read + [e], canonical)
  {
    Peel(Separator(precedence), more);
  }

  /** A printed tree is read back as itself, at any place that leaves it room. */
  lemma {:induction false} ExpressionParses(
    e: Expression, precedence: nat, depth: nat, rest: string, nodes: nat, items: nat, canonical: Canonical)
    requires precedence <= 2 && WellFormed(e, canonical) && Stops(rest, precedence)
    requires depth + LevelsAt(e, precedence) <= DEPTH_LIMIT
    requires nodes + Nodes(e) <= NODE_LIMIT && items + SetItems(e) <= ITEM_LIMIT
    ensures ParseExpression(State(PrintAt(e, precedence) + rest, nodes, items), precedence, depth, canonical)
      == Done(e, State(rest, nodes + Nodes(e), items + SetItems(e)))
    decreases e, Rank(e, precedence)
  {
    var s, last := State(PrintAt(e, precedence) + rest, nodes, items), State(rest, nodes + Nodes(e), items + SetItems(e));
    if precedence < 2 {
      if (precedence == 0 && e.Or?) || (precedence == 1 && e.And?) {
        GroupParses(e, precedence, depth, rest, nodes, items, canonical);
      } else {
        ExpressionParses(e, precedence + 1, depth, rest, nodes, items, canonical);
        Single(s, precedence, depth, e, last, canonical);
      }
    } else if e.Compare? {
      PrintStartsNoGroup(e, rest, canonical);
      CompareParses(e, rest, nodes, items, canonical);
    } else {
      PrintedInBrackets(e, rest);
      ExpressionParses(e, 0, depth + 1, ")" + rest, nodes, items, canonical);
      Bracketed(s, depth, PrintAt(e, 0) + (")" + rest), e, rest, last.nodes, last.items, canonical);
    }
  }

  lemma PrintedInBrackets(e: Expression, rest: string)
    requires !e.Compare?
    ensures PrintAt(e, 2) + rest == "(" + (PrintAt(e, 0) + (")" + rest))
  {
  }

  lemma PrintedPieces(list: seq<Expression>, precedence: nat, rest: string)
    requires |list| >= 2 && precedence < 2
    ensures PrintItems(list, precedence) + rest
      == PrintAt(list[0], precedence + 1) + (Separator(precedence) + (PrintItems(list[1..], precedence) + rest))
  {
  }

  lemma Sums(list: seq<Expression>, precedence: nat)
    requires list != []
    ensures NodesOf(list) == Nodes(list[0]) + NodesOf(list[1..])
    ensures SetItemsOf(list) == SetItems(list[0]) + SetItemsOf(list[1..])
    ensures LevelsOf(list, precedence) == Max(LevelsAt(list[0], precedence + 1), LevelsOf(list[1..], precedence))
  {
  }

  lemma {:induction false} GroupParses(
    e: Expression, precedence: nat, depth: nat, rest: string, nodes: nat, items: nat, canonical: Canonical)
    requires (precedence == 0 && e.Or?) || (precedence == 1 && e.And?)
    requires WellFormed(e, canonical) && Stops(rest, precedence)
    requires depth + Levels(e) <= DEPTH_LIMIT
    requires nodes + Nodes(e) <= NODE_LIMIT && items + SetItems(e) <= ITEM_LIMIT
    ensures ParseExpression(State(Print(e) + rest, nodes, items), precedence, depth, canonical)
      == Done(e, State(rest, nodes + Nodes(e), items + SetItems(e)))
    decreases e, 0, 1
  {
    var first := e.items[0];
    var text := Separator(precedence) + (PrintItems(e.items[1..], precedence) + rest);
    PrintedPieces(e.items, precedence, rest);
    Sums(e.items, precedence);
    var next := State(text, nodes + Nodes(first), items + SetItems(first));
    ExpressionParses(first, precedence + 1, depth, text, nodes, items, canonical);
    OthersParse(e, precedence, depth, rest, next, canonical);
    Several(State(Print(e) + rest, nodes, items), precedence, depth, first, next, e,
            State(rest, nodes + Nodes(e), items + SetItems(e)), canonical);
  }

  lemma {:induction false} OthersParse(
    e: Expression, precedence: nat, depth: nat, rest: string, next: State, canonical: Canonical)
    requires (precedence == 0 && e.Or?) || (precedence == 1 && e.And?)
    requires WellFormed(e, canonical) && Stops(rest, precedence)
    requires depth + LevelsOf(e.items[1..], precedence) <= DEPTH_LIMIT
    requires next.rest == Separator(precedence) + (PrintItems(e.items[1..], precedence) + rest)
    requires next.nodes + 1 + NodesOf(e.items[1..]) <= NODE_LIMIT && next.items + SetItemsOf(e.items[1..]) <= ITEM_LIMIT
    ensures ParseGroup(e.items[0], next, precedence, depth, canonical)
      == Done(e, State(rest, next.nodes + 1 + NodesOf(e.items[1..]), next.items + SetItemsOf(e.items[1..])))
    decreases e, 0, 0
  {
    var first, others := e.items[0], e.items[1..];
    ItemsParse(others, precedence, depth, rest, next.nodes + 1, next.items, [first], canonical);
    assert [first] + others == e.items;
    Separated(precedence, depth, first, next, PrintItems(others, precedence) + rest, e.items,
              State(rest, next.nodes + 1 + NodesOf(others), next.items + SetItemsOf(others)), canonical);
  }

  lemma {:induction false} ItemsParse(
    list: seq<Expression>, precedence: nat, depth: nat, rest: string, nodes: nat, items: nat, read: seq<Expression>,
    canonical: Canonical)
    requires precedence < 2 && list != [] && Stops(rest, precedence)
    requires forall i :: 0 <= i < |list| ==> WellFormed(list[i], canonical)
    requires depth + LevelsOf(list, precedence) <= DEPTH_LIMIT
    requires nodes + NodesOf(list) <= NODE_LIMIT && items + SetItemsOf(list) <= ITEM_LIMIT
    ensures ParseItems(State(PrintItems(list, precedence) + rest, nodes, items), precedence, depth, read, canonical)
      == Done(read + list, State(rest, nodes + NodesOf(list), items + SetItemsOf(list)))
    decreases list, 1
  {
    Sums(list, precedence);
    if |list| == 1 {
      var s := State(PrintItems(list, precedence) + rest, nodes, items);
      ExpressionParses(list[0], precedence + 1, depth, rest, nodes, items, canonical);
      ItemsEnd(
        s, precedence, depth, read, list[0], State(rest, nodes + Nodes(list[0]), items + SetItems(list[0])), canonical);
      assert list == [list[0]];
    } else {
      PrintedPieces(list, precedence, rest);
      MoreParse(list, precedence, depth, rest, nodes, items, read, canonical);
    }
  }

  lemma {:induction false} MoreParse(
    list: seq<Expression>, precedence: nat, depth: nat, rest: string, nodes: nat, items: nat, read: seq<Expression>,
    canonical: Canonical)
    requires precedence < 2 && |list| > 1 && Stops(rest, precedence)
    requires forall i :: 0 <= i < |list| ==> WellFormed(list[i], canonical)
    requires depth + Max(LevelsAt(list[0], precedence + 1), LevelsOf(list[1..], precedence)) <= DEPTH_LIMIT
    requires nodes + Nodes(list[0]) + NodesOf(list[1..]) <= NODE_LIMIT
    requires items + SetItems(list[0]) + SetItemsOf(list[1..]) <= ITEM_LIMIT
    ensures
      var more := PrintItems(list[1..], precedence) + rest;
      ParseItems(
        State(PrintAt(list[0], precedence + 1) + (Separator(precedence) + more), nodes, items),
        precedence, depth, read, canonical)
      == Done(read + list, State(rest, nodes + Nodes(list[0]) + NodesOf(list[1..]),
                                 items + SetItems(list[0]) + SetItemsOf(list[1..])))
    decreases list, 0
  {
    var first, others := list[0], list[1..];
    var more := PrintItems(others, precedence) + rest;
    var next := State(Separator(precedence) + more, nodes + Nodes(first), items + SetItems(first));
    ExpressionParses(first, precedence + 1, depth, next.rest, nodes, items, canonical);
    ItemsGoOn(State(PrintAt(first, precedence + 1) + next.rest, nodes, items),
              precedence, depth, read, first, next, more, canonical);
    ItemsParse(others, precedence, depth, rest, next.nodes, next.items, read + [first], canonical);
    assert read + list == (read + [first]) + others;
  }

  /** Parsing the printed form of any tree within the budgets gives back that tree. */
  lemma PrintedFormParses(e: Expression, canonical: Canonical)
    requires WellFormed(e, canonical) && InBudget(e)
    ensures ParseFilter(Print(e), canonical) == Some(e)
  {
    assert Print(e) + "" == Print(e) && PrintAt(e, 0) == Print(e);
    ExpressionParses(e, 0, 0, "", 0, 0, canonical);
  }

  // What is accepted is within the budgets

  /** What the canonical form of a principal identifier is like: a fixed point, short and printable, and never `true`. */
  ghost predicate Stable(canonical: Canonical) {
    && canonical("true") == None
    && (forall v {:trigger canonical(v)} :: canonical(v).Some? ==>
          var w := canonical(v).value;
          canonical(w) == Some(w) && Printable(w) && Utf8Length(w) <= VALUE_BYTES)
  }

  // Null tests

  /** The fields a null test can be made on: those that are neither an identifier, nor boolean, nor a department. */
  predicate NullTestable(field: Field) {
    field in {Login, DisplayName, Email, ProfileStatus, DepartmentStatus}
  }

  lemma NullTestChecked(field: Field, operator: Operator, v: string, canonical: Canonical)
    requires operator.NullTest() && canonical("true") == None
    ensures CheckedComparison(field, operator, [v], canonical)
      == if v == "true" && NullTestable(field) then Some(Compare(field, operator, ["true"])) else None
  {
    if v == "true" && field == PrincipalId {
      assert canonical([v][0]) == None;
    }
  }

  lemma NullTestTail(s: State, field: Field, operator: Operator, canonical: Canonical)
    requires operator.NullTest() && canonical("true") == None
    ensures ParseTail(s, field, operator, canonical)
      == match ParseValue(s.rest)
         case None => Fail
         case Some(v) =>
           if v.0 == "true" && NullTestable(field) then Done(Compare(field, operator, ["true"]), s.(rest := v.1)) else Fail
  {
    var v := ParseValue(s.rest);
    if v.Some? {
      NullTestChecked(field, operator, v.value.0, canonical);
    }
  }

  lemma NoGroup(s: State, depth: nat, canonical: Canonical)
    requires depth <= DEPTH_LIMIT && !StartsWith(s.rest, "(")
    ensures ParseExpression(s, 2, depth, canonical) == ParseCompare(s, canonical)
  {
  }

  lemma LevelFails(s: State, precedence: nat, depth: nat, canonical: Canonical)
    requires precedence < 2 && ParseExpression(s, precedence + 1, depth, canonical) == Fail
    ensures ParseExpression(s, precedence, depth, canonical) == Fail
  {
  }

  /** A filter that is one comparison is read as that comparison. */
  lemma Alone(s: State, r: Parsed<Expression>, canonical: Canonical)
    requires !StartsWith(s.rest, "(") && ParseCompare(s, canonical) == r && (r.Done? ==> r.state.rest == "")
    ensures ParseExpression(s, 0, 0, canonical) == r
  {
    NoGroup(s, 0, canonical);
    match r
    case Fail =>
      LevelFails(s, 1, 0, canonical);
      LevelFails(s, 0, 0, canonical);
    case Done(e, next) =>
      Single(s, 1, 0, e, next, canonical);
      Single(s, 0, 0, e, next, canonical);
  }

  function NullTestText(field: Field, operator: Operator, operand: string): string {
    field.Name() + (operator.Text() + operand)
  }

  lemma NullTestStarts(field: Field, operator: Operator, operand: string)
    ensures var raw := NullTestText(field, operator, operand); raw != "" && !StartsWith(raw, "(")
  {
    NamesAreWords(field);
    assert NullTestText(field, operator, operand)[0] == field.Name()[0];
  }

  lemma NullTestRead(field: Field, operator: Operator, operand: string, r: Parsed<Expression>, canonical: Canonical)
    requires ParseTail(State(operand, 1, 0), field, operator, canonical) == r && (r.Done? ==> r.state.rest == "")
    ensures ParseExpression(State(NullTestText(field, operator, operand), 0, 0), 0, 0, canonical) == r
  {
    var s := State(NullTestText(field, operator, operand), 0, 0);
    NullTestStarts(field, operator, operand);
    CompareRead(s, field, operator, operand, r, canonical);
    Alone(s, r, canonical);
  }

  lemma WholeFilter(raw: string, r: Parsed<Expression>, canonical: Canonical)
    requires raw != "" && ParseExpression(State(raw, 0, 0), 0, 0, canonical) == r && (r.Done? ==> r.state.rest == "")
    ensures ParseFilter(raw, canonical)
      == if Utf8Length(raw) <= FILTER_BYTES && r.Done? then Some(r.value) else None
  {
  }

  /**
    A filter that makes one null test on any field, with whatever operand, is accepted if and only if the operand reads as
    `true` and the field is none of the identifier, the three boolean fields and the three department fields.
  */
  lemma NullTestsExactly(field: Field, operator: Operator, operand: string, canonical: Canonical)
    requires operator.NullTest() && canonical("true") == None
    requires ParseValue(operand).Some? ==> ParseValue(operand).value.1 == ""
    ensures ParseFilter(NullTestText(field, operator, operand), canonical)
      == if NullTestable(field) && ParseValue(operand) == Some(("true", ""))
            && Utf8Length(NullTestText(field, operator, operand)) <= FILTER_BYTES
         then Some(Compare(field, operator, ["true"])) else None
  {
    var r := ParseTail(State(operand, 1, 0), field, operator, canonical);
    NullTestTail(State(operand, 1, 0), field, operator, canonical);
    NullTestRead(field, operator, operand, r, canonical);
    NullTestStarts(field, operator, operand);
    WholeFilter(NullTestText(field, operator, operand), r, canonical);
  }

  predicate Bare(v: string) {
    forall i :: 0 <= i < |v| ==> v[i] != '\\' && !Delimiter(v[i]) && !BareForbidden(v[i]) && !IsControl(v[i])
  }

  /** An operand without quotes and without special characters reads as itself, up to the end of the text. */
  lemma {:induction false} BareParses(read: string, v: string)
    requires Bare(v) && read + v != "" && Utf8Length(read + v) <= VALUE_BYTES
    ensures ParseChars(v, None, read) == Some((read + v, ""))
    decreases |v|
  {
    if v == "" {
      assert read + v == read;
    } else {
      assert read + v == (read + [v[0]]) + v[1..];
      Utf8Append(read + [v[0]], v[1..]);
      BareParses(read + [v[0]], v[1..]);
    }
  }

  lemma TrueIsRead()
    ensures ParseValue("true") == Some(("true", ""))
  {
    var v := "true";
    Utf8AtMost(v);
    assert v[0] == 't' && v[1] == 'r' && v[2] == 'u' && v[3] == 'e';
    assert Bare(v);
    assert "" + v == v;
    BareParses("", v);
  }

  lemma {:induction false} Utf8AtMost(s: string)
    ensures Utf8Length(s) <= 4 * |s|
  {
    if s != "" {
      Utf8AtMost(s[1..]);
    }
  }

  /** The documented form of a null test is accepted on exactly five of the twelve fields. */
  lemma NullTestsAsDocumented(field: Field, operator: Operator, canonical: Canonical)
    requires operator.NullTest() && canonical("true") == None
    ensures ParseFilter(NullTestText(field, operator, "true"), canonical).Some? <==>
      field in {Login, DisplayName, Email, ProfileStatus, DepartmentStatus}
  {
    TrueIsRead();
    Utf8AtMost(NullTestText(field, operator, "true"));
    NullTestsExactly(field, operator, "true", canonical);
  }

  lemma NullTestRefused(raw: string, field: Field, operator: Operator, canonical: Canonical)
    requires operator.NullTest() && canonical("true") == None
    requires raw == NullTestText(field, operator, "true") && !NullTestable(field)
    ensures ParseFilter(raw, canonical) == None
  {
    NullTestsAsDocumented(field, operator, canonical);
  }

  /** A filter the documentation offers and the parser refuses. */
  lemma NullTestsCanFail(canonical: Canonical) returns (raw: string)
    requires canonical("true") == None
    ensures raw == "principalId=isnull=true" && ParseFilter(raw, canonical) == None
  {
    raw := "principalId=isnull=true";
    NullTestRefused(raw, PrincipalId, IsNull, canonical);
  }

  /** Another one, on a field of a department. */
  lemma DepartmentNullTestsCanFail(canonical: Canonical) returns (raw: string)
    requires canonical("true") == None
    ensures raw == "department=isnotnull=true" && ParseFilter(raw, canonical) == None
  {
    raw := "department=isnotnull=true";
    NullTestRefused(raw, Department, IsNotNull, canonical);
  }

  lemma {:induction false} CharsAccepted(s: string, quote: Option<char>, read: string)
    requires Printable(read) && Utf8Length(read) <= VALUE_BYTES && ParseChars(s, quote, read).Some?
    ensures var v := ParseChars(s, quote, read).value.0; Printable(v) && Utf8Length(v) <= VALUE_BYTES
    decreases |s|
  {
    if s != "" && quote != Some(s[0]) && !(quote.None? && Delimiter(s[0])) {
      var next := NextChar(s, quote).value;
      CharsAccepted(s[next.1..], quote, read + [next.0]);
    }
  }

  lemma ValueAccepted(s: string)
    requires ParseValue(s).Some?
    ensures Printable(ParseValue(s).value.0) && Utf8Length(ParseValue(s).value.0) <= VALUE_BYTES
  {
    if StartsWith(s, "'") {
      CharsAccepted(s[1..], Some('\''), "");
    } else if StartsWith(s, "\"") {
      CharsAccepted(s[1..], Some('"'), "");
    } else {
      CharsAccepted(s, None, "");
    }
  }

  lemma {:induction false} SetAccepted(s: State, read: seq<string>)
    requires ParseSet(s, read).Done? && Operands(read)
    ensures
      var (values, t) := (ParseSet(s, read).value, ParseSet(s, read).state);
      && |read| < |values| <= SET_LIMIT && Operands(values)
      && t.nodes == s.nodes && t.items == s.items + |values| - |read| <= ITEM_LIMIT
    decreases |s.rest|
  {
    ValueAccepted(s.rest);
    var (value, rest) := ParseValue(s.rest).value;
    if !StartsWith(rest, ")") {
      SetAccepted(State(rest[1..], s.nodes, s.items + 1), read + [value]);
    }
  }

  lemma OperandAccepted(s: State, operator: Operator)
    requires ParseOperand(s, operator).Done?
    ensures
      var (values, t) := (ParseOperand(s, operator).value, ParseOperand(s, operator).state);
      && Operands(values)
      && (if operator.IsSet() then 1 <= |values| <= SET_LIMIT && t.items <= ITEM_LIMIT else |values| == 1)
      && t.nodes == s.nodes && t.items == s.items + if operator.IsSet() then |values| else 0
  {
    if operator.IsSet() {
      SetAccepted(s.(rest := s.rest[1..]), []);
    } else {
      ValueAccepted(s.rest);
    }
  }

  lemma CheckedAccepted(field: Field, operator: Operator, values: seq<string>, canonical: Canonical)
    requires Stable(canonical) && Operands(values) && CheckedComparison(field, operator, values, canonical).Some?
    requires if operator.IsSet() then 1 <= |values| <= SET_LIMIT else |values| == 1
    ensures
      var e := CheckedComparison(field, operator, values, canonical).value;
      e.Compare? && WellFormed(e, canonical) && e.operator == operator && |e.values| == |values|
  {
    if field == PrincipalId {
      var ids := Canonicalized(values, canonical).value;
      assert forall i :: 0 <= i < |values| ==> canonical(values[i]) == Some(ids[i]);
    }
  }

  /** The tree just read uses what the budgets say it used. */
  ghost predicate Charged(e: Expression, s: State, t: State, levels: nat, depth: nat, canonical: Canonical) {
    && WellFormed(e, canonical)
    && t.nodes == s.nodes + Nodes(e) <= NODE_LIMIT
    && t.items == s.items + SetItems(e)
    && (s.items <= ITEM_LIMIT ==> t.items <= ITEM_LIMIT)
    && depth + levels <= DEPTH_LIMIT
  }

  lemma TailAccepted(s: State, next: State, field: Field, operator: Operator, canonical: Canonical)
    requires Stable(canonical) && ParseTail(next, field, operator, canonical).Done?
    requires next.nodes == s.nodes + 1 <= NODE_LIMIT && next.items == s.items
    ensures var r := ParseTail(next, field, operator, canonical);
      r.value.Compare? && Charged(r.value, s, r.state, 0, 0, canonical)
  {
    OperandAccepted(next, operator);
    CheckedAccepted(field, operator, ParseOperand(next, operator).value, canonical);
  }

  lemma CompareAccepted(s: State, canonical: Canonical)
    requires Stable(canonical) && ParseCompare(s, canonical).Done?
    ensures var r := ParseCompare(s, canonical); r.value.Compare? && Charged(r.value, s, r.state, 0, 0, canonical)
  {
    var (field, operator, next) := ParseStart(s).value;
    TailAccepted(s, next, field, operator, canonical);
  }

  lemma {:induction false} ExpressionAccepted(s: State, precedence: nat, depth: nat, canonical: Canonical)
    requires precedence <= 2 && Stable(canonical) && ParseExpression(s, precedence, depth, canonical).Done?
    ensures var r := ParseExpression(s, precedence, depth, canonical);
      Charged(r.value, s, r.state, LevelsAt(r.value, precedence), depth, canonical)
    decreases |s.rest|, 2 - precedence, 1
  {
    if precedence < 2 {
      LevelRead(s, precedence, depth, canonical);
      ExpressionAccepted(s, precedence + 1, depth, canonical);
      var first := ParseExpression(s, precedence + 1, depth, canonical);
      GroupAccepted(s, precedence, depth, first.value, first.state, canonical);
    } else if StartsWith(s.rest, "(") {
      var inner := BracketRead(s, depth, canonical);
      ExpressionAccepted(s.(rest := s.rest[1..]), 0, depth + 1, canonical);
    } else {
      CompareAccepted(s, canonical);
      ComparisonRead(s, depth, canonical);
    }
  }

  lemma ComparisonRead(s: State, depth: nat, canonical: Canonical)
    requires ParseExpression(s, 2, depth, canonical).Done? && !StartsWith(s.rest, "(")
    ensures depth <= DEPTH_LIMIT && ParseExpression(s, 2, depth, canonical) == ParseCompare(s, canonical)
  {
  }

  lemma BracketRead(s: State, depth: nat, canonical: Canonical) returns (inner: Parsed<Expression>)
    requires ParseExpression(s, 2, depth, canonical).Done? && StartsWith(s.rest, "(")
    ensures inner == ParseExpression(s.(rest := s.rest[1..]), 0, depth + 1, canonical) && inner.Done?
    ensures var r := ParseExpression(s, 2, depth, canonical);
      r.value == inner.value && r.state.nodes == inner.state.nodes && r.state.items == inner.state.items
  {
    inner := ParseExpression(s.(rest := s.rest[1..]), 0, depth + 1, canonical);
  }

  lemma LevelRead(s: State, precedence: nat, depth: nat, canonical: Canonical)
    requires precedence < 2 && ParseExpression(s, precedence, depth, canonical).Done?
    ensures
      var first := ParseExpression(s, precedence + 1, depth, canonical);
      && first.Done?
      && ParseExpression(s, precedence, depth, canonical)
         == ParseGroup(first.value, first.state, precedence, depth, canonical)
  {
  }

  lemma {:induction false} GroupAccepted(
    s: State, precedence: nat, depth: nat, first: Expression, next: State, canonical: Canonical)
    requires precedence < 2 && Stable(canonical) && ParseGroup(first, next, precedence, depth, canonical).Done?
    requires Charged(first, s, next, LevelsAt(first, precedence + 1), depth, canonical)
    ensures var r := ParseGroup(first, next, precedence, depth, canonical);
      Charged(r.value, s, r.state, LevelsAt(r.value, precedence), depth, canonical)
    decreases |next.rest|, 3, 0
  {
    if StartsWith(next.rest, Separator(precedence)) {
      var inner := State(next.rest[1..], next.nodes + 1, next.items);
      var more := ItemsAccepted(inner, precedence, depth, [first], canonical);
      Gathered(s, first, next, more, ParseItems(inner, precedence, depth, [first], canonical).state,
               precedence, depth, canonical);
    }
  }

  /** A run of items as charged one after the other. */
  ghost predicate ChargedAll(
    items: seq<Expression>, s: State, t: State, precedence: nat, depth: nat, canonical: Canonical)
  {
    && (forall i :: 0 <= i < |items| ==> WellFormed(items[i], canonical))
    && t.nodes == s.nodes + NodesOf(items) <= NODE_LIMIT
    && t.items == s.items + SetItemsOf(items)
    && (s.items <= ITEM_LIMIT ==> t.items <= ITEM_LIMIT)
    && depth + LevelsOf(items, precedence) <= DEPTH_LIMIT
  }

  lemma Gathered(
    s: State, first: Expression, next: State, more: seq<Expression>, last: State, precedence: nat, depth: nat,
    canonical: Canonical)
    requires precedence < 2 && more != []
    requires Charged(first, s, next, LevelsAt(first, precedence + 1), depth, canonical)
    requires ChargedAll(more, State("", next.nodes + 1, next.items), last, precedence, depth, canonical)
    ensures var e := Grouped(precedence, [first] + more);
      Charged(e, s, last, LevelsAt(e, precedence), depth, canonical)
  {
    var list := [first] + more;
    assert list[1..] == more;
    Sums(list, precedence);
  }

  lemma Extended(
    s: State, item: Expression, next: State, more: seq<Expression>, last: State, precedence: nat, depth: nat,
    canonical: Canonical)
    requires precedence < 2
    requires Charged(item, s, next, LevelsAt(item, precedence + 1), depth, canonical)
    requires ChargedAll(more, State("", next.nodes, next.items), last, precedence, depth, canonical)
    ensures ChargedAll([item] + more, s, last, precedence, depth, canonical)
  {
    var list := [item] + more;
    assert list[1..] == more;
    Sums(list, precedence);
  }

  lemma {:induction false} ItemsAccepted(
    s: State, precedence: nat, depth: nat, read: seq<Expression>, canonical: Canonical) returns (more: seq<Expression>)
    requires precedence < 2 && Stable(canonical) && ParseItems(s, precedence, depth, read, canonical).Done?
    ensures var r := ParseItems(s, precedence, depth, read, canonical);
      && r.value == read + more && more != []
      && ChargedAll(more, State("", s.nodes, s.items), r.state, precedence, depth, canonical)
    decreases |s.rest|, 2 - precedence, 0
  {
    ExpressionAccepted(s, precedence + 1, depth, canonical);
    var item := ParseExpression(s, precedence + 1, depth, canonical);
    if StartsWith(item.state.rest, Separator(precedence)) {
      var tail := ItemsAccepted(
        item.state.(rest := item.state.rest[1..]), precedence, depth, read + [item.value], canonical);
      more := [item.value] + tail;
      assert read + more == (read + [item.value]) + tail;
      Extended(s, item.value, item.state, tail, ParseItems(s, precedence, depth, read, canonical).state,
               precedence, depth, canonical);
    } else {
      more := [item.value];
      Extended(s, item.value, item.state, [], item.state, precedence, depth, canonical);
      assert [item.value] + [] == more;
    }
  }

  /** Every accepted filter is a sensible tree of at most 128 nodes, 16 levels and 256 set items. */
  lemma AcceptedIsInBudget(raw: string, e: Expression, canonical: Canonical)
    requires Stable(canonical) && ParseFilter(raw, canonical) == Some(e)
    ensures WellFormed(e, canonical) && Nodes(e) <= NODE_LIMIT && SetItems(e) <= ITEM_LIMIT && Levels(e) <= DEPTH_LIMIT
  {
    ExpressionAccepted(State(raw, 0, 0), 0, 0, canonical);
  }

  /** Whatever way a tree was written, its printed form, if short enough, is read as the same tree. */
  lemma AcceptedReprints(raw: string, e: Expression, canonical: Canonical)
    requires Stable(canonical) && ParseFilter(raw, canonical) == Some(e) && Utf8Length(Print(e)) <= FILTER_BYTES
    ensures ParseFilter(Print(e), canonical) == Some(e)
  {
    AcceptedIsInBudget(raw, e, canonical);
    PrintedFormParses(e, canonical);
  }
}
