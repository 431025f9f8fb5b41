/**
  The filter language, given as what one may write: every written form is accepted with its meaning, and nothing else is.
  The names, the characters and the limits are those of the documentation, not those of the parser.
*/
module DirectoryLanguage {
  import opened Common
  import opened Text
  import opened Directory
  import opened DirectoryGrammar

  // What one may write

  /** A character of an operand, as it is or after a backslash. */
  datatype Piece = Plain(c: char) | Escape(c: char)

  datatype Form = BareForm | SingleQuoted | DoubleQuoted

  datatype Written =
    | Comparison(field: Field, operator: Operator, operands: seq<Spelling>)
    | Parentheses(inner: Written)
    | Alternatives(items: seq<Written>)
    | Conjunction(items: seq<Written>)

  datatype Spelling = Spelling(form: Form, pieces: seq<Piece>)

  function FieldText(field: Field): string {
    match field
    case PrincipalId => "principalId" case Login => "login" case Enabled => "enabled"
    case MemberActive => "memberActive" case HasLocalPassword => "hasLocalPassword"
    case DisplayName => "displayName" case Email => "email" case ProfileStatus => "profileStatus"
    case DepartmentStatus => "departmentStatus" case DepartmentSnapshot => "departmentSnapshot"
    case Department => "department" case DepartmentSubtree => "departmentSubtree"
  }

  function OperatorText(operator: Operator): string {
    match operator
    case Equal => "==" case NotEqual => "!=" case Less => "=lt=" case LessEqual => "=le=" case Greater => "=gt="
    case GreaterEqual => "=ge=" case Contains => "=icontains=" case In => "=in=" case Out => "=out="
    case IsNull => "=isnull=" case IsNotNull => "=isnotnull="
  }

  /** What stands for itself: inside quotes all but their own kind, the backslash and controls; without, no delimiter. */
  predicate LegalPlain(form: Form, c: char) {
    && !IsControl(c) && c != '\\'
    && match form
       case SingleQuoted => c != '\''
       case DoubleQuoted => c != '"'
       case BareForm => !Whitespace(c) && c !in ",;)('\"=!<>*"
  }

  predicate LegalPiece(form: Form, piece: Piece) {
    match piece case Plain(c) => LegalPlain(form, c) case Escape(c) => c in "\\'\",;()"
  }

  function PieceText(piece: Piece): string {
    match piece case Plain(c) => [c] case Escape(c) => ['\\', c]
  }

  function PiecesText(pieces: seq<Piece>): string {
    if pieces == [] then "" else PieceText(pieces[0]) + PiecesText(pieces[1..])
  }

  function PiecesValue(pieces: seq<Piece>): string {
    if pieces == [] then "" else [pieces[0].c] + PiecesValue(pieces[1..])
  }

  function QuoteText(form: Form): string {
    match form case BareForm => "" case SingleQuoted => "'" case DoubleQuoted => "\""
  }

  function OperandText(o: Spelling): string {
    QuoteText(o.form) + (PiecesText(o.pieces) + QuoteText(o.form))
  }

  /** Every character is legal, at most 1,024 bytes are meant, and only a quoted operand may be empty. */
  predicate LegalOperand(o: Spelling) {
    && (forall i :: 0 <= i < |o.pieces| ==> LegalPiece(o.form, o.pieces[i]))
    && Utf8Length(PiecesValue(o.pieces)) <= 1024
    && (o.form == BareForm ==> o.pieces != [])
  }

  function ValuesOf(operands: seq<Spelling>): (values: seq<string>)
    ensures |values| == |operands|
  {
    if operands == [] then [] else [PiecesValue(operands[0].pieces)] + ValuesOf(operands[1..])
  }

  function SetText(operands: seq<Spelling>): string
    requires operands != []
  {
    if |operands| == 1 then OperandText(operands[0]) + ")" else OperandText(operands[0]) + ("," + SetText(operands[1..]))
  }

  /** A set of one to 64 operands in parentheses, or one operand. */
  function OperandsText(operator: Operator, operands: seq<Spelling>): string {
    if operands == [] then ""
    else if operator == In || operator == Out then "(" + SetText(operands)
    else OperandText(operands[0])
  }

  /**
    Booleans are compared for equality with true and false, departments for equality, the department snapshot never; a
    null test asks for true.
  */
  predicate Meaningful(field: Field, operator: Operator, values: seq<string>) {
    && field != DepartmentSnapshot
    && (field == Department || field == DepartmentSubtree ==> operator == Equal)
    && (field == Enabled || field == MemberActive || field == HasLocalPassword ==>
          (operator == Equal || operator == NotEqual) && forall v :: v in values ==> v == "true" || v == "false")
    && (operator == IsNull || operator == IsNotNull ==> values == ["true"])
  }

  /** How strongly a written form binds: alternatives weakest, then conjunctions. */
  function Strength(w: Written): nat {
    match w case Alternatives(_) => 0 case Conjunction(_) => 1 case _ => 2
  }

  predicate LegalComparison(field: Field, operator: Operator, operands: seq<Spelling>, canonical: Canonical) {
    && Meaningful(field, operator, ValuesOf(operands))
    && (if operator == In || operator == Out then 1 <= |operands| <= 64 else |operands| == 1)
    && (forall i :: 0 <= i < |operands| ==> LegalOperand(operands[i]))
    && (field == PrincipalId ==> forall v :: v in ValuesOf(operands) ==> canonical(v).Some?)
  }

  /** Groups have two items or more, each binding more strongly than the group. */
  predicate Legal(w: Written, canonical: Canonical)
    decreases w, 0
  {
    match w
    case Comparison(field, operator, operands) => LegalComparison(field, operator, operands, canonical)
    case Parentheses(inner) => Legal(inner, canonical)
    case Alternatives(items) => |items| >= 2 && AllLegal(items, 0, canonical)
    case Conjunction(items) => |items| >= 2 && AllLegal(items, 1, canonical)
  }

  predicate AllLegal(items: seq<Written>, strength: nat, canonical: Canonical)
    decreases items, 0
  {
    items == [] || (Legal(items[0], canonical) && Strength(items[0]) > strength && AllLegal(items[1..], strength, canonical))
  }

  function TextOf(w: Written): string
    decreases w, 0
  {
    match w
    case Comparison(field, operator, operands) =>
      FieldText(field) + (OperatorText(operator) + OperandsText(operator, operands))
    case Parentheses(inner) => "(" + (TextOf(inner) + ")")
    case Alternatives(items) => JoinedText(items, ",")
    case Conjunction(items) => JoinedText(items, ";")
  }

  function JoinedText(items: seq<Written>, separator: string): string
    decreases items, 0
  {
    if items == [] then ""
    else if |items| == 1 then TextOf(items[0])
    else TextOf(items[0]) + (separator + JoinedText(items[1..], separator))
  }

  /** Identifiers are read in their canonical form, everything else as written. */
  function ReadValues(field: Field, values: seq<string>, canonical: Canonical): (r: seq<string>)
    ensures |r| == |values|
  {
    if values == [] then []
    else
      [if field == PrincipalId && canonical(values[0]).Some? then canonical(values[0]).value else values[0]]
      + ReadValues(field, values[1..], canonical)
  }

  function MeaningOf(w: Written, canonical: Canonical): Expression
    decreases w, 0
  {
    match w
    case Comparison(field, operator, operands) =>
      Compare(field, operator, ReadValues(field, ValuesOf(operands), canonical))
    case Parentheses(inner) => MeaningOf(inner, canonical)
    case Alternatives(items) => Or(MeaningsOf(items, canonical))
    case Conjunction(items) => And(MeaningsOf(items, canonical))
  }

  function MeaningsOf(items: seq<Written>, canonical: Canonical): (r: seq<Expression>)
    ensures |r| == |items|
    decreases items, 0
  {
    if items == [] then [] else [MeaningOf(items[0], canonical)] + MeaningsOf(items[1..], canonical)
  }

  // Its budgets

  /** Comparisons and groups. */
  function NodesIn(w: Written): nat
    decreases w, 0
  {
    match w
    case Comparison(_, _, _) => 1
    case Parentheses(inner) => NodesIn(inner)
    case Alternatives(items) => 1 + NodesInAll(items)
    case Conjunction(items) => 1 + NodesInAll(items)
  }

  function NodesInAll(items: seq<Written>): nat
    decreases items, 0
  {
    if items == [] then 0 else NodesIn(items[0]) + NodesInAll(items[1..])
  }

  /** Operands inside sets. */
  function ItemsIn(w: Written): nat
    decreases w, 0
  {
    match w
    case Comparison(_, operator, operands) => if operator == In || operator == Out then |operands| else 0
    case Parentheses(inner) => ItemsIn(inner)
    case Alternatives(items) => ItemsInAll(items)
    case Conjunction(items) => ItemsInAll(items)
  }

  function ItemsInAll(items: seq<Written>): nat
    decreases items, 0
  {
    if items == [] then 0 else ItemsIn(items[0]) + ItemsInAll(items[1..])
  }

  /** Parentheses inside each other. */
  function DepthIn(w: Written): nat
    decreases w, 0
  {
    match w
    case Comparison(_, _, _) => 0
    case Parentheses(inner) => 1 + DepthIn(inner)
    case Alternatives(items) => DepthInAll(items)
    case Conjunction(items) => DepthInAll(items)
  }

  function DepthInAll(items: seq<Written>): nat
    decreases items, 0
  {
    if items == [] then 0 else Max(DepthIn(items[0]), DepthInAll(items[1..]))
  }

  /** A whole filter: at most 128 nodes, 256 set items, 16 parentheses deep and 8,192 bytes. */
  predicate LegalFilter(w: Written, canonical: Canonical) {
    && Legal(w, canonical) && NodesIn(w) <= 128 && ItemsIn(w) <= 256 && DepthIn(w) <= 16
    && Utf8Length(TextOf(w)) <= 8192
  }

  // Operands are read as written

  function QuoteOf(form: Form): Option<char> {
    match form case BareForm => None case SingleQuoted => Some('\'') case DoubleQuoted => Some('"')
  }

  /** An operand without quotes goes up to a delimiter or the end. */
  predicate Delimited(rest: string) {
    rest == "" || rest[0] == ',' || rest[0] == ';' || rest[0] == ')'
  }

  lemma PieceRead(form: Form, piece: Piece, more: string)
    requires LegalPiece(form, piece)
    ensures var s := PieceText(piece) + more;
      && NextChar(s, QuoteOf(form)) == Some((piece.c, |PieceText(piece)|)) && s[|PieceText(piece)|..] == more
      && QuoteOf(form) != Some(s[0]) && (form == BareForm ==> !Delimiter(s[0]))
  {
  }

  lemma {:induction false} PiecesRead(form: Form, pieces: seq<Piece>, read: string, rest: string)
    requires forall i :: 0 <= i < |pieces| ==> LegalPiece(form, pieces[i])
    requires Utf8Length(read + PiecesValue(pieces)) <= 1024
    requires form == BareForm ==> Delimited(rest) && read + PiecesValue(pieces) != ""
    ensures ParseChars(PiecesText(pieces) + (QuoteText(form) + rest), QuoteOf(form), read)
      == Some((read + PiecesValue(pieces), rest))
    decreases |pieces|
  {
    if pieces == [] {
      assert read + "" == read && "" + (QuoteText(form) + rest) == QuoteText(form) + rest;
      assert form == BareForm ==> QuoteText(form) + rest == rest;
      assert form != BareForm ==> (QuoteText(form) + rest)[1..] == rest;
    } else {
      var c, more := pieces[0].c, PiecesText(pieces[1..]) + (QuoteText(form) + rest);
      PieceRead(form, pieces[0], more);
      Associates(PieceText(pieces[0]), PiecesText(pieces[1..]), QuoteText(form) + rest);
      assert read + PiecesValue(pieces) == (read + [c]) + PiecesValue(pieces[1..]);
      Utf8Append(read + [c], PiecesValue(pieces[1..]));
      PiecesRead(form, pieces[1..], read + [c], rest);
    }
  }

  lemma {:induction false} PiecesMean(pieces: seq<Piece>)
    ensures |PiecesValue(pieces)| == |pieces|
  {
    if pieces != [] {
      PiecesMean(pieces[1..]);
    }
  }

  lemma FormRead(form: Form, inner: string)
    requires form == BareForm ==> inner != "" && inner[0] != '\'' && inner[0] != '"'
    ensures ParseValue(QuoteText(form) + inner) == ParseChars(inner, QuoteOf(form), "")
  {
    var s := QuoteText(form) + inner;
    if form == BareForm {
      assert s == inner && s[..1] == [inner[0]];
    } else {
      assert s[..1] == QuoteText(form) && s[1..] == inner;
    }
  }

  lemma BareStarts(pieces: seq<Piece>, rest: string)
    requires pieces != [] && LegalPiece(BareForm, pieces[0])
    ensures var s := PiecesText(pieces) + rest; s != "" && s[0] != '\'' && s[0] != '"'
  {
    assert (PiecesText(pieces) + rest)[0] == PieceText(pieces[0])[0];
  }

  /** Every legal operand, in any of its three forms and with any of its escapes, is read as what it means. */
  lemma OperandRead(o: Spelling, rest: string)
    requires LegalOperand(o) && (o.form == BareForm ==> Delimited(rest))
    ensures ParseValue(OperandText(o) + rest) == Some((PiecesValue(o.pieces), rest))
  {
    var inner := PiecesText(o.pieces) + (QuoteText(o.form) + rest);
    Associates(QuoteText(o.form), PiecesText(o.pieces) + QuoteText(o.form), rest);
    Associates(PiecesText(o.pieces), QuoteText(o.form), rest);
    if o.form == BareForm {
      BareStarts(o.pieces, QuoteText(o.form) + rest);
    }
    FormRead(o.form, inner);
    PiecesMean(o.pieces);
    assert "" + PiecesValue(o.pieces) == PiecesValue(o.pieces);
    PiecesRead(o.form, o.pieces, "", rest);
  }

  // And only what is written is read

  lemma PieceFound(form: Form, s: string) returns (piece: Piece)
    requires s != "" && NextChar(s, QuoteOf(form)).Some? && QuoteOf(form) != Some(s[0])
    requires form == BareForm ==> !Delimiter(s[0])
    ensures LegalPiece(form, piece) && NextChar(s, QuoteOf(form)).value == (piece.c, |PieceText(piece)|)
    ensures s == PieceText(piece) + s[|PieceText(piece)|..]
  {
    piece := if s[0] == '\\' then Escape(s[1]) else Plain(s[0]);
  }

  lemma PiecesEnd(form: Form, s: string, read: string)
    requires ParseChars(s, QuoteOf(form), read).Some?
    requires s == "" || QuoteOf(form) == Some(s[0]) || (form == BareForm && Delimiter(s[0]))
    ensures var r := ParseChars(s, QuoteOf(form), read).value;
      r.0 == read && s == QuoteText(form) + r.1 && (form == BareForm ==> Delimited(r.1) && r.0 != "")
  {
    assert s != "" ==> s == [s[0]] + s[1..];
    assert form == BareForm ==> QuoteText(form) + s == s;
  }

  lemma PieceLeads(form: Form, s: string, read: string) returns (piece: Piece)
    requires ParseChars(s, QuoteOf(form), read).Some?
    requires !(s == "" || QuoteOf(form) == Some(s[0]) || (form == BareForm && Delimiter(s[0])))
    ensures LegalPiece(form, piece) && |PieceText(piece)| <= |s| && s == PieceText(piece) + s[|PieceText(piece)|..]
    ensures Utf8Length(read + [piece.c]) <= 1024
    ensures ParseChars(s, QuoteOf(form), read) == ParseChars(s[|PieceText(piece)|..], QuoteOf(form), read + [piece.c])
  {
    piece := PieceFound(form, s);
  }

  /** The text is these pieces, the closing mark if there is one, and the rest. */
  ghost predicate Spells(form: Form, s: string, read: string, pieces: seq<Piece>, value: string, rest: string) {
    && s == PiecesText(pieces) + (QuoteText(form) + rest) && value == read + PiecesValue(pieces)
    && forall i :: 0 <= i < |pieces| ==> LegalPiece(form, pieces[i])
  }

  lemma SpellsMore(form: Form, s: string, read: string, piece: Piece, pieces: seq<Piece>, value: string, rest: string)
    requires LegalPiece(form, piece) && |PieceText(piece)| <= |s| && s == PieceText(piece) + s[|PieceText(piece)|..]
    requires Spells(form, s[|PieceText(piece)|..], read + [piece.c], pieces, value, rest)
    ensures Spells(form, s, read, [piece] + pieces, value, rest)
  {
    var all := [piece] + pieces;
    assert all[1..] == pieces;
    Associates(PieceText(piece), PiecesText(pieces), QuoteText(form) + rest);
    Associates(read, [piece.c], PiecesValue(pieces));
  }

  lemma {:induction false} PiecesFound(form: Form, s: string, read: string, value: string, rest: string)
    returns (pieces: seq<Piece>)
    requires ParseChars(s, QuoteOf(form), read) == Some((value, rest)) && Utf8Length(read) <= 1024
    ensures Spells(form, s, read, pieces, value, rest) && Utf8Length(value) <= 1024
    ensures form == BareForm ==> Delimited(rest) && value != ""
    decreases |s|
  {
    if s == "" || QuoteOf(form) == Some(s[0]) || (form == BareForm && Delimiter(s[0])) {
      PiecesEnd(form, s, read);
      pieces := [];
      assert read + "" == read && "" + s == s;
    } else {
      var piece := PieceLeads(form, s, read);
      var more := PiecesFound(form, s[|PieceText(piece)|..], read + [piece.c], value, rest);
      SpellsMore(form, s, read, piece, more, value, rest);
      pieces := [piece] + more;
    }
  }

  lemma FormFound(s: string) returns (form: Form, inner: string)
    requires ParseValue(s).Some?
    ensures s == QuoteText(form) + inner && ParseChars(inner, QuoteOf(form), "") == ParseValue(s)
  {
    form := if StartsWith(s, "'") then SingleQuoted else if StartsWith(s, "\"") then DoubleQuoted else BareForm;
    inner := if form == BareForm then s else s[1..];
    assert form != BareForm ==> s == s[..1] + s[1..];
  }

  /** Whatever is read as an operand is a legal one, in one of the three forms. */
  lemma OperandFound(s: string, value: string, rest: string) returns (o: Spelling)
    requires ParseValue(s) == Some((value, rest))
    ensures LegalOperand(o) && value == PiecesValue(o.pieces)
    ensures s == OperandText(o) + rest && (o.form == BareForm ==> Delimited(rest))
  {
    var form, inner := FormFound(s);
    var pieces := PiecesFound(form, inner, "", value, rest);
    assert "" + PiecesValue(pieces) == PiecesValue(pieces);
    o := Spelling(form, pieces);
    Associates(PiecesText(pieces), QuoteText(form), rest);
    Associates(QuoteText(form), PiecesText(pieces) + QuoteText(form), rest);
  }

  // Comparisons

  lemma FieldIsSpelled(field: Field)
    ensures FieldText(field) == field.Name()
  {
  }

  lemma OperatorIsSpelled(operator: Operator)
    ensures OperatorText(operator) == operator.Text()
  {
  }

  lemma MeaningfulWhen(field: Field, operator: Operator, values: seq<string>)
    ensures Sensible(field, operator, values) <==> Meaningful(field, operator, values)
  {
  }

  lemma {:induction false} SetReadsAs(operands: seq<Spelling>, rest: string)
    requires operands != [] && forall i :: 0 <= i < |operands| ==> LegalOperand(operands[i])
    ensures ReadsAs(SetText(operands) + rest, ValuesOf(operands), rest)
    decreases |operands|
  {
    var first, values := OperandText(operands[0]), ValuesOf(operands);
    if |operands| == 1 {
      Associates(first, ")", rest);
      OperandRead(operands[0], ")" + rest);
    } else {
      var more := SetText(operands[1..]) + rest;
      Associates(first, "," + SetText(operands[1..]), rest);
      Associates(",", SetText(operands[1..]), rest);
      OperandRead(operands[0], "," + more);
      SetReadsAs(operands[1..], rest);
      assert values[1..] == ValuesOf(operands[1..]);
    }
  }

  predicate IsSetOperator(operator: Operator) { operator == In || operator == Out }

  lemma SetRead(operator: Operator, text: string, values: seq<string>, rest: string, nodes: nat, items: nat)
    requires IsSetOperator(operator) && 1 <= |values| <= 64 && items + |values| <= 256 && ReadsAs(text, values, rest)
    ensures ParseOperand(State("(" + text, nodes, items), operator) == Done(values, State(rest, nodes, items + |values|))
  {
    SetOpens(State("(" + text, nodes, items), operator, text);
    SetParses(State(text, nodes, items), values, [], rest);
    assert [] + values == values;
  }

  /** The text reads as these operands of this operator, with `rest` after them. */
  ghost predicate OperandsAs(operator: Operator, text: string, values: seq<string>, rest: string) {
    if IsSetOperator(operator) then
      1 <= |values| <= 64 && exists inner :: text == "(" + inner && ReadsAs(inner, values, rest)
    else |values| == 1 && ParseValue(text) == Some((values[0], rest))
  }

  lemma OperandsWritten(operator: Operator, operands: seq<Spelling>, rest: string)
    requires forall i :: 0 <= i < |operands| ==> LegalOperand(operands[i])
    requires if IsSetOperator(operator) then 1 <= |operands| <= 64 else |operands| == 1
    requires Delimited(rest)
    ensures OperandsAs(operator, OperandsText(operator, operands) + rest, ValuesOf(operands), rest)
  {
    if IsSetOperator(operator) {
      Associates("(", SetText(operands), rest);
      SetReadsAs(operands, rest);
    } else {
      OperandRead(operands[0], rest);
      OneValue(operands);
    }
  }

  lemma OperandsRead(operator: Operator, text: string, values: seq<string>, rest: string, nodes: nat, items: nat)
    requires OperandsAs(operator, text, values, rest) && (IsSetOperator(operator) ==> items + |values| <= 256)
    ensures ParseOperand(State(text, nodes, items), operator)
      == Done(values, State(rest, nodes, items + if IsSetOperator(operator) then |values| else 0))
  {
    if IsSetOperator(operator) {
      var inner :| text == "(" + inner && ReadsAs(inner, values, rest);
      SetRead(operator, inner, values, rest, nodes, items);
    } else {
      assert values == [values[0]];
    }
  }

  lemma OneValue(operands: seq<Spelling>)
    requires |operands| == 1
    ensures ValuesOf(operands) == [PiecesValue(operands[0].pieces)]
  {
    assert operands[1..] == [];
  }

  lemma {:induction false} ValuesRead(field: Field, values: seq<string>, canonical: Canonical)
    requires field == PrincipalId ==> forall v :: v in values ==> canonical(v).Some?
    ensures field == PrincipalId ==> Canonicalized(values, canonical) == Some(ReadValues(field, values, canonical))
    ensures field != PrincipalId ==> ReadValues(field, values, canonical) == values
  {
    if values != [] {
      assert values[0] in values && forall v :: v in values[1..] ==> v in values;
      ValuesRead(field, values[1..], canonical);
      assert values == [values[0]] + values[1..];
    }
  }

  lemma ComparisonText(field: Field, operator: Operator, operands: seq<Spelling>, rest: string)
    ensures TextOf(Comparison(field, operator, operands)) + rest
      == field.Name() + (operator.Text() + (OperandsText(operator, operands) + rest))
  {
    FieldIsSpelled(field);
    OperatorIsSpelled(operator);
    Associates(FieldText(field), OperatorText(operator) + OperandsText(operator, operands), rest);
    Associates(OperatorText(operator), OperandsText(operator, operands), rest);
  }

  lemma ValuesChecked(field: Field, operator: Operator, values: seq<string>, canonical: Canonical)
    requires Meaningful(field, operator, values)
    requires field == PrincipalId ==> forall v :: v in values ==> canonical(v).Some?
    ensures CheckedComparison(field, operator, values, canonical)
      == Some(Compare(field, operator, ReadValues(field, values, canonical)))
  {
    MeaningfulWhen(field, operator, values);
    ValuesRead(field, values, canonical);
  }

  function SetSize(operator: Operator, values: seq<string>): nat {
    if IsSetOperator(operator) then |values| else 0
  }

  lemma TailTaken(
    field: Field, operator: Operator, tail: string, values: seq<string>, rest: string, nodes: nat, items: nat,
    canonical: Canonical)
    requires OperandsAs(operator, tail, values, rest) && Meaningful(field, operator, values)
    requires field == PrincipalId ==> forall v :: v in values ==> canonical(v).Some?
    requires items + SetSize(operator, values) <= 256
    ensures ParseTail(State(tail, nodes, items), field, operator, canonical)
      == Done(Compare(field, operator, ReadValues(field, values, canonical)),
              State(rest, nodes, items + SetSize(operator, values)))
  {
    OperandsRead(operator, tail, values, rest, nodes, items);
    ValuesChecked(field, operator, values, canonical);
    TailRead(State(tail, nodes, items), field, operator, values, State(rest, nodes, items + SetSize(operator, values)),
             Compare(field, operator, ReadValues(field, values, canonical)), canonical);
  }

  lemma ComparisonRead(
    field: Field, operator: Operator, operands: seq<Spelling>, rest: string, s: State, e: Expression, last: State,
    canonical: Canonical)
    requires s.rest == TextOf(Comparison(field, operator, operands)) + rest && s.nodes < 128
    requires ParseTail(State(OperandsText(operator, operands) + rest, s.nodes + 1, s.items), field, operator, canonical)
      == Done(e, last)
    ensures ParseCompare(s, canonical) == Done(e, last)
  {
    ComparisonText(field, operator, operands, rest);
    CompareRead(s, field, operator, OperandsText(operator, operands) + rest, Done(e, last), canonical);
  }

  // Trees

  function Separating(precedence: nat): string {
    if precedence == 0 then "," else ";"
  }

  lemma TextStarts(w: Written, rest: string)
    requires w.Comparison?
    ensures !StartsWith(TextOf(w) + rest, "(")
  {
    ComparisonText(w.field, w.operator, w.operands, rest);
    NamesAreWords(w.field);
    assert (TextOf(w) + rest)[0] == w.field.Name()[0];
  }

  /**
    Wherever this text stands, with room for its parentheses, nodes and set items and nothing after it that would continue
    it, it is read whole and as this tree.
  */
  ghost predicate Understood(
    text: string, precedence: nat, levels: nat, nodes: nat, items: nat, e: Expression, canonical: Canonical)
    requires precedence <= 2
  {
    forall s: State, depth: nat, rest: string
      {:trigger ParseExpression(s, precedence, depth, canonical), Stops(rest, precedence)} ::
      s.rest == text + rest && Stops(rest, precedence)
      && depth + levels <= 16 && s.nodes + nodes <= 128 && s.items + items <= 256 ==>
        ParseExpression(s, precedence, depth, canonical) == Done(e, State(rest, s.nodes + nodes, s.items + items))
  }

  /** The same for the items of a group after its first separator. */
  ghost predicate ItemsUnderstood(
    text: string, precedence: nat, levels: nat, nodes: nat, items: nat, es: seq<Expression>, canonical: Canonical)
    requires precedence < 2
  {
    forall s: State, depth: nat, read: seq<Expression>, rest: string
      {:trigger ParseItems(s, precedence, depth, read, canonical), Stops(rest, precedence)} ::
      s.rest == text + rest && Stops(rest, precedence)
      && depth + levels <= 16 && s.nodes + nodes <= 128 && s.items + items <= 256 ==>
        ParseItems(s, precedence, depth, read, canonical)
        == Done(read + es, State(rest, s.nodes + nodes, s.items + items))
  }

  lemma UnderstoodWeaker(
    text: string, precedence: nat, levels: nat, nodes: nat, items: nat, e: Expression, canonical: Canonical)
    requires precedence < 2 && Understood(text, precedence + 1, levels, nodes, items, e, canonical)
    ensures Understood(text, precedence, levels, nodes, items, e, canonical)
  {
    forall s: State, depth: nat, rest: string |
      s.rest == text + rest && Stops(rest, precedence)
      && depth + levels <= 16 && s.nodes + nodes <= 128 && s.items + items <= 256
      ensures ParseExpression(s, precedence, depth, canonical) == Done(e, State(rest, s.nodes + nodes, s.items + items))
    {
      assert Stops(rest, precedence + 1);
      Single(s, precedence, depth, e, State(rest, s.nodes + nodes, s.items + items), canonical);
    }
  }

  lemma UnderstoodInside(text: string, levels: nat, nodes: nat, items: nat, e: Expression, canonical: Canonical)
    requires Understood(text, 0, levels, nodes, items, e, canonical)
    ensures Understood("(" + (text + ")"), 2, 1 + levels, nodes, items, e, canonical)
  {
    forall s: State, depth: nat, rest: string |
      s.rest == ("(" + (text + ")")) + rest && Stops(rest, 2)
      && depth + (1 + levels) <= 16 && s.nodes + nodes <= 128 && s.items + items <= 256
      ensures ParseExpression(s, 2, depth, canonical) == Done(e, State(rest, s.nodes + nodes, s.items + items))
    {
      Associates("(", text + ")", rest);
      Associates(text, ")", rest);
      var inner := text + (")" + rest);
      assert Stops(")" + rest, 0);
      assert ParseExpression(s.(rest := inner), 0, depth + 1, canonical)
        == Done(e, State(")" + rest, s.nodes + nodes, s.items + items));
      Bracketed(s, depth, inner, e, rest, s.nodes + nodes, s.items + items, canonical);
    }
  }

  lemma OperandsTaken(
    field: Field, operator: Operator, operands: seq<Spelling>, rest: string, nodes: nat, items: nat, canonical: Canonical)
    requires LegalComparison(field, operator, operands, canonical) && Delimited(rest)
    requires items + ItemsIn(Comparison(field, operator, operands)) <= 256
    ensures var w := Comparison(field, operator, operands);
      ParseTail(State(OperandsText(operator, operands) + rest, nodes, items), field, operator, canonical)
      == Done(MeaningOf(w, canonical), State(rest, nodes, items + ItemsIn(w)))
  {
    OperandsWritten(operator, operands, rest);
    TailTaken(field, operator, OperandsText(operator, operands) + rest, ValuesOf(operands), rest, nodes, items, canonical);
  }

  lemma UnderstoodComparison(field: Field, operator: Operator, operands: seq<Spelling>, canonical: Canonical)
    requires LegalComparison(field, operator, operands, canonical)
    ensures var w := Comparison(field, operator, operands);
      Understood(TextOf(w), 2, 0, 1, ItemsIn(w), MeaningOf(w, canonical), canonical)
  {
    var w := Comparison(field, operator, operands);
    var text, used, e := TextOf(w), ItemsIn(w), MeaningOf(w, canonical);
    forall s: State, depth: nat, rest: string |
      s.rest == text + rest && Stops(rest, 2) && depth + 0 <= 16 && s.nodes + 1 <= 128 && s.items + used <= 256
      ensures ParseExpression(s, 2, depth, canonical) == Done(e, State(rest, s.nodes + 1, s.items + used))
    {
      OperandsTaken(field, operator, operands, rest, s.nodes + 1, s.items, canonical);
      ComparisonRead(field, operator, operands, rest, s, e, State(rest, s.nodes + 1, s.items + used), canonical);
      TextStarts(w, rest);
      NoGroup(s, depth, canonical);
    }
  }

  lemma UnderstoodLast(
    text: string, precedence: nat, levels: nat, nodes: nat, items: nat, e: Expression, canonical: Canonical)
    requires precedence < 2 && Understood(text, precedence + 1, levels, nodes, items, e, canonical)
    ensures ItemsUnderstood(text, precedence, levels, nodes, items, [e], canonical)
  {
    forall s: State, depth: nat, read: seq<Expression>, rest: string |
      s.rest == text + rest && Stops(rest, precedence)
      && depth + levels <= 16 && s.nodes + nodes <= 128 && s.items + items <= 256
      ensures ParseItems(s, precedence, depth, read, canonical)
        == Done(read + [e], State(rest, s.nodes + nodes, s.items + items))
    {
      assert Stops(rest, precedence + 1);
      ItemsEnd(s, precedence, depth, read, e, State(rest, s.nodes + nodes, s.items + items), canonical);
    }
  }

  /** What the first item of a longer text takes. */
  lemma FirstTaken(
    s: State, precedence: nat, depth: nat, text: string, levels: nat, nodes: nat, items: nat, e: Expression, more: string,
    canonical: Canonical)
    requires precedence < 2 && Understood(text, precedence + 1, levels, nodes, items, e, canonical)
    requires s.rest == text + (Separating(precedence) + more)
    requires depth + levels <= 16 && s.nodes + nodes <= 128 && s.items + items <= 256
    ensures ParseExpression(s, precedence + 1, depth, canonical)
      == Done(e, State(Separating(precedence) + more, s.nodes + nodes, s.items + items))
  {
    assert Stops(Separating(precedence) + more, precedence + 1);
  }

  lemma MoreTaken(
    s: State, precedence: nat, depth: nat, read: seq<Expression>, text: string, others: string, rest: string,
    levels: nat, levels': nat, nodes: nat, nodes': nat, items: nat, items': nat, e: Expression, es: seq<Expression>,
    canonical: Canonical)
    requires precedence < 2 && Understood(text, precedence + 1, levels, nodes, items, e, canonical)
    requires ItemsUnderstood(others, precedence, levels', nodes', items', es, canonical)
    requires s.rest == text + (Separating(precedence) + (others + rest)) && Stops(rest, precedence)
    requires depth + Max(levels, levels') <= 16 && s.nodes + nodes + nodes' <= 128 && s.items + items + items' <= 256
    ensures ParseItems(s, precedence, depth, read, canonical)
      == Done((read + [e]) + es, State(rest, s.nodes + nodes + nodes', s.items + items + items'))
  {
    var more := others + rest;
    FirstTaken(s, precedence, depth, text, levels, nodes, items, e, more, canonical);
    var next := State(Separating(precedence) + more, s.nodes + nodes, s.items + items);
    ItemsGoOn(s, precedence, depth, read, e, next, more, canonical);
    assert ParseItems(next.(rest := more), precedence, depth, read + [e], canonical)
      == Done((read + [e]) + es, State(rest, next.nodes + nodes', next.items + items'));
  }

  lemma UnderstoodMore(
    text: string, others: string, precedence: nat, levels: nat, levels': nat, nodes: nat, nodes': nat, items: nat,
    items': nat, e: Expression, es: seq<Expression>, canonical: Canonical)
    requires precedence < 2 && Understood(text, precedence + 1, levels, nodes, items, e, canonical)
    requires ItemsUnderstood(others, precedence, levels', nodes', items', es, canonical)
    ensures ItemsUnderstood(
      text + (Separating(precedence) + others), precedence, Max(levels, levels'), nodes + nodes', items + items', [e] + es,
      canonical)
  {
    forall s: State, depth: nat, read: seq<Expression>, rest: string |
      s.rest == (text + (Separating(precedence) + others)) + rest && Stops(rest, precedence)
      && depth + Max(levels, levels') <= 16 && s.nodes + (nodes + nodes') <= 128 && s.items + (items + items') <= 256
      ensures ParseItems(s, precedence, depth, read, canonical)
        == Done(read + ([e] + es), State(rest, s.nodes + (nodes + nodes'), s.items + (items + items')))
    {
      Associates(text, Separating(precedence) + others, rest);
      Associates(Separating(precedence), others, rest);
      MoreTaken(
        s, precedence, depth, read, text, others, rest, levels, levels', nodes, nodes', items, items', e, es, canonical);
      Associates(read, [e], es);
    }
  }

  lemma UnderstoodGroup(
    text: string, others: string, precedence: nat, levels: nat, levels': nat, nodes: nat, nodes': nat, items: nat,
    items': nat, e: Expression, es: seq<Expression>, canonical: Canonical)
    requires precedence < 2 && Understood(text, precedence + 1, levels, nodes, items, e, canonical)
    requires ItemsUnderstood(others, precedence, levels', nodes', items', es, canonical)
    ensures Understood(
      text + (Separating(precedence) + others), precedence, Max(levels, levels'), 1 + (nodes + nodes'), items + items',
      Grouped(precedence, [e] + es), canonical)
  {
    forall s: State, depth: nat, rest: string |
      s.rest == (text + (Separating(precedence) + others)) + rest && Stops(rest, precedence)
      && depth + Max(levels, levels') <= 16 && s.nodes + (1 + (nodes + nodes')) <= 128 && s.items + (items + items') <= 256
      ensures ParseExpression(s, precedence, depth, canonical)
        == Done(Grouped(precedence, [e] + es), State(rest, s.nodes + (1 + (nodes + nodes')), s.items + (items + items')))
    {
      var more := others + rest;
      Associates(text, Separating(precedence) + others, rest);
      Associates(Separating(precedence), others, rest);
      FirstTaken(s, precedence, depth, text, levels, nodes, items, e, more, canonical);
      var next := State(Separating(precedence) + more, s.nodes + nodes, s.items + items);
      var last := State(rest, next.nodes + 1 + nodes', next.items + items');
      assert ParseItems(State(more, next.nodes + 1, next.items), precedence, depth, [e], canonical) == Done([e] + es, last);
      Separated(precedence, depth, e, next, more, [e] + es, last, canonical);
      Several(s, precedence, depth, e, next, Grouped(precedence, [e] + es), last, canonical);
    }
  }

  // Every written form

  lemma MeaningsSplit(list: seq<Written>, canonical: Canonical)
    requires list != []
    ensures [MeaningOf(list[0], canonical)] + MeaningsOf(list[1..], canonical) == MeaningsOf(list, canonical)
  {
  }

  /** At its own strength or weaker, a legal form is understood as its meaning. */
  lemma {:induction false} WrittenUnderstood(w: Written, precedence: nat, canonical: Canonical)
    requires precedence <= Strength(w) && Legal(w, canonical)
    ensures Understood(TextOf(w), precedence, DepthIn(w), NodesIn(w), ItemsIn(w), MeaningOf(w, canonical), canonical)
    decreases w, 4 - precedence
  {
    if precedence < Strength(w) {
      WrittenUnderstood(w, precedence + 1, canonical);
      UnderstoodWeaker(TextOf(w), precedence, DepthIn(w), NodesIn(w), ItemsIn(w), MeaningOf(w, canonical), canonical);
    } else {
      match w
      case Comparison(field, operator, operands) => UnderstoodComparison(field, operator, operands, canonical);
      case Parentheses(inner) =>
        WrittenUnderstood(inner, 0, canonical);
        UnderstoodInside(
          TextOf(inner), DepthIn(inner), NodesIn(inner), ItemsIn(inner), MeaningOf(inner, canonical), canonical);
      case Alternatives(items) => ListUnderstood(items, 0, canonical);
      case Conjunction(items) => ListUnderstood(items, 1, canonical);
    }
  }

  lemma {:induction false} ListUnderstood(list: seq<Written>, precedence: nat, canonical: Canonical)
    requires precedence < 2 && |list| >= 2 && AllLegal(list, precedence, canonical)
    ensures Understood(
      JoinedText(list, Separating(precedence)), precedence, DepthInAll(list), 1 + NodesInAll(list), ItemsInAll(list),
      Grouped(precedence, MeaningsOf(list, canonical)), canonical)
    decreases list, 1
  {
    var w, others := list[0], list[1..];
    WrittenUnderstood(w, precedence + 1, canonical);
    OthersUnderstood(others, precedence, canonical);
    MeaningsSplit(list, canonical);
    UnderstoodGroup(
      TextOf(w), JoinedText(others, Separating(precedence)), precedence, DepthIn(w), DepthInAll(others), NodesIn(w),
      NodesInAll(others), ItemsIn(w), ItemsInAll(others), MeaningOf(w, canonical), MeaningsOf(others, canonical), canonical);
  }

  lemma {:induction false} OthersUnderstood(list: seq<Written>, precedence: nat, canonical: Canonical)
    requires precedence < 2 && list != [] && AllLegal(list, precedence, canonical)
    ensures ItemsUnderstood(
      JoinedText(list, Separating(precedence)), precedence, DepthInAll(list), NodesInAll(list), ItemsInAll(list),
      MeaningsOf(list, canonical), canonical)
    decreases list, 0
  {
    var w, others := list[0], list[1..];
    WrittenUnderstood(w, precedence + 1, canonical);
    MeaningsSplit(list, canonical);
    if |list| == 1 {
      assert others == [] && MeaningsOf(list, canonical) == [MeaningOf(w, canonical)];
      UnderstoodLast(
        TextOf(w), precedence, DepthIn(w), NodesIn(w), ItemsIn(w), MeaningOf(w, canonical), canonical);
    } else {
      OthersUnderstood(others, precedence, canonical);
      UnderstoodMore(
        TextOf(w), JoinedText(others, Separating(precedence)), precedence, DepthIn(w), DepthInAll(others), NodesIn(w),
        NodesInAll(others), ItemsIn(w), ItemsInAll(others), MeaningOf(w, canonical), MeaningsOf(others, canonical),
        canonical);
    }
  }

  // Only written forms

  /** What was read from `s` up to `next` is this written form, with this meaning, within the budgets. */
  ghost predicate FoundAs(
    w: Written, s: State, next: State, precedence: nat, depth: nat, e: Expression, canonical: Canonical)
  {
    && Legal(w, canonical) && precedence <= Strength(w) && MeaningOf(w, canonical) == e
    && s.rest == TextOf(w) + next.rest
    && next.nodes == s.nodes + NodesIn(w) <= 128
    && next.items == s.items + ItemsIn(w) && (s.items <= 256 ==> next.items <= 256)
    && depth + DepthIn(w) <= 16
  }

  lemma Prefixed(s: string, text: string)
    requires StartsWith(s, text)
    ensures s == text + s[|text|..]
  {
  }

  lemma HeadFound(s: string, field: Field, operator: Operator, tail: string)
    requires ParseHead(s) == Some((field, operator, tail))
    ensures s == FieldText(field) + (OperatorText(operator) + tail)
  {
    FieldIsSpelled(field);
    OperatorIsSpelled(operator);
    var n := Word(s);
    assert s == s[..n] + s[n..] && s[..n] == field.Name();
    Prefixed(s[n..], operator.Text());
  }

  ghost predicate OperandsFound(s: State, operands: seq<Spelling>, values: seq<string>, next: State) {
    && operands != [] && values == ValuesOf(operands) && s.rest == SetText(operands) + next.rest
    && next.nodes == s.nodes && next.items == s.items + |operands| <= 256
    && forall i :: 0 <= i < |operands| ==> LegalOperand(operands[i])
  }

  lemma ItemFound(s: State, read: seq<string>) returns (o: Spelling, rest: string)
    requires ParseSet(s, read).Done?
    ensures LegalOperand(o) && ParseValue(s.rest) == Some((PiecesValue(o.pieces), rest))
    ensures s.rest == OperandText(o) + rest && s.items < 256 && |read| < 64
    ensures StartsWith(rest, ")") || StartsWith(rest, ",")
    ensures StartsWith(rest, ")") ==>
      ParseSet(s, read) == Done(read + [PiecesValue(o.pieces)], State(rest[1..], s.nodes, s.items + 1))
    ensures !StartsWith(rest, ")") ==>
      ParseSet(s, read) == ParseSet(State(rest[1..], s.nodes, s.items + 1), read + [PiecesValue(o.pieces)])
  {
    var v := ParseValue(s.rest).value;
    rest := v.1;
    o := OperandFound(s.rest, v.0, rest);
  }

  lemma LastOperand(s: State, o: Spelling, rest: string, next: State)
    requires LegalOperand(o) && s.rest == OperandText(o) + rest && StartsWith(rest, ")") && s.items < 256
    requires next == State(rest[1..], s.nodes, s.items + 1)
    ensures OperandsFound(s, [o], [PiecesValue(o.pieces)], next)
  {
    Prefixed(rest, ")");
    Associates(OperandText(o), ")", next.rest);
    OneValue([o]);
  }

  lemma MoreOperands(
    s: State, o: Spelling, rest: string, others: seq<Spelling>, values: seq<string>, next: State)
    requires LegalOperand(o) && s.rest == OperandText(o) + rest && StartsWith(rest, ",")
    requires OperandsFound(State(rest[1..], s.nodes, s.items + 1), others, values, next)
    ensures OperandsFound(s, [o] + others, [PiecesValue(o.pieces)] + values, next)
  {
    Prefixed(rest, ",");
    Associates(OperandText(o), "," + SetText(others), next.rest);
    Associates(",", SetText(others), next.rest);
    assert ([o] + others)[1..] == others;
  }

  lemma {:induction false} SetFound(s: State, read: seq<string>) returns (operands: seq<Spelling>)
    requires ParseSet(s, read).Done?
    ensures var r := ParseSet(s, read);
      && OperandsFound(s, operands, ValuesOf(operands), r.state) && r.value == read + ValuesOf(operands) && |r.value| <= 64
    decreases |s.rest|
  {
    var o, rest := ItemFound(s, read);
    var v := PiecesValue(o.pieces);
    if StartsWith(rest, ")") {
      operands := [o];
      OneValue(operands);
      LastOperand(s, o, rest, ParseSet(s, read).state);
    } else {
      var others := SetFound(State(rest[1..], s.nodes, s.items + 1), read + [v]);
      operands := [o] + others;
      MoreOperands(s, o, rest, others, ValuesOf(others), ParseSet(s, read).state);
      assert operands[1..] == others && ValuesOf(operands) == [v] + ValuesOf(others);
      Associates(read, [v], ValuesOf(others));
    }
  }

  lemma OperandListFound(s: State, operator: Operator) returns (operands: seq<Spelling>)
    requires ParseOperand(s, operator).Done?
    ensures var r := ParseOperand(s, operator);
      && r.value == ValuesOf(operands) && s.rest == OperandsText(operator, operands) + r.state.rest
      && (if IsSetOperator(operator) then 1 <= |operands| <= 64 else |operands| == 1)
      && (forall i :: 0 <= i < |operands| ==> LegalOperand(operands[i]))
      && r.state.nodes == s.nodes && r.state.items == s.items + SetSize(operator, r.value)
      && (IsSetOperator(operator) ==> r.state.items <= 256)
  {
    if IsSetOperator(operator) {
      Prefixed(s.rest, "(");
      operands := SetFound(s.(rest := s.rest[1..]), []);
      Associates("(", SetText(operands), ParseOperand(s, operator).state.rest);
      assert [] + ValuesOf(operands) == ValuesOf(operands);
    } else {
      var v := ParseValue(s.rest).value;
      var o := OperandFound(s.rest, v.0, v.1);
      operands := [o];
      OneValue(operands);
    }
  }

  lemma {:induction false} ValuesFound(field: Field, values: seq<string>, canonical: Canonical)
    requires field == PrincipalId && Canonicalized(values, canonical).Some?
    ensures Canonicalized(values, canonical).value == ReadValues(field, values, canonical)
    ensures forall v :: v in values ==> canonical(v).Some?
  {
    if values != [] {
      ValuesFound(field, values[1..], canonical);
      assert forall v :: v in values ==> v == values[0] || v in values[1..];
    }
  }

  lemma CheckedFound(field: Field, operator: Operator, values: seq<string>, canonical: Canonical)
    requires CheckedComparison(field, operator, values, canonical).Some?
    ensures Meaningful(field, operator, values)
    ensures field == PrincipalId ==> forall v :: v in values ==> canonical(v).Some?
    ensures CheckedComparison(field, operator, values, canonical)
      == Some(Compare(field, operator, ReadValues(field, values, canonical)))
  {
    MeaningfulWhen(field, operator, values);
    if field == PrincipalId {
      ValuesFound(field, values, canonical);
    } else {
      ValuesRead(field, values, canonical);
    }
  }

  lemma TailFound(next: State, field: Field, operator: Operator, canonical: Canonical) returns (operands: seq<Spelling>)
    requires ParseTail(next, field, operator, canonical).Done?
    ensures var r := ParseTail(next, field, operator, canonical);
      && LegalComparison(field, operator, operands, canonical)
      && r.value == Compare(field, operator, ReadValues(field, ValuesOf(operands), canonical))
      && next.rest == OperandsText(operator, operands) + r.state.rest
      && r.state.nodes == next.nodes && r.state.items == next.items + ItemsIn(Comparison(field, operator, operands))
      && (next.items <= 256 ==> r.state.items <= 256)
  {
    operands := OperandListFound(next, operator);
    CheckedFound(field, operator, ValuesOf(operands), canonical);
  }

  lemma StartFound(s: State, canonical: Canonical) returns (field: Field, operator: Operator, next: State)
    requires ParseCompare(s, canonical).Done?
    ensures s.rest == FieldText(field) + (OperatorText(operator) + next.rest)
    ensures next.nodes == s.nodes + 1 <= 128 && next.items == s.items
    ensures ParseCompare(s, canonical) == ParseTail(next, field, operator, canonical)
  {
    var start := ParseStart(s).value;
    field, operator, next := start.0, start.1, start.2;
    HeadFound(s.rest, field, operator, next.rest);
  }

  lemma ComparisonFound(s: State, depth: nat, canonical: Canonical) returns (w: Written)
    requires ParseCompare(s, canonical).Done? && depth <= 16
    ensures var r := ParseCompare(s, canonical); FoundAs(w, s, r.state, 2, depth, r.value, canonical)
  {
    var field, operator, next := StartFound(s, canonical);
    var operands := TailFound(next, field, operator, canonical);
    w := Comparison(field, operator, operands);
    var rest := ParseCompare(s, canonical).state.rest;
    Associates(OperatorText(operator), OperandsText(operator, operands), rest);
    Associates(FieldText(field), OperatorText(operator) + OperandsText(operator, operands), rest);
  }

  lemma InsideFound(w: Written, s: State, inner: State, next: State, depth: nat, e: Expression, canonical: Canonical)
    requires s.rest == "(" + inner.rest && inner.nodes == s.nodes && inner.items == s.items
    requires StartsWith(next.rest, ")") && FoundAs(w, inner, next, 0, depth + 1, e, canonical)
    ensures FoundAs(Parentheses(w), s, next.(rest := next.rest[1..]), 2, depth, e, canonical)
  {
    Prefixed(next.rest, ")");
    Associates(TextOf(w), ")", next.rest[1..]);
    Associates("(", TextOf(w) + ")", next.rest[1..]);
  }

  lemma InsideRead(s: State, depth: nat, canonical: Canonical) returns (inner: State)
    requires ParseExpression(s, 2, depth, canonical).Done? && StartsWith(s.rest, "(")
    ensures s.rest == "(" + inner.rest && inner.nodes == s.nodes && inner.items == s.items && |inner.rest| < |s.rest|
    ensures ParseExpression(inner, 0, depth + 1, canonical).Done?
    ensures var r := ParseExpression(inner, 0, depth + 1, canonical);
      && StartsWith(r.state.rest, ")")
      && ParseExpression(s, 2, depth, canonical) == Done(r.value, r.state.(rest := r.state.rest[1..]))
  {
    Prefixed(s.rest, "(");
    inner := s.(rest := s.rest[1..]);
  }

  /** Items of a group, read from `s` up to `next`. */
  ghost predicate ItemsFoundAs(
    list: seq<Written>, s: State, next: State, precedence: nat, depth: nat, es: seq<Expression>, canonical: Canonical)
  {
    && list != [] && AllLegal(list, precedence, canonical) && MeaningsOf(list, canonical) == es
    && s.rest == JoinedText(list, Separating(precedence)) + next.rest
    && next.nodes == s.nodes + NodesInAll(list) <= 128
    && next.items == s.items + ItemsInAll(list) && (s.items <= 256 ==> next.items <= 256)
    && depth + DepthInAll(list) <= 16
  }

  lemma LastFound(w: Written, s: State, next: State, precedence: nat, depth: nat, e: Expression, canonical: Canonical)
    requires precedence < 2 && FoundAs(w, s, next, precedence + 1, depth, e, canonical)
    ensures ItemsFoundAs([w], s, next, precedence, depth, [e], canonical)
  {
    assert [w][1..] == [];
  }

  lemma MoreFound(
    w: Written, list: seq<Written>, s: State, mid: State, more: State, next: State, precedence: nat, depth: nat,
    e: Expression, es: seq<Expression>, canonical: Canonical)
    requires precedence < 2 && FoundAs(w, s, mid, precedence + 1, depth, e, canonical)
    requires mid.rest == Separating(precedence) + more.rest && more.nodes == mid.nodes && more.items == mid.items
    requires ItemsFoundAs(list, more, next, precedence, depth, es, canonical)
    ensures ItemsFoundAs([w] + list, s, next, precedence, depth, [e] + es, canonical)
  {
    assert ([w] + list)[1..] == list;
    Associates(Separating(precedence), JoinedText(list, Separating(precedence)), next.rest);
    Associates(TextOf(w), Separating(precedence) + JoinedText(list, Separating(precedence)), next.rest);
  }

  function Grouping(precedence: nat, items: seq<Written>): Written {
    if precedence == 0 then Alternatives(items) else Conjunction(items)
  }

  lemma GroupFound(
    w: Written, list: seq<Written>, s: State, mid: State, more: State, next: State, precedence: nat, depth: nat,
    e: Expression, es: seq<Expression>, canonical: Canonical)
    requires precedence < 2 && FoundAs(w, s, mid, precedence + 1, depth, e, canonical)
    requires mid.rest == Separating(precedence) + more.rest && more.nodes == mid.nodes + 1 && more.items == mid.items
    requires ItemsFoundAs(list, more, next, precedence, depth, es, canonical)
    ensures FoundAs(Grouping(precedence, [w] + list), s, next, precedence, depth, Grouped(precedence, [e] + es), canonical)
  {
    assert ([w] + list)[1..] == list;
    Associates(Separating(precedence), JoinedText(list, Separating(precedence)), next.rest);
    Associates(TextOf(w), Separating(precedence) + JoinedText(list, Separating(precedence)), next.rest);
  }

  /** What follows the first item of a level: the end of it, or its separator and other items. */
  lemma GroupRest(
    first: Expression, mid: State, precedence: nat, depth: nat, canonical: Canonical)
    requires precedence < 2 && ParseGroup(first, mid, precedence, depth, canonical).Done?
    ensures !StartsWith(mid.rest, Separating(precedence)) ==>
      ParseGroup(first, mid, precedence, depth, canonical) == Done(first, mid)
    ensures StartsWith(mid.rest, Separating(precedence)) ==>
      var more := State(mid.rest[1..], mid.nodes + 1, mid.items);
      && mid.rest == Separating(precedence) + more.rest
      && ParseItems(more, precedence, depth, [first], canonical).Done?
      && var r := ParseItems(more, precedence, depth, [first], canonical);
      ParseGroup(first, mid, precedence, depth, canonical) == Done(Grouped(precedence, r.value), r.state)
  {
  }

  /** Whatever is read as an expression is a written form of it. */
  lemma {:induction false} WrittenFound(s: State, precedence: nat, depth: nat, canonical: Canonical) returns (w: Written)
    requires precedence <= 2 && ParseExpression(s, precedence, depth, canonical).Done?
    ensures var r := ParseExpression(s, precedence, depth, canonical);
      FoundAs(w, s, r.state, precedence, depth, r.value, canonical)
    decreases |s.rest|, 2 - precedence, 1
  {
    if precedence < 2 {
      LevelRead(s, precedence, depth, canonical);
      var first := ParseExpression(s, precedence + 1, depth, canonical);
      w := WrittenFound(s, precedence + 1, depth, canonical);
      w := LevelFound(w, s, first.value, first.state, precedence, depth, canonical);
    } else if StartsWith(s.rest, "(") {
      var inner := InsideRead(s, depth, canonical);
      var r := ParseExpression(inner, 0, depth + 1, canonical);
      w := WrittenFound(inner, 0, depth + 1, canonical);
      InsideFound(w, s, inner, r.state, depth, r.value, canonical);
      w := Parentheses(w);
    } else {
      OnlyComparison(s, depth, canonical);
      w := ComparisonFound(s, depth, canonical);
    }
  }

  lemma OnlyComparison(s: State, depth: nat, canonical: Canonical)
    requires ParseExpression(s, 2, depth, canonical).Done? && !StartsWith(s.rest, "(")
    ensures depth <= 16 && ParseExpression(s, 2, depth, canonical) == ParseCompare(s, canonical)
  {
  }

  lemma {:induction false} LevelFound(
    first: Written, s: State, e: Expression, mid: State, precedence: nat, depth: nat, canonical: Canonical)
    returns (w: Written)
    requires precedence < 2 && FoundAs(first, s, mid, precedence + 1, depth, e, canonical)
    requires ParseGroup(e, mid, precedence, depth, canonical).Done?
    ensures var r := ParseGroup(e, mid, precedence, depth, canonical);
      FoundAs(w, s, r.state, precedence, depth, r.value, canonical)
    decreases |mid.rest|, 3, 0
  {
    GroupRest(e, mid, precedence, depth, canonical);
    if StartsWith(mid.rest, Separating(precedence)) {
      var more := State(mid.rest[1..], mid.nodes + 1, mid.items);
      var list, es := ItemsFound(more, precedence, depth, [e], canonical);
      GroupFound(first, list, s, mid, more, ParseItems(more, precedence, depth, [e], canonical).state, precedence, depth,
                 e, es, canonical);
      w := Grouping(precedence, [first] + list);
    } else {
      w := first;
    }
  }

  lemma FirstItem(s: State, precedence: nat, depth: nat, read: seq<Expression>, canonical: Canonical)
    requires precedence < 2 && ParseItems(s, precedence, depth, read, canonical).Done?
    ensures ParseExpression(s, precedence + 1, depth, canonical).Done?
  {
  }

  lemma NoMoreItems(
    s: State, item: Parsed<Expression>, precedence: nat, depth: nat, read: seq<Expression>, canonical: Canonical)
    requires precedence < 2 && item == ParseExpression(s, precedence + 1, depth, canonical) && item.Done?
    requires !StartsWith(item.state.rest, Separating(precedence))
    ensures ParseItems(s, precedence, depth, read, canonical) == Done(read + [item.value], item.state)
  {
  }

  lemma MoreItems(
    s: State, item: Parsed<Expression>, precedence: nat, depth: nat, read: seq<Expression>, canonical: Canonical)
    requires precedence < 2 && item == ParseExpression(s, precedence + 1, depth, canonical) && item.Done?
    requires StartsWith(item.state.rest, Separating(precedence))
    ensures ParseItems(s, precedence, depth, read, canonical)
      == ParseItems(item.state.(rest := item.state.rest[1..]), precedence, depth, read + [item.value], canonical)
  {
  }

  lemma {:induction false} ItemsFound(
    s: State, precedence: nat, depth: nat, read: seq<Expression>, canonical: Canonical)
    returns (list: seq<Written>, es: seq<Expression>)
    requires precedence < 2 && ParseItems(s, precedence, depth, read, canonical).Done?
    ensures var r := ParseItems(s, precedence, depth, read, canonical);
      r.value == read + es && ItemsFoundAs(list, s, r.state, precedence, depth, es, canonical)
    decreases |s.rest|, 2 - precedence, 0
  {
    FirstItem(s, precedence, depth, read, canonical);
    var item := ParseExpression(s, precedence + 1, depth, canonical);
    var w := WrittenFound(s, precedence + 1, depth, canonical);
    if StartsWith(item.state.rest, Separating(precedence)) {
      MoreItems(s, item, precedence, depth, read, canonical);
      Prefixed(item.state.rest, Separating(precedence));
      var more := item.state.(rest := item.state.rest[1..]);
      var others, tail := ItemsFound(more, precedence, depth, read + [item.value], canonical);
      MoreFound(w, others, s, item.state, more, ParseItems(s, precedence, depth, read, canonical).state, precedence, depth,
                item.value, tail, canonical);
      Associates(read, [item.value], tail);
      list, es := [w] + others, [item.value] + tail;
    } else {
      NoMoreItems(s, item, precedence, depth, read, canonical);
      LastFound(w, s, item.state, precedence, depth, item.value, canonical);
      list, es := [w], [item.value];
    }
  }

  // The language

  /** A legal filter is accepted as what it means. */
  lemma WrittenIsAccepted(w: Written, canonical: Canonical)
    requires LegalFilter(w, canonical)
    ensures ParseFilter(TextOf(w), canonical) == Some(MeaningOf(w, canonical))
  {
    WrittenUnderstood(w, 0, canonical);
    var text := TextOf(w);
    assert text + "" == text && Stops("", 0);
    assert ParseExpression(State(text, 0, 0), 0, 0, canonical)
      == Done(MeaningOf(w, canonical), State("", NodesIn(w), ItemsIn(w)));
    assert text != "";
  }

  /** Whatever is accepted is a legal filter, read as what it means. */
  lemma AcceptedIsWritten(raw: string, e: Expression, canonical: Canonical) returns (w: Written)
    requires ParseFilter(raw, canonical) == Some(e)
    ensures LegalFilter(w, canonical) && TextOf(w) == raw && MeaningOf(w, canonical) == e
  {
    w := WrittenFound(State(raw, 0, 0), 0, 0, canonical);
    assert raw == TextOf(w) + "" == TextOf(w);
  }

  /** The parser accepts a text as a tree if and only if the text is a written form of that tree within the limits. */
  lemma AcceptsExactly(raw: string, e: Expression, canonical: Canonical)
    ensures ParseFilter(raw, canonical) == Some(e) <==>
      exists w :: LegalFilter(w, canonical) && TextOf(w) == raw && MeaningOf(w, canonical) == e
  {
    if ParseFilter(raw, canonical) == Some(e) {
      var w := AcceptedIsWritten(raw, e, canonical);
    }
    if w :| LegalFilter(w, canonical) && TextOf(w) == raw && MeaningOf(w, canonical) == e {
      WrittenIsAccepted(w, canonical);
    }
  }

  /** No text can be read in two ways. */
  lemma OneMeaning(v: Written, w: Written, canonical: Canonical)
    requires LegalFilter(v, canonical) && LegalFilter(w, canonical) && TextOf(v) == TextOf(w)
    ensures MeaningOf(v, canonical) == MeaningOf(w, canonical)
  {
    WrittenIsAccepted(v, canonical);
    WrittenIsAccepted(w, canonical);
  }
}
