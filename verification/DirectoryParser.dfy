/**
  The filter parser as it runs: one pass over the text with a byte offset, a node count and a set item count. Each
  method reads exactly what the grammar reads, and the offset never stands inside a character.
*/
module DirectoryParser {
  import opened Common
  import opened Text
  import opened Directory
  import opened DirectoryGrammar

  lemma DropDrop(s: string, a: nat, n: nat)
    requires a + n <= |s|
    ensures s[a..][n..] == s[a + n..]
  {
  }

  /** Moving on by some characters moves the byte offset by their encoded length. */
  lemma Advanced(s: string, a: nat, n: nat)
    requires a + n <= |s|
    ensures Utf8Length(s[..a + n]) == Utf8Length(s[..a]) + Utf8Length(s[a..][..n])
  {
    assert s[..a + n] == s[..a] + s[a..][..n];
    Utf8Append(s[..a], s[a..][..n]);
  }

  lemma AtEnd(s: string, a: nat)
    requires a <= |s|
    ensures Utf8Length(s[..a]) == Utf8Length(s) <==> s[a..] == ""
  {
    assert s == s[..a] + s[a..];
    Utf8Append(s[..a], s[a..]);
  }

  /** A method read what the grammar reads from where it started. */
  ghost predicate Agrees<T>(spec: Parsed<T>, r: Option<T>, now: State) {
    if spec.Done? then r == Some(spec.value) && now == spec.state else r == None
  }

  class Parser {
    const raw: string
    const canonical: Canonical
    /** The offset in characters, and the same place in bytes. */
    var at: nat
    var offset: nat
    var nodes: nat
    var setItems: nat

    constructor (raw: string, canonical: Canonical)
      ensures Valid() && this.raw == raw && this.canonical == canonical && Now() == State(raw, 0, 0)
    {
      this.raw, this.canonical := raw, canonical;
      at, offset, nodes, setItems := 0, 0, 0, 0;
    }

    ghost predicate Valid()
      reads this
    {
      at <= |raw| && offset == Utf8Length(raw[..at])
    }

    function Now(): State
      requires at <= |raw|
      reads this
    {
      State(raw[at..], nodes, setItems)
    }

    method Skip(n: nat)
      requires Valid() && at + n <= |raw|
      modifies this`at, this`offset
      ensures Valid() && at == old(at) + n && Now() == old(Now()).(rest := old(Now()).rest[n..])
    {
      Advanced(raw, at, n);
      DropDrop(raw, at, n);
      offset := offset + Utf8Length(raw[at..][..n]);
      at := at + n;
    }

    method Eat(text: string) returns (eaten: bool)
      requires Valid()
      modifies this`at, this`offset
      ensures Valid() && eaten == StartsWith(old(Now()).rest, text)
      ensures at == old(at) + if eaten then |text| else 0
      ensures Now() == if eaten then old(Now()).(rest := old(Now()).rest[|text|..]) else old(Now())
    {
      eaten := StartsWith(raw[at..], text);
      if eaten {
        Skip(|text|);
      }
    }

    method Node() returns (ok: bool)
      requires Valid()
      modifies this`nodes
      ensures Valid() && nodes == old(nodes) + 1 && ok == (nodes <= NODE_LIMIT)
    {
      nodes := nodes + 1;
      ok := nodes <= NODE_LIMIT;
    }

    /** The characters of an operand up to its end. */
    method Chars(quote: Option<char>) returns (r: Option<string>)
      requires Valid()
      modifies this`at, this`offset
      ensures Valid()
      ensures match ParseChars(old(Now()).rest, quote, "")
        case Some((value, rest)) => r == Some(value) && Now() == old(Now()).(rest := rest)
        case None => r == None
    {
      var value := "";
      var closed := quote.None?;
      ghost var start := raw[at..];
      while at < |raw|
        invariant Valid() && closed == quote.None?
        invariant ParseChars(start, quote, "") == ParseChars(raw[at..], quote, value)
        decreases |raw| - at
      {
        var c := raw[at];
        if quote == Some(c) {
          Skip(1);
          closed := true;
          break;
        }
        if quote.None? && Delimiter(c) {
          break;
        }
        if c == '\\' {
          if at + 1 >= |raw| { return None; }
          c := raw[at + 1];
          if !Escapable(c) { return None; }
          Skip(2);
        } else {
          if quote.None? && BareForbidden(c) { return None; }
          Skip(1);
        }
        if IsControl(c) { return None; }
        value := value + [c];
        if Utf8Length(value) > VALUE_BYTES { return None; }
      }
      if !closed || (quote.None? && value == "") { return None; }
      r := Some(value);
    }

    method Value() returns (r: Option<string>)
      requires Valid()
      modifies this`at, this`offset
      ensures Valid()
      ensures match ParseValue(old(Now()).rest)
        case Some((value, rest)) => r == Some(value) && Now() == old(Now()).(rest := rest)
        case None => r == None
    {
      var eaten := Eat("'");
      if eaten {
        r := Chars(Some('\''));
      } else {
        eaten := Eat("\"");
        if eaten {
          r := Chars(Some('"'));
        } else {
          r := Chars(None);
        }
      }
    }

    method Item(count: nat) returns (r: Option<string>)
      requires Valid()
      modifies this`at, this`offset, this`setItems
      ensures Valid() && (r.Some? ==> |raw| - at <= old(|raw| - at))
      ensures var item := ParseItem(old(Now()), count);
        if item.None? then r == None else r == Some(item.value.0) && Now() == item.value.1
    {
      setItems := setItems + 1;
      if setItems > ITEM_LIMIT || count >= SET_LIMIT { return None; }
      r := Value();
    }

    method Set() returns (r: Option<seq<string>>)
      requires Valid()
      modifies this`at, this`offset, this`setItems
      ensures Valid()
      ensures Agrees(ParseSet(old(Now()), []), r, Now())
    {
      var values: seq<string> := [];
      ghost var start := Now();
      while true
        invariant Valid()
        invariant ParseSet(start, []) == ParseSet(Now(), values)
        decreases |raw| - at
      {
        var value := Item(|values|);
        if value.None? { return None; }
        values := values + [value.value];
        var eaten := Eat(")");
        if eaten { return Some(values); }
        eaten := Eat(",");
        if !eaten { return None; }
      }
    }

    method Operand(operator: Operator) returns (r: Option<seq<string>>)
      requires Valid()
      modifies this`at, this`offset, this`setItems
      ensures Valid()
      ensures Agrees(ParseOperand(old(Now()), operator), r, Now())
    {
      if operator.IsSet() {
        var eaten := Eat("(");
        if !eaten { return None; }
        r := Set();
      } else {
        var value := Value();
        r := if value.None? then None else Some([value.value]);
      }
    }

    method FieldName() returns (name: string)
      requires Valid()
      modifies this`at, this`offset
      ensures Valid() && var rest := old(Now()).rest;
        name == rest[..Word(rest)] && Now() == old(Now()).(rest := rest[Word(rest)..])
    {
      var start := at;
      while at < |raw| && Alphanumeric(raw[at])
        invariant start <= at && Valid()
        invariant Word(raw[start..]) == at - start + Word(raw[at..])
        decreases |raw| - at
      {
        assert raw[at..][1..] == raw[at + 1..];
        Skip(1);
      }
      name := raw[start..at];
      assert Word(raw[at..]) == 0;
      assert name == raw[start..][..at - start];
      DropDrop(raw, start, at - start);
    }

    method OperatorHere() returns (r: Option<Operator>)
      requires Valid()
      modifies this`at, this`offset
      ensures Valid() && r == FindOperator(old(Now()).rest, 0)
      ensures Now() == if r.Some? then old(Now()).(rest := old(Now()).rest[|r.value.Text()|..]) else old(Now())
    {
      for i := 0 to |OPERATORS|
        invariant Valid() && Now() == old(Now())
        invariant FindOperator(old(Now()).rest, 0) == FindOperator(old(Now()).rest, i)
      {
        var eaten := Eat(OPERATORS[i].Text());
        if eaten { return Some(OPERATORS[i]); }
      }
      r := None;
    }

    method Head() returns (r: Option<(Field, Operator)>)
      requires Valid()
      modifies this`at, this`offset
      ensures Valid()
      ensures var head := ParseHead(old(Now()).rest);
        if head.None? then r == None
        else r == Some((head.value.0, head.value.1)) && Now() == old(Now()).(rest := head.value.2)
    {
      var name := FieldName();
      var field := ParseField(name);
      if field.None? { return None; }
      var operator := OperatorHere();
      if operator.None? { return None; }
      r := Some((field.value, operator.value));
    }

    method Tail(field: Field, operator: Operator) returns (r: Option<Expression>)
      requires Valid()
      modifies this`at, this`offset, this`setItems
      ensures Valid()
      ensures Agrees(ParseTail(old(Now()), field, operator, canonical), r, Now())
    {
      var values := Operand(operator);
      if values.None? { return None; }
      r := CheckedComparison(field, operator, values.value, canonical);
    }

    method Start() returns (r: Option<(Field, Operator)>)
      requires Valid()
      modifies this
      ensures Valid()
      ensures var start := ParseStart(old(Now()));
        if start.None? then r == None else r == Some((start.value.0, start.value.1)) && Now() == start.value.2
    {
      var ok := Node();
      if !ok { return None; }
      r := Head();
    }

    method Comparison() returns (r: Option<Expression>)
      requires Valid()
      modifies this
      ensures Valid()
      ensures Agrees(ParseCompare(old(Now()), canonical), r, Now())
    {
      var start := Start();
      if start.None? { return None; }
      r := Tail(start.value.0, start.value.1);
    }

    method Expression(precedence: nat, depth: nat) returns (r: Option<Expression>)
      requires Valid() && precedence <= 2
      modifies this
      ensures Valid()
      ensures Agrees(ParseExpression(old(Now()), precedence, depth, canonical), r, Now())
      decreases |raw| - at, 2 - precedence
    {
      if depth > DEPTH_LIMIT { return None; }
      if precedence < 2 {
        var first := Expression(precedence + 1, depth);
        if first.None? { return None; }
        r := Group(first.value, precedence, depth);
        return;
      }
      var eaten := Eat("(");
      if eaten {
        r := Expression(0, depth + 1);
        if r.None? { return; }
        eaten := Eat(")");
        if !eaten { r := None; }
        return;
      }
      r := Comparison();
    }

    /** The rest of a level after its first item. */
    method Group(first: Expression, precedence: nat, depth: nat) returns (r: Option<Expression>)
      requires Valid() && precedence < 2
      modifies this
      ensures Valid()
      ensures Agrees(ParseGroup(first, old(Now()), precedence, depth, canonical), r, Now())
      decreases |raw| - at, 3
    {
      var eaten := Eat(Separator(precedence));
      if !eaten { return Some(first); }
      var ok := Node();
      if !ok { return None; }
      var items := [first];
      ghost var start := Now();
      while true
        invariant Valid() && |raw| - at < old(|raw| - at)
        invariant ParseItems(start, precedence, depth, [first], canonical)
          == ParseItems(Now(), precedence, depth, items, canonical)
        decreases |raw| - at
      {
        var item := Expression(precedence + 1, depth);
        if item.None? { return None; }
        items := items + [item.value];
        eaten := Eat(Separator(precedence));
        if !eaten { break; }
      }
      r := Some(Grouped(precedence, items));
    }
  }

  method ParseFilterText(raw: string, canonical: Canonical) returns (r: Option<Expression>)
    ensures r == ParseFilter(raw, canonical)
  {
    if raw == "" || Utf8Length(raw) > FILTER_BYTES { return None; }
    var parser := new Parser(raw, canonical);
    r := parser.Expression(0, 0);
    if r.None? { return; }
    AtEnd(raw, parser.at);
    if parser.offset != Utf8Length(raw) { r := None; }
  }
}
