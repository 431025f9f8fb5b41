/** JSON values; an object's members have no order. */
module Json {
  import opened Common

  datatype Value =
    | Null
    | Bool(flag: bool)
    | Number(number: real)
    | String(text: string)
    | Array(items: seq<Value>)
    | Object(members: map<string, Value>)

  /** An object with exactly these members, as closed decoding demands. */
  predicate Closed(v: Value, keys: set<string>) {
    v.Object? && v.members.Keys == keys
  }

  function Integer(n: int): Value { Number(n as real) }

  predicate IsInteger(v: Value) { v.Number? && v.number == v.number.Floor as real }

  /** A whole number of 64 bits. */
  function ReadI64(v: Value): Option<I64> {
    if IsInteger(v) then Checked(v.number.Floor) else None
  }

  function Strings(values: seq<string>): (v: Value)
    ensures v.Array? && |v.items| == |values| && forall i :: 0 <= i < |values| ==> v.items[i] == String(values[i])
  {
    Array(StringItems(values))
  }

  function StringItems(values: seq<string>): (v: seq<Value>)
    ensures |v| == |values| && forall i :: 0 <= i < |values| ==> v[i] == String(values[i])
  {
    if values == [] then [] else [String(values[0])] + StringItems(values[1..])
  }

  predicate AreStrings(items: seq<Value>) {
    forall i :: 0 <= i < |items| ==> items[i].String?
  }

  function Texts(items: seq<Value>): (r: seq<string>)
    requires AreStrings(items)
    ensures |r| == |items| && forall i :: 0 <= i < |items| ==> r[i] == items[i].text
  {
    if items == [] then [] else [items[0].text] + Texts(items[1..])
  }

  lemma TextsOfStrings(values: seq<string>)
    ensures AreStrings(Strings(values).items) && Texts(Strings(values).items) == values
  {
  }
}
