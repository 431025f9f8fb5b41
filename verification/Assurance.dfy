/** How strongly a user was authenticated: the normalized facts of one authentication and their stored form. */
module Assurances {
  import opened Common
  import J = Json

  datatype Acr = Unspecified | Mfa
  {
    function Name(): string {
      if Unspecified? then "unspecified" else "mfa"
    }
  }

  /** Methods, in the order of their names. */
  datatype Method = SecondFactor | Otp | Pwd
  {
    function Name(): string {
      match this case SecondFactor => "mfa" case Otp => "otp" case Pwd => "pwd"
    }

    function Rank(): nat {
      match this case SecondFactor => 0 case Otp => 1 case Pwd => 2
    }
  }

  datatype Input = Input(authTime: Option<I64>, acr: Acr, amr: seq<Method>)

  predicate Ascending(methods: seq<Method>) {
    forall i :: 0 < i < |methods| ==> methods[i - 1].Rank() < methods[i].Rank()
  }

  /** A time is positive, a second factor has one, and methods are in order without repetition. */
  predicate Consistent(a: Input) {
    && (a.authTime.Some? ==> a.authTime.value > 0)
    && (a.acr == Mfa ==> a.authTime.Some?)
    && Ascending(a.amr)
  }

  /** Only consistent facts can be constructed. */
  type Assurance = a: Input | Consistent(a) witness Input(None, Unspecified, [])

  // The stored form

  const KEYS: set<string> := {"auth_time", "acr", "amr"}

  function MethodNames(methods: seq<Method>): (r: seq<string>)
    ensures |r| == |methods| && forall i :: 0 <= i < |methods| ==> r[i] == methods[i].Name()
  {
    if methods == [] then [] else [methods[0].Name()] + MethodNames(methods[1..])
  }

  function Encode(a: Assurance): J.Value {
    J.Object(map[
      "auth_time" := if a.authTime.None? then J.Null else J.Integer(a.authTime.value),
      "acr" := J.String(a.acr.Name()),
      "amr" := J.Strings(MethodNames(a.amr))])
  }

  function ReadAcr(v: J.Value): Option<Acr> {
    if v == J.String("unspecified") then Some(Unspecified) else if v == J.String("mfa") then Some(Mfa) else None
  }

  function ReadMethod(v: J.Value): Option<Method> {
    if v == J.String("mfa") then Some(SecondFactor)
    else if v == J.String("otp") then Some(Otp)
    else if v == J.String("pwd") then Some(Pwd)
    else None
  }

  function ReadMethods(items: seq<J.Value>): (r: Option<seq<Method>>)
    ensures r.Some? ==> |r.value| == |items|
  {
    if items == [] then Some([])
    else
      var first, others := ReadMethod(items[0]), ReadMethods(items[1..]);
      if first.None? || others.None? then None else Some([first.value] + others.value)
  }

  /** No time at all, a null, or a number of 64 bits. */
  function ReadTime(members: map<string, J.Value>): Option<Option<I64>> {
    if "auth_time" !in members || members["auth_time"].Null? then Some(None)
    else
      var t := J.ReadI64(members["auth_time"]);
      if t.None? then None else Some(t)
  }

  /** Unknown members, unknown names and inconsistent facts are refused; only the time may be absent. */
  function Decode(v: J.Value): Option<Assurance> {
    if !v.Object? || !(v.members.Keys <= KEYS) || "acr" !in v.members || "amr" !in v.members then None
    else if !v.members["amr"].Array? then None
    else
      var time, acr, amr := ReadTime(v.members), ReadAcr(v.members["acr"]), ReadMethods(v.members["amr"].items);
      if time.None? || acr.None? || amr.None? then None
      else
        var a := Input(time.value, acr.value, amr.value);
        if Consistent(a) then Some(a) else None
  }

  // What decodes

  /** Of the three names, `first` comes before `second`. */
  predicate NamesFollow(first: J.Value, second: J.Value) {
    || (first == J.String("mfa") && second == J.String("otp"))
    || (first == J.String("mfa") && second == J.String("pwd"))
    || (first == J.String("otp") && second == J.String("pwd"))
  }

  /** Methods are stored under their names, in the order of the names. */
  predicate NamesInOrder(items: seq<J.Value>) {
    && (forall i :: 0 <= i < |items| ==>
      items[i] == J.String("mfa") || items[i] == J.String("otp") || items[i] == J.String("pwd"))
    && (forall i :: 0 < i < |items| ==> NamesFollow(items[i - 1], items[i]))
  }

  /** A time is a positive number of 64 bits; without one there is no second factor. */
  predicate Stored(v: J.Value) {
    && v.Object? && {"acr", "amr"} <= v.members.Keys <= {"auth_time", "acr", "amr"}
    && (v.members["acr"] == J.String("unspecified") || (v.members["acr"] == J.String("mfa") && Timed(v)))
    && v.members["amr"].Array? && NamesInOrder(v.members["amr"].items)
    && (Timed(v) ==> J.IsInteger(v.members["auth_time"]) && 0 < v.members["auth_time"].number.Floor <= I64_MAX)
  }

  predicate Timed(v: J.Value)
    requires v.Object?
  {
    "auth_time" in v.members && v.members["auth_time"] != J.Null
  }

  lemma {:induction false} MethodsReadEach(items: seq<J.Value>)
    ensures ReadMethods(items).Some? <==> forall i :: 0 <= i < |items| ==> ReadMethod(items[i]).Some?
    ensures ReadMethods(items).Some? ==>
      forall i :: 0 <= i < |items| ==> ReadMethod(items[i]) == Some(ReadMethods(items).value[i])
  {
    if items != [] {
      MethodsReadEach(items[1..]);
      assert items == [items[0]] + items[1..];
    }
  }

  lemma NamesRead(v: J.Value)
    ensures ReadMethod(v).Some? <==> v == J.String("mfa") || v == J.String("otp") || v == J.String("pwd")
    ensures ReadMethod(v).Some? ==> v == J.String(ReadMethod(v).value.Name())
    ensures "mfa" != "otp" && "mfa" != "pwd" && "otp" != "pwd"
  {
    assert "mfa"[0] != "otp"[0] && "mfa"[0] != "pwd"[0] && "otp"[0] != "pwd"[0];
  }

  lemma NeighboursExactly(first: J.Value, second: J.Value)
    requires ReadMethod(first).Some? && ReadMethod(second).Some?
    ensures ReadMethod(first).value.Rank() < ReadMethod(second).value.Rank() <==> NamesFollow(first, second)
  {
    NamesRead(first);
    NamesRead(second);
  }

  lemma MethodsExactly(items: seq<J.Value>)
    ensures ReadMethods(items).Some? && Ascending(ReadMethods(items).value) <==> NamesInOrder(items)
  {
    MethodsReadEach(items);
    forall i | 0 <= i < |items|
      ensures ReadMethod(items[i]).Some? <==>
        items[i] == J.String("mfa") || items[i] == J.String("otp") || items[i] == J.String("pwd")
    {
      NamesRead(items[i]);
    }
    if ReadMethods(items).Some? {
      var methods := ReadMethods(items).value;
      forall i | 0 < i < |items|
        ensures methods[i - 1].Rank() < methods[i].Rank() <==> NamesFollow(items[i - 1], items[i])
      {
        NeighboursExactly(items[i - 1], items[i]);
      }
    }
  }

  /** Exactly the stored forms decode, and strength, time and methods are those they name. */
  lemma DecodesExactly(v: J.Value)
    ensures Decode(v).Some? <==> Stored(v)
    ensures Decode(v).Some? ==>
      var a := Decode(v).value;
      && (a.acr == Mfa <==> v.members["acr"] == J.String("mfa"))
      && a.authTime == (if Timed(v) then Some(v.members["auth_time"].number.Floor) else None)
      && J.Strings(MethodNames(a.amr)).items == v.members["amr"].items
  {
    if v.Object? && {"acr", "amr"} <= v.members.Keys <= {"auth_time", "acr", "amr"} && v.members["amr"].Array? {
      DecodedParts(v);
      var items := v.members["amr"].items;
      MethodsExactly(items);
      TimeExactly(v);
      AcrExactly(v.members["acr"]);
      if ReadMethods(items).Some? {
        MethodsOnlyNamed(items);
      }
    }
  }

  lemma AcrExactly(v: J.Value)
    ensures ReadAcr(v).Some? <==> v == J.String("unspecified") || v == J.String("mfa")
    ensures v == J.String("mfa") <==> ReadAcr(v) == Some(Mfa)
  {
    assert "mfa"[0] != "unspecified"[0];
  }

  lemma DecodedParts(v: J.Value)
    requires v.Object? && {"acr", "amr"} <= v.members.Keys <= {"auth_time", "acr", "amr"} && v.members["amr"].Array?
    ensures
      var time, acr, amr := ReadTime(v.members), ReadAcr(v.members["acr"]), ReadMethods(v.members["amr"].items);
      Decode(v) ==
        if time.Some? && acr.Some? && amr.Some? && Consistent(Input(time.value, acr.value, amr.value))
        then Some(Input(time.value, acr.value, amr.value)) else None
  {
  }

  lemma TimeExactly(v: J.Value)
    requires v.Object?
    ensures
      var t := ReadTime(v.members);
      && (t.Some? && (t.value.Some? ==> t.value.value > 0) <==>
            (Timed(v) ==> J.IsInteger(v.members["auth_time"]) && 0 < v.members["auth_time"].number.Floor <= I64_MAX))
      && (t.Some? ==> t.value == if Timed(v) then Some(v.members["auth_time"].number.Floor) else None)
  {
  }

  lemma MethodRead(m: Method)
    ensures ReadMethod(J.String(m.Name())) == Some(m)
  {
  }

  lemma MethodsReadOn(items: seq<J.Value>, first: Method, others: seq<Method>)
    requires items != [] && ReadMethod(items[0]) == Some(first) && ReadMethods(items[1..]) == Some(others)
    ensures ReadMethods(items) == Some([first] + others)
  {
  }

  lemma NamesOn(methods: seq<Method>)
    requires methods != []
    ensures var items := J.Strings(MethodNames(methods)).items;
      items[0] == J.String(methods[0].Name()) && items[1..] == J.Strings(MethodNames(methods[1..])).items
  {
  }

  lemma {:induction false} MethodsRead(methods: seq<Method>)
    ensures ReadMethods(J.Strings(MethodNames(methods)).items) == Some(methods)
  {
    if methods == [] {
      assert J.Strings(MethodNames(methods)).items == [];
    } else {
      NamesOn(methods);
      MethodRead(methods[0]);
      MethodsRead(methods[1..]);
      MethodsReadOn(J.Strings(MethodNames(methods)).items, methods[0], methods[1..]);
      assert methods == [methods[0]] + methods[1..];
    }
  }

  /** Whatever can be constructed decodes back unchanged. */
  lemma Decodes(a: Assurance)
    ensures Decode(Encode(a)) == Some(a)
  {
    var m := Encode(a).members;
    assert |"auth_time"| == 9 && |"acr"| == 3 && "acr"[1] == 'c' && "amr"[1] == 'm';
    assert m.Keys == KEYS;
    assert m["acr"] == J.String(a.acr.Name()) && m["amr"] == J.Strings(MethodNames(a.amr));
    MethodsRead(a.amr);
  }

  lemma {:induction false} MethodsOnlyNamed(items: seq<J.Value>)
    requires ReadMethods(items).Some?
    ensures J.Strings(MethodNames(ReadMethods(items).value)).items == items
  {
    var methods := ReadMethods(items).value;
    if items != [] {
      MethodsOnlyNamed(items[1..]);
      var others := ReadMethods(items[1..]).value;
      assert methods[1..] == others && items[0] == J.String(methods[0].Name());
      NamesOn(methods);
      assert items == [items[0]] + items[1..];
      assert J.Strings(MethodNames(methods)).items == [items[0]] + J.Strings(MethodNames(others)).items;
    }
  }

  /** Only stored forms decode, except that the time may be absent where it would be null. */
  lemma OnlyStoredFormsDecode(v: J.Value)
    requires Decode(v).Some?
    ensures var a := Decode(v).value;
      v == Encode(a) || (a.authTime.None? && v == J.Object(Encode(a).members - {"auth_time"}))
  {
    var a := Decode(v).value;
    MethodsOnlyNamed(v.members["amr"].items);
    assert v.members["acr"] == J.String(a.acr.Name());
    if "auth_time" in v.members {
      assert v.members == Encode(a).members;
    } else {
      assert v.members == Encode(a).members - {"auth_time"};
    }
  }
}
