/**
  Bounded profile values: the recursive check with its running member count, against what it is meant to measure, and
  the limits a deployment may tighten.
*/
module Profile {
  import opened Common
  import opened Text
  import J = Json

  datatype Limits = Limits(bytes: nat, members: nat, depth: nat, length: nat, maxAge: nat)

  const DEFAULT: Limits := Limits(65_536, 256, 8, 128, 86_400)

  const MAX_SAFE_INTEGER: int := 9_007_199_254_740_991

  // The rules of keys and scalars

  function LowerAscii(c: char): char {
    if 'A' <= c <= 'Z' then (c as int + 32) as char else c
  }

  /** Lower case, with underscores for dashes. */
  function Normalized(key: string): (r: string)
    ensures |r| == |key|
  {
    if key == "" then ""
    else [if key[0] == '-' then '_' else LowerAscii(key[0])] + Normalized(key[1..])
  }

  const FORBIDDEN: seq<string> :=
    ["password", "access_token", "refresh_token", "id_token", "client_secret", "totp_seed", "private_key", "recovery_codes"]

  predicate GoodKey(key: string) {
    Printable(key) && Normalized(key) !in FORBIDDEN
  }

  predicate GoodNumber(n: real) {
    n == n.Floor as real ==> -MAX_SAFE_INTEGER <= n.Floor <= MAX_SAFE_INTEGER
  }

  /** Two spellings of one key: upper case for lower case, dashes for underscores. */
  predicate SpelledAlike(key: string, name: string) {
    |key| == |name| && forall i :: 0 <= i < |key| ==>
      || key[i] == name[i]
      || (key[i] == '-' && name[i] == '_')
      || (65 <= key[i] as int <= 90 && key[i] as int + 32 == name[i] as int)
  }

  lemma {:induction false} NormalizedAt(key: string, i: nat)
    requires i < |key|
    ensures Normalized(key)[i] == if key[i] == '-' then '_' else LowerAscii(key[i])
  {
    if i > 0 {
      NormalizedAt(key[1..], i - 1);
    }
  }

  /** No name of a secret has a capital letter or a dash. */
  predicate Plain(name: string) {
    forall i :: 0 <= i < |name| ==> 'a' <= name[i] <= 'z' || name[i] == '_'
  }

  lemma NormalizedExactly(key: string, name: string)
    requires Plain(name)
    ensures Normalized(key) == name <==> SpelledAlike(key, name)
  {
    forall i | 0 <= i < |key|
      ensures Normalized(key)[i] == if key[i] == '-' then '_' else LowerAscii(key[i])
    {
      NormalizedAt(key, i);
    }
  }

  /** A key is refused exactly for a control character, or as some spelling of the name of a secret. */
  lemma GoodKeysExactly(key: string)
    ensures GoodKey(key) <==>
      && (forall i :: 0 <= i < |key| ==> !IsControl(key[i]))
      && !SpelledAlike(key, "password") && !SpelledAlike(key, "access_token") && !SpelledAlike(key, "refresh_token")
      && !SpelledAlike(key, "id_token") && !SpelledAlike(key, "client_secret") && !SpelledAlike(key, "totp_seed")
      && !SpelledAlike(key, "private_key") && !SpelledAlike(key, "recovery_codes")
  {
    NormalizedExactly(key, "password");
    NormalizedExactly(key, "access_token");
    NormalizedExactly(key, "refresh_token");
    NormalizedExactly(key, "id_token");
    NormalizedExactly(key, "client_secret");
    NormalizedExactly(key, "totp_seed");
    NormalizedExactly(key, "private_key");
    NormalizedExactly(key, "recovery_codes");
  }

  /** A number is refused exactly when it is whole and farther from zero than 9,007,199,254,740,991. */
  lemma GoodNumbersExactly(n: real)
    ensures !GoodNumber(n) <==>
      n == n.Floor as real && (n < -9_007_199_254_740_991.0 || n > 9_007_199_254_740_991.0)
  {
  }

  // A number is judged as a floating-point number

  const TWO_52: nat := 4_503_599_627_370_496

  /** The distance of neighbouring doubles at a whole number. */
  function Spacing(m: nat): (u: nat)
    ensures u >= 1
    ensures m < 9_007_199_254_740_992 ==> u == 1
    ensures m >= 9_007_199_254_740_992 ==> u % 2 == 0 && u * 4_503_599_627_370_496 <= m < u * 9_007_199_254_740_992
  {
    if m < 2 * TWO_52 then 1 else 2 * Spacing(m / 2)
  }

  /** The nearest multiple, the even one of two. */
  function Nearest(m: nat, u: nat): int
    requires u >= 1
  {
    var q, r := m / u, m % u;
    if 2 * r < u || (2 * r == u && q % 2 == 0) then q * u else (q + 1) * u
  }

  function WholeAsDouble(n: int): int {
    if n >= 0 then Nearest(n, Spacing(n)) else -Nearest(-n, Spacing(-n))
  }

  /** The double of a number: a fraction was parsed to one, a whole number of 64 bits is rounded to one. */
  function AsDouble(n: real): real {
    if n == n.Floor as real then WholeAsDouble(n.Floor) as real else n
  }

  lemma {:induction false} TimesMore(a: int, b: int, u: nat)
    requires a < b
    ensures a * u + u <= b * u
    decreases b - a
  {
    assert (a + 1) * u == a * u + u;
    if a + 1 < b {
      TimesMore(a + 1, b, u);
    }
  }

  lemma MultipleAbove(m: nat, u: nat, q: nat)
    requires u >= 2 && TWO_52 * u <= m && q == m / u
    ensures q * u >= 2 * TWO_52
  {
    assert q * u + m % u == m && m % u < u;
    if q < TWO_52 {
      TimesMore(q, TWO_52, u);
    } else if q > TWO_52 {
      TimesMore(TWO_52, q, u);
    }
  }

  /** No multiple is nearer, and of two equally near ones it is the even one. */
  lemma NearestExactly(m: nat, u: nat) returns (q: int)
    requires u >= 1
    ensures Nearest(m, u) == q * u
    ensures 2 * m - u <= 2 * (q * u) <= 2 * m + u
    ensures 2 * (q * u) == 2 * m - u || 2 * (q * u) == 2 * m + u ==> q % 2 == 0
  {
    q := m / u;
    var r := m % u;
    assert m == q * u + r && (q + 1) * u == q * u + u;
    if !(2 * r < u || (2 * r == u && q % 2 == 0)) {
      q := q + 1;
    }
  }

  lemma NearestJudged(m: nat)
    ensures Nearest(m, Spacing(m)) <= MAX_SAFE_INTEGER <==> m <= MAX_SAFE_INTEGER
  {
    var u := Spacing(m);
    if m >= 2 * TWO_52 {
      MultipleAbove(m, u, m / u);
      TimesMore(m / u, m / u + 1, u);
    }
  }

  /** Rounding a number to a double never changes how it is judged. */
  lemma RoundingJudgesAlike(n: real)
    ensures GoodNumber(AsDouble(n)) <==> GoodNumber(n)
  {
    if n == n.Floor as real {
      NearestJudged(if n.Floor >= 0 then n.Floor else -n.Floor);
      assert AsDouble(n).Floor == WholeAsDouble(n.Floor);
    }
  }

  // What is measured

  /** Containers, objects and arrays alike, are nested at most `depth` deep. */
  ghost predicate NestedAtMost(v: J.Value, depth: int)
    decreases v
  {
    match v
    case Object(members) => depth >= 1 && forall k :: k in members ==> NestedAtMost(members[k], depth - 1)
    case Array(items) => depth >= 1 && forall i :: 0 <= i < |items| ==> NestedAtMost(items[i], depth - 1)
    case _ => true
  }

  ghost predicate ArraysAtMost(v: J.Value, length: nat)
    decreases v
  {
    match v
    case Object(members) => forall k :: k in members ==> ArraysAtMost(members[k], length)
    case Array(items) => |items| <= length && forall i :: 0 <= i < |items| ==> ArraysAtMost(items[i], length)
    case _ => true
  }

  /** Every key at every level, every string and every number keeps its rule. */
  ghost predicate GoodContents(v: J.Value)
    decreases v
  {
    match v
    case Object(members) => forall k :: k in members ==> GoodKey(k) && GoodContents(members[k])
    case Array(items) => forall i :: 0 <= i < |items| ==> GoodContents(items[i])
    case String(text) => '\0' !in text
    case Number(n) => GoodNumber(n)
    case _ => true
  }

  /** The members of all objects at every level. */
  ghost function Members(v: J.Value): nat
    decreases v, 0
  {
    match v
    case Object(members) => |members.Keys| + MembersUnder(v, members.Keys)
    case Array(items) => MembersIn(v, |items|)
    case _ => 0
  }

  /** The members below these keys. */
  ghost function MembersUnder(v: J.Value, keys: set<string>): nat
    requires v.Object? && keys <= v.members.Keys
    decreases v, 0, |keys|
  {
    if keys == {} then 0
    else
      var k :| k in keys;
      Members(v.members[k]) + MembersUnder(v, keys - {k})
  }

  /** The members in the first items of an array. */
  ghost function MembersIn(v: J.Value, n: nat): nat
    requires v.Array? && n <= |v.items|
    decreases v, 0, n
  {
    if n == 0 then 0 else MembersIn(v, n - 1) + Members(v.items[n - 1])
  }

  /** The sum does not depend on the order of the keys. */
  lemma {:induction false} MembersUnderAny(v: J.Value, keys: set<string>, key: string)
    requires v.Object? && keys <= v.members.Keys && key in keys
    ensures MembersUnder(v, keys) == Members(v.members[key]) + MembersUnder(v, keys - {key})
    decreases |keys|
  {
    var k :| k in keys && MembersUnder(v, keys) == Members(v.members[k]) + MembersUnder(v, keys - {k});
    if k != key {
      MembersUnderAny(v, keys - {k}, key);
      MembersUnderAny(v, keys - {key}, k);
      assert keys - {k} - {key} == keys - {key} - {k};
    }
  }

  lemma {:induction false} MembersUnderGrows(v: J.Value, some: set<string>, all: set<string>)
    requires v.Object? && some <= all <= v.members.Keys
    ensures MembersUnder(v, some) <= MembersUnder(v, all)
    decreases |all - some|
  {
    if some != all {
      var k :| k in all && k !in some;
      MembersUnderAny(v, some + {k}, k);
      assert some + {k} - {k} == some;
      assert all - (some + {k}) == (all - some) - {k};
      MembersUnderGrows(v, some + {k}, all);
    }
  }

  lemma {:induction false} MembersInGrows(v: J.Value, n: nat, m: nat)
    requires v.Array? && n <= m <= |v.items|
    ensures MembersIn(v, n) <= MembersIn(v, m)
    decreases m - n
  {
    if n < m {
      MembersInGrows(v, n, m - 1);
    }
  }

  /** A value fits below `depth` containers, with `used` members counted before it. */
  ghost predicate Fits(v: J.Value, depth: nat, used: nat, limits: Limits) {
    && NestedAtMost(v, limits.depth - depth)
    && used + Members(v) <= limits.members
    && ArraysAtMost(v, limits.length)
    && GoodContents(v)
  }

  // The check

  /** The object is at this depth itself. The out-parameter is the running count, meaningful when the check passes. */
  method CheckObject(v: J.Value, depth: nat, used: nat, limits: Limits) returns (ok: bool, members: nat)
    requires v.Object? && depth >= 1 && used <= limits.members
    ensures ok <==> Fits(v, depth - 1, used, limits)
    ensures ok ==> members == used + Members(v)
    decreases v, 0
  {
    members := used;
    if depth > limits.depth { return false, members; }
    members := members + |v.members.Keys|;
    if members > limits.members { return false, members; }
    var rest := v.members.Keys;
    ghost var done: set<string> := {};
    while rest != {}
      invariant rest <= v.members.Keys && done == v.members.Keys - rest
      invariant Progress(v, done, depth, used, limits, members)
      decreases |rest|
    {
      var key :| key in rest;
      if !GoodKey(key) {
        BadKeyFails(v, key, depth, used, limits);
        return false, members;
      }
      ghost var before := members;
      ok, members := CheckValue(v.members[key], depth, members, limits);
      if !ok {
        KeyFails(v, done, key, depth, used, limits, before);
        return false, members;
      }
      KeyPasses(v, done, key, depth, used, limits, before, members);
      rest := rest - {key};
      done := done + {key};
    }
    assert done == v.members.Keys;
    AllPass(v, depth, used, limits, members);
    ok := true;
  }

  lemma BadKeyFails(v: J.Value, key: string, depth: nat, used: nat, limits: Limits)
    requires v.Object? && key in v.members && !GoodKey(key) && depth >= 1
    ensures !Fits(v, depth - 1, used, limits)
  {
  }

  lemma AllPass(v: J.Value, depth: nat, used: nat, limits: Limits, members: nat)
    requires v.Object? && 1 <= depth <= limits.depth && Progress(v, v.members.Keys, depth, used, limits, members)
    ensures Fits(v, depth - 1, used, limits) && members == used + Members(v)
  {
    forall k | k in v.members
      ensures NestedAtMost(v.members[k], limits.depth - depth) && ArraysAtMost(v.members[k], limits.length)
      ensures GoodKey(k) && GoodContents(v.members[k])
    {
      assert KeyFits(v, k, depth, limits);
    }
  }

  /** After the turns of the keys in `done`. */
  ghost predicate Progress(v: J.Value, done: set<string>, depth: nat, used: nat, limits: Limits, members: nat)
    requires v.Object? && done <= v.members.Keys
  {
    && members == used + |v.members.Keys| + MembersUnder(v, done) <= limits.members
    && (forall k :: k in done ==> KeyFits(v, k, depth, limits))
  }

  lemma KeyPasses(
    v: J.Value, done: set<string>, key: string, depth: nat, used: nat, limits: Limits, before: nat, after: nat)
    requires v.Object? && done <= v.members.Keys && key in v.members && key !in done
    requires Progress(v, done, depth, used, limits, before) && GoodKey(key)
    requires Fits(v.members[key], depth, before, limits) && after == before + Members(v.members[key])
    ensures Progress(v, done + {key}, depth, used, limits, after)
  {
    MembersUnderAny(v, done + {key}, key);
    assert done + {key} - {key} == done;
  }

  lemma KeyFails(v: J.Value, done: set<string>, key: string, depth: nat, used: nat, limits: Limits, before: nat)
    requires v.Object? && done <= v.members.Keys && key in v.members && key !in done && depth >= 1
    requires Progress(v, done, depth, used, limits, before) && !Fits(v.members[key], depth, before, limits)
    ensures !Fits(v, depth - 1, used, limits)
  {
    MembersUnderAny(v, done + {key}, key);
    assert done + {key} - {key} == done;
    MembersUnderGrows(v, done + {key}, v.members.Keys);
  }

  ghost predicate KeyFits(v: J.Value, key: string, depth: nat, limits: Limits)
    requires v.Object? && key in v.members
  {
    && GoodKey(key) && NestedAtMost(v.members[key], limits.depth - depth)
    && ArraysAtMost(v.members[key], limits.length) && GoodContents(v.members[key])
  }

  /** The value lies inside a container at this depth. */
  method CheckValue(v: J.Value, depth: nat, used: nat, limits: Limits) returns (ok: bool, members: nat)
    requires used <= limits.members
    ensures ok <==> Fits(v, depth, used, limits)
    ensures ok ==> members == used + Members(v)
    decreases v, 1
  {
    members := used;
    match v
    case Object(_) =>
      ok, members := CheckObject(v, depth + 1, used, limits);
    case Array(items) =>
      if depth >= limits.depth || |items| > limits.length { return false, members; }
      for i := 0 to |items|
        invariant members == used + MembersIn(v, i) <= limits.members
        invariant forall j :: 0 <= j < i ==>
          NestedAtMost(items[j], limits.depth - depth - 1) && ArraysAtMost(items[j], limits.length) && GoodContents(items[j])
      {
        MembersInGrows(v, i + 1, |items|);
        ok, members := CheckValue(items[i], depth + 1, members, limits);
        if !ok { return false, members; }
      }
      ok := true;
    case String(text) => ok := '\0' !in text;
    case Number(n) =>
      RoundingJudgesAlike(n);
      ok := GoodNumber(AsDouble(n));
    case _ => ok := true;
  }

  // Extensions

  /** An object within the limits, whose serialized form is within them too. */
  ghost predicate Accepted(v: J.Value, limits: Limits, size: J.Value -> nat) {
    v.Object? && Fits(v, 0, 0, limits) && size(v) <= limits.bytes
  }

  lemma {:induction false} NestedMore(v: J.Value, a: int, b: int)
    requires NestedAtMost(v, a) && a <= b
    ensures NestedAtMost(v, b)
    decreases v
  {
    match v
    case Object(members) =>
      forall k | k in members ensures NestedAtMost(members[k], b - 1) {
        NestedMore(members[k], a - 1, b - 1);
      }
    case Array(items) =>
      forall i | 0 <= i < |items| ensures NestedAtMost(items[i], b - 1) {
        NestedMore(items[i], a - 1, b - 1);
      }
    case _ =>
  }

  lemma {:induction false} ArraysMore(v: J.Value, a: nat, b: nat)
    requires ArraysAtMost(v, a) && a <= b
    ensures ArraysAtMost(v, b)
    decreases v
  {
    match v
    case Object(members) =>
      forall k | k in members ensures ArraysAtMost(members[k], b) {
        ArraysMore(members[k], a, b);
      }
    case Array(items) =>
      forall i | 0 <= i < |items| ensures ArraysAtMost(items[i], b) {
        ArraysMore(items[i], a, b);
      }
    case _ =>
  }

  /** Tighter limits accept a subset. */
  lemma TighterAcceptsLess(v: J.Value, tight: Limits, loose: Limits, size: J.Value -> nat)
    requires tight.bytes <= loose.bytes && tight.members <= loose.members
    requires tight.depth <= loose.depth && tight.length <= loose.length
    requires Accepted(v, tight, size)
    ensures Accepted(v, loose, size)
  {
    NestedMore(v, tight.depth, loose.depth);
    ArraysMore(v, tight.length, loose.length);
  }

  method NewExtensions(v: J.Value, size: J.Value -> nat) returns (r: Option<J.Value>)
    ensures r.Some? <==> Accepted(v, Limits(65_536, 256, 8, 128, 86_400), size)
    ensures r.Some? ==> r.value == v
  {
    if !v.Object? { return None; }
    var ok, members := CheckObject(v, 1, 0, DEFAULT);
    if !ok || size(v) > DEFAULT.bytes { return None; }
    r := Some(v);
  }

  // Profiles

  datatype Attribute<T> = NotConfigured | Missing | Invalid | Available(value: T)

  /** What a deployment's limits leave of an extension value: all of it, or nothing. */
  ghost function Limited(e: Attribute<J.Value>, limits: Limits, size: J.Value -> nat): Attribute<J.Value> {
    if e.Available? && !Accepted(e.value, limits, size) then Invalid else e
  }

  class ProfileRecord {
    var displayName: Attribute<string>
    var username: Attribute<string>
    var email: Attribute<string>
    var emailVerified: Attribute<bool>
    var extensions: Attribute<J.Value>

    constructor (
      displayName: Attribute<string>, username: Attribute<string>, email: Attribute<string>,
      emailVerified: Attribute<bool>, extensions: Attribute<J.Value>)
      ensures this.displayName == displayName && this.username == username && this.email == email
      ensures this.emailVerified == emailVerified && this.extensions == extensions
    {
      this.displayName, this.username, this.email := displayName, username, email;
      this.emailVerified, this.extensions := emailVerified, extensions;
    }

    /** Extension values are always objects, as `NewExtensions` makes them. */
    predicate Valid()
      reads this
    {
      extensions.Available? ==> extensions.value.Object?
    }

    /** Withholds extensions outside the limits; touches no other field. */
    method ApplyLimits(limits: Limits, size: J.Value -> nat)
      requires Valid()
      modifies this`extensions
      ensures Valid() && extensions == Limited(old(extensions), limits, size)
    {
      if extensions.Available? {
        var ok, members := CheckObject(extensions.value, 1, 0, limits);
        if !ok || size(extensions.value) > limits.bytes {
          extensions := Invalid;
        }
      }
    }
  }

  /** Applying limits twice is applying them once, and looser ones change nothing after tighter ones. */
  lemma LimitsAreIdempotent(e: Attribute<J.Value>, tight: Limits, loose: Limits, size: J.Value -> nat)
    requires tight.bytes <= loose.bytes && tight.members <= loose.members
    requires tight.depth <= loose.depth && tight.length <= loose.length
    ensures Limited(Limited(e, tight, size), tight, size) == Limited(e, tight, size)
    ensures Limited(Limited(e, tight, size), loose, size) == Limited(e, tight, size)
    ensures Limited(Limited(e, loose, size), tight, size) == Limited(e, tight, size)
  {
    if e.Available? && Accepted(e.value, tight, size) {
      TighterAcceptsLess(e.value, tight, loose, size);
    }
  }
}
