/** Text as the source measures it: Unicode scalar values and their UTF-8 length. */
module Text {
  /** Unicode general category Cc. */
  predicate IsControl(c: char) {
    var n := c as int; n < 0x20 || 0x7f <= n < 0xa0
  }

  predicate Printable(s: string) {
    forall i :: 0 <= i < |s| ==> !IsControl(s[i])
  }

  function Utf8Width(c: char): (n: nat)
    ensures 1 <= n <= 4
  {
    var n := c as int;
    if n < 0x80 then 1 else if n < 0x800 then 2 else if n < 0x10000 then 3 else 4
  }

  function Utf8Length(s: string): nat {
    if s == "" then 0 else Utf8Width(s[0]) + Utf8Length(s[1..])
  }

  /** The bytes of one character in a JSON string. */
  function EscapedWidth(c: char): nat {
    if c == '"' || c == '\\' then 2
    else if c as int == 8 || c as int == 9 || c as int == 10 || c as int == 12 || c as int == 13 then 2
    else if c as int < 0x20 then 6
    else Utf8Width(c)
  }

  function JsonLength(s: string): nat {
    if s == "" then 0 else EscapedWidth(s[0]) + JsonLength(s[1..])
  }

  /** Unicode property White_Space. */
  predicate Whitespace(c: char) {
    var n := c as int;
    || 9 <= n <= 13 || n == 0x20 || n == 0x85 || n == 0xa0 || n == 0x1680 || 0x2000 <= n <= 0x200a
    || n == 0x2028 || n == 0x2029 || n == 0x202f || n == 0x205f || n == 0x3000
  }

  /** `trim` leaves the text as it is. */
  predicate Trimmed(s: string) {
    s != "" ==> !Whitespace(s[0]) && !Whitespace(s[|s| - 1])
  }

  /** The order of strings by code point, which for UTF-8 is the order by byte. */
  predicate Before(a: string, b: string) {
    if b == "" then false
    else if a == "" then true
    else if a[0] != b[0] then a[0] < b[0]
    else Before(a[1..], b[1..])
  }

  lemma {:induction false} BeforeOrders(a: string, b: string, c: string)
    ensures !(Before(a, b) && Before(b, a)) && !Before(a, a)
    ensures Before(a, b) || Before(b, a) || a == b
    ensures Before(a, b) && Before(b, c) ==> Before(a, c)
    decreases |a|
  {
    if a != "" {
      var rest := if b == "" then "" else b[1..];
      BeforeOrders(a[1..], rest, if c == "" then "" else c[1..]);
      if b != "" && a[0] == b[0] && a[1..] == b[1..] {
        assert a == [a[0]] + a[1..] && b == [b[0]] + b[1..];
      }
    }
  }

  /** One string is before another exactly when it is a proper prefix of it or smaller at their first difference. */
  lemma {:induction false} BeforeMeans(a: string, b: string)
    ensures Before(a, b) <==>
      exists i :: 0 <= i <= |a| && i < |b| && a[..i] == b[..i] && (i == |a| || a[i] < b[i])
    decreases |a|
  {
    if a == "" || b == "" || a[0] != b[0] {
      if Before(a, b) {
        assert a[..0] == b[..0];
      }
    } else {
      BeforeMeans(a[1..], b[1..]);
      if Before(a, b) {
        var i :|
          && 0 <= i <= |a[1..]| && i < |b[1..]| && a[1..][..i] == b[1..][..i]
          && (i == |a[1..]| || a[1..][i] < b[1..][i]);
        assert a[..i + 1] == [a[0]] + a[1..][..i] && b[..i + 1] == [b[0]] + b[1..][..i];
      }
      if i :| 0 <= i <= |a| && i < |b| && a[..i] == b[..i] && (i == |a| || a[i] < b[i]) {
        assert i > 0 && a[1..][..i - 1] == a[..i][1..] && b[1..][..i - 1] == b[..i][1..];
      }
    }
  }
}
