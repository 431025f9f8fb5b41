/** External subjects and the one string under which each is stored. */
module ExternalSubjects {
  import opened Common
  import opened Text

  /** One hexadecimal digit of a UUID. */
  type Nibble = n: int | 0 <= n < 16

  type Uuid = u: seq<Nibble> | |u| == 32
    witness [0, 0, 0, 0, 0, 0, 0, 0, 0, 0, 0, 0, 0, 0, 0, 0, 0, 0, 0, 0, 0, 0, 0, 0, 0, 0, 0, 0, 0, 0, 0, 0]

  const NIL: Uuid := [0, 0, 0, 0, 0, 0, 0, 0, 0, 0, 0, 0, 0, 0, 0, 0, 0, 0, 0, 0, 0, 0, 0, 0, 0, 0, 0, 0, 0, 0, 0, 0]

  datatype SubjectMapping = OidcMapping | EntraMapping(tenant: Uuid)

  datatype ExternalSubject =
    | OidcSubject(subject: string)
    | EntraSubject(tenant: Uuid, user: Uuid)
  {
    predicate Valid() {
      match this
      case OidcSubject(v) => v != "" && Utf8Length(v) <= 255 && Printable(v)
      case EntraSubject(tenant, user) => tenant != NIL && user != NIL
    }

    predicate Matches(mapping: SubjectMapping) {
      || (OidcSubject? && mapping.OidcMapping?)
      || (EntraSubject? && mapping.EntraMapping? && tenant == mapping.tenant)
    }
  }

  /** A subject of one to 255 bytes without control characters, or a user of a tenant, neither of them nil. */
  lemma ValidExactly(s: ExternalSubject)
    ensures s.Valid() <==>
      if s.OidcSubject? then
        0 < Utf8Length(s.subject) <= 255 && forall i :: 0 <= i < |s.subject| ==> !IsControl(s.subject[i])
      else
        (exists i :: 0 <= i < 32 && s.tenant[i] != 0) && (exists i :: 0 <= i < 32 && s.user[i] != 0)
  {
    if s.EntraSubject? {
      NilExactly(s.tenant);
      NilExactly(s.user);
    }
  }

  /** A subject fits a mapping of its own kind, a user only that of their tenant. */
  lemma MatchesExactly(s: ExternalSubject, m: SubjectMapping)
    ensures s.Matches(m) <==>
      (s.OidcSubject? <==> m.OidcMapping?) && (s.EntraSubject? && m.EntraMapping? ==> s.tenant == m.tenant)
  {
  }

  lemma NilExactly(u: Uuid)
    ensures u != NIL <==> exists i :: 0 <= i < 32 && u[i] != 0
  {
    assert forall i :: 0 <= i < 32 ==> NIL[i] == 0;
  }

  const HEX: string := "0123456789abcdef"

  /** Lower-case hexadecimal, eight-four-four-four-twelve. */
  function Hyphenated(u: Uuid): string {
    Digits(u[..8]) + "-" + Digits(u[8..12]) + "-" + Digits(u[12..16]) + "-" + Digits(u[16..20]) + "-" + Digits(u[20..])
  }

  function Digits(u: seq<Nibble>): (s: string)
    ensures |s| == |u|
    ensures forall i :: 0 <= i < |u| ==> s[i] == HEX[u[i]]
  {
    seq(|u|, i requires 0 <= i < |u| => HEX[u[i]])
  }

  function StorageKey(s: ExternalSubject): string {
    match s
    case OidcSubject(v) => "oidc:" + v
    case EntraSubject(tenant, user) => "entra:" + Hyphenated(tenant) + ":" + Hyphenated(user)
  }

  lemma DigitsInjective(u: seq<Nibble>, v: seq<Nibble>)
    requires |u| == |v|
    requires Digits(u) == Digits(v)
    ensures u == v
  {
    forall i | 0 <= i < |u| ensures u[i] == v[i] {
      assert Digits(u)[i] == Digits(v)[i];
    }
  }

  lemma HyphenatedInjective(u: Uuid, v: Uuid)
    requires Hyphenated(u) == Hyphenated(v)
    ensures u == v
  {
    var s, t := Hyphenated(u), Hyphenated(v);
    assert Digits(u[..8]) == s[..8] == t[..8] == Digits(v[..8]);
    assert Digits(u[8..12]) == s[9..13] == t[9..13] == Digits(v[8..12]);
    assert Digits(u[12..16]) == s[14..18] == t[14..18] == Digits(v[12..16]);
    assert Digits(u[16..20]) == s[19..23] == t[19..23] == Digits(v[16..20]);
    assert Digits(u[20..]) == s[24..] == t[24..] == Digits(v[20..]);
    DigitsInjective(u[..8], v[..8]);
    DigitsInjective(u[8..12], v[8..12]);
    DigitsInjective(u[12..16], v[12..16]);
    DigitsInjective(u[16..20], v[16..20]);
    DigitsInjective(u[20..], v[20..]);
    assert forall w: Uuid :: w == w[..8] + w[8..12] + w[12..16] + w[16..20] + w[20..];
  }

  /** No two subjects, of the same kind or of different kinds, share a storage key. */
  lemma StorageKeyInjective(a: ExternalSubject, b: ExternalSubject)
    requires StorageKey(a) == StorageKey(b)
    ensures a == b
  {
    var s, t := StorageKey(a), StorageKey(b);
    assert a.OidcSubject? == (s[0] == 'o');
    assert b.OidcSubject? == (t[0] == 'o');
    if a.OidcSubject? {
      assert a.subject == s[5..] == t[5..] == b.subject;
    } else {
      assert Hyphenated(a.tenant) == s[6..42] == t[6..42] == Hyphenated(b.tenant);
      assert Hyphenated(a.user) == s[43..] == t[43..] == Hyphenated(b.user);
      HyphenatedInjective(a.tenant, b.tenant);
      HyphenatedInjective(a.user, b.user);
    }
  }
}
