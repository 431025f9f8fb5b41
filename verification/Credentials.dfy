/**
  Provider credentials under an ideal authenticated cipher (section 2 of RFC 5116): a ciphertext opens only under the
  key, nonce and associated data it was sealed with. Keys are known by their 32 raw bytes, here a number.
*/
module Credentials {
  import opened Common
  import opened Text
  import opened Ordering

  const RAW_ZERO: Id := 0
  const KEY_LIMIT: nat := 8
  const ROW_LIMIT: nat := 100
  const CIPHERTEXT_BYTES: nat := 32768
  const TAG_BYTES: nat := 16
  const STORED_TEXT_BYTES: nat := 131_072

  datatype Error = Configuration | Unavailable | InvalidInput | Migration

  datatype Secret = Secret(secret: string, ca: Option<string>)
  {
    predicate Valid() {
      && 1 <= Utf8Length(secret) <= 4096 && '\0' !in secret
      && (ca.Some? ==> 1 <= Utf8Length(ca.value) <= 16384)
    }
  }

  /** What a ciphertext is bound to besides its purpose. */
  datatype Context = Context(authority: Id, tenant: Id, provider: Id, version: I64)

  datatype Ciphertext = Boxed(key: Id, nonce: Id, context: Context, plain: Secret) | Junk(bytes: nat)
  {
    function Length(): nat {
      if Boxed? then EncodedLength(plain) + TAG_BYTES else bytes
    }
  }

  datatype Sealed = Sealed(version: int, keyId: string, nonce: Id, ciphertext: Ciphertext)

  /** A stored value, which may not even have the shape of a sealed one. */
  datatype Stored = Malformed | Parsed(sealed: Sealed)

  /** The bytes of `{"secret":"…","ca":…}`. */
  function EncodedLength(s: Secret): nat {
    10 + 2 + JsonLength(s.secret) + 6 + (if s.ca.None? then 4 else 2 + JsonLength(s.ca.value)) + 1
  }

  // Keyrings

  datatype Keyring = Keyring(active: string, keys: map<string, Id>)
  {
    ghost predicate Valid() {
      active in keys && forall a, b :: a in keys && b in keys && keys[a] == keys[b] ==> a == b
    }
  }

  predicate ValidKeyId(id: string) {
    1 <= |id| <= 64 && forall c :: c in id ==> '0' <= c <= '9' || 'a' <= c <= 'z' || 'A' <= c <= 'Z' || c == '-' || c == '_'
  }

  /** Letters, digits, dashes and underscores of ASCII. */
  lemma KeyNamesExactly(id: string)
    ensures ValidKeyId(id) <==> 1 <= |id| <= 64 && forall i :: 0 <= i < |id| ==>
      var n := id[i] as int; 48 <= n <= 57 || 65 <= n <= 90 || 97 <= n <= 122 || n == 45 || n == 95
  {
    if forall i :: 0 <= i < |id| ==>
      var n := id[i] as int; 48 <= n <= 57 || 65 <= n <= 90 || 97 <= n <= 122 || n == 45 || n == 95
    {
      forall c | c in id ensures '0' <= c <= '9' || 'a' <= c <= 'z' || 'A' <= c <= 'Z' || c == '-' || c == '_' {
        var i :| 0 <= i < |id| && id[i] == c;
      }
    }
    if ValidKeyId(id) {
      forall i | 0 <= i < |id|
        ensures var n := id[i] as int; 48 <= n <= 57 || 65 <= n <= 90 || 97 <= n <= 122 || n == 45 || n == 95
      {
        assert id[i] in id;
      }
    }
  }

  /** Between one and eight keys with distinct names and distinct non-zero material, the active one among them. */
  ghost predicate GoodKeys(active: string, keys: seq<(string, Id)>) {
    && 1 <= |keys| <= 8
    && (forall i :: 0 <= i < |keys| ==> ValidKeyId(keys[i].0) && keys[i].1 != RAW_ZERO)
    && (forall i, j :: 0 <= i < j < |keys| ==> keys[i].0 != keys[j].0 && keys[i].1 != keys[j].1)
    && (exists i :: 0 <= i < |keys| && keys[i].0 == active)
  }

  /** The keyring holds these keys and no others. */
  ghost predicate Holds(keyring: Keyring, keys: seq<(string, Id)>) {
    && (forall i :: 0 <= i < |keys| ==> keys[i].0 in keyring.keys && keyring.keys[keys[i].0] == keys[i].1)
    && (forall id :: id in keyring.keys ==> exists i :: 0 <= i < |keys| && keys[i].0 == id)
  }

  method NewKeyring(active: string, keys: seq<(string, Id)>) returns (r: Result<Keyring, Error>)
    ensures r.Ok? <==> GoodKeys(active, keys)
    ensures r.Ok? ==> r.value.active == active && Holds(r.value, keys) && r.value.Valid()
  {
    if |keys| == 0 || |keys| > KEY_LIMIT { return Err(Configuration); }
    var values: map<string, Id> := map[];
    var digests: set<Id> := {};
    for i := 0 to |keys|
      invariant Taken(active, keys[..i], values, digests)
    {
      var (id, raw) := keys[i];
      assert keys[..i + 1] == keys[..i] + [keys[i]];
      if !ValidKeyId(id) || raw == RAW_ZERO || raw in digests || id in values {
        Refused(active, keys, i, values, digests);
        return Err(Configuration);
      }
      TakenNext(active, keys[..i], values, digests, keys[i]);
      digests := digests + {raw};
      values := values[id := raw];
    }
    assert keys[..|keys|] == keys;
    if active !in values { return Err(Configuration); }
    r := Ok(Keyring(active, values));
  }

  /** The maps after some keys were taken in. */
  ghost predicate Taken(active: string, keys: seq<(string, Id)>, values: map<string, Id>, digests: set<Id>) {
    && Holds(Keyring(active, values), keys)
    && (forall raw :: raw in digests <==> exists i :: 0 <= i < |keys| && keys[i].1 == raw)
    && (forall i :: 0 <= i < |keys| ==> ValidKeyId(keys[i].0) && keys[i].1 != RAW_ZERO)
    && (forall i, j :: 0 <= i < j < |keys| ==> keys[i].0 != keys[j].0 && keys[i].1 != keys[j].1)
  }

  lemma TakenNext(active: string, keys: seq<(string, Id)>, values: map<string, Id>, digests: set<Id>, next: (string, Id))
    requires Taken(active, keys, values, digests)
    requires ValidKeyId(next.0) && next.1 != RAW_ZERO && next.1 !in digests && next.0 !in values
    ensures Taken(active, keys + [next], values[next.0 := next.1], digests + {next.1})
  {
    var all, more := keys + [next], values[next.0 := next.1];
    assert all[|keys|] == next;
    forall id | id in more ensures exists i :: 0 <= i < |all| && all[i].0 == id {
      if id != next.0 {
        var i :| 0 <= i < |keys| && keys[i].0 == id;
        assert all[i].0 == id;
      }
    }
    forall raw ensures raw in digests + {next.1} <==> exists i :: 0 <= i < |all| && all[i].1 == raw {
      if raw in digests {
        var i :| 0 <= i < |keys| && keys[i].1 == raw;
        assert all[i].1 == raw;
      }
    }
  }

  lemma Refused(active: string, keys: seq<(string, Id)>, i: nat, values: map<string, Id>, digests: set<Id>)
    requires i < |keys| && Taken(active, keys[..i], values, digests)
    requires !ValidKeyId(keys[i].0) || keys[i].1 == RAW_ZERO || keys[i].1 in digests || keys[i].0 in values
    ensures !GoodKeys(active, keys)
  {
    if keys[i].1 in digests {
      var j :| 0 <= j < i && keys[..i][j].1 == keys[i].1;
      assert keys[j].1 == keys[i].1;
    }
    if keys[i].0 in values {
      var j :| 0 <= j < i && keys[..i][j].0 == keys[i].0;
      assert keys[j].0 == keys[i].0;
    }
  }

  // Sealing and opening

  /** The ideal cipher: what the box was sealed with, or nothing. */
  function Unbox(key: Id, nonce: Id, context: Context, c: Ciphertext): Option<Secret> {
    if c.Boxed? && c.key == key && c.nonce == nonce && c.context == context then Some(c.plain) else None
  }

  function Seal(keyring: Keyring, context: Context, plain: Secret, nonce: Id): Result<Sealed, Error>
    requires keyring.active in keyring.keys
  {
    if context.version < 1 then Err(InvalidInput)
    else Ok(Sealed(1, keyring.active, nonce, Boxed(keyring.keys[keyring.active], nonce, context, plain)))
  }

  function Open(keyring: Keyring, context: Context, value: Sealed): Result<Secret, Error> {
    if value.version != 1 || value.ciphertext.Length() > CIPHERTEXT_BYTES then Err(Unavailable)
    else if context.version < 1 then Err(InvalidInput)
    else if value.keyId !in keyring.keys then Err(Unavailable)
    else
      var plain := Unbox(keyring.keys[value.keyId], value.nonce, context, value.ciphertext);
      if plain.None? || !plain.value.Valid() then Err(Unavailable) else Ok(plain.value)
  }

  /** What was sealed opens again exactly when its encoding fits the length the opening allows. */
  lemma SealOpens(keyring: Keyring, context: Context, plain: Secret, nonce: Id)
    requires keyring.active in keyring.keys && plain.Valid() && context.version >= 1
    ensures Seal(keyring, context, plain, nonce).Ok?
    ensures Open(keyring, context, Seal(keyring, context, plain, nonce).value) == Ok(plain)
      <==> EncodedLength(plain) + 16 <= 32_768
  {
  }

  /** A value that opens as `plain`: sealed with the named key for this context, a valid credential, and not too long. */
  predicate OpensAs(keyring: Keyring, context: Context, value: Sealed, plain: Secret) {
    && value.version == 1 && context.version >= 1 && value.keyId in keyring.keys
    && value.ciphertext == Boxed(keyring.keys[value.keyId], value.nonce, context, plain)
    && 1 <= Utf8Length(plain.secret) <= 4096 && (forall c :: c in plain.secret ==> c != '\0')
    && (plain.ca.Some? ==> 1 <= Utf8Length(plain.ca.value) <= 16_384)
    && 35 + JsonLength(plain.secret) + (if plain.ca.Some? then 2 + JsonLength(plain.ca.value) else 4) <= 32_768
  }

  lemma OpensExactly(keyring: Keyring, context: Context, value: Sealed, plain: Secret)
    ensures Open(keyring, context, value) == Ok(plain) <==> OpensAs(keyring, context, value, plain)
    ensures Open(keyring, context, value) == Err(InvalidInput) <==>
      value.version == 1 && value.ciphertext.Length() <= 32_768 && context.version < 1
    ensures Open(keyring, context, value).Ok? || Open(keyring, context, value).error in {Unavailable, InvalidInput}
  {
  }

  function Quotes(n: nat): string {
    if n == 0 then "" else ['"'] + Quotes(n - 1)
  }

  lemma {:induction false} QuotesLength(n: nat)
    ensures Utf8Length(Quotes(n)) == n && JsonLength(Quotes(n)) == 2 * n
  {
    if n > 0 {
      QuotesLength(n - 1);
      assert Quotes(n)[1..] == Quotes(n - 1);
    }
  }

  const LONGEST_CA: nat := 16384

  lemma LongCa(n: nat)
    requires n == LONGEST_CA
    ensures Secret("s", Some(Quotes(n))).Valid() && EncodedLength(Secret("s", Some(Quotes(n)))) > CIPHERTEXT_BYTES
  {
    QuotesLength(n);
    assert "s"[1..] == "";
    assert JsonLength("s") == 1 && Utf8Length("s") == 1;
  }

  /** A valid credential whose escaped form is too long: it can be sealed but never opened. */
  lemma SealCanOutgrowOpen(keyring: Keyring, context: Context, nonce: Id) returns (plain: Secret)
    requires keyring.active in keyring.keys && context.version >= 1
    ensures plain.Valid() && Seal(keyring, context, plain, nonce).Ok?
    ensures Open(keyring, context, Seal(keyring, context, plain, nonce).value).Err?
  {
    var n: nat := LONGEST_CA;
    LongCa(n);
    plain := Secret("s", Some(Quotes(n)));
    SealOpens(keyring, context, plain, nonce);
  }

  /**
    No stored value opens under another authority, tenant, provider or version than it was sealed for. With an ideal cipher
    this holds by construction: the binding is part of the sealed value and opening compares it.
  */
  lemma BindingIsExact(keyring: Keyring, a: Context, b: Context, value: Sealed)
    requires Open(keyring, a, value).Ok? && Open(keyring, b, value).Ok?
    ensures a == b
  {
  }

  function ReencryptValue(keyring: Keyring, context: Context, stored: Stored, nonce: Id): Result<Stored, Error>
    requires keyring.active in keyring.keys
  {
    if stored.Malformed? || stored.sealed.keyId !in keyring.keys then Err(Unavailable)
    else
      var plain := Open(keyring, context, stored.sealed);
      if plain.Err? then Err(plain.error)
      else if stored.sealed.keyId == keyring.active then Ok(stored)
      else
        var sealed := Seal(keyring, context, plain.value, nonce);
        if sealed.Err? then Err(sealed.error) else Ok(Parsed(sealed.value))
  }

  // The stored rows

  datatype Row = Row(version: I64, stored: Stored)

  type Table = map<(Id, Id), Row>

  function ContextOf(authority: Id, key: (Id, Id), row: Row): Context {
    Context(authority, key.0, key.1, row.version)
  }

  function OpenRow(keyring: Keyring, authority: Id, key: (Id, Id), row: Row): Result<Secret, Error> {
    if row.stored.Malformed? then Err(Unavailable) else Open(keyring, ContextOf(authority, key, row), row.stored.sealed)
  }

  function ProvidersOf(rows: Table, tenant: Id): set<Id> {
    set k | k in rows && k.0 == tenant :: k.1
  }

  /** A row after rotation: the same plaintext under the same binding, now under the active key. */
  predicate Rotated(keyring: Keyring, authority: Id, key: (Id, Id), before: Row, after: Row)
    requires keyring.active in keyring.keys
  {
    && OpenRow(keyring, authority, key, before).Ok?
    && OpenRow(keyring, authority, key, after) == OpenRow(keyring, authority, key, before)
    && after.version == before.version
    && after.stored.Parsed? && after.stored.sealed.keyId == keyring.active
    && (before.stored.sealed.keyId == keyring.active ==> after == before)
  }

  lemma ReencryptRotates(keyring: Keyring, authority: Id, key: (Id, Id), row: Row, nonce: Id)
    requires keyring.active in keyring.keys
    ensures
      var r := ReencryptValue(keyring, ContextOf(authority, key, row), row.stored, nonce);
      && (r.Ok? <==> OpenRow(keyring, authority, key, row).Ok?)
      && (r.Ok? ==> Rotated(keyring, authority, key, row, row.(stored := r.value)))
  {
  }

  /** What rotation writes in the place of a row under an old key. */
  function Resealed(keyring: Keyring, authority: Id, key: (Id, Id), row: Row, nonce: Id): Sealed
    requires keyring.active in keyring.keys && OpenRow(keyring, authority, key, row).Ok?
  {
    var context := ContextOf(authority, key, row);
    Sealed(1, keyring.active, nonce,
           Boxed(keyring.keys[keyring.active], nonce, context, OpenRow(keyring, authority, key, row).value))
  }

  /** A row authenticates, and what would be written in its place is within the table's limit on the text of a row. */
  predicate Rotatable(
    keyring: Keyring, authority: Id, key: (Id, Id), row: Row, nonce: Id, size: Sealed -> nat)
    requires keyring.active in keyring.keys
  {
    && OpenRow(keyring, authority, key, row).Ok?
    && (row.stored.sealed.keyId == keyring.active
        || size(Resealed(keyring, authority, key, row, nonce)) <= 131_072)
  }

  ghost predicate TenantRotatable(
    keyring: Keyring, authority: Id, rows: Table, tenant: Id, nonce: Id -> Id, size: Sealed -> nat)
    requires keyring.active in keyring.keys
  {
    && |ProvidersOf(rows, tenant)| <= 100
    && (forall k :: k in rows && k.0 == tenant ==> Rotatable(keyring, authority, k, rows[k], nonce(k.1), size))
  }

  ghost predicate TenantReadable(keyring: Keyring, authority: Id, rows: Table, tenant: Id) {
    && |ProvidersOf(rows, tenant)| <= 100
    && (forall k :: k in rows && k.0 == tenant ==> OpenRow(keyring, authority, k, rows[k]).Ok?)
  }

  /** Every row of the tenants done so far is rotated, every other row as it was. */
  ghost predicate RotatedTenants(keyring: Keyring, authority: Id, before: Table, after: Table, done: set<Id>)
    requires keyring.active in keyring.keys
  {
    && after.Keys == before.Keys
    && (forall k :: k in before ==>
          if k.0 in done then Rotated(keyring, authority, k, before[k], after[k]) else after[k] == before[k])
  }

  /** Exactly the rows in `done` are rotated. */
  ghost predicate RotatedRows(keyring: Keyring, authority: Id, before: Table, after: Table, done: set<(Id, Id)>)
    requires keyring.active in keyring.keys
  {
    && after.Keys == before.Keys && done <= before.Keys
    && (forall k :: k in before ==>
          if k in done then Rotated(keyring, authority, k, before[k], after[k]) else after[k] == before[k])
  }

  /** What rotation writes for a value that opens: itself under the active key, otherwise its plaintext sealed anew. */
  lemma ReencryptsExactly(keyring: Keyring, context: Context, stored: Stored, nonce: Id, plain: Secret)
    requires keyring.active in keyring.keys
    ensures ReencryptValue(keyring, context, stored, nonce).Ok? ==>
      stored.Parsed? && exists p :: OpensAs(keyring, context, stored.sealed, p)
    ensures stored.Parsed? && OpensAs(keyring, context, stored.sealed, plain) ==>
      ReencryptValue(keyring, context, stored, nonce) == Ok(
        if stored.sealed.keyId == keyring.active then stored
        else Parsed(Sealed(1, keyring.active, nonce, Boxed(keyring.keys[keyring.active], nonce, context, plain))))
  {
    if stored.Parsed? {
      OpensExactly(keyring, context, stored.sealed, plain);
      var found := Open(keyring, context, stored.sealed);
      if found.Ok? {
        OpensExactly(keyring, context, stored.sealed, found.value);
      }
    }
  }

  /**
    A row can be rotated exactly when it opens under its own authority, tenant, provider and version, and is under the
    active key already or its plaintext sealed anew takes at most 131,072 bytes of text.
  */
  lemma RotatableExactly(
    keyring: Keyring, authority: Id, key: (Id, Id), row: Row, nonce: Id, size: Sealed -> nat)
    requires keyring.active in keyring.keys
    ensures
      var context := Context(authority, key.0, key.1, row.version);
      Rotatable(keyring, authority, key, row, nonce, size) <==>
        && row.stored.Parsed?
        && (exists plain ::
              && OpensAs(keyring, context, row.stored.sealed, plain)
              && (row.stored.sealed.keyId == keyring.active
                  || size(Sealed(1, keyring.active, nonce, Boxed(keyring.keys[keyring.active], nonce, context, plain)))
                       <= 131_072))
  {
    var context := Context(authority, key.0, key.1, row.version);
    if row.stored.Parsed? {
      forall plain
        ensures Open(keyring, context, row.stored.sealed) == Ok(plain) <==>
          OpensAs(keyring, context, row.stored.sealed, plain)
      {
        OpensExactly(keyring, context, row.stored.sealed, plain);
      }
      if OpenRow(keyring, authority, key, row).Ok? {
        assert OpensAs(keyring, context, row.stored.sealed, OpenRow(keyring, authority, key, row).value);
      }
    }
  }

  class CredentialTable {
    var rows: Table

    constructor (rows: Table)
      ensures this.rows == rows
    {
      this.rows := rows;
    }

    /** `size` is the length of the database's own text for a stored value, which an update may not let grow too long. */
    method ReencryptRow(keyring: Keyring, authority: Id, key: (Id, Id), nonce: Id, size: Sealed -> nat)
      returns (r: Result<(), Error>)
      requires keyring.active in keyring.keys && key in rows
      modifies this
      ensures r.Ok? <==> Rotatable(keyring, authority, key, old(rows)[key], nonce, size)
      ensures r.Ok? ==> RotatedRows(keyring, authority, old(rows), rows, {key})
      ensures r.Err? ==> rows == old(rows)
    {
      var row := rows[key];
      ReencryptRotates(keyring, authority, key, row, nonce);
      var sealed := ReencryptValue(keyring, ContextOf(authority, key, row), row.stored, nonce);
      if sealed.Err? { return Err(sealed.error); }
      if sealed.value != row.stored && size(sealed.value.sealed) > STORED_TEXT_BYTES { return Err(Unavailable); }
      rows := rows[key := row.(stored := sealed.value)];
      r := Ok(());
    }

    /** Re-encrypts one tenant's rows in order; a failure may leave some of them done, for the caller to roll back. */
    method ReencryptTenant(keyring: Keyring, authority: Id, tenant: Id, nonce: Id -> Id, size: Sealed -> nat)
      returns (r: Result<nat, Error>)
      requires keyring.active in keyring.keys
      modifies this
      ensures r.Ok? <==> TenantRotatable(keyring, authority, old(rows), tenant, nonce, size)
      ensures r.Ok? ==> RotatedTenants(keyring, authority, old(rows), rows, {tenant})
    {
      ghost var before := rows;
      var ids := SelectIds(ProvidersOf(rows, tenant), ROW_LIMIT + 1);
      AscendingCount(ids, ProvidersOf(rows, tenant));
      if |ids| > ROW_LIMIT { return Err(Configuration); }
      ghost var done: set<(Id, Id)> := {};
      for i := 0 to |ids|
        invariant RotatedRows(keyring, authority, before, rows, done)
        invariant done == KeysOf(tenant, ids[..i])
        invariant forall k :: k in done ==> Rotatable(keyring, authority, k, before[k], nonce(k.1), size)
      {
        ghost var was := rows;
        NextKey(before, tenant, ids, i);
        var row := ReencryptRow(keyring, authority, (tenant, ids[i]), nonce(ids[i]), size);
        if row.Err? {
          assert was[(tenant, ids[i])] == before[(tenant, ids[i])];
          return Err(row.error);
        }
        RowDone(keyring, authority, before, was, rows, done, (tenant, ids[i]));
        done := done + {(tenant, ids[i])};
      }
      assert ids[..|ids|] == ids;
      TenantDone(keyring, authority, before, rows, tenant, ids);
      forall k | k in before && k.0 == tenant ensures k in done {
        assert k.1 in ProvidersOf(before, tenant) && k == (tenant, k.1);
      }
      r := Ok(|ids|);
    }
  }

  ghost function KeysOf(tenant: Id, ids: seq<Id>): set<(Id, Id)> {
    set id | id in ids :: (tenant, id)
  }

  lemma NextKey(rows: Table, tenant: Id, ids: seq<Id>, i: nat)
    requires i < |ids| && Ascending(ids) && forall id :: id in ids ==> id in ProvidersOf(rows, tenant)
    ensures (tenant, ids[i]) in rows && (tenant, ids[i]) !in KeysOf(tenant, ids[..i])
    ensures KeysOf(tenant, ids[..i + 1]) == KeysOf(tenant, ids[..i]) + {(tenant, ids[i])}
  {
    assert ids[i] in ProvidersOf(rows, tenant);
    assert ids[..i + 1] == ids[..i] + [ids[i]];
  }

  lemma RowDone(
    keyring: Keyring, authority: Id, before: Table, was: Table, now: Table, done: set<(Id, Id)>, key: (Id, Id))
    requires keyring.active in keyring.keys && key !in done
    requires RotatedRows(keyring, authority, before, was, done) && RotatedRows(keyring, authority, was, now, {key})
    ensures RotatedRows(keyring, authority, before, now, done + {key})
  {
  }

  lemma TenantDone(keyring: Keyring, authority: Id, before: Table, after: Table, tenant: Id, ids: seq<Id>)
    requires keyring.active in keyring.keys && |ids| <= ROW_LIMIT && Ascending(ids)
    requires forall p :: p in ProvidersOf(before, tenant) ==> p in ids
    requires forall p :: p in ids ==> p in ProvidersOf(before, tenant)
    requires RotatedRows(keyring, authority, before, after, KeysOf(tenant, ids))
    ensures TenantReadable(keyring, authority, before, tenant)
    ensures RotatedTenants(keyring, authority, before, after, {tenant})
  {
    AscendingCount(ids, ProvidersOf(before, tenant));
    forall k | k in before && k.0 == tenant ensures k in KeysOf(tenant, ids) {
      assert k.1 in ProvidersOf(before, tenant) && k == (tenant, k.1);
    }
  }

  // All tenants

  ghost predicate Readable(keyring: Keyring, authority: Id, rows: Table, tenants: seq<Id>) {
    forall i :: 0 <= i < |tenants| ==> TenantReadable(keyring, authority, rows, tenants[i])
  }

  ghost predicate AllRotatable(
    keyring: Keyring, authority: Id, rows: Table, tenants: seq<Id>, nonce: Id -> Id, size: Sealed -> nat)
    requires keyring.active in keyring.keys
  {
    forall i :: 0 <= i < |tenants| ==> TenantRotatable(keyring, authority, rows, tenants[i], nonce, size)
  }

  lemma RotatedMore(keyring: Keyring, authority: Id, a: Table, b: Table, c: Table, done: set<Id>, tenant: Id)
    requires keyring.active in keyring.keys
    requires RotatedTenants(keyring, authority, a, b, done) && RotatedTenants(keyring, authority, b, c, {tenant})
    ensures RotatedTenants(keyring, authority, a, c, done + {tenant})
  {
  }

  /** Rotating some tenants keeps every tenant as rotatable as it was. */
  lemma RotatedRotatable(
    keyring: Keyring, authority: Id, a: Table, b: Table, done: set<Id>, tenant: Id, nonce: Id -> Id, size: Sealed -> nat)
    requires keyring.active in keyring.keys && RotatedTenants(keyring, authority, a, b, done)
    requires tenant in done ==> TenantRotatable(keyring, authority, a, tenant, nonce, size)
    ensures TenantRotatable(keyring, authority, b, tenant, nonce, size)
      <==> TenantRotatable(keyring, authority, a, tenant, nonce, size)
  {
    assert ProvidersOf(a, tenant) == ProvidersOf(b, tenant);
    if tenant in done {
      forall k | k in b && k.0 == tenant ensures Rotatable(keyring, authority, k, b[k], nonce(k.1), size) {
        assert Rotated(keyring, authority, k, a[k], b[k]);
      }
    }
  }

  /**
    The whole run, one transaction over all tenants: committed when every row could be authenticated and written back,
    unless it only verifies; otherwise rolled back.
  */
  method Rekey(
    table: CredentialTable, keyring: Keyring, authority: Id, tenants: seq<Id>, verifyOnly: bool, nonce: Id -> Id,
    size: Sealed -> nat)
    returns (r: Result<(), Error>)
    requires keyring.active in keyring.keys
    modifies table
    ensures r.Ok? <==>
      (verifyOnly ==> |keyring.keys| == 1) && AllRotatable(keyring, authority, old(table.rows), tenants, nonce, size)
    ensures r.Err? || verifyOnly ==> table.rows == old(table.rows)
    ensures r.Ok? && !verifyOnly ==> RotatedTenants(keyring, authority, old(table.rows), table.rows, Elements(tenants))
  {
    if verifyOnly && |keyring.keys| != 1 { return Err(Configuration); }
    var before := table.rows;
    for i := 0 to |tenants|
      invariant RotatedTenants(keyring, authority, before, table.rows, Elements(tenants[..i]))
      invariant AllRotatable(keyring, authority, before, tenants[..i], nonce, size)
    {
      ghost var was := table.rows;
      var count := table.ReencryptTenant(keyring, authority, tenants[i], nonce, size);
      RotatedRotatable(keyring, authority, before, was, Elements(tenants[..i]), tenants[i], nonce, size);
      if count.Err? {
        table.rows := before;
        return Err(count.error);
      }
      RotatedMore(keyring, authority, before, was, table.rows, Elements(tenants[..i]), tenants[i]);
      assert Elements(tenants[..i + 1]) == Elements(tenants[..i]) + {tenants[i]};
    }
    assert tenants[..|tenants|] == tenants;
    if verifyOnly {
      table.rows := before;
    }
    r := Ok(());
  }

  /** The longest text of a sealed value: four names, twelve numbers, a key name, and a number for every byte. */
  function TextBound(s: Sealed): nat {
    115 + |s.keyId| + 5 * s.ciphertext.Length()
  }

  const ALWAYS_FITS: nat := 26_178

  /** A row that authenticates and has at most 26,178 bytes of ciphertext can always be rotated. */
  lemma ShortRowsRotate(
    keyring: Keyring, authority: Id, key: (Id, Id), row: Row, nonce: Id, size: Sealed -> nat)
    requires keyring.active in keyring.keys && ValidKeyId(keyring.active)
    requires OpenRow(keyring, authority, key, row).Ok?
    requires size(Resealed(keyring, authority, key, row, nonce)) <= TextBound(Resealed(keyring, authority, key, row, nonce))
    requires row.stored.sealed.ciphertext.Length() <= ALWAYS_FITS
    ensures Rotatable(keyring, authority, key, row, nonce, size)
  {
    var resealed := Resealed(keyring, authority, key, row, nonce);
    assert resealed.ciphertext.Length() == row.stored.sealed.ciphertext.Length();
  }

  const LIMIT_CA: nat := 13_077

  lemma LimitCa(n: nat)
    requires n == LIMIT_CA
    ensures var plain := Secret("s", Some(Quotes(n)));
      plain.Valid() && EncodedLength(plain) + TAG_BYTES == 38 + 2 * n <= CIPHERTEXT_BYTES
  {
    QuotesLength(n);
    assert "s"[1..] == "";
    assert JsonLength("s") == 1 && Utf8Length("s") == 1;
  }

  /**
    A row whose text is exactly at the limit: it authenticates, and cannot be rotated to a key whose name is two characters
    longer, even if every byte takes as many digits as before. The size of the row's text is chosen here: nearly every byte
    of such a ciphertext has three digits, which is possible but improbable. `ShortRowsRotate` is the half a caller can
    check.
  */
  lemma RotationCanFail(n: nat) returns (keyring: Keyring, row: Row, size: Sealed -> nat)
    requires n == LIMIT_CA
    ensures keyring.Valid() && forall s :: size(s) <= TextBound(s)
    ensures row.stored.Parsed? && size(row.stored.sealed) == 131_072
    ensures OpenRow(keyring, 1, (2, 3), row).Ok? && !Rotatable(keyring, 1, (2, 3), row, 4, size)
  {
    LimitCa(n);
    assert |"old"| != |"newer"|;
    keyring := Keyring("newer", map["old" := 5, "newer" := 6]);
    var plain := Secret("s", Some(Quotes(n)));
    row := Row(1, Parsed(Sealed(1, "old", 7, Boxed(5, 7, Context(1, 2, 3, 1), plain))));
    size := (s: Sealed) => TextBound(s) - 6;
  }

  /** The runtime's check: every credential of every tenant authenticates, at most a hundred each. */
  method CheckCredentialKeys(rows: Table, keyring: Keyring, authority: Id, tenants: seq<Id>) returns (ok: bool)
    ensures ok <==> Readable(keyring, authority, rows, tenants)
  {
    for i := 0 to |tenants|
      invariant Readable(keyring, authority, rows, tenants[..i])
    {
      var tenant := CheckTenant(rows, keyring, authority, tenants[i]);
      if !tenant { return false; }
      assert tenants[..i + 1] == tenants[..i] + [tenants[i]];
    }
    assert tenants[..|tenants|] == tenants;
    ok := true;
  }

  method CheckTenant(rows: Table, keyring: Keyring, authority: Id, tenant: Id) returns (ok: bool)
    ensures ok <==> TenantReadable(keyring, authority, rows, tenant)
  {
    var ids := SelectIds(ProvidersOf(rows, tenant), ROW_LIMIT + 1);
    AscendingCount(ids, ProvidersOf(rows, tenant));
    if |ids| > ROW_LIMIT { return false; }
    for i := 0 to |ids|
      invariant forall k :: k in KeysOf(tenant, ids[..i]) ==> k in rows && OpenRow(keyring, authority, k, rows[k]).Ok?
    {
      NextKey(rows, tenant, ids, i);
      var plain := OpenRow(keyring, authority, (tenant, ids[i]), rows[(tenant, ids[i])]);
      if plain.Err? { return false; }
    }
    assert ids[..|ids|] == ids;
    forall k | k in rows && k.0 == tenant ensures OpenRow(keyring, authority, k, rows[k]).Ok? {
      assert k.1 in ProvidersOf(rows, tenant) && k == (tenant, k.1);
      assert k in KeysOf(tenant, ids);
    }
    ok := true;
  }

  /** The keyring with the active key alone. */
  function Retired(keyring: Keyring): Keyring
    requires keyring.active in keyring.keys
  {
    Keyring(keyring.active, map[keyring.active := keyring.keys[keyring.active]])
  }

  /** After a successful rotation the old keys can go: the active key alone reads every row, and reads the same. */
  lemma OldKeysCanRetire(keyring: Keyring, authority: Id, before: Table, after: Table, tenants: seq<Id>)
    requires keyring.active in keyring.keys && Readable(keyring, authority, before, tenants)
    requires RotatedTenants(keyring, authority, before, after, Elements(tenants))
    ensures Readable(Retired(keyring), authority, after, tenants)
    ensures forall k :: k in before && k.0 in tenants ==>
      OpenRow(Retired(keyring), authority, k, after[k]) == OpenRow(keyring, authority, k, before[k])
  {
    forall k | k in before && k.0 in tenants
      ensures OpenRow(Retired(keyring), authority, k, after[k]) == OpenRow(keyring, authority, k, before[k])
    {
      assert k.0 in Elements(tenants) && Rotated(keyring, authority, k, before[k], after[k]);
    }
    forall i | 0 <= i < |tenants| ensures TenantReadable(Retired(keyring), authority, after, tenants[i]) {
      assert TenantReadable(keyring, authority, before, tenants[i]);
      assert ProvidersOf(after, tenants[i]) == ProvidersOf(before, tenants[i]);
    }
  }

  /** Rotating rows that are already rotated changes nothing. */
  lemma RotationIsIdempotent(keyring: Keyring, authority: Id, a: Table, b: Table, c: Table, tenants: seq<Id>)
    requires keyring.active in keyring.keys
    requires RotatedTenants(keyring, authority, a, b, Elements(tenants))
        && RotatedTenants(keyring, authority, b, c, Elements(tenants))
    ensures c == b
  {
    forall k | k in b ensures c[k] == b[k] {
      if k.0 in Elements(tenants) {
        assert Rotated(keyring, authority, k, a[k], b[k]) && Rotated(keyring, authority, k, b[k], c[k]);
      }
    }
  }
}
