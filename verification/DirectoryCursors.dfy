/**
  Cursors: the signed, bound and expiring text a page hands out. The signature is ideal, so a cursor is what some key
  signed, or else text no key signed; the digest a cursor is bound by stands for the scope it was taken of.
*/
module DirectoryCursors {
  import opened Common
  import opened Text
  import opened Directory
  import opened DirectorySql
  import opened DirectoryPages
  import opened DirectoryListing

  type Id = nat

  /** Everything a cursor is bound to: for whom, in which session and generation of the data, and for which query. */
  datatype Scope = Scope(
    instance: Id, tenant: Id, principal: Id, session: Id, generation: int, query: Query, fields: seq<Field>,
    source: Option<string>)

  datatype Cursor = Cursor(binding: Scope, expires: int, position: Key)

  datatype RawCursor = Signed(key: Id, cursor: Cursor) | Unsigned(length: nat, malformed: bool)

  datatype Error = InvalidInput | CursorInvalidated | Late

  const RAW_BYTES: nat := 4096
  const TAG_BYTES: nat := 32

  // How long a cursor is

  function ValueBytes(value: Option<Cell>): nat {
    match value
    case None => 4
    case Some(Flag(_)) => 5
    case Some(Text(text)) => 2 + JsonLength(text)
  }

  /** The values of a position with a comma each. */
  function PositionBytes(position: Key): nat {
    if position == [] then 0 else ValueBytes(position[0]) + 1 + PositionBytes(position[1..])
  }

  /** The longest the members of a cursor can be besides the values: three names, 32 numbers of a digest, and a time. */
  const FRAME_BYTES: nat := 185

  function RawLength(raw: RawCursor): nat {
    match raw
    case Signed(_, cursor) => (4 * (TAG_BYTES + FRAME_BYTES + PositionBytes(cursor.position)) + 2) / 3
    case Unsigned(length, _) => length
  }

  /** Four characters for every three bytes: a digest of 32 bytes, the frame, and for every value its text and a comma. */
  lemma LengthsExactly(key: Id, cursor: Cursor)
    ensures var bytes := 217 + PositionBytes(cursor.position);
      4 * bytes <= 3 * RawLength(Signed(key, cursor)) < 4 * bytes + 3
  {
  }

  /** A value takes the bytes of `null`, of `false` at most, or of its escaped text in quotes. */
  lemma ValuesExactly(text: string, on: bool)
    ensures ValueBytes(None) == |"null"| && ValueBytes(Some(Flag(on))) == |"false"|
    ensures ValueBytes(Some(Text(text))) == |"''"| + JsonLength(text)
  {
  }

  // What is accepted

  /** One value for every column of the sort list, null or of the column's kind. */
  predicate Shaped(sorts: seq<Sort>, position: Key) {
    && |position| == |sorts|
    && forall i :: 0 <= i < |sorts| ==> position[i].Some? ==> position[i].value.Flag? == sorts[i].field.Boolean()
  }

  /** The checks of a presented cursor, in the code's order. */
  function Refusal(raw: RawCursor, key: Id, scope: Scope, now: int): Option<Error> {
    if RawLength(raw) == 0 || RawLength(raw) > RAW_BYTES then Some(InvalidInput)
    else
      match raw
      case Unsigned(_, malformed) => Some(if malformed then InvalidInput else CursorInvalidated)
      case Signed(signer, cursor) =>
        if signer != key then Some(CursorInvalidated)
        else if cursor.binding != scope || cursor.expires <= now then Some(CursorInvalidated)
        else if !Shaped(scope.query.sorts, cursor.position) then Some(InvalidInput)
        else None
  }

  /**
    A cursor is accepted exactly when this key signed it, short and well shaped, for this scope, and it is still good. Its
    length is that of its widest form, which no actual cursor exceeds.
  */
  lemma AcceptedExactly(raw: RawCursor, key: Id, scope: Scope, now: int)
    ensures Refusal(raw, key, scope, now) == None <==>
      && raw.Signed? && raw.key == key && raw.cursor.binding == scope && now < raw.cursor.expires
      && OnePerColumn(scope.query.sorts, raw.cursor.position) && RawLength(raw) <= 4096
    ensures Refusal(raw, key, scope, now) == Some(CursorInvalidated) <==>
      && 0 < RawLength(raw) <= 4096
      && match raw
         case Unsigned(_, malformed) => !malformed
         case Signed(signer, cursor) => signer != key || cursor.binding != scope || cursor.expires <= now
  {
    if raw.Signed? {
      assert RawLength(raw) > 0;
    }
  }

  /** A value or null for every column of the sort list: flags in the three boolean columns, texts in the others. */
  predicate OnePerColumn(sorts: seq<Sort>, position: Key) {
    && |position| == |sorts|
    && forall i :: 0 <= i < |sorts| && position[i].Some? ==>
         (position[i].value.Flag? <==> sorts[i].field in {Enabled, MemberActive, HasLocalPassword})
  }

  // A page's own cursor is never refused for its form

  /** The most bytes the text of a column can have. */
  function MostBytes(field: Field): nat {
    match field
    case PrincipalId => 36
    case Login => 128
    case DisplayName => 512
    case Email => 320
    case _ => 14
  }

  /** The kinds and lengths of the values the stored tables allow. */
  ghost predicate Typed(row: Row) {
    forall f :: f in row.cells && f.Sortable() ==>
      if f.Boolean() then row.cells[f].Flag?
      else row.cells[f].Text? && Printable(row.cells[f].text) && Utf8Length(row.cells[f].text) <= MostBytes(f)
  }

  lemma {:induction false} EscapedAtMostTwice(s: string)
    requires Printable(s)
    ensures JsonLength(s) <= 2 * Utf8Length(s)
  {
    if s != "" {
      assert Printable(s[1..]);
      EscapedAtMostTwice(s[1..]);
    }
  }

  function Width(field: Field): nat {
    if field.Boolean() then 6 else 3 + 2 * MostBytes(field)
  }

  function WidthIn(field: Field, fields: set<Field>): nat {
    if field in fields then Width(field) else 0
  }

  /** The columns that can be sorted by. */
  const COLUMNS: seq<Field> :=
    [PrincipalId, Login, Enabled, MemberActive, HasLocalPassword, DisplayName, Email, ProfileStatus, DepartmentStatus]

  /** The widths of these columns together. */
  function Widths(columns: seq<Field>, fields: set<Field>): nat {
    if columns == [] then 0 else WidthIn(columns[0], fields) + Widths(columns[1..], fields)
  }

  lemma {:induction false} WidthsAdd(columns: seq<Field>, field: Field, fields: set<Field>)
    requires field !in fields && forall i, j :: 0 <= i < j < |columns| ==> columns[i] != columns[j]
    ensures Widths(columns, fields + {field}) == Widths(columns, fields) + if field in columns then Width(field) else 0
  {
    if columns != [] {
      var rest := columns[1..];
      WidthsAdd(rest, field, fields);
      assert columns == [columns[0]] + rest;
      assert forall i :: 0 <= i < |rest| ==> rest[i] == columns[i + 1];
    }
  }

  lemma SortableIsColumn(field: Field)
    requires field.Sortable()
    ensures field in COLUMNS
  {
    match field
    case PrincipalId => assert COLUMNS[0] == field;
    case Login => assert COLUMNS[1] == field;
    case Enabled => assert COLUMNS[2] == field;
    case MemberActive => assert COLUMNS[3] == field;
    case HasLocalPassword => assert COLUMNS[4] == field;
    case DisplayName => assert COLUMNS[5] == field;
    case Email => assert COLUMNS[6] == field;
    case ProfileStatus => assert COLUMNS[7] == field;
    case DepartmentStatus => assert COLUMNS[8] == field;
  }

  function MostWidths(columns: seq<Field>): nat {
    if columns == [] then 0 else Width(columns[0]) + MostWidths(columns[1..])
  }

  lemma {:induction false} WidthsBounded(columns: seq<Field>, fields: set<Field>)
    ensures Widths(columns, fields) <= MostWidths(columns)
  {
    if columns != [] {
      WidthsBounded(columns[1..], fields);
    }
  }

  lemma AllWidths()
    ensures MostWidths(COLUMNS) == 2084
  {
    assert MostWidths(COLUMNS[8..]) == 31;
    assert MostWidths(COLUMNS[7..]) == 62;
    assert MostWidths(COLUMNS[6..]) == 705;
    assert MostWidths(COLUMNS[5..]) == 1732;
    assert MostWidths(COLUMNS[4..]) == 1738;
    assert MostWidths(COLUMNS[3..]) == 1744;
    assert MostWidths(COLUMNS[2..]) == 1750;
    assert MostWidths(COLUMNS[1..]) == 2009;
    assert COLUMNS[0..] == COLUMNS;
  }

  lemma ValueFits(row: Row, field: Field)
    requires Typed(row) && field.Sortable()
    ensures ValueBytes(row.At(field)) + 1 <= Width(field)
  {
    if field in row.cells && row.cells[field].Text? {
      EscapedAtMostTwice(row.cells[field].text);
    }
  }

  function FieldsOf(sorts: seq<Sort>): set<Field> {
    set i | 0 <= i < |sorts| :: sorts[i].field
  }

  lemma {:induction false} PositionFits(sorts: seq<Sort>, row: Row)
    requires Typed(row) && Distinct(sorts)
    ensures PositionBytes(KeyOf(sorts, row)) <= Widths(COLUMNS, FieldsOf(sorts))
  {
    if sorts != [] {
      var rest := sorts[1..];
      PositionFits(rest, row);
      ValueFits(row, sorts[0].field);
      assert KeyOf(sorts, row)[1..] == KeyOf(rest, row);
      FieldsOfRest(sorts);
      SortableIsColumn(sorts[0].field);
      WidthsAdd(COLUMNS, sorts[0].field, FieldsOf(rest));
    }
  }

  lemma FieldsOfRest(sorts: seq<Sort>)
    requires sorts != [] && Distinct(sorts)
    ensures FieldsOf(sorts) == FieldsOf(sorts[1..]) + {sorts[0].field} && sorts[0].field !in FieldsOf(sorts[1..])
  {
    forall f | f in FieldsOf(sorts) ensures f in FieldsOf(sorts[1..]) + {sorts[0].field} {
      var i :| 0 <= i < |sorts| && sorts[i].field == f;
      if i > 0 {
        assert sorts[1..][i - 1].field == f;
      }
    }
    forall f | f in FieldsOf(sorts[1..]) ensures f in FieldsOf(sorts) {
      var i :| 0 <= i < |sorts[1..]| && sorts[1..][i].field == f;
      assert sorts[i + 1].field == f;
    }
  }

  lemma OwnCursorIsShort(key: Id, scope: Scope, expires: int, row: Row)
    requires Typed(row) && Distinct(scope.query.sorts)
    ensures 0 < RawLength(Signed(key, Cursor(scope, expires, KeyOf(scope.query.sorts, row)))) <= RAW_BYTES
  {
    PositionFits(scope.query.sorts, row);
    WidthsBounded(COLUMNS, FieldsOf(scope.query.sorts));
    AllWidths();
  }

  lemma OwnPositionIsShaped(sorts: seq<Sort>, row: Row)
    requires Typed(row) && Distinct(sorts)
    ensures Shaped(sorts, KeyOf(sorts, row))
  {
  }

  /** The cursor a page hands out for a row is accepted by every later page of the same scope exactly until it expires. */
  lemma OwnCursorIsGood(key: Id, scope: Scope, expires: int, row: Row, now: int)
    requires Typed(row) && Distinct(scope.query.sorts)
    ensures Refusal(Signed(key, Cursor(scope, expires, KeyOf(scope.query.sorts, row))), key, scope, now)
      == if now < expires then None else Some(CursorInvalidated)
  {
    OwnCursorIsShort(key, scope, expires, row);
    OwnPositionIsShaped(scope.query.sorts, row);
  }

  // Pages

  /** What a read finds of the clock: the time it reads at, how long that stays true, and whether it ends in time. */
  datatype Reading = Reading(now: int, validUntil: int, timely: bool)

  datatype Page = Page(accounts: seq<Row>, next: Option<RawCursor>)

  /** One page for a presented cursor, if there is one; it succeeds exactly when the cursor is accepted and time is left. */
  method ListPage(
    table: seq<Row>, scope: Scope, raw: Option<RawCursor>, key: Id, reading: Reading, lower: string -> string)
    returns (r: Result<Page, Error>)
    requires scope.query.limit > 0
    ensures r.Ok? <==> reading.timely && (raw.Some? ==> Refusal(raw.value, key, scope, reading.now) == None)
    ensures r.Ok? ==>
      && (raw.Some? ==> raw.value.Signed? && |raw.value.cursor.position| == |scope.query.sorts|)
      && var seek := if raw.Some? then Some(raw.value.cursor.position) else None;
      && var rest := Remaining(table, scope.query, seek, lower);
      && r.value.accounts == Take(rest, scope.query.limit)
      && r.value.next ==
         if |rest| > scope.query.limit
         then Some(Signed(key, Cursor(scope, reading.validUntil, KeyOf(scope.query.sorts, rest[scope.query.limit - 1]))))
         else None
  {
    var seek: Option<Key> := None;
    if raw.Some? {
      var refusal := Refusal(raw.value, key, scope, reading.now);
      if refusal.Some? { return Err(refusal.value); }
      seek := Some(raw.value.cursor.position);
    }
    var accounts, position := ListAccounts(table, scope.query, seek, lower);
    var next :=
      if position.None? then None else Some(Signed(key, Cursor(scope, reading.validUntil, position.value)));
    if !reading.timely { return Err(Late); }
    r := Ok(Page(accounts, next));
  }

  /** The cursor a client holds after `pages` pages, the last of them read at `readings(pages - 1)`. */
  ghost predicate Holds(
    raw: Option<RawCursor>, seek: Option<Key>, key: Id, scope: Scope, readings: nat -> Reading, pages: nat)
  {
    match seek
    case None => raw == None
    case Some(position) =>
      pages > 0 && raw == Some(Signed(key, Cursor(scope, readings(pages - 1).validUntil, position)))
  }

  /** Every page is read before the cursor of the page before it expires. */
  ghost predicate InTime(readings: nat -> Reading) {
    forall p: nat {:trigger readings(p)} :: readings(p).timely && (p > 0 ==> readings(p).now < readings(p - 1).validUntil)
  }

  /** A client that comes back in time with the cursor it holds is accepted, at the position it holds it for. */
  lemma HeldIsAccepted(
    raw: Option<RawCursor>, all: seq<Row>, k: nat, key: Id, scope: Scope, readings: nat -> Reading, pages: nat)
    requires Distinct(scope.query.sorts) && InTime(readings) && k <= |all| && forall i :: 0 <= i < |all| ==> Typed(all[i])
    requires Holds(raw, Position(all, k, scope.query.sorts), key, scope, readings, pages)
    ensures raw.Some? ==> raw.value.Signed? && Refusal(raw.value, key, scope, readings(pages).now) == None
    ensures Position(all, k, scope.query.sorts) == if raw.Some? then Some(raw.value.cursor.position) else None
  {
    if raw.Some? {
      OwnCursorIsGood(key, scope, readings(pages - 1).validUntil, all[k - 1], readings(pages).now);
    }
  }

  method NextSigned(
    table: seq<Row>, scope: Scope, raw: Option<RawCursor>, key: Id, readings: nat -> Reading, pages: nat,
    lower: string -> string, ghost all: seq<Row>, ghost k: nat)
    returns (page: seq<Row>, next: Option<RawCursor>, ghost seek: Option<Key>)
    requires Lists(table, scope.query, lower, all) && Distinct(scope.query.sorts) && InTime(readings)
    requires k <= |all| && forall i :: 0 <= i < |all| ==> Typed(all[i])
    requires Holds(raw, Position(all, k, scope.query.sorts), key, scope, readings, pages)
    ensures Paged(all, k, scope.query, page, seek) && Holds(next, seek, key, scope, readings, pages + 1)
    ensures seek.Some? <==> next.Some?
  {
    HeldIsAccepted(raw, all, k, key, scope, readings, pages);
    ghost var rest := all[k..];
    assert Remaining(table, scope.query, Position(all, k, scope.query.sorts), lower) == rest;
    var r := ListPage(table, scope, raw, key, readings(pages), lower);
    assert r.Ok?;
    page, next := r.value.accounts, r.value.next;
    seek := if |rest| > scope.query.limit then Some(KeyOf(scope.query.sorts, rest[scope.query.limit - 1])) else None;
    PageOf(all, rest, k, scope.query, page, seek);
  }

  /**
    A client that hands back every cursor before it expires, while the data and its session stay the same, gets every
    matching row once and in order; no cursor of its own is ever refused.
  */
  method FollowSigned(table: seq<Row>, scope: Scope, key: Id, readings: nat -> Reading, lower: string -> string)
    returns (rows: seq<Row>, pages: nat)
    requires Keyed(table) && scope.query.Valid() && Distinct(scope.query.sorts) && InTime(readings)
    requires forall i :: 0 <= i < |table| ==> Typed(table[i])
    ensures rows == Everything(table, scope.query, lower) && Fewest(|rows|, pages, scope.query.limit)
  {
    EverythingIsListed(table, scope.query, lower);
    EverythingIsTyped(table, scope.query, lower);
    rows, pages := FollowSignedPages(table, scope, key, readings, lower, Everything(table, scope.query, lower));
  }

  lemma EverythingIsTyped(table: seq<Row>, query: Query, lower: string -> string)
    requires Keyed(table) && query.Valid() && forall i :: 0 <= i < |table| ==> Typed(table[i])
    ensures var all := Everything(table, query, lower); forall i :: 0 <= i < |all| ==> Typed(all[i])
  {
    EverythingIsComplete(table, query, lower);
    var all := Everything(table, query, lower);
    forall i | 0 <= i < |all| ensures Typed(all[i]) {
      assert all[i] in all && all[i] in table;
    }
  }

  method FollowSignedPages(
    table: seq<Row>, scope: Scope, key: Id, readings: nat -> Reading, lower: string -> string, ghost all: seq<Row>)
    returns (rows: seq<Row>, pages: nat)
    requires Lists(table, scope.query, lower, all) && Distinct(scope.query.sorts) && InTime(readings)
    requires forall i :: 0 <= i < |all| ==> Typed(all[i])
    ensures rows == all && Fewest(|rows|, pages, scope.query.limit)
  {
    rows, pages := [], 0;
    var raw: Option<RawCursor> := None;
    ghost var seek: Option<Key> := None;
    var more := true;
    NothingYet(all, scope.query);
    while more
      invariant |rows| <= |all|
      invariant more ==> Reached(all, rows, pages, scope.query, seek) && Holds(raw, seek, key, scope, readings, pages)
      invariant !more ==> rows == all && Fewest(|rows|, pages, scope.query.limit)
      decreases more, |all| - |rows|
    {
      var page, next;
      ghost var after;
      page, next, after := NextSigned(table, scope, raw, key, readings, pages, lower, all, |rows|);
      PageAdvances(all, rows, pages, scope.query, seek, page, after);
      rows := rows + page;
      pages := pages + 1;
      more := next.Some?;
      raw := next;
      seek := after;
    }
  }
}
