/** The listing as it runs: the sort list, the query builder, one page, and a client that follows the cursors. */
module DirectoryListing {
  import opened Common
  import opened Text
  import opened Directory
  import opened DirectoryGrammar
  import DirectoryLanguage
  import opened DirectorySql
  import opened DirectoryPages

  // Names and sort lists

  function Split(raw: string): (r: seq<string>)
    ensures r != []
  {
    if raw == "" then [""]
    else
      var rest := Split(raw[1..]);
      if raw[0] == ',' then [""] + rest else [[raw[0]] + rest[0]] + rest[1..]
  }

  function JoinNames(names: seq<string>): string
    requires names != []
  {
    if |names| == 1 then names[0] else names[0] + "," + JoinNames(names[1..])
  }

  /** Splitting loses nothing: the names put back together are the text. */
  lemma {:induction false} SplitJoins(raw: string)
    ensures JoinNames(Split(raw)) == raw
    ensures forall n :: n in Split(raw) ==> ',' !in n
  {
    if raw != "" {
      SplitJoins(raw[1..]);
      var rest := Split(raw[1..]);
      if raw[0] == ',' {
        assert ([""] + rest)[1..] == rest;
        assert "" + "," + JoinNames(rest) == raw;
      } else {
        var names := [[raw[0]] + rest[0]] + rest[1..];
        assert names[1..] == rest[1..];
        assert rest == [rest[0]] + rest[1..];
        if |rest| == 1 {
          assert [raw[0]] + rest[0] == raw;
        } else {
          assert [raw[0]] + rest[0] + "," + JoinNames(rest[1..]) == [raw[0]] + raw[1..] == raw;
        }
      }
    }
  }

  /** At most 4,096 bytes and sixteen different names, none empty or longer than 128 bytes. */
  predicate GoodNames(raw: string) {
    var names := Split(raw);
    && Utf8Length(raw) <= 4096 && |names| <= 16
    && (forall i :: 0 <= i < |names| ==> names[i] != "" && Utf8Length(names[i]) <= 128)
    && (forall i, j :: 0 <= i < j < |names| ==> names[i] != names[j])
  }

  method Names(raw: string) returns (r: Option<seq<string>>)
    ensures r == if GoodNames(raw) then Some(Split(raw)) else None
  {
    if Utf8Length(raw) > 4096 { return None; }
    var names := Split(raw);
    if |names| > 16 { return None; }
    for i := 0 to |names|
      invariant forall j :: 0 <= j < i ==> names[j] != "" && Utf8Length(names[j]) <= 128
    {
      if names[i] == "" || Utf8Length(names[i]) > 128 { return None; }
    }
    for i := 0 to |names|
      invariant forall j, k :: 0 <= j < k < i ==> names[j] != names[k]
    {
      if j :| 0 <= j < i && names[j] == names[i] { return None; }
    }
    r := Some(names);
  }

  /** One sort term: a field name, descending with a leading minus. */
  function ParseSort(name: string): Option<Sort> {
    var descending := StartsWith(name, "-");
    var field := ParseField(if descending then name[1..] else name);
    if field.None? then None else Some(Sort(field.value, descending))
  }

  /** A sort term as it is written. */
  predicate Term(name: string, sort: Sort) {
    name == (if sort.descending then "-" else "") + DirectoryLanguage.FieldText(sort.field)
  }

  lemma NamesFields(name: string, field: Field)
    ensures ParseField(name) == Some(field) <==> name == DirectoryLanguage.FieldText(field)
  {
    DirectoryLanguage.FieldIsSpelled(field);
    FieldNames(field);
  }

  /** What is read as a sort term is what is written as one. */
  lemma TermParsed(name: string, sort: Sort)
    ensures ParseSort(name) == Some(sort) <==> Term(name, sort)
  {
    var field := DirectoryLanguage.FieldText(sort.field);
    NamesFields(name, sort.field);
    if StartsWith(name, "-") {
      NamesFields(name[1..], sort.field);
      assert name == "-" + name[1..];
    }
    DirectoryLanguage.FieldIsSpelled(sort.field);
    NamesAreWords(sort.field);
    assert Alphanumeric(field[0]);
    assert ("-" + field)[1..] == field && "" + field == field;
  }

  const UNSORTABLE: set<Field> := {DepartmentSnapshot, Department, DepartmentSubtree}

  /** No column is sorted by twice, every one can be sorted by, and the unique key is among them. */
  ghost predicate GoodSorts(sorts: seq<Sort>) {
    && Distinct(sorts)
    && (exists i :: 0 <= i < |sorts| && sorts[i].field == PrincipalId)
  }

  ghost predicate Requested(names: seq<string>, sorts: seq<Sort>) {
    && |names| <= |sorts| <= |names| + 1
    && (forall i :: 0 <= i < |names| ==> Term(names[i], sorts[i]))
    && (|sorts| > |names| ==> sorts[|names|] == Sort(PrincipalId, false))
  }

  ghost predicate Unsortable(name: string) {
    forall sort :: Term(name, sort) ==> sort.field in UNSORTABLE
  }

  ghost predicate SameField(a: string, b: string) {
    exists s, t :: Term(a, s) && Term(b, t) && s.field == t.field
  }

  /** Some name is no sortable field, or two name the same one. */
  ghost predicate Refused(names: seq<string>) {
    || (exists i :: 0 <= i < |names| && Unsortable(names[i]))
    || (exists i, j :: 0 <= i < j < |names| && SameField(names[i], names[j]))
  }

  ghost predicate Distinct(sorts: seq<Sort>) {
    && (forall i :: 0 <= i < |sorts| ==> sorts[i].field !in UNSORTABLE)
    && (forall i, j :: 0 <= i < j < |sorts| ==> sorts[i].field != sorts[j].field)
  }

  /** The terms of the first names. */
  ghost predicate ParsedAs(names: seq<string>, sorts: seq<Sort>) {
    && |sorts| <= |names|
    && (forall i :: 0 <= i < |sorts| ==> Term(names[i], sorts[i]))
  }

  lemma NextTerm(names: seq<string>, sorts: seq<Sort>, sort: Sort)
    requires ParsedAs(names, sorts) && Distinct(sorts) && |sorts| < |names|
    requires Term(names[|sorts|], sort) && sort.field !in UNSORTABLE
    requires forall j :: 0 <= j < |sorts| ==> sorts[j].field != sort.field
    ensures ParsedAs(names, sorts + [sort]) && Distinct(sorts + [sort])
  {
    StaysDistinct(sorts, sort);
    StaysParsed(names, sorts, sort);
  }

  lemma StaysParsed(names: seq<string>, sorts: seq<Sort>, sort: Sort)
    requires ParsedAs(names, sorts) && |sorts| < |names| && Term(names[|sorts|], sort)
    ensures ParsedAs(names, sorts + [sort])
  {
    var all := sorts + [sort];
    forall i | 0 <= i < |all| ensures Term(names[i], all[i]) {
      assert i < |sorts| ==> all[i] == sorts[i];
    }
  }

  lemma StaysDistinct(sorts: seq<Sort>, sort: Sort)
    requires Distinct(sorts) && sort.field !in UNSORTABLE
    requires forall j :: 0 <= j < |sorts| ==> sorts[j].field != sort.field
    ensures Distinct(sorts + [sort])
  {
    var all := sorts + [sort];
    forall i, j | 0 <= i < j < |all| ensures all[i].field != all[j].field {
      assert all[i] == sorts[i];
    }
  }

  lemma BadTerm(names: seq<string>, i: nat)
    requires i < |names|
    requires ParseSort(names[i]).None? || !ParseSort(names[i]).value.field.Sortable()
    ensures Refused(names)
  {
    forall sort | Term(names[i], sort) ensures sort.field in UNSORTABLE {
      TermParsed(names[i], sort);
    }
    assert Unsortable(names[i]);
  }

  lemma RepeatedTerm(names: seq<string>, sorts: seq<Sort>, j: nat, sort: Sort)
    requires ParsedAs(names, sorts) && j < |sorts| < |names| && Term(names[|sorts|], sort)
    requires sorts[j].field == sort.field
    ensures Refused(names)
  {
    assert Term(names[j], sorts[j]);
    assert SameField(names[j], names[|sorts|]);
  }

  method RequestedSorts(names: seq<string>) returns (r: Option<seq<Sort>>)
    ensures r.None? ==> Refused(names)
    ensures r.Some? ==> |r.value| == |names| && Distinct(r.value) && ParsedAs(names, r.value)
  {
    var ordering: seq<Sort> := [];
    for i := 0 to |names|
      invariant |ordering| == i && Distinct(ordering) && ParsedAs(names, ordering)
    {
      var sort := ParseSort(names[i]);
      if sort.None? || !sort.value.field.Sortable() {
        BadTerm(names, i);
        return None;
      }
      TermParsed(names[i], sort.value);
      if j :| 0 <= j < |ordering| && ordering[j].field == sort.value.field {
        RepeatedTerm(names, ordering, j, sort.value);
        return None;
      }
      NextTerm(names, ordering, sort.value);
      ordering := ordering + [sort.value];
    }
    r := Some(ordering);
  }

  /** The ordering of a query: the requested terms, and the principal key last unless it was requested. */
  method ParseSorts(raw: Option<string>) returns (r: Option<seq<Sort>>)
    ensures r.Some? ==> GoodSorts(r.value)
    ensures raw.None? ==> r == Some([Sort(PrincipalId, false)])
    ensures raw.Some? && r.Some? ==> GoodNames(raw.value) && Requested(Split(raw.value), r.value)
    ensures r.None? ==> raw.Some? && (!GoodNames(raw.value) || Refused(Split(raw.value)))
  {
    var ordering: seq<Sort> := [];
    if raw.Some? {
      var names := Names(raw.value);
      if names.None? { return None; }
      var requested := RequestedSorts(names.value);
      if requested.None? { return None; }
      ordering := requested.value;
    }
    if !exists i | 0 <= i < |ordering| :: ordering[i].field == PrincipalId {
      ordering := ordering + [Sort(PrincipalId, false)];
      assert ordering[|ordering| - 1].field == PrincipalId;
      assert raw.None? ==> ordering == [Sort(PrincipalId, false)];
    }
    r := Some(ordering);
  }

  lemma {:induction false} WellFormedIsNonEmpty(e: Expression, canonical: Canonical)
    requires WellFormed(e, canonical)
    ensures NonEmpty(e)
  {
    if !e.Compare? {
      forall i | 0 <= i < |e.items| ensures NonEmpty(e.items[i]) {
        WellFormedIsNonEmpty(e.items[i], canonical);
      }
    }
  }

  /** From text to rows: what an accepted filter selects is what its tree says. */
  lemma AcceptedFilterSelects(raw: string, e: Expression, canonical: Canonical, env: Env)
    requires Stable(canonical) && ParseFilter(raw, canonical) == Some(e)
    ensures Selects(Emit(e), env) <==> Holds(e, env)
  {
    AcceptedIsInBudget(raw, e, canonical);
    WellFormedIsNonEmpty(e, canonical);
    FilterSelects(e, env);
  }

  // The query builder

  class QueryBuilder {
    var tokens: seq<Token>

    constructor ()
      ensures tokens == []
    {
      tokens := [];
    }

    method Push(t: seq<Token>)
      modifies this
      ensures tokens == old(tokens) + t
    {
      tokens := tokens + t;
    }

    method Filter(e: Expression)
      modifies this
      ensures tokens == old(tokens) + Emit(e)
      decreases e, 2
    {
      Push([Open]);
      match e {
        case And(items) => Items(items, AndWord);
        case Or(items) => Items(items, OrWord);
        case Compare(field, operator, values) => Comparison(field, operator, values);
      }
      assert tokens == old(tokens) + ([Open] + EmitBody(e));
      Push([Close]);
    }

    method Items(items: seq<Expression>, word: Token)
      modifies this
      ensures tokens == old(tokens) + Join(EmitAll(items), word)
      decreases items, 0
    {
      ghost var parts, start := EmitAll(items), tokens;
      assert parts[..0] == [];
      for i := 0 to |items|
        invariant tokens == start + Join(parts[..i], word)
      {
        PushedOne(start, parts, i, word);
        if i > 0 {
          Push([word]);
        }
        Filter(items[i]);
        assert parts[i] == Emit(items[i]);
      }
      assert parts[..|items|] == parts;
    }

    method Comparison(field: Field, operator: Operator, values: seq<string>)
      modifies this
      ensures tokens == old(tokens) + EmitCompare(field, operator, values)
    {
      if field.Membership() {
        Push([Test(Available), AndWord]);
        Push([Test(Ancestor(field.DepartmentSubtree?, First(values)))]);
      } else if operator.NullTest() {
        Push([Test(Missing(field, operator.IsNotNull?))]);
      } else if operator.Contains? {
        Push([Test(Holding(field, First(values)))]);
      } else {
        ghost var parts, start := ValueTests(field, operator, values), tokens;
        for i := 0 to |values|
          invariant tokens == start + Join(parts[..i], ValueWord(operator))
        {
          PushedOne(start, parts, i, ValueWord(operator));
          if i > 0 {
            Push([ValueWord(operator)]);
          }
          Push([Test(Compares(field, RelationOf(operator), Operand(field, values[i])))]);
        }
        assert parts[..|values|] == parts;
      }
    }

    method After(sorts: seq<Sort>, values: Key)
      requires |sorts| == |values|
      modifies this
      ensures tokens == old(tokens) + ([AndWord] + EmitAfter(sorts, values))
    {
      Push([AndWord]);
      Push([Open]);
      ghost var parts, start := Alternatives(sorts, values, |sorts|), tokens;
      for i := 0 to |sorts|
        invariant tokens == start + Join(parts[..i], OrWord)
      {
        PushedOne(start, parts, i, OrWord);
        if i > 0 {
          Push([OrWord]);
        }
        AfterColumn(sorts, values, i);
      }
      assert parts[..|sorts|] == parts;
      Push([Close]);
      Brackets(old(tokens) + [AndWord], Join(parts, OrWord));
      Associates(old(tokens), [AndWord], EmitAfter(sorts, values));
    }

    method AfterColumn(sorts: seq<Sort>, values: Key, index: nat)
      requires index < |sorts| == |values|
      modifies this
      ensures tokens == old(tokens) + Alternative(sorts, values, index)
    {
      Push([Open]);
      ghost var parts, last := PrefixTests(sorts, values, index), LastTest(sorts[index], values[index]);
      ghost var start := tokens;
      for prefix := 0 to index
        invariant tokens == start + Followed(parts[..prefix])
      {
        FollowedOne(start, parts, prefix);
        Push([Test(Same(sorts[prefix].field, values[prefix]))]);
        Push([AndWord]);
      }
      assert parts[..index] == parts;
      LastTests(sorts[index], values[index]);
      FollowedJoins(parts, last);
      Associates(start, Followed(parts), last);
      Push([Close]);
      Brackets(old(tokens), Join(parts + [last], AndWord));
    }

    method LastTests(sort: Sort, value: Option<Cell>)
      modifies this
      ensures tokens == old(tokens) + LastTest(sort, value)
    {
      if value.None? {
        Push([Test(Never)]);
      } else {
        var compares, missing := Test(Compares(sort.field, if sort.descending then Lt else Gt, value.value)),
                                 Test(Missing(sort.field, false));
        assert [[compares], [missing]][1..] == [[missing]];
        assert Join([[compares], [missing]], OrWord) == [compares, OrWord, missing];
        Push([Open, compares]);
        Push([OrWord, missing, Close]);
      }
    }
  }

  /** Each part followed by AND. */
  ghost function Followed(parts: seq<seq<Token>>): seq<Token> {
    if parts == [] then [] else Followed(parts[..|parts| - 1]) + parts[|parts| - 1] + [AndWord]
  }

  lemma {:induction false} FollowedJoins(parts: seq<seq<Token>>, last: seq<Token>)
    ensures Followed(parts) + last == Join(parts + [last], AndWord)
    decreases |parts|
  {
    if parts != [] {
      var n := |parts| - 1;
      FollowedJoins(parts[..n], parts[n]);
      assert parts[..n] + [parts[n]] == parts;
      JoinOne(parts + [last], n + 1, AndWord);
      assert (parts + [last])[..n + 1] == parts && (parts + [last])[..n + 2] == parts + [last];
    }
  }

  lemma FollowedOne(start: seq<Token>, parts: seq<seq<Token>>, i: nat)
    requires i < |parts|
    ensures start + Followed(parts[..i + 1]) == ((start + Followed(parts[..i])) + parts[i]) + [AndWord]
  {
    assert parts[..i + 1][..i] == parts[..i];
  }

  lemma Brackets(before: seq<Token>, t: seq<Token>)
    ensures ((before + [Open]) + t) + [Close] == before + DirectorySql.Bracketed(t)
  {
  }

  lemma {:induction false} JoinOne(parts: seq<seq<Token>>, i: nat, word: Token)
    requires i < |parts|
    ensures Join(parts[..i + 1], word) == Join(parts[..i], word) + (if i > 0 then [word] else []) + parts[i]
    decreases i
  {
    if i > 0 {
      JoinOne(parts[1..], i - 1, word);
      assert parts[..i + 1][1..] == parts[1..][..i] && parts[..i][1..] == parts[1..][..i - 1];
    }
  }

  /** What pushing the next part does to the tokens after `start`. */
  lemma PushedOne(start: seq<Token>, parts: seq<seq<Token>>, i: nat, word: Token)
    requires i < |parts|
    ensures i == 0 ==> start + Join(parts[..i + 1], word) == (start + Join(parts[..i], word)) + parts[i]
    ensures i > 0 ==> start + Join(parts[..i + 1], word) == ((start + Join(parts[..i], word)) + [word]) + parts[i]
  {
    JoinOne(parts, i, word);
  }

  // Pages

  method BuildQuery(query: Query, seek: Option<Key>) returns (tokens: seq<Token>)
    requires seek.Some? ==> |seek.value| == |query.sorts|
    ensures tokens == WhereClause(query, seek)
  {
    var sql := new QueryBuilder();
    if query.filter.Some? {
      sql.Filter(query.filter.value);
    } else {
      sql.Push([Test(Always)]);
    }
    ghost var wanted := if query.filter.Some? then Emit(query.filter.value) else [Test(Always)];
    assert sql.tokens == wanted;
    if seek.Some? {
      sql.After(query.sorts, seek.value);
    }
    tokens := sql.tokens;
    assert tokens == wanted + if seek.Some? then [AndWord] + EmitAfter(query.sorts, seek.value) else [];
  }

  /** One page and the position to go on from, if there is more. */
  method ListAccounts(table: seq<Row>, query: Query, seek: Option<Key>, lower: string -> string)
    returns (accounts: seq<Row>, next: Option<Key>)
    requires seek.Some? ==> |seek.value| == |query.sorts|
    ensures
      var rest := Remaining(table, query, seek, lower);
      && accounts == Take(rest, query.limit)
      && next == (if |rest| > query.limit && query.limit > 0
                  then Some(KeyOf(query.sorts, rest[query.limit - 1])) else None)
  {
    var tokens := BuildQuery(query, seek);
    var values := Fetch(table, tokens, query.sorts, query.limit + 1, lower);
    var more := |values| > query.limit;
    accounts := Take(values, query.limit);
    next := if more && accounts != [] then Some(KeyOf(query.sorts, accounts[|accounts| - 1])) else None;
    OnePage(Remaining(table, query, seek, lower), query.limit);
  }

  /** One row more than a page tells whether there is more, and the page is the same without it. */
  lemma OnePage(rest: seq<Row>, limit: nat)
    ensures Take(Take(rest, limit + 1), limit) == Take(rest, limit)
    ensures |Take(rest, limit + 1)| > limit <==> |rest| > limit
    ensures |rest| > limit > 0 ==> |Take(rest, limit)| == limit && Take(rest, limit)[limit - 1] == rest[limit - 1]
  {
  }

  /** The page that follows the first `k` rows of the listing, and the position after it if it is not the last. */
  ghost predicate Paged(all: seq<Row>, k: nat, query: Query, page: seq<Row>, next: Option<Key>)
    requires k <= |all|
  {
    && page == Take(all[k..], query.limit)
    && k + |page| <= |all|
    && next == if k + |page| < |all| then Position(all, k + |page|, query.sorts) else None
  }

  lemma PageOf(all: seq<Row>, rest: seq<Row>, k: nat, query: Query, page: seq<Row>, next: Option<Key>)
    requires k <= |all| && rest == all[k..] && query.limit > 0 && page == Take(rest, query.limit)
    requires next == if |rest| > query.limit then Some(KeyOf(query.sorts, rest[query.limit - 1])) else None
    ensures Paged(all, k, query, page, next)
  {
  }

  /** From every position in it, the query finds the rest of this listing. */
  ghost predicate Lists(table: seq<Row>, query: Query, lower: string -> string, all: seq<Row>) {
    && query.limit > 0
    && forall k {:trigger all[k..]} :: 0 <= k <= |all| ==>
         Remaining(table, query, Position(all, k, query.sorts), lower) == all[k..]
  }

  method NextPage(
    table: seq<Row>, query: Query, seek: Option<Key>, lower: string -> string, ghost all: seq<Row>, ghost k: nat)
    returns (page: seq<Row>, next: Option<Key>)
    requires Lists(table, query, lower, all) && k <= |all| && seek == Position(all, k, query.sorts)
    ensures Paged(all, k, query, page, next)
  {
    ghost var rest := all[k..];
    page, next := ListAccounts(table, query, seek, lower);
    PageOf(all, rest, k, query, page, next);
  }

  /** The client's loop over the pages of a listing. */
  method FollowPages(table: seq<Row>, query: Query, lower: string -> string, ghost all: seq<Row>)
    returns (rows: seq<Row>, pages: nat)
    requires Lists(table, query, lower, all)
    ensures rows == all && Fewest(|rows|, pages, query.limit)
  {
    rows, pages := [], 0;
    var seek: Option<Key> := None;
    var more := true;
    NothingYet(all, query);
    while more
      invariant |rows| <= |all|
      invariant more ==> Reached(all, rows, pages, query, seek)
      invariant !more ==> rows == all && Fewest(|rows|, pages, query.limit)
      decreases more, |all| - |rows|
    {
      var page, next := NextPage(table, query, seek, lower, all, |rows|);
      PageAdvances(all, rows, pages, query, seek, page, next);
      rows := rows + page;
      pages := pages + 1;
      more := next.Some?;
      seek := next;
    }
  }

  lemma EverythingIsListed(table: seq<Row>, query: Query, lower: string -> string)
    requires Keyed(table) && query.Valid()
    ensures Lists(table, query, lower, Everything(table, query, lower))
  {
    var all := Everything(table, query, lower);
    forall k | 0 <= k <= |all| ensures Remaining(table, query, Position(all, k, query.sorts), lower) == all[k..] {
      SeekFindsTheRest(table, query, lower, k);
    }
  }

  /**
    A client that follows the cursors over one snapshot of the table gets every matching row once and in order, on as
    few pages as the limit allows.
  */
  method FollowCursors(table: seq<Row>, query: Query, lower: string -> string) returns (rows: seq<Row>, pages: nat)
    requires Keyed(table) && query.Valid()
    ensures rows == Everything(table, query, lower)
    ensures Fewest(|rows|, pages, query.limit)
  {
    EverythingIsListed(table, query, lower);
    rows, pages := FollowPages(table, query, lower, Everything(table, query, lower));
  }

  /** How many rows this many full pages hold. */
  ghost function Full(pages: nat, limit: nat): nat {
    if pages == 0 then 0 else Full(pages - 1, limit) + limit
  }

  lemma {:induction false} FullIs(pages: nat, limit: nat)
    ensures Full(pages, limit) == pages * limit
  {
    if pages > 0 {
      FullIs(pages - 1, limit);
      assert pages * limit == (pages - 1) * limit + limit;
    }
  }

  /** No fewer pages would hold this many rows; an empty listing still takes one request. */
  ghost predicate Fewest(rows: nat, pages: nat, limit: nat) {
    && pages > 0
    && if rows == 0 then pages == 1 else Full(pages - 1, limit) < rows <= Full(pages, limit)
  }

  /** A listing takes as many pages as its rows fill, the last one perhaps in part, and an empty one takes one. */
  lemma FewestIsEnough(rows: nat, pages: nat, limit: nat)
    ensures Fewest(rows, pages, limit) <==>
      pages > 0 && if rows == 0 then pages == 1 else (pages - 1) * limit < rows <= pages * limit
  {
    FullIs(pages, limit);
    if pages > 0 {
      FullIs(pages - 1, limit);
    }
  }

  /** What the client has after these pages, all of them full, when there is more to come. */
  ghost predicate Reached(all: seq<Row>, rows: seq<Row>, pages: nat, query: Query, seek: Option<Key>) {
    && |rows| <= |all| && rows == all[..|rows|] && |rows| == Full(pages, query.limit) && (pages > 0 ==> |rows| < |all|)
    && seek == Position(all, |rows|, query.sorts)
  }

  lemma NothingYet(all: seq<Row>, query: Query)
    ensures Reached(all, [], 0, query, None)
  {
  }

  lemma PageAdvances(
    all: seq<Row>, rows: seq<Row>, pages: nat, query: Query, seek: Option<Key>, page: seq<Row>, next: Option<Key>)
    requires query.limit > 0 && Reached(all, rows, pages, query, seek) && Paged(all, |rows|, query, page, next)
    ensures |rows + page| <= |all|
    ensures next.Some? ==> |rows + page| > |rows| && Reached(all, rows + page, pages + 1, query, next)
    ensures next.None? ==> rows + page == all && Fewest(|rows + page|, pages + 1, query.limit)
  {
    assert rows + page == all[..|rows| + |page|];
    if pages > 0 {
      assert Full(pages, query.limit) > 0;
    }
  }
}
