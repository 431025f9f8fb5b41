/** Lists of identifiers in order, as `ORDER BY … LIMIT …` returns them. */
module Ordering {
  import opened Common

  type Id = nat

  ghost function Elements<T>(s: seq<T>): set<T> {
    set x | x in s
  }

  ghost predicate Distinct<T>(s: seq<T>) {
    forall i, j :: 0 <= i < j < |s| ==> s[i] != s[j]
  }

  lemma {:induction false} DistinctCount<T>(s: seq<T>)
    requires Distinct(s)
    ensures |Elements(s)| == |s|
  {
    if s != [] {
      var n := |s| - 1;
      DistinctCount(s[..n]);
      assert Elements(s) == Elements(s[..n]) + {s[n]};
      assert s[n] !in Elements(s[..n]);
    }
  }

  lemma {:induction false} LeastExists(s: set<Id>)
    requires s != {}
    ensures exists least :: least in s && forall x :: x in s ==> least <= x
    decreases |s|
  {
    var x :| x in s;
    if s - {x} != {} {
      LeastExists(s - {x});
      var y :| y in s - {x} && forall z :: z in s - {x} ==> y <= z;
      assert Min(x, y) in s && forall z :: z in s ==> Min(x, y) <= z by {
        forall z | z in s ensures Min(x, y) <= z {
          assert z == x || z in s - {x};
        }
      }
    } else {
      assert s == {x};
    }
  }

  lemma ElementsAppend<T>(s: seq<T>, x: T)
    ensures Elements(s + [x]) == Elements(s) + {x}
  {
  }

  predicate Ascending(ids: seq<Id>) {
    forall i, j :: 0 <= i < j < |ids| ==> ids[i] < ids[j]
  }

  /** The least ones of `keys` were taken, `rest` are the others. */
  ghost predicate Taken(keys: set<Id>, ids: seq<Id>, rest: set<Id>) {
    && Ascending(ids) && rest <= keys
    && (forall id :: id in ids ==> id in keys)
    && (forall id :: id in keys ==> id in ids || id in rest)
    && (ids != [] ==> forall id :: id in rest ==> ids[|ids| - 1] < id)
  }

  lemma TakenNext(keys: set<Id>, ids: seq<Id>, rest: set<Id>, least: Id)
    requires Taken(keys, ids, rest) && least in rest && forall x :: x in rest ==> least <= x
    ensures Taken(keys, ids + [least], rest - {least})
  {
  }

  /** The first identifiers in order, up to a limit. */
  method SelectIds(keys: set<Id>, limit: nat) returns (ids: seq<Id>)
    ensures Ascending(ids) && |ids| <= limit
    ensures forall id :: id in ids ==> id in keys
    ensures |ids| < limit ==> forall id :: id in keys ==> id in ids
  {
    var rest := keys;
    ids := [];
    while |ids| < limit && rest != {}
      invariant |ids| <= limit && Taken(keys, ids, rest)
      decreases |rest|
    {
      LeastExists(rest);
      var least :| least in rest && forall x :: x in rest ==> least <= x;
      TakenNext(keys, ids, rest, least);
      ids := ids + [least];
      rest := rest - {least};
    }
  }

  lemma AscendingCount(ids: seq<Id>, keys: set<Id>)
    requires Ascending(ids) && (forall id :: id in ids ==> id in keys)
    ensures Distinct(ids) && |ids| <= |keys|
    ensures (forall id :: id in keys ==> id in ids) ==> |ids| == |keys|
  {
    DistinctCount(ids);
    if forall id :: id in keys ==> id in ids {
      assert Elements(ids) == keys;
    }
    assert |keys| == |Elements(ids)| + |keys - Elements(ids)| by {
      assert keys == Elements(ids) + (keys - Elements(ids));
    }
  }
}
