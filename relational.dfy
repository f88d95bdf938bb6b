/** The whole-table operations the transformation applies with pandas:
    selecting a column, the left merge (pd.merge(..., how='left')),
    sort_values on one key, numbering rows after reset_index, and the
    minimum and maximum of a column. Tables are sequences of records. */
module Relational {
  import opened Nullable

  /** One column of a table: the cell `f` selects from every row, in row order. */
  function Column<T, U>(rows: seq<T>, f: T -> U): (c: seq<U>)
    ensures |c| == |rows|
    ensures forall i :: 0 <= i < |rows| ==> c[i] == f(rows[i])
  {
    seq(|rows|, i requires 0 <= i < |rows| => f(rows[i]))
  }

  // ---------------------------------------------------------------------
  // Left merge

  /** The rows of `right` whose key is k, in their order. */
  function Matches<R, K(==)>(right: seq<R>, rk: R -> K, k: K): (m: seq<R>)
    ensures |m| <= |right|
    ensures forall x :: x in m ==> x in right && rk(x) == k
    ensures (exists x :: x in right && rk(x) == k) ==> |m| > 0
    ensures (forall x :: x in right ==> rk(x) != k) ==> m == []
  {
    if right == [] then []
    else
      var rest := Matches(right[1..], rk, k);
      assert forall x :: x in right && x != right[0] ==> x in right[1..];
      (if rk(right[0]) == k then [right[0]] else []) + rest
  }

  /** The matches hold each right row of key k as often as `right` does,
      and no other row: one merged row per matching right row. */
  lemma {:induction false} MatchesCountsEveryMatch<R, K>(right: seq<R>, rk: R -> K, k: K)
    ensures forall x :: x in right ==> multiset(Matches(right, rk, k))[x] == if rk(x) == k then multiset(right)[x] else 0
  {
    if right != [] {
      MatchesCountsEveryMatch(right[1..], rk, k);
      assert right == [right[0]] + right[1..];
      var head := if rk(right[0]) == k then [right[0]] else [];
      var rest := Matches(right[1..], rk, k);
      assert Matches(right, rk, k) == head + rest;
      assert multiset(head + rest) == multiset(head) + multiset(rest);
      forall x | x in right
        ensures multiset(Matches(right, rk, k))[x] == if rk(x) == k then multiset(right)[x] else 0
      {
        if x !in right[1..] {
          assert multiset(right[1..])[x] == 0;
          assert multiset(rest)[x] == 0;
        }
      }
    }
  }

  /** The first row of `right` whose key is k, if any. */
  function Find<R, K(==)>(right: seq<R>, rk: R -> K, k: K): (r: Option<R>)
    ensures r.None? <==> forall x :: x in right ==> rk(x) != k
    ensures r.Some? ==> r.value in right && rk(r.value) == k
  {
    var m := Matches(right, rk, k);
    if m == [] then None
    else
      assert m[0] in m;
      Some(m[0])
  }

  /** No two rows of `rows` share a key. */
  predicate KeysUnique<R, K(==)>(rows: seq<R>, key: R -> K)
  {
    forall i, j :: 0 <= i < j < |rows| ==> key(rows[i]) != key(rows[j])
  }

  lemma {:induction false} MatchesOfUniqueKeys<R, K>(right: seq<R>, rk: R -> K, k: K)
    requires KeysUnique(right, rk)
    ensures |Matches(right, rk, k)| <= 1
  {
    if right != [] {
      var tail := right[1..];
      assert KeysUnique(tail, rk) by {
        forall i, j | 0 <= i < j < |tail| ensures rk(tail[i]) != rk(tail[j]) {
          assert tail[i] == right[i + 1] && tail[j] == right[j + 1];
        }
      }
      MatchesOfUniqueKeys(tail, rk, k);
      if rk(right[0]) == k {
        assert forall x :: x in tail ==> rk(x) != k by {
          forall x | x in tail ensures rk(x) != k {
            var j :| 0 <= j < |tail| && tail[j] == x;
            assert right[j + 1] == x;
          }
        }
      }
    }
  }

  /** The merged rows one left row yields: one per matching right row, in
      right order, or a single row with nothing on the right. */
  function JoinRow<L, R, K(==)>(l: L, right: seq<R>, lk: L -> K, rk: R -> K): (rows: seq<(L, Option<R>)>)
    ensures |rows| >= 1
    ensures forall p :: p in rows ==> p.0 == l
    ensures forall p :: p in rows && p.1.Some? ==> p.1.value in right && rk(p.1.value) == lk(l)
    ensures forall p :: p in rows && p.1.None? ==> forall x :: x in right ==> rk(x) != lk(l)
  {
    var m := Matches(right, rk, lk(l));
    if m == [] then [(l, None)]
    else seq(|m|, i requires 0 <= i < |m| => (l, Some(m[i])))
  }

  /** A left row's block has one merged row per matching right row, or a
      single row when none matches. */
  lemma JoinRowLength<L, R, K>(l: L, right: seq<R>, lk: L -> K, rk: R -> K)
    ensures var m := Matches(right, rk, lk(l));
            |JoinRow(l, right, lk, rk)| == if m == [] then 1 else |m|
  {
  }

  lemma JoinRowOfUniqueKeys<L, R, K>(l: L, right: seq<R>, lk: L -> K, rk: R -> K)
    requires KeysUnique(right, rk)
    ensures JoinRow(l, right, lk, rk) == [(l, Find(right, rk, lk(l)))]
  {
    MatchesOfUniqueKeys(right, rk, lk(l));
  }

  /** pd.merge(left, right, how='left'): every left row, in left order, each
      paired with every right row of equal key, or with none when no right
      row matches. Missing keys (None) match each other, as NaN keys do in pandas. */
  function LeftJoin<L, R, K(==)>(left: seq<L>, right: seq<R>, lk: L -> K, rk: R -> K): (j: seq<(L, Option<R>)>)
    ensures |j| >= |left|
    ensures forall x :: x in left ==> exists p :: p in j && p.0 == x
    ensures forall p :: p in j ==> p.0 in left
    ensures forall p :: p in j && p.1.Some? ==> p.1.value in right && rk(p.1.value) == lk(p.0)
    ensures forall p :: p in j && p.1.None? ==> forall x :: x in right ==> rk(x) != lk(p.0)
  {
    if left == [] then []
    else
      var first := JoinRow(left[0], right, lk, rk);
      var rest := LeftJoin(left[1..], right, lk, rk);
      assert first[0] in first + rest;
      assert forall x :: x in left && x != left[0] ==> x in left[1..];
      first + rest
  }

  /** The merge works left row by left row, in left order: merging a
      concatenation of left tables is concatenating their merges. */
  lemma {:induction false} LeftJoinAppend<L, R, K>(a: seq<L>, b: seq<L>, right: seq<R>, lk: L -> K, rk: R -> K)
    ensures LeftJoin(a + b, right, lk, rk) == LeftJoin(a, right, lk, rk) + LeftJoin(b, right, lk, rk)
  {
    if a == [] {
      assert a + b == b;
    } else {
      assert (a + b)[0] == a[0];
      assert (a + b)[1..] == a[1..] + b;
      LeftJoinAppend(a[1..], b, right, lk, rk);
    }
  }

  /** Left row i has a merged row of its own, at some position k. */
  lemma LeftJoinPositionOf<L, R, K>(left: seq<L>, right: seq<R>, lk: L -> K, rk: R -> K, i: int)
    requires 0 <= i < |left|
    ensures exists k :: 0 <= k < |LeftJoin(left, right, lk, rk)| && LeftJoin(left, right, lk, rk)[k].0 == left[i]
  {
    var j := LeftJoin(left, right, lk, rk);
    assert left[i] in left;
    var p :| p in j && p.0 == left[i];
    var k :| 0 <= k < |j| && j[k] == p;
  }

  /** One left row alone yields exactly its JoinRow block. */
  lemma LeftJoinOfOne<L, R, K>(l: L, right: seq<R>, lk: L -> K, rk: R -> K)
    ensures LeftJoin([l], right, lk, rk) == JoinRow(l, right, lk, rk)
  {
    assert [l][1..] == [];
  }

  /** No matching pair is dropped: every left row appears paired with every
      right row of its key. */
  lemma {:induction false} LeftJoinKeepsEveryMatch<L, R, K>(left: seq<L>, right: seq<R>, lk: L -> K, rk: R -> K, x: L, y: R)
    requires x in left && y in right && rk(y) == lk(x)
    ensures (x, Some(y)) in LeftJoin(left, right, lk, rk)
  {
    if left[0] == x {
      JoinRowKeepsEveryMatch(x, right, lk, rk, y);
      assert LeftJoin(left, right, lk, rk) == JoinRow(left[0], right, lk, rk) + LeftJoin(left[1..], right, lk, rk);
    } else {
      assert x in left[1..];
      LeftJoinKeepsEveryMatch(left[1..], right, lk, rk, x, y);
      assert LeftJoin(left, right, lk, rk) == JoinRow(left[0], right, lk, rk) + LeftJoin(left[1..], right, lk, rk);
    }
  }

  /** A left row's block pairs it with each matching right row, one merged
      row per match, or is a single unmatched row when nothing matches. */
  lemma JoinRowKeepsEveryMatch<L, R, K>(l: L, right: seq<R>, lk: L -> K, rk: R -> K, y: R)
    requires y in right && rk(y) == lk(l)
    ensures (l, Some(y)) in JoinRow(l, right, lk, rk)
  {
    var m := Matches(right, rk, lk(l));
    MatchesKeepsEveryMatch(right, rk, lk(l), y);
    var i :| 0 <= i < |m| && m[i] == y;
    assert JoinRow(l, right, lk, rk)[i] == (l, Some(y));
  }

  lemma {:induction false} MatchesKeepsEveryMatch<R, K>(right: seq<R>, rk: R -> K, k: K, y: R)
    requires y in right && rk(y) == k
    ensures y in Matches(right, rk, k)
  {
    if right[0] != y {
      assert y in right[1..];
      MatchesKeepsEveryMatch(right[1..], rk, k, y);
    }
  }

  /** With unique right keys the left merge is one-to-one: row i of the
      result is left row i with its single match, if any. */
  lemma {:induction false} LeftJoinOneToOne<L, R, K>(left: seq<L>, right: seq<R>, lk: L -> K, rk: R -> K)
    requires KeysUnique(right, rk)
    ensures |LeftJoin(left, right, lk, rk)| == |left|
    ensures forall i :: 0 <= i < |left| ==> LeftJoin(left, right, lk, rk)[i] == (left[i], Find(right, rk, lk(left[i])))
  {
    LeftJoinLength(left, right, lk, rk);
    forall i | 0 <= i < |left| ensures LeftJoin(left, right, lk, rk)[i] == (left[i], Find(right, rk, lk(left[i]))) {
      LeftJoinAt(left, right, lk, rk, i);
    }
  }

  lemma {:induction false} LeftJoinLength<L, R, K>(left: seq<L>, right: seq<R>, lk: L -> K, rk: R -> K)
    requires KeysUnique(right, rk)
    ensures |LeftJoin(left, right, lk, rk)| == |left|
  {
    if left != [] {
      JoinRowOfUniqueKeys(left[0], right, lk, rk);
      LeftJoinLength(left[1..], right, lk, rk);
    }
  }

  lemma {:induction false} LeftJoinAt<L, R, K>(left: seq<L>, right: seq<R>, lk: L -> K, rk: R -> K, i: int)
    requires KeysUnique(right, rk) && 0 <= i < |left|
    ensures |LeftJoin(left, right, lk, rk)| == |left|
    ensures LeftJoin(left, right, lk, rk)[i] == (left[i], Find(right, rk, lk(left[i])))
  {
    JoinRowOfUniqueKeys(left[0], right, lk, rk);
    var first := JoinRow(left[0], right, lk, rk);
    var rest := LeftJoin(left[1..], right, lk, rk);
    assert LeftJoin(left, right, lk, rk) == first + rest;
    LeftJoinLength(left[1..], right, lk, rk);
    if i == 0 {
      assert (first + rest)[0] == first[0];
    } else {
      LeftJoinAt(left[1..], right, lk, rk, i - 1);
      assert (first + rest)[i] == rest[i - 1];
      assert left[1..][i - 1] == left[i];
    }
  }

  /** A column computed from a one-to-one left merge: entry i is computed
      from left row i and its single match. */
  lemma JoinedColumn<L, R, K, U>(left: seq<L>, right: seq<R>, lk: L -> K, rk: R -> K, f: ((L, Option<R>)) -> U)
    requires KeysUnique(right, rk)
    ensures |Column(LeftJoin(left, right, lk, rk), f)| == |left|
    ensures forall i :: 0 <= i < |left| ==>
              Column(LeftJoin(left, right, lk, rk), f)[i] == f((left[i], Find(right, rk, lk(left[i]))))
  {
    LeftJoinOneToOne(left, right, lk, rk);
  }

  // ---------------------------------------------------------------------
  // Sorting and surrogate keys

  predicate SortedBy<T>(s: seq<T>, key: T -> int)
  {
    forall i, j :: 0 <= i < j < |s| ==> key(s[i]) <= key(s[j])
  }

  /** Inserts x into a sorted sequence before the first element whose key is
      not smaller, so that x stays ahead of the equal keys after it. */
  function InsertByKey<T>(x: T, s: seq<T>, key: T -> int): (r: seq<T>)
    requires SortedBy(s, key)
    ensures SortedBy(r, key)
    ensures multiset(r) == multiset(s) + multiset{x}
    ensures |r| == |s| + 1
    ensures r[0] == x || (|s| > 0 && r[0] == s[0])
  {
    if s == [] || key(x) <= key(s[0]) then [x] + s
    else
      var rest := InsertByKey(x, s[1..], key);
      assert s == [s[0]] + s[1..];
      [s[0]] + rest
  }

  /** sort_values(by=key): the rows in ascending key order (insertion sort,
      which keeps rows of equal key in input order). */
  function SortBy<T>(s: seq<T>, key: T -> int): (r: seq<T>)
    ensures SortedBy(r, key)
    ensures multiset(r) == multiset(s)
    ensures |r| == |s|
  {
    if s == [] then []
    else
      assert s == [s[0]] + s[1..];
      InsertByKey(s[0], SortBy(s[1..], key), key)
  }

  /** A dimension row: the surrogate key `id` followed by the row's attributes. */
  datatype Keyed<T> = Keyed(id: int, attrs: T)

  /** reset_index(drop=True) then df['id'] = df.index + 1. */
  function NumberRows<T>(rows: seq<T>): (r: seq<Keyed<T>>)
    ensures |r| == |rows|
    ensures forall i :: 0 <= i < |rows| ==> r[i] == Keyed(i + 1, rows[i])
  {
    seq(|rows|, i requires 0 <= i < |rows| => Keyed(i + 1, rows[i]))
  }

  function Attributes<T>(dim: seq<Keyed<T>>): (rows: seq<T>)
    ensures |rows| == |dim|
    ensures forall i :: 0 <= i < |dim| ==> rows[i] == dim[i].attrs
  {
    seq(|dim|, i requires 0 <= i < |dim| => dim[i].attrs)
  }

  /** `dim` is a dimension over `rows`: the same rows, each exactly as often,
      in ascending key order, numbered 1..N in that order. */
  ghost predicate IsDimensionOf<T>(dim: seq<Keyed<T>>, rows: seq<T>, key: T -> int)
  {
    && |dim| == |rows|
    && (forall i :: 0 <= i < |dim| ==> dim[i].id == i + 1)
    && (forall i, j :: 0 <= i < j < |dim| ==> key(dim[i].attrs) <= key(dim[j].attrs))
    && multiset(Attributes(dim)) == multiset(rows)
  }

  /** Sort by the natural key, then number the rows 1..N in that order. */
  function BuildDimension<T>(rows: seq<T>, key: T -> int): (dim: seq<Keyed<T>>)
    ensures IsDimensionOf(dim, rows, key)
  {
    var sorted := SortBy(rows, key);
    var dim := NumberRows(sorted);
    assert Attributes(dim) == sorted;
    dim
  }

  /** Every row of a dimension is one of its input rows, and back. */
  lemma DimensionRowsAreInputRows<T>(dim: seq<Keyed<T>>, rows: seq<T>, key: T -> int, x: T)
    requires IsDimensionOf(dim, rows, key)
    ensures x in Attributes(dim) <==> x in rows
  {
    assert x in Attributes(dim) <==> x in multiset(Attributes(dim));
    assert x in rows <==> x in multiset(rows);
  }

  /** How many rows have a key smaller than k. */
  function CountBelow<T>(s: seq<T>, key: T -> int, k: int): (n: nat)
    ensures n <= |s|
  {
    if s == [] then 0
    else (if key(s[0]) < k then 1 else 0) + CountBelow(s[1..], key, k)
  }

  lemma {:induction false} CountBelowOfMultiset<T>(a: seq<T>, b: seq<T>, key: T -> int, k: int)
    requires multiset(a) == multiset(b)
    ensures CountBelow(a, key, k) == CountBelow(b, key, k)
    decreases |a|
  {
    if a != [] {
      var x := a[0];
      assert x in multiset(b);
      var i :| 0 <= i < |b| && b[i] == x;
      MultisetWithout(a, b, i);
      CountBelowOfMultiset(a[1..], b[..i] + b[i + 1..], key, k);
      CountBelowRemove(b, key, k, i);
    }
  }

  /** Counting over a sequence is counting over it without element i, plus element i. */
  lemma CountBelowRemove<T>(b: seq<T>, key: T -> int, k: int, i: int)
    requires 0 <= i < |b|
    ensures CountBelow(b, key, k) == (if key(b[i]) < k then 1 else 0) + CountBelow(b[..i] + b[i + 1..], key, k)
  {
    var pre, post := b[..i], b[i + 1..];
    assert b == pre + ([b[i]] + post);
    CountBelowSplit(pre, [b[i]] + post, key, k);
    assert ([b[i]] + post)[1..] == post;
    CountBelowSplit(pre, post, key, k);
  }

  /** Taking out matching elements from two sequences with one multiset
      leaves sequences with one multiset. */
  lemma MultisetWithout<T>(a: seq<T>, b: seq<T>, i: int)
    requires multiset(a) == multiset(b) && 0 <= i < |b| && a != [] && b[i] == a[0]
    ensures multiset(a[1..]) == multiset(b[..i] + b[i + 1..])
  {
    assert a == [a[0]] + a[1..];
    assert multiset(a[1..]) == multiset(a) - multiset{a[0]};
    assert b == b[..i] + [b[i]] + b[i + 1..];
    assert multiset(b) == multiset(b[..i]) + multiset{b[i]} + multiset(b[i + 1..]);
    assert multiset(b[..i] + b[i + 1..]) == multiset(b[..i]) + multiset(b[i + 1..]);
  }

  lemma {:induction false} CountBelowSplit<T>(a: seq<T>, b: seq<T>, key: T -> int, k: int)
    ensures CountBelow(a + b, key, k) == CountBelow(a, key, k) + CountBelow(b, key, k)
  {
    if a == [] {
      assert a + b == b;
    } else {
      assert (a + b)[0] == a[0];
      assert (a + b)[1..] == a[1..] + b;
      CountBelowSplit(a[1..], b, key, k);
    }
  }

  /** In a sorted sequence with distinct keys, exactly the elements ahead of
      position i have a smaller key than element i. */
  lemma {:induction false} CountBelowInSorted<T>(s: seq<T>, key: T -> int, i: int)
    requires SortedBy(s, key) && KeysUnique(s, key)
    requires 0 <= i < |s|
    ensures CountBelow(s, key, key(s[i])) == i
  {
    if i == 0 {
      CountBelowNone(s, key, key(s[0]));
    } else {
      var tail := s[1..];
      assert SortedBy(tail, key) && KeysUnique(tail, key) by {
        forall a, b | 0 <= a < b < |tail| ensures key(tail[a]) <= key(tail[b]) && key(tail[a]) != key(tail[b]) {
          assert tail[a] == s[a + 1] && tail[b] == s[b + 1];
        }
      }
      assert tail[i - 1] == s[i];
      CountBelowInSorted(tail, key, i - 1);
      assert key(s[0]) < key(s[i]);
    }
  }

  lemma {:induction false} CountBelowNone<T>(s: seq<T>, key: T -> int, k: int)
    requires forall j :: 0 <= j < |s| ==> key(s[j]) >= k
    ensures CountBelow(s, key, k) == 0
  {
    if s != [] {
      CountBelowNone(s[1..], key, k);
    }
  }

  /** With distinct natural keys, a dimension row's surrogate key is one more
      than the number of input rows whose natural key is smaller: the key
      order alone decides every id. */
  lemma SurrogateKeyIsRank<T>(rows: seq<T>, key: T -> int, i: int)
    requires KeysUnique(rows, key)
    requires 0 <= i < |rows|
    ensures var dim := BuildDimension(rows, key);
            dim[i].id == CountBelow(rows, key, key(dim[i].attrs)) + 1
  {
    var dim := BuildDimension(rows, key);
    var attrs := Attributes(dim);
    CountBelowOfMultiset(attrs, rows, key, key(dim[i].attrs));
    assert KeysUnique(attrs, key) by {
      forall a, b | 0 <= a < b < |attrs| ensures key(attrs[a]) != key(attrs[b]) {
        if key(attrs[a]) == key(attrs[b]) {
          DistinctKeysNoRepeat(rows, attrs, key, a, b);
        }
      }
    }
    CountBelowInSorted(attrs, key, i);
  }

  /** When no left key equals any right key, no row of the join finds a match. */
  lemma JoinWithoutCommonKeys<L, R, K>(left: seq<L>, right: seq<R>, lk: L -> K, rk: R -> K)
    requires forall l, x :: l in left && x in right ==> lk(l) != rk(x)
    ensures forall p :: p in LeftJoin(left, right, lk, rk) ==> p.1.None?
  {
  }

  /** A dimension over one row is that row with id 1. */
  lemma SingleRowDimension<T>(dim: seq<Keyed<T>>, rows: seq<T>, key: T -> int)
    requires IsDimensionOf(dim, rows, key) && |rows| == 1
    ensures dim == [Keyed(1, rows[0])]
  {
    assert multiset(Attributes(dim)) == multiset{Attributes(dim)[0]} by {
      assert Attributes(dim) == [Attributes(dim)[0]];
    }
    assert multiset(rows) == multiset{rows[0]} by {
      assert rows == [rows[0]];
    }
  }

  /** Two rows listed against key order are numbered in key order. */
  lemma DimensionOfTwo<T>(x: T, y: T, key: T -> int)
    requires key(x) > key(y)
    ensures BuildDimension([x, y], key) == [Keyed(1, y), Keyed(2, x)]
  {
    assert SortBy([y], key) == [y] by {
      assert [y][1..] == [];
    }
    assert [x, y][1..] == [y];
    assert SortBy([x, y], key) == [y, x] by {
      assert [y][1..] == [];
      assert InsertByKey(x, [y], key) == [y] + InsertByKey(x, [], key);
    }
  }

  /** A permutation of rows with distinct keys has distinct keys too. */
  lemma DistinctKeysNoRepeat<T>(rows: seq<T>, perm: seq<T>, key: T -> int, a: int, b: int)
    requires KeysUnique(rows, key)
    requires multiset(perm) == multiset(rows)
    requires 0 <= a < b < |perm|
    ensures key(perm[a]) != key(perm[b])
  {
    if key(perm[a]) == key(perm[b]) {
      var k := key(perm[a]);
      CountEqualAtLeastTwo(perm, key, k, a, b);
      CountEqualOfMultiset(perm, rows, key, k);
      CountEqualAtMostOne(rows, key, k);
    }
  }

  function CountEqual<T>(s: seq<T>, key: T -> int, k: int): nat
  {
    if s == [] then 0
    else (if key(s[0]) == k then 1 else 0) + CountEqual(s[1..], key, k)
  }

  lemma {:induction false} CountEqualAtLeastTwo<T>(s: seq<T>, key: T -> int, k: int, a: int, b: int)
    requires 0 <= a < b < |s| && key(s[a]) == k && key(s[b]) == k
    ensures CountEqual(s, key, k) >= 2
  {
    if a > 0 {
      CountEqualAtLeastTwo(s[1..], key, k, a - 1, b - 1);
    } else {
      CountEqualAtLeastOne(s[1..], key, k, b - 1);
    }
  }

  lemma {:induction false} CountEqualAtLeastOne<T>(s: seq<T>, key: T -> int, k: int, b: int)
    requires 0 <= b < |s| && key(s[b]) == k
    ensures CountEqual(s, key, k) >= 1
  {
    if b > 0 {
      CountEqualAtLeastOne(s[1..], key, k, b - 1);
    }
  }

  lemma {:induction false} CountEqualAtMostOne<T>(s: seq<T>, key: T -> int, k: int)
    requires KeysUnique(s, key)
    ensures CountEqual(s, key, k) <= 1
  {
    if s != [] {
      var tail := s[1..];
      assert KeysUnique(tail, key) by {
        forall i, j | 0 <= i < j < |tail| ensures key(tail[i]) != key(tail[j]) {
          assert tail[i] == s[i + 1] && tail[j] == s[j + 1];
        }
      }
      CountEqualAtMostOne(tail, key, k);
      if key(s[0]) == k {
        CountEqualNone(tail, key, k);
      }
    }
  }

  lemma {:induction false} CountEqualNone<T>(s: seq<T>, key: T -> int, k: int)
    requires forall j :: 0 <= j < |s| ==> key(s[j]) != k
    ensures CountEqual(s, key, k) == 0
  {
    if s != [] {
      CountEqualNone(s[1..], key, k);
    }
  }

  lemma {:induction false} CountEqualOfMultiset<T>(a: seq<T>, b: seq<T>, key: T -> int, k: int)
    requires multiset(a) == multiset(b)
    ensures CountEqual(a, key, k) == CountEqual(b, key, k)
    decreases |a|
  {
    if a != [] {
      var x := a[0];
      assert x in multiset(b);
      var i :| 0 <= i < |b| && b[i] == x;
      MultisetWithout(a, b, i);
      CountEqualOfMultiset(a[1..], b[..i] + b[i + 1..], key, k);
      CountEqualRemove(b, key, k, i);
    }
  }

  /** Counting over a sequence is counting over it without element i, plus element i. */
  lemma CountEqualRemove<T>(b: seq<T>, key: T -> int, k: int, i: int)
    requires 0 <= i < |b|
    ensures CountEqual(b, key, k) == (if key(b[i]) == k then 1 else 0) + CountEqual(b[..i] + b[i + 1..], key, k)
  {
    var pre, post := b[..i], b[i + 1..];
    assert b == pre + ([b[i]] + post);
    CountEqualSplit(pre, [b[i]] + post, key, k);
    assert ([b[i]] + post)[1..] == post;
    CountEqualSplit(pre, post, key, k);
  }

  lemma {:induction false} CountEqualSplit<T>(a: seq<T>, b: seq<T>, key: T -> int, k: int)
    ensures CountEqual(a + b, key, k) == CountEqual(a, key, k) + CountEqual(b, key, k)
  {
    if a == [] {
      assert a + b == b;
    } else {
      assert (a + b)[0] == a[0];
      assert (a + b)[1..] == a[1..] + b;
      CountEqualSplit(a[1..], b, key, k);
    }
  }

  // ---------------------------------------------------------------------
  // Minimum and maximum of a column

  function Min(s: seq<int>): (m: int)
    requires |s| > 0
    ensures m in s
    ensures forall x :: x in s ==> m <= x
  {
    if |s| == 1 then s[0]
    else
      var rest := Min(s[1..]);
      assert forall x :: x in s && x != s[0] ==> x in s[1..];
      if s[0] <= rest then s[0] else rest
  }

  function Max(s: seq<int>): (m: int)
    requires |s| > 0
    ensures m in s
    ensures forall x :: x in s ==> x <= m
  {
    if |s| == 1 then s[0]
    else
      var rest := Max(s[1..]);
      assert forall x :: x in s && x != s[0] ==> x in s[1..];
      if s[0] >= rest then s[0] else rest
  }
}
