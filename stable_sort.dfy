/** `Array.prototype.sort` with a comparator, which the analyzer uses on a fresh
    copy of a list. The language guarantees a stable sort: the result is the
    unique permutation that is ordered by the comparator and keeps elements the
    comparator calls equal in their input order. It is modelled here as a
    stable insertion sort; a comparator result `c <= 0` means "may stay before". */
module StableSort {
  import opened Lists

  /** Inserts `x`, which came before every element of `s` in the input, in front
      of the first element it may stay before. */
  function Insert<T>(x: T, s: seq<T>, cmp: (T, T) -> real): (r: seq<T>)
    ensures multiset(r) == multiset{x} + multiset(s)
    ensures |r| == |s| + 1
  {
    if s == [] || cmp(x, s[0]) <= 0.0 then [x] + s
    else
      var rest := Insert(x, s[1..], cmp);
      assert s == [s[0]] + s[1..];
      [s[0]] + rest
  }

  /** The result of `s.sort(cmp)`: a permutation of `s`. */
  function Sort<T>(s: seq<T>, cmp: (T, T) -> real): (r: seq<T>)
    ensures multiset(r) == multiset(s)
    ensures |r| == |s|
  {
    if s == [] then []
    else
      var rest := Sort(s[1..], cmp);
      assert s == [s[0]] + s[1..];
      Insert(s[0], rest, cmp)
  }

  /** The comparator is consistent: any two elements are ordered one way or the
      other, and "may stay before" is transitive. */
  ghost predicate TotalPreorder<T(!new)>(cmp: (T, T) -> real)
  {
    && (forall x, y :: cmp(x, y) <= 0.0 || cmp(y, x) <= 0.0)
    && (forall x, y, z :: cmp(x, y) <= 0.0 && cmp(y, z) <= 0.0 ==> cmp(x, z) <= 0.0)
  }

  ghost predicate SortedBy<T>(s: seq<T>, cmp: (T, T) -> real)
  {
    forall i, j :: 0 <= i < j < |s| ==> cmp(s[i], s[j]) <= 0.0
  }

  lemma {:induction false} InsertSorted<T(!new)>(x: T, s: seq<T>, cmp: (T, T) -> real)
    requires TotalPreorder(cmp) && SortedBy(s, cmp)
    ensures SortedBy(Insert(x, s, cmp), cmp)
  {
    var r := Insert(x, s, cmp);
    if s == [] || cmp(x, s[0]) <= 0.0 {
      forall i, j | 0 <= i < j < |r| ensures cmp(r[i], r[j]) <= 0.0 {
        if i == 0 && j > 1 {
          assert r[j] == s[j - 1];
        }
      }
    } else {
      var rest := Insert(x, s[1..], cmp);
      assert SortedBy(s[1..], cmp);
      InsertSorted(x, s[1..], cmp);
      assert r == [s[0]] + rest;
      forall j | 0 < j < |r| ensures cmp(r[0], r[j]) <= 0.0 {
        assert r[j] in multiset(rest);
        if r[j] != x {
          assert r[j] in multiset(s[1..]);
          var k :| 0 <= k < |s[1..]| && s[1..][k] == r[j];
          assert s[k + 1] == r[j];
        }
      }
    }
  }

  /** `s.sort(cmp)` is ordered by any consistent comparator. */
  lemma {:induction false} SortSorted<T(!new)>(s: seq<T>, cmp: (T, T) -> real)
    requires TotalPreorder(cmp)
    ensures SortedBy(Sort(s, cmp), cmp)
  {
    if s != [] {
      SortSorted(s[1..], cmp);
      InsertSorted(s[0], Sort(s[1..], cmp), cmp);
    }
  }

  /** A comparator that calls every pair equal leaves the list as it is. */
  lemma {:induction false} SortAllEqual<T>(s: seq<T>, cmp: (T, T) -> real)
    requires forall x, y :: cmp(x, y) == 0.0
    ensures Sort(s, cmp) == s
  {
    if s != [] {
      SortAllEqual(s[1..], cmp);
      assert s == [s[0]] + s[1..];
    }
  }

  /** Sum of a real-valued measure over a list. */
  function SumOf<T>(s: seq<T>, f: T -> real): real
  {
    if s == [] then 0.0 else f(s[0]) + SumOf(s[1..], f)
  }

  lemma {:induction false} InsertPreservesSum<T>(x: T, s: seq<T>, cmp: (T, T) -> real, f: T -> real)
    ensures SumOf(Insert(x, s, cmp), f) == f(x) + SumOf(s, f)
  {
    if s != [] && cmp(x, s[0]) > 0.0 {
      InsertPreservesSum(x, s[1..], cmp, f);
    }
  }

  /** Sorting does not change the sum of any measure. */
  lemma {:induction false} SortPreservesSum<T>(s: seq<T>, cmp: (T, T) -> real, f: T -> real)
    ensures SumOf(Sort(s, cmp), f) == SumOf(s, f)
  {
    if s != [] {
      SortPreservesSum(s[1..], cmp, f);
      InsertPreservesSum(s[0], Sort(s[1..], cmp), cmp, f);
    }
  }

  /** No two elements of `s` share a key. */
  ghost predicate KeysDistinct<T, K>(s: seq<T>, key: T -> K)
  {
    forall i, j :: 0 <= i < j < |s| ==> key(s[i]) != key(s[j])
  }

  lemma {:induction false} InsertKeepsKeysDistinct<T, K>(x: T, s: seq<T>, cmp: (T, T) -> real, key: T -> K)
    requires KeysDistinct(s, key)
    requires forall k :: 0 <= k < |s| ==> key(s[k]) != key(x)
    ensures KeysDistinct(Insert(x, s, cmp), key)
  {
    var r := Insert(x, s, cmp);
    if s == [] || cmp(x, s[0]) <= 0.0 {
      forall i, j | 0 <= i < j < |r| ensures key(r[i]) != key(r[j]) {
        assert r[j] == s[j - 1];
        if i > 0 { assert r[i] == s[i - 1]; }
      }
    } else {
      var rest := Insert(x, s[1..], cmp);
      InsertKeepsKeysDistinct(x, s[1..], cmp, key);
      assert r == [s[0]] + rest;
      forall j | 0 < j < |r| ensures key(r[0]) != key(r[j]) {
        assert r[j] in multiset(rest);
        if r[j] != x {
          assert r[j] in multiset(s[1..]);
          var k :| 0 <= k < |s[1..]| && s[1..][k] == r[j];
          assert s[k + 1] == r[j];
        }
      }
      forall i, j | 0 < i < j < |r| ensures key(r[i]) != key(r[j]) {
        assert r[i] == rest[i - 1] && r[j] == rest[j - 1];
      }
    }
  }

  /** Sorting keeps keys distinct: it only reorders the elements. */
  lemma {:induction false} SortKeepsKeysDistinct<T, K>(s: seq<T>, cmp: (T, T) -> real, key: T -> K)
    requires KeysDistinct(s, key)
    ensures KeysDistinct(Sort(s, cmp), key)
  {
    if s != [] {
      assert KeysDistinct(s[1..], key);
      SortKeepsKeysDistinct(s[1..], cmp, key);
      var rest := Sort(s[1..], cmp);
      forall k | 0 <= k < |rest| ensures key(rest[k]) != key(s[0]) {
        assert rest[k] in multiset(s[1..]);
        var m :| 0 <= m < |s[1..]| && s[1..][m] == rest[k];
        assert s[m + 1] == rest[k];
      }
      InsertKeepsKeysDistinct(s[0], rest, cmp, key);
    }
  }

  /** Inserting `x` puts it in front of every element of its group: it moves
      only past elements it must not stay before. */
  lemma {:induction false} InsertSelect<T>(x: T, s: seq<T>, cmp: (T, T) -> real, p: T -> bool)
    requires p(x) ==> forall e :: p(e) ==> cmp(x, e) <= 0.0
    ensures Select(Insert(x, s, cmp), p) == (if p(x) then [x] else []) + Select(s, p)
  {
    if s == [] || cmp(x, s[0]) <= 0.0 {
      assert ([x] + s)[1..] == s;
    } else {
      InsertSelect(x, s[1..], cmp, p);
      assert ([s[0]] + Insert(x, s[1..], cmp))[1..] == Insert(x, s[1..], cmp);
    }
  }

  /** Stability: elements of a group whose members may all stay before one
      another keep their input order. */
  lemma {:induction false} SortKeepsGroupOrder<T>(s: seq<T>, cmp: (T, T) -> real, p: T -> bool)
    requires forall a, b :: p(a) && p(b) ==> cmp(a, b) <= 0.0
    ensures Select(Sort(s, cmp), p) == Select(s, p)
  {
    if s != [] {
      SortKeepsGroupOrder(s[1..], cmp, p);
      InsertSelect(s[0], Sort(s[1..], cmp), cmp, p);
    }
  }

  /** Elements the comparator calls equal to `x` in both directions. */
  ghost predicate Tied<T>(cmp: (T, T) -> real, x: T, y: T)
  {
    cmp(x, y) <= 0.0 && cmp(y, x) <= 0.0
  }

  /** Under a consistent comparator, the elements tied with any `x` appear in
      the sorted list in their input order. */
  lemma SortStable<T(!new)>(s: seq<T>, cmp: (T, T) -> real, x: T)
    requires TotalPreorder(cmp)
    ensures Select(Sort(s, cmp), y => Tied(cmp, x, y)) == Select(s, y => Tied(cmp, x, y))
  {
    var p := y => Tied(cmp, x, y);
    forall a, b | p(a) && p(b) ensures cmp(a, b) <= 0.0 {
      assert cmp(a, x) <= 0.0 && cmp(x, b) <= 0.0;
    }
    SortKeepsGroupOrder(s, cmp, p);
  }
}
