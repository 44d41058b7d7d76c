/** `sort.Slice` with a caller-supplied `less`. Go's sort is not stable and
    fixes no order among equivalent elements; insertion sort produces one of
    the orders it may produce. The result is always a permutation of the
    input, and it is sorted whenever `less` is a strict order on the
    elements. */
module Sorting {

  /** `less` is irreflexive and transitive on the elements of `s`. */
  predicate StrictOrderOn<T>(less: (T, T) -> bool, s: seq<T>)
  {
    (forall i :: 0 <= i < |s| ==> !less(s[i], s[i]))
    && (forall i, j, k :: 0 <= i < |s| && 0 <= j < |s| && 0 <= k < |s| ==>
          less(s[i], s[j]) && less(s[j], s[k]) ==> less(s[i], s[k]))
  }

  /** No element is `less` than one placed before it. */
  predicate SortedBy<T>(less: (T, T) -> bool, s: seq<T>)
  {
    forall i, j :: 0 <= i < j < |s| ==> !less(s[j], s[i])
  }

  /** A strict order on `s` is one on any sequence drawn from `s`. */
  lemma StrictOrderSubset<T>(less: (T, T) -> bool, s: seq<T>, t: seq<T>)
    requires StrictOrderOn(less, s)
    requires forall i :: 0 <= i < |t| ==> t[i] in s
    ensures StrictOrderOn(less, t)
  {
    forall i, j, k | 0 <= i < |t| && 0 <= j < |t| && 0 <= k < |t|
      ensures less(t[i], t[j]) && less(t[j], t[k]) ==> less(t[i], t[k])
    {
      var a :| 0 <= a < |s| && s[a] == t[i];
      var b :| 0 <= b < |s| && s[b] == t[j];
      var c :| 0 <= c < |s| && s[c] == t[k];
    }
    forall i | 0 <= i < |t|
      ensures !less(t[i], t[i])
    {
      var a :| 0 <= a < |s| && s[a] == t[i];
    }
  }

  /** A strict order on `s` is one on any permutation of `s`. */
  lemma StrictOrderPermutation<T>(less: (T, T) -> bool, s: seq<T>, t: seq<T>)
    requires StrictOrderOn(less, s)
    requires multiset(t) == multiset(s)
    ensures StrictOrderOn(less, t)
  {
    forall i | 0 <= i < |t|
      ensures t[i] in s
    {
      assert t[i] in multiset(t);
    }
    StrictOrderSubset(less, s, t);
  }

  /** Place `x` after every element it is not `less` than. */
  function Insert<T>(less: (T, T) -> bool, s: seq<T>, x: T): (r: seq<T>)
    ensures multiset(r) == multiset(s) + multiset{x}
    ensures |r| == |s| + 1
  {
    if |s| == 0 then [x]
    else if less(x, s[0]) then [x] + s
    else
      assert s == [s[0]] + s[1..];
      [s[0]] + Insert(less, s[1..], x)
  }

  /** Every element of `Insert(less, s, x)` is `x` or an element of `s`. */
  lemma {:induction false} InsertElements<T>(less: (T, T) -> bool, s: seq<T>, x: T, i: nat)
    requires i < |s| + 1
    ensures Insert(less, s, x)[i] == x || Insert(less, s, x)[i] in s
  {
    var r := Insert(less, s, x);
    assert r[i] in multiset(s) + multiset{x};
  }

  /** Inserting into a sorted sequence keeps it sorted. */
  lemma {:induction false} InsertSorted<T>(less: (T, T) -> bool, s: seq<T>, x: T)
    requires SortedBy(less, s)
    requires StrictOrderOn(less, s + [x])
    ensures SortedBy(less, Insert(less, s, x))
  {
    var all := s + [x];
    assert forall i :: 0 <= i < |s| ==> all[i] == s[i];
    assert all[|s|] == x;
    if |s| > 0 && !less(x, s[0]) {
      var tail := s[1..];
      assert StrictOrderOn(less, tail + [x]) by {
        var t := tail + [x];
        assert forall i :: 0 <= i < |t| ==> t[i] == all[i + 1];
      }
      InsertSorted(less, tail, x);
      var r := Insert(less, s, x);
      var rt := Insert(less, tail, x);
      assert r == [s[0]] + rt;
      forall j | 0 < j < |r|
        ensures !less(r[j], r[0])
      {
        InsertElements(less, tail, x, j - 1);
        if rt[j - 1] != x {
          var k :| 0 <= k < |tail| && tail[k] == rt[j - 1];
          assert s[k + 1] == r[j];
        }
      }
    } else if |s| > 0 {
      var r := [x] + s;
      forall i, j | 0 <= i < j < |r|
        ensures !less(r[j], r[i])
      {
        if i == 0 {
          // A later element below x would be below s[0] by transitivity.
          assert all[j - 1] == r[j] && all[0] == s[0];
        }
      }
    }
  }

  /** Insertion sort: a permutation of `s`. */
  function Sort<T>(less: (T, T) -> bool, s: seq<T>): (r: seq<T>)
    ensures multiset(r) == multiset(s)
    ensures |r| == |s|
  {
    if |s| == 0 then []
    else
      assert s == s[..|s| - 1] + [s[|s| - 1]];
      Insert(less, Sort(less, s[..|s| - 1]), s[|s| - 1])
  }

  /** Sorting under a strict order yields a sorted sequence. */
  lemma {:induction false} SortSorted<T>(less: (T, T) -> bool, s: seq<T>)
    requires StrictOrderOn(less, s)
    ensures SortedBy(less, Sort(less, s))
  {
    if |s| > 0 {
      var init := s[..|s| - 1];
      var x := s[|s| - 1];
      assert StrictOrderOn(less, init) by {
        assert forall i :: 0 <= i < |init| ==> init[i] == s[i];
        StrictOrderSubset(less, s, init);
      }
      SortSorted(less, init);
      var p := Sort(less, init);
      assert s == init + [x];
      assert multiset(p + [x]) == multiset(s);
      StrictOrderPermutation(less, s, p + [x]);
      InsertSorted(less, p, x);
    }
  }

  /** Inserting an element of a new key keeps the keys pairwise distinct. */
  lemma {:induction false} InsertDistinct<T, K>(less: (T, T) -> bool, s: seq<T>, x: T, key: T -> K)
    requires forall i, j :: 0 <= i < j < |s| ==> key(s[i]) != key(s[j])
    requires forall i :: 0 <= i < |s| ==> key(s[i]) != key(x)
    ensures forall i, j :: 0 <= i < j < |Insert(less, s, x)| ==>
      key(Insert(less, s, x)[i]) != key(Insert(less, s, x)[j])
  {
    if |s| > 0 && !less(x, s[0]) {
      var t := Insert(less, s[1..], x);
      InsertDistinct(less, s[1..], x, key);
      forall j | 0 <= j < |t|
        ensures key(t[j]) != key(s[0])
      {
        InsertElements(less, s[1..], x, j);
      }
    }
  }

  /** Sorting keeps the keys of the elements pairwise distinct. */
  lemma {:induction false} SortDistinct<T, K>(less: (T, T) -> bool, s: seq<T>, key: T -> K)
    requires forall i, j :: 0 <= i < j < |s| ==> key(s[i]) != key(s[j])
    ensures forall i, j :: 0 <= i < j < |Sort(less, s)| ==> key(Sort(less, s)[i]) != key(Sort(less, s)[j])
  {
    if |s| > 0 {
      var init := s[..|s| - 1];
      var x := s[|s| - 1];
      SortDistinct(less, init, key);
      var p := Sort(less, init);
      forall i | 0 <= i < |p|
        ensures key(p[i]) != key(x)
      {
        assert p[i] in multiset(init);
        var j :| 0 <= j < |init| && init[j] == p[i];
      }
      InsertDistinct(less, p, x, key);
    }
  }
}
