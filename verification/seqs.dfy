/** Sequence helpers shared by the query engine, the statistics and the
    vector store: result limits, filtering, first-occurrence de-duplication and
    occurrence tallies (the source's `map[string]int` counters). */
module Seqs {

  /** The common `if limit > 0 && len(s) > limit { s = s[:limit] }` step. */
  function ApplyLimit<T>(s: seq<T>, limit: int): (r: seq<T>)
    ensures r <= s
    ensures |r| < |s| <==> 0 < limit < |s|
    ensures |r| < |s| ==> |r| == limit
  {
    if limit > 0 && |s| > limit then s[..limit] else s
  }

  /** `r` is `s` cut to `limit`: its first `limit` elements when `limit` is
      positive and below the length, all of `s` otherwise. */
  ghost predicate LimitedTo<T>(r: seq<T>, s: seq<T>, limit: int)
  {
    |r| == (if 0 < limit < |s| then limit else |s|) && r == s[..|r|]
  }

  /** `ApplyLimit` cuts to the first `limit` elements. */
  lemma ApplyLimitLimited<T>(s: seq<T>, limit: int)
    ensures LimitedTo(ApplyLimit(s, limit), s, limit)
  {
  }

  /** Limiting twice with the same bound changes nothing more. */
  lemma LimitIdempotent<T>(s: seq<T>, limit: int)
    ensures ApplyLimit(ApplyLimit(s, limit), limit) == ApplyLimit(s, limit)
  {
  }

  /** The elements of `s` that satisfy `keep`, in their original order. */
  function Filter<T>(s: seq<T>, keep: T -> bool): (r: seq<T>)
    ensures |r| <= |s|
    ensures forall i :: 0 <= i < |r| ==> keep(r[i])
    ensures multiset(r) <= multiset(s)
  {
    if |s| == 0 then []
    else
      assert s == s[..|s| - 1] + [s[|s| - 1]];
      if keep(s[|s| - 1]) then Filter(s[..|s| - 1], keep) + [s[|s| - 1]]
      else Filter(s[..|s| - 1], keep)
  }

  /** Filtering drops exactly the elements that fail the test. */
  lemma {:induction false} FilterCount<T>(s: seq<T>, keep: T -> bool, x: T)
    ensures multiset(Filter(s, keep))[x] == if keep(x) then multiset(s)[x] else 0
  {
    if |s| > 0 {
      FilterCount(s[..|s| - 1], keep, x);
      assert s == s[..|s| - 1] + [s[|s| - 1]];
    }
  }

  /** `r` is `s` with some elements left out, the rest in their order. */
  predicate Subsequence<T(==)>(r: seq<T>, s: seq<T>)
    decreases |s|
  {
    |r| == 0
    || (|s| > 0
        && ((r[|r| - 1] == s[|s| - 1] && Subsequence(r[..|r| - 1], s[..|s| - 1]))
            || Subsequence(r, s[..|s| - 1])))
  }

  /** Filtering keeps the surviving elements in their original order. */
  lemma {:induction false} FilterSubsequence<T>(s: seq<T>, keep: T -> bool)
    ensures Subsequence(Filter(s, keep), s)
  {
    if |s| > 0 {
      var init := s[..|s| - 1];
      FilterSubsequence(init, keep);
      var r := Filter(s, keep);
      if keep(s[|s| - 1]) {
        assert r[..|r| - 1] == Filter(init, keep);
      }
    }
  }

  /** Whatever holds of every element still holds after filtering. */
  lemma FilterPreserves<T>(s: seq<T>, keep: T -> bool, p: T -> bool)
    requires forall i :: 0 <= i < |s| ==> p(s[i])
    ensures forall i :: 0 <= i < |Filter(s, keep)| ==> p(Filter(s, keep)[i])
  {
    var r := Filter(s, keep);
    forall i | 0 <= i < |r|
      ensures p(r[i])
    {
      assert r[i] in multiset(r);
      var j :| 0 <= j < |s| && s[j] == r[i];
    }
  }

  /** `r` holds exactly the elements of `s` that pass `keep`: in their order
      in `s`, each as often as there, and nothing else. */
  ghost predicate Filtered<T(!new)>(r: seq<T>, s: seq<T>, keep: T -> bool)
  {
    Subsequence(r, s)
    && (forall i :: 0 <= i < |r| ==> keep(r[i]))
    && (forall x :: keep(x) ==> multiset(r)[x] == multiset(s)[x])
  }

  /** `Filter` meets the description. */
  lemma FilterFiltered<T(!new)>(s: seq<T>, keep: T -> bool)
    ensures Filtered(Filter(s, keep), s, keep)
  {
    FilterSubsequence(s, keep);
    forall x | keep(x)
      ensures multiset(Filter(s, keep))[x] == multiset(s)[x]
    {
      FilterCount(s, keep, x);
    }
  }

  /** A subsequence takes no element more often than the sequence has it. */
  lemma {:induction false} SubsequenceMultiset<T>(r: seq<T>, s: seq<T>)
    requires Subsequence(r, s)
    ensures multiset(r) <= multiset(s)
    decreases |s|
  {
    if |r| > 0 {
      var s' := s[..|s| - 1];
      assert s == s' + [s[|s| - 1]];
      if r[|r| - 1] == s[|s| - 1] && Subsequence(r[..|r| - 1], s') {
        assert r == r[..|r| - 1] + [r[|r| - 1]];
        SubsequenceMultiset(r[..|r| - 1], s');
      } else {
        SubsequenceMultiset(r, s');
      }
    }
  }

  /** The description determines the result: `Filter` is the only sequence
      that meets it. */
  lemma {:induction false} FilteredUnique<T(!new)>(r: seq<T>, s: seq<T>, keep: T -> bool)
    requires Filtered(r, s, keep)
    ensures r == Filter(s, keep)
    decreases |s|
  {
    if |s| > 0 {
      var s' := s[..|s| - 1];
      var x := s[|s| - 1];
      assert s == s' + [x];
      if |r| > 0 && r[|r| - 1] == x && Subsequence(r[..|r| - 1], s') {
        var r' := r[..|r| - 1];
        assert r == r' + [x];
        assert keep(r[|r| - 1]);
        assert forall i :: 0 <= i < |r'| ==> r'[i] == r[i];
        FilteredUnique(r', s', keep);
      } else {
        SubsequenceMultiset(r, s');
        FilteredUnique(r, s', keep);
      }
    }
  }

  /** `f` applied to every element, in order. */
  function Map<T, U>(s: seq<T>, f: T -> U): (r: seq<U>)
    ensures |r| == |s| && forall i :: 0 <= i < |s| ==> r[i] == f(s[i])
  {
    seq(|s|, i requires 0 <= i < |s| => f(s[i]))
  }

  /** Mapping one more element appends its image. */
  lemma MapSnoc<T, U>(s: seq<T>, x: T, f: T -> U)
    ensures Map(s + [x], f) == Map(s, f) + [f(x)]
  {
  }

  /** The results of `f` on the elements of `s`, concatenated in order. */
  function FlatMap<T, U>(s: seq<T>, f: T -> seq<U>): (r: seq<U>)
  {
    if |s| == 0 then [] else FlatMap(s[..|s| - 1], f) + f(s[|s| - 1])
  }

  /** `x` is in the result of `f` on some element of `s`. */
  ghost predicate InSome<T, U>(s: seq<T>, f: T -> seq<U>, x: U)
  {
    exists i :: 0 <= i < |s| && x in f(s[i])
  }

  /** Some element of `s` yields `x` when one before the last does or the
      last one does. */
  lemma InSomeSnoc<T, U>(s: seq<T>, f: T -> seq<U>, x: U)
    requires |s| > 0
    ensures InSome(s, f, x) <==> InSome(s[..|s| - 1], f, x) || x in f(s[|s| - 1])
  {
    var init := s[..|s| - 1];
    var k := |s| - 1;
    if x in f(s[k]) {
      assert 0 <= k < |s| && x in f(s[k]);
    }
    if InSome(init, f, x) {
      var i :| 0 <= i < |init| && x in f(init[i]);
      assert s[i] == init[i];
    }
    if InSome(s, f, x) {
      var i :| 0 <= i < |s| && x in f(s[i]);
      if i < k {
        assert init[i] == s[i];
      }
    }
  }

  /** An element of a `FlatMap` comes from the result on some element. */
  lemma {:induction false} InFlatMap<T, U>(s: seq<T>, f: T -> seq<U>, x: U)
    ensures x in FlatMap(s, f) <==> InSome(s, f, x)
  {
    if |s| > 0 {
      InFlatMap(s[..|s| - 1], f, x);
      InSomeSnoc(s, f, x);
    }
  }

  /** A prefix of a subsequence is a subsequence. */
  lemma {:induction false} SubsequencePrefix<T>(r: seq<T>, s: seq<T>, k: nat)
    requires Subsequence(r, s) && k <= |r|
    ensures Subsequence(r[..k], s)
    decreases |s|
  {
    if k < |r| {
      var m := |s| - 1;
      if r[|r| - 1] == s[m] && Subsequence(r[..|r| - 1], s[..m]) {
        assert r[..k] == r[..|r| - 1][..k];
        SubsequencePrefix(r[..|r| - 1], s[..m], k);
      } else {
        SubsequencePrefix(r, s[..m], k);
      }
    } else {
      assert r[..k] == r;
    }
  }

  /** The set of keys of the elements of `s`. */
  function KeySet<T>(s: seq<T>, key: T -> string): set<string>
  {
    set i | 0 <= i < |s| :: key(s[i])
  }

  /** Keep the first element for every key, in order of first occurrence
      (the `seen[key]` idiom of the source). */
  function DistinctBy<T>(s: seq<T>, key: T -> string): (r: seq<T>)
    ensures forall i, j :: 0 <= i < j < |r| ==> key(r[i]) != key(r[j])
    ensures forall i :: 0 <= i < |r| ==> r[i] in s
    ensures KeySet(r, key) == KeySet(s, key)
  {
    if |s| == 0 then []
    else
      var init := s[..|s| - 1];
      var last := s[|s| - 1];
      var p := DistinctBy(init, key);
      assert KeySet(s, key) == KeySet(init, key) + {key(last)} by {
        assert forall i :: 0 <= i < |init| ==> s[i] == init[i];
      }
      if key(last) in KeySet(p, key) then p
      else
        var r := p + [last];
        assert KeySet(r, key) == KeySet(p, key) + {key(last)} by {
          assert forall i :: 0 <= i < |p| ==> r[i] == p[i];
          assert r[|p|] == last;
        }
        r
  }

  /** `x` occurs in `s` with no element of the same key before it. */
  predicate FirstOfKey<T(==)>(s: seq<T>, key: T -> string, x: T)
  {
    exists j :: 0 <= j < |s| && s[j] == x && forall k :: 0 <= k < j ==> key(s[k]) != key(x)
  }

  /** `DistinctBy` keeps the first element of each key, in input order. */
  lemma {:induction false} DistinctByFirst<T>(s: seq<T>, key: T -> string)
    ensures Subsequence(DistinctBy(s, key), s)
    ensures forall i :: 0 <= i < |DistinctBy(s, key)| ==> FirstOfKey(s, key, DistinctBy(s, key)[i])
  {
    if |s| > 0 {
      var init := s[..|s| - 1];
      var last := s[|s| - 1];
      DistinctByFirst(init, key);
      var p := DistinctBy(init, key);
      var r := DistinctBy(s, key);
      forall i | 0 <= i < |p|
        ensures FirstOfKey(s, key, p[i])
      {
        var j :| 0 <= j < |init| && init[j] == p[i] && forall k :: 0 <= k < j ==> key(init[k]) != key(p[i]);
        assert s[j] == p[i];
        assert forall k :: 0 <= k < j ==> s[k] == init[k];
      }
      if key(last) !in KeySet(p, key) {
        assert r == p + [last];
        assert r[..|r| - 1] == p;
        assert FirstOfKey(s, key, last) by {
          forall k | 0 <= k < |s| - 1
            ensures key(s[k]) != key(last)
          {
            assert key(init[k]) in KeySet(init, key);
          }
        }
      }
    }
  }

  /** How often a key was seen. */
  datatype Entry = Entry(key: string, count: nat)

  /** No two entries share a key. */
  predicate DistinctKeys(entries: seq<Entry>)
  {
    forall i, j :: 0 <= i < j < |entries| ==> entries[i].key != entries[j].key
  }

  /** The position of the entry for `k`, or -1. */
  function IndexOf(entries: seq<Entry>, k: string): (r: int)
    ensures -1 <= r < |entries|
    ensures r >= 0 ==> entries[r].key == k
    ensures r < 0 ==> forall i :: 0 <= i < |entries| ==> entries[i].key != k
  {
    if |entries| == 0 then -1
    else if entries[|entries| - 1].key == k then |entries| - 1
    else IndexOf(entries[..|entries| - 1], k)
  }

  /** The count recorded for `k`; zero when there is no entry. */
  function CountOf(entries: seq<Entry>, k: string): nat
  {
    var i := IndexOf(entries, k);
    if i < 0 then 0 else entries[i].count
  }

  /** With distinct keys, an entry's own count is the count of its key. */
  lemma CountOfEntry(entries: seq<Entry>, i: nat)
    requires DistinctKeys(entries) && i < |entries|
    ensures CountOf(entries, entries[i].key) == entries[i].count
  {
  }

  /** Replacing an entry by one with the same key does not move any key. */
  lemma {:induction false} IndexOfUpdate(entries: seq<Entry>, i: nat, e: Entry, x: string)
    requires i < |entries| && entries[i].key == e.key
    ensures IndexOf(entries[i := e], x) == IndexOf(entries, x)
  {
    var n := |entries| - 1;
    if i < n {
      assert entries[i := e][..n] == entries[..n][i := e];
      IndexOfUpdate(entries[..n], i, e, x);
    } else {
      assert entries[i := e][..n] == entries[..n];
    }
  }

  /** `counts[k]++`: bump the entry for `k`, or append a new one. */
  function Bump(entries: seq<Entry>, k: string): (r: seq<Entry>)
    requires DistinctKeys(entries)
    requires forall i :: 0 <= i < |entries| ==> entries[i].count > 0
    ensures DistinctKeys(r)
    ensures forall i :: 0 <= i < |r| ==> r[i].count > 0
    ensures forall x :: CountOf(r, x) == CountOf(entries, x) + (if x == k then 1 else 0)
  {
    var i := IndexOf(entries, k);
    if i < 0 then
      var r := entries + [Entry(k, 1)];
      assert r[..|entries|] == entries;
      r
    else
      var e := Entry(k, entries[i].count + 1);
      var r := entries[i := e];
      assert forall x :: IndexOf(r, x) == IndexOf(entries, x) by {
        forall x {
          IndexOfUpdate(entries, i, e, x);
        }
      }
      r
  }

  /** Occurrence counts of the keys of `s`, each key once, in order of first
      occurrence. */
  function Tally(s: seq<string>): (r: seq<Entry>)
    ensures DistinctKeys(r)
    ensures forall i :: 0 <= i < |r| ==> r[i].count > 0
    ensures forall x :: CountOf(r, x) == multiset(s)[x]
  {
    if |s| == 0 then []
    else
      assert s == s[..|s| - 1] + [s[|s| - 1]];
      Bump(Tally(s[..|s| - 1]), s[|s| - 1])
  }

  /** The sum of the counts. */
  function Total(entries: seq<Entry>): nat
  {
    if |entries| == 0 then 0 else Total(entries[..|entries| - 1]) + entries[|entries| - 1].count
  }

  lemma {:induction false} TotalUpdate(entries: seq<Entry>, i: nat, e: Entry)
    requires i < |entries|
    ensures Total(entries[i := e]) == Total(entries) - entries[i].count + e.count
  {
    var n := |entries| - 1;
    if i < n {
      TotalUpdate(entries[..n], i, e);
      assert entries[i := e][..n] == entries[..n][i := e];
    } else {
      assert entries[i := e][..n] == entries[..n];
    }
  }

  /** The total of a concatenation is the sum of the totals. */
  lemma {:induction false} TotalConcat(a: seq<Entry>, b: seq<Entry>)
    ensures Total(a + b) == Total(a) + Total(b)
    decreases |b|
  {
    if |b| == 0 {
      assert a + b == a;
    } else {
      TotalConcat(a, b[..|b| - 1]);
      assert (a + b)[..|a + b| - 1] == a + b[..|b| - 1];
    }
  }

  /** Reordering the entries does not change the total. */
  lemma {:induction false} TotalPermutation(a: seq<Entry>, b: seq<Entry>)
    requires multiset(a) == multiset(b)
    ensures Total(a) == Total(b)
    decreases |a|
  {
    if |a| == 0 {
      assert |b| == |multiset(b)| == 0;
    } else {
      var x := a[|a| - 1];
      var a' := a[..|a| - 1];
      assert a == a' + [x];
      assert x in multiset(b);
      var j :| 0 <= j < |b| && b[j] == x;
      var b' := b[..j] + b[j + 1..];
      assert b == b[..j] + [x] + b[j + 1..];
      assert multiset(b') == multiset(b) - multiset{x};
      TotalPermutation(a', b');
      TotalConcat(b[..j], [x]);
      TotalConcat(b[..j] + [x], b[j + 1..]);
      TotalConcat(b[..j], b[j + 1..]);
      assert Total([x]) == x.count by {
        assert [x][..0] == [];
      }
    }
  }

  /** Counting one more key adds one to the total. */
  lemma BumpTotal(entries: seq<Entry>, k: string)
    requires DistinctKeys(entries)
    requires forall i :: 0 <= i < |entries| ==> entries[i].count > 0
    ensures Total(Bump(entries, k)) == Total(entries) + 1
  {
    var i := IndexOf(entries, k);
    if i < 0 {
      assert (entries + [Entry(k, 1)])[..|entries|] == entries;
    } else {
      TotalUpdate(entries, i, Entry(k, entries[i].count + 1));
    }
  }

  /** Every key is counted: the counts add up to the number of keys. */
  lemma {:induction false} TallyTotal(s: seq<string>)
    ensures Total(Tally(s)) == |s|
  {
    if |s| > 0 {
      TallyTotal(s[..|s| - 1]);
      BumpTotal(Tally(s[..|s| - 1]), s[|s| - 1]);
    }
  }

  /** A key has an entry exactly when it occurs in the input. */
  lemma TallyKeys(s: seq<string>, x: string)
    ensures x in multiset(s) <==> exists i :: 0 <= i < |Tally(s)| && Tally(s)[i].key == x
  {
    EntryPresent(Tally(s), x);
  }

  /** With positive counts, a key has a count exactly when it has an entry. */
  lemma EntryPresent(r: seq<Entry>, x: string)
    requires forall i :: 0 <= i < |r| ==> r[i].count > 0
    ensures CountOf(r, x) > 0 <==> exists i :: 0 <= i < |r| && r[i].key == x
  {
    var k := IndexOf(r, x);
    if k >= 0 {
      assert r[k].key == x;
    }
  }
}
