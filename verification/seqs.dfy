/** Sequence operations the passes share: first-occurrence de-duplication (the
    append-if-absent loops and `Series.unique`) and Python's stable key sort. */
module Seqs {

  predicate NoDup<T(==)>(s: seq<T>) {
    forall a, b :: 0 <= a < b < |s| ==> s[a] != s[b]
  }

  /** A sequence without repeats: its head is not in its tail, which has no repeats. */
  lemma NoDupCons<T>(s: seq<T>)
    requires s != [] && NoDup(s)
    ensures s[0] !in s[1..] && NoDup(s[1..])
  {
    forall a, b | 0 <= a < b < |s[1..]| ensures s[1..][a] != s[1..][b] {
      assert s[1..][a] == s[a + 1] && s[1..][b] == s[b + 1];
    }
    forall k | 0 <= k < |s[1..]| ensures s[1..][k] != s[0] {
      assert s[1..][k] == s[k + 1];
    }
  }

  /** Two sequences without repeats and without common values concatenate to one
      without repeats. */
  lemma NoDupAppend<T>(a: seq<T>, b: seq<T>)
    requires NoDup(a) && NoDup(b)
    requires forall x :: x in a ==> x !in b
    ensures NoDup(a + b)
  {
    forall i, j | 0 <= i < j < |a + b| ensures (a + b)[i] != (a + b)[j] {
      if j < |a| {
        assert (a + b)[i] == a[i] && (a + b)[j] == a[j];
      } else if i >= |a| {
        assert (a + b)[i] == b[i - |a|] && (a + b)[j] == b[j - |a|];
      } else {
        assert (a + b)[i] == a[i] && (a + b)[j] == b[j - |a|];
        assert a[i] in a && b[j - |a|] in b;
      }
    }
  }

  /** In a sequence without repeats every value occurs once or not at all. */
  lemma {:induction false} NoDupCount<T>(s: seq<T>, x: T)
    requires NoDup(s)
    ensures multiset(s)[x] == if x in s then 1 else 0
  {
    if s != [] {
      NoDupCons(s);
      NoDupCount(s[1..], x);
      assert s == [s[0]] + s[1..];
      assert multiset(s) == multiset{s[0]} + multiset(s[1..]);
    }
  }

  /** `n` copies of `x`. */
  function Repeat<T>(x: T, n: nat): (r: seq<T>)
    ensures |r| == n
    ensures forall k :: 0 <= k < n ==> r[k] == x
  {
    if n == 0 then [] else [x] + Repeat(x, n - 1)
  }

  /** `acc` followed by the elements of `xs` not seen before, in order of first appearance. */
  function AddNew<T(==)>(acc: seq<T>, xs: seq<T>): seq<T>
    decreases |xs|
  {
    if xs == [] then acc
    else AddNew(if xs[0] in acc then acc else acc + [xs[0]], xs[1..])
  }

  /** `pd.Series(xs).unique()`: each value once, in order of first appearance. */
  function Unique<T(==)>(xs: seq<T>): seq<T> {
    AddNew([], xs)
  }

  /** De-duplication keeps `acc` in front, adds each new value once, and loses
      nothing. */
  lemma {:induction false} AddNewSpec<T>(acc: seq<T>, xs: seq<T>)
    ensures NoDup(acc) ==> NoDup(AddNew(acc, xs))
    ensures forall x :: x in AddNew(acc, xs) <==> x in acc || x in xs
    ensures |acc| <= |AddNew(acc, xs)| && AddNew(acc, xs)[..|acc|] == acc
    decreases |xs|
  {
    if xs != [] {
      var acc' := if xs[0] in acc then acc else acc + [xs[0]];
      AddNewSpec(acc', xs[1..]);
      assert xs == [xs[0]] + xs[1..];
      assert AddNew(acc, xs)[..|acc|] == AddNew(acc', xs[1..])[..|acc'|][..|acc|];
    }
  }

  lemma UniqueSpec<T>(xs: seq<T>)
    ensures NoDup(Unique(xs))
    ensures forall x :: x in Unique(xs) <==> x in xs
  {
    AddNewSpec([], xs);
  }

  /** `score` never increases along `s`. */
  predicate NonIncreasing<T>(s: seq<T>, score: T -> int) {
    forall a, b :: 0 <= a < b < |s| ==> score(s[a]) >= score(s[b])
  }

  /** Two descending runs, the first never below the second, make one descending run. */
  lemma NonIncreasingAppend<T>(a: seq<T>, b: seq<T>, score: T -> int)
    requires NonIncreasing(a, score) && NonIncreasing(b, score)
    requires forall x, y :: x in a && y in b ==> score(x) >= score(y)
    ensures NonIncreasing(a + b, score)
  {
    forall i, j | 0 <= i < j < |a + b| ensures score((a + b)[i]) >= score((a + b)[j]) {
      if j < |a| {
        assert (a + b)[i] == a[i] && (a + b)[j] == a[j];
      } else if i >= |a| {
        assert (a + b)[i] == b[i - |a|] && (a + b)[j] == b[j - |a|];
      } else {
        assert (a + b)[i] == a[i] && (a + b)[j] == b[j - |a|];
        assert a[i] in a && b[j - |a|] in b;
      }
    }
  }

  /** Keeping first occurrences keeps a descending order. */
  lemma {:induction false} AddNewKeepsOrder<T>(acc: seq<T>, xs: seq<T>, score: T -> int)
    requires NonIncreasing(acc + xs, score)
    ensures NonIncreasing(AddNew(acc, xs), score)
    decreases |xs|
  {
    if xs == [] {
      assert acc + xs == acc;
    } else {
      var acc' := if xs[0] in acc then acc else acc + [xs[0]];
      forall a, b | 0 <= a < b < |acc' + xs[1..]|
        ensures score((acc' + xs[1..])[a]) >= score((acc' + xs[1..])[b])
      {
        var s := acc + xs;
        var a' := if a < |acc'| then a else a + (|acc| + 1 - |acc'|);
        var b' := if b < |acc'| then b else b + (|acc| + 1 - |acc'|);
        assert (acc' + xs[1..])[a] == s[a'];
        assert (acc' + xs[1..])[b] == s[b'];
      }
      AddNewKeepsOrder(acc', xs[1..], score);
    }
  }

  /** `key` never decreases along `s`. */
  predicate SortedByKey<T>(s: seq<T>, key: T -> nat) {
    forall a, b :: 0 <= a < b < |s| ==> key(s[a]) <= key(s[b])
  }

  /** A sequence with a head is sorted exactly when its tail is sorted and no key
      of the tail is below the head's. */
  lemma SortedCons<T>(x: T, t: seq<T>, key: T -> nat)
    ensures SortedByKey([x] + t, key) <==> SortedByKey(t, key) && forall k :: 0 <= k < |t| ==> key(x) <= key(t[k])
  {
    var r := [x] + t;
    if SortedByKey(r, key) {
      forall a, b | 0 <= a < b < |t| ensures key(t[a]) <= key(t[b]) {
        assert t[a] == r[a + 1] && t[b] == r[b + 1];
      }
      forall k | 0 <= k < |t| ensures key(x) <= key(t[k]) {
        assert r[0] == x && t[k] == r[k + 1];
      }
    }
    if SortedByKey(t, key) && forall k :: 0 <= k < |t| ==> key(x) <= key(t[k]) {
      forall a, b | 0 <= a < b < |r| ensures key(r[a]) <= key(r[b]) {
        assert r[b] == t[b - 1];
        if a > 0 { assert r[a] == t[a - 1]; }
      }
    }
  }

  /** The elements of `s` whose key is `k`, in order. */
  function WithKey<T>(s: seq<T>, key: T -> nat, k: nat): seq<T> {
    if s == [] then []
    else (if key(s[0]) == k then [s[0]] else []) + WithKey(s[1..], key, k)
  }

  /** Places `x` in front of the first element whose key is not smaller. */
  function Insert<T>(x: T, s: seq<T>, key: T -> nat): seq<T> {
    if s == [] then [x]
    else if key(x) <= key(s[0]) then [x] + s
    else [s[0]] + Insert(x, s[1..], key)
  }

  /** `sorted(s, key=key)`: a stable sort (insertion from the back). */
  function SortByKey<T>(s: seq<T>, key: T -> nat): seq<T> {
    if s == [] then [] else Insert(s[0], SortByKey(s[1..], key), key)
  }

  lemma {:induction false} InsertPermutes<T>(x: T, s: seq<T>, key: T -> nat)
    ensures multiset(Insert(x, s, key)) == multiset(s) + multiset{x}
  {
    if s != [] && key(x) > key(s[0]) {
      InsertPermutes(x, s[1..], key);
      assert s == [s[0]] + s[1..];
    }
  }

  lemma {:induction false} InsertSorted<T>(x: T, s: seq<T>, key: T -> nat)
    requires SortedByKey(s, key)
    ensures SortedByKey(Insert(x, s, key), key)
  {
    if s == [] {
    } else if key(x) <= key(s[0]) {
      SortedCons(s[0], s[1..], key);
      assert s == [s[0]] + s[1..];
      SortedCons(x, s, key);
    } else {
      SortedCons(s[0], s[1..], key);
      assert s == [s[0]] + s[1..];
      InsertSorted(x, s[1..], key);
      InsertPermutes(x, s[1..], key);
      var t := Insert(x, s[1..], key);
      forall k | 0 <= k < |t| ensures key(s[0]) <= key(t[k]) {
        assert t[k] in multiset(t);
        if t[k] != x {
          assert t[k] in multiset(s[1..]);
          var j :| 0 <= j < |s[1..]| && s[1..][j] == t[k];
        }
      }
      SortedCons(s[0], t, key);
    }
  }

  lemma WithKeyCons<T>(y: T, t: seq<T>, key: T -> nat, k: nat)
    ensures WithKey([y] + t, key, k) == (if key(y) == k then [y] else []) + WithKey(t, key, k)
  {
    assert ([y] + t)[0] == y && ([y] + t)[1..] == t;
  }

  /** Two short prefixes commute in front of `w` when one of them is empty. */
  lemma SwapPrefixes<T>(h0: seq<T>, hx: seq<T>, w: seq<T>)
    requires h0 == [] || hx == []
    ensures h0 + (hx + w) == hx + (h0 + w)
  {
    if h0 == [] {
      assert h0 + (hx + w) == hx + w;
    } else {
      assert hx + (h0 + w) == h0 + w;
    }
  }

  lemma {:induction false} InsertWithKey<T>(x: T, s: seq<T>, key: T -> nat, k: nat)
    ensures WithKey(Insert(x, s, key), key, k) == (if key(x) == k then [x] else []) + WithKey(s, key, k)
  {
    if s == [] {
      WithKeyCons(x, [], key, k);
      assert [x] + [] == [x];
    } else if key(x) <= key(s[0]) {
      WithKeyCons(x, s, key, k);
    } else {
      var t := Insert(x, s[1..], key);
      assert Insert(x, s, key) == [s[0]] + t;
      InsertWithKey(x, s[1..], key, k);
      WithKeyCons(s[0], t, key, k);
      WithKeyCons(s[0], s[1..], key, k);
      assert s == [s[0]] + s[1..];
      SwapPrefixes(if key(s[0]) == k then [s[0]] else [], if key(x) == k then [x] else [], WithKey(s[1..], key, k));
    }
  }

  /** The sort is a permutation, ordered by key, and stable: the elements sharing a
      key keep their relative order. */
  lemma {:induction false} SortByKeySpec<T>(s: seq<T>, key: T -> nat)
    ensures SortedByKey(SortByKey(s, key), key)
    ensures multiset(SortByKey(s, key)) == multiset(s)
    ensures forall k :: WithKey(SortByKey(s, key), key, k) == WithKey(s, key, k)
  {
    if s != [] {
      SortByKeySpec(s[1..], key);
      var t := SortByKey(s[1..], key);
      InsertSorted(s[0], t, key);
      InsertPermutes(s[0], t, key);
      forall k ensures WithKey(SortByKey(s, key), key, k) == WithKey(s, key, k) {
        InsertWithKey(s[0], t, key, k);
      }
      assert s == [s[0]] + s[1..];
    }
  }

  /** A rearrangement of a sequence without repeats has no repeats. */
  lemma NoDupPermutation<T>(s: seq<T>, t: seq<T>)
    requires NoDup(s) && multiset(s) == multiset(t)
    ensures NoDup(t)
  {
    forall a, b | 0 <= a < b < |t| ensures t[a] != t[b] {
      var x := t[a];
      NoDupCount(s, x);
      assert t == t[..b] + t[b..];
      assert t[..b][a] == x;
      assert multiset(t) == multiset(t[..b]) + multiset(t[b..]);
      assert multiset(t[b..])[x] == 0;
      assert t[b..][0] == t[b];
    }
  }

  lemma {:induction false} WithKeyMember<T>(s: seq<T>, key: T -> nat, k: nat, x: T)
    ensures x in WithKey(s, key, k) <==> x in s && key(x) == k
  {
    if s != [] {
      WithKeyMember(s[1..], key, k, x);
      assert s == [s[0]] + s[1..];
    }
  }

  /** The elements sharing a key keep a descending order of the whole. */
  lemma {:induction false} WithKeyKeepsOrder<T>(s: seq<T>, key: T -> nat, k: nat, score: T -> int)
    requires NonIncreasing(s, score)
    ensures NonIncreasing(WithKey(s, key, k), score)
  {
    if s != [] {
      var head := if key(s[0]) == k then [s[0]] else [];
      assert NonIncreasing(s[1..], score) by {
        forall a, b | 0 <= a < b < |s[1..]| ensures score(s[1..][a]) >= score(s[1..][b]) {
          assert s[1..][a] == s[a + 1] && s[1..][b] == s[b + 1];
        }
      }
      WithKeyKeepsOrder(s[1..], key, k, score);
      forall x, y | x in head && y in WithKey(s[1..], key, k) ensures score(x) >= score(y) {
        WithKeyMember(s[1..], key, k, y);
        var j :| 0 <= j < |s[1..]| && s[1..][j] == y;
        assert s[j + 1] == y;
      }
      NonIncreasingAppend(head, WithKey(s[1..], key, k), score);
    }
  }
}
