/** The leaderboard ranking (src/utils/sortByKey.ts): an in-place, ascending sort
    of an array by a numeric key. `Array.prototype.sort` is stable, so the result is
    fully determined; it is specified here by a functional insertion sort, and the
    method is an insertion sort by adjacent swaps proved to produce exactly that
    sequence. The key is the field after `+` coercion, given as a function to `real`. */
module Sorting {

  /** `t` with `x` inserted after every element whose key is at most `key(x)`,
      counting from the end. */
  function Insert<T(!new)>(t: seq<T>, x: T, key: T -> real): (r: seq<T>)
    ensures |r| == |t| + 1
    decreases |t|
  {
    if t == [] then [x]
    else if key(t[|t| - 1]) <= key(x) then t + [x]
    else Insert(t[..|t| - 1], x, key) + [t[|t| - 1]]
  }

  /** Reference definition of the stable ascending sort. */
  function SortedByKey<T(!new)>(s: seq<T>, key: T -> real): (r: seq<T>)
    ensures |r| == |s|
    decreases |s|
  {
    if s == [] then [] else Insert(SortedByKey(s[..|s| - 1], key), s[|s| - 1], key)
  }

  ghost predicate Ascending<T>(s: seq<T>, key: T -> real)
  {
    forall i, j :: 0 <= i < j < |s| ==> key(s[i]) <= key(s[j])
  }

  /** The elements of `s` whose key equals `k`, in their order in `s`. */
  function FilterKey<T(!new)>(s: seq<T>, key: T -> real, k: real): seq<T>
    decreases |s|
  {
    if s == [] then []
    else FilterKey(s[..|s| - 1], key, k) + (if key(s[|s| - 1]) == k then [s[|s| - 1]] else [])
  }

  lemma {:induction false} InsertAscending<T(!new)>(t: seq<T>, x: T, key: T -> real)
    requires Ascending(t, key)
    ensures Ascending(Insert(t, x, key), key)
    decreases |t|
  {
    if t != [] && key(x) < key(t[|t| - 1]) {
      var init := t[..|t| - 1];
      var last := t[|t| - 1];
      InsertAscending(init, x, key);
      InsertMultiset(init, x, key);
      var r := Insert(init, x, key);
      forall i | 0 <= i < |r|
        ensures key(r[i]) <= key(last)
      {
        assert r[i] in multiset(r);
        if r[i] != x {
          assert r[i] in init;
        }
      }
    }
  }

  lemma {:induction false} InsertMultiset<T(!new)>(t: seq<T>, x: T, key: T -> real)
    ensures multiset(Insert(t, x, key)) == multiset(t) + multiset{x}
    decreases |t|
  {
    if t != [] && key(x) < key(t[|t| - 1]) {
      InsertMultiset(t[..|t| - 1], x, key);
      assert t == t[..|t| - 1] + [t[|t| - 1]];
    }
  }

  /** Inserting `x` adds it to the run of its own key, after the elements of
      that key already present, and leaves every other run unchanged. */
  lemma {:induction false} FilterInsert<T(!new)>(t: seq<T>, x: T, key: T -> real, k: real)
    ensures FilterKey(Insert(t, x, key), key, k)
         == FilterKey(t, key, k) + (if key(x) == k then [x] else [])
    decreases |t|
  {
    if t == [] {
      assert FilterKey([x], key, k) == FilterKey([], key, k) + (if key(x) == k then [x] else []);
    } else if key(t[|t| - 1]) <= key(x) {
      assert (t + [x])[..|t|] == t;
    } else {
      var init := t[..|t| - 1];
      var last := t[|t| - 1];
      FilterInsert(init, x, key, k);
      var r := Insert(init, x, key);
      assert (r + [last])[..|r|] == r;
    }
  }

  /** Sorting yields an ascending sequence. */
  lemma {:induction false} SortedAscending<T(!new)>(s: seq<T>, key: T -> real)
    ensures Ascending(SortedByKey(s, key), key)
    decreases |s|
  {
    if s != [] {
      SortedAscending(s[..|s| - 1], key);
      InsertAscending(SortedByKey(s[..|s| - 1], key), s[|s| - 1], key);
    }
  }

  /** Sorting is a permutation. */
  lemma {:induction false} SortedPermutation<T(!new)>(s: seq<T>, key: T -> real)
    ensures multiset(SortedByKey(s, key)) == multiset(s)
    decreases |s|
  {
    if s != [] {
      SortedPermutation(s[..|s| - 1], key);
      InsertMultiset(SortedByKey(s[..|s| - 1], key), s[|s| - 1], key);
      assert s == s[..|s| - 1] + [s[|s| - 1]];
    }
  }

  /** Sorting is stable: the elements of any one key keep their relative order. */
  lemma {:induction false} SortedStable<T(!new)>(s: seq<T>, key: T -> real, k: real)
    ensures FilterKey(SortedByKey(s, key), key, k) == FilterKey(s, key, k)
    decreases |s|
  {
    if s != [] {
      SortedStable(s[..|s| - 1], key, k);
      FilterInsert(SortedByKey(s[..|s| - 1], key), s[|s| - 1], key, k);
    }
  }

  /** `sortByKey(key, array)`: sorts `a` in place. */
  method SortByKey<T(!new)>(a: array<T>, key: T -> real)
    modifies a
    ensures a[..] == SortedByKey(old(a[..]), key)
    ensures Ascending(a[..], key) && multiset(a[..]) == multiset(old(a[..]))
  {
    ghost var s := a[..];
    var i := 0;
    while i < a.Length
      invariant 0 <= i <= a.Length
      invariant a[..i] == SortedByKey(s[..i], key)
      invariant a[i..] == s[i..]
    {
      assert s[..i + 1][..i] == s[..i];
      assert a[i] == s[i];
      InsertInPlace(a, i, key);
      assert a[i + 1..] == s[i + 1..];
      i := i + 1;
    }
    assert a[..] == a[..a.Length] && s == s[..a.Length];
    SortedAscending(s, key);
    SortedPermutation(s, key);
  }

  /** Moves `a[i]` left past every element of larger key: one pass of the sort. */
  method InsertInPlace<T(!new)>(a: array<T>, i: nat, key: T -> real)
    requires i < a.Length
    modifies a
    ensures a[..i + 1] == Insert(old(a[..i]), old(a[i]), key)
    ensures a[i + 1..] == old(a[i + 1..])
  {
    ghost var t := a[..i];
    ghost var x := a[i];
    ghost var rest := a[i + 1..];
    assert a[..] == Placed(t, x, i, rest);
    assert t[..i] == t && t[i..] == [];
    var j := i;
    while 0 < j && key(a[j]) < key(a[j - 1])
      invariant 0 <= j <= i
      invariant a[..] == Placed(t, x, j, rest)
      invariant Insert(t, x, key) == Insert(t[..j], x, key) + t[j..]
    {
      PlacedAt(t, x, j, rest);
      InsertStep(t, j, x, key);
      PlacedSwap(t, x, j, rest);
      ghost var before := a[..];
      a[j - 1], a[j] := a[j], a[j - 1];
      assert a[..] == before[j - 1 := x][j := t[j - 1]];
      j := j - 1;
    }
    if 0 < j {
      PlacedAt(t, x, j, rest);
    }
    PlacedDone(t, x, j, rest, key);
  }

  /** When the pass stops, `x` stands where `Insert` puts it. */
  lemma PlacedDone<T(!new)>(t: seq<T>, x: T, j: nat, rest: seq<T>, key: T -> real)
    requires j <= |t|
    requires 0 < j ==> key(t[j - 1]) <= key(x)
    requires Insert(t, x, key) == Insert(t[..j], x, key) + t[j..]
    ensures Placed(t, x, j, rest)[..|t| + 1] == Insert(t, x, key)
    ensures Placed(t, x, j, rest)[|t| + 1..] == rest
  {
    assert Insert(t[..j], x, key) == t[..j] + [x] by {
      if 0 < j {
        assert t[..j][j - 1] == t[j - 1];
      }
    }
  }

  /** The array during one pass: the sorted prefix `t` with `x` standing at index
      `j`, followed by the untouched `rest`. */
  function Placed<T>(t: seq<T>, x: T, j: nat, rest: seq<T>): (r: seq<T>)
    requires j <= |t|
    ensures |r| == |t| + 1 + |rest|
  {
    t[..j] + [x] + t[j..] + rest
  }

  lemma PlacedAt<T>(t: seq<T>, x: T, j: nat, rest: seq<T>)
    requires j <= |t|
    ensures Placed(t, x, j, rest)[j] == x
    ensures 0 < j ==> Placed(t, x, j, rest)[j - 1] == t[j - 1]
  {
  }

  /** Swapping `x` with its left neighbour moves it one place left. */
  lemma PlacedSwap<T>(t: seq<T>, x: T, j: nat, rest: seq<T>)
    requires 0 < j <= |t|
    ensures Placed(t, x, j, rest)[j - 1 := x][j := t[j - 1]] == Placed(t, x, j - 1, rest)
  {
    var p := Placed(t, x, j, rest)[j - 1 := x][j := t[j - 1]];
    var q := Placed(t, x, j - 1, rest);
    forall k | 0 <= k < |p|
      ensures p[k] == q[k]
    {
      if k < j - 1 {
        assert p[k] == t[k] == q[k];
      } else if j < k <= |t| {
        assert p[k] == t[k - 1] == q[k];
      }
    }
  }

  /** One swap of the inner loop: moving `x` past `t[j - 1]`, a larger key, leaves
      the result of inserting `x` the same. */
  lemma InsertStep<T(!new)>(t: seq<T>, j: nat, x: T, key: T -> real)
    requires 0 < j <= |t|
    requires key(x) < key(t[j - 1])
    ensures Insert(t[..j], x, key) + t[j..] == Insert(t[..j - 1], x, key) + t[j - 1..]
  {
    var u := t[..j];
    assert u[|u| - 1] == t[j - 1] && u[..|u| - 1] == t[..j - 1];
    assert t[j - 1..] == [t[j - 1]] + t[j..];
  }
}
