/** The array operations the history store and the spreadsheet helpers
    apply to copies of their data.

    `Array.prototype.sort` with a numeric comparator is stable (ECMAScript
    2019 and later), so its result is fixed by the comparator: `SortByKey`
    is an insertion sort that places the larger keys first, and
    `StableSortUnique` shows that any stable sort by descending key gives
    the same sequence. Then `Array.prototype.filter` and
    `Array.prototype.slice(0, end)`. */
module Sequences {
  import opened Wrappers

  /** Non-increasing keys: what a comparator `(a, b) => key(b) - key(a)` sorts into. */
  predicate Descending<T>(s: seq<T>, key: T -> real) {
    forall i, j :: 0 <= i < j < |s| ==> key(s[i]) >= key(s[j])
  }

  /** The elements whose key is `k`, in their order in `s`. */
  function WithKey<T>(s: seq<T>, key: T -> real, k: real): seq<T> {
    if s == [] then [] else (if key(s[0]) == k then [s[0]] else []) + WithKey(s[1..], key, k)
  }

  /** Inserts `x` before the first element with a smaller key, so that it
      stays before the elements whose key equals its own. */
  function Insert<T>(x: T, s: seq<T>, key: T -> real): seq<T> {
    if s == [] || key(x) >= key(s[0]) then [x] + s else [s[0]] + Insert(x, s[1..], key)
  }

  /** The stable sort of `s` by descending key. */
  function SortByKey<T>(s: seq<T>, key: T -> real): seq<T> {
    if s == [] then [] else Insert(s[0], SortByKey(s[1..], key), key)
  }

  lemma InsertFacts<T>(x: T, s: seq<T>, key: T -> real)
    requires Descending(s, key)
    ensures Descending(Insert(x, s, key), key)
    ensures multiset(Insert(x, s, key)) == multiset{x} + multiset(s)
    ensures |Insert(x, s, key)| == |s| + 1
    ensures forall k :: WithKey(Insert(x, s, key), key, k)
                        == (if key(x) == k then [x] else []) + WithKey(s, key, k)
  {
    InsertDescending(x, s, key);
    InsertCounts(x, s, key);
    forall k ensures WithKey(Insert(x, s, key), key, k) == (if key(x) == k then [x] else []) + WithKey(s, key, k) {
      InsertWithKey(x, s, key, k);
    }
  }

  lemma {:induction false} InsertDescending<T>(x: T, s: seq<T>, key: T -> real)
    requires Descending(s, key)
    ensures Descending(Insert(x, s, key), key)
    decreases |s|
  {
    var r := Insert(x, s, key);
    if s == [] || key(x) >= key(s[0]) {
      assert r == [x] + s;
      forall i, j | 0 <= i < j < |r| ensures key(r[i]) >= key(r[j]) {
        if i == 0 && j > 1 {
          assert r[j] == s[j - 1] && s[0] == r[1];
        }
      }
    } else {
      DescendingTail(s, key);
      InsertDescending(x, s[1..], key);
      InsertBelowHead(x, s, key);
    }
  }

  lemma {:induction false} InsertCounts<T>(x: T, s: seq<T>, key: T -> real)
    ensures multiset(Insert(x, s, key)) == multiset{x} + multiset(s)
    ensures |Insert(x, s, key)| == |s| + 1
    decreases |s|
  {
    if s != [] && key(x) < key(s[0]) {
      InsertCounts(x, s[1..], key);
      assert s == [s[0]] + s[1..];
    }
  }

  lemma {:induction false} InsertWithKey<T>(x: T, s: seq<T>, key: T -> real, k: real)
    ensures WithKey(Insert(x, s, key), key, k) == (if key(x) == k then [x] else []) + WithKey(s, key, k)
    decreases |s|
  {
    var r := Insert(x, s, key);
    if s == [] || key(x) >= key(s[0]) {
      assert r[1..] == s;
    } else {
      InsertWithKey(x, s[1..], key, k);
      assert r[1..] == Insert(x, s[1..], key);
    }
  }

  /** Inserting below the head of a descending sequence keeps it descending. */
  lemma InsertBelowHead<T>(x: T, s: seq<T>, key: T -> real)
    requires s != [] && key(x) < key(s[0]) && Descending(s, key)
    requires Descending(Insert(x, s[1..], key), key)
    ensures Descending(Insert(x, s, key), key)
  {
    var t := Insert(x, s[1..], key);
    var r := Insert(x, s, key);
    assert r == [s[0]] + t;
    assert t[0] == x || t[0] == s[1];
    forall i, j | 0 <= i < j < |r| ensures key(r[i]) >= key(r[j]) {
      assert r[j] == t[j - 1];
      if i == 0 {
        assert key(t[0]) >= key(t[j - 1]);
      } else {
        assert r[i] == t[i - 1];
      }
    }
  }

  /** The result is sorted by descending key, is a permutation of the
      input, and keeps the input order among elements with equal keys. */
  lemma {:induction false} SortByKeyFacts<T>(s: seq<T>, key: T -> real)
    ensures Descending(SortByKey(s, key), key)
    ensures multiset(SortByKey(s, key)) == multiset(s)
    ensures |SortByKey(s, key)| == |s|
    ensures forall k :: WithKey(SortByKey(s, key), key, k) == WithKey(s, key, k)
    decreases |s|
  {
    if s != [] {
      SortByKeyFacts(s[1..], key);
      InsertFacts(s[0], SortByKey(s[1..], key), key);
      assert s == [s[0]] + s[1..];
      forall k ensures WithKey(SortByKey(s, key), key, k) == WithKey(s, key, k) {
        assert WithKey(s, key, k) == (if key(s[0]) == k then [s[0]] else []) + WithKey(s[1..], key, k);
      }
    }
  }

  lemma {:induction false} WithKeyNonEmpty<T>(s: seq<T>, key: T -> real, i: nat)
    requires i < |s|
    ensures WithKey(s, key, key(s[i])) != []
    decreases i
  {
    if i > 0 {
      WithKeyNonEmpty(s[1..], key, i - 1);
      assert s[1..][i - 1] == s[i];
    }
  }

  /** In a descending sequence, the first element with key `k` is the head
      when `k` is the head's key. */
  lemma WithKeyHead<T>(s: seq<T>, key: T -> real)
    requires s != []
    ensures WithKey(s, key, key(s[0])) == [s[0]] + WithKey(s[1..], key, key(s[0]))
  {
  }

  /** Every key of `s` other than the head's is met in the tail alone. */
  lemma WithKeyTail<T>(s: seq<T>, key: T -> real, k: real)
    requires s != [] && k != key(s[0])
    ensures WithKey(s, key, k) == WithKey(s[1..], key, k)
  {
  }

  /** A sequence sorted by descending key is determined by the elements of
      each key taken in order; so every stable sort by descending key
      gives `SortByKey`. */
  lemma {:induction false} StableSortUnique<T>(s: seq<T>, t: seq<T>, key: T -> real)
    requires Descending(s, key) && Descending(t, key)
    requires forall k :: WithKey(s, key, k) == WithKey(t, key, k)
    ensures s == t
    decreases |s| + |t|
  {
    if s != [] {
      WithKeyNonEmpty(s, key, 0);
    }
    if t != [] {
      WithKeyNonEmpty(t, key, 0);
    }
    if s == [] || t == [] {
      // the head of the other one has a key that no element here has
    } else {
      var ks, kt := key(s[0]), key(t[0]);
      assert ks == kt by {
        if ks > kt {
          // the head of `s` has a key that no element of `t` reaches
          NoLargerKey(t, key, ks);
        } else if ks < kt {
          NoLargerKey(s, key, kt);
        }
      }
      WithKeyHead(s, key);
      WithKeyHead(t, key);
      assert s[0] == WithKey(s, key, ks)[0] == WithKey(t, key, kt)[0] == t[0];
      forall k ensures WithKey(s[1..], key, k) == WithKey(t[1..], key, k) {
        if k == ks {
          assert WithKey(s[1..], key, k) == WithKey(s, key, k)[1..];
          assert WithKey(t[1..], key, k) == WithKey(t, key, k)[1..];
        } else {
          WithKeyTail(s, key, k);
          WithKeyTail(t, key, k);
        }
      }
      DescendingTail(s, key);
      DescendingTail(t, key);
      StableSortUnique(s[1..], t[1..], key);
      assert s == [s[0]] + s[1..] && t == [t[0]] + t[1..];
    }
  }

  lemma DescendingTail<T>(s: seq<T>, key: T -> real)
    requires s != [] && Descending(s, key)
    ensures Descending(s[1..], key)
  {
    forall i, j | 0 <= i < j < |s[1..]| ensures key(s[1..][i]) >= key(s[1..][j]) {
      assert s[1..][i] == s[i + 1] && s[1..][j] == s[j + 1];
    }
  }

  /** A key larger than the head's key of a descending sequence is the key
      of none of its elements. */
  lemma {:induction false} NoLargerKey<T>(s: seq<T>, key: T -> real, k: real)
    requires s != [] && Descending(s, key) && k > key(s[0])
    ensures WithKey(s, key, k) == []
    decreases |s|
  {
    if |s| > 1 {
      DescendingTail(s, key);
      assert key(s[1]) <= key(s[0]);
      NoLargerKey(s[1..], key, k);
    } else {
      assert s[1..] == [];
    }
  }

  /** Any stable sort by descending key is `SortByKey`. */
  lemma SortByKeyIsTheStableSort<T>(s: seq<T>, t: seq<T>, key: T -> real)
    requires Descending(t, key) && forall k :: WithKey(t, key, k) == WithKey(s, key, k)
    ensures t == SortByKey(s, key)
  {
    SortByKeyFacts(s, key);
    StableSortUnique(t, SortByKey(s, key), key);
  }

  /** With a comparator that always returns 0, a stable sort keeps the order. */
  lemma {:induction false} ConstantKeyKeepsOrder<T>(s: seq<T>, key: T -> real)
    requires forall x, y :: key(x) == key(y)
    ensures SortByKey(s, key) == s
    decreases |s|
  {
    if s != [] {
      ConstantKeyKeepsOrder(s[1..], key);
      assert s == [s[0]] + s[1..];
    }
  }

  // ---------------------------------------------------------------------------
  // Filtering

  /** `s.filter(keep)`. */
  function Filter<T>(s: seq<T>, keep: T -> bool): (r: seq<T>)
    ensures |r| <= |s|
  {
    if s == [] then [] else (if keep(s[0]) then [s[0]] else []) + Filter(s[1..], keep)
  }

  /** `t` is `s` with some elements left out, the others in their order. */
  predicate Subsequence<T(==)>(t: seq<T>, s: seq<T>)
    decreases |s|
  {
    if t == [] then true
    else if s == [] then false
    else if t[0] == s[0] then Subsequence(t[1..], s[1..])
    else Subsequence(t, s[1..])
  }

  /** The result of a filter is a subsequence of its input whose members
      are exactly the input's members that pass. */
  lemma {:induction false} FilterFacts<T>(s: seq<T>, keep: T -> bool)
    ensures Subsequence(Filter(s, keep), s)
    ensures forall x :: x in Filter(s, keep) <==> x in s && keep(x)
    decreases |s|
  {
    if s != [] {
      FilterFacts(s[1..], keep);
      var r := Filter(s, keep);
      if keep(s[0]) {
        assert r == [s[0]] + Filter(s[1..], keep);
        assert r[1..] == Filter(s[1..], keep);
      } else {
        assert r == Filter(s[1..], keep);
        SubsequenceSkip(r, s);
      }
      assert s == [s[0]] + s[1..];
    }
  }

  lemma SubsequenceSkip<T>(t: seq<T>, s: seq<T>)
    requires s != [] && Subsequence(t, s[1..])
    ensures Subsequence(t, s)
    decreases |s|, 0
  {
    if t != [] && t[0] == s[0] {
      SubsequenceDrop(t, s[1..]);
    }
  }

  /** Dropping the head of a subsequence keeps it a subsequence. */
  lemma {:induction false} SubsequenceDrop<T>(t: seq<T>, s: seq<T>)
    requires t != [] && Subsequence(t, s)
    ensures Subsequence(t[1..], s)
    decreases |s|, 1
  {
    if t[1..] != [] {
      if t[0] == s[0] {
        SubsequenceSkip(t[1..], s);
      } else {
        SubsequenceDrop(t, s[1..]);
        SubsequenceSkip(t[1..], s);
      }
    }
  }

  /** Two filters in a row are one filter by both conditions. */
  lemma {:induction false} FilterThenFilter<T>(s: seq<T>, first: T -> bool, second: T -> bool, both: T -> bool)
    requires forall x :: both(x) == (first(x) && second(x))
    ensures Filter(Filter(s, first), second) == Filter(s, both)
    decreases |s|
  {
    if s != [] {
      FilterThenFilter(s[1..], first, second, both);
      var f := Filter(s, first);
      if first(s[0]) {
        assert f == [s[0]] + Filter(s[1..], first);
        assert f[1..] == Filter(s[1..], first);
        assert Filter(f, second) == (if second(s[0]) then [s[0]] else []) + Filter(f[1..], second);
      } else {
        assert f == Filter(s[1..], first);
      }
      assert Filter(s, both) == (if both(s[0]) then [s[0]] else []) + Filter(s[1..], both);
    }
  }

  /** Filters by two tests that agree on every element are the same. */
  lemma {:induction false} FilterExt<T>(s: seq<T>, f: T -> bool, g: T -> bool)
    requires forall x :: f(x) == g(x)
    ensures Filter(s, f) == Filter(s, g)
    decreases |s|
  {
    if s != [] {
      FilterExt(s[1..], f, g);
    }
  }

  /** A filter that passes everything returns its input. */
  lemma {:induction false} FilterAll<T>(s: seq<T>, keep: T -> bool)
    requires forall x :: keep(x)
    ensures Filter(s, keep) == s
    decreases |s|
  {
    if s != [] {
      FilterAll(s[1..], keep);
      assert s == [s[0]] + s[1..];
    }
  }

  // ---------------------------------------------------------------------------
  // Mapping

  /** `s.map(f)` for a callback that may throw: the results in order, or
      the error of the first element whose call throws. */
  function MapAll<A, B>(s: seq<A>, f: A -> Result<B>): (r: Result<seq<B>>)
    ensures r.Ok? ==> |r.value| == |s| && forall i :: 0 <= i < |s| ==> f(s[i]) == Ok(r.value[i])
    ensures r.Err? ==> exists i :: && 0 <= i < |s| && f(s[i]) == Err(r.message)
                                   && forall k :: 0 <= k < i ==> f(s[k]).Ok?
  {
    if s == [] then Ok([])
    else
      var head := f(s[0]);
      if head.Err? then Err(head.message)
      else
        var rest := MapAll(s[1..], f);
        assert forall i :: 1 <= i < |s| ==> s[1..][i - 1] == s[i];
        if rest.Err? then Err(rest.message)
        else Ok([head.value] + rest.value)
  }

  /** The map fails exactly when the callback throws for some element. */
  lemma MapAllFails<A, B>(s: seq<A>, f: A -> Result<B>)
    ensures MapAll(s, f).Err? <==> exists i :: 0 <= i < |s| && f(s[i]).Err?
  {
    if MapAll(s, f).Ok? {
      assert forall i :: 0 <= i < |s| ==> f(s[i]).Ok?;
    }
  }

  // ---------------------------------------------------------------------------
  // Slicing

  /** `s.slice(0, end)`: a negative end counts from the back and NaN
      (`None`) is 0. */
  function Slice<T>(s: seq<T>, end: Option<int>): (r: seq<T>)
    ensures end.Some? && 0 <= end.value ==> r == s[..if end.value <= |s| then end.value else |s|]
    ensures end.Some? && end.value < 0 ==> r == s[..if |s| + end.value >= 0 then |s| + end.value else 0]
    ensures end.None? ==> r == []
  {
    var e := if end.None? then 0 else if end.value < 0 then |s| + end.value else end.value;
    if e <= 0 then [] else if e >= |s| then s else s[..e]
  }
}
