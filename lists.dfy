/** List operations the pipeline is built from, over any element type:
    a filter followed by a map, as a comprehension with an `if` builds, and
    Python's stable `list.sort(key=..., reverse=True)`. */
module Lists {

  // ---------------------------------------------------------------------
  // Filter and map
  // ---------------------------------------------------------------------

  /** `[f(x) for x in xs if keep(x)]`. */
  function FilterMap<A, B>(xs: seq<A>, keep: A -> bool, f: A -> B): seq<B> {
    if xs == [] then []
    else (if keep(xs[0]) then [f(xs[0])] else []) + FilterMap(xs[1..], keep, f)
  }

  /** Element `i` is kept, and mapped, exactly when it satisfies `keep`;
      the result of the rest follows it. */
  lemma FilterMapStep<A, B>(xs: seq<A>, i: nat, keep: A -> bool, f: A -> B)
    requires i < |xs|
    ensures FilterMap(xs[i..], keep, f) ==
      (if keep(xs[i]) then [f(xs[i])] else []) + FilterMap(xs[i + 1..], keep, f)
  {
    assert xs[i..][1..] == xs[i + 1..];
  }

  /** The loop that builds the result: with the result of the prefix
      before `i` in `acc`, element `i` is appended when kept. */
  lemma FilterMapLoopStep<A, B>(xs: seq<A>, i: nat, keep: A -> bool, f: A -> B, acc: seq<B>)
    requires i < |xs| && acc + FilterMap(xs[i..], keep, f) == FilterMap(xs, keep, f)
    ensures keep(xs[i]) ==> (acc + [f(xs[i])]) + FilterMap(xs[i + 1..], keep, f) == FilterMap(xs, keep, f)
    ensures !keep(xs[i]) ==> acc + FilterMap(xs[i + 1..], keep, f) == FilterMap(xs, keep, f)
  {
    FilterMapStep(xs, i, keep, f);
    if keep(xs[i]) {
      assert acc + [f(xs[i])] + FilterMap(xs[i + 1..], keep, f) == acc + ([f(xs[i])] + FilterMap(xs[i + 1..], keep, f));
    } else {
      assert [] + FilterMap(xs[i + 1..], keep, f) == FilterMap(xs[i + 1..], keep, f);
    }
  }

  /** Once every element has been looked at, `acc` is the whole result. */
  lemma FilterMapLoopEnd<A, B>(xs: seq<A>, keep: A -> bool, f: A -> B, acc: seq<B>)
    requires acc + FilterMap(xs[|xs|..], keep, f) == FilterMap(xs, keep, f)
    ensures acc == FilterMap(xs, keep, f)
  {
    assert xs[|xs|..] == [];
    assert acc + [] == acc;
  }

  /** Every element of the result is the image of a kept element. */
  lemma {:induction false} FilterMapSound<A, B>(xs: seq<A>, keep: A -> bool, f: A -> B, y: B)
    requires y in FilterMap(xs, keep, f)
    ensures exists i :: 0 <= i < |xs| && keep(xs[i]) && y == f(xs[i])
  {
    assert xs[0..] == xs;
    FilterMapStep(xs, 0, keep, f);
    if y in FilterMap(xs[1..], keep, f) {
      FilterMapSound(xs[1..], keep, f, y);
      var i :| 0 <= i < |xs[1..]| && keep(xs[1..][i]) && y == f(xs[1..][i]);
      assert xs[1..][i] == xs[i + 1];
    } else {
      assert keep(xs[0]) && y == f(xs[0]);
    }
  }

  /** Every kept element's image is in the result. */
  lemma {:induction false} FilterMapComplete<A, B>(xs: seq<A>, keep: A -> bool, f: A -> B, i: nat)
    requires i < |xs| && keep(xs[i])
    ensures f(xs[i]) in FilterMap(xs, keep, f)
  {
    assert xs[0..] == xs;
    FilterMapStep(xs, 0, keep, f);
    if i > 0 {
      assert xs[1..][i - 1] == xs[i];
      FilterMapComplete(xs[1..], keep, f, i - 1);
    }
  }

  /** The result holds exactly the images of the kept elements. */
  lemma FilterMapSpec<A, B>(xs: seq<A>, keep: A -> bool, f: A -> B)
    ensures forall y :: y in FilterMap(xs, keep, f) <==>
      (exists i :: 0 <= i < |xs| && keep(xs[i]) && y == f(xs[i]))
  {
    forall y | y in FilterMap(xs, keep, f)
      ensures exists i :: (0 <= i < |xs| && keep(xs[i]) && y == f(xs[i]))
    {
      FilterMapSound(xs, keep, f, y);
    }
    forall i | 0 <= i < |xs| && keep(xs[i]) ensures f(xs[i]) in FilterMap(xs, keep, f) {
      FilterMapComplete(xs, keep, f, i);
    }
  }

  /** Nothing is kept, so the result is empty. */
  lemma {:induction false} FilterMapNone<A, B>(xs: seq<A>, keep: A -> bool, f: A -> B)
    requires forall i :: 0 <= i < |xs| ==> !keep(xs[i])
    ensures FilterMap(xs, keep, f) == []
  {
    if xs != [] {
      assert !keep(xs[0]);
      FilterMapNone(xs[1..], keep, f);
    }
  }

  // ---------------------------------------------------------------------
  // Stable sort, largest key first
  // ---------------------------------------------------------------------

  /** Inserts `x` after every element with a larger key and before the
      first one whose key is not larger. */
  function InsertByKey<T>(x: T, sorted: seq<T>, key: T -> int): (r: seq<T>)
    ensures multiset(r) == multiset(sorted) + multiset{x}
  {
    if sorted == [] || key(sorted[0]) <= key(x) then [x] + sorted
    else
      assert sorted == [sorted[0]] + sorted[1..];
      [sorted[0]] + InsertByKey(x, sorted[1..], key)
  }

  /** `xs.sort(key=key, reverse=True)`: insertion of each element, from the
      last to the first, ahead of the elements with an equal key. */
  function SortByKeyDescending<T>(xs: seq<T>, key: T -> int): (r: seq<T>)
    ensures multiset(r) == multiset(xs)
  {
    if xs == [] then []
    else
      assert xs == [xs[0]] + xs[1..];
      InsertByKey(xs[0], SortByKeyDescending(xs[1..], key), key)
  }

  predicate SortedDescending<T>(xs: seq<T>, key: T -> int) {
    forall i, j :: 0 <= i < j < |xs| ==> key(xs[i]) >= key(xs[j])
  }

  /** The elements whose key is `k`, in their order. */
  function WithKey<T>(xs: seq<T>, key: T -> int, k: int): seq<T> {
    if xs == [] then []
    else (if key(xs[0]) == k then [xs[0]] else []) + WithKey(xs[1..], key, k)
  }

  lemma {:induction false} InsertByKeySorted<T>(x: T, sorted: seq<T>, key: T -> int)
    requires SortedDescending(sorted, key)
    ensures SortedDescending(InsertByKey(x, sorted, key), key)
  {
    if sorted != [] && key(sorted[0]) > key(x) {
      InsertByKeySorted(x, sorted[1..], key);
      var r := InsertByKey(x, sorted[1..], key);
      forall j | 0 <= j < |r| ensures key(r[j]) <= key(sorted[0]) {
        assert r[j] in multiset(r);
        if r[j] != x {
          assert r[j] in multiset(sorted[1..]);
          var m :| 0 <= m < |sorted[1..]| && sorted[1..][m] == r[j];
          assert sorted[m + 1] == r[j];
        }
      }
      var out := [sorted[0]] + r;
      forall a, b | 0 <= a < b < |out| ensures key(out[a]) >= key(out[b]) {
        if a == 0 {
          assert out[b] == r[b - 1];
        } else {
          assert out[a] == r[a - 1] && out[b] == r[b - 1];
        }
      }
    }
  }

  /** Inserting `x` puts it ahead of the elements with its own key and
      leaves the elements of every other key in their order. */
  lemma {:induction false} InsertByKeyStable<T>(x: T, sorted: seq<T>, key: T -> int, k: int)
    ensures WithKey(InsertByKey(x, sorted, key), key, k) ==
      (if key(x) == k then [x] else []) + WithKey(sorted, key, k)
  {
    if sorted == [] || key(sorted[0]) <= key(x) {
      var r := [x] + sorted;
      assert r[0] == x && r[1..] == sorted;
      assert WithKey(r, key, k) == (if key(x) == k then [x] else []) + WithKey(sorted, key, k);
    } else {
      var tail := InsertByKey(x, sorted[1..], key);
      InsertByKeyStable(x, sorted[1..], key, k);
      var r := [sorted[0]] + tail;
      assert r[0] == sorted[0] && r[1..] == tail;
      var head := if key(sorted[0]) == k then [sorted[0]] else [];
      assert WithKey(r, key, k) == head + WithKey(tail, key, k);
      assert WithKey(sorted, key, k) == head + WithKey(sorted[1..], key, k);
      assert key(x) != k || key(sorted[0]) != k;
    }
  }

  /** The sort keeps exactly the elements it was given. */
  lemma SortByKeyDescendingMembers<T>(xs: seq<T>, key: T -> int)
    ensures forall x :: x in SortByKeyDescending(xs, key) <==> x in xs
  {
    forall x ensures x in SortByKeyDescending(xs, key) <==> x in xs {
      assert x in multiset(SortByKeyDescending(xs, key)) <==> x in multiset(xs);
    }
  }

  /** The sort puts the largest keys first, keeps every element, and keeps
      the elements that share a key in their original order. */
  lemma {:induction false} SortByKeyDescendingSpec<T>(xs: seq<T>, key: T -> int)
    ensures SortedDescending(SortByKeyDescending(xs, key), key)
    ensures multiset(SortByKeyDescending(xs, key)) == multiset(xs)
    ensures forall k :: WithKey(SortByKeyDescending(xs, key), key, k) == WithKey(xs, key, k)
  {
    if xs != [] {
      SortByKeyDescendingSpec(xs[1..], key);
      InsertByKeySorted(xs[0], SortByKeyDescending(xs[1..], key), key);
      forall k ensures WithKey(SortByKeyDescending(xs, key), key, k) == WithKey(xs, key, k) {
        InsertByKeyStable(xs[0], SortByKeyDescending(xs[1..], key), key, k);
      }
    }
  }
}
