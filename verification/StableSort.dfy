/** Insertion sort by a caller's comparison, as Go's sort package does for the
    short slices sorted here: each element is moved left past those it is
    `before`, and no further. */
module StableSort {

  function Place<T>(t: seq<T>, x: T, before: (T, T) -> bool): (r: seq<T>)
    ensures |r| == |t| + 1
  {
    if t == [] || !before(x, t[|t| - 1]) then t + [x]
    else Place(t[..|t| - 1], x, before) + [t[|t| - 1]]
  }

  function Sort<T>(s: seq<T>, before: (T, T) -> bool): (r: seq<T>)
    ensures |r| == |s|
  {
    if s == [] then [] else Place(Sort(s[..|s| - 1], before), s[|s| - 1], before)
  }

  lemma {:induction false} PlacePermutes<T>(t: seq<T>, x: T, before: (T, T) -> bool)
    ensures multiset(Place(t, x, before)) == multiset(t) + multiset{x}
  {
    if t != [] && before(x, t[|t| - 1]) {
      PlacePermutes(t[..|t| - 1], x, before);
      assert t == t[..|t| - 1] + [t[|t| - 1]];
    }
  }

  lemma {:induction false} SortPermutes<T>(s: seq<T>, before: (T, T) -> bool)
    ensures multiset(Sort(s, before)) == multiset(s)
  {
    if s != [] {
      SortPermutes(s[..|s| - 1], before);
      PlacePermutes(Sort(s[..|s| - 1], before), s[|s| - 1], before);
      assert s == s[..|s| - 1] + [s[|s| - 1]];
    }
  }

  /** The place an in-place insertion finds is the place `Place` uses. */
  lemma {:induction false} PlacedAt<T>(t: seq<T>, x: T, j: nat, before: (T, T) -> bool)
    requires j <= |t| && (j > 0 ==> !before(x, t[j - 1]))
    requires forall q :: j <= q < |t| ==> before(x, t[q])
    ensures Place(t, x, before) == t[..j] + [x] + t[j..]
  {
    if j == |t| {
      assert t[..j] == t && t[j..] == [];
    } else {
      var init := t[..|t| - 1];
      PlacedAt(init, x, j, before);
      InsertedEarlier(t, x, j);
    }
  }

  lemma InsertedEarlier<T>(t: seq<T>, x: T, j: nat)
    requires j < |t|
    ensures var init := t[..|t| - 1];
            init[..j] + [x] + init[j..] + [t[|t| - 1]] == t[..j] + [x] + t[j..]
  {
  }

  lemma SortedStep<T>(s: seq<T>, i: nat, before: (T, T) -> bool)
    requires i < |s|
    ensures Sort(s[..i + 1], before) == Place(Sort(s[..i], before), s[i], before)
  {
    assert s[..i + 1][..i] == s[..i];
  }

  ghost predicate Ordered<T>(s: seq<T>, le: (T, T) -> bool) {
    forall i, j :: 0 <= i < j < |s| ==> le(s[i], s[j])
  }

  /** `le` is the preorder the comparison is meant to sort by. */
  ghost predicate Decides<T(!new)>(before: (T, T) -> bool, le: (T, T) -> bool) {
    && (forall x, y :: if before(x, y) then le(x, y) else le(y, x))
    && (forall x, y, z :: le(x, y) && le(y, z) ==> le(x, z))
  }

  lemma {:induction false} PlaceOrdered<T(!new)>(t: seq<T>, x: T, before: (T, T) -> bool, le: (T, T) -> bool)
    requires Ordered(t, le) && Decides(before, le)
    ensures Ordered(Place(t, x, before), le)
  {
    var n := |t|;
    if n > 0 && before(x, t[n - 1]) {
      var u := Place(t[..n - 1], x, before);
      PlaceOrdered(t[..n - 1], x, before, le);
      PlacePermutes(t[..n - 1], x, before);
      forall i | 0 <= i < n
        ensures le(u[i], t[n - 1])
      {
        assert u[i] in multiset(u);
        if u[i] != x {
          assert u[i] in t[..n - 1];
        }
      }
    }
  }

  lemma {:induction false} SortOrdered<T(!new)>(s: seq<T>, before: (T, T) -> bool, le: (T, T) -> bool)
    requires Decides(before, le)
    ensures Ordered(Sort(s, before), le)
  {
    if s != [] {
      SortOrdered(s[..|s| - 1], before, le);
      PlaceOrdered(Sort(s[..|s| - 1], before), s[|s| - 1], before, le);
    }
  }

  function Filter<T>(s: seq<T>, p: T -> bool): seq<T> {
    if s == [] then []
    else Filter(s[..|s| - 1], p) + (if p(s[|s| - 1]) then [s[|s| - 1]] else [])
  }

  lemma {:induction false} PlaceIsStable<T(!new)>(t: seq<T>, x: T, before: (T, T) -> bool, p: T -> bool)
    requires forall a, b :: p(a) && p(b) ==> !before(a, b)
    ensures Filter(Place(t, x, before), p) == Filter(t, p) + (if p(x) then [x] else [])
  {
    if t == [] || !before(x, t[|t| - 1]) {
      assert (t + [x])[..|t|] == t;
    } else {
      var init, last := t[..|t| - 1], t[|t| - 1];
      PlaceIsStable(init, x, before, p);
      assert (Place(init, x, before) + [last])[..|t|] == Place(init, x, before);
    }
  }

  /** Elements that are not before one another keep their order. */
  lemma {:induction false} SortIsStable<T(!new)>(s: seq<T>, before: (T, T) -> bool, p: T -> bool)
    requires forall a, b :: p(a) && p(b) ==> !before(a, b)
    ensures Filter(Sort(s, before), p) == Filter(s, p)
  {
    if s != [] {
      SortIsStable(s[..|s| - 1], before, p);
      PlaceIsStable(Sort(s[..|s| - 1], before), s[|s| - 1], before, p);
    }
  }
}
