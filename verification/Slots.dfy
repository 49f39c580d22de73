/** What the operations of an AttributeMap do to the slice behind it, and why
    the slice behaves as a finite map.

    A slice element is a `Slot`; a `Hole` is a nil pointer, which wire data may
    contain. The list functions follow the operations step by step; `ToMap` is
    the finite map that `Get` sees. */
module AttributeSlots {
  import opened Strings
  import opened Seqs
  import opened StableSort

  datatype Scalar = Null | Str(s: string) | Int(i: int) | Double(d: real) | Bool(b: bool)

  /** What a caller can observe of an attribute value. */
  datatype Value = Leaf(scalar: Scalar) | MapVal(slots: seq<Slot>) | ArrayVal(items: seq<Value>)

  /** One element of the slice behind an AttributeMap; a Hole is a nil pointer. */
  datatype Slot = Hole | Slot(key: string, value: Value)

  // ------------------------------------------------------- list operations

  predicate HasKey(x: Slot, k: string) {
    x.Slot? && x.key == k
  }

  /** Position of the first slot with key `k`, or the length of the list. */
  function Index(s: seq<Slot>, k: string): (r: nat)
    ensures r <= |s|
    ensures r < |s| ==> HasKey(s[r], k)
    ensures forall j :: 0 <= j < r ==> !HasKey(s[j], k)
  {
    if s == [] || HasKey(s[0], k) then 0 else 1 + Index(s[1..], k)
  }

  function Inserted(s: seq<Slot>, k: string, v: Value): seq<Slot> {
    if Index(s, k) < |s| then s else s + [Slot(k, v)]
  }

  function Updated(s: seq<Slot>, k: string, v: Value): seq<Slot> {
    var i := Index(s, k);
    if i < |s| then s[i := Slot(k, v)] else s
  }

  function Upserted(s: seq<Slot>, k: string, v: Value): seq<Slot> {
    if Index(s, k) < |s| then Updated(s, k, v) else s + [Slot(k, v)]
  }

  /** The last slot takes the place of the deleted one. */
  function Deleted(s: seq<Slot>, k: string): seq<Slot> {
    var i := Index(s, k);
    if i < |s| then s[i := s[|s| - 1]][..|s| - 1] else s
  }

  /** The comparison handed to the stable sort. */
  predicate Before(x: Slot, y: Slot) {
    y.Hole? || (x.Slot? && Less(x.key, y.key))
  }

  function Sorted(s: seq<Slot>): (r: seq<Slot>)
    ensures |r| == |s|
  {
    StableSort.Sort(s, Before)
  }

  // ---------------------------------------------------------- the finite map

  ghost predicate UniqueKeys(s: seq<Slot>) {
    forall i, j :: 0 <= i < j < |s| && s[i].Slot? && s[j].Slot? ==> s[i].key != s[j].key
  }

  /** The map `Get` sees: of several slots with one key, the first counts. */
  function ToMap(s: seq<Slot>): map<string, Value> {
    if s == [] then map[]
    else if s[0].Hole? then ToMap(s[1..])
    else ToMap(s[1..])[s[0].key := s[0].value]
  }

  lemma {:induction false} GetIsLookup(s: seq<Slot>, k: string)
    ensures k in ToMap(s) <==> Index(s, k) < |s|
    ensures k in ToMap(s) ==> ToMap(s)[k] == s[Index(s, k)].value
  {
    if s != [] {
      GetIsLookup(s[1..], k);
    }
  }

  lemma {:induction false} ToMapAppend(s: seq<Slot>, k: string, v: Value)
    requires Index(s, k) == |s|
    ensures ToMap(s + [Slot(k, v)]) == ToMap(s)[k := v]
  {
    if s != [] {
      ToMapAppend(s[1..], k, v);
      assert (s + [Slot(k, v)])[1..] == s[1..] + [Slot(k, v)];
    }
  }

  lemma {:induction false} ToMapOverwrite(s: seq<Slot>, k: string, v: Value)
    requires Index(s, k) < |s|
    ensures ToMap(s[Index(s, k) := Slot(k, v)]) == ToMap(s)[k := v]
  {
    var i := Index(s, k);
    var r := s[i := Slot(k, v)];
    if i == 0 {
      assert r[1..] == s[1..];
    } else {
      ToMapOverwrite(s[1..], k, v);
      assert r[1..] == s[1..][i - 1 := Slot(k, v)];
    }
  }

  /** With unique keys the order of the slots does not matter to the map. */
  lemma {:induction false} ToMapMember(s: seq<Slot>, k: string, v: Value)
    requires UniqueKeys(s)
    ensures Slot(k, v) in s <==> k in ToMap(s) && ToMap(s)[k] == v
  {
    GetIsLookup(s, k);
    if Slot(k, v) in s {
      var j :| 0 <= j < |s| && s[j] == Slot(k, v);
      assert HasKey(s[j], k);
    }
  }

  lemma IndexIs(s: seq<Slot>, k: string, i: nat)
    requires i <= |s| && (i < |s| ==> HasKey(s[i], k))
    requires forall j :: 0 <= j < i ==> !HasKey(s[j], k)
    ensures Index(s, k) == i
  {
  }

  /** Deleting `k` disturbs nothing else: `k` has no second slot, and the slot
      moved into the gap does not get ahead of a different one with its key. */
  predicate DeletesCleanly(s: seq<Slot>, k: string) {
    var i, n := Index(s, k), |s|;
    i < n ==>
      && (forall j :: i < j < n ==> !HasKey(s[j], k))
      && (i < n - 1 && s[n - 1].Slot? ==>
            var q := Index(s, s[n - 1].key);
            q < i || (q < n && s[q] == s[n - 1]))
  }

  /** What Get finds under another key after the deletion. */
  lemma DeletedOther(s: seq<Slot>, k: string, x: string)
    requires var i, n := Index(s, k), |s|; i < n - 1
    requires x != k && !HasKey(s[|s| - 1], x)
    ensures Index(Deleted(s, k), x) == if Index(s, x) < |s| then Index(s, x) else |s| - 1
  {
    var i, n, r := Index(s, k), |s|, Deleted(s, k);
    assert forall j :: 0 <= j < n - 1 ==> r[j] == if j == i then s[n - 1] else s[j];
    IndexIs(r, x, if Index(s, x) < n then Index(s, x) else n - 1);
  }

  lemma DeletedMoved(s: seq<Slot>, k: string, x: string)
    requires var i, n := Index(s, k), |s|; i < n - 1
    requires HasKey(s[|s| - 1], x)
    ensures Index(Deleted(s, k), x) == if Index(s, x) < Index(s, k) then Index(s, x) else Index(s, k)
    ensures Index(s, x) >= Index(s, k) ==> Deleted(s, k)[Index(s, k)] == s[|s| - 1]
  {
    var i, n, r := Index(s, k), |s|, Deleted(s, k);
    assert forall j :: 0 <= j < n - 1 ==> r[j] == if j == i then s[n - 1] else s[j];
    IndexIs(r, x, if Index(s, x) < i then Index(s, x) else i);
  }

  /** Looking up `x` after deleting `k` finds what it found before. */
  ghost predicate SameLookup(s: seq<Slot>, t: seq<Slot>, x: string) {
    && (x in ToMap(s) <==> x in ToMap(t))
    && (x in ToMap(s) ==> ToMap(s)[x] == ToMap(t)[x])
  }

  lemma DeletedLookup(s: seq<Slot>, k: string, x: string)
    requires Index(s, k) < |s| && x != k
    requires !HasKey(s[|s| - 1], x) || Index(s, k) == |s| - 1
    ensures SameLookup(s, Deleted(s, k), x)
  {
    var i, n, r := Index(s, k), |s|, Deleted(s, k);
    GetIsLookup(s, x);
    GetIsLookup(r, x);
    if i < n - 1 {
      DeletedOther(s, k, x);
    } else {
      assert r == s[..n - 1];
      IndexIs(r, x, if Index(s, x) < n then Index(s, x) else n - 1);
    }
  }

  lemma DeletedLookupMoved(s: seq<Slot>, k: string)
    requires Index(s, k) < |s| - 1 && s[|s| - 1].Slot? && s[|s| - 1].key != k
    ensures var q := Index(s, s[|s| - 1].key);
            SameLookup(s, Deleted(s, k), s[|s| - 1].key) <==> q < Index(s, k) || (q < |s| && s[q] == s[|s| - 1])
  {
    var x := s[|s| - 1].key;
    GetIsLookup(s, x);
    GetIsLookup(Deleted(s, k), x);
    DeletedMoved(s, k, x);
  }

  lemma DeletedGone(s: seq<Slot>, k: string)
    requires Index(s, k) < |s|
    ensures k !in ToMap(Deleted(s, k)) <==> forall j :: Index(s, k) < j < |s| ==> !HasKey(s[j], k)
  {
    var i, n, r := Index(s, k), |s|, Deleted(s, k);
    GetIsLookup(r, k);
    assert forall j :: 0 <= j < n - 1 ==> r[j] == if j == i then s[n - 1] else s[j];
    if j :| i < j < n && HasKey(s[j], k) {
      assert HasKey(r[if j == n - 1 then i else j], k);
    }
  }

  /** Swap-with-last deletion removes exactly the given key, and nothing but it,
      if and only if it deletes cleanly. */
  lemma DeleteIsRemovalIff(s: seq<Slot>, k: string)
    ensures ToMap(Deleted(s, k)) == ToMap(s) - {k} <==> DeletesCleanly(s, k)
  {
    var i, n, r := Index(s, k), |s|, Deleted(s, k);
    GetIsLookup(s, k);
    if i < n {
      DeletedGone(s, k);
      forall x | x != k && (!HasKey(s[n - 1], x) || i == n - 1)
        ensures SameLookup(s, r, x)
      {
        DeletedLookup(s, k, x);
      }
      if i < n - 1 && s[n - 1].Slot? && s[n - 1].key != k {
        DeletedLookupMoved(s, k);
      }
      RemovalByLookup(s, r, k);
    }
  }

  lemma RemovalByLookup(s: seq<Slot>, r: seq<Slot>, k: string)
    ensures ToMap(r) == ToMap(s) - {k} <==> k !in ToMap(r) && forall x :: x != k ==> SameLookup(s, r, x)
  {
    var m, n := ToMap(s) - {k}, ToMap(r);
    if n == m {
      assert forall x :: x != k ==> (x in m <==> x in ToMap(s));
    }
    if k !in n && forall x :: x != k ==> SameLookup(s, r, x) {
      forall x
        ensures (x in n <==> x in m) && (x in n ==> n[x] == m[x])
      {
        assert x == k || SameLookup(s, r, x);
      }
    }
  }

  /** A second entry with the key comes to light. */
  lemma DeleteUncovers(k: string, v: Value, w: Value)
    ensures var s := [Slot(k, v), Slot(k, w)];
            ToMap(s) == map[k := v] && ToMap(Deleted(s, k)) == map[k := w]
  {
    var s := [Slot(k, v), Slot(k, w)];
    assert s[1..] == [Slot(k, w)];
    ToMapOne(Slot(k, w));
    assert Deleted(s, k) == [Slot(k, w)];
  }

  /** The moved entry overtakes one with its key: deleting `k` changes `x`. */
  lemma DeleteOvertakes(k: string, x: string, u: Value, v: Value, w: Value)
    requires k != x
    ensures var s := [Slot(k, u), Slot(x, v), Slot(x, w)];
            ToMap(s) == map[k := u, x := v] && ToMap(Deleted(s, k)) == map[x := w]
  {
    var s := [Slot(k, u), Slot(x, v), Slot(x, w)];
    assert s[1..] == [Slot(x, v), Slot(x, w)] && s[1..][1..] == [Slot(x, w)];
    ToMapOne(Slot(x, w));
    ToMapOne(Slot(x, v));
    assert Deleted(s, k) == [Slot(x, w), Slot(x, v)] && [Slot(x, w), Slot(x, v)][1..] == [Slot(x, v)];
  }

  lemma UniqueDeletesCleanly(s: seq<Slot>, k: string)
    requires UniqueKeys(s)
    ensures DeletesCleanly(s, k) && UniqueKeys(Deleted(s, k))
  {
    var i, n, r := Index(s, k), |s|, Deleted(s, k);
    if i < n - 1 {
      assert forall j :: 0 <= j < n - 1 ==> r[j] == if j == i then s[n - 1] else s[j];
      if s[n - 1].Slot? {
        IndexIs(s, s[n - 1].key, n - 1);
      }
    }
  }

  function Zip(keys: seq<string>, vals: seq<Value>): (r: seq<Slot>)
    requires |keys| == |vals|
    ensures |r| == |keys| && forall i :: 0 <= i < |r| ==> r[i] == Slot(keys[i], vals[i])
  {
    seq(|keys|, i requires 0 <= i < |keys| => Slot(keys[i], vals[i]))
  }

  /** Filling the slice from a Go map gives that map, in whatever order its
      keys, which are distinct, are walked. */
  lemma ZipIsMap(keys: seq<string>, vals: seq<Value>, m: map<string, Value>)
    requires |keys| == |vals| && (forall i, j :: 0 <= i < j < |keys| ==> keys[i] != keys[j])
    requires m.Keys == (set k | k in keys) && forall i :: 0 <= i < |keys| ==> m[keys[i]] == vals[i]
    ensures UniqueKeys(Zip(keys, vals)) && ToMap(Zip(keys, vals)) == m
  {
    var s := Zip(keys, vals);
    forall k | k in ToMap(s)
      ensures k in m && m[k] == ToMap(s)[k]
    {
      GetIsLookup(s, k);
    }
    forall k | k in m
      ensures k in ToMap(s)
    {
      var i :| 0 <= i < |keys| && keys[i] == k;
      assert s[i] == Slot(k, vals[i]);
      ToMapMember(s, k, vals[i]);
    }
  }

  // ------------------------------------------------------------------ sorting

  /** Keys ascend and the holes come last. */
  predicate NotAfter(x: Slot, y: Slot) {
    y.Hole? || (x.Slot? && !Less(y.key, x.key))
  }

  ghost predicate Ascending(s: seq<Slot>) {
    Ordered(s, NotAfter)
  }

  /** The comparison is no strict order, two nil pointers being before each
      other, but it decides the intended one. */
  lemma BeforeDecides()
    ensures Decides(Before, NotAfter)
  {
    forall x: Slot, y: Slot
      ensures if Before(x, y) then NotAfter(x, y) else NotAfter(y, x)
    {
      if x.Slot? && y.Slot? {
        Trichotomy(x.key, y.key);
      }
    }
    forall x: Slot, y: Slot, z: Slot | NotAfter(x, y) && NotAfter(y, z)
      ensures NotAfter(x, z)
    {
      if z.Slot? {
        Trichotomy(x.key, y.key);
        if Less(z.key, x.key) && x.key != y.key {
          Transitive(z.key, x.key, y.key);
        }
      }
    }
  }

  lemma SortedInsert(s: seq<Slot>, i: nat, t: seq<Slot>, j: nat)
    requires i < |s| && t == Sorted(s[..i]) && j <= |t|
    requires (j > 0 ==> !Before(s[i], t[j - 1])) && forall q :: j <= q < |t| ==> Before(s[i], t[q])
    ensures Sorted(s[..i + 1]) == t[..j] + [s[i]] + t[j..]
  {
    PlacedAt(t, s[i], j, Before);
    SortedStep(s, i, Before);
  }

  lemma {:induction false} ToMapSplit(s: seq<Slot>, t: seq<Slot>)
    ensures ToMap(s + t) == ToMap(t) + ToMap(s)
  {
    if s == [] {
      assert s + t == t;
    } else {
      ToMapSplit(s[1..], t);
      assert (s + t)[1..] == s[1..] + t;
    }
  }

  lemma OverlaysCommute(a: map<string, Value>, b: map<string, Value>, m: map<string, Value>)
    requires a.Keys !! b.Keys
    ensures a + (b + m) == b + (a + m)
  {
  }

  lemma ToMapOne(x: Slot)
    ensures ToMap([x]) == if x.Hole? then map[] else map[x.key := x.value]
  {
    assert [x][1..] == [];
  }

  lemma {:induction false} PlaceKeepsMap(t: seq<Slot>, x: Slot)
    ensures ToMap(Place(t, x, Before)) == ToMap(t + [x])
  {
    var n := |t|;
    if n > 0 && Before(x, t[n - 1]) {
      var init, last := t[..n - 1], t[n - 1];
      PlaceKeepsMap(init, x);
      PlacePast(init, last, x);
      assert t == init + [last];
    }
  }

  lemma PlacePast(init: seq<Slot>, last: Slot, x: Slot)
    requires Before(x, last) && ToMap(Place(init, x, Before)) == ToMap(init + [x])
    ensures ToMap(Place(init, x, Before) + [last]) == ToMap(init + [last] + [x])
  {
    ToMapSplit(Place(init, x, Before), [last]);
    ToMapSplit(init, [x]);
    ToMapSplit(init, [last]);
    ToMapSplit(init + [last], [x]);
    ToMapOne(x);
    ToMapOne(last);
    if x.Slot? && last.Slot? {
      Trichotomy(x.key, last.key);
    }
    BesideEachOther(x, last, ToMap(init));
  }

  lemma BesideEachOther(x: Slot, y: Slot, m: map<string, Value>)
    requires x.Hole? || y.Hole? || x.key != y.key
    ensures ToMap([y]) + (ToMap([x]) + m) == ToMap([x]) + (ToMap([y]) + m)
  {
    ToMapOne(x);
    ToMapOne(y);
    OverlaysCommute(ToMap([x]), ToMap([y]), m);
  }

  /** Sorting is invisible to Get, duplicates or not: the sort is stable. */
  lemma {:induction false} SortKeepsMap(s: seq<Slot>)
    ensures ToMap(Sorted(s)) == ToMap(s)
  {
    if s != [] {
      var init, last := s[..|s| - 1], s[|s| - 1];
      SortKeepsMap(init);
      PlaceKeepsMap(Sorted(init), last);
      ToMapSplit(Sorted(init), [last]);
      ToMapSplit(init, [last]);
      assert s == init + [last];
    }
  }

  lemma PermutationKeepsUnique(s: seq<Slot>, t: seq<Slot>)
    requires UniqueKeys(s) && multiset(s) == multiset(t)
    ensures UniqueKeys(t)
  {
    forall i, j | 0 <= i < j < |t| && t[i].Slot? && t[j].Slot?
      ensures t[i].key != t[j].key
    {
      assert t[i] in multiset(t) && t[j] in multiset(t);
      assert t[i] in s && t[j] in s;
      OnceInUnique(s, t[i]);
      if t[i] == t[j] {
        Twice(t, i, j);
      }
    }
  }

  lemma {:induction false} OnceInUnique(s: seq<Slot>, x: Slot)
    requires UniqueKeys(s) && x.Slot?
    ensures multiset(s)[x] <= 1
  {
    if s != [] {
      OnceInUnique(s[1..], x);
      assert s == [s[0]] + s[1..];
    }
  }

  lemma {:induction false} AscendingIsCanonical(r: seq<Slot>, u: seq<Slot>)
    requires UniqueKeys(r) && UniqueKeys(u) && Ascending(r) && Ascending(u)
    requires |r| == |u| && ToMap(r) == ToMap(u)
    ensures r == u
  {
    if r != [] {
      FirstIsLeast(r, u);
      TailMap(r);
      TailMap(u);
      AscendingIsCanonical(r[1..], u[1..]);
      assert r == [r[0]] + r[1..] && u == [u[0]] + u[1..];
    }
  }

  lemma FirstIsLeast(r: seq<Slot>, u: seq<Slot>)
    requires UniqueKeys(r) && UniqueKeys(u) && Ascending(r) && Ascending(u)
    requires |r| == |u| > 0 && ToMap(r) == ToMap(u)
    ensures r[0] == u[0]
  {
    if r[0].Slot? {
      ToMapMember(r, r[0].key, r[0].value);
      ToMapMember(u, r[0].key, r[0].value);
      var i :| 0 <= i < |u| && u[i] == r[0];
      assert u[0].Slot?;
    }
    if u[0].Slot? {
      ToMapMember(u, u[0].key, u[0].value);
      ToMapMember(r, u[0].key, u[0].value);
      var j :| 0 <= j < |r| && r[j] == u[0];
      assert r[0].Slot?;
      Trichotomy(r[0].key, u[0].key);
    }
  }

  lemma TailMap(r: seq<Slot>)
    requires UniqueKeys(r) && r != []
    ensures ToMap(r[1..]) == if r[0].Slot? then ToMap(r) - {r[0].key} else ToMap(r)
  {
    if r[0].Slot? {
      GetIsLookup(r[1..], r[0].key);
    }
  }

  /** What sorting is for: two maps with unique keys, and as many slots, hold
      the same entries exactly when their sorted slices are equal. */
  lemma SortCompares(s: seq<Slot>, t: seq<Slot>)
    requires UniqueKeys(s) && UniqueKeys(t)
    ensures Sorted(s) == Sorted(t) <==> |s| == |t| && ToMap(s) == ToMap(t)
  {
    SortKeepsMap(s);
    SortKeepsMap(t);
    BeforeDecides();
    SortOrdered(s, Before, NotAfter);
    SortOrdered(t, Before, NotAfter);
    SortPermutes(s, Before);
    SortPermutes(t, Before);
    PermutationKeepsUnique(s, Sorted(s));
    PermutationKeepsUnique(t, Sorted(t));
    if |s| == |t| && ToMap(s) == ToMap(t) {
      AscendingIsCanonical(Sorted(s), Sorted(t));
    }
  }

  // ---------------------------------------------------- sequences of operations

  datatype Op =
    | Insert(k: string, v: Value)
    | Update(k: string, v: Value)
    | Upsert(k: string, v: Value)
    | Delete(k: string)
    | Sort

  function Apply(s: seq<Slot>, op: Op): seq<Slot> {
    match op
    case Insert(k, v) => Inserted(s, k, v)
    case Update(k, v) => Updated(s, k, v)
    case Upsert(k, v) => Upserted(s, k, v)
    case Delete(k) => Deleted(s, k)
    case Sort => Sorted(s)
  }

  function ApplyAll(s: seq<Slot>, ops: seq<Op>): seq<Slot>
    decreases ops
  {
    if ops == [] then s else ApplyAll(Apply(s, ops[0]), ops[1..])
  }

  /** The same operations on a finite map. */
  function MapApply(m: map<string, Value>, op: Op): map<string, Value> {
    match op
    case Insert(k, v) => if k in m then m else m[k := v]
    case Update(k, v) => if k in m then m[k := v] else m
    case Upsert(k, v) => m[k := v]
    case Delete(k) => m - {k}
    case Sort => m
  }

  function MapApplyAll(m: map<string, Value>, ops: seq<Op>): map<string, Value>
    decreases ops
  {
    if ops == [] then m else MapApplyAll(MapApply(m, ops[0]), ops[1..])
  }

  lemma ApplyRefines(s: seq<Slot>, op: Op)
    requires UniqueKeys(s)
    ensures UniqueKeys(Apply(s, op)) && ToMap(Apply(s, op)) == MapApply(ToMap(s), op)
  {
    match op
    case Insert(k, v) =>
      GetIsLookup(s, k);
      if Index(s, k) == |s| {
        ToMapAppend(s, k, v);
      }
    case Update(k, v) =>
      GetIsLookup(s, k);
      if Index(s, k) < |s| {
        ToMapOverwrite(s, k, v);
      }
    case Upsert(k, v) =>
      if Index(s, k) < |s| {
        ToMapOverwrite(s, k, v);
      } else {
        ToMapAppend(s, k, v);
      }
    case Delete(k) =>
      UniqueDeletesCleanly(s, k);
      DeleteIsRemovalIff(s, k);
    case Sort =>
      SortKeepsMap(s);
      SortPermutes(s, Before);
      PermutationKeepsUnique(s, Sorted(s));
  }

  /** Every sequence of operations that starts from unique keys keeps them
      unique and acts on the slice as the same sequence acts on a finite map. */
  lemma {:induction false} RunRefinesMap(s: seq<Slot>, ops: seq<Op>)
    requires UniqueKeys(s)
    ensures UniqueKeys(ApplyAll(s, ops))
    ensures ToMap(ApplyAll(s, ops)) == MapApplyAll(ToMap(s), ops)
    decreases ops
  {
    if ops != [] {
      ApplyRefines(s, ops[0]);
      RunRefinesMap(Apply(s, ops[0]), ops[1..]);
    }
  }
}
