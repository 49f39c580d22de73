/** Attribute values: the mutable, pointer-based tree behind `AttributeValue`,
    `AttributeMap` and `AnyValueArray`, and its deep copy.

    The classes mirror the protobuf structs: a oneof wrapper that holds a map
    or an array is an object of its own because `SetMapVal` and `SetArrayVal`
    write inside it; the four scalar wrappers are never written after
    construction, so they are values here.

    A `Shape` is a ghost picture of a finite piece of heap: which objects it is
    made of, and what they hold. `Repr`, `Val` and `Tree` are functions of the
    picture alone; only `Matches` reads the heap. Sharing inside a shape is
    allowed unless `Tree` rules it out. */
module PData {

  import opened Strings
  import opened Seqs
  import opened AttributeSlots

  // ------------------------------------------------------------------ heap

  datatype Oneof = Primitive(scalar: Scalar) | Kvlist(kvBox: KvlistBox) | Array(arrBox: ArrayBox)

  class AnyValue {
    var value: Oneof
    constructor ()
      ensures value == Primitive(Null)
    {
      value := Primitive(Null);
    }
  }

  class KvlistBox {
    var list: KeyValueList?
    constructor (list: KeyValueList)
      ensures this.list == list
    {
      this.list := list;
    }
  }

  class ArrayBox {
    var arr: ArrayValue?
    constructor (arr: ArrayValue)
      ensures this.arr == arr
    {
      this.arr := arr;
    }
  }

  class KeyValue {
    var key: string
    var value: AnyValue?
    constructor (key: string, value: AnyValue)
      ensures this.key == key && this.value == value
    {
      this.key, this.value := key, value;
    }
  }

  /** The slice behind an AttributeMap. The methods take the picture `es` of
      its entries, with `fp` the objects below it, and return the new one. */
  class KeyValueList {
    var values: seq<KeyValue?>

    constructor ()
      ensures values == []
    {
      values := [];
    }

    /** AttributeMap.Get: the first entry with the key, skipping nil entries. */
    method Get(key: string, ghost es: seq<Entry>, ghost fp: set<object>) returns (kv: KeyValue?, i: nat)
      requires MatchEntries(values, es, fp)
      ensures i == Index(Slots(es), key)
      ensures if i < |es| then kv == values[i] else kv == null
    {
      i := 0;
      while i < |values|
        invariant i <= |values| && forall j :: 0 <= j < i ==> !HasKey(SlotOf(es[j]), key)
      {
        kv := values[i];
        assert MatchEntry(kv, es[i]);
        if kv != null && kv.key == key {
          IndexIs(Slots(es), key, i);
          return;
        }
        i := i + 1;
      }
      kv := null;
      IndexIs(Slots(es), key, i);
    }

    /** AttributeMap.Delete: the last entry is moved into the gap. */
    method Delete(key: string, ghost es: seq<Entry>, ghost fp: set<object>)
      returns (found: bool, ghost es': seq<Entry>)
      requires MatchEntries(values, es, fp) && TreeEntries(es) && this !in fp
      modifies this
      ensures found <==> key in ToMap(Slots(es))
      ensures MatchEntries(values, es', fp) && TreeEntries(es')
      ensures Slots(es') == Deleted(Slots(es), key)
    {
      GetIsLookup(Slots(es), key);
      var kv, i := Get(key, es, fp);
      var n := |values|;
      found := kv != null;
      es' := es;
      if found {
        values := values[i := values[n - 1]];
        values := values[..n - 1];
        es' := MoveLast(old(values), es, fp, i);
      }
    }

    /** AttributeMap.Insert: the value is deep-copied into a new entry. */
    method Insert(k: string, v: AnyValue?, ghost vs: Shape, ghost es: seq<Entry>, ghost fp: set<object>)
      returns (ghost es': seq<Entry>, ghost fp': set<object>)
      requires MatchEntries(values, es, fp) && TreeEntries(es) && this !in fp
      requires Matches(v, vs) && (Index(Slots(es), k) == |es| ==> Copyable(vs, []))
      modifies this
      ensures MatchEntries(values, es', fp') && TreeEntries(es') && this !in fp'
      ensures fp <= fp' && fresh(fp' - fp)
      ensures old(values) <= values && es <= es'
      ensures Slots(es') == Inserted(Slots(es), k, Val(vs))
    {
      var kv, i := Get(k, es, fp);
      if kv == null {
        es', fp' := Add(k, v, vs, es, fp);
      } else {
        es', fp' := es, fp;
      }
    }

    /** newAttributeKeyValue, appended. */
    method Add(k: string, v: AnyValue?, ghost vs: Shape, ghost es: seq<Entry>, ghost fp: set<object>)
      returns (ghost es': seq<Entry>, ghost fp': set<object>)
      requires MatchEntries(values, es, fp) && TreeEntries(es) && this !in fp
      requires Matches(v, vs) && Copyable(vs, [])
      modifies this
      ensures MatchEntries(values, es', fp') && TreeEntries(es') && this !in fp'
      ensures fp <= fp' && fresh(fp' - fp)
      ensures old(values) <= values && es <= es'
      ensures Slots(es') == Slots(es) + [Slot(k, Val(vs))]
    {
      var kv; ghost var e;
      kv, e := NewEntry(k, v, vs);
      values, es', fp' := values + [kv], es + [e], fp + EntryRepr(e);
    }

    /** AttributeMap.Update: the stored value, which must not be nil, is
        overwritten in place. */
    method Update(k: string, v: AnyValue?, ghost vs: Shape, ghost es: seq<Entry>, ghost fp: set<object>)
      returns (ghost es': seq<Entry>, ghost fp': set<object>)
      requires MatchEntries(values, es, fp) && TreeEntries(es) && this !in fp
      requires Matches(v, vs) && Overwritable(vs, es, Index(Slots(es), k))
      modifies fp
      ensures MatchEntries(values, es', fp') && TreeEntries(es') && this !in fp'
      ensures fp <= fp' && fresh(fp' - fp)
      ensures Slots(es') == Updated(Slots(es), k, Val(vs))
    {
      var kv, i := Get(k, es, fp);
      if kv != null {
        es', fp' := Overwrite(values, i, v, vs, es, fp);
      } else {
        es', fp' := es, fp;
      }
    }

    /** AttributeMap.Upsert. */
    method Upsert(k: string, v: AnyValue?, ghost vs: Shape, ghost es: seq<Entry>, ghost fp: set<object>)
      returns (ghost es': seq<Entry>, ghost fp': set<object>)
      requires MatchEntries(values, es, fp) && TreeEntries(es) && this !in fp
      requires Matches(v, vs) && Overwritable(vs, es, Index(Slots(es), k))
      requires Index(Slots(es), k) == |es| ==> Copyable(vs, [])
      modifies this, fp
      ensures MatchEntries(values, es', fp') && TreeEntries(es') && this !in fp'
      ensures fp <= fp' && fresh(fp' - fp)
      ensures Slots(es') == Upserted(Slots(es), k, Val(vs))
    {
      var kv, i := Get(k, es, fp);
      if kv != null {
        es', fp' := Overwrite(values, i, v, vs, es, fp);
      } else {
        es', fp' := Add(k, v, vs, es, fp);
      }
    }

    /** UpdateString, UpdateInt, UpdateDouble and UpdateBool: unlike Update,
        they also work on a stored nil. */
    method UpdateScalar(k: string, sc: Scalar, ghost es: seq<Entry>, ghost fp: set<object>)
      returns (ghost es': seq<Entry>, ghost fp': set<object>)
      requires MatchEntries(values, es, fp) && TreeEntries(es) && this !in fp
      modifies fp
      ensures MatchEntries(values, es', fp') && TreeEntries(es') && this !in fp'
      ensures fp <= fp' && fresh(fp' - fp)
      ensures Slots(es') == Updated(Slots(es), k, Leaf(sc))
    {
      var kv, i := Get(k, es, fp);
      if kv != null {
        es', fp' := OverwriteScalar(values, i, sc, es, fp);
      } else {
        es', fp' := es, fp;
      }
    }

    /** AttributeMap.InitFromMap. `keys` is the order in which the Go map, with
        values `vs`, happens to be walked. */
    method InitFromMap(keys: seq<string>, vs: seq<AnyValue?>, ghost shapes: seq<Shape>, ghost fp: set<object>)
      returns (ghost es': seq<Entry>, ghost fp': set<object>)
      requires |keys| == |vs| && MatchElems(vs, shapes, fp)
      requires forall i :: 0 <= i < |shapes| ==> Copyable(shapes[i], [])
      modifies this
      ensures MatchEntries(values, es', fp') && TreeEntries(es') && fresh(fp')
      ensures Slots(es') == Zip(keys, Vals(shapes))
    {
      var wrappers: seq<KeyValue?> := [];
      es', fp' := [], {};
      for ix := 0 to |vs|
        invariant |es'| == ix
        invariant MatchElems(vs, shapes, fp) && MatchEntries(wrappers, es', fp')
        invariant TreeEntries(es') && fresh(fp')
        invariant Slots(es') == Zip(keys, Vals(shapes))[..ix]
      {
        var kv; ghost var e;
        kv, e := NewEntry(keys[ix], vs[ix], shapes[ix]);
        wrappers, es', fp' := wrappers + [kv], es' + [e], fp' + EntryRepr(e);
      }
      values := wrappers;
    }

    /** AttributeMap.CopyTo. Whether the old entries are overwritten or new ones
        allocated, the destination ends up with the source's contents. */
    method CopyTo(ghost es: seq<Entry>, ghost fp: set<object>,
                  dest: KeyValueList, ghost ds: seq<Entry>, ghost oldFp: set<object>)
      returns (ghost ds': seq<Entry>, ghost fp': set<object>)
      requires MatchEntries(values, es, fp) && MatchEntries(dest.values, ds, oldFp)
      requires TreeEntries(ds) && dest !in oldFp
      requires {this} + fp !! {dest} + oldFp && CopyableOver(es, ds)
      modifies {dest} + oldFp
      ensures MatchEntries(dest.values, ds', fp') && TreeEntries(ds') && dest !in fp'
      ensures Slots(ds') == Slots(es)
      ensures fresh(fp' - oldFp)
    {
      var newLen := |values|;
      if newLen == 0 {
        dest.values, ds', fp' := [], [], {};
      } else if newLen <= |dest.values| {
        dest.values := dest.values[..newLen];
        ds', fp' := CopyEntriesInPlace(values, es, fp, dest.values, ds[..newLen], oldFp);
      } else {
        var wrappers: seq<KeyValue?>;
        wrappers, ds', fp' := CloneEntries(values, es, fp);
        dest.values := wrappers;
      }
    }

    /** UpsertString, UpsertInt, UpsertDouble and UpsertBool. */
    method UpsertScalar(k: string, sc: Scalar, ghost es: seq<Entry>, ghost fp: set<object>)
      returns (ghost es': seq<Entry>, ghost fp': set<object>)
      requires MatchEntries(values, es, fp) && TreeEntries(es) && this !in fp
      modifies this, fp
      ensures MatchEntries(values, es', fp') && TreeEntries(es') && this !in fp'
      ensures fp <= fp' && fresh(fp' - fp)
      ensures Slots(es') == Upserted(Slots(es), k, Leaf(sc))
    {
      var kv, i := Get(k, es, fp);
      if kv != null {
        es', fp' := OverwriteScalar(values, i, sc, es, fp);
      } else {
        es', fp' := AddScalar(k, sc, es, fp);
      }
    }

    /** newAttributeKeyValueString and its kin, appended. */
    method AddScalar(k: string, sc: Scalar, ghost es: seq<Entry>, ghost fp: set<object>)
      returns (ghost es': seq<Entry>, ghost fp': set<object>)
      requires MatchEntries(values, es, fp) && TreeEntries(es) && this !in fp
      modifies this
      ensures MatchEntries(values, es', fp') && TreeEntries(es') && this !in fp'
      ensures fp <= fp' && fresh(fp' - fp)
      ensures old(values) <= values && es <= es'
      ensures Slots(es') == Slots(es) + [Slot(k, Leaf(sc))]
    {
      var any := new AnyValue();
      var kv := new KeyValue(k, any);
      any.value := Primitive(sc);
      ghost var e := Pair(kv, k, Plain(any, sc));
      assert SlotOf(e) == Slot(k, Leaf(sc));
      values, es', fp' := values + [kv], es + [e], fp + EntryRepr(e);
    }

    /** AttributeMap.Sort: a stable insertion of each pointer into those before
        it, by the comparison that Sort passes. */
    method Sort(ghost es: seq<Entry>, ghost fp: set<object>) returns (ghost es': seq<Entry>)
      requires MatchEntries(values, es, fp) && TreeEntries(es) && this !in fp
      modifies this
      ensures MatchEntries(values, es', fp) && TreeEntries(es')
      ensures multiset(values) == multiset(old(values))
      ensures Slots(es') == Sorted(Slots(es))
    {
      var done;
      done, es' := SortPointers(values, es, fp);
      values := done;
    }
  }

  class ArrayValue {
    var values: seq<AnyValue?>
    constructor ()
      ensures values == []
    {
      values := [];
    }
  }

  // ---------------------------------------------------------------- shapes

  /** `inner` is the set of objects below a map or array node. */
  datatype Shape =
    | Absent
    | Plain(node: AnyValue, scalar: Scalar)
    | MapNode(node: AnyValue, kvBox: KvlistBox, list: KeyValueList?, entries: seq<Entry>, inner: set<object>)
    | ArrayNode(node: AnyValue, arrBox: ArrayBox, arr: ArrayValue?, elems: seq<Shape>, inner: set<object>)

  datatype Entry = Gap | Pair(kv: KeyValue, key: string, val: Shape)

  ghost function Repr(s: Shape): set<object> {
    match s
    case Absent => {}
    case Plain(n, _) => {n}
    case MapNode(n, b, l, _, inner) => {n, b} + (if l == null then {} else {l}) + inner
    case ArrayNode(n, b, a, _, inner) => {n, b} + (if a == null then {} else {a}) + inner
  }

  ghost function EntryRepr(e: Entry): set<object> {
    match e
    case Gap => {}
    case Pair(kv, _, val) => {kv} + Repr(val)
  }

  ghost predicate EntriesWithin(es: seq<Entry>, fp: set<object>) {
    forall i :: 0 <= i < |es| ==> EntryRepr(es[i]) <= fp
  }

  ghost predicate ElemsWithin(xs: seq<Shape>, fp: set<object>) {
    forall i :: 0 <= i < |xs| ==> Repr(xs[i]) <= fp
  }

  /** The abstract value a shape stands for. A nil pointer and an AnyValue with
      no oneof set both read as null; a nil list reads as an empty map. */
  ghost function Val(s: Shape): Value
    decreases s
  {
    match s
    case Absent => Leaf(Null)
    case Plain(_, sc) => Leaf(sc)
    case MapNode(_, _, _, es, _) => MapVal(Slots(es))
    case ArrayNode(_, _, _, xs, _) => ArrayVal(Vals(xs))
  }

  ghost function SlotOf(e: Entry): Slot
    decreases e
  {
    match e
    case Gap => Hole
    case Pair(_, k, val) => Slot(k, Val(val))
  }

  ghost function Slots(es: seq<Entry>): (r: seq<Slot>)
    ensures |r| == |es|
    ensures forall i :: 0 <= i < |es| ==> r[i] == SlotOf(es[i])
    decreases es
  {
    seq(|es|, i requires 0 <= i < |es| => SlotOf(es[i]))
  }

  ghost function Vals(xs: seq<Shape>): (r: seq<Value>)
    ensures |r| == |xs|
    ensures forall i :: 0 <= i < |xs| ==> r[i] == Val(xs[i])
    decreases xs
  {
    seq(|xs|, i requires 0 <= i < |xs| => Val(xs[i]))
  }

  /** No object occurs at two places of the shape. */
  ghost predicate Tree(s: Shape)
    decreases s
  {
    match s
    case Absent => true
    case Plain(_, _) => true
    case MapNode(n, b, l, es, inner) => n !in inner && b !in inner && l !in inner && TreeEntries(es)
    case ArrayNode(n, b, a, xs, inner) => n !in inner && b !in inner && a !in inner && TreeElems(xs)
  }

  ghost predicate TreeEntry(e: Entry)
    decreases e
  {
    e.Pair? ==> e.kv !in Repr(e.val) && Tree(e.val)
  }

  ghost predicate TreeEntries(es: seq<Entry>)
    decreases es
  {
    && (forall i :: 0 <= i < |es| ==> TreeEntry(es[i]))
    && (forall i, j :: 0 <= i < j < |es| ==> EntryRepr(es[i]) !! EntryRepr(es[j]))
  }

  ghost predicate TreeElems(xs: seq<Shape>)
    decreases xs
  {
    && (forall i :: 0 <= i < |xs| ==> Tree(xs[i]))
    && (forall i, j :: 0 <= i < j < |xs| ==> Repr(xs[i]) !! Repr(xs[j]))
  }

  /** The heap at `v` looks exactly as the shape says. */
  ghost predicate Matches(v: AnyValue?, s: Shape)
    reads Repr(s)
    decreases s
  {
    match s
    case Absent => v == null
    case Plain(n, sc) => v == n && n.value == Primitive(sc)
    case MapNode(n, b, l, es, inner) =>
      && v == n && n.value == Kvlist(b) && b.list == l
      && (if l == null then es == [] else MatchEntries(l.values, es, inner))
    case ArrayNode(n, b, a, xs, inner) =>
      && v == n && n.value == Array(b) && b.arr == a
      && (if a == null then xs == [] else MatchElems(a.values, xs, inner))
  }

  ghost predicate MatchEntry(kv: KeyValue?, e: Entry)
    reads EntryRepr(e)
    decreases e
  {
    match e
    case Gap => kv == null
    case Pair(p, k, val) => kv == p && p.key == k && Matches(p.value, val)
  }

  ghost predicate MatchEntries(vs: seq<KeyValue?>, es: seq<Entry>, fp: set<object>)
    reads fp
    decreases es
  {
    |vs| == |es| && EntriesWithin(es, fp) && forall i :: 0 <= i < |es| ==> MatchEntry(vs[i], es[i])
  }

  ghost predicate MatchElems(vs: seq<AnyValue?>, xs: seq<Shape>, fp: set<object>)
    reads fp
    decreases xs
  {
    |vs| == |xs| && ElemsWithin(xs, fp) && forall i :: 0 <= i < |xs| ==> Matches(vs[i], xs[i])
  }

  // ------------------------------------------- when a copy does not panic

  ghost function OldElems(d: Shape): seq<Shape> {
    if d.ArrayNode? then d.elems else []
  }

  /** Copying `s` over a value whose array elements were `prev` meets no nil
      dereference: every map entry on the way is non-nil, and an array copied
      in place never has a nil element on both sides. */
  ghost predicate Copyable(s: Shape, prev: seq<Shape>)
    decreases s
  {
    match s
    case Absent => true
    case Plain(_, _) => true
    case MapNode(_, _, _, es, _) => CopyableEntries(es)
    case ArrayNode(_, _, _, xs, _) => CopyableElems(xs, prev)
  }

  ghost predicate CopyableEntry(e: Entry)
    decreases e
  {
    e.Pair? && Copyable(e.val, [])
  }

  ghost predicate CopyableEntries(es: seq<Entry>)
    decreases es
  {
    forall i :: 0 <= i < |es| ==> CopyableEntry(es[i])
  }

  ghost predicate CopyableElems(xs: seq<Shape>, prev: seq<Shape>)
    decreases xs
  {
    if |xs| <= |prev| then
      forall i :: 0 <= i < |xs| ==> (xs[i].Absent? ==> !prev[i].Absent?) && Copyable(xs[i], OldElems(prev[i]))
    else
      forall i :: 0 <= i < |xs| ==> Copyable(xs[i], [])
  }

  /** Source and destination of a copy have no object in common, or are the same
      value. */
  ghost predicate Apart(s: Shape, d: Shape) {
    Repr(s) !! Repr(d) || s == d
  }

  // -------------------------------------------------------------- the copy

  /** AttributeValue.MapVal: a nil list reads as a new, empty one. */
  method MapOf(src: AnyValue, box: KvlistBox, ghost ss: Shape) returns (m: KeyValueList)
    requires Matches(src, ss) && src.value == Kvlist(box)
    ensures ss.MapNode? && MatchEntries(m.values, ss.entries, ss.inner)
    ensures if box.list == null then fresh(m) else m == box.list
  {
    if box.list == null {
      m := new KeyValueList();
    } else {
      m := box.list;
    }
  }

  /** AttributeValue.ArrayVal. */
  method ArrayOf(src: AnyValue, box: ArrayBox, ghost ss: Shape) returns (a: ArrayValue, ghost fp: set<object>)
    requires Matches(src, ss) && src.value == Array(box)
    ensures ss.ArrayNode? && MatchElems(a.values, ss.elems, fp)
    ensures if box.arr == null then fresh(a) && fp == {} else a == box.arr == ss.arr && fp == ss.inner
  {
    if box.arr == null {
      a := new ArrayValue();
      fp := {};
    } else {
      a, fp := box.arr, ss.inner;
    }
  }

  /** AttributeValue.copyTo: overwrite `*dest` with a deep copy of the source.
      The destination's new picture `ds'` holds the source's value, is made of
      the old destination's objects and fresh ones only, and is again a tree;
      the frame says that nothing outside the old destination changed, so a
      source apart from it is intact and shares no object with the copy. A value
      copied onto itself keeps its contents. */
  method CopyInto(src: AnyValue?, ghost ss: Shape, dest: AnyValue, ghost ds: Shape)
    returns (ghost ds': Shape)
    requires Matches(src, ss) && Matches(dest, ds) && Tree(ds)
    requires Apart(ss, ds) && Copyable(ss, OldElems(ds))
    modifies Repr(ds)
    ensures Matches(dest, ds') && Tree(ds') && Val(ds') == Val(ss)
    ensures fresh(Repr(ds') - Repr(ds))
    decreases ss, 3
  {
    if src == null {
      dest.value := Primitive(Null);
      ds' := Plain(dest, Null);
      return;
    }
    match src.value {
      case Kvlist(box) =>
        var r;
        var m := MapOf(src, box, ss);
        r, ds' := SetMapVal(dest, ds, m, ss.entries, ss.inner);
      case Array(box) =>
        var r;
        var a; ghost var fp;
        a, fp := ArrayOf(src, box, ss);
        r, ds' := SetArrayVal(dest, ds, a, ss.elems, fp);
      case Primitive(sc) =>
        dest.value := src.value;
        ds' := Plain(dest, sc);
    }
  }

  /** AttributeValue.CopyTo: `slot` is the pointer the destination wraps, the
      result the pointer it wraps afterwards. */
  method CopySlot(src: AnyValue?, ghost ss: Shape, slot: AnyValue?, ghost ds: Shape)
    returns (r: AnyValue?, ghost ds': Shape)
    requires Matches(src, ss) && Matches(slot, ds) && Tree(ds)
    requires Apart(ss, ds) && Copyable(ss, OldElems(ds))
    requires src != null || slot != null
    modifies Repr(ds)
    ensures slot != null ==> r == slot
    ensures Matches(r, ds') && Tree(ds') && Val(ds') == Val(ss)
    ensures fresh(Repr(ds') - Repr(ds))
    decreases ss, 4
  {
    if src != null && slot == null {
      r := new AnyValue();
      ds' := CopyInto(src, ss, r, Plain(r, Null));
    } else {
      r := slot;
      ds' := CopyInto(src, ss, r, ds);
    }
  }

  /** The objects SetMapVal writes before it has read its argument. */
  ghost function Head(s: Shape): set<object> {
    match s
    case Absent => {}
    case Plain(n, _) => {n}
    case MapNode(n, b, _, _, _) => {n, b}
    case ArrayNode(n, _, _, _, _) => {n}
  }

  /** AttributeValue.SetMapVal, with the wrapped pointer passed and returned as
      in CopySlot. The old map's list object is kept, its entries are not; the
      argument may be the very map that is being replaced. */
  method SetMapVal(slot: AnyValue?, ghost ds: Shape, m: KeyValueList, ghost es: seq<Entry>, ghost fp: set<object>)
    returns (r: AnyValue, ghost ds': Shape)
    requires Matches(slot, ds)
    requires MatchEntries(m.values, es, fp) && CopyableEntries(es)
    requires Head(ds) !! fp
    modifies Repr(ds)
    ensures slot != null ==> r == slot
    ensures Matches(r, ds') && Tree(ds') && Val(ds') == MapVal(Slots(es))
    ensures fresh(Repr(ds') - Repr(ds)) && ds'.MapNode? && fresh(ds'.inner)
    decreases es, 2
  {
    if slot == null {
      r := new AnyValue();
    } else {
      r := slot;
    }
    var dest: KeyValueList;
    var box: KvlistBox;
    match r.value {
      case Kvlist(b) =>
        box := b;
        if b.list == null {
          dest := new KeyValueList();
          b.list := dest;
        } else {
          dest := b.list;
        }
      case _ =>
        dest := new KeyValueList();
        box := new KvlistBox(dest);
        r.value := Kvlist(box);
    }
    ghost var es', fp' := InitFromAttributeMap(dest, m, es, fp);
    ds' := MapNode(r, box, dest, es', fp');
  }

  /** AttributeMap.InitFromAttributeMap: the new entries are all fresh, and the
      slice is assigned last, so `dst` may be `m` or any list inside it. */
  method InitFromAttributeMap(dst: KeyValueList, m: KeyValueList, ghost es: seq<Entry>, ghost fp: set<object>)
    returns (ghost es': seq<Entry>, ghost fp': set<object>)
    requires MatchEntries(m.values, es, fp) && CopyableEntries(es)
    modifies dst
    ensures MatchEntries(dst.values, es', fp') && TreeEntries(es') && Slots(es') == Slots(es)
    ensures fresh(fp')
    decreases es, 1
  {
    if |m.values| == 0 {
      dst.values, es', fp' := [], [], {};
    } else {
      var wrappers: seq<KeyValue?>;
      wrappers, es', fp' := CloneEntries(m.values, es, fp);
      dst.values := wrappers;
    }
  }

  /** The loop that fills a newly allocated slice of key/value pairs. */
  method CloneEntries(vs: seq<KeyValue?>, ghost es: seq<Entry>, ghost fp: set<object>)
    returns (wrappers: seq<KeyValue?>, ghost es': seq<Entry>, ghost fp': set<object>)
    requires MatchEntries(vs, es, fp) && CopyableEntries(es)
    ensures MatchEntries(wrappers, es', fp') && TreeEntries(es') && Slots(es') == Slots(es)
    ensures fresh(fp')
    decreases es, 0
  {
    wrappers, es', fp' := [], [], {};
    for ix := 0 to |vs|
      invariant |es'| == ix
      invariant MatchEntries(vs, es, fp) && MatchEntries(wrappers, es', fp')
      invariant TreeEntries(es') && fresh(fp')
      invariant Slots(es') == Slots(es)[..ix]
    {
      var kv; ghost var e;
      kv, e := CloneEntry(vs[ix], es[ix]);
      wrappers, es', fp' := wrappers + [kv], es' + [e], fp' + EntryRepr(e);
    }
  }

  method CloneEntry(v: KeyValue, ghost e: Entry) returns (kv: KeyValue, ghost e': Entry)
    requires MatchEntry(v, e) && CopyableEntry(e)
    ensures MatchEntry(kv, e') && TreeEntry(e') && SlotOf(e') == SlotOf(e)
    ensures fresh(EntryRepr(e'))
    decreases e, 0
  {
    kv, e' := NewEntry(v.key, v.value, e.val);
  }

  /** AttributeValue.SetArrayVal, with the wrapped pointer passed and returned.
      Unlike a map's entries, an old array's elements are written in place. */
  method SetArrayVal(slot: AnyValue?, ghost ds: Shape, arr: ArrayValue, ghost xs: seq<Shape>, ghost fp: set<object>)
    returns (r: AnyValue, ghost ds': Shape)
    requires Matches(slot, ds) && Tree(ds)
    requires MatchElems(arr.values, xs, fp) && CopyableElems(xs, OldElems(ds))
    requires {arr} + fp !! Repr(ds) || (ds.ArrayNode? && arr == ds.arr && xs == ds.elems && fp == ds.inner)
    modifies Repr(ds)
    ensures slot != null ==> r == slot
    ensures Matches(r, ds') && Tree(ds') && Val(ds') == ArrayVal(Vals(xs))
    ensures fresh(Repr(ds') - Repr(ds))
    decreases xs, 3
  {
    var box, dest; ghost var oldFp;
    r, box, dest, oldFp := ArrayHome(slot, ds);
    ghost var xs', fp' := CopyArray(arr, xs, fp, dest, OldElems(ds), oldFp);
    ds' := ArrayNode(r, box, dest, xs', fp');
  }

  /** The array object a value keeps or is given, with its old elements. */
  method ArrayHome(slot: AnyValue?, ghost ds: Shape)
    returns (r: AnyValue, box: ArrayBox, dest: ArrayValue, ghost oldFp: set<object>)
    requires Matches(slot, ds) && Tree(ds)
    modifies Repr(ds)
    ensures slot != null ==> r == slot
    ensures r.value == Array(box) && box.arr == dest && {r, box, dest} !! oldFp
    ensures MatchElems(dest.values, OldElems(ds), oldFp) && TreeElems(OldElems(ds))
    ensures oldFp <= Repr(ds) && fresh({r, box, dest} - Repr(ds))
    ensures ds.ArrayNode? && ds.arr != null ==> dest == ds.arr && oldFp == ds.inner
  {
    if slot == null {
      r := new AnyValue();
    } else {
      r := slot;
    }
    oldFp := {};
    match r.value {
      case Array(b) =>
        box := b;
        if b.arr == null {
          dest := new ArrayValue();
          b.arr := dest;
        } else {
          dest := b.arr;
          oldFp := ds.inner;
        }
      case _ =>
        dest := new ArrayValue();
        box := new ArrayBox(dest);
        r.value := Array(box);
    }
  }

  /** AnyValueArray.CopyTo. Whether the elements are copied into the old cells
      or into new ones, the destination ends up with the source's contents. */
  method CopyArray(src: ArrayValue, ghost xs: seq<Shape>, ghost fp: set<object>,
                   dst: ArrayValue, ghost ds: seq<Shape>, ghost oldFp: set<object>)
    returns (ghost ds': seq<Shape>, ghost fp': set<object>)
    requires MatchElems(src.values, xs, fp) && MatchElems(dst.values, ds, oldFp)
    requires TreeElems(ds) && dst !in oldFp
    requires {src} + fp !! {dst} + oldFp || (src == dst && xs == ds && fp == oldFp)
    requires CopyableElems(xs, ds)
    modifies {dst} + oldFp
    ensures MatchElems(dst.values, ds', fp') && TreeElems(ds') && dst !in fp'
    ensures Vals(ds') == Vals(xs)
    ensures fresh(fp' - oldFp)
    decreases xs, 2
  {
    var newLen := |src.values|;
    if newLen == 0 {
      dst.values, ds', fp' := [], [], {};
    } else if newLen <= |dst.values| {
      dst.values := dst.values[..newLen];
      ds', fp' := CopyElemsInPlace(src.values, xs, fp, dst, ds[..newLen], oldFp);
    } else {
      var wrappers: seq<AnyValue?>;
      wrappers, ds', fp' := CloneElems(src.values, xs, fp);
      dst.values := wrappers;
    }
  }

  method CopyElemsInPlace(vs: seq<AnyValue?>, ghost xs: seq<Shape>, ghost fp: set<object>,
                          dst: ArrayValue, ghost ds: seq<Shape>, ghost oldFp: set<object>)
    returns (ghost ds': seq<Shape>, ghost fp': set<object>)
    requires MatchElems(vs, xs, fp) && MatchElems(dst.values, ds, oldFp) && |xs| == |ds|
    requires TreeElems(ds) && dst !in oldFp
    requires fp !! {dst} + oldFp || (xs == ds && fp == oldFp)
    requires CopyableElems(xs, ds)
    modifies {dst} + oldFp
    ensures MatchElems(dst.values, ds', fp') && TreeElems(ds') && dst !in fp'
    ensures Vals(ds') == Vals(xs)
    ensures fresh(fp' - oldFp)
    decreases xs, 1
  {
    ds', fp' := ds, oldFp;
    CellsApart(xs, fp, ds, oldFp, dst);
    for i := 0 to |vs|
      invariant |ds'| == |ds| == |vs|
      invariant forall k :: i <= k < |vs| ==> Matches(vs[k], xs[k])
      invariant MatchElems(dst.values, ds', fp')
      invariant TreeElems(ds') && dst !in fp'
      invariant oldFp <= fp' && fresh(fp' - oldFp)
      invariant forall k :: 0 <= k < i ==> Val(ds'[k]) == Val(xs[k])
      invariant forall k :: i <= k < |ds| ==> ds'[k] == ds[k]
    {
      ds', fp' := CopyElemAt(vs[i], xs[i], dst, ds', fp', i);
    }
  }

  /** What is still to be copied is out of reach of the cells written before it. */
  ghost predicate CellsSeparate(xs: seq<Shape>, ds: seq<Shape>, dst: ArrayValue) {
    && (forall k :: 0 <= k < |xs| && k < |ds| ==> Apart(xs[k], ds[k]))
    && (forall k :: 0 <= k < |xs| ==> dst !in Repr(xs[k]))
    && (forall i, k :: 0 <= i < k < |xs| && i < |ds| ==> Repr(ds[i]) !! Repr(xs[k]))
  }

  lemma CellsApart(xs: seq<Shape>, fp: set<object>, ds: seq<Shape>, oldFp: set<object>, dst: ArrayValue)
    requires ElemsWithin(xs, fp) && ElemsWithin(ds, oldFp) && TreeElems(ds) && dst !in oldFp
    requires fp !! {dst} + oldFp || (xs == ds && fp == oldFp)
    ensures CellsSeparate(xs, ds, dst)
  {
  }

  /** One step of the in-place loop: only cell `i` and the slice are written. */
  method CopyElemAt(v: AnyValue?, ghost x: Shape, dst: ArrayValue, ghost ds: seq<Shape>, ghost fp: set<object>, i: nat)
    returns (ghost ds': seq<Shape>, ghost fp': set<object>)
    requires MatchElems(dst.values, ds, fp) && i < |ds| && Matches(v, x)
    requires TreeElems(ds) && dst !in fp
    requires Apart(x, ds[i]) && Copyable(x, OldElems(ds[i])) && (x.Absent? ==> !ds[i].Absent?)
    modifies {dst} + Repr(ds[i])
    ensures |ds'| == |ds| && ds' == ds[i := ds'[i]] && Val(ds'[i]) == Val(x)
    ensures MatchElems(dst.values, ds', fp') && TreeElems(ds') && dst !in fp'
    ensures fp <= fp' && fresh(fp' - fp)
    decreases x, 5
  {
    var r; ghost var x';
    r, x' := CopySlot(v, x, dst.values[i], ds[i]);
    ds', fp' := ds[i := x'], fp + Repr(x');
    dst.values := dst.values[i := r];
  }

  method CloneElems(vs: seq<AnyValue?>, ghost xs: seq<Shape>, ghost fp: set<object>)
    returns (wrappers: seq<AnyValue?>, ghost xs': seq<Shape>, ghost fp': set<object>)
    requires MatchElems(vs, xs, fp)
    requires forall i :: 0 <= i < |xs| ==> Copyable(xs[i], [])
    ensures MatchElems(wrappers, xs', fp') && TreeElems(xs') && Vals(xs') == Vals(xs)
    ensures fresh(fp')
    decreases xs, 0
  {
    wrappers, xs', fp' := [], [], {};
    for i := 0 to |vs|
      invariant |xs'| == i
      invariant MatchElems(vs, xs, fp) && MatchElems(wrappers, xs', fp')
      invariant TreeElems(xs') && fresh(fp')
      invariant Vals(xs') == Vals(xs)[..i]
    {
      var r; ghost var x;
      r, x := CloneElem(vs[i], xs[i]);
      wrappers, xs', fp' := wrappers + [r], xs' + [x], fp' + Repr(x);
    }
  }

  method CloneElem(v: AnyValue?, ghost x: Shape) returns (r: AnyValue?, ghost x': Shape)
    requires Matches(v, x) && Copyable(x, [])
    ensures Matches(r, x') && Tree(x') && Val(x') == Val(x)
    ensures fresh(Repr(x'))
    decreases x, 5
  {
    var any := new AnyValue();
    r, x' := CopySlot(v, x, any, Plain(any, Null));
  }

  // ---------------------------------------------------- attribute map helpers

  /** AttributeMap.CopyTo meets no nil dereference. */
  ghost predicate CopyableOver(es: seq<Entry>, ds: seq<Entry>) {
    if |es| <= |ds| then
      forall i :: 0 <= i < |es| ==> es[i].Pair? && ds[i].Pair? && Copyable(es[i].val, OldElems(ds[i].val))
    else
      CopyableEntries(es)
  }

  method CopyEntriesInPlace(vs: seq<KeyValue?>, ghost es: seq<Entry>, ghost fp: set<object>,
                            cells: seq<KeyValue?>, ghost ds: seq<Entry>, ghost oldFp: set<object>)
    returns (ghost ds': seq<Entry>, ghost fp': set<object>)
    requires MatchEntries(vs, es, fp) && MatchEntries(cells, ds, oldFp) && |es| == |ds|
    requires TreeEntries(ds) && fp !! oldFp && CopyableOver(es, ds)
    modifies oldFp
    ensures MatchEntries(cells, ds', fp') && TreeEntries(ds') && Slots(ds') == Slots(es)
    ensures fresh(fp' - oldFp)
  {
    ds', fp' := ds, oldFp;
    for i := 0 to |vs|
      invariant |ds'| == |ds| == |vs|
      invariant MatchEntries(vs, es, fp) && MatchEntries(cells, ds', fp')
      invariant TreeEntries(ds')
      invariant oldFp <= fp' && fresh(fp' - oldFp)
      invariant forall k :: 0 <= k < i ==> SlotOf(ds'[k]) == SlotOf(es[k])
      invariant forall k :: i <= k < |ds| ==> ds'[k] == ds[k]
    {
      ds', fp' := CopyEntryAt(vs[i], es[i], cells, ds', fp', i);
    }
  }

  method CopyEntryAt(v: KeyValue, ghost e: Entry, cells: seq<KeyValue?>, ghost ds: seq<Entry>, ghost fp: set<object>, i: nat)
    returns (ghost ds': seq<Entry>, ghost fp': set<object>)
    requires MatchEntries(cells, ds, fp) && i < |ds| && MatchEntry(v, e) && TreeEntries(ds)
    requires e.Pair? && ds[i].Pair? && EntryRepr(e) !! EntryRepr(ds[i]) && Copyable(e.val, OldElems(ds[i].val))
    modifies EntryRepr(ds[i])
    ensures |ds'| == |ds| && ds' == ds[i := ds'[i]] && SlotOf(ds'[i]) == SlotOf(e)
    ensures MatchEntries(cells, ds', fp') && TreeEntries(ds')
    ensures fp <= fp' && fresh(fp' - fp)
  {
    ghost var e';
    e' := CopyEntry(v, e, cells[i], ds[i]);
    ds', fp' := ds[i := e'], fp + EntryRepr(e');
  }

  method CopyEntry(v: KeyValue, ghost e: Entry, cell: KeyValue, ghost d: Entry) returns (ghost d': Entry)
    requires MatchEntry(v, e) && MatchEntry(cell, d) && TreeEntry(d)
    requires e.Pair? && d.Pair? && EntryRepr(e) !! EntryRepr(d) && Copyable(e.val, OldElems(d.val))
    modifies EntryRepr(d)
    ensures MatchEntry(cell, d') && TreeEntry(d') && SlotOf(d') == SlotOf(e)
    ensures fresh(EntryRepr(d') - EntryRepr(d))
  {
    cell.key := v.key;
    ghost var old' := d.val;
    if cell.value == null {
      cell.value := new AnyValue();
      old' := Plain(cell.value, Null);
    }
    ghost var val' := CopyInto(v.value, e.val, cell.value, old');
    d' := Pair(cell, v.key, val');
  }

  lemma MoveLast(vs: seq<KeyValue?>, es: seq<Entry>, fp: set<object>, i: nat) returns (es': seq<Entry>)
    requires MatchEntries(vs, es, fp) && TreeEntries(es) && i < |es|
    ensures |es'| == |es| - 1 && TreeEntries(es')
    ensures MatchEntries(vs[i := vs[|vs| - 1]][..|vs| - 1], es', fp)
    ensures Slots(es') == Slots(es)[i := Slots(es)[|es| - 1]][..|es| - 1]
  {
    var n := |es| - 1;
    es' := es[i := es[n]][..n];
    assert forall j :: 0 <= j < n ==> es'[j] == if j == i then es[n] else es[j];
  }

  lemma NilIsAbsent(v: AnyValue?, s: Shape)
    requires Matches(v, s)
    ensures v == null <==> s.Absent?
    ensures v != null ==> v in Repr(s)
  {
  }

  /** newAttributeKeyValue */
  method NewEntry(k: string, v: AnyValue?, ghost vs: Shape) returns (kv: KeyValue, ghost e: Entry)
    requires Matches(v, vs) && Copyable(vs, [])
    ensures MatchEntry(kv, e) && TreeEntry(e) && SlotOf(e) == Slot(k, Val(vs))
    ensures fresh(EntryRepr(e))
    decreases vs, 4
  {
    var any := new AnyValue();
    kv := new KeyValue(k, any);
    ghost var val' := CopyInto(v, vs, any, Plain(any, Null));
    e := Pair(kv, k, val');
  }

  /** Copying over entry `i`, if there is one, meets no nil and no object shared
      with a different value. */
  ghost predicate Overwritable(vs: Shape, es: seq<Entry>, i: nat) {
    i < |es| ==> es[i].Pair? && !es[i].val.Absent? && Apart(vs, es[i].val) && Copyable(vs, OldElems(es[i].val))
  }

  method Overwrite(values: seq<KeyValue?>, i: nat, v: AnyValue?, ghost vs: Shape, ghost es: seq<Entry>, ghost fp: set<object>)
    returns (ghost es': seq<Entry>, ghost fp': set<object>)
    requires MatchEntries(values, es, fp) && TreeEntries(es)
    requires Matches(v, vs) && i < |es| && Overwritable(vs, es, i)
    modifies fp
    ensures MatchEntries(values, es', fp') && TreeEntries(es')
    ensures fp <= fp' && fresh(fp' - fp)
    ensures Slots(es') == Slots(es)[i := Slot(es[i].key, Val(vs))]
  {
    assert MatchEntry(values[i], es[i]);
    NilIsAbsent(values[i].value, es[i].val);
    ghost var val' := CopyInto(v, vs, values[i].value, es[i].val);
    ghost var e := es[i].(val := val');
    es', fp' := es[i := e], fp + Repr(val');
  }

  method OverwriteScalar(values: seq<KeyValue?>, i: nat, sc: Scalar, ghost es: seq<Entry>, ghost fp: set<object>)
    returns (ghost es': seq<Entry>, ghost fp': set<object>)
    requires MatchEntries(values, es, fp) && TreeEntries(es)
    requires i < |es| && es[i].Pair?
    modifies fp
    ensures MatchEntries(values, es', fp') && TreeEntries(es')
    ensures fp <= fp' && fresh(fp' - fp)
    ensures Slots(es') == Slots(es)[i := Slot(es[i].key, Leaf(sc))]
  {
    assert MatchEntry(values[i], es[i]) && EntryRepr(es[i]) <= fp;
    NilIsAbsent(values[i].value, es[i].val);
    var r; ghost var val';
    r, val' := SetScalar(values[i].value, es[i].val, sc);
    values[i].value := r;
    ghost var e := es[i].(val := val');
    assert SlotOf(e) == Slot(es[i].key, Leaf(sc));
    es', fp' := es[i := e], fp + Repr(val');
  }

  /** Where the insertion sort puts `x`: after the last entry it is not before. */
  method InsertionPoint(done: seq<KeyValue?>, x: KeyValue?, ghost es: seq<Entry>, ghost e: Entry, ghost fp: set<object>)
    returns (j: nat)
    requires MatchEntries(done, es, fp) && MatchEntry(x, e) && EntryRepr(e) <= fp
    ensures j <= |done| && (j > 0 ==> !Before(SlotOf(e), SlotOf(es[j - 1])))
    ensures forall q :: j <= q < |done| ==> Before(SlotOf(e), SlotOf(es[q]))
  {
    j := |done|;
    while j > 0 && (done[j - 1] == null || (x != null && Less(x.key, done[j - 1].key)))
      invariant j <= |done|
      invariant forall q :: j <= q < |done| ==> Before(SlotOf(e), SlotOf(es[q]))
    {
      assert MatchEntry(done[j - 1], es[j - 1]);
      j := j - 1;
    }
    assert j > 0 ==> MatchEntry(done[j - 1], es[j - 1]);
  }

  method SortPointers(vs: seq<KeyValue?>, ghost es: seq<Entry>, ghost fp: set<object>)
    returns (done: seq<KeyValue?>, ghost es': seq<Entry>)
    requires MatchEntries(vs, es, fp) && TreeEntries(es)
    ensures MatchEntries(done, es', fp) && TreeEntries(es')
    ensures multiset(done) == multiset(vs)
    ensures Slots(es') == Sorted(Slots(es))
  {
    done, es' := [], [];
    ghost var from: seq<nat> := [];
    for i := 0 to |vs|
      invariant SortState(done, es', from, vs, es, fp, i)
    {
      var j := InsertionPoint(done, vs[i], es', es[i], fp);
      InsertStep(done, es', from, vs, es, fp, i, j);
      done, es', from := done[..j] + [vs[i]] + done[j..], es'[..j] + [es[i]] + es'[j..], from[..j] + [i] + from[j..];
    }
    PicksAreSeparate(es', es, from);
    assert Slots(es)[..|es|] == Slots(es) && vs[..|vs|] == vs;
  }

  /** The first `i` pointers are in order, their pictures moved along. */
  ghost predicate SortState(done: seq<KeyValue?>, picked: seq<Entry>, from: seq<nat>,
                            vs: seq<KeyValue?>, es: seq<Entry>, fp: set<object>, i: nat)
    reads fp
  {
    && i <= |vs| && |picked| == i && MatchEntries(done, picked, fp)
    && multiset(done) == multiset(vs[..i])
    && Picks(picked, es, from, i) && SortedUpTo(picked, es, i)
  }

  lemma InsertStep(done: seq<KeyValue?>, picked: seq<Entry>, from: seq<nat>,
                   vs: seq<KeyValue?>, es: seq<Entry>, fp: set<object>, i: nat, j: nat)
    requires MatchEntries(vs, es, fp) && i < |vs| && SortState(done, picked, from, vs, es, fp, i)
    requires j <= |done| && (j > 0 ==> !Before(SlotOf(es[i]), SlotOf(picked[j - 1])))
    requires forall q :: j <= q < |done| ==> Before(SlotOf(es[i]), SlotOf(picked[q]))
    ensures SortState(done[..j] + [vs[i]] + done[j..], picked[..j] + [es[i]] + picked[j..], from[..j] + [i] + from[j..], vs, es, fp, i + 1)
  {
    InsertSorts(picked, es, i, j);
    InsertPick(picked, es, from, i, j);
    InsertMatch(done, picked, vs[i], es[i], j, fp);
    InsertPermutes(done, vs, i, j);
  }

  ghost predicate SortedUpTo(done: seq<Entry>, es: seq<Entry>, i: nat) {
    i <= |es| && Slots(done) == Sorted(Slots(es)[..i])
  }

  lemma InsertSorts(done: seq<Entry>, es: seq<Entry>, i: nat, j: nat)
    requires i < |es| && SortedUpTo(done, es, i)
    requires j <= |done| && (j > 0 ==> !Before(SlotOf(es[i]), SlotOf(done[j - 1])))
    requires forall q :: j <= q < |done| ==> Before(SlotOf(es[i]), SlotOf(done[q]))
    ensures SortedUpTo(done[..j] + [es[i]] + done[j..], es, i + 1)
  {
    SortedInsert(Slots(es), i, Slots(done), j);
    assert Slots(done[..j] + [es[i]] + done[j..]) == Slots(done)[..j] + [SlotOf(es[i])] + Slots(done)[j..];
  }

  /** `picked` consists of entries of `es` at the distinct positions `from`. */
  ghost predicate Picks(picked: seq<Entry>, es: seq<Entry>, from: seq<nat>, n: nat) {
    && |picked| == |from| && n <= |es|
    && (forall q :: 0 <= q < |from| ==> from[q] < n && picked[q] == es[from[q]])
    && (forall p, q :: 0 <= p < q < |from| ==> from[p] != from[q])
  }

  lemma InsertPick(picked: seq<Entry>, es: seq<Entry>, from: seq<nat>, i: nat, j: nat)
    requires i < |es| && Picks(picked, es, from, i) && j <= |from|
    ensures Picks(picked[..j] + [es[i]] + picked[j..], es, from[..j] + [i] + from[j..], i + 1)
  {
  }

  lemma PicksAreSeparate(picked: seq<Entry>, es: seq<Entry>, from: seq<nat>)
    requires TreeEntries(es) && Picks(picked, es, from, |es|)
    ensures TreeEntries(picked)
  {
    forall p, q | 0 <= p < q < |picked|
      ensures EntryRepr(picked[p]) !! EntryRepr(picked[q])
    {
      assert from[p] < from[q] || from[q] < from[p];
    }
  }

  lemma InsertMatch(vs: seq<KeyValue?>, es: seq<Entry>, kv: KeyValue?, e: Entry, j: nat, fp: set<object>)
    requires MatchEntries(vs, es, fp) && MatchEntry(kv, e) && EntryRepr(e) <= fp && j <= |es|
    ensures MatchEntries(vs[..j] + [kv] + vs[j..], es[..j] + [e] + es[j..], fp)
  {
  }

  // ------------------------------------------------------------- what it means

  /** The value read off the heap does not depend on the picture chosen. */
  lemma {:induction false} PictureIsUnique(v: AnyValue?, s: Shape, t: Shape)
    requires Matches(v, s) && Matches(v, t)
    ensures Val(s) == Val(t)
    decreases s
  {
    match s
    case Absent =>
    case Plain(_, _) =>
    case MapNode(_, _, l, es, _) =>
      forall i | 0 <= i < |es|
        ensures SlotOf(es[i]) == SlotOf(t.entries[i])
      {
        assert MatchEntry(l.values[i], es[i]) && MatchEntry(l.values[i], t.entries[i]);
        if es[i].Pair? {
          PictureIsUnique(es[i].kv.value, es[i].val, t.entries[i].val);
        }
      }
      assert Slots(es) == Slots(t.entries);
    case ArrayNode(_, _, a, xs, _) =>
      forall i | 0 <= i < |xs|
        ensures Val(xs[i]) == Val(t.elems[i])
      {
        PictureIsUnique(a.values[i], xs[i], t.elems[i]);
      }
      assert Vals(xs) == Vals(t.elems);
  }

  /** No nil pointer anywhere below the shape. */
  ghost predicate NoNil(s: Shape)
    decreases s
  {
    match s
    case Absent => false
    case Plain(_, _) => true
    case MapNode(_, _, _, es, _) => forall i :: 0 <= i < |es| ==> es[i].Pair? && NoNil(es[i].val)
    case ArrayNode(_, _, _, xs, _) => forall i :: 0 <= i < |xs| ==> NoNil(xs[i])
  }

  /** A source without nil pointers can be copied over anything. */
  lemma {:induction false} NoNilIsCopyable(s: Shape, prev: seq<Shape>)
    requires NoNil(s)
    ensures Copyable(s, prev)
    decreases s
  {
    match s
    case Absent =>
    case Plain(_, _) =>
    case MapNode(_, _, _, es, _) =>
      forall i | 0 <= i < |es|
        ensures CopyableEntry(es[i])
      {
        NoNilIsCopyable(es[i].val, []);
      }
    case ArrayNode(_, _, _, xs, _) =>
      forall i | 0 <= i < |xs|
        ensures Copyable(xs[i], if |xs| <= |prev| then OldElems(prev[i]) else [])
      {
        NoNilIsCopyable(xs[i], if |xs| <= |prev| then OldElems(prev[i]) else []);
      }
  }

  /** SetStringVal, SetIntVal, SetDoubleVal and SetBoolVal: a new wrapper
      replaces the old one, whatever it held. */
  method SetScalar(slot: AnyValue?, ghost ds: Shape, sc: Scalar) returns (r: AnyValue, ghost ds': Shape)
    requires Matches(slot, ds)
    modifies slot
    ensures slot != null ==> r == slot
    ensures slot == null ==> fresh(r)
    ensures ds' == Plain(r, sc) && Matches(r, ds') && Tree(ds')
  {
    if slot == null {
      r := new AnyValue();
    } else {
      r := slot;
    }
    r.value := Primitive(sc);
    ds' := Plain(r, sc);
  }

  /** CopyTo into a new, empty value. */
  method Clone(src: AnyValue, ghost ss: Shape) returns (copy: AnyValue, ghost cs: Shape)
    requires Matches(src, ss) && Copyable(ss, [])
    ensures Matches(copy, cs) && Tree(cs) && Val(cs) == Val(ss) && fresh(Repr(cs))
  {
    copy := new AnyValue();
    cs := CopyInto(src, ss, copy, Plain(copy, Null));
  }

  /** A value copied onto itself, as Update does with what Get returned. */
  method CopyOntoItself(v: AnyValue, ghost s: Shape) returns (ghost s': Shape)
    requires Matches(v, s) && Tree(s) && Copyable(s, OldElems(s))
    modifies Repr(s)
    ensures Matches(v, s') && Tree(s') && Val(s') == Val(s) && fresh(Repr(s') - Repr(s))
  {
    s' := CopyInto(v, s, v, s);
  }

  /** Deep copy isolates: whatever is later written to the copy, node by node,
      the source still reads as before. */
  method EditCopy(src: AnyValue?, ghost ss: Shape, dest: AnyValue, ghost ds: Shape) returns (ghost ds': Shape)
    requires Matches(src, ss) && Matches(dest, ds) && Tree(ds)
    requires Repr(ss) !! Repr(ds) && Copyable(ss, OldElems(ds))
    modifies Repr(ds)
    ensures Val(ds') == Val(ss) && fresh(Repr(ds') - Repr(ds)) && Matches(src, ss)
  {
    ds' := CopyInto(src, ss, dest, ds);
    assert Repr(ss) !! Repr(ds');
    modify Repr(ds');
  }

  /** And the other way round. */
  method EditSource(src: AnyValue?, ghost ss: Shape, dest: AnyValue, ghost ds: Shape) returns (ghost ds': Shape)
    requires Matches(src, ss) && Matches(dest, ds) && Tree(ds)
    requires Repr(ss) !! Repr(ds) && Copyable(ss, OldElems(ds))
    modifies Repr(ss), Repr(ds)
    ensures Val(ds') == Val(ss) && Matches(dest, ds') && Tree(ds')
  {
    ds' := CopyInto(src, ss, dest, ds);
    ghost var given := Repr(ss);
    assert given !! Repr(ds');
    modify given;
    assert Matches(dest, ds');
  }
}
