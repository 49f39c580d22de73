/** Labels of the remote-write exporter: how a label set is built, put in order
    and turned into the signature that indexes the time series. */
module PromLabels {
  import opened Strings
  import opened Seqs
  import opened StableSort

  datatype Label = Label(name: string, value: string)

  datatype MetricType = InvalidType | Int64 | MonotonicInt64 | Double | MonotonicDouble | Histogram | Summary

  function TypeName(t: MetricType): string {
    match t
    case InvalidType => "INVALID_TYPE"
    case Int64 => "INT64"
    case MonotonicInt64 => "MONOTONIC_INT64"
    case Double => "DOUBLE"
    case MonotonicDouble => "MONOTONIC_DOUBLE"
    case Histogram => "HISTOGRAM"
    case Summary => "SUMMARY"
  }

  // ------------------------------------------------------- ordering by name

  predicate NameBefore(x: Label, y: Label) {
    Less(x.name, y.name)
  }

  predicate NameUpTo(x: Label, y: Label) {
    !Less(y.name, x.name)
  }

  /** `s` is a result that sorting `labels` by name may have. */
  ghost predicate IsSortOf(s: seq<Label>, labels: seq<Label>) {
    Ordered(s, NameUpTo) && multiset(s) == multiset(labels)
  }

  function SortByName(s: seq<Label>): (r: seq<Label>)
    ensures |r| == |s|
  {
    StableSort.Sort(s, NameBefore)
  }

  lemma SortIsSort(s: seq<Label>)
    ensures IsSortOf(SortByName(s), s)
  {
    forall x: Label, y: Label
      ensures if NameBefore(x, y) then NameUpTo(x, y) else NameUpTo(y, x)
    {
      Trichotomy(x.name, y.name);
    }
    forall x: Label, y: Label, z: Label | NameUpTo(x, y) && NameUpTo(y, z)
      ensures NameUpTo(x, z)
    {
      Trichotomy(x.name, y.name);
      if Less(z.name, x.name) && x.name != y.name {
        Transitive(z.name, x.name, y.name);
      }
    }
    SortOrdered(s, NameBefore, NameUpTo);
    SortPermutes(s, NameBefore);
  }

  ghost predicate DistinctNames(s: seq<Label>) {
    forall i, j :: 0 <= i < j < |s| ==> s[i].name != s[j].name
  }

  /** No two different labels carry the same name. */
  ghost predicate NamesDetermine(s: seq<Label>) {
    forall i, j :: 0 <= i < |s| && 0 <= j < |s| && s[i].name == s[j].name ==> s[i] == s[j]
  }

  lemma {:induction false} SortsAgree(s: seq<Label>, t: seq<Label>)
    requires Ordered(s, NameUpTo) && Ordered(t, NameUpTo) && multiset(s) == multiset(t) && NamesDetermine(s)
    ensures s == t
  {
    SameLength(s, t);
    if s != [] {
      SameFirst(s, t);
      Tail(s);
      Tail(t);
      SortsAgree(s[1..], t[1..]);
      SameCons(s, t);
    }
  }

  lemma SameLength(s: seq<Label>, t: seq<Label>)
    requires multiset(s) == multiset(t)
    ensures |s| == |t|
  {
    assert |multiset(s)| == |s| && |multiset(t)| == |t|;
  }

  lemma SameCons(s: seq<Label>, t: seq<Label>)
    requires s != [] && t != [] && s[0] == t[0] && s[1..] == t[1..]
    ensures s == t
  {
    assert s == [s[0]] + s[1..] && t == [t[0]] + t[1..];
  }

  lemma Tail(s: seq<Label>)
    requires s != [] && Ordered(s, NameUpTo)
    ensures Ordered(s[1..], NameUpTo) && multiset(s[1..]) == multiset(s) - multiset{s[0]}
    ensures NamesDetermine(s) ==> NamesDetermine(s[1..])
  {
    Uncons(s);
  }

  lemma SameFirst(s: seq<Label>, t: seq<Label>)
    requires Ordered(s, NameUpTo) && Ordered(t, NameUpTo) && multiset(s) == multiset(t) && NamesDetermine(s)
    requires |s| > 0 && |t| > 0
    ensures s[0] == t[0]
  {
    assert s[0] in multiset(t) && t[0] in multiset(s);
    var i :| 0 <= i < |t| && t[i] == s[0];
    var j :| 0 <= j < |s| && s[j] == t[0];
    assert i > 0 ==> NameUpTo(t[0], t[i]);
    assert j > 0 ==> NameUpTo(s[0], s[j]);
    Trichotomy(s[0].name, t[0].name);
  }

  lemma {:induction false} FilterFront(a: Label, b: Label, rest: seq<Label>, p: Label -> bool)
    requires p(a) && p(b)
    ensures [a, b] <= Filter([a, b] + rest, p)
  {
    var s := [a, b] + rest;
    if rest == [] {
      assert s == [a, b] && s[..1] == [a] && s[..1][..0] == [];
      assert Filter([a], p) == [a];
    } else {
      FilterFront(a, b, rest[..|rest| - 1], p);
      assert s[..|s| - 1] == [a, b] + rest[..|rest| - 1];
    }
  }

  /** Sorting by name has one possible outcome, whatever the algorithm, exactly
      when equally named labels are equal. */
  lemma SortIsCanonicalIff(labels: seq<Label>)
    ensures (forall s, t :: IsSortOf(s, labels) && IsSortOf(t, labels) ==> s == t) <==> NamesDetermine(labels)
  {
    if NamesDetermine(labels) {
      forall s, t | IsSortOf(s, labels) && IsSortOf(t, labels)
        ensures s == t
      {
        Members(s, labels);
        SortsAgree(s, t);
      }
    } else {
      var i, j :| 0 <= i < |labels| && 0 <= j < |labels| && labels[i].name == labels[j].name && labels[i] != labels[j];
      TwoSorts(labels, if i < j then i else j, if i < j then j else i);
    }
  }

  lemma Members(s: seq<Label>, t: seq<Label>)
    requires multiset(s) == multiset(t)
    ensures forall x :: x in s <==> x in t
    ensures NamesDetermine(t) ==> NamesDetermine(s)
    ensures DashFreeLabels(t) ==> DashFreeLabels(s)
  {
    forall x
      ensures x in s <==> x in t
    {
      assert x in s <==> x in multiset(s);
      assert x in t <==> x in multiset(t);
    }
    forall i, j | NamesDetermine(t) && 0 <= i < |s| && 0 <= j < |s| && s[i].name == s[j].name
      ensures s[i] == s[j]
    {
      assert s[i] in t && s[j] in t;
    }
    assert forall i :: 0 <= i < |s| ==> s[i] in t;
  }

  lemma TwoSorts(labels: seq<Label>, i: nat, j: nat)
    requires i < j < |labels| && labels[i].name == labels[j].name && labels[i] != labels[j]
    ensures exists s, t :: IsSortOf(s, labels) && IsSortOf(t, labels) && s != t
  {
    var a, b := labels[i], labels[j];
    var rest := PullOut(labels, i, j);
    SortIsSort([a, b] + rest);
    SortIsSort([b, a] + rest);
    SwapShows(a, b, rest);
    assert IsSortOf(SortByName([a, b] + rest), labels) && IsSortOf(SortByName([b, a] + rest), labels);
  }

  /** Of two labels with one name the first one given stays first. */
  lemma SwapShows(a: Label, b: Label, rest: seq<Label>)
    requires a.name == b.name && a != b
    ensures SortByName([a, b] + rest) != SortByName([b, a] + rest)
  {
    var p := (x: Label) => x.name == a.name;
    Trichotomy(a.name, a.name);
    SortIsStable([a, b] + rest, NameBefore, p);
    SortIsStable([b, a] + rest, NameBefore, p);
    FilterFront(a, b, rest, p);
    FilterFront(b, a, rest, p);
    assert Filter([a, b] + rest, p)[0] == a && Filter([b, a] + rest, p)[0] == b;
  }

  lemma PullOut(labels: seq<Label>, i: nat, j: nat) returns (rest: seq<Label>)
    requires i < j < |labels|
    ensures multiset(labels) == multiset([labels[i], labels[j]] + rest) == multiset([labels[j], labels[i]] + rest)
  {
    var mid := TakeOut(labels, j);
    rest := TakeOut(mid, i);
    Front(labels[i], labels[j], rest);
    Front(labels[j], labels[i], rest);
  }

  lemma Front(a: Label, b: Label, rest: seq<Label>)
    ensures multiset([a, b] + rest) == multiset(rest) + multiset{a} + multiset{b}
  {
    assert multiset([a, b]) == multiset{a, b};
  }

  /** With distinct names the sorted names strictly ascend. */
  lemma DistinctSortIsStrict(l: seq<Label>)
    requires DistinctNames(l)
    ensures forall i, j :: 0 <= i < j < |l| ==> Less(SortByName(l)[i].name, SortByName(l)[j].name)
  {
    var s := SortByName(l);
    SortIsSort(l);
    SortKeepsDistinct(l);
    forall i, j | 0 <= i < j < |l|
      ensures Less(s[i].name, s[j].name)
    {
      assert NameUpTo(s[i], s[j]);
      Trichotomy(s[i].name, s[j].name);
    }
  }

  lemma SortKeepsDistinct(l: seq<Label>)
    requires DistinctNames(l)
    ensures DistinctNames(SortByName(l))
  {
    var s := SortByName(l);
    SortIsSort(l);
    Members(s, l);
    forall i, j | 0 <= i < j < |s|
      ensures s[i].name != s[j].name
    {
      assert s[i] in l && s[j] in l;
      Once(l, s[i]);
      if s[i] == s[j] {
        Twice(s, i, j);
      }
    }
  }

  lemma {:induction false} Once(l: seq<Label>, x: Label)
    requires DistinctNames(l)
    ensures multiset(l)[x] <= 1
  {
    if l != [] {
      Once(l[1..], x);
      assert l == [l[0]] + l[1..];
    }
  }

  // ---------------------------------------------------------------- signature

  function Body(s: seq<Label>): string {
    if s == [] then "" else Body(s[..|s| - 1]) + "-" + s[|s| - 1].name + "-" + s[|s| - 1].value
  }

  function Signature(t: MetricType, s: seq<Label>): string {
    TypeName(t) + Body(s)
  }

  /** timeSeriesSignature: sorts the labels, then builds the string. */
  method TimeSeriesSignature(t: MetricType, labels: seq<Label>) returns (sig: string, sorted: seq<Label>)
    ensures IsSortOf(sorted, labels) && sorted == SortByName(labels)
    ensures sig == Signature(t, sorted)
  {
    sorted := SortByName(labels);
    SortIsSort(labels);
    sig := WriteLabels(TypeName(t), sorted);
  }

  method WriteLabels(start: string, sorted: seq<Label>) returns (sig: string)
    ensures sig == start + Body(sorted)
  {
    sig := start;
    for i := 0 to |sorted|
      invariant sig == start + Body(sorted[..i])
    {
      assert sorted[..i + 1][..i] == sorted[..i];
      BodySnoc(start, sorted[..i + 1]);
      sig := sig + "-";
      sig := sig + sorted[i].name;
      sig := sig + "-";
      sig := sig + sorted[i].value;
    }
    assert sorted[..|sorted|] == sorted;
  }

  lemma BodySnoc(start: string, s: seq<Label>)
    requires s != []
    ensures start + Body(s) == start + Body(s[..|s| - 1]) + "-" + s[|s| - 1].name + "-" + s[|s| - 1].value
    ensures !DashFree(start + Body(s))
  {
    var b, x := Body(s[..|s| - 1]), s[|s| - 1];
    Regroup(start, b, x.name, x.value);
  }

  lemma Regroup(a: string, b: string, n: string, v: string)
    ensures a + (b + "-" + n + "-" + v) == a + b + "-" + n + "-" + v
    ensures !DashFree(a + (b + "-" + n + "-" + v))
  {
    assert a + (b + "-") == a + b + "-";
    assert a + (b + "-" + n) == a + (b + "-") + n;
    assert a + (b + "-" + n + "-") == a + (b + "-" + n) + "-";
    assert a + (b + "-" + n + "-" + v) == a + (b + "-" + n + "-") + v;
    assert (a + (b + "-" + n + "-"))[|a + (b + "-" + n)|] == '-';
    assert (a + (b + "-" + n + "-") + v)[|a + (b + "-" + n)|] == '-';
  }

  predicate DashFree(s: string) {
    '-' !in s
  }

  ghost predicate DashFreeLabels(s: seq<Label>) {
    forall i :: 0 <= i < |s| ==> DashFree(s[i].name) && DashFree(s[i].value)
  }

  /** A string is cut at its last dash in one way only. */
  lemma LastDash(a: string, v: string, b: string, w: string)
    requires DashFree(v) && DashFree(w) && a + "-" + v == b + "-" + w
    ensures a == b && v == w
  {
    var s := a + "-" + v;
    assert s[|a|] == '-' && s[|b|] == '-';
    assert forall i :: 0 <= i < |v| ==> s[|a| + 1 + i] == v[i];
    assert forall i :: 0 <= i < |w| ==> s[|b| + 1 + i] == w[i];
    if |a| == |b| {
      assert a == s[..|a|] && b == s[..|b|] && v == s[|a| + 1..] && w == s[|b| + 1..];
    }
  }

  lemma TypeNamesDiffer(t: MetricType, u: MetricType)
    ensures DashFree(TypeName(t)) && (TypeName(t) == TypeName(u) <==> t == u)
  {
    if TypeName(t) == TypeName(u) {
      assert |TypeName(t)| == |TypeName(u)|;
      assert TypeName(t)[0] == TypeName(u)[0];
    }
  }

  lemma SameBodySameType(t: MetricType, u: MetricType, s: seq<Label>)
    requires Signature(t, s) == Signature(u, s)
    ensures t == u
  {
    var b, n := Body(s), |TypeName(t)|;
    assert Signature(t, s)[..n] == TypeName(t) && Signature(u, s)[..n] == TypeName(u);
    TypeNamesDiffer(t, u);
  }

  lemma SignatureSnoc(t: MetricType, s: seq<Label>)
    requires s != []
    ensures Signature(t, s) == Signature(t, s[..|s| - 1]) + "-" + s[|s| - 1].name + "-" + s[|s| - 1].value
    ensures !DashFree(Signature(t, s))
  {
    BodySnoc(TypeName(t), s);
  }

  lemma SignatureOfNone(t: MetricType)
    ensures Signature(t, []) == TypeName(t) && DashFree(Signature(t, []))
  {
    TypeNamesDiffer(t, t);
    assert TypeName(t) + "" == TypeName(t);
  }

  /** For dash-free names and values the signature says exactly which type and
      which label list it was made from. */
  lemma {:induction false} SignatureIsInjective(t: MetricType, s: seq<Label>, u: MetricType, r: seq<Label>)
    requires DashFreeLabels(s) && DashFreeLabels(r)
    ensures Signature(t, s) == Signature(u, r) <==> t == u && s == r
    decreases |s|
  {
    SignatureOfNone(t);
    SignatureOfNone(u);
    if s == [] && r == [] {
      TypeNamesDiffer(t, u);
    } else if s == [] {
      SignatureSnoc(u, r);
    } else if r == [] {
      SignatureSnoc(t, s);
    } else if Signature(t, s) == Signature(u, r) {
      InjectiveStep(t, s, u, r);
      SignatureIsInjective(t, s[..|s| - 1], u, r[..|r| - 1]);
      assert s == s[..|s| - 1] + [s[|s| - 1]] && r == r[..|r| - 1] + [r[|r| - 1]];
    }
  }

  lemma InjectiveStep(t: MetricType, s: seq<Label>, u: MetricType, r: seq<Label>)
    requires DashFreeLabels(s) && DashFreeLabels(r) && s != [] && r != []
    requires Signature(t, s) == Signature(u, r)
    ensures Signature(t, s[..|s| - 1]) == Signature(u, r[..|r| - 1]) && s[|s| - 1] == r[|r| - 1]
  {
    var x, y := s[|s| - 1], r[|r| - 1];
    var a, b := Signature(t, s[..|s| - 1]), Signature(u, r[..|r| - 1]);
    SignatureSnoc(t, s);
    SignatureSnoc(u, r);
    LastDash(a + "-" + x.name, x.value, b + "-" + y.name, y.value);
    LastDash(a, x.name, b, y.name);
  }

  /** For labels with distinct names: equal signatures, equal type and equal
      label set, whatever order the labels came in. */
  lemma SignatureIdentifies(t: MetricType, l: seq<Label>, u: MetricType, m: seq<Label>)
    requires DashFreeLabels(l) && DashFreeLabels(m) && DistinctNames(l) && DistinctNames(m)
    ensures Signature(t, SortByName(l)) == Signature(u, SortByName(m)) <==> t == u && multiset(l) == multiset(m)
    ensures multiset(l) == multiset(m) <==> SortByName(l) == SortByName(m)
  {
    SortIsSort(l);
    SortIsSort(m);
    Members(SortByName(l), l);
    Members(SortByName(m), m);
    SignatureIsInjective(t, SortByName(l), u, SortByName(m));
    SortsDecide(l, m);
  }

  lemma SortsDecide(l: seq<Label>, m: seq<Label>)
    requires NamesDetermine(l) || DistinctNames(l)
    ensures multiset(l) == multiset(m) <==> SortByName(l) == SortByName(m)
  {
    SortIsSort(l);
    SortIsSort(m);
    if multiset(l) == multiset(m) {
      Members(SortByName(l), l);
      SortsAgree(SortByName(l), SortByName(m));
    }
  }

  /** Strictly ordered, dash-free names and values written in the alphabet `abc`. */
  ghost predicate Over(s: seq<Label>, abc: set<char>) {
    && (forall i :: 0 <= i < |s| ==> DashFree(s[i].name) && forall c :: c in s[i].value ==> c in abc)
    && (forall i, j :: 0 <= i < j < |s| ==> Less(s[i].name, s[j].name))
  }

  ghost predicate Identifies(abc: set<char>) {
    forall t, s, u, r :: Over(s, abc) && Over(r, abc) && Signature(t, s) == Signature(u, r) ==> t == u && s == r
  }

  /** Values with dashes break this: as soon as values may contain a dash and
      one further character, two different label sets share a signature. */
  lemma SignatureNeedsDashFree(abc: set<char>, c: char)
    requires c in abc && c != '-'
    ensures Identifies(abc) <==> '-' !in abc
  {
    if '-' in abc {
      var s, r := CollideOver(abc, c);
      assert Signature(Int64, s) == Signature(Int64, r);
    } else {
      forall t, s, u, r | Over(s, abc) && Over(r, abc) && Signature(t, s) == Signature(u, r)
        ensures t == u && s == r
      {
        SignatureIsInjective(t, s, u, r);
      }
    }
  }

  lemma CollideOver(abc: set<char>, c: char) returns (s: seq<Label>, r: seq<Label>)
    requires c in abc && c != '-' && '-' in abc
    ensures Over(s, abc) && Over(r, abc) && s != r && Body(s) == Body(r)
  {
    var n, m := [c], [c, c];
    var x, y, z := Label(n, n + "-" + m + "-" + n), Label(n, n), Label(m, n);
    Prefixed(c);
    Chars(abc, c);
    Absorbs([], n, n, m, n);
    s, r := [] + [x], [] + [y, z];
  }

  lemma Chars(abc: set<char>, c: char)
    requires c in abc && '-' in abc
    ensures forall x :: x in [c] + "-" + [c, c] + "-" + [c] ==> x in abc
  {
    assert [c] + "-" + [c, c] + "-" + [c] == [c, '-', c, c, '-', c];
  }

  lemma Prefixed(c: char)
    ensures Less([c], [c, c]) && DashFree([c]) == (c != '-') && DashFree([c, c]) == (c != '-')
  {
    assert [c, c][1..] == [c] && [c][1..] == [];
  }

  /** A value with dashes in it reads as the labels it looks like. */
  lemma Absorbs(front: seq<Label>, n: string, v: string, m: string, w: string)
    ensures Body(front + [Label(n, v + "-" + m + "-" + w)]) == Body(front + [Label(n, v), Label(m, w)])
  {
    var x, y, z := Label(n, v + "-" + m + "-" + w), Label(n, v), Label(m, w);
    BodyOf(front, x);
    BodyOf(front, y);
    BodyOf(front + [y], z);
    assert front + [y] + [z] == front + [y, z];
    Regroup(Body(front) + "-" + n + "-", v, m, w);
  }

  lemma BodyOf(front: seq<Label>, x: Label)
    ensures Body(front + [x]) == Body(front) + "-" + x.name + "-" + x.value
  {
    assert (front + [x])[..|front|] == front;
  }

  function Merged(): seq<Label> {
    [Label("__name__", "x"), Label("a", "1-b-2")]
  }

  function Split(): seq<Label> {
    [Label("__name__", "x"), Label("a", "1"), Label("b", "2")]
  }

  /** The collision on two label sets as an exporter may meet them. */
  lemma DashesCollide(t: MetricType)
    ensures DistinctNames(Merged()) && DistinctNames(Split()) && multiset(Merged()) != multiset(Split())
    ensures SortByName(Merged()) == Merged() && SortByName(Split()) == Split()
    ensures Signature(t, Merged()) == Signature(t, Split())
  {
    if multiset(Merged()) == multiset(Split()) {
      SameLength(Merged(), Split());
    }
    PairIsSorted();
    SameBody();
  }

  lemma PairIsSorted()
    ensures DistinctNames(Merged()) && SortByName(Merged()) == Merged()
    ensures DistinctNames(Split()) && SortByName(Split()) == Split()
  {
    Ascends();
    StaysSorted(Merged());
    StaysSorted(Split());
  }

  lemma SameBody()
    ensures Body(Merged()) == Body(Split())
  {
    var front := [Label("__name__", "x")];
    Absorbs(front, "a", "1", "b", "2");
    assert front + [Label("a", "1"), Label("b", "2")] == Split();
    assert "1" + "-" + "b" + "-" + "2" == "1-b-2";
    assert front + [Label("a", "1-b-2")] == Merged();
  }

  lemma Ascends()
    ensures Less("__name__", "a") && Less("a", "b") && Less("__name__", "b")
  {
  }

  lemma StaysSorted(s: seq<Label>)
    requires forall i, j :: 0 <= i < j < |s| ==> Less(s[i].name, s[j].name)
    ensures DistinctNames(s) && SortByName(s) == s
  {
    forall i, j | 0 <= i < j < |s|
      ensures NameUpTo(s[i], s[j]) && s[i].name != s[j].name
    {
      Trichotomy(s[i].name, s[j].name);
    }
    SortIsSort(s);
    SortsAgree(s, SortByName(s));
  }

  /** The text of a signature, for each type. */
  lemma SignatureText()
    ensures var s := [Label("a", "1")];
            && Signature(Int64, s) == "INT64-a-1" && Signature(MonotonicInt64, s) == "MONOTONIC_INT64-a-1"
            && Signature(Double, s) == "DOUBLE-a-1" && Signature(MonotonicDouble, s) == "MONOTONIC_DOUBLE-a-1"
            && Signature(Histogram, s) == "HISTOGRAM-a-1" && Signature(Summary, s) == "SUMMARY-a-1"
            && Signature(InvalidType, s) == "INVALID_TYPE-a-1"
  {
    BodyOf([], Label("a", "1"));
    assert [] + [Label("a", "1")] == [Label("a", "1")];
    assert "" + "-" + "a" + "-" + "1" == "-a-1";
  }
}
