/** createLabelSet: point labels overlaid with reserved extras, names sanitized,
    handed out in whatever order the Go map is walked. */
module LabelSets {
  import Strings
  import opened Seqs
  import opened PromLabels

  // --------------------------------------------------------------- sanitizing

  /** The letter and digit tables of the unicode package. */
  datatype Unicode = Unicode(isLetter: char -> bool, isDigit: char -> bool)

  predicate AsciiDigit(c: char) {
    '0' <= c <= '9'
  }

  /** What the tables say of the ASCII characters that matter here. */
  ghost predicate Sane(u: Unicode) {
    && u.isLetter('k') && u.isLetter('e') && u.isLetter('y')
    && (forall c :: AsciiDigit(c) ==> u.isDigit(c))
    && (forall c | c in "-_" :: !u.isLetter(c) && !u.isDigit(c))
  }

  function SanitizeRune(u: Unicode, c: char): char {
    if u.isLetter(c) || u.isDigit(c) then c else '_'
  }

  /** The first byte decides about a prefix; a byte of a longer encoding is no
      digit, so only ASCII digits count there. */
  function Sanitize(u: Unicode, s: string): (r: string)
    ensures |r| >= |s|
  {
    if |s| == 0 then s
    else
      var m := seq(|s|, i requires 0 <= i < |s| => SanitizeRune(u, s[i]));
      var d := if AsciiDigit(m[0]) then "key_" + m else m;
      if d[0] == '_' then "key" + d else d
  }

  ghost predicate CleanName(u: Unicode, s: string) {
    && (forall i :: 0 <= i < |s| ==> u.isLetter(s[i]) || u.isDigit(s[i]) || s[i] == '_')
    && (s != [] ==> !AsciiDigit(s[0]) && s[0] != '_')
  }

  /** Sanitizing yields a clean name, and leaves exactly the clean names alone. */
  lemma SanitizeCleans(u: Unicode, s: string)
    requires Sane(u)
    ensures CleanName(u, Sanitize(u, s)) && DashFree(Sanitize(u, s))
    ensures Sanitize(u, s) == s <==> CleanName(u, s)
    ensures Sanitize(u, Sanitize(u, s)) == Sanitize(u, s)
  {
    CleanOutput(u, s);
    if CleanName(u, s) {
      CleanIsFixed(u, s);
    }
    CleanIsFixed(u, Sanitize(u, s));
  }

  lemma CleanOutput(u: Unicode, s: string)
    requires Sane(u)
    ensures CleanName(u, Sanitize(u, s)) && DashFree(Sanitize(u, s))
  {
    if s != [] {
      var m := seq(|s|, i requires 0 <= i < |s| => SanitizeRune(u, s[i]));
      assert forall i :: 0 <= i < |m| ==> u.isLetter(m[i]) || u.isDigit(m[i]) || m[i] == '_';
      assert '_' in "-_" && '-' in "-_";
      var r := Sanitize(u, s);
      var k := |r| - |m|;
      assert r[k..] == m && (r[..k] == "" || r[..k] == "key" || r[..k] == "key_");
      forall i | 0 <= i < |r|
        ensures u.isLetter(r[i]) || u.isDigit(r[i]) || r[i] == '_'
      {
        assert r[i] == if i < k then r[..k][i] else m[i - k];
      }
    }
  }

  lemma CleanIsFixed(u: Unicode, s: string)
    requires Sane(u) && CleanName(u, s)
    ensures Sanitize(u, s) == s
  {
    if s != [] {
      assert seq(|s|, i requires 0 <= i < |s| => SanitizeRune(u, s[i])) == s;
    }
  }

  /** Each character is kept or becomes an underscore, in place, and in front
      comes "key_" before a digit, "key" before an underscore, and else nothing. */
  lemma SanitizeAt(u: Unicode, s: string, i: nat)
    requires Sane(u) && i < |s|
    ensures var r := Sanitize(u, s);
            var n := |r| - |s|;
            && r[n + i] == (if u.isLetter(s[i]) || u.isDigit(s[i]) then s[i] else '_')
            && r[..n] == (if AsciiDigit(s[0]) then "key_" else if u.isLetter(s[0]) || u.isDigit(s[0]) then "" else "key")
  {
    var m := seq(|s|, j requires 0 <= j < |s| => SanitizeRune(u, s[j]));
    assert '_' in "-_" && m[0] == SanitizeRune(u, s[0]);
    assert ("key_" + m)[..4] == "key_" && ("key" + m)[..3] == "key" && m[..0] == "";
  }

  // ------------------------------------------------------- last writer wins

  datatype Pair = Pair(key: string, value: string)

  /** Reserved names of the form `__x__` are kept as they are. */
  predicate Reserved(s: string) {
    |s| > 4 && s[..2] == "__" && s[|s| - 2..] == "__"
  }

  /** Reserved are the names with something between two pairs of underscores. */
  lemma ReservedIff(s: string)
    ensures Reserved(s) <==> exists x: string :: x != "" && s == "__" + x + "__"
  {
    if Reserved(s) {
      var x := s[2..|s| - 2];
      assert s == s[..2] + x + s[|s| - 2..];
    }
    if x: string :| x != "" && s == "__" + x + "__" {
      assert s[..2] == "__" && s[|s| - 2..] == "__";
    }
  }

  /** Which extra names are kept as they are. */
  lemma ReservedNamesAreKept(u: Unicode, s: string)
    ensures NameFor(u, "__" + s + "__", true) == if s == "" then Sanitize(u, "____") else "__" + s + "__"
    ensures (forall x: string :: x != "" ==> s != "__" + x + "__") ==> NameFor(u, s, true) == Sanitize(u, s)
    ensures NameFor(u, s, false) == Sanitize(u, s)
  {
    ReservedIff(s);
    ReservedIff("__" + s + "__");
    assert "__" + "" + "__" == "____";
  }

  function NameFor(u: Unicode, key: string, extra: bool): string {
    if extra && Reserved(key) then key else Sanitize(u, key)
  }

  /** The string arguments taken two by two; an unpaired one is ignored. */
  function Paired(extras: seq<string>): (r: seq<Pair>)
    ensures |r| == |extras| / 2
    ensures forall i :: 0 <= i < |r| ==> r[i] == Pair(extras[2 * i], extras[2 * i + 1])
  {
    seq(|extras| / 2, i requires 0 <= i < |extras| / 2 => Pair(extras[2 * i], extras[2 * i + 1]))
  }

  /** The map after the pairs have been written into it, one after the other. */
  function Written(u: Unicode, m: map<string, Label>, pairs: seq<Pair>, extra: bool): map<string, Label> {
    if pairs == [] then m
    else
      var x := pairs[|pairs| - 1];
      Written(u, m, pairs[..|pairs| - 1], extra)[x.key := Label(NameFor(u, x.key, extra), x.value)]
  }

  function Content(u: Unicode, labels: seq<Pair>, extras: seq<string>): map<string, Label> {
    Written(u, Written(u, map[], labels, false), Paired(extras), true)
  }

  /** Position of the last pair with key `k`, or -1. */
  function LastIndex(pairs: seq<Pair>, k: string): (r: int)
    ensures -1 <= r < |pairs|
    ensures r >= 0 ==> pairs[r].key == k
    ensures forall j :: r < j < |pairs| ==> pairs[j].key != k
  {
    if pairs == [] then -1
    else if pairs[|pairs| - 1].key == k then |pairs| - 1
    else LastIndex(pairs[..|pairs| - 1], k)
  }

  lemma {:induction false} WrittenLookup(u: Unicode, m: map<string, Label>, pairs: seq<Pair>, extra: bool, k: string)
    ensures var i := LastIndex(pairs, k);
            if i >= 0 then
              k in Written(u, m, pairs, extra) && Written(u, m, pairs, extra)[k] == Label(NameFor(u, k, extra), pairs[i].value)
            else
              (k in Written(u, m, pairs, extra) <==> k in m) && (k in m ==> Written(u, m, pairs, extra)[k] == m[k])
  {
    if pairs != [] {
      WrittenLookup(u, m, pairs[..|pairs| - 1], extra, k);
    }
  }

  /** Extras beat labels, and of each the last one with the key counts. */
  lemma LastWriterWins(u: Unicode, labels: seq<Pair>, extras: seq<string>, k: string)
    ensures var i, j, c := LastIndex(Paired(extras), k), LastIndex(labels, k), Content(u, labels, extras);
            && (k in c <==> i >= 0 || j >= 0)
            && (i >= 0 ==> c[k] == Label(NameFor(u, k, true), extras[2 * i + 1]))
            && (i < 0 <= j ==> c[k] == Label(Sanitize(u, k), labels[j].value))
  {
    WrittenLookup(u, map[], labels, false, k);
    WrittenLookup(u, Written(u, map[], labels, false), Paired(extras), true, k);
  }

  // ------------------------------------------------------ walking the Go map

  ghost predicate ListedBy(r: seq<Label>, m: map<string, Label>, order: seq<string>) {
    Walk(order, m.Keys) && |r| == |order| && forall i :: 0 <= i < |r| ==> r[i] == m[order[i]]
  }

  /** `r` holds each label of the map once, in some order. */
  ghost predicate IsListing(r: seq<Label>, m: map<string, Label>) {
    exists order :: ListedBy(r, m, order)
  }

  /** createLabelSet, for every order in which its map may be walked. */
  method CreateLabelSet(u: Unicode, labels: seq<Pair>, extras: seq<string>) returns (s: seq<Label>)
    ensures IsListing(s, Content(u, labels, extras))
  {
    var l: map<string, Label> := map[];
    for i := 0 to |labels|
      invariant l == Written(u, map[], labels[..i], false)
    {
      assert labels[..i + 1][..i] == labels[..i];
      l := l[labels[i].key := Label(Sanitize(u, labels[i].key), labels[i].value)];
    }
    assert labels[..|labels|] == labels;
    l := AddExtras(u, l, extras);
    s := WalkMap(l);
  }

  method AddExtras(u: Unicode, m: map<string, Label>, extras: seq<string>) returns (l: map<string, Label>)
    ensures l == Written(u, m, Paired(extras), true)
  {
    l := m;
    var i := 0;
    ghost var n: nat := 0;
    while i < |extras|
      invariant i == 2 * n <= |extras| && l == Written(u, m, Paired(extras)[..n], true)
    {
      if i + 1 >= |extras| {
        break;
      }
      var name := NameFor(u, extras[i], true);
      WrittenStep(u, m, extras, n);
      l := l[extras[i] := Label(name, extras[i + 1])];
      i, n := i + 2, n + 1;
    }
    assert Paired(extras)[..n] == Paired(extras);
  }

  lemma WrittenStep(u: Unicode, m: map<string, Label>, extras: seq<string>, n: nat)
    requires 2 * n + 1 < |extras|
    ensures Written(u, m, Paired(extras)[..n + 1], true)
         == Written(u, m, Paired(extras)[..n], true)[extras[2 * n] := Label(NameFor(u, extras[2 * n], true), extras[2 * n + 1])]
  {
    assert Paired(extras)[..n + 1][..n] == Paired(extras)[..n];
  }

  method WalkMap(l: map<string, Label>) returns (s: seq<Label>)
    ensures IsListing(s, l)
  {
    s := [];
    var rest := l.Keys;
    ghost var order := [];
    while rest != {}
      invariant rest <= l.Keys && Walk(order, l.Keys - rest)
      invariant |s| == |order| && forall j :: 0 <= j < |s| ==> order[j] in l && s[j] == l[order[j]]
      decreases rest
    {
      var k :| k in rest;
      s, order, rest := s + [l[k]], order + [k], rest - {k};
    }
    assert ListedBy(s, l, order);
  }

  lemma DropKey(r: seq<Label>, m: map<string, Label>, order: seq<string>, k: string)
    returns (r': seq<Label>, order': seq<string>)
    requires ListedBy(r, m, order) && k in m
    ensures ListedBy(r', m - {k}, order') && |order'| == |order| - 1
    ensures multiset(r) == multiset(r') + multiset{m[k]}
  {
    assert k in order;
    var i :| 0 <= i < |order| && order[i] == k;
    r' := TakeOut(r, i);
    order' := order[..i] + order[i + 1..];
    WalkWithout(order, m.Keys, i);
    assert (m - {k}).Keys == m.Keys - {k};
  }

  lemma {:induction false} ListingsPermute(r: seq<Label>, o: seq<string>, q: seq<Label>, p: seq<string>, m: map<string, Label>)
    requires ListedBy(r, m, o) && ListedBy(q, m, p)
    ensures multiset(r) == multiset(q)
    decreases |o|
  {
    assert p != [] ==> p[0] in o;
    if o != [] {
      assert o[0] in m.Keys;
      var r', o' := DropKey(r, m, o, o[0]);
      var q', p' := DropKey(q, m, p, o[0]);
      ListingsPermute(r', o', q', p', m - {o[0]});
    }
  }

  /** No two raw keys were sanitized to one name. */
  ghost predicate NamesApart(m: map<string, Label>) {
    forall k, j :: k in m && j in m && k != j ==> m[k].name != m[j].name
  }

  /** With names apart, the sorted label list, and with it the signature, is the
      same for every walk of the map, and its names strictly ascend. */
  lemma SortedLabelsAreCanonical(m: map<string, Label>, r: seq<Label>, q: seq<Label>)
    requires NamesApart(m) && IsListing(r, m) && IsListing(q, m)
    ensures SortByName(r) == SortByName(q) && DistinctNames(r)
    ensures forall i, j :: 0 <= i < j < |r| ==> Strings.Less(SortByName(r)[i].name, SortByName(r)[j].name)
  {
    var o :| ListedBy(r, m, o);
    var p :| ListedBy(q, m, p);
    ListingsPermute(r, o, q, p, m);
    SortsDecide(r, q);
    DistinctSortIsStrict(r);
  }

  /** Equally named labels of the map are equal. */
  ghost predicate NamesDecide(m: map<string, Label>) {
    forall k, j :: k in m && j in m && m[k].name == m[j].name ==> m[k] == m[j]
  }

  /** The stored label list is the same for every walk of the map. */
  ghost predicate WalkIndependent(m: map<string, Label>) {
    forall r, q :: IsListing(r, m) && IsListing(q, m) ==> SortByName(r) == SortByName(q)
  }

  /** What is stored depends on the walk of the Go map if and only if two raw
      keys with different values were sanitized to one name. */
  lemma WalkIndependentIff(m: map<string, Label>)
    ensures WalkIndependent(m) <==> NamesDecide(m)
  {
    if NamesDecide(m) {
      DecidedIsIndependent(m);
    } else {
      var k, j :| k in m && j in m && m[k].name == m[j].name && m[k] != m[j];
      var r, q := ClashShows(m, k, j);
    }
  }

  lemma DecidedIsIndependent(m: map<string, Label>)
    requires NamesDecide(m)
    ensures WalkIndependent(m)
  {
    forall r, q | IsListing(r, m) && IsListing(q, m)
      ensures SortByName(r) == SortByName(q)
    {
      DecidedIsOneSort(m, r, q);
    }
  }

  lemma ClashShows(m: map<string, Label>, k: string, j: string) returns (r: seq<Label>, q: seq<Label>)
    requires k in m && j in m && m[k].name == m[j].name && m[k] != m[j]
    ensures IsListing(r, m) && IsListing(q, m) && SortByName(r) != SortByName(q)
  {
    var tail := ListRest(m, k, j);
    SwapShows(m[k], m[j], tail);
    r, q := [m[k], m[j]] + tail, [m[j], m[k]] + tail;
  }

  lemma ListRest(m: map<string, Label>, k: string, j: string) returns (tail: seq<Label>)
    requires k in m && j in m && k != j
    ensures IsListing([m[k], m[j]] + tail, m) && IsListing([m[j], m[k]] + tail, m)
  {
    var rest := SomeWalk(m.Keys - {k} - {j});
    forall i | 0 <= i < |rest|
      ensures rest[i] in m
    {
      assert rest[i] in rest;
    }
    tail := seq(|rest|, i requires 0 <= i < |rest| => m[rest[i]]);
    TwoFirst(m, k, j, rest, tail);
    assert m.Keys - {k} - {j} == m.Keys - {j} - {k};
    TwoFirst(m, j, k, rest, tail);
  }

  lemma DecidedIsOneSort(m: map<string, Label>, r: seq<Label>, q: seq<Label>)
    requires NamesDecide(m) && IsListing(r, m) && IsListing(q, m)
    ensures SortByName(r) == SortByName(q)
  {
    var o :| ListedBy(r, m, o);
    var p :| ListedBy(q, m, p);
    ListingsPermute(r, o, q, p, m);
    assert NamesDetermine(r) by {
      forall a, b | 0 <= a < |r| && 0 <= b < |r| && r[a].name == r[b].name
        ensures r[a] == r[b]
      {
        assert o[a] in m && o[b] in m;
      }
    }
    SortsDecide(r, q);
  }

  lemma {:induction false} SomeWalk(keys: set<string>) returns (order: seq<string>)
    ensures Walk(order, keys)
    decreases keys
  {
    order := [];
    if keys != {} {
      var k :| k in keys;
      var init := SomeWalk(keys - {k});
      order := init + [k];
    }
  }

  lemma TwoFirst(m: map<string, Label>, k: string, j: string, rest: seq<string>, tail: seq<Label>)
    requires k in m && j in m && k != j && Walk(rest, m.Keys - {k} - {j})
    requires |tail| == |rest| && forall i :: 0 <= i < |rest| ==> rest[i] in m && tail[i] == m[rest[i]]
    ensures IsListing([m[k], m[j]] + tail, m)
  {
    var order := [k, j] + rest;
    assert forall x :: x in order <==> x == k || x == j || x in rest;
    forall a, b | 0 <= a < b < |order|
      ensures order[a] != order[b]
    {
      assert b >= 2 ==> order[b] == rest[b - 2] && order[b] in rest;
    }
    assert ListedBy([m[k], m[j]] + tail, m, order);
  }

  /** Two raw keys that clash, on a point of the metric `n`. */
  lemma KeysClash(u: Unicode, n: string)
    requires Sane(u)
    ensures var m := Content(u, [Pair("k-e", "1"), Pair("k_e", "2")], ["__name__", n]);
            && "k-e" in m && m["k-e"] == Label("k_e", "1") && "k_e" in m && m["k_e"] == Label("k_e", "2")
            && "__name__" in m && !WalkIndependent(m)
  {
    var pairs, extras := [Pair("k-e", "1"), Pair("k_e", "2")], ["__name__", n];
    var m := Content(u, pairs, extras);
    Clash(u);
    DifferentKeys();
    assert Paired(extras) == [Pair("__name__", n)];
    LastWriterWins(u, pairs, extras, "k-e");
    LastWriterWins(u, pairs, extras, "k_e");
    LastWriterWins(u, pairs, extras, "__name__");
    assert m["k-e"].value[0] != m["k_e"].value[0];
    WalkIndependentIff(m);
  }

  lemma DifferentKeys()
    ensures "k-e" != "k_e" && "k-e" != "__name__" && "k_e" != "__name__"
  {
    assert "k-e"[1] != "k_e"[1];
    assert |"__name__"| == 8;
  }

  lemma Clash(u: Unicode)
    requires Sane(u)
    ensures Sanitize(u, "k-e") == "k_e" && Sanitize(u, "k_e") == "k_e"
  {
    assert '-' in "-_" && '_' in "-_";
    assert seq(3, i requires 0 <= i < 3 => SanitizeRune(u, "k-e"[i])) == "k_e";
    assert Sanitize(u, "k-e") == "k_e";
    CleanIsFixed(u, "k_e");
  }
}
