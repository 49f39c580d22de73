/** Loading one section of the configuration: keys of the form type[/name] are
    normalized, each is loaded, and the results are collected under their names,
    in whatever order the Go map of keys is walked. */
module ConfigLoading {
  import opened Options
  import opened Seqs

  // ------------------------------------------------------- DecodeTypeAndName

  function TrimLeft(space: char -> bool, s: string): string {
    if s != [] && space(s[0]) then TrimLeft(space, s[1..]) else s
  }

  function TrimRight(space: char -> bool, s: string): string {
    if s != [] && space(s[|s| - 1]) then TrimRight(space, s[..|s| - 1]) else s
  }

  function Trim(space: char -> bool, s: string): string {
    TrimRight(space, TrimLeft(space, s))
  }

  /** Position of the first slash, or the length. */
  function Slash(s: string): (i: nat)
    ensures i <= |s| && (i < |s| ==> s[i] == '/') && '/' !in s[..i]
  {
    if s == [] || s[0] == '/' then 0 else 1 + Slash(s[1..])
  }

  datatype Decoded = BadKey | Decoded(ty: string, fullName: string)

  function DecodeTypeAndName(space: char -> bool, key: string): Decoded {
    var i := Slash(key);
    var ty := Trim(space, key[..i]);
    if ty == "" then BadKey
    else if i == |key| then Decoded(ty, ty)
    else
      var name := Trim(space, key[i + 1..]);
      if name == "" then BadKey else Decoded(ty, ty + "/" + name)
  }

  /** No space at either end. */
  predicate Tight(space: char -> bool, s: string) {
    s != [] ==> !space(s[0]) && !space(s[|s| - 1])
  }

  lemma {:induction false} TrimLeftFacts(space: char -> bool, s: string)
    ensures var r := TrimLeft(space, s);
            (r != [] ==> !space(r[0])) && (forall c :: c in r ==> c in s)
            && (r != s ==> s != [] && space(s[0]))
  {
    if s != [] && space(s[0]) {
      TrimLeftFacts(space, s[1..]);
    }
  }

  lemma {:induction false} TrimRightFacts(space: char -> bool, s: string)
    ensures var r := TrimRight(space, s);
            r <= s && (r != [] ==> !space(r[|r| - 1])) && (r != s ==> s != [] && space(s[|s| - 1]))
  {
    if s != [] && space(s[|s| - 1]) {
      TrimRightFacts(space, s[..|s| - 1]);
    }
  }

  /** Trimming leaves no space at the ends, adds nothing, and leaves exactly the
      tight strings alone. */
  lemma TrimFacts(space: char -> bool, s: string)
    ensures Tight(space, Trim(space, s))
    ensures forall c :: c in Trim(space, s) ==> c in s
    ensures Trim(space, s) == s <==> Tight(space, s)
  {
    TrimLeftFacts(space, s);
    TrimRightFacts(space, TrimLeft(space, s));
    var l, r := TrimLeft(space, s), Trim(space, s);
    assert r != [] ==> r[0] == l[0];
  }

  lemma {:induction false} SlashAt(ty: string, name: string)
    requires '/' !in ty
    ensures Slash(ty) == |ty|
    ensures Slash(ty + "/" + name) == |ty|
  {
    var s := ty + "/" + name;
    if ty == [] {
      assert s[0] == '/';
    } else {
      SlashAt(ty[1..], name);
      assert s[0] == ty[0] && s[1..] == ty[1..] + "/" + name;
    }
  }

  /** What a key decodes to is in normal form: decoding the full name gives the
      same type and full name again. */
  lemma DecodeNormalizes(space: char -> bool, key: string)
    requires !space('/')
    ensures var d := DecodeTypeAndName(space, key);
            d.Decoded? ==> d.ty != "" && '/' !in d.ty && DecodeTypeAndName(space, d.fullName) == d
  {
    var d := DecodeTypeAndName(space, key);
    if d.Decoded? {
      var i := Slash(key);
      TrimFacts(space, key[..i]);
      TrimFacts(space, d.ty);
      SlashAt(d.ty, "");
      if i == |key| {
        assert d.ty[..|d.ty|] == d.ty;
      } else {
        var name := Trim(space, key[i + 1..]);
        TrimFacts(space, key[i + 1..]);
        TrimFacts(space, name);
        SlashAt(d.ty, name);
        assert d.fullName[..|d.ty|] == d.ty && d.fullName[|d.ty| + 1..] == name;
      }
    }
  }

  /** Nothing but space. */
  predicate Blank(space: char -> bool, s: string) {
    forall i :: 0 <= i < |s| ==> space(s[i])
  }

  lemma {:induction false} TrimLeftPadded(space: char -> bool, a: string, s: string)
    requires Blank(space, a) && (s != [] ==> !space(s[0]))
    ensures TrimLeft(space, a + s) == s
  {
    if a == [] {
      assert a + s == s;
    } else {
      assert (a + s)[0] == a[0] && (a + s)[1..] == a[1..] + s;
      TrimLeftPadded(space, a[1..], s);
    }
  }

  lemma {:induction false} TrimRightPadded(space: char -> bool, s: string, b: string)
    requires Blank(space, b) && (s != [] ==> !space(s[|s| - 1]))
    ensures TrimRight(space, s + b) == s
    decreases |b|
  {
    if b == [] {
      assert s + b == s;
    } else {
      var n := |b| - 1;
      assert (s + b)[|s + b| - 1] == b[n] && (s + b)[..|s + b| - 1] == s + b[..n];
      TrimRightPadded(space, s, b[..n]);
    }
  }

  /** Trimming takes away exactly the space around a string. */
  lemma TrimPadded(space: char -> bool, a: string, s: string, b: string)
    requires Blank(space, a) && Blank(space, b) && Tight(space, s)
    ensures Trim(space, a + s + b) == s
  {
    if s == [] {
      assert a + s + b == (a + b) + [];
      TrimLeftPadded(space, a + b, []);
    } else {
      assert a + s + b == a + (s + b) && (s + b)[0] == s[0];
      TrimLeftPadded(space, a, s + b);
      TrimRightPadded(space, s, b);
    }
  }

  lemma {:induction false} TrimLeftOfBlank(space: char -> bool, s: string)
    ensures TrimLeft(space, s) == "" <==> Blank(space, s)
  {
    if s != [] && space(s[0]) {
      TrimLeftOfBlank(space, s[1..]);
      assert forall i :: 0 < i < |s| ==> s[i] == s[1..][i - 1];
    }
  }

  lemma BlankTrims(space: char -> bool, s: string)
    ensures Trim(space, s) == "" <==> Blank(space, s)
  {
    var l := TrimLeft(space, s);
    TrimLeftOfBlank(space, s);
    TrimLeftFacts(space, s);
    KeepsFirst(space, l);
  }

  lemma {:induction false} KeepsFirst(space: char -> bool, l: string)
    requires l != [] ==> !space(l[0])
    ensures l != [] ==> TrimRight(space, l) != []
    decreases |l|
  {
    if l != [] && space(l[|l| - 1]) {
      KeepsFirst(space, l[..|l| - 1]);
    }
  }

  /** A type, with any space around it. */
  lemma DecodesType(space: char -> bool, a: string, ty: string, b: string)
    requires Blank(space, a) && Blank(space, b) && Tight(space, ty) && ty != "" && '/' !in a + ty + b
    ensures DecodeTypeAndName(space, a + ty + b) == Decoded(ty, ty)
  {
    SlashAt(a + ty + b, "");
    TrimPadded(space, a, ty, b);
    assert (a + ty + b)[..|a + ty + b|] == a + ty + b;
  }

  /** A type and a name, with any space around both. */
  lemma DecodesTypeAndName(space: char -> bool, a: string, ty: string, b: string, c: string, name: string, d: string)
    requires Blank(space, a) && Blank(space, b) && Blank(space, c) && Blank(space, d)
    requires Tight(space, ty) && ty != "" && '/' !in a + ty + b && Tight(space, name) && name != ""
    ensures DecodeTypeAndName(space, (a + ty + b) + "/" + (c + name + d)) == Decoded(ty, ty + "/" + name)
  {
    var left, right := a + ty + b, c + name + d;
    var key := left + "/" + right;
    SlashAt(left, right);
    TrimPadded(space, a, ty, b);
    TrimPadded(space, c, name, d);
    assert key[..|left|] == left && key[|left| + 1..] == right;
  }

  /** A key is bad exactly when its type, or a name that is asked for by a slash,
      is blank. */
  lemma BadKeyIff(space: char -> bool, key: string)
    ensures DecodeTypeAndName(space, key).BadKey? <==>
            Blank(space, key[..Slash(key)]) || (Slash(key) < |key| && Blank(space, key[Slash(key) + 1..]))
  {
    var i := Slash(key);
    var ty := Trim(space, key[..i]);
    assert ty == "" <==> Blank(space, key[..i]) by {
      BlankTrims(space, key[..i]);
    }
    if i < |key| {
      var name := Trim(space, key[i + 1..]);
      assert name == "" <==> Blank(space, key[i + 1..]) by {
        BlankTrims(space, key[i + 1..]);
      }
      assert DecodeTypeAndName(space, key).BadKey? <==> ty == "" || name == "";
    }
  }

  // ------------------------------------------------------------ load*Section

  datatype Error = InvalidKey | UnknownType | BadSubConfig | UnmarshalError | DuplicateName

  datatype Component = Component(name: string, settings: int)

  datatype Result<+T> = Ok(value: T) | Err(error: Error)

  /** What a section is loaded with: the space table, the factories' types, which
      keys have a map as sub-configuration, how each key's sub-configuration is
      unmarshalled into the default (a deterministic function), and whether the
      result is stored under the name the configuration has afterwards, as
      receivers are, or under the full name. */
  datatype Section = Section(
    space: char -> bool,
    types: set<string>,
    isMap: string -> bool,
    unmarshal: (string, Component) -> Option<Component>,
    byConfigName: bool)

  datatype Named = Named(name: string, component: Component)

  /** What one key loads to, before the check for duplicates. */
  function LoadOne(sec: Section, key: string): Result<Named> {
    var d := DecodeTypeAndName(sec.space, key);
    if d.BadKey? then Err(InvalidKey)
    else if d.ty !in sec.types then Err(UnknownType)
    else if !sec.isMap(key) then Err(BadSubConfig)
    else
      var c := sec.unmarshal(key, Component(d.fullName, 0));
      if c.None? then Err(UnmarshalError)
      else Ok(Named(if sec.byConfigName then c.value.name else d.fullName, c.value))
  }

  /** What a key with a type and a name loads to: the first of a wrong type, a
      sub-configuration that is no map and one that cannot be unmarshalled into
      the default named after the key is its error; otherwise the component is
      stored under the key's full name, or under the name it says it has. */
  lemma LoadsComponent(sec: Section, ty: string, name: string)
    requires Tight(sec.space, ty) && ty != "" && '/' !in ty && Tight(sec.space, name) && name != ""
    ensures var key := ty + "/" + name;
            var c := sec.unmarshal(key, Component(key, 0));
            && (LoadOne(sec, key) == Err(UnknownType) <==> ty !in sec.types)
            && (LoadOne(sec, key) == Err(BadSubConfig) <==> ty in sec.types && !sec.isMap(key))
            && (LoadOne(sec, key) == Err(UnmarshalError) <==> ty in sec.types && sec.isMap(key) && c.None?)
            && (LoadOne(sec, key).Ok? <==> ty in sec.types && sec.isMap(key) && c.Some?)
            && (LoadOne(sec, key).Ok? ==>
                  && LoadOne(sec, key).value.component == c.value
                  && LoadOne(sec, key).value.name == if sec.byConfigName then c.value.name else key)
  {
    assert "" + ty + "" == ty && "" + name + "" == name;
    DecodesTypeAndName(sec.space, "", ty, "", "", name, "");
  }

  /** And one with a type only. */
  lemma LoadsDefault(sec: Section, ty: string)
    requires Tight(sec.space, ty) && ty != "" && '/' !in ty
    ensures var c := sec.unmarshal(ty, Component(ty, 0));
            && (LoadOne(sec, ty).Ok? <==> ty in sec.types && sec.isMap(ty) && c.Some?)
            && (LoadOne(sec, ty).Ok? ==>
                  LoadOne(sec, ty).value == Named(if sec.byConfigName then c.value.name else ty, c.value))
  {
    assert "" + ty + "" == ty;
    DecodesType(sec.space, "", ty, "");
  }

  lemma InvalidKeyIff(sec: Section, key: string)
    ensures LoadOne(sec, key) == Err(InvalidKey) <==>
            Blank(sec.space, key[..Slash(key)]) || (Slash(key) < |key| && Blank(sec.space, key[Slash(key) + 1..]))
  {
    BadKeyIff(sec.space, key);
  }

  function Collect(load: string -> Result<Named>, order: seq<string>): Result<map<string, Component>> {
    if order == [] then Ok(map[])
    else
      var m := Collect(load, order[..|order| - 1]);
      var x := load(order[|order| - 1]);
      if m.Err? then m
      else if x.Err? then Err(x.error)
      else if x.value.name in m.value then Err(DuplicateName)
      else Ok(m.value[x.value.name := x.value.component])
  }

  function LoadAll(sec: Section, order: seq<string>): Result<map<string, Component>> {
    Collect(k => LoadOne(sec, k), order)
  }

  /** loadExtensions, loadReceivers, loadExporters, loadProcessors: the first
      failing key ends the walk. */
  method Load(sec: Section, order: seq<string>) returns (r: Result<map<string, Component>>)
    ensures r == LoadAll(sec, order)
  {
    var loaded: map<string, Component> := map[];
    for i := 0 to |order|
      invariant LoadAll(sec, order[..i]) == Ok(loaded)
    {
      var key := order[i];
      assert order[..i + 1][..i] == order[..i];
      var d := DecodeTypeAndName(sec.space, key);
      if d.BadKey? {
        ErrorStays(sec, order, i + 1);
        return Err(InvalidKey);
      }
      if d.ty !in sec.types {
        ErrorStays(sec, order, i + 1);
        return Err(UnknownType);
      }
      if !sec.isMap(key) {
        ErrorStays(sec, order, i + 1);
        return Err(BadSubConfig);
      }
      var c := sec.unmarshal(key, Component(d.fullName, 0));
      if c.None? {
        ErrorStays(sec, order, i + 1);
        return Err(UnmarshalError);
      }
      var name := if sec.byConfigName then c.value.name else d.fullName;
      if name in loaded {
        ErrorStays(sec, order, i + 1);
        return Err(DuplicateName);
      }
      loaded := loaded[name := c.value];
    }
    assert order[..|order|] == order;
    r := Ok(loaded);
  }

  lemma ErrorStays(sec: Section, order: seq<string>, i: nat)
    requires i <= |order|
    ensures LoadAll(sec, order[..i]).Err? ==> LoadAll(sec, order) == LoadAll(sec, order[..i])
  {
    CollectStops(k => LoadOne(sec, k), order, i);
  }

  lemma {:induction false} CollectStops(load: string -> Result<Named>, order: seq<string>, i: nat)
    requires i <= |order|
    ensures Collect(load, order[..i]).Err? ==> Collect(load, order) == Collect(load, order[..i])
    decreases |order|
  {
    if i == |order| {
      assert order[..i] == order;
    } else {
      CollectStops(load, order[..|order| - 1], i);
      assert order[..|order| - 1][..i] == order[..i];
    }
  }

  /** Every key loads by itself and no two load to the same name. */
  ghost predicate Loadable(load: string -> Result<Named>, keys: set<string>) {
    && (forall k :: k in keys ==> load(k).Ok?)
    && (forall k, j :: k in keys && j in keys && k != j && load(k).Ok? && load(j).Ok? ==> load(k).value.name != load(j).value.name)
  }

  /** The map holds exactly what the keys load to. */
  ghost predicate Holds(load: string -> Result<Named>, keys: set<string>, m: map<string, Component>) {
    && (forall k :: k in keys && load(k).Ok? ==> load(k).value.name in m && m[load(k).value.name] == load(k).value.component)
    && (forall n :: n in m ==> exists k :: k in keys && load(k).Ok? && load(k).value.name == n)
  }

  lemma {:induction false} CollectsIffLoadable(load: string -> Result<Named>, order: seq<string>, keys: set<string>)
    requires Walk(order, keys)
    ensures Collect(load, order).Ok? <==> Loadable(load, keys)
    ensures Collect(load, order).Ok? ==> Holds(load, keys, Collect(load, order).value)
    decreases |order|
  {
    if order == [] {
      assert keys == {} by {
        assert forall k :: k in keys ==> k in order;
      }
    } else {
      var n := |order| - 1;
      WalkInit(order, keys);
      CollectsIffLoadable(load, order[..n], keys - {order[n]});
      CollectStep(load, order, keys);
    }
  }

  lemma CollectStep(load: string -> Result<Named>, order: seq<string>, keys: set<string>)
    requires order != [] && order[|order| - 1] in keys
    requires var m, rest := Collect(load, order[..|order| - 1]), keys - {order[|order| - 1]};
             (m.Ok? <==> Loadable(load, rest)) && (m.Ok? ==> Holds(load, rest, m.value))
    ensures Collect(load, order).Ok? <==> Loadable(load, keys)
    ensures Collect(load, order).Ok? ==> Holds(load, keys, Collect(load, order).value)
  {
    var last := order[|order| - 1];
    var rest, m, x := keys - {last}, Collect(load, order[..|order| - 1]), load(last);
    if Loadable(load, keys) {
      LoadableRest(load, keys, last);
    }
    if m.Ok? && x.Ok? {
      if x.value.name in m.value {
        var k :| k in rest && load(k).Ok? && load(k).value.name == x.value.name;
        assert !Loadable(load, keys);
      } else {
        OneMoreLoads(load, rest, last, m.value);
        assert rest + {last} == keys;
      }
    }
  }

  lemma LoadableRest(load: string -> Result<Named>, keys: set<string>, last: string)
    requires last in keys && Loadable(load, keys)
    ensures Loadable(load, keys - {last}) && load(last).Ok?
  {
  }

  lemma OneMoreLoads(load: string -> Result<Named>, rest: set<string>, last: string, m: map<string, Component>)
    requires Loadable(load, rest) && Holds(load, rest, m)
    requires load(last).Ok? && load(last).value.name !in m
    ensures Loadable(load, rest + {last})
    ensures Holds(load, rest + {last}, m[load(last).value.name := load(last).value.component])
  {
    var m' := m[load(last).value.name := load(last).value.component];
    forall n | n in m'
      ensures exists k :: k in rest + {last} && load(k).Ok? && load(k).value.name == n
    {
      if n in m {
        var k :| k in rest && load(k).Ok? && load(k).value.name == n;
        assert k in rest + {last};
      } else {
        assert last in rest + {last};
      }
    }
  }

  /** Loading does not depend on the order of the walk: it succeeds for one order
      exactly when it succeeds for every other, with the same result, and that is
      exactly when every key loads by itself and no two keys get the same name. */
  lemma LoadIsOrderIndependent(sec: Section, keys: set<string>, order: seq<string>, other: seq<string>)
    requires Walk(order, keys) && Walk(other, keys)
    ensures LoadAll(sec, order).Ok? <==> Loadable(k => LoadOne(sec, k), keys)
    ensures LoadAll(sec, order).Ok? <==> LoadAll(sec, other).Ok?
    ensures LoadAll(sec, order).Ok? ==> LoadAll(sec, order) == LoadAll(sec, other)
  {
    CollectIsOrderIndependent(k => LoadOne(sec, k), keys, order, other);
  }

  lemma CollectIsOrderIndependent(load: string -> Result<Named>, keys: set<string>, order: seq<string>, other: seq<string>)
    requires Walk(order, keys) && Walk(other, keys)
    ensures Collect(load, order).Ok? <==> Loadable(load, keys)
    ensures Collect(load, order).Ok? <==> Collect(load, other).Ok?
    ensures Collect(load, order).Ok? ==> Collect(load, order) == Collect(load, other)
  {
    CollectsIffLoadable(load, order, keys);
    CollectsIffLoadable(load, other, keys);
    if Collect(load, order).Ok? {
      SameMap(load, keys, Collect(load, order).value, Collect(load, other).value);
    }
  }

  lemma SameMap(load: string -> Result<Named>, keys: set<string>, m: map<string, Component>, n: map<string, Component>)
    requires Holds(load, keys, m) && Holds(load, keys, n)
    ensures m == n
  {
  }

  /** Which error is reported does depend on the order: it is that of the first
      key that fails, by itself or because an earlier key has its name. */
  lemma FirstErrorIsReported(load: string -> Result<Named>, order: seq<string>, i: nat)
    requires i < |order| && Collect(load, order[..i]).Ok? && Collect(load, order[..i + 1]).Err?
    ensures var x := load(order[i]);
            if x.Err? then Collect(load, order) == Err(x.error)
            else Collect(load, order) == Err(DuplicateName) && NamedBefore(load, order, i, x.value.name)
  {
    assert order[..i + 1][..i] == order[..i];
    CollectStops(load, order, i + 1);
    if load(order[i]).Ok? {
      CameFrom(load, order, i, load(order[i]).value.name);
    }
  }

  /** One of the first `i` keys loads to the name. */
  ghost predicate NamedBefore(load: string -> Result<Named>, order: seq<string>, i: nat, name: string)
    requires i <= |order|
  {
    exists j :: 0 <= j < i && load(order[j]).Ok? && load(order[j]).value.name == name
  }

  lemma {:induction false} CameFrom(load: string -> Result<Named>, order: seq<string>, i: nat, name: string)
    requires i <= |order| && Collect(load, order[..i]).Ok? && name in Collect(load, order[..i]).value
    ensures NamedBefore(load, order, i, name)
    decreases i
  {
    if i > 0 {
      assert order[..i][..i - 1] == order[..i - 1];
      if load(order[i - 1]).value.name != name {
        CameFrom(load, order, i - 1, name);
      }
    }
  }

  /** Every failing load has such a key. */
  lemma {:induction false} SomeKeyFails(load: string -> Result<Named>, order: seq<string>) returns (i: nat)
    requires Collect(load, order).Err?
    ensures i < |order| && Collect(load, order[..i]).Ok? && Collect(load, order[..i + 1]).Err?
    decreases |order|
  {
    i := |order| - 1;
    var init := order[..i];
    assert order[..i + 1] == order;
    if Collect(load, init).Err? {
      i := SomeKeyFails(load, init);
      assert init[..i] == order[..i] && init[..i + 1] == order[..i + 1];
    }
  }
}
