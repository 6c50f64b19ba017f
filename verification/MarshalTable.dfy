/** Cutting the sorted signal list into marshal groups (dse/fmimcl/engine.c). */
module MarshalTable {
  import opened Wrappers
  import opened Decimal
  import opened MarshalSignals
  import opened MarshalSort

  /** `coded[i]` holds when encoder functions are installed for entry `i`; it is allocated
      for binary groups only. */
  datatype Group = Group(name: string, key: GroupKey, count: nat, offset: nat, refs: seq<nat>, coded: seq<bool>)

  function GroupName(key: GroupKey): string {
    "mg-" + (Render(key.kind) + "-" + (Render(key.dir) + "-" + Render(key.typ)))
  }

  /** The name reads "mg-", the kind, the direction and the type, as decimal numbers joined by dashes. */
  lemma {:induction false} GroupNameParts(key: GroupKey) returns (kind: string, dir: string, typ: string)
    ensures GroupName(key) == "mg-" + kind + "-" + dir + "-" + typ
    ensures '-' !in kind && '-' !in dir && '-' !in typ
    ensures Value(kind) == key.kind && Value(dir) == key.dir && Value(typ) == key.typ
  {
    kind, dir, typ := Render(key.kind), Render(key.dir), Render(key.typ);
    ValueOfRender(key.kind);
    ValueOfRender(key.dir);
    ValueOfRender(key.typ);
    assert GroupName(key) == "mg-" + kind + "-" + dir + "-" + typ;
  }

  lemma {:induction false} GroupNameInjective(a: GroupKey, b: GroupKey)
    requires GroupName(a) == GroupName(b)
    ensures a == b
  {
    assert GroupName(a)[3..] == Render(a.kind) + "-" + (Render(a.dir) + "-" + Render(a.typ));
    assert GroupName(b)[3..] == Render(b.kind) + "-" + (Render(b.dir) + "-" + Render(b.typ));
    SplitAtDash(Render(a.kind), Render(a.dir) + "-" + Render(a.typ),
                Render(b.kind), Render(b.dir) + "-" + Render(b.typ));
    SplitAtDash(Render(a.dir), Render(a.typ), Render(b.dir), Render(b.typ));
    RenderInjective(a.kind, b.kind);
    RenderInjective(a.dir, b.dir);
    RenderInjective(a.typ, b.typ);
  }

  /** `g` describes the slice of `signals` at its offset: one key, and exactly the slice's references. */
  ghost predicate Block(g: Group, signals: seq<Signal>) {
    && g.count > 0
    && g.offset + g.count <= |signals|
    && |g.refs| == g.count
    && (forall j :: g.offset <= j < g.offset + g.count ==> KeyOf(signals[j]) == g.key)
    && (forall j :: g.offset <= j < g.offset + g.count ==> g.refs[j - g.offset] == signals[j].vref)
  }

  ghost predicate HasOwnName(g: Group) {
    g.name == GroupName(g.key)
  }

  /** Every group is named after its key. */
  ghost predicate Named(groups: seq<Group>) {
    forall g :: g in groups ==> HasOwnName(g)
  }

  /** The groups tile the first `upto` signals, each starting where the previous one ends,
      and neighbours have different keys. */
  ghost predicate Tiles(groups: seq<Group>, signals: seq<Signal>, upto: nat) {
    if groups == [] then upto == 0
    else
      var last := groups[|groups| - 1];
      && Block(last, signals)
      && last.offset + last.count == upto
      && Tiles(groups[..|groups| - 1], signals, last.offset)
      && (|groups| > 1 ==> groups[|groups| - 2].key != last.key)
  }

  /** The run that the loop is collecting and has not emitted yet. */
  ghost predicate Collecting(signals: seq<Signal>, key: GroupKey, offset: nat, count: nat, refs: seq<nat>) {
    && offset + count <= |signals|
    && |refs| == count
    && (forall j :: offset <= j < offset + count ==> KeyOf(signals[j]) == key)
    && (forall j :: offset <= j < offset + count ==> refs[j - offset] == signals[j].vref)
  }

  ghost predicate AllFresh(groups: seq<Group>) {
    forall g :: g in groups ==> FreshEncoders(g)
  }

  /** `_create_mg` and its append to the group list; the reference list is emptied. The requirement on
      its length is the assertion at engine.c:70. */
  method EmitGroup(groups: seq<Group>, key: GroupKey, count: nat, offset: nat, refs: seq<nat>,
      ghost signals: seq<Signal>)
    returns (out: seq<Group>, left: seq<nat>)
    requires count == |refs|
    requires Tiles(groups, signals, offset) && Collecting(signals, key, offset, count, refs) && count > 0
    requires groups != [] ==> groups[|groups| - 1].key != key
    requires AllFresh(groups) && Named(groups)
    ensures left == []
    ensures out != [] && out[|out| - 1].key == key
    ensures Tiles(out, signals, offset + count) && AllFresh(out) && Named(out)
  {
    var coded := if key.kind == KIND_BINARY then seq(count, i => false) else [];
    var g := Group(GroupName(key), key, count, offset, refs, coded);
    out, left := groups + [g], [];
    assert Block(g, signals);
    assert out[..|groups|] == groups;
  }

  lemma {:induction false} StartRun(signals: seq<Signal>, i: nat)
    requires i < |signals|
    ensures Collecting(signals, KeyOf(signals[i]), i, 1, [signals[i].vref])
  {
  }

  lemma {:induction false} ExtendRun(signals: seq<Signal>, key: GroupKey, offset: nat, count: nat, refs: seq<nat>)
    requires Collecting(signals, key, offset, count, refs)
    requires offset + count < |signals| && KeyOf(signals[offset + count]) == key
    ensures Collecting(signals, key, offset, count + 1, refs + [signals[offset + count].vref])
  {
  }

  /** Emits a group whenever (kind, dir, type) changes, and once more at the end. */
  method GenerateMarshalTable(signals: seq<Signal>) returns (groups: seq<Group>)
    ensures Tiles(groups, signals, |signals|)
    ensures AllFresh(groups) && Named(groups)
  {
    groups := [];
    var offset, count, refs := 0, 0, [];
    var key := GroupKey(KIND_NONE, DIR_NONE, TYPE_NONE);
    for i := 0 to |signals|
      invariant offset + count == i
      invariant count == 0 ==> groups == []
      invariant Tiles(groups, signals, offset)
      invariant Collecting(signals, key, offset, count, refs)
      invariant groups != [] ==> groups[|groups| - 1].key != key
      invariant AllFresh(groups) && Named(groups)
    {
      var s := signals[i];
      if key.kind != s.kind || key.dir != s.dir || key.typ != s.typ {
        if count > 0 {
          groups, refs := EmitGroup(groups, key, count, offset, refs, signals);
        }
        StartRun(signals, i);
        offset := offset + count;
        key := KeyOf(s);
        count := 1;
        refs := refs + [s.vref];
        assert refs == [s.vref];
      } else {
        ExtendRun(signals, key, offset, count, refs);
        count := count + 1;
        refs := refs + [s.vref];
      }
    }
    if count > 0 {
      groups, refs := EmitGroup(groups, key, count, offset, refs, signals);
    }
  }

  lemma {:induction false} TilesPrefix(groups: seq<Group>, signals: seq<Signal>, upto: nat, g: nat)
    requires Tiles(groups, signals, upto) && g < |groups|
    ensures Tiles(groups[..g], signals, groups[g].offset)
    ensures Block(groups[g], signals) && groups[g].offset + groups[g].count <= upto
  {
    var n := |groups| - 1;
    if g < n {
      var init := groups[..n];
      TilesPrefix(init, signals, groups[n].offset, g);
      assert init[..g] == groups[..g] && init[g] == groups[g];
    }
  }

  /** First offset 0, each offset the previous offset plus count, counts adding up to the number
      of signals, and neighbours with different keys. */
  lemma {:induction false} TableTilesSource(groups: seq<Group>, signals: seq<Signal>, upto: nat)
    requires Tiles(groups, signals, upto)
    ensures groups == [] <==> upto == 0
    ensures groups != [] ==> groups[0].offset == 0 && upto == groups[|groups| - 1].offset + groups[|groups| - 1].count
    ensures forall g :: 0 <= g < |groups| ==> Block(groups[g], signals)
    ensures forall g :: 0 < g < |groups| ==> Adjacent(groups, g)
    ensures upto <= |signals|
  {
    if groups != [] {
      TilesPrefix(groups, signals, upto, 0);
      assert groups[..0] == [];
    }
    forall g | 0 <= g < |groups|
      ensures Block(groups[g], signals)
    {
      TilesPrefix(groups, signals, upto, g);
    }
    forall g | 0 < g < |groups|
      ensures Adjacent(groups, g)
    {
      AdjacentInTable(groups, signals, upto, g);
    }
  }

  ghost predicate Adjacent(groups: seq<Group>, g: nat)
    requires 0 < g < |groups|
  {
    && groups[g].offset == groups[g - 1].offset + groups[g - 1].count
    && groups[g].key != groups[g - 1].key
  }

  lemma {:induction false} AdjacentInTable(groups: seq<Group>, signals: seq<Signal>, upto: nat, g: nat)
    requires Tiles(groups, signals, upto) && 0 < g < |groups|
    ensures Adjacent(groups, g)
  {
    var n := |groups| - 1;
    if g < n {
      AdjacentInTable(groups[..n], signals, groups[n].offset, g);
    }
  }

  /** Every source slot belongs to exactly one entry of exactly one group. */
  lemma {:induction false} SlotHasOneEntry(groups: seq<Group>, signals: seq<Signal>, upto: nat, slot: nat)
    returns (g: nat)
    requires Tiles(groups, signals, upto) && slot < upto
    ensures g < |groups| && groups[g].offset <= slot < groups[g].offset + groups[g].count
    ensures forall h :: 0 <= h < |groups| && groups[h].offset <= slot < groups[h].offset + groups[h].count ==> h == g
  {
    var n := |groups| - 1;
    var init := groups[..n];
    assert forall h :: 0 <= h < n ==> init[h] == groups[h];
    if slot < groups[n].offset {
      g := SlotHasOneEntry(init, signals, groups[n].offset, slot);
    } else {
      g := n;
      forall h | 0 <= h < n
        ensures groups[h].offset + groups[h].count <= slot
      {
        TilesPrefix(init, signals, groups[n].offset, h);
      }
    }
  }

  lemma {:induction false} OffsetsAscend(groups: seq<Group>, signals: seq<Signal>, upto: nat, i: nat, j: nat)
    requires Tiles(groups, signals, upto) && i < j < |groups|
    ensures groups[i].offset + groups[i].count <= groups[j].offset
  {
    TilesPrefix(groups, signals, upto, j);
    TilesPrefix(groups[..j], signals, groups[j].offset, i);
  }

  /** On a sorted list every key has a single run, so no two groups share a key or a name. */
  lemma {:induction false} GroupsDistinct(groups: seq<Group>, signals: seq<Signal>, i: nat, j: nat)
    requires Sorted(signals) && Tiles(groups, signals, |signals|) && Named(groups)
    requires forall s :: s in signals ==> s.dir < DIR_SIZE
    requires i < j < |groups|
    ensures groups[i].key != groups[j].key && groups[i].name != groups[j].name
  {
    var a, b, c := groups[i], groups[i + 1], groups[j];
    SuccessorFacts(groups, signals, i, j);
    RunsDoNotReturn(a, b, c, signals);
    assert HasOwnName(a) && HasOwnName(c);
    if a.name == c.name {
      GroupNameInjective(a.key, c.key);
    }
  }

  lemma {:induction false} SuccessorFacts(groups: seq<Group>, signals: seq<Signal>, i: nat, j: nat)
    requires Tiles(groups, signals, |signals|)
    requires i < j < |groups|
    ensures Block(groups[i], signals) && Block(groups[i + 1], signals) && Block(groups[j], signals)
    ensures groups[i].offset < groups[i + 1].offset <= groups[j].offset
    ensures groups[i].key != groups[i + 1].key
  {
    TilesPrefix(groups, signals, |signals|, i);
    TilesPrefix(groups, signals, |signals|, i + 1);
    TilesPrefix(groups, signals, |signals|, j);
    AdjacentInTable(groups, signals, |signals|, i + 1);
    if i + 1 < j {
      OffsetsAscend(groups, signals, |signals|, i + 1, j);
    }
  }

  lemma {:induction false} RunsDoNotReturn(a: Group, b: Group, c: Group, signals: seq<Signal>)
    requires Sorted(signals) && Block(a, signals) && Block(b, signals) && Block(c, signals)
    requires forall s :: s in signals ==> s.dir < DIR_SIZE
    requires a.offset < b.offset <= c.offset && a.key != b.key
    ensures a.key != c.key
  {
    var x, y, z := signals[a.offset], signals[b.offset], signals[c.offset];
    assert KeyOf(x) == a.key && KeyOf(y) == b.key && KeyOf(z) == c.key;
    assert x in signals && y in signals;
    assert !Before(KeyOf(y), KeyOf(x));
    assert b.offset < c.offset ==> !Before(KeyOf(z), KeyOf(y));
    if !Before(KeyOf(x), KeyOf(y)) {
      SameRankSameKey(KeyOf(x), KeyOf(y));
    }
  }

  /** Two blocks over the same slice agree in everything but their encoders. */
  lemma {:induction false} BlockUnique(x: Group, y: Group, signals: seq<Signal>)
    requires Block(x, signals) && Block(y, signals) && x.offset == y.offset && x.count == y.count
    requires HasOwnName(x) && HasOwnName(y)
    ensures x.(coded := []) == y.(coded := [])
  {
    assert KeyOf(signals[x.offset]) == x.key && KeyOf(signals[x.offset]) == y.key;
    forall i | 0 <= i < x.count
      ensures x.refs[i] == y.refs[i]
    {
      var j := x.offset + i;
      assert x.refs[j - x.offset] == signals[j].vref && y.refs[j - x.offset] == signals[j].vref;
    }
    assert x.refs == y.refs;
  }

  lemma {:induction false} LastKey(a: seq<Group>, signals: seq<Signal>, upto: nat)
    requires Tiles(a, signals, upto) && a != []
    ensures 0 < upto <= |signals| && KeyOf(signals[upto - 1]) == a[|a| - 1].key
  {
  }

  lemma {:induction false} LastGroupUnique(a: seq<Group>, b: seq<Group>, signals: seq<Signal>, upto: nat)
    requires Tiles(a, signals, upto) && Tiles(b, signals, upto) && a != [] && Named(a) && Named(b)
    ensures b != [] && a[|a| - 1].(coded := []) == b[|b| - 1].(coded := [])
  {
    LastKey(a, signals, upto);
    assert b != [];
    LastKey(b, signals, upto);
    RunStart(a, b, signals, upto);
    RunStart(b, a, signals, upto);
    BlockUnique(a[|a| - 1], b[|b| - 1], signals);
  }

  /** The tiling contract fixes the table: two tables for one list agree in key, extent and references. */
  lemma {:induction false} TableUnique(a: seq<Group>, b: seq<Group>, signals: seq<Signal>, upto: nat)
    requires Tiles(a, signals, upto) && Tiles(b, signals, upto) && Named(a) && Named(b)
    ensures |a| == |b|
    ensures forall g :: 0 <= g < |a| ==> a[g].(coded := []) == b[g].(coded := [])
    decreases |a|
  {
    if a == [] {
      TableTilesSource(b, signals, upto);
    } else {
      LastGroupUnique(a, b, signals, upto);
      var p, q := a[..|a| - 1], b[..|b| - 1];
      TableUnique(p, q, signals, a[|a| - 1].offset);
      forall g | 0 <= g < |a| - 1
        ensures a[g].(coded := []) == b[g].(coded := [])
      {
        assert a[g] == p[g] && b[g] == q[g];
      }
    }
  }

  lemma {:induction false} RunStart(a: seq<Group>, b: seq<Group>, signals: seq<Signal>, upto: nat)
    requires Tiles(a, signals, upto) && Tiles(b, signals, upto) && a != [] && b != []
    requires a[|a| - 1].key == b[|b| - 1].key
    ensures a[|a| - 1].offset >= b[|b| - 1].offset
  {
    var x, y := a[|a| - 1], b[|b| - 1];
    var init := b[..|b| - 1];
    TableTilesSource(init, signals, y.offset);
    if y.offset > 0 {
      assert KeyOf(signals[y.offset - 1]) == init[|init| - 1].key;
      assert b[|b| - 2] == init[|init| - 1];
    }
  }

  /** The encoder functions of one entry: only binary entries annotated with "ascii85" have them. */
  predicate HasEncoder(s: Signal) {
    s.kind == KIND_BINARY && s.encoding == Some("ascii85")
  }

  ghost predicate EncodersOf(g: Group, signals: seq<Signal>)
    requires g.offset + g.count <= |signals|
  {
    if g.key.kind == KIND_BINARY then
      |g.coded| == g.count && forall i :: 0 <= i < g.count ==> g.coded[i] == HasEncoder(signals[g.offset + i])
    else g.coded == []
  }

  /** No encoder is installed yet. */
  ghost predicate FreshEncoders(g: Group) {
    true !in g.coded && |g.coded| == if g.key.kind == KIND_BINARY then g.count else 0
  }

  ghost predicate Loaded(before: Group, g: Group, signals: seq<Signal>) {
    g == before.(coded := g.coded) && g.offset + g.count <= |signals| && EncodersOf(g, signals)
  }

  /** The inner loop of the encoder lookup; entry `i` is looked up at `offset + i` of the signal list. */
  method LoadGroupEncoders(group: Group, signals: seq<Signal>) returns (g: Group)
    requires Block(group, signals)
    requires FreshEncoders(group)
    ensures Loaded(group, g, signals)
  {
    g := group;
    if group.key.kind == KIND_BINARY {
      var coded := group.coded;
      for i := 0 to group.count
        invariant |coded| == group.count
        invariant forall k :: 0 <= k < i ==> coded[k] == HasEncoder(signals[group.offset + k])
        invariant forall k :: i <= k < group.count ==> !coded[k]
      {
        var s := signals[group.offset + i];
        assert KeyOf(s) == group.key;
        if s.encoding.Some? {
          if s.encoding.value == "ascii85" {
            coded := coded[i := true];
          }
        }
      }
      g := group.(coded := coded);
    }
  }

  lemma {:induction false} ReplaceCoded(groups: seq<Group>, out: seq<Group>, signals: seq<Signal>, upto: nat)
    requires Tiles(groups, signals, upto) && |out| == |groups|
    requires forall n :: 0 <= n < |groups| ==> Loaded(groups[n], out[n], signals)
    ensures Tiles(out, signals, upto)
  {
    if groups != [] {
      var n := |groups| - 1;
      ReplaceCoded(groups[..n], out[..n], signals, groups[n].offset);
      assert Loaded(groups[n], out[n], signals) && Block(out[n], signals);
      assert n > 0 ==> Loaded(groups[n - 1], out[n - 1], signals);
    }
  }

  method LoadEncoderFuncs(groups: seq<Group>, signals: seq<Signal>) returns (out: seq<Group>)
    requires Tiles(groups, signals, |signals|)
    requires AllFresh(groups) && Named(groups)
    ensures Tiles(out, signals, |signals|)
    ensures Named(out)
    ensures |out| == |groups| && forall n :: 0 <= n < |out| ==> Loaded(groups[n], out[n], signals)
  {
    out := [];
    for n := 0 to |groups|
      invariant |out| == n
      invariant forall k :: 0 <= k < n ==> Loaded(groups[k], out[k], signals)
    {
      TilesPrefix(groups, signals, |signals|, n);
      assert groups[n] in groups;
      var g := LoadGroupEncoders(groups[n], signals);
      out := out + [g];
    }
    ReplaceCoded(groups, out, signals, |signals|);
    LoadedKeepsNames(groups, out, signals);
  }

  lemma {:induction false} LoadedKeepsNames(groups: seq<Group>, out: seq<Group>, signals: seq<Signal>)
    requires Named(groups) && |out| == |groups|
    requires forall n :: 0 <= n < |out| ==> Loaded(groups[n], out[n], signals)
    ensures Named(out)
  {
    forall g | g in out
      ensures HasOwnName(g)
    {
      var n :| 0 <= n < |out| && out[n] == g;
      assert Loaded(groups[n], out[n], signals);
      assert groups[n] in groups && HasOwnName(groups[n]);
    }
  }
}
