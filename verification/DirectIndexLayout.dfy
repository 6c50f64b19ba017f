/** The direct index of the generator: groups of signals and the byte offsets that become value
    references (extra/tools/fmi/internal/app/generate/directindex.go). */
module DirectIndexLayout {
  // A signal takes 24 bytes of the map: 8 for its scalar, 8 for its binary pointer, 4 and 4 for size
  // and length. The arrays of a group follow one another, scalars first.

  datatype IndexSignal = IndexSignal(name: string, index: nat, offset: nat)

  /** `index` maps a signal name to its position in `signals`. */
  datatype SignalGroup = SignalGroup(name: string, signals: seq<IndexSignal>, index: map<string, nat>, offset: nat,
      length: nat)

  ghost predicate GroupOk(g: SignalGroup) {
    && (forall n :: n in g.index ==> g.index[n] < |g.signals| && g.signals[g.index[n]].name == n)
    && (forall i :: 0 <= i < |g.signals| ==> g.signals[i].name in g.index && g.index[g.signals[i].name] == i)
  }

  /** Slices and name maps agree, without duplicates. */
  ghost predicate IndexOk(groups: seq<SignalGroup>, index: map<string, nat>) {
    && (forall n :: n in index ==> index[n] < |groups| && groups[index[n]].name == n)
    && (forall g :: 0 <= g < |groups| ==> groups[g].name in index && index[groups[g].name] == g)
    && (forall g :: 0 <= g < |groups| ==> GroupOk(groups[g]))
  }

  /** The signals in the groups before group `g`. */
  ghost function SignalsBefore(groups: seq<SignalGroup>, g: nat): nat
    requires g <= |groups|
  {
    if g == 0 then 0 else SignalsBefore(groups, g - 1) + |groups[g - 1].signals|
  }

  ghost predicate GroupPlaced(g: SignalGroup, before: nat) {
    && g.offset == before && g.length == |g.signals|
    && SignalsPlaced(g.signals, 24 * before)
  }

  ghost predicate SignalsPlaced(signals: seq<IndexSignal>, base: nat) {
    forall i :: 0 <= i < |signals| ==> signals[i].index == i && signals[i].offset == base + 8 * i
  }

  ghost predicate Placed(groups: seq<SignalGroup>) {
    forall g :: 0 <= g < |groups| ==> GroupPlaced(groups[g], SignalsBefore(groups, g))
  }

  // ----- what the layout guarantees -----

  lemma {:induction false} BlocksAscend(groups: seq<SignalGroup>, g: nat, h: nat)
    requires g < h <= |groups|
    ensures SignalsBefore(groups, g) + |groups[g].signals| <= SignalsBefore(groups, h)
  {
    if g + 1 < h {
      BlocksAscend(groups, g, h - 1);
    }
  }

  lemma {:induction false} PlacedAt(groups: seq<SignalGroup>, g: nat)
    requires Placed(groups) && g < |groups|
    ensures groups[g].offset == SignalsBefore(groups, g) && groups[g].length == |groups[g].signals|
  {
    assert GroupPlaced(groups[g], SignalsBefore(groups, g));
  }

  lemma {:induction false} SlotOffset(groups: seq<SignalGroup>, g: nat, i: nat)
    requires Placed(groups) && g < |groups| && i < |groups[g].signals|
    ensures groups[g].signals[i].offset == 24 * SignalsBefore(groups, g) + 8 * i
  {
    assert GroupPlaced(groups[g], SignalsBefore(groups, g));
  }

  /** The blocks [24*offset, 24*(offset+length)) tile [0, 24*N): the first starts at 0, each starts
      where the one before ends, and the last (g + 1 = |groups|) ends at 24*N for N signals in all. */
  lemma {:induction false} BlocksTile(groups: seq<SignalGroup>, g: nat)
    requires Placed(groups) && g < |groups|
    ensures g == 0 ==> groups[g].offset == 0
    ensures g > 0 ==> groups[g].offset == groups[g - 1].offset + groups[g - 1].length
    ensures groups[g].offset + groups[g].length == SignalsBefore(groups, g + 1)
  {
    PlacedAt(groups, g);
    if g > 0 {
      PlacedAt(groups, g - 1);
    }
  }

  /** The eight bytes of a signal lie inside its group's block, and so inside the map. */
  lemma {:induction false} SlotInsideBlock(groups: seq<SignalGroup>, g: nat, i: nat)
    requires Placed(groups) && g < |groups| && i < |groups[g].signals|
    ensures var slot := groups[g].signals[i].offset;
            && 24 * groups[g].offset <= slot
            && slot + 8 <= 24 * (groups[g].offset + groups[g].length)
            && slot + 8 <= 24 * SignalsBefore(groups, |groups|)
  {
    PlacedAt(groups, g);
    SlotOffset(groups, g, i);
    BlocksAscend(groups, g, |groups|);
  }

  /** Slots of different signals do not overlap. */
  lemma {:induction false} SlotsDisjoint(groups: seq<SignalGroup>, g: nat, i: nat, h: nat, j: nat)
    requires Placed(groups) && g < |groups| && i < |groups[g].signals| && h < |groups| && j < |groups[h].signals|
    requires g != h || i != j
    ensures var a, b := groups[g].signals[i].offset, groups[h].signals[j].offset;
            a + 8 <= b || b + 8 <= a
  {
    SlotOffset(groups, g, i);
    SlotOffset(groups, h, j);
    if g < h {
      BlocksAscend(groups, g, h);
    } else if h < g {
      BlocksAscend(groups, h, g);
    }
  }

  /** The layout of a group depends only on the sizes of the groups up to it: placing again after
      further groups were appended leaves every offset as it was. */
  lemma {:induction false} AppendingKeepsOffsets(before: seq<SignalGroup>, after: seq<SignalGroup>, g: nat)
    requires Placed(before) && Placed(after) && |before| <= |after| && g < |before|
    requires forall k :: 0 <= k <= g ==> |after[k].signals| == |before[k].signals|
    ensures after[g].offset == before[g].offset && after[g].length == before[g].length
    ensures forall i :: 0 <= i < |before[g].signals| ==> after[g].signals[i].offset == before[g].signals[i].offset
  {
    SameSizesSameStart(before, after, g);
    PlacedAt(before, g);
    PlacedAt(after, g);
    forall i | 0 <= i < |before[g].signals|
      ensures after[g].signals[i].offset == before[g].signals[i].offset
    {
      SlotOffset(before, g, i);
      SlotOffset(after, g, i);
    }
  }

  lemma {:induction false} SameSizesSameStart(a: seq<SignalGroup>, b: seq<SignalGroup>, g: nat)
    requires g <= |a| && g <= |b| && forall k :: 0 <= k < g ==> |a[k].signals| == |b[k].signals|
    ensures SignalsBefore(a, g) == SignalsBefore(b, g)
  {
    if g > 0 {
      SameSizesSameStart(a, b, g - 1);
    }
  }

  /** What placing does not touch. */
  ghost predicate SameNames(a: SignalGroup, b: SignalGroup) {
    && a.name == b.name && a.index == b.index && |a.signals| == |b.signals|
    && forall i :: 0 <= i < |a.signals| ==> a.signals[i].name == b.signals[i].name
  }

  lemma {:induction false} SameNamesKeepIndex(a: seq<SignalGroup>, b: seq<SignalGroup>, index: map<string, nat>)
    requires IndexOk(a, index) && |a| == |b| && forall g :: 0 <= g < |a| ==> SameNames(a[g], b[g])
    ensures IndexOk(b, index)
  {
    forall g | 0 <= g < |b|
      ensures GroupOk(b[g]) && b[g].name == a[g].name
    {
      assert GroupOk(a[g]) && SameNames(a[g], b[g]);
    }
  }

  /** The position of a signal of a group. */
  predicate Has(groups: seq<SignalGroup>, index: map<string, nat>, group: string, signal: string) {
    group in index && index[group] < |groups| && signal in groups[index[group]].index
  }

  class DirectIndex {
    var groups: seq<SignalGroup>
    var index: map<string, nat>

    ghost predicate Valid()
      reads this
    {
      IndexOk(groups, index)
    }

    constructor ()
      ensures Valid() && groups == []
    {
      groups, index := [], map[];
    }

    /** getSignalGroup: the group of that name, appended if it is new. */
    method GetSignalGroup(name: string) returns (g: nat)
      requires Valid()
      modifies this
      ensures Valid()
      ensures g < |groups| && groups[g].name == name
      ensures name in old(index) ==> groups == old(groups) && index == old(index)
      ensures name !in old(index) ==>
                groups == old(groups) + [SignalGroup(name, [], map[], 0, 0)] && index == old(index)[name := g]
    {
      if name in index {
        return index[name];
      }
      g := |groups|;
      groups := groups + [SignalGroup(name, [], map[], 0, 0)];
      index := index[name := g];
    }

    /** addSignal: afterwards exactly one more signal is present, or none if it was there. */
    method AddSignal(group: string, name: string)
      requires Valid()
      modifies this
      ensures Valid()
      ensures forall s, n :: Has(groups, index, s, n)
                             <==> Has(old(groups), old(index), s, n) || (s == group && n == name)
      ensures Has(old(groups), old(index), group, name) ==> groups == old(groups)
      ensures |old(groups)| <= |groups| <= |old(groups)| + 1
      ensures forall g :: 0 <= g < |old(groups)| && groups[g].name != group ==> groups[g] == old(groups)[g]
    {
      var g := GetSignalGroup(group);
      if name in groups[g].index {
        return;
      }
      var signal := IndexSignal(name, 0, 0);
      var sg := groups[g];
      AddKeepsIndex(groups, index, g, name);
      groups := groups[g := sg.(signals := sg.signals + [signal], index := sg.index[name := |sg.signals|])];
    }

    /** The inner loop of calculateMapOffsets. */
    method PlaceSignals(signals: seq<IndexSignal>, mapOffset: nat) returns (out: seq<IndexSignal>)
      ensures |out| == |signals| && SignalsPlaced(out, mapOffset)
      ensures forall i :: 0 <= i < |out| ==> out[i].name == signals[i].name
    {
      out := signals;
      for i := 0 to |signals|
        invariant |out| == |signals|
        invariant forall k :: 0 <= k < i ==> out[k].index == k && out[k].offset == mapOffset + 8 * k
        invariant forall k :: 0 <= k < |out| ==> out[k].name == signals[k].name
      {
        out := out[i := out[i].(index := i, offset := mapOffset + i * 8)];
      }
    }

    /** calculateMapOffsets: places every group and signal; names, order and indexes stay. */
    method CalculateMapOffsets()
      requires Valid()
      modifies this`groups
      ensures Valid() && Placed(groups)
      ensures |groups| == |old(groups)| && forall g :: 0 <= g < |groups| ==> SameNames(old(groups)[g], groups[g])
    {
      var groupOffset := 0;
      for g := 0 to |groups|
        invariant groupOffset == SignalsBefore(old(groups), g)
        invariant PlacedUpTo(old(groups), groups, g)
      {
        var group := groups[g];
        assert SameNames(old(groups)[g], group);
        var signals := PlaceSignals(group.signals, groupOffset * 24);
        var placed := group.(offset := groupOffset, length := |signals|, signals := signals);
        PlaceNext(old(groups), groups, g, placed);
        groups := groups[g := placed];
        groupOffset := groupOffset + |signals|;
      }
      SameNamesKeepIndex(old(groups), groups, index);
      PlacedOverSameSizes(old(groups), groups);
    }

    /** getSignalOffset: finds exactly the signals that were added. */
    method GetSignalOffset(group: string, signal: string) returns (offset: nat, found: bool)
      requires Valid()
      ensures found <==> Has(groups, index, group, signal)
      ensures found ==> offset == OffsetOf(groups, index, group, signal) && Sits(groups, group, signal, offset)
      ensures !found ==> offset == 0
    {
      if group in index {
        var sg := groups[index[group]];
        assert GroupOk(sg);
        if signal in sg.index {
          OffsetSits(groups, index, group, signal);
          return sg.signals[sg.index[signal]].offset, true;
        }
      }
      return 0, false;
    }
  }

  /** The groups before `upto` are placed, and only placed. */
  ghost predicate PlacedUpTo(a: seq<SignalGroup>, b: seq<SignalGroup>, upto: nat) {
    && |a| == |b| && upto <= |a|
    && (forall g :: 0 <= g < upto ==> GroupPlaced(b[g], SignalsBefore(a, g)))
    && (forall g :: 0 <= g < |a| ==> SameNames(a[g], b[g]))
  }

  lemma {:induction false} PlaceNext(a: seq<SignalGroup>, b: seq<SignalGroup>, g: nat, placed: SignalGroup)
    requires PlacedUpTo(a, b, g) && g < |a|
    requires GroupPlaced(placed, SignalsBefore(a, g)) && SameNames(a[g], placed)
    ensures PlacedUpTo(a, b[g := placed], g + 1)
  {
  }

  lemma {:induction false} PlacedOverSameSizes(a: seq<SignalGroup>, b: seq<SignalGroup>)
    requires PlacedUpTo(a, b, |a|)
    ensures Placed(b)
  {
    forall g | 0 <= g < |b|
      ensures GroupPlaced(b[g], SignalsBefore(b, g))
    {
      SameSizesSameStart(a, b, g);
    }
  }

  lemma {:induction false} AddKeepsGroup(sg: SignalGroup, name: string)
    requires GroupOk(sg) && name !in sg.index
    ensures GroupOk(sg.(signals := sg.signals + [IndexSignal(name, 0, 0)], index := sg.index[name := |sg.signals|]))
  {
  }

  lemma {:induction false} AddKeepsIndex(groups: seq<SignalGroup>, index: map<string, nat>, g: nat, name: string)
    requires IndexOk(groups, index) && g < |groups| && name !in groups[g].index
    ensures var sg := groups[g];
            var more := sg.(signals := sg.signals + [IndexSignal(name, 0, 0)], index := sg.index[name := |sg.signals|]);
            var after := groups[g := more];
            && IndexOk(after, index)
            && forall s, n :: Has(after, index, s, n) <==> Has(groups, index, s, n) || (s == sg.name && n == name)
  {
    assert GroupOk(groups[g]);
    AddKeepsGroup(groups[g], name);
  }

  ghost function OffsetOf(groups: seq<SignalGroup>, index: map<string, nat>, group: string, signal: string): nat
    requires IndexOk(groups, index) && Has(groups, index, group, signal)
  {
    var sg := groups[index[group]];
    assert GroupOk(sg);
    sg.signals[sg.index[signal]].offset
  }

  /** The offset is that of the signal of this name in the group of this name. */
  ghost predicate Sits(groups: seq<SignalGroup>, group: string, signal: string, offset: nat) {
    exists g: nat, p: nat :: SitsAt(groups, group, signal, offset, g, p)
  }

  ghost predicate SitsAt(groups: seq<SignalGroup>, group: string, signal: string, offset: nat, g: nat, p: nat) {
    && g < |groups| && groups[g].name == group
    && p < |groups[g].signals| && groups[g].signals[p].name == signal && groups[g].signals[p].offset == offset
  }

  lemma {:induction false} OffsetSits(groups: seq<SignalGroup>, index: map<string, nat>, group: string, signal: string)
    requires IndexOk(groups, index) && Has(groups, index, group, signal)
    ensures Sits(groups, group, signal, OffsetOf(groups, index, group, signal))
  {
    var g := index[group];
    assert GroupOk(groups[g]);
    assert SitsAt(groups, group, signal, OffsetOf(groups, index, group, signal), g, groups[g].index[signal]);
  }

  /** In a placed layout that offset follows from the position of the signal. */
  lemma {:induction false} SitsByPosition(groups: seq<SignalGroup>, group: string, signal: string, offset: nat)
    returns (g: nat, p: nat)
    requires Placed(groups) && Sits(groups, group, signal, offset)
    ensures SitsAt(groups, group, signal, offset, g, p)
    ensures offset == 24 * SignalsBefore(groups, g) + 8 * p
  {
    g, p :| SitsAt(groups, group, signal, offset, g, p);
    SlotOffset(groups, g, p);
  }

  /** Value references identify signals: two present signals have the same offset exactly when they
      are the same signal of the same group. */
  lemma {:induction false} OffsetsIdentifySignals(groups: seq<SignalGroup>, index: map<string, nat>, s: string,
      n: string, t: string, m: string)
    requires IndexOk(groups, index) && Placed(groups)
    requires Has(groups, index, s, n) && Has(groups, index, t, m)
    ensures OffsetOf(groups, index, s, n) == OffsetOf(groups, index, t, m) <==> s == t && n == m
  {
    var g, h := index[s], index[t];
    assert GroupOk(groups[g]) && GroupOk(groups[h]);
    var i, j := groups[g].index[n], groups[h].index[m];
    if g != h || i != j {
      SlotsDisjoint(groups, g, i, h, j);
    }
  }
}
