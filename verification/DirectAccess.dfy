/** Scalar access through the direct index, where a value reference is a byte offset into the map,
    against access through the hashmaps (dse/fmu/fmi2fmu.c:271-306, 403-432). */
module DirectAccess {
  import opened Bytes
  import opened Decimal
  import opened DirectIndexLayout
  import opened VarTable
  import opened Wrappers
  import VariableIndex

  /** How a double is kept in eight bytes. */
  datatype Doubles = Doubles(enc: real -> seq<byte>, dec: seq<byte> -> real)

  /** The number is a double: it fits into eight bytes and can be read back from them. */
  ghost predicate Fits(c: Doubles, d: real) {
    |c.enc(d)| == 8 && c.dec(c.enc(d)) == d
  }

  ghost predicate AllFit(c: Doubles, values: seq<real>) {
    forall k :: 0 <= k < |values| ==> Fits(c, values[k])
  }

  // ----- the map -----

  // Memory is a sequence of bytes that starts with the map; what follows the `size` bytes of the map
  // belongs to somebody else.

  function Load(mem: seq<byte>, at: nat): seq<byte>
    requires at + 8 <= |mem|
  {
    mem[at..at + 8]
  }

  function Store(mem: seq<byte>, at: nat, bytes: seq<byte>): (r: seq<byte>)
    requires at + 8 <= |mem| && |bytes| == 8
    ensures |r| == |mem|
  {
    mem[..at] + bytes + mem[at + 8..]
  }

  lemma {:induction false} LoadStored(mem: seq<byte>, at: nat, bytes: seq<byte>)
    requires at + 8 <= |mem| && |bytes| == 8
    ensures Load(Store(mem, at, bytes), at) == bytes
  {
  }

  lemma {:induction false} LoadElsewhere(mem: seq<byte>, at: nat, bytes: seq<byte>, other: nat)
    requires at + 8 <= |mem| && other + 8 <= |mem| && |bytes| == 8
    requires other + 8 <= at || at + 8 <= other
    ensures Load(Store(mem, at, bytes), other) == Load(mem, other)
  {
  }

  ghost function DirectSet(c: Doubles, mem: seq<byte>, size: nat, vrs: seq<nat>, values: seq<real>): (r: seq<byte>)
    requires |vrs| == |values| && AllFit(c, values) && size + 8 <= |mem|
    ensures |r| == |mem|
  {
    if vrs == [] then mem
    else
      var n := |vrs| - 1;
      var m := DirectSet(c, mem, size, vrs[..n], values[..n]);
      assert Fits(c, values[n]);
      DirectSetOne(c, m, size, vrs[n], values[n])
  }

  /** One setting: the size guard only skips references beyond the size. */
  function DirectSetOne(c: Doubles, mem: seq<byte>, size: nat, vr: nat, d: real): (r: seq<byte>)
    requires Fits(c, d) && size + 8 <= |mem|
    ensures |r| == |mem|
  {
    if vr > size then mem else Store(mem, vr, c.enc(d))
  }

  function DirectGet(c: Doubles, mem: seq<byte>, size: nat, vr: nat, otherwise: real): real
    requires size + 8 <= |mem|
  {
    if vr > size then otherwise else c.dec(Load(mem, vr))
  }

  /** The FMU instance with an installed bypass map of `size` bytes. */
  class DirectFmu {
    const c: Doubles
    const bytes: array<byte>
    const size: nat

    ghost predicate Valid() {
      size + 8 <= bytes.Length
    }

    constructor (c: Doubles, bytes: array<byte>, size: nat)
      requires size + 8 <= bytes.Length
      ensures Valid() && this.c == c && this.bytes == bytes && this.size == size
    {
      this.c, this.bytes, this.size := c, bytes, size;
    }

    /** fmi2SetReal, direct path. */
    method SetReal(vr: seq<nat>, value: seq<real>)
      requires Valid() && |vr| == |value| && AllFit(c, value)
      modifies bytes
      ensures bytes[..] == DirectSet(c, old(bytes[..]), size, vr, value)
    {
      ghost var start := bytes[..];
      for i := 0 to |vr|
        invariant bytes[..] == DirectSet(c, start, size, vr[..i], value[..i])
      {
        assert vr[..i + 1][..i] == vr[..i] && value[..i + 1][..i] == value[..i];
        assert Fits(c, value[i]);
        if vr[i] > size {
          continue;
        }
        var at, d := vr[i], c.enc(value[i]);
        ghost var before := bytes[..];
        forall k | 0 <= k < 8 {
          bytes[at + k] := d[k];
        }
        assert bytes[..] == Store(before, at, d);
      }
      assert vr[..|vr|] == vr && value[..|value|] == value;
    }

    /** fmi2GetReal, direct path. */
    method GetReal(vr: seq<nat>, value: seq<real>) returns (out: seq<real>)
      requires Valid() && |vr| == |value|
      ensures |out| == |vr|
      ensures forall k :: 0 <= k < |vr| ==> out[k] == DirectGet(c, bytes[..], size, vr[k], value[k])
    {
      out := value;
      for i := 0 to |vr|
        invariant |out| == |vr|
        invariant forall k :: 0 <= k < i ==> out[k] == DirectGet(c, bytes[..], size, vr[k], value[k])
        invariant forall k :: i <= k < |vr| ==> out[k] == value[k]
      {
        if vr[i] > size {
          continue;
        }
        assert bytes[vr[i]..vr[i] + 8] == Load(bytes[..], vr[i]);
        out := out[i := c.dec(bytes[vr[i]..vr[i] + 8])];
      }
    }
  }

  // ----- the size guard -----

  /** Bytes of the map that the eight bytes at `vr` do not have. */
  function Beyond(size: nat, vr: nat): nat {
    if vr + 8 <= size then 0 else vr + 8 - size
  }

  /** A setting that passes the size guard leaves the memory behind the map alone exactly when its eight
      bytes lie inside the map, or happen to store what is there already. */
  lemma {:induction false} GuardProtects(c: Doubles, mem: seq<byte>, size: nat, vr: nat, d: real)
    requires Fits(c, d) && size + 8 <= |mem| && vr <= size
    ensures DirectSetOne(c, mem, size, vr, d)[size..] == mem[size..]
            <==> vr + 8 <= size || c.enc(d)[8 - Beyond(size, vr)..] == mem[size..size + Beyond(size, vr)]
  {
    var after, n := DirectSetOne(c, mem, size, vr, d), Beyond(size, vr);
    if vr + 8 > size {
      assert after[size..] == c.enc(d)[8 - n..] + mem[size + n..];
      assert mem[size..] == mem[size..size + n] + mem[size + n..];
      if after[size..] == mem[size..] {
        assert after[size..][..n] == mem[size..][..n];
      }
    } else {
      assert after[size..] == mem[size..];
    }
  }

  ghost predicate SameMap(a: seq<byte>, b: seq<byte>, size: nat) {
    size + 8 <= |a| && size + 8 <= |b| && a[..size] == b[..size]
  }

  /** A reading at `vr` depends on the map alone. */
  ghost predicate ReadsMapOnly(size: nat, vr: nat)
    requires vr <= size
  {
    forall a, b :: SameMap(a, b, size) ==> Load(a, vr) == Load(b, vr)
  }

  /** A reading that passes the size guard depends on the map alone if and only if its eight bytes lie inside
      the map. */
  lemma {:induction false} GuardConfinesReads(size: nat, vr: nat)
    requires vr <= size
    ensures ReadsMapOnly(size, vr) <==> vr + 8 <= size
  {
    if vr + 8 <= size {
      forall a, b | SameMap(a, b, size)
        ensures Load(a, vr) == Load(b, vr)
      {
        assert Load(a, vr) == a[..size][vr..vr + 8] && Load(b, vr) == b[..size][vr..vr + 8];
      }
    } else {
      var a, b := seq(size + 8, i => 0 as byte), seq(size + 8, i => if i < size then 0 as byte else 1);
      assert SameMap(a, b, size);
      assert Load(a, vr)[7] == 0 && Load(b, vr)[7] == 1;
    }
  }

  /** For references that are multiples of eight, in a map of 24 bytes per signal, the guard keeps readings
      inside the map except at exactly one reference, the size itself. */
  lemma {:induction false} GuardOnMultiplesOfEight(size: nat, vr: nat, signals: nat, slot: nat)
    requires size == 24 * signals && vr == 8 * slot && vr <= size
    ensures ReadsMapOnly(size, vr) <==> vr != size
  {
    assert vr + 8 <= size <==> vr != size;
    GuardConfinesReads(size, vr);
  }

  /** The allocator hands out such references, but never that one. */
  lemma {:induction false} AllocatedIsNotSize(groups: seq<SignalGroup>, g: nat, i: nat) returns (slot: nat)
    requires Placed(groups) && g < |groups| && i < |groups[g].signals|
    ensures groups[g].signals[i].offset == 8 * slot < 24 * SignalsBefore(groups, |groups|)
  {
    SlotOffset(groups, g, i);
    SlotInsideBlock(groups, g, i);
    slot := 3 * SignalsBefore(groups, g) + i;
  }

  /** The reference that equals the size passes the guard and overwrites the eight bytes behind the map. */
  lemma {:induction false} SizeItselfOverruns(c: Doubles, mem: seq<byte>, size: nat, d: real)
    requires Fits(c, d) && size + 8 <= |mem| && c.enc(d) != mem[size..size + 8]
    ensures DirectSetOne(c, mem, size, size, d)[..size] == mem[..size]
    ensures DirectSetOne(c, mem, size, size, d)[size..size + 8] == c.enc(d)
    ensures DirectSetOne(c, mem, size, size, d)[size..] != mem[size..]
  {
    GuardProtects(c, mem, size, size, d);
    assert c.enc(d)[0..] == c.enc(d);
  }

  // ----- the hashmaps -----

  /** Hashmap indexes: keys of value references to cells. */
  datatype Cells = Cells(input: map<string, nat>, output: map<string, nat>)

  /** Different references have different cells. One reference may be both an input and an output, with one
      cell for both or with two. */
  ghost predicate CellsOk(x: Cells) {
    && (forall a, b :: a in x.input && b in x.input && x.input[a] == x.input[b] ==> a == b)
    && (forall a, b :: a in x.output && b in x.output && x.output[a] == x.output[b] ==> a == b)
    && (forall a, b :: a in x.input && b in x.output && x.input[a] == x.output[b] ==> a == b)
  }

  /** The indexes built from a model description are of this kind. */
  lemma {:induction false} IndexedCells(vars: seq<VariableIndex.ScalarVariable>)
    ensures var f := VariableIndex.FillAll(vars, false);
            CellsOk(Cells(f.input, f.output))
  {
    VariableIndex.ReferencesHaveOwnStorage(vars, false);
  }

  /** The reference is an input, and if it is an output too, then with the same cell. */
  predicate OneCell(x: Cells, v: nat)
    requires IsVref(v)
  {
    var key := VrefKey(v);
    key in x.input && (key in x.output ==> x.output[key] == x.input[key])
  }

  /** Reference `w` reads from the cell that setting `v` writes. */
  predicate SharesCell(x: Cells, v: nat, w: nat)
    requires IsVref(v) && IsVref(w)
  {
    var kv, kw := VrefKey(v), VrefKey(w);
    && kv in x.input
    && ((kw in x.input && x.input[kw] == x.input[kv]) || (kw in x.output && x.output[kw] == x.input[kv]))
  }

  /** Setting the reference writes its own cell, and that of no other reference. */
  ghost predicate OwnCell(x: Cells, slots: set<nat>, v: nat)
    requires IsVref(v) && forall w :: w in slots ==> IsVref(w)
  {
    OneCell(x, v) && forall w :: w in slots && w != v ==> !SharesCell(x, v, w)
  }

  /** No other allocated reference has the key of this one. */
  ghost predicate KeyApart(slots: set<nat>, v: nat)
    requires IsVref(v) && forall w :: w in slots ==> IsVref(w)
  {
    forall w :: w in slots && w != v ==> IsVref(w) && KeyClass(w) != KeyClass(v)
  }

  /** In a map of at most 2^31 bytes that is always so. */
  lemma {:induction false} SmallKeysApart(slots: set<nat>, size: nat, v: nat)
    requires Allocated(slots, size) && size <= TWO_31 && v in slots
    ensures KeyApart(slots, v)
  {
  }

  /** With different cells for different keys only the reference itself and its key matter. */
  lemma {:induction false} OwnCellOfInput(x: Cells, slots: set<nat>, size: nat, v: nat)
    requires CellsOk(x) && Allocated(slots, size) && v in slots
    ensures OwnCell(x, slots, v) <==> OneCell(x, v) && KeyApart(slots, v)
  {
    forall w | w in slots && w != v
      ensures VrefKey(w) == VrefKey(v) <==> KeyClass(w) == KeyClass(v)
    {
      VrefKeysCollide(v, w);
    }
  }

  // ----- agreement -----

  /** What the allocator hands out: separate eight-byte slots inside a map of `size` bytes. */
  ghost predicate Allocated(slots: set<nat>, size: nat) {
    && (forall v :: v in slots ==> v + 8 <= size && IsVref(v))
    && (forall v, w :: v in slots && w in slots && v != w ==> v + 8 <= w || w + 8 <= v)
  }

  /** The offsets of a placed layout. */
  ghost function SlotsOf(groups: seq<SignalGroup>): set<nat> {
    set g, i | 0 <= g < |groups| && 0 <= i < |groups[g].signals| :: groups[g].signals[i].offset
  }

  /** A placed layout is an allocation for a map of 24 bytes per signal, as long as its references have 32 bits. */
  lemma {:induction false} LayoutIsAllocated(groups: seq<SignalGroup>)
    requires Placed(groups) && 24 * SignalsBefore(groups, |groups|) < TWO_32
    ensures Allocated(SlotsOf(groups), 24 * SignalsBefore(groups, |groups|))
  {
    var size := 24 * SignalsBefore(groups, |groups|);
    forall v | v in SlotsOf(groups)
      ensures v + 8 <= size && IsVref(v)
    {
      var g, i :| 0 <= g < |groups| && 0 <= i < |groups[g].signals| && groups[g].signals[i].offset == v;
      SlotInsideBlock(groups, g, i);
    }
    forall v, w | v in SlotsOf(groups) && w in SlotsOf(groups) && v != w
      ensures v + 8 <= w || w + 8 <= v
    {
      var g, i :| 0 <= g < |groups| && 0 <= i < |groups[g].signals| && groups[g].signals[i].offset == v;
      var h, j :| 0 <= h < |groups| && 0 <= j < |groups[h].signals| && groups[h].signals[j].offset == w;
      SlotsDisjoint(groups, g, i, h, j);
    }
  }

  /** Map and cells hold the same value for every allocated reference. */
  ghost predicate Agree(c: Doubles, x: Cells, slots: set<nat>, size: nat, mem: seq<byte>, cells: Memory) {
    && Allocated(slots, size) && size + 8 <= |mem|
    && forall v :: v in slots ==> AgreeAt(c, x, mem, cells, v)
  }

  ghost predicate AgreeAt(c: Doubles, x: Cells, mem: seq<byte>, cells: Memory, v: nat)
    requires IsVref(v)
  {
    var key := VrefKey(v);
    && v + 8 <= |mem|
    && (key in x.output || key in x.input)
    && (key in x.output ==> x.output[key] in cells && cells[x.output[key]] == c.dec(Load(mem, v)))
    && (key in x.input ==> x.input[key] in cells && cells[x.input[key]] == c.dec(Load(mem, v)))
  }

  /** Reading an allocated reference passes the size guard, stays inside the map, and gives the same value on
      both paths. */
  lemma {:induction false} ReadsAgree(c: Doubles, x: Cells, slots: set<nat>, size: nat, mem: seq<byte>, cells: Memory,
      v: nat, otherwise: real)
    requires Agree(c, x, slots, size, mem, cells) && v in slots
    ensures v <= size && v + 8 <= size
    ensures DirectGet(c, mem, size, v, otherwise) == GetOne(x.input, x.output, cells, v, otherwise)
  {
    assert AgreeAt(c, x, mem, cells, v);
  }

  lemma {:induction false} OtherSlot(c: Doubles, x: Cells, slots: set<nat>, size: nat, mem: seq<byte>, cells: Memory,
      v: nat, d: real, w: nat)
    requires Fits(c, d) && Agree(c, x, slots, size, mem, cells) && v in slots && w in slots && v != w
    ensures AgreeAt(c, x, DirectSetOne(c, mem, size, v, d), SetOne(x.input, cells, v, d), w)
            <==> !SharesCell(x, v, w) || d == DirectGet(c, mem, size, v, d)
  {
    assert AgreeAt(c, x, mem, cells, v) && AgreeAt(c, x, mem, cells, w);
    LoadElsewhere(mem, v, c.enc(d), w);
  }

  lemma {:induction false} OwnSlot(c: Doubles, x: Cells, slots: set<nat>, size: nat, mem: seq<byte>, cells: Memory,
      v: nat, d: real)
    requires Fits(c, d) && Agree(c, x, slots, size, mem, cells) && v in slots
    ensures AgreeAt(c, x, DirectSetOne(c, mem, size, v, d), SetOne(x.input, cells, v, d), v)
            <==> OneCell(x, v) || d == DirectGet(c, mem, size, v, d)
  {
    assert AgreeAt(c, x, mem, cells, v);
    LoadStored(mem, v, c.enc(d));
  }

  /** Writing an allocated reference keeps the two paths in agreement exactly when the hashmap writes the one
      cell of that reference and no other reference reads it, or the write changes nothing: the map takes
      any write, the hashmap only writes the input cell. Nothing is asked of the indexes. */
  lemma {:induction false} WriteKeepsAgreement(c: Doubles, x: Cells, slots: set<nat>, size: nat, mem: seq<byte>,
      cells: Memory, v: nat, d: real)
    requires Fits(c, d) && Agree(c, x, slots, size, mem, cells) && v in slots
    ensures Agree(c, x, slots, size, DirectSetOne(c, mem, size, v, d), SetOne(x.input, cells, v, d))
            <==> OwnCell(x, slots, v) || d == DirectGet(c, mem, size, v, d)
  {
    var after, cells' := DirectSetOne(c, mem, size, v, d), SetOne(x.input, cells, v, d);
    OwnSlot(c, x, slots, size, mem, cells, v, d);
    forall w | w in slots && w != v
      ensures AgreeAt(c, x, after, cells', w) <==> !SharesCell(x, v, w) || d == DirectGet(c, mem, size, v, d)
    {
      OtherSlot(c, x, slots, size, mem, cells, v, d, w);
    }
  }

  /** A list of settings, each of which writes the one cell of its reference. */
  ghost predicate InputsOnly(x: Cells, slots: set<nat>, vrs: seq<nat>)
    requires forall w :: w in slots ==> IsVref(w)
  {
    forall k :: 0 <= k < |vrs| ==> vrs[k] in slots && OwnCell(x, slots, vrs[k])
  }

  lemma {:induction false} SettingsAgree(c: Doubles, x: Cells, slots: set<nat>, size: nat, mem: seq<byte>,
      cells: Memory, vrs: seq<nat>, values: seq<real>)
    requires Agree(c, x, slots, size, mem, cells)
    requires |vrs| == |values| && AllFit(c, values) && InputsOnly(x, slots, vrs)
    ensures Agree(c, x, slots, size, DirectSet(c, mem, size, vrs, values), SetReals(x.input, cells, vrs, values))
  {
    if vrs != [] {
      var n := |vrs| - 1;
      SettingsAgree(c, x, slots, size, mem, cells, vrs[..n], values[..n]);
      var m, h := DirectSet(c, mem, size, vrs[..n], values[..n]), SetReals(x.input, cells, vrs[..n], values[..n]);
      assert Fits(c, values[n]);
      WriteKeepsAgreement(c, x, slots, size, m, h, vrs[n], values[n]);
    }
  }

  /** The calls of a run of scalar accesses. */
  ghost predicate Permitted(c: Doubles, x: Cells, slots: set<nat>, call: Call)
    requires forall w :: w in slots ==> IsVref(w)
  {
    match call
    case Set(vrs, values) => |vrs| == |values| && AllFit(c, values) && InputsOnly(x, slots, vrs)
    case Get(vrs) => forall k :: 0 <= k < |vrs| ==> vrs[k] in slots
    case Step => false
  }

  /** Both stores after a run. */
  ghost function RunBoth(c: Doubles, x: Cells, slots: set<nat>, size: nat, mem: seq<byte>, cells: Memory,
      calls: seq<Call>)
    : (r: (seq<byte>, Memory))
    requires size + 8 <= |mem| && forall w :: w in slots ==> IsVref(w)
    requires forall k :: 0 <= k < |calls| ==> Permitted(c, x, slots, calls[k])
    ensures |r.0| == |mem|
  {
    if calls == [] then (mem, cells)
    else
      var n := |calls| - 1;
      var (m, h) := RunBoth(c, x, slots, size, mem, cells, calls[..n]);
      assert Permitted(c, x, slots, calls[n]);
      match calls[n]
      case Get(_) => (m, h)
      case Set(vrs, values) => (DirectSet(c, m, size, vrs, values), SetReals(x.input, h, vrs, values))
  }

  /** In every run of such settings and of readings of allocated references, the direct path and the hashmap
      path stay in agreement. */
  lemma {:induction false} RunsAgree(c: Doubles, x: Cells, slots: set<nat>, size: nat, mem: seq<byte>, cells: Memory,
      calls: seq<Call>)
    requires Agree(c, x, slots, size, mem, cells)
    requires forall k :: 0 <= k < |calls| ==> Permitted(c, x, slots, calls[k])
    ensures var (m, h) := RunBoth(c, x, slots, size, mem, cells, calls);
            Agree(c, x, slots, size, m, h)
  {
    if calls != [] {
      var n := |calls| - 1;
      RunsAgree(c, x, slots, size, mem, cells, calls[..n]);
      var (m, h) := RunBoth(c, x, slots, size, mem, cells, calls[..n]);
      assert Permitted(c, x, slots, calls[n]);
      match calls[n]
      case Get(_) =>
      case Set(vrs, values) =>
        SettingsAgree(c, x, slots, size, m, h, vrs, values);
    }
  }

  /** So a reading at the end of any such run gives the same value on both paths. */
  lemma {:induction false} RunsReadTheSame(c: Doubles, x: Cells, slots: set<nat>, size: nat, mem: seq<byte>,
      cells: Memory, calls: seq<Call>, v: nat, otherwise: real)
    requires Agree(c, x, slots, size, mem, cells)
    requires forall k :: 0 <= k < |calls| ==> Permitted(c, x, slots, calls[k])
    requires v in slots && IsVref(v)
    ensures var (m, h) := RunBoth(c, x, slots, size, mem, cells, calls);
            DirectGet(c, m, size, v, otherwise) == GetOne(x.input, x.output, h, v, otherwise)
  {
    RunsAgree(c, x, slots, size, mem, cells, calls);
    var (m, h) := RunBoth(c, x, slots, size, mem, cells, calls);
    ReadsAgree(c, x, slots, size, m, h, v, otherwise);
  }

  // ----- an input and an output -----

  function Eight(b: byte): (r: seq<byte>)
    ensures |r| == 8
  {
    seq(8, i => b)
  }

  /** A conversion that keeps 0 and 1 apart is enough to tell the two paths apart. */
  function ZeroOrOne(): Doubles {
    Doubles((d: real) => if d == 0.0 then Eight(0) else Eight(1), (s: seq<byte>) => if s == Eight(0) then 0.0 else 1.0)
  }

  /** A map of 48 bytes, all zero, with eight bytes behind it. */
  function Zeros(): (r: seq<byte>)
    ensures |r| == 56
  {
    seq(56, i => 0)
  }

  lemma {:induction false} ZeroSlot(at: nat)
    requires at + 8 <= 56
    ensures ZeroOrOne().dec(Load(Zeros(), at)) == 0.0
    ensures DirectGet(ZeroOrOne(), Store(Zeros(), at, Eight(1)), 48, at, 0.0) == if at > 48 then 0.0 else 1.0
  {
    TwoConversions();
    assert Load(Zeros(), at) == Eight(0);
    if at <= 48 {
      LoadStored(Zeros(), at, Eight(1));
    }
  }

  lemma {:induction false} TwoConversions()
    ensures Fits(ZeroOrOne(), 0.0) && Fits(ZeroOrOne(), 1.0)
    ensures ZeroOrOne().dec(Eight(0)) == 0.0 && ZeroOrOne().dec(Eight(1)) == 1.0
  {
    assert Eight(1)[0] != Eight(0)[0];
  }

  /** An input with reference 0 and an output with reference 8. */
  const INPUT_AND_OUTPUT: Cells := Cells(map["0" := 100], map["8" := 101])

  lemma {:induction false} InputAndOutputAgree()
    ensures var cells := map[100 := 0.0, 101 := 0.0];
            CellsOk(INPUT_AND_OUTPUT) && Agree(ZeroOrOne(), INPUT_AND_OUTPUT, {0, 8}, 48, Zeros(), cells)
    ensures VrefKey(0) == "0" && VrefKey(8) == "8"
  {
    var cells := map[100 := 0.0, 101 := 0.0];
    assert VrefKey(0) == "0" && VrefKey(8) == "8";
    ZeroSlot(0);
    ZeroSlot(8);
    assert AgreeAt(ZeroOrOne(), INPUT_AND_OUTPUT, Zeros(), cells, 0);
    assert AgreeAt(ZeroOrOne(), INPUT_AND_OUTPUT, Zeros(), cells, 8);
  }

  /** Setting the input keeps the two paths in agreement; setting the output does not, and reading it then gives
      different values. */
  lemma {:induction false} OutputWriteDisagrees()
    ensures var c, x, cells := ZeroOrOne(), INPUT_AND_OUTPUT, map[100 := 0.0, 101 := 0.0];
            && Fits(c, 1.0) && Agree(c, x, {0, 8}, 48, Zeros(), cells)
            && Agree(c, x, {0, 8}, 48, DirectSetOne(c, Zeros(), 48, 0, 1.0), SetOne(x.input, cells, 0, 1.0))
            && !Agree(c, x, {0, 8}, 48, DirectSetOne(c, Zeros(), 48, 8, 1.0), SetOne(x.input, cells, 8, 1.0))
            && DirectGet(c, DirectSetOne(c, Zeros(), 48, 8, 1.0), 48, 8, 0.0) == 1.0
            && GetOne(x.input, x.output, SetOne(x.input, cells, 8, 1.0), 8, 1.0) == 0.0
  {
    var c, x, cells := ZeroOrOne(), INPUT_AND_OUTPUT, map[100 := 0.0, 101 := 0.0];
    TwoConversions();
    InputAndOutputAgree();
    ZeroSlot(8);
    OwnCellOfInput(x, {0, 8}, 48, 0);
    OwnCellOfInput(x, {0, 8}, 48, 8);
    WriteKeepsAgreement(c, x, {0, 8}, 48, Zeros(), cells, 0, 1.0);
    WriteKeepsAgreement(c, x, {0, 8}, 48, Zeros(), cells, 8, 1.0);
  }

  // ----- one reference for an input and an output -----

  lemma {:induction false} FillNext(vars: seq<VariableIndex.ScalarVariable>, v: VariableIndex.ScalarVariable)
    requires VariableIndex.Taken(v.children, false) == 1
    ensures VariableIndex.FillAll(vars + [v], false)
            == VariableIndex.IndexOne(VariableIndex.FillAll(vars, false), v, false)
  {
    var before := VariableIndex.FillAll(vars, false);
    assert (vars + [v])[..|vars|] == vars;
    assert VariableIndex.IndexTimes(before, v, false, 0) == before;
  }

  function RealVariable(name: string, causality: string): VariableIndex.ScalarVariable {
    VariableIndex.ScalarVariable(name, "0", causality, None, [VariableIndex.Element("Real")])
  }

  /** An input `u` and an output `y` with reference 0 get two cells. */
  lemma {:induction false} TwoVariables()
    ensures var f := VariableIndex.FillAll([RealVariable("u", "input"), RealVariable("y", "output")], false);
            f.input == map["0" := 0] && f.output == map["0" := 1]
  {
    var u, y := RealVariable("u", "input"), RealVariable("y", "output");
    assert [VariableIndex.Element("Real")][1..] == [];
    FillNext([], u);
    FillNext([u], y);
    assert [] + [u] == [u] && [u] + [y] == [u, y];
  }

  const INPUT_IS_OUTPUT: Cells := Cells(map["0" := 0], map["0" := 1])

  /** Such indexes come from a model description, have different cells for different references, and can agree
      with the map. Reference 0 is an input; setting it still makes the two paths read different values. */
  lemma {:induction false} BothCausalitiesDisagree()
    ensures var f := VariableIndex.FillAll([RealVariable("u", "input"), RealVariable("y", "output")], false);
            Cells(f.input, f.output) == INPUT_IS_OUTPUT
    ensures var c, x, cells := ZeroOrOne(), INPUT_IS_OUTPUT, map[0 := 0.0, 1 := 0.0];
            && Fits(c, 1.0) && CellsOk(x) && Agree(c, x, {0}, 48, Zeros(), cells) && VrefKey(0) in x.input
            && !Agree(c, x, {0}, 48, DirectSetOne(c, Zeros(), 48, 0, 1.0), SetOne(x.input, cells, 0, 1.0))
            && DirectGet(c, DirectSetOne(c, Zeros(), 48, 0, 1.0), 48, 0, 0.0) == 1.0
            && GetOne(x.input, x.output, SetOne(x.input, cells, 0, 1.0), 0, 1.0) == 0.0
  {
    TwoVariables();
    var c, x, cells := ZeroOrOne(), INPUT_IS_OUTPUT, map[0 := 0.0, 1 := 0.0];
    TwoConversions();
    ZeroSlot(0);
    assert VrefKey(0) == "0";
    assert AgreeAt(c, x, Zeros(), cells, 0);
    WriteKeepsAgreement(c, x, {0}, 48, Zeros(), cells, 0, 1.0);
  }

  /** The same reference with one cell for both causalities, as the index of dse/fmimodelc/runtime.c:168-194
      has it: there every setting keeps the two paths in agreement. */
  lemma {:induction false} SharedCellAgrees(c: Doubles, x: Cells, slots: set<nat>, size: nat, mem: seq<byte>,
      cells: Memory, v: nat, d: real)
    requires Fits(c, d) && CellsOk(x) && Agree(c, x, slots, size, mem, cells) && v in slots
    requires KeyApart(slots, v)
    requires VrefKey(v) in x.input && VrefKey(v) in x.output && x.input[VrefKey(v)] == x.output[VrefKey(v)]
    ensures Agree(c, x, slots, size, DirectSetOne(c, mem, size, v, d), SetOne(x.input, cells, v, d))
  {
    OwnCellOfInput(x, slots, size, v);
    WriteKeepsAgreement(c, x, slots, size, mem, cells, v, d);
  }
}
