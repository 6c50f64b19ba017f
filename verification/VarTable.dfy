/** The variable table: registration, mirroring around each step, and the scalar access of the hashmap
    path (dse/fmu/signal.c:102-196, dse/fmu/fmi2fmu.c:289-305, 421-431, 553-567), with the counter FMU
    (dse/examples/fmu/counter/counter.c) as the model that is stepped. */
module VarTable {
  import opened Decimal
  import opened Wrappers

  /** Storage of doubles, by address. Address 0 is NULL. */
  type Memory = map<nat, real>

  /** FmuVarTableMarshalItem: address of the table slot and of the signal. */
  datatype Item = Item(variable: nat, signal: nat)

  const TERMINATOR: Item := Item(0, 0)

  /** Table slots and signals are separate storage, and each is registered once. */
  ghost predicate Distinct(items: seq<Item>, mem: Memory) {
    && (forall i :: 0 <= i < |items| ==> items[i].variable in mem && items[i].signal in mem)
    && (forall i, j :: 0 <= i < j < |items| ==> items[i].variable != items[j].variable)
    && (forall i, j :: 0 <= i < j < |items| ==> items[i].signal != items[j].signal)
    && (forall i, j :: 0 <= i < |items| && 0 <= j < |items| ==> items[i].variable != items[j].signal)
  }

  /** Marshalling the signals to the table, in list order. */
  ghost function ToTable(items: seq<Item>, mem: Memory): Memory {
    if items == [] then mem
    else
      var m := ToTable(items[..|items| - 1], mem);
      var mi := items[|items| - 1];
      if mi.signal in m then m[mi.variable := m[mi.signal]] else m
  }

  /** Marshalling the table back to the signals, in list order. */
  ghost function ToSignals(items: seq<Item>, mem: Memory): Memory {
    if items == [] then mem
    else
      var m := ToSignals(items[..|items| - 1], mem);
      var mi := items[|items| - 1];
      if mi.variable in m then m[mi.signal := m[mi.variable]] else m
  }

  lemma {:induction false} ToTableNext(items: seq<Item>, mem: Memory, n: nat)
    requires n < |items|
    ensures var m := ToTable(items[..n], mem);
            ToTable(items[..n + 1], mem)
            == if items[n].signal in m then m[items[n].variable := m[items[n].signal]] else m
  {
    assert items[..n + 1][..n] == items[..n];
  }

  lemma {:induction false} ToSignalsNext(items: seq<Item>, mem: Memory, n: nat)
    requires n < |items|
    ensures var m := ToSignals(items[..n], mem);
            ToSignals(items[..n + 1], mem)
            == if items[n].variable in m then m[items[n].signal := m[items[n].variable]] else m
  {
    assert items[..n + 1][..n] == items[..n];
  }

  ghost function Stepped(items: seq<Item>, model: Memory -> Memory, mem: Memory): Memory {
    ToSignals(items, model(ToTable(items, mem)))
  }

  lemma {:induction false} ToTableElsewhere(items: seq<Item>, mem: Memory, a: nat)
    requires a in mem && forall i :: 0 <= i < |items| ==> items[i].variable != a
    ensures a in ToTable(items, mem) && ToTable(items, mem)[a] == mem[a]
  {
    if items != [] {
      ToTableElsewhere(items[..|items| - 1], mem, a);
    }
  }

  lemma {:induction false} ToSignalsElsewhere(items: seq<Item>, mem: Memory, a: nat)
    requires a in mem && forall i :: 0 <= i < |items| ==> items[i].signal != a
    ensures a in ToSignals(items, mem) && ToSignals(items, mem)[a] == mem[a]
  {
    if items != [] {
      ToSignalsElsewhere(items[..|items| - 1], mem, a);
    }
  }

  /** At the step, every table slot holds the value of its signal, and the signals are untouched. */
  lemma {:induction false} StepSeesSignals(items: seq<Item>, mem: Memory, i: nat)
    requires Distinct(items, mem) && i < |items|
    ensures items[i].variable in ToTable(items, mem) && ToTable(items, mem)[items[i].variable] == mem[items[i].signal]
  {
    var n := |items| - 1;
    if i < n {
      StepSeesSignals(items[..n], mem, i);
    }
    ToTableElsewhere(items[..n], mem, items[n].signal);
  }

  /** After the step, every signal holds what the model left in its table slot. */
  lemma {:induction false} SignalsTakeResults(items: seq<Item>, mem: Memory, i: nat)
    requires Distinct(items, mem) && i < |items|
    ensures items[i].signal in ToSignals(items, mem) && ToSignals(items, mem)[items[i].signal] == mem[items[i].variable]
  {
    var n := |items| - 1;
    if i < n {
      SignalsTakeResults(items[..n], mem, i);
    }
    ToSignalsElsewhere(items[..n], mem, items[n].variable);
  }

  // ----- scalar access -----

  /** fmi2SetReal through the hashmap: only inputs are written. */
  ghost function SetReals(input: map<string, nat>, mem: Memory, vrs: seq<nat>, values: seq<real>): Memory
    requires |vrs| == |values| && Vrefs(vrs)
  {
    if vrs == [] then mem
    else
      var n := |vrs| - 1;
      assert IsVref(vrs[n]);
      SetOne(input, SetReals(input, mem, vrs[..n], values[..n]), vrs[n], values[n])
  }

  function SetOne(input: map<string, nat>, mem: Memory, vr: nat, value: real): Memory
    requires IsVref(vr)
  {
    var key := VrefKey(vr);
    if key in input then mem[input[key] := value] else mem
  }

  /** fmi2GetReal through the hashmap, for one reference: its output, else its input, else what the
      caller's storage held. */
  function GetOne(input: map<string, nat>, output: map<string, nat>, mem: Memory, vr: nat, otherwise: real): real
    requires IsVref(vr)
  {
    var key := VrefKey(vr);
    if key in output && output[key] in mem then mem[output[key]]
    else if key in input && input[key] in mem then mem[input[key]]
    else otherwise
  }

  /** The last value a list of settings gives to an address, or the value before. */
  ghost function LastSet(input: map<string, nat>, before: real, vrs: seq<nat>, values: seq<real>, a: nat): real
    requires |vrs| == |values| && Vrefs(vrs)
  {
    if vrs == [] then before
    else
      var n := |vrs| - 1;
      assert IsVref(vrs[n]);
      var key := VrefKey(vrs[n]);
      if key in input && input[key] == a then values[n] else LastSet(input, before, vrs[..n], values[..n], a)
  }

  /** Entry `k` of a SetReal call is for the input at this address. */
  ghost predicate SetsAt(input: map<string, nat>, vrs: seq<nat>, a: nat, k: nat) {
    k < |vrs| && IsVref(vrs[k]) && VrefKey(vrs[k]) in input && input[VrefKey(vrs[k])] == a
  }

  /** The last value is that of the last entry for the address, or the value before when there is none. */
  lemma {:induction false} LastSetPosition(input: map<string, nat>, before: real, vrs: seq<nat>, values: seq<real>,
      a: nat)
    returns (found: bool, k: nat)
    requires |vrs| == |values| && Vrefs(vrs)
    ensures if found then SetsAt(input, vrs, a, k) && LastSet(input, before, vrs, values, a) == values[k]
            else LastSet(input, before, vrs, values, a) == before
    ensures forall j: nat :: (found ==> j > k) ==> !SetsAt(input, vrs, a, j)
  {
    found, k := false, 0;
    if vrs != [] {
      var n := |vrs| - 1;
      assert IsVref(vrs[n]);
      if SetsAt(input, vrs, a, n) {
        found, k := true, n;
      } else {
        found, k := LastSetPosition(input, before, vrs[..n], values[..n], a);
        forall j: nat | found ==> j > k
          ensures !SetsAt(input, vrs, a, j)
        {
          assert !SetsAt(input, vrs[..n], a, j);
        }
      }
    }
  }

  lemma {:induction false} SetRealsKeepsLast(input: map<string, nat>, mem: Memory, vrs: seq<nat>, values: seq<real>,
      a: nat)
    requires |vrs| == |values| && Vrefs(vrs)
    requires a in mem
    ensures a in SetReals(input, mem, vrs, values)
    ensures SetReals(input, mem, vrs, values)[a] == LastSet(input, mem[a], vrs, values, a)
  {
    if vrs != [] {
      var n := |vrs| - 1;
      SetRealsKeepsLast(input, mem, vrs[..n], values[..n], a);
    }
  }

  /** What fmu_register_var is documented to return (dse/fmu/signal.c:98-100). */
  function DocumentedStart(configured: Option<real>): real {
    if configured.Some? then configured.value else 0.0
  }

  /** The FMU instance, as far as its scalar variables are concerned. */
  class FmuInstance {
    const input: map<string, nat>
    const output: map<string, nat>
    var mem: Memory
    var varList: seq<Item>
    /** Null-terminated; empty stands for a list that was never made. */
    var marshalList: seq<Item>
    var table: nat

    /** Indexed signals have storage, which is never at NULL. */
    ghost predicate Valid()
      reads this
    {
      && (forall k :: k in input ==> input[k] in mem && input[k] != 0)
      && (forall k :: k in output ==> output[k] in mem && output[k] != 0)
      && (forall i :: 0 <= i < |varList| ==> varList[i].signal != 0)
    }

    constructor (input: map<string, nat>, output: map<string, nat>, mem: Memory)
      requires forall k :: k in input ==> input[k] in mem && input[k] != 0
      requires forall k :: k in output ==> output[k] in mem && output[k] != 0
      ensures Valid() && this.input == input && this.output == output && this.mem == mem
      ensures varList == [] && marshalList == []
    {
      this.input, this.output, this.mem := input, output, mem;
      varList, marshalList, table := [], [], 0;
    }

    /** fmu_register_var: records the offset with the signal of that direction, if it is indexed. The
        result is the documented one exactly when no start value other than 0 is configured. */
    method RegisterVar(vref: nat, isInput: bool, offset: nat, ghost configured: Option<real>) returns (start: real)
      requires Valid() && IsVref(vref)
      modifies this`varList
      ensures Valid() && start == 0.0
      ensures start == DocumentedStart(configured) <==> configured == None || configured == Some(0.0)
      ensures var index := if isInput then input else output;
              varList == if VrefKey(vref) in index then old(varList) + [Item(offset, index[VrefKey(vref)])]
                         else old(varList)
    {
      start := 0.0;
      var key := VrefKey(vref);
      var signal := 0;
      if isInput {
        if key in input { signal := input[key]; }
      } else {
        if key in output { signal := output[key]; }
      }
      if signal == 0 {
        return;
      }
      varList := varList + [Item(offset, signal)];
    }

    /** fmu_register_var_table: copies the list and turns offsets into addresses. The loop ends at the
        first item without a signal, so a variable at offset 0 does not end it. */
    method RegisterVarTable(base: nat)
      requires Valid() && base > 0
      modifies this`marshalList, this`table
      ensures Valid() && table == base
      ensures marshalList == AtBase(varList, base) + [TERMINATOR]
    {
      table := base;
      marshalList := varList + [TERMINATOR];
      var n := 0;
      while n < |marshalList| && marshalList[n].signal != 0
        invariant table == base && n <= |varList| && |marshalList| == |varList| + 1
        invariant forall i :: 0 <= i < n ==> marshalList[i] == Item(base + varList[i].variable, varList[i].signal)
        invariant forall i :: n <= i < |varList| ==> marshalList[i] == varList[i]
        invariant marshalList[|varList|] == TERMINATOR
        decreases |marshalList| - n
      {
        var mi := marshalList[n];
        marshalList := marshalList[n := mi.(variable := base + mi.variable)];
        n := n + 1;
      }
    }

    /** fmu_create of the counter FMU: reference 1, an output, at offset 0 of the table. */
    method CreateCounter(base: nat)
      requires Valid() && varList == [] && base > 0
      modifies this`varList, this`marshalList, this`table
      ensures Valid()
      ensures marshalList == (if VrefKey(1) in output then [Item(base, output[VrefKey(1)])] else []) + [TERMINATOR]
    {
      var _ := RegisterVar(1, false, 0, None);
      RegisterVarTable(base);
    }

    /** fmi2DoStep: mirrors to the table, steps, mirrors back. Both loops end at the first NULL variable;
        that is the terminator, so every registered variable is covered. Without a variable table there is
        no list, and only the step is left. */
    method DoStep(ghost items: seq<Item>, model: Memory -> Memory)
      requires marshalList == items + [TERMINATOR] || (marshalList == [] && items == [])
      requires forall i :: 0 <= i < |items| ==> items[i].variable != 0
      requires forall i :: 0 <= i < |items| ==> items[i].variable in mem && items[i].signal in mem
      requires forall m: Memory :: mem.Keys <= m.Keys ==> mem.Keys <= model(m).Keys
      modifies this`mem
      ensures mem == Stepped(items, model, old(mem))
      ensures old(mem).Keys <= mem.Keys
    {
      var n := 0;
      assert items[..0] == [];
      while n < |marshalList| && marshalList[n].variable != 0
        invariant n <= |items| && old(mem).Keys <= mem.Keys
        invariant mem == ToTable(items[..n], old(mem))
      {
        var mi := marshalList[n];
        ToTableNext(items, old(mem), n);
        mem := mem[mi.variable := mem[mi.signal]];
        n := n + 1;
      }
      assert items[..|items|] == items;
      mem := model(mem);
      ghost var stepped := mem;
      n := 0;
      while n < |marshalList| && marshalList[n].variable != 0
        invariant n <= |items| && old(mem).Keys <= mem.Keys
        invariant mem == ToSignals(items[..n], stepped)
      {
        var mi := marshalList[n];
        ToSignalsNext(items, stepped, n);
        mem := mem[mi.signal := mem[mi.variable]];
        n := n + 1;
      }
      assert items[..|items|] == items;
    }

    /** fmi2SetReal, hashmap path. */
    method SetReal(vr: seq<nat>, value: seq<real>)
      requires Valid() && |vr| == |value| && Vrefs(vr)
      modifies this`mem
      ensures Valid() && mem == SetReals(input, old(mem), vr, value)
    {
      for k := 0 to |vr|
        invariant Valid()
        invariant mem == SetReals(input, old(mem), vr[..k], value[..k])
      {
        assert vr[..k + 1][..k] == vr[..k] && value[..k + 1][..k] == value[..k];
        var key := VrefKey(vr[k]);
        if key in input {
          mem := mem[input[key] := value[k]];
        }
      }
      assert vr[..|vr|] == vr && value[..|value|] == value;
    }

    /** fmi2GetReal, hashmap path: outputs first, then inputs; other entries of `value` are left alone. */
    method GetReal(vr: seq<nat>, value: seq<real>) returns (out: seq<real>)
      requires Valid() && |vr| == |value| && Vrefs(vr)
      ensures |out| == |vr|
      ensures forall k :: 0 <= k < |vr| ==> out[k] == GetOne(input, output, mem, vr[k], value[k])
    {
      out := value;
      for k := 0 to |vr|
        invariant |out| == |vr|
        invariant forall j :: 0 <= j < k ==> out[j] == GetOne(input, output, mem, vr[j], value[j])
        invariant forall j :: k <= j < |vr| ==> out[j] == value[j]
      {
        var key := VrefKey(vr[k]);
        if key in output {
          out := out[k := mem[output[key]]];
        } else if key in input {
          out := out[k := mem[input[key]]];
        }
      }
    }
  }

  /** A variable with start value 1: its registration returns 0. */
  method StartValueIgnored(fmu: FmuInstance, vref: nat, offset: nat) returns (start: real)
    requires fmu.Valid() && IsVref(vref)
    modifies fmu
    ensures start == 0.0 != DocumentedStart(Some(1.0))
  {
    start := fmu.RegisterVar(vref, true, offset, Some(1.0));
  }

  /** The registered items with table addresses instead of offsets. */
  ghost function AtBase(items: seq<Item>, base: nat): (r: seq<Item>)
    ensures |r| == |items|
    ensures forall i :: 0 <= i < |r| ==> r[i] == Item(base + items[i].variable, items[i].signal)
  {
    seq(|items|, i requires 0 <= i < |items| => Item(base + items[i].variable, items[i].signal))
  }

  // ----- whole runs -----

  datatype Call = Set(vrs: seq<nat>, values: seq<real>) | Get(vrs: seq<nat>) | Step

  ghost predicate WellFormed(call: Call) {
    match call
    case Set(vrs, values) => |vrs| == |values| && Vrefs(vrs)
    case Get(vrs) => Vrefs(vrs)
    case Step => true
  }

  ghost function Run(input: map<string, nat>, items: seq<Item>, model: Memory -> Memory, mem: Memory,
      calls: seq<Call>): Memory
    requires forall k :: 0 <= k < |calls| ==> WellFormed(calls[k])
  {
    if calls == [] then mem
    else
      var n := |calls| - 1;
      var m := Run(input, items, model, mem, calls[..n]);
      assert WellFormed(calls[n]);
      match calls[n]
      case Set(vrs, values) => SetReals(input, m, vrs, values)
      case Get(_) => m
      case Step => Stepped(items, model, m)
  }

  /** A model step keeps all storage that an instance has. */
  ghost predicate KeepsStorage(model: Memory -> Memory) {
    forall m: Memory :: m.Keys <= model(m).Keys
  }

  /** The value of registered item `i` by the history of the run: the last one set since the last step,
      else the one that step left in the table slot, else the value at the start. */
  ghost function Held(input: map<string, nat>, items: seq<Item>, model: Memory -> Memory, mem: Memory, calls: seq<Call>,
      i: nat): real
    requires Distinct(items, mem) && i < |items| && KeepsStorage(model)
    requires forall k :: 0 <= k < |calls| ==> WellFormed(calls[k])
  {
    if calls == [] then mem[items[i].signal]
    else
      var earlier, last := calls[..|calls| - 1], calls[|calls| - 1];
      assert WellFormed(last);
      match last
      case Set(vrs, values) =>
        LastSet(input, Held(input, items, model, mem, earlier, i), vrs, values, items[i].signal)
      case Get(_) => Held(input, items, model, mem, earlier, i)
      case Step => LeftByStep(items, model, Run(input, items, model, mem, earlier), i)
  }

  /** What a step taken in this state leaves in the table slot of item `i`. */
  ghost function LeftByStep(items: seq<Item>, model: Memory -> Memory, mem: Memory, i: nat): real
    requires i < |items|
  {
    var left := model(ToTable(items, mem));
    if items[i].variable in left then left[items[i].variable] else 0.0
  }

  lemma {:induction false} ToTableKeeps(items: seq<Item>, mem: Memory)
    ensures mem.Keys <= ToTable(items, mem).Keys
  {
    if items != [] {
      ToTableKeeps(items[..|items| - 1], mem);
    }
  }

  lemma {:induction false} ToSignalsKeeps(items: seq<Item>, mem: Memory)
    ensures mem.Keys <= ToSignals(items, mem).Keys
  {
    if items != [] {
      ToSignalsKeeps(items[..|items| - 1], mem);
    }
  }

  lemma {:induction false} SetRealsKeeps(input: map<string, nat>, mem: Memory, vrs: seq<nat>, values: seq<real>)
    requires |vrs| == |values| && Vrefs(vrs)
    ensures mem.Keys <= SetReals(input, mem, vrs, values).Keys
  {
    if vrs != [] {
      SetRealsKeeps(input, mem, vrs[..|vrs| - 1], values[..|vrs| - 1]);
    }
  }

  lemma {:induction false} SteppedKeeps(items: seq<Item>, model: Memory -> Memory, mem: Memory)
    requires KeepsStorage(model)
    ensures mem.Keys <= Stepped(items, model, mem).Keys
  {
    ToTableKeeps(items, mem);
    ToSignalsKeeps(items, model(ToTable(items, mem)));
  }

  lemma {:induction false} StepLeaves(items: seq<Item>, model: Memory -> Memory, mem: Memory, i: nat)
    requires Distinct(items, mem) && i < |items| && KeepsStorage(model)
    ensures items[i].signal in Stepped(items, model, mem)
    ensures Stepped(items, model, mem)[items[i].signal] == LeftByStep(items, model, mem, i)
  {
    var left := model(ToTable(items, mem));
    ToTableKeeps(items, mem);
    DistinctInLarger(items, mem, left);
    SignalsTakeResults(items, left, i);
  }

  lemma {:induction false} DistinctInLarger(items: seq<Item>, mem: Memory, larger: Memory)
    requires Distinct(items, mem) && mem.Keys <= larger.Keys
    ensures Distinct(items, larger)
  {
  }

  lemma {:induction false} RunKeeps(input: map<string, nat>, items: seq<Item>, model: Memory -> Memory, mem: Memory,
      calls: seq<Call>)
    requires KeepsStorage(model) && forall k :: 0 <= k < |calls| ==> WellFormed(calls[k])
    ensures mem.Keys <= Run(input, items, model, mem, calls).Keys
  {
    if calls != [] {
      var n := |calls| - 1;
      RunKeeps(input, items, model, mem, calls[..n]);
      var m := Run(input, items, model, mem, calls[..n]);
      assert WellFormed(calls[n]);
      match calls[n]
      case Set(vrs, values) => SetRealsKeeps(input, m, vrs, values);
      case Get(_) =>
      case Step => SteppedKeeps(items, model, m);
    }
  }

  /** In every run, however calls to set, get and step are mixed, the signal of a registered item holds the
      value of its history, and a step taken next sees that value in the table slot. */
  lemma {:induction false} StepSeesLastSet(input: map<string, nat>, items: seq<Item>, model: Memory -> Memory,
      mem: Memory, calls: seq<Call>, i: nat)
    requires Distinct(items, mem) && i < |items| && KeepsStorage(model)
    requires forall k :: 0 <= k < |calls| ==> WellFormed(calls[k])
    ensures var m := Run(input, items, model, mem, calls);
            && Distinct(items, m)
            && m[items[i].signal] == Held(input, items, model, mem, calls, i)
            && items[i].variable in ToTable(items, m)
            && ToTable(items, m)[items[i].variable] == Held(input, items, model, mem, calls, i)
  {
    var m := Run(input, items, model, mem, calls);
    RunKeeps(input, items, model, mem, calls);
    DistinctInLarger(items, mem, m);
    SignalHolds(input, items, model, mem, calls, i);
    StepSeesSignals(items, m, i);
  }

  lemma {:induction false} SignalHolds(input: map<string, nat>, items: seq<Item>, model: Memory -> Memory, mem: Memory,
      calls: seq<Call>, i: nat)
    requires Distinct(items, mem) && i < |items| && KeepsStorage(model)
    requires forall k :: 0 <= k < |calls| ==> WellFormed(calls[k])
    ensures items[i].signal in Run(input, items, model, mem, calls)
    ensures Run(input, items, model, mem, calls)[items[i].signal] == Held(input, items, model, mem, calls, i)
  {
    if calls != [] {
      var n := |calls| - 1;
      SignalHolds(input, items, model, mem, calls[..n], i);
      RunKeeps(input, items, model, mem, calls[..n]);
      var m := Run(input, items, model, mem, calls[..n]);
      DistinctInLarger(items, mem, m);
      assert WellFormed(calls[n]);
      match calls[n]
      case Set(vrs, values) => SetRealsKeepsLast(input, m, vrs, values, items[i].signal);
      case Get(_) =>
      case Step => StepLeaves(items, model, m, i);
    }
  }

  /** So a reading of a registered output gives, at any point of any run, what the latest step left in its
      table slot, unless the signal was set through an input since; and of a registered input that is no
      output, the value set last. */
  lemma {:induction false} ReadingGivesHeld(input: map<string, nat>, output: map<string, nat>, items: seq<Item>,
      model: Memory -> Memory, mem: Memory, calls: seq<Call>, i: nat, vr: nat, otherwise: real)
    requires Distinct(items, mem) && i < |items| && KeepsStorage(model) && IsVref(vr)
    requires forall k :: 0 <= k < |calls| ==> WellFormed(calls[k])
    requires var key := VrefKey(vr);
             if key in output then output[key] == items[i].signal else key in input && input[key] == items[i].signal
    ensures GetOne(input, output, Run(input, items, model, mem, calls), vr, otherwise)
            == Held(input, items, model, mem, calls, i)
    ensures calls != [] && calls[|calls| - 1].Step? ==>
              Held(input, items, model, mem, calls, i)
              == LeftByStep(items, model, Run(input, items, model, mem, calls[..|calls| - 1]), i)
  {
    SignalHolds(input, items, model, mem, calls, i);
  }

  // ----- registration -----

  /** A call of fmu_register_var. */
  datatype Registration = Registration(vref: nat, isInput: bool, offset: nat)

  ghost predicate Registrable(regs: seq<Registration>) {
    forall k :: 0 <= k < |regs| ==> IsVref(regs[k].vref)
  }

  /** The signal that a registration finds. */
  function SignalOf(input: map<string, nat>, output: map<string, nat>, r: Registration): (a: nat)
    requires IsVref(r.vref)
  {
    var index, key := if r.isInput then input else output, VrefKey(r.vref);
    if key in index then index[key] else 0
  }

  /** The variables registered, in order of registration. */
  ghost function Registered(input: map<string, nat>, output: map<string, nat>, regs: seq<Registration>): seq<Item>
    requires Registrable(regs)
  {
    if regs == [] then []
    else
      var n := |regs| - 1;
      assert IsVref(regs[n].vref);
      var signal := SignalOf(input, output, regs[n]);
      Registered(input, output, regs[..n]) + (if signal != 0 then [Item(regs[n].offset, signal)] else [])
  }

  /** Different registrations concern different variables of the table, and different references in the sense
      of what the keys keep of them. */
  ghost predicate DifferentRegistrations(regs: seq<Registration>) {
    forall i, j :: 0 <= i < j < |regs| ==>
      && regs[i].offset != regs[j].offset && IsVref(regs[i].vref) && IsVref(regs[j].vref)
      && (regs[i].isInput != regs[j].isInput || KeyClass(regs[i].vref) != KeyClass(regs[j].vref))
  }

  /** Every indexed reference has a signal of its own, in storage and not at NULL; this is how the indexes are
      built from a model description. */
  ghost predicate OwnSignals(input: map<string, nat>, output: map<string, nat>, mem: Memory) {
    && (forall k :: k in input ==> input[k] in mem && input[k] != 0)
    && (forall k :: k in output ==> output[k] in mem && output[k] != 0)
    && (forall a, b :: a in input && b in input && input[a] == input[b] ==> a == b)
    && (forall a, b :: a in output && b in output && output[a] == output[b] ==> a == b)
    && (forall a, b :: a in input && b in output ==> input[a] != output[b])
  }

  /** The table variables of the registrations are in storage, apart from all signals. */
  ghost predicate TableApart(input: map<string, nat>, output: map<string, nat>, mem: Memory, base: nat,
      regs: seq<Registration>)
  {
    forall i :: 0 <= i < |regs| ==>
      var a := base + regs[i].offset;
      a in mem && (forall k :: k in input ==> input[k] != a) && (forall k :: k in output ==> output[k] != a)
  }

  /** Where a registered item comes from. */
  lemma {:induction false} Origin(input: map<string, nat>, output: map<string, nat>, regs: seq<Registration>, i: nat)
    returns (k: nat)
    requires Registrable(regs) && i < |Registered(input, output, regs)|
    ensures k < |regs| && IsVref(regs[k].vref) && i <= k
    ensures var item := Registered(input, output, regs)[i];
            item.variable == regs[k].offset && item.signal == SignalOf(input, output, regs[k]) != 0
    ensures i == |Registered(input, output, regs[..k])|
  {
    var n := |regs| - 1;
    assert IsVref(regs[n].vref);
    if i < |Registered(input, output, regs[..n])| {
      k := Origin(input, output, regs[..n], i);
      assert regs[..n][..k] == regs[..k];
    } else {
      k := n;
      RegisteredLength(input, output, regs[..n]);
    }
  }

  lemma {:induction false} RegisteredLength(input: map<string, nat>, output: map<string, nat>, regs: seq<Registration>)
    requires Registrable(regs)
    ensures |Registered(input, output, regs)| <= |regs|
  {
    if regs != [] {
      RegisteredLength(input, output, regs[..|regs| - 1]);
    }
  }

  lemma {:induction false} DifferentSignals(input: map<string, nat>, output: map<string, nat>, mem: Memory,
      r: Registration, t: Registration)
    requires OwnSignals(input, output, mem) && IsVref(r.vref) && IsVref(t.vref)
    requires r.isInput != t.isInput || KeyClass(r.vref) != KeyClass(t.vref)
    requires SignalOf(input, output, r) != 0 && SignalOf(input, output, t) != 0
    ensures SignalOf(input, output, r) != SignalOf(input, output, t)
  {
    VrefKeysCollide(r.vref, t.vref);
  }

  lemma {:induction false} ItemsDiffer(input: map<string, nat>, output: map<string, nat>, mem: Memory,
      regs: seq<Registration>, i: nat, j: nat)
    requires Registrable(regs) && DifferentRegistrations(regs) && OwnSignals(input, output, mem)
    requires i < j < |Registered(input, output, regs)|
    ensures var a, b := Registered(input, output, regs)[i], Registered(input, output, regs)[j];
            a.variable != b.variable && a.signal != b.signal
  {
    var k := Origin(input, output, regs, i);
    var m := Origin(input, output, regs, j);
    assert k != m;
    if k < m {
      DifferentSignals(input, output, mem, regs[k], regs[m]);
    } else {
      DifferentSignals(input, output, mem, regs[m], regs[k]);
    }
  }

  lemma {:induction false} ItemStored(input: map<string, nat>, output: map<string, nat>, mem: Memory, base: nat,
      regs: seq<Registration>, i: nat)
    requires Registrable(regs) && OwnSignals(input, output, mem) && TableApart(input, output, mem, base, regs)
    requires i < |Registered(input, output, regs)|
    ensures var item := Registered(input, output, regs)[i];
            && base + item.variable in mem && item.signal in mem
            && (forall k :: k in input ==> input[k] != base + item.variable)
            && (forall k :: k in output ==> output[k] != base + item.variable)
            && (|| (exists k :: k in input && input[k] == item.signal)
                || (exists k :: k in output && output[k] == item.signal))
  {
    var k := Origin(input, output, regs, i);
    assert base + regs[k].offset in mem;
  }

  /** Registering different variables makes a list on which every statement about runs holds: table variables
      and signals in storage, pairwise different and apart from each other. */
  lemma {:induction false} RegisteredAreDistinct(input: map<string, nat>, output: map<string, nat>, mem: Memory,
      base: nat, regs: seq<Registration>)
    requires Registrable(regs) && DifferentRegistrations(regs)
    requires OwnSignals(input, output, mem) && TableApart(input, output, mem, base, regs)
    ensures Distinct(AtBase(Registered(input, output, regs), base), mem)
  {
    var items := AtBase(Registered(input, output, regs), base);
    forall i | 0 <= i < |items|
      ensures items[i].variable in mem && items[i].signal in mem
    {
      ItemStored(input, output, mem, base, regs, i);
    }
    forall i, j | 0 <= i < j < |items|
      ensures items[i].variable != items[j].variable && items[i].signal != items[j].signal
    {
      ItemsDiffer(input, output, mem, regs, i, j);
    }
    forall i, j | 0 <= i < |items| && 0 <= j < |items|
      ensures items[i].variable != items[j].signal
    {
      ItemStored(input, output, mem, base, regs, i);
      ItemStored(input, output, mem, base, regs, j);
    }
  }

  /** The fmu_create of an FMU with a variable table. */
  method RegisterAll(fmu: FmuInstance, regs: seq<Registration>, base: nat)
    requires fmu.Valid() && fmu.varList == [] && Registrable(regs) && base > 0
    modifies fmu`varList, fmu`marshalList, fmu`table
    ensures fmu.Valid()
    ensures fmu.marshalList == AtBase(Registered(fmu.input, fmu.output, regs), base) + [TERMINATOR]
  {
    for k := 0 to |regs|
      invariant fmu.Valid() && fmu.varList == Registered(fmu.input, fmu.output, regs[..k])
    {
      assert regs[..k + 1][..k] == regs[..k] && IsVref(regs[k].vref);
      var _ := fmu.RegisterVar(regs[k].vref, regs[k].isInput, regs[k].offset, None);
    }
    assert regs[..|regs|] == regs;
    fmu.RegisterVarTable(base);
  }

  /** An FMU from its registrations to the end of a step: the list made by the registrations is the one stepped
      on, and it meets the condition of the statements about runs. */
  method RegisterAndStep(fmu: FmuInstance, regs: seq<Registration>, base: nat, model: Memory -> Memory)
    requires fmu.Valid() && fmu.varList == [] && Registrable(regs) && base > 0
    requires DifferentRegistrations(regs) && KeepsStorage(model)
    requires OwnSignals(fmu.input, fmu.output, fmu.mem) && TableApart(fmu.input, fmu.output, fmu.mem, base, regs)
    modifies fmu
    ensures var items := AtBase(Registered(fmu.input, fmu.output, regs), base);
            && Distinct(items, old(fmu.mem))
            && fmu.mem == Run(fmu.input, items, model, old(fmu.mem), [Step])
            && forall i :: 0 <= i < |items| ==>
                 items[i].signal in fmu.mem && fmu.mem[items[i].signal] == LeftByStep(items, model, old(fmu.mem), i)
  {
    RegisterAll(fmu, regs, base);
    ghost var items := AtBase(Registered(fmu.input, fmu.output, regs), base);
    RegisteredAreDistinct(fmu.input, fmu.output, fmu.mem, base, regs);
    ghost var before := fmu.mem;
    fmu.DoStep(items, model);
    assert [Step][..0] == [];
    forall i | 0 <= i < |items|
      ensures items[i].signal in fmu.mem && fmu.mem[items[i].signal] == LeftByStep(items, model, before, i)
    {
      StepLeaves(items, model, before, i);
    }
  }

  // ----- the counter FMU over whole runs -----

  /** The step of the counter FMU: one more in the table slot at offset 0. */
  function CounterStep(base: nat): Memory -> Memory {
    (m: Memory) => if base in m then m[base := m[base] + 1.0] else m
  }

  function Steps(calls: seq<Call>): nat {
    if calls == [] then 0 else Steps(calls[..|calls| - 1]) + (if calls[|calls| - 1].Step? then 1 else 0)
  }

  /** One step of the counter adds one to its output signal. */
  lemma {:induction false} CounterAddsOne(base: nat, signal: nat, mem: Memory)
    requires base in mem && signal in mem && base != signal
    ensures var after := Stepped([Item(base, signal)], CounterStep(base), mem);
            base in after && signal in after && after[signal] == mem[signal] + 1.0
  {
    var items := [Item(base, signal)];
    assert items[..0] == [];
    StepSeesSignals(items, mem, 0);
    var seen := ToTable(items, mem);
    ToTableElsewhere(items, mem, signal);
    var left := CounterStep(base)(seen);
    SignalsTakeResults(items, left, 0);
    ToSignalsElsewhere(items, left, base);
  }

  /** In any run, whatever is set and read in between, the counter's output has grown by the number of
      steps taken; it can only be disturbed by an input that shares its signal. */
  lemma {:induction false} CounterCountsSteps(input: map<string, nat>, base: nat, signal: nat, mem: Memory,
      calls: seq<Call>)
    requires base in mem && signal in mem && base != signal
    requires forall k :: k in input ==> input[k] != signal && input[k] != base
    requires forall k :: 0 <= k < |calls| ==> WellFormed(calls[k])
    ensures var m := Run(input, [Item(base, signal)], CounterStep(base), mem, calls);
            base in m && signal in m && m[signal] == mem[signal] + Steps(calls) as real
  {
    if calls != [] {
      var n := |calls| - 1;
      CounterCountsSteps(input, base, signal, mem, calls[..n]);
      var m := Run(input, [Item(base, signal)], CounterStep(base), mem, calls[..n]);
      match calls[n]
      case Set(vrs, values) =>
        SetRealsElsewhere(input, m, vrs, values, signal);
        SetRealsElsewhere(input, m, vrs, values, base);
      case Get(_) =>
      case Step =>
        CounterAddsOne(base, signal, m);
    }
  }

  lemma {:induction false} SetRealsElsewhere(input: map<string, nat>, mem: Memory, vrs: seq<nat>, values: seq<real>,
      a: nat)
    requires |vrs| == |values| && Vrefs(vrs)
    requires a in mem && forall k :: k in input ==> input[k] != a
    ensures a in SetReals(input, mem, vrs, values) && SetReals(input, mem, vrs, values)[a] == mem[a]
  {
    if vrs != [] {
      SetRealsElsewhere(input, mem, vrs[..|vrs| - 1], values[..|vrs| - 1], a);
    }
  }
}
