/** Moving values between the source vector and the FMU, group by group
    (dse/fmimcl/adapter/fmi2mcl.c, dse/fmimcl/engine.c:40-59). */
module MclAdapter {
  import opened Wrappers
  import opened MarshalSignals
  import opened MarshalSort
  import opened MarshalTable

  const EBADMSG: int := 74

  /** The value conversions of the marshal library, by type and by whether the entry has encoder
      functions. Nothing is assumed about them. */
  datatype Conversions<!S, !T> = Conversions(toTarget: (nat, bool, S) -> T, toSource: (nat, bool, T) -> S)

  /** What an FMI get or set call did: its status, and, when that signals an error, the positions
      of the reference list it had handled. */
  datatype FmiCall = FmiCall(rc: int, done: set<nat>)

  /** An FMU variable is identified by its type and value reference. */
  type Variable = (nat, nat)

  predicate TxCapable(dir: nat) {
    dir == DIR_TXRX || dir == DIR_TXONLY || dir == DIR_PARAMETER
  }

  predicate RxCapable(dir: nat) {
    dir == DIR_TXRX || dir == DIR_RXONLY || dir == DIR_LOCAL
  }

  /** The types for which the adapter has an FMI call. */
  predicate Transferable(typ: nat) {
    typ == TYPE_DOUBLE || typ == TYPE_INT32 || typ == TYPE_BOOL || typ == TYPE_STRING
  }

  predicate Sends(s: Signal) {
    TxCapable(s.dir) && Transferable(s.typ)
  }

  predicate Receives(s: Signal) {
    RxCapable(s.dir) && Transferable(s.typ)
  }

  function VariableOf(s: Signal): Variable {
    (s.typ, s.vref)
  }

  /** What the annotations of a variable mean for its traffic: inputs and parameters are only sent, outputs
      and locals only received, variables without causality go both ways; other causalities, and
      variables without a known type, not at all. */
  lemma {:induction false} CausalityDecidesTraffic(name: string, vref: nat, typ: Option<string>,
      causality: Option<string>, encoding: Option<string>)
    ensures var s := DecodeSignal(name, vref, typ, causality, encoding);
            var known := typ in {Some("Real"), Some("Integer"), Some("Boolean"), Some("String")};
            && (Sends(s) <==> known && causality in {None, Some("inout"), Some("input"), Some("parameter")})
            && (Receives(s) <==> known && causality in {None, Some("inout"), Some("output"), Some("local")})
            && (HasEncoder(s) <==> typ == Some("String") && encoding == Some("ascii85"))
  {
  }

  // ----- moving each signal on its own -----

  /** One signal sent on its own; an FMU ignores references it does not have. */
  function PutSignal<S, T>(conv: Conversions<S, T>, s: Signal, x: S, vars: map<Variable, T>): map<Variable, T> {
    if Sends(s) && VariableOf(s) in vars then vars[VariableOf(s) := conv.toTarget(s.typ, HasEncoder(s), x)] else vars
  }

  /** All signals sent one at a time, in list order. */
  function PutEach<S, T>(conv: Conversions<S, T>, signals: seq<Signal>, source: seq<S>, vars: map<Variable, T>)
    : (r: map<Variable, T>)
    requires |signals| <= |source|
    ensures r.Keys == vars.Keys
  {
    if signals == [] then vars
    else
      var n := |signals| - 1;
      PutSignal(conv, signals[n], source[n], PutEach(conv, signals[..n], source, vars))
  }

  // ----- the bulk calls -----

  predicate Handles(call: FmiCall, position: nat) {
    call.rc <= 0 || position in call.done
  }

  /** fmi2Set<Type>: writes the handled positions in order. */
  function SetRefs<T>(typ: nat, refs: seq<nat>, values: seq<T>, call: FmiCall, vars: map<Variable, T>)
    : (r: map<Variable, T>)
    requires |refs| <= |values|
    ensures r.Keys == vars.Keys
  {
    if refs == [] then vars
    else
      var n := |refs| - 1;
      var m := SetRefs(typ, refs[..n], values, call, vars);
      if Handles(call, n) && (typ, refs[n]) in m then m[(typ, refs[n]) := values[n]] else m
  }

  /** fmi2Get<Type>: fills the handled positions; others keep their storage. */
  function GetRefs<T>(typ: nat, refs: seq<nat>, storage: seq<T>, call: FmiCall, vars: map<Variable, T>): (r: seq<T>)
    requires |refs| == |storage|
    ensures |r| == |refs|
  {
    seq(|refs|, i requires 0 <= i < |refs| =>
      if Handles(call, i) && (typ, refs[i]) in vars then vars[(typ, refs[i])] else storage[i])
  }

  predicate Coded(g: Group, i: nat) {
    i < |g.coded| && g.coded[i]
  }

  /** What marshal_group_out leaves in the target of a sending group. */
  function OutValues<S, T>(conv: Conversions<S, T>, g: Group, source: seq<S>): (r: seq<T>)
    requires g.offset + g.count <= |source|
    ensures |r| == g.count
  {
    seq(g.count, i requires 0 <= i < g.count => conv.toTarget(g.key.typ, Coded(g, i), source[g.offset + i]))
  }

  /** The group agrees with the signals of its slice, encoder by encoder. */
  ghost predicate Matches(g: Group, signals: seq<Signal>) {
    Block(g, signals) && EncodersOf(g, signals)
  }

  lemma {:induction false} EntryOfSlot(g: Group, signals: seq<Signal>, j: nat)
    requires Matches(g, signals) && g.offset <= j < g.offset + g.count
    ensures KeyOf(signals[j]) == g.key && g.refs[j - g.offset] == signals[j].vref
    ensures Coded(g, j - g.offset) == HasEncoder(signals[j])
  {
    var i := j - g.offset;
    assert signals[g.offset + i] == signals[j];
  }

  predicate SendsGroup(g: Group) {
    TxCapable(g.key.dir) && Transferable(g.key.typ)
  }

  predicate ReceivesGroup(g: Group) {
    RxCapable(g.key.dir) && Transferable(g.key.typ)
  }

  /** The signals before slot `upto`, each sent on its own. */
  ghost function PutUpTo<S, T>(conv: Conversions<S, T>, signals: seq<Signal>, source: seq<S>, vars: map<Variable, T>,
      upto: nat): map<Variable, T>
  {
    if upto <= |signals| <= |source| then PutEach(conv, signals[..upto], source, vars) else vars
  }

  lemma {:induction false} WholePut<S, T>(conv: Conversions<S, T>, signals: seq<Signal>, source: seq<S>,
      vars: map<Variable, T>)
    requires |signals| <= |source|
    ensures PutUpTo(conv, signals, source, vars, |signals|) == PutEach(conv, signals, source, vars)
  {
    assert signals[..|signals|] == signals;
  }

  lemma {:induction false} PutNext<S, T>(conv: Conversions<S, T>, signals: seq<Signal>, source: seq<S>,
      vars: map<Variable, T>, j: nat)
    requires j < |signals| <= |source|
    ensures PutUpTo(conv, signals, source, vars, j + 1)
            == PutSignal(conv, signals[j], source[j], PutUpTo(conv, signals, source, vars, j))
  {
    assert signals[..j + 1][..j] == signals[..j];
  }

  lemma {:induction false} SetNext<T>(typ: nat, refs: seq<nat>, values: seq<T>, call: FmiCall, vars: map<Variable, T>,
      k: nat)
    requires k < |refs| <= |values| && call.rc <= 0
    ensures var m := SetRefs(typ, refs[..k], values, call, vars);
            SetRefs(typ, refs[..k + 1], values, call, vars)
                == if (typ, refs[k]) in m then m[(typ, refs[k]) := values[k]] else m
  {
    assert refs[..k + 1][..k] == refs[..k];
  }

  /** One entry of a bulk set does what sending its signal does. */
  lemma {:induction false} EntryIsPutSignal<S, T>(conv: Conversions<S, T>, g: Group, signals: seq<Signal>,
      source: seq<S>, k: nat, m: map<Variable, T>)
    requires Matches(g, signals) && |signals| == |source| && k < g.count && SendsGroup(g)
    ensures (if (g.key.typ, g.refs[k]) in m then m[(g.key.typ, g.refs[k]) := OutValues(conv, g, source)[k]] else m)
            == PutSignal(conv, signals[g.offset + k], source[g.offset + k], m)
  {
    EntryOfSlot(g, signals, g.offset + k);
  }

  lemma {:induction false} SetOneMore<S, T>(conv: Conversions<S, T>, g: Group, signals: seq<Signal>, source: seq<S>,
      vars: map<Variable, T>, start: map<Variable, T>, call: FmiCall, k: nat)
    requires Matches(g, signals) && |signals| == |source| && k < g.count && SendsGroup(g) && call.rc <= 0
    requires SetRefs(g.key.typ, g.refs[..k], OutValues(conv, g, source), call, start)
             == PutUpTo(conv, signals, source, vars, g.offset + k)
    ensures SetRefs(g.key.typ, g.refs[..k + 1], OutValues(conv, g, source), call, start)
            == PutUpTo(conv, signals, source, vars, g.offset + k + 1)
  {
    PutNext(conv, signals, source, vars, g.offset + k);
    SetNext(g.key.typ, g.refs, OutValues(conv, g, source), call, start, k);
    EntryIsPutSignal(conv, g, signals, source, k, PutUpTo(conv, signals, source, vars, g.offset + k));
  }

  /** A bulk set over the first `k` entries of a group is the same as sending those signals singly. */
  lemma {:induction false} SetPrefixIsPutEach<S, T>(conv: Conversions<S, T>, g: Group, signals: seq<Signal>,
      source: seq<S>, vars: map<Variable, T>, call: FmiCall, k: nat)
    requires Matches(g, signals) && |signals| == |source| && k <= g.count
    requires SendsGroup(g) && call.rc <= 0
    ensures SetRefs(g.key.typ, g.refs[..k], OutValues(conv, g, source), call,
                    PutUpTo(conv, signals, source, vars, g.offset))
            == PutUpTo(conv, signals, source, vars, g.offset + k)
  {
    if k > 0 {
      SetPrefixIsPutEach(conv, g, signals, source, vars, call, k - 1);
      SetOneMore(conv, g, signals, source, vars, PutUpTo(conv, signals, source, vars, g.offset), call, k - 1);
    }
  }

  lemma {:induction false} SkippedGroup<S, T>(conv: Conversions<S, T>, g: Group, signals: seq<Signal>, source: seq<S>,
      vars: map<Variable, T>, k: nat)
    requires Matches(g, signals) && |signals| == |source| && k <= g.count
    requires !SendsGroup(g)
    ensures PutUpTo(conv, signals, source, vars, g.offset + k) == PutUpTo(conv, signals, source, vars, g.offset)
  {
    if k > 0 {
      SkippedGroup(conv, g, signals, source, vars, k - 1);
      var j := g.offset + k - 1;
      EntryOfSlot(g, signals, j);
      PutNext(conv, signals, source, vars, j);
    }
  }

  // ----- what sending means for one variable -----

  ghost predicate DistinctVariables(signals: seq<Signal>) {
    forall i, j :: 0 <= i < j < |signals| ==> VariableOf(signals[i]) != VariableOf(signals[j])
  }

  /** A variable that no sending signal names keeps its value. */
  lemma {:induction false} PutEachElsewhere<S, T>(conv: Conversions<S, T>, signals: seq<Signal>, source: seq<S>,
      vars: map<Variable, T>, v: Variable)
    requires |signals| <= |source| && v in vars
    requires forall s :: s in signals && Sends(s) ==> VariableOf(s) != v
    ensures PutEach(conv, signals, source, vars)[v] == vars[v]
  {
    if signals != [] {
      var n := |signals| - 1;
      assert signals[n] in signals;
      PutEachElsewhere(conv, signals[..n], source, vars, v);
    }
  }

  /** With distinct variables, signal `j` decides its own variable and no other signal does. */
  lemma {:induction false} PutEachOwn<S, T>(conv: Conversions<S, T>, signals: seq<Signal>, source: seq<S>,
      vars: map<Variable, T>, j: nat)
    requires |signals| <= |source| && DistinctVariables(signals) && j < |signals|
    requires VariableOf(signals[j]) in vars
    ensures var s := signals[j];
            PutEach(conv, signals, source, vars)[VariableOf(s)]
            == if Sends(s) then conv.toTarget(s.typ, HasEncoder(s), source[j]) else vars[VariableOf(s)]
  {
    var n := |signals| - 1;
    if j < n {
      PutEachOwn(conv, signals[..n], source, vars, j);
    } else {
      forall s | s in signals[..n]
        ensures VariableOf(s) != VariableOf(signals[j])
      {
        var i :| 0 <= i < n && signals[i] == s;
      }
      PutEachElsewhere(conv, signals[..n], source, vars, VariableOf(signals[j]));
    }
  }

  /** What receiving leaves in the slots of one group: the FMU's value of each variable, or the
      stored target value for a reference the FMU does not have. */
  ghost predicate Received<S, T>(conv: Conversions<S, T>, g: Group, before: seq<S>, after: seq<S>, storage: seq<T>,
      vars: map<Variable, T>)
  {
    && |g.refs| == g.count == |storage| && g.offset + g.count <= |before| == |after|
    && forall j :: g.offset <= j < g.offset + g.count ==>
         after[j] ==
           if ReceivesGroup(g) then
             var v := (g.key.typ, g.refs[j - g.offset]);
             conv.toSource(g.key.typ, Coded(g, j - g.offset), if v in vars then vars[v] else storage[j - g.offset])
           else before[j]
  }

  /** The target of a receiving group holds what the FMU returned. */
  ghost predicate Fetched<T>(g: Group, storage: seq<T>, fetched: seq<T>, vars: map<Variable, T>) {
    && |storage| == g.count == |g.refs|
    && |fetched| == g.count
    && forall i :: 0 <= i < g.count ==>
         var v := (g.key.typ, g.refs[i]);
         fetched[i] == if ReceivesGroup(g) && v in vars then vars[v] else storage[i]
  }

  lemma {:induction false} ReceivedKept<S, T>(conv: Conversions<S, T>, g: Group, before: seq<S>, after: seq<S>,
      later: seq<S>, storage: seq<T>, vars: map<Variable, T>)
    requires Received(conv, g, before, after, storage, vars) && |later| == |after|
    requires forall j :: g.offset <= j < g.offset + g.count ==> later[j] == after[j]
    ensures Received(conv, g, before, later, storage, vars)
  {
  }

  /** Receiving group `g` leaves what the groups before it received. */
  lemma {:induction false} ReceivedBelow<S, T>(conv: Conversions<S, T>, groups: seq<Group>, signals: seq<Signal>,
      before: seq<S>, after: seq<S>, later: seq<S>, storage: seq<seq<T>>, vars: map<Variable, T>, g: nat)
    requires Tiles(groups, signals, |signals|) && g < |groups| == |storage| && |later| == |after|
    requires forall h :: 0 <= h < g ==> Received(conv, groups[h], before, after, storage[h], vars)
    requires forall j :: 0 <= j < |after| && !(groups[g].offset <= j < groups[g].offset + groups[g].count) ==>
               later[j] == after[j]
    requires Received(conv, groups[g], before, later, storage[g], vars)
    ensures forall h :: 0 <= h < g + 1 ==> Received(conv, groups[h], before, later, storage[h], vars)
  {
    forall h | 0 <= h < g
      ensures Received(conv, groups[h], before, later, storage[h], vars)
    {
      OffsetsAscend(groups, signals, |signals|, h, g);
      ReceivedKept(conv, groups[h], before, after, later, storage[h], vars);
    }
  }

  /** The marshal table of a signal list, encoders included. */
  ghost predicate TableOf(groups: seq<Group>, signals: seq<Signal>) {
    && Tiles(groups, signals, |signals|)
    && Start(groups, signals, 0) == 0
    && forall g :: 0 <= g < |groups| ==> Matches(groups[g], signals)
  }

  /** One target value per entry. */
  ghost predicate Storage<T>(groups: seq<Group>, target: seq<seq<T>>) {
    |target| == |groups| && forall g :: 0 <= g < |groups| ==> |target[g]| == groups[g].count
  }

  /** Where group `g` starts; past the last group, the end of the source. */
  ghost function Start(groups: seq<Group>, signals: seq<Signal>, g: nat): nat
    requires g <= |groups|
  {
    if g < |groups| then groups[g].offset else |signals|
  }

  lemma {:induction false} NextStart(groups: seq<Group>, signals: seq<Signal>, g: nat)
    requires TableOf(groups, signals) && g < |groups|
    ensures Start(groups, signals, g) == groups[g].offset
    ensures Start(groups, signals, g + 1) == groups[g].offset + groups[g].count <= |signals|
  {
    TableTilesSource(groups, signals, |signals|);
    if g + 1 < |groups| {
      assert Adjacent(groups, g + 1);
    }
  }

  lemma {:induction false} MatchLoaded(table: seq<Group>, loaded: seq<Group>, signals: seq<Signal>)
    requires Tiles(loaded, signals, |signals|)
    requires |loaded| == |table| && forall n :: 0 <= n < |loaded| ==> Loaded(table[n], loaded[n], signals)
    ensures forall g :: 0 <= g < |loaded| ==> Matches(loaded[g], signals)
  {
    forall g | 0 <= g < |loaded|
      ensures Matches(loaded[g], signals)
    {
      TilesPrefix(loaded, signals, |signals|, g);
      assert Loaded(table[g], loaded[g], signals);
    }
  }

  lemma {:induction false} DecodedAreVisited(raw: seq<Signal>, typeCount: nat)
    requires typeCount > TYPE_STRING
    requires forall s :: s in raw ==> Decoded(s)
    ensures forall s :: s in raw ==> Visited(KeyOf(s), typeCount)
  {
  }

  /** The pipeline of mcl_create: sort the parsed signals, cut them into groups, load the encoders. */
  method ParseAndGenerate(raw: seq<Signal>, typeCount: nat) returns (signals: seq<Signal>, groups: seq<Group>)
    requires typeCount > TYPE_STRING
    requires forall s :: s in raw ==> Decoded(s)
    ensures Sorted(signals) && StableOf(signals, raw) && multiset(signals) == multiset(raw)
    ensures TableOf(groups, signals)
    ensures forall i, j :: 0 <= i < j < |groups| ==> groups[i].key != groups[j].key && groups[i].name != groups[j].name
  {
    DecodedAreVisited(raw, typeCount);
    signals := SortByMarshalGroup(raw, typeCount);
    var table := GenerateMarshalTable(signals);
    groups := LoadEncoderFuncs(table, signals);
    MatchLoaded(table, groups, signals);
    TableTilesSource(groups, signals, |signals|);
    NamesDistinct(groups, signals, raw);
  }

  lemma {:induction false} NamesDistinct(groups: seq<Group>, signals: seq<Signal>, raw: seq<Signal>)
    requires Sorted(signals) && Tiles(groups, signals, |signals|) && Named(groups)
    requires multiset(signals) == multiset(raw) && forall s :: s in raw ==> Decoded(s)
    ensures forall i, j :: 0 <= i < j < |groups| ==> groups[i].key != groups[j].key && groups[i].name != groups[j].name
  {
    forall s | s in signals
      ensures s.dir < DIR_SIZE
    {
      assert s in multiset(signals);
      assert s in raw;
    }
    forall i, j | 0 <= i < j < |groups|
      ensures groups[i].key != groups[j].key && groups[i].name != groups[j].name
    {
      GroupsDistinct(groups, signals, i, j);
    }
  }

  /** The targets of sending groups hold the converted source values. */
  ghost predicate Prepared<S, T>(conv: Conversions<S, T>, groups: seq<Group>, source: seq<S>, target: seq<seq<T>>) {
    && |target| == |groups|
    && forall g :: 0 <= g < |groups| && SendsGroup(groups[g]) ==>
         groups[g].offset + groups[g].count <= |source| && target[g] == OutValues(conv, groups[g], source)
  }

  /** The calls of the sending groups before `upto` all succeeded. */
  ghost predicate SentOk(groups: seq<Group>, calls: seq<FmiCall>, upto: nat)
    requires upto <= |groups| == |calls|
  {
    upto == 0 || (SentOk(groups, calls, upto - 1) && (SendsGroup(groups[upto - 1]) ==> calls[upto - 1].rc <= 0))
  }

  /** Group `g` is the first whose call fails. */
  ghost predicate FailsFirst(groups: seq<Group>, calls: seq<FmiCall>, g: nat) {
    g < |groups| == |calls| && SendsGroup(groups[g]) && calls[g].rc > 0 && SentOk(groups, calls, g)
  }

  lemma {:induction false} SentOkAt(groups: seq<Group>, calls: seq<FmiCall>, upto: nat, g: nat)
    requires g < upto <= |groups| == |calls|
    requires SentOk(groups, calls, upto) && SendsGroup(groups[g])
    ensures calls[g].rc <= 0
  {
    if g + 1 < upto {
      SentOkAt(groups, calls, upto - 1, g);
    }
  }

  /** The FMU after the bulk calls of the groups before `upto`. */
  ghost function SendRun<T>(groups: seq<Group>, target: seq<seq<T>>, calls: seq<FmiCall>, upto: nat,
      vars: map<Variable, T>): map<Variable, T>
    requires upto <= |groups| == |calls| == |target|
    requires forall g :: 0 <= g < |groups| ==> |groups[g].refs| == |target[g]|
  {
    if upto == 0 then vars
    else
      var g := upto - 1;
      var m := SendRun(groups, target, calls, g, vars);
      if SendsGroup(groups[g]) then SetRefs(groups[g].key.typ, groups[g].refs, target[g], calls[g], m) else m
  }

  /** The FMU when the call for group `g` fails after all earlier ones succeeded. */
  ghost function SentUntil<S, T>(conv: Conversions<S, T>, groups: seq<Group>, signals: seq<Signal>, source: seq<S>,
      calls: seq<FmiCall>, g: nat, vars: map<Variable, T>): map<Variable, T>
    requires TableOf(groups, signals) && |source| == |signals| && g < |groups| == |calls|
  {
    assert Matches(groups[g], signals);
    SetRefs(groups[g].key.typ, groups[g].refs, OutValues(conv, groups[g], source), calls[g],
            PutUpTo(conv, signals, source, vars, groups[g].offset))
  }

  lemma {:induction false} StorageShape<T>(groups: seq<Group>, signals: seq<Signal>, target: seq<seq<T>>)
    requires TableOf(groups, signals) && Storage(groups, target)
    ensures forall g :: 0 <= g < |groups| ==> |groups[g].refs| == |target[g]| == groups[g].count
  {
    forall g | 0 <= g < |groups|
      ensures |groups[g].refs| == |target[g]| == groups[g].count
    {
      assert Matches(groups[g], signals);
    }
  }

  /** A whole group: the bulk set of a sending group, nothing for the others. */
  lemma {:induction false} GroupSent<S, T>(conv: Conversions<S, T>, mg: Group, signals: seq<Signal>, source: seq<S>,
      vars: map<Variable, T>, call: FmiCall)
    requires Matches(mg, signals) && |source| == |signals|
    requires SendsGroup(mg) ==> call.rc <= 0
    ensures PutUpTo(conv, signals, source, vars, mg.offset + mg.count)
            == if SendsGroup(mg)
               then SetRefs(mg.key.typ, mg.refs, OutValues(conv, mg, source), call,
                            PutUpTo(conv, signals, source, vars, mg.offset))
               else PutUpTo(conv, signals, source, vars, mg.offset)
  {
    if SendsGroup(mg) {
      assert mg.refs[..mg.count] == mg.refs;
      SetPrefixIsPutEach(conv, mg, signals, source, vars, call, mg.count);
    } else {
      SkippedGroup(conv, mg, signals, source, vars, mg.count);
    }
  }

  /** The bulk calls before group `g` and the single sends before its offset leave the same FMU. */
  ghost predicate InStep<S, T>(conv: Conversions<S, T>, groups: seq<Group>, signals: seq<Signal>, source: seq<S>,
      target: seq<seq<T>>, calls: seq<FmiCall>, vars: map<Variable, T>, g: nat)
  {
    && g <= |groups| == |calls| == |target|
    && (forall h :: 0 <= h < |groups| ==> |groups[h].refs| == |target[h]|)
    && SendRun(groups, target, calls, g, vars) == PutUpTo(conv, signals, source, vars, Start(groups, signals, g))
  }

  lemma {:induction false} SendRunStep<S, T>(conv: Conversions<S, T>, groups: seq<Group>, signals: seq<Signal>,
      source: seq<S>, target: seq<seq<T>>, calls: seq<FmiCall>, g: nat, vars: map<Variable, T>)
    requires TableOf(groups, signals) && |source| == |signals| && Prepared(conv, groups, source, target)
    requires g < |groups|
    requires InStep(conv, groups, signals, source, target, calls, vars, g)
    requires SendsGroup(groups[g]) ==> calls[g].rc <= 0
    ensures InStep(conv, groups, signals, source, target, calls, vars, g + 1)
  {
    NextStart(groups, signals, g);
    GroupSent(conv, groups[g], signals, source, vars, calls[g]);
  }

  /** While the calls succeed, the bulk form equals sending each signal on its own. */
  lemma {:induction false} SendRunIsPutEach<S, T>(conv: Conversions<S, T>, groups: seq<Group>, signals: seq<Signal>,
      source: seq<S>, target: seq<seq<T>>, calls: seq<FmiCall>, upto: nat, vars: map<Variable, T>)
    requires TableOf(groups, signals) && |source| == |signals| && Prepared(conv, groups, source, target)
    requires upto <= |groups| == |calls|
    requires forall g :: 0 <= g < |groups| ==> |groups[g].refs| == |target[g]|
    requires SentOk(groups, calls, upto)
    ensures InStep(conv, groups, signals, source, target, calls, vars, upto)
  {
    assert InStep(conv, groups, signals, source, target, calls, vars, 0) by {
      assert signals[..0] == [];
    }
    forall g | 0 <= g < upto && InStep(conv, groups, signals, source, target, calls, vars, g)
      ensures InStep(conv, groups, signals, source, target, calls, vars, g + 1)
    {
      if SendsGroup(groups[g]) {
        SentOkAt(groups, calls, upto, g);
      }
      SendRunStep(conv, groups, signals, source, target, calls, g, vars);
    }
    StepsAddUp(conv, groups, signals, source, target, calls, vars, upto);
  }

  lemma {:induction false} StepsAddUp<S, T>(conv: Conversions<S, T>, groups: seq<Group>, signals: seq<Signal>,
      source: seq<S>, target: seq<seq<T>>, calls: seq<FmiCall>, vars: map<Variable, T>, upto: nat)
    requires InStep(conv, groups, signals, source, target, calls, vars, 0)
    requires forall g :: 0 <= g < upto && InStep(conv, groups, signals, source, target, calls, vars, g)
                         ==> InStep(conv, groups, signals, source, target, calls, vars, g + 1)
    ensures InStep(conv, groups, signals, source, target, calls, vars, upto)
  {
    if upto > 0 {
      StepsAddUp(conv, groups, signals, source, target, calls, vars, upto - 1);
    }
  }

  lemma {:induction false} SendRunFailed<S, T>(conv: Conversions<S, T>, groups: seq<Group>, signals: seq<Signal>,
      source: seq<S>, target: seq<seq<T>>, calls: seq<FmiCall>, failed: nat, vars: map<Variable, T>)
    requires TableOf(groups, signals) && |source| == |signals| && Prepared(conv, groups, source, target)
    requires forall g :: 0 <= g < |groups| ==> |groups[g].refs| == |target[g]|
    requires FailsFirst(groups, calls, failed)
    ensures !SentOk(groups, calls, |groups|)
    ensures SendRun(groups, target, calls, failed + 1, vars)
            == SentUntil(conv, groups, signals, source, calls, failed, vars)
  {
    if SentOk(groups, calls, |groups|) {
      SentOkAt(groups, calls, |groups|, failed);
    }
    SendRunIsPutEach(conv, groups, signals, source, target, calls, failed, vars);
    NextStart(groups, signals, failed);
  }

  /** The MCL model: signal list, source vector, marshal table with its target storage, and the FMU. */
  class FmuModel<S, T> {
    const conv: Conversions<S, T>
    const signals: seq<Signal>
    const groups: seq<Group>
    var source: seq<S>
    var target: seq<seq<T>>
    var fmu: map<Variable, T>

    ghost predicate Valid()
      reads this`source, this`target
    {
      TableOf(groups, signals) && |source| == |signals| && Storage(groups, target)
    }

    /** Parse (sort), allocate the source, generate the marshal table and load the encoders. */
    constructor (raw: seq<Signal>, typeCount: nat, conv: Conversions<S, T>, zeroSource: S, zeroTarget: T,
                 fmu: map<Variable, T>)
      requires typeCount > TYPE_STRING
      requires forall s :: s in raw ==> Decoded(s)
      ensures Valid() && this.conv == conv && this.fmu == fmu
      ensures Sorted(signals) && StableOf(signals, raw) && multiset(signals) == multiset(raw)
      ensures source == seq(|signals|, i => zeroSource)
    {
      var sorted, table := ParseAndGenerate(raw, typeCount);
      this.conv, this.signals, this.groups, this.fmu := conv, sorted, table, fmu;
      source := seq(|sorted|, i => zeroSource);
      target := seq(|table|, g requires 0 <= g < |table| => seq(table[g].count, i => zeroTarget));
    }

    /** marshal_group_out: source to target, sending groups only. */
    method MarshalGroupOut()
      requires Valid()
      modifies this`target
      ensures Valid()
      ensures Prepared(conv, groups, source, target)
      ensures forall g :: 0 <= g < |groups| && !SendsGroup(groups[g]) ==> target[g] == old(target)[g]
    {
      for g := 0 to |groups|
        invariant Storage(groups, target)
        invariant forall h :: 0 <= h < g ==>
                    target[h] == if SendsGroup(groups[h]) then OutValues(conv, groups[h], source) else old(target)[h]
        invariant forall h :: g <= h < |groups| ==> target[h] == old(target)[h]
      {
        NextStart(groups, signals, g);
        if SendsGroup(groups[g]) {
          target := target[g := OutValues(conv, groups[g], source)];
        }
      }
    }

    /** The loop of fmi2mcl_marshal_out. */
    method SendGroups(calls: seq<FmiCall>) returns (rc: int, ghost failed: nat)
      requires |calls| == |groups| == |target|
      requires forall g :: 0 <= g < |groups| ==> |groups[g].refs| == |target[g]|
      modifies this`fmu
      ensures rc == 0 ==> SentOk(groups, calls, |groups|) && fmu == SendRun(groups, target, calls, |groups|, old(fmu))
      ensures rc != 0 ==> rc == EBADMSG && FailsFirst(groups, calls, failed)
                          && fmu == SendRun(groups, target, calls, failed + 1, old(fmu))
    {
      for g := 0 to |groups|
        invariant fmu == SendRun(groups, target, calls, g, old(fmu))
        invariant SentOk(groups, calls, g)
      {
        if SendsGroup(groups[g]) {
          fmu := SetRefs(groups[g].key.typ, groups[g].refs, target[g], calls[g], fmu);
          if calls[g].rc > 0 {
            return EBADMSG, g;
          }
        }
      }
      return 0, 0;
    }

    /** fmi2mcl_marshal_out: on success the FMU is as if each signal had been sent on its own. When the
        call for a group fails, the signals of the earlier groups have been sent, that group as far as
        its call got, and nothing after it. */
    method MarshalOut(calls: seq<FmiCall>) returns (rc: int, ghost failed: nat)
      requires Valid() && |calls| == |groups|
      modifies this`target, this`fmu
      ensures Valid()
      ensures forall g :: 0 <= g < |groups| && !SendsGroup(groups[g]) ==> target[g] == old(target)[g]
      ensures rc == 0 || rc == EBADMSG
      ensures rc == 0 <==> SentOk(groups, calls, |groups|)
      ensures rc == 0 ==> fmu == PutEach(conv, signals, source, old(fmu))
      ensures rc != 0 ==> FailsFirst(groups, calls, failed)
                          && fmu == SentUntil(conv, groups, signals, source, calls, failed, old(fmu))
    {
      MarshalGroupOut();
      StorageShape(groups, signals, target);
      rc, failed := SendGroups(calls);
      if rc == 0 {
        SendRunIsPutEach(conv, groups, signals, source, target, calls, |groups|, old(fmu));
        WholePut(conv, signals, source, old(fmu));
      } else {
        SendRunFailed(conv, groups, signals, source, target, calls, failed, old(fmu));
      }
    }

    /** The inner loop of marshal_group_in for one receiving group. */
    method ReceiveGroup(g: nat)
      requires g < |groups| && |target| == |groups|
      requires |target[g]| == groups[g].count && groups[g].offset + groups[g].count <= |source|
      modifies this`source
      ensures |source| == |old(source)|
      ensures forall j :: 0 <= j < |source| && !(groups[g].offset <= j < groups[g].offset + groups[g].count)
                          ==> source[j] == old(source)[j]
      ensures forall j :: groups[g].offset <= j < groups[g].offset + groups[g].count ==>
                var i := j - groups[g].offset;
                source[j] == conv.toSource(groups[g].key.typ, Coded(groups[g], i), target[g][i])
    {
      var mg := groups[g];
      for i := 0 to mg.count
        invariant |source| == |old(source)|
        invariant forall j :: 0 <= j < |source| && !(mg.offset <= j < mg.offset + i) ==> source[j] == old(source)[j]
        invariant forall j :: mg.offset <= j < mg.offset + i ==>
                    source[j] == conv.toSource(mg.key.typ, Coded(mg, j - mg.offset), target[g][j - mg.offset])
      {
        source := source[mg.offset + i := conv.toSource(mg.key.typ, Coded(mg, i), target[g][i])];
      }
    }

    /** One group of marshal_group_in; the slots of other groups are not touched. */
    method ReceiveStep(g: nat, ghost storage: seq<T>, ghost before: seq<S>)
      requires g < |groups| && |target| == |groups| && |source| == |before|
      requires groups[g].offset + groups[g].count <= |source|
      requires Fetched(groups[g], storage, target[g], fmu)
      requires forall j :: groups[g].offset <= j < |source| ==> source[j] == before[j]
      modifies this`source
      ensures |source| == |old(source)|
      ensures Received(conv, groups[g], before, source, storage, fmu)
      ensures forall j :: 0 <= j < |source| && !(groups[g].offset <= j < groups[g].offset + groups[g].count)
                          ==> source[j] == old(source)[j]
    {
      if ReceivesGroup(groups[g]) {
        ReceiveGroup(g);
      }
    }

    /** marshal_group_in: target to source, receiving groups only. */
    method MarshalGroupIn(ghost storage: seq<seq<T>>)
      requires Valid() && Storage(groups, storage)
      requires forall g :: 0 <= g < |groups| ==> Fetched(groups[g], storage[g], target[g], fmu)
      modifies this`source
      ensures |source| == |signals|
      ensures forall g :: 0 <= g < |groups| ==> Received(conv, groups[g], old(source), source, storage[g], fmu)
    {
      for g := 0 to |groups|
        invariant |source| == |signals|
        invariant forall h :: 0 <= h < g ==> Received(conv, groups[h], old(source), source, storage[h], fmu)
        invariant forall j :: Start(groups, signals, g) <= j < |source| ==> source[j] == old(source)[j]
      {
        NextStart(groups, signals, g);
        assert Fetched(groups[g], storage[g], target[g], fmu);
        ghost var before := source;
        ReceiveStep(g, storage[g], old(source));
        ReceivedBelow(conv, groups, signals, old(source), before, source, storage, fmu, g);
      }
    }

    /** The loop of fmi2mcl_marshal_in; it stops at the first failing getter. */
    method FetchGroups(calls: seq<FmiCall>) returns (rc: int, ghost failed: nat)
      requires |calls| == |groups| == |target|
      requires forall g :: 0 <= g < |groups| ==> |groups[g].refs| == |target[g]| == groups[g].count
      modifies this`target
      ensures |target| == |groups| && forall g :: 0 <= g < |groups| ==> |target[g]| == groups[g].count
      ensures rc == 0 ==> forall g :: 0 <= g < |groups| ==> Fetched(groups[g], old(target)[g], target[g], fmu)
      ensures rc == 0 ==> forall g :: 0 <= g < |groups| && ReceivesGroup(groups[g]) ==> calls[g].rc <= 0
      ensures rc != 0 ==> rc == EBADMSG && failed < |groups| && ReceivesGroup(groups[failed]) && calls[failed].rc > 0
      ensures rc != 0 ==> forall g :: 0 <= g < failed && ReceivesGroup(groups[g]) ==> calls[g].rc <= 0
      ensures rc != 0 ==> forall g :: 0 <= g < failed ==> Fetched(groups[g], old(target)[g], target[g], fmu)
      ensures rc != 0 ==> var mg := groups[failed];
                          target[failed] == GetRefs(mg.key.typ, mg.refs, old(target)[failed], calls[failed], fmu)
      ensures rc != 0 ==> forall g :: failed < g < |groups| ==> target[g] == old(target)[g]
    {
      for g := 0 to |groups|
        invariant |target| == |groups|
        invariant forall h :: 0 <= h < g ==> Fetched(groups[h], old(target)[h], target[h], fmu)
        invariant forall h :: g <= h < |groups| ==> target[h] == old(target)[h]
        invariant forall h :: 0 <= h < g && ReceivesGroup(groups[h]) ==> calls[h].rc <= 0
      {
        if ReceivesGroup(groups[g]) {
          target := target[g := GetRefs(groups[g].key.typ, groups[g].refs, target[g], calls[g], fmu)];
          if calls[g].rc > 0 {
            return EBADMSG, g;
          }
        }
      }
      return 0, 0;
    }

    /** fmi2mcl_marshal_in: all getters run before the source is written, so a failing getter
        leaves the source wholly unchanged; the FMU is only read. */
    method MarshalIn(calls: seq<FmiCall>) returns (rc: int)
      requires Valid() && |calls| == |groups|
      modifies this`target, this`source
      ensures Valid()
      ensures rc == 0 || rc == EBADMSG
      ensures rc == 0 <==> forall g :: 0 <= g < |groups| && ReceivesGroup(groups[g]) ==> calls[g].rc <= 0
      ensures rc != 0 ==> source == old(source)
      ensures rc == 0 ==> forall g :: 0 <= g < |groups| ==>
                Received(conv, groups[g], old(source), source, old(target)[g], fmu)
    {
      StorageShape(groups, signals, target);
      ghost var failed;
      rc, failed := FetchGroups(calls);
      if rc == 0 {
        MarshalGroupIn(old(target));
      }
    }
  }

  // ----- end to end -----

  /** Sending, end to end: for a signal of the unsorted list, its variable receives the converted value
      of the source slot that carries the signal, exactly when the signal's direction sends. */
  lemma {:induction false} EndToEndOut<S, T>(conv: Conversions<S, T>, raw: seq<Signal>, signals: seq<Signal>,
      source: seq<S>, vars: map<Variable, T>, s: Signal) returns (slot: nat)
    requires multiset(signals) == multiset(raw) && DistinctVariables(signals)
    requires |source| == |signals| && s in raw && VariableOf(s) in vars
    ensures slot < |signals| && signals[slot] == s
    ensures PutEach(conv, signals, source, vars)[VariableOf(s)]
            == if Sends(s) then conv.toTarget(s.typ, HasEncoder(s), source[slot]) else vars[VariableOf(s)]
  {
    assert s in multiset(raw);
    assert s in signals;
    slot :| 0 <= slot < |signals| && signals[slot] == s;
    PutEachOwn(conv, signals, source, vars, slot);
  }

  lemma {:induction false} AtMostOnce(a: seq<Signal>, s: Signal)
    requires DistinctVariables(a)
    ensures multiset(a)[s] <= 1
  {
    if a != [] {
      var n := |a| - 1;
      AtMostOnce(a[..n], s);
      assert a == a[..n] + [a[n]];
      assert s in a[..n] ==> exists i :: 0 <= i < n && a[i] == s;
    }
  }

  lemma {:induction false} AtLeastTwice(b: seq<Signal>, i: nat, j: nat)
    requires i < j < |b| && b[i] == b[j]
    ensures multiset(b)[b[i]] >= 2
  {
    assert b == b[..j] + [b[j]] + b[j + 1..];
    assert b[..j][i] in multiset(b[..j]);
  }

  /** Distinctness is a property of the signals, not of the order the sort leaves them in. */
  lemma {:induction false} DistinctVariablesOfPermutation(a: seq<Signal>, b: seq<Signal>)
    requires multiset(a) == multiset(b) && DistinctVariables(a)
    ensures DistinctVariables(b)
  {
    forall i, j | 0 <= i < j < |b|
      ensures VariableOf(b[i]) != VariableOf(b[j])
    {
      assert b[i] in multiset(b) && b[j] in multiset(b);
      assert b[i] in a && b[j] in a;
      if b[i] == b[j] {
        AtLeastTwice(b, i, j);
        AtMostOnce(a, b[i]);
      }
    }
  }

  /** Receiving, end to end: slot `j` of the source takes the converted value of its own variable
      exactly when the signal's direction receives, and keeps its value otherwise. */
  lemma {:induction false} EndToEndIn<S, T>(conv: Conversions<S, T>, groups: seq<Group>, signals: seq<Signal>,
      before: seq<S>, after: seq<S>, target: seq<seq<T>>, vars: map<Variable, T>, j: nat)
    requires TableOf(groups, signals) && Storage(groups, target) && |before| == |after| == |signals|
    requires forall g :: 0 <= g < |groups| ==> Received(conv, groups[g], before, after, target[g], vars)
    requires j < |signals| && VariableOf(signals[j]) in vars
    ensures var s := signals[j];
            after[j] == if Receives(s) then conv.toSource(s.typ, HasEncoder(s), vars[VariableOf(s)]) else before[j]
  {
    var g := SlotHasOneEntry(groups, signals, |signals|, j);
    assert Matches(groups[g], signals) && Received(conv, groups[g], before, after, target[g], vars);
    EntryOfSlot(groups[g], signals, j);
  }

  /** Sending and then receiving without a step in between restores every TXRX slot, given
      conversions that invert each other on the value at hand. */
  lemma {:induction false} OutThenInRestores<S, T>(conv: Conversions<S, T>, groups: seq<Group>, signals: seq<Signal>,
      before: seq<S>, after: seq<S>, target: seq<seq<T>>, vars: map<Variable, T>, j: nat)
    requires TableOf(groups, signals) && Storage(groups, target) && |before| == |after| == |signals|
    requires DistinctVariables(signals)
    requires forall g :: 0 <= g < |groups| ==>
               Received(conv, groups[g], before, after, target[g], PutEach(conv, signals, before, vars))
    requires j < |signals| && VariableOf(signals[j]) in vars
    requires Transferable(signals[j].typ) && signals[j].dir == DIR_TXRX
    requires var s := signals[j];
             conv.toSource(s.typ, HasEncoder(s), conv.toTarget(s.typ, HasEncoder(s), before[j])) == before[j]
    ensures after[j] == before[j]
  {
    PutEachOwn(conv, signals, before, vars, j);
    EndToEndIn(conv, groups, signals, before, after, target, PutEach(conv, signals, before, vars), j);
  }

  /** The whole way out: parse, sort, cut into groups, fill the source and marshal out. For all decoded signals
      with distinct variables, the calls all succeed or the result says so; and then the variable of every signal
      holds the converted value of that signal if its direction sends, and every other variable is untouched. */
  method PublishSignals<S, T>(raw: seq<Signal>, typeCount: nat, conv: Conversions<S, T>, value: Signal -> S,
      zeroSource: S, zeroTarget: T, vars: map<Variable, T>, call: Group -> FmiCall) returns (rc: int, m: FmuModel<S, T>)
    requires typeCount > TYPE_STRING && DistinctVariables(raw)
    requires forall s :: s in raw ==> Decoded(s)
    ensures fresh(m) && m.Valid() && Filled(m.source, m.signals, value)
    ensures rc == 0 <==> forall g :: g in m.groups && SendsGroup(g) ==> call(g).rc <= 0
    ensures rc == 0 ==> m.fmu.Keys == vars.Keys
    ensures rc == 0 ==> forall s :: s in raw && VariableOf(s) in vars ==>
              m.fmu[VariableOf(s)]
              == if Sends(s) then conv.toTarget(s.typ, HasEncoder(s), value(s)) else vars[VariableOf(s)]
    ensures rc == 0 ==> forall v :: v in vars && (forall s :: s in raw ==> VariableOf(s) != v) ==> m.fmu[v] == vars[v]
  {
    m := new FmuModel(raw, typeCount, conv, zeroSource, zeroTarget, vars);
    m.source := seq(|m.signals|, i requires 0 <= i < |m.signals| => value(m.signals[i]));
    var calls := seq(|m.groups|, g requires 0 <= g < |m.groups| => call(m.groups[g]));
    ghost var failed;
    rc, failed := m.MarshalOut(calls);
    AllCallsOk(m.groups, calls, call);
    if rc == 0 {
      DistinctVariablesOfPermutation(raw, m.signals);
      Published(conv, raw, m.signals, m.source, vars, value);
    }
  }

  /** Every source slot carries the value of its signal. */
  ghost predicate Filled<S>(source: seq<S>, signals: seq<Signal>, value: Signal -> S) {
    |source| == |signals| && forall i :: 0 <= i < |source| ==> source[i] == value(signals[i])
  }

  lemma {:induction false} AllCallsOk(groups: seq<Group>, calls: seq<FmiCall>, call: Group -> FmiCall)
    requires |calls| == |groups| && forall g :: 0 <= g < |groups| ==> calls[g] == call(groups[g])
    ensures SentOk(groups, calls, |groups|) <==> forall g :: g in groups && SendsGroup(g) ==> call(g).rc <= 0
  {
    AllCallsOkUpTo(groups, calls, |groups|);
  }

  lemma {:induction false} AllCallsOkUpTo(groups: seq<Group>, calls: seq<FmiCall>, upto: nat)
    requires upto <= |groups| == |calls|
    ensures SentOk(groups, calls, upto) <==> forall g :: 0 <= g < upto && SendsGroup(groups[g]) ==> calls[g].rc <= 0
  {
    if upto > 0 {
      AllCallsOkUpTo(groups, calls, upto - 1);
    }
  }

  lemma {:induction false} Published<S, T>(conv: Conversions<S, T>, raw: seq<Signal>, signals: seq<Signal>,
      source: seq<S>, vars: map<Variable, T>, value: Signal -> S)
    requires multiset(signals) == multiset(raw) && DistinctVariables(signals) && Filled(source, signals, value)
    ensures var fmu := PutEach(conv, signals, source, vars);
            && (forall s :: s in raw && VariableOf(s) in vars ==>
                  fmu[VariableOf(s)]
                  == if Sends(s) then conv.toTarget(s.typ, HasEncoder(s), value(s)) else vars[VariableOf(s)])
            && (forall v :: v in vars && (forall s :: s in raw ==> VariableOf(s) != v) ==> fmu[v] == vars[v])
  {
    forall s | s in raw && VariableOf(s) in vars
      ensures PutEach(conv, signals, source, vars)[VariableOf(s)]
              == if Sends(s) then conv.toTarget(s.typ, HasEncoder(s), value(s)) else vars[VariableOf(s)]
    {
      var slot := EndToEndOut(conv, raw, signals, source, vars, s);
    }
    forall v | v in vars && forall s :: s in raw ==> VariableOf(s) != v
      ensures PutEach(conv, signals, source, vars)[v] == vars[v]
    {
      forall s | s in signals
        ensures VariableOf(s) != v
      {
        assert s in multiset(signals);
        assert s in raw;
      }
      PutEachElsewhere(conv, signals, source, vars, v);
    }
  }

  /** The whole way in: parse, sort, cut into groups and marshal in. If every getter succeeds, every source slot
      of a receiving signal holds the converted value of its own variable, and the others stay as they were;
      otherwise the whole source stays as it was. */
  method CollectSignals<S, T>(raw: seq<Signal>, typeCount: nat, conv: Conversions<S, T>, zeroSource: S, zeroTarget: T,
      vars: map<Variable, T>, call: Group -> FmiCall) returns (rc: int, m: FmuModel<S, T>)
    requires typeCount > TYPE_STRING
    requires forall s :: s in raw ==> Decoded(s)
    ensures fresh(m) && m.Valid() && m.fmu == vars && multiset(m.signals) == multiset(raw)
    ensures rc == 0 <==> forall g :: g in m.groups && ReceivesGroup(g) ==> call(g).rc <= 0
    ensures forall j :: 0 <= j < |m.source| && !(rc == 0 && Receives(m.signals[j])) ==> m.source[j] == zeroSource
    ensures rc == 0 ==> forall j :: 0 <= j < |m.source| ==>
              var s := m.signals[j];
              Receives(s) && VariableOf(s) in vars ==>
                m.source[j] == conv.toSource(s.typ, HasEncoder(s), vars[VariableOf(s)])
  {
    m := new FmuModel(raw, typeCount, conv, zeroSource, zeroTarget, vars);
    var calls := seq(|m.groups|, g requires 0 <= g < |m.groups| => call(m.groups[g]));
    ghost var before, storage := m.source, m.target;
    rc := m.MarshalIn(calls);
    if rc == 0 {
      Collected(conv, m.groups, m.signals, before, m.source, storage, vars);
    }
  }

  lemma {:induction false} Collected<S, T>(conv: Conversions<S, T>, groups: seq<Group>, signals: seq<Signal>,
      before: seq<S>, after: seq<S>, target: seq<seq<T>>, vars: map<Variable, T>)
    requires TableOf(groups, signals) && Storage(groups, target) && |before| == |after| == |signals|
    requires forall g :: 0 <= g < |groups| ==> Received(conv, groups[g], before, after, target[g], vars)
    ensures forall j :: 0 <= j < |after| && !Receives(signals[j]) ==> after[j] == before[j]
    ensures forall j :: 0 <= j < |after| && Receives(signals[j]) && VariableOf(signals[j]) in vars ==>
              after[j] == conv.toSource(signals[j].typ, HasEncoder(signals[j]), vars[VariableOf(signals[j])])
  {
    forall j | 0 <= j < |after| && VariableOf(signals[j]) in vars
      ensures after[j] == if Receives(signals[j])
                          then conv.toSource(signals[j].typ, HasEncoder(signals[j]), vars[VariableOf(signals[j])])
                          else before[j]
    {
      EndToEndIn(conv, groups, signals, before, after, target, vars, j);
    }
    forall j | 0 <= j < |after| && !Receives(signals[j])
      ensures after[j] == before[j]
    {
      var g := SlotHasOneEntry(groups, signals, |signals|, j);
      assert Matches(groups[g], signals) && Received(conv, groups[g], before, after, target[g], vars);
      EntryOfSlot(groups[g], signals, j);
    }
  }

  // ----- from the annotations of the variables -----

  /** A variable as the parser reads it: the texts of its annotations. */
  datatype VariableText = VariableText(name: string, vref: nat, typ: Option<string>, causality: Option<string>,
                                       encoding: Option<string>)

  /** The FMI type that a type annotation names: which pair of FMI functions its variables are moved with. */
  predicate NamesType(typ: Option<string>, code: nat) {
    || (typ == Some("Real") && code == TYPE_DOUBLE)
    || (typ == Some("Integer") && code == TYPE_INT32)
    || (typ == Some("Boolean") && code == TYPE_BOOL)
    || (typ == Some("String") && code == TYPE_STRING)
  }

  /** The direction that a causality annotation names, seen from the simulation. */
  predicate NamesDirection(causality: Option<string>, dir: nat) {
    || (causality == Some("input") && dir == DIR_TXONLY)
    || (causality == Some("output") && dir == DIR_RXONLY)
    || ((causality == Some("inout") || causality == None) && dir == DIR_TXRX)
    || (causality == Some("parameter") && dir == DIR_PARAMETER)
    || (causality == Some("local") && dir == DIR_LOCAL)
  }

  predicate SentBy(causality: Option<string>) {
    causality == None || causality == Some("inout") || causality == Some("input") || causality == Some("parameter")
  }

  predicate ReceivedBy(causality: Option<string>) {
    causality == None || causality == Some("inout") || causality == Some("output") || causality == Some("local")
  }

  predicate Encoded(v: VariableText) {
    v.typ == Some("String") && v.encoding == Some("ascii85")
  }

  predicate SameType(a: Option<string>, b: Option<string>) {
    if KnownType(a) || KnownType(b) then a == b else true
  }

  predicate KnownType(typ: Option<string>) {
    typ == Some("Real") || typ == Some("Integer") || typ == Some("Boolean") || typ == Some("String")
  }

  /** No two variables have the same type and reference. */
  ghost predicate DistinctTexts(texts: seq<VariableText>) {
    forall i, j :: 0 <= i < j < |texts| ==> !(texts[i].vref == texts[j].vref && SameType(texts[i].typ, texts[j].typ))
  }

  /** The signals are those of the texts, in order. */
  ghost predicate SignalsOf(texts: seq<VariableText>, raw: seq<Signal>) {
    |raw| == |texts| && forall k :: 0 <= k < |texts| ==> SignalOfText(texts[k], raw[k])
  }

  ghost predicate SignalOfText(v: VariableText, s: Signal) {
    && s.name == v.name && s.vref == v.vref && Decoded(s)
    && (forall code: nat :: NamesType(v.typ, code) ==> s.typ == code)
    && (!KnownType(v.typ) ==> s.typ == TYPE_NONE)
    && (forall dir: nat :: NamesDirection(v.causality, dir) ==> s.dir == dir)
    && (!SentBy(v.causality) && !ReceivedBy(v.causality) ==> s.dir == DIR_NONE)
    && (Sends(s) <==> KnownType(v.typ) && SentBy(v.causality))
    && (Receives(s) <==> KnownType(v.typ) && ReceivedBy(v.causality))
    && (HasEncoder(s) <==> Encoded(v))
  }

  lemma {:induction false} TextIsDecoded(v: VariableText)
    ensures SignalOfText(v, DecodeSignal(v.name, v.vref, v.typ, v.causality, v.encoding))
  {
    CausalityDecidesTraffic(v.name, v.vref, v.typ, v.causality, v.encoding);
  }

  /** The signals that the parser generates from the variables, in document order. */
  method ParseVariables(texts: seq<VariableText>) returns (raw: seq<Signal>)
    ensures SignalsOf(texts, raw)
  {
    raw := [];
    for k := 0 to |texts|
      invariant |raw| == k && forall j :: 0 <= j < k ==> SignalOfText(texts[j], raw[j])
    {
      var v := texts[k];
      TextIsDecoded(v);
      raw := raw + [DecodeSignal(v.name, v.vref, v.typ, v.causality, v.encoding)];
    }
  }

  lemma {:induction false} TypesTellApart(a: VariableText, s: Signal, b: VariableText, t: Signal)
    requires SignalOfText(a, s) && SignalOfText(b, t) && s.typ == t.typ
    ensures SameType(a.typ, b.typ)
  {
    TypeOfText(a, s);
    TypeOfText(b, t);
  }

  lemma {:induction false} TypeOfText(v: VariableText, s: Signal)
    requires SignalOfText(v, s)
    ensures NamesType(v.typ, s.typ) <==> KnownType(v.typ)
    ensures !KnownType(v.typ) ==> s.typ == TYPE_NONE
  {
    if v.typ == Some("Real") {
      assert NamesType(v.typ, TYPE_DOUBLE);
    } else if v.typ == Some("Integer") {
      assert NamesType(v.typ, TYPE_INT32);
    } else if v.typ == Some("Boolean") {
      assert NamesType(v.typ, TYPE_BOOL);
    } else if v.typ == Some("String") {
      assert NamesType(v.typ, TYPE_STRING);
    }
  }

  lemma {:induction false} TextsAreDistinct(texts: seq<VariableText>, raw: seq<Signal>)
    requires SignalsOf(texts, raw) && DistinctTexts(texts)
    ensures DistinctVariables(raw) && forall s :: s in raw ==> Decoded(s)
  {
    forall i, j | 0 <= i < j < |raw|
      ensures VariableOf(raw[i]) != VariableOf(raw[j])
    {
      assert SignalOfText(texts[i], raw[i]) && SignalOfText(texts[j], raw[j]);
      if raw[i].typ == raw[j].typ {
        TypesTellApart(texts[i], raw[i], texts[j], raw[j]);
      }
    }
    forall s | s in raw
      ensures Decoded(s)
    {
      var k :| 0 <= k < |raw| && raw[k] == s;
      assert SignalOfText(texts[k], raw[k]);
    }
  }

  /** Sending, from the annotations on: a real variable is set as a double, an integer as an integer, a boolean as
      a boolean and a string as a string, each at its own reference and with the value of the signal of its own
      name, exactly when its causality is input, parameter or inout, or absent. */
  method PublishVariables<S, T>(texts: seq<VariableText>, typeCount: nat, conv: Conversions<S, T>, value: string -> S,
      zeroSource: S, zeroTarget: T, vars: map<Variable, T>, call: Group -> FmiCall)
    returns (rc: int, m: FmuModel<S, T>)
    requires typeCount > TYPE_STRING && DistinctTexts(texts)
    ensures fresh(m)
    ensures rc == 0 <==> forall g :: g in m.groups && SendsGroup(g) ==> call(g).rc <= 0
    ensures rc == 0 ==> m.fmu.Keys == vars.Keys
    ensures rc == 0 ==> forall k, code: nat ::
              0 <= k < |texts| && NamesType(texts[k].typ, code) && (code, texts[k].vref) in vars ==>
              m.fmu[(code, texts[k].vref)]
              == if SentBy(texts[k].causality) then conv.toTarget(code, Encoded(texts[k]), value(texts[k].name))
                 else vars[(code, texts[k].vref)]
    ensures rc == 0 ==> forall v :: v in vars && OfNoText(texts, v) ==> m.fmu[v] == vars[v]
  {
    var raw := ParseVariables(texts);
    TextsAreDistinct(texts, raw);
    rc, m := PublishSignals(raw, typeCount, conv, (s: Signal) => value(s.name), zeroSource, zeroTarget, vars, call);
    if rc == 0 {
      forall k, code: nat | 0 <= k < |texts| && NamesType(texts[k].typ, code) && (code, texts[k].vref) in vars
        ensures m.fmu[(code, texts[k].vref)]
                == if SentBy(texts[k].causality) then conv.toTarget(code, Encoded(texts[k]), value(texts[k].name))
                   else vars[(code, texts[k].vref)]
      {
        assert SignalOfText(texts[k], raw[k]) && raw[k] in raw;
        assert VariableOf(raw[k]) == (code, texts[k].vref);
      }
      forall v | v in vars && OfNoText(texts, v)
        ensures m.fmu[v] == vars[v]
      {
        NoSignalOf(texts, raw, v);
        if s :| s in raw && VariableOf(s) == v {
          assert m.fmu[VariableOf(s)] == vars[VariableOf(s)];
        }
      }
    }
  }

  /** No variable of a known type is this one. */
  ghost predicate OfNoText(texts: seq<VariableText>, v: Variable) {
    forall k :: 0 <= k < |texts| ==> !(NamesType(texts[k].typ, v.0) && texts[k].vref == v.1)
  }

  lemma {:induction false} NoSignalOf(texts: seq<VariableText>, raw: seq<Signal>, v: Variable)
    requires SignalsOf(texts, raw) && OfNoText(texts, v)
    ensures forall s :: s in raw && VariableOf(s) == v ==> !Sends(s)
  {
    forall s | s in raw && VariableOf(s) == v
      ensures !Sends(s)
    {
      var k :| 0 <= k < |raw| && raw[k] == s;
      assert SignalOfText(texts[k], s);
      TypeOfText(texts[k], s);
      assert !NamesType(texts[k].typ, v.0);
    }
  }

  /** Receiving, from the annotations on: the slot of each variable takes the value of the FMU at the type and
      reference of that variable, exactly when its causality is output, local or inout, or absent. */
  method CollectVariables<S, T>(texts: seq<VariableText>, typeCount: nat, conv: Conversions<S, T>, zeroSource: S,
      zeroTarget: T, vars: map<Variable, T>, call: Group -> FmiCall)
    returns (rc: int, m: FmuModel<S, T>, ghost slots: seq<nat>)
    requires typeCount > TYPE_STRING
    ensures fresh(m)
    ensures rc == 0 <==> forall g :: g in m.groups && ReceivesGroup(g) ==> call(g).rc <= 0
    ensures |m.source| == |m.signals| == |texts| == |slots|
    ensures forall k :: 0 <= k < |texts| ==>
              slots[k] < |m.signals|
              && m.signals[slots[k]].name == texts[k].name && m.signals[slots[k]].vref == texts[k].vref
    ensures forall k :: 0 <= k < |texts| && !(rc == 0 && KnownType(texts[k].typ) && ReceivedBy(texts[k].causality)) ==>
              m.source[slots[k]] == zeroSource
    ensures rc == 0 ==> forall k, code: nat ::
              0 <= k < |texts| && NamesType(texts[k].typ, code) && ReceivedBy(texts[k].causality)
              && (code, texts[k].vref) in vars ==>
                m.source[slots[k]] == conv.toSource(code, Encoded(texts[k]), vars[(code, texts[k].vref)])
  {
    var raw := ParseVariables(texts);
    forall s | s in raw
      ensures Decoded(s)
    {
      var k :| 0 <= k < |raw| && raw[k] == s;
      assert SignalOfText(texts[k], raw[k]);
    }
    rc, m := CollectSignals(raw, typeCount, conv, zeroSource, zeroTarget, vars, call);
    assert |m.signals| == |multiset(m.signals)| == |multiset(raw)| == |raw|;
    slots := SlotsOfTexts(raw, m.signals);
    forall k | 0 <= k < |texts|
      ensures slots[k] < |m.signals| && SignalOfText(texts[k], m.signals[slots[k]])
    {
      assert SignalOfText(texts[k], raw[k]);
    }
  }

  lemma {:induction false} SlotsOfTexts(raw: seq<Signal>, signals: seq<Signal>) returns (slots: seq<nat>)
    requires multiset(signals) == multiset(raw)
    ensures |slots| == |raw| && forall k :: 0 <= k < |raw| ==> slots[k] < |signals| && signals[slots[k]] == raw[k]
  {
    slots := [];
    for k := 0 to |raw|
      invariant |slots| == k && forall j :: 0 <= j < k ==> slots[j] < |signals| && signals[slots[j]] == raw[j]
    {
      assert raw[k] in multiset(raw);
      assert raw[k] in signals;
      var slot :| 0 <= slot < |signals| && signals[slot] == raw[k];
      slots := slots + [slot];
    }
  }
}
