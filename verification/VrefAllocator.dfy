/** Value references of a generated gateway FMU: parameters, scalars and binary signals share one
    counter (extra/tools/fmi/internal/app/generate/gatewayfmu.go:283-417, 511-640). */
module VrefAllocator {
  import opened Sequences
  import opened Wrappers

  /** A generated variable; a binary signal has an input and an output reference. */
  datatype Variable = Variable(name: string, vrefs: seq<nat>)

  /** A signal with the annotations that decide its causality. */
  datatype Signal = Signal(name: string, softecuDirection: Option<string>, direction: Option<string>,
      causality: Option<string>)

  datatype SignalGroup = SignalGroup(isBinary: bool, signals: seq<Signal>)

  /** The type of an entry of `cmd_envvars`: absent, a string, or a value of another kind. */
  datatype EnvarType = Absent | Text(text: string) | OtherValue

  /** An entry of `cmd_envvars`; `None` for a name that is absent or not a string. */
  datatype Envar = Envar(typ: EnvarType, name: Option<string>)

  /** A line of the parameter CSV, with its type already trimmed and lower-cased. */
  datatype CsvRecord = CsvRecord(fields: nat, name: string, typ: string)

  datatype CsvError = MalformedRecord | UnknownType

  /** Later annotations override earlier ones. */
  function Causality(s: Signal): string {
    if s.causality.Some? then s.causality.value
    else if s.direction.Some? then s.direction.value
    else if s.softecuDirection == Some("M2E") then "input"
    else if s.softecuDirection == Some("E2M") then "output"
    else ""
  }

  /** An FMI causality decides before a direction, and that before the direction of a SoftECU. */
  lemma {:induction false} CausalityOrder(s: Signal)
    ensures s.causality.Some? ==> Some(Causality(s)) == s.causality
    ensures s.causality == None && s.direction.Some? ==> Some(Causality(s)) == s.direction
    ensures s.causality == None && s.direction == None ==>
              && (Causality(s) == "input" <==> s.softecuDirection == Some("M2E"))
              && (Causality(s) == "output" <==> s.softecuDirection == Some("E2M"))
              && Causality(s) in {"input", "output", ""}
  {
    assert |"input"| != |"output"| && |"M2E"| == 3 && "M2E"[0] != "E2M"[0];
  }

  // ----- the merged signals -----

  /** What the merge keeps, in order. */
  datatype Item = Scalar(name: string) | Binary(name: string)

  /** The scalars of a group that are kept, given the names used before. A local signal is dropped but
      its name is used up. */
  function KeptScalars(signals: seq<Signal>, used: seq<string>): seq<Item> {
    if signals == [] then []
    else
      var s := signals[0];
      if s.name in used then KeptScalars(signals[1..], used)
      else
        var rest := KeptScalars(signals[1..], used + [s.name]);
        if Causality(s) == "local" then rest else [Scalar(s.name)] + rest
  }

  /** The names in use after the scalars of a group. */
  function UsedAfter(signals: seq<Signal>, used: seq<string>): seq<string> {
    if signals == [] then used
    else UsedAfter(signals[1..], if signals[0].name in used then used else used + [signals[0].name])
  }

  function BinaryItems(signals: seq<Signal>): (r: seq<Item>) {
    seq(|signals|, i requires 0 <= i < |signals| => Binary(signals[i].name))
  }

  function ItemsOf(groups: seq<SignalGroup>, used: seq<string>): seq<Item> {
    if groups == [] then []
    else if groups[0].isBinary then BinaryItems(groups[0].signals) + ItemsOf(groups[1..], used)
    else KeptScalars(groups[0].signals, used) + ItemsOf(groups[1..], UsedAfter(groups[0].signals, used))
  }

  /** The references given to the items from counter `v` on: only scalars advance it. */
  function Allocated(items: seq<Item>, v: nat): (r: seq<Variable>)
    ensures |r| == |items|
  {
    if items == [] then []
    else
      match items[0]
      case Scalar(name) => [Variable(name, [v])] + Allocated(items[1..], v + 1)
      case Binary(name) => [Variable(name, [v, v + 1])] + Allocated(items[1..], v)
  }

  function CounterAfter(items: seq<Item>, v: nat): (r: nat)
    ensures r >= v
  {
    if items == [] then v
    else CounterAfter(items[1..], if items[0].Scalar? then v + 1 else v)
  }

  // ----- distinct references -----

  /** No reference is used twice, within a variable or between two. */
  ghost predicate DistinctVrefs(vars: seq<Variable>) {
    && (forall i, a, b :: 0 <= i < |vars| && 0 <= a < b < |vars[i].vrefs| ==> vars[i].vrefs[a] != vars[i].vrefs[b])
    && (forall i, j, a, b :: 0 <= i < j < |vars| && 0 <= a < |vars[i].vrefs| && 0 <= b < |vars[j].vrefs|
                             ==> vars[i].vrefs[a] != vars[j].vrefs[b])
  }

  /** Nothing is kept behind a binary signal. */
  ghost predicate BinaryOnlyLast(items: seq<Item>) {
    forall i :: 0 <= i < |items| - 1 ==> items[i].Scalar?
  }

  lemma {:induction false} AllocatedFrom(items: seq<Item>, v: nat)
    ensures forall i :: 0 <= i < |items| ==> |Allocated(items, v)[i].vrefs| > 0
    ensures forall i, a :: 0 <= i < |items| && 0 <= a < |Allocated(items, v)[i].vrefs| ==>
              Allocated(items, v)[i].vrefs[a] >= v
  {
    if items != [] {
      var next := if items[0].Scalar? then v + 1 else v;
      AllocatedFrom(items[1..], next);
      assert forall i :: 0 < i < |items| ==> Allocated(items, v)[i] == Allocated(items[1..], next)[i - 1];
    }
  }

  /** While only scalars come first, they are numbered consecutively. */
  lemma {:induction false} LeadingScalars(items: seq<Item>, v: nat, k: nat)
    requires k < |items| && forall i :: 0 <= i < k ==> items[i].Scalar?
    ensures Allocated(items, v)[k]
            == if items[k].Scalar? then Variable(items[k].name, [v + k])
                else Variable(items[k].name, [v + k, v + k + 1])
  {
    if k > 0 {
      LeadingScalars(items[1..], v + 1, k - 1);
    }
  }

  /** An item behind a binary signal takes over that signal's input reference. */
  lemma {:induction false} BehindBinary(items: seq<Item>, v: nat, k: nat)
    requires k + 1 < |items| && items[k].Binary?
    ensures var a, b := Allocated(items, v)[k], Allocated(items, v)[k + 1];
            |a.vrefs| > 0 && |b.vrefs| > 0 && a.vrefs[0] == b.vrefs[0]
  {
    if k > 0 {
      BehindBinary(items[1..], if items[0].Scalar? then v + 1 else v, k - 1);
    } else {
      assert items[1..][0] == items[1];
      AllocatedFrom(items[1..], v);
    }
  }

  /** The merged signals get pairwise distinct references exactly when nothing is kept behind a binary
      signal: at most one binary signal, and no kept scalar after it. */
  lemma {:induction false} DistinctExactlyWhenBinaryLast(items: seq<Item>, v: nat)
    ensures DistinctVrefs(Allocated(items, v)) <==> BinaryOnlyLast(items)
  {
    var vars := Allocated(items, v);
    if BinaryOnlyLast(items) {
      forall k | 0 <= k < |items|
        ensures vars[k].vrefs == if items[k].Scalar? then [v + k] else [v + k, v + k + 1]
      {
        LeadingScalars(items, v, k);
      }
    } else {
      var k :| 0 <= k < |items| - 1 && !items[k].Scalar?;
      BehindBinary(items, v, k);
    }
  }

  /** Two binary signals, or a scalar behind one, share a reference. */
  lemma {:induction false} BinaryInFrontClashes(v: nat)
    ensures !DistinctVrefs(Allocated([Binary("bus"), Scalar("speed")], v))
    ensures !DistinctVrefs(Allocated([Binary("bus"), Binary("pdu")], v))
  {
    DistinctExactlyWhenBinaryLast([Binary("bus"), Scalar("speed")], v);
    DistinctExactlyWhenBinaryLast([Binary("bus"), Binary("pdu")], v);
  }

  /** Parameters allocated from 0 on. */
  ghost predicate Consecutive(params: seq<Variable>) {
    forall k :: 0 <= k < |params| ==> params[k].vrefs == [k]
  }

  /** The whole FMU: parameters never clash with anything, so the condition is the same. */
  lemma {:induction false} WholeFmuDistinct(params: seq<Variable>, items: seq<Item>)
    requires Consecutive(params)
    ensures DistinctVrefs(params + Allocated(items, |params|)) <==> BinaryOnlyLast(items)
  {
    var vars, merged := params + Allocated(items, |params|), Allocated(items, |params|);
    DistinctExactlyWhenBinaryLast(items, |params|);
    AllocatedFrom(items, |params|);
    assert forall k :: 0 <= k < |params| ==> vars[k] == params[k];
    assert forall k :: 0 <= k < |merged| ==> vars[|params| + k] == merged[k];
    if DistinctVrefs(vars) {
      SuffixDistinct(params, merged);
    }
    if DistinctVrefs(merged) {
      PrefixDistinct(params, merged);
    }
  }

  lemma {:induction false} SuffixDistinct(params: seq<Variable>, merged: seq<Variable>)
    requires DistinctVrefs(params + merged)
    ensures DistinctVrefs(merged)
  {
    var vars := params + merged;
    assert forall k :: 0 <= k < |merged| ==> vars[|params| + k] == merged[k];
    forall i, j, a, b | 0 <= i < j < |merged| && 0 <= a < |merged[i].vrefs| && 0 <= b < |merged[j].vrefs|
      ensures merged[i].vrefs[a] != merged[j].vrefs[b]
    {
      assert vars[|params| + i].vrefs[a] != vars[|params| + j].vrefs[b];
    }
    forall i, a, b | 0 <= i < |merged| && 0 <= a < b < |merged[i].vrefs|
      ensures merged[i].vrefs[a] != merged[i].vrefs[b]
    {
      assert vars[|params| + i].vrefs[a] != vars[|params| + i].vrefs[b];
    }
  }

  lemma {:induction false} PrefixDistinct(params: seq<Variable>, merged: seq<Variable>)
    requires Consecutive(params) && DistinctVrefs(merged)
    requires forall i, a :: 0 <= i < |merged| && 0 <= a < |merged[i].vrefs| ==> merged[i].vrefs[a] >= |params|
    ensures DistinctVrefs(params + merged)
  {
    var vars := params + merged;
    forall i, j, a, b | 0 <= i < j < |vars| && 0 <= a < |vars[i].vrefs| && 0 <= b < |vars[j].vrefs|
      ensures vars[i].vrefs[a] != vars[j].vrefs[b]
    {
      if i >= |params| {
        assert vars[i] == merged[i - |params|] && vars[j] == merged[j - |params|];
      } else if j >= |params| {
        assert vars[i] == params[i] && vars[j] == merged[j - |params|];
      } else {
        assert vars[i] == params[i] && vars[j] == params[j];
      }
    }
    assert forall i :: 0 <= i < |params| ==> vars[i] == params[i] && |params[i].vrefs| == 1;
    forall i, a, b | |params| <= i < |vars| && 0 <= a < b < |vars[i].vrefs|
      ensures vars[i].vrefs[a] != vars[i].vrefs[b]
    {
      assert vars[i] == merged[i - |params|];
    }
  }

  // ----- kept names -----

  /** Signal `i` is the first of that name, and is not local. */
  ghost predicate FirstAndKept(signals: seq<Signal>, name: string, i: nat) {
    && i < |signals| && signals[i].name == name && Causality(signals[i]) != "local"
    && forall j :: 0 <= j < i ==> signals[j].name != name
  }

  /** The kept scalars of a list are those of its front, and then those of its rest: order is kept. */
  lemma {:induction false} KeptInOrder(a: seq<Signal>, b: seq<Signal>, used: seq<string>)
    ensures KeptScalars(a + b, used) == KeptScalars(a, used) + KeptScalars(b, UsedAfter(a, used))
    ensures UsedAfter(a + b, used) == UsedAfter(b, UsedAfter(a, used))
    decreases |a|
  {
    if a == [] {
      assert a + b == b;
    } else {
      var next := if a[0].name in used then used else used + [a[0].name];
      assert (a + b)[0] == a[0] && (a + b)[1..] == a[1..] + b;
      KeptInOrder(a[1..], b, next);
      if a[0].name !in used && Causality(a[0]) != "local" {
        ConcatIsAssociative([Scalar(a[0].name)], KeptScalars(a[1..], next), KeptScalars(b, UsedAfter(a, used)));
      }
    }
  }

  /** The names used up are those used before, and those of all signals, kept or not. */
  lemma {:induction false} UsedNames(signals: seq<Signal>, used: seq<string>, name: string)
    ensures name in UsedAfter(signals, used)
            <==> name in used || exists i :: 0 <= i < |signals| && signals[i].name == name
  {
    if signals != [] {
      var rest := signals[1..];
      UsedNames(rest, if signals[0].name in used then used else used + [signals[0].name], name);
      assert forall i :: 0 < i < |signals| ==> signals[i] == rest[i - 1];
      assert forall i :: 0 <= i < |rest| ==> rest[i] == signals[i + 1];
    }
  }

  /** A scalar name is kept, and then once, exactly when it is new and the first signal of that name is
      not local: a local signal hides later ones of its name. */
  lemma {:induction false} KeptOnce(signals: seq<Signal>, used: seq<string>, name: string)
    ensures multiset(KeptScalars(signals, used))[Scalar(name)] <= 1
    ensures Scalar(name) in KeptScalars(signals, used)
            <==> name !in used && exists i: nat :: FirstAndKept(signals, name, i)
  {
    if signals != [] {
      var s, rest := signals[0], signals[1..];
      if s.name in used {
        KeptOnce(rest, used, name);
      } else {
        KeptOnce(rest, used + [s.name], name);
      }
      if s.name != name {
        FirstShifts(signals, name);
      } else {
        assert FirstAndKept(signals, name, 0) <==> Causality(s) != "local";
        assert forall i: nat :: i > 0 ==> !FirstAndKept(signals, name, i);
      }
    }
  }

  /** Which annotation drops a new signal: an FMI causality of "local", or without one a direction of "local". */
  lemma {:induction false} LocalIsDropped(s: Signal)
    ensures KeptScalars([s], [])
            == if s.causality == Some("local") || (s.causality == None && s.direction == Some("local")) then []
               else [Scalar(s.name)]
  {
    assert [s][1..] == [];
    assert |"local"| == |"input"| && "local"[0] != "input"[0] && |"local"| != |"output"|;
  }

  lemma {:induction false} FirstShifts(signals: seq<Signal>, name: string)
    requires signals != [] && signals[0].name != name
    ensures (exists i: nat :: FirstAndKept(signals, name, i)) <==> exists i: nat :: FirstAndKept(signals[1..], name, i)
  {
    var rest := signals[1..];
    assert forall j :: 0 <= j < |rest| ==> rest[j] == signals[j + 1];
    if i: nat :| FirstAndKept(signals, name, i) {
      assert signals[i] == rest[i - 1];
      assert FirstAndKept(rest, name, i - 1);
    }
    if i: nat :| FirstAndKept(rest, name, i) {
      assert forall j :: 0 < j < |signals| ==> signals[j] == rest[j - 1];
      assert FirstAndKept(signals, name, i + 1);
    }
  }

  lemma {:induction false} UsedStays(signals: seq<Signal>, used: seq<string>, name: string)
    requires name in used
    ensures name in UsedAfter(signals, used)
  {
    if signals != [] {
      UsedStays(signals[1..], if signals[0].name in used then used else used + [signals[0].name], name);
    }
  }

  lemma {:induction false} KeptIsUsed(signals: seq<Signal>, used: seq<string>, name: string)
    requires Scalar(name) in KeptScalars(signals, used)
    ensures name in UsedAfter(signals, used)
  {
    var s, rest := signals[0], signals[1..];
    if s.name in used {
      KeptIsUsed(rest, used, name);
    } else if s.name == name {
      UsedStays(rest, used + [s.name], name);
    } else {
      KeptIsUsed(rest, used + [s.name], name);
    }
  }

  lemma {:induction false} NoScalarAmongBinaries(signals: seq<Signal>, name: string)
    ensures multiset(BinaryItems(signals))[Scalar(name)] == 0
  {
    assert Scalar(name) !in BinaryItems(signals);
  }

  /** Over all merged groups a scalar name is kept at most once. */
  lemma {:induction false} KeptOnceOverall(groups: seq<SignalGroup>, used: seq<string>, name: string)
    ensures multiset(ItemsOf(groups, used))[Scalar(name)] <= if name in used then 0 else 1
  {
    if groups != [] {
      var signals := groups[0].signals;
      if groups[0].isBinary {
        NoScalarAmongBinaries(signals, name);
        KeptOnceOverall(groups[1..], used, name);
      } else {
        KeptOnce(signals, used, name);
        KeptOnceOverall(groups[1..], UsedAfter(signals, used), name);
        if name in used {
          UsedStays(signals, used, name);
        } else if Scalar(name) in KeptScalars(signals, used) {
          KeptIsUsed(signals, used, name);
        }
      }
    }
  }

  /** All signals of scalar groups, in order. */
  function ScalarsOf(groups: seq<SignalGroup>): seq<Signal> {
    if groups == [] then []
    else (if groups[0].isBinary then [] else groups[0].signals) + ScalarsOf(groups[1..])
  }

  /** The scalars kept of all groups are those kept of one list of them all: names count across groups, and only
      those of scalar groups do. */
  lemma {:induction false} KeptAcrossGroups(groups: seq<SignalGroup>, used: seq<string>, name: string)
    ensures Scalar(name) in ItemsOf(groups, used) <==> Scalar(name) in KeptScalars(ScalarsOf(groups), used)
  {
    if groups != [] {
      var signals, rest := groups[0].signals, groups[1..];
      if groups[0].isBinary {
        NoScalarAmongBinaries(signals, name);
        assert Scalar(name) !in multiset(BinaryItems(signals));
        assert [] + ScalarsOf(rest) == ScalarsOf(rest);
        KeptAcrossGroups(rest, used, name);
      } else {
        KeptInOrder(signals, ScalarsOf(rest), used);
        KeptAcrossGroups(rest, UsedAfter(signals, used), name);
      }
    }
  }

  /** Every signal of a binary group is kept, however often its name occurs. */
  lemma {:induction false} BinariesAreKept(groups: seq<SignalGroup>, used: seq<string>, g: nat, i: nat)
    requires g < |groups| && groups[g].isBinary && i < |groups[g].signals|
    ensures Binary(groups[g].signals[i].name) in ItemsOf(groups, used)
  {
    if g == 0 {
      assert BinaryItems(groups[0].signals)[i] == Binary(groups[0].signals[i].name);
    } else {
      BinariesAreKept(groups[1..], if groups[0].isBinary then used else UsedAfter(groups[0].signals, used), g - 1, i);
    }
  }

  // ----- parameters -----

  /** Parameters with references from `v` on. */
  function Numbered(names: seq<string>, v: nat): (r: seq<Variable>)
    ensures |r| == |names|
  {
    seq(|names|, i requires 0 <= i < |names| => Variable(names[i], [v + i]))
  }

  /** An entry without a type counts as "real". */
  predicate HasType(e: Envar, expectedType: string) {
    e.typ == Text(expectedType) || (e.typ == Absent && expectedType == "real")
  }

  /** The names of one type, in order. */
  function EnvarNames(envars: seq<Envar>, expectedType: string): seq<string> {
    if envars == [] then []
    else
      var e := envars[|envars| - 1];
      EnvarNames(envars[..|envars| - 1], expectedType)
      + (if HasType(e, expectedType) && e.name.Some? && e.name != Some("") then [e.name.value] else [])
  }

  /** Which entries become parameters: those with a name, as strings when their type is "string", as reals when it
      is "real" or absent, and never when their type is another value. */
  lemma {:induction false} EnvarBecomesParameter(e: Envar)
    ensures EnvarNames([e], "real")
            == if e.name.Some? && e.name
                != Some("") && (e.typ == Absent || e.typ == Text("real")) then [e.name.value] else []
    ensures EnvarNames([e], "string")
            == if e.name.Some? && e.name != Some("") && e.typ == Text("string") then [e.name.value] else []
  {
    assert [e][..0] == [];
    assert |"real"| != |"string"|;
  }

  /** Entries become parameters one by one, in order. */
  lemma {:induction false} EnvarsInOrder(a: seq<Envar>, b: seq<Envar>, expectedType: string)
    ensures EnvarNames(a + b, expectedType) == EnvarNames(a, expectedType) + EnvarNames(b, expectedType)
  {
    if b == [] {
      assert a + b == a;
    } else {
      var n := |b| - 1;
      EnvarsInOrder(a, b[..n], expectedType);
      assert (a + b)[..|a + b| - 1] == a + b[..n];
    }
  }

  predicate WellFormed(r: CsvRecord) {
    r.fields >= 2 && (r.typ == "type" || r.typ == "real" || r.typ == "string")
  }

  function RecordNames(records: seq<CsvRecord>): seq<string> {
    if records == [] then []
    else
      var r := records[|records| - 1];
      RecordNames(records[..|records| - 1]) + (if r.typ == "type" then [] else [r.name])
  }

  /** A record becomes a parameter unless it is a header; records become parameters one by one, in order. */
  lemma {:induction false} RecordsInOrder(a: seq<CsvRecord>, r: CsvRecord)
    ensures RecordNames(a + [r]) == if r.typ == "type" then RecordNames(a) else RecordNames(a) + [r.name]
  {
    assert (a + [r])[..|a|] == a;
  }

  lemma {:induction false} NumberedNone(before: seq<Variable>)
    ensures before + Numbered([], |before|) == before
  {
  }

  lemma {:induction false} NumberedNext(before: seq<Variable>, names: seq<string>, name: string)
    ensures before + Numbered(names + [name], |before|)
            == before + Numbered(names, |before|) + [Variable(name, [|before| + |names|])]
  {
  }

  // ----- the generator -----

  class Generator {
    var signalIdx: nat
    /** The parameters of both types, in order of allocation. */
    var params: seq<Variable>
    /** The signals of the merged groups. */
    var merged: seq<Variable>
    var usedSignals: seq<string>

    ghost predicate Valid()
      reads this
    {
      Consecutive(params) && signalIdx == |params| && merged == [] && usedSignals == []
    }

    constructor ()
      ensures Valid() && params == []
    {
      signalIdx, params, merged, usedSignals := 0, [], [], [];
    }

    method AddParameter(name: string)
      requires Valid()
      modifies this
      ensures Valid() && params == old(params) + [Variable(name, [old(signalIdx)])]
    {
      params := params + [Variable(name, [signalIdx])];
      signalIdx := signalIdx + 1;
    }

    /** createRuntime */
    method CreateRuntime(runtime: string)
      requires Valid() && params == []
      modifies this
      ensures Valid()
      ensures params == if runtime == "simer" then SimerParameters() else []
    {
      if runtime == "simer" {
        AddParameter("Simer_Command_Selector");
        AddParameter("Simer_Command");
      }
    }

    /** getEnvar: the entries of one type that have a name. */
    method GetEnvar(envars: seq<Envar>, expectedType: string)
      requires Valid()
      modifies this
      ensures Valid() && params == old(params) + Numbered(EnvarNames(envars, expectedType), |old(params)|)
    {
      NumberedNone(params);
      for k := 0 to |envars|
        invariant Valid() && params == old(params) + Numbered(EnvarNames(envars[..k], expectedType), |old(params)|)
      {
        assert envars[..k + 1][..k] == envars[..k];
        var typ := if envars[k].typ == Absent then Text("real") else envars[k].typ;
        if typ != Text(expectedType) {
          continue;
        }
        if envars[k].name == None || envars[k].name == Some("") {
          continue;
        }
        NumberedNext(old(params), EnvarNames(envars[..k], expectedType), envars[k].name.value);
        AddParameter(envars[k].name.value);
      }
      assert envars[..|envars|] == envars;
    }

    /** parseParametersCsv: stops at the first bad line; a header line is skipped. */
    method ParseParametersCsv(records: seq<CsvRecord>) returns (error: Option<CsvError>)
      requires Valid()
      modifies this
      ensures Valid()
      ensures error == None <==> forall k :: 0 <= k < |records| ==> WellFormed(records[k])
      ensures error == None ==> params == old(params) + Numbered(RecordNames(records), |old(params)|)
    {
      NumberedNone(params);
      for k := 0 to |records|
        invariant Valid() && params == old(params) + Numbered(RecordNames(records[..k]), |old(params)|)
        invariant forall j :: 0 <= j < k ==> WellFormed(records[j])
      {
        assert records[..k + 1][..k] == records[..k];
        if records[k].fields < 2 {
          return Some(MalformedRecord);
        }
        if records[k].typ == "type" {
          continue;
        }
        if records[k].typ != "real" && records[k].typ != "string" {
          return Some(UnknownType);
        }
        NumberedNext(old(params), RecordNames(records[..k]), records[k].name);
        AddParameter(records[k].name);
      }
      assert records[..|records|] == records;
      return None;
    }

    /** patchSignal for a binary group: the counter is used, but not advanced. */
    method PatchBinary(signals: seq<Signal>)
      modifies this`merged
      ensures merged == old(merged) + Allocated(BinaryItems(signals), signalIdx)
    {
      BinaryAllocated(signals, 0, signalIdx);
      assert signals[..0] == [];
      for k := 0 to |signals|
        invariant merged == old(merged) + Allocated(BinaryItems(signals[..k]), signalIdx)
      {
        BinaryAllocated(signals, k, signalIdx);
        merged := merged + [Variable(signals[k].name, [signalIdx, signalIdx + 1])];
      }
      assert signals[..|signals|] == signals;
    }

    /** patchSignal for a scalar group. */
    method PatchScalars(signals: seq<Signal>)
      modifies this`merged, this`usedSignals, this`signalIdx
      ensures merged == old(merged) + Allocated(KeptScalars(signals, old(usedSignals)), old(signalIdx))
      ensures usedSignals == UsedAfter(signals, old(usedSignals))
      ensures signalIdx == CounterAfter(KeptScalars(signals, old(usedSignals)), old(signalIdx))
    {
      ghost var goal := merged + Allocated(KeptScalars(signals, usedSignals), signalIdx);
      ghost var counter := CounterAfter(KeptScalars(signals, usedSignals), signalIdx);
      ghost var used := UsedAfter(signals, usedSignals);
      for k := 0 to |signals|
        invariant merged + Allocated(KeptScalars(signals[k..], usedSignals), signalIdx) == goal
        invariant CounterAfter(KeptScalars(signals[k..], usedSignals), signalIdx) == counter
        invariant UsedAfter(signals[k..], usedSignals) == used
      {
        var s := signals[k];
        assert signals[k..][0] == s && signals[k..][1..] == signals[k + 1..];
        if s.name in usedSignals {
          continue;
        }
        ghost var rest := KeptScalars(signals[k + 1..], usedSignals + [s.name]);
        usedSignals := usedSignals + [s.name];
        if Causality(s) == "local" {
          continue;
        }
        ScalarFirst(s.name, rest, signalIdx);
        ConcatIsAssociative(merged, [Variable(s.name, [signalIdx])], Allocated(rest, signalIdx + 1));
        merged := merged + [Variable(s.name, [signalIdx])];
        signalIdx := signalIdx + 1;
      }
    }

    /** One iteration of mergeSignalGroups. */
    method MergeGroup(group: SignalGroup, ghost later: seq<SignalGroup>)
      modifies this`merged, this`usedSignals, this`signalIdx
      ensures merged + Allocated(ItemsOf(later, usedSignals), signalIdx)
              == old(merged) + Allocated(ItemsOf([group] + later, old(usedSignals)), old(signalIdx))
    {
      ghost var before, used, v := merged, usedSignals, signalIdx;
      GroupItems(group, later, used, v);
      if group.isBinary {
        PatchBinary(group.signals);
      } else {
        PatchScalars(group.signals);
      }
      ghost var own := OwnItems(group, used);
      ConcatIsAssociative(before, Allocated(own, v), Allocated(ItemsOf(later, usedSignals), signalIdx));
    }

    /** mergeSignalGroups */
    method MergeSignalGroups(groups: seq<SignalGroup>)
      requires Valid()
      modifies this`merged, this`usedSignals, this`signalIdx
      ensures merged == Allocated(ItemsOf(groups, []), |params|)
      ensures DistinctVrefs(params + merged) <==> BinaryOnlyLast(ItemsOf(groups, []))
    {
      ghost var goal := Allocated(ItemsOf(groups, []), signalIdx);
      for g := 0 to |groups|
        invariant merged + Allocated(ItemsOf(groups[g..], usedSignals), signalIdx) == goal
      {
        ghost var later := groups[g + 1..];
        assert groups[g..] == [groups[g]] + later;
        MergeGroup(groups[g], later);
      }
      assert groups[|groups|..] == [];
      assert merged == Allocated(ItemsOf(groups, []), |params|);
      WholeFmuDistinct(params, ItemsOf(groups, []));
    }
  }

  function SimerParameters(): seq<Variable> {
    [Variable("Simer_Command_Selector", [0]), Variable("Simer_Command", [1])]
  }

  lemma {:induction false} ScalarFirst(name: string, rest: seq<Item>, v: nat)
    ensures Allocated([Scalar(name)] + rest, v) == [Variable(name, [v])] + Allocated(rest, v + 1)
    ensures CounterAfter([Scalar(name)] + rest, v) == CounterAfter(rest, v + 1)
  {
    assert ([Scalar(name)] + rest)[1..] == rest;
  }

  lemma {:induction false} AllocatedConcat(a: seq<Item>, b: seq<Item>, v: nat)
    ensures Allocated(a + b, v) == Allocated(a, v) + Allocated(b, CounterAfter(a, v))
    decreases |a|
  {
    if a == [] {
      assert a + b == b;
    } else {
      assert (a + b)[0] == a[0] && (a + b)[1..] == a[1..] + b;
      AllocatedConcat(a[1..], b, if a[0].Scalar? then v + 1 else v);
    }
  }

  function OwnItems(group: SignalGroup, used: seq<string>): seq<Item> {
    if group.isBinary then BinaryItems(group.signals) else KeptScalars(group.signals, used)
  }

  function OwnUsed(group: SignalGroup, used: seq<string>): seq<string> {
    if group.isBinary then used else UsedAfter(group.signals, used)
  }

  /** What the groups allocate is what the first one allocates, and then the others. */
  lemma {:induction false} GroupItems(group: SignalGroup, later: seq<SignalGroup>, used: seq<string>, v: nat)
    ensures var own := OwnItems(group, used);
            Allocated(ItemsOf([group] + later, used), v)
            == Allocated(own, v) + Allocated(ItemsOf(later, OwnUsed(group, used)), CounterAfter(own, v))
    ensures group.isBinary ==> CounterAfter(BinaryItems(group.signals), v) == v
  {
    assert ([group] + later)[1..] == later;
    if group.isBinary {
      BinariesKeepCounter(group.signals, v);
      AllocatedConcat(BinaryItems(group.signals), ItemsOf(later, used), v);
    } else {
      AllocatedConcat(KeptScalars(group.signals, used), ItemsOf(later, UsedAfter(group.signals, used)), v);
    }
  }

  lemma {:induction false} BinariesKeepCounter(signals: seq<Signal>, v: nat)
    ensures CounterAfter(BinaryItems(signals), v) == v
  {
    if signals != [] {
      assert BinaryItems(signals)[1..] == BinaryItems(signals[1..]);
      BinariesKeepCounter(signals[1..], v);
    }
  }

  lemma {:induction false} BinaryAllocated(signals: seq<Signal>, k: nat, v: nat)
    requires k <= |signals|
    ensures k < |signals| ==> Allocated(BinaryItems(signals[..k + 1]), v)
                              == Allocated(BinaryItems(signals[..k]), v) + [Variable(signals[k].name, [v, v + 1])]
  {
    if k < |signals| {
      assert BinaryItems(signals[..k + 1]) == BinaryItems(signals[..k]) + [Binary(signals[k].name)];
      AllocatedConcat(BinaryItems(signals[..k]), [Binary(signals[k].name)], v);
      BinariesKeepCounter(signals[..k], v);
      assert [Binary(signals[k].name)][1..] == [];
    }
  }
}
