/** Sizing and filling a signal vector from the variables of a model description, in two passes
    (dse/fmu/fmi2variable.c, dse/fmu/signal.c:221-239). */
module VariableIndex {
  import opened Wrappers

  /** A child node of a ScalarVariable: an element, or text and comments. */
  datatype Child = Element(name: string) | NoElement

  datatype ScalarVariable = ScalarVariable(name: string, vref: string, causality: string, encoding: Option<string>,
                                           children: seq<Child>)

  predicate IsScalarVar(child: Child) {
    && child.Element?
    && (child.name == "Real" || child.name == "Integer" || child.name == "Boolean" || child.name == "Float64")
  }

  predicate IsBinaryVar(child: Child) {
    child.Element? && (child.name == "String" || child.name == "Binary")
  }

  predicate Wanted(child: Child, isBinary: bool) {
    if isBinary then IsBinaryVar(child) else IsScalarVar(child)
  }

  // ----- first pass -----

  function CountChildren(children: seq<Child>, isBinary: bool): nat {
    if children == [] then 0
    else (if Wanted(children[0], isBinary) then 1 else 0) + CountChildren(children[1..], isBinary)
  }

  function CountAll(vars: seq<ScalarVariable>, isBinary: bool): nat {
    if vars == [] then 0
    else CountAll(vars[..|vars| - 1], isBinary) + CountChildren(vars[|vars| - 1].children, isBinary)
  }

  /** fmu_variable_count: every wanted child of every variable. */
  method VariableCount(vars: seq<ScalarVariable>, isBinary: bool) returns (count: nat)
    ensures count == CountAll(vars, isBinary)
  {
    count := 0;
    for i := 0 to |vars|
      invariant count == CountAll(vars[..i], isBinary)
    {
      assert vars[..i + 1][..i] == vars[..i];
      var children := vars[i].children;
      ghost var before := count;
      for c := 0 to |children|
        invariant count + CountChildren(children[c..], isBinary) == before + CountChildren(children, isBinary)
      {
        assert children[c..][0] == children[c] && children[c..][1..] == children[c + 1..];
        if children[c] == NoElement {
          continue;
        }
        if isBinary {
          if IsBinaryVar(children[c]) {
            count := count + 1;
          }
        } else {
          if IsScalarVar(children[c]) {
            count := count + 1;
          }
        }
      }
    }
    assert vars[..|vars|] == vars;
  }

  /** The elements that are counted: numbers and truth values as scalars, strings and binaries as binaries; text
      and comments never. */
  lemma {:induction false} CountedElements(name: string)
    ensures CountChildren([Element(name)], false) == if name in {"Real", "Integer", "Boolean", "Float64"} then 1 else 0
    ensures CountChildren([Element(name)], true) == if name in {"String", "Binary"} then 1 else 0
    ensures CountChildren([NoElement], false) == CountChildren([NoElement], true) == 0
  {
    assert [Element(name)][1..] == [] && [NoElement][1..] == [];
  }

  // ----- second pass -----

  /** The children that the second pass indexes: it leaves a variable at its first unwanted element. */
  function Taken(children: seq<Child>, isBinary: bool): nat {
    if children == [] then 0
    else if children[0] == NoElement then Taken(children[1..], isBinary)
    else if !Wanted(children[0], isBinary) then 0
    else 1 + Taken(children[1..], isBinary)
  }

  lemma {:induction false} TakenNext(children: seq<Child>, isBinary: bool, c: nat)
    requires c < |children|
    ensures Taken(children[c..], isBinary)
            == if children[c] == NoElement then Taken(children[c + 1..], isBinary)
               else if !Wanted(children[c], isBinary) then 0
               else 1 + Taken(children[c + 1..], isBinary)
  {
    assert children[c..][0] == children[c] && children[c..][1..] == children[c + 1..];
  }

  /** The children that are indexed are the wanted ones in front of the first element that is not wanted. */
  lemma {:induction false} TakenIsPrefix(children: seq<Child>, isBinary: bool) returns (p: nat)
    ensures p <= |children| && Taken(children, isBinary) == CountChildren(children[..p], isBinary)
    ensures forall i :: 0 <= i < p ==> children[i] == NoElement || Wanted(children[i], isBinary)
    ensures p < |children| ==> children[p].Element? && !Wanted(children[p], isBinary)
  {
    p := 0;
    if children != [] && (children[0] == NoElement || Wanted(children[0], isBinary)) {
      var q := TakenIsPrefix(children[1..], isBinary);
      p := q + 1;
      assert children[..p][0] == children[0] && children[..p][1..] == children[1..][..q];
    }
  }

  function TakenAll(vars: seq<ScalarVariable>, isBinary: bool): nat {
    if vars == [] then 0
    else TakenAll(vars[..|vars| - 1], isBinary) + Taken(vars[|vars| - 1].children, isBinary)
  }

  /** No wanted element stands behind an element that is not wanted. */
  ghost predicate WantedFirst(children: seq<Child>, isBinary: bool) {
    forall i, j :: 0 <= i < j < |children| && children[i].Element? && !Wanted(children[i], isBinary)
                   ==> !Wanted(children[j], isBinary)
  }

  lemma {:induction false} NoneWanted(children: seq<Child>, isBinary: bool)
    ensures CountChildren(children, isBinary) == 0
            <==> forall j :: 0 <= j < |children| ==> !Wanted(children[j], isBinary)
  {
    if children != [] {
      NoneWanted(children[1..], isBinary);
      assert forall j :: 0 < j < |children| ==> children[j] == children[1..][j - 1];
    }
  }

  lemma {:induction false} TakenIsBounded(children: seq<Child>, isBinary: bool)
    ensures Taken(children, isBinary) <= CountChildren(children, isBinary)
  {
    if children != [] {
      TakenIsBounded(children[1..], isBinary);
    }
  }

  lemma {:induction false} TakenIsAll(children: seq<Child>, isBinary: bool)
    ensures Taken(children, isBinary) == CountChildren(children, isBinary) <==> WantedFirst(children, isBinary)
  {
    if children != [] {
      var rest := children[1..];
      TakenIsAll(rest, isBinary);
      NoneWanted(rest, isBinary);
      WantedFirstStep(children, isBinary);
    }
  }

  lemma {:induction false} WantedFirstStep(children: seq<Child>, isBinary: bool)
    requires children != []
    ensures WantedFirst(children, isBinary) <==>
            WantedFirst(children[1..], isBinary)
            && (children[0].Element? && !Wanted(children[0], isBinary)
                ==> forall j :: 0 <= j < |children[1..]| ==> !Wanted(children[1..][j], isBinary))
  {
    var rest := children[1..];
    assert forall j :: 0 <= j < |rest| ==> rest[j] == children[j + 1];
    assert forall j :: 0 < j < |children| ==> children[j] == rest[j - 1];
  }

  /** The second pass never needs more slots than the first pass counted, and needs them all exactly
      when in every variable the wanted elements come before all others. */
  lemma {:induction false} SlotsSuffice(vars: seq<ScalarVariable>, isBinary: bool)
    ensures TakenAll(vars, isBinary) <= CountAll(vars, isBinary)
    ensures TakenAll(vars, isBinary) == CountAll(vars, isBinary)
            <==> forall i :: 0 <= i < |vars| ==> WantedFirst(vars[i].children, isBinary)
  {
    if vars != [] {
      var n := |vars| - 1;
      SlotsSuffice(vars[..n], isBinary);
      TakenIsBounded(vars[n].children, isBinary);
      TakenIsAll(vars[n].children, isBinary);
      assert forall i :: 0 <= i < n ==> vars[i] == vars[..n][i];
    }
  }

  /** A scalar variable whose annotations come first is counted, but not indexed. */
  lemma {:induction false} AnnotationsFirstLeaveASlot()
    ensures var children := [Element("Annotations"), Element("Real")];
            CountChildren(children, false) == 1 && Taken(children, false) == 0
  {
    var children := [Element("Annotations"), Element("Real")];
    assert children[1..] == [Element("Real")] && children[1..][1..] == [];
    assert CountChildren(children[1..], false) == 1 + CountChildren([], false);
  }

  /** What the second pass has built: the names of the used slots, and the indexes from value reference
      to slot by causality. */
  datatype Filled = Filled(names: seq<string>, input: map<string, nat>, output: map<string, nat>, coded: set<string>)

  const EMPTY: Filled := Filled([], map[], map[], {})

  function IndexOne(f: Filled, v: ScalarVariable, isBinary: bool): Filled {
    var slot := |f.names|;
    Filled(
      f.names + [v.name],
      if v.causality == "input" then f.input[v.vref := slot] else f.input,
      if v.causality == "output" then f.output[v.vref := slot] else f.output,
      if isBinary && v.encoding == Some("ascii85") then f.coded + {v.vref} else f.coded)
  }

  function IndexTimes(f: Filled, v: ScalarVariable, isBinary: bool, n: nat): (r: Filled)
    ensures |r.names| == |f.names| + n
  {
    if n == 0 then f else IndexOne(IndexTimes(f, v, isBinary, n - 1), v, isBinary)
  }

  function FillAll(vars: seq<ScalarVariable>, isBinary: bool): (r: Filled)
    ensures |r.names| == TakenAll(vars, isBinary)
  {
    if vars == [] then EMPTY
    else
      var n := |vars| - 1;
      IndexTimes(FillAll(vars[..n], isBinary), vars[n], isBinary, Taken(vars[n].children, isBinary))
  }

  /** Indexes point at used slots, and no slot is shared between two references or two causalities. */
  ghost predicate OneReferencePerSlot(f: Filled) {
    && (forall k :: k in f.input ==> f.input[k] < |f.names|)
    && (forall k :: k in f.output ==> f.output[k] < |f.names|)
    && (forall a, b :: a in f.input && b in f.input && f.input[a] == f.input[b] ==> a == b)
    && (forall a, b :: a in f.output && b in f.output && f.output[a] == f.output[b] ==> a == b)
    && (forall a, b :: a in f.input && b in f.output ==> f.input[a] != f.output[b])
  }

  lemma {:induction false} IndexOneKeeps(f: Filled, v: ScalarVariable, isBinary: bool)
    requires OneReferencePerSlot(f)
    ensures OneReferencePerSlot(IndexOne(f, v, isBinary))
  {
  }

  lemma {:induction false} IndexTimesKeeps(f: Filled, v: ScalarVariable, isBinary: bool, n: nat)
    requires OneReferencePerSlot(f)
    ensures OneReferencePerSlot(IndexTimes(f, v, isBinary, n))
  {
    if n > 0 {
      IndexTimesKeeps(f, v, isBinary, n - 1);
      IndexOneKeeps(IndexTimes(f, v, isBinary, n - 1), v, isBinary);
    }
  }

  /** Whatever the model description, different indexed references have different storage. */
  lemma {:induction false} ReferencesHaveOwnStorage(vars: seq<ScalarVariable>, isBinary: bool)
    ensures OneReferencePerSlot(FillAll(vars, isBinary))
  {
    if vars != [] {
      var n := |vars| - 1;
      ReferencesHaveOwnStorage(vars[..n], isBinary);
      IndexTimesKeeps(FillAll(vars[..n], isBinary), vars[n], isBinary, Taken(vars[n].children, isBinary));
    }
  }

  // ----- what the indexes say -----

  function IndexOf(f: Filled, isInput: bool): map<string, nat> {
    if isInput then f.input else f.output
  }

  predicate HasCausality(v: ScalarVariable, isInput: bool) {
    v.causality == (if isInput then "input" else "output")
  }

  /** Variable `i` is indexed under this reference. */
  ghost predicate Indexed(vars: seq<ScalarVariable>, isBinary: bool, isInput: bool, vref: string, i: nat) {
    && i < |vars| && vars[i].vref == vref && HasCausality(vars[i], isInput)
    && Taken(vars[i].children, isBinary) > 0
  }

  lemma {:induction false} IndexTimesFinds(f: Filled, v: ScalarVariable, isBinary: bool, isInput: bool, vref: string,
      n: nat)
    ensures var r := IndexTimes(f, v, isBinary, n);
            && r.names[..|f.names|] == f.names
            && if n > 0 && v.vref == vref && HasCausality(v, isInput) then
                 && vref in IndexOf(r, isInput) && IndexOf(r, isInput)[vref] == |f.names| + n - 1
                 && r.names[|f.names| + n - 1] == v.name
               else
                 && (vref in IndexOf(r, isInput) <==> vref in IndexOf(f, isInput))
                 && (vref in IndexOf(f, isInput) ==> IndexOf(r, isInput)[vref] == IndexOf(f, isInput)[vref])
  {
    assert |"input"| != |"output"|;
    if n > 0 {
      IndexTimesFinds(f, v, isBinary, isInput, vref, n - 1);
    }
  }

  /** A lookup finds a slot exactly for the references of indexed variables of that causality, and it is a
      slot of the last of them. */
  lemma {:induction false} LookupFindsLast(vars: seq<ScalarVariable>, isBinary: bool, isInput: bool, vref: string)
    returns (i: nat)
    ensures var f := FillAll(vars, isBinary);
            && (vref in IndexOf(f, isInput) <==> exists j: nat :: Indexed(vars, isBinary, isInput, vref, j))
            && (vref in IndexOf(f, isInput) ==>
                  && Indexed(vars, isBinary, isInput, vref, i)
                  && IndexOf(f, isInput)[vref] < |f.names| && f.names[IndexOf(f, isInput)[vref]] == vars[i].name
                  && forall j: nat :: j > i ==> !Indexed(vars, isBinary, isInput, vref, j))
  {
    i := 0;
    if vars != [] {
      var n := |vars| - 1;
      var before := FillAll(vars[..n], isBinary);
      i := LookupFindsLast(vars[..n], isBinary, isInput, vref);
      IndexTimesFinds(before, vars[n], isBinary, isInput, vref, Taken(vars[n].children, isBinary));
      forall j: nat
        ensures Indexed(vars, isBinary, isInput, vref, j)
                <==> || Indexed(vars[..n], isBinary, isInput, vref, j)
                     || (j == n && Indexed(vars, isBinary, isInput, vref, n))
      {
      }
      if Indexed(vars, isBinary, isInput, vref, n) {
        i := n;
      } else if vref in IndexOf(before, isInput) {
        var k := IndexOf(before, isInput)[vref];
        var names := FillAll(vars, isBinary).names;
        assert names[..|before.names|][k] == names[k];
      }
    }
  }

  lemma {:induction false} IndexTimesCodes(f: Filled, v: ScalarVariable, isBinary: bool, n: nat)
    ensures IndexTimes(f, v, isBinary, n).coded
            == if n > 0 && isBinary && v.encoding == Some("ascii85") then f.coded + {v.vref} else f.coded
  {
    if n > 0 {
      IndexTimesCodes(f, v, isBinary, n - 1);
    }
  }

  /** Encoder functions are installed for exactly the references of indexed binary variables annotated with
      "ascii85", whatever their causality. */
  lemma {:induction false} CodedReferences(vars: seq<ScalarVariable>, isBinary: bool, vref: string)
    ensures vref in FillAll(vars, isBinary).coded
            <==> isBinary && exists i :: 0 <= i < |vars| && vars[i].vref == vref && vars[i].encoding == Some("ascii85")
                                         && Taken(vars[i].children, isBinary) > 0
  {
    if vars != [] {
      var n := |vars| - 1;
      CodedReferences(vars[..n], isBinary, vref);
      IndexTimesCodes(FillAll(vars[..n], isBinary), vars[n], isBinary, Taken(vars[n].children, isBinary));
      assert forall i :: 0 <= i < n ==> vars[..n][i] == vars[i];
    }
  }

  /** A signal vector under construction, with the FMU's indexes for it. */
  class VariableIndexer {
    const signal: array<string>
    var input: map<string, nat>
    var output: map<string, nat>
    var coded: set<string>

    /** The first `used` slots and the indexes are those of `f`. */
    ghost predicate Holds(f: Filled)
      reads this, signal
    {
      && |f.names| <= signal.Length && signal[..|f.names|] == f.names
      && input == f.input && output == f.output && coded == f.coded
    }

    /** __allocate_sv: one slot per counted variable. */
    constructor (vars: seq<ScalarVariable>, isBinary: bool)
      ensures signal.Length == CountAll(vars, isBinary) && fresh(signal)
      ensures Holds(EMPTY)
    {
      var count := VariableCount(vars, isBinary);
      signal := new string[count](_ => "");
      input, output, coded := map[], map[], {};
      new;
      assert signal[..0] == [];
    }

    /** __index_scalar_variable and __index_binary_variable for slot `used`. */
    method IndexVariable(v: ScalarVariable, isBinary: bool, used: nat, ghost f: Filled)
      requires used == |f.names| && used < signal.Length && Holds(f)
      modifies this, signal
      ensures Holds(IndexOne(f, v, isBinary))
      ensures forall k :: used < k < signal.Length ==> signal[k] == old(signal[k])
    {
      signal[used] := v.name;
      if v.causality == "output" {
        output := output[v.vref := used];
      } else if v.causality == "input" {
        input := input[v.vref := used];
      }
      if isBinary {
        if v.encoding.Some? {
          if v.encoding.value == "ascii85" {
            coded := coded + {v.vref};
          }
        }
      }
      assert signal[..used + 1] == f.names + [v.name];
    }

    /** The loop over the children of one variable. Its assertion on the slot never fails. */
    method IndexChildren(v: ScalarVariable, isBinary: bool, start: nat, ghost f: Filled) returns (used: nat)
      requires start == |f.names| && start + Taken(v.children, isBinary) <= signal.Length && Holds(f)
      modifies this, signal
      ensures used == start + Taken(v.children, isBinary)
      ensures Holds(IndexTimes(f, v, isBinary, Taken(v.children, isBinary)))
      ensures forall k :: used <= k < signal.Length ==> signal[k] == old(signal[k])
    {
      used := start;
      var children := v.children;
      assert children[0..] == children;
      for c := 0 to |children|
        invariant used + Taken(children[c..], isBinary) == start + Taken(children, isBinary) && start <= used
        invariant Holds(IndexTimes(f, v, isBinary, used - start))
        invariant forall k :: used <= k < signal.Length ==> signal[k] == old(signal[k])
      {
        TakenNext(children, isBinary, c);
        if children[c] == NoElement {
          continue;
        }
        if isBinary {
          if !IsBinaryVar(children[c]) { return; }
        } else {
          if !IsScalarVar(children[c]) { return; }
        }
        assert used < signal.Length;
        IndexVariable(v, isBinary, used, IndexTimes(f, v, isBinary, used - start));
        used := used + 1;
      }
    }

    /** fmu_variable_index: fills a contiguous run of slots from the first, one per indexed child. */
    method Fill(vars: seq<ScalarVariable>, isBinary: bool) returns (used: nat)
      requires signal.Length == CountAll(vars, isBinary) && Holds(EMPTY)
      modifies this, signal
      ensures used == TakenAll(vars, isBinary) <= signal.Length
      ensures Holds(FillAll(vars, isBinary))
      ensures forall k :: used <= k < signal.Length ==> signal[k] == old(signal[k])
    {
      used := 0;
      SlotsSuffice(vars, isBinary);
      for i := 0 to |vars|
        invariant used == TakenAll(vars[..i], isBinary) && Holds(FillAll(vars[..i], isBinary))
        invariant forall k :: used <= k < signal.Length ==> signal[k] == old(signal[k])
      {
        TakenPrefix(vars, isBinary, i + 1);
        assert vars[..i + 1][..i] == vars[..i];
        used := IndexChildren(vars[i], isBinary, used, FillAll(vars[..i], isBinary));
      }
      assert vars[..|vars|] == vars;
    }
  }

  lemma {:induction false} TakenPrefix(vars: seq<ScalarVariable>, isBinary: bool, i: nat)
    requires i <= |vars|
    ensures TakenAll(vars[..i], isBinary) <= TakenAll(vars, isBinary)
    decreases |vars| - i
  {
    if i == |vars| {
      assert vars[..i] == vars;
    } else {
      TakenPrefix(vars, isBinary, i + 1);
      assert vars[..i + 1][..i] == vars[..i];
    }
  }
}
