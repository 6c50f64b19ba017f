/** Patching a SignalGroup in place from a CSV of source and target names
    (extra/tools/fmi/pkg/patch/signalgroup.go:76-135). */
module SignalPatch {
  import opened Sequences
  import opened Wrappers

  /** A signal of the group; everything but the name is carried along. */
  datatype Signal<T> = Signal(name: string, data: T)

  datatype Record = Record(source: string, target: string)

  datatype PatchError = UnexpectedColumns

  type Patch = map<string, string>

  // ----- the patch map -----

  /** An empty target keeps the source name; a later record for a source overrides an earlier one. */
  function PatchOf(records: seq<Record>): Patch {
    if records == [] then map[]
    else
      var r := records[|records| - 1];
      PatchOf(records[..|records| - 1])[r.source := if r.target != "" then r.target else r.source]
  }

  /** Record `i` is the last one for its source. */
  ghost predicate LastFor(records: seq<Record>, i: nat) {
    i < |records| && forall j :: i < j < |records| ==> records[j].source != records[i].source
  }

  lemma {:induction false} LastRecordWins(records: seq<Record>, i: nat)
    requires LastFor(records, i)
    ensures var r := records[i];
            r.source in PatchOf(records) && PatchOf(records)[r.source] == if r.target != "" then r.target else r.source
  {
    if i < |records| - 1 {
      LastRecordWins(records[..|records| - 1], i);
    }
  }

  lemma {:induction false} OnlyRecordedSources(records: seq<Record>, name: string)
    ensures name in PatchOf(records) <==> exists i :: 0 <= i < |records| && records[i].source == name
  {
    if records != [] {
      var n := |records| - 1;
      OnlyRecordedSources(records[..n], name);
      assert forall i :: 0 <= i < n ==> records[..n][i] == records[i];
    }
  }

  // ----- what happens to one signal, and to all -----

  function PatchedSignal<T>(patch: Patch, removeUnknown: bool, s: Signal<T>): seq<Signal<T>> {
    if s.name in patch then
      if patch[s.name] == "inactive" then [] else [s.(name := patch[s.name])]
    else if removeUnknown then []
    else [s]
  }

  /** The functional form: a filter and map over the list, order kept. */
  function Patched<T>(patch: Patch, removeUnknown: bool, signals: seq<Signal<T>>): (r: seq<Signal<T>>)
    ensures |r| <= |signals|
  {
    if signals == [] then []
    else
      Patched(patch, removeUnknown, signals[..|signals| - 1])
          + PatchedSignal(patch, removeUnknown, signals[|signals| - 1])
  }

  /** Every signal is treated on its own, wherever it stands. */
  lemma {:induction false} PatchedConcat<T>(patch: Patch, removeUnknown: bool, a: seq<Signal<T>>, b: seq<Signal<T>>)
    ensures Patched(patch, removeUnknown, a + b) == Patched(patch, removeUnknown, a) + Patched(patch, removeUnknown, b)
  {
    if b == [] {
      assert a + b == a;
    } else {
      var n := |b| - 1;
      PatchedConcat(patch, removeUnknown, a, b[..n]);
      LastApart(a, b);
      PatchedSnoc(patch, removeUnknown, a + b[..n], b[n]);
      ConcatIsAssociative(Patched(patch, removeUnknown, a), Patched(patch, removeUnknown, b[..n]),
          PatchedSignal(patch, removeUnknown, b[n]));
    }
  }

  lemma {:induction false} LastApart<X>(a: seq<X>, b: seq<X>)
    requires b != []
    ensures a + b == (a + b[..|b| - 1]) + [b[|b| - 1]]
  {
  }

  lemma {:induction false} PatchedSnoc<T>(patch: Patch, removeUnknown: bool, signals: seq<Signal<T>>, s: Signal<T>)
    ensures Patched(patch, removeUnknown, signals + [s])
            == Patched(patch, removeUnknown, signals) + PatchedSignal(patch, removeUnknown, s)
  {
    assert (signals + [s])[..|signals|] == signals;
  }

  /** A record with an empty target is meant to keep its signal. It does so exactly when the signal is
      not itself called "inactive": then the kept name reads as the removal marker. */
  lemma {:induction false} EmptyTargetKeeps<T>(records: seq<Record>, i: nat, removeUnknown: bool, s: Signal<T>)
    requires LastFor(records, i) && records[i].source == s.name && records[i].target == ""
    ensures PatchedSignal(PatchOf(records), removeUnknown, s) == [s] <==> s.name != "inactive"
  {
    LastRecordWins(records, i);
  }

  lemma {:induction false} EmptyTargetDrops()
    ensures PatchedSignal(PatchOf([Record("inactive", "")]), false, Signal("inactive", 0)) == []
  {
    assert [Record("inactive", "")][..0] == [];
    LastRecordWins([Record("inactive", "")], 0);
  }

  /** What the records do to a signal, by the last record for its name: a target renames it, unless it is "inactive",
      which drops it; without a record the signal is kept or dropped by the flag. */
  lemma {:induction false} RecordDecides<T>(records: seq<Record>, removeUnknown: bool, s: Signal<T>, i: nat)
    ensures LastFor(records, i) && records[i].source == s.name && records[i].target != "" ==>
              Patched(PatchOf(records), removeUnknown, [s])
              == if records[i].target == "inactive" then [] else [Signal(records[i].target, s.data)]
    ensures (forall k :: 0 <= k < |records| ==> records[k].source != s.name) ==>
              Patched(PatchOf(records), removeUnknown, [s]) == if removeUnknown then [] else [s]
  {
    assert [s][..0] == [];
    OnlyRecordedSources(records, s.name);
    if LastFor(records, i) {
      LastRecordWins(records, i);
    }
  }

  /** The new name of source `k` is left alone by the same patch. */
  predicate TargetStays(patch: Patch, removeUnknown: bool, k: string)
    requires k in patch
  {
    var t := patch[k];
    t == "inactive" || (t in patch && patch[t] == t) || (t !in patch && !removeUnknown)
  }

  /** Applying a patch again changes nothing, for every signal list, exactly when each of its targets
      stays: chains of renames and dropped new names are what breaks it. */
  lemma {:induction false} PatchedTwice<T>(patch: Patch, removeUnknown: bool, signals: seq<Signal<T>>)
    requires forall k :: k in patch ==> TargetStays(patch, removeUnknown, k)
    ensures Patched(patch, removeUnknown, Patched(patch, removeUnknown, signals))
            == Patched(patch, removeUnknown, signals)
  {
    if signals != [] {
      var n := |signals| - 1;
      var last := PatchedSignal(patch, removeUnknown, signals[n]);
      PatchedTwice(patch, removeUnknown, signals[..n]);
      PatchedConcat(patch, removeUnknown, Patched(patch, removeUnknown, signals[..n]), last);
      PatchedSignalTwice(patch, removeUnknown, signals[n]);
    }
  }

  lemma {:induction false} PatchedSignalTwice<T>(patch: Patch, removeUnknown: bool, s: Signal<T>)
    requires s.name in patch ==> TargetStays(patch, removeUnknown, s.name)
    ensures Patched(patch, removeUnknown, PatchedSignal(patch, removeUnknown, s))
            == PatchedSignal(patch, removeUnknown, s)
  {
    var last := PatchedSignal(patch, removeUnknown, s);
    if last != [] {
      PatchedSnoc(patch, removeUnknown, [], last[0]);
      assert [] + [last[0]] == last;
    }
  }

  lemma {:induction false} PatchedTwiceNeedsStays<T>(patch: Patch, removeUnknown: bool, k: string, data: T)
    requires k in patch && !TargetStays(patch, removeUnknown, k)
    ensures var once := Patched(patch, removeUnknown, [Signal(k, data)]);
            Patched(patch, removeUnknown, once) != once
  {
    var renamed := Signal(patch[k], data);
    PatchedSnoc(patch, removeUnknown, [], Signal(k, data));
    assert [] + [Signal(k, data)] == [Signal(k, data)];
    PatchedSnoc(patch, removeUnknown, [], renamed);
    assert [] + [renamed] == [renamed];
  }

  // ----- the command -----

  method BuildPatch(records: seq<Record>) returns (patch: Patch)
    ensures patch == PatchOf(records)
  {
    patch := map[];
    for k := 0 to |records|
      invariant patch == PatchOf(records[..k])
    {
      assert records[..k + 1][..k] == records[..k];
      var record := records[k];
      if record.target != "" {
        patch := patch[record.source := record.target];
      } else {
        patch := patch[record.source := record.source];
      }
    }
    assert records[..|records|] == records;
  }

  /** The slice in the middle of the loop: what is kept so far, stale signals, and what is still to be read. */
  ghost predicate Compacting<T>(slice: seq<Signal<T>>, kept: seq<Signal<T>>, list: seq<Signal<T>>, k: nat) {
    && |kept| <= k <= |list| && |slice| == |list|
    && (forall j :: 0 <= j < |kept| ==> slice[j] == kept[j])
    && (forall j :: k <= j < |list| ==> slice[j] == list[j])
  }

  lemma {:induction false} KeepOne<T>(slice: seq<Signal<T>>, kept: seq<Signal<T>>, list: seq<Signal<T>>, k: nat,
      s: Signal<T>)
    requires Compacting(slice, kept, list, k) && k < |list|
    ensures Compacting(slice[|kept| := s], kept + [s], list, k + 1)
  {
  }

  /** Compacts the slice towards its start. The write index never passes the read index, so every
      signal is read before its place is reused. */
  method PatchSignals<T>(header: Record, records: seq<Record>, removeUnknown: bool, signals: array<Signal<T>>)
    returns (r: Result<nat, PatchError>)
    modifies signals
    ensures r.Err? <==> header != Record("source", "target")
    ensures r.Err? ==> signals[..] == old(signals[..])
    ensures r.Ok? ==> r.value <= signals.Length
    ensures r.Ok? ==> signals[..r.value] == Patched(PatchOf(records), removeUnknown, old(signals[..]))
  {
    if header.source != "source" || header.target != "target" {
      return Err(UnexpectedColumns);
    }
    var patch := BuildPatch(records);
    ghost var list := signals[..];
    ghost var kept: seq<Signal<T>> := [];
    var i := 0;
    for k := 0 to signals.Length
      invariant |kept| == i && Compacting(signals[..], kept, list, k)
      invariant kept == Patched(patch, removeUnknown, list[..k])
    {
      var s := signals[k];
      assert s == list[k];
      PatchedNext(patch, removeUnknown, list, kept, k);
      if s.name in patch {
        var target := patch[s.name];
        if target != "inactive" {
          s := s.(name := target);
          KeepOne(signals[..], kept, list, k, s);
          signals[i] := s;
          i := i + 1;
          kept := kept + [s];
          continue;
        }
      } else {
        if !removeUnknown {
          KeepOne(signals[..], kept, list, k, s);
          signals[i] := s;
          i := i + 1;
          kept := kept + [s];
          continue;
        }
      }
    }
    assert list[..signals.Length] == list;
    assert signals[..i] == kept;
    return Ok(i);
  }

  /** One signal further: it is dropped, or appended under its target name, or as it is. */
  lemma {:induction false} PatchedNext<T>(patch: Patch, removeUnknown: bool, list: seq<Signal<T>>, kept: seq<Signal<T>>,
      k: nat)
    requires k < |list| && kept == Patched(patch, removeUnknown, list[..k])
    ensures var s, next := list[k], Patched(patch, removeUnknown, list[..k + 1]);
            if s.name in patch then
              (if patch[s.name] == "inactive" then next == kept else next == kept + [s.(name := patch[s.name])])
            else if removeUnknown then next == kept
            else next == kept + [s]
  {
    assert list[..k + 1] == list[..k] + [list[k]];
    PatchedSnoc(patch, removeUnknown, list[..k], list[k]);
  }
}
