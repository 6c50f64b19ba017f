/** Exchange of binary variables between an importer and the FMU: fmi2SetString, fmi2GetString and
    the reset and step part of fmi2DoStep (dse/fmu/fmi2fmu.c, dse/fmu/signal.c:242-259). */
module FmuExchange {
  import opened Wrappers
  import opened Bytes
  import opened Decimal
  import opened SignalVectors
  import VariableIndex

  /** The bytes of a C string. */
  type Text = seq<byte>

  /** The ascii85 pair. */
  datatype TextCodec = TextCodec(encode: seq<byte> -> Text, decode: Text -> seq<byte>)

  ghost predicate RoundTrips(codec: TextCodec) {
    forall x :: codec.decode(codec.encode(x)) == x
  }

  /** The indexes built when the FMU is instantiated: keys of value references to slots of the
      binary signal vector, and the keys that have encoder and decoder functions. */
  datatype Indexes = Indexes(rx: map<string, nat>, tx: map<string, nat>, coded: set<string>, codec: TextCodec)

  ghost predicate Indexed(ix: Indexes, slots: nat) {
    && (forall k :: k in ix.rx ==> ix.rx[k] < slots)
    && (forall k :: k in ix.tx ==> ix.tx[k] < slots)
  }

  /** The indexes that every model description leads to fit the signal vector allocated for it. */
  lemma {:induction false} BuiltIndexesFit(vars: seq<VariableIndex.ScalarVariable>, codec: TextCodec)
    ensures var f := VariableIndex.FillAll(vars, true);
            Indexed(Indexes(f.input, f.output, f.coded, codec), VariableIndex.CountAll(vars, true))
  {
    VariableIndex.ReferencesHaveOwnStorage(vars, true);
    VariableIndex.SlotsSuffice(vars, true);
  }

  /** What one entry of a SetString call contributes to slot `i`. */
  function Contribution(ix: Indexes, vr: nat, value: Option<Text>, i: nat): seq<byte>
    requires IsVref(vr)
  {
    var key := VrefKey(vr);
    if value == None || key !in ix.rx || ix.rx[key] != i then []
    else if key in ix.coded then ix.codec.decode(value.value)
    else value.value
  }

  /** What a SetString call contributes to slot `i`, in array order. */
  ghost function Contributions(ix: Indexes, vrs: seq<nat>, values: seq<Option<Text>>, i: nat): seq<byte>
    requires |vrs| == |values| && Vrefs(vrs)
  {
    if vrs == [] then []
    else
      var n := |vrs| - 1;
      Contributions(ix, vrs[..n], values[..n], i) + Contribution(ix, vrs[n], values[n], i)
  }

  // ----- whole runs -----

  /** Contents of the binary signals and the reset-once flag. */
  datatype Bus = Bus(contents: seq<seq<byte>>, signalsReset: bool)

  /** The FMI calls of a run. `DoStep` carries what the model's step leaves in the signals. */
  datatype Call =
    | SetString(vrs: seq<nat>, values: seq<Option<Text>>)
    | GetString(vrs: seq<nat>)
    | DoStep(after: seq<seq<byte>>)

  ghost predicate WellFormed(call: Call, slots: nat) {
    match call
    case SetString(vrs, values) => |vrs| == |values| && Vrefs(vrs)
    case GetString(vrs) => Vrefs(vrs)
    case DoStep(after) => |after| == slots
  }

  /** The contents once the lazy reset has run: cleared unless that happened already. */
  ghost function AfterReset(b: Bus): (r: seq<seq<byte>>)
    ensures |r| == |b.contents|
  {
    if b.signalsReset then b.contents else seq(|b.contents|, i => [])
  }

  ghost function Next(ix: Indexes, b: Bus, call: Call): (r: Bus)
    requires WellFormed(call, |b.contents|)
    ensures |r.contents| == |b.contents|
  {
    match call
    case SetString(vrs, values) =>
      var added := i requires 0 <= i < |b.contents| => AfterReset(b)[i] + Contributions(ix, vrs, values, i);
      Bus(seq(|b.contents|, added), true)
    case GetString(_) => b
    case DoStep(after) => Bus(after, false)
  }

  ghost predicate AllWellFormed(calls: seq<Call>, slots: nat) {
    forall k :: 0 <= k < |calls| ==> WellFormed(calls[k], slots)
  }

  ghost function Run(ix: Indexes, start: Bus, calls: seq<Call>): (r: Bus)
    requires AllWellFormed(calls, |start.contents|)
    ensures |r.contents| == |start.contents|
  {
    if calls == [] then start
    else Next(ix, Run(ix, start, calls[..|calls| - 1]), calls[|calls| - 1])
  }

  /** Everything set for slot `i` since the last step of the run, in call and array order. */
  ghost function SetSinceStep(ix: Indexes, calls: seq<Call>, slots: nat, i: nat): seq<byte>
    requires AllWellFormed(calls, slots)
  {
    if calls == [] then []
    else
      var earlier := calls[..|calls| - 1];
      match calls[|calls| - 1]
      case SetString(vrs, values) => SetSinceStep(ix, earlier, slots, i) + Contributions(ix, vrs, values, i)
      case GetString(_) => SetSinceStep(ix, earlier, slots, i)
      case DoStep(_) => []
  }

  /** Whenever a step is taken, in any run from a freshly instantiated FMU, the model sees in every
      slot exactly what was set since the previous step, and nothing left over from before it. */
  lemma {:induction false} StepSeesWhatWasSet(ix: Indexes, start: Bus, calls: seq<Call>, i: nat)
    requires AllWellFormed(calls, |start.contents|) && !start.signalsReset && i < |start.contents|
    ensures AfterReset(Run(ix, start, calls))[i] == SetSinceStep(ix, calls, |start.contents|, i)
    ensures !Run(ix, start, calls).signalsReset ==> SetSinceStep(ix, calls, |start.contents|, i) == []
  {
    if calls != [] {
      StepSeesWhatWasSet(ix, start, calls[..|calls| - 1], i);
    }
  }

  // ----- references without decoder -----

  /** The texts that the entries of a call have for slot `i`, as they are, in array order. */
  ghost function TextsFor(ix: Indexes, vrs: seq<nat>, values: seq<Option<Text>>, i: nat): seq<byte>
    requires |vrs| == |values| && Vrefs(vrs)
  {
    if vrs == [] then []
    else
      var n := |vrs| - 1;
      assert IsVref(vrs[n]);
      TextsFor(ix, vrs[..n], values[..n], i)
      + (if values[n].Some? && Reaches(ix, vrs[n], i) then values[n].value else [])
  }

  predicate Reaches(ix: Indexes, vr: nat, i: nat)
    requires IsVref(vr)
  {
    VrefKey(vr) in ix.rx && ix.rx[VrefKey(vr)] == i
  }

  /** The texts set for slot `i` since the last step of the run, as they are. */
  ghost function TextsSinceStep(ix: Indexes, calls: seq<Call>, slots: nat, i: nat): seq<byte>
    requires AllWellFormed(calls, slots)
  {
    if calls == [] then []
    else
      var earlier := calls[..|calls| - 1];
      match calls[|calls| - 1]
      case SetString(vrs, values) => TextsSinceStep(ix, earlier, slots, i) + TextsFor(ix, vrs, values, i)
      case GetString(_) => TextsSinceStep(ix, earlier, slots, i)
      case DoStep(_) => []
  }

  /** No entry of the call that reaches slot `i` has a decoder. */
  ghost predicate PlainEntries(ix: Indexes, vrs: seq<nat>, i: nat)
    requires Vrefs(vrs)
  {
    forall k :: 0 <= k < |vrs| && IsVref(vrs[k]) && Reaches(ix, vrs[k], i) ==> VrefKey(vrs[k]) !in ix.coded
  }

  ghost predicate PlainSinceStep(ix: Indexes, calls: seq<Call>, slots: nat, i: nat)
    requires AllWellFormed(calls, slots)
  {
    calls == [] ||
    match calls[|calls| - 1]
    case SetString(vrs, _) => PlainEntries(ix, vrs, i) && PlainSinceStep(ix, calls[..|calls| - 1], slots, i)
    case GetString(_) => PlainSinceStep(ix, calls[..|calls| - 1], slots, i)
    case DoStep(_) => true
  }

  lemma {:induction false} PlainContributions(ix: Indexes, vrs: seq<nat>, values: seq<Option<Text>>, i: nat)
    requires |vrs| == |values| && Vrefs(vrs) && PlainEntries(ix, vrs, i)
    ensures Contributions(ix, vrs, values, i) == TextsFor(ix, vrs, values, i)
  {
    if vrs != [] {
      var n := |vrs| - 1;
      PlainContributions(ix, vrs[..n], values[..n], i);
      assert IsVref(vrs[n]);
    }
  }

  lemma {:induction false} PlainTextsAreSet(ix: Indexes, calls: seq<Call>, slots: nat, i: nat)
    requires AllWellFormed(calls, slots) && PlainSinceStep(ix, calls, slots, i)
    ensures SetSinceStep(ix, calls, slots, i) == TextsSinceStep(ix, calls, slots, i)
  {
    if calls != [] {
      var n := |calls| - 1;
      assert WellFormed(calls[n], slots);
      match calls[n]
      case SetString(vrs, values) =>
        PlainTextsAreSet(ix, calls[..n], slots, i);
        PlainContributions(ix, vrs, values, i);
      case GetString(_) => PlainTextsAreSet(ix, calls[..n], slots, i);
      case DoStep(_) =>
    }
  }

  /** In every run: when only references without decoder were set for a slot since the last step, the model sees
      exactly their texts, byte for byte, in call and array order. */
  lemma {:induction false} StepSeesPlainTexts(ix: Indexes, start: Bus, calls: seq<Call>, i: nat)
    requires AllWellFormed(calls, |start.contents|) && !start.signalsReset && i < |start.contents|
    requires PlainSinceStep(ix, calls, |start.contents|, i)
    ensures AfterReset(Run(ix, start, calls))[i] == TextsSinceStep(ix, calls, |start.contents|, i)
  {
    StepSeesWhatWasSet(ix, start, calls, i);
    PlainTextsAreSet(ix, calls, |start.contents|, i);
  }

  /** What a step leaves in the signals stays there through any number of GetString calls. */
  lemma {:induction false} OutputsStayReadable(ix: Indexes, start: Bus, calls: seq<Call>, after: seq<seq<byte>>,
      gets: seq<Call>)
    requires AllWellFormed(calls, |start.contents|) && |after| == |start.contents|
    requires forall k :: 0 <= k < |gets| ==> gets[k].GetString? && WellFormed(gets[k], |start.contents|)
    ensures AllWellFormed(calls + [DoStep(after)] + gets, |start.contents|)
    ensures Run(ix, start, calls + [DoStep(after)] + gets).contents == after
  {
    var run := calls + [DoStep(after)] + gets;
    if gets == [] {
      assert run[..|run| - 1] == calls;
    } else {
      OutputsStayReadable(ix, start, calls, after, gets[..|gets| - 1]);
      assert run[..|run| - 1] == calls + [DoStep(after)] + gets[..|gets| - 1];
    }
  }

  /** A SetString call is documented to append (dse/fmu/fmi2fmu.c:513-518). It appends to what a slot holds
      exactly when a SetString came since the last step, or the slot is empty; otherwise the outputs of that
      step are discarded, and only the contributions of the call remain. */
  lemma {:induction false} SetStringDiscardsOutputs(ix: Indexes, b: Bus, vrs: seq<nat>, values: seq<Option<Text>>,
      i: nat)
    requires |vrs| == |values| && Vrefs(vrs) && i < |b.contents|
    ensures var after, added := Next(ix, b, SetString(vrs, values)).contents[i], Contributions(ix, vrs, values, i);
            && (after == b.contents[i] + added <==> b.signalsReset || b.contents[i] == [])
            && (!b.signalsReset ==> after == added)
  {
    var added := Contributions(ix, vrs, values, i);
    assert AfterReset(b)[i] == if b.signalsReset then b.contents[i] else [];
    assert |b.contents[i] + added| == |added| ==> b.contents[i] == [];
  }

  /** Even a call without entries: it changes nothing exactly when there was a SetString since the last step,
      or there is nothing to discard. */
  lemma {:induction false} EmptySetString(ix: Indexes, b: Bus)
    ensures Next(ix, b, SetString([], [])).contents == b.contents
            <==> b.signalsReset || forall i :: 0 <= i < |b.contents| ==> b.contents[i] == []
  {
    var after := Next(ix, b, SetString([], [])).contents;
    forall i | 0 <= i < |b.contents|
      ensures after[i] == b.contents[i] <==> b.signalsReset || b.contents[i] == []
    {
      SetStringDiscardsOutputs(ix, b, [], [], i);
    }
  }

  /** A run that loses an output: a step leaves one byte, and a SetString call without entries removes it
      before it was read. */
  lemma {:induction false} OutputLost(ix: Indexes)
    ensures var start := Bus([[]], false);
            var calls := [DoStep([[7]]), SetString([], [])];
            && AllWellFormed(calls, 1)
            && Run(ix, start, calls[..1]).contents == [[7]]
            && Run(ix, start, calls).contents == [[]]
  {
    var start := Bus([[]], false);
    var calls := [DoStep([[7]]), SetString([], [])];
    assert calls[..1] == [DoStep([[7]])] && calls[..1][..0] == [];
    assert WellFormed(calls[0], 1) && WellFormed(calls[1], 1);
    var b := Run(ix, start, calls[..1]);
    assert b == Bus([[7]], false);
    SetStringDiscardsOutputs(ix, b, [], [], 0);
    assert Run(ix, start, calls) == Next(ix, b, calls[1]);
  }

  /** The text GetString hands out for a reference, when it has an encoder. */
  function EncodedText(ix: Indexes, contents: seq<seq<byte>>, vr: nat): Option<Text>
    requires IsVref(vr)
  {
    var key := VrefKey(vr);
    if key !in ix.tx || ix.tx[key] >= |contents| || contents[ix.tx[key]] == [] then None
    else Some(ix.codec.encode(contents[ix.tx[key]]))
  }

  /** `text` answers a GetString for `vr`: NULL exactly when there is no such output or it is empty, the
      encoding of its bytes when the reference has an encoder, and otherwise a copy up to the first NUL. */
  ghost predicate Answers(ix: Indexes, contents: seq<seq<byte>>, vr: nat, text: Option<Text>) {
    && IsVref(vr)
    && (text == None <==> EncodedText(ix, contents, vr) == None)
    && (VrefKey(vr) in ix.coded ==> text == EncodedText(ix, contents, vr))
    && (text.Some? && VrefKey(vr) !in ix.coded ==> PlainCopy(contents[ix.tx[VrefKey(vr)]], text.value))
  }

  /** What strdup makes of the bytes of a signal: it stops at the first NUL among them; without one it goes
      on into whatever is stored behind them. */
  ghost predicate PlainCopy(data: seq<byte>, text: Text) {
    if 0 in data then text == UpToNul(data) else data <= text
  }

  lemma {:induction false} CopyOfLonger(data: seq<byte>, behind: seq<byte>)
    ensures PlainCopy(data, UpToNul(data + behind))
  {
    if data == [] {
      assert data + behind == behind;
    } else {
      var rest := data[1..];
      assert (data + behind)[0] == data[0] && (data + behind)[1..] == rest + behind;
      CopyOfLonger(rest, behind);
      assert data == [data[0]] + rest;
    }
  }

  lemma {:induction false} UpToNulExtent(data: seq<byte>)
    ensures UpToNul(data) == data <==> 0 !in data
  {
    if data != [] {
      UpToNulExtent(data[1..]);
      assert data == [data[0]] + data[1..];
    }
  }

  /** An output without encoder is handed out whole exactly when it has no NUL among its bytes and the byte
      stored behind it happens to be one. */
  lemma {:induction false} PlainOutputWhole(data: seq<byte>, behind: seq<byte>)
    requires 0 in behind
    ensures UpToNul(data + behind) == data <==> 0 !in data && behind[0] == 0
  {
    if data == [] {
      assert data + behind == behind;
    } else {
      assert (data + behind)[0] == data[0] && (data + behind)[1..] == data[1..] + behind;
      PlainOutputWhole(data[1..], behind);
      assert data == [data[0]] + data[1..];
      if UpToNul(data + behind) == data {
        assert UpToNul(data[1..] + behind) == UpToNul(data + behind)[1..];
      }
    }
  }

  /** Three bytes with a NUL in the middle: only the first is handed out. */
  lemma {:induction false} PlainOutputCut(behind: seq<byte>)
    requires 0 in behind
    ensures UpToNul([1, 0, 2] + behind) == [1] != [1, 0, 2]
  {
    PlainOutputWhole([1, 0, 2], behind);
    var s: seq<byte> := [1, 0, 2] + behind;
    assert s[0] == 1 && s[1..][0] == 0;
    assert UpToNul(s[1..]) == [];
  }

  /** The texts answer the first references, in order. */
  ghost predicate AllAnswer(ix: Indexes, contents: seq<seq<byte>>, vrs: seq<nat>, texts: seq<Option<Text>>) {
    |texts| <= |vrs| && forall k :: 0 <= k < |texts| ==> Answers(ix, contents, vrs[k], texts[k])
  }

  lemma {:induction false} AnswersNext(ix: Indexes, contents: seq<seq<byte>>, vrs: seq<nat>, texts: seq<Option<Text>>,
      text: Option<Text>)
    requires AllAnswer(ix, contents, vrs, texts) && |texts| < |vrs| && Answers(ix, contents, vrs[|texts|], text)
    ensures AllAnswer(ix, contents, vrs, texts + [text])
  {
  }

  // ----- connected FMUs -----

  /** What an importer does with the receiving FMU when it connects FMUs: it forwards texts read from outputs of
      one, entry k from reference tx[k] to reference rx[k], reads, and steps. */
  datatype Transfer =
    | Forward(outputs: seq<seq<byte>>, tx: seq<nat>, rx: seq<nat>, texts: seq<Option<Text>>)
    | Read(vrs: seq<nat>)
    | Advance(after: seq<seq<byte>>)

  ghost predicate TransferOk(from: Indexes, into: Indexes, t: Transfer, slots: nat) {
    match t
    case Forward(outputs, tx, rx, texts) =>
      && |tx| == |rx| == |texts| && Vrefs(tx) && Vrefs(rx)
      && forall k :: 0 <= k < |tx| ==> Connected(from, into, outputs, tx[k], rx[k], texts[k])
    case Read(vrs) => Vrefs(vrs)
    case Advance(after) => |after| == slots
  }

  /** An output of one FMU, an input of the other, and the text that GetString hands out for the output. */
  ghost predicate Connected(from: Indexes, into: Indexes, outputs: seq<seq<byte>>, tx: nat, rx: nat,
      text: Option<Text>)
  {
    && IsVref(tx) && IsVref(rx) && Answers(from, outputs, tx, text)
    && VrefKey(tx) in from.tx && from.tx[VrefKey(tx)] < |outputs|
    && VrefKey(rx) in into.rx
  }

  /** What arrives of an output: its raw bytes when both ends are encoded, the text as it was handed out at an input
      without decoder, and the decoded text where only the input has one. */
  ghost function Arrives(from: Indexes, into: Indexes, outputs: seq<seq<byte>>, tx: nat, rx: nat, text: Option<Text>)
    : seq<byte>
    requires Connected(from, into, outputs, tx, rx, text)
  {
    if text == None then []
    else if VrefKey(rx) !in into.coded then text.value
    else if VrefKey(tx) in from.coded then outputs[from.tx[VrefKey(tx)]]
    else into.codec.decode(text.value)
  }

  function CallOf(t: Transfer): Call {
    match t
    case Forward(_, _, rx, texts) => SetString(rx, texts)
    case Read(vrs) => GetString(vrs)
    case Advance(after) => DoStep(after)
  }

  ghost predicate TransfersOk(from: Indexes, into: Indexes, ts: seq<Transfer>, slots: nat) {
    forall k :: 0 <= k < |ts| ==> TransferOk(from, into, ts[k], slots)
  }

  ghost function CallsOf(from: Indexes, into: Indexes, ts: seq<Transfer>, slots: nat): (r: seq<Call>)
    requires TransfersOk(from, into, ts, slots)
    ensures |r| == |ts| && AllWellFormed(r, slots)
  {
    if ts == [] then []
    else
      var n := |ts| - 1;
      assert TransferOk(from, into, ts[n], slots);
      CallsOf(from, into, ts[..n], slots) + [CallOf(ts[n])]
  }

  /** What arrives in slot `i` of forwarded outputs, in entry order. */
  ghost function Forwarded(from: Indexes, into: Indexes, outputs: seq<seq<byte>>, tx: seq<nat>, rx: seq<nat>,
      texts: seq<Option<Text>>, i: nat): seq<byte>
    requires |tx| == |rx| == |texts|
    requires forall k :: 0 <= k < |tx| ==> Connected(from, into, outputs, tx[k], rx[k], texts[k])
  {
    if tx == [] then []
    else
      var n := |tx| - 1;
      assert Connected(from, into, outputs, tx[n], rx[n], texts[n]);
      Forwarded(from, into, outputs, tx[..n], rx[..n], texts[..n], i)
      + (if into.rx[VrefKey(rx[n])] == i then Arrives(from, into, outputs, tx[n], rx[n], texts[n]) else [])
  }

  /** What arrives in slot `i` since the receiving FMU was stepped last. */
  ghost function ForwardedSinceStep(from: Indexes, into: Indexes, ts: seq<Transfer>, slots: nat, i: nat): seq<byte>
    requires TransfersOk(from, into, ts, slots)
  {
    if ts == [] then []
    else
      var n := |ts| - 1;
      assert TransferOk(from, into, ts[n], slots);
      match ts[n]
      case Forward(outputs, tx, rx, texts) =>
        ForwardedSinceStep(from, into, ts[..n], slots, i) + Forwarded(from, into, outputs, tx, rx, texts, i)
      case Read(_) => ForwardedSinceStep(from, into, ts[..n], slots, i)
      case Advance(_) => []
  }

  lemma {:induction false} ArrivesIsContributed(from: Indexes, into: Indexes, outputs: seq<seq<byte>>, tx: nat, rx: nat,
      text: Option<Text>, i: nat)
    requires from.codec == into.codec && RoundTrips(from.codec) && Connected(from, into, outputs, tx, rx, text)
    ensures Contribution(into, rx, text, i)
            == if into.rx[VrefKey(rx)] == i then Arrives(from, into, outputs, tx, rx, text) else []
  {
  }

  lemma {:induction false} ForwardedIsContributed(from: Indexes, into: Indexes, outputs: seq<seq<byte>>, tx: seq<nat>,
      rx: seq<nat>, texts: seq<Option<Text>>, i: nat)
    requires from.codec == into.codec && RoundTrips(from.codec)
    requires |tx| == |rx| == |texts| && Vrefs(tx) && Vrefs(rx)
    requires forall k :: 0 <= k < |tx| ==> Connected(from, into, outputs, tx[k], rx[k], texts[k])
    ensures Contributions(into, rx, texts, i) == Forwarded(from, into, outputs, tx, rx, texts, i)
  {
    if tx != [] {
      var n := |tx| - 1;
      ForwardedIsContributed(from, into, outputs, tx[..n], rx[..n], texts[..n], i);
      assert Connected(from, into, outputs, tx[n], rx[n], texts[n]);
      ArrivesIsContributed(from, into, outputs, tx[n], rx[n], texts[n], i);
    }
  }

  lemma {:induction false} ForwardedIsSet(from: Indexes, into: Indexes, ts: seq<Transfer>, slots: nat, i: nat)
    requires from.codec == into.codec && RoundTrips(from.codec)
    requires TransfersOk(from, into, ts, slots)
    ensures SetSinceStep(into, CallsOf(from, into, ts, slots), slots, i) == ForwardedSinceStep(from, into, ts, slots, i)
  {
    if ts != [] {
      var n := |ts| - 1;
      ForwardedIsSet(from, into, ts[..n], slots, i);
      var calls := CallsOf(from, into, ts, slots);
      assert calls[..n] == CallsOf(from, into, ts[..n], slots) && calls[n] == CallOf(ts[n]);
      assert TransferOk(from, into, ts[n], slots);
      match ts[n]
      case Forward(outputs, tx, rx, texts) => ForwardedIsContributed(from, into, outputs, tx, rx, texts, i);
      case Read(_) =>
      case Advance(_) =>
    }
  }

  /** Loopback: in every run in which outputs of one FMU are forwarded to inputs of another, a step of the latter
      sees in each slot exactly what arrives of the outputs forwarded since its previous step. */
  lemma {:induction false} Loopback(from: Indexes, into: Indexes, start: Bus, ts: seq<Transfer>, i: nat)
    requires from.codec == into.codec && RoundTrips(from.codec)
    requires TransfersOk(from, into, ts, |start.contents|) && !start.signalsReset && i < |start.contents|
    ensures AfterReset(Run(into, start, CallsOf(from, into, ts, |start.contents|)))[i]
            == ForwardedSinceStep(from, into, ts, |start.contents|, i)
  {
    StepSeesWhatWasSet(into, start, CallsOf(from, into, ts, |start.contents|), i);
    ForwardedIsSet(from, into, ts, |start.contents|, i);
  }

  /** The bytes arrive unchanged between encoded ends; between ends without encoder, what arrives starts with the
      output up to its first NUL, and is no more than that when it has one. */
  lemma {:induction false} WhatArrives(from: Indexes, into: Indexes, outputs: seq<seq<byte>>, tx: nat, rx: nat,
      text: Option<Text>)
    requires Connected(from, into, outputs, tx, rx, text)
    ensures var data := outputs[from.tx[VrefKey(tx)]];
            var arrived := Arrives(from, into, outputs, tx, rx, text);
            && (VrefKey(tx) in from.coded && VrefKey(rx) in into.coded ==> arrived == data)
            && (VrefKey(tx) !in from.coded && VrefKey(rx) !in into.coded ==>
                  UpToNul(data) <= arrived && (0 in data ==> arrived == UpToNul(data)))
  {
    UpToNulExtent(outputs[from.tx[VrefKey(tx)]]);
  }

  /** The FMU instance, as far as its binary variables are concerned. */
  class FmuInstance {
    const sv: SignalVector
    const ix: Indexes
    const freeList: FreeList
    var stringInput: map<string, Text>
    var signalsReset: bool

    ghost predicate Valid()
      reads this, sv, freeList
    {
      sv.Valid() && sv.PlainAtStart() && Indexed(ix, |sv.ncodec|) && freeList.Valid()
    }

    ghost function State(): Bus
      requires sv.Valid()
      reads this, sv
    {
      Bus(sv.Contents(), signalsReset)
    }

    constructor (sv: SignalVector, ix: Indexes)
      requires sv.Valid() && sv.PlainAtStart() && Indexed(ix, |sv.ncodec|)
      ensures Valid() && this.sv == sv && this.ix == ix && !signalsReset && freeList.issued == 0
    {
      this.sv, this.ix := sv, ix;
      freeList := new FreeList();
      stringInput, signalsReset := map[], false;
    }

    /** fmu_default_signals_reset: at most once until the flag is cleared again. */
    method SignalsReset()
      requires sv.Valid() && sv.PlainAtStart()
      modifies sv, this`signalsReset
      ensures sv.Valid() && sv.PlainAtStart()
      ensures State() == Bus(AfterReset(old(State())), true)
    {
      if !signalsReset {
        sv.Reset();
        signalsReset := true;
        assert sv.Contents() == AfterReset(old(State()));
      }
    }

    /** The loop body of fmi2SetString for one entry. */
    method SetEntry(vr: nat, value: Option<Text>)
      requires sv.Valid() && sv.PlainAtStart() && Indexed(ix, |sv.ncodec|) && IsVref(vr)
      modifies sv, this`stringInput
      ensures sv.Valid() && sv.PlainAtStart()
      ensures forall i :: 0 <= i < |sv.ncodec| ==> sv.Content(i) == old(sv.Content(i)) + Contribution(ix, vr, value, i)
      ensures stringInput == PlainString(ix, vr, value, old(stringInput))
    {
      if value.Some? {
        var key := VrefKey(vr);
        if key !in ix.rx {
          stringInput := stringInput[key := value.value];
        } else {
          var data := value.value;
          if key in ix.coded {
            data := ix.codec.decode(data);
          }
          sv.Append(ix.rx[key], data);
        }
      }
    }

    /** fmi2SetString. References without a binary input are kept as plain strings instead. */
    method SetStrings(vr: seq<nat>, value: seq<Option<Text>>)
      requires Valid() && |vr| == |value| && Vrefs(vr)
      modifies sv, this`signalsReset, this`stringInput
      ensures Valid()
      ensures State() == Next(ix, old(State()), SetString(vr, value))
      ensures stringInput == PlainStrings(ix, vr, value, old(stringInput))
    {
      SignalsReset();
      ghost var cleared := sv.Contents();
      for k := 0 to |vr|
        invariant sv.Valid() && sv.PlainAtStart() && signalsReset
        invariant stringInput == PlainStrings(ix, vr[..k], value[..k], old(stringInput))
        invariant Accumulated(ix, cleared, sv.Contents(), vr[..k], value[..k])
      {
        ghost var before := sv.Contents();
        SetEntry(vr[k], value[k]);
        AccumulateNext(ix, cleared, before, sv.Contents(), vr, value, k);
        assert vr[..k + 1][..k] == vr[..k] && value[..k + 1][..k] == value[..k];
      }
      assert vr[..|vr|] == vr && value[..|value|] == value;
      AccumulatedIsNext(ix, old(State()), sv.Contents(), vr, value);
    }

    /** The lookup and duplication of fmi2GetString for one entry. `behind` is what memory holds behind the
        buffer of the signal. */
    method GetEntry(vr: nat, behind: seq<byte>) returns (text: Option<Text>)
      requires sv.Valid() && Indexed(ix, |sv.ncodec|) && IsVref(vr)
      requires freeList.Valid()
      modifies freeList
      ensures freeList.Valid() && freeList.base == old(freeList.base)
      ensures Answers(ix, sv.Contents(), vr, text)
      ensures freeList.issued == old(freeList.issued) + Count([text])
    {
      var key := VrefKey(vr);
      text := None;
      assert [text][..0] == [];
      if key in ix.tx {
        var slot := ix.tx[key];
        var data := sv.Content(slot);
        if |data| != 0 {
          CopyOfLonger(data, sv.binary[slot][|data|..] + behind);
          assert data + (sv.binary[slot][|data|..] + behind) == sv.binary[slot] + behind;
          text := Some(if key in ix.coded then ix.codec.encode(data) else UpToNul(sv.binary[slot] + behind));
          assert [text][..0] == [];
          freeList.Record();
        }
      }
    }

    /** fmi2GetString. A reference gives NULL exactly when it has no binary output or that signal is
        empty. The strings of earlier calls are released first; every string handed out now is
        recorded and stays live. */
    method GetStrings(vr: seq<nat>, behind: seq<byte>) returns (value: seq<Option<Text>>)
      requires Valid() && Vrefs(vr)
      modifies freeList
      ensures Valid() && State() == old(State())
      ensures |value| == |vr| && AllAnswer(ix, sv.Contents(), vr, value)
      ensures freeList.base == old(freeList.issued) && freeList.issued == old(freeList.issued) + Count(value)
    {
      freeList.Clear();
      value := [];
      ghost var contents := sv.Contents();
      for k := 0 to |vr|
        invariant freeList.Valid() && |value| == k
        invariant AllAnswer(ix, contents, vr, value)
        invariant freeList.base == old(freeList.issued) && freeList.issued == old(freeList.issued) + Count(value)
      {
        var text := GetEntry(vr[k], behind);
        CountNext(value, text);
        AnswersNext(ix, contents, vr, value, text);
        value := value + [text];
      }
    }

    /** fmi2DoStep, with the effect of fmu_step given by its results. Returns what the model saw. */
    method Step(after: seq<seq<byte>>, positions: seq<nat>, rc: int) returns (seen: seq<seq<byte>>, ok: bool)
      requires Valid() && |after| == |positions| == |sv.ncodec|
      requires forall i :: 0 <= i < |after| ==> positions[i] <= |after[i]| && (!sv.ncodec[i] ==> positions[i] == 0)
      modifies sv, this`signalsReset
      ensures Valid()
      ensures seen == AfterReset(old(State()))
      ensures State() == Next(ix, old(State()), DoStep(after))
      ensures ok <==> rc == 0
    {
      SignalsReset();
      seen := sv.Snapshot();
      sv.Replace(after, positions);
      signalsReset := false;
      ok := rc == 0;
    }

    /** The free-list part of fmi2FreeInstance: no string is left unreleased, and none was released twice. */
    method FreeInstance()
      requires Valid()
      modifies freeList
      ensures forall p :: 0 <= p < freeList.issued ==> freeList.released[p] == 1
    {
      freeList.Clear();
    }
  }

  /** Slot by slot, `now` is `cleared` with the contributions of the entries behind it. */
  ghost predicate Accumulated(ix: Indexes, cleared: seq<seq<byte>>, now: seq<seq<byte>>, vrs: seq<nat>,
      values: seq<Option<Text>>)
  {
    && |vrs| == |values| && Vrefs(vrs) && |now| == |cleared|
    && forall i :: 0 <= i < |now| ==> now[i] == cleared[i] + Contributions(ix, vrs, values, i)
  }

  lemma {:induction false} AccumulateNext(ix: Indexes, cleared: seq<seq<byte>>, before: seq<seq<byte>>,
      now: seq<seq<byte>>, vrs: seq<nat>, values: seq<Option<Text>>, k: nat)
    requires k < |vrs| == |values| && Vrefs(vrs)
    requires Accumulated(ix, cleared, before, vrs[..k], values[..k]) && |now| == |before|
    requires forall i :: 0 <= i < |now| ==> now[i] == before[i] + Contribution(ix, vrs[k], values[k], i)
    ensures Accumulated(ix, cleared, now, vrs[..k + 1], values[..k + 1])
  {
    assert vrs[..k + 1][..k] == vrs[..k] && values[..k + 1][..k] == values[..k];
    forall i | 0 <= i < |now|
      ensures now[i] == cleared[i] + Contributions(ix, vrs[..k + 1], values[..k + 1], i)
    {
      assert Contributions(ix, vrs[..k + 1], values[..k + 1], i)
          == Contributions(ix, vrs[..k], values[..k], i) + Contribution(ix, vrs[k], values[k], i);
    }
  }

  lemma {:induction false} AccumulatedIsNext(ix: Indexes, b: Bus, now: seq<seq<byte>>, vrs: seq<nat>,
      values: seq<Option<Text>>)
    requires Accumulated(ix, AfterReset(b), now, vrs, values)
    ensures Bus(now, true) == Next(ix, b, SetString(vrs, values))
  {
    assert now == Next(ix, b, SetString(vrs, values)).contents;
  }

  /** The lazy free list: a hashmap from decimal keys to allocated strings. Strings are numbered in
      order of allocation; `released` records every call to free. The strings from `base` on are live. */
  class FreeList {
    var entries: map<string, nat>
    var issued: nat
    var released: multiset<nat>
    ghost var base: nat

    ghost predicate Valid()
      reads this
    {
      base <= issued && entries == Entries(base, issued - base) && ReleasedBelow(released, base)
    }

    constructor ()
      ensures Valid() && issued == 0
    {
      entries, issued, released, base := map[], 0, multiset{}, 0;
    }

    /** hashmap_clear: releases every recorded string. */
    method Clear()
      requires Valid()
      modifies this
      ensures Valid() && entries == map[]
      ensures issued == old(issued) && base == issued
      ensures released == old(released) + multiset(old(entries).Values)
    {
      forall p: nat
        ensures p in entries.Values <==> base <= p < issued
      {
        EntriesValue(base, issued - base, p);
      }
      released := released + multiset(entries.Values);
      entries := map[];
      base := issued;
    }

    /** Allocates a string and records it under the current length of the list. The key is never in
        use, so no earlier entry is lost. */
    method Record()
      requires Valid()
      modifies this
      ensures Valid() && base == old(base) && issued == old(issued) + 1
      ensures released == old(released)
      ensures var key := Render(|old(entries)|);
              key !in old(entries) && entries == old(entries)[key := old(issued)]
    {
      Recorded(entries, base, issued);
      entries, issued := entries[Render(|entries|) := issued], issued + 1;
    }
  }

  /** Exactly the strings below `base` have been released, once each. */
  ghost predicate ReleasedBelow(released: multiset<nat>, base: nat) {
    forall p: nat :: released[p] == if p < base then 1 else 0
  }

  /** The list after `n` recordings, starting with string `base`. */
  ghost function Entries(base: nat, n: nat): map<string, nat> {
    if n == 0 then map[] else Entries(base, n - 1)[Render(n - 1) := base + n - 1]
  }

  lemma {:induction false} EntriesKey(base: nat, n: nat, k: nat)
    ensures Render(k) in Entries(base, n) <==> k < n
  {
    if n > 0 {
      EntriesKey(base, n - 1, k);
      if Render(k) == Render(n - 1) {
        RenderInjective(k, n - 1);
      }
    }
  }

  lemma {:induction false} EntriesSize(base: nat, n: nat)
    ensures |Entries(base, n)| == n
  {
    if n > 0 {
      EntriesSize(base, n - 1);
      EntriesKey(base, n - 1, n - 1);
      AddedKey(Entries(base, n - 1), Render(n - 1), base + n - 1);
    }
  }

  lemma {:induction false} EntriesValue(base: nat, n: nat, p: nat)
    ensures p in Entries(base, n).Values <==> base <= p < base + n
  {
    if n > 0 {
      EntriesValue(base, n - 1, p);
      EntriesKey(base, n - 1, n - 1);
      AddedValue(Entries(base, n - 1), Render(n - 1), base + n - 1, p);
    }
  }

  lemma {:induction false} RecordFacts(base: nat, n: nat)
    ensures |Entries(base, n)| == n && Render(n) !in Entries(base, n)
    ensures Entries(base, n + 1) == Entries(base, n)[Render(n) := base + n]
  {
    EntriesSize(base, n);
    EntriesKey(base, n, n);
  }

  lemma {:induction false} Recorded(entries: map<string, nat>, base: nat, issued: nat)
    requires base <= issued && entries == Entries(base, issued - base)
    ensures Render(|entries|) !in entries
    ensures entries[Render(|entries|) := issued] == Entries(base, issued + 1 - base)
  {
    RecordFacts(base, issued - base);
  }

  lemma {:induction false} AddedKey(m: map<string, nat>, key: string, p: nat)
    requires key !in m
    ensures |m[key := p]| == |m| + 1
  {
    var after := m[key := p];
    assert after.Keys == m.Keys + {key};
    assert |after.Keys| == |after| && |m.Keys| == |m|;
  }

  lemma {:induction false} AddedValue(m: map<string, nat>, key: string, p: nat, q: nat)
    requires key !in m
    ensures q in m[key := p].Values <==> q in m.Values || q == p
  {
    var after := m[key := p];
    assert after[key] == p && key in after;
    if q in m.Values {
      var k :| k in m && m[k] == q;
      assert k in after && after[k] == q;
    }
    if q in after.Values {
      var k :| k in after && after[k] == q;
      assert k == key || (k in m && m[k] == q);
    }
  }

  lemma {:induction false} CountNext(values: seq<Option<Text>>, text: Option<Text>)
    ensures Count(values + [text]) == Count(values) + Count([text])
  {
    assert (values + [text])[..|values|] == values;
    assert [text][..0] == [];
  }

  /** Strings set on references without a binary input; the last one wins. */
  ghost function PlainStrings(ix: Indexes, vrs: seq<nat>, values: seq<Option<Text>>, before: map<string, Text>)
    : map<string, Text>
    requires |vrs| == |values| && Vrefs(vrs)
  {
    if vrs == [] then before
    else
      var n := |vrs| - 1;
      PlainString(ix, vrs[n], values[n], PlainStrings(ix, vrs[..n], values[..n], before))
  }

  /** A reference without a binary input keeps the last text that was set for its key; whether it is text or NULL
      for other keys does not matter. */
  lemma {:induction false} PlainStringIsLast(ix: Indexes, vrs: seq<nat>, values: seq<Option<Text>>, before: map<string,
      Text>, k: nat)
    requires |vrs| == |values| && Vrefs(vrs) && k < |vrs|
    requires IsVref(vrs[k]) && VrefKey(vrs[k]) !in ix.rx && values[k].Some?
    requires forall j :: k < j < |vrs| && IsVref(vrs[j]) && VrefKey(vrs[j]) == VrefKey(vrs[k]) ==> values[j] == None
    ensures var after, key := PlainStrings(ix, vrs, values, before), VrefKey(vrs[k]);
            key in after && after[key] == values[k].value
  {
    var n := |vrs| - 1;
    assert IsVref(vrs[n]);
    if k < n {
      PlainStringIsLast(ix, vrs[..n], values[..n], before, k);
    }
  }

  function PlainString(ix: Indexes, vr: nat, value: Option<Text>, before: map<string, Text>): map<string, Text>
    requires IsVref(vr)
  {
    if value.Some? && VrefKey(vr) !in ix.rx then before[VrefKey(vr) := value.value] else before
  }

  function Count(values: seq<Option<Text>>): nat {
    if values == [] then 0
    else Count(values[..|values| - 1]) + (if values[|values| - 1].Some? then 1 else 0)
  }

  /** strdup copies up to the first NUL. */
  function UpToNul(data: seq<byte>): Text {
    if data == [] || data[0] == 0 then [] else [data[0]] + UpToNul(data[1..])
  }
}
