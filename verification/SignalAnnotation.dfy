/** Building the direct index and annotating SignalGroups with value references from it
    (extra/tools/fmi/internal/app/generate/modelcfmu.go:331-353, 431-516, 541-561). */
module SignalAnnotation {
  import opened Wrappers
  import opened ChannelLookup
  import DirectAccess
  import opened DirectIndexLayout

  type Annotations = map<string, string>

  /** `vref` is the annotation "fmi_variable_vref", the only numeric one. */
  datatype Signal = Signal(name: string, annotations: Annotations, vref: Option<nat>)

  datatype Document = Document(name: string, labels: Labels, vectorType: Option<string>, signals: seq<Signal>)

  /** One line of the rule table, behind its header. */
  datatype Rule = Rule(annotation: string, value: string, fmiAnnotation: string, fmiValue: string)

  datatype AnnotateError = BinaryNotSupported

  /** The document passes the name filter and is not itself an index. */
  predicate Passes(doc: Document, filter: seq<string>) {
    (filter == [] || doc.name in filter) && "index" !in doc.labels
  }

  /** A binary group that passes cannot be annotated. */
  predicate Refused(doc: Document, filter: seq<string>) {
    Passes(doc, filter) && doc.vectorType == Some("binary")
  }

  // ----- specification -----

  function Applied(annotations: Annotations, rules: seq<Rule>): Annotations {
    if rules == [] then annotations
    else
      var rest := Applied(annotations, rules[..|rules| - 1]);
      var rule := rules[|rules| - 1];
      if rule.annotation in rest && rest[rule.annotation] == rule.value then rest[rule.fmiAnnotation := rule.fmiValue]
      else rest
  }

  predicate Directed(annotations: Annotations) {
    "fmi_variable_causality" in annotations && annotations["fmi_variable_causality"] in {"input", "output"}
  }

  /** A signal is annotated when, after the rules, it is an input or output of a group with a channel
      and the index has it. */
  ghost predicate Annotated(sim: Simulation, groups: seq<SignalGroup>, index: map<string, nat>, labels: Labels,
      rules: seq<Rule>, s: Signal)
  {
    && Directed(Applied(s.annotations, rules))
    && ChannelOf(sim, labels).Ok?
    && Has(groups, index, ChannelOf(sim, labels).value, s.name)
  }

  ghost function AnnotatedSignal(sim: Simulation, groups: seq<SignalGroup>, index: map<string, nat>, labels: Labels,
      rules: seq<Rule>, s: Signal): Signal
    requires IndexOk(groups, index)
  {
    var a := Applied(s.annotations, rules);
    if Annotated(sim, groups, index, labels, rules, s) then
      Signal(s.name, a["fmi_variable_type" := "Real"]["fmi_variable_name" := s.name],
             Some(OffsetOf(groups, index, ChannelOf(sim, labels).value, s.name)))
    else s.(annotations := a)
  }

  /** The index holds exactly the signals of the passing documents, under their channels. */
  ghost predicate Indexes(sim: Simulation, docs: seq<Document>, filter: seq<string>, groups: seq<SignalGroup>,
      index: map<string, nat>) {
    forall c, n :: Has(groups, index, c, n) <==> Contributed(sim, docs, filter, c, n)
  }

  ghost predicate Contributed(sim: Simulation, docs: seq<Document>, filter: seq<string>, channel: string,
      name: string) {
    exists d :: 0 <= d < |docs| && Contributes(sim, docs[d], filter, channel, name)
  }

  ghost predicate Contributes(sim: Simulation, doc: Document, filter: seq<string>, channel: string, name: string) {
    Passes(doc, filter) && ChannelOf(sim, doc.labels) == Ok(channel) && Names(doc.signals, name)
  }

  ghost predicate Names(signals: seq<Signal>, name: string) {
    exists i :: 0 <= i < |signals| && signals[i].name == name
  }

  /** What annotating writes: the name of the signal, the type Real, and the offset that the index gives to the
      signal of this name under the channel of its group; all else is left to the rules. */
  ghost predicate Described(sim: Simulation, groups: seq<SignalGroup>, labels: Labels, rules: seq<Rule>, s: Signal,
      out: Signal)
  {
    var a := Applied(s.annotations, rules);
    && out.name == s.name
    && out.vref.Some? && ChannelOf(sim, labels).Ok?
    && Sits(groups, ChannelOf(sim, labels).value, s.name, out.vref.value)
    && "fmi_variable_type" in out.annotations && out.annotations["fmi_variable_type"] == "Real"
    && "fmi_variable_name" in out.annotations && out.annotations["fmi_variable_name"] == s.name
    && (forall k :: k != "fmi_variable_type" && k != "fmi_variable_name" ==>
          (k in out.annotations <==> k in a) && (k in a ==> out.annotations[k] == a[k]))
  }

  lemma {:induction false} AnnotationDescribes(sim: Simulation, groups: seq<SignalGroup>, index: map<string, nat>,
      labels: Labels, rules: seq<Rule>, s: Signal)
    requires IndexOk(groups, index)
    ensures Annotated(sim, groups, index, labels, rules, s) ==>
              Described(sim, groups, labels, rules, s, AnnotatedSignal(sim, groups, index, labels, rules, s))
  {
    if Annotated(sim, groups, index, labels, rules, s) {
      OffsetSits(groups, index, ChannelOf(sim, labels).value, s.name);
      assert "fmi_variable_type" != "fmi_variable_name" by {
        assert "fmi_variable_type"[13] != "fmi_variable_name"[13];
      }
    }
  }

  // ----- what the annotations guarantee -----

  /** Every input or output signal of a passing group with a channel is found in the index. */
  lemma {:induction false} DirectedSignalsAreAnnotated(sim: Simulation, docs: seq<Document>, filter: seq<string>,
      groups: seq<SignalGroup>, index: map<string, nat>, rules: seq<Rule>, d: nat, i: nat)
    requires Indexes(sim, docs, filter, groups, index)
    requires d < |docs| && i < |docs[d].signals| && Passes(docs[d], filter)
    ensures var s := docs[d].signals[i];
            Annotated(sim, groups, index, docs[d].labels, rules, s)
            <==> Directed(Applied(s.annotations, rules)) && ChannelOf(sim, docs[d].labels).Ok?
  {
    var s := docs[d].signals[i];
    if ChannelOf(sim, docs[d].labels).Ok? {
      var c := ChannelOf(sim, docs[d].labels).value;
      assert Names(docs[d].signals, s.name);
      assert Contributes(sim, docs[d], filter, c, s.name);
      assert Contributed(sim, docs, filter, c, s.name);
    }
  }

  /** Annotated signals, of whatever groups, share a value reference exactly when they are the same
      signal of the same SimBus channel. */
  lemma {:induction false} EqualVrefsMeanSameSignal(sim: Simulation, groups: seq<SignalGroup>, index: map<string, nat>,
      rules: seq<Rule>, labels: Labels, s: Signal, labels': Labels, t: Signal)
    requires IndexOk(groups, index) && Placed(groups)
    requires Annotated(sim, groups, index, labels, rules, s) && Annotated(sim, groups, index, labels', rules, t)
    ensures AnnotatedSignal(sim, groups, index, labels, rules, s).vref
            == AnnotatedSignal(sim, groups, index, labels', rules, t).vref
            <==> ChannelOf(sim, labels) == ChannelOf(sim, labels') && s.name == t.name
  {
    OffsetsIdentifySignals(groups, index, ChannelOf(sim, labels).value, s.name, ChannelOf(sim, labels').value, t.name);
  }

  /** The rules of the ruleset "signal-direction". */
  function SignalDirection(): seq<Rule> {
    [Rule("direction", "input", "fmi_variable_causality", "input"),
     Rule("direction", "output", "fmi_variable_causality", "output")]
  }

  /** With them a signal is directed if its direction says so, or if it was annotated before; a direction
      of input or output decides the causality. */
  lemma {:induction false} DirectionDecides(a: Annotations)
    ensures var b := Applied(a, SignalDirection());
            var given := "direction" in a && a["direction"] in {"input", "output"};
            && (Directed(b) <==> given || Directed(a))
            && (given ==> b["fmi_variable_causality"] == a["direction"])
            && (forall k :: k != "fmi_variable_causality" ==> (k in b <==> k in a) && (k in a ==> b[k] == a[k]))
  {
    var x, y := SignalDirection()[0], SignalDirection()[1];
    assert |"direction"| != |"fmi_variable_causality"|;
    assert "input" != "output" by { assert |"input"| != |"output"|; }
    assert SignalDirection() == ([] + [x]) + [y];
    AppliedNext(a, [], x);
    AppliedNext(a, [] + [x], y);
  }

  lemma {:induction false} AppliedNext(a: Annotations, earlier: seq<Rule>, rule: Rule)
    ensures var rest := Applied(a, earlier);
            Applied(a, earlier + [rule])
            == if rule.annotation in rest && rest[rule.annotation] == rule.value
               then rest[rule.fmiAnnotation := rule.fmiValue]
               else rest
  {
    assert (earlier + [rule])[..|earlier|] == earlier;
  }

  // ----- the commands -----

  /** runGenerateDirectIndex */
  method GenerateDirectIndex(sim: Simulation, docs: seq<Document>, filter: seq<string>) returns (di: DirectIndex)
    ensures fresh(di) && di.Valid() && Placed(di.groups)
    ensures Indexes(sim, docs, filter, di.groups, di.index)
  {
    di := new DirectIndex();
    for d := 0 to |docs|
      invariant fresh(di) && di.Valid()
      invariant Indexes(sim, docs[..d], filter, di.groups, di.index)
    {
      ghost var groups, index := di.groups, di.index;
      AddDocument(sim, docs[d], filter, di);
      IndexesNext(sim, docs, filter, d, groups, index, di.groups, di.index);
    }
    assert docs[..|docs|] == docs;
    ghost var groups := di.groups;
    di.CalculateMapOffsets();
    PlacingKeepsHas(groups, di.groups, di.index);
  }

  /** The loop body: the signals of one document, unless it is filtered or has no channel. */
  method AddDocument(sim: Simulation, doc: Document, filter: seq<string>, di: DirectIndex)
    requires di.Valid()
    modifies di
    ensures di.Valid()
    ensures forall c, n :: Has(di.groups, di.index, c, n)
                           <==> Has(old(di.groups), old(di.index), c, n) || Contributes(sim, doc, filter, c, n)
  {
    if !Passes(doc, filter) {
      return;
    }
    var channel := LookupSimBusChannelName(sim, doc.labels);
    if channel.Err? {
      return;
    }
    AddSignals(channel.value, doc.signals, di);
  }

  /** The group of the channel is made even when there are no signals. */
  method AddSignals(channel: string, signals: seq<Signal>, di: DirectIndex)
    requires di.Valid()
    modifies di
    ensures di.Valid()
    ensures Extended(old(di.groups), old(di.index), di.groups, di.index, channel, signals)
  {
    var _ := di.GetSignalGroup(channel);
    HasAfterEmptyGroup(old(di.groups), old(di.index), di.groups, di.index, channel);
    for i := 0 to |signals|
      invariant di.Valid()
      invariant Extended(old(di.groups), old(di.index), di.groups, di.index, channel, signals[..i])
    {
      ghost var groups, index := di.groups, di.index;
      di.AddSignal(channel, signals[i].name);
      ExtendedNext(old(di.groups), old(di.index), groups, index, di.groups, di.index, channel, signals, i);
    }
    assert signals[..|signals|] == signals;
  }

  /** The second index has what the first has, and the names of `signals` under `channel`. */
  ghost predicate Extended(a: seq<SignalGroup>, index: map<string, nat>, b: seq<SignalGroup>, index': map<string, nat>,
      channel: string, signals: seq<Signal>)
  {
    forall c, n :: Has(b, index', c, n) <==> Has(a, index, c, n) || (c == channel && Names(signals, n))
  }

  lemma {:induction false} ExtendedNext(a: seq<SignalGroup>, index: map<string, nat>, b: seq<SignalGroup>,
      index': map<string, nat>, d: seq<SignalGroup>, index'': map<string, nat>, channel: string, signals: seq<Signal>,
      i: nat)
    requires i < |signals| && Extended(a, index, b, index', channel, signals[..i])
    requires forall c, n :: Has(d, index'', c, n) <==> Has(b, index', c, n) || (c == channel && n == signals[i].name)
    ensures Extended(a, index, d, index'', channel, signals[..i + 1])
  {
    NamesNext(signals, i);
  }

  lemma {:induction false} NamesNext(signals: seq<Signal>, i: nat)
    requires i < |signals|
    ensures forall n :: Names(signals[..i + 1], n) <==> Names(signals[..i], n) || n == signals[i].name
  {
    var next := signals[..i + 1];
    forall n
      ensures Names(next, n) <==> Names(signals[..i], n) || n == signals[i].name
    {
      assert next[i] == signals[i];
      assert forall k :: 0 <= k < i ==> next[k] == signals[..i][k];
    }
  }

  lemma {:induction false} HasAfterEmptyGroup(before: seq<SignalGroup>, index: map<string, nat>,
      after: seq<SignalGroup>, index': map<string, nat>, name: string)
    requires IndexOk(before, index)
    requires name in index ==> after == before && index' == index
    requires name !in index ==>
              after == before + [SignalGroup(name, [], map[], 0, 0)] && index' == index[name := |before|]
    ensures forall c, n :: Has(after, index', c, n) <==> Has(before, index, c, n)
  {
  }

  lemma {:induction false} IndexesNext(sim: Simulation, docs: seq<Document>, filter: seq<string>, d: nat,
      groups: seq<SignalGroup>, index: map<string, nat>, groups': seq<SignalGroup>, index': map<string, nat>)
    requires d < |docs| && Indexes(sim, docs[..d], filter, groups, index)
    requires forall c, n :: Has(groups', index', c, n)
                            <==> Has(groups, index, c, n) || Contributes(sim, docs[d], filter, c, n)
    ensures Indexes(sim, docs[..d + 1], filter, groups', index')
  {
    forall c, n
      ensures Has(groups', index', c, n) <==> Contributed(sim, docs[..d + 1], filter, c, n)
    {
      assert Has(groups, index, c, n) <==> Contributed(sim, docs[..d], filter, c, n);
      assert docs[..d + 1][d] == docs[d];
      assert forall k :: 0 <= k < d ==> docs[..d + 1][k] == docs[..d][k];
    }
  }

  lemma {:induction false} PlacingKeepsHas(a: seq<SignalGroup>, b: seq<SignalGroup>, index: map<string, nat>)
    requires |a| == |b| && forall g :: 0 <= g < |a| ==> SameNames(a[g], b[g])
    ensures forall c, n :: Has(a, index, c, n) <==> Has(b, index, c, n)
  {
    forall c, n
      ensures Has(a, index, c, n) <==> Has(b, index, c, n)
    {
      assert c in index && index[c] < |a| ==> SameNames(a[index[c]], b[index[c]]);
    }
  }

  /** applyRule for one signal: the rules in table order, each seeing what earlier ones wrote. */
  method ApplyRules(annotations: Annotations, rules: seq<Rule>) returns (out: Annotations)
    ensures out == Applied(annotations, rules)
  {
    out := annotations;
    for r := 0 to |rules|
      invariant out == Applied(annotations, rules[..r])
    {
      assert rules[..r + 1][..r] == rules[..r];
      var rule := rules[r];
      if rule.annotation in out {
        if out[rule.annotation] == rule.value {
          out := out[rule.fmiAnnotation := rule.fmiValue];
        }
      }
    }
    assert rules[..|rules|] == rules;
  }

  /** annotateSignalgroup with a direct index. */
  method AnnotateSignalgroup(sim: Simulation, di: DirectIndex, rules: seq<Rule>, doc: Document)
    returns (r: Result<Document, AnnotateError>)
    requires di.Valid()
    ensures r.Err? <==> doc.vectorType == Some("binary")
    ensures r.Ok? ==> r.value == doc.(signals := r.value.signals) && |r.value.signals| == |doc.signals|
    ensures r.Ok? ==> forall i :: 0 <= i < |doc.signals| ==>
              r.value.signals[i] == AnnotatedSignal(sim, di.groups, di.index, doc.labels, rules, doc.signals[i])
  {
    if doc.vectorType == Some("binary") {
      return Err(BinaryNotSupported);
    }
    var out := [];
    for i := 0 to |doc.signals|
      invariant |out| == i
      invariant forall k :: 0 <= k < i ==>
                out[k] == AnnotatedSignal(sim, di.groups, di.index, doc.labels, rules, doc.signals[k])
    {
      var s := AnnotateSignal(sim, di, rules, doc.labels, doc.signals[i]);
      out := out + [s];
    }
    return Ok(doc.(signals := out));
  }

  method AnnotateSignal(sim: Simulation, di: DirectIndex, rules: seq<Rule>, labels: Labels, s: Signal)
    returns (out: Signal)
    requires di.Valid()
    ensures out == AnnotatedSignal(sim, di.groups, di.index, labels, rules, s)
    ensures Annotated(sim, di.groups, di.index, labels, rules, s) ==>
              Described(sim, di.groups, labels, rules, s, out)
    ensures !Annotated(sim, di.groups, di.index, labels, rules, s) ==>
              out == s.(annotations := Applied(s.annotations, rules))
  {
    AnnotationDescribes(sim, di.groups, di.index, labels, rules, s);
    var a := ApplyRules(s.annotations, rules);
    out := s.(annotations := a);
    if "fmi_variable_causality" in a && a["fmi_variable_causality"] in {"input", "output"} {
      var channel := LookupSimBusChannelName(sim, labels);
      if channel.Err? {
        return;
      }
      var offset, found := di.GetSignalOffset(channel.value, s.name);
      if !found {
        return;
      }
      out := Signal(s.name, a["fmi_variable_type" := "Real"]["fmi_variable_name" := s.name], Some(offset));
    }
  }

  /** runAnnotateSignalGroups: stops at the first binary group that passes; a ruleset without lines
      annotates nothing. */
  method AnnotateSignalGroups(sim: Simulation, di: DirectIndex, ruleset: Option<seq<Rule>>, docs: seq<Document>,
      filter: seq<string>)
    returns (out: seq<Document>, error: Option<AnnotateError>)
    requires di.Valid()
    ensures |out| == |docs|
    ensures ruleset == None ==> out == docs && error == None
    ensures error == None && ruleset.Some? ==> forall d :: 0 <= d < |docs| ==>
              DocumentDone(sim, di.groups, di.index, ruleset.value, filter, docs[d], out[d])
    ensures error.Some? <==> ruleset.Some? && exists d :: 0 <= d < |docs| && Refused(docs[d], filter)
  {
    out, error := docs, None;
    for d := 0 to |docs|
      invariant |out| == |docs| && error == None
      invariant ruleset == None ==> out == docs
      invariant ruleset.Some? ==> forall k :: 0 <= k < d ==>
                  DocumentDone(sim, di.groups, di.index, ruleset.value, filter, docs[k], out[k])
      invariant forall k :: d <= k < |docs| ==> out[k] == docs[k]
      invariant ruleset.Some? ==> forall k :: 0 <= k < d ==> !Refused(docs[k], filter)
    {
      if !Passes(docs[d], filter) || ruleset == None {
        continue;
      }
      var r := AnnotateSignalgroup(sim, di, ruleset.value, docs[d]);
      if r.Err? {
        return out, Some(r.error);
      }
      out := out[d := r.value];
    }
  }

  /** What a completed run leaves of a document. */
  ghost predicate DocumentDone(sim: Simulation, groups: seq<SignalGroup>, index: map<string, nat>, rules: seq<Rule>,
      filter: seq<string>, doc: Document, out: Document)
    requires IndexOk(groups, index)
  {
    if Passes(doc, filter) then
      && out == doc.(signals := out.signals) && |out.signals| == |doc.signals|
      && forall i :: 0 <= i < |doc.signals| ==>
           out.signals[i] == AnnotatedSignal(sim, groups, index, doc.labels, rules, doc.signals[i])
    else out == doc
  }

  // ----- both commands -----

  /** The document is named by the filter, if there is one, and has no label "index". */
  ghost predicate Chosen(doc: Document, filter: seq<string>) {
    (|filter| == 0 || exists f :: 0 <= f < |filter| && filter[f] == doc.name) && !("index" in doc.labels)
  }

  lemma {:induction false} ChosenPasses(doc: Document, filter: seq<string>)
    ensures Chosen(doc, filter) <==> Passes(doc, filter)
  {
  }

  ghost predicate IsInputOrOutput(a: Annotations) {
    && "fmi_variable_causality" in a
    && (a["fmi_variable_causality"] == "input" || a["fmi_variable_causality"] == "output")
  }

  /** Signal `i` of document `d` is to be annotated: its document is chosen, its group has a channel, and the rules
      make it an input or output. */
  ghost predicate Eligible(sim: Simulation, docs: seq<Document>, filter: seq<string>, rules: seq<Rule>, d: nat,
      i: nat)
  {
    && d < |docs| && i < |docs[d].signals| && Chosen(docs[d], filter)
    && ChannelOf(sim, docs[d].labels).Ok? && IsInputOrOutput(Applied(docs[d].signals[i].annotations, rules))
  }

  ghost predicate SameSignal(sim: Simulation, docs: seq<Document>, d: nat, i: nat, e: nat, j: nat)
    requires d < |docs| && i < |docs[d].signals| && e < |docs| && j < |docs[e].signals|
  {
    && ChannelOf(sim, docs[d].labels) == ChannelOf(sim, docs[e].labels)
    && docs[d].signals[i].name == docs[e].signals[j].name
  }

  /** The signal carries the reference of the slot that the layout gives to the signal of its name in the group of
      its channel; the slot follows from the position of both. */
  ghost predicate HasReference(sim: Simulation, docs: seq<Document>, groups: seq<SignalGroup>, rules: seq<Rule>,
      out: seq<Document>, d: nat, i: nat)
    requires d < |docs| && i < |docs[d].signals|
  {
    && d < |out| && i < |out[d].signals|
    && Described(sim, groups, docs[d].labels, rules, docs[d].signals[i], out[d].signals[i])
    && InSlot(groups, ChannelOf(sim, docs[d].labels).value, docs[d].signals[i].name, out[d].signals[i].vref.value)
  }

  ghost predicate InSlot(groups: seq<SignalGroup>, channel: string, name: string, vref: nat) {
    && (exists g: nat, p: nat ::
          SitsAt(groups, channel, name, vref, g, p) && vref == 24 * SignalsBefore(groups, g) + 8 * p)
    && vref in DirectAccess.SlotsOf(groups)
    && vref + 8 <= 24 * SignalsBefore(groups, |groups|)
  }

  /** Two references: equal for the same signal, without a common byte for different ones. */
  ghost predicate ReferencesFit(sim: Simulation, docs: seq<Document>, out: seq<Document>, d: nat, i: nat, e: nat,
      j: nat)
    requires d < |docs| && i < |docs[d].signals| && e < |docs| && j < |docs[e].signals|
  {
    && d < |out| && i < |out[d].signals| && out[d].signals[i].vref.Some?
    && e < |out| && j < |out[e].signals| && out[e].signals[j].vref.Some?
    && var v, w := out[d].signals[i].vref.value, out[e].signals[j].vref.value;
       if SameSignal(sim, docs, d, i, e, j) then v == w else v + 8 <= w || w + 8 <= v
  }

  lemma {:induction false} SlotOfSignal(groups: seq<SignalGroup>, channel: string, name: string, vref: nat)
    requires Placed(groups) && Sits(groups, channel, name, vref)
    ensures InSlot(groups, channel, name, vref)
  {
    var g, p := SitsByPosition(groups, channel, name, vref);
    assert groups[g].signals[p].offset == vref;
    SlotInsideBlock(groups, g, p);
  }

  lemma {:induction false} OffsetsApart(groups: seq<SignalGroup>, index: map<string, nat>, s: string, n: string,
      t: string, m: string)
    requires IndexOk(groups, index) && Placed(groups) && Has(groups, index, s, n) && Has(groups, index, t, m)
    ensures var a, b := OffsetOf(groups, index, s, n), OffsetOf(groups, index, t, m);
            if s == t && n == m then a == b else a + 8 <= b || b + 8 <= a
  {
    var g, h := index[s], index[t];
    assert GroupOk(groups[g]) && GroupOk(groups[h]);
    if s != t || n != m {
      SlotsDisjoint(groups, g, groups[g].index[n], h, groups[h].index[m]);
    }
  }

  /** What both commands leave of an eligible signal. */
  lemma {:induction false} EligibleIsAnnotated(sim: Simulation, docs: seq<Document>, filter: seq<string>,
      rules: seq<Rule>, groups: seq<SignalGroup>, index: map<string, nat>, out: seq<Document>, d: nat, i: nat)
    requires IndexOk(groups, index) && Placed(groups) && Indexes(sim, docs, filter, groups, index) && |out| == |docs|
    requires Eligible(sim, docs, filter, rules, d, i)
    requires DocumentDone(sim, groups, index, rules, filter, docs[d], out[d])
    ensures HasReference(sim, docs, groups, rules, out, d, i)
    ensures var c, n := ChannelOf(sim, docs[d].labels).value, docs[d].signals[i].name;
            Has(groups, index, c, n) && out[d].signals[i].vref == Some(OffsetOf(groups, index, c, n))
  {
    ChosenPasses(docs[d], filter);
    DirectedSignalsAreAnnotated(sim, docs, filter, groups, index, rules, d, i);
    var s := docs[d].signals[i];
    assert out[d].signals[i] == AnnotatedSignal(sim, groups, index, docs[d].labels, rules, s);
    AnnotationDescribes(sim, groups, index, docs[d].labels, rules, s);
    SlotOfSignal(groups, ChannelOf(sim, docs[d].labels).value, s.name, out[d].signals[i].vref.value);
  }

  lemma {:induction false} ReferencesApart(sim: Simulation, docs: seq<Document>, filter: seq<string>, rules: seq<Rule>,
      groups: seq<SignalGroup>, index: map<string, nat>, out: seq<Document>, d: nat, i: nat, e: nat, j: nat)
    requires IndexOk(groups, index) && Placed(groups) && Indexes(sim, docs, filter, groups, index) && |out| == |docs|
    requires Eligible(sim, docs, filter, rules, d, i) && Eligible(sim, docs, filter, rules, e, j)
    requires DocumentDone(sim, groups, index, rules, filter, docs[d], out[d])
    requires DocumentDone(sim, groups, index, rules, filter, docs[e], out[e])
    ensures ReferencesFit(sim, docs, out, d, i, e, j)
  {
    EligibleIsAnnotated(sim, docs, filter, rules, groups, index, out, d, i);
    EligibleIsAnnotated(sim, docs, filter, rules, groups, index, out, e, j);
    OffsetsApart(groups, index, ChannelOf(sim, docs[d].labels).value, docs[d].signals[i].name,
                 ChannelOf(sim, docs[e].labels).value, docs[e].signals[j].name);
  }

  /** A chosen document of binary signals cannot be annotated. */
  ghost predicate Binary(doc: Document) {
    doc.vectorType == Some("binary")
  }

  /** Generating the index and annotating with it, for all simulations, documents, rules and filters: unless a
      binary group was met, every eligible signal carries the reference of its own slot of the layout, equal for
      the same signal of the same channel, and otherwise without a common byte; all other documents are as they
      were. The documents that the index itself adds carry the label "index", and so are left alone. */
  method IndexAndAnnotate(sim: Simulation, docs: seq<Document>, filter: seq<string>, rules: seq<Rule>)
    returns (di: DirectIndex, out: seq<Document>, error: Option<AnnotateError>)
    ensures fresh(di) && Placed(di.groups) && |out| == |docs|
    ensures error.Some? <==> exists d :: 0 <= d < |docs| && Chosen(docs[d], filter) && Binary(docs[d])
    ensures error == None ==> forall d :: 0 <= d < |docs| && !Chosen(docs[d], filter) ==> out[d] == docs[d]
    ensures error == None ==> forall d: nat, i: nat :: Eligible(sim, docs, filter, rules, d, i) ==>
              HasReference(sim, docs, di.groups, rules, out, d, i)
    ensures error == None ==> forall d: nat, i: nat, e: nat, j: nat ::
              Eligible(sim, docs, filter, rules, d, i) && Eligible(sim, docs, filter, rules, e, j) ==>
                ReferencesFit(sim, docs, out, d, i, e, j)
  {
    di := GenerateDirectIndex(sim, docs, filter);
    out, error := AnnotateSignalGroups(sim, di, Some(rules), docs, filter);
    forall d | 0 <= d < |docs|
      ensures Chosen(docs[d], filter) && Binary(docs[d]) <==> Refused(docs[d], filter)
      ensures error == None && !Chosen(docs[d], filter) ==> out[d] == docs[d]
    {
      ChosenPasses(docs[d], filter);
    }
    if error == None {
      forall d: nat, i: nat | Eligible(sim, docs, filter, rules, d, i)
        ensures HasReference(sim, docs, di.groups, rules, out, d, i)
      {
        EligibleIsAnnotated(sim, docs, filter, rules, di.groups, di.index, out, d, i);
      }
      forall d: nat, i: nat, e: nat, j: nat |
        Eligible(sim, docs, filter, rules, d, i) && Eligible(sim, docs, filter, rules, e, j)
        ensures ReferencesFit(sim, docs, out, d, i, e, j)
      {
        ReferencesApart(sim, docs, filter, rules, di.groups, di.index, out, d, i, e, j);
      }
    }
  }
}
