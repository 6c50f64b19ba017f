/** Finding the SimBus channel of a SignalGroup by selectors and labels
    (extra/tools/fmi/internal/app/generate/modelcfmu.go:355-429). */
module ChannelLookup {
  import opened Wrappers

  type Labels = map<string, string>

  datatype Channel = Channel(name: string, alias: string, selectors: Option<Labels>)
  datatype ModelInstance = ModelInstance(name: string, modelName: string, channels: seq<Channel>)
  datatype ModelDefinition = ModelDefinition(name: string, channels: seq<Channel>)

  /** The indexed simulation folder: its Stack documents, each with or without models, and its
      Model definitions in document order. */
  datatype Simulation = Simulation(stacks: seq<Option<seq<ModelInstance>>>, definitions: seq<ModelDefinition>)

  datatype LookupError = StackCount(found: nat) | NoModels | NoMatchingChannel

  // ----- specification -----

  /** The selectors of the last channel with that alias on one definition; `found` carries the
      selection made so far. */
  function LastAlias(channels: seq<Channel>, alias: string, found: Option<Labels>): Option<Labels> {
    if channels == [] then found
    else
      var last := channels[|channels| - 1];
      if last.alias == alias then last.selectors else LastAlias(channels[..|channels| - 1], alias, found)
  }

  /** The same over all definitions of that name. */
  function FromDefinitions(definitions: seq<ModelDefinition>, modelName: string, alias: string): Option<Labels> {
    if definitions == [] then None
    else
      var last := definitions[|definitions| - 1];
      var found := FromDefinitions(definitions[..|definitions| - 1], modelName, alias);
      if last.name == modelName then LastAlias(last.channels, alias, found) else found
  }

  /** A channel's own selectors, else those of its model definition. */
  function Effective(sim: Simulation, model: ModelInstance, channel: Channel): Option<Labels> {
    if channel.selectors.Some? then channel.selectors
    else FromDefinitions(sim.definitions, model.modelName, channel.alias)
  }

  ghost predicate SubsetOf(selectors: Labels, labels: Labels) {
    forall k :: k in selectors ==> k in labels && labels[k] == selectors[k]
  }

  ghost predicate Selected(sim: Simulation, labels: Labels, model: ModelInstance, channel: Channel) {
    && model.name != "simbus"
    && Effective(sim, model, channel).Some?
    && SubsetOf(Effective(sim, model, channel).value, labels)
  }

  ghost function FirstInModel(sim: Simulation, labels: Labels, model: ModelInstance,
      channels: seq<Channel>): Option<string> {
    if channels == [] then None
    else if Selected(sim, labels, model, channels[0]) then Some(channels[0].name)
    else FirstInModel(sim, labels, model, channels[1..])
  }

  ghost function FirstInStack(sim: Simulation, labels: Labels, models: seq<ModelInstance>): Option<string> {
    if models == [] then None
    else
      var first := FirstInModel(sim, labels, models[0], models[0].channels);
      if first.Some? then first else FirstInStack(sim, labels, models[1..])
  }

  ghost function ChannelOf(sim: Simulation, labels: Labels): Result<string, LookupError> {
    if |sim.stacks| != 1 then Err(StackCount(|sim.stacks|))
    else if sim.stacks[0] == None then Err(NoModels)
    else
      match FirstInStack(sim, labels, sim.stacks[0].value)
      case None => Err(NoMatchingChannel)
      case Some(name) => Ok(name)
  }

  /** The definitions have a last channel of the model with that alias, and it has these selectors. */
  ghost predicate LastAliased(definitions: seq<ModelDefinition>, modelName: string, alias: string, selectors: Labels) {
    exists d: nat, c: nat ::
      && Aliased(definitions, modelName, alias, d, c) && definitions[d].channels[c].selectors == Some(selectors)
      && forall e: nat, b: nat :: Earlier(d, c, e, b) ==> !Aliased(definitions, modelName, alias, e, b)
  }

  /** Own selectors decide alone, also against those of the definitions; only without any the last channel with the
      alias decides. The models called "simbus" are never asked. */
  lemma {:induction false} SelectedMeaning(sim: Simulation, labels: Labels, model: ModelInstance, channel: Channel)
    ensures Selected(sim, labels, model, channel) <==>
            && model.name != "simbus"
            && match channel.selectors
               case Some(own) => forall k :: k in own ==> k in labels && labels[k] == own[k]
               case None => exists s: Labels ::
                 LastAliased(sim.definitions, model.modelName, channel.alias, s) && SubsetOf(s, labels)
  {
    if channel.selectors == None {
      var d, c := FallbackMeaning(sim.definitions, model.modelName, channel.alias);
      var found := FromDefinitions(sim.definitions, model.modelName, channel.alias);
      forall s: Labels
        ensures LastAliased(sim.definitions, model.modelName, channel.alias, s) <==> found == Some(s)
      {
        LastAliasedIsFound(sim.definitions, model.modelName, channel.alias, s, d, c);
      }
    }
  }

  lemma {:induction false} LastAliasedIsFound(definitions: seq<ModelDefinition>, modelName: string, alias: string,
      s: Labels, d: nat, c: nat)
    requires var found := FromDefinitions(definitions, modelName, alias);
             && ((forall e: nat, b: nat :: !Aliased(definitions, modelName, alias, e, b)) ==> found == None)
             && ((exists e: nat, b: nat :: Aliased(definitions, modelName, alias, e, b)) ==>
                   && Aliased(definitions, modelName, alias, d, c) && found == definitions[d].channels[c].selectors
                   && forall e: nat, b: nat :: Earlier(d, c, e, b) ==> !Aliased(definitions, modelName, alias, e, b))
    ensures LastAliased(definitions, modelName, alias, s) <==> FromDefinitions(definitions, modelName, alias) == Some(s)
  {
    if LastAliased(definitions, modelName, alias, s) {
      var e: nat, b: nat :|
        && Aliased(definitions, modelName, alias, e, b) && definitions[e].channels[b].selectors == Some(s)
        && forall x: nat, y: nat :: Earlier(e, b, x, y) ==> !Aliased(definitions, modelName, alias, x, y);
      assert !Earlier(d, c, e, b) && !Earlier(e, b, d, c);
      assert d == e && c == b;
    }
  }

  /** Position (m, c) comes before position (n, d) in stack order. */
  predicate Earlier(m: nat, c: nat, n: nat, d: nat) {
    m < n || (m == n && c < d)
  }

  ghost predicate SelectedAt(sim: Simulation, labels: Labels, models: seq<ModelInstance>, m: nat, c: nat) {
    m < |models| && c < |models[m].channels| && Selected(sim, labels, models[m], models[m].channels[c])
  }

  lemma {:induction false} FirstInModelMeaning(sim: Simulation, labels: Labels, model: ModelInstance,
      channels: seq<Channel>)
    returns (c: nat)
    ensures FirstInModel(sim, labels, model, channels) == None ==>
              forall d :: 0 <= d < |channels| ==> !Selected(sim, labels, model, channels[d])
    ensures FirstInModel(sim, labels, model, channels).Some? ==>
              && c < |channels| && Selected(sim, labels, model, channels[c])
              && FirstInModel(sim, labels, model, channels).value == channels[c].name
              && forall d :: 0 <= d < c ==> !Selected(sim, labels, model, channels[d])
  {
    c := 0;
    if channels != [] && !Selected(sim, labels, model, channels[0]) {
      var rest := channels[1..];
      var p := FirstInModelMeaning(sim, labels, model, rest);
      assert forall d :: 0 < d < |channels| ==> channels[d] == rest[d - 1];
      c := p + 1;
    }
  }

  /** The lookup returns the first selected channel in stack order, and fails exactly when there is none. */
  lemma {:induction false} FirstInStackMeaning(sim: Simulation, labels: Labels, models: seq<ModelInstance>)
    returns (m: nat, c: nat)
    ensures FirstInStack(sim, labels, models) == None ==>
              forall n: nat, d: nat :: !SelectedAt(sim, labels, models, n, d)
    ensures FirstInStack(sim, labels, models).Some? ==>
              && SelectedAt(sim, labels, models, m, c)
              && FirstInStack(sim, labels, models).value == models[m].channels[c].name
              && forall n: nat, d: nat :: Earlier(n, d, m, c) ==> !SelectedAt(sim, labels, models, n, d)
  {
    m, c := 0, 0;
    if models != [] {
      c := FirstInModelMeaning(sim, labels, models[0], models[0].channels);
      if FirstInModel(sim, labels, models[0], models[0].channels) == None {
        var rest := models[1..];
        var p, q := FirstInStackMeaning(sim, labels, rest);
        m, c := p + 1, q;
        forall n: nat, d: nat | SelectedAt(sim, labels, models, n, d)
          ensures n > 0 && SelectedAt(sim, labels, rest, n - 1, d)
        {
          assert n > 0 ==> models[n] == rest[n - 1];
        }
        assert FirstInStack(sim, labels, rest).Some? ==> models[m] == rest[p];
      }
    }
  }

  /** The lookup as a whole: it needs exactly one stack, with models, and a selected channel in it; otherwise the
      error says which of these is missing. */
  lemma {:induction false} ChannelOfMeaning(sim: Simulation, labels: Labels) returns (m: nat, c: nat)
    ensures var r := ChannelOf(sim, labels);
            && (r.Ok? ==> && |sim.stacks| == 1 && sim.stacks[0].Some?
                          && SelectedAt(sim, labels, sim.stacks[0].value, m, c)
                          && r.value == sim.stacks[0].value[m].channels[c].name
                          && forall n: nat, d: nat :: Earlier(n, d, m, c) ==>
                               !SelectedAt(sim, labels, sim.stacks[0].value, n, d))
            && (r == Err(NoMatchingChannel) ==>
                  && |sim.stacks| == 1 && sim.stacks[0].Some?
                  && forall n: nat, d: nat :: !SelectedAt(sim, labels, sim.stacks[0].value, n, d))
            && (r == Err(NoModels) <==> |sim.stacks| == 1 && sim.stacks[0] == None)
            && (forall n :: r == Err(StackCount(n)) <==> |sim.stacks| == n && n != 1)
  {
    m, c := 0, 0;
    if |sim.stacks| == 1 && sim.stacks[0].Some? {
      m, c := FirstInStackMeaning(sim, labels, sim.stacks[0].value);
    }
  }

  /** Channel (d, c) of the definitions belongs to the model and has the alias. */
  ghost predicate Aliased(definitions: seq<ModelDefinition>, modelName: string, alias: string, d: nat, c: nat) {
    && d < |definitions| && definitions[d].name == modelName
    && c < |definitions[d].channels| && definitions[d].channels[c].alias == alias
  }

  lemma {:induction false} LastAliasMeaning(channels: seq<Channel>, alias: string, found: Option<Labels>)
    returns (c: nat)
    ensures (forall b :: 0 <= b < |channels| ==> channels[b].alias != alias) ==>
              LastAlias(channels, alias, found) == found
    ensures (exists b :: 0 <= b < |channels| && channels[b].alias == alias) ==>
              && c < |channels| && channels[c].alias == alias
              && LastAlias(channels, alias, found) == channels[c].selectors
              && forall b :: c < b < |channels| ==> channels[b].alias != alias
  {
    c := 0;
    if channels != [] {
      var n := |channels| - 1;
      if channels[n].alias == alias {
        c := n;
      } else {
        c := LastAliasMeaning(channels[..n], alias, found);
        assert forall b :: 0 <= b < n ==> channels[..n][b] == channels[b];
      }
    }
  }

  /** The fallback is the last channel with the alias over all definitions of the model, even when that
      channel has no selectors; without such a channel there are none. */
  lemma {:induction false} FallbackMeaning(definitions: seq<ModelDefinition>, modelName: string, alias: string)
    returns (d: nat, c: nat)
    ensures (forall e: nat, b: nat :: !Aliased(definitions, modelName, alias, e, b))
            ==> FromDefinitions(definitions, modelName, alias) == None
    ensures (exists e: nat, b: nat :: Aliased(definitions, modelName, alias, e, b)) ==>
              && Aliased(definitions, modelName, alias, d, c)
              && FromDefinitions(definitions, modelName, alias) == definitions[d].channels[c].selectors
              && forall e: nat, b: nat :: Earlier(d, c, e, b) ==> !Aliased(definitions, modelName, alias, e, b)
  {
    d, c := 0, 0;
    if definitions != [] {
      var n := |definitions| - 1;
      var init := definitions[..n];
      var e, b := FallbackMeaning(init, modelName, alias);
      d, c := e, b;
      InitAliased(definitions, modelName, alias);
      if definitions[n].name == modelName {
        var last := LastAliasMeaning(definitions[n].channels, alias, FromDefinitions(init, modelName, alias));
        if exists k :: 0 <= k < |definitions[n].channels| && definitions[n].channels[k].alias == alias {
          d, c := n, last;
          assert Aliased(definitions, modelName, alias, n, last);
        }
      }
    }
  }

  lemma {:induction false} InitAliased(definitions: seq<ModelDefinition>, modelName: string, alias: string)
    requires definitions != []
    ensures var init := definitions[..|definitions| - 1];
            forall e: nat, b: nat :: Aliased(init, modelName, alias, e, b)
                                     <==> e < |definitions| - 1 && Aliased(definitions, modelName, alias, e, b)
  {
  }

  // ----- the search -----

  /** Counts the selectors that match a label and stops at the first mismatch. Both maps are iterated
      in no particular order. */
  method MatchSelectors(selectors: Labels, labels: Labels) returns (matched: bool)
    ensures matched <==> SubsetOf(selectors, labels)
  {
    var selectorMatchCount := 0;
    var remaining := selectors.Keys;
    ghost var found: set<string> := {};
    while remaining != {}
      invariant remaining <= selectors.Keys && found <= selectors.Keys - remaining
      invariant |found| == selectorMatchCount
      invariant forall k :: k in found ==> k in labels && labels[k] == selectors[k]
      invariant forall k :: k in selectors && k !in remaining && k in labels ==> k in found
      decreases |remaining|
    {
      var selector :| selector in remaining;
      remaining := remaining - {selector};
      var hit := MatchSelector(selector, selectors[selector], labels);
      if hit == Mismatch {
        assert selector in selectors && labels[selector] != selectors[selector];
        return false;
      }
      if hit == Match {
        selectorMatchCount := selectorMatchCount + 1;
        found := found + {selector};
      }
    }
    if found != selectors.Keys {
      SmallerSubset(found, selectors.Keys);
    }
    assert |selectors.Keys| == |selectors|;
    matched := selectorMatchCount == |selectors|;
  }

  datatype Hit = Absent | Match | Mismatch

  /** The loop over labels for one selector. */
  method MatchSelector(selector: string, value: string, labels: Labels) returns (hit: Hit)
    ensures hit == if selector !in labels then Absent else if labels[selector] == value then Match else Mismatch
  {
    hit := Absent;
    var remaining := labels.Keys;
    while remaining != {}
      invariant remaining <= labels.Keys
      invariant hit == if selector in labels && selector !in remaining then Match else Absent
      invariant hit == Match ==> labels[selector] == value
      decreases |remaining|
    {
      var name :| name in remaining;
      remaining := remaining - {name};
      if selector != name {
        continue;
      }
      if value != labels[name] {
        return Mismatch;
      }
      hit := Match;
    }
  }

  lemma {:induction false} SmallerSubset(a: set<string>, b: set<string>)
    requires a <= b && a != b
    ensures |a| < |b|
  {
    var rest := b - a;
    assert b == a + rest && a !! rest && rest != {};
  }

  /** The fallback to the model definitions; later channels and definitions override earlier ones. */
  method SelectorsFromDefinitions(sim: Simulation, modelName: string, alias: string) returns (selectors: Option<Labels>)
    ensures selectors == FromDefinitions(sim.definitions, modelName, alias)
  {
    selectors := None;
    var definitions := sim.definitions;
    for i := 0 to |definitions|
      invariant selectors == FromDefinitions(definitions[..i], modelName, alias)
    {
      assert definitions[..i + 1][..i] == definitions[..i];
      if definitions[i].name != modelName {
        continue;
      }
      var before := selectors;
      var channels := definitions[i].channels;
      for c := 0 to |channels|
        invariant selectors == LastAlias(channels[..c], alias, before)
      {
        assert channels[..c + 1][..c] == channels[..c];
        if channels[c].alias != alias {
          continue;
        }
        selectors := channels[c].selectors;
      }
      assert channels[..|channels|] == channels;
    }
    assert definitions[..|definitions|] == definitions;
  }

  /** The loop over the channels of one model instance. */
  method LookupInModel(sim: Simulation, labels: Labels, model: ModelInstance) returns (r: Option<string>)
    requires model.name != "simbus"
    ensures r == FirstInModel(sim, labels, model, model.channels)
  {
    var channels := model.channels;
    for c := 0 to |channels|
      invariant FirstInModel(sim, labels, model, channels) == FirstInModel(sim, labels, model, channels[c..])
    {
      assert channels[c..][0] == channels[c] && channels[c..][1..] == channels[c + 1..];
      var selectors := channels[c].selectors;
      if selectors == None {
        selectors := SelectorsFromDefinitions(sim, model.modelName, channels[c].alias);
      }
      if selectors == None {
        continue;
      }
      var matched := MatchSelectors(selectors.value, labels);
      if matched {
        return Some(channels[c].name);
      }
    }
    return None;
  }

  lemma {:induction false} SimbusNeverSelected(sim: Simulation, labels: Labels, model: ModelInstance,
      channels: seq<Channel>)
    requires model.name == "simbus"
    ensures FirstInModel(sim, labels, model, channels) == None
  {
    if channels != [] {
      SimbusNeverSelected(sim, labels, model, channels[1..]);
    }
  }

  /** lookupSimBusChannelName */
  method LookupSimBusChannelName(sim: Simulation, labels: Labels) returns (r: Result<string, LookupError>)
    ensures r == ChannelOf(sim, labels)
  {
    if |sim.stacks| != 1 {
      return Err(StackCount(|sim.stacks|));
    }
    if sim.stacks[0] == None {
      return Err(NoModels);
    }
    var models := sim.stacks[0].value;
    for m := 0 to |models|
      invariant FirstInStack(sim, labels, models) == FirstInStack(sim, labels, models[m..])
    {
      assert models[m..][0] == models[m] && models[m..][1..] == models[m + 1..];
      if models[m].name == "simbus" {
        SimbusNeverSelected(sim, labels, models[m], models[m].channels);
        continue;
      }
      var name := LookupInModel(sim, labels, models[m]);
      if name.Some? {
        return Ok(name.value);
      }
    }
    return Err(NoMatchingChannel);
  }
}
