/** The gateway FMU from creation to release (dse/fmigateway/fmigateway.c:116-282,
    dse/fmigateway/session.c:75-162, dse/fmigateway/session_win32.c:521-614,
    dse/fmigateway/session_unix.c:43-61). */
module GatewaySession {
  import opened Wrappers

  datatype State = Created | Initialized | Running | Stopped | Terminated

  function Rank(s: State): nat {
    match s
    case Created => 0
    case Initialized => 1
    case Running => 2
    case Stopped => 3
    case Terminated => 4
  }

  datatype Runtime = Legacy | Simer

  /** `models` says whether the session has models to handle. */
  datatype Session = Session(models: bool)

  datatype Settings = Settings(windows: bool, runtime: Runtime, session: Option<Session>)

  /** The effects of the gateway that matter to the simulation. */
  datatype Event = RunModels | GatewaySetup | GatewaySync | GatewayExit | StopSimer | ShutdownScript | Teardown

  /** What the environment answers while the gateway is released: whether all models were still alive
      after the termination signal, and the result of the shutdown command. */
  datatype Release = Release(allAlive: bool, shutdownRc: int)

  datatype Gateway = Gateway(state: State, trace: seq<Event>)

  const NEW: Gateway := Gateway(Created, [])

  // ----- the calls as functions -----

  function AfterInit(g: Gateway, startupRc: int, setupRc: int): Gateway {
    if startupRc != 0 then g
    else if setupRc != 0 then g.(trace := g.trace + [RunModels, GatewaySetup])
    else Gateway(Initialized, g.trace + [RunModels, GatewaySetup])
  }

  function AfterStep(g: Gateway): Gateway {
    Gateway(if g.state == Initialized then Running else g.state, g.trace + [GatewaySync])
  }

  /** The syncs of _shutdown_models: one if no step was taken, one more if every model is still alive. */
  function ShutdownSyncs(settings: Settings, state: State, release: Release): seq<Event> {
    if settings.windows && settings.session.Some? && settings.session.value.models then
      (if Rank(state) < Rank(Running) then [GatewaySync] else []) + (if release.allAlive then [GatewaySync] else [])
    else []
  }

  function SessionEnd(settings: Settings, state: State, release: Release): seq<Event> {
    if Rank(state) < Rank(Initialized) then [Teardown]
    else if settings.runtime == Legacy && settings.session == None then [GatewayExit]
    else
      (if settings.runtime == Simer then [GatewayExit, StopSimer]
       else ShutdownSyncs(settings, state, release) + [GatewayExit])
      + [ShutdownScript] + (if release.shutdownRc != 0 then [] else [Teardown])
  }

  function AfterDestroy(settings: Settings, g: Gateway, release: Release): Gateway {
    Gateway(Terminated, g.trace + SessionEnd(settings, g.state, release))
  }

  // ----- whole runs -----

  /** The calls before release. */
  datatype Call = Init(startupRc: int, setupRc: int) | Step

  predicate Succeeds(call: Call) {
    call.Init? && call.startupRc == 0 && call.setupRc == 0
  }

  function Run(calls: seq<Call>): Gateway {
    if calls == [] then NEW
    else
      var g := Run(calls[..|calls| - 1]);
      match calls[|calls| - 1]
      case Init(startupRc, setupRc) => AfterInit(g, startupRc, setupRc)
      case Step => AfterStep(g)
  }

  function Inited(calls: seq<Call>): bool {
    calls != [] && (Inited(calls[..|calls| - 1]) || Succeeds(calls[|calls| - 1]))
  }

  lemma {:induction false} InitedMeansSomeInit(calls: seq<Call>)
    ensures Inited(calls) <==> exists k :: 0 <= k < |calls| && Succeeds(calls[k])
  {
    if calls != [] {
      var n := |calls| - 1;
      InitedMeansSomeInit(calls[..n]);
      assert forall k :: 0 <= k < n ==> calls[k] == calls[..n][k];
    }
  }

  /** The gateway never exits before it is released, and its state tells whether an init succeeded. */
  lemma {:induction false} BeforeRelease(calls: seq<Call>)
    ensures GatewayExit !in Run(calls).trace
    ensures Run(calls).state in {Created, Initialized, Running}
    ensures Inited(calls) <==> Run(calls).state != Created
  {
    if calls != [] {
      BeforeRelease(calls[..|calls| - 1]);
    }
  }

  /** Over every run that ends in a release: without a successful init model_gw_exit is never called;
      otherwise it is called exactly once, and no model_gw_sync comes after it. */
  lemma {:induction false} ExitsOnceAfterInit(settings: Settings, calls: seq<Call>, release: Release)
    returns (earlier: seq<Event>, later: seq<Event>)
    ensures var trace := AfterDestroy(settings, Run(calls), release).trace;
            && (!Inited(calls) ==> GatewayExit !in trace)
            && (Inited(calls) ==> && trace == earlier + [GatewayExit] + later
                                  && GatewayExit !in earlier && GatewayExit !in later && GatewaySync !in later)
  {
    BeforeRelease(calls);
    var before := Run(calls).trace;
    var syncs;
    syncs, later := EndExits(settings, Run(calls).state, release);
    earlier := before + syncs;
    assert before + (syncs + [GatewayExit] + later) == earlier + [GatewayExit] + later;
  }

  lemma {:induction false} EndExits(settings: Settings, state: State, release: Release)
    returns (syncs: seq<Event>, later: seq<Event>)
    ensures state == Created ==> SessionEnd(settings, state, release) == [Teardown]
    ensures state != Created ==> SessionEnd(settings, state, release) == syncs + [GatewayExit] + later
    ensures GatewayExit !in syncs && GatewayExit !in later && GatewaySync !in later
  {
    syncs := if settings.runtime == Simer then [] else ShutdownSyncs(settings, state, release);
    if settings.runtime == Legacy && settings.session == None {
      later := [];
    } else {
      var teardown := if release.shutdownRc != 0 then [] else [Teardown];
      later := (if settings.runtime == Simer then [StopSimer] else []) + ([ShutdownScript] + teardown);
    }
  }

  /** Teardown is meant for every release. It is skipped exactly when an initialised legacy gateway has
      no session, or when the shutdown command of an initialised gateway fails. */
  lemma {:induction false} TeardownRuns(settings: Settings, calls: seq<Call>, release: Release)
    ensures Teardown in AfterDestroy(settings, Run(calls), release).trace
            <==> !Inited(calls)
                 || ((settings.runtime == Simer || settings.session.Some?) && release.shutdownRc == 0)
  {
    BeforeRelease(calls);
    NoTeardownBefore(calls);
    var end := SessionEnd(settings, Run(calls).state, release);
    assert Teardown in end <==> end[|end| - 1] == Teardown;
  }

  /** Releases without teardown: a legacy gateway without session, and a simer gateway whose shutdown command
      fails. */
  lemma {:induction false} TeardownSkipped()
    ensures var calls := [Init(0, 0)];
            && Teardown !in AfterDestroy(Settings(true, Legacy, None), Run(calls), Release(true, 0)).trace
            && Teardown !in AfterDestroy(Settings(true, Simer, None), Run(calls), Release(true, 1)).trace
  {
    var calls := [Init(0, 0)];
    assert Succeeds(calls[0]) && Inited(calls);
    TeardownRuns(Settings(true, Legacy, None), calls, Release(true, 0));
    TeardownRuns(Settings(true, Simer, None), calls, Release(true, 1));
  }

  function Steps(calls: seq<Call>): nat {
    if calls == [] then 0 else Steps(calls[..|calls| - 1]) + (if calls[|calls| - 1].Step? then 1 else 0)
  }

  /** Inits whose startup command succeeded. */
  function Starts(calls: seq<Call>): nat {
    if calls == [] then 0
    else
      var last := calls[|calls| - 1];
      Starts(calls[..|calls| - 1]) + (if last.Init? && last.startupRc == 0 then 1 else 0)
  }

  /** Some init succeeded, and a step was taken since the last one that did. */
  function SteppedSinceInit(calls: seq<Call>): bool {
    calls != []
    && var earlier, last := calls[..|calls| - 1], calls[|calls| - 1];
       if last.Step? then Inited(earlier) else SteppedSinceInit(earlier) && !Succeeds(last)
  }

  /** Before release every step is one sync, whatever the state, and every started init runs the models and sets
      the gateway up once; nothing else happens. */
  lemma {:induction false} EventsBeforeRelease(calls: seq<Call>)
    ensures var trace := multiset(Run(calls).trace);
            && trace[GatewaySync] == Steps(calls)
            && trace[GatewaySetup] == trace[RunModels] == Starts(calls)
            && trace[GatewayExit] == trace[StopSimer] == trace[ShutdownScript] == trace[Teardown] == 0
    ensures Run(calls).state == Running <==> SteppedSinceInit(calls)
  {
    if calls != [] {
      EventsBeforeRelease(calls[..|calls| - 1]);
      BeforeRelease(calls[..|calls| - 1]);
    }
  }

  /** In every run the gateway is set up directly behind a start of the models, and only there. */
  lemma {:induction false} SetupFollowsStart(calls: seq<Call>, k: nat)
    requires k < |Run(calls).trace|
    ensures Run(calls).trace[k] == GatewaySetup <==> k > 0 && Run(calls).trace[k - 1] == RunModels
    ensures Run(calls).trace[k] == RunModels ==> k + 1 < |Run(calls).trace|
  {
    var earlier := calls[..|calls| - 1];
    var before := Run(earlier).trace;
    if k < |before| {
      SetupFollowsStart(earlier, k);
    } else if before != [] {
      SetupFollowsStart(earlier, |before| - 1);
    }
  }

  /** The models of a session are shut down here: a legacy gateway on Windows with models. */
  predicate ShutsDownModels(settings: Settings) {
    settings.windows && settings.runtime == Legacy && settings.session.Some? && settings.session.value.models
  }

  /** The syncs at release: one when no step was taken since the last init, and one when all models outlive the
      termination signal. */
  function ExtraSyncs(settings: Settings, running: bool, release: Release): nat {
    if ShutsDownModels(settings) then (if running then 0 else 1) + (if release.allAlive then 1 else 0) else 0
  }

  lemma {:induction false} ShutdownSyncCount(settings: Settings, state: State, release: Release)
    requires settings.runtime == Legacy && state in {Initialized, Running}
    ensures var syncs := ShutdownSyncs(settings, state, release);
            && |syncs| == ExtraSyncs(settings, state == Running, release)
            && forall k :: 0 <= k < |syncs| ==> syncs[k] == GatewaySync
  {
  }

  /** The exit and what follows it: the stop of the simer runtime, the shutdown script, and teardown. */
  function ExitAndAfter(settings: Settings, release: Release): seq<Event> {
    [GatewayExit]
    + (if settings.runtime == Simer then [StopSimer] else [])
    + (if settings.runtime == Legacy && settings.session == None then []
       else if release.shutdownRc != 0 then [ShutdownScript]
       else [ShutdownScript, Teardown])
  }

  lemma {:induction false} EndParts(settings: Settings, state: State, release: Release) returns (syncs: seq<Event>)
    requires state in {Initialized, Running}
    ensures SessionEnd(settings, state, release) == syncs + ExitAndAfter(settings, release)
    ensures |syncs| == ExtraSyncs(settings, state == Running, release)
    ensures forall k :: 0 <= k < |syncs| ==> syncs[k] == GatewaySync
  {
    syncs := if settings.runtime == Simer then [] else ShutdownSyncs(settings, state, release);
    if settings.runtime == Legacy {
      ShutdownSyncCount(settings, state, release);
    }
  }

  /** What a release adds to any run, in order: teardown alone without a successful init; otherwise the extra syncs,
      the exit, and what follows it. */
  lemma {:induction false} EventsOfRelease(settings: Settings, calls: seq<Call>, release: Release)
    returns (syncs: seq<Event>)
    ensures AfterDestroy(settings, Run(calls), release)
            == Gateway(Terminated, Run(calls).trace
                                   + if Inited(calls) then syncs + ExitAndAfter(settings, release) else [Teardown])
    ensures Inited(calls) ==> |syncs| == ExtraSyncs(settings, SteppedSinceInit(calls), release)
    ensures forall k :: 0 <= k < |syncs| ==> syncs[k] == GatewaySync
  {
    EventsBeforeRelease(calls);
    BeforeRelease(calls);
    syncs := [];
    if Inited(calls) {
      syncs := EndParts(settings, Run(calls).state, release);
    }
  }

  lemma {:induction false} NoTeardownBefore(calls: seq<Call>)
    ensures Teardown !in Run(calls).trace
  {
    if calls != [] {
      NoTeardownBefore(calls[..|calls| - 1]);
    }
  }

  /** A step was taken after a successful init. */
  function Stepped(calls: seq<Call>): bool {
    calls != [] && (Stepped(calls[..|calls| - 1]) || (Inited(calls[..|calls| - 1]) && calls[|calls| - 1].Step?))
  }

  /** A successful init follows such a step. */
  function InitedAgain(calls: seq<Call>): bool {
    calls != []
    && (InitedAgain(calls[..|calls| - 1]) || (Stepped(calls[..|calls| - 1]) && Succeeds(calls[|calls| - 1])))
  }

  function NeverFallsBack(calls: seq<Call>): bool {
    calls == []
    || (NeverFallsBack(calls[..|calls| - 1]) && Rank(Run(calls[..|calls| - 1]).state) <= Rank(Run(calls).state))
  }

  /** The state only advances exactly in the runs that do not initialise again after a step, which is what
      the calling sequence of FMI 2.0 (section 4.2.4) allows. */
  lemma {:induction false} StateOnlyAdvances(calls: seq<Call>)
    ensures NeverFallsBack(calls) <==> !InitedAgain(calls)
    ensures !InitedAgain(calls) ==> (Run(calls).state == Running <==> Stepped(calls))
  {
    if calls != [] {
      StateOnlyAdvances(calls[..|calls| - 1]);
      BeforeRelease(calls[..|calls| - 1]);
      SteppedNeedsInit(calls[..|calls| - 1]);
    }
  }

  lemma {:induction false} SteppedNeedsInit(calls: seq<Call>)
    ensures Stepped(calls) ==> Inited(calls)
  {
    if calls != [] {
      SteppedNeedsInit(calls[..|calls| - 1]);
    }
  }

  lemma {:induction false} SecondInitFallsBack()
    ensures var calls := [Init(0, 0), Step, Init(0, 0)];
            !NeverFallsBack(calls)
  {
    var calls := [Init(0, 0), Step, Init(0, 0)];
    assert calls[..2] == [Init(0, 0), Step];
    assert calls[..2][..1] == [Init(0, 0)] && calls[..2][..1][..0] == [];
    assert Run([Init(0, 0)]).state == Initialized;
    assert Run(calls[..2]).state == Running;
  }

  // ----- the implementation -----

  class FmiGateway {
    const settings: Settings
    var state: State
    /** Effects so far, in order. */
    var trace: seq<Event>
    var lastStep: real
    var stepSize: real

    ghost function View(): Gateway
      reads this
    {
      Gateway(state, trace)
    }

    /** fmu_create */
    constructor (settings: Settings)
      ensures View() == NEW && this.settings == settings
    {
      this.settings := settings;
      state, trace, lastStep, stepSize := Created, [], 0.0, 0.0;
    }

    /** fmu_init with fmigateway_session_start. */
    method FmuInit(startupRc: int, setupRc: int) returns (rc: int)
      modifies this
      ensures View() == AfterInit(old(View()), startupRc, setupRc)
      ensures rc == if startupRc != 0 then startupRc else setupRc
      ensures lastStep == old(lastStep) && stepSize == old(stepSize)
    {
      if startupRc != 0 {
        return startupRc;
      }
      trace := trace + [RunModels];
      trace := trace + [GatewaySetup];
      assert trace == old(trace) + [RunModels, GatewaySetup];
      if setupRc != 0 {
        return setupRc;
      }
      state := Initialized;
      return 0;
    }

    /** fmu_step; `behind` is the answer E_GATEWAYBEHIND. It reports success in every case. */
    method FmuStep(communicationPoint: real, size: real, behind: bool) returns (rc: int)
      modifies this
      ensures View() == AfterStep(old(View())) && rc == 0
      ensures behind || settings.session == None ==> lastStep == old(lastStep) && stepSize == old(stepSize)
      ensures !behind && settings.session.Some? ==> lastStep == communicationPoint && stepSize == size
    {
      if state == Initialized {
        state := Running;
      }
      trace := trace + [GatewaySync];
      if behind {
        return 0;
      }
      if settings.session.Some? {
        lastStep := communicationPoint;
        stepSize := size;
      }
      return 0;
    }

    /** fmigateway_shutdown_models */
    method ShutdownModels(release: Release)
      requires settings.session.Some? && Rank(state) >= Rank(Initialized)
      modifies this`trace
      ensures trace == old(trace) + (ShutdownSyncs(settings, state, release) + [GatewayExit])
    {
      if settings.windows && settings.session.value.models {
        if Rank(state) < Rank(Running) {
          trace := trace + [GatewaySync];
        }
        if release.allAlive {
          trace := trace + [GatewaySync];
        }
      }
      trace := trace + [GatewayExit];
    }

    /** fmigateway_session_end */
    method EndSession(release: Release) returns (rc: int)
      modifies this`trace
      ensures trace == old(trace) + SessionEnd(settings, state, release)
    {
      if Rank(state) < Rank(Initialized) {
        trace := trace + [Teardown];
        return 0;
      }
      if settings.runtime == Simer {
        trace := trace + [GatewayExit];
        trace := trace + [StopSimer];
      } else {
        if settings.session == None {
          trace := trace + [GatewayExit];
          return 0;
        }
        ShutdownModels(release);
      }
      trace := trace + [ShutdownScript];
      if release.shutdownRc != 0 {
        return release.shutdownRc;
      }
      trace := trace + [Teardown];
      return 0;
    }

    /** fmu_destroy */
    method FmuDestroy(release: Release) returns (rc: int)
      modifies this
      ensures View() == AfterDestroy(settings, old(View()), release) && rc == 0
    {
      var _ := EndSession(release);
      state := Terminated;
      return 0;
    }
  }
}
