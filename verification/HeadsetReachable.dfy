/** Runs that reach what the other results leave possible: every edge the state diagram
    does not show, the pauses and power-offs that never end, the panic. */
module HeadsetReachable {
  import opened HeadsetModel
  import opened HeadsetRuns
  import opened HeadsetPause
  import opened HeadsetTransitions
  import opened HeadsetSystem

  /** What an environment that keeps its side of the bargain does. */
  predicate Proper(m: Machine, input: Input) {
    Orderly(m, input) && Monitored(m, input)
  }

  ghost predicate Reachable(m: Machine) {
    exists ms: seq<Machine>, ins: seq<Input> ::
      IsRun(ms, ins) && ms[|ins|] == m
      && forall i {:trigger ins[i]} :: 0 <= i < |ins| ==> Proper(ms[i], ins[i])
  }

  /** The state change from a to b happens in some such run. */
  ghost predicate Happens(a: HeadsetState, b: HeadsetState) {
    exists m: Machine, input: Input {:trigger Proper(m, input)} ::
      Reachable(m) && Enabled(m, input.event) && Proper(m, input)
      && m.task.state == a
      && Step(m, input.event, input.env).task.state == b
      && Step(m, input.event, input.env).run.entered == m.run.clock
      && !Step(m, input.event, input.env).run.panicked
  }

  lemma InitReachable(m: Machine)
    requires Init(m)
    ensures Reachable(m)
  {
    var ms, ins: seq<Input> := [m], [];
    assert IsRun(ms, ins) && ms[|ins|] == m;
  }

  lemma Go(m: Machine, e: Event, env: Env) returns (n: Machine)
    requires Reachable(m) && Enabled(m, e) && Proper(m, Input(e, env))
    ensures n == Step(m, e, env) && Reachable(n)
  {
    n := Step(m, e, env);
    var ms, ins: seq<Input> :|
      IsRun(ms, ins) && ms[|ins|] == m
      && forall i {:trigger ins[i]} :: 0 <= i < |ins| ==> Proper(ms[i], ins[i]);
    var ms', ins' := ms + [n], ins + [Input(e, env)];
    forall i {:trigger ins'[i]} | 0 <= i < |ins'|
      ensures Enabled(ms'[i], ins'[i].event) && ms'[i + 1] == Step(ms'[i], ins'[i].event, ins'[i].env)
      ensures Proper(ms'[i], ins'[i])
    {
      if i < |ins| { Handled(ms, ins, i); assert Proper(ms[i], ins[i]); }
    }
    assert IsRun(ms', ins') && ms'[|ins'|] == n;
  }

  lemma Witness(m: Machine, e: Event, env: Env)
    requires Reachable(m) && Enabled(m, e) && Proper(m, Input(e, env))
    requires Step(m, e, env).run.entered == m.run.clock && !Step(m, e, env).run.panicked
    ensures Happens(m.task.state, Step(m, e, env).task.state)
  {
    var input := Input(e, env);
    assert Proper(m, input);
  }

  /** A step that changes the state. */
  lemma Move(m: Machine, e: Event, env: Env) returns (n: Machine)
    requires Reachable(m) && Enabled(m, e) && Proper(m, Input(e, env))
    requires Step(m, e, env).run.entered == m.run.clock && !Step(m, e, env).run.panicked
    ensures n == Step(m, e, env) && Reachable(n) && Happens(m.task.state, n.task.state)
  {
    Witness(m, e, env);
    n := Go(m, e, env);
  }

  /** Nothing connected, nothing playing; then a handset known, line-in plugged, a USB host,
      a handset playing and paused. */
  const QUIET := Env(
    false, false, false, false, false, false, false, false, false, false, false, false, false, false)
  const KNOWN := QUIET.(paired := true)
  const LINE_IN := QUIET.(lineIn := true, lineInLater := true)
  const HOST := QUIET.(usbHost := true)
  const PLAYING := QUIET.(a2dpStreaming := true, avrcpPaused := true)

  /** A reachable machine in the given state. */
  ghost predicate At(m: Machine, s: HeadsetState, told: SystemState, p: Power) {
    && Reachable(m) && m.task.state == s && m.run.told == told && m.power == p
    && !m.run.panicked && m.run.entered < m.run.clock && !m.task.userPairing
    && m.usb.active == AudioApp && (m.audio.paused ==> m.audio.wiredConnected)
  }

  const OFF := Power(SystemLimbo, Stopped, NoTask, [])

  const FRESH := Machine(
    Task(Null, false, false, false), Usb(false, AudioApp, DefaultApp, DefaultApp), Audio(false, false, false),
    Power(StartingUp, Stopped, NoTask, []), Queue(multiset{}, [], [], [], []),
    Handsets(false, false, 0, -1), Calls(0, 0, 0, 0), Run(0, -1, StartingUp, false))

  lemma ConfiguredReachable(inactive: UsbApp) returns (m: Machine)
    requires inactive == DefaultApp || inactive == VoiceApp
    ensures At(m, Null, StartingUp, Power(StartingUp, Stopped, NoTask, []))
    ensures !m.audio.paused && m.usb.inactive == inactive && !m.usb.audio
  {
    FreshReachable();
    m := Go(FRESH, SetInactiveApp(inactive), QUIET);
  }

  lemma FreshReachable()
    ensures Reachable(FRESH)
  {
    InitReachable(FRESH);
  }

  lemma LimboReachable(inactive: UsbApp) returns (m: Machine)
    requires inactive == DefaultApp || inactive == VoiceApp
    ensures At(m, Limbo, SystemLimbo, OFF) && !m.audio.paused && m.usb.inactive == inactive && !m.usb.audio
  {
    var configured := ConfiguredReachable(inactive);
    var started := Go(configured, StartUpDone, QUIET);
    m := StartedUp(started);
  }

  lemma StartedUp(m: Machine) returns (n: Machine)
    requires At(m, Null, StartingUp, Power(SystemLimbo, Stopped, NoTask, [Change(StartingUp, SystemLimbo)]))
    ensures At(n, Limbo, SystemLimbo, OFF) && n.usb == m.usb && n.audio == m.audio
  {
    n := Go(m, SystemChange(StartingUp, SystemLimbo), QUIET);
  }

  const POWERING_ON := Power(SystemPoweringOn, Stopped, NoTask, [])

  lemma PoweringOnReachable(inactive: UsbApp) returns (m: Machine)
    requires inactive == DefaultApp || inactive == VoiceApp
    ensures At(m, PoweringOn, SystemPoweringOn, POWERING_ON)
    ensures !m.audio.paused && m.usb.inactive == inactive && !m.usb.audio
  {
    var limbo := LimboReachable(inactive);
    var asked := Go(limbo, UiPowerOn, QUIET);
    m := PoweredOn(asked);
  }

  lemma PoweredOn(m: Machine) returns (n: Machine)
    requires At(m, Limbo, SystemLimbo, POWERING_ON.(inbox := [Change(SystemLimbo, SystemPoweringOn)]))
    ensures At(n, PoweringOn, SystemPoweringOn, POWERING_ON) && n.usb == m.usb && n.audio == m.audio
  {
    n := Go(m, SystemChange(SystemLimbo, SystemPoweringOn), QUIET);
  }

  lemma Ask(m: Machine, r: Request) returns (n: Machine)
    requires Reachable(m) && !m.run.panicked && m.task.state != FactoryReset && m.run.entered < m.run.clock
    ensures Reachable(n) && Enabled(n, Deliver(r)) && n.run == m.run.(clock := m.run.clock + 1)
    ensures n.task == m.task && n.usb == m.usb && n.audio == m.audio && n.power == m.power
  {
    n := Go(m, UiRequest(r), QUIET);
  }

  // ---------------------------------------------------------------- BUSY and PAIRING

  const TOLD_ON := [Change(SystemPoweringOn, SystemActive)]

  /** The power-on table has finished, and the state machine is yet to be told. */
  lemma TableDoneReachable(inactive: UsbApp) returns (m: Machine)
    requires inactive == DefaultApp || inactive == VoiceApp
    ensures At(m, PoweringOn, SystemPoweringOn, STARTING.(inbox := TOLD_ON))
    ensures !m.audio.paused && m.usb.inactive == inactive && m.audio.monitoring && m.usb.audio
  {
    var on := PoweringOnReachable(inactive);
    m := PowerOnTable(on);
  }

  /** Line-in is found as monitoring starts. */
  lemma BusyReachable() returns (m: Machine)
    ensures At(m, Busy, SystemPoweringOn, STARTING.(requester := StateMachine, inbox := TOLD_ON))
    ensures m.audio.paused && m.usb.inactive == DefaultApp && Happens(PoweringOn, Busy)
  {
    var done := TableDoneReachable(DefaultApp);
    PoweringOnToBusyHappens(done);
    m := PlugIn(done);
  }

  lemma PoweringOnToBusyHappens(m: Machine)
    requires Reachable(m) && m.task.state == PoweringOn && !m.audio.paused && m.audio.monitoring && !m.run.panicked
    ensures Happens(PoweringOn, Busy)
  {
    Witness(m, WiredConnect, LINE_IN);
  }

  lemma PlugIn(m: Machine) returns (n: Machine)
    requires At(m, PoweringOn, SystemPoweringOn, STARTING.(inbox := TOLD_ON))
    requires !m.audio.paused && m.audio.monitoring
    ensures At(n, Busy, SystemPoweringOn, m.power.(requester := StateMachine))
    ensures n.audio.paused && n.usb == m.usb
  {
    n := Go(m, WiredConnect, LINE_IN);
  }

  lemma BusyToBusyHappens(m: Machine)
    requires Reachable(m) && m.task.state == Busy && !m.run.panicked
    ensures Happens(Busy, Busy)
  {
    Witness(m, AudioActivity, LINE_IN);
  }

  lemma BusyToPairingHappens(m: Machine)
    requires Reachable(m) && Enabled(m, Deliver(PairHandset)) && m.task.state == Busy && m.usb.inactive == DefaultApp
    ensures Happens(Busy, Pairing)
  {
    Witness(m, Deliver(PairHandset), PLAYING);
  }

  lemma BusyEdgesHappen()
    ensures Happens(PoweringOn, Busy) && Happens(Busy, Busy) && Happens(Busy, Pairing)
  {
    var busy := BusyReachable();
    BusyToBusyHappens(busy);
    var told := Busied(busy);
    var asked := Ask(told, PairHandset);
    BusyToPairingHappens(asked);
  }

  /** A USB host found and a user pairing asked for in POWERING_ON, both handled once the
      power-on table has finished: PAIRING before the state machine is told. */
  lemma PairingReachable() returns (m: Machine)
    ensures Reachable(m) && m.task.state == Pairing && Next(m, TOLD_ON[0]) && !m.run.panicked
    ensures m.usb.inactive == DefaultApp && m.run.entered < m.run.clock
  {
    var on := PoweringOnReachable(DefaultApp);
    var asked := Ask(on, PairHandset);
    var done := PowerOnTable(asked);
    var busy := HostFound(done);
    m := PairedWhilePlaying(busy);
  }

  lemma HostFound(m: Machine) returns (n: Machine)
    requires Reachable(m) && m.task.state == PoweringOn && !m.audio.paused && UsbAudioEnabled(m.usb)
    requires m.power == STARTING.(inbox := TOLD_ON) && Enabled(m, Deliver(PairHandset))
    ensures Reachable(n) && n.task.state == Busy && Enabled(n, Deliver(PairHandset)) && n.usb == m.usb
    ensures n.power == m.power.(requester := StateMachine)
  {
    n := Go(m, UsbEnumerated, HOST);
  }

  lemma PairedWhilePlaying(m: Machine) returns (n: Machine)
    requires Reachable(m) && m.task.state == Busy && Enabled(m, Deliver(PairHandset)) && m.usb.inactive == DefaultApp
    requires m.power == STARTING.(requester := StateMachine, inbox := TOLD_ON)
    ensures Reachable(n) && n.task.state == Pairing && Next(n, TOLD_ON[0]) && !n.run.panicked
    ensures n.usb.inactive == DefaultApp && n.run.entered < n.run.clock
  {
    n := Go(m, Deliver(PairHandset), PLAYING);
  }

  lemma PairingEdgeHappens()
    ensures Happens(Pairing, Pairing)
  {
    var pairing := PairingReachable();
    Witness(pairing, SystemChange(SystemPoweringOn, SystemActive), QUIET);
  }

  /** The power-on table completes. */
  lemma PowerOnTable(m: Machine) returns (n: Machine)
    requires Reachable(m) && !m.run.panicked && m.task.state != FactoryReset && m.power == POWERING_ON
    ensures Reachable(n) && n.task == m.task && n.queue == m.queue && n.run == m.run.(clock := m.run.clock + 1)
    ensures n.power == STARTING.(inbox := TOLD_ON)
    ensures n.usb.audio && n.usb.active == m.usb.active && n.usb.inactive == m.usb.inactive
    ensures n.audio.monitoring && n.audio.paused == m.audio.paused
  {
    n := Go(m, PowerOnTableDone, QUIET);
  }

  // ---------------------------------------------------------------- TERMINATING

  lemma Shutdown(m: Machine) returns (n: Machine)
    requires Reachable(m) && !m.run.panicked && m.run.entered < m.run.clock
    requires m.task.state in {PoweringOn, Idle, Terminating, PoweringOff}
    ensures Reachable(n) && n.task.state == Terminating && Happens(m.task.state, Terminating)
    ensures n.power == m.power && n.usb == m.usb && !n.run.panicked && n.run.told == m.run.told
    ensures n.run.entered < n.run.clock
  {
    n := Move(m, ShutdownPrepare, QUIET);
  }

  lemma TerminatingReachable() returns (m: Machine)
    ensures Reachable(m) && m.task.state == Terminating && Next(m, Change(SystemPoweringOn, SystemActive))
    ensures m.usb.inactive == DefaultApp && !m.run.panicked && Happens(Terminating, Terminating)
  {
    var on := PoweringOnReachable(DefaultApp);
    var ending := Shutdown(on);
    var again := Shutdown(ending);
    m := PowerOnTable(ending);
  }

  lemma TerminatingToIdleHappens()
    ensures Happens(Terminating, Terminating) && Happens(Terminating, Idle)
  {
    var m := TerminatingReachable();
    Witness(m, SystemChange(SystemPoweringOn, SystemActive), KNOWN);
  }

  lemma TerminatingToPairingHappens()
    ensures Happens(Terminating, Pairing)
  {
    var m := TerminatingReachable();
    Witness(m, SystemChange(SystemPoweringOn, SystemActive), QUIET);
  }

  // ---------------------------------------------------------------- IDLE, active

  const STARTING := Power(SystemActive, Starting, NoTask, [])
  const STARTED := Power(SystemActive, Started, NoTask, [])

  lemma IdleReachable() returns (m: Machine)
    ensures At(m, Idle, SystemActive, STARTING)
    ensures !m.audio.paused && m.usb.inactive == DefaultApp && m.audio.monitoring && m.usb.audio
  {
    var done := TableDoneReachable(DefaultApp);
    m := PoweredOnKnown(done);
  }

  lemma PoweredOnKnown(m: Machine) returns (n: Machine)
    requires At(m, PoweringOn, SystemPoweringOn, STARTING.(inbox := TOLD_ON))
    ensures At(n, Idle, SystemActive, STARTING) && n.usb == m.usb && n.audio == m.audio
  {
    n := Go(m, SystemChange(SystemPoweringOn, SystemActive), KNOWN);
  }

  lemma StartedReachable() returns (m: Machine)
    ensures At(m, Idle, SystemActive, STARTED)
    ensures !m.audio.paused && m.usb.inactive == DefaultApp && m.audio.monitoring && m.usb.audio
  {
    var idle := IdleReachable();
    m := Go(idle, TopologyReady, QUIET);
  }

  /** The user powers off. */
  lemma PowerOffAsked(m: Machine) returns (n: Machine)
    requires Reachable(m) && !m.run.panicked && m.run.entered < m.run.clock
    requires m.task.state in {PoweringOn, Idle, Busy, Terminating}
    ensures Reachable(n) && n.power == SystemPowerOff(m.power) && n.run == m.run.(clock := m.run.clock + 2)
    ensures n.task == m.task && n.usb == m.usb && n.audio == m.audio
  {
    var asked := Ask(m, PowerOff);
    n := Go(asked, Deliver(PowerOff), QUIET);
  }

  const TOLD_OFF := [Change(SystemActive, SystemPoweringOff)]

  /** The table's stop of an active system's topology, starting, started or stopping. */
  lemma PowerOffOf(topology: TopologyState, requester: Requester)
    requires topology != Stopped
    ensures SystemPowerOff(Power(SystemActive, topology, requester, [])) ==
      Power(SystemPoweringOff, if topology == Started then Stopping else topology, PowerOffTable, TOLD_OFF)
  {
  }

  lemma TerminatingToPoweringOffHappens()
    ensures Happens(Terminating, PoweringOff)
  {
    var idle := IdleReachable();
    var ending := Shutdown(idle);
    PowerOffOf(Starting, NoTask);
    var off := PowerOffAsked(ending);
    var told := ToldToPowerOff(off);
  }

  lemma ToldToPowerOff(m: Machine) returns (n: Machine)
    requires Reachable(m) && !m.run.panicked && m.task.state in {Idle, Busy, Terminating}
    requires m.power.inbox == TOLD_OFF && m.power.topology != Stopped
    ensures Reachable(n) && n.task.state == PoweringOff && Happens(m.task.state, PoweringOff)
    ensures n.power == m.power.(inbox := []) && n.audio.paused == m.audio.paused && n.usb == m.usb
    ensures !n.run.panicked && n.run.told == SystemPoweringOff && n.run.entered < n.run.clock
  {
    n := Move(m, SystemChange(SystemActive, SystemPoweringOff), QUIET);
  }

  /** Powered off while the topology is still starting: no confirmation will ever come. */
  lemma PoweringOffStuck() returns (m: Machine)
    ensures Reachable(m) && m.task.state == PoweringOff && Coming(m.power) == 0 && !m.run.panicked
    ensures Happens(PoweringOff, Terminating)
  {
    var idle := IdleReachable();
    PowerOffOf(Starting, NoTask);
    var off := PowerOffAsked(idle);
    m := ToldToPowerOff(off);
    var ending := Shutdown(m);
  }

  // ---------------------------------------------------------------- pauses that never end

  /** Wired audio comes while the topology is started: the pause has its confirmation coming. */
  lemma PausedReachable() returns (m: Machine)
    ensures At(m, Busy, SystemActive, Power(SystemActive, Stopping, StateMachine, []))
    ensures m.audio.paused && m.usb.inactive == DefaultApp
  {
    var started := StartedReachable();
    m := Go(started, WiredConnect, LINE_IN);
  }

  /** Wired audio, then power-off while the topology is stopping: the one confirmation goes to
      the table, and LIMBO is reached with the controller paused and nothing coming. */
  lemma OvertakenPause() returns (m: Machine)
    ensures Reachable(m) && m.task.state == Limbo && m.audio.paused && Coming(m.power) == 0 && !m.run.panicked
  {
    var paused := PausedReachable();
    PowerOffOf(Stopping, StateMachine);
    var off := PowerOffAsked(paused);
    var told := ToldToPowerOff(off);
    m := TableIsTold(told);
    NoneLeft(m.power);
  }

  lemma NoneLeft(p: Power)
    requires p.inbox == [TO_LIMBO] && p.topology == Stopped
    ensures Coming(p) == 0
  {
    assert p.inbox[1..] == [] && Confirms(p.inbox[1..]) == 0;
  }

  lemma TableIsTold(m: Machine) returns (n: Machine)
    requires Reachable(m) && !m.run.panicked && m.task.state == PoweringOff && m.usb.inactive == DefaultApp
    requires m.power == Power(SystemPoweringOff, Stopping, PowerOffTable, [])
    ensures Reachable(n) && n.task.state == Limbo && n.audio.paused == m.audio.paused && !n.run.panicked
    ensures n.power == Power(SystemLimbo, Stopped, NoTask, [TO_LIMBO])
  {
    var stopped := Go(m, TopologyStopDone, QUIET);
    n := TableConfirmed(stopped);
  }

  lemma TableConfirmed(m: Machine) returns (n: Machine)
    requires Reachable(m) && !m.run.panicked && m.task.state == PoweringOff && m.usb.inactive == DefaultApp
    requires m.power == Power(SystemPoweringOff, Stopped, NoTask, [Confirm(PowerOffTable)])
    ensures Reachable(n) && n.task.state == Limbo && n.audio.paused == m.audio.paused && !n.run.panicked
    ensures n.power == Power(SystemLimbo, Stopped, NoTask, [TO_LIMBO])
  {
    n := Go(m, TableStopped, QUIET);
  }

  /** Line-in is found as the power-on table starts the topology: no confirmation comes. */
  lemma StartingPause() returns (m: Machine)
    ensures Reachable(m) && m.task.state == Busy && m.audio.paused && Coming(m.power) == 0 && !m.run.panicked
    ensures m.run.told == SystemActive && m.power.topology == Started
  {
    var busy := BusyReachable();
    var told := Busied(busy);
    m := Go(told, TopologyReady, LINE_IN);
  }

  lemma Busied(m: Machine) returns (n: Machine)
    requires At(m, Busy, SystemPoweringOn, STARTING.(requester := StateMachine, inbox := TOLD_ON)) && m.audio.paused
    ensures At(n, Busy, SystemActive, STARTING.(requester := StateMachine)) && n.audio.paused && n.usb == m.usb
  {
    n := Go(m, SystemChange(SystemPoweringOn, SystemActive), LINE_IN);
  }

  // ---------------------------------------------------------------- LIMBO left by powering on

  /** A wired connection just before the state machine is told to power off takes the table's
      confirmation away; the user powers on again in the LIMBO that follows. */
  lemma LimboWhilePoweringOff() returns (m: Machine)
    ensures Reachable(m) && m.task.state == Limbo && !m.run.panicked && m.usb.inactive == DefaultApp
    ensures m.power == Power(SystemPoweringOff, Stopped, NoTask, []) && m.run.entered < m.run.clock
  {
    var started := StartedReachable();
    PowerOffOf(Started, NoTask);
    var off := PowerOffAsked(started);
    var busy := Overtake(off);
    var told := ToldToPowerOff(busy);
    m := MachineStops(told);
  }

  lemma Overtake(m: Machine) returns (n: Machine)
    requires Reachable(m) && !m.run.panicked && m.task.state == Idle && !m.audio.paused && m.audio.monitoring
    requires m.power.topology == Stopping
    ensures Reachable(n) && n.task.state == Busy && n.power == m.power.(requester := StateMachine)
    ensures n.usb == m.usb && !n.run.panicked
  {
    n := Go(m, WiredConnect, LINE_IN);
  }

  lemma MachineStops(m: Machine) returns (n: Machine)
    requires Reachable(m) && !m.run.panicked && m.task.state == PoweringOff
    requires m.power == Power(SystemPoweringOff, Stopping, StateMachine, [])
    ensures Reachable(n) && n.task.state == Limbo && n.power == Power(SystemPoweringOff, Stopped, NoTask, [])
    ensures n.usb == m.usb && !n.run.panicked && n.run.entered < n.run.clock
  {
    var stopped := Go(m, TopologyStopDone, QUIET);
    assert stopped.power == Power(SystemPoweringOff, Stopped, NoTask, [Confirm(StateMachine)]);
    n := Go(stopped, TopologyStopped, QUIET);
  }

  lemma PowerOnAgain(m: Machine) returns (n: Machine)
    requires Reachable(m) && m.task.state == Limbo && !m.run.panicked && m.run.entered < m.run.clock
    requires m.power == Power(SystemPoweringOff, Stopped, NoTask, [])
    ensures Reachable(n) && n.task.state == Limbo && n.power == Power(SystemPoweringOn, Stopped, NoTask, [])
    ensures n.usb == m.usb && !n.run.panicked && n.run.entered < n.run.clock
  {
    var on := Go(m, UiPowerOn, QUIET);
    assert on.power.inbox == [Change(SystemPoweringOff, SystemPoweringOn)];
    n := Go(on, SystemChange(SystemPoweringOff, SystemPoweringOn), QUIET);
  }

  lemma LimboEdgesHappen()
    ensures Happens(Limbo, Idle) && Happens(Limbo, Pairing)
  {
    var limbo := LimboWhilePoweringOff();
    var on := PowerOnAgain(limbo);
    var told := PowerOnTable(on);
    LimboLeft(told);
  }

  lemma LimboLeft(m: Machine)
    requires Reachable(m) && m.task.state == Limbo && !m.run.panicked && m.usb.inactive == DefaultApp
    requires Next(m, Change(SystemPoweringOn, SystemActive)) && m.run.entered < m.run.clock
    ensures Happens(Limbo, Idle) && Happens(Limbo, Pairing)
  {
    Witness(m, SystemChange(SystemPoweringOn, SystemActive), KNOWN);
    Witness(m, SystemChange(SystemPoweringOn, SystemActive), QUIET);
  }

  /** The handlers' own edges are no over-estimate: an orderly run takes each of them. */
  lemma HandlerEdgesHappen(a: HeadsetState, b: HeadsetState)
    requires HandlerEdge(a, b)
    ensures Happens(a, b)
  {
    BusyEdgesHappen();
    PairingEdgeHappens();
    TerminatingToIdleHappens();
    TerminatingToPairingHappens();
    TerminatingToPoweringOffHappens();
    var stuck := PoweringOffStuck();
    LimboEdgesHappen();
  }

  // ---------------------------------------------------------------- other ends

  /** An inactive application that SetInactiveAppType accepts, and the power-on that panics. */
  lemma PanicReachable() returns (m: Machine)
    ensures Reachable(m) && m.run.panicked
  {
    var done := TableDoneReachable(VoiceApp);
    m := PoweredOnPanics(done);
  }

  lemma PoweredOnPanics(m: Machine) returns (n: Machine)
    requires Reachable(m) && Next(m, Change(SystemPoweringOn, SystemActive)) && m.task.state == PoweringOn
    requires !m.run.panicked && m.usb.active == AudioApp && m.usb.inactive == VoiceApp
    ensures Reachable(n) && n.run.panicked
  {
    n := Go(m, SystemChange(SystemPoweringOn, SystemActive), QUIET);
  }

  /** Powered off while powering on: the state machine stays in POWERING_ON while the system
      goes to limbo. */
  lemma LeftBehindReachable() returns (m: Machine)
    ensures Reachable(m) && m.task.state == PoweringOn && m.run.told == SystemLimbo && LeftBehind(m)
    ensures !m.run.panicked
  {
    var on := PoweringOnReachable(DefaultApp);
    var off := PowerOffAsked(on);
    assert off.power ==
      Power(SystemPoweringOff, Stopped, PowerOffTable,
            [Change(SystemPoweringOn, SystemPoweringOff), Confirm(PowerOffTable)]);
    var told := Go(off, SystemChange(SystemPoweringOn, SystemPoweringOff), QUIET);
    assert told.power == Power(SystemPoweringOff, Stopped, PowerOffTable, [Confirm(PowerOffTable)]);
    m := TableEndsEarly(told);
  }

  lemma TableEndsEarly(m: Machine) returns (n: Machine)
    requires Reachable(m) && m.task.state == PoweringOn && !m.run.panicked && m.usb.inactive == DefaultApp
    requires m.power == Power(SystemPoweringOff, Stopped, PowerOffTable, [Confirm(PowerOffTable)]) && !m.audio.paused
    ensures Reachable(n) && n.task.state == PoweringOn && n.run.told == SystemLimbo && LeftBehind(n) && !n.run.panicked
  {
    var done := Go(m, TableStopped, QUIET);
    assert done.power.inbox == [TO_LIMBO];
    n := Go(done, SystemChange(SystemPoweringOff, SystemLimbo), QUIET);
  }

  /** A user pairing whose disconnection fails ends in IDLE with wired audio off. */
  lemma IdleWiredOffReachable() returns (m: Machine)
    ensures Reachable(m) && m.task.state == Idle && m.run.told == SystemActive && WiredOff(m) && !m.run.panicked
  {
    var idle := IdleReachable();
    var asked := Ask(idle, PairHandset);
    var pairing := UserPairing(asked);
    m := DisconnectionFails(pairing);
  }

  lemma DisconnectionFails(m: Machine) returns (n: Machine)
    requires Reachable(m) && m.task.state == Pairing && m.task.userPairing && WiredOff(m) && !m.run.panicked
    ensures Reachable(n) && n.task.state == Idle && WiredOff(n) && n.run.told == m.run.told && !n.run.panicked
  {
    n := Go(m, TopologyHandsetDisconnected(DisconnectFailed), QUIET);
  }

  lemma UserPairing(m: Machine) returns (n: Machine)
    requires Reachable(m) && Enabled(m, Deliver(PairHandset)) && m.task.state == Idle && m.usb.inactive == DefaultApp
    ensures Reachable(n) && n.task.state == Pairing && n.task.userPairing && WiredOff(n)
    ensures n.run.told == m.run.told && !n.run.panicked
  {
    n := Go(m, Deliver(PairHandset), QUIET);
  }
}
