/** The headset application as a value, and one message as a function from value to value.

    A Machine holds the state machine's task data, the audio switches (wired audio controller and
    USB switch), the stereo topology and the system state module with what they post, the other
    messages queued for the state machine, and what the foreign libraries were last told.
    Everything the libraries answer while a message is handled is one Env value, so no answer can
    change half way through a handler but that of line-in, when the handler starts or stops its
    monitoring. A state change is given part by part: what leaving the old state and entering the
    new one do to each. */
module HeadsetModel {

  datatype HeadsetState =
    | Null | FactoryReset | Limbo | PoweringOn | Pairing | Idle | Busy | Terminating | PoweringOff

  /** The enumeration value, which two handlers compare. */
  function Code(s: HeadsetState): nat {
    match s
    case Null => 0
    case FactoryReset => 1
    case Limbo => 2
    case PoweringOn => 3
    case Pairing => 4
    case Idle => 5
    case Busy => 6
    case Terminating => 7
    case PoweringOff => 8
  }

  /** OtherApp stands for every value the default build does not list. */
  datatype UsbApp = NullApp | DefaultApp | VoiceApp | AudioApp | AudioVoice2af | AudioVoice1af | OtherApp

  datatype SystemState = StartingUp | SystemLimbo | SystemPoweringOn | SystemActive | SystemPoweringOff

  /** The messages the state machine posts to itself on behalf of the user. */
  datatype Request = PairHandset | DeleteHandsets | ResetToFactory | PowerOff

  datatype DisconnectStatus = DisconnectSucceeded | DisconnectFailed | DisconnectOther

  /** What the libraries answer while one message is handled. */
  datatype Env = Env(
    lineIn: bool,            // wired audio source: line-in available
    lineInLater: bool,       // the same, once the handler has started or stopped monitoring
    usbHost: bool,           // USB application connected to a host
    handsetConnected: bool,  // device layer: a handset is connected
    handsetAddress: bool,    // device layer: a handset address is known
    bredrHandset: bool,      // device layer: that handset is connected over BR/EDR
    anyBredr: bool,          // handset service: some BR/EDR connection is left
    paired: bool,            // device database: some handset is paired
    a2dpStreaming: bool,
    avrcpPaused: bool,
    scoActive: bool,
    ancEnabled: bool,
    leakthrough: bool,
    silentCommit: bool)

  /** The state machine's own task data. */
  datatype Task = Task(state: HeadsetState, lock: bool, userPairing: bool, autoPowerOn: bool)

  /** USB switch; open is the application the USB framework has open. */
  datatype Usb = Usb(audio: bool, active: UsbApp, inactive: UsbApp, open: UsbApp)

  /** Wired audio controller and wired monitoring. */
  datatype Audio = Audio(paused: bool, wiredConnected: bool, monitoring: bool)

  datatype TopologyState = Stopped | Starting | Started | Stopping

  /** Whom the topology will send its stop confirmation: its last requester. */
  datatype Requester = NoTask | StateMachine | PowerOffTable

  /** What the system state module and the topology post, handled in the order of posting: a
      change of the system state, or a stop confirmation. */
  datatype Notice = Change(before: SystemState, after: SystemState) | Confirm(to: Requester)

  /** System state module and stereo topology. */
  datatype Power = Power(system: SystemState, topology: TopologyState, requester: Requester, inbox: seq<Notice>)

  /** Other messages queued for the state machine. A timer or completion is the clock value of
      the step that posted it; link timers all run equally long, so the oldest fires first. */
  datatype Queue = Queue(
    requests: multiset<Request>,
    completes: seq<nat>,
    linkTimers: seq<nat>,
    idleTimers: seq<nat>,
    limboTimers: seq<nat>)

  /** Handset libraries: connections prohibited, pairing procedure requested, times all
      pairings were erased, clock of the last observation that no handset is connected. */
  datatype Handsets = Handsets(prohibited: bool, pairing: bool, erased: nat, lastClear: int)

  /** Calls made into the power, user interface and reboot libraries. */
  datatype Calls = Calls(responses: nat, powerOnInputs: nat, powerOffRequests: nat, reboots: nat)

  /** Messages handled so far, clock of the last state change, and the system state that the
      state machine was last told. */
  datatype Run = Run(clock: nat, entered: int, told: SystemState, panicked: bool)

  datatype Machine = Machine(
    task: Task, usb: Usb, audio: Audio, power: Power, queue: Queue, handsets: Handsets, calls: Calls, run: Run)

  datatype Event =
    | SystemChange(before: SystemState, after: SystemState)
    | PairingConfirm
    | HandsetConnected
    | HandsetDisconnected
    | TopologyHandsetDisconnected(status: DisconnectStatus)
    | TopologyStopped
    | TableStopped
    | AudioActivity
    | ChargerDetached
    | ShutdownPrepare
    | AncEnabled
    | AncDisabled
    | LeakthroughChanged(on: bool)
    | UiPowerOn
    | UiRequest(posted: Request)
    | Deliver(request: Request)
    | IdleTimeout
    | LimboTimeout
    | LinkTimeout
    | LinkComplete
    | WiredConnect
    | WiredDisconnect
    | UsbEnumerated
    | UsbDeconfigured
    | SetActiveApp(app: UsbApp)
    | SetInactiveApp(app: UsbApp)
    | StartUpDone
    | PowerOnTableDone
    | TopologyReady
    | TopologyStopDone

  // ---------------------------------------------------------------- USB switch

  predicate IsAppSupported(app: UsbApp) {
    app != OtherApp
  }

  predicate IsAppSupportAudio(app: UsbApp) {
    app == VoiceApp || app == AudioApp || app == AudioVoice2af || app == AudioVoice1af
  }

  predicate UsbAudioEnabled(u: Usb) {
    u.audio && IsAppSupportAudio(u.active)
  }

  function UsbEnable(u: Usb): Usb {
    u.(audio := true, open := if u.active == NullApp || u.active == OtherApp then u.open else u.active)
  }

  /** An inactive application that is not to be opened, and not the active one, panics. */
  predicate UsbDisablePanics(u: Usb) {
    u.inactive != u.active && u.inactive != DefaultApp && u.inactive != NullApp
  }

  function UsbDisable(u: Usb): Usb {
    u.(audio := false, open := if u.inactive == u.active || UsbDisablePanics(u) then u.open else u.inactive)
  }

  function UsbSetActive(u: Usb, app: UsbApp): Usb {
    if u.audio || !IsAppSupported(app) then u else u.(active := app)
  }

  function UsbSetInactive(u: Usb, app: UsbApp): Usb {
    if u.audio || !IsAppSupported(app) then u else u.(inactive := app)
  }

  // ---------------------------------------------------------------- topology and system state

  /** A start in any other state is ignored. */
  function TopologyStart(p: Power): Power {
    if p.topology == Stopped then p.(topology := Starting) else p
  }

  /** Every stop overwrites the requester; it is confirmed at once if stopped, later if started,
      and not at all, as a stop of its own, if starting or stopping. */
  function TopologyStop(p: Power, who: Requester): Power {
    match p.topology
    case Started => p.(topology := Stopping, requester := who)
    case Stopped => p.(requester := who, inbox := p.inbox + [Confirm(who)])
    case _ => p.(requester := who)
  }

  /** Stopping has finished or timed out: one confirmation, to the last requester. */
  function TopologyHasStopped(p: Power): Power {
    p.(topology := Stopped, requester := NoTask, inbox := p.inbox + [Confirm(p.requester)])
  }

  function SystemMoved(p: Power, after: SystemState): Power {
    p.(system := after, inbox := p.inbox + [Change(p.system, after)])
  }

  function SystemPowerOn(p: Power): Power {
    if p.system == SystemLimbo || p.system == SystemPoweringOff then SystemMoved(p, SystemPoweringOn) else p
  }

  predicate AcceptsPowerOff(p: Power) {
    p.system == SystemPoweringOn || p.system == SystemActive
  }

  /** The power-off table starts with a stop of the topology. */
  function SystemPowerOff(p: Power): Power {
    if AcceptsPowerOff(p) then TopologyStop(SystemMoved(p, SystemPoweringOff), PowerOffTable) else p
  }

  // ---------------------------------------------------------------- queries

  predicate WiredActive(u: Usb, env: Env) {
    env.lineIn || (UsbAudioEnabled(u) && env.usbHost)
  }

  predicate AudioActive(u: Usb, env: Env) {
    env.a2dpStreaming || env.scoActive || WiredActive(u, env)
  }

  predicate IsActiveState(s: HeadsetState) {
    s == Idle || s == Busy
  }

  /** Nothing keeps the headset awake; the timer itself is also tied to the IDLE state. */
  predicate NothingActive(u: Usb, env: Env) {
    !env.handsetConnected && !WiredActive(u, env) && !env.ancEnabled && !env.leakthrough
  }

  predicate DisconnectLink(env: Env) {
    env.handsetAddress && env.bredrHandset
  }

  // ---------------------------------------------------------------- small effects

  function Panic(m: Machine): Machine {
    m.(run := m.run.(panicked := true))
  }

  function WithState(m: Machine, s: HeadsetState): Machine {
    m.(task := m.task.(state := s))
  }

  function StartIdleTimer(m: Machine, env: Env): Machine {
    if m.task.state == Idle && NothingActive(m.usb, env)
    then m.(queue := m.queue.(idleTimers := [m.run.clock])) else m
  }

  function StopIdleTimer(m: Machine): Machine {
    m.(queue := m.queue.(idleTimers := []))
  }

  function StartLimboTimer(m: Machine): Machine {
    m.(queue := m.queue.(limboTimers := [m.run.clock]))
  }

  function WithoutFirst(timers: seq<nat>): seq<nat> {
    if timers == [] then [] else timers[1..]
  }

  function Post(m: Machine, r: Request): Machine {
    m.(queue := m.queue.(requests := m.queue.requests + multiset{r}))
  }

  function Monitor(m: Machine, on: bool): Machine {
    m.(audio := m.audio.(monitoring := on))
  }

  // ---------------------------------------------------------------- changing state

  function TaskAfter(t: Task, s: HeadsetState): Task {
    t.(state := s,
       userPairing := t.userPairing && t.state != Pairing,
       autoPowerOn := t.autoPowerOn && s != Limbo)
  }

  /** Entering BUSY with wired audio pauses the controller; TERMINATING stops wired monitoring. */
  function AudioAfter(a: Audio, s: HeadsetState, wired: bool): Audio {
    var pausing := s == Busy && wired;
    Audio(a.paused || pausing, a.wiredConnected || pausing, a.monitoring && s != Terminating)
  }

  /** Entering BUSY with wired audio stops the topology; leaving it without starts it. */
  function PowerAfter(p: Power, t: Task, s: HeadsetState, wired: bool): Power {
    if s == Busy && wired then TopologyStop(p, StateMachine)
    else if t.state == Busy && !wired then TopologyStart(p)
    else p
  }

  function QueueAfter(q: Queue, t: Task, s: HeadsetState, quiet: bool, clock: nat): Queue {
    q.(idleTimers := if s == Idle && quiet then [clock] else if t.state == Idle then [] else q.idleTimers,
       limboTimers := if s == Limbo then [clock] else if t.state == Limbo then [] else q.limboTimers,
       linkTimers := if s == FactoryReset then WithoutFirst(q.linkTimers) else q.linkTimers)
  }

  function HandsetsAfter(h: Handsets, t: Task, s: HeadsetState): Handsets {
    var user := t.userPairing && t.state != Pairing;
    h.(prohibited := (s == Pairing && user) || (h.prohibited && t.state != Pairing),
       pairing := (s == Pairing && !user) || (h.pairing && t.state != Pairing))
  }

  function CallsAfter(c: Calls, t: Task, s: HeadsetState): Calls {
    c.(responses := if s == Terminating then c.responses + 1 else c.responses,
       powerOnInputs := if s == Limbo && t.autoPowerOn then c.powerOnInputs + 1 else c.powerOnInputs,
       reboots := if s == FactoryReset then c.reboots + 1 else c.reboots)
  }

  /** FACTORY_RESET cannot be left and NULL cannot be entered. */
  function SetState(m: Machine, s: HeadsetState, env: Env): Machine {
    if m.task.state == FactoryReset then Panic(m)
    else
      Machine(
        TaskAfter(m.task, s),
        m.usb,
        AudioAfter(m.audio, s, WiredActive(m.usb, env)),
        PowerAfter(m.power, m.task, s, WiredActive(m.usb, env)),
        QueueAfter(m.queue, m.task, s, NothingActive(m.usb, env), m.run.clock),
        HandsetsAfter(m.handsets, m.task, s),
        CallsAfter(m.calls, m.task, s),
        m.run.(entered := m.run.clock, panicked := m.run.panicked || s == Null))
  }

  // ---------------------------------------------------------------- wired audio controller

  function WiredAudioConnected(m: Machine, env: Env): Machine {
    if m.task.state == PoweringOn || IsActiveState(m.task.state) then SetState(m, Busy, env) else m
  }

  function WiredAudioDisconnected(m: Machine, env: Env): Machine {
    if m.task.state == Busy then SetState(m, Idle, env) else m
  }

  function HandleCurrentWiredStatus(m: Machine, env: Env): Machine {
    var connected := WiredActive(m.usb, env);
    if connected == m.audio.wiredConnected then m
    else if connected then WiredAudioConnected(m, env)
    else WiredAudioDisconnected(m, env)
  }

  function ControllerResumed(m: Machine): Machine {
    m.(audio := m.audio.(paused := false))
  }

  function ControllerEnable(m: Machine, env: Env): Machine {
    if m.audio.paused then ControllerResumed(HandleCurrentWiredStatus(m, env)) else m
  }

  predicate IsWiredEvent(e: Event) {
    e == WiredConnect || e == WiredDisconnect || e == UsbEnumerated || e == UsbDeconfigured
  }

  /** What the system state module and the topology do by themselves or for the user. */
  predicate IsPowerEvent(e: Event) {
    e in {StartUpDone, PowerOnTableDone, TopologyReady, TopologyStopDone, UiPowerOn}
  }

  function ControllerHandle(m: Machine, e: Event, env: Env): Machine {
    if m.audio.paused then m
    else match e
      case WiredConnect => WiredAudioConnected(m, env)
      case UsbEnumerated => if UsbAudioEnabled(m.usb) then WiredAudioConnected(m, env) else m
      case UsbDeconfigured =>
        if UsbAudioEnabled(m.usb) && !WiredActive(m.usb, env) then WiredAudioDisconnected(m, env) else m
      case WiredDisconnect => if !WiredActive(m.usb, env) then WiredAudioDisconnected(m, env) else m
      case _ => m
  }

  // ---------------------------------------------------------------- handlers

  function CoreState(m: Machine, env: Env): HeadsetState {
    if !IsActiveState(m.task.state) then m.task.state
    else if AudioActive(m.usb, env) then Busy else Idle
  }

  function DisableUsb(m: Machine): Machine {
    var off := m.(usb := UsbDisable(m.usb));
    if UsbDisablePanics(m.usb) then Panic(off) else off
  }

  /** Starting or stopping monitoring may change what is available. */
  function Later(env: Env): Env {
    env.(lineIn := env.lineInLater)
  }

  /** Wired monitoring and USB audio go off before every move to PAIRING. */
  function StartPairing(m: Machine, user: bool, env: Env): Machine {
    var off := DisableUsb(Monitor(m, false));
    if UsbDisablePanics(m.usb) then off
    else SetState(off.(task := off.task.(userPairing := user)), Pairing, Later(env))
  }

  function HandlePoweredOn(m: Machine, env: Env): Machine {
    if WiredActive(m.usb, env) then
      if m.task.state == PoweringOn then SetState(m, Idle, env) else m
    else if env.paired then SetState(m, Idle, env)
    else StartPairing(m, false, env)
  }

  function HandleSystemChange(m: Machine, before: SystemState, after: SystemState, env: Env): Machine {
    match (before, after)
    case (StartingUp, SystemLimbo) => if m.task.state == Null then SetState(m, Limbo, env) else Panic(m)
    case (SystemLimbo, SystemPoweringOn) => SetState(m, PoweringOn, env)
    case (SystemPoweringOn, SystemActive) => HandlePoweredOn(m, env)
    case (SystemActive, SystemPoweringOff) => SetState(m, PoweringOff, env)
    case _ => m
  }

  function Told(m: Machine, after: SystemState): Machine {
    m.(run := m.run.(told := after))
  }

  /** The rest of the power-on table. */
  function HandlePowerOnTable(m: Machine): Machine {
    m.(audio := m.audio.(monitoring := true),
       usb := UsbEnable(m.usb),
       power := SystemMoved(TopologyStart(m.power), SystemActive))
  }

  function HandlePairingConfirm(m: Machine, env: Env): Machine {
    if m.task.state == Pairing
    then SetState(Monitor(m, true).(usb := UsbEnable(m.usb)), Idle, Later(env)) else m
  }

  function HandleTopologyHandsetDisconnected(m: Machine, status: DisconnectStatus, env: Env): Machine {
    if m.task.userPairing && m.task.state == Pairing then
      match status
      case DisconnectSucceeded => m.(handsets := m.handsets.(pairing := true))
      case DisconnectFailed => SetState(m, Idle, env)
      case DisconnectOther => m
    else m
  }

  function UpdateDisconnectingLink(m: Machine, env: Env): Machine {
    if m.task.lock && !env.anyBredr
    then m.(task := m.task.(lock := false), handsets := m.handsets.(lastClear := m.run.clock))
    else m
  }

  function RequestPowerOff(m: Machine): Machine {
    m.(calls := m.calls.(powerOffRequests := m.calls.powerOffRequests + 1))
  }

  function HandleTopologyStopConfirm(m: Machine, env: Env): Machine {
    if m.task.state == PoweringOff then RequestPowerOff(SetState(m, Limbo, env))
    else ControllerEnable(m, env)
  }

  /** The confirmation the power-off table waits for, then the rest of that table. */
  function HandleTableStopped(m: Machine, env: Env): Machine {
    if m.power.system != SystemPoweringOff then m
    else
      var off := DisableUsb(Monitor(HandleTopologyStopConfirm(m, env), false));
      if UsbDisablePanics(m.usb) then off else off.(power := SystemMoved(off.power, SystemLimbo))
  }

  function Respond(m: Machine): Machine {
    m.(calls := m.calls.(responses := m.calls.responses + 1))
  }

  function HandleShutdownPrepare(m: Machine, env: Env): Machine {
    if m.task.state == Limbo then (if env.silentCommit then m else Respond(m))
    else SetState(m, Terminating, env)
  }

  function InitiateLinkDisconnection(m: Machine, env: Env): Machine {
    m.(task := m.task.(lock := DisconnectLink(env)),
       queue := m.queue.(
         completes := m.queue.completes + [m.run.clock], linkTimers := m.queue.linkTimers + [m.run.clock]),
       handsets := if DisconnectLink(env) then m.handsets else m.handsets.(lastClear := m.run.clock))
  }

  function HandleRequest(m: Machine, r: Request, env: Env): Machine {
    match r
    case ResetToFactory => if Code(m.task.state) > Code(PoweringOn) then SetState(m, FactoryReset, env) else m
    case PairHandset =>
      if m.task.state == Idle || (env.a2dpStreaming && env.avrcpPaused) then StartPairing(m, true, env) else m
    case DeleteHandsets => if IsActiveState(m.task.state) then InitiateLinkDisconnection(m, env) else m
    case PowerOff =>
      if Code(m.task.state) > Code(Limbo)
      then m.(power := SystemPowerOff(m.power)) else m
  }

  function HandleLinkComplete(m: Machine): Machine {
    m.(queue := m.queue.(linkTimers := WithoutFirst(m.queue.linkTimers)),
       handsets := m.handsets.(erased := m.handsets.erased + 1))
  }

  function HandleLinkTimeout(m: Machine): Machine {
    if m.task.lock
    then m.(task := m.task.(lock := false), queue := m.queue.(completes := [])) else m
  }

  function Handle(m: Machine, e: Event, env: Env): Machine {
    match e
    case SystemChange(before, after) => HandleSystemChange(Told(m, after), before, after, env)
    case PairingConfirm => HandlePairingConfirm(m, env)
    case HandsetConnected => if m.task.state == Idle then StopIdleTimer(m) else m
    case HandsetDisconnected => StartIdleTimer(UpdateDisconnectingLink(m, env), env)
    case TopologyHandsetDisconnected(status) => HandleTopologyHandsetDisconnected(m, status, env)
    case TopologyStopped => HandleTopologyStopConfirm(m, env)
    case TableStopped => HandleTableStopped(m, env)
    case AudioActivity => if IsActiveState(m.task.state) then SetState(m, CoreState(m, env), env) else m
    case ChargerDetached => if m.task.state == Limbo then StartLimboTimer(m) else m
    case ShutdownPrepare => HandleShutdownPrepare(m, env)
    case AncEnabled => if env.ancEnabled then StopIdleTimer(m) else m
    case AncDisabled => StartIdleTimer(m, env)
    case LeakthroughChanged(on) => if on then StopIdleTimer(m) else StartIdleTimer(m, env)
    case UiPowerOn => if m.task.state == Limbo then m.(power := SystemPowerOn(m.power)) else m
    case UiRequest(r) => Post(m, r)
    case Deliver(r) => HandleRequest(m, r, env)
    case IdleTimeout => if m.task.state == Idle && !env.handsetConnected then Post(m, PowerOff) else m
    case LimboTimeout => if m.task.state == Limbo then RequestPowerOff(m) else m
    case LinkTimeout => HandleLinkTimeout(m)
    case LinkComplete => HandleLinkComplete(m)
    case WiredConnect => ControllerHandle(m, e, env)
    case WiredDisconnect => ControllerHandle(m, e, env)
    case UsbEnumerated => ControllerHandle(m, e, env)
    case UsbDeconfigured => ControllerHandle(m, e, env)
    case SetActiveApp(app) => m.(usb := UsbSetActive(m.usb, app))
    case SetInactiveApp(app) => m.(usb := UsbSetInactive(m.usb, app))
    case StartUpDone => m.(power := SystemMoved(m.power, SystemLimbo))
    case PowerOnTableDone => HandlePowerOnTable(m)
    case TopologyReady => m.(power := m.power.(topology := Started))
    case TopologyStopDone => m.(power := TopologyHasStopped(m.power))
  }

  // ---------------------------------------------------------------- one step

  predicate Next(m: Machine, n: Notice) {
    m.power.inbox != [] && m.power.inbox[0] == n
  }

  /** A queued message can only be handled while it is queued, a notice only in its turn; a
      completion is held back while the disconnect lock is set; start-up, the power-on table and
      the topology finish what they are at; a panicked chip handles nothing. */
  predicate Enabled(m: Machine, e: Event) {
    && !m.run.panicked
    && match e
       case Deliver(r) => r in m.queue.requests
       case IdleTimeout => m.queue.idleTimers != []
       case LimboTimeout => m.queue.limboTimers != []
       case LinkTimeout => m.queue.linkTimers != []
       case LinkComplete => !m.task.lock && m.queue.completes != []
       case SystemChange(before, after) => Next(m, Change(before, after))
       case TopologyStopped => Next(m, Confirm(StateMachine))
       case TableStopped => Next(m, Confirm(PowerOffTable))
       case StartUpDone => m.power.system == StartingUp
       case PowerOnTableDone => m.power.system == SystemPoweringOn
       case TopologyReady => m.power.topology == Starting
       case TopologyStopDone => m.power.topology == Stopping
       case _ => true
  }

  function WithoutNotice(m: Machine): Machine
    requires m.power.inbox != []
  {
    m.(power := m.power.(inbox := m.power.inbox[1..]))
  }

  /** Take the message off the queue. */
  function Take(m: Machine, e: Event): Machine
    requires Enabled(m, e)
  {
    match e
    case Deliver(r) => m.(queue := m.queue.(requests := m.queue.requests - multiset{r}))
    case IdleTimeout => m.(queue := m.queue.(idleTimers := m.queue.idleTimers[1..]))
    case LimboTimeout => m.(queue := m.queue.(limboTimers := m.queue.limboTimers[1..]))
    case LinkTimeout => m.(queue := m.queue.(linkTimers := m.queue.linkTimers[1..]))
    case LinkComplete => m.(queue := m.queue.(completes := m.queue.completes[1..]))
    case SystemChange(_, _) => WithoutNotice(m)
    case TopologyStopped => WithoutNotice(m)
    case TableStopped => WithoutNotice(m)
    case _ => m
  }

  function Tick(m: Machine): Machine {
    m.(run := m.run.(clock := m.run.clock + 1))
  }

  function Step(m: Machine, e: Event, env: Env): Machine
    requires Enabled(m, e)
  {
    Tick(Handle(Take(m, e), e, env))
  }

  /** Power-up: nothing queued, nothing connected, every flag clear except possibly the
      automatic power-on, and the inactive USB application open. */
  predicate Init(m: Machine) {
    && m.task.state == Null && !m.task.lock && !m.task.userPairing
    && !m.usb.audio && m.usb.active != OtherApp
    && (m.usb.inactive == DefaultApp || m.usb.inactive == NullApp) && m.usb.open == m.usb.inactive
    && m.audio == Audio(false, m.audio.wiredConnected, false)
    && m.power == Power(StartingUp, Stopped, NoTask, [])
    && m.queue == Queue(multiset{}, [], [], [], [])
    && m.handsets == Handsets(false, false, 0, -1)
    && m.calls == Calls(0, 0, 0, 0)
    && m.run == Run(0, -1, StartingUp, false)
  }
}
