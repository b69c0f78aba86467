/** The headset application as it runs: global task data updated in place, one method a C
    function. The value of the whole, View(), is a Machine; every method is proved to do to it
    what the function of the model says. Panic does not return in C: a method that panics
    returns at once, and so do the methods that called it. */
module HeadsetSm {
  import opened HeadsetModel

  /** The exit action of the current state. */
  function Left(m: Machine, env: Env): Machine {
    match m.task.state
    case Limbo => m.(queue := m.queue.(limboTimers := []))
    case Pairing =>
      m.(task := m.task.(userPairing := false), handsets := m.handsets.(pairing := false, prohibited := false))
    case Idle => m.(queue := m.queue.(idleTimers := []))
    case Busy => if WiredActive(m.usb, env) then m else m.(power := TopologyStart(m.power))
    case _ => m
  }

  function LimboEntered(m: Machine): Machine {
    m.(queue := m.queue.(limboTimers := [m.run.clock]), task := m.task.(autoPowerOn := false),
       calls := m.calls.(powerOnInputs := m.calls.powerOnInputs + if m.task.autoPowerOn then 1 else 0))
  }

  function FactoryResetEntered(m: Machine): Machine {
    m.(queue := m.queue.(linkTimers := WithoutFirst(m.queue.linkTimers)),
       calls := m.calls.(reboots := m.calls.reboots + 1))
  }

  function PairingEntered(m: Machine): Machine {
    m.(handsets := if m.task.userPairing then m.handsets.(prohibited := true) else m.handsets.(pairing := true))
  }

  function BusyEntered(m: Machine, env: Env): Machine {
    if !WiredActive(m.usb, env) then m
    else
      m.(audio := m.audio.(paused := true, wiredConnected := true),
         power := TopologyStop(m.power, StateMachine))
  }

  function TerminatingEntered(m: Machine): Machine {
    Monitor(m, false).(calls := m.calls.(responses := m.calls.responses + 1))
  }

  /** The entry action of the current state. */
  function Entered(m: Machine, env: Env): Machine {
    match m.task.state
    case Null => Panic(m)
    case Limbo => LimboEntered(m)
    case FactoryReset => FactoryResetEntered(m)
    case Pairing => PairingEntered(m)
    case Idle => StartIdleTimer(m, env)
    case Busy => BusyEntered(m, env)
    case Terminating => TerminatingEntered(m)
    case _ => m
  }

  /** Exit action, assignment, entry action. */
  function LeftThenEntered(m: Machine, s: HeadsetState, env: Env): Machine {
    var left := WithState(Left(m, env), s);
    Entered(left.(run := left.run.(entered := left.run.clock)), env)
  }

  lemma SameTaskAndAudio(m: Machine, s: HeadsetState, env: Env)
    requires m.task.state != FactoryReset
    ensures
      var a, b := SetState(m, s, env), LeftThenEntered(m, s, env);
      a.task == b.task && a.usb == b.usb && a.audio == b.audio && a.run == b.run
  {
  }

  lemma SameQueueAndCalls(m: Machine, s: HeadsetState, env: Env)
    requires m.task.state != FactoryReset
    ensures
      var a, b := SetState(m, s, env), LeftThenEntered(m, s, env);
      a.queue == b.queue && a.handsets == b.handsets && a.calls == b.calls && a.power == b.power
  {
  }

  /** The part-by-part state change of the model is exit action, assignment, entry action. */
  lemma LeaveThenEnter(m: Machine, s: HeadsetState, env: Env)
    requires m.task.state != FactoryReset
    ensures SetState(m, s, env) == LeftThenEntered(m, s, env)
  {
    SameTaskAndAudio(m, s, env);
    SameQueueAndCalls(m, s, env);
  }

  class Headset {
    // headset_sm.c: smTaskData
    var state: HeadsetState
    var disconnectLock: bool
    var userPairing: bool
    var autoPowerOn: bool
    // headset_wired_audio_controller.c: task data
    var pauseWiredController: bool
    var wiredConnected: bool
    // headset_usb.c: statics
    var usbAudioEnable: bool
    var activeUsbApp: UsbApp
    var inactiveUsbApp: UsbApp
    // messages queued for the state machine's task
    var queue: Queue
    // stereo_topology.c: task data
    var topologyState: TopologyState
    var appTask: Requester
    // system_state.c: context
    var systemState: SystemState
    // what those two have posted
    var inbox: seq<Notice>
    // the libraries as last told, and the bookkeeping of the run
    var usbOpen: UsbApp
    var monitoring: bool
    var handsets: Handsets
    var calls: Calls
    var run: Run

    function View(): Machine
      reads this
    {
      Machine(
        Task(state, disconnectLock, userPairing, autoPowerOn),
        Usb(usbAudioEnable, activeUsbApp, inactiveUsbApp, usbOpen),
        Audio(pauseWiredController, wiredConnected, monitoring),
        Power(systemState, topologyState, appTask, inbox),
        queue, handsets, calls, run)
    }

    /** Power-up; the two applications come from the build configuration. */
    constructor (active: UsbApp, useDefault: bool, autoPower: bool)
      requires active != OtherApp
      ensures Init(View())
    {
      state, disconnectLock, userPairing, autoPowerOn := Null, false, false, autoPower;
      pauseWiredController, wiredConnected := false, false;
      usbAudioEnable, activeUsbApp := false, active;
      inactiveUsbApp := if useDefault then DefaultApp else NullApp;
      usbOpen := if useDefault then DefaultApp else NullApp;
      queue := Queue(multiset{}, [], [], [], []);
      monitoring, topologyState, appTask, systemState, inbox := false, Stopped, NoTask, StartingUp, [];
      handsets := Handsets(false, false, 0, -1);
      calls := Calls(0, 0, 0, 0);
      run := Run(0, -1, StartingUp, false);
    }

    // -------------------------------------------------------------- queries

    predicate IsUsbAudioConnected(env: Env)
      reads this
    {
      usbAudioEnable && IsAppSupportAudio(activeUsbApp) && env.usbHost
    }

    predicate IsWiredAudioActive(env: Env)
      reads this
    {
      env.lineIn || IsUsbAudioConnected(env)
    }

    predicate IsIdleTimerNeeded(env: Env)
      reads this
    {
      && state == Idle && !env.handsetConnected && !IsWiredAudioActive(env)
      && !env.ancEnabled && !env.leakthrough
    }

    // -------------------------------------------------------------- libraries and timers

    method RaisePanic()
      modifies this`run
      ensures View() == Panic(old(View()))
    {
      run := run.(panicked := true);
    }

    method SetMonitoring(on: bool)
      modifies this`monitoring
      ensures View() == Monitor(old(View()), on)
    {
      monitoring := on;
    }

    method MaybeStartIdleTimer(env: Env)
      modifies this`queue
      ensures View() == StartIdleTimer(old(View()), env)
    {
      if IsIdleTimerNeeded(env) {
        queue := queue.(idleTimers := []);
        queue := queue.(idleTimers := queue.idleTimers + [run.clock]);
      }
    }

    method CancelIdleTimer()
      modifies this`queue
      ensures View() == StopIdleTimer(old(View()))
    {
      queue := queue.(idleTimers := []);
    }

    method RestartLimboTimer()
      modifies this`queue
      ensures View() == StartLimboTimer(old(View()))
    {
      queue := queue.(limboTimers := []);
      queue := queue.(limboTimers := queue.limboTimers + [run.clock]);
    }

    method PostRequest(r: Request)
      modifies this`queue
      ensures View() == Post(old(View()), r)
    {
      queue := queue.(requests := queue.requests + multiset{r});
    }

    // -------------------------------------------------------------- stereo_topology.c

    method StartTopology()
      modifies this`topologyState
      ensures View() == old(View()).(power := TopologyStart(old(View().power)))
    {
      if topologyState == Stopped {
        topologyState := Starting;
      }
    }

    method StopTopology(task: Requester)
      modifies this`topologyState, this`appTask, this`inbox
      ensures View() == old(View()).(power := TopologyStop(old(View().power), task))
    {
      appTask := task;
      if topologyState == Started {
        topologyState := Stopping;
      } else if topologyState == Stopped {
        SendStopCfm();
      }
    }

    method SendStopCfm()
      modifies this`inbox
      ensures inbox == old(inbox) + [Confirm(appTask)]
    {
      inbox := inbox + [Confirm(appTask)];
    }

    method StopCompletion()
      modifies this`topologyState, this`appTask, this`inbox
      ensures View() == old(View()).(power := TopologyHasStopped(old(View().power)))
    {
      SendStopCfm();
      topologyState := Stopped;
      appTask := NoTask;
    }

    // -------------------------------------------------------------- system_state.c

    method SetSystemState(newState: SystemState)
      modifies this`systemState, this`inbox
      ensures View() == old(View()).(power := SystemMoved(old(View().power), newState))
    {
      inbox := inbox + [Change(systemState, newState)];
      systemState := newState;
    }

    method PowerOnSystem()
      modifies this`systemState, this`inbox
      ensures View() == old(View()).(power := SystemPowerOn(old(View().power)))
    {
      if systemState == SystemPoweringOff || systemState == SystemLimbo {
        SetSystemState(SystemPoweringOn);
      }
    }

    method PowerOffSystem()
      modifies this`systemState, this`inbox, this`topologyState, this`appTask
      ensures View() == old(View()).(power := SystemPowerOff(old(View().power)))
    {
      if systemState == SystemPoweringOn || systemState == SystemActive {
        SetSystemState(SystemPoweringOff);
        StopTopology(PowerOffTable);
      }
    }

    method FinishPowerOnTable()
      modifies this`systemState, this`inbox, this`topologyState, this`monitoring, this`usbAudioEnable, this`usbOpen
      ensures View() == HandlePowerOnTable(old(View()))
    {
      StartTopology();
      SetMonitoring(true);
      AudioEnable();
      SetSystemState(SystemActive);
    }

    method OnTableConfirm(env: Env)
      modifies this
      ensures View() == HandleTableStopped(old(View()), env)
    {
      if systemState != SystemPoweringOff {
        return;
      }
      OnTopologyStopConfirm(env);
      SetMonitoring(false);
      var panics := AudioDisable();
      if !panics {
        SetSystemState(SystemLimbo);
      }
    }

    // -------------------------------------------------------------- headset_usb.c

    method AudioEnable()
      modifies this`usbAudioEnable, this`usbOpen
      ensures View() == old(View()).(usb := UsbEnable(old(View().usb)))
    {
      usbAudioEnable := true;
      match activeUsbApp
      case AudioVoice1af => usbOpen := AudioVoice1af;
      case AudioVoice2af => usbOpen := AudioVoice2af;
      case AudioApp => usbOpen := AudioApp;
      case VoiceApp => usbOpen := VoiceApp;
      case DefaultApp => usbOpen := DefaultApp;
      case _ =>
    }

    method AudioDisable() returns (panics: bool)
      modifies this`usbAudioEnable, this`usbOpen, this`run
      ensures View() == DisableUsb(old(View()))
      ensures panics == UsbDisablePanics(old(View().usb))
    {
      usbAudioEnable := false;
      panics := false;
      if inactiveUsbApp != activeUsbApp {
        if inactiveUsbApp == DefaultApp {
          usbOpen := DefaultApp;
        } else if inactiveUsbApp != NullApp {
          panics := true;
          RaisePanic();
        } else {
          usbOpen := NullApp;
        }
      }
    }

    method SetActiveAppType(app: UsbApp) returns (ok: bool)
      modifies this`activeUsbApp
      ensures View() == old(View()).(usb := UsbSetActive(old(View().usb), app))
      ensures ok <==> !usbAudioEnable && IsAppSupported(app)
    {
      if usbAudioEnable || !IsAppSupported(app) {
        return false;
      }
      activeUsbApp := app;
      return true;
    }

    method SetInactiveAppType(app: UsbApp) returns (ok: bool)
      modifies this`inactiveUsbApp
      ensures View() == old(View()).(usb := UsbSetInactive(old(View().usb), app))
      ensures ok <==> !usbAudioEnable && (IsAppSupported(app) || old(inactiveUsbApp) == app)
    {
      if usbAudioEnable {
        return false;
      }
      if inactiveUsbApp == app {
        return true;
      }
      if !IsAppSupported(app) {
        return false;
      }
      inactiveUsbApp := app;
      return true;
    }

    // -------------------------------------------------------------- wired audio controller

    method ControllerDisable(env: Env)
      modifies this`wiredConnected, this`pauseWiredController
      ensures View() == old(View()).(audio :=
        old(View()).audio.(paused := true, wiredConnected := WiredActive(old(View().usb), env)))
    {
      wiredConnected := IsWiredAudioActive(env);
      pauseWiredController := true;
    }

    method HandleCurrentStatus(env: Env)
      modifies this
      ensures View() == HandleCurrentWiredStatus(old(View()), env)
    {
      var isWiredConnected := IsWiredAudioActive(env);
      if isWiredConnected != wiredConnected {
        if isWiredConnected {
          OnWiredAudioConnected(env);
        } else {
          OnWiredAudioDisconnected(env);
        }
      }
    }

    method Enable(env: Env)
      modifies this
      ensures View() == ControllerEnable(old(View()), env)
    {
      if pauseWiredController {
        HandleCurrentStatus(env);
        pauseWiredController := false;
      }
    }

    method HandleControllerMessage(e: Event, env: Env)
      modifies this
      ensures View() == ControllerHandle(old(View()), e, env)
    {
      if pauseWiredController {
        return;
      }
      match e
      case WiredConnect => OnWiredAudioConnected(env);
      case UsbEnumerated =>
        if usbAudioEnable && IsAppSupportAudio(activeUsbApp) {
          OnWiredAudioConnected(env);
        }
      case UsbDeconfigured =>
        if usbAudioEnable && IsAppSupportAudio(activeUsbApp) {
          if !env.lineIn && !IsUsbAudioConnected(env) {
            OnWiredAudioDisconnected(env);
          }
        }
      case WiredDisconnect =>
        if !env.lineIn && !IsUsbAudioConnected(env) {
          OnWiredAudioDisconnected(env);
        }
      case _ =>
    }

    // -------------------------------------------------------------- entry and exit actions

    method EnterLimbo()
      modifies this`queue, this`autoPowerOn, this`calls
      ensures View() == LimboEntered(old(View()))
    {
      RestartLimboTimer();
      if autoPowerOn {
        autoPowerOn := false;
        calls := calls.(powerOnInputs := calls.powerOnInputs + 1);
      }
    }

    method EnterFactoryReset()
      modifies this`queue, this`calls
      ensures View() == FactoryResetEntered(old(View()))
    {
      if queue.linkTimers != [] {
        queue := queue.(linkTimers := queue.linkTimers[1..]);
      }
      calls := calls.(reboots := calls.reboots + 1);
    }

    method EnterBusy(env: Env)
      modifies this`pauseWiredController, this`wiredConnected, this`topologyState, this`appTask, this`inbox
      ensures View() == BusyEntered(old(View()), env)
    {
      if IsWiredAudioActive(env) {
        ControllerDisable(env);
        StopTopology(StateMachine);
      }
    }

    method ExitBusy(env: Env)
      modifies this`topologyState
      ensures View() ==
        if WiredActive(old(View().usb), env) then old(View())
        else old(View()).(power := TopologyStart(old(View().power)))
    {
      if !IsWiredAudioActive(env) {
        StartTopology();
      }
    }

    method EnterPairing()
      modifies this`handsets
      ensures View() == PairingEntered(old(View()))
    {
      if userPairing {
        handsets := handsets.(prohibited := true);
      } else {
        handsets := handsets.(pairing := true);
      }
    }

    method ExitPairing()
      modifies this`handsets, this`userPairing
      ensures handsets == old(handsets).(pairing := false, prohibited := false) && !userPairing
    {
      handsets := handsets.(pairing := false);
      userPairing := false;
      handsets := handsets.(prohibited := false);
    }

    method EnterTerminating()
      modifies this`monitoring, this`calls
      ensures View() == TerminatingEntered(old(View()))
    {
      monitoring := false;
      calls := calls.(responses := calls.responses + 1);
    }

    method LeaveState(env: Env)
      requires state != FactoryReset
      modifies this`queue, this`userPairing, this`handsets, this`topologyState
      ensures View() == Left(old(View()), env)
    {
      match state
      case Limbo => queue := queue.(limboTimers := []);
      case Pairing => ExitPairing();
      case Idle => CancelIdleTimer();
      case Busy => ExitBusy(env);
      case _ =>
    }

    method EnterState(env: Env)
      modifies this
      ensures View() == Entered(old(View()), env)
    {
      match state
      case Null => RaisePanic();
      case Limbo => EnterLimbo();
      case FactoryReset => EnterFactoryReset();
      case Pairing => EnterPairing();
      case Idle => MaybeStartIdleTimer(env);
      case Busy => EnterBusy(env);
      case Terminating => EnterTerminating();
      case _ =>
    }

    /** Exit action of the old state, then the new state, then its entry action. */
    method ChangeState(newState: HeadsetState, env: Env)
      modifies this
      ensures View() == SetState(old(View()), newState, env)
    {
      if state == FactoryReset {
        RaisePanic();
        return;
      }
      LeaveThenEnter(View(), newState, env);
      LeaveState(env);
      state := newState;
      run := run.(entered := run.clock);
      EnterState(env);
    }

    // -------------------------------------------------------------- handlers

    method OnWiredAudioConnected(env: Env)
      modifies this
      ensures View() == WiredAudioConnected(old(View()), env)
    {
      if state == PoweringOn || state == Idle || state == Busy {
        ChangeState(Busy, env);
      }
    }

    method OnWiredAudioDisconnected(env: Env)
      modifies this
      ensures View() == WiredAudioDisconnected(old(View()), env)
    {
      if state == Busy {
        ChangeState(Idle, env);
      }
    }

    method OnPoweredOn(env: Env)
      modifies this
      ensures View() == HandlePoweredOn(old(View()), env)
    {
      if !IsWiredAudioActive(env) {
        if env.paired {
          ChangeState(Idle, env);
        } else {
          SetMonitoring(false);
          var panics := AudioDisable();
          if !panics {
            userPairing := false;
            ChangeState(Pairing, Later(env));
          }
        }
      } else if state == PoweringOn {
        ChangeState(Idle, env);
      }
    }

    method OnSystemStateChange(before: SystemState, after: SystemState, env: Env)
      modifies this
      ensures View() == HandleSystemChange(old(View()), before, after, env)
    {
      if before == StartingUp && after == SystemLimbo {
        if state == Null {
          ChangeState(Limbo, env);
        } else {
          RaisePanic();
        }
      } else if before == SystemLimbo && after == SystemPoweringOn {
        ChangeState(PoweringOn, env);
      } else if before == SystemPoweringOn && after == SystemActive {
        OnPoweredOn(env);
      } else if before == SystemActive && after == SystemPoweringOff {
        ChangeState(PoweringOff, env);
      }
    }

    method OnPairingConfirm(env: Env)
      modifies this
      ensures View() == HandlePairingConfirm(old(View()), env)
    {
      if state == Pairing {
        SetMonitoring(true);
        AudioEnable();
        ChangeState(Idle, Later(env));
      }
    }

    method OnTopologyHandsetDisconnected(status: DisconnectStatus, env: Env)
      modifies this
      ensures View() == HandleTopologyHandsetDisconnected(old(View()), status, env)
    {
      if userPairing && state == Pairing {
        if status == DisconnectSucceeded {
          handsets := handsets.(pairing := true);
        } else if status == DisconnectFailed {
          ChangeState(Idle, env);
        }
      }
    }

    method OnHandsetServiceDisconnected(env: Env)
      modifies this`disconnectLock, this`handsets, this`queue
      ensures View() == StartIdleTimer(UpdateDisconnectingLink(old(View()), env), env)
    {
      if disconnectLock {
        if !env.anyBredr {
          disconnectLock := false;
          handsets := handsets.(lastClear := run.clock);
        }
      }
      if IsIdleTimerNeeded(env) {
        MaybeStartIdleTimer(env);
      }
    }

    method OnTopologyStopConfirm(env: Env)
      modifies this
      ensures View() == HandleTopologyStopConfirm(old(View()), env)
    {
      if state == PoweringOff {
        ChangeState(Limbo, env);
        calls := calls.(powerOffRequests := calls.powerOffRequests + 1);
      } else {
        Enable(env);
      }
    }

    method OnAudioActivity(env: Env)
      modifies this
      ensures View() ==
        if IsActiveState(old(state)) then SetState(old(View()), CoreState(old(View()), env), env) else old(View())
    {
      if state == Idle || state == Busy {
        var busy := env.a2dpStreaming || env.scoActive || IsWiredAudioActive(env);
        ChangeState(if busy then Busy else Idle, env);
      }
    }

    method OnShutdownPrepare(env: Env)
      modifies this
      ensures View() == HandleShutdownPrepare(old(View()), env)
    {
      if state == Limbo {
        if !env.silentCommit {
          calls := calls.(responses := calls.responses + 1);
        }
      } else {
        ChangeState(Terminating, env);
      }
    }

    method InitiateDisconnection(env: Env)
      modifies this`disconnectLock, this`queue, this`handsets
      ensures View() == InitiateLinkDisconnection(old(View()), env)
    {
      var disconnectingLink := env.handsetAddress && env.bredrHandset;
      if !disconnectingLink {
        disconnectLock := false;
        handsets := handsets.(lastClear := run.clock);
      } else {
        disconnectLock := true;
      }
      queue := queue.(completes := queue.completes + [run.clock]);
      queue := queue.(linkTimers := queue.linkTimers + [run.clock]);
    }

    method OnPairHandset(env: Env)
      modifies this
      ensures View() == HandleRequest(old(View()), PairHandset, env)
    {
      if state == Idle || (env.a2dpStreaming && env.avrcpPaused) {
        SetMonitoring(false);
        var panics := AudioDisable();
        if !panics {
          userPairing := true;
          ChangeState(Pairing, Later(env));
        }
      }
    }

    method OnRequest(r: Request, env: Env)
      modifies this
      ensures View() == HandleRequest(old(View()), r, env)
    {
      match r
      case ResetToFactory =>
        if Code(state) > Code(PoweringOn) {
          ChangeState(FactoryReset, env);
        }
      case PairHandset => OnPairHandset(env);
      case DeleteHandsets =>
        if state == Idle || state == Busy {
          InitiateDisconnection(env);
        }
      case PowerOff =>
        if Code(state) > Code(Limbo) {
          PowerOffSystem();
        }
    }

    method OnLinkComplete()
      modifies this`queue, this`handsets
      ensures View() == HandleLinkComplete(old(View()))
    {
      if queue.linkTimers != [] {
        queue := queue.(linkTimers := queue.linkTimers[1..]);
      }
      handsets := handsets.(erased := handsets.erased + 1);
    }

    method OnLinkTimeout()
      modifies this`queue, this`disconnectLock
      ensures View() == HandleLinkTimeout(old(View()))
    {
      if disconnectLock {
        queue := queue.(completes := []);
        disconnectLock := false;
      }
    }

    predicate IsQuiet(e: Event) {
      || e in {HandsetConnected, HandsetDisconnected, ChargerDetached, AncEnabled, AncDisabled,
               IdleTimeout, LimboTimeout, LinkTimeout, LinkComplete}
      || e.LeakthroughChanged? || e.UiRequest?
    }

    /** Messages about timers and other handsets, none of which changes the state. */
    method OnQuietMessage(e: Event, env: Env)
      requires IsQuiet(e)
      modifies this
      ensures View() == Handle(old(View()), e, env)
    {
      match e
      case HandsetConnected => if state == Idle { CancelIdleTimer(); }
      case HandsetDisconnected => OnHandsetServiceDisconnected(env);
      case ChargerDetached => if state == Limbo { RestartLimboTimer(); }
      case AncEnabled => if env.ancEnabled { CancelIdleTimer(); }
      case AncDisabled => if IsIdleTimerNeeded(env) { MaybeStartIdleTimer(env); }
      case LeakthroughChanged(on) => if on { CancelIdleTimer(); } else { MaybeStartIdleTimer(env); }
      case UiRequest(r) => PostRequest(r);
      case IdleTimeout => if state == Idle && !env.handsetConnected { PostRequest(PowerOff); }
      case LimboTimeout =>
        if state == Limbo { calls := calls.(powerOffRequests := calls.powerOffRequests + 1); }
      case LinkTimeout => OnLinkTimeout();
      case LinkComplete => OnLinkComplete();
    }

    method OnPowerEvent(e: Event, env: Env)
      requires IsPowerEvent(e)
      modifies this
      ensures View() == Handle(old(View()), e, env)
    {
      match e
      case StartUpDone => SetSystemState(SystemLimbo);
      case PowerOnTableDone => FinishPowerOnTable();
      case TopologyReady => topologyState := Started;
      case TopologyStopDone => StopCompletion();
      case UiPowerOn => if state == Limbo { PowerOnSystem(); }
    }

    predicate IsSetting(e: Event) {
      e.SetActiveApp? || e.SetInactiveApp?
    }

    method OnSetting(e: Event, env: Env)
      requires IsSetting(e)
      modifies this
      ensures View() == Handle(old(View()), e, env)
    {
      match e
      case SetActiveApp(app) => var ok := SetActiveAppType(app);
      case SetInactiveApp(app) => var ok := SetInactiveAppType(app);
    }

    method Dispatch(e: Event, env: Env)
      modifies this
      ensures View() == Handle(old(View()), e, env)
    {
      if IsPowerEvent(e) {
        OnPowerEvent(e, env);
      } else if IsSetting(e) {
        OnSetting(e, env);
      } else if IsWiredEvent(e) {
        HandleControllerMessage(e, env);
      } else if IsQuiet(e) {
        OnQuietMessage(e, env);
      } else {
        OnStateMessage(e, env);
      }
    }

    /** Messages that may change the state. */
    method OnStateMessage(e: Event, env: Env)
      requires !IsPowerEvent(e) && !IsWiredEvent(e) && !IsQuiet(e) && !IsSetting(e)
      modifies this
      ensures View() == Handle(old(View()), e, env)
    {
      match e
      case SystemChange(before, after) =>
        run := run.(told := after);
        OnSystemStateChange(before, after, env);
      case PairingConfirm => OnPairingConfirm(env);
      case TopologyHandsetDisconnected(status) => OnTopologyHandsetDisconnected(status, env);
      case TopologyStopped => OnTopologyStopConfirm(env);
      case TableStopped => OnTableConfirm(env);
      case AudioActivity => OnAudioActivity(env);
      case ShutdownPrepare => OnShutdownPrepare(env);
      case Deliver(r) => OnRequest(r, env);
    }

    method TakeMessage(e: Event)
      requires Enabled(View(), e)
      modifies this`queue, this`inbox
      ensures View() == Take(old(View()), e)
    {
      match e
      case Deliver(r) => queue := queue.(requests := queue.requests - multiset{r});
      case IdleTimeout => queue := queue.(idleTimers := queue.idleTimers[1..]);
      case LimboTimeout => queue := queue.(limboTimers := queue.limboTimers[1..]);
      case LinkTimeout => queue := queue.(linkTimers := queue.linkTimers[1..]);
      case LinkComplete => queue := queue.(completes := queue.completes[1..]);
      case SystemChange(_, _) => inbox := inbox[1..];
      case TopologyStopped => inbox := inbox[1..];
      case TableStopped => inbox := inbox[1..];
      case _ =>
    }

    /** The message loop handles one message: exactly one step of the model. */
    method HandleMessage(e: Event, env: Env)
      requires Enabled(View(), e)
      modifies this
      ensures View() == Step(old(View()), e, env)
    {
      TakeMessage(e);
      Dispatch(e, env);
      run := run.(clock := run.clock + 1);
    }
  }
}
