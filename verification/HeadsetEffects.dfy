/** Field by field, which messages change what: for each part of the machine, the steps that set
    it, read off the fields and the libraries' answers alone. */
module HeadsetEffects {
  import opened HeadsetModel
  import opened HeadsetInvariant
  import opened HeadsetPower
  import opened HeadsetRuns
  import opened HeadsetTransitions

  // ---------------------------------------------------------------- what is audible

  /** The active application is one of the four that carry audio. */
  predicate HasAudioApp(m: Machine) {
    m.usb.active in {VoiceApp, AudioApp, AudioVoice2af, AudioVoice1af}
  }

  /** Line-in, or USB audio switched on with an audio application and a host. */
  predicate Wired(m: Machine, env: Env) {
    env.lineIn || (m.usb.audio && HasAudioApp(m) && env.usbHost)
  }

  /** Music, a call, or wired audio. */
  predicate Audible(m: Machine, env: Env) {
    env.a2dpStreaming || env.scoActive || Wired(m, env)
  }

  predicate InUse(m: Machine) {
    m.task.state == Idle || m.task.state == Busy
  }

  /** On an AV or call message a headset in use becomes BUSY exactly if there is music, a call or
      wired audio, and IDLE otherwise; in any other state nothing happens. */
  lemma AudioActivityExactly(m: Machine, env: Env)
    requires !m.run.panicked
    ensures
      var n := Step(m, AudioActivity, env);
      && (InUse(m) ==> n.task.state == (if Audible(m, env) then Busy else Idle) && n.run.entered == m.run.clock)
      && (!InUse(m) ==> n == m.(run := m.run.(clock := m.run.clock + 1)))
  {
  }

  // ---------------------------------------------------------------- changes of state

  predicate PowersOn(e: Event) {
    e == SystemChange(SystemPoweringOn, SystemActive)
  }

  /** A confirmation that reaches the state machine: its own, or the table's while powering off. */
  predicate Confirmed(m: Machine, e: Event) {
    e == TopologyStopped || (e == TableStopped && m.power.system == SystemPoweringOff)
  }

  /** The wired event that a controller that is not paused takes for a connection. */
  predicate PlugsIn(m: Machine, e: Event) {
    !m.audio.paused && (e == WiredConnect || (e == UsbEnumerated && m.usb.audio && HasAudioApp(m)))
  }

  predicate Unplugs(m: Machine, e: Event) {
    !m.audio.paused && (e == WiredDisconnect || (e == UsbDeconfigured && m.usb.audio && HasAudioApp(m)))
  }

  predicate EntersPairing(m: Machine, input: Input) {
    var e, env := input.event, input.env;
    || (e == Deliver(PairHandset) && (m.task.state == Idle || (env.a2dpStreaming && env.avrcpPaused)))
    || (PowersOn(e) && !Wired(m, env) && !env.paired)
  }

  predicate EntersIdle(m: Machine, input: Input) {
    var e, env := input.event, input.env;
    || (PowersOn(e) && if Wired(m, env) then m.task.state == PoweringOn else env.paired)
    || (e == PairingConfirm && m.task.state == Pairing)
    || (e == TopologyHandsetDisconnected(DisconnectFailed) && m.task.state == Pairing && m.task.userPairing)
    || (e == AudioActivity && InUse(m) && !Audible(m, env))
    || (m.task.state == Busy && !Wired(m, env) && (Unplugs(m, e) || (Confirmed(m, e) && m.audio.paused)))
  }

  predicate EntersBusy(m: Machine, input: Input) {
    || (input.event == AudioActivity && InUse(m) && Audible(m, input.env))
    || (PlugsIn(m, input.event) && (InUse(m) || m.task.state == PoweringOn))
  }

  predicate EntersLimbo(m: Machine, input: Input) {
    || (input.event == SystemChange(StartingUp, SystemLimbo) && m.task.state == Null)
    || (Confirmed(m, input.event) && m.task.state == PoweringOff)
  }

  predicate Enters(m: Machine, input: Input, s: HeadsetState) {
    match s
    case Null => false
    case FactoryReset =>
      input.event == Deliver(ResetToFactory) && m.task.state in {Pairing, Idle, Busy, Terminating, PoweringOff}
    case Limbo => EntersLimbo(m, input)
    case PoweringOn => input.event == SystemChange(SystemLimbo, SystemPoweringOn)
    case Pairing => EntersPairing(m, input)
    case Idle => EntersIdle(m, input)
    case Busy => EntersBusy(m, input)
    case Terminating => input.event == ShutdownPrepare && m.task.state != Limbo
    case PoweringOff => input.event == SystemChange(SystemActive, SystemPoweringOff)
  }

  predicate Moves(m: Machine, n: Machine) {
    n.run.entered != m.run.entered
  }

  /** A message handled outside FACTORY_RESET, without a panic. */
  ghost predicate Handles(m: Machine, input: Input) {
    && Enabled(m, input.event) && m.task.state != FactoryReset && m.run.entered < m.run.clock
    && PauseRecorded(m.audio) && PairingFlags(m.task, m.handsets)
    && !Step(m, input.event, input.env).run.panicked
  }

  /** Each state is entered in exactly the steps listed, and otherwise kept; the state machine is
      told of each change of the system state. */
  ghost predicate MovesExactly(m: Machine, input: Input, n: Machine) {
    && (forall s :: Moves(m, n) && n.task.state == s <==> Enters(m, input, s))
    && (Moves(m, n) ==> n.run.entered == m.run.clock)
    && (!Moves(m, n) ==> n.task.state == m.task.state)
    && n.run.clock == m.run.clock + 1
    && n.run.told == if input.event.SystemChange? then input.event.after else m.run.told
  }

  lemma PowerOnEnters(m: Machine, input: Input)
    requires Handles(m, input) && PowersOn(input.event) && Wired(m, input.env)
    ensures MovesExactly(m, input, Step(m, input.event, input.env))
  {
  }

  lemma QuietPowerOnEnters(m: Machine, input: Input)
    requires Handles(m, input) && PowersOn(input.event) && !Wired(m, input.env)
    ensures MovesExactly(m, input, Step(m, input.event, input.env))
  {
  }

  lemma ChangeEnters(m: Machine, input: Input)
    requires Handles(m, input) && input.event.SystemChange? && !PowersOn(input.event)
    ensures MovesExactly(m, input, Step(m, input.event, input.env))
  {
  }

  lemma ConfirmEnters(m: Machine, input: Input)
    requires Handles(m, input) && (input.event == TopologyStopped || input.event == TableStopped)
    ensures MovesExactly(m, input, Step(m, input.event, input.env))
  {
  }

  lemma PairEnters(m: Machine, input: Input)
    requires Handles(m, input) && input.event == Deliver(PairHandset)
    ensures MovesExactly(m, input, Step(m, input.event, input.env))
  {
  }

  lemma RequestEnters(m: Machine, input: Input)
    requires Handles(m, input) && input.event.Deliver? && input.event != Deliver(PairHandset)
    ensures MovesExactly(m, input, Step(m, input.event, input.env))
  {
  }

  lemma WiredEnters(m: Machine, input: Input)
    requires Handles(m, input) && IsWiredEvent(input.event)
    ensures MovesExactly(m, input, Step(m, input.event, input.env))
  {
  }

  lemma StateEventEnters(m: Machine, input: Input)
    requires Handles(m, input) && IsStateEvent(input.event)
    ensures MovesExactly(m, input, Step(m, input.event, input.env))
  {
  }

  lemma OtherEnters(m: Machine, input: Input)
    requires Handles(m, input) && !IsNotice(input.event) && !input.event.Deliver?
    requires !IsWiredEvent(input.event) && !IsStateEvent(input.event)
    ensures MovesExactly(m, input, Step(m, input.event, input.env))
  {
  }

  lemma EntersExactly(m: Machine, input: Input)
    requires Handles(m, input)
    ensures MovesExactly(m, input, Step(m, input.event, input.env))
  {
    var e := input.event;
    if PowersOn(e) {
      if Wired(m, input.env) { PowerOnEnters(m, input); } else { QuietPowerOnEnters(m, input); }
    } else if e.SystemChange? {
      ChangeEnters(m, input);
    } else if IsNotice(e) {
      ConfirmEnters(m, input);
    } else if e == Deliver(PairHandset) {
      PairEnters(m, input);
    } else if e.Deliver? {
      RequestEnters(m, input);
    } else if IsWiredEvent(e) {
      WiredEnters(m, input);
    } else if IsStateEvent(e) {
      StateEventEnters(m, input);
    } else {
      OtherEnters(m, input);
    }
  }

  // ---------------------------------------------------------------- wired audio

  predicate SwitchesOn(m: Machine, e: Event) {
    e == PowerOnTableDone || (e == PairingConfirm && m.task.state == Pairing)
  }

  predicate TableFinishes(m: Machine, e: Event) {
    e == TableStopped && m.power.system == SystemPoweringOff
  }

  predicate SwitchesOff(m: Machine, input: Input) {
    EntersPairing(m, input) || TableFinishes(m, input.event)
  }

  /** USB audio goes on and off with wired monitoring, except that TERMINATING stops monitoring
      only; the application opened is the active one, or the inactive one unless it is the same. */
  ghost predicate WiredAudioChanges(m: Machine, input: Input, n: Machine)
    requires Enabled(m, input.event)
  {
    var on, off := SwitchesOn(m, input.event), SwitchesOff(m, input);
    && (n.usb.audio <==> on || (m.usb.audio && !off))
    && (n.audio.monitoring <==>
          on || (m.audio.monitoring && !off && !(input.event == ShutdownPrepare && m.task.state != Limbo)))
    && n.usb.open ==
         (if on && m.usb.active != NullApp && m.usb.active != OtherApp then m.usb.active
          else if off && m.usb.inactive != m.usb.active then m.usb.inactive
          else m.usb.open)
  }

  /** The applications are set while USB audio is off, and only to one that is listed. */
  ghost predicate ApplicationsChange(m: Machine, input: Input, n: Machine)
    requires Enabled(m, input.event)
  {
    var e := input.event;
    && n.usb.active == (if e.SetActiveApp? && !m.usb.audio && e.app != OtherApp then e.app else m.usb.active)
    && n.usb.inactive == (if e.SetInactiveApp? && !m.usb.audio && e.app != OtherApp then e.app else m.usb.inactive)
  }

  /** Entering BUSY with wired audio pauses the controller; a confirmation resumes it, except
      from POWERING_OFF. */
  ghost predicate ControllerChanges(m: Machine, input: Input, n: Machine)
    requires Enabled(m, input.event)
  {
    var pauses := EntersBusy(m, input) && Wired(m, input.env);
    && (n.audio.paused <==>
          pauses || (m.audio.paused && !(Confirmed(m, input.event) && m.task.state != PoweringOff)))
    && (n.audio.wiredConnected <==> pauses || m.audio.wiredConnected)
  }

  // ---------------------------------------------------------------- flags

  /** The lock, the user flag and the automatic power-on. */
  ghost predicate FlagsChange(m: Machine, input: Input, n: Machine)
    requires Enabled(m, input.event)
  {
    var e, env := input.event, input.env;
    && n.task.lock ==
         (if e == Deliver(DeleteHandsets) && InUse(m) then env.handsetAddress && env.bredrHandset
          else m.task.lock && e != LinkTimeout && !(e == HandsetDisconnected && !env.anyBredr))
    && (n.task.userPairing <==>
          || (e == Deliver(PairHandset) && EntersPairing(m, input) && m.task.state != Pairing)
          || (m.task.userPairing && !Moves(m, n)))
    && (n.task.autoPowerOn <==> m.task.autoPowerOn && !EntersLimbo(m, input))
  }

  /** The handset libraries: connections are prohibited for a user pairing, the pairing procedure
      is requested for any other, and after a successful disconnection. */
  ghost predicate PairingChanges(m: Machine, input: Input, n: Machine)
    requires Enabled(m, input.event)
  {
    var e := input.event;
    && n.handsets.prohibited == n.task.userPairing
    && (n.handsets.pairing <==>
          || (EntersPairing(m, input) && !(e == Deliver(PairHandset) && m.task.state != Pairing))
          || (e == TopologyHandsetDisconnected(DisconnectSucceeded) && m.task.state == Pairing && m.task.userPairing)
          || (m.handsets.pairing && !Moves(m, n)))
  }

  // ---------------------------------------------------------------- power and topology

  predicate AcceptsOff(m: Machine, e: Event) {
    && e == Deliver(PowerOff) && m.task.state in {PoweringOn, Pairing, Idle, Busy, Terminating, PoweringOff}
    && (m.power.system == SystemPoweringOn || m.power.system == SystemActive)
  }

  predicate AcceptsOn(m: Machine, e: Event) {
    && e == UiPowerOn && m.task.state == Limbo
    && (m.power.system == SystemLimbo || m.power.system == SystemPoweringOff)
  }

  /** The system state. */
  ghost predicate SystemChanges(m: Machine, input: Input, n: Machine)
    requires Enabled(m, input.event)
  {
    var e := input.event;
    n.power.system ==
      if e == StartUpDone || TableFinishes(m, e) then SystemLimbo
      else if AcceptsOn(m, e) then SystemPoweringOn
      else if e == PowerOnTableDone then SystemActive
      else if AcceptsOff(m, e) then SystemPoweringOff
      else m.power.system
  }

  /** Whoever stops the topology in this step. */
  function StopsFor(m: Machine, input: Input): Requester {
    if EntersBusy(m, input) && Wired(m, input.env) then StateMachine
    else if AcceptsOff(m, input.event) then PowerOffTable
    else NoTask
  }

  /** The topology is started by the power-on table, and by leaving BUSY without wired audio. */
  predicate StartsTopology(m: Machine, input: Input, n: Machine) {
    || input.event == PowerOnTableDone
    || (m.task.state == Busy && Moves(m, n)
        && !(if EntersPairing(m, input) then input.env.lineInLater else Wired(m, input.env)))
  }

  ghost predicate TopologyChanges(m: Machine, input: Input, n: Machine)
    requires Enabled(m, input.event)
  {
    var e := input.event;
    && n.power.topology ==
         (if e == TopologyReady then Started
          else if e == TopologyStopDone then Stopped
          else if StopsFor(m, input) != NoTask && m.power.topology == Started then Stopping
          else if StartsTopology(m, input, n) && m.power.topology == Stopped then Starting
          else m.power.topology)
    && n.power.requester ==
         (if StopsFor(m, input) != NoTask then StopsFor(m, input)
          else if e == TopologyStopDone then NoTask
          else m.power.requester)
  }

  /** Notices: the one handled is gone; a change of the system state is posted, then the
      confirmation of a topology that was stopped already, or has just stopped. */
  ghost predicate NoticesChange(m: Machine, input: Input, n: Machine)
    requires Enabled(m, input.event)
  {
    var e := input.event;
    var taken := e.SystemChange? || e == TopologyStopped || e == TableStopped;
    n.power.inbox == (if taken then m.power.inbox[1..] else m.power.inbox)
      + (if n.power.system != m.power.system then [Change(m.power.system, n.power.system)] else [])
      + (if StopsFor(m, input) != NoTask && m.power.topology == Stopped then [Confirm(StopsFor(m, input))]
         else if e == TopologyStopDone then [Confirm(m.power.requester)]
         else [])
  }

  // ---------------------------------------------------------------- timers and requests

  predicate Quiet(m: Machine, input: Input) {
    var env := input.env;
    && !env.handsetConnected && !env.ancEnabled && !env.leakthrough
    && !(if input.event == PairingConfirm then env.lineInLater || (HasAudioApp(m) && env.usbHost) else Wired(m, env))
  }

  /** A headset that has become idle, or quieter in IDLE. */
  predicate MayIdle(m: Machine, input: Input) {
    || EntersIdle(m, input)
    || (m.task.state == Idle && input.event in {HandsetDisconnected, AncDisabled, LeakthroughChanged(false)})
  }

  predicate KeepsAwake(m: Machine, input: Input, n: Machine) {
    || (m.task.state == Idle && (Moves(m, n) || input.event == HandsetConnected))
    || (input.event == AncEnabled && input.env.ancEnabled) || input.event == LeakthroughChanged(true)
  }

  ghost predicate TimersChange(m: Machine, input: Input, n: Machine)
    requires Enabled(m, input.event)
  {
    var e := input.event;
    && n.queue.idleTimers ==
         (if MayIdle(m, input) && Quiet(m, input) then [m.run.clock]
          else if KeepsAwake(m, input, n) then []
          else if e == IdleTimeout then m.queue.idleTimers[1..]
          else m.queue.idleTimers)
    && n.queue.limboTimers ==
         (if EntersLimbo(m, input) || (e == ChargerDetached && m.task.state == Limbo) then [m.run.clock]
          else if m.task.state == Limbo && Moves(m, n) then []
          else if e == LimboTimeout then m.queue.limboTimers[1..]
          else m.queue.limboTimers)
  }

  /** Requests: posted by the user interface, and a power-off by the idle timeout. */
  ghost predicate RequestsChange(m: Machine, input: Input, n: Machine)
    requires Enabled(m, input.event)
  {
    var e := input.event;
    n.queue.requests ==
      if e.UiRequest? then m.queue.requests + multiset{e.posted}
      else if e.Deliver? then m.queue.requests - multiset{e.request}
      else if e == IdleTimeout && m.task.state == Idle && !input.env.handsetConnected
      then m.queue.requests + multiset{PowerOff}
      else m.queue.requests
  }

  // ---------------------------------------------------------------- calls, over runs

  /** A power-off is asked of the power library: at the limbo timeout, and on reaching LIMBO from
      POWERING_OFF. */
  predicate AsksPowerOff(m: Machine, input: Input) {
    || (input.event == LimboTimeout && m.task.state == Limbo)
    || (Confirmed(m, input.event) && m.task.state == PoweringOff)
  }

  ghost predicate CallsChange(m: Machine, input: Input, n: Machine)
    requires Enabled(m, input.event)
  {
    var before, after := m.calls, n.calls;
    && after.powerOffRequests == before.powerOffRequests + (if AsksPowerOff(m, input) then 1 else 0)
    && after.reboots == before.reboots + (if Enters(m, input, FactoryReset) then 1 else 0)
    && after.powerOnInputs == before.powerOnInputs + (if EntersLimbo(m, input) && m.task.autoPowerOn then 1 else 0)
  }

  // ---------------------------------------------------------------- all messages

  predicate IsOther(e: Event) {
    !IsNotice(e) && !e.Deliver? && !IsWiredEvent(e) && !IsStateEvent(e)
  }

  /** Wired audio, the USB applications and the controller. */
  ghost predicate WiredEffects(m: Machine, input: Input, n: Machine)
    requires Enabled(m, input.event)
  {
    WiredAudioChanges(m, input, n) && ApplicationsChange(m, input, n) && ControllerChanges(m, input, n)
  }

  lemma ChangeWired(m: Machine, input: Input)
    requires Handles(m, input) && input.event.SystemChange?
    ensures WiredEffects(m, input, Step(m, input.event, input.env))
  {
  }

  lemma ConfirmWired(m: Machine, input: Input)
    requires Handles(m, input) && (input.event == TopologyStopped || input.event == TableStopped)
    ensures WiredEffects(m, input, Step(m, input.event, input.env))
  {
  }

  lemma RequestWired(m: Machine, input: Input)
    requires Handles(m, input) && input.event.Deliver?
    ensures WiredEffects(m, input, Step(m, input.event, input.env))
  {
  }

  lemma StateEventWired(m: Machine, input: Input)
    requires Handles(m, input) && IsStateEvent(input.event)
    ensures WiredEffects(m, input, Step(m, input.event, input.env))
  {
  }

  lemma WiredEventWired(m: Machine, input: Input)
    requires Handles(m, input) && IsWiredEvent(input.event)
    ensures WiredEffects(m, input, Step(m, input.event, input.env))
  {
  }

  lemma PowerEventWired(m: Machine, input: Input)
    requires Handles(m, input) && IsPowerEvent(input.event)
    ensures WiredEffects(m, input, Step(m, input.event, input.env))
  {
  }

  lemma OtherWired(m: Machine, input: Input)
    requires Handles(m, input) && IsOther(input.event) && !IsPowerEvent(input.event)
    ensures WiredEffects(m, input, Step(m, input.event, input.env))
  {
  }

  lemma WiredExactly(m: Machine, input: Input)
    requires Handles(m, input)
    ensures WiredEffects(m, input, Step(m, input.event, input.env))
  {
    var e := input.event;
    if e.SystemChange? {
      ChangeWired(m, input);
    } else if IsNotice(e) {
      ConfirmWired(m, input);
    } else if e.Deliver? {
      RequestWired(m, input);
    } else if IsStateEvent(e) {
      StateEventWired(m, input);
    } else if IsWiredEvent(e) {
      WiredEventWired(m, input);
    } else if IsPowerEvent(e) {
      PowerEventWired(m, input);
    } else {
      OtherWired(m, input);
    }
  }

  /** The flags and the handset libraries. */
  ghost predicate FlagsEffects(m: Machine, input: Input, n: Machine)
    requires Enabled(m, input.event)
  {
    FlagsChange(m, input, n) && PairingChanges(m, input, n)
  }

  lemma ChangeFlags(m: Machine, input: Input)
    requires Handles(m, input) && input.event.SystemChange?
    ensures FlagsEffects(m, input, Step(m, input.event, input.env))
  {
  }

  lemma ConfirmFlags(m: Machine, input: Input)
    requires Handles(m, input) && (input.event == TopologyStopped || input.event == TableStopped)
    ensures FlagsEffects(m, input, Step(m, input.event, input.env))
  {
  }

  lemma RequestFlags(m: Machine, input: Input)
    requires Handles(m, input) && input.event.Deliver?
    ensures FlagsEffects(m, input, Step(m, input.event, input.env))
  {
  }

  lemma StateEventFlags(m: Machine, input: Input)
    requires Handles(m, input) && IsStateEvent(input.event)
    ensures FlagsEffects(m, input, Step(m, input.event, input.env))
  {
  }

  lemma WiredEventFlags(m: Machine, input: Input)
    requires Handles(m, input) && IsWiredEvent(input.event)
    ensures FlagsEffects(m, input, Step(m, input.event, input.env))
  {
  }

  lemma OtherFlags(m: Machine, input: Input)
    requires Handles(m, input) && IsOther(input.event)
    ensures FlagsEffects(m, input, Step(m, input.event, input.env))
  {
  }

  lemma FlagsExactly(m: Machine, input: Input)
    requires Handles(m, input)
    ensures FlagsEffects(m, input, Step(m, input.event, input.env))
  {
    var e := input.event;
    if e.SystemChange? {
      ChangeFlags(m, input);
    } else if IsNotice(e) {
      ConfirmFlags(m, input);
    } else if e.Deliver? {
      RequestFlags(m, input);
    } else if IsStateEvent(e) {
      StateEventFlags(m, input);
    } else if IsWiredEvent(e) {
      WiredEventFlags(m, input);
    } else {
      OtherFlags(m, input);
    }
  }

  /** The system state, the topology and their notices. */
  ghost predicate PowerEffects(m: Machine, input: Input, n: Machine)
    requires Enabled(m, input.event)
  {
    SystemChanges(m, input, n) && TopologyChanges(m, input, n) && NoticesChange(m, input, n)
  }

  lemma PowerOnPower(m: Machine, input: Input)
    requires Handles(m, input) && PowersOn(input.event)
    ensures PowerEffects(m, input, Step(m, input.event, input.env))
  {
  }

  lemma ChangePower(m: Machine, input: Input)
    requires Handles(m, input) && input.event.SystemChange? && !PowersOn(input.event)
    ensures PowerEffects(m, input, Step(m, input.event, input.env))
  {
  }

  lemma ConfirmPower(m: Machine, input: Input)
    requires Handles(m, input) && (input.event == TopologyStopped || input.event == TableStopped)
    ensures PowerEffects(m, input, Step(m, input.event, input.env))
  {
  }

  lemma RequestPower(m: Machine, input: Input)
    requires Handles(m, input) && input.event.Deliver?
    ensures PowerEffects(m, input, Step(m, input.event, input.env))
  {
  }

  lemma StateEventPower(m: Machine, input: Input)
    requires Handles(m, input) && IsStateEvent(input.event)
    ensures PowerEffects(m, input, Step(m, input.event, input.env))
  {
  }

  lemma WiredEventPower(m: Machine, input: Input)
    requires Handles(m, input) && IsWiredEvent(input.event)
    ensures PowerEffects(m, input, Step(m, input.event, input.env))
  {
  }

  lemma PowerEventPower(m: Machine, input: Input)
    requires Handles(m, input) && IsPowerEvent(input.event)
    ensures PowerEffects(m, input, Step(m, input.event, input.env))
  {
  }

  lemma OtherPower(m: Machine, input: Input)
    requires Handles(m, input) && IsOther(input.event) && !IsPowerEvent(input.event)
    ensures PowerEffects(m, input, Step(m, input.event, input.env))
  {
  }

  lemma PowerExactly(m: Machine, input: Input)
    requires Handles(m, input)
    ensures PowerEffects(m, input, Step(m, input.event, input.env))
  {
    var e := input.event;
    if PowersOn(e) {
      PowerOnPower(m, input);
    } else if e.SystemChange? {
      ChangePower(m, input);
    } else if IsNotice(e) {
      ConfirmPower(m, input);
    } else if e.Deliver? {
      RequestPower(m, input);
    } else if IsStateEvent(e) {
      StateEventPower(m, input);
    } else if IsWiredEvent(e) {
      WiredEventPower(m, input);
    } else if IsPowerEvent(e) {
      PowerEventPower(m, input);
    } else {
      OtherPower(m, input);
    }
  }

  /** The idle and limbo timers. */
  ghost predicate TimersEffects(m: Machine, input: Input, n: Machine)
    requires Enabled(m, input.event)
  {
    TimersChange(m, input, n)
  }

  lemma PowerOnTimers(m: Machine, input: Input)
    requires Handles(m, input) && PowersOn(input.event)
    ensures TimersEffects(m, input, Step(m, input.event, input.env))
  {
  }

  lemma ChangeTimers(m: Machine, input: Input)
    requires Handles(m, input) && input.event.SystemChange? && !PowersOn(input.event)
    ensures TimersEffects(m, input, Step(m, input.event, input.env))
  {
  }

  lemma ConfirmTimers(m: Machine, input: Input)
    requires Handles(m, input) && (input.event == TopologyStopped || input.event == TableStopped)
    ensures TimersEffects(m, input, Step(m, input.event, input.env))
  {
  }

  lemma RequestTimers(m: Machine, input: Input)
    requires Handles(m, input) && input.event.Deliver?
    ensures TimersEffects(m, input, Step(m, input.event, input.env))
  {
  }

  lemma StateEventTimers(m: Machine, input: Input)
    requires Handles(m, input) && IsStateEvent(input.event)
    ensures TimersEffects(m, input, Step(m, input.event, input.env))
  {
  }

  lemma WiredEventTimers(m: Machine, input: Input)
    requires Handles(m, input) && IsWiredEvent(input.event)
    ensures TimersEffects(m, input, Step(m, input.event, input.env))
  {
  }

  lemma PowerEventTimers(m: Machine, input: Input)
    requires Handles(m, input) && IsPowerEvent(input.event)
    ensures TimersEffects(m, input, Step(m, input.event, input.env))
  {
  }

  lemma OtherTimers(m: Machine, input: Input)
    requires Handles(m, input) && IsOther(input.event) && !IsPowerEvent(input.event)
    ensures TimersEffects(m, input, Step(m, input.event, input.env))
  {
  }

  lemma TimersExactly(m: Machine, input: Input)
    requires Handles(m, input)
    ensures TimersEffects(m, input, Step(m, input.event, input.env))
  {
    var e := input.event;
    if PowersOn(e) {
      PowerOnTimers(m, input);
    } else if e.SystemChange? {
      ChangeTimers(m, input);
    } else if IsNotice(e) {
      ConfirmTimers(m, input);
    } else if e.Deliver? {
      RequestTimers(m, input);
    } else if IsStateEvent(e) {
      StateEventTimers(m, input);
    } else if IsWiredEvent(e) {
      WiredEventTimers(m, input);
    } else if IsPowerEvent(e) {
      PowerEventTimers(m, input);
    } else {
      OtherTimers(m, input);
    }
  }

  /** Requests posted and calls made. */
  ghost predicate CallsEffects(m: Machine, input: Input, n: Machine)
    requires Enabled(m, input.event)
  {
    RequestsChange(m, input, n) && CallsChange(m, input, n)
  }

  lemma ChangeCalls(m: Machine, input: Input)
    requires Handles(m, input) && input.event.SystemChange?
    ensures CallsEffects(m, input, Step(m, input.event, input.env))
  {
  }

  lemma ConfirmCalls(m: Machine, input: Input)
    requires Handles(m, input) && (input.event == TopologyStopped || input.event == TableStopped)
    ensures CallsEffects(m, input, Step(m, input.event, input.env))
  {
  }

  lemma RequestCalls(m: Machine, input: Input)
    requires Handles(m, input) && input.event.Deliver?
    ensures CallsEffects(m, input, Step(m, input.event, input.env))
  {
  }

  lemma StateEventCalls(m: Machine, input: Input)
    requires Handles(m, input) && IsStateEvent(input.event)
    ensures CallsEffects(m, input, Step(m, input.event, input.env))
  {
  }

  lemma WiredEventCalls(m: Machine, input: Input)
    requires Handles(m, input) && IsWiredEvent(input.event)
    ensures CallsEffects(m, input, Step(m, input.event, input.env))
  {
  }

  lemma PowerEventCalls(m: Machine, input: Input)
    requires Handles(m, input) && IsPowerEvent(input.event)
    ensures CallsEffects(m, input, Step(m, input.event, input.env))
  {
  }

  lemma OtherCalls(m: Machine, input: Input)
    requires Handles(m, input) && IsOther(input.event) && !IsPowerEvent(input.event)
    ensures CallsEffects(m, input, Step(m, input.event, input.env))
  {
  }

  lemma CallsExactly(m: Machine, input: Input)
    requires Handles(m, input)
    ensures CallsEffects(m, input, Step(m, input.event, input.env))
  {
    var e := input.event;
    if e.SystemChange? {
      ChangeCalls(m, input);
    } else if IsNotice(e) {
      ConfirmCalls(m, input);
    } else if e.Deliver? {
      RequestCalls(m, input);
    } else if IsStateEvent(e) {
      StateEventCalls(m, input);
    } else if IsWiredEvent(e) {
      WiredEventCalls(m, input);
    } else if IsPowerEvent(e) {
      PowerEventCalls(m, input);
    } else {
      OtherCalls(m, input);
    }
  }

  /** One message outside FACTORY_RESET that does not panic: where it leads, and what it does to
      each part of the machine but the delete-handsets protocol and the shutdown responses. */
  lemma StepExactly(m: Machine, input: Input)
    requires Handles(m, input)
    ensures
      var n := Step(m, input.event, input.env);
      && MovesExactly(m, input, n) && WiredEffects(m, input, n) && FlagsEffects(m, input, n)
      && PowerEffects(m, input, n) && TimersEffects(m, input, n) && CallsEffects(m, input, n)
  {
    EntersExactly(m, input);
    WiredExactly(m, input);
    FlagsExactly(m, input);
    PowerExactly(m, input);
    TimersExactly(m, input);
    CallsExactly(m, input);
  }

  /** In an orderly run a message panics exactly if it switches USB audio off, with an inactive
      application that is neither the active one nor the default one nor none. */
  lemma UsbPanicExactly(m: Machine, input: Input)
    requires Invariant(m) && Fits(m) && InPlace(m) && Enabled(m, input.event) && Orderly(m, input)
    ensures Step(m, input.event, input.env).run.panicked <==>
      && (EntersPairing(m, input) || input.event == TableStopped)
      && m.usb.inactive !in {m.usb.active, DefaultApp, NullApp}
  {
    OrderlyStep(m, input);
  }

  // ---------------------------------------------------------------- calls, over runs

  lemma RunHandles(ms: seq<Machine>, ins: seq<Input>, k: nat)
    requires IsRun(ms, ins) && k < |ins| && OrderlyUpTo(ms, ins, k + 1) && !ms[k + 1].run.panicked
    ensures Handles(ms[k], ins[k]) && ms[k + 1] == Step(ms[k], ins[k].event, ins[k].env)
  {
    Handled(ms, ins, k);
    RunInvariant(ms, ins, k);
    assert Orderly(ms[k], ins[k]);
  }

  ghost function PowerOffsAsked(ms: seq<Machine>, ins: seq<Input>, k: nat): nat
    requires k <= |ins| <= |ms|
  {
    if k == 0 then 0 else PowerOffsAsked(ms, ins, k - 1) + if AsksPowerOff(ms[k - 1], ins[k - 1]) then 1 else 0
  }

  /** As many power-offs asked of the power library as limbo timeouts in LIMBO and returns to LIMBO
      from POWERING_OFF; a reboot only with FACTORY_RESET; an automatic power-on at most once. */
  lemma {:induction false} EveryCallCounted(ms: seq<Machine>, ins: seq<Input>, k: nat)
    requires IsRun(ms, ins) && k <= |ins| && OrderlyUpTo(ms, ins, k) && !ms[k].run.panicked
    ensures ms[k].calls.powerOffRequests == PowerOffsAsked(ms, ins, k)
    ensures ms[k].calls.reboots == if ms[k].task.state == FactoryReset then 1 else 0
    ensures ms[k].calls.powerOnInputs + (if ms[k].task.autoPowerOn then 1 else 0) ==
      if ms[0].task.autoPowerOn then 1 else 0
  {
    if k == 0 {
    } else {
      var m, input := ms[k - 1], ins[k - 1];
      RunHandles(ms, ins, k - 1);
      EveryCallCounted(ms, ins, k - 1);
      CallsExactly(m, input);
      FlagsExactly(m, input);
      EntersExactly(m, input);
      assert Moves(m, ms[k]) && ms[k].task.state == FactoryReset <==> Enters(m, input, FactoryReset);
    }
  }
}
