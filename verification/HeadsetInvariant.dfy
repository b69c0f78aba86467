/** What every message keeps, whatever arrives and whatever the libraries answer. */
module HeadsetInvariant {
  import opened HeadsetModel

  /** A set lock is never stuck: a completion waits behind it and a timeout will clear it. */
  ghost predicate LockHeld(t: Task, q: Queue) {
    t.lock && t.state != FactoryReset ==> q.completes != [] && q.linkTimers != []
  }

  /** Link timers were posted before now. */
  ghost predicate Posted(timers: seq<nat>, now: nat) {
    forall i :: 0 <= i < |timers| ==> timers[i] < now
  }

  /** Queued completions are in posting order, and once the lock is clear an observation that
      no handset is connected is at least as recent as each of them. */
  ghost predicate Justified(completes: seq<nat>, lastClear: int, lock: bool, now: nat) {
    && (forall i, j :: 0 <= i < j < |completes| ==> completes[i] < completes[j])
    && (forall i :: 0 <= i < |completes| ==> completes[i] < now)
    && lastClear < now
    && (!lock ==> forall i :: 0 <= i < |completes| ==> completes[i] <= lastClear)
  }

  /** A paused controller has recorded "connected". */
  ghost predicate PauseRecorded(a: Audio) {
    a.paused ==> a.wiredConnected
  }

  /** At most one pending timeout, only in its own state, started since that state was entered. */
  ghost predicate Fresh(timers: seq<nat>, own: bool, entered: int, now: nat) {
    && |timers| <= 1
    && (timers != [] ==> own && entered <= timers[0] < now)
  }

  ghost predicate TimersFresh(s: HeadsetState, q: Queue, r: Run, now: nat) {
    && r.entered < now
    && Fresh(q.idleTimers, s == Idle, r.entered, now)
    && Fresh(q.limboTimers, s == Limbo, r.entered, now)
  }

  /** Connections are prohibited exactly for a user pairing; pairing only happens in PAIRING. */
  ghost predicate PairingFlags(t: Task, h: Handsets) {
    && h.prohibited == t.userPairing
    && (t.userPairing ==> t.state == Pairing)
    && (h.pairing ==> t.state == Pairing)
  }

  /** While USB audio is on, the framework has the active application open. */
  ghost predicate OpenMatches(u: Usb) {
    u.audio && u.active != NullApp && u.active != OtherApp ==> u.open == u.active
  }

  ghost predicate InvariantAt(m: Machine, now: nat) {
    && LockHeld(m.task, m.queue)
    && Justified(m.queue.completes, m.handsets.lastClear, m.task.lock, now)
    && Posted(m.queue.linkTimers, now)
    && PauseRecorded(m.audio)
    && TimersFresh(m.task.state, m.queue, m.run, now)
    && PairingFlags(m.task, m.handsets)
    && OpenMatches(m.usb)
  }

  /** The invariant between messages. */
  ghost predicate Invariant(m: Machine) {
    InvariantAt(m, m.run.clock)
  }

  /** The invariant inside a handler, which may already have posted at the current clock. */
  ghost predicate Inside(m: Machine) {
    InvariantAt(m, m.run.clock + 1)
  }

  lemma InitEstablishes(m: Machine)
    requires Init(m)
    ensures Invariant(m)
  {
  }

  /** What a handler must leave in place before it changes state to s: the flags may be set for
      the new state already. */
  ghost predicate ReadyFor(m: Machine, s: HeadsetState) {
    && LockHeld(m.task, m.queue)
    && Justified(m.queue.completes, m.handsets.lastClear, m.task.lock, m.run.clock + 1)
    && TimersFresh(m.task.state, m.queue, m.run, m.run.clock + 1)
    && OpenMatches(m.usb)
    && Posted(m.queue.linkTimers, m.run.clock + 1)
    && PauseRecorded(m.audio)
    && (m.task.state != Pairing ==>
          !m.handsets.prohibited && !m.handsets.pairing && (m.task.userPairing ==> s == Pairing))
  }

  lemma SetStateKeeps(m: Machine, s: HeadsetState, env: Env)
    requires ReadyFor(m, s) && m.task.state != FactoryReset
    ensures Inside(SetState(m, s, env))
  {
  }

  /** Once resumed, the controller has called back with nothing or with "disconnected" only,
      and it stays resumed. */
  lemma EnableKeeps(m: Machine, env: Env)
    requires Inside(ControllerResumed(m)) && (m.audio.paused ==> m.audio.wiredConnected)
    ensures Inside(ControllerEnable(m, env))
    ensures !ControllerEnable(m, env).audio.paused
    ensures ControllerEnable(m, env) ==
      if m.audio.paused && m.task.state == Busy && !WiredActive(m.usb, env)
      then SetState(ControllerResumed(m), Idle, env) else ControllerResumed(m)
  {
    var resumed := ControllerResumed(m);
    if m.audio.paused {
      if m.task.state == Busy && !WiredActive(m.usb, env) {
        SetStateKeeps(resumed, Idle, env);
        assert ControllerResumed(SetState(m, Idle, env)) == SetState(resumed, Idle, env);
      }
    } else {
      assert resumed == m;
    }
  }

  lemma StartPairingKeeps(m: Machine, user: bool, env: Env)
    requires Inside(m) && m.task.state != FactoryReset && !UsbDisablePanics(m.usb)
    ensures Inside(StartPairing(m, user, env))
  {
    var off := Monitor(m, false).(usb := UsbDisable(m.usb));
    SetStateKeeps(off.(task := off.task.(userPairing := user)), Pairing, Later(env));
  }

  /** In POWERING_OFF a confirmation resumes nothing; elsewhere it leaves the controller resumed. */
  lemma StopConfirmKeeps(m: Machine, env: Env)
    requires Inside(m)
    ensures Inside(HandleTopologyStopConfirm(m, env))
    ensures HandleTopologyStopConfirm(m, env).audio.paused == (m.audio.paused && m.task.state == PoweringOff)
    ensures m.task.state == PoweringOff ==> HandleTopologyStopConfirm(m, env).task.state == Limbo
  {
    if m.task.state == PoweringOff {
      SetStateKeeps(m, Limbo, env);
    } else {
      EnableKeeps(m, env);
    }
  }

  lemma TableRestKeeps(m: Machine, p: Power)
    requires Inside(m)
    ensures Inside(m.(audio := m.audio.(monitoring := false), usb := UsbDisable(m.usb), power := p))
  {
  }

  lemma TableStoppedKeeps(m: Machine, env: Env)
    requires Inside(m) && !HandleTableStopped(m, env).run.panicked
    ensures Inside(HandleTableStopped(m, env))
  {
    if m.power.system == SystemPoweringOff {
      var confirmed := HandleTopologyStopConfirm(m, env);
      StopConfirmKeeps(m, env);
      TableRestKeeps(confirmed, SystemMoved(confirmed.power, SystemLimbo));
      assert confirmed.usb == m.usb;
    }
  }

  lemma RequestKeeps(m: Machine, r: Request, env: Env)
    requires Invariant(m) && !HandleRequest(m, r, env).run.panicked
    ensures Inside(HandleRequest(m, r, env))
  {
    match r
    case ResetToFactory =>
      if Code(m.task.state) > Code(PoweringOn) { SetStateKeeps(m, FactoryReset, env); }
    case PairHandset =>
      if m.task.state == Idle || (env.a2dpStreaming && env.avrcpPaused) { StartPairingKeeps(m, true, env); }
    case DeleteHandsets =>
    case PowerOff =>
  }

  lemma PoweredOnKeeps(m: Machine, env: Env)
    requires Inside(m) && !HandlePoweredOn(m, env).run.panicked
    ensures Inside(HandlePoweredOn(m, env))
  {
    if WiredActive(m.usb, env) {
      if m.task.state == PoweringOn { SetStateKeeps(m, Idle, env); }
    } else if env.paired {
      SetStateKeeps(m, Idle, env);
    } else {
      StartPairingKeeps(m, false, env);
    }
  }

  lemma SystemChangeKeeps(m: Machine, before: SystemState, after: SystemState, env: Env)
    requires Inside(m) && !HandleSystemChange(m, before, after, env).run.panicked
    ensures Inside(HandleSystemChange(m, before, after, env))
  {
    match (before, after)
    case (StartingUp, SystemLimbo) => SetStateKeeps(m, Limbo, env);
    case (SystemLimbo, SystemPoweringOn) => SetStateKeeps(m, PoweringOn, env);
    case (SystemPoweringOn, SystemActive) => PoweredOnKeeps(m, env);
    case (SystemActive, SystemPoweringOff) => SetStateKeeps(m, PoweringOff, env);
    case _ =>
  }

  predicate IsNotice(e: Event) {
    e.SystemChange? || e == TopologyStopped || e == TableStopped
  }

  /** Messages of the system state module and the topology. */
  lemma NoticeKeeps(m: Machine, e: Event, env: Env)
    requires Invariant(m) && Enabled(m, e) && IsNotice(e) && !Handle(Take(m, e), e, env).run.panicked
    ensures Inside(Handle(Take(m, e), e, env))
  {
    var taken := Take(m, e);
    assert Inside(taken);
    match e
    case SystemChange(before, after) => SystemChangeKeeps(Told(taken, after), before, after, env);
    case TopologyStopped => StopConfirmKeeps(taken, env);
    case TableStopped => TableStoppedKeeps(taken, env);
  }

  lemma WiredEventKeeps(m: Machine, e: Event, env: Env)
    requires Inside(m)
    ensures Inside(ControllerHandle(m, e, env))
  {
    if m.task.state == PoweringOn || IsActiveState(m.task.state) {
      SetStateKeeps(m, Busy, env);
      SetStateKeeps(m, Idle, env);
    }
  }

  /** Messages that only start, stop or use up the idle and limbo timers. */
  lemma TimerEventKeeps(m: Machine, e: Event, env: Env)
    requires Invariant(m) && Enabled(m, e)
    requires e in {HandsetConnected, ChargerDetached, AncEnabled, AncDisabled, IdleTimeout, LimboTimeout}
             || e.LeakthroughChanged?
    ensures Inside(Handle(Take(m, e), e, env))
  {
  }

  /** Messages that neither change the state nor touch a timer. */
  lemma PlainEventKeeps(m: Machine, e: Event, env: Env)
    requires Invariant(m) && Enabled(m, e)
    requires e in {UiPowerOn, StartUpDone, TopologyReady, TopologyStopDone} || e.UiRequest?
    ensures Inside(Handle(m, e, env))
  {
  }

  /** Calls of the USB switch. */
  lemma UsbEventKeeps(m: Machine, e: Event, env: Env)
    requires Inside(m)
    requires e == PowerOnTableDone || e.SetActiveApp? || e.SetInactiveApp?
    ensures Inside(Handle(m, e, env))
  {
  }

  predicate IsLinkEvent(e: Event) {
    e == HandsetDisconnected || e == LinkComplete || e == LinkTimeout
  }

  /** Messages of the delete-handsets protocol. */
  lemma LinkEventKeeps(m: Machine, e: Event, env: Env)
    requires Invariant(m) && Enabled(m, e)
    requires IsLinkEvent(e)
    ensures Inside(Handle(Take(m, e), e, env))
  {
    if e == HandsetDisconnected {
      var n := UpdateDisconnectingLink(m, env);
      assert Inside(n);
      assert Handle(Take(m, e), e, env) == StartIdleTimer(n, env);
    }
  }

  predicate IsStateEvent(e: Event) {
    e in {PairingConfirm, AudioActivity, ShutdownPrepare} || e.TopologyHandsetDisconnected?
  }

  /** Messages that change the state unconditionally or not at all. */
  lemma StateEventKeeps(m: Machine, e: Event, env: Env)
    requires Invariant(m) && Enabled(m, e) && !Handle(m, e, env).run.panicked
    requires IsStateEvent(e)
    ensures Inside(Handle(m, e, env))
  {
    match e
    case PairingConfirm =>
      if m.task.state == Pairing { SetStateKeeps(Monitor(m, true).(usb := UsbEnable(m.usb)), Idle, Later(env)); }
    case TopologyHandsetDisconnected(status) =>
      if m.task.state == Pairing { SetStateKeeps(m, Idle, env); }
    case AudioActivity =>
      if IsActiveState(m.task.state) { SetStateKeeps(m, CoreState(m, env), env); }
    case ShutdownPrepare =>
      if m.task.state != Limbo && m.task.state != FactoryReset { SetStateKeeps(m, Terminating, env); }
  }

  /** One handler, before the clock ticks. */
  lemma HandleKeeps(m: Machine, e: Event, env: Env)
    requires Invariant(m) && Enabled(m, e) && !Handle(Take(m, e), e, env).run.panicked
    ensures Inside(Handle(Take(m, e), e, env))
  {
    if IsStateEvent(e) {
      StateEventKeeps(m, e, env);
    } else if IsLinkEvent(e) {
      LinkEventKeeps(m, e, env);
    } else if IsWiredEvent(e) {
      WiredEventKeeps(m, e, env);
    } else if e.Deliver? {
      RequestKeeps(Take(m, e), e.request, env);
    } else if IsNotice(e) {
      NoticeKeeps(m, e, env);
    } else {
      SmallEventKeeps(m, e, env);
    }
  }

  /** Messages that do not change the state. */
  lemma SmallEventKeeps(m: Machine, e: Event, env: Env)
    requires Invariant(m) && Enabled(m, e)
    requires !IsWiredEvent(e) && !IsLinkEvent(e) && !IsStateEvent(e)
    requires !IsNotice(e) && !e.Deliver?
    ensures Inside(Handle(Take(m, e), e, env))
  {
    match e
    case HandsetConnected => TimerEventKeeps(m, e, env);
    case ChargerDetached => TimerEventKeeps(m, e, env);
    case AncEnabled => TimerEventKeeps(m, e, env);
    case AncDisabled => TimerEventKeeps(m, e, env);
    case LeakthroughChanged(_) => TimerEventKeeps(m, e, env);
    case IdleTimeout => TimerEventKeeps(m, e, env);
    case LimboTimeout => TimerEventKeeps(m, e, env);
    case PowerOnTableDone => UsbEventKeeps(m, e, env);
    case SetActiveApp(_) => UsbEventKeeps(m, e, env);
    case SetInactiveApp(_) => UsbEventKeeps(m, e, env);
    case UiPowerOn => PlainEventKeeps(m, e, env);
    case UiRequest(_) => PlainEventKeeps(m, e, env);
    case StartUpDone => PlainEventKeeps(m, e, env);
    case TopologyReady => PlainEventKeeps(m, e, env);
    case TopologyStopDone => PlainEventKeeps(m, e, env);
  }

  /** The one inductive invariant: no assumption on what arrives or what the libraries answer,
      beyond that a message must have been sent and a panicked chip has stopped. */
  lemma StepKeepsInvariant(m: Machine, e: Event, env: Env)
    requires Invariant(m) && Enabled(m, e) && !Step(m, e, env).run.panicked
    ensures Invariant(Step(m, e, env))
  {
    HandleKeeps(m, e, env);
  }
}
