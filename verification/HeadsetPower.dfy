/** The system state module and the stereo topology beside the state machine: whose stop
    confirmation is under way, and in which order notices arrive. */
module HeadsetPower {
  import opened HeadsetModel
  import opened HeadsetInvariant

  // ---------------------------------------------------------------- what is under way

  predicate IsPowerOffNotice(n: Notice) {
    n.Change? && n.after == SystemPoweringOff
  }

  predicate PowerOffUnderWay(p: Power) {
    exists i :: 0 <= i < |p.inbox| && IsPowerOffNotice(p.inbox[i])
  }

  /** A confirmation for the power-off table is sent, or will be when the topology has stopped. */
  predicate TableComing(p: Power) {
    Confirm(PowerOffTable) in p.inbox || (p.topology == Stopping && p.requester == PowerOffTable)
  }

  /** Every confirmation has an addressee. */
  ghost predicate Addressed(p: Power) {
    && (p.topology == Stopping ==> p.requester != NoTask)
    && (forall i :: 0 <= i < |p.inbox| ==> p.inbox[i] != Confirm(NoTask))
  }

  /** The table's confirmation means powering off, and so does POWERING_OFF; in NULL, LIMBO and
      POWERING_OFF the state machine has been told of every power-off. */
  ghost predicate PowerOffFits(s: HeadsetState, p: Power) {
    && (TableComing(p) ==> p.system == SystemPoweringOff && s != Null && s != Limbo)
    && (s == PoweringOff ==> p.system == SystemPoweringOff)
    && (s == Null || s == Limbo || s == PoweringOff ==> !PowerOffUnderWay(p))
  }

  /** A power-off the state machine is yet to be told of is the last change, and comes before
      the table's confirmation. */
  ghost predicate PowerOffLast(p: Power) {
    forall i :: 0 <= i < |p.inbox| && IsPowerOffNotice(p.inbox[i]) ==>
      && p.system == SystemPoweringOff
      && (forall j :: i < j < |p.inbox| ==> !p.inbox[j].Change?)
      && (forall j :: 0 <= j < i ==> p.inbox[j] != Confirm(PowerOffTable))
  }

  /** The table has at most one confirmation under way. */
  ghost predicate OneTableConfirm(p: Power) {
    && (forall i, j :: 0 <= i < j < |p.inbox| && p.inbox[i] == Confirm(PowerOffTable) ==>
          p.inbox[j] != Confirm(PowerOffTable))
    && !(Confirm(PowerOffTable) in p.inbox && p.topology == Stopping && p.requester == PowerOffTable)
  }

  predicate PowerOffAfter(p: Power, i: nat) {
    exists j :: i < j < |p.inbox| && IsPowerOffNotice(p.inbox[j])
  }

  predicate TableConfirmBefore(p: Power, i: nat) {
    exists j :: 0 <= j < i && j < |p.inbox| && p.inbox[j] == Confirm(PowerOffTable)
  }

  /** While the table waits, a confirmation to the state machine is handled either before it is
      told to power off or after the table's own. */
  ghost predicate NotInBetween(p: Power) {
    TableComing(p) ==>
      forall i :: 0 <= i < |p.inbox| && p.inbox[i] == Confirm(StateMachine) ==>
        PowerOffAfter(p, i) || TableConfirmBefore(p, i)
  }

  ghost predicate PowerFits(s: HeadsetState, p: Power) {
    Addressed(p) && PowerOffFits(s, p) && PowerOffLast(p) && OneTableConfirm(p) && NotInBetween(p)
  }

  predicate Ordinary(s: HeadsetState) {
    s != Null && s != Limbo && s != PoweringOff
  }

  // ---------------------------------------------------------------- what each operation keeps

  lemma OrdinaryKeeps(s: HeadsetState, s': HeadsetState, p: Power)
    requires PowerFits(s, p) && Ordinary(s')
    ensures PowerFits(s', p)
  {
  }

  lemma StartKeeps(s: HeadsetState, p: Power)
    requires PowerFits(s, p)
    ensures PowerFits(s, TopologyStart(p))
  {
    assert TableComing(TopologyStart(p)) ==> TableComing(p);
    SameInbox(p, TopologyStart(p));
  }

  lemma ReadyKeeps(s: HeadsetState, p: Power)
    requires PowerFits(s, p) && p.topology == Starting
    ensures PowerFits(s, p.(topology := Started))
  {
    SameInbox(p, p.(topology := Started));
  }

  lemma SameInbox(p: Power, q: Power)
    requires p.inbox == q.inbox
    ensures PowerOffUnderWay(p) == PowerOffUnderWay(q)
    ensures forall i: nat ::
      PowerOffAfter(p, i) == PowerOffAfter(q, i) && TableConfirmBefore(p, i) == TableConfirmBefore(q, i)
  {
  }

  /** One more notice at the end changes nothing about the earlier ones. */
  lemma OneMore(p: Power, q: Power, n: Notice)
    requires q.inbox == p.inbox + [n]
    ensures PowerOffUnderWay(q) <==> PowerOffUnderWay(p) || IsPowerOffNotice(n)
    ensures forall i: nat :: i < |p.inbox| ==> (PowerOffAfter(q, i) <==> PowerOffAfter(p, i) || IsPowerOffNotice(n))
    ensures forall i: nat :: i <= |p.inbox| ==> TableConfirmBefore(q, i) == TableConfirmBefore(p, i)
    ensures Confirm(PowerOffTable) in q.inbox <==> Confirm(PowerOffTable) in p.inbox || n == Confirm(PowerOffTable)
  {
    forall i: nat | i < |p.inbox|
      ensures PowerOffAfter(q, i) <==> PowerOffAfter(p, i) || IsPowerOffNotice(n)
    {
      if PowerOffAfter(p, i) {
        var j :| i < j < |p.inbox| && IsPowerOffNotice(p.inbox[j]);
        assert q.inbox[j] == p.inbox[j];
      }
      if IsPowerOffNotice(n) { assert IsPowerOffNotice(q.inbox[|p.inbox|]); }
    }
    if PowerOffUnderWay(p) {
      var j :| 0 <= j < |p.inbox| && IsPowerOffNotice(p.inbox[j]);
      assert IsPowerOffNotice(q.inbox[j]);
    }
    assert q.inbox[|p.inbox|] == n && forall i :: 0 <= i < |p.inbox| ==> q.inbox[i] == p.inbox[i];
  }

  lemma MachineStopKeeps(s: HeadsetState, p: Power)
    requires PowerFits(s, p)
    ensures PowerFits(s, TopologyStop(p, StateMachine))
  {
    var q := TopologyStop(p, StateMachine);
    if p.topology == Stopped {
      OneMore(p, q, Confirm(StateMachine));
      TableInbox(p);
    } else {
      SameInbox(p, q);
    }
  }

  lemma TableInbox(p: Power)
    ensures Confirm(PowerOffTable) in p.inbox <==> TableConfirmBefore(p, |p.inbox|)
  {
  }

  lemma StoppedKeeps(s: HeadsetState, p: Power)
    requires PowerFits(s, p) && p.topology == Stopping
    ensures PowerFits(s, TopologyHasStopped(p))
  {
    OneMore(p, TopologyHasStopped(p), Confirm(p.requester));
    TableInbox(p);
  }

  /** A change to anything but powering off, while nothing of a power-off is pending. */
  lemma MovedKeeps(s: HeadsetState, p: Power, after: SystemState)
    requires PowerFits(s, p) && after != SystemPoweringOff && s != PoweringOff
    requires !TableComing(p) && !PowerOffUnderWay(p)
    ensures PowerFits(s, SystemMoved(p, after))
  {
    OneMore(p, SystemMoved(p, after), Change(p.system, after));
  }

  lemma PowerOffKeeps(s: HeadsetState, p: Power)
    requires PowerFits(s, p) && s != Null && s != Limbo
    ensures PowerFits(s, SystemPowerOff(p))
  {
    if AcceptsPowerOff(p) {
      var moved := SystemMoved(p, SystemPoweringOff);
      OneMore(p, moved, Change(p.system, SystemPoweringOff));
      assert !PowerOffUnderWay(p);
      var q := TopologyStop(moved, PowerOffTable);
      if p.topology == Stopped {
        OneMore(moved, q, Confirm(PowerOffTable));
      } else {
        SameInbox(moved, q);
      }
    }
  }

  lemma PowerOnKeeps(p: Power)
    requires PowerFits(Limbo, p)
    ensures PowerFits(Limbo, SystemPowerOn(p))
  {
    if p.system == SystemLimbo || p.system == SystemPoweringOff {
      MovedKeeps(Limbo, p, SystemPoweringOn);
    }
  }

  /** The first notice handled. */
  lemma OneFewer(p: Power, q: Power)
    requires p.inbox != [] && q == p.(inbox := p.inbox[1..])
    ensures PowerOffUnderWay(p) <==> PowerOffUnderWay(q) || IsPowerOffNotice(p.inbox[0])
    ensures forall i: nat :: PowerOffAfter(q, i) <==> PowerOffAfter(p, i + 1)
    ensures forall i: nat :: TableConfirmBefore(p, i + 1) <==>
      TableConfirmBefore(q, i) || p.inbox[0] == Confirm(PowerOffTable)
    ensures Confirm(PowerOffTable) in p.inbox <==>
      Confirm(PowerOffTable) in q.inbox || p.inbox[0] == Confirm(PowerOffTable)
  {
    assert forall i :: 0 <= i < |q.inbox| ==> q.inbox[i] == p.inbox[i + 1];
    forall i: nat
      ensures PowerOffAfter(q, i) <==> PowerOffAfter(p, i + 1)
      ensures TableConfirmBefore(p, i + 1) <==> TableConfirmBefore(q, i) || p.inbox[0] == Confirm(PowerOffTable)
    {
      if PowerOffAfter(p, i + 1) {
        var j :| i + 1 < j < |p.inbox| && IsPowerOffNotice(p.inbox[j]);
        assert IsPowerOffNotice(q.inbox[j - 1]);
      }
      if TableConfirmBefore(p, i + 1) && p.inbox[0] != Confirm(PowerOffTable) {
        var j :| 0 <= j < i + 1 && j < |p.inbox| && p.inbox[j] == Confirm(PowerOffTable);
        assert q.inbox[j - 1] == Confirm(PowerOffTable);
      }
      if TableConfirmBefore(q, i) {
        var j :| 0 <= j < i && j < |q.inbox| && q.inbox[j] == Confirm(PowerOffTable);
        assert p.inbox[j + 1] == Confirm(PowerOffTable);
      }
    }
    if PowerOffUnderWay(q) {
      var j :| 0 <= j < |q.inbox| && IsPowerOffNotice(q.inbox[j]);
      assert IsPowerOffNotice(p.inbox[j + 1]);
    }
    if PowerOffUnderWay(p) && !IsPowerOffNotice(p.inbox[0]) {
      var j :| 0 <= j < |p.inbox| && IsPowerOffNotice(p.inbox[j]);
      assert IsPowerOffNotice(q.inbox[j - 1]);
    }
  }

  function Rest(p: Power): Power
    requires p.inbox != []
  {
    p.(inbox := p.inbox[1..])
  }

  lemma HandledKeeps(s: HeadsetState, p: Power)
    requires PowerFits(s, p) && p.inbox != []
    ensures PowerFits(s, Rest(p))
    ensures PowerOffUnderWay(Rest(p)) ==> PowerOffUnderWay(p)
    ensures IsPowerOffNotice(p.inbox[0]) ==> !PowerOffUnderWay(Rest(p))
  {
    var q := Rest(p);
    OneFewer(p, q);
    assert forall i :: 0 <= i < |q.inbox| ==> q.inbox[i] == p.inbox[i + 1];
    assert TableComing(q) ==> TableComing(p);
    forall i: nat | i < |q.inbox| && q.inbox[i] == Confirm(StateMachine) && TableComing(q)
      ensures PowerOffAfter(q, i) || TableConfirmBefore(q, i)
    {
      assert p.inbox[i + 1] == Confirm(StateMachine);
      assert PowerOffAfter(p, i + 1) || TableConfirmBefore(p, i + 1);
    }
  }

  /** The table's confirmation, once handled, was the last there was, and nothing of a
      power-off is pending. */
  lemma TableConfirmHandled(s: HeadsetState, p: Power)
    requires PowerFits(s, p) && p.inbox != [] && p.inbox[0] == Confirm(PowerOffTable)
    ensures !TableComing(Rest(p)) && !PowerOffUnderWay(Rest(p)) && !PowerOffUnderWay(p)
    ensures p.system == SystemPoweringOff
  {
    OneFewer(p, Rest(p));
    assert forall j :: 0 <= j < |Rest(p).inbox| ==> Rest(p).inbox[j] == p.inbox[j + 1];
  }

  /** A confirmation to the state machine in POWERING_OFF means that the table gets none. */
  lemma MachineConfirmInPoweringOff(p: Power)
    requires PowerFits(PoweringOff, p) && p.inbox != [] && p.inbox[0] == Confirm(StateMachine)
    ensures !TableComing(p)
  {
  }

  // ---------------------------------------------------------------- what each message keeps

  ghost predicate Fits(m: Machine) {
    PowerFits(m.task.state, m.power)
  }

  /** A state change to an ordinary state, or to one that fits. */
  lemma SetStateFits(m: Machine, s: HeadsetState, env: Env)
    requires Fits(m) && (Ordinary(s) || PowerFits(s, m.power)) && m.task.state != FactoryReset
    ensures Fits(SetState(m, s, env))
  {
    if Ordinary(s) { OrdinaryKeeps(m.task.state, s, m.power); }
    StartKeeps(s, m.power);
    MachineStopKeeps(s, m.power);
  }

  lemma PoweredOnFits(m: Machine, env: Env)
    requires Fits(m) && !HandlePoweredOn(m, env).run.panicked
    ensures Fits(HandlePoweredOn(m, env))
  {
    if m.task.state != FactoryReset {
      SetStateFits(m, Idle, env);
      StartPairingFits(m, false, env);
    }
  }

  lemma StartPairingFits(m: Machine, user: bool, env: Env)
    requires Fits(m) && m.task.state != FactoryReset
    ensures Fits(StartPairing(m, user, env))
  {
    if !UsbDisablePanics(m.usb) {
      var off := DisableUsb(Monitor(m, false));
      SetStateFits(off.(task := off.task.(userPairing := user)), Pairing, Later(env));
    }
  }

  lemma SystemChangeFits(m: Machine, before: SystemState, after: SystemState, env: Env)
    requires Fits(m) && Next(m, Change(before, after))
    requires !HandleSystemChange(WithoutNotice(m), before, after, env).run.panicked
    ensures Fits(HandleSystemChange(WithoutNotice(m), before, after, env))
  {
    var taken := WithoutNotice(m);
    HandledKeeps(m.task.state, m.power);
    match (before, after)
    case (StartingUp, SystemLimbo) => SetStateFits(taken, Limbo, env);
    case (SystemLimbo, SystemPoweringOn) => SetStateFits(taken, PoweringOn, env);
    case (SystemPoweringOn, SystemActive) => PoweredOnFits(taken, env);
    case (SystemActive, SystemPoweringOff) => SetStateFits(taken, PoweringOff, env);
    case _ =>
  }

  lemma ConfirmFits(m: Machine, env: Env)
    requires Fits(m)
    requires m.task.state == PoweringOff ==> !TableComing(m.power)
    ensures Fits(HandleTopologyStopConfirm(m, env))
  {
    if m.task.state == PoweringOff {
      SetStateFits(m, Limbo, env);
    } else if m.task.state != FactoryReset {
      SetStateFits(m, Busy, env);
      SetStateFits(m, Idle, env);
    }
  }

  lemma TableStoppedFits(m: Machine, env: Env)
    requires Fits(m) && Next(m, Confirm(PowerOffTable))
    requires !HandleTableStopped(WithoutNotice(m), env).run.panicked && !m.run.panicked
    ensures m.power.system == SystemPoweringOff
    ensures Fits(HandleTableStopped(WithoutNotice(m), env))
  {
    var taken := WithoutNotice(m);
    HandledKeeps(m.task.state, m.power);
    TableConfirmHandled(m.task.state, m.power);
    ConfirmFits(taken, env);
    var confirmed := HandleTopologyStopConfirm(taken, env);
    NothingComing(taken, env);
    MovedKeeps(confirmed.task.state, confirmed.power, SystemLimbo);
  }

  /** A confirmation handled brings nothing new under way. */
  lemma NothingComing(m: Machine, env: Env)
    requires !TableComing(m.power) && !PowerOffUnderWay(m.power)
    ensures !TableComing(HandleTopologyStopConfirm(m, env).power)
    ensures !PowerOffUnderWay(HandleTopologyStopConfirm(m, env).power)
    ensures HandleTopologyStopConfirm(m, env).task.state != PoweringOff
  {
    SameInbox(m.power, TopologyStart(m.power));
  }

  /** A confirmation to the state machine. */
  lemma TopologyStoppedFits(m: Machine, env: Env)
    requires Fits(m) && Next(m, Confirm(StateMachine))
    ensures Fits(HandleTopologyStopConfirm(WithoutNotice(m), env))
  {
    HandledKeeps(m.task.state, m.power);
    if m.task.state == PoweringOff {
      MachineConfirmInPoweringOff(m.power);
      OneFewer(m.power, Rest(m.power));
    }
    ConfirmFits(WithoutNotice(m), env);
  }

  lemma RequestFits(m: Machine, r: Request, env: Env)
    requires Fits(m) && !HandleRequest(m, r, env).run.panicked
    ensures Fits(HandleRequest(m, r, env))
  {
    match r
    case ResetToFactory => if m.task.state != FactoryReset { SetStateFits(m, FactoryReset, env); }
    case PairHandset => if m.task.state != FactoryReset { StartPairingFits(m, true, env); }
    case DeleteHandsets =>
    case PowerOff => if Code(m.task.state) > Code(Limbo) { PowerOffKeeps(m.task.state, m.power); }
  }

  lemma ControllerFits(m: Machine, e: Event, env: Env)
    requires Fits(m)
    ensures Fits(ControllerHandle(m, e, env))
  {
    if m.task.state != FactoryReset {
      SetStateFits(m, Busy, env);
      SetStateFits(m, Idle, env);
    }
  }

  lemma StateEventFits(m: Machine, e: Event, env: Env)
    requires Fits(m) && IsStateEvent(e) && !Handle(m, e, env).run.panicked
    ensures Fits(Handle(m, e, env))
  {
    if m.task.state != FactoryReset {
      match e
      case PairingConfirm => SetStateFits(Monitor(m, true).(usb := UsbEnable(m.usb)), Idle, Later(env));
      case TopologyHandsetDisconnected(_) => SetStateFits(m, Idle, env);
      case AudioActivity =>
        SetStateFits(m, Busy, env);
        SetStateFits(m, Idle, env);
      case ShutdownPrepare => SetStateFits(m, Terminating, env);
    }
  }

  /** What the topology and the system state module do by themselves. */
  lemma PowerEventFits(m: Machine, e: Event, env: Env)
    requires Fits(m) && Enabled(m, e)
    requires IsPowerEvent(e)
    ensures Fits(Handle(m, e, env))
  {
    match e
    case StartUpDone => MovedKeeps(m.task.state, m.power, SystemLimbo);
    case PowerOnTableDone =>
      StartKeeps(m.task.state, m.power);
      SameInbox(m.power, TopologyStart(m.power));
      MovedKeeps(m.task.state, TopologyStart(m.power), SystemActive);
    case TopologyReady => ReadyKeeps(m.task.state, m.power);
    case TopologyStopDone => StoppedKeeps(m.task.state, m.power);
    case UiPowerOn => if m.task.state == Limbo { PowerOnKeeps(m.power); }
  }

  lemma OtherEventFits(m: Machine, e: Event, env: Env)
    requires Fits(m) && Enabled(m, e) && !e.Deliver?
    requires !IsNotice(e) && !IsWiredEvent(e) && !IsStateEvent(e)
    requires !IsPowerEvent(e)
    ensures Handle(Take(m, e), e, env).power == m.power
    ensures Handle(Take(m, e), e, env).task.state == m.task.state
  {
  }

  lemma NoticeFits(m: Machine, e: Event, env: Env)
    requires Fits(m) && Enabled(m, e) && IsNotice(e) && !Handle(Take(m, e), e, env).run.panicked
    ensures Fits(Handle(Take(m, e), e, env))
  {
    match e
    case SystemChange(before, after) =>
      SystemChangeFits(m.(run := m.run.(told := after)), before, after, env);
      assert Take(m, e) == WithoutNotice(m);
    case TopologyStopped => TopologyStoppedFits(m, env);
    case TableStopped => TableStoppedFits(m, env);
  }

  /** Kept by every message, like the invariant, under no assumption on what arrives. */
  lemma StepFits(m: Machine, e: Event, env: Env)
    requires Fits(m) && Enabled(m, e) && !Step(m, e, env).run.panicked
    ensures Fits(Step(m, e, env))
  {
    if IsNotice(e) {
      NoticeFits(m, e, env);
    } else if IsStateEvent(e) {
      StateEventFits(m, e, env);
    } else if IsWiredEvent(e) {
      ControllerFits(m, e, env);
    } else if e.Deliver? {
      RequestFits(Take(m, e), e.request, env);
    } else if IsPowerEvent(e) {
      PowerEventFits(m, e, env);
    } else {
      OtherEventFits(m, e, env);
    }
  }

  lemma InitFits(m: Machine)
    requires Init(m)
    ensures Fits(m)
  {
  }
}
