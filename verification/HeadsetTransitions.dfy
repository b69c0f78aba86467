/** Which state changes can happen and when the chip panics, in an environment that keeps its
    side of the bargain; and how the state follows the system state. */
module HeadsetTransitions {
  import opened HeadsetModel
  import opened HeadsetInvariant
  import opened HeadsetPower
  import opened HeadsetRuns
  import opened HeadsetPause

  /** What is asked of the environment: A2DP streams only in IDLE or BUSY, no shutdown is
      prepared in NULL, and nothing is handled after the factory reset that reboots the chip. */
  predicate Orderly(m: Machine, input: Input) {
    && m.task.state != FactoryReset
    && (input.env.a2dpStreaming ==> IsActiveState(m.task.state))
    && (input.event == ShutdownPrepare ==> m.task.state != Null)
  }

  /** Line-in is reported only while it is monitored. */
  predicate Monitored(m: Machine, input: Input) {
    input.event == WiredConnect ==> m.audio.monitoring
  }

  /** The edges drawn in the state diagram. */
  predicate DocumentedEdge(a: HeadsetState, b: HeadsetState) {
    || (a == Null && b == Limbo)
    || (a == Limbo && b == PoweringOn)
    || (a == PoweringOn && (b == Idle || b == Pairing))
    || (a == Pairing && b == Idle)
    || (a == Idle && (b == Busy || b == Idle || b == Pairing))
    || (a == Busy && b == Idle)
    || (a in {Limbo, PoweringOn, Pairing, Idle, Busy} && (b == PoweringOff || b == Terminating))
    || (a == PoweringOff && b == Limbo)
    || (Code(a) > Code(PoweringOn) && b == FactoryReset)
  }

  /** Edges the handlers have and the diagram does not show. */
  predicate HandlerEdge(a: HeadsetState, b: HeadsetState) {
    || (a == PoweringOn && b == Busy)
    || (a == Busy && (b == Busy || b == Pairing))
    || (a == Pairing && b == Pairing)
    || (a == PoweringOff && b == Terminating)
    || (a == Terminating && b in {Pairing, Idle, Terminating, PoweringOff})
    || (a == Limbo && (b == Idle || b == Pairing))
  }

  // ---------------------------------------------------------------- changes of the system state

  predicate Follows(before: SystemState, after: SystemState) {
    match before
    case StartingUp => after == SystemLimbo
    case SystemLimbo => after == SystemPoweringOn
    case SystemPoweringOn => after == SystemActive || after == SystemPoweringOff
    case SystemActive => after == SystemPoweringOff
    case SystemPoweringOff => after == SystemLimbo || after == SystemPoweringOn
  }

  /** The changes in the inbox lead from one system state to the other. */
  predicate Chained(from: SystemState, inbox: seq<Notice>, to: SystemState)
    decreases |inbox|
  {
    if inbox == [] then from == to
    else
      match inbox[0]
      case Change(before, after) => before == from && Follows(before, after) && Chained(after, inbox[1..], to)
      case Confirm(_) => Chained(from, inbox[1..], to)
  }

  lemma {:induction false} ChainConfirm(from: SystemState, inbox: seq<Notice>, to: SystemState, who: Requester)
    requires Chained(from, inbox, to)
    ensures Chained(from, inbox + [Confirm(who)], to)
    decreases |inbox|
  {
    if inbox == [] {
      assert [Confirm(who)][1..] == [];
    } else {
      assert (inbox + [Confirm(who)])[1..] == inbox[1..] + [Confirm(who)];
      match inbox[0]
      case Change(_, after) => ChainConfirm(after, inbox[1..], to, who);
      case Confirm(_) => ChainConfirm(from, inbox[1..], to, who);
    }
  }

  lemma {:induction false} ChainChange(from: SystemState, inbox: seq<Notice>, to: SystemState, next: SystemState)
    requires Chained(from, inbox, to) && Follows(to, next)
    ensures Chained(from, inbox + [Change(to, next)], next)
    decreases |inbox|
  {
    if inbox == [] {
      assert [Change(to, next)][1..] == [];
    } else {
      assert (inbox + [Change(to, next)])[1..] == inbox[1..] + [Change(to, next)];
      match inbox[0]
      case Change(_, after) => ChainChange(after, inbox[1..], to, next);
      case Confirm(_) => ChainChange(from, inbox[1..], to, next);
    }
  }

  const TO_LIMBO := Change(SystemPoweringOff, SystemLimbo)

  /** Without a power-off the system state only climbs. */
  lemma {:induction false} Climbs(from: SystemState, inbox: seq<Notice>, to: SystemState)
    requires Chained(from, inbox, to) && forall i :: 0 <= i < |inbox| ==> !IsPowerOffNotice(inbox[i])
    ensures from == SystemPoweringOn || from == SystemActive ==> to == SystemPoweringOn || to == SystemActive
    ensures from == SystemLimbo ==> to != SystemPoweringOff && to != StartingUp
    ensures to == StartingUp ==> from == StartingUp
    ensures from != StartingUp && (to == SystemLimbo || to == SystemPoweringOff) ==>
      forall i :: 0 <= i < |inbox| && inbox[i].Change? ==> inbox[i] == TO_LIMBO
    ensures from != StartingUp && to == SystemPoweringOff ==> forall i :: 0 <= i < |inbox| ==> !inbox[i].Change?
    decreases |inbox|
  {
    if inbox == [] {
    } else {
      var rest := inbox[1..];
      match inbox[0] {
        case Change(_, after) => Climbs(after, rest, to);
        case Confirm(_) => Climbs(from, rest, to);
      }
      assert forall i :: 0 < i < |inbox| ==> inbox[i] == rest[i - 1];
    }
  }

  // ---------------------------------------------------------------- where the state machine can be

  /** Which states go with the system state that the state machine was told of. */
  predicate Possible(told: SystemState, s: HeadsetState) {
    match told
    case StartingUp => s == Null
    case SystemLimbo => s in {Limbo, Terminating, PoweringOn, Pairing, Idle, Busy}
    case SystemPoweringOn => s in {PoweringOn, Pairing, Idle, Busy, Terminating, Limbo}
    case SystemActive => s in {Pairing, Idle, Busy, Terminating, Limbo}
    case SystemPoweringOff => s in {PoweringOff, Limbo, Terminating, PoweringOn, Pairing, Idle, Busy}
  }

  predicate IsPowerOnNotice(n: Notice) {
    n.Change? && n.after == SystemPoweringOn
  }

  /** A power-on yet to be told finds LIMBO. */
  predicate PowerOnWaits(s: HeadsetState, inbox: seq<Notice>) {
    forall i :: 0 <= i < |inbox| && IsPowerOnNotice(inbox[i]) ==>
      && s == Limbo
      && forall j :: 0 <= j < i && inbox[j].Change? ==> inbox[j] == TO_LIMBO
  }

  ghost predicate InPlace(m: Machine) {
    && Chained(m.run.told, m.power.inbox, m.power.system)
    && (m.task.state != FactoryReset ==>
          Possible(m.run.told, m.task.state) && PowerOnWaits(m.task.state, m.power.inbox))
  }

  predicate Edge(a: HeadsetState, b: HeadsetState) {
    DocumentedEdge(a, b) || HandlerEdge(a, b)
  }

  /** Either no state change at all, or one along an edge. */
  predicate GoodMove(m: Machine, n: Machine) {
    && (n.run.entered == m.run.entered ==> n.task.state == m.task.state)
    && (n.run.entered != m.run.entered ==> n.run.entered == m.run.clock && Edge(m.task.state, n.task.state))
  }

  /** In this step USB audio is disabled. */
  predicate Disables(m: Machine, input: Input) {
    match input.event
    case TableStopped => true
    case Deliver(PairHandset) =>
      m.task.state == Idle || (input.env.a2dpStreaming && input.env.avrcpPaused)
    case SystemChange(SystemPoweringOn, SystemActive) => !WiredActive(m.usb, input.env) && !input.env.paired
    case _ => false
  }

  predicate Panics(m: Machine, input: Input) {
    Disables(m, input) && UsbDisablePanics(m.usb)
  }

  // ---------------------------------------------------------------- notices

  lemma RestInPlace(s: HeadsetState, inbox: seq<Notice>)
    requires inbox != [] && PowerOnWaits(s, inbox)
    ensures PowerOnWaits(s, inbox[1..])
    ensures inbox[0].Change? && inbox[0] != TO_LIMBO ==>
      forall i :: 0 <= i < |inbox[1..]| ==> !IsPowerOnNotice(inbox[1..][i])
  {
    var rest := inbox[1..];
    assert forall i :: 0 <= i < |rest| ==> rest[i] == inbox[i + 1];
  }

  /** What the state machine is told fits: which changes it can find in which state. */
  lemma ChangeFinds(m: Machine, before: SystemState, after: SystemState)
    requires Fits(m) && InPlace(m) && Next(m, Change(before, after)) && m.task.state != FactoryReset
    ensures before == m.run.told && Follows(before, after)
    ensures after == SystemPoweringOn ==> m.task.state == Limbo
    ensures after == SystemPoweringOff ==> m.task.state != Limbo && m.task.state != PoweringOff
    ensures m.task.state != PoweringOff
  {
    assert m.power.inbox[0] == Change(before, after);
    if m.task.state == PoweringOff {
      assert forall i :: 0 <= i < |m.power.inbox| ==> !IsPowerOffNotice(m.power.inbox[i]);
      Climbs(m.run.told, m.power.inbox, m.power.system);
    }
  }

  lemma SystemChangeMoves(m: Machine, before: SystemState, after: SystemState, env: Env)
    requires Fits(m) && InPlace(m) && !m.run.panicked && m.run.entered < m.run.clock
    requires Enabled(m, SystemChange(before, after)) && m.task.state != FactoryReset
    ensures
      var n := HandleSystemChange(Told(WithoutNotice(m), after), before, after, env);
      && (n.run.panicked <==> Panics(m, Input(SystemChange(before, after), env)))
      && (!n.run.panicked ==> GoodMove(m, n) && InPlace(n))
  {
    ChangeFinds(m, before, after);
    RestInPlace(m.task.state, m.power.inbox);
    var taken := Told(WithoutNotice(m), after);
    var n := HandleSystemChange(taken, before, after, env);
    ChangeComing(taken, before, after, env);
    assert n.power.inbox == taken.power.inbox && n.power.system == m.power.system;
    ChangeState(taken, before, after, env);
    assert !n.run.panicked ==> PowerOnWaits(n.task.state, n.power.inbox);
  }

  /** The new state, and whether the step panics. */
  lemma ChangeState(m: Machine, before: SystemState, after: SystemState, env: Env)
    requires m.task.state != FactoryReset && !m.run.panicked && m.run.entered < m.run.clock
    requires Possible(before, m.task.state) && m.task.state != PoweringOff && Follows(before, after)
    requires after == SystemPoweringOn ==> m.task.state == Limbo
    requires after == SystemPoweringOff ==> m.task.state != Limbo
    ensures
      var n := HandleSystemChange(m, before, after, env);
      && (n.run.panicked <==> Panics(m, Input(SystemChange(before, after), env)))
      && n.run.told == m.run.told
      && (!n.run.panicked ==>
            && GoodMove(m, n) && Possible(after, n.task.state)
            && (before == SystemPoweringOff ==> n.task.state == m.task.state))
  {
  }

  lemma ConfirmMoves(m: Machine, env: Env)
    requires Inside(m) && InPlace(m) && !m.run.panicked && m.run.entered < m.run.clock && m.task.state != FactoryReset
    ensures
      var n := HandleTopologyStopConfirm(m, env);
      GoodMove(m, n) && InPlace(n) && !n.run.panicked
  {
    ConfirmComing(m, env);
    StopConfirmKeeps(m, env);
    var n := HandleTopologyStopConfirm(m, env);
    assert n.power.inbox == m.power.inbox && n.power.system == m.power.system;
    ConfirmState(m, env);
  }

  lemma ConfirmState(m: Machine, env: Env)
    requires PauseRecorded(m.audio) && !m.run.panicked && m.run.entered < m.run.clock
    requires m.task.state != FactoryReset && Possible(m.run.told, m.task.state)
    ensures
      var n := HandleTopologyStopConfirm(m, env);
      && !n.run.panicked && GoodMove(m, n) && n.run.told == m.run.told && Possible(n.run.told, n.task.state)
      && (m.task.state == Limbo ==> n.task.state == Limbo)
  {
  }

  lemma MovedInPlace(m: Machine, n: Machine, after: SystemState)
    requires InPlace(m) && Follows(m.power.system, after)
    requires n.run.told == m.run.told && n.task == m.task && n.power == SystemMoved(m.power, after)
    requires after == SystemPoweringOn && m.task.state != FactoryReset ==>
      m.task.state == Limbo && !PowerOffUnderWay(m.power)
    ensures InPlace(n)
  {
    ChainChange(m.run.told, m.power.inbox, m.power.system, after);
    if after == SystemPoweringOn && m.task.state != FactoryReset {
      assert forall i :: 0 <= i < |m.power.inbox| ==> !IsPowerOffNotice(m.power.inbox[i]);
      Climbs(m.run.told, m.power.inbox, m.power.system);
    }
  }

  lemma ConfirmInPlace(m: Machine, n: Machine, who: Requester)
    requires InPlace(m) && n.run.told == m.run.told && n.task.state == m.task.state
    requires n.power.system == m.power.system && n.power.inbox == m.power.inbox + [Confirm(who)]
    ensures InPlace(n)
  {
    ChainConfirm(m.run.told, m.power.inbox, m.power.system, who);
  }

  lemma TakenInPlace(m: Machine)
    requires InPlace(m) && m.power.inbox != [] && m.power.inbox[0].Confirm?
    ensures InPlace(WithoutNotice(m))
  {
    if m.task.state != FactoryReset { RestInPlace(m.task.state, m.power.inbox); }
  }

  lemma TableStoppedMoves(m: Machine, env: Env)
    requires Invariant(m) && Fits(m) && InPlace(m) && m.task.state != FactoryReset && Enabled(m, TableStopped)
    ensures
      var n := HandleTableStopped(WithoutNotice(m), env);
      && (n.run.panicked <==> UsbDisablePanics(m.usb))
      && (!n.run.panicked ==> GoodMove(m, n) && InPlace(n))
  {
    TableConfirmHandled(m.task.state, m.power);
    TakenInPlace(m);
    var taken := WithoutNotice(m);
    ConfirmMoves(taken, env);
    var confirmed := HandleTopologyStopConfirm(taken, env);
    ConfirmComing(taken, env);
    if !UsbDisablePanics(m.usb) {
      var n := HandleTableStopped(taken, env);
      assert confirmed.power.system == SystemPoweringOff && confirmed.usb == m.usb;
      MovedInPlace(confirmed, n, SystemLimbo);
    }
  }

  // ---------------------------------------------------------------- all messages

  lemma PowerOffMoves(m: Machine, env: Env)
    requires InPlace(m) && m.task.state != FactoryReset && !m.run.panicked
    ensures
      var n := HandleRequest(m, PowerOff, env);
      InPlace(n) && GoodMove(m, n) && !n.run.panicked
  {
    if Code(m.task.state) > Code(Limbo) && AcceptsPowerOff(m.power) {
      var moved := m.(power := SystemMoved(m.power, SystemPoweringOff));
      MovedInPlace(m, moved, SystemPoweringOff);
      var confirmed := moved.power.(inbox := moved.power.inbox + [Confirm(PowerOffTable)]);
      ConfirmInPlace(moved, moved.(power := confirmed), PowerOffTable);
    }
  }

  lemma PowerEventMoves(m: Machine, e: Event, env: Env)
    requires Fits(m) && InPlace(m) && Enabled(m, e) && m.task.state != FactoryReset
    requires IsPowerEvent(e)
    ensures
      var n := Handle(m, e, env);
      InPlace(n) && GoodMove(m, n) && !n.run.panicked
  {
    var n := Handle(m, e, env);
    match e
    case StartUpDone => MovedInPlace(m, n, SystemLimbo);
    case PowerOnTableDone =>
      MovedInPlace(m.(power := TopologyStart(m.power)), n, SystemActive);
    case TopologyReady =>
    case TopologyStopDone => ConfirmInPlace(m, n, m.power.requester);
    case UiPowerOn => if n != m { MovedInPlace(m, n, SystemPoweringOn); }
  }

  /** Where the other messages lead. */
  lemma OtherMoves(m: Machine, input: Input)
    requires m.run.entered < m.run.clock && Possible(m.run.told, m.task.state)
    requires Enabled(m, input.event) && Orderly(m, input) && !IsNotice(input.event) && input.event != Deliver(PowerOff)
    requires !IsPowerEvent(input.event)
    ensures
      var n := Handle(Take(m, input.event), input.event, input.env);
      && (n.run.panicked <==> Panics(m, input))
      && (!n.run.panicked ==>
            && GoodMove(m, n) && n.run.told == m.run.told
            && (n.task.state != FactoryReset ==>
                  && Possible(n.run.told, n.task.state)
                  && (m.task.state == Limbo ==> n.task.state == Limbo)))
  {
    var taken := Take(m, input.event);
    match input.event
    case Deliver(r) => RequestMoves(taken, r, input.env);
    case _ =>
  }

  lemma RequestMoves(m: Machine, r: Request, env: Env)
    requires m.run.entered < m.run.clock && Possible(m.run.told, m.task.state) && !m.run.panicked
    requires r != PowerOff && (env.a2dpStreaming ==> IsActiveState(m.task.state))
    ensures
      var n := HandleRequest(m, r, env);
      && (n.run.panicked <==> Panics(m, Input(Deliver(r), env)))
      && (!n.run.panicked ==>
            && GoodMove(m, n) && n.run.told == m.run.told
            && (n.task.state != FactoryReset ==>
                  && Possible(n.run.told, n.task.state)
                  && (m.task.state == Limbo ==> n.task.state == Limbo)))
  {
  }

  lemma OtherInPlace(m: Machine, input: Input)
    requires Invariant(m) && InPlace(m) && Enabled(m, input.event) && Orderly(m, input)
    requires !IsNotice(input.event) && input.event != Deliver(PowerOff)
    requires !IsPowerEvent(input.event)
    requires !Step(m, input.event, input.env).run.panicked
    ensures InPlace(Step(m, input.event, input.env))
  {
    var n := Step(m, input.event, input.env);
    OtherComing(m, input);
    OtherMoves(m, input);
    if n.power.inbox == m.power.inbox {
      assert n.power.system == m.power.system;
    } else {
      ConfirmInPlace(m.(task := n.task), n, StateMachine);
    }
  }

  /** One step of an orderly run: it panics exactly if it disables USB audio with an inactive
      application that is not the active one, the default one or none; otherwise any state
      change is along an edge. */
  lemma OrderlyStep(m: Machine, input: Input)
    requires Invariant(m) && Fits(m) && InPlace(m) && Enabled(m, input.event) && Orderly(m, input)
    ensures
      var n := Step(m, input.event, input.env);
      && (n.run.panicked <==> Panics(m, input))
      && (!n.run.panicked ==> GoodMove(m, n) && InPlace(n))
  {
    var e, env := input.event, input.env;
    if e.SystemChange? {
      SystemChangeMoves(m, e.before, e.after, env);
    } else if e == TopologyStopped {
      TakenInPlace(m);
      ConfirmMoves(WithoutNotice(m), env);
    } else if e == TableStopped {
      TableStoppedMoves(m, env);
    } else if e == Deliver(PowerOff) {
      PowerOffMoves(Take(m, e), env);
    } else if IsPowerEvent(e) {
      PowerEventMoves(m, e, env);
    } else {
      OtherMoves(m, input);
      if !Step(m, e, env).run.panicked { OtherInPlace(m, input); }
    }
  }

  // ---------------------------------------------------------------- orderly runs

  ghost predicate OrderlyUpTo(ms: seq<Machine>, ins: seq<Input>, k: nat)
    requires k <= |ins| <= |ms|
  {
    forall i {:trigger ins[i]} :: 0 <= i < k ==> Orderly(ms[i], ins[i])
  }

  lemma {:induction false} OrderlyInPlace(ms: seq<Machine>, ins: seq<Input>, k: nat)
    requires IsRun(ms, ins) && k <= |ins| && OrderlyUpTo(ms, ins, k) && !ms[k].run.panicked
    ensures Invariant(ms[k]) && Fits(ms[k]) && InPlace(ms[k])
  {
    RunInvariant(ms, ins, k);
    RunFits(ms, ins, k);
    if k == 0 {
      assert ms[0].run.told == StartingUp && ms[0].power.inbox == [];
    } else {
      Handled(ms, ins, k - 1);
      OrderlyInPlace(ms, ins, k - 1);
      assert Orderly(ms[k - 1], ins[k - 1]);
      OrderlyStep(ms[k - 1], ins[k - 1]);
    }
  }

  /** An orderly run has panicked exactly if its last step disabled USB audio while an inactive
      application was set that is not the active one, the default one or none. */
  lemma PanicsExactly(ms: seq<Machine>, ins: seq<Input>, k: nat)
    requires IsRun(ms, ins) && k <= |ins| && OrderlyUpTo(ms, ins, k)
    ensures ms[k].run.panicked <==> k > 0 && Panics(ms[k - 1], ins[k - 1])
  {
    if k > 0 {
      Handled(ms, ins, k - 1);
      OrderlyInPlace(ms, ins, k - 1);
      assert Orderly(ms[k - 1], ins[k - 1]);
      OrderlyStep(ms[k - 1], ins[k - 1]);
    }
  }

  /** Every state change of every orderly run, up to the factory reset, is along an edge. */
  lemma EveryMoveIsAnEdge(ms: seq<Machine>, ins: seq<Input>, k: nat)
    requires IsRun(ms, ins) && k < |ins| && OrderlyUpTo(ms, ins, k + 1) && !ms[k + 1].run.panicked
    ensures GoodMove(ms[k], ms[k + 1])
  {
    Handled(ms, ins, k);
    OrderlyInPlace(ms, ins, k);
    assert Orderly(ms[k], ins[k]);
    OrderlyStep(ms[k], ins[k]);
  }
}
