/** PAIRING means that wired audio is off: nothing turns it on before the power-on table, and
    the table never finds PAIRING. */
module HeadsetPairing {
  import opened HeadsetModel
  import opened HeadsetInvariant
  import opened HeadsetPower
  import opened HeadsetRuns
  import opened HeadsetPause
  import opened HeadsetTransitions

  const TO_POWERING_ON := Change(SystemLimbo, SystemPoweringOn)

  /** Until the power-on table has finished, wired audio is off and none of the states that
      use it is reached. */
  ghost predicate OffBefore(m: Machine) {
    var s, system := m.task.state, m.power.system;
    && (s == Null ==> WiredOff(m))
    && (s == Limbo && system == SystemLimbo ==> WiredOff(m))
    && (system == SystemPoweringOn ==>
          && s in {Limbo, PoweringOn, Terminating, FactoryReset}
          && (s == PoweringOn || TO_POWERING_ON in m.power.inbox ==> WiredOff(m)))
  }

  ghost predicate PairingOff(m: Machine) {
    OffBefore(m) && (m.task.state == Pairing ==> WiredOff(m))
  }

  // ---------------------------------------------------------------- notices

  /** The last change leads to where the system is. */
  lemma {:induction false} ChainEnds(from: SystemState, inbox: seq<Notice>, to: SystemState, k: nat)
    requires Chained(from, inbox, to) && k < |inbox| && inbox[k].Change?
    ensures exists i :: 0 <= i < |inbox| && inbox[i].Change? && inbox[i].after == to
    decreases |inbox|
  {
    var rest := inbox[1..];
    assert k > 0 ==> rest[k - 1] == inbox[k];
    if j :| 0 <= j < |rest| && rest[j].Change? {
      ChainEnds(if inbox[0].Change? then inbox[0].after else from, rest, to, j);
      var i :| 0 <= i < |rest| && rest[i].Change? && rest[i].after == to;
      assert inbox[i + 1] == rest[i];
    } else {
      NoChange(inbox[0].after, rest, to);
    }
  }

  lemma {:induction false} NoChange(from: SystemState, inbox: seq<Notice>, to: SystemState)
    requires Chained(from, inbox, to) && forall j :: 0 <= j < |inbox| ==> !inbox[j].Change?
    ensures from == to
    decreases |inbox|
  {
    if inbox != [] {
      assert forall j :: 0 <= j < |inbox[1..]| ==> inbox[1..][j] == inbox[j + 1];
      NoChange(from, inbox[1..], to);
    }
  }

  /** While the system is powering on, only LIMBO is told of a change. */
  lemma ToldWhilePoweringOn(m: Machine, before: SystemState, after: SystemState)
    requires InPlace(m) && Next(m, Change(before, after)) && m.task.state != FactoryReset
    requires m.power.system == SystemPoweringOn
    ensures m.task.state == Limbo
    ensures Change(before, after) in {TO_LIMBO, TO_POWERING_ON, Change(SystemPoweringOff, SystemPoweringOn)}
  {
    var inbox := m.power.inbox;
    assert inbox[0] == Change(before, after);
    ChainEnds(m.run.told, inbox, m.power.system, 0);
    var i :| 0 <= i < |inbox| && inbox[i].Change? && inbox[i].after == SystemPoweringOn;
    assert IsPowerOnNotice(inbox[i]);
    if i == 0 { assert before == m.run.told && Follows(before, after); }
  }

  /** No power-on is pending when the user powers on again in LIMBO. */
  lemma NonePending(m: Machine)
    requires Fits(m) && InPlace(m) && m.task.state == Limbo && m.power.system == SystemPoweringOff
    ensures TO_POWERING_ON !in m.power.inbox
  {
    assert forall i :: 0 <= i < |m.power.inbox| ==> !IsPowerOffNotice(m.power.inbox[i]);
    Climbs(m.run.told, m.power.inbox, m.power.system);
  }

  lemma ChangeOff(m: Machine, before: SystemState, after: SystemState, env: Env)
    requires Fits(m) && InPlace(m) && OffBefore(m) && !m.run.panicked && m.task.state != FactoryReset
    requires Next(m, Change(before, after))
    requires !HandleSystemChange(Told(WithoutNotice(m), after), before, after, env).run.panicked
    ensures OffBefore(HandleSystemChange(Told(WithoutNotice(m), after), before, after, env))
  {
    var taken := Told(WithoutNotice(m), after);
    ChangeFinds(m, before, after);
    ChangeComing(taken, before, after, env);
    assert m.power.inbox[0] == Change(before, after);
    if m.power.system == SystemPoweringOn {
      ToldWhilePoweringOn(m, before, after);
      InLimboOff(taken, before, after, env);
    } else {
      ElsewhereOff(taken, before, after, env);
    }
  }

  lemma InLimboOff(m: Machine, before: SystemState, after: SystemState, env: Env)
    requires m.task.state == Limbo
    requires Change(before, after) in {TO_LIMBO, TO_POWERING_ON, Change(SystemPoweringOff, SystemPoweringOn)}
    ensures
      var n := HandleSystemChange(m, before, after, env);
      && n.audio == m.audio && n.usb == m.usb && n.power == m.power
      && n.task.state == if Change(before, after) == TO_POWERING_ON then PoweringOn else Limbo
  {
  }

  lemma ElsewhereOff(m: Machine, before: SystemState, after: SystemState, env: Env)
    requires m.task.state != FactoryReset && !m.run.panicked
    requires !HandleSystemChange(m, before, after, env).run.panicked
    ensures
      var n := HandleSystemChange(m, before, after, env);
      && (n.task.state == Null ==> m.task.state == Null)
      && (n.task.state == Null || n.task.state == Limbo ==>
            (m.task.state == Null || m.task.state == Limbo) && n.audio == m.audio && n.usb == m.usb)
  {
  }

  lemma ConfirmOff(m: Machine, env: Env)
    requires PauseRecorded(m.audio) && m.task.state != FactoryReset
    ensures
      var n := HandleTopologyStopConfirm(m, env);
      && (WiredOff(n) <==> WiredOff(m))
      && (n.task.state == m.task.state || (m.task.state == PoweringOff && n.task.state == Limbo)
          || (m.task.state == Busy && n.task.state == Idle))
  {
  }

  /** The topology's confirmation to the state machine. */
  lemma StoppedOff(m: Machine, env: Env)
    requires Invariant(m) && Fits(m) && OffBefore(m) && m.task.state != FactoryReset && Enabled(m, TopologyStopped)
    ensures OffBefore(HandleTopologyStopConfirm(WithoutNotice(m), env))
  {
    ConfirmComing(WithoutNotice(m), env);
    ConfirmOff(WithoutNotice(m), env);
  }

  lemma TableStoppedOff(m: Machine, env: Env)
    requires Invariant(m) && Fits(m) && OffBefore(m) && m.task.state != FactoryReset && Enabled(m, TableStopped)
    requires !HandleTableStopped(WithoutNotice(m), env).run.panicked
    ensures OffBefore(HandleTableStopped(WithoutNotice(m), env))
  {
    TableConfirmHandled(m.task.state, m.power);
    ConfirmComing(WithoutNotice(m), env);
    ConfirmOff(WithoutNotice(m), env);
  }

  // ---------------------------------------------------------------- all messages

  lemma NotStarted(m: Machine)
    requires Fits(m) && InPlace(m) && m.power.system == StartingUp
    ensures m.task.state == Null || m.task.state == FactoryReset
  {
    assert forall i :: 0 <= i < |m.power.inbox| ==> !IsPowerOffNotice(m.power.inbox[i]);
    Climbs(m.run.told, m.power.inbox, m.power.system);
  }

  lemma PowerEventOff(m: Machine, e: Event, env: Env)
    requires Fits(m) && InPlace(m) && Enabled(m, e) && IsPowerEvent(e) && OffBefore(m)
    ensures OffBefore(Handle(m, e, env))
  {
    if e == StartUpDone {
      NotStarted(m);
    } else if e == UiPowerOn && m.task.state == Limbo && m.power.system == SystemPoweringOff {
      NonePending(m);
    }
  }

  lemma PowerOffOff(m: Machine, env: Env)
    requires OffBefore(m)
    ensures OffBefore(HandleRequest(m, PowerOff, env))
  {
  }

  lemma OtherOff(m: Machine, input: Input)
    requires OffBefore(m) && Enabled(m, input.event) && Orderly(m, input) && !IsNotice(input.event)
    requires !IsPowerEvent(input.event) && input.event != Deliver(PowerOff)
    requires m.task.state == PoweringOn ==> Monitored(m, input)
    requires !Step(m, input.event, input.env).run.panicked
    ensures OffBefore(Step(m, input.event, input.env))
  {
    OtherComing(m, input);
    if m.task.state in {Null, Limbo, PoweringOn, Terminating} {
      EarlyOff(m, input);
    } else {
      LateOff(m, input);
    }
  }

  /** Before the power-on table has finished, nothing else turns wired audio on or leads on. */
  lemma EarlyOff(m: Machine, input: Input)
    requires Enabled(m, input.event) && Orderly(m, input) && !IsNotice(input.event) && !IsPowerEvent(input.event)
    requires m.task.state in {Null, Limbo, PoweringOn, Terminating}
    requires m.task.state == PoweringOn && WiredOff(m) ==> Monitored(m, input)
    ensures
      var n := Step(m, input.event, input.env);
      && n.task.state in {m.task.state, Terminating, FactoryReset, Busy}
      && (n.task.state == Busy ==> m.task.state == PoweringOn && !WiredOff(m))
      && (WiredOff(m) ==> WiredOff(n))
  {
    if input.event.Deliver? { EarlyRequestOff(Take(m, input.event), input.event.request, input.env); }
  }

  lemma EarlyRequestOff(m: Machine, r: Request, env: Env)
    requires m.task.state in {Null, Limbo, PoweringOn, Terminating} && !env.a2dpStreaming
    ensures
      var n := HandleRequest(m, r, env);
      n.task.state in {m.task.state, FactoryReset} && (WiredOff(m) ==> WiredOff(n))
  {
  }

  lemma LateOff(m: Machine, input: Input)
    requires Enabled(m, input.event) && !IsNotice(input.event) && !IsPowerEvent(input.event)
    requires m.task.state !in {Null, Limbo}
    ensures Step(m, input.event, input.env).task.state !in {Null, Limbo}
  {
  }

  lemma PairingOffStep(m: Machine, input: Input)
    requires Invariant(m) && Fits(m) && InPlace(m) && Enabled(m, input.event) && Orderly(m, input)
    requires PairingOff(m) && (m.task.state == PoweringOn ==> Monitored(m, input))
    requires !Step(m, input.event, input.env).run.panicked
    ensures PairingOff(Step(m, input.event, input.env))
  {
    var e, env := input.event, input.env;
    WiredOffStep(m, e, env);
    if e.SystemChange? {
      ChangeOff(m, e.before, e.after, env);
    } else if e == TopologyStopped {
      StoppedOff(m, env);
    } else if e == TableStopped {
      TableStoppedOff(m, env);
    } else if e == Deliver(PowerOff) {
      PowerOffOff(Take(m, e), env);
    } else if IsPowerEvent(e) {
      PowerEventOff(m, e, env);
    } else {
      OtherOff(m, input);
    }
  }

  /** In POWERING_ON, line-in is reported only while it is monitored. */
  ghost predicate MonitoredUpTo(ms: seq<Machine>, ins: seq<Input>, k: nat)
    requires k <= |ins| <= |ms|
  {
    forall i {:trigger ins[i]} :: 0 <= i < k && ms[i].task.state == PoweringOn ==> Monitored(ms[i], ins[i])
  }

  lemma {:induction false} PairingOffAlways(ms: seq<Machine>, ins: seq<Input>, k: nat)
    requires IsRun(ms, ins) && k <= |ins| && OrderlyUpTo(ms, ins, k) && MonitoredUpTo(ms, ins, k)
    requires !ms[k].run.panicked
    ensures PairingOff(ms[k])
  {
    if k > 0 {
      Handled(ms, ins, k - 1);
      PairingOffAlways(ms, ins, k - 1);
      OrderlyInPlace(ms, ins, k - 1);
      assert Orderly(ms[k - 1], ins[k - 1]);
      PairingOffStep(ms[k - 1], ins[k - 1]);
    }
  }

  /** In PAIRING wired monitoring is stopped and USB audio disabled, and no power-on table can
      finish there. */
  lemma PairingMeansWiredOff(ms: seq<Machine>, ins: seq<Input>, k: nat)
    requires IsRun(ms, ins) && k <= |ins| && OrderlyUpTo(ms, ins, k) && MonitoredUpTo(ms, ins, k)
    requires !ms[k].run.panicked && ms[k].task.state == Pairing
    ensures WiredOff(ms[k]) && !Enabled(ms[k], PowerOnTableDone)
  {
    PairingOffAlways(ms, ins, k);
  }
}
