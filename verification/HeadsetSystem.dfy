/** How the state machine follows the system state: exactly when it does, and where it stays
    behind. */
module HeadsetSystem {
  import opened HeadsetModel
  import opened HeadsetInvariant
  import opened HeadsetPower
  import opened HeadsetRuns
  import opened HeadsetPause
  import opened HeadsetTransitions

  /** The states meant to go with each system state. */
  predicate SystemMatches(m: Machine) {
    var s := m.task.state;
    s != FactoryReset ==>
      match m.run.told
      case StartingUp => s == Null
      case SystemLimbo => s == Limbo || s == Terminating
      case SystemPoweringOn => s in {PoweringOn, Pairing, Idle, Busy, Terminating}
      case SystemActive => s in {Pairing, Idle, Busy, Terminating}
      case SystemPoweringOff => s in {PoweringOff, Limbo, Terminating}
  }

  /** The changes that the system state module makes and the state machine has no branch for. */
  predicate Unexpected(e: Event) {
    || e == SystemChange(SystemPoweringOn, SystemPoweringOff)
    || e == SystemChange(SystemPoweringOff, SystemPoweringOn)
  }

  lemma MatchStep(m: Machine, input: Input)
    requires Invariant(m) && Fits(m) && InPlace(m) && Enabled(m, input.event) && Orderly(m, input)
    requires SystemMatches(m) && !Step(m, input.event, input.env).run.panicked
    ensures SystemMatches(Step(m, input.event, input.env)) <==>
      !(Unexpected(input.event) && m.task.state != Terminating)
  {
    var e, env := input.event, input.env;
    if e.SystemChange? {
      ChangeFinds(m, e.before, e.after);
      ChangeMatches(Told(WithoutNotice(m), e.after), e.before, e.after, env);
    } else if e == TopologyStopped {
      ConfirmMatches(WithoutNotice(m), env);
    } else if e == TableStopped {
      TableConfirmHandled(m.task.state, m.power);
      ConfirmMatches(WithoutNotice(m), env);
    } else {
      OtherMatches(m, input);
    }
  }

  lemma ChangeMatches(m: Machine, before: SystemState, after: SystemState, env: Env)
    requires m.run.told == after && SystemMatches(m.(run := m.run.(told := before))) && m.task.state != FactoryReset
    requires Follows(before, after) && m.task.state != PoweringOff
    requires after == SystemPoweringOn ==> m.task.state == Limbo
    requires after == SystemPoweringOff ==> m.task.state != Limbo
    requires !HandleSystemChange(m, before, after, env).run.panicked
    ensures SystemMatches(HandleSystemChange(m, before, after, env)) <==>
      !(Unexpected(SystemChange(before, after)) && m.task.state != Terminating)
  {
  }

  lemma ConfirmMatches(m: Machine, env: Env)
    requires PauseRecorded(m.audio) && SystemMatches(m) && m.task.state != FactoryReset
    ensures SystemMatches(HandleTopologyStopConfirm(m, env))
  {
  }

  lemma OtherMatches(m: Machine, input: Input)
    requires Enabled(m, input.event) && Orderly(m, input) && !IsNotice(input.event)
    requires SystemMatches(m) && !Step(m, input.event, input.env).run.panicked
    ensures SystemMatches(Step(m, input.event, input.env))
  {
  }

  ghost predicate MatchedUpTo(ms: seq<Machine>, k: nat)
    requires k < |ms|
  {
    forall j :: 0 <= j <= k ==> SystemMatches(ms[j])
  }

  ghost predicate ExpectedUpTo(ms: seq<Machine>, ins: seq<Input>, k: nat)
    requires k <= |ins| <= |ms|
  {
    forall i {:trigger ins[i]} :: 0 <= i < k && Unexpected(ins[i].event) ==> ms[i].task.state == Terminating
  }

  /** The state machine follows the system state throughout an orderly run exactly if it is told
      of no power-on while powering off, and of no power-off while powering on unless in
      TERMINATING; a power-on it is told of never finds it there. */
  lemma {:induction false} MatchesExactly(ms: seq<Machine>, ins: seq<Input>, k: nat)
    requires IsRun(ms, ins) && k <= |ins| && OrderlyUpTo(ms, ins, k) && !ms[k].run.panicked
    ensures MatchedUpTo(ms, k) <==> ExpectedUpTo(ms, ins, k)
  {
    if k == 0 {
      assert SystemMatches(ms[0]);
    } else {
      Handled(ms, ins, k - 1);
      MatchesExactly(ms, ins, k - 1);
      OrderlyInPlace(ms, ins, k - 1);
      assert Orderly(ms[k - 1], ins[k - 1]);
      LastStepMatches(ms, ins, k);
    }
  }

  lemma LastStepMatches(ms: seq<Machine>, ins: seq<Input>, k: nat)
    requires 0 < k <= |ins| < |ms| && (MatchedUpTo(ms, k - 1) <==> ExpectedUpTo(ms, ins, k - 1))
    requires Enabled(ms[k - 1], ins[k - 1].event) && ms[k] == Step(ms[k - 1], ins[k - 1].event, ins[k - 1].env)
    requires Invariant(ms[k - 1]) && Fits(ms[k - 1]) && InPlace(ms[k - 1]) && Orderly(ms[k - 1], ins[k - 1])
    requires !ms[k].run.panicked
    ensures MatchedUpTo(ms, k) <==> ExpectedUpTo(ms, ins, k)
  {
    if SystemMatches(ms[k - 1]) { MatchStep(ms[k - 1], ins[k - 1]); }
    assert MatchedUpTo(ms, k) <==> MatchedUpTo(ms, k - 1) && SystemMatches(ms[k]);
    var expected := Unexpected(ins[k - 1].event) ==> ms[k - 1].task.state == Terminating;
    assert ExpectedUpTo(ms, ins, k) <==> ExpectedUpTo(ms, ins, k - 1) && expected;
    if MatchedUpTo(ms, k - 1) { assert SystemMatches(ms[k - 1]); }
  }

  // ---------------------------------------------------------------- left behind in limbo

  /** The system is in limbo, the state machine is not in LIMBO, nothing is pending that could
      bring it there, and no factory reset is about to reboot the chip. */
  predicate LeftBehind(m: Machine) {
    && m.power.system == SystemLimbo
    && (forall i :: 0 <= i < |m.power.inbox| ==> m.power.inbox[i] == Confirm(StateMachine))
    && !(m.power.topology == Stopping && m.power.requester != StateMachine)
    && Ordinary(m.task.state) && m.task.state != FactoryReset
  }

  lemma LeftBehindStep(m: Machine, input: Input)
    requires Invariant(m) && Enabled(m, input.event) && !Step(m, input.event, input.env).run.panicked
    requires LeftBehind(m) && input.event != Deliver(ResetToFactory)
    ensures LeftBehind(Step(m, input.event, input.env))
  {
    var e, env := input.event, input.env;
    if e == TopologyStopped {
      ConfirmComing(WithoutNotice(m), env);
    } else if IsPowerEvent(e) {
    } else {
      LeftBehindOther(m, input);
    }
  }

  lemma LeftBehindOther(m: Machine, input: Input)
    requires Enabled(m, input.event) && !Step(m, input.event, input.env).run.panicked && LeftBehind(m)
    requires input.event != TopologyStopped && input.event != Deliver(ResetToFactory)
    requires !IsPowerEvent(input.event)
    ensures LeftBehind(Step(m, input.event, input.env))
  {
    assert !IsNotice(input.event);
    if input.event != Deliver(PowerOff) { OtherComing(m, input); }
  }

  /** From then on, until a factory reset, the system stays in limbo and no power-on is accepted. */
  lemma {:induction false} LeftBehindLasts(ms: seq<Machine>, ins: seq<Input>, i: nat, k: nat)
    requires IsRun(ms, ins) && i <= k <= |ins| && !ms[k].run.panicked && LeftBehind(ms[i])
    requires forall q {:trigger ins[q]} :: i <= q < k ==> ins[q].event != Deliver(ResetToFactory)
    ensures LeftBehind(ms[k])
  {
    if k == i {
    } else {
      Handled(ms, ins, k - 1);
      LeftBehindLasts(ms, ins, i, k - 1);
      RunInvariant(ms, ins, k - 1);
      LeftBehindStep(ms[k - 1], ins[k - 1]);
    }
  }
}
