/** From an accepted power-off to LIMBO: exactly when POWERING_OFF is left. */
module HeadsetPowerOff {
  import opened HeadsetModel
  import opened HeadsetInvariant
  import opened HeadsetPower
  import opened HeadsetRuns
  import opened HeadsetPause
  import opened HeadsetTransitions

  // ---------------------------------------------------------------- leaving POWERING_OFF

  /** Neither a shutdown nor a factory reset is handled from i to k. */
  ghost predicate NoShutdownBetween(ms: seq<Machine>, ins: seq<Input>, i: nat, k: nat)
    requires k <= |ins| <= |ms|
  {
    forall q {:trigger ins[q]} :: i <= q < k ==>
      ins[q].event != ShutdownPrepare && ins[q].event != Deliver(ResetToFactory)
  }

  ghost predicate PoweringOffTill(ms: seq<Machine>, i: nat, k: nat)
    requires k <= |ms|
  {
    forall r {:trigger ms[r]} :: i <= r < k ==> ms[r].task.state == PoweringOff
  }

  /** POWERING_OFF from i on, and LIMBO at q. */
  ghost predicate Lands(ms: seq<Machine>, i: nat, q: nat)
    requires q < |ms|
  {
    i < q && ms[q].task.state == Limbo && PoweringOffTill(ms, i, q)
  }

  ghost predicate LandsBy(ms: seq<Machine>, i: nat, k: nat)
    requires k < |ms|
  {
    exists q {:trigger Lands(ms, i, q)} :: i < q <= k && Lands(ms, i, q)
  }

  /** A confirmation, and nothing else, leads from POWERING_OFF to LIMBO. */
  lemma PoweringOffStep(m: Machine, input: Input)
    requires Invariant(m) && Fits(m) && InPlace(m) && Enabled(m, input.event) && Orderly(m, input)
    requires !Step(m, input.event, input.env).run.panicked && m.task.state == PoweringOff
    requires input.event != ShutdownPrepare && input.event != Deliver(ResetToFactory)
    ensures Step(m, input.event, input.env).task.state == if IsConfirm(input.event) then Limbo else PoweringOff
    ensures !Stops(m, input)
  {
    var e, env := input.event, input.env;
    if e.SystemChange? {
      ChangeFinds(m, e.before, e.after);
    } else if IsConfirm(e) {
      ConfirmLeaves(m, e, env);
    } else {
      PoweringOffOther(m, input);
    }
  }

  lemma ConfirmLeaves(m: Machine, e: Event, env: Env)
    requires Invariant(m) && Fits(m) && Enabled(m, e) && IsConfirm(e) && m.task.state == PoweringOff
    ensures Step(m, e, env).task.state == Limbo
  {
    if e == TableStopped { TableConfirmHandled(m.task.state, m.power); }
    StopConfirmKeeps(Take(m, e), env);
  }

  lemma PoweringOffOther(m: Machine, input: Input)
    requires Enabled(m, input.event) && Orderly(m, input) && m.task.state == PoweringOff && !IsNotice(input.event)
    requires input.event != ShutdownPrepare && input.event != Deliver(ResetToFactory)
    ensures Step(m, input.event, input.env).task.state == PoweringOff
  {
  }

  /** A confirmation handled was coming. */
  lemma ConfirmWasComing(m: Machine, e: Event)
    requires Enabled(m, e) && IsConfirm(e)
    ensures Coming(m.power) > 0
  {
  }

  /** Up to LIMBO POWERING_OFF lasts, and what is coming stays the same. */
  lemma {:induction false} UntilLimbo(ms: seq<Machine>, ins: seq<Input>, i: nat, k: nat)
    requires IsRun(ms, ins) && i <= k <= |ins| && OrderlyUpTo(ms, ins, k) && !ms[k].run.panicked
    requires NoShutdownBetween(ms, ins, i, k) && ms[i].task.state == PoweringOff
    ensures LandsBy(ms, i, k) ==> Coming(ms[i].power) > 0
    ensures !LandsBy(ms, i, k) ==> Coming(ms[k].power) == Coming(ms[i].power) && PoweringOffTill(ms, i, k + 1)
  {
    if k == i {
    } else {
      Handled(ms, ins, k - 1);
      UntilLimbo(ms, ins, i, k - 1);
      LandsByOneMore(ms, i, k);
      if !LandsBy(ms, i, k - 1) { LastUntilLimbo(ms, ins, i, k); }
    }
  }

  lemma LandsByOneMore(ms: seq<Machine>, i: nat, k: nat)
    requires i < k < |ms|
    ensures LandsBy(ms, i, k) <==> LandsBy(ms, i, k - 1) || Lands(ms, i, k)
  {
    if LandsBy(ms, i, k - 1) {
      var q :| i < q <= k - 1 && Lands(ms, i, q);
      assert Lands(ms, i, q) && q <= k;
    }
  }

  lemma LastUntilLimbo(ms: seq<Machine>, ins: seq<Input>, i: nat, k: nat)
    requires IsRun(ms, ins) && i < k <= |ins| && OrderlyUpTo(ms, ins, k) && !ms[k].run.panicked
    requires NoShutdownBetween(ms, ins, i, k)
    requires PoweringOffTill(ms, i, k)
    ensures Lands(ms, i, k) ==> Coming(ms[k - 1].power) > 0
    ensures !Lands(ms, i, k) ==> Coming(ms[k].power) == Coming(ms[k - 1].power) && PoweringOffTill(ms, i, k + 1)
  {
    OneBefore(ms, ins, k);
    OrderlyInPlace(ms, ins, k - 1);
    assert Orderly(ms[k - 1], ins[k - 1]);
    PoweringOffStep(ms[k - 1], ins[k - 1]);
    if IsConfirm(ins[k - 1].event) { ConfirmWasComing(ms[k - 1], ins[k - 1].event); }
  }

  /** With no confirmation coming, POWERING_OFF is left by a shutdown or a factory reset only. */
  lemma PoweringOffLasts(ms: seq<Machine>, ins: seq<Input>, i: nat, k: nat)
    requires IsRun(ms, ins) && i <= k <= |ins| && OrderlyUpTo(ms, ins, k) && !ms[k].run.panicked
    requires NoShutdownBetween(ms, ins, i, k)
    requires ms[i].task.state == PoweringOff && Coming(ms[i].power) == 0
    ensures ms[k].task.state == PoweringOff && Coming(ms[k].power) == 0
  {
    UntilLimbo(ms, ins, i, k);
  }

  /** POWERING_OFF has been left for LIMBO, by the time nothing is coming any more, exactly if a
      confirmation was coming. */
  lemma PoweringOffLeftExactly(ms: seq<Machine>, ins: seq<Input>, i: nat, k: nat)
    requires IsRun(ms, ins) && i <= k <= |ins| && OrderlyUpTo(ms, ins, k) && !ms[k].run.panicked
    requires NoShutdownBetween(ms, ins, i, k)
    requires ms[i].task.state == PoweringOff && Coming(ms[k].power) == 0
    ensures LandsBy(ms, i, k) <==> Coming(ms[i].power) > 0
  {
    UntilLimbo(ms, ins, i, k);
  }

  // ---------------------------------------------------------------- confirmations behind the change

  /** Confirmations behind the first notice of a power-off. */
  function LaterConfirms(inbox: seq<Notice>): nat {
    if inbox == [] then 0
    else if IsPowerOffNotice(inbox[0]) then Confirms(inbox[1..])
    else LaterConfirms(inbox[1..])
  }

  /** Those, and the one of a topology that is stopping: what the state machine will still get
      once it has been told to power off. */
  function ComingLater(p: Power): nat {
    LaterConfirms(p.inbox) + if p.topology == Stopping then 1 else 0
  }

  predicate HasPowerOff(inbox: seq<Notice>) {
    exists i :: 0 <= i < |inbox| && IsPowerOffNotice(inbox[i])
  }

  lemma {:induction false} LaterAppend(inbox: seq<Notice>, n: Notice)
    ensures LaterConfirms(inbox + [n]) == LaterConfirms(inbox) + if n.Confirm? && HasPowerOff(inbox) then 1 else 0
  {
    if inbox == [] {
      assert LaterConfirms([n][1..]) == 0 && Confirms([n][1..]) == 0;
    } else {
      var rest := inbox[1..];
      assert (inbox + [n])[1..] == rest + [n];
      assert forall i :: 0 < i < |inbox| ==> inbox[i] == rest[i - 1];
      ConfirmsAppend(rest, n);
      LaterAppend(rest, n);
      if HasPowerOff(inbox) && !IsPowerOffNotice(inbox[0]) {
        var i :| 0 <= i < |inbox| && IsPowerOffNotice(inbox[i]);
        assert IsPowerOffNotice(rest[i - 1]);
      }
    }
  }

  lemma {:induction false} NoneLater(inbox: seq<Notice>)
    requires !HasPowerOff(inbox)
    ensures LaterConfirms(inbox) == 0
  {
    if inbox != [] {
      assert forall i :: 0 < i < |inbox| ==> inbox[i] == inbox[1..][i - 1];
      NoneLater(inbox[1..]);
    }
  }

  lemma HasMore(inbox: seq<Notice>, n: Notice)
    ensures HasPowerOff(inbox + [n]) <==> HasPowerOff(inbox) || IsPowerOffNotice(n)
  {
    if HasPowerOff(inbox) {
      var i :| 0 <= i < |inbox| && IsPowerOffNotice(inbox[i]);
      assert IsPowerOffNotice((inbox + [n])[i]);
    }
    assert (inbox + [n])[|inbox|] == n;
  }

  /** A power-off accepted: its change goes behind all else, and the table's stop behind that. */
  lemma AcceptedLater(p: Power)
    requires AcceptsPowerOff(p) && !PowerOffUnderWay(p)
    ensures ComingLater(SystemPowerOff(p)) == if p.topology == Starting then 0 else 1
    ensures HasPowerOff(SystemPowerOff(p).inbox)
  {
    var moved := SystemMoved(p, SystemPoweringOff);
    NoneLater(p.inbox);
    LaterAppend(p.inbox, Change(p.system, SystemPoweringOff));
    HasMore(p.inbox, Change(p.system, SystemPoweringOff));
    LaterAppend(moved.inbox, Confirm(PowerOffTable));
    HasMore(moved.inbox, Confirm(PowerOffTable));
  }

  lemma MachineStopLater(p: Power)
    requires HasPowerOff(p.inbox)
    ensures ComingLater(TopologyStop(p, StateMachine)) ==
      ComingLater(p) + if p.topology == Started || p.topology == Stopped then 1 else 0
  {
    LaterAppend(p.inbox, Confirm(StateMachine));
  }

  /** While the state machine is yet to be told, only a stop brings another confirmation. */
  lemma LaterStep(m: Machine, input: Input)
    requires Invariant(m) && Fits(m) && Enabled(m, input.event) && !Step(m, input.event, input.env).run.panicked
    requires !TableStops(m, input) && HasPowerOff(Step(m, input.event, input.env).power.inbox)
    ensures HasPowerOff(m.power.inbox)
    ensures ComingLater(Step(m, input.event, input.env).power) == ComingLater(m.power) +
      if Pauses(m, input) && (m.power.topology == Started || m.power.topology == Stopped) then 1 else 0
  {
    var e, env := input.event, input.env;
    if IsNotice(e) {
      NoticeLater(m, e, env);
    } else if IsPowerEvent(e) {
      PowerEventLater(m, e, env);
    } else if e != Deliver(PowerOff) {
      HasMore(m.power.inbox, Confirm(StateMachine));
      OtherComing(m, input);
      if HasPowerOff(m.power.inbox) { MachineStopLater(m.power); }
    }
  }

  lemma NoticeLater(m: Machine, e: Event, env: Env)
    requires Invariant(m) && Fits(m) && Enabled(m, e) && IsNotice(e)
    requires !Handle(Take(m, e), e, env).run.panicked && HasPowerOff(Handle(Take(m, e), e, env).power.inbox)
    ensures HasPowerOff(m.power.inbox) && ComingLater(Handle(Take(m, e), e, env).power) == ComingLater(m.power)
  {
    NoticePower(m, e, env);
    OneFewer(m.power, Rest(m.power));
    HandledKeeps(m.task.state, m.power);
    HasMore(Rest(m.power).inbox, TO_LIMBO);
    if e == TableStopped {
      TableConfirmHandled(m.task.state, m.power);
      assert false;
    }
  }

  lemma PowerEventLater(m: Machine, e: Event, env: Env)
    requires Enabled(m, e) && IsPowerEvent(e) && HasPowerOff(Handle(m, e, env).power.inbox)
    ensures HasPowerOff(m.power.inbox) && ComingLater(Handle(m, e, env).power) == ComingLater(m.power)
  {
    var inbox, system := m.power.inbox, m.power.system;
    match e
    case StartUpDone => MovedLater(inbox, Change(system, SystemLimbo));
    case PowerOnTableDone => MovedLater(inbox, Change(system, SystemActive));
    case TopologyReady =>
    case TopologyStopDone => MovedLater(inbox, Confirm(m.power.requester));
    case UiPowerOn => MovedLater(inbox, Change(system, SystemPoweringOn));
  }

  lemma MovedLater(inbox: seq<Notice>, n: Notice)
    ensures HasPowerOff(inbox + [n]) <==> HasPowerOff(inbox) || IsPowerOffNotice(n)
    ensures LaterConfirms(inbox + [n]) == LaterConfirms(inbox) + if n.Confirm? && HasPowerOff(inbox) then 1 else 0
  {
    LaterAppend(inbox, n);
    HasMore(inbox, n);
  }

  // ---------------------------------------------------------------- from acceptance to LIMBO

  /** Some stop from j to i did not meet a starting topology. */
  ghost predicate StopsBetween(ms: seq<Machine>, ins: seq<Input>, j: nat, i: nat)
    requires i <= |ins| <= |ms|
  {
    exists q {:trigger ins[q]} :: j <= q < i && Stops(ms[q], ins[q]) && ms[q].power.topology != Starting
  }

  ghost predicate NoTableStopsBetween(ms: seq<Machine>, ins: seq<Input>, j: nat, i: nat)
    requires i <= |ins| <= |ms|
  {
    forall q {:trigger ins[q]} :: j < q < i ==> !TableStops(ms[q], ins[q])
  }

  lemma {:induction false} LaterHistory(ms: seq<Machine>, ins: seq<Input>, j: nat, i: nat)
    requires IsRun(ms, ins) && j < i <= |ins| && !ms[i].run.panicked
    requires TableStops(ms[j], ins[j]) && NoTableStopsBetween(ms, ins, j, i) && HasPowerOff(ms[i].power.inbox)
    ensures ComingLater(ms[i].power) > 0 <==> StopsBetween(ms, ins, j, i)
  {
    OneBefore(ms, ins, i);
    if i - 1 == j {
      AcceptedStep(ms[j], ins[j]);
      OneStop(ms, ins, j);
    } else {
      assert !TableStops(ms[i - 1], ins[i - 1]);
      LaterStep(ms[i - 1], ins[i - 1]);
      LaterHistory(ms, ins, j, i - 1);
      StopsOneMore(ms, ins, j, i);
    }
  }

  lemma AcceptedStep(m: Machine, input: Input)
    requires Fits(m) && Enabled(m, input.event) && TableStops(m, input)
    ensures ComingLater(Step(m, input.event, input.env).power) == if m.power.topology == Starting then 0 else 1
  {
    AcceptedLater(m.power);
  }

  lemma OneStop(ms: seq<Machine>, ins: seq<Input>, j: nat)
    requires j < |ins| <= |ms| && Stops(ms[j], ins[j])
    ensures StopsBetween(ms, ins, j, j + 1) <==> ms[j].power.topology != Starting
  {
    assert Stops(ms[j], ins[j]);
  }

  lemma StopsOneMore(ms: seq<Machine>, ins: seq<Input>, j: nat, i: nat)
    requires j < i <= |ins| <= |ms|
    ensures StopsBetween(ms, ins, j, i) <==>
      StopsBetween(ms, ins, j, i - 1) || (Stops(ms[i - 1], ins[i - 1]) && ms[i - 1].power.topology != Starting)
  {
    if Stops(ms[i - 1], ins[i - 1]) && ms[i - 1].power.topology != Starting {
      assert Stops(ms[i - 1], ins[i - 1]);
    }
  }

  lemma TellStep(m: Machine, input: Input)
    requires Invariant(m) && Fits(m) && Enabled(m, input.event) && m.task.state != FactoryReset
    requires input.event == SystemChange(SystemActive, SystemPoweringOff)
    requires !Step(m, input.event, input.env).run.panicked
    ensures HasPowerOff(m.power.inbox) && Step(m, input.event, input.env).task.state == PoweringOff
    ensures Coming(Step(m, input.event, input.env).power) == ComingLater(m.power)
  {
    assert IsPowerOffNotice(m.power.inbox[0]);
    NoticePower(m, input.event, input.env);
  }

  /** When the state machine is told of a power-off, a confirmation is coming exactly if some
      stop since the acceptance, the table's own included, did not meet a starting topology. */
  lemma ToldOfPowerOff(ms: seq<Machine>, ins: seq<Input>, j: nat, i: nat)
    requires IsRun(ms, ins) && j < i < |ins| && OrderlyUpTo(ms, ins, i + 1) && !ms[i + 1].run.panicked
    requires TableStops(ms[j], ins[j]) && NoTableStopsBetween(ms, ins, j, i)
    requires ins[i].event == SystemChange(SystemActive, SystemPoweringOff)
    ensures ms[i + 1].task.state == PoweringOff
    ensures Coming(ms[i + 1].power) > 0 <==> StopsBetween(ms, ins, j, i)
  {
    Handled(ms, ins, i);
    OrderlyInPlace(ms, ins, i);
    assert Orderly(ms[i], ins[i]);
    TellStep(ms[i], ins[i]);
    LaterHistory(ms, ins, j, i);
  }

  lemma OnlyStop(ms: seq<Machine>, ins: seq<Input>, j: nat, i: nat)
    requires j < i <= |ins| <= |ms| && Stops(ms[j], ins[j]) && NoStopsBetween(ms, ins, j + 1, i)
    ensures StopsBetween(ms, ins, j, i) <==> ms[j].power.topology != Starting
  {
    if ms[j].power.topology != Starting {
      assert Stops(ms[j], ins[j]);
    }
  }

  /** An accepted power-off leads from POWERING_OFF to LIMBO exactly if some stop between its
      acceptance and the moment the state machine is told did not meet a starting topology; with
      no other stop in between, exactly if the topology was not starting at the acceptance. */
  lemma PowerOffEndsExactly(ms: seq<Machine>, ins: seq<Input>, j: nat, i: nat, k: nat)
    requires IsRun(ms, ins) && j < i < k <= |ins| && OrderlyUpTo(ms, ins, k) && !ms[k].run.panicked
    requires TableStops(ms[j], ins[j]) && NoTableStopsBetween(ms, ins, j, i)
    requires ins[i].event == SystemChange(SystemActive, SystemPoweringOff)
    requires NoShutdownBetween(ms, ins, i, k) && Coming(ms[k].power) == 0
    ensures ms[i + 1].task.state == PoweringOff
    ensures LandsBy(ms, i + 1, k) <==> StopsBetween(ms, ins, j, i)
    ensures NoStopsBetween(ms, ins, j + 1, i) ==> (LandsBy(ms, i + 1, k) <==> ms[j].power.topology != Starting)
  {
    StillRunning(ms, ins, i + 1, k);
    assert OrderlyUpTo(ms, ins, i + 1) && NoShutdownBetween(ms, ins, i + 1, k);
    ToldOfPowerOff(ms, ins, j, i);
    PoweringOffLeftExactly(ms, ins, i + 1, k);
    if NoStopsBetween(ms, ins, j + 1, i) { OnlyStop(ms, ins, j, i); }
  }
}
