/** Whole runs of the headset: what holds after any number of messages. */
module HeadsetRuns {
  import opened HeadsetModel
  import opened HeadsetInvariant
  import opened HeadsetPower

  datatype Input = Input(event: Event, env: Env)

  /** From power-up, one handled message after another; ms[i] is the machine before input i. */
  ghost predicate IsRun(ms: seq<Machine>, ins: seq<Input>) {
    && |ms| == |ins| + 1
    && Init(ms[0])
    && forall i {:trigger ins[i]} :: 0 <= i < |ins| ==>
         Enabled(ms[i], ins[i].event) && ms[i + 1] == Step(ms[i], ins[i].event, ins[i].env)
  }

  lemma Handled(ms: seq<Machine>, ins: seq<Input>, i: nat)
    requires IsRun(ms, ins) && i < |ins|
    ensures Enabled(ms[i], ins[i].event) && ms[i + 1] == Step(ms[i], ins[i].event, ins[i].env)
  {
  }

  lemma StillRunning(ms: seq<Machine>, ins: seq<Input>, i: nat, k: nat)
    requires IsRun(ms, ins) && i <= k <= |ins| && !ms[k].run.panicked
    ensures !ms[i].run.panicked
  {
    if i < k { Handled(ms, ins, i); }
  }

  lemma StepTicks(m: Machine, e: Event, env: Env)
    requires Enabled(m, e)
    ensures Step(m, e, env).run.clock == m.run.clock + 1
  {
  }

  lemma {:induction false} RunInvariant(ms: seq<Machine>, ins: seq<Input>, k: nat)
    requires IsRun(ms, ins) && k <= |ins| && !ms[k].run.panicked
    ensures Invariant(ms[k]) && ms[k].run.clock == k
  {
    if k == 0 {
      InitEstablishes(ms[0]);
    } else {
      var input := ins[k - 1];
      RunInvariant(ms, ins, k - 1);
      StepKeepsInvariant(ms[k - 1], input.event, input.env);
      StepTicks(ms[k - 1], input.event, input.env);
    }
  }

  lemma {:induction false} RunFits(ms: seq<Machine>, ins: seq<Input>, k: nat)
    requires IsRun(ms, ins) && k <= |ins| && !ms[k].run.panicked
    ensures Fits(ms[k])
  {
    if k == 0 {
      InitFits(ms[0]);
    } else {
      Handled(ms, ins, k - 1);
      RunFits(ms, ins, k - 1);
      StepFits(ms[k - 1], ins[k - 1].event, ins[k - 1].env);
    }
  }

  // ---------------------------------------------------------------- idle and limbo timers

  /** A timer is started with the current clock, dropped, or left alone. */
  predicate TimersMove(before: Queue, after: Queue, clock: nat) {
    && (after.idleTimers == before.idleTimers || after.idleTimers == [] || after.idleTimers == [clock])
    && (after.limboTimers == before.limboTimers || after.limboTimers == [] || after.limboTimers == [clock])
  }

  lemma SystemChangeTimers(m: Machine, before: SystemState, after: SystemState, env: Env)
    ensures TimersMove(m.queue, HandleSystemChange(m, before, after, env).queue, m.run.clock)
  {
  }

  lemma StopConfirmTimers(m: Machine, env: Env)
    ensures TimersMove(m.queue, HandleTopologyStopConfirm(m, env).queue, m.run.clock)
  {
  }

  lemma WiredTimers(m: Machine, e: Event, env: Env)
    ensures TimersMove(m.queue, ControllerHandle(m, e, env).queue, m.run.clock)
  {
  }

  lemma RequestTimers(m: Machine, r: Request, env: Env)
    ensures TimersMove(m.queue, HandleRequest(m, r, env).queue, m.run.clock)
  {
  }

  lemma StateEventTimers(m: Machine, e: Event, env: Env)
    requires e in {PairingConfirm, AudioActivity, ShutdownPrepare} || e.TopologyHandsetDisconnected?
    ensures TimersMove(m.queue, Handle(m, e, env).queue, m.run.clock)
  {
  }

  lemma NoticeTimers(m: Machine, e: Event, env: Env)
    requires IsNotice(e)
    ensures TimersMove(m.queue, Handle(m, e, env).queue, m.run.clock)
  {
    match e
    case SystemChange(before, after) => SystemChangeTimers(Told(m, after), before, after, env);
    case TopologyStopped => StopConfirmTimers(m, env);
    case TableStopped => StopConfirmTimers(m, env);
  }

  lemma OtherTimers(m: Machine, e: Event, env: Env)
    requires !IsNotice(e) && !IsWiredEvent(e) && !IsStateEvent(e) && !e.Deliver?
    ensures TimersMove(m.queue, Handle(m, e, env).queue, m.run.clock)
  {
  }

  lemma HandlerTimers(m: Machine, e: Event, env: Env)
    ensures TimersMove(m.queue, Handle(m, e, env).queue, m.run.clock)
  {
    if IsWiredEvent(e) {
      WiredTimers(m, e, env);
    } else if IsStateEvent(e) {
      StateEventTimers(m, e, env);
    } else if IsNotice(e) {
      NoticeTimers(m, e, env);
    } else if e.Deliver? {
      RequestTimers(m, e.request, env);
    } else {
      OtherTimers(m, e, env);
    }
  }

  lemma TimerStep(m: Machine, e: Event, env: Env)
    requires Enabled(m, e) && |m.queue.idleTimers| <= 1 && |m.queue.limboTimers| <= 1
    ensures TimersMove(m.queue, Step(m, e, env).queue, m.run.clock)
  {
    HandlerTimers(Take(m, e), e, env);
  }

  /** A pending idle timeout was started at the step it names, and from there to now the
      headset has been in IDLE without a single state change. */
  lemma {:induction false} IdleTimerHistory(ms: seq<Machine>, ins: seq<Input>, i: nat, k: nat)
    requires IsRun(ms, ins) && k <= i <= |ins| && !ms[i].run.panicked && ms[i].queue.idleTimers != []
    requires ms[i].queue.idleTimers[0] < k
    ensures ms[k].queue.idleTimers == ms[i].queue.idleTimers
    ensures ms[k].task.state == Idle && ms[k].run.entered <= ms[i].queue.idleTimers[0]
    decreases i - k
  {
    if k < i {
      Handled(ms, ins, k);
      RunInvariant(ms, ins, k);
      IdleTimerHistory(ms, ins, i, k + 1);
      TimerStep(ms[k], ins[k].event, ins[k].env);
    } else {
      RunInvariant(ms, ins, i);
    }
  }

  lemma {:induction false} LimboTimerHistory(ms: seq<Machine>, ins: seq<Input>, i: nat, k: nat)
    requires IsRun(ms, ins) && k <= i <= |ins| && !ms[i].run.panicked && ms[i].queue.limboTimers != []
    requires ms[i].queue.limboTimers[0] < k
    ensures ms[k].queue.limboTimers == ms[i].queue.limboTimers
    ensures ms[k].task.state == Limbo && ms[k].run.entered <= ms[i].queue.limboTimers[0]
    decreases i - k
  {
    if k < i {
      Handled(ms, ins, k);
      RunInvariant(ms, ins, k);
      LimboTimerHistory(ms, ins, i, k + 1);
      TimerStep(ms[k], ins[k].event, ins[k].env);
    } else {
      RunInvariant(ms, ins, i);
    }
  }

  /** A timeout acted on is the only one of its kind, and was started during this very visit to
      the state it acts in; the other timer is not pending. */
  lemma TimeoutsActOnThisVisit(ms: seq<Machine>, ins: seq<Input>, i: nat)
    requires IsRun(ms, ins) && i < |ins|
    ensures ins[i].event == IdleTimeout ==>
      && ms[i].queue.limboTimers == []
      && exists t :: 0 <= t < i && ms[i].queue.idleTimers == [t]
           && forall k :: t < k <= i ==> ms[k].task.state == Idle && ms[k].run.entered <= t
    ensures ins[i].event == LimboTimeout ==>
      && ms[i].queue.idleTimers == []
      && exists t :: 0 <= t < i && ms[i].queue.limboTimers == [t]
           && forall k :: t < k <= i ==> ms[k].task.state == Limbo && ms[k].run.entered <= t
  {
    Handled(ms, ins, i);
    RunInvariant(ms, ins, i);
    if ins[i].event == IdleTimeout {
      var t := ms[i].queue.idleTimers[0];
      assert ms[i].queue.idleTimers == [t];
      forall k | t < k <= i
        ensures ms[k].task.state == Idle && ms[k].run.entered <= t
      {
        IdleTimerHistory(ms, ins, i, k);
      }
    } else if ins[i].event == LimboTimeout {
      var t := ms[i].queue.limboTimers[0];
      assert ms[i].queue.limboTimers == [t];
      forall k | t < k <= i
        ensures ms[k].task.state == Limbo && ms[k].run.entered <= t
      {
        LimboTimerHistory(ms, ins, i, k);
      }
    }
  }

  // ---------------------------------------------------------------- pairing

  /** Prohibiting connections, the user flag and the pairing procedure agree after every message. */
  lemma PairingFlagsAgree(ms: seq<Machine>, ins: seq<Input>, k: nat)
    requires IsRun(ms, ins) && k <= |ins| && !ms[k].run.panicked
    ensures ms[k].handsets.prohibited == ms[k].task.userPairing
    ensures ms[k].task.userPairing || ms[k].handsets.pairing ==> ms[k].task.state == Pairing
  {
    RunInvariant(ms, ins, k);
  }

  /** Wired monitoring is stopped and USB audio disabled. */
  predicate WiredOff(m: Machine) {
    !m.audio.monitoring && !m.usb.audio
  }

  /** Wired audio that is off in PAIRING stays off, and PAIRING is entered with it off. */
  predicate KeepsWiredOff(m: Machine, n: Machine) {
    && (m.task.state == Pairing && WiredOff(m) ==> WiredOff(n))
    && (m.task.state != Pairing && n.task.state == Pairing ==> WiredOff(n))
  }

  lemma SystemChangeWiredOff(m: Machine, before: SystemState, after: SystemState, env: Env)
    requires !HandleSystemChange(m, before, after, env).run.panicked
    ensures KeepsWiredOff(m, HandleSystemChange(m, before, after, env))
  {
  }

  lemma RequestWiredOff(m: Machine, r: Request, env: Env)
    requires !HandleRequest(m, r, env).run.panicked
    ensures KeepsWiredOff(m, HandleRequest(m, r, env))
  {
  }

  lemma StopConfirmWiredOff(m: Machine, env: Env)
    ensures KeepsWiredOff(m, HandleTopologyStopConfirm(m, env))
  {
  }

  lemma ControllerWiredOff(m: Machine, e: Event, env: Env)
    ensures KeepsWiredOff(m, ControllerHandle(m, e, env))
  {
  }

  lemma HandlerWiredOff(m: Machine, e: Event, env: Env)
    requires !Handle(m, e, env).run.panicked && e != PairingConfirm && e != PowerOnTableDone
    ensures KeepsWiredOff(m, Handle(m, e, env))
  {
    match e
    case SystemChange(before, after) => SystemChangeWiredOff(Told(m, after), before, after, env);
    case Deliver(r) => RequestWiredOff(m, r, env);
    case TopologyStopped => StopConfirmWiredOff(m, env);
    case TableStopped => if m.power.system == SystemPoweringOff { StopConfirmWiredOff(m, env); }
    case WiredConnect => ControllerWiredOff(m, e, env);
    case WiredDisconnect => ControllerWiredOff(m, e, env);
    case UsbEnumerated => ControllerWiredOff(m, e, env);
    case UsbDeconfigured => ControllerWiredOff(m, e, env);
    case _ =>
  }

  /** Every way into PAIRING goes through StartPairing, which leaves wired audio off. */
  lemma EnteredWiredOff(m: Machine, e: Event, env: Env)
    requires Enabled(m, e) && !Step(m, e, env).run.panicked
    ensures m.task.state != Pairing && Step(m, e, env).task.state == Pairing ==> WiredOff(Step(m, e, env))
  {
    if e != PairingConfirm && e != PowerOnTableDone {
      HandlerWiredOff(Take(m, e), e, env);
    }
  }

  /** From PAIRING with wired audio off, wired audio comes back exactly by a pairing
      confirmation, which ends PAIRING, or by the power-on table. */
  lemma WiredOffWhilePairing(m: Machine, e: Event, env: Env)
    requires Enabled(m, e) && !Step(m, e, env).run.panicked
    requires m.task.state == Pairing && WiredOff(m)
    ensures WiredOff(Step(m, e, env)) <==> e != PairingConfirm && e != PowerOnTableDone
    ensures e == PairingConfirm ==> Step(m, e, env).task.state == Idle
  {
    if e != PairingConfirm && e != PowerOnTableDone {
      HandlerWiredOff(Take(m, e), e, env);
    }
  }

  /** A failed disconnection in a user pairing goes back to IDLE with wired audio still off. */
  lemma FailedDisconnectionStaysOff(m: Machine, env: Env)
    requires !m.run.panicked && m.task.state == Pairing && m.task.userPairing && WiredOff(m)
    ensures
      var n := Step(m, TopologyHandsetDisconnected(DisconnectFailed), env);
      n.task.state == Idle && WiredOff(n) && n.run.told == m.run.told && !n.run.panicked
  {
  }

  /** Of all moves from PAIRING to IDLE, exactly the pairing confirmation brings wired audio back. */
  lemma BackToIdleExactly(m: Machine, e: Event, env: Env)
    requires Enabled(m, e) && !Step(m, e, env).run.panicked
    requires m.task.state == Pairing && WiredOff(m) && Step(m, e, env).task.state == Idle
    ensures Step(m, e, env).audio.monitoring && Step(m, e, env).usb.audio <==> e == PairingConfirm
    ensures WiredOff(Step(m, e, env)) <==> e != PairingConfirm
  {
    WiredOffWhilePairing(m, e, env);
  }

  lemma WiredOffStep(m: Machine, e: Event, env: Env)
    requires Enabled(m, e) && !Step(m, e, env).run.panicked
    requires m.task.state == Pairing ==> WiredOff(m) && e != PowerOnTableDone
    ensures Step(m, e, env).task.state == Pairing ==> WiredOff(Step(m, e, env))
  {
    if m.task.state == Pairing {
      WiredOffWhilePairing(m, e, env);
    } else {
      EnteredWiredOff(m, e, env);
    }
  }

  // ---------------------------------------------------------------- shutdown acknowledgement

  /** A shutdown-prepare indication that is due an answer: all but those taken in LIMBO while a
      silent commit is pending. */
  predicate DueAnswer(m: Machine, input: Input) {
    input.event == ShutdownPrepare && !(m.task.state == Limbo && input.env.silentCommit)
  }

  ghost function AnswersDue(ms: seq<Machine>, ins: seq<Input>, k: nat): nat
    requires k <= |ins| <= |ms|
  {
    if k == 0 then 0
    else AnswersDue(ms, ins, k - 1) + if DueAnswer(ms[k - 1], ins[k - 1]) then 1 else 0
  }

  lemma ResponseStep(m: Machine, input: Input)
    requires Enabled(m, input.event) && !Step(m, input.event, input.env).run.panicked
    ensures Step(m, input.event, input.env).calls.responses ==
      m.calls.responses + if DueAnswer(m, input) then 1 else 0
  {
  }

  /** As many responses as indications due one, after every message of every run. */
  lemma {:induction false} EveryPrepareAnswered(ms: seq<Machine>, ins: seq<Input>, k: nat)
    requires IsRun(ms, ins) && k <= |ins| && !ms[k].run.panicked
    ensures ms[k].calls.responses == AnswersDue(ms, ins, k)
  {
    if k == 0 {
    } else {
      Handled(ms, ins, k - 1);
      EveryPrepareAnswered(ms, ins, k - 1);
      ResponseStep(ms[k - 1], ins[k - 1]);
    }
  }
}
