/** Pausing for wired audio over whole runs: what a pause ignores, and exactly when the
    confirmation that ends it comes. */
module HeadsetPause {
  import opened HeadsetModel
  import opened HeadsetInvariant
  import opened HeadsetPower
  import opened HeadsetRuns

  predicate IsConfirm(e: Event) {
    e == TopologyStopped || e == TableStopped
  }

  /** A pause spent in BUSY: wired events in it change nothing, and the confirmation that ends
      it leaves BUSY exactly if wired audio is still there at that moment. */
  lemma HandoverResumes(ms: seq<Machine>, ins: seq<Input>, i: nat, j: nat)
    requires IsRun(ms, ins) && i <= j < |ins| && IsConfirm(ins[j].event) && !ms[j + 1].run.panicked
    requires forall k :: i <= k <= j ==> ms[k].audio.paused && ms[k].task.state == Busy
    ensures forall k {:trigger ins[k]} :: i <= k < j && IsWiredEvent(ins[k].event) ==> ms[k + 1] == Tick(ms[k])
    ensures !ms[j + 1].audio.paused
    ensures ms[j + 1].task.state == if WiredActive(ms[j].usb, ins[j].env) then Busy else Idle
  {
    Handled(ms, ins, j);
    RunInvariant(ms, ins, j);
    RunFits(ms, ins, j);
    BusyResumes(ms[j], ins[j]);
  }

  lemma BusyResumes(m: Machine, input: Input)
    requires Invariant(m) && Fits(m) && Enabled(m, input.event) && IsConfirm(input.event)
    requires m.audio.paused && m.task.state == Busy && !Step(m, input.event, input.env).run.panicked
    ensures
      var n := Step(m, input.event, input.env);
      !n.audio.paused && n.task.state == if WiredActive(m.usb, input.env) then Busy else Idle
  {
    if input.event == TableStopped { TableConfirmHandled(m.task.state, m.power); }
    EnableKeeps(Take(m, input.event), input.env);
  }

  // ---------------------------------------------------------------- stops

  /** The state machine enters BUSY with wired audio: it pauses and stops the topology. */
  predicate Pauses(m: Machine, input: Input) {
    && WiredActive(m.usb, input.env)
    && match input.event
       case AudioActivity => IsActiveState(m.task.state)
       case WiredConnect => !m.audio.paused && (m.task.state == PoweringOn || IsActiveState(m.task.state))
       case UsbEnumerated =>
         && !m.audio.paused && (m.task.state == PoweringOn || IsActiveState(m.task.state))
         && UsbAudioEnabled(m.usb)
       case _ => false
  }

  /** A power-off is accepted: its table stops the topology. */
  predicate TableStops(m: Machine, input: Input) {
    input.event == Deliver(PowerOff) && Code(m.task.state) > Code(Limbo) && AcceptsPowerOff(m.power)
  }

  predicate Stops(m: Machine, input: Input) {
    Pauses(m, input) || TableStops(m, input)
  }

  /** The controller is paused exactly by a pause, until a confirmation outside POWERING_OFF. */
  lemma PauseStep(m: Machine, input: Input)
    requires Invariant(m) && Fits(m)
    requires Enabled(m, input.event) && !Step(m, input.event, input.env).run.panicked
    ensures Step(m, input.event, input.env).audio.paused <==>
      Pauses(m, input) || (m.audio.paused && !(IsConfirm(input.event) && m.task.state != PoweringOff))
  {
    var e, env := input.event, input.env;
    if e == TopologyStopped {
      StopConfirmKeeps(Take(m, e), env);
    } else if e == TableStopped {
      TableConfirmHandled(m.task.state, m.power);
      StopConfirmKeeps(Take(m, e), env);
    } else if e.SystemChange? {
      ChangePause(Told(Take(m, e), e.after), e.before, e.after, env);
    } else {
      OtherPause(m, input);
    }
  }

  lemma ChangePause(m: Machine, before: SystemState, after: SystemState, env: Env)
    ensures HandleSystemChange(m, before, after, env).audio.paused == m.audio.paused
  {
  }

  lemma OtherPause(m: Machine, input: Input)
    requires Enabled(m, input.event) && !IsNotice(input.event)
    requires !Step(m, input.event, input.env).run.panicked
    ensures Step(m, input.event, input.env).audio.paused <==> Pauses(m, input) || m.audio.paused
  {
  }

  // ---------------------------------------------------------------- confirmations coming

  function Confirms(inbox: seq<Notice>): nat {
    if inbox == [] then 0 else (if inbox[0].Confirm? then 1 else 0) + Confirms(inbox[1..])
  }

  /** Confirmations sent and not handled, and the one of a topology that is stopping. */
  function Coming(p: Power): nat {
    Confirms(p.inbox) + if p.topology == Stopping then 1 else 0
  }

  lemma {:induction false} ConfirmsAppend(inbox: seq<Notice>, n: Notice)
    ensures Confirms(inbox + [n]) == Confirms(inbox) + if n.Confirm? then 1 else 0
  {
    if inbox == [] {
      assert Confirms([n][1..]) == 0;
    } else {
      assert (inbox + [n])[1..] == inbox[1..] + [n];
      ConfirmsAppend(inbox[1..], n);
    }
  }

  /** A stop brings a confirmation under way exactly from STARTED and from STOPPED. */
  lemma StopComing(p: Power, who: Requester)
    ensures Coming(TopologyStop(p, who)) ==
      Coming(p) + if p.topology == Started || p.topology == Stopped then 1 else 0
    ensures TopologyStop(p, who).topology == if p.topology == Started then Stopping else p.topology
  {
    ConfirmsAppend(p.inbox, Confirm(who));
  }

  lemma MovedComing(p: Power, after: SystemState)
    ensures Coming(SystemMoved(p, after)) == Coming(p)
  {
    ConfirmsAppend(p.inbox, Change(p.system, after));
  }

  lemma StoppedComing(p: Power)
    requires p.topology == Stopping
    ensures Coming(TopologyHasStopped(p)) == Coming(p)
  {
    ConfirmsAppend(p.inbox, Confirm(p.requester));
  }

  lemma PowerOffComing(p: Power)
    requires AcceptsPowerOff(p)
    ensures Coming(SystemPowerOff(p)) == Coming(p) + if p.topology == Started || p.topology == Stopped then 1 else 0
  {
    MovedComing(p, SystemPoweringOff);
    StopComing(SystemMoved(p, SystemPoweringOff), PowerOffTable);
  }

  /** One confirmation fewer for each handled, one more for each stop from STARTED or STOPPED. */
  lemma ComingStep(m: Machine, input: Input)
    requires Invariant(m) && Fits(m)
    requires Enabled(m, input.event) && !Step(m, input.event, input.env).run.panicked
    ensures
      Coming(Step(m, input.event, input.env).power) + (if IsConfirm(input.event) then 1 else 0)
      == Coming(m.power) +
         if Stops(m, input) && (m.power.topology == Started || m.power.topology == Stopped) then 1 else 0
  {
    var e, env := input.event, input.env;
    if IsNotice(e) {
      NoticeComing(m, e, env);
    } else if e == Deliver(PowerOff) {
      if TableStops(m, input) { PowerOffComing(m.power); }
    } else if IsPowerEvent(e) {
      PowerEventComing(m, e, env);
    } else {
      StopComing(m.power, StateMachine);
      OtherComing(m, input);
    }
  }

  lemma PowerEventComing(m: Machine, e: Event, env: Env)
    requires Enabled(m, e) && IsPowerEvent(e)
    ensures Coming(Handle(m, e, env).power) == Coming(m.power)
  {
    match e
    case StartUpDone => MovedComing(m.power, SystemLimbo);
    case PowerOnTableDone => MovedComing(TopologyStart(m.power), SystemActive);
    case TopologyReady =>
    case TopologyStopDone => StoppedComing(m.power);
    case UiPowerOn => MovedComing(m.power, SystemPoweringOn);
  }

  lemma OtherComing(m: Machine, input: Input)
    requires Enabled(m, input.event) && !IsNotice(input.event) && input.event != Deliver(PowerOff)
    requires !IsPowerEvent(input.event)
    requires !Step(m, input.event, input.env).run.panicked
    ensures
      var n := Step(m, input.event, input.env).power;
      if Pauses(m, input) then n == TopologyStop(m.power, StateMachine)
      else n == m.power || n == TopologyStart(m.power)
  {
  }

  lemma ChangeComing(m: Machine, before: SystemState, after: SystemState, env: Env)
    ensures
      var n := HandleSystemChange(m, before, after, env).power;
      n == m.power || n == TopologyStart(m.power)
  {
  }

  lemma ConfirmComing(m: Machine, env: Env)
    requires PauseRecorded(m.audio)
    ensures
      var n := HandleTopologyStopConfirm(m, env).power;
      n == m.power || n == TopologyStart(m.power)
  {
  }

  /** What handling a notice does to topology and system state. */
  lemma NoticePower(m: Machine, e: Event, env: Env)
    requires Invariant(m) && Fits(m) && Enabled(m, e) && IsNotice(e)
    requires !Handle(Take(m, e), e, env).run.panicked
    ensures
      var n, left := Handle(Take(m, e), e, env).power, Rest(m.power);
      if e == TableStopped
      then n == SystemMoved(left, SystemLimbo) || n == SystemMoved(TopologyStart(left), SystemLimbo)
      else n == left || n == TopologyStart(left)
  {
    var taken := Take(m, e);
    match e
    case SystemChange(before, after) => ChangeComing(Told(taken, after), before, after, env);
    case TopologyStopped => ConfirmComing(taken, env);
    case TableStopped =>
      TableConfirmHandled(m.task.state, m.power);
      ConfirmComing(taken, env);
  }

  lemma NoticeComing(m: Machine, e: Event, env: Env)
    requires Invariant(m) && Fits(m) && Enabled(m, e) && IsNotice(e)
    requires !Handle(Take(m, e), e, env).run.panicked
    ensures Coming(Handle(Take(m, e), e, env).power) + (if IsConfirm(e) then 1 else 0) == Coming(m.power)
  {
    NoticePower(m, e, env);
    MovedComing(Rest(m.power), SystemLimbo);
    MovedComing(TopologyStart(Rest(m.power)), SystemLimbo);
  }

  // ---------------------------------------------------------------- exactly when a pause ends

  ghost predicate NoStopsBetween(ms: seq<Machine>, ins: seq<Input>, i: nat, k: nat)
    requires k <= |ins| <= |ms|
  {
    forall j {:trigger ins[j]} :: i <= j < k ==> !Stops(ms[j], ins[j])
  }

  /** With nothing coming, a pause lasts until the next stop. */
  lemma {:induction false} PauseLasts(ms: seq<Machine>, ins: seq<Input>, i: nat, k: nat)
    requires IsRun(ms, ins) && i <= k <= |ins| && !ms[k].run.panicked && NoStopsBetween(ms, ins, i, k)
    requires ms[i].audio.paused && Coming(ms[i].power) == 0
    ensures ms[k].audio.paused && Coming(ms[k].power) == 0
  {
    if k == i {
    } else {
      OneBefore(ms, ins, k);
      PauseLasts(ms, ins, i, k - 1);
      assert !Stops(ms[k - 1], ins[k - 1]);
    }
  }

  /** The last step of a run so far, with what holds before it. */
  lemma OneBefore(ms: seq<Machine>, ins: seq<Input>, k: nat)
    requires IsRun(ms, ins) && 0 < k <= |ins| && !ms[k].run.panicked
    ensures var m, input := ms[k - 1], ins[k - 1];
      && Invariant(m) && Fits(m) && Enabled(m, input.event) && ms[k] == Step(m, input.event, input.env)
      && (ms[k].audio.paused <==>
            Pauses(m, input) || (m.audio.paused && !(IsConfirm(input.event) && m.task.state != PoweringOff)))
      && Coming(ms[k].power) + (if IsConfirm(input.event) then 1 else 0) == Coming(m.power) +
           if Stops(m, input) && (m.power.topology == Started || m.power.topology == Stopped) then 1 else 0
  {
    Handled(ms, ins, k - 1);
    RunInvariant(ms, ins, k - 1);
    RunFits(ms, ins, k - 1);
    PauseStep(ms[k - 1], ins[k - 1]);
    ComingStep(ms[k - 1], ins[k - 1]);
  }

  /** POWERING_OFF is not met between i and k. */
  ghost predicate NoPowerOffBetween(ms: seq<Machine>, i: nat, k: nat)
    requires k < |ms|
  {
    forall q {:trigger ms[q]} :: i < q <= k ==> ms[q].task.state != PoweringOff
  }

  /** After a pause, outside POWERING_OFF: as long as the controller is paused, a confirmation is
      coming if one was after the stop. */
  lemma {:induction false} PauseHistory(ms: seq<Machine>, ins: seq<Input>, i: nat, k: nat)
    requires IsRun(ms, ins) && i < k <= |ins| && !ms[k].run.panicked && NoStopsBetween(ms, ins, i + 1, k)
    requires NoPowerOffBetween(ms, i, k) && Coming(ms[i + 1].power) > 0
    ensures ms[k].audio.paused ==> Coming(ms[k].power) > 0
  {
    if k == i + 1 {
    } else {
      Handled(ms, ins, k - 1);
      PauseHistory(ms, ins, i, k - 1);
      assert !Stops(ms[k - 1], ins[k - 1]) && ms[k - 1].task.state != PoweringOff;
      StillComing(ms, ins, k);
    }
  }

  lemma StillComing(ms: seq<Machine>, ins: seq<Input>, k: nat)
    requires IsRun(ms, ins) && 0 < k <= |ins| && !ms[k].run.panicked && !Stops(ms[k - 1], ins[k - 1])
    requires ms[k - 1].task.state != PoweringOff && (ms[k - 1].audio.paused ==> Coming(ms[k - 1].power) > 0)
    ensures ms[k].audio.paused ==> Coming(ms[k].power) > 0
  {
    OneBefore(ms, ins, k);
  }

  /** With no later stop, a pause from which POWERING_OFF is not met has ended by the time
      nothing is coming any more, exactly if the topology was not starting when the pause stopped
      it, or an earlier confirmation was still to come. */
  lemma ResumedExactly(ms: seq<Machine>, ins: seq<Input>, i: nat, k: nat)
    requires IsRun(ms, ins) && i < k <= |ins| && !ms[k].run.panicked
    requires Pauses(ms[i], ins[i]) && NoPowerOffBetween(ms, i, k)
    requires NoStopsBetween(ms, ins, i + 1, k) && Coming(ms[k].power) == 0
    ensures !ms[k].audio.paused <==> ms[i].power.topology != Starting || Coming(ms[i].power) > 0
  {
    PausedOut(ms, ins, i);
    if Coming(ms[i + 1].power) > 0 {
      PauseHistory(ms, ins, i, k);
    } else {
      PauseLasts(ms, ins, i + 1, k);
    }
  }

  lemma PausedOut(ms: seq<Machine>, ins: seq<Input>, i: nat)
    requires IsRun(ms, ins) && i < |ins| && Pauses(ms[i], ins[i])
    ensures ms[i + 1].audio.paused && !ms[i + 1].run.panicked
    ensures Coming(ms[i + 1].power) > 0 <==> ms[i].power.topology != Starting || Coming(ms[i].power) > 0
  {
    Handled(ms, ins, i);
    RunInvariant(ms, ins, i);
    RunFits(ms, ins, i);
    PauseStep(ms[i], ins[i]);
    ComingStep(ms[i], ins[i]);
  }

  // ---------------------------------------------------------------- a pause overtaken by power-off

  /** The topology's confirmation is not, or no longer, one to the state machine. */
  predicate NoMachineConfirm(p: Power) {
    Confirm(StateMachine) !in p.inbox && !(p.topology == Stopping && p.requester == StateMachine)
  }

  lemma NoMachineConfirmStep(m: Machine, input: Input)
    requires Invariant(m) && Fits(m) && Enabled(m, input.event) && !Step(m, input.event, input.env).run.panicked
    requires NoMachineConfirm(m.power) && !Stops(m, input)
    ensures NoMachineConfirm(Step(m, input.event, input.env).power)
  {
    var e, env := input.event, input.env;
    if IsNotice(e) {
      NoticePower(m, e, env);
      assert Confirm(StateMachine) !in Rest(m.power).inbox;
    } else if IsPowerEvent(e) {
      PowerEventNoConfirm(m, e, env);
    } else if e != Deliver(PowerOff) {
      OtherComing(m, input);
    }
  }

  lemma PowerEventNoConfirm(m: Machine, e: Event, env: Env)
    requires Enabled(m, e) && IsPowerEvent(e)
    requires NoMachineConfirm(m.power)
    ensures NoMachineConfirm(Handle(m, e, env).power)
  {
  }

  /** The power-off under way is a normal one: its table's confirmation finds POWERING_OFF. */
  ghost predicate PowersOffNormally(ms: seq<Machine>, ins: seq<Input>, j: nat, k: nat)
    requires k <= |ins| <= |ms|
  {
    forall q {:trigger ins[q]} :: j < q < k && ins[q].event == TableStopped ==> ms[q].task.state == PoweringOff
  }

  /** Overtaken: the topology's only confirmation goes to the table, which resumes nothing. */
  lemma {:induction false} OvertakenLasts(ms: seq<Machine>, ins: seq<Input>, j: nat, k: nat)
    requires IsRun(ms, ins) && j < k <= |ins| && !ms[k].run.panicked
    requires TableStops(ms[j], ins[j]) && ms[j].audio.paused && Confirm(StateMachine) !in ms[j].power.inbox
    requires NoStopsBetween(ms, ins, j + 1, k) && PowersOffNormally(ms, ins, j, k)
    ensures ms[k].audio.paused && NoMachineConfirm(ms[k].power)
  {
    OneBefore(ms, ins, k);
    if k - 1 == j {
      assert ms[k].power == SystemPowerOff(ms[j].power);
    } else {
      OvertakenLasts(ms, ins, j, k - 1);
      assert !Stops(ms[k - 1], ins[k - 1]);
      NoMachineConfirmStep(ms[k - 1], ins[k - 1]);
      assert ins[k - 1].event != TopologyStopped;
    }
  }

  /** A confirmation to the state machine is ahead of the power-off. */
  ghost predicate ConfirmAhead(p: Power) {
    exists i, j :: 0 <= i < j < |p.inbox| && p.inbox[i] == Confirm(StateMachine) && IsPowerOffNotice(p.inbox[j])
  }

  lemma AheadOfMore(p: Power, q: Power)
    requires ConfirmAhead(p) && p.inbox <= q.inbox
    ensures ConfirmAhead(q)
  {
    var i, j :| 0 <= i < j < |p.inbox| && p.inbox[i] == Confirm(StateMachine) && IsPowerOffNotice(p.inbox[j]);
    assert q.inbox[i] == p.inbox[i] && q.inbox[j] == p.inbox[j];
  }

  lemma AheadOfRest(p: Power)
    requires ConfirmAhead(p) && p.inbox[0] != Confirm(StateMachine)
    ensures ConfirmAhead(Rest(p))
  {
    var i, j :| 0 <= i < j < |p.inbox| && p.inbox[i] == Confirm(StateMachine) && IsPowerOffNotice(p.inbox[j]);
    assert Rest(p).inbox[i - 1] == p.inbox[i] && Rest(p).inbox[j - 1] == p.inbox[j];
  }

  lemma AheadStep(m: Machine, input: Input)
    requires Invariant(m) && Fits(m) && Enabled(m, input.event) && !Step(m, input.event, input.env).run.panicked
    requires m.audio.paused && ConfirmAhead(m.power) && !Stops(m, input)
    ensures var n := Step(m, input.event, input.env); n.audio.paused ==> ConfirmAhead(n.power)
  {
    var e, env := input.event, input.env;
    if e == TopologyStopped {
      PauseStep(m, input);
      assert PowerOffUnderWay(m.power);
    } else if IsNotice(e) {
      NoticePower(m, e, env);
      AheadOfRest(m.power);
      AheadOfMore(Rest(m.power), Step(m, e, env).power);
    } else {
      InboxGrows(m, input);
      AheadOfMore(m.power, Step(m, e, env).power);
    }
  }

  lemma InboxGrows(m: Machine, input: Input)
    requires Enabled(m, input.event) && !IsNotice(input.event) && !Step(m, input.event, input.env).run.panicked
    requires !Stops(m, input)
    ensures m.power.inbox <= Step(m, input.event, input.env).power.inbox
  {
    var e := input.event;
    if !IsPowerEvent(e) && e != Deliver(PowerOff) {
      OtherComing(m, input);
    }
  }

  lemma {:induction false} AheadHistory(ms: seq<Machine>, ins: seq<Input>, j: nat, k: nat)
    requires IsRun(ms, ins) && j < k <= |ins| && !ms[k].run.panicked
    requires TableStops(ms[j], ins[j]) && ms[j].audio.paused && Confirm(StateMachine) in ms[j].power.inbox
    requires NoStopsBetween(ms, ins, j + 1, k)
    ensures ms[k].audio.paused ==> ConfirmAhead(ms[k].power)
  {
    OneBefore(ms, ins, k);
    if k - 1 == j {
      SentAhead(ms[j], ins[j]);
    } else {
      AheadHistory(ms, ins, j, k - 1);
      assert !Stops(ms[k - 1], ins[k - 1]);
      if ms[k - 1].audio.paused { AheadStep(ms[k - 1], ins[k - 1]); }
    }
  }

  lemma SentAhead(m: Machine, input: Input)
    requires Enabled(m, input.event) && TableStops(m, input) && Confirm(StateMachine) in m.power.inbox
    ensures ConfirmAhead(Step(m, input.event, input.env).power)
  {
    var q := Step(m, input.event, input.env).power;
    var i :| 0 <= i < |m.power.inbox| && m.power.inbox[i] == Confirm(StateMachine);
    assert q.inbox[i] == Confirm(StateMachine) && IsPowerOffNotice(q.inbox[|m.power.inbox|]);
  }

  lemma {:induction false} SentIsComing(inbox: seq<Notice>, n: Notice)
    requires n in inbox && n.Confirm?
    ensures Confirms(inbox) > 0
  {
    if inbox[0] != n { SentIsComing(inbox[1..], n); }
  }

  /** A pause that a power-off meets has ended, by the time nothing is coming any more, exactly
      if its confirmation had been sent before the power-off stopped the topology. */
  lemma OvertakenExactly(ms: seq<Machine>, ins: seq<Input>, j: nat, k: nat)
    requires IsRun(ms, ins) && j < k <= |ins| && !ms[k].run.panicked
    requires TableStops(ms[j], ins[j]) && ms[j].audio.paused
    requires NoStopsBetween(ms, ins, j + 1, k) && PowersOffNormally(ms, ins, j, k) && Coming(ms[k].power) == 0
    ensures !ms[k].audio.paused <==> Confirm(StateMachine) in ms[j].power.inbox
  {
    if Confirm(StateMachine) in ms[j].power.inbox {
      AheadHistory(ms, ins, j, k);
      if ms[k].audio.paused {
        SentIsComing(ms[k].power.inbox, Confirm(StateMachine));
      }
    } else {
      OvertakenLasts(ms, ins, j, k);
    }
  }

  // ---------------------------------------------------------------- a pause in POWERING_OFF

  predicate InPowerOff(s: HeadsetState) {
    s == PoweringOff || s == Limbo
  }

  /** POWERING_OFF is left for LIMBO by a confirmation, and LIMBO not for POWERING_OFF. */
  lemma PowerOffStep(m: Machine, input: Input)
    requires Invariant(m) && Fits(m) && Enabled(m, input.event) && !Step(m, input.event, input.env).run.panicked
    requires InPowerOff(m.task.state) && InPowerOff(Step(m, input.event, input.env).task.state)
    ensures Step(m, input.event, input.env).task.state ==
      if m.task.state == Limbo || IsConfirm(input.event) then Limbo else PoweringOff
  {
    var e, env := input.event, input.env;
    if e == TopologyStopped {
      StopConfirmKeeps(Take(m, e), env);
    } else if e == TableStopped {
      TableConfirmHandled(m.task.state, m.power);
      StopConfirmKeeps(Take(m, e), env);
    } else if e.SystemChange? {
      assert m.power.inbox[0] == Change(e.before, e.after);
      assert IsPowerOffNotice(m.power.inbox[0]) ==> PowerOffUnderWay(m.power);
      ToldInPowerOff(Told(Take(m, e), e.after), e.before, e.after, env);
    } else {
      OtherInPowerOff(m, input);
    }
  }

  lemma ToldInPowerOff(m: Machine, before: SystemState, after: SystemState, env: Env)
    requires InPowerOff(m.task.state) && after != SystemPoweringOff
    requires !HandleSystemChange(m, before, after, env).run.panicked && !m.run.panicked
    requires InPowerOff(HandleSystemChange(m, before, after, env).task.state)
    ensures HandleSystemChange(m, before, after, env).task.state == m.task.state
  {
  }

  lemma OtherInPowerOff(m: Machine, input: Input)
    requires Enabled(m, input.event) && !IsNotice(input.event) && !Step(m, input.event, input.env).run.panicked
    requires InPowerOff(m.task.state) && InPowerOff(Step(m, input.event, input.env).task.state)
    ensures Step(m, input.event, input.env).task.state == m.task.state
  {
  }

  lemma {:induction false} PowerOffHistory(ms: seq<Machine>, ins: seq<Input>, i: nat, k: nat)
    requires IsRun(ms, ins) && i <= k <= |ins| && !ms[k].run.panicked && NoStopsBetween(ms, ins, i, k)
    requires ms[i].task.state == PoweringOff && ms[i].audio.paused
    requires forall q {:trigger ms[q]} :: i <= q <= k ==> InPowerOff(ms[q].task.state)
    ensures ms[k].task.state == PoweringOff ==> ms[k].audio.paused && Coming(ms[k].power) == Coming(ms[i].power)
    ensures ms[k].task.state == Limbo ==>
      if ms[k].audio.paused then Coming(ms[k].power) == Coming(ms[i].power) - 1 else Coming(ms[i].power) >= 2
  {
    if k == i {
    } else {
      OneBefore(ms, ins, k);
      PowerOffHistory(ms, ins, i, k - 1);
      assert !Stops(ms[k - 1], ins[k - 1]) && InPowerOff(ms[k].task.state) && InPowerOff(ms[k - 1].task.state);
      PowerOffStep(ms[k - 1], ins[k - 1]);
    }
  }

  /** A pause carried into POWERING_OFF has ended in LIMBO, by the time nothing is coming any
      more, exactly if two confirmations were coming: the first one resumes nothing. */
  lemma PoweringOffResumesExactly(ms: seq<Machine>, ins: seq<Input>, i: nat, k: nat)
    requires IsRun(ms, ins) && i <= k <= |ins| && !ms[k].run.panicked && NoStopsBetween(ms, ins, i, k)
    requires ms[i].task.state == PoweringOff && ms[i].audio.paused && Coming(ms[k].power) == 0
    requires forall q {:trigger ms[q]} :: i <= q <= k ==> InPowerOff(ms[q].task.state)
    ensures !ms[k].audio.paused <==> Coming(ms[i].power) >= 2
  {
    PowerOffHistory(ms, ins, i, k);
    assert InPowerOff(ms[k].task.state);
  }
}
