/** The delete-handsets protocol over whole runs: when pairings are erased, that the disconnect
    lock is never stuck, and when a request is cut short by the timeout of an earlier one. */
module HeadsetDelete {
  import opened HeadsetModel
  import opened HeadsetInvariant
  import opened HeadsetRuns

  // ---------------------------------------------------------------- erasing

  /** A delete-handsets request is accepted in this step. */
  predicate AcceptsDelete(m: Machine, input: Input) {
    input.event == Deliver(DeleteHandsets) && IsActiveState(m.task.state)
  }

  /** In this step the protocol looked for a connected handset and found none. */
  predicate SeesNoHandset(m: Machine, input: Input) {
    || (AcceptsDelete(m, input) && !DisconnectLink(input.env))
    || (input.event == HandsetDisconnected && m.task.lock && !input.env.anyBredr)
  }

  /** The completions queued after a step: no message but these three touches them. */
  lemma CompletesStep(m: Machine, input: Input)
    requires Enabled(m, input.event)
    ensures Step(m, input.event, input.env).queue.completes ==
      (if AcceptsDelete(m, input) then m.queue.completes + [m.run.clock]
       else if input.event == LinkComplete then m.queue.completes[1..]
       else if input.event == LinkTimeout && m.task.lock then []
       else m.queue.completes)
  {
  }

  /** What counts as an observation: no other message records one. */
  lemma ObservationStep(m: Machine, input: Input)
    requires Enabled(m, input.event)
    ensures Step(m, input.event, input.env).handsets.lastClear ==
      if SeesNoHandset(m, input) then m.run.clock else m.handsets.lastClear
  {
  }

  /** Only a delivered completion erases. */
  lemma ErasureStep(m: Machine, input: Input)
    requires Enabled(m, input.event)
    ensures Step(m, input.event, input.env).handsets.erased ==
      m.handsets.erased + if input.event == LinkComplete then 1 else 0
  {
  }

  /** Every queued completion is the clock of an accepted request, and lastClear is the clock
      of a step that saw no handset. */
  lemma {:induction false} ProtocolHistory(ms: seq<Machine>, ins: seq<Input>, k: nat)
    requires IsRun(ms, ins) && k <= |ins| && !ms[k].run.panicked
    ensures forall c :: c in ms[k].queue.completes ==> c < k && AcceptsDelete(ms[c], ins[c])
    ensures -1 <= ms[k].handsets.lastClear < k
    ensures ms[k].handsets.lastClear >= 0 ==>
      SeesNoHandset(ms[ms[k].handsets.lastClear], ins[ms[k].handsets.lastClear])
  {
    if k == 0 {
    } else {
      Handled(ms, ins, k - 1);
      ProtocolHistory(ms, ins, k - 1);
      RunInvariant(ms, ins, k - 1);
      CompletesStep(ms[k - 1], ins[k - 1]);
      ObservationStep(ms[k - 1], ins[k - 1]);
    }
  }

  /** Pairings are erased only on behalf of an accepted request r, and only after some step at
      or after r that looked for a connected handset and found none. */
  lemma ErasureJustified(ms: seq<Machine>, ins: seq<Input>, i: nat)
    requires IsRun(ms, ins) && i < |ins|
    requires ms[i + 1].handsets.erased > ms[i].handsets.erased
    ensures ms[i].queue.completes != []
    ensures
      var r := ms[i].queue.completes[0];
      r < i && AcceptsDelete(ms[r], ins[r]) && exists j :: r <= j < i && SeesNoHandset(ms[j], ins[j])
  {
    Handled(ms, ins, i);
    RunInvariant(ms, ins, i);
    ProtocolHistory(ms, ins, i);
    ErasureStep(ms[i], ins[i]);
    assert ms[i].queue.completes[0] <= ms[i].handsets.lastClear;
  }

  /** A step keeps the requests to be answered later than c, if it does not take c's own. */
  lemma LaterStep(m: Machine, input: Input, c: nat)
    requires Enabled(m, input.event) && c < m.run.clock
    requires forall d :: d in m.queue.completes ==> d > c
    ensures forall d :: d in Step(m, input.event, input.env).queue.completes ==> d > c
  {
    CompletesStep(m, input);
  }

  lemma AnsweredStep(m: Machine, env: Env)
    requires Invariant(m) && Enabled(m, LinkComplete)
    ensures m.queue.completes[0] < m.run.clock
    ensures forall d :: d in Step(m, LinkComplete, env).queue.completes ==> d > m.queue.completes[0]
  {
    CompletesStep(m, Input(LinkComplete, env));
  }

  /** After an erasure for request r, only later requests are still to be answered. */
  lemma {:induction false} LaterRequestsRemain(ms: seq<Machine>, ins: seq<Input>, i: nat, k: nat)
    requires IsRun(ms, ins) && i < k <= |ins| && ins[i].event == LinkComplete && !ms[k].run.panicked
    ensures forall c :: c in ms[k].queue.completes ==> c > ms[i].queue.completes[0]
  {
    Handled(ms, ins, i);
    RunInvariant(ms, ins, i);
    AnsweredStep(ms[i], ins[i].env);
    if k - 1 > i {
      Handled(ms, ins, k - 1);
      LaterRequestsRemain(ms, ins, i, k - 1);
      RunInvariant(ms, ins, k - 1);
      LaterStep(ms[k - 1], ins[k - 1], ms[i].queue.completes[0]);
    }
  }

  /** One request erases at most once: two erasures answer two different requests, in order. */
  lemma ErasuresAnswerDistinctRequests(ms: seq<Machine>, ins: seq<Input>, i: nat, k: nat)
    requires IsRun(ms, ins) && i < k < |ins|
    requires ins[i].event == LinkComplete && ins[k].event == LinkComplete
    ensures ms[i].queue.completes[0] < ms[k].queue.completes[0]
  {
    LaterRequestsRemain(ms, ins, i, k);
    assert ms[k].queue.completes[0] in ms[k].queue.completes;
  }

  /** The disconnect lock is never stuck: while it is set a completion is held back, and a
      timeout is pending that drops the completion and clears the lock without erasing. */
  lemma LockNeverStuck(ms: seq<Machine>, ins: seq<Input>, k: nat, env: Env)
    requires IsRun(ms, ins) && k <= |ins| && !ms[k].run.panicked
    requires ms[k].task.lock && ms[k].task.state != FactoryReset
    ensures ms[k].queue.completes != [] && !Enabled(ms[k], LinkComplete) && Enabled(ms[k], LinkTimeout)
    ensures
      var n := Step(ms[k], LinkTimeout, env);
      !n.task.lock && n.queue.completes == [] && n.handsets.erased == ms[k].handsets.erased
  {
    RunInvariant(ms, ins, k);
  }

  // ---------------------------------------------------------------- cut short

  /** Handling the message resets to factory settings, which cancels a link timer. */
  predicate ResetsToFactory(m: Machine, input: Input) {
    input.event == Deliver(ResetToFactory) && Code(m.task.state) > Code(PoweringOn)
  }

  /** The link timers after a step: posted by accepted requests, cancelled first in first out. */
  lemma LinkTimersStep(m: Machine, input: Input)
    requires Enabled(m, input.event) && !Step(m, input.event, input.env).run.panicked
    ensures Step(m, input.event, input.env).queue.linkTimers ==
      (if AcceptsDelete(m, input) then m.queue.linkTimers + [m.run.clock]
       else if input.event == LinkComplete || input.event == LinkTimeout || ResetsToFactory(m, input)
       then (if m.queue.linkTimers == [] then [] else m.queue.linkTimers[1..])
       else m.queue.linkTimers)
  {
  }

  /** In step i a timeout posted before request r drops the completion of r. */
  ghost predicate CutShort(ms: seq<Machine>, ins: seq<Input>, r: nat, i: nat)
    requires |ms| == |ins| + 1
  {
    && r < i < |ins|
    && ins[i].event == LinkTimeout && ms[i].task.lock && r in ms[i].queue.completes
    && ms[i].queue.linkTimers != [] && ms[i].queue.linkTimers[0] < r
  }

  lemma NoOlderTimer(m: Machine, input: Input, r: nat)
    requires Enabled(m, input.event) && !Step(m, input.event, input.env).run.panicked && r <= m.run.clock
    requires forall i :: 0 <= i < |m.queue.linkTimers| ==> m.queue.linkTimers[i] >= r
    ensures
      var timers := Step(m, input.event, input.env).queue.linkTimers;
      forall i :: 0 <= i < |timers| ==> timers[i] >= r
  {
    LinkTimersStep(m, input);
  }

  /** With no link timer pending when request r is accepted, only timers of its own or of later
      requests are pending ever after. */
  lemma {:induction false} OlderTimersNeverReturn(ms: seq<Machine>, ins: seq<Input>, r: nat, k: nat)
    requires IsRun(ms, ins) && r < k <= |ins| && !ms[k].run.panicked && ms[r].queue.linkTimers == []
    ensures forall i :: 0 <= i < |ms[k].queue.linkTimers| ==> ms[k].queue.linkTimers[i] >= r
  {
    Handled(ms, ins, k - 1);
    RunInvariant(ms, ins, k - 1);
    if k - 1 > r {
      OlderTimersNeverReturn(ms, ins, r, k - 1);
    }
    NoOlderTimer(ms[k - 1], ins[k - 1], r);
  }

  ghost predicate Extends(ms: seq<Machine>, ins: seq<Input>, ms': seq<Machine>, ins': seq<Input>) {
    IsRun(ms', ins') && ms <= ms' && ins <= ins'
  }

  lemma OneMoreStep(ms: seq<Machine>, ins: seq<Input>, input: Input) returns (ms': seq<Machine>, ins': seq<Input>)
    requires IsRun(ms, ins) && Enabled(ms[|ins|], input.event)
    ensures Extends(ms, ins, ms', ins')
    ensures ms' == ms + [Step(ms[|ins|], input.event, input.env)] && ins' == ins + [input]
  {
    ms', ins' := ms + [Step(ms[|ins|], input.event, input.env)], ins + [input];
    forall i {:trigger ins'[i]} | 0 <= i < |ins'|
      ensures Enabled(ms'[i], ins'[i].event) && ms'[i + 1] == Step(ms'[i], ins'[i].event, ins'[i].env)
    {
      if i < |ins| { Handled(ms, ins, i); }
    }
  }

  const CONNECTED := Env(
    false, false, false, true, true, true, true, true, false, false, false, false, false, false)

  lemma Asked(m: Machine)
    requires !m.run.panicked
    ensures
      var n := Step(m, UiRequest(DeleteHandsets), CONNECTED);
      && Enabled(n, Deliver(DeleteHandsets)) && n.task == m.task
      && n.queue.completes == m.queue.completes && n.queue.linkTimers == m.queue.linkTimers
  {
  }

  lemma LockedAgain(m: Machine)
    requires Enabled(m, Deliver(DeleteHandsets)) && IsActiveState(m.task.state)
    ensures
      var n := Step(m, Deliver(DeleteHandsets), CONNECTED);
      && Enabled(n, LinkTimeout) && n.task.lock
      && m.queue.completes <= n.queue.completes && m.queue.linkTimers <= n.queue.linkTimers
  {
  }

  lemma RequestAccepted(ms: seq<Machine>, ins: seq<Input>, r: nat)
    requires IsRun(ms, ins) && r < |ins| && AcceptsDelete(ms[r], ins[r]) && ms[r].queue.linkTimers != []
    ensures var n := ms[r + 1];
      && r in n.queue.completes && n.queue.linkTimers != [] && n.queue.linkTimers[0] < r
      && IsActiveState(n.task.state) && !n.run.panicked
  {
    Handled(ms, ins, r);
    RunInvariant(ms, ins, r);
    LinkTimersStep(ms[r], ins[r]);
    CompletesStep(ms[r], ins[r]);
  }

  /** The timeout pending when request r was accepted fires once a second request has set the
      lock again. */
  lemma OldTimeoutFires(ms: seq<Machine>, ins: seq<Input>, r: nat) returns (ms': seq<Machine>, ins': seq<Input>)
    requires IsRun(ms, ins) && |ins| == r + 1
    requires AcceptsDelete(ms[r], ins[r]) && ms[r].queue.linkTimers != []
    ensures Extends(ms, ins, ms', ins') && CutShort(ms', ins', r, r + 3)
  {
    RequestAccepted(ms, ins, r);
    Asked(ms[r + 1]);
    ms', ins' := OneMoreStep(ms, ins, Input(UiRequest(DeleteHandsets), CONNECTED));
    LockedAgain(ms'[r + 2]);
    ms', ins' := OneMoreStep(ms', ins', Input(Deliver(DeleteHandsets), CONNECTED));
    ms', ins' := OneMoreStep(ms', ins', Input(LinkTimeout, CONNECTED));
  }

  ghost predicate CanBeCutShort(ms: seq<Machine>, ins: seq<Input>, r: nat) {
    exists ms', ins', i: nat :: Extends(ms, ins, ms', ins') && CutShort(ms', ins', r, i)
  }

  /** An accepted request can be cut short by the timeout of an older one exactly if a link
      timeout is already pending when it is accepted. */
  lemma CutShortExactly(ms: seq<Machine>, ins: seq<Input>, r: nat)
    requires IsRun(ms, ins) && |ins| == r + 1 && AcceptsDelete(ms[r], ins[r])
    ensures CanBeCutShort(ms, ins, r) <==> ms[r].queue.linkTimers != []
  {
    if ms[r].queue.linkTimers != [] {
      var ms', ins' := OldTimeoutFires(ms, ins, r);
      assert CutShort(ms', ins', r, r + 3);
    } else {
      forall ms', ins', i: nat | Extends(ms, ins, ms', ins') && CutShort(ms', ins', r, i)
        ensures false
      {
        Handled(ms', ins', i);
        OlderTimersNeverReturn(ms', ins', r, i);
      }
    }
  }
}
