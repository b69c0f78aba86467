/** The transfer list of the serial RAM driver: outstanding transfers in a singly linked list,
    newest first, each unlinked when the bit-serial block reports it done. */
module SpiSram {
  import opened Options
  import opened Picking

  type byte = x: int | 0 <= x < 256

  /** A transfer as it was started; id is its place in the order of starting, callback the
      context its callback gets, None for a transfer without a callback. */
  datatype Transfer = Transfer(id: nat, handle: int, callback: Option<int>)

  /** One call of a callback. */
  datatype Call = Call(id: nat, context: int, ok: bool)

  /** A request to read or write, and the answer of the bit-serial block: a handle or refusal. */
  datatype Start = Start(write: bool, offset: nat, payload: seq<byte>, callback: Option<int>, answer: Option<int>)

  /** nested is what the callback starts, should a callback run. */
  datatype Event =
    | Begin(start: Start)
    | TransferDone(handle: int, ok: bool, nested: seq<Start>)
    | OtherMessage

  /** log lists every transfer ever started. */
  datatype Sram = Sram(
    xfers: seq<Transfer>, count: int, countMax: int,
    log: seq<Transfer>, completed: nat, calls: seq<Call>)

  const EMPTY := Sram([], 0, 0, [], 0, [])

  // ---------------------------------------------------------------- what one message does

  /** A refused transfer leaves no trace; only a write updates the high-water mark. */
  function Started(s: Sram, start: Start): Sram {
    match start.answer
    case None => s
    case Some(handle) =>
      var t := Transfer(|s.log|, handle, start.callback);
      s.(xfers := [t] + s.xfers,
         count := s.count + 1,
         countMax := if start.write && s.count + 1 > s.countMax then s.count + 1 else s.countMax,
         log := s.log + [t])
  }

  function StartedAll(s: Sram, starts: seq<Start>): Sram
    decreases |starts|
  {
    if starts == [] then s else StartedAll(Started(s, starts[0]), starts[1..])
  }

  /** Place of the first transfer with the handle, or the length. */
  function Find(xfers: seq<Transfer>, handle: int): (k: nat)
    ensures k <= |xfers|
    ensures k < |xfers| ==> xfers[k].handle == handle
    ensures forall i :: 0 <= i < k ==> xfers[i].handle != handle
  {
    if xfers == [] || xfers[0].handle == handle then 0 else 1 + Find(xfers[1..], handle)
  }

  function Unlink<T>(xs: seq<T>, k: nat): (ys: seq<T>)
    requires k < |xs|
    ensures |ys| == |xs| - 1
    ensures forall i :: 0 <= i < k ==> ys[i] == xs[i]
    ensures forall i :: k <= i < |ys| ==> ys[i] == xs[i + 1]
  {
    xs[..k] + xs[k + 1..]
  }

  /** The transfer leaves the list before its callback runs. */
  function Unlinked(s: Sram, k: nat): Sram
    requires k < |s.xfers|
  {
    s.(xfers := Unlink(s.xfers, k), count := s.count - 1, completed := s.completed + 1)
  }

  function Notified(s: Sram, t: Transfer, ok: bool): Sram {
    if t.callback == None then s else s.(calls := s.calls + [Call(t.id, t.callback.value, ok)])
  }

  function Done(s: Sram, handle: int, ok: bool, nested: seq<Start>): Sram {
    var k := Find(s.xfers, handle);
    if k == |s.xfers| then s
    else
      var notified := Notified(Unlinked(s, k), s.xfers[k], ok);
      if s.xfers[k].callback == None then notified else StartedAll(notified, nested)
  }

  function Step(s: Sram, e: Event): Sram {
    match e
    case Begin(start) => Started(s, start)
    case TransferDone(handle, ok, nested) => Done(s, handle, ok, nested)
    case OtherMessage => s
  }

  // ---------------------------------------------------------------- what is asked of handles

  ghost predicate Outstanding(s: Sram, handle: int) {
    exists i :: 0 <= i < |s.xfers| && s.xfers[i].handle == handle
  }

  /** The bit-serial block hands out no handle that is still outstanding. */
  ghost predicate FreshHandle(s: Sram, start: Start) {
    start.answer.Some? ==> !Outstanding(s, start.answer.value)
  }

  ghost predicate FreshHandles(s: Sram, starts: seq<Start>)
    decreases |starts|
  {
    starts != [] ==> FreshHandle(s, starts[0]) && FreshHandles(Started(s, starts[0]), starts[1..])
  }

  ghost predicate Fresh(s: Sram, e: Event) {
    match e
    case Begin(start) => FreshHandle(s, start)
    case TransferDone(handle, ok, nested) =>
      var k := Find(s.xfers, handle);
      k < |s.xfers| && s.xfers[k].callback.Some? ==>
        FreshHandles(Notified(Unlinked(s, k), s.xfers[k], ok), nested)
    case OtherMessage => true
  }

  // ---------------------------------------------------------------- invariant

  ghost predicate Listed(s: Sram, id: nat) {
    exists i :: 0 <= i < |s.xfers| && s.xfers[i].id == id
  }

  ghost predicate Called(s: Sram, id: nat) {
    exists i :: 0 <= i < |s.calls| && s.calls[i].id == id
  }

  /** Counters: the list length, and every started transfer completed or outstanding. */
  ghost predicate CountsAgree(s: Sram) {
    && s.count == |s.xfers|
    && |s.log| == s.completed + |s.xfers|
  }

  /** The list: distinct handles, newest first, each transfer as it was started. */
  ghost predicate ListFits(s: Sram) {
    && (forall i, j :: 0 <= i < j < |s.xfers| ==> s.xfers[i].handle != s.xfers[j].handle)
    && (forall i, j :: 0 <= i < j < |s.xfers| ==> s.xfers[i].id > s.xfers[j].id)
    && (forall i :: 0 <= i < |s.xfers| ==> s.xfers[i].id < |s.log| && s.log[s.xfers[i].id] == s.xfers[i])
    && (forall id :: 0 <= id < |s.log| ==> s.log[id].id == id)
  }

  /** The calls: at most one a transfer, with its own context, and due exactly when the transfer
      has a callback and is no longer outstanding. */
  ghost predicate CallsFit(s: Sram) {
    && (forall i, j :: 0 <= i < j < |s.calls| ==> s.calls[i].id != s.calls[j].id)
    && (forall i :: 0 <= i < |s.calls| ==>
          s.calls[i].id < |s.log| && s.log[s.calls[i].id].callback == Some(s.calls[i].context))
    && (forall id :: 0 <= id < |s.log| ==> (Called(s, id) <==> s.log[id].callback.Some? && !Listed(s, id)))
  }

  ghost predicate Invariant(s: Sram) {
    CountsAgree(s) && ListFits(s) && CallsFit(s)
  }

  lemma StartKeeps(s: Sram, start: Start)
    requires Invariant(s) && FreshHandle(s, start)
    ensures Invariant(Started(s, start))
  {
    if start.answer.Some? {
      var n := Started(s, start);
      assert forall i :: 0 < i < |n.xfers| ==> n.xfers[i] == s.xfers[i - 1];
      forall id | 0 <= id < |n.log|
        ensures Called(n, id) <==> n.log[id].callback.Some? && !Listed(n, id)
      {
        assert Called(n, id) == Called(s, id);
        if id == |s.log| {
          assert n.xfers[0].id == id;
        } else {
          assert Listed(n, id) == Listed(s, id) by {
            if Listed(s, id) {
              var i :| 0 <= i < |s.xfers| && s.xfers[i].id == id;
              assert n.xfers[i + 1].id == id;
            }
          }
        }
      }
    }
  }

  lemma {:induction false} StartAllKeeps(s: Sram, starts: seq<Start>)
    requires Invariant(s) && FreshHandles(s, starts)
    ensures Invariant(StartedAll(s, starts))
    decreases |starts|
  {
    if starts == [] {
    } else {
      StartKeeps(s, starts[0]);
      StartAllKeeps(Started(s, starts[0]), starts[1..]);
    }
  }

  /** After the unlinking alone, nothing but the missing call is wrong. */
  lemma UnlinkListing(s: Sram, k: nat, id: nat)
    requires ListFits(s) && k < |s.xfers|
    ensures Listed(Unlinked(s, k), id) <==> Listed(s, id) && id != s.xfers[k].id
  {
    var n := Unlinked(s, k);
    assert forall i :: 0 <= i < |n.xfers| ==> n.xfers[i] == s.xfers[if i < k then i else i + 1];
    if Listed(s, id) && id != s.xfers[k].id {
      var i :| 0 <= i < |s.xfers| && s.xfers[i].id == id;
      assert n.xfers[if i < k then i else i - 1] == s.xfers[i];
    }
  }

  /** With the call recorded, calls and finished transfers agree again. */
  lemma NotifyCalls(s: Sram, k: nat, ok: bool, id: nat)
    requires Invariant(s) && k < |s.xfers| && id < |s.log|
    ensures
      var n := Notified(Unlinked(s, k), s.xfers[k], ok);
      Called(n, id) <==> n.log[id].callback.Some? && !Listed(n, id)
  {
    var t, left := s.xfers[k], Unlinked(s, k);
    var n := Notified(left, t, ok);
    UnlinkListing(s, k, id);
    assert Listed(n, id) == Listed(left, id);
    assert Listed(s, t.id) && s.log[t.id] == t;
    if t.callback.Some? {
      assert n.calls[|s.calls|].id == t.id;
      if Called(s, id) {
        var i :| 0 <= i < |s.calls| && s.calls[i].id == id;
        assert n.calls[i].id == id;
      }
      assert Called(n, id) <==> Called(s, id) || id == t.id;
    }
  }

  lemma NotifyKeeps(s: Sram, k: nat, ok: bool)
    requires Invariant(s) && k < |s.xfers|
    ensures Invariant(Notified(Unlinked(s, k), s.xfers[k], ok))
  {
    var t := s.xfers[k];
    var n := Notified(Unlinked(s, k), t, ok);
    assert ListFits(n);
    forall id | 0 <= id < |n.log|
      ensures Called(n, id) <==> n.log[id].callback.Some? && !Listed(n, id)
    {
      NotifyCalls(s, k, ok, id);
    }
    assert Listed(s, t.id) && s.log[t.id] == t;
    forall i, j | 0 <= i < j < |n.calls|
      ensures n.calls[i].id != n.calls[j].id
    {
      if j == |s.calls| { assert Called(s, s.calls[i].id); }
    }
  }

  lemma StepKeeps(s: Sram, e: Event)
    requires Invariant(s) && Fresh(s, e)
    ensures Invariant(Step(s, e))
  {
    match e
    case Begin(start) => StartKeeps(s, start);
    case TransferDone(handle, ok, nested) =>
      var k := Find(s.xfers, handle);
      if k < |s.xfers| {
        NotifyKeeps(s, k, ok);
        if s.xfers[k].callback.Some? {
          StartAllKeeps(Notified(Unlinked(s, k), s.xfers[k], ok), nested);
        }
      }
    case OtherMessage =>
  }

  // ---------------------------------------------------------------- runs

  function Run(es: seq<Event>): Sram {
    if es == [] then EMPTY else Step(Run(es[..|es| - 1]), es[|es| - 1])
  }

  ghost predicate FreshRun(es: seq<Event>) {
    es != [] ==> FreshRun(es[..|es| - 1]) && Fresh(Run(es[..|es| - 1]), es[|es| - 1])
  }

  /** For every order of starts and completions, with callbacks starting what they like: the
      counter is the list length, started is completed plus outstanding, and a callback has run
      exactly for the finished transfers that have one, once each, with their own context. */
  lemma {:induction false} RunKeeps(es: seq<Event>)
    requires FreshRun(es)
    ensures Invariant(Run(es))
  {
    if es == [] {
    } else {
      RunKeeps(es[..|es| - 1]);
      StepKeeps(Run(es[..|es| - 1]), es[|es| - 1]);
    }
  }

  predicate EndsWith<T(==)>(xs: seq<T>, tail: seq<T>) {
    |tail| <= |xs| && xs[|xs| - |tail|..] == tail
  }

  lemma {:induction false} StartsOnlyPrepend(s: Sram, starts: seq<Start>)
    ensures EndsWith(StartedAll(s, starts).xfers, s.xfers) && s.log <= StartedAll(s, starts).log
    ensures StartedAll(s, starts).calls == s.calls
    decreases |starts|
  {
    if starts == [] {
    } else {
      var next := Started(s, starts[0]);
      assert EndsWith(next.xfers, s.xfers) && s.log <= next.log;
      StartsOnlyPrepend(next, starts[1..]);
      EndsWithTransitive(StartedAll(s, starts).xfers, next.xfers, s.xfers);
    }
  }

  lemma EndsWithTransitive<T>(a: seq<T>, b: seq<T>, c: seq<T>)
    requires EndsWith(a, b) && EndsWith(b, c)
    ensures EndsWith(a, c)
  {
    var i, j := |a| - |b|, |b| - |c|;
    assert a[i..][j..] == a[i + j..];
  }

  /** A completion with a known handle unlinks that transfer only and keeps the order of the
      rest, behind whatever the callback starts, and calls that callback only, with its context
      and the reported result; an unknown handle changes nothing. */
  lemma CompletionUnlinksItsOwn(s: Sram, handle: int, ok: bool, nested: seq<Start>)
    requires Invariant(s)
    ensures !Outstanding(s, handle) ==> Done(s, handle, ok, nested) == s
    ensures Outstanding(s, handle) ==>
      exists k ::
        0 <= k < |s.xfers| && s.xfers[k].handle == handle
        && EndsWith(Done(s, handle, ok, nested).xfers, s.xfers[..k] + s.xfers[k + 1..])
        && Done(s, handle, ok, nested).calls == s.calls +
             (if s.xfers[k].callback.Some? then [Call(s.xfers[k].id, s.xfers[k].callback.value, ok)] else [])
    ensures s.log <= Done(s, handle, ok, nested).log
  {
    var k := Find(s.xfers, handle);
    if k < |s.xfers| {
      assert Outstanding(s, handle);
      var notified := Notified(Unlinked(s, k), s.xfers[k], ok);
      StartsOnlyPrepend(notified, nested);
    }
  }

  /** Each call over a run reports the result that the block gave for that transfer's handle. */
  lemma {:induction false} CallsReportTheirResult(es: seq<Event>, c: Call)
    requires FreshRun(es) && c in Run(es).calls
    ensures c.id < |Run(es).log|
    ensures exists i ::
      0 <= i < |es| && es[i].TransferDone? && es[i].handle == Run(es).log[c.id].handle && es[i].ok == c.ok
  {
    var before, last := es[..|es| - 1], es[|es| - 1];
    var s := Run(before);
    RunKeeps(before);
    if c in s.calls {
      CallsReportTheirResult(before, c);
      var i :| 0 <= i < |before| && before[i].TransferDone?
        && before[i].handle == s.log[c.id].handle && before[i].ok == c.ok;
      assert es[i] == before[i];
      if last.TransferDone? {
        CompletionUnlinksItsOwn(s, last.handle, last.ok, last.nested);
      }
    } else {
      CompletionUnlinksItsOwn(s, last.handle, last.ok, last.nested);
      assert es[|es| - 1].handle == s.log[c.id].handle;
    }
  }

  // ---------------------------------------------------------------- what is started

  /** One transfer for each accepted start, in order, with its handle and callback: logged at the
      end, and in the list newest first, in front. */
  ghost predicate Extends(s: Sram, n: Sram, accepted: seq<Start>) {
    && |n.log| == |s.log| + |accepted| && s.log <= n.log
    && (forall i :: 0 <= i < |accepted| ==>
          accepted[i].answer.Some?
          && n.log[|s.log| + i] == Transfer(|s.log| + i, accepted[i].answer.value, accepted[i].callback))
    && |n.xfers| == |s.xfers| + |accepted| && n.xfers[|accepted|..] == s.xfers
    && (forall i :: 0 <= i < |accepted| ==> n.xfers[i] == n.log[|n.log| - 1 - i])
    && n.count == s.count + |accepted| && n.completed == s.completed && n.calls == s.calls
  }

  /** Exactly the starts that the block answers with a handle are accepted. */
  predicate PicksAccepted(starts: seq<Start>, at: seq<nat>, accepted: seq<Start>) {
    && Picks(starts, at, accepted)
    && forall j: nat :: j < |starts| ==> (j in at <==> starts[j].answer.Some?)
  }

  lemma StartedExtends(s: Sram, start: Start)
    ensures Extends(s, Started(s, start), if start.answer.Some? then [start] else [])
  {
  }

  lemma ExtendsFurther(s: Sram, m: Sram, n: Sram, first: seq<Start>, rest: seq<Start>)
    requires Extends(s, m, first) && Extends(m, n, rest)
    ensures Extends(s, n, first + rest)
  {
    forall i | 0 <= i < |first + rest|
      ensures (first + rest)[i].answer.Some?
      ensures n.log[|s.log| + i] ==
        Transfer(|s.log| + i, (first + rest)[i].answer.value, (first + rest)[i].callback)
      ensures n.xfers[i] == n.log[|n.log| - 1 - i]
    {
      if i < |first| { assert n.log[|s.log| + i] == m.log[|s.log| + i]; }
      if i >= |rest| {
        assert n.xfers[i] == n.xfers[|rest|..][i - |rest|] == m.xfers[i - |rest|];
        assert n.log[|n.log| - 1 - i] == m.log[|m.log| - 1 - (i - |rest|)];
      }
    }
    assert n.xfers[|first + rest|..] == n.xfers[|rest|..][|first|..];
  }

  /** A callback's starts are made one after another, each that is accepted and no other. */
  lemma {:induction false} StartsInOrder(s: Sram, starts: seq<Start>) returns (at: seq<nat>, accepted: seq<Start>)
    ensures PicksAccepted(starts, at, accepted) && Extends(s, StartedAll(s, starts), accepted)
    decreases |starts|
  {
    if starts == [] {
      at, accepted := [], [];
    } else {
      var ok := starts[0].answer.Some?;
      var next := Started(s, starts[0]);
      var at', rest := StartsInOrder(next, starts[1..]);
      at := PickHead(starts, at', rest, ok);
      var first := if ok then [starts[0]] else [];
      accepted := first + rest;
      StartedExtends(s, starts[0]);
      ExtendsFurther(s, next, StartedAll(s, starts), first, rest);
      forall j: nat | 0 < j < |starts|
        ensures j in at <==> starts[j].answer.Some?
      {
        assert starts[j] == starts[1..][j - 1] && ((j - 1) + 1 in at <==> j - 1 in at');
      }
    }
  }

  /** A completion finishes one transfer, and starts what its callback starts, if it has one. */
  lemma CompletionStartsInOrder(s: Sram, handle: int, ok: bool, nested: seq<Start>)
    returns (k: nat, at: seq<nat>, accepted: seq<Start>)
    requires Outstanding(s, handle)
    ensures k < |s.xfers| && s.xfers[k].handle == handle && forall i :: 0 <= i < k ==> s.xfers[i].handle != handle
    ensures PicksAccepted(if s.xfers[k].callback.Some? then nested else [], at, accepted)
    ensures
      var n := Done(s, handle, ok, nested);
      && |n.log| == |s.log| + |accepted| && s.log <= n.log
      && (forall i :: 0 <= i < |accepted| ==>
            accepted[i].answer.Some?
            && n.log[|s.log| + i] == Transfer(|s.log| + i, accepted[i].answer.value, accepted[i].callback))
      && n.completed == s.completed + 1 && n.count == s.count - 1 + |accepted|
  {
    k := Find(s.xfers, handle);
    var notified := Notified(Unlinked(s, k), s.xfers[k], ok);
    if s.xfers[k].callback.Some? {
      at, accepted := StartsInOrder(notified, nested);
    } else {
      at, accepted := [], [];
    }
  }

  // ---------------------------------------------------------------- high-water mark

  /** The list lengths right after each start that was accepted; of writes only, or of reads too. */
  function StartCounts(s: Sram, starts: seq<Start>, both: bool): seq<int>
    decreases |starts|
  {
    if starts == [] then []
    else
      (if starts[0].answer.Some? && (starts[0].write || both) then [s.count + 1] else [])
      + StartCounts(Started(s, starts[0]), starts[1..], both)
  }

  function StepCounts(s: Sram, e: Event, both: bool): seq<int> {
    match e
    case Begin(start) => StartCounts(s, [start], both)
    case TransferDone(handle, ok, nested) =>
      var k := Find(s.xfers, handle);
      if k == |s.xfers| || s.xfers[k].callback == None then []
      else StartCounts(Notified(Unlinked(s, k), s.xfers[k], ok), nested, both)
    case OtherMessage => []
  }

  function Counts(es: seq<Event>, both: bool): seq<int> {
    if es == [] then []
    else Counts(es[..|es| - 1], both) + StepCounts(Run(es[..|es| - 1]), es[|es| - 1], both)
  }

  /** The greatest of the counts, 0 if there are none. */
  ghost predicate IsHighest(h: int, counts: seq<int>) {
    0 <= h && (h == 0 || h in counts) && Within(counts, h)
  }

  ghost predicate Within(counts: seq<int>, h: int) {
    forall i :: 0 <= i < |counts| ==> counts[i] <= h
  }

  lemma WithinParts(counts: seq<int>, more: seq<int>, h: int)
    requires Within(counts + more, h)
    ensures Within(counts, h) && Within(more, h)
  {
    forall i | 0 <= i < |counts|
      ensures counts[i] <= h
    {
      assert counts[i] == (counts + more)[i];
    }
    forall i | 0 <= i < |more|
      ensures more[i] <= h
    {
      assert more[i] == (counts + more)[|counts| + i];
    }
  }

  lemma {:induction false} StartsMark(s: Sram, starts: seq<Start>, counts: seq<int>)
    requires IsHighest(s.countMax, counts)
    ensures IsHighest(StartedAll(s, starts).countMax, counts + StartCounts(s, starts, false))
    decreases |starts|
  {
    if starts == [] {
      assert counts + [] == counts;
    } else {
      var next := Started(s, starts[0]);
      var more := if starts[0].answer.Some? && starts[0].write then counts + [s.count + 1] else counts;
      assert IsHighest(next.countMax, more) by {
        if more != counts { assert more[|counts|] == s.count + 1; }
      }
      StartsMark(next, starts[1..], more);
      assert counts + StartCounts(s, starts, false) == more + StartCounts(next, starts[1..], false);
    }
  }

  lemma StepMark(s: Sram, e: Event, counts: seq<int>)
    requires IsHighest(s.countMax, counts)
    ensures IsHighest(Step(s, e).countMax, counts + StepCounts(s, e, false))
  {
    match e
    case Begin(start) =>
      StartsMark(s, [start], counts);
      assert [start][1..] == [] && StartedAll(s, [start]) == StartedAll(Started(s, start), []);
    case TransferDone(handle, ok, nested) =>
      var k := Find(s.xfers, handle);
      if k < |s.xfers| && s.xfers[k].callback.Some? {
        StartsMark(Notified(Unlinked(s, k), s.xfers[k], ok), nested, counts);
      } else {
        assert counts + [] == counts;
      }
    case OtherMessage => assert counts + [] == counts;
  }

  /** Over every run the high-water mark is the greatest length right after a write. */
  lemma {:induction false} MarkIsHighestAfterWrite(es: seq<Event>)
    ensures IsHighest(Run(es).countMax, Counts(es, false))
  {
    if es != [] {
      MarkIsHighestAfterWrite(es[..|es| - 1]);
      StepMark(Run(es[..|es| - 1]), es[|es| - 1], Counts(es[..|es| - 1], false));
    }
  }

  lemma {:induction false} StartsWithin(s: Sram, starts: seq<Start>, h: int)
    requires s.count <= h && Within(StartCounts(s, starts, true), h)
    ensures StartedAll(s, starts).count <= h
    ensures forall c :: c in StartCounts(s, starts, false) ==> c in StartCounts(s, starts, true)
    decreases |starts|
  {
    if starts != [] {
      var first := if starts[0].answer.Some? then [s.count + 1] else [];
      WithinParts(first, StartCounts(Started(s, starts[0]), starts[1..], true), h);
      assert first != [] ==> first[0] <= h;
      StartsWithin(Started(s, starts[0]), starts[1..], h);
    }
  }

  lemma StepWithin(s: Sram, e: Event, h: int)
    requires s.count <= h && Within(StepCounts(s, e, true), h)
    ensures Step(s, e).count <= h
    ensures forall c :: c in StepCounts(s, e, false) ==> c in StepCounts(s, e, true)
  {
    match e
    case Begin(start) =>
      StartsWithin(s, [start], h);
      assert [start][1..] == [] && StartedAll(s, [start]) == StartedAll(Started(s, start), []);
    case TransferDone(handle, ok, nested) =>
      var k := Find(s.xfers, handle);
      if k < |s.xfers| && s.xfers[k].callback.Some? {
        StartsWithin(Notified(Unlinked(s, k), s.xfers[k], ok), nested, h);
      }
    case OtherMessage =>
  }

  /** The list is never longer than it was right after some start. */
  lemma {:induction false} CountWithin(es: seq<Event>, h: int)
    requires 0 <= h && Within(Counts(es, true), h)
    ensures Run(es).count <= h
    ensures forall c :: c in Counts(es, false) ==> c in Counts(es, true)
  {
    if es != [] {
      WithinParts(Counts(es[..|es| - 1], true), StepCounts(Run(es[..|es| - 1]), es[|es| - 1], true), h);
      CountWithin(es[..|es| - 1], h);
      StepWithin(Run(es[..|es| - 1]), es[|es| - 1], h);
    }
  }

  /** The list has never been longer than its peak; the high-water mark is the peak exactly if
      the list was that long right after a write, or was always empty. */
  lemma HighWaterExactly(es: seq<Event>, peak: int)
    requires IsHighest(peak, Counts(es, true))
    ensures Run(es).count <= peak && Run(es).countMax <= peak
    ensures Run(es).countMax == peak <==> peak == 0 || peak in Counts(es, false)
  {
    MarkIsHighestAfterWrite(es);
    CountWithin(es, peak);
    if peak in Counts(es, false) {
      var i :| 0 <= i < |Counts(es, false)| && Counts(es, false)[i] == peak;
    }
  }

  /** A run of reads that the mark misses altogether. */
  lemma HighWaterMissesReads() returns (es: seq<Event>)
    ensures FreshRun(es) && IsHighest(2, Counts(es, true)) && Run(es).count == 2 && Run(es).countMax == 0
  {
    var one, two := Begin(Start(false, 0, [], None, Some(1))), Begin(Start(false, 0, [], None, Some(2)));
    es := [one, two];
    assert es[..1] == [one] && [one][..0] == [] && [one.start][1..] == [] && [two.start][1..] == [];
    assert Run([one]) == Started(EMPTY, one.start) && Run(es) == Started(Run([one]), two.start);
    assert Counts([one], true) == [1] && Counts(es, true) == [1, 2];
  }

  // ---------------------------------------------------------------- command bytes

  const CMD_READ: byte := 3
  const CMD_WRITE: byte := 2

  /** The command byte, then the low 24 bits of the offset, most significant byte first. */
  function Header(write: bool, offset: nat): (h: seq<byte>)
    ensures |h| == 4
  {
    [if write then CMD_WRITE else CMD_READ, offset / 0x1_0000 % 256, offset / 256 % 256, offset % 256]
  }

  /** What the memory makes of the header. */
  function Address(h: seq<byte>): nat
    requires |h| == 4
  {
    h[1] as int * 0x1_0000 + h[2] as int * 256 + h[3] as int
  }

  lemma DivTwice(n: nat)
    ensures n / 256 / 256 == n / 0x1_0000
  {
    var q, r := n / 0x1_0000, n % 0x1_0000;
    assert n == 256 * (256 * q + r / 256) + r % 256;
    assert n / 256 == 256 * q + r / 256;
  }

  lemma LowBits(n: nat, q: nat, r: nat)
    requires n == 0x100_0000 * q + r && r < 0x100_0000
    ensures n % 0x100_0000 == r
  {
  }

  /** Opcode 2 writes and opcode 3 reads; the address is the offset exactly for offsets of at
      most 24 bits. */
  lemma HeaderAddresses(write: bool, offset: nat)
    ensures Header(write, offset)[0] == if write then 2 else 3
    ensures Address(Header(write, offset)) == offset % 0x100_0000
    ensures Address(Header(write, offset)) == offset <==> offset < 0x100_0000
  {
    DivTwice(offset);
    var high := offset / 0x1_0000;
    var a := Address(Header(write, offset));
    assert a == high % 256 * 0x1_0000 + offset / 256 % 256 * 256 + offset % 256;
    assert offset == 0x100_0000 * (high / 256) + a;
    LowBits(offset, high / 256, a);
  }

  // ---------------------------------------------------------------- the linked list

  class Xfer {
    var trHandle: int
    var cb: Option<int>
    var next: Xfer?
    var data: seq<byte>

    constructor (cb: Option<int>, next: Xfer?, data: seq<byte>, handle: int)
      ensures this.cb == cb && this.next == next && this.data == data && trHandle == handle
    {
      this.cb, this.next, this.data, trHandle := cb, next, data, handle;
    }
  }

  ghost predicate Distinct<T>(xs: seq<T>) {
    forall i, j :: 0 <= i < j < |xs| ==> xs[i] != xs[j]
  }

  lemma UnlinkDistinct<T>(xs: seq<T>, k: nat)
    requires k < |xs| && Distinct(xs)
    ensures Distinct(Unlink(xs, k))
  {
  }

  class SpiRam {
    var xfers: Xfer?
    var xfersCount: int
    var xfersCountMax: int
    ghost var nodes: seq<Xfer>
    ghost var view: Sram

    /** nodes are the list cells in list order, view their abstract value. */
    ghost predicate Valid()
      reads this, nodes
    {
      && xfersCount == view.count && xfersCountMax == view.countMax
      && |nodes| == |view.xfers|
      && xfers == NodeAt(0)
      && (forall i {:trigger nodes[i].next} :: 0 <= i < |nodes| ==> nodes[i].next == NodeAt(i + 1))
      && Distinct(nodes)
      && (forall i {:trigger nodes[i].trHandle} {:trigger nodes[i].cb} {:trigger view.xfers[i]} :: 0 <= i < |nodes| ==>
            nodes[i].trHandle == view.xfers[i].handle && nodes[i].cb == view.xfers[i].callback)
    }

    ghost function NodeAt(i: nat): Xfer?
      reads this
    {
      if i < |nodes| then nodes[i] else null
    }

    constructor ()
      ensures Valid() && view == EMPTY
    {
      xfers, xfersCount, xfersCountMax, nodes, view := null, 0, 0, [], EMPTY;
    }

    method Write(start: Start) returns (ok: bool)
      requires Valid() && start.write
      modifies this
      ensures Valid() && view == Started(old(view), start)
      ensures ok <==> start.answer.Some?
      ensures if ok then |nodes| > 0 && fresh(nodes[0]) && nodes[1..] == old(nodes)
                         && nodes[0].data == Header(true, start.offset) + start.payload
              else nodes == old(nodes)
    {
      if start.answer == None {
        return false;
      }
      var xfer := new Xfer(start.callback, xfers, Header(true, start.offset) + start.payload, start.answer.value);
      xfers := xfer;
      xfersCount := xfersCount + 1;
      if xfersCount > xfersCountMax {
        xfersCountMax := xfersCount;
      }
      nodes := [xfer] + nodes;
      view := Started(view, start);
      return true;
    }

    method Read(start: Start) returns (ok: bool)
      requires Valid() && !start.write
      modifies this
      ensures Valid() && view == Started(old(view), start)
      ensures ok <==> start.answer.Some?
      ensures if ok then |nodes| > 0 && fresh(nodes[0]) && nodes[1..] == old(nodes)
                         && nodes[0].data == Header(false, start.offset)
              else nodes == old(nodes)
    {
      if start.answer == None {
        return false;
      }
      var xfer := new Xfer(start.callback, xfers, Header(false, start.offset), start.answer.value);
      xfers := xfer;
      xfersCount := xfersCount + 1;
      nodes := [xfer] + nodes;
      view := Started(view, start);
      return true;
    }

    /** The callback runs: it is recorded, and starts whatever it starts. */
    method RunCallback(ghost t: Transfer, ok: bool, nested: seq<Start>)
      requires Valid() && t.callback.Some?
      modifies this
      ensures Valid() && view == StartedAll(Notified(old(view), t, ok), nested)
    {
      view := Notified(view, t, ok);
      ghost var notified := view;
      var i := 0;
      assert nested[0..] == nested;
      while i < |nested|
        invariant 0 <= i <= |nested| && Valid()
        invariant StartedAll(view, nested[i..]) == StartedAll(notified, nested)
      {
        var started: bool;
        if nested[i].write {
          started := Write(nested[i]);
        } else {
          started := Read(nested[i]);
        }
        assert nested[i..][1..] == nested[i + 1..];
        i := i + 1;
      }
    }

    /** Take cell k out of the list, through the field that pointed at it. */
    method UnlinkCell(prev: Xfer?, cur: Xfer, ghost k: nat)
      requires Valid() && k < |nodes| && cur == nodes[k]
      requires prev == if k == 0 then null else nodes[k - 1]
      modifies this, if prev == null then {} else {prev}
      ensures Valid() && view == Unlinked(old(view), k) && nodes == Unlink(old(nodes), k)
    {
      if prev == null {
        xfers := cur.next;
      } else {
        assert prev.next == NodeAt(k) && cur.next == NodeAt(k + 1);
        prev.next := cur.next;
      }
      xfersCount := xfersCount - 1;
      ghost var before := nodes;
      UnlinkDistinct(before, k);
      nodes, view := Unlink(nodes, k), Unlinked(view, k);
      forall i {:trigger nodes[i].next} | 0 <= i < |nodes|
        ensures nodes[i].next == NodeAt(i + 1)
      {
        if i + 1 == k {
          assert nodes[i] == before[i] == prev;
        } else if i < k {
          assert nodes[i] == before[i] != before[k - 1];
        } else {
          assert nodes[i] == before[i + 1] && (k > 0 ==> before[i + 1] != before[k - 1]);
        }
      }
    }

    /** The event handler: prev is the cell whose next field the search pointer points at, null
        while it points at the list head. */
    method HandleEvent(handle: int, ok: bool, nested: seq<Start>)
      requires Valid()
      modifies this, nodes
      ensures Valid() && view == Done(old(view), handle, ok, nested)
    {
      var prev: Xfer?, cur: Xfer? := null, xfers;
      ghost var k := 0;
      while cur != null
        invariant 0 <= k <= |nodes| && cur == NodeAt(k)
        invariant prev == if k == 0 then null else nodes[k - 1]
        invariant Valid() && nodes == old(nodes) && view == old(view)
        invariant forall i :: 0 <= i < k ==> view.xfers[i].handle != handle
        decreases |nodes| - k
      {
        if cur.trHandle == handle {
          assert k == Find(view.xfers, handle);
          ghost var t := view.xfers[k];
          UnlinkCell(prev, cur, k);
          if cur.cb.Some? {
            RunCallback(t, ok, nested);
          }
          return;
        }
        prev, cur := cur, cur.next;
        k := k + 1;
      }
      assert Find(view.xfers, handle) == |view.xfers|;
    }
  }
}
