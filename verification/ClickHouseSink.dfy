/**
  The buffered billing sink: the sections it runs under its mutex, the retry loop
  of one flush, and every interleaving of emitters, the interval timer, background
  flushes and Close.
 */
module ClickHouseSink {
  import opened Wrappers

  /** A usage event; two events may be equal. */
  type UsageEvent = int

  /** The fields the mutex guards; `timer` says whether the timer field is set. */
  datatype Fields = Fields(buf: seq<UsageEvent>, timer: bool, closed: bool, flushed: nat, failures: nat)

  /** What an HTTP attempt yields. */
  datatype Answer = NetworkError | Status(code: nat)

  predicate Success(a: Answer) { a.Status? && 200 <= a.code < 300 }

  predicate Retryable(a: Answer) { a.NetworkError? || a.code >= 500 }

  // ---------------------------------------------------------------- the sink

  class Sink {
    var buf: seq<UsageEvent>
    var timer: bool
    var closed: bool
    var flushed: nat
    var failures: nat
    const batchSize: nat
    const maxRetries: nat

    /** Non-positive settings take their defaults; a negative retry count means none. */
    constructor (batchSize: int, maxRetries: int)
      ensures Now() == Fields([], false, false, 0, 0)
      ensures this.batchSize == (if batchSize <= 0 then 500 else batchSize) && this.batchSize > 0
      ensures this.maxRetries == if maxRetries < 0 then 0 else if maxRetries == 0 then 3 else maxRetries
    {
      buf, timer, closed, flushed, failures := [], false, false, 0, 0;
      this.batchSize := if batchSize <= 0 then 500 else batchSize;
      this.maxRetries := if maxRetries < 0 then 0 else if maxRetries == 0 then 3 else maxRetries;
    }

    function Now(): Fields
      reads this
    {
      Fields(buf, timer, closed, flushed, failures)
    }

    /** Emit, under the lock: whether to arm a timer, and whether to flush at once. */
    method Emit(event: UsageEvent) returns (arm: bool, flush: bool)
      modifies this`buf, this`timer
      ensures (Now(), arm, flush) == Emitted(batchSize, old(Now()), event)
    {
      arm, flush := false, false;
      if closed { return; }
      buf := buf + [event];
      flush := |buf| >= batchSize;
      if !timer && !flush {
        timer := true;
        arm := true;
      }
    }

    /** intervalFlush, under the lock. */
    method ClearTimer()
      modifies this`timer
      ensures Now() == old(Now()).(timer := false)
    {
      timer := false;
    }

    /** scheduleFlush, under the lock: the batch to flush in the background, empty for none. */
    method TakeBatch() returns (batch: seq<UsageEvent>)
      modifies this`buf
      ensures (Now(), batch) == Taken(old(Now()))
    {
      if closed { return []; }
      batch := buf;
      buf := [];
    }

    /** Close, under the lock: whether this call is the first, and the batch it must flush. */
    method BeginClose() returns (first: bool, batch: seq<UsageEvent>)
      modifies this`buf, this`timer, this`closed
      ensures (Now(), first, batch) == Closing(old(Now()))
    {
      if closed { return false, []; }
      closed, timer := true, false;
      first, batch := true, buf;
      buf := [];
    }

    method RecordSuccess(n: nat)
      modifies this`flushed
      ensures Now() == old(Now()).(flushed := old(flushed) + n)
    {
      flushed := flushed + n;
    }

    method RecordFailure(n: nat)
      modifies this`failures
      ensures Now() == old(Now()).(failures := old(failures) + n)
    {
      failures := failures + n;
    }

    /**
      flushBatch.  `answers` and `requestOk` give what each attempt meets,
      `expired(i)` whether the context is done before attempt i, and `cut(i)` whether
      it ends during the backoff after attempt i.  A batch is recorded exactly once,
      as flushed or as failed, after at most maxRetries + 1 requests.
     */
    method FlushBatch(batch: seq<UsageEvent>, encodeOk: bool, requestOk: nat -> bool, answers: nat -> Answer,
                      expired: nat -> bool, cut: nat -> bool)
      returns (ok: bool, requests: nat)
      modifies this`flushed, this`failures
      ensures requests <= maxRetries + 1
      ensures flushed == old(flushed) + (if ok then |batch| else 0)
      ensures failures == old(failures) + (if ok then 0 else |batch|)
      ensures ok <==> batch == [] || (encodeOk && Delivered(maxRetries, requestOk, answers, expired, cut))
    {
      requests := 0;
      if batch == [] { return true, 0; }
      if !encodeOk {
        RecordFailure(|batch|);
        return false, 0;
      }
      var attempt := 0;
      while attempt <= maxRetries
        invariant attempt == requests <= maxRetries + 1
        invariant flushed == old(flushed) && failures == old(failures)
        invariant forall j :: 0 <= j < attempt ==> !expired(j) && requestOk(j) && Retryable(answers(j))
        invariant forall j :: 0 <= j < attempt && j < maxRetries ==> !cut(j)
        decreases maxRetries + 1 - attempt
      {
        if expired(attempt) || !requestOk(attempt) {
          RecordFailure(|batch|);
          return false, requests;
        }
        var answer := answers(attempt);
        requests := requests + 1;
        if Success(answer) {
          RecordSuccess(|batch|);
          assert DeliveredAt(attempt, requestOk, answers, expired, cut);
          return true, requests;
        }
        if !Retryable(answer) {
          RecordFailure(|batch|);
          return false, requests;
        }
        attempt := attempt + 1;
        if attempt > maxRetries { break; }
        if cut(attempt - 1) {
          RecordFailure(|batch|);
          return false, requests;
        }
      }
      RecordFailure(|batch|);
      ok := false;
    }
  }

  /** Attempt i succeeds after i retryable failures, with the context alive throughout. */
  predicate DeliveredAt(i: nat, requestOk: nat -> bool, answers: nat -> Answer, expired: nat -> bool,
      cut: nat -> bool) {
    && !expired(i) && requestOk(i) && answers(i).Status? && 200 <= answers(i).code < 300
    && forall j :: 0 <= j < i ==>
         !expired(j) && requestOk(j) && !cut(j) && (answers(j).NetworkError? || answers(j).code >= 500)
  }

  predicate Delivered(maxRetries: nat, requestOk: nat -> bool, answers: nat -> Answer, expired: nat -> bool,
                      cut: nat -> bool)
  {
    exists i :: 0 <= i <= maxRetries && DeliveredAt(i, requestOk, answers, expired, cut)
  }

  function Emitted(batchSize: nat, f: Fields, event: UsageEvent): (Fields, bool, bool) {
    if f.closed then (f, false, false)
    else
      var buf := f.buf + [event];
      var flush := |buf| >= batchSize;
      var arm := !f.timer && !flush;
      (f.(buf := buf, timer := f.timer || arm), arm, flush)
  }

  function Taken(f: Fields): (Fields, seq<UsageEvent>) {
    if f.closed then (f, []) else (f.(buf := []), f.buf)
  }

  function Closing(f: Fields): (Fields, bool, seq<UsageEvent>) {
    if f.closed then (f, false, []) else (f.(buf := [], timer := false, closed := true), true, f.buf)
  }

  // ---------------------------------------------------------------- interleavings

  /**
    The sink and its goroutines.  `ticking`: an armed timer has not fired; `firing`:
    it fired and has not yet taken the lock; `due`: goroutines about to call
    scheduleFlush; `inflight`: batches being flushed in the background; `closing`: the
    first Close's batch, until it is recorded; `returned`: the first Close returned.
    `accepted`, `sent` and `lost` are the events behind the counters.
   */
  datatype State = State(
    f: Fields, ticking: bool, firing: bool, due: nat, inflight: seq<seq<UsageEvent>>,
    closing: Option<seq<UsageEvent>>, returned: bool,
    accepted: multiset<UsageEvent>, sent: multiset<UsageEvent>, lost: multiset<UsageEvent>)

  const Fresh := State(Fields([], false, false, 0, 0), false, false, 0, [], None, false,
                       multiset{}, multiset{}, multiset{})

  datatype Step =
    | EmitOne(event: UsageEvent)
    | Fire
    | Clear
    | Schedule
    | FlushEnds(i: nat, ok: bool)
    | CloseStarts
    | CloseEnds(ok: bool)

  /** Recording a batch once, one way or the other. */
  function Recorded(s: State, batch: seq<UsageEvent>, ok: bool): State {
    if ok then s.(f := s.f.(flushed := s.f.flushed + |batch|), sent := s.sent + multiset(batch))
    else s.(f := s.f.(failures := s.f.failures + |batch|), lost := s.lost + multiset(batch))
  }

  /** Steps that are not enabled leave the state alone; Close waits until no background flush is running. */
  function Do(batchSize: nat, s: State, step: Step): State {
    match step
    case EmitOne(e) =>
      var (f, arm, flush) := Emitted(batchSize, s.f, e);
      s.(f := f, ticking := s.ticking || arm, due := s.due + (if flush then 1 else 0),
         accepted := if s.f.closed then s.accepted else s.accepted + multiset{e})
    case Fire =>
      if s.ticking then s.(ticking := false, firing := true) else s
    case Clear =>
      if s.firing then s.(f := s.f.(timer := false), firing := false, due := s.due + 1) else s
    case Schedule =>
      if s.due == 0 then s
      else
        var (f, batch) := Taken(s.f);
        s.(f := f, due := s.due - 1, inflight := if batch == [] then s.inflight else s.inflight + [batch])
    case FlushEnds(i, ok) =>
      if i >= |s.inflight| then s
      else Recorded(s.(inflight := s.inflight[..i] + s.inflight[i + 1..]), s.inflight[i], ok)
    case CloseStarts =>
      var (f, first, batch) := Closing(s.f);
      if first then s.(f := f, ticking := false, closing := Some(batch)) else s
    case CloseEnds(ok) =>
      if s.closing.None? || s.inflight != [] then s
      else Recorded(s.(closing := None, returned := true), s.closing.value, ok)
  }

  function After(batchSize: nat, steps: seq<Step>): State {
    if steps == [] then Fresh
    else Do(batchSize, After(batchSize, steps[..|steps| - 1]), steps[|steps| - 1])
  }

  function Union(batches: seq<seq<UsageEvent>>): multiset<UsageEvent> {
    if batches == [] then multiset{} else Union(batches[..|batches| - 1]) + multiset(batches[|batches| - 1])
  }

  lemma {:induction false} UnionWithout(batches: seq<seq<UsageEvent>>, i: nat)
    requires i < |batches|
    ensures Union(batches) == Union(batches[..i] + batches[i + 1..]) + multiset(batches[i])
  {
    var n := |batches| - 1;
    if i == n {
      assert batches[..i] + batches[i + 1..] == batches[..n];
    } else {
      UnionWithout(batches[..n], i);
      var rest := batches[..i] + batches[i + 1..];
      assert rest[..|rest| - 1] == batches[..n][..i] + batches[..n][i + 1..];
      assert rest[|rest| - 1] == batches[n];
    }
  }

  function Held(s: State): multiset<UsageEvent> {
    multiset(s.f.buf) + Union(s.inflight) + (if s.closing.Some? then multiset(s.closing.value) else multiset{})
  }

  /** Every accepted event is in exactly one place, and the counters count them. */
  ghost predicate Conserved(s: State) {
    && s.accepted == Held(s) + s.sent + s.lost
    && s.f.flushed == |s.sent| && s.f.failures == |s.lost|
  }

  /** An open sink whose buffer has reached the batch size has a flush due. */
  ghost predicate FullIsDue(batchSize: nat, s: State) {
    !s.f.closed && batchSize > 0 && |s.f.buf| >= batchSize ==> s.due > 0
  }

  lemma StepKeepsDue(batchSize: nat, s: State, step: Step)
    requires FullIsDue(batchSize, s)
    ensures FullIsDue(batchSize, Do(batchSize, s, step))
  {}

  lemma {:induction false} FullBufferIsFlushed(batchSize: nat, steps: seq<Step>)
    ensures FullIsDue(batchSize, After(batchSize, steps))
  {
    if steps != [] {
      FullBufferIsFlushed(batchSize, steps[..|steps| - 1]);
      StepKeepsDue(batchSize, After(batchSize, steps[..|steps| - 1]), steps[|steps| - 1]);
    }
  }

  /** A due flush takes the whole buffer of an open sink, in order. */
  lemma ScheduleTakesBuffer(batchSize: nat, s: State)
    requires s.due > 0 && !s.f.closed && s.f.buf != []
    ensures var t := Do(batchSize, s, Schedule);
            t.f.buf == [] && t.inflight == s.inflight + [s.f.buf] && t.due == s.due - 1
  {}

  /** Emits keep their order in the buffer; a closed sink takes none. */
  lemma EmitAppends(batchSize: nat, s: State, e: UsageEvent)
    ensures Do(batchSize, s, EmitOne(e)).f.buf == if s.f.closed then s.f.buf else s.f.buf + [e]
  {}

  /** An open sink that holds events has something on the way to flush them. */
  ghost predicate Live(s: State) {
    && (!s.f.closed && s.f.buf != [] ==> s.ticking || s.firing || s.due > 0)
    && (!s.f.closed && s.f.timer ==> s.ticking || s.firing)
    && (s.ticking || s.firing ==> s.f.timer || s.f.closed)
    && !(s.ticking && s.firing)
  }

  ghost predicate Drained(s: State) {
    && (s.f.closed ==> s.f.buf == [])
    && (s.closing.Some? || s.returned ==> s.f.closed)
    && (s.f.closed && s.closing.None? ==> s.returned)
    && (s.returned ==> s.closing.None? && s.inflight == [])
  }

  /** Conserved but for one batch, on its way to be recorded. */
  ghost predicate Owes(s: State, batch: multiset<UsageEvent>) {
    && s.accepted == Held(s) + batch + s.sent + s.lost
    && s.f.flushed == |s.sent| && s.f.failures == |s.lost|
  }

  lemma RecordedConserves(s: State, batch: seq<UsageEvent>, ok: bool)
    requires Owes(s, multiset(batch))
    ensures Conserved(Recorded(s, batch, ok))
  {
    assert Held(Recorded(s, batch, ok)) == Held(s);
  }

  lemma EmitConserves(batchSize: nat, s: State, e: UsageEvent)
    requires Conserved(s)
    ensures Conserved(Do(batchSize, s, EmitOne(e)))
  {
    var t := Do(batchSize, s, EmitOne(e));
    if !s.f.closed {
      assert multiset(s.f.buf + [e]) == multiset(s.f.buf) + multiset{e};
      assert Held(t) == Held(s) + multiset{e};
    }
  }

  lemma ScheduleConserves(batchSize: nat, s: State)
    requires Conserved(s)
    ensures Conserved(Do(batchSize, s, Schedule))
  {
    var t, batch := Do(batchSize, s, Schedule), Taken(s.f).1;
    if s.due > 0 && batch != [] {
      assert (s.inflight + [batch])[..|s.inflight|] == s.inflight;
      assert Union(t.inflight) == Union(s.inflight) + multiset(batch);
    }
    assert Held(t) == Held(s);
  }

  lemma WithoutOwes(s: State, i: nat)
    requires Conserved(s) && i < |s.inflight|
    ensures Owes(s.(inflight := s.inflight[..i] + s.inflight[i + 1..]), multiset(s.inflight[i]))
  {
    UnionWithout(s.inflight, i);
  }

  lemma FlushConserves(batchSize: nat, s: State, i: nat, ok: bool)
    requires Conserved(s) && i < |s.inflight|
    ensures Conserved(Do(batchSize, s, FlushEnds(i, ok)))
  {
    var rest := s.(inflight := s.inflight[..i] + s.inflight[i + 1..]);
    WithoutOwes(s, i);
    RecordedConserves(rest, s.inflight[i], ok);
    assert Do(batchSize, s, FlushEnds(i, ok)) == Recorded(rest, s.inflight[i], ok);
  }

  lemma CloseStartConserves(batchSize: nat, s: State)
    requires Conserved(s) && (s.closing.Some? ==> s.f.closed)
    ensures Conserved(Do(batchSize, s, CloseStarts))
  {
    assert Held(Do(batchSize, s, CloseStarts)) == Held(s);
  }

  lemma CloseEndConserves(batchSize: nat, s: State, ok: bool)
    requires Conserved(s)
    ensures Conserved(Do(batchSize, s, CloseEnds(ok)))
  {
    if s.closing.Some? && s.inflight == [] {
      var rest := s.(closing := None, returned := true);
      assert Owes(rest, multiset(s.closing.value));
      RecordedConserves(rest, s.closing.value, ok);
    }
  }

  lemma StepConserves(batchSize: nat, s: State, step: Step)
    requires Conserved(s) && Drained(s)
    ensures Conserved(Do(batchSize, s, step))
  {
    match step
    case EmitOne(e) => EmitConserves(batchSize, s, e);
    case Fire => assert Held(Do(batchSize, s, step)) == Held(s);
    case Clear => assert Held(Do(batchSize, s, step)) == Held(s);
    case Schedule => ScheduleConserves(batchSize, s);
    case FlushEnds(i, ok) => if i < |s.inflight| { FlushConserves(batchSize, s, i, ok); }
    case CloseStarts => CloseStartConserves(batchSize, s);
    case CloseEnds(ok) => CloseEndConserves(batchSize, s, ok);
  }

  lemma StepKeepsLive(batchSize: nat, s: State, step: Step)
    requires Live(s) && Drained(s)
    ensures Live(Do(batchSize, s, step)) && Drained(Do(batchSize, s, step))
  {}

  /**
    In every interleaving: accepted events are buffered, in flight, flushed or
    failed, each once; and an open sink with events has an armed timer, a fired one
    on its way, or a flush due.
   */
  lemma {:induction false} EventsConserved(batchSize: nat, steps: seq<Step>)
    ensures Conserved(After(batchSize, steps)) && Live(After(batchSize, steps)) && Drained(After(batchSize, steps))
  {
    if steps == [] {
      assert Held(Fresh) == multiset{};
    } else {
      var before := After(batchSize, steps[..|steps| - 1]);
      EventsConserved(batchSize, steps[..|steps| - 1]);
      StepConserves(batchSize, before, steps[|steps| - 1]);
      StepKeepsLive(batchSize, before, steps[|steps| - 1]);
    }
  }

  /** The events of the batch whose flush a step ends that way. */
  function Outcome(s: State, step: Step, ok: bool): multiset<UsageEvent> {
    match step
    case FlushEnds(i, ok') => if ok' == ok && i < |s.inflight| then multiset(s.inflight[i]) else multiset{}
    case CloseEnds(ok') =>
      if ok' == ok && s.closing.Some? && s.inflight == [] then multiset(s.closing.value) else multiset{}
    case _ => multiset{}
  }

  function Outcomes(batchSize: nat, steps: seq<Step>, ok: bool): multiset<UsageEvent> {
    if steps == [] then multiset{}
    else
      var before, last := steps[..|steps| - 1], steps[|steps| - 1];
      Outcomes(batchSize, before, ok) + Outcome(After(batchSize, before), last, ok)
  }

  lemma EndRecords(batchSize: nat, s: State, step: Step)
    requires step.FlushEnds? || step.CloseEnds?
    ensures Do(batchSize, s, step).sent == s.sent + Outcome(s, step, true)
    ensures Do(batchSize, s, step).lost == s.lost + Outcome(s, step, false)
  {}

  lemma StepRecords(batchSize: nat, s: State, step: Step)
    ensures Do(batchSize, s, step).sent == s.sent + Outcome(s, step, true)
    ensures Do(batchSize, s, step).lost == s.lost + Outcome(s, step, false)
  {
    if step.FlushEnds? || step.CloseEnds? { EndRecords(batchSize, s, step); }
  }

  lemma {:induction false} SentAndLost(batchSize: nat, steps: seq<Step>)
    ensures After(batchSize, steps).sent == Outcomes(batchSize, steps, true)
    ensures After(batchSize, steps).lost == Outcomes(batchSize, steps, false)
  {
    if steps != [] {
      SentAndLost(batchSize, steps[..|steps| - 1]);
      StepRecords(batchSize, After(batchSize, steps[..|steps| - 1]), steps[|steps| - 1]);
    }
  }

  /** In every interleaving the two counters count the events of the batches whose flush succeeded, and failed. */
  lemma CountersAreOutcomes(batchSize: nat, steps: seq<Step>)
    ensures After(batchSize, steps).f.flushed == |Outcomes(batchSize, steps, true)|
    ensures After(batchSize, steps).f.failures == |Outcomes(batchSize, steps, false)|
  {
    EventsConserved(batchSize, steps);
    SentAndLost(batchSize, steps);
  }

  ghost predicate Stopped(s: State) { s.f.closed ==> !s.f.timer && !s.ticking }

  lemma StepKeepsStopped(batchSize: nat, s: State, step: Step)
    requires Stopped(s)
    ensures Stopped(Do(batchSize, s, step))
  {}

  /** In every interleaving a closed sink has no timer armed. */
  lemma {:induction false} ClosedHasNoTimer(batchSize: nat, steps: seq<Step>)
    ensures Stopped(After(batchSize, steps))
  {
    if steps != [] {
      ClosedHasNoTimer(batchSize, steps[..|steps| - 1]);
      StepKeepsStopped(batchSize, After(batchSize, steps[..|steps| - 1]), steps[|steps| - 1]);
    }
  }

  /** Once the first Close has returned, every accepted event has been flushed or has failed. */
  lemma ClosedMeansRecorded(batchSize: nat, steps: seq<Step>)
    requires After(batchSize, steps).returned
    ensures var s := After(batchSize, steps);
            && s.accepted == s.sent + s.lost
            && |s.accepted| == s.f.flushed + s.f.failures
  {
    EventsConserved(batchSize, steps);
    var s := After(batchSize, steps);
    assert Held(s) == multiset{};
  }

  /**
    A later Close waits only until no background flush is running.  At that moment
    every accepted event is recorded exactly when the first Close has returned, or had
    taken an empty buffer.
   */
  lemma LaterCloseCompleteIff(batchSize: nat, steps: seq<Step>)
    requires After(batchSize, steps).f.closed && After(batchSize, steps).inflight == []
    ensures var s := After(batchSize, steps);
            s.accepted == s.sent + s.lost <==> s.returned || s.closing == Some([])
  {
    EventsConserved(batchSize, steps);
    var s := After(batchSize, steps);
    assert Union(s.inflight) == multiset{} && s.f.buf == [];
    if s.closing.Some? {
      var batch := s.closing.value;
      assert Held(s) == multiset(batch);
      if batch != [] { assert batch[0] in multiset(batch); }
      assert |s.accepted| == |batch| + |s.sent| + |s.lost|;
    }
  }

  /** A second Close may return while the first is still flushing, with events not yet recorded. */
  lemma SecondCloseIsEarly()
    ensures var s := After(2, [EmitOne(7), CloseStarts, CloseStarts]);
            s.f.closed && s.inflight == [] && s.accepted != s.sent + s.lost
  {
    var emitted := After(2, [EmitOne(7)]);
    assert [EmitOne(7)][..0] == [];
    assert emitted == Do(2, Fresh, EmitOne(7));
    var once := After(2, [EmitOne(7), CloseStarts]);
    assert [EmitOne(7), CloseStarts][..1] == [EmitOne(7)];
    assert once == Do(2, emitted, CloseStarts);
    assert [EmitOne(7), CloseStarts, CloseStarts][..2] == [EmitOne(7), CloseStarts];
    assert 7 in once.accepted;
  }
}
