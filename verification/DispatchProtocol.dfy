// server/internal/dispatcher/dispatcher.go as a step system: any number of
// producers calling Dispatch, the batching loop, its ticker, cancellation with
// drain, one step per output inside write, Stop, and the closing of the
// outputs that App.Stop does after it.
module DispatchProtocol {
  import opened Signals
  import opened Batching

  // The fields New fixes, after its defaults.
  datatype Config = Config(queueSize: nat, batchN: nat, outputs: nat) {
    predicate Valid() {
      queueSize > 0 && batchN > 0
    }
  }

  datatype Resume = ToSelect | ToDrain | ToExit

  // Where the loop goroutine is: at its outer select, at the drain's inner
  // select, inside write with the first `visited` outputs returned, or gone.
  datatype Pc = Selecting | Draining | Writing(visited: nat, resume: Resume) | Exited

  // Where the one call of Stop is.
  datatype Stopper = NotStopping | Waiting | Flushing(visited: nat) | Returned | GaveUp

  // The calls an output can observe.
  datatype Act = WriteAct(output: nat) | FlushAct(output: nat) | CloseAct(output: nat)

  // buf is the backing array of the slice `batch`, which batch[:0] reuses, and
  // len the slice's length. The last five fields are histories: what entered
  // the queue, the batches write was called with, what each output was
  // offered, every call on an output in order, and how much had been accepted
  // when the drain last saw the queue empty.
  datatype State = State(
    queue: seq<Event>,
    buf: seq<Event>,
    len: nat,
    cancelled: bool,
    pc: Pc,
    stopper: Stopper,
    closed: nat,
    accepted: seq<Event>,
    handed: seq<seq<Event>>,
    journal: seq<seq<seq<Event>>>,
    trail: seq<Act>,
    sealed: nat)

  datatype Step =
    | Enqueue(sig: Event)
    | Refuse            // Dispatch returns the context's error
    | DropFull          // Dispatch drops on a full queue
    | Receive
    | Tick
    | Cancel
    | NoticeCancel
    | DrainEmpty
    | WriteOne(ok: bool)
    | WriteDone
    | StopCall
    | StopJoin
    | FlushOne(ok: bool)
    | StopReturn
    | StopGiveUp
    | CloseOne

  predicate Init(c: Config, s: State) {
    && c.Valid()
    && s.queue == [] && |s.buf| == c.batchN && s.len == 0
    && !s.cancelled && s.pc == Selecting && s.stopper == NotStopping && s.closed == 0
    && s.accepted == [] && s.handed == [] && s.trail == [] && s.sealed == 0
    && s.journal == seq(c.outputs, _ => [])
  }

  predicate Enabled(c: Config, s: State, step: Step) {
    match step
    case Enqueue(_) => |s.queue| < c.queueSize
    case Refuse => true
    case DropFull => |s.queue| >= c.queueSize
    case Receive => (s.pc == Selecting || s.pc == Draining) && s.queue != [] && s.len < |s.buf|
    case Tick => s.pc == Selecting
    case Cancel => true
    case NoticeCancel => s.pc == Selecting && s.cancelled
    case DrainEmpty => s.pc == Draining && s.queue == []
    case WriteOne(_) => s.pc.Writing? && s.pc.visited < |s.journal| && s.len <= |s.buf|
    case WriteDone => s.pc.Writing? && s.pc.visited >= |s.journal|
    case StopCall => s.stopper == NotStopping
    case StopJoin => s.stopper == Waiting && s.pc == Exited
    case FlushOne(_) => s.stopper.Flushing? && s.stopper.visited < c.outputs
    case StopReturn => s.stopper.Flushing? && s.stopper.visited >= c.outputs
    case StopGiveUp => s.stopper == Waiting
    case CloseOne => (s.stopper == Returned || s.stopper == GaveUp) && s.closed < c.outputs
  }

  // The call of write: its argument is the slice as it is now.
  function BeginWrite(s: State, resume: Resume): State
    requires s.len <= |s.buf|
  {
    s.(pc := Writing(0, resume), handed := s.handed + [s.buf[..s.len]])
  }

  function Do(c: Config, s: State, step: Step): State
    requires Enabled(c, s, step)
  {
    match step
    case Enqueue(sig) => s.(queue := s.queue + [sig], accepted := s.accepted + [sig])
    case Refuse => s
    case DropFull => s
    case Receive =>
      var t := s.(queue := s.queue[1..], buf := s.buf[s.len := s.queue[0]], len := s.len + 1);
      if t.len >= c.batchN then BeginWrite(t, if s.pc == Draining then ToDrain else ToSelect) else t
    case Tick => if s.len == 0 || s.len > |s.buf| then s else BeginWrite(s, ToSelect)
    case Cancel => s.(cancelled := true)
    case NoticeCancel => s.(pc := Draining)
    case DrainEmpty =>
      var t := s.(sealed := |s.accepted|);
      if s.len == 0 || s.len > |s.buf| then t.(pc := Exited) else BeginWrite(t, ToExit)
    case WriteOne(_) =>
      var o := s.pc.visited;
      s.(journal := s.journal[o := s.journal[o] + [s.buf[..s.len]]],
         trail := s.trail + [WriteAct(o)],
         pc := s.pc.(visited := o + 1))
    case WriteDone =>
      s.(len := 0, pc := match s.pc.resume case ToSelect => Selecting case ToDrain => Draining case ToExit => Exited)
    case StopCall => s.(stopper := Waiting, cancelled := true)
    case StopJoin => s.(stopper := Flushing(0))
    case FlushOne(_) =>
      s.(trail := s.trail + [FlushAct(s.stopper.visited)], stopper := Flushing(s.stopper.visited + 1))
    case StopReturn => s.(stopper := Returned)
    case StopGiveUp => s.(stopper := GaveUp)
    case CloseOne => s.(trail := s.trail + [CloseAct(s.closed)], closed := s.closed + 1)
  }

  // A finite run: the scheduler's choices, latest outermost.
  datatype Run = Start(first: State) | Then(prev: Run, step: Step)

  function First(r: Run): State {
    match r case Start(s) => s case Then(p, _) => First(p)
  }

  predicate Legal(c: Config, r: Run)
    decreases r, 0
  {
    r.Start? || (Legal(c, r.prev) && Enabled(c, Last(c, r.prev), r.step))
  }

  function Last(c: Config, r: Run): State
    requires Legal(c, r)
    decreases r, 1
  {
    match r case Start(s) => s case Then(p, step) => Do(c, Last(c, p), step)
  }

  // No signal is accepted during the run.
  predicate Quiet(r: Run) {
    r.Start? || (!r.step.Enqueue? && Quiet(r.prev))
  }

  lemma Extend(c: Config, r: Run, step: Step) returns (q: Run)
    requires Legal(c, r) && Enabled(c, Last(c, r), step)
    ensures q == Then(r, step)
    ensures Legal(c, q) && First(q) == First(r) && Last(c, q) == Do(c, Last(c, r), step)
    ensures Quiet(r) && !step.Enqueue? ==> Quiet(q)
  {
    q := Then(r, step);
  }

  // What the loop has taken from the queue and not yet handed to write.
  function Pending(s: State): seq<Event> {
    if s.pc.Writing? || s.len > |s.buf| then [] else s.buf[..s.len]
  }

  // The batches output o has been offered when it has seen all but the last
  // `behind` of those handed to write.
  function Seen(s: State, o: nat): seq<seq<Event>> {
    if s.pc.Writing? && o >= s.pc.visited && s.handed != [] then s.handed[..|s.handed| - 1] else s.handed
  }

  predicate Shape(c: Config, s: State) {
    && c.Valid()
    && |s.buf| == c.batchN && |s.queue| <= c.queueSize && |s.journal| == c.outputs
    && (s.pc == Selecting || s.pc == Draining ==> s.len < c.batchN)
    && (s.pc == Exited ==> s.len == 0)
    && (s.pc.Writing? ==>
          && s.pc.visited <= c.outputs
          && 0 < s.len <= c.batchN
          && s.handed != [] && s.handed[|s.handed| - 1] == s.buf[..s.len])
  }

  predicate Conserved(s: State) {
    s.accepted == Flatten(s.handed) + Pending(s) + s.queue
  }

  predicate FannedOut(c: Config, s: State) {
    && |s.journal| == c.outputs
    && (forall o | 0 <= o < c.outputs :: s.journal[o] == Seen(s, o))
    && (forall i | 0 <= i < |s.handed| :: 0 < |s.handed[i]| <= c.batchN)
  }

  predicate Sealing(s: State) {
    s.pc == Exited || (s.pc.Writing? && s.pc.resume == ToExit)
  }

  predicate Sealed(s: State) {
    Sealing(s) ==>
      && s.sealed <= |s.accepted|
      && Flatten(s.handed) == s.accepted[..s.sealed]
      && s.queue == s.accepted[s.sealed..]
  }

  // No output sees a Write after its first Flush or Close.
  predicate WritesFirst(trail: seq<Act>) {
    forall i, j | 0 <= i < j < |trail| && trail[j].WriteAct? :: trail[i].WriteAct?
  }

  predicate OnlyWrites(trail: seq<Act>) {
    forall i | 0 <= i < |trail| :: trail[i].WriteAct?
  }

  predicate Stopping(s: State) {
    && (s.stopper.Flushing? || s.stopper == Returned ==> s.pc == Exited)
    && (s.stopper == NotStopping || s.stopper == Waiting ==> OnlyWrites(s.trail))
    && (s.stopper != GaveUp ==> WritesFirst(s.trail))
  }

  predicate Inv(c: Config, s: State) {
    Shape(c, s) && Conserved(s) && FannedOut(c, s) && Sealed(s) && Stopping(s)
  }

  lemma RunFansOut(c: Config, r: Run)
    requires Legal(c, r) && Init(c, First(r))
    ensures FannedOut(c, Last(c, r))
  {
    InitInv(c, First(r));
    RunInv(c, r);
  }

  lemma InitInv(c: Config, s: State)
    requires Init(c, s)
    ensures Inv(c, s)
  {
  }

  lemma ShapeStep(c: Config, s: State, step: Step)
    requires Shape(c, s) && Enabled(c, s, step)
    ensures Shape(c, Do(c, s, step))
  {
  }

  lemma ConservedReceive(c: Config, s: State)
    requires Shape(c, s) && Conserved(s) && Enabled(c, s, Receive)
    ensures Conserved(Do(c, s, Receive))
  {
    var taken := s.buf[s.len := s.queue[0]][..s.len + 1];
    assert taken == s.buf[..s.len] + [s.queue[0]];
    assert Pending(s) + s.queue == taken + s.queue[1..];
    FlattenAppend(s.handed, taken);
    assert s.accepted == Flatten(s.handed) + taken + s.queue[1..];
  }

  lemma ConservedStep(c: Config, s: State, step: Step)
    requires Shape(c, s) && Conserved(s) && Enabled(c, s, step)
    ensures Conserved(Do(c, s, step))
  {
    var t := Do(c, s, step);
    match step
    case Enqueue(sig) =>
      assert t.accepted == Flatten(s.handed) + Pending(s) + (s.queue + [sig]);
    case Receive => ConservedReceive(c, s);
    case Tick => FlattenAppend(s.handed, s.buf[..s.len]);
    case DrainEmpty => FlattenAppend(s.handed, s.buf[..s.len]);
    case _ =>
  }

  lemma FannedOutStep(c: Config, s: State, step: Step)
    requires Shape(c, s) && FannedOut(c, s) && Enabled(c, s, step)
    ensures FannedOut(c, Do(c, s, step))
  {
    var t := Do(c, s, step);
    if step.WriteOne? {
      FanOutOne(c, s, step);
    } else if !s.pc.Writing? && t.pc.Writing? {
      BeginsFrame(c, s, step);
      FanOutBegin(c, s, t);
    } else {
      JournalFrame(c, s, step);
      FanOutSame(c, s, t);
    }
  }

  lemma BeginsFrame(c: Config, s: State, step: Step)
    requires Shape(c, s) && Enabled(c, s, step) && !s.pc.Writing? && Do(c, s, step).pc.Writing?
    ensures var t := Do(c, s, step);
            && t.pc.visited == 0 && t.journal == s.journal && 0 < t.len <= |t.buf| == c.batchN
            && t.handed == s.handed + [t.buf[..t.len]]
  {
  }

  lemma FanOutBegin(c: Config, s: State, t: State)
    requires FannedOut(c, s) && !s.pc.Writing? && t.pc.Writing? && t.pc.visited == 0
    requires t.journal == s.journal && 0 < t.len <= |t.buf| == c.batchN && t.handed == s.handed + [t.buf[..t.len]]
    ensures FannedOut(c, t)
  {
    assert t.handed[..|t.handed| - 1] == s.handed;
  }

  // The other steps leave the journals alone, and what they should hold too.
  lemma JournalFrame(c: Config, s: State, step: Step)
    requires Shape(c, s) && Enabled(c, s, step) && !step.WriteOne?
    requires s.pc.Writing? || !Do(c, s, step).pc.Writing?
    ensures var t := Do(c, s, step);
            && t.journal == s.journal && t.handed == s.handed
            && (t.pc == s.pc || (!t.pc.Writing? && (s.pc.Writing? ==> s.pc.visited == c.outputs)))
  {
  }

  lemma FanOutSame(c: Config, s: State, t: State)
    requires FannedOut(c, s) && t.journal == s.journal && t.handed == s.handed
    requires t.pc == s.pc || (!t.pc.Writing? && (s.pc.Writing? ==> s.pc.visited == c.outputs))
    ensures FannedOut(c, t)
  {
    assert forall o | 0 <= o < c.outputs :: Seen(t, o) == Seen(s, o);
  }

  lemma FanOutOne(c: Config, s: State, step: Step)
    requires Shape(c, s) && FannedOut(c, s) && step.WriteOne? && Enabled(c, s, step)
    ensures FannedOut(c, Do(c, s, step))
  {
    var t := Do(c, s, step);
    assert s.handed == s.handed[..|s.handed| - 1] + [s.buf[..s.len]];
    assert forall o | 0 <= o < c.outputs && o != s.pc.visited ::
        t.journal[o] == s.journal[o] && Seen(t, o) == Seen(s, o);
  }

  lemma SealedStep(c: Config, s: State, step: Step)
    requires Shape(c, s) && Conserved(s) && Sealed(s) && Enabled(c, s, step)
    ensures Sealed(Do(c, s, step))
  {
    var t := Do(c, s, step);
    if step.DrainEmpty? {
      ConservedStep(c, s, step);
      assert t.accepted[..t.sealed] == t.accepted;
      if t.pc == Exited {
        assert Pending(s) == [];
      }
    } else if step.Enqueue? && Sealing(s) {
      assert t.accepted[..s.sealed] == s.accepted[..s.sealed];
    }
  }

  lemma StoppingStep(c: Config, s: State, step: Step)
    requires Shape(c, s) && Stopping(s) && Enabled(c, s, step)
    ensures Stopping(Do(c, s, step))
  {
  }

  lemma {:induction false} RunInv(c: Config, r: Run)
    requires Legal(c, r) && Inv(c, First(r))
    ensures Inv(c, Last(c, r))
  {
    if r.Then? {
      RunInv(c, r.prev);
      var s := Last(c, r.prev);
      ShapeStep(c, s, r.step);
      ConservedStep(c, s, r.step);
      FannedOutStep(c, s, r.step);
      SealedStep(c, s, r.step);
      StoppingStep(c, s, r.step);
    }
  }

  // In every reachable state of producers, loop, ticker, cancellation and
  // Stop: nothing accepted is lost, repeated or reordered on its way to write,
  // and every output has been offered the same non-empty batches of at most
  // batchN signals, those already visited in the current fan-out being exactly
  // one ahead. What an output is offered is read from the reused buffer.
  lemma Conservation(c: Config, r: Run)
    requires Legal(c, r) && Init(c, First(r))
    ensures var s := Last(c, r);
            && s.accepted == Flatten(s.handed) + Pending(s) + s.queue
            && (forall i | 0 <= i < |s.handed| :: 0 < |s.handed[i]| <= c.batchN)
            && (s.pc.Writing? ==>
                  s.handed != [] && s.len <= |s.buf| && s.buf[..s.len] == s.handed[|s.handed| - 1])
            && |s.journal| == c.outputs
            && (forall o | 0 <= o < c.outputs ::
                  s.journal[o] ==
                  if s.pc.Writing? && o >= s.pc.visited then s.handed[..|s.handed| - 1] else s.handed)
  {
    InitInv(c, First(r));
    RunInv(c, r);
  }

  // The signals of the calls of Dispatch that got into the queue.
  function Enqueued(r: Run): seq<Event> {
    match r
    case Start(_) => []
    case Then(p, step) => Enqueued(p) + if step.Enqueue? then [step.sig] else []
  }

  // They are what counts as accepted, and whether the next one gets in or is
  // dropped depends on there being fewer than queueSize in the queue.
  lemma {:induction false} AcceptsWhileRoom(c: Config, r: Run)
    requires Legal(c, r) && Init(c, First(r))
    ensures var s := Last(c, r);
            && s.accepted == Enqueued(r) && |s.queue| <= c.queueSize
            && (forall sig :: Enabled(c, s, Enqueue(sig)) <==> |s.queue| != c.queueSize)
            && (Enabled(c, s, DropFull) <==> |s.queue| == c.queueSize)
  {
    InitInv(c, First(r));
    RunInv(c, r);
    if r.Then? {
      AcceptsWhileRoom(c, r.prev);
      StepAccepted(c, Last(c, r.prev), r.step);
    }
  }

  lemma StepAccepted(c: Config, s: State, step: Step)
    requires Enabled(c, s, step)
    ensures Do(c, s, step).accepted == s.accepted + if step.Enqueue? then [step.sig] else []
  {
    assert s.accepted + [] == s.accepted;
  }

  // Once the loop has gone, exactly the signals accepted before its last
  // empty-queue observation have reached every output, each once and in order,
  // and the later ones are exactly what is left in the queue.
  lemma ExitDelivers(c: Config, r: Run)
    requires Legal(c, r) && Init(c, First(r)) && Last(c, r).pc == Exited
    ensures var s := Last(c, r);
            && s.len == 0
            && s.sealed <= |s.accepted|
            && s.queue == s.accepted[s.sealed..]
            && |s.journal| == c.outputs
            && forall o | 0 <= o < c.outputs :: Flatten(s.journal[o]) == s.accepted[..s.sealed]
  {
    InitInv(c, First(r));
    RunInv(c, r);
  }

  // No signal is accepted after the drain's last look at the queue.
  predicate QuietOnceSealed(c: Config, r: Run)
    requires Legal(c, r)
  {
    r.Start? || (QuietOnceSealed(c, r.prev) && !(Sealing(Last(c, r.prev)) && r.step.Enqueue?))
  }

  lemma {:induction false} SealedQueue(c: Config, r: Run)
    requires Legal(c, r) && Init(c, First(r))
    ensures if Sealing(Last(c, r)) then Last(c, r).queue == [] <==> QuietOnceSealed(c, r) else QuietOnceSealed(c, r)
  {
    if r.Then? {
      SealedQueue(c, r.prev);
    }
  }

  // That is exactly when everything accepted has been handed over by the time
  // the loop has gone.
  lemma ExitDeliversAllIff(c: Config, r: Run)
    requires Legal(c, r) && Init(c, First(r)) && Last(c, r).pc == Exited
    ensures Flatten(Last(c, r).handed) == Last(c, r).accepted <==> QuietOnceSealed(c, r)
    ensures var s := Last(c, r);
            |s.journal| == c.outputs && forall o | 0 <= o < c.outputs :: s.journal[o] == s.handed
  {
    InitInv(c, First(r));
    RunInv(c, r);
    SealedQueue(c, r);
    var s := Last(c, r);
    assert |Flatten(s.handed)| == s.sealed;
  }

  // No signal is accepted once the context is cancelled, which is how App.Stop
  // means it: it stops the inputs first.
  predicate QuietOnceCancelled(c: Config, r: Run)
    requires Legal(c, r)
  {
    r.Start? || (QuietOnceCancelled(c, r.prev) && !(Last(c, r.prev).cancelled && r.step.Enqueue?))
  }

  lemma {:induction false} SealsEmpty(c: Config, r: Run)
    requires Legal(c, r) && Init(c, First(r)) && QuietOnceCancelled(c, r)
    ensures var s := Last(c, r);
            && (s.pc == Draining || (s.pc.Writing? && s.pc.resume == ToDrain) || Sealing(s) ==> s.cancelled)
            && (Sealing(s) ==> s.queue == [])
  {
    if r.Then? {
      SealsEmpty(c, r.prev);
    }
  }

  // Then nothing is lost: when the loop has gone every output has been offered
  // everything that was ever accepted, once and in order.
  lemma QuietStopDelivers(c: Config, r: Run)
    requires Legal(c, r) && Init(c, First(r)) && QuietOnceCancelled(c, r) && Last(c, r).pc == Exited
    ensures var s := Last(c, r);
            && s.queue == [] && |s.journal| == c.outputs
            && forall o | 0 <= o < c.outputs :: Flatten(s.journal[o]) == s.accepted
  {
    ExitDelivers(c, r);
    SealsEmpty(c, r);
    var s := Last(c, r);
    assert s.accepted[..s.sealed] == s.accepted;
  }

  // A signal accepted between that observation and the loop's return is never
  // handed over: a concrete run that strands one.
  lemma LateDispatchStrands(a: Event) returns (c: Config, r: Run)
    ensures Legal(c, r) && Init(c, First(r))
    ensures var s := Last(c, r); s.pc == Exited && s.accepted == [a] && s.queue == [a] && s.handed == []
  {
    c := Config(1, 1, 0);
    var s0 := State([], [a], 0, false, Selecting, NotStopping, 0, [], [], [], [], 0);
    assert Init(c, s0);
    r := Extend(c, Start(s0), Cancel);
    r := Extend(c, r, NoticeCancel);
    r := Extend(c, r, DrainEmpty);
    r := Extend(c, r, Enqueue(a));
  }

  // Stop that returns through `done`: the loop is gone for good, so every
  // Flush, and every Close App.Stop makes next, comes after every Write.
  lemma StopOrdersFlush(c: Config, r: Run)
    requires Legal(c, r) && Init(c, First(r)) && Last(c, r).stopper != GaveUp
    ensures WritesFirst(Last(c, r).trail)
    ensures Last(c, r).stopper == Returned ==> Last(c, r).pc == Exited
  {
    InitInv(c, First(r));
    RunInv(c, r);
  }

  // When Stop gives up on its context instead, App.Stop closes the outputs all
  // the same. A later Write is then possible exactly when the loop is not
  // finished writing.
  predicate WillNotWrite(c: Config, s: State) {
    c.outputs == 0 || s.pc == Exited || (s.pc.Writing? && s.pc.visited == c.outputs && s.pc.resume == ToExit)
  }

  lemma {:induction false} NoLateWrite(c: Config, r: Run)
    requires Legal(c, r) && Inv(c, First(r)) && WillNotWrite(c, First(r))
    ensures WillNotWrite(c, Last(c, r))
    ensures r.Then? ==> !r.step.WriteOne?
  {
    if r.Then? {
      NoLateWrite(c, r.prev);
      RunInv(c, r.prev);
    }
  }

  lemma LateWrite(c: Config, s: State, a: Event) returns (r: Run)
    requires Inv(c, s) && !WillNotWrite(c, s)
    ensures Legal(c, r) && First(r) == s && r.Then? && r.step.WriteOne?
  {
    r := Start(s);
    if s.pc.Writing? && s.pc.visited == c.outputs {
      ShapeStep(c, s, WriteDone);
      r := Extend(c, r, WriteDone);
      r := EnterWrite(c, r, a);
    } else if !s.pc.Writing? {
      r := EnterWrite(c, r, a);
    }
    r := Extend(c, r, WriteOne(true));
  }

  // From either select the loop can always be brought to a Write.
  lemma EnterWrite(c: Config, r0: Run, a: Event) returns (r: Run)
    requires Legal(c, r0) && Shape(c, Last(c, r0))
    requires Last(c, r0).pc == Selecting || Last(c, r0).pc == Draining
    ensures Legal(c, r) && First(r) == First(r0)
    ensures Last(c, r).pc.Writing? && Last(c, r).pc.visited == 0 && Shape(c, Last(c, r))
    ensures Quiet(r0) && (Last(c, r0).len > 0 || Last(c, r0).queue != []) ==> Quiet(r)
  {
    r := r0;
    if Last(c, r0).len == 0 {
      r := TakeOne(c, r0, a);
    }
    var s := Last(c, r);
    if s.pc == Selecting {
      ShapeStep(c, s, Tick);
      r := Extend(c, r, Tick);
    } else if s.pc == Draining {
      r := FillBatch(c, r);
    }
  }

  lemma TakeOne(c: Config, r0: Run, a: Event) returns (r: Run)
    requires Legal(c, r0) && Shape(c, Last(c, r0)) && Last(c, r0).len == 0
    requires Last(c, r0).pc == Selecting || Last(c, r0).pc == Draining
    ensures Legal(c, r) && First(r) == First(r0) && Shape(c, Last(c, r)) && Last(c, r).len > 0
    ensures Last(c, r).pc == Last(c, r0).pc || (Last(c, r).pc.Writing? && Last(c, r).pc.visited == 0)
    ensures Quiet(r0) && Last(c, r0).queue != [] ==> Quiet(r)
  {
    r := r0;
    if Last(c, r).queue == [] {
      ShapeStep(c, Last(c, r), Enqueue(a));
      r := Extend(c, r, Enqueue(a));
    }
    ShapeStep(c, Last(c, r), Receive);
    r := Extend(c, r, Receive);
  }

  // Receiving until the batch is full or the queue empty, then flushing.
  lemma FillBatch(c: Config, r0: Run) returns (r: Run)
    requires Legal(c, r0) && Shape(c, Last(c, r0)) && Last(c, r0).pc == Draining && Last(c, r0).len > 0
    ensures Legal(c, r) && First(r) == First(r0)
    ensures Last(c, r).pc.Writing? && Last(c, r).pc.visited == 0 && Shape(c, Last(c, r))
    ensures Quiet(r0) ==> Quiet(r)
    decreases |Last(c, r0).queue|
  {
    var s := Last(c, r0);
    if s.queue == [] {
      ShapeStep(c, s, DrainEmpty);
      r := Extend(c, r0, DrainEmpty);
    } else {
      ShapeStep(c, s, Receive);
      r := Extend(c, r0, Receive);
      if Last(c, r).pc == Draining {
        r := FillBatch(c, r);
      }
    }
  }

  // The same once the inputs have been stopped, as App.Stop does first: then
  // it is enough that nothing is held and nothing queued.
  predicate WillNotWriteQuietly(c: Config, s: State) {
    || WillNotWrite(c, s)
    || (s.queue == [] && if s.pc.Writing? then s.pc.visited == c.outputs else s.len == 0)
  }

  lemma QuietStaysSo(c: Config, s: State, step: Step)
    requires Shape(c, s) && WillNotWriteQuietly(c, s) && Enabled(c, s, step) && !step.Enqueue?
    ensures WillNotWriteQuietly(c, Do(c, s, step)) && !step.WriteOne?
  {
  }

  lemma {:induction false} NoQuietWrite(c: Config, r: Run)
    requires Legal(c, r) && Quiet(r) && Inv(c, First(r)) && WillNotWriteQuietly(c, First(r))
    ensures WillNotWriteQuietly(c, Last(c, r))
    ensures r.Then? ==> !r.step.WriteOne?
  {
    if r.Then? {
      NoQuietWrite(c, r.prev);
      RunInv(c, r.prev);
      QuietStaysSo(c, Last(c, r.prev), r.step);
    }
  }

  lemma QuietLateWrite(c: Config, s: State) returns (r: Run)
    requires Inv(c, s) && !WillNotWriteQuietly(c, s)
    ensures Legal(c, r) && Quiet(r) && First(r) == s && r.Then? && r.step.WriteOne?
  {
    r := Start(s);
    var a := if s.queue != [] then s.queue[0] else s.buf[0];
    if s.pc.Writing? && s.pc.visited == c.outputs {
      ShapeStep(c, s, WriteDone);
      r := Extend(c, r, WriteDone);
      r := EnterWrite(c, r, a);
    } else if !s.pc.Writing? {
      r := EnterWrite(c, r, a);
    }
    r := Extend(c, r, WriteOne(true));
  }

  // Such a Write reaches an output that has been closed: Stop gives up with a
  // signal queued, though nothing is accepted after it was called.
  lemma WriteAfterClose(a: Event) returns (c: Config, r0: Run, r: Run)
    ensures Legal(c, r0) && Init(c, First(r0)) && r0.Then? && r0.step == StopCall
    ensures Legal(c, r) && Quiet(r) && First(r) == Last(c, r0)
    ensures Last(c, r).trail == [CloseAct(0), WriteAct(0)] && Last(c, r).journal == [[[a]]]
  {
    c := Config(1, 1, 1);
    var s0 := State([], [a], 0, false, Selecting, NotStopping, 0, [], [], [[]], [], 0);
    assert Init(c, s0);
    r0 := Extend(c, Start(s0), Enqueue(a));
    r0 := Extend(c, r0, StopCall);
    r := GiveUpAndWrite(c, Last(c, r0), a);
  }

  lemma GiveUpAndWrite(c: Config, s: State, a: Event) returns (r: Run)
    requires c == Config(1, 1, 1) && |s.buf| == 1 && s.queue == [a] && s.len == 0 && s.pc == Selecting
    requires s.stopper == Waiting && s.closed == 0 && s.trail == [] && s.journal == [[]]
    ensures Legal(c, r) && Quiet(r) && First(r) == s
    ensures Last(c, r).trail == [CloseAct(0), WriteAct(0)] && Last(c, r).journal == [[[a]]]
  {
    r := Extend(c, Start(s), StopGiveUp);
    r := Extend(c, r, CloseOne);
    r := Extend(c, r, Receive);
    assert Last(c, r).buf[..1] == [a];
    r := Extend(c, r, WriteOne(true));
    assert Last(c, r).journal[0] == [[a]];
  }

  // The drain, once entered, with producers stopped: it receives what is
  // queued and hands over exactly Chunks of what was batched and queued.
  function Receives(r: Run): nat {
    if r.Start? then 0 else Receives(r.prev) + (if r.step.Receive? then 1 else 0)
  }

  predicate OnceDraining(c: Config, s: State) {
    && Shape(c, s)
    && (s.pc == Draining || s.pc == Exited || (s.pc.Writing? && s.pc.resume != ToSelect))
  }

  predicate InDrain(c: Config, s: State) {
    && OnceDraining(c, s)
    && (Sealing(s) ==> s.queue == [])
    && (s.pc.Writing? && s.pc.resume == ToDrain ==> s.len == c.batchN)
  }

  // What has been handed over and what the drain will still make of the rest.
  function Planned(c: Config, s: State): seq<seq<Event>>
    requires c.Valid()
  {
    s.handed + Chunks(c.batchN, Pending(s) + s.queue)
  }

  lemma DrainReceive(c: Config, s: State)
    requires InDrain(c, s) && Enabled(c, s, Receive)
    ensures Planned(c, Do(c, s, Receive)) == Planned(c, s)
  {
    var t := Do(c, s, Receive);
    var taken := t.buf[..s.len + 1];
    assert taken == s.buf[..s.len] + [s.queue[0]];
    assert Pending(s) + s.queue == taken + t.queue;
    if t.pc.Writing? {
      ChunksFull(c.batchN, taken, t.queue);
      assert Pending(t) + t.queue == t.queue;
      assert t.handed + Chunks(c.batchN, t.queue) == s.handed + ([taken] + Chunks(c.batchN, t.queue));
    }
  }

  lemma DrainStep(c: Config, s: State, step: Step)
    requires InDrain(c, s) && Enabled(c, s, step) && !step.Enqueue?
    ensures InDrain(c, Do(c, s, step))
    ensures Planned(c, Do(c, s, step)) == Planned(c, s)
    ensures |s.queue| == |Do(c, s, step).queue| + (if step.Receive? then 1 else 0)
  {
    var t := Do(c, s, step);
    ShapeStep(c, s, step);
    if step.Receive? {
      DrainReceive(c, s);
    } else if step.DrainEmpty? {
      assert Pending(s) + s.queue == s.buf[..s.len];
      assert Pending(t) + t.queue == [];
      assert t.handed + [] == t.handed;
    } else {
      assert Pending(t) == Pending(s) && t.queue == s.queue;
    }
  }

  lemma {:induction false} DrainProgress(c: Config, r: Run)
    requires Legal(c, r) && Quiet(r) && InDrain(c, First(r))
    ensures InDrain(c, Last(c, r))
    ensures Receives(r) + |Last(c, r).queue| == |First(r).queue|
    ensures Planned(c, Last(c, r)) == Planned(c, First(r))
  {
    if r.Then? {
      DrainProgress(c, r.prev);
      DrainStep(c, Last(c, r.prev), r.step);
    }
  }

  // The drain terminates, whatever is accepted after its last look at the
  // queue: its next step is always enabled, and every step of the loop makes
  // progress, by the queue and then by what is left to write.
  function NextDrainStep(s: State): Step {
    if s.pc == Draining then (if s.queue == [] then DrainEmpty else Receive)
    else if s.pc.Writing? && s.pc.visited < |s.journal| then WriteOne(true)
    else WriteDone
  }

  function WorkLeft(c: Config, s: State): int {
    match s.pc
    case Exited => 0
    case Writing(v, ToExit) => 1 + c.outputs - v
    case Draining => 2 + c.outputs
    case Writing(v, _) => 3 + c.outputs + c.outputs - v
    case Selecting => 4 + c.outputs + c.outputs
  }

  lemma DrainTerminates(c: Config, s: State, step: Step)
    requires OnceDraining(c, s)
    ensures s.pc != Exited ==> Enabled(c, s, NextDrainStep(s))
    ensures WorkLeft(c, s) >= 0
    ensures (step.Receive? || step.DrainEmpty? || step.WriteOne? || step.WriteDone?) && Enabled(c, s, step) ==>
              var t := Do(c, s, step);
              |t.queue| < |s.queue| || (t.queue == s.queue && WorkLeft(c, t) < WorkLeft(c, s))
  {
  }

  // So a drain, once entered, can be brought to its end by the loop alone.
  lemma {:induction false} DrainFinishes(c: Config, r0: Run) returns (r: Run)
    requires Legal(c, r0) && OnceDraining(c, Last(c, r0))
    ensures Legal(c, r) && First(r) == First(r0) && Last(c, r).pc == Exited
    ensures Quiet(r0) ==> Quiet(r)
    decreases |Last(c, r0).queue|, Left(c, Last(c, r0))
  {
    var s := Last(c, r0);
    r := r0;
    if s.pc != Exited {
      var step := NextDrainStep(s);
      DrainTerminates(c, s, step);
      StaysDraining(c, s, step);
      r := Extend(c, r0, step);
      DrainTerminates(c, Last(c, r), step);
      r := DrainFinishes(c, r);
    }
  }

  lemma StaysDraining(c: Config, s: State, step: Step)
    requires OnceDraining(c, s) && Enabled(c, s, step)
    ensures OnceDraining(c, Do(c, s, step))
  {
    ShapeStep(c, s, step);
  }

  function Left(c: Config, s: State): nat {
    if WorkLeft(c, s) >= 0 then WorkLeft(c, s) else 0
  }

  // A drain from s has come to its end in t.
  lemma DrainedOut(c: Config, s: State, t: State)
    requires Shape(c, s) && FannedOut(c, s) && s.pc == Draining
    requires InDrain(c, t) && FannedOut(c, t) && t.pc == Exited
    requires Planned(c, t) == Planned(c, s)
    ensures var rest := Chunks(c.batchN, s.buf[..s.len] + s.queue);
            && t.handed == s.handed + rest && |rest| == CeilDiv(s.len + |s.queue|, c.batchN)
            && forall o | 0 <= o < c.outputs :: t.journal[o] == s.journal[o] + rest
  {
    assert Pending(t) + t.queue == [];
    assert Planned(c, t) == t.handed;
    ChunksPartition(c.batchN, s.buf[..s.len] + s.queue);
  }

  lemma DrainedRun(c: Config, r: Run)
    requires Legal(c, r) && Quiet(r) && First(r).pc == Draining && Last(c, r).pc == Exited
    requires InDrain(c, First(r)) && FannedOut(c, First(r)) && FannedOut(c, Last(c, r))
    ensures var s, t := First(r), Last(c, r);
            && Receives(r) == |s.queue|
            && t.handed == s.handed + Chunks(c.batchN, s.buf[..s.len] + s.queue)
            && forall o | 0 <= o < c.outputs ::
                 |t.journal[o]| == |s.journal[o]| + CeilDiv(s.len + |s.queue|, c.batchN)
  {
    DrainProgress(c, r);
    DrainedOut(c, First(r), Last(c, r));
  }

  lemma {:induction false} DrainCounts(c: Config, r: Run)
    requires Legal(c, r) && Quiet(r) && Inv(c, First(r)) && First(r).pc == Draining && Last(c, r).pc == Exited
    ensures var s, t := First(r), Last(c, r);
            var k, n := s.len, |s.queue|;
            && Receives(r) == n
            && t.handed == s.handed + Chunks(c.batchN, s.buf[..k] + s.queue)
            && |t.journal| == |s.journal| == c.outputs
            && (forall o | 0 <= o < c.outputs ::
                  |t.journal[o]| == |s.journal[o]| + CeilDiv(k + n, c.batchN))
  {
    RunInv(c, r);
    DrainedRun(c, r);
  }

  // --- Writes counted from the cancellation -------------------------------

  // How many batches the signals held and queued can become at most.
  function MostBatches(s: State): nat {
    |s.queue| + if Pending(s) == [] then 0 else 1
  }

  // Handed over or still to come, there are never more batches.
  lemma MostStep(c: Config, s: State, step: Step)
    requires Shape(c, s) && Enabled(c, s, step) && !step.Enqueue?
    ensures var t := Do(c, s, step); |t.handed| + MostBatches(t) <= |s.handed| + MostBatches(s)
  {
  }

  lemma {:induction false} MostRun(c: Config, r: Run)
    requires Legal(c, r) && Quiet(r) && Shape(c, First(r))
    ensures Shape(c, Last(c, r))
    ensures |Last(c, r).handed| + MostBatches(Last(c, r)) <= |First(r).handed| + MostBatches(First(r))
  {
    if r.Then? {
      MostRun(c, r.prev);
      MostStep(c, Last(c, r.prev), r.step);
      ShapeStep(c, Last(c, r.prev), r.step);
    }
  }

  // A batch takes at most batchN signals.
  lemma LeastStep(c: Config, s: State, step: Step)
    requires Shape(c, s) && Enabled(c, s, step)
    ensures var t := Do(c, s, step);
            && |s.handed| <= |t.handed| <= |s.handed| + 1
            && |Flatten(t.handed)| <= |Flatten(s.handed)| + if |t.handed| == |s.handed| then 0 else c.batchN
  {
    var t := Do(c, s, step);
    if t.handed != s.handed {
      FlattenAppend(s.handed, t.handed[|s.handed|]);
    }
  }

  lemma {:induction false} LeastRun(c: Config, r: Run)
    requires Legal(c, r) && Shape(c, First(r))
    ensures Shape(c, Last(c, r)) && |First(r).handed| <= |Last(c, r).handed|
    ensures var m := |Last(c, r).handed| - |First(r).handed|;
            |Flatten(Last(c, r).handed)| <= |Flatten(First(r).handed)| + c.batchN * m
  {
    if r.Then? {
      LeastRun(c, r.prev);
      LeastStep(c, Last(c, r.prev), r.step);
      ShapeStep(c, Last(c, r.prev), r.step);
      var m := |Last(c, r.prev).handed| - |First(r).handed|;
      assert c.batchN * (m + 1) == c.batchN * m + c.batchN;
    }
  }

  // Nothing accepted and nothing left: the signals held and queued went into
  // the new batches.
  lemma {:induction false} QuietRun(c: Config, r: Run)
    requires Legal(c, r) && Quiet(r) && (Sealing(First(r)) ==> First(r).queue == [])
    ensures Last(c, r).accepted == First(r).accepted && (Sealing(Last(c, r)) ==> Last(c, r).queue == [])
  {
    if r.Then? {
      QuietRun(c, r.prev);
    }
  }

  // What a run hands over.
  function NewBatches(c: Config, r: Run): int
    requires Legal(c, r)
  {
    |Last(c, r).handed| - |First(r).handed|
  }

  // A run to the end of the loop in which nothing is accepted.
  ghost predicate Completed(c: Config, s: State, r: Run) {
    Legal(c, r) && Quiet(r) && First(r) == s && Last(c, r).pc == Exited
  }

  // The context is cancelled and the loop has not noticed: it is at its select
  // or inside a fan-out that returns there.
  ghost predicate AtCancellation(c: Config, s: State) {
    Inv(c, s) && s.cancelled && BeforeDrain(s)
  }

  predicate BeforeDrain(s: State) {
    s.pc == Selecting || (s.pc.Writing? && s.pc.resume == ToSelect)
  }

  // Wherever the loop is, that is how the first cancellation finds it.
  lemma CancelFinds(c: Config, r: Run)
    requires Legal(c, r) && Init(c, First(r)) && !Last(c, r).cancelled
    ensures AtCancellation(c, Do(c, Last(c, r), Cancel))
  {
    InitInv(c, First(r));
    RunInv(c, Then(r, Cancel));
    DrainsCancelled(c, r);
  }

  lemma {:induction false} DrainsCancelled(c: Config, r: Run)
    requires Legal(c, r) && Init(c, First(r))
    ensures Last(c, r).cancelled || BeforeDrain(Last(c, r))
  {
    if r.Then? {
      DrainsCancelled(c, r.prev);
      StaysBeforeDrain(c, Last(c, r.prev), r.step);
    }
  }

  lemma StaysBeforeDrain(c: Config, s: State, step: Step)
    requires (s.cancelled || BeforeDrain(s)) && Enabled(c, s, step)
    ensures Do(c, s, step).cancelled || BeforeDrain(Do(c, s, step))
  {
  }

  // The least number of batches for what is held and queued.
  function LeastBatchCount(c: Config, s: State): nat
    requires c.Valid()
  {
    CeilDiv(|Pending(s)| + |s.queue|, c.batchN)
  }

  // The number of batches handed over before the loop is gone lies between the
  // least number and the most, and every output is offered all of them and the
  // rest of a fan-out that was under way.
  lemma WritesAfterCancel(c: Config, s: State, r: Run)
    requires Inv(c, s) && !Sealing(s) && Completed(c, s, r)
    ensures LeastBatchCount(c, s) <= NewBatches(c, r) <= MostBatches(s)
    ensures |Last(c, r).journal| == |s.journal| == c.outputs
    ensures forall o | 0 <= o < c.outputs ::
              |Last(c, r).journal[o]|
              == |s.journal[o]| + NewBatches(c, r) + if s.pc.Writing? && o >= s.pc.visited then 1 else 0
  {
    RunInv(c, r);
    MostRun(c, r);
    LeastRun(c, r);
    QuietRun(c, r);
    LeastBatches(c, s, Last(c, r), NewBatches(c, r));
  }

  lemma LeastBatches(c: Config, s: State, t: State, m: nat)
    requires c.Valid() && Conserved(s) && Conserved(t) && t.accepted == s.accepted && Shape(c, s)
    requires t.pc == Exited && t.len == 0 && t.queue == []
    requires |Flatten(t.handed)| <= |Flatten(s.handed)| + c.batchN * m
    ensures LeastBatchCount(c, s) <= m
  {
    assert |s.accepted| == |Flatten(s.handed)| + |Pending(s)| + |s.queue|;
    assert |t.accepted| == |Flatten(t.handed)|;
    CeilDivLeast(|Pending(s)| + |s.queue|, c.batchN, m);
  }

  // A fan-out under way comes to its end.
  lemma ToSelectPoint(c: Config, s: State) returns (r: Run)
    requires AtCancellation(c, s)
    ensures Legal(c, r) && Quiet(r) && First(r) == s
    ensures var u := Last(c, r);
            && Inv(c, u) && u.pc == Selecting && u.cancelled
            && u.handed == s.handed && u.queue == s.queue && Pending(u) == Pending(s)
  {
    r := Start(s);
    if s.pc.Writing? {
      r := FanOut(c, r);
    }
    RunInv(c, r);
  }

  // The least is reached by a loop that notices at once.
  lemma FewestWrites(c: Config, s: State) returns (r: Run)
    requires AtCancellation(c, s)
    ensures Completed(c, s, r) && NewBatches(c, r) == LeastBatchCount(c, s)
  {
    var r0 := ToSelectPoint(c, s);
    var q := FewestFromSelect(c, Last(c, r0));
    r := Prefixed(c, r0, q);
  }

  lemma FewestFromSelect(c: Config, u: State) returns (q: Run)
    requires Inv(c, u) && u.pc == Selecting && u.cancelled
    ensures Completed(c, u, q) && NewBatches(c, q) == LeastBatchCount(c, u)
  {
    NoticeInv(c, u);
    q := FewestOfDrain(c, u.(pc := Draining));
    q := NoticeFirst(c, u, q);
  }

  lemma NoticeFirst(c: Config, s: State, q: Run) returns (r: Run)
    requires Enabled(c, s, NoticeCancel) && Completed(c, s.(pc := Draining), q)
    ensures Completed(c, s, r) && NewBatches(c, r) == NewBatches(c, q)
  {
    r := Extend(c, Start(s), NoticeCancel);
    r := Prefixed(c, r, q);
  }

  lemma FewestOfDrain(c: Config, t: State) returns (q: Run)
    requires Inv(c, t) && t.pc == Draining
    ensures Completed(c, t, q) && NewBatches(c, q) == CeilDiv(t.len + |t.queue|, c.batchN)
  {
    q := DrainFinishes(c, Start(t));
    DrainCounts(c, q);
    ChunksPartition(c.batchN, t.buf[..t.len] + t.queue);
  }

  lemma NoticeInv(c: Config, s: State)
    requires Inv(c, s) && Enabled(c, s, NoticeCancel)
    ensures Inv(c, s.(pc := Draining))
  {
    RunInv(c, Then(Start(s), NoticeCancel));
  }

  // One run after another.
  lemma {:induction false} Prefixed(c: Config, r0: Run, q: Run) returns (r: Run)
    requires Legal(c, r0) && Legal(c, q) && First(q) == Last(c, r0)
    ensures Legal(c, r) && First(r) == First(r0) && Last(c, r) == Last(c, q)
    ensures Quiet(r0) && Quiet(q) ==> Quiet(r)
    decreases q
  {
    if q.Start? {
      r := r0;
    } else {
      r := Prefixed(c, r0, q.prev);
      r := Extend(c, r, q.step);
    }
  }

  // The most by one whose ticker fires after every receive.
  lemma MostWrites(c: Config, s: State) returns (r: Run)
    requires AtCancellation(c, s)
    ensures Completed(c, s, r) && NewBatches(c, r) == MostBatches(s)
  {
    r := ToSelectPoint(c, s);
    if Last(c, r).len > 0 {
      r := TickOut(c, r);
    }
    r := OneByOne(c, r);
    r := Extend(c, r, NoticeCancel);
    r := Extend(c, r, DrainEmpty);
  }

  // A tick on a batch that is not empty, and the fan-out that follows.
  lemma TickOut(c: Config, r0: Run) returns (r: Run)
    requires Legal(c, r0) && Quiet(r0) && Shape(c, Last(c, r0))
    requires var s := Last(c, r0); s.pc == Selecting && s.len > 0
    ensures Legal(c, r) && Quiet(r) && First(r) == First(r0)
    ensures var s, t := Last(c, r0), Last(c, r);
            && Shape(c, t) && t.pc == Selecting && t.len == 0 && t.queue == s.queue
            && t.cancelled == s.cancelled && |t.handed| == |s.handed| + 1
  {
    ShapeStep(c, Last(c, r0), Tick);
    r := Extend(c, r0, Tick);
    r := FanOut(c, r);
  }

  // write brought to its end.
  lemma {:induction false} FanOut(c: Config, r0: Run) returns (r: Run)
    requires Legal(c, r0) && Quiet(r0) && Shape(c, Last(c, r0))
    requires var s := Last(c, r0); s.pc.Writing? && s.pc.resume == ToSelect
    ensures Legal(c, r) && Quiet(r) && First(r) == First(r0)
    ensures var s, t := Last(c, r0), Last(c, r);
            && Shape(c, t) && t.pc == Selecting && t.len == 0 && t.queue == s.queue
            && t.cancelled == s.cancelled && t.handed == s.handed
    decreases c.outputs - Last(c, r0).pc.visited
  {
    var s := Last(c, r0);
    var step := if s.pc.visited < c.outputs then WriteOne(true) else WriteDone;
    ShapeStep(c, s, step);
    r := Extend(c, r0, step);
    if s.pc.visited < c.outputs {
      r := FanOut(c, r);
    }
  }

  lemma {:induction false} OneByOne(c: Config, r0: Run) returns (r: Run)
    requires Legal(c, r0) && Quiet(r0) && Shape(c, Last(c, r0))
    requires var s := Last(c, r0); s.pc == Selecting && s.len == 0
    ensures Legal(c, r) && Quiet(r) && First(r) == First(r0)
    ensures var s, t := Last(c, r0), Last(c, r);
            && t.pc == Selecting && t.len == 0 && t.queue == [] && t.cancelled == s.cancelled
            && |t.handed| == |s.handed| + |s.queue|
    decreases |Last(c, r0).queue|
  {
    var s := Last(c, r0);
    r := r0;
    if s.queue != [] {
      ShapeStep(c, s, Receive);
      r := Extend(c, r0, Receive);
      if Last(c, r).pc.Writing? {
        r := FanOut(c, r);
      } else {
        r := TickOut(c, r);
      }
      r := OneByOne(c, r);
    }
  }

  // So every completed quiet run hands over the least number of batches exactly
  // when there is only one number it can be, which can be told at the
  // cancellation.
  lemma CeilWritesIff(c: Config, s: State)
    requires AtCancellation(c, s)
    ensures (forall r: Run | Completed(c, s, r) :: NewBatches(c, r) == LeastBatchCount(c, s))
            <==> MostBatches(s) == LeastBatchCount(c, s)
  {
    var most := MostWrites(c, s);
    assert Completed(c, s, most);
    forall r: Run | Completed(c, s, r)
      ensures LeastBatchCount(c, s) <= NewBatches(c, r) <= MostBatches(s)
    {
      WritesAfterCancel(c, s, r);
    }
  }

  // One signal held and one queued when batches hold two: one batch would do,
  // and two are written.
  lemma TickAfterCancel(a: Event, b: Event) returns (c: Config, s: State, r: Run)
    ensures AtCancellation(c, s) && s.buf[..s.len] == [a] && s.queue == [b] && c.batchN == 2
    ensures Completed(c, s, r) && LeastBatchCount(c, s) == 1 && NewBatches(c, r) == 2
  {
    c := Config(4, 2, 0);
    s := State([b], [a, a], 1, true, Selecting, NotStopping, 0, [a, b], [], [], [], 0);
    assert Pending(s) == [a];
    r := MostWrites(c, s);
  }
}
