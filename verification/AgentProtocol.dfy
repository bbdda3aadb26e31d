// sdk/agent/agent.go as a step system: any number of enqueue calls, the two
// workers, the collector goroutine, a caller of Sync, the call of Close that
// wins the swap, further calls of Close, and cancellation of the context given
// to Start. It begins after the one call of Start.
module AgentProtocol {
  import opened Signals

  const WORKERS := 2

  // maxSends bounds the Send calls of one sendOne, which loops over the
  // selected transports and, for each failed one, over all transports.
  datatype Config = Config(queueSize: nat, transports: nat, maxSends: nat)

  // A worker between the receive and inflight.Add(1) is Received; inside
  // sendOne, with at most `budget` Sends to go, it is Sending.
  datatype Worker =
    | Selecting
    | Received(index: nat, sig: Event, draining: bool)
    | Sending(index: nat, sig: Event, draining: bool, budget: nat)
    | Draining
    | Gone

  datatype Collector = Collecting | Passed(sig: Event) | Left

  datatype Closer = NotCalled | Swapped | Cancelled | Waited | Synced | Closing(visited: nat) | Returned

  // A Sync whose first read gave zero remembers how much had been accepted.
  datatype Syncer = Reading | QueueEmpty(mark: nat) | Quiescent(mark: nat) | TimedOut

  datatype Act = SendAct(worker: nat, transport: nat) | CloseAct(transport: nat)

  // window holds the signals of enqueue calls that have passed the closed
  // check and not yet tried the queue. Histories: offered counts the calls
  // that passed the check, accepted lists what entered the queue, taken counts
  // what left it, finished lists the indices whose sendOne returned, trail
  // lists Sends and Closes; swapMark and swapWindow are |accepted| and the
  // number of calls in the window at the swap, sealed is |accepted| when a
  // drain last saw the queue empty.
  datatype State = State(
    queue: seq<Event>,
    window: multiset<Event>,
    closed: bool,
    cancelled: bool,
    parentCancelled: bool,
    inflight: int,
    dropped: nat,
    workers: seq<Worker>,
    collector: Collector,
    closer: Closer,
    syncer: Syncer,
    offered: nat,
    accepted: seq<Event>,
    taken: nat,
    finished: seq<nat>,
    trail: seq<Act>,
    swapMark: nat,
    swapWindow: nat,
    sealed: nat)

  datatype Step =
    | Check(sig: Event)
    | Push(sig: Event)
    | CollectorCheck(sig: Event)
    | CollectorPush
    | CollectorLeave
    | ParentCancel
    | Receive(w: nat)
    | NoticeCancel(w: nat)
    | Count(w: nat, budget: nat)
    | Send(w: nat, transport: nat)
    | Finish(w: nat)
    | Leave(w: nat)
    | SyncReadQueue
    | SyncReadInflight
    | SyncDeadline
    | SyncAgain
    | Swap
    | CloseAgain
    | CancelWorkers
    | WaitDone
    | CloseSync
    | CloseOne
    | CloseReturn

  predicate Init(c: Config, s: State) {
    && c.queueSize > 0
    && s.queue == [] && s.window == multiset{} && !s.closed && !s.cancelled && !s.parentCancelled
    && s.inflight == 0 && s.dropped == 0 && s.workers == [Selecting, Selecting]
    && (s.collector == Collecting || s.collector == Left)
    && s.closer == NotCalled && s.syncer == Reading
    && s.offered == 0 && s.accepted == [] && s.taken == 0 && s.finished == [] && s.trail == []
    && s.swapMark == 0 && s.swapWindow == 0 && s.sealed == 0
  }

  predicate Enabled(c: Config, s: State, step: Step) {
    match step
    case Check(_) => true
    case Push(sig) => sig in s.window
    case CollectorCheck(_) => s.collector == Collecting
    case CollectorPush => s.collector.Passed?
    case CollectorLeave => s.collector == Collecting && s.cancelled
    case ParentCancel => true
    case Receive(w) => w < |s.workers| && (s.workers[w] == Selecting || s.workers[w] == Draining) && s.queue != []
    case NoticeCancel(w) => w < |s.workers| && s.workers[w] == Selecting && s.cancelled
    case Count(w, budget) => w < |s.workers| && s.workers[w].Received? && budget <= c.maxSends
    case Send(w, t) => w < |s.workers| && s.workers[w].Sending? && s.workers[w].budget > 0 && t < c.transports
    case Finish(w) => w < |s.workers| && s.workers[w].Sending?
    case Leave(w) => w < |s.workers| && s.workers[w] == Draining && s.queue == []
    case SyncReadQueue => s.syncer == Reading && s.queue == []
    case SyncReadInflight => s.syncer.QueueEmpty?
    case SyncDeadline => s.syncer == Reading
    case SyncAgain => s.syncer.Quiescent? || s.syncer.TimedOut?
    case Swap => !s.closed
    case CloseAgain => s.closed
    case CancelWorkers => s.closer == Swapped
    case WaitDone => s.closer == Closer.Cancelled && (forall w | w in s.workers :: w == Gone) && s.collector == Left
    case CloseSync => s.closer == Waited
    case CloseOne => (s.closer == Synced && 0 < c.transports) || (s.closer.Closing? && s.closer.visited < c.transports)
    case CloseReturn => (s.closer == Synced && 0 == c.transports)
                        || (s.closer.Closing? && s.closer.visited >= c.transports)
  }

  // The select with default in enqueue.
  function TryQueue(c: Config, s: State, sig: Event): State {
    if |s.queue| < c.queueSize then s.(queue := s.queue + [sig], accepted := s.accepted + [sig])
    else s.(dropped := s.dropped + 1)
  }

  function InWindow(s: State): nat {
    |s.window| + if s.collector.Passed? then 1 else 0
  }

  function Do(c: Config, s: State, step: Step): State
    requires Enabled(c, s, step)
  {
    match step
    case Check(sig) => if s.closed then s else s.(window := s.window + multiset{sig}, offered := s.offered + 1)
    case Push(sig) => TryQueue(c, s.(window := s.window - multiset{sig}), sig)
    case CollectorCheck(sig) => if s.closed then s else s.(collector := Passed(sig), offered := s.offered + 1)
    case CollectorPush => TryQueue(c, s.(collector := Collecting), s.collector.sig)
    case CollectorLeave => s.(collector := Left)
    case ParentCancel => s.(cancelled := true, parentCancelled := true)
    case Receive(w) =>
      s.(queue := s.queue[1..], taken := s.taken + 1,
         workers := s.workers[w := Received(s.taken, s.queue[0], s.workers[w] == Draining)])
    case NoticeCancel(w) => s.(workers := s.workers[w := Draining])
    case Count(w, budget) =>
      var k := s.workers[w];
      s.(inflight := s.inflight + 1, workers := s.workers[w := Sending(k.index, k.sig, k.draining, budget)])
    case Send(w, t) =>
      var k := s.workers[w];
      s.(trail := s.trail + [SendAct(w, t)], workers := s.workers[w := k.(budget := k.budget - 1)])
    case Finish(w) =>
      var k := s.workers[w];
      s.(inflight := s.inflight - 1, finished := s.finished + [k.index],
         workers := s.workers[w := if k.draining then Draining else Selecting])
    case Leave(w) => s.(workers := s.workers[w := Gone], sealed := |s.accepted|)
    case SyncReadQueue => s.(syncer := QueueEmpty(|s.accepted|))
    case SyncReadInflight => s.(syncer := if s.inflight == 0 then Quiescent(s.syncer.mark) else Reading)
    case SyncDeadline => s.(syncer := TimedOut)
    case SyncAgain => s.(syncer := Reading)
    case Swap => s.(closed := true, closer := Swapped, swapMark := |s.accepted|, swapWindow := InWindow(s))
    case CloseAgain => s
    case CancelWorkers => s.(closer := Closer.Cancelled, cancelled := true)
    case WaitDone => s.(closer := Waited)
    case CloseSync => s.(closer := Synced)
    case CloseOne =>
      var t := if s.closer == Synced then 0 else s.closer.visited;
      s.(trail := s.trail + [CloseAct(t)], closer := Closing(t + 1))
    case CloseReturn => s.(closer := Returned)
  }

  datatype Run = Start(first: State) | Then(prev: Run, step: Step)

  function First(r: Run): State {
    match r case Start(s) => s case Then(p, _) => First(p)
  }

  predicate Legal(c: Config, r: Run)
    decreases r, 0
  {
    r.Start? || (Legal(c, r.prev) && Enabled(c, Last(c, r.prev), r.step))
  }

  function Last(c: Config, r: Run): State
    requires Legal(c, r)
    decreases r, 1
  {
    match r case Start(s) => s case Then(p, step) => Do(c, Last(c, p), step)
  }

  lemma Extend(c: Config, r: Run, step: Step) returns (q: Run)
    requires Legal(c, r) && Enabled(c, Last(c, r), step)
    ensures q == Then(r, step)
    ensures Legal(c, q) && First(q) == First(r) && Last(c, q) == Do(c, Last(c, r), step)
  {
    q := Then(r, step);
  }

  predicate Holds(k: Worker, i: nat) {
    (k.Received? || k.Sending?) && k.index == i
  }

  function HeldTimes(s: State, i: nat): nat
    requires |s.workers| == WORKERS
  {
    (if Holds(s.workers[0], i) then 1 else 0) + (if Holds(s.workers[1], i) then 1 else 0)
  }

  function SendingNow(s: State): nat
    requires |s.workers| == WORKERS
  {
    (if s.workers[0].Sending? then 1 else 0) + (if s.workers[1].Sending? then 1 else 0)
  }

  // accepted = queued + held + finished, each accepted signal being in exactly
  // one of the three and finished at most once.
  ghost predicate Accounted(s: State) {
    && |s.workers| == WORKERS
    && s.taken <= |s.accepted| && s.queue == s.accepted[s.taken..]
    && (forall i: nat | i < s.taken :: multiset(s.finished)[i] + HeldTimes(s, i) == 1)
    && (forall i: nat | i >= s.taken :: multiset(s.finished)[i] == 0 && HeldTimes(s, i) == 0)
    && (forall w | 0 <= w < WORKERS && (s.workers[w].Received? || s.workers[w].Sending?) ::
          s.workers[w].index < s.taken && s.workers[w].sig == s.accepted[s.workers[w].index])
  }

  ghost predicate InflightCounts(s: State) {
    |s.workers| == WORKERS && s.inflight == SendingNow(s)
  }

  predicate OffersCount(s: State) {
    s.offered == |s.accepted| + s.dropped + InWindow(s)
  }

  predicate AllGone(s: State) {
    |s.workers| == WORKERS && s.workers[0] == Gone && s.workers[1] == Gone
  }

  predicate Drains(k: Worker) {
    k == Draining || k == Gone || ((k.Received? || k.Sending?) && k.draining)
  }

  // Once closed, only the calls then in the window can still be accepted.
  predicate LateOnes(s: State) {
    && (s.closer != NotCalled <==> s.closed)
    && (s.closed ==> s.swapMark <= |s.accepted|
                     && |s.accepted| - s.swapMark + InWindow(s) <= s.swapWindow)
  }

  // A worker drains only on cancellation, which is Close's unless the parent
  // context ended, and leaves only with the queue empty.
  predicate Drained(s: State) {
    && |s.workers| == WORKERS
    && (s.cancelled && !s.parentCancelled ==> s.closer != NotCalled && s.closer != Swapped)
    && (s.closer != NotCalled && s.closer != Swapped ==> s.cancelled)
    && (Drains(s.workers[0]) || Drains(s.workers[1]) ==> s.cancelled)
    && s.sealed <= |s.accepted|
    && (AllGone(s) ==> s.taken == s.sealed)
    && ((s.workers[0] == Gone || s.workers[1] == Gone) && !s.parentCancelled ==> s.swapMark <= s.sealed)
    && ((s.workers[0] == Gone || s.workers[1] == Gone) ==> s.sealed <= s.taken)
  }

  predicate Joined(s: State) {
    s.closer == Waited || s.closer == Synced || s.closer.Closing? || s.closer == Returned ==>
      AllGone(s) && s.collector == Left
  }

  ghost predicate SyncOk(s: State) {
    s.syncer.QueueEmpty? ==> s.syncer.mark <= s.taken
  }

  // How many transports have been closed.
  function ClosesDone(c: Config, s: State): nat {
    if s.closer.Closing? then s.closer.visited else if s.closer == Returned then c.transports else 0
  }

  predicate AllSends(trail: seq<Act>) {
    forall i | 0 <= i < |trail| :: trail[i].SendAct?
  }

  // Sends only, then one Close of each of the first k transports in order.
  predicate SendsThenCloses(trail: seq<Act>, k: nat) {
    if k == 0 then AllSends(trail)
    else
      && trail != []
      && trail[|trail| - 1] == CloseAct(k - 1)
      && SendsThenCloses(trail[..|trail| - 1], k - 1)
  }

  lemma {:induction false} TrailOrder(trail: seq<Act>, k: nat)
    requires SendsThenCloses(trail, k)
    ensures forall i, j | 0 <= i < j < |trail| && trail[j].SendAct? :: trail[i].SendAct?
    ensures forall t: nat :: multiset(trail)[CloseAct(t)] == if t < k then 1 else 0
  {
    if k == 0 {
      assert forall t: nat :: CloseAct(t) !in trail;
    } else {
      var front := trail[..|trail| - 1];
      TrailOrder(front, k - 1);
      assert trail == front + [CloseAct(k - 1)];
      forall i, j | 0 <= i < j < |trail| && trail[j].SendAct? ensures trail[i].SendAct? {
        assert front[i] == trail[i] && front[j] == trail[j];
      }
      assert multiset(trail) == multiset(front) + multiset{CloseAct(k - 1)};
    }
  }

  predicate SendsFirst(c: Config, s: State) {
    ClosesDone(c, s) <= c.transports && SendsThenCloses(s.trail, ClosesDone(c, s))
  }

  ghost predicate Inv(c: Config, s: State) {
    && Accounted(s) && InflightCounts(s) && OffersCount(s)
    && LateOnes(s) && Drained(s) && Joined(s) && SyncOk(s) && SendsFirst(c, s)
  }

  lemma InitInv(c: Config, s: State)
    requires Init(c, s)
    ensures Inv(c, s)
  {
  }

  predicate OfWorker(step: Step) {
    step.Receive? || step.NoticeCancel? || step.Count? || step.Send? || step.Finish? || step.Leave?
  }

  // A worker's step changes that worker and none of the rest of the state that
  // the producers, the collector and Close change.
  lemma WorkerFrame(c: Config, s: State, step: Step)
    requires |s.workers| == WORKERS && OfWorker(step) && Enabled(c, s, step)
    ensures var t := Do(c, s, step);
            && (step.w == 0 || step.w == 1)
            && t.workers == s.workers[step.w := t.workers[step.w]]
            && t.window == s.window && t.closed == s.closed && t.cancelled == s.cancelled
            && t.parentCancelled == s.parentCancelled && t.dropped == s.dropped && t.collector == s.collector
            && t.closer == s.closer && t.offered == s.offered && t.accepted == s.accepted
            && t.swapMark == s.swapMark && t.swapWindow == s.swapWindow
  {
  }

  // The other steps leave the workers and what they count alone.
  lemma OtherFrame(c: Config, s: State, step: Step)
    requires !OfWorker(step) && Enabled(c, s, step)
    ensures var t := Do(c, s, step);
            && t.workers == s.workers && t.inflight == s.inflight && t.finished == s.finished
            && t.taken == s.taken && t.sealed == s.sealed
  {
  }

  lemma AccountedStep(c: Config, s: State, step: Step)
    requires Accounted(s) && Enabled(c, s, step)
    ensures Accounted(Do(c, s, step))
  {
    if OfWorker(step) {
      AccountedWorker(c, s, step);
    } else {
      OtherFrame(c, s, step);
      QueueFrame(c, s, step);
      AccountedPush(s, Do(c, s, step));
    }
  }

  lemma AccountedWorker(c: Config, s: State, step: Step)
    requires Accounted(s) && OfWorker(step) && Enabled(c, s, step)
    ensures Accounted(Do(c, s, step))
  {
    var t := Do(c, s, step);
    WorkerFrame(c, s, step);
    if step.Receive? {
      AccountedReceive(s, t, step.w);
    } else if step.Finish? {
      AccountedFinish(s, t, step.w);
    } else {
      AccountedMove(s, t, step.w);
    }
  }

  // At most one signal enters the queue.
  lemma QueueFrame(c: Config, s: State, step: Step)
    requires !OfWorker(step) && Enabled(c, s, step)
    ensures var t := Do(c, s, step);
            || (t.queue == s.queue && t.accepted == s.accepted)
            || (t.accepted != [] && var sig := t.accepted[|t.accepted| - 1];
                t.queue == s.queue + [sig] && t.accepted == s.accepted + [sig])
  {
  }

  // What the accounting needs of a worker that goes from k to m.
  predicate SameHolding(k: Worker, m: Worker) {
    && (k.Received? || k.Sending? <==> m.Received? || m.Sending?)
    && (k.Received? || k.Sending? ==> k.index == m.index && k.sig == m.sig)
  }

  lemma AccountedMove(s: State, t: State, w: nat)
    requires Accounted(s) && w < WORKERS && |t.workers| == WORKERS
    requires t.workers == s.workers[w := t.workers[w]] && SameHolding(s.workers[w], t.workers[w])
    requires t.queue == s.queue && t.accepted == s.accepted && t.taken == s.taken && t.finished == s.finished
    ensures Accounted(t)
  {
    forall i: nat ensures HeldTimes(t, i) == HeldTimes(s, i) {
    }
  }

  lemma AccountedReceive(s: State, t: State, w: nat)
    requires Accounted(s) && w < WORKERS && |t.workers| == WORKERS && s.queue != []
    requires s.workers[w] == Selecting || s.workers[w] == Draining
    requires t.workers == s.workers[w := t.workers[w]]
    requires t.workers[w].Received? && t.workers[w].index == s.taken && t.workers[w].sig == s.queue[0]
    requires t.queue == s.queue[1..] && t.accepted == s.accepted && t.taken == s.taken + 1 && t.finished == s.finished
    ensures Accounted(t)
  {
    assert t.queue == t.accepted[t.taken..];
    forall i: nat ensures HeldTimes(t, i) == HeldTimes(s, i) + if i == s.taken then 1 else 0 {
    }
  }

  lemma AccountedFinish(s: State, t: State, w: nat)
    requires Accounted(s) && w < WORKERS && |t.workers| == WORKERS && s.workers[w].Sending?
    requires t.workers == s.workers[w := t.workers[w]] && (t.workers[w] == Draining || t.workers[w] == Selecting)
    requires t.queue == s.queue && t.accepted == s.accepted && t.taken == s.taken
    requires t.finished == s.finished + [s.workers[w].index]
    ensures Accounted(t)
  {
    var k := s.workers[w].index;
    assert multiset(t.finished) == multiset(s.finished) + multiset{k};
    forall i: nat ensures HeldTimes(t, i) == HeldTimes(s, i) - if i == k then 1 else 0 {
    }
  }

  lemma AccountedPush(s: State, t: State)
    requires Accounted(s) && t.workers == s.workers && t.finished == s.finished && t.taken == s.taken
    requires || (t.queue == s.queue && t.accepted == s.accepted)
             || (t.accepted != [] && var sig := t.accepted[|t.accepted| - 1];
                 t.queue == s.queue + [sig] && t.accepted == s.accepted + [sig])
    ensures Accounted(t)
  {
    assert t.queue == t.accepted[t.taken..];
    forall i: nat ensures HeldTimes(t, i) == HeldTimes(s, i) {
    }
  }

  lemma InflightStep(c: Config, s: State, step: Step)
    requires InflightCounts(s) && Enabled(c, s, step)
    ensures InflightCounts(Do(c, s, step))
  {
    if OfWorker(step) {
      WorkerFrame(c, s, step);
      var k, m := s.workers[step.w], Do(c, s, step).workers[step.w];
      assert Do(c, s, step).inflight
          == s.inflight + (if m.Sending? then 1 else 0) - (if k.Sending? then 1 else 0);
    } else {
      OtherFrame(c, s, step);
    }
  }

  lemma OffersStep(c: Config, s: State, step: Step)
    requires |s.workers| == WORKERS && OffersCount(s) && Enabled(c, s, step)
    ensures OffersCount(Do(c, s, step))
  {
    if OfWorker(step) {
      WorkerFrame(c, s, step);
    } else {
      WindowFrame(c, s, step);
    }
  }

  // A call that passes the check enters the window, and leaves it by being
  // accepted or dropped.
  lemma WindowFrame(c: Config, s: State, step: Step)
    requires !OfWorker(step) && Enabled(c, s, step)
    ensures var t := Do(c, s, step);
            && t.offered - s.offered == |t.accepted| - |s.accepted| + t.dropped - s.dropped + InWindow(t) - InWindow(s)
            && |t.accepted| >= |s.accepted| && t.dropped >= s.dropped
            && (s.closed ==> t.offered == s.offered)
  {
    if step.Push? {
      assert |s.window - multiset{step.sig}| == |s.window| - 1;
      TryQueueFrame(c, s.(window := s.window - multiset{step.sig}), step.sig);
    } else if step.CollectorPush? {
      TryQueueFrame(c, s.(collector := Collecting), s.collector.sig);
    } else if step.Check? {
      assert |s.window + multiset{step.sig}| == |s.window| + 1;
    }
  }

  lemma TryQueueFrame(c: Config, s: State, sig: Event)
    ensures var t := TryQueue(c, s, sig);
            && |t.accepted| + t.dropped == |s.accepted| + s.dropped + 1
            && |t.accepted| >= |s.accepted| && t.dropped >= s.dropped
            && t.offered == s.offered && t.window == s.window && t.collector == s.collector
  {
  }

  // Only the swap closes the agent.
  lemma SwapFrame(c: Config, s: State, step: Step)
    requires !OfWorker(step) && !step.Swap? && Enabled(c, s, step)
    ensures var t := Do(c, s, step);
            && t.closed == s.closed && t.swapMark == s.swapMark && t.swapWindow == s.swapWindow
            && (t.closer == NotCalled <==> s.closer == NotCalled)
  {
  }

  lemma LateOnesStep(c: Config, s: State, step: Step)
    requires |s.workers| == WORKERS && LateOnes(s) && Enabled(c, s, step)
    ensures LateOnes(Do(c, s, step))
  {
    if OfWorker(step) {
      WorkerFrame(c, s, step);
    } else if !step.Swap? {
      SwapFrame(c, s, step);
      WindowFrame(c, s, step);
    }
  }

  lemma DrainedStep(c: Config, s: State, step: Step)
    requires Accounted(s) && LateOnes(s) && Drained(s) && Enabled(c, s, step)
    ensures Drained(Do(c, s, step))
  {
    if OfWorker(step) {
      WorkerFrame(c, s, step);
      DrainedWorker(c, s, step);
    } else {
      OtherFrame(c, s, step);
      DrainedOther(c, s, step);
    }
  }

  lemma DrainedWorker(c: Config, s: State, step: Step)
    requires Accounted(s) && LateOnes(s) && Drained(s) && OfWorker(step) && Enabled(c, s, step)
    requires step.w < WORKERS
    ensures Drained(Do(c, s, step))
  {
    WorkerFrame(c, s, step);
    var t := Do(c, s, step);
    var k, m := s.workers[step.w], t.workers[step.w];
    assert k != Gone;
    assert step.Leave? ==> t.sealed == |s.accepted| == s.taken && t.taken == s.taken;
    assert !step.Leave? ==> t.sealed == s.sealed && m != Gone && t.taken >= s.taken;
    assert Drains(m) ==> Drains(k) || s.cancelled;
  }

  lemma DrainedOther(c: Config, s: State, step: Step)
    requires LateOnes(s) && Drained(s) && !OfWorker(step) && Enabled(c, s, step)
    ensures Drained(Do(c, s, step))
  {
    OtherFrame(c, s, step);
    var t := Do(c, s, step);
    assert |t.accepted| >= |s.accepted| && (s.cancelled ==> t.cancelled) && (s.parentCancelled ==> t.parentCancelled);
    assert step.Swap? || t.swapMark == s.swapMark;
  }

  lemma JoinedStep(c: Config, s: State, step: Step)
    requires Drained(s) && Joined(s) && Enabled(c, s, step)
    ensures Joined(Do(c, s, step))
  {
    if OfWorker(step) {
      WorkerFrame(c, s, step);
      assert s.workers[step.w] != Gone;
    } else {
      OtherFrame(c, s, step);
      if step.WaitDone? {
        assert s.workers[0] in s.workers && s.workers[1] in s.workers;
      }
    }
  }

  lemma SyncStep(c: Config, s: State, step: Step)
    requires Accounted(s) && SyncOk(s) && Enabled(c, s, step)
    ensures SyncOk(Do(c, s, step))
  {
  }

  lemma SendsFirstStep(c: Config, s: State, step: Step)
    requires |s.workers| == WORKERS
    requires Joined(s) && LateOnes(s) && SendsFirst(c, s) && Enabled(c, s, step)
    requires step.Send? ==> !AllGone(s)
    ensures SendsFirst(c, Do(c, s, step))
  {
    var t := Do(c, s, step);
    var k := ClosesDone(c, s);
    if step.CloseOne? {
      CloseAppends(s.trail, k);
    } else if step.Send? {
      assert k == 0 && ClosesDone(c, t) == 0;
    } else if OfWorker(step) {
      WorkerFrame(c, s, step);
      assert t.trail == s.trail;
    } else {
      TrailFrame(c, s, step);
    }
  }

  lemma CloseAppends(trail: seq<Act>, k: nat)
    requires SendsThenCloses(trail, k)
    ensures SendsThenCloses(trail + [CloseAct(k)], k + 1)
  {
    var more := trail + [CloseAct(k)];
    assert more[..|more| - 1] == trail;
  }

  lemma TrailFrame(c: Config, s: State, step: Step)
    requires LateOnes(s) && Enabled(c, s, step) && !step.CloseOne? && !OfWorker(step)
    requires ClosesDone(c, s) <= c.transports
    ensures Do(c, s, step).trail == s.trail && ClosesDone(c, Do(c, s, step)) == ClosesDone(c, s)
  {
    if !OfCloser(step) {
      CloserFrame(c, s, step);
    }
  }

  predicate OfCloser(step: Step) {
    step.Swap? || step.CancelWorkers? || step.WaitDone? || step.CloseSync? || step.CloseOne? || step.CloseReturn?
  }

  lemma CloserFrame(c: Config, s: State, step: Step)
    requires Enabled(c, s, step) && !OfCloser(step) && !OfWorker(step)
    ensures Do(c, s, step).trail == s.trail && Do(c, s, step).closer == s.closer
  {
  }

  lemma {:induction false} RunInv(c: Config, r: Run)
    requires Legal(c, r) && Inv(c, First(r))
    ensures Inv(c, Last(c, r))
  {
    if r.Then? {
      RunInv(c, r.prev);
      var s := Last(c, r.prev);
      AccountedStep(c, s, r.step);
      InflightStep(c, s, r.step);
      OffersStep(c, s, r.step);
      LateOnesStep(c, s, r.step);
      DrainedStep(c, s, r.step);
      JoinedStep(c, s, r.step);
      SyncStep(c, s, r.step);
      if r.step.Send? {
        assert r.step.w == 0 || r.step.w == 1;
      }
      SendsFirstStep(c, s, r.step);
    }
  }

  // In every interleaving of the workers, the collector, cancellation and
  // repeated calls of Close: what entered the queue is queued, held by one
  // worker or finished, in exactly one of these and at most once; what was
  // offered while open was accepted, dropped or is still on its way; inflight
  // is the number of workers inside sendOne; and no Send begins after any
  // Close, the transports being closed once each, in order.
  lemma AgentSafety(c: Config, r: Run)
    requires Legal(c, r) && Init(c, First(r))
    ensures var s := Last(c, r);
            && s.taken <= |s.accepted| && s.queue == s.accepted[s.taken..]
            && |s.workers| == WORKERS
            && (forall i: nat | i < |s.accepted| ::
                  multiset(s.finished)[i] + HeldTimes(s, i) + (if i >= s.taken then 1 else 0) == 1)
            && s.offered == |s.accepted| + s.dropped + InWindow(s)
            && (forall w | 0 <= w < WORKERS && (s.workers[w].Received? || s.workers[w].Sending?) ::
                  s.workers[w].index < |s.accepted| && s.workers[w].sig == s.accepted[s.workers[w].index])
            && s.inflight == SendingNow(s)
            && (forall i, j | 0 <= i < j < |s.trail| && s.trail[j].SendAct? :: s.trail[i].SendAct?)
            && (forall t: nat :: multiset(s.trail)[CloseAct(t)] <= 1)
  {
    InitInv(c, First(r));
    RunInv(c, r);
    TrailOrder(Last(c, r).trail, ClosesDone(c, Last(c, r)));
  }

  // The signal that a step lets past the closed check, and the one that finds
  // the queue full.
  function Passing(s: State, step: Step): multiset<Event> {
    if (step.Check? || step.CollectorCheck?) && !s.closed then multiset{step.sig} else multiset{}
  }

  function Finding(c: Config, s: State, step: Step): multiset<Event> {
    if |s.queue| != c.queueSize then multiset{}
    else if step.Push? then multiset{step.sig}
    else if step.CollectorPush? && s.collector.Passed? then multiset{s.collector.sig}
    else multiset{}
  }

  // All of a run.
  function Offered(c: Config, r: Run): multiset<Event>
    requires Legal(c, r)
  {
    match r case Start(_) => multiset{} case Then(p, step) => Offered(c, p) + Passing(Last(c, p), step)
  }

  function FoundFull(c: Config, r: Run): multiset<Event>
    requires Legal(c, r)
  {
    match r case Start(_) => multiset{} case Then(p, step) => FoundFull(c, p) + Finding(c, Last(c, p), step)
  }

  function OnTheirWay(s: State): multiset<Event> {
    s.window + if s.collector.Passed? then multiset{s.collector.sig} else multiset{}
  }

  ghost predicate Sorted(c: Config, s: State, offered: multiset<Event>, full: multiset<Event>) {
    && |s.queue| <= c.queueSize
    && offered == multiset(s.accepted) + full + OnTheirWay(s)
    && s.dropped == |full|
  }

  // Every signal offered while the agent was open has been accepted, has found
  // the queue full and been counted as dropped, or is still on its way.
  lemma {:induction false} DropsOnlyWhenFull(c: Config, r: Run)
    requires Legal(c, r) && Init(c, First(r))
    ensures Sorted(c, Last(c, r), Offered(c, r), FoundFull(c, r))
  {
    if r.Then? {
      DropsOnlyWhenFull(c, r.prev);
      var s := Last(c, r.prev);
      StepSorts(c, s, r.step);
      SortedNext(c, s, Last(c, r), r.step, Offered(c, r.prev), FoundFull(c, r.prev));
    }
  }

  lemma SortedNext(c: Config, s: State, t: State, step: Step, offered: multiset<Event>, full: multiset<Event>)
    requires Sorted(c, s, offered, full) && Sorts(c, s, t, step)
    ensures Sorted(c, t, offered + Passing(s, step), full + Finding(c, s, step))
  {
    Regroup(multiset(s.accepted), full, OnTheirWay(s), Passing(s, step), multiset(t.accepted), Finding(c, s, step),
            OnTheirWay(t));
  }

  lemma Regroup<T>(a: multiset<T>, full: multiset<T>, w: multiset<T>, passing: multiset<T>, b: multiset<T>,
                   finding: multiset<T>, x: multiset<T>)
    requires b + finding + x == a + passing + w
    ensures a + full + w + passing == b + (full + finding) + x
  {
    forall e: T ensures (a + full + w + passing)[e] == (b + (full + finding) + x)[e] {
      assert (b + finding + x)[e] == (a + passing + w)[e];
    }
  }

  // A step sorts the signals it concerns.
  ghost predicate Sorts(c: Config, s: State, t: State, step: Step) {
    && |t.queue| <= c.queueSize
    && multiset(t.accepted) + Finding(c, s, step) + OnTheirWay(t)
       == multiset(s.accepted) + Passing(s, step) + OnTheirWay(s)
    && t.dropped == s.dropped + |Finding(c, s, step)|
  }

  lemma StepSorts(c: Config, s: State, step: Step)
    requires Enabled(c, s, step) && |s.queue| <= c.queueSize
    ensures Sorts(c, s, Do(c, s, step), step)
  {
    if step.Push? || step.CollectorPush? {
      PushSorts(c, s, step);
    } else {
      OtherSorts(c, s, step);
    }
  }

  lemma PushSorts(c: Config, s: State, step: Step)
    requires Enabled(c, s, step) && |s.queue| <= c.queueSize && (step.Push? || step.CollectorPush?)
    ensures Sorts(c, s, Do(c, s, step), step)
  {
    if step.Push? {
      var t := s.(window := s.window - multiset{step.sig});
      TrySorts(c, s, t, step.sig);
      assert Do(c, s, step) == TryQueue(c, t, step.sig);
    } else {
      CollectorSorts(c, s);
    }
  }

  lemma CollectorSorts(c: Config, s: State)
    requires Enabled(c, s, CollectorPush) && |s.queue| <= c.queueSize
    ensures Sorts(c, s, Do(c, s, CollectorPush), CollectorPush)
  {
    var t := s.(collector := Collecting);
    TrySorts(c, s, t, s.collector.sig);
    assert Do(c, s, CollectorPush) == TryQueue(c, t, s.collector.sig);
  }

  lemma TrySorts(c: Config, s: State, t: State, sig: Event)
    requires t.queue == s.queue && t.accepted == s.accepted && t.dropped == s.dropped && |s.queue| <= c.queueSize
    requires OnTheirWay(s) == OnTheirWay(t) + multiset{sig}
    ensures var u := TryQueue(c, t, sig);
            var full := if |s.queue| == c.queueSize then multiset{sig} else multiset{};
            && multiset(u.accepted) + full + OnTheirWay(u) == multiset(s.accepted) + OnTheirWay(s)
            && u.dropped == s.dropped + |full| && |u.queue| <= c.queueSize
  {
  }

  lemma OtherSorts(c: Config, s: State, step: Step)
    requires Enabled(c, s, step) && |s.queue| <= c.queueSize && !step.Push? && !step.CollectorPush?
    ensures Sorts(c, s, Do(c, s, step), step)
  {
    var t := Do(c, s, step);
    NoPushFrame(c, s, step);
    assert Finding(c, s, step) == multiset{};
    assert OnTheirWay(t) == OnTheirWay(s) + Passing(s, step);
  }

  lemma NoPushFrame(c: Config, s: State, step: Step)
    requires Enabled(c, s, step) && !step.Push? && !step.CollectorPush?
    ensures var t := Do(c, s, step);
            && |t.queue| <= |s.queue| && t.accepted == s.accepted && t.dropped == s.dropped
            && (if step.Check? && !s.closed then t.window == s.window + multiset{step.sig} else t.window == s.window)
            && (if step.CollectorCheck? && !s.closed then !s.collector.Passed? && t.collector == Passed(step.sig)
                else t.collector == s.collector || (!t.collector.Passed? && !s.collector.Passed?))
  {
  }

  predicate ToTransports(c: Config, trail: seq<Act>) {
    forall i | 0 <= i < |trail| && trail[i].SendAct? :: trail[i].transport < c.transports
  }

  // Sends go to the agent's transports, and the collector leaves only when the
  // workers' context has ended, unless there was none.
  lemma {:induction false} StaysWithin(c: Config, r: Run)
    requires Legal(c, r) && Init(c, First(r))
    ensures var s := Last(c, r);
            && ToTransports(c, s.trail)
            && (s.collector == Left && First(r).collector != Left ==> s.cancelled)
  {
    if r.Then? {
      StaysWithin(c, r.prev);
      StepSends(c, Last(c, r.prev), r.step);
      StepLeaves(c, Last(c, r.prev), r.step);
    }
  }

  lemma StepSends(c: Config, s: State, step: Step)
    requires Enabled(c, s, step) && ToTransports(c, s.trail)
    ensures ToTransports(c, Do(c, s, step).trail)
  {
    if !step.Send? && !step.CloseOne? {
      assert Do(c, s, step).trail == s.trail;
    }
  }

  lemma StepLeaves(c: Config, s: State, step: Step)
    requires Enabled(c, s, step)
    ensures var t := Do(c, s, step);
            (t.collector == Left ==> s.collector == Left || s.cancelled) && (s.cancelled ==> t.cancelled)
  {
  }

  // The course of a Sync: after an empty queue it reads inflight, after that it
  // is over or begins its next round, it can run into its deadline between two
  // rounds, and only one that is over is followed by another.
  lemma SyncCourse(c: Config, s: State, step: Step)
    requires Enabled(c, s, step) && Do(c, s, step).syncer != s.syncer
    ensures match Do(c, s, step).syncer
            case Reading => s.syncer.Quiescent? || s.syncer.TimedOut? || (s.syncer.QueueEmpty? && s.inflight != 0)
            case QueueEmpty(mark) => s.syncer == Reading && s.queue == [] && mark == |s.accepted|
            case Quiescent(mark) => s.syncer == QueueEmpty(mark) && s.inflight == 0
            case TimedOut => s.syncer == Reading
  {
  }

  // What the collector offers an open agent with room in its queue can be
  // accepted next, and a Sync between two rounds can time out.
  lemma CollectorGetsIn(c: Config, r0: Run, sig: Event) returns (r: Run)
    requires Legal(c, r0) && Last(c, r0).collector == Collecting && !Last(c, r0).closed
    requires |Last(c, r0).queue| < c.queueSize
    ensures Legal(c, r) && First(r) == First(r0)
    ensures Last(c, r).accepted == Last(c, r0).accepted + [sig] && Last(c, r).syncer == Last(c, r0).syncer
  {
    r := Extend(c, r0, CollectorCheck(sig));
    r := Extend(c, r, CollectorPush);
  }

  lemma SyncGivesUp(c: Config, r0: Run) returns (r: Run)
    requires Legal(c, r0) && Last(c, r0).syncer == Reading
    ensures Legal(c, r) && First(r) == First(r0) && Last(c, r) == Last(c, r0).(syncer := TimedOut)
  {
    r := Extend(c, r0, SyncDeadline);
  }

  // Close returns with every transport closed once.
  lemma ClosesAll(c: Config, r: Run)
    requires Legal(c, r) && Init(c, First(r)) && Last(c, r).closer == Returned
    ensures forall t: nat | t < c.transports :: multiset(Last(c, r).trail)[CloseAct(t)] == 1
  {
    InitInv(c, First(r));
    RunInv(c, r);
    TrailOrder(Last(c, r).trail, c.transports);
  }

  // Sync's two reads have both just given zero: of the signals accepted before
  // the first read, the ones not finished are exactly those a worker has
  // received and not yet counted, so there are at most two.
  lemma SyncMisses(c: Config, r: Run)
    requires Legal(c, r) && Init(c, First(r))
    requires r.Then? && r.step == SyncReadInflight && Last(c, r).syncer.Quiescent?
    ensures var s := Last(c, r);
            && |s.workers| == WORKERS && s.syncer.mark <= |s.accepted|
            && forall i: nat | i < s.syncer.mark ::
                 && multiset(s.finished)[i] <= 1
                 && (multiset(s.finished)[i] == 0 <==>
                     (s.workers[0].Received? && s.workers[0].index == i)
                     || (s.workers[1].Received? && s.workers[1].index == i))
  {
    InitInv(c, First(r));
    RunInv(c, r);
    RunInv(c, r.prev);
  }

  // One call of enqueue.
  lemma PushOne(c: Config, r0: Run, a: Event) returns (r: Run)
    requires Legal(c, r0) && !Last(c, r0).closed && |Last(c, r0).queue| < c.queueSize
    ensures Legal(c, r) && First(r) == First(r0)
    ensures var s := Last(c, r0);
            Last(c, r) == s.(queue := s.queue + [a], accepted := s.accepted + [a], offered := s.offered + 1)
  {
    r := Extend(c, r0, Check(a));
    r := Extend(c, r, Push(a));
    assert Last(c, r0).window + multiset{a} - multiset{a} == Last(c, r0).window;
  }

  // The window is real: Sync succeeds while a worker holds a signal.
  lemma SyncCanMiss(a: Event) returns (c: Config, r: Run)
    ensures Legal(c, r) && Init(c, First(r))
    ensures var s := Last(c, r); s.syncer == Quiescent(1) && s.accepted == [a] && s.finished == []
  {
    c := Config(1, 1, 1);
    var s0 := State([], multiset{}, false, false, false, 0, 0, [Selecting, Selecting], Left, NotCalled, Reading,
                    0, [], 0, [], [], 0, 0, 0);
    assert Init(c, s0);
    r := PushOne(c, Start(s0), a);
    r := Extend(c, r, Receive(0));
    r := Extend(c, r, SyncReadQueue);
    r := Extend(c, r, SyncReadInflight);
  }

  // Close, once it is past its wait: every signal accepted before the workers
  // last saw the queue empty has been handled exactly once, and the later ones
  // are exactly what is left in the queue. When nothing but Close cancelled
  // the workers, that moment is not before its swap, and only calls already in
  // the window at the swap can have pushed after it.
  lemma CloseHandles(c: Config, r: Run)
    requires Legal(c, r) && Init(c, First(r))
    requires var k := Last(c, r).closer; k == Waited || k == Synced || k.Closing? || k == Returned
    ensures var s := Last(c, r);
            && s.sealed <= |s.accepted|
            && s.queue == s.accepted[s.sealed..]
            && (forall i: nat | i < s.sealed :: multiset(s.finished)[i] == 1)
            && (forall i: nat | i >= s.sealed :: multiset(s.finished)[i] == 0)
            && (!s.parentCancelled ==> s.swapMark <= s.sealed && |s.queue| + InWindow(s) <= s.swapWindow)
  {
    InitInv(c, First(r));
    RunInv(c, r);
  }

  // Both exceptions are real. A call in the window at the swap can push after
  // the drain, and if the parent context ends first the workers leave while
  // the agent still accepts.
  lemma WindowStrands(a: Event) returns (c: Config, r: Run)
    ensures Legal(c, r) && Init(c, First(r)) && !Last(c, r).parentCancelled
    ensures var s := Last(c, r); s.closer == Returned && s.accepted == [a] && s.queue == [a] && s.finished == []
  {
    c := Config(1, 0, 0);
    var s0 := State([], multiset{}, false, false, false, 0, 0, [Selecting, Selecting], Left, NotCalled, Reading,
                    0, [], 0, [], [], 0, 0, 0);
    assert Init(c, s0);
    r := Extend(c, Start(s0), Check(a));
    r := Extend(c, r, Swap);
    r := Extend(c, r, CancelWorkers);
    r := BothLeave(c, r);
    r := Extend(c, r, Push(a));
    r := CloseOut(c, r);
  }

  lemma ParentCancelStrands(a: Event) returns (c: Config, r: Run)
    ensures Legal(c, r) && Init(c, First(r))
    ensures var s := Last(c, r);
            && s.closer == Returned && s.swapWindow == 0 && s.swapMark == 1
            && s.accepted == [a] && s.queue == [a] && s.finished == []
  {
    c := Config(1, 0, 0);
    var s0 := State([], multiset{}, false, false, false, 0, 0, [Selecting, Selecting], Left, NotCalled, Reading,
                    0, [], 0, [], [], 0, 0, 0);
    assert Init(c, s0);
    r := Extend(c, Start(s0), ParentCancel);
    r := BothLeave(c, r);
    r := PushOne(c, r, a);
    r := Extend(c, r, Swap);
    r := Extend(c, r, CancelWorkers);
    r := CloseOut(c, r);
  }

  lemma CloseOut(c: Config, r0: Run) returns (r: Run)
    requires Legal(c, r0) && c.transports == 0
    requires var s := Last(c, r0); s.workers == [Gone, Gone] && s.collector == Left && s.closer == Closer.Cancelled
    ensures Legal(c, r) && First(r) == First(r0)
    ensures Last(c, r) == Last(c, r0).(closer := Returned)
  {
    r := Extend(c, r0, WaitDone);
    r := Extend(c, r, CloseSync);
    r := Extend(c, r, CloseReturn);
  }

  lemma BothLeave(c: Config, r0: Run) returns (r: Run)
    requires Legal(c, r0)
    requires var s := Last(c, r0); s.workers == [Selecting, Selecting] && s.cancelled && s.queue == []
    ensures Legal(c, r) && First(r) == First(r0)
    ensures var s := Last(c, r0); Last(c, r) == s.(workers := [Gone, Gone], sealed := |s.accepted|)
  {
    r := Extend(c, r0, NoticeCancel(0));
    r := Extend(c, r, Leave(0));
    r := Extend(c, r, NoticeCancel(1));
    r := Extend(c, r, Leave(1));
  }

  // After cancellation by Close the drain terminates. Work is measured by the
  // signals queued or still in the window, then by those in the window, then by
  // how far the goroutines have got.
  function Rank(c: Config, k: Worker): nat {
    match k
    case Received(_, _, _) => 4 + c.maxSends
    case Sending(_, _, _, budget) => 3 + budget
    case Selecting => 2
    case Draining => 1
    case Gone => 0
  }

  function CloserRank(c: Config, k: Closer): int {
    match k
    case NotCalled => 6 + c.transports
    case Swapped => 5 + c.transports
    case Cancelled => 4 + c.transports
    case Waited => 3 + c.transports
    case Synced => 2 + c.transports
    case Closing(v) => 1 + c.transports - v
    case Returned => 0
  }

  function Ranks(c: Config, s: State): int
    requires |s.workers| == WORKERS
  {
    Rank(c, s.workers[0]) + Rank(c, s.workers[1]) + CloserRank(c, s.closer)
    + if s.collector == Left then 0 else 1
  }

  // The part of the state the agent's own goroutines share.
  predicate SameWork(s: State, t: State) {
    t.queue == s.queue && t.window == s.window && t.workers == s.workers
    && t.collector == s.collector && t.closer == s.closer
  }

  predicate LessWork(c: Config, t: State, s: State)
    requires |s.workers| == |t.workers| == WORKERS
  {
    || |t.queue| + InWindow(t) < |s.queue| + InWindow(s)
    || (|t.queue| + InWindow(t) == |s.queue| + InWindow(s)
        && (InWindow(t) < InWindow(s) || (InWindow(t) == InWindow(s) && Ranks(c, t) < Ranks(c, s))))
  }

  // The steps that stand still once the agent is closed: a caller or the
  // collector finds it closed, a context ends, Sync goes round.
  predicate StandsStill(step: Step) {
    || step.Check? || step.CollectorCheck? || step.ParentCancel? || step.CloseAgain?
    || step.SyncReadQueue? || step.SyncReadInflight? || step.SyncDeadline? || step.SyncAgain?
  }

  lemma CloseProgress(c: Config, s: State, step: Step)
    requires Inv(c, s) && s.closed && Enabled(c, s, step)
    ensures |Do(c, s, step).workers| == WORKERS
    ensures if StandsStill(step) then SameWork(s, Do(c, s, step)) else LessWork(c, Do(c, s, step), s)
  {
    StepProgress(c, s, step);
  }

  lemma StepProgress(c: Config, s: State, step: Step)
    requires |s.workers| == WORKERS && s.closed && s.closer != NotCalled && ClosesDone(c, s) <= c.transports
    requires Enabled(c, s, step)
    ensures |Do(c, s, step).workers| == WORKERS
    ensures if StandsStill(step) then SameWork(s, Do(c, s, step)) else LessWork(c, Do(c, s, step), s)
  {
    if OfWorker(step) {
      WorkerProgress(c, s, step);
    } else if step.Push? {
      PushProgress(c, s, step.sig);
    } else {
      CloserProgress(c, s, step);
    }
  }

  lemma PushProgress(c: Config, s: State, sig: Event)
    requires |s.workers| == WORKERS && Enabled(c, s, Push(sig))
    ensures Do(c, s, Push(sig)).workers == s.workers && LessWork(c, Do(c, s, Push(sig)), s)
  {
    assert |s.window - multiset{sig}| == |s.window| - 1;
  }

  lemma WorkerProgress(c: Config, s: State, step: Step)
    requires |s.workers| == WORKERS && OfWorker(step) && Enabled(c, s, step)
    ensures |Do(c, s, step).workers| == WORKERS && LessWork(c, Do(c, s, step), s)
  {
    assert step.w == 0 || step.w == 1;
    var t := Do(c, s, step);
    assert !step.Receive? ==> t.queue == s.queue && Rank(c, t.workers[step.w]) < Rank(c, s.workers[step.w]);
    assert t.workers[1 - step.w] == s.workers[1 - step.w];
  }

  lemma CloserProgress(c: Config, s: State, step: Step)
    requires |s.workers| == WORKERS && s.closed && s.closer != NotCalled && ClosesDone(c, s) <= c.transports
    requires !OfWorker(step) && !step.Push? && Enabled(c, s, step)
    ensures Do(c, s, step).workers == s.workers
    ensures if StandsStill(step) then SameWork(s, Do(c, s, step)) else LessWork(c, Do(c, s, step), s)
  {
  }

  lemma RanksNonNegative(c: Config, s: State)
    requires Inv(c, s)
    ensures Ranks(c, s) >= 0
  {
  }

  // The step that brings Close forward.
  function NextStep(c: Config, s: State): Step
    requires |s.workers| == WORKERS
  {
    if s.closer == Swapped then CancelWorkers
    else if s.closer == Waited then CloseSync
    else if (s.closer == Synced && 0 < c.transports) || (s.closer.Closing? && s.closer.visited < c.transports)
    then CloseOne
    else if s.closer == Synced || s.closer.Closing? then CloseReturn
    else if s.workers[0] != Gone then NextOf(s, 0)
    else if s.workers[1] != Gone then NextOf(s, 1)
    else if s.collector.Passed? then CollectorPush
    else if s.collector == Collecting then CollectorLeave
    else WaitDone
  }

  function NextOf(s: State, w: nat): Step
    requires w < |s.workers|
  {
    match s.workers[w]
    case Selecting => NoticeCancel(w)
    case Received(_, _, _) => Count(w, 0)
    case Sending(_, _, _, _) => Finish(w)
    case _ => if s.queue == [] then Leave(w) else Receive(w)
  }

  lemma CloseNeverStuck(c: Config, s: State)
    requires Inv(c, s) && s.closed && s.closer != Returned
    ensures Enabled(c, s, NextStep(c, s))
    ensures !SameWork(s, Do(c, s, NextStep(c, s)))
  {
  }

  // So Close can always be brought to its end, from wherever it is.
  lemma {:induction false} CloseFinishes(c: Config, r0: Run) returns (r: Run)
    requires Legal(c, r0) && Inv(c, First(r0)) && Last(c, r0).closed
    ensures Legal(c, r) && First(r) == First(r0) && Last(c, r).closer == Returned
    decreases |Last(c, r0).queue| + InWindow(Last(c, r0)), InWindow(Last(c, r0)), Work(c, Last(c, r0))
  {
    var s := Last(c, r0);
    RunInv(c, r0);
    r := r0;
    if s.closer != Returned {
      CloseNeverStuck(c, s);
      r := Extend(c, r0, NextStep(c, s));
      StaysClosed(c, s, NextStep(c, s));
      CloseProgress(c, s, NextStep(c, s));
      RunInv(c, r);
      RanksNonNegative(c, s);
      RanksNonNegative(c, Last(c, r));
      r := CloseFinishes(c, r);
    }
  }

  function Work(c: Config, s: State): nat {
    if |s.workers| == WORKERS && Ranks(c, s) >= 0 then Ranks(c, s) else 0
  }

  lemma StaysClosed(c: Config, s: State, step: Step)
    requires s.closed && Enabled(c, s, step)
    ensures Do(c, s, step).closed
  {
  }

  // --- Exactly when Close handles everything ------------------------------

  ghost predicate AllHandled(s: State) {
    forall i: nat | i < |s.accepted| :: multiset(s.finished)[i] == 1
  }

  // Nobody is in the window and, if both workers have left, nothing is queued.
  predicate WillHandle(s: State) {
    InWindow(s) == 0 && (AllGone(s) ==> s.queue == [])
  }

  // Joined workers have handled everything exactly when the queue is empty.
  lemma HandledIffEmpty(c: Config, s: State)
    requires Inv(c, s) && AllGone(s)
    ensures AllHandled(s) <==> s.queue == []
  {
    if s.queue != [] {
      assert multiset(s.finished)[s.taken] == 0;
    }
  }

  lemma WillHandleStep(c: Config, s: State, step: Step)
    requires |s.workers| == WORKERS && s.closed && WillHandle(s) && Enabled(c, s, step)
    ensures WillHandle(Do(c, s, step))
  {
    if OfWorker(step) {
      WorkerFrame(c, s, step);
      assert !step.Leave? ==> Do(c, s, step).workers[step.w] != Gone;
    } else {
      OtherFrame(c, s, step);
      QueueKept(c, s, step);
    }
  }

  lemma QueueKept(c: Config, s: State, step: Step)
    requires s.closed && InWindow(s) == 0 && !OfWorker(step) && Enabled(c, s, step)
    ensures InWindow(Do(c, s, step)) == 0 && Do(c, s, step).queue == s.queue
  {
  }

  // From such a state every Close that returns has handled everything.
  lemma {:induction false} HandlesAll(c: Config, r: Run)
    requires Legal(c, r) && Inv(c, First(r)) && First(r).closed && WillHandle(First(r))
    ensures Last(c, r).closed && WillHandle(Last(c, r))
    ensures Last(c, r).closer == Returned ==> AllHandled(Last(c, r))
  {
    if r.Then? {
      HandlesAll(c, r.prev);
      RunInv(c, r.prev);
      StaysClosed(c, Last(c, r.prev), r.step);
      WillHandleStep(c, Last(c, r.prev), r.step);
    }
    RunInv(c, r);
    if Last(c, r).closer == Returned {
      HandledIffEmpty(c, Last(c, r));
    }
  }

  // From any other state some run leaves a signal in the queue of an agent
  // whose Close has returned: both workers leave, then a call in the window
  // pushes.
  lemma LeavesSome(c: Config, s: State) returns (r: Run)
    requires Inv(c, s) && s.closed && c.queueSize > 0 && !WillHandle(s)
    ensures Legal(c, r) && First(r) == s && Last(c, r).closer == Returned && !AllHandled(Last(c, r))
  {
    r := Start(s);
    if InWindow(s) > 0 {
      if s.closer == Swapped {
        r := Extend(c, r, CancelWorkers);
      }
      RunInv(c, r);
      r := OneLeaves(c, r, 0);
      r := OneLeaves(c, r, 1);
      r := PushLate(c, r);
    }
    r := FinishWithQueue(c, r);
    RunInv(c, r);
    HandledIffEmpty(c, Last(c, r));
  }

  // A worker brought to its end, with the other one and the window untouched.
  lemma {:induction false} OneLeaves(c: Config, r0: Run, w: nat) returns (r: Run)
    requires Legal(c, r0) && |Last(c, r0).workers| == WORKERS && w < WORKERS && Last(c, r0).cancelled
    ensures Legal(c, r) && First(r) == First(r0)
    ensures OnlyMoved(Last(c, r0), Last(c, r), w) && Last(c, r).workers[w] == Gone
    decreases |Last(c, r0).queue|, Rank(c, WorkerAt(Last(c, r0), w))
  {
    var s := Last(c, r0);
    r := r0;
    if s.workers[w] != Gone {
      NextOfProgress(c, s, w);
      r := Extend(c, r0, NextOf(s, w));
      r := OneLeaves(c, r, w);
    }
  }

  function WorkerAt(s: State, w: nat): Worker {
    if w < |s.workers| then s.workers[w] else Gone
  }

  predicate OnlyMoved(s: State, t: State, w: nat) {
    && |s.workers| == |t.workers| == WORKERS && w < WORKERS
    && t.workers[1 - w] == s.workers[1 - w]
    && t.window == s.window && t.collector == s.collector && t.cancelled == s.cancelled && t.closed == s.closed
  }

  lemma NextOfProgress(c: Config, s: State, w: nat)
    requires |s.workers| == WORKERS && w < WORKERS && s.workers[w] != Gone && s.cancelled
    ensures Enabled(c, s, NextOf(s, w))
    ensures var t := Do(c, s, NextOf(s, w));
            && OnlyMoved(s, t, w)
            && (|t.queue| < |s.queue| || (t.queue == s.queue && Rank(c, t.workers[w]) < Rank(c, s.workers[w])))
  {
    WorkerFrame(c, s, NextOf(s, w));
  }

  lemma PushLate(c: Config, r0: Run) returns (r: Run)
    requires Legal(c, r0) && c.queueSize > 0 && AllGone(Last(c, r0)) && InWindow(Last(c, r0)) > 0
    ensures Legal(c, r) && First(r) == First(r0) && AllGone(Last(c, r)) && Last(c, r).queue != []
    ensures Last(c, r).closed == Last(c, r0).closed
  {
    var s := Last(c, r0);
    if s.collector.Passed? {
      r := Extend(c, r0, CollectorPush);
    } else {
      var sig :| sig in s.window;
      r := Extend(c, r0, Push(sig));
    }
  }

  // With both workers gone nothing leaves the queue, whatever Close still does.
  lemma {:induction false} FinishWithQueue(c: Config, r0: Run) returns (r: Run)
    requires Legal(c, r0) && Inv(c, First(r0)) && Last(c, r0).closed
    requires AllGone(Last(c, r0)) && Last(c, r0).queue != []
    ensures Legal(c, r) && First(r) == First(r0) && Last(c, r).closer == Returned
    ensures AllGone(Last(c, r)) && Last(c, r).queue != []
    decreases |Last(c, r0).queue| + InWindow(Last(c, r0)), InWindow(Last(c, r0)), Work(c, Last(c, r0))
  {
    var s := Last(c, r0);
    RunInv(c, r0);
    r := r0;
    if s.closer != Returned {
      var step := NextStep(c, s);
      CloseNeverStuck(c, s);
      r := Extend(c, r0, step);
      StaysClosed(c, s, step);
      CloseProgress(c, s, step);
      GoneForGood(c, s, step);
      RunInv(c, r);
      RanksNonNegative(c, s);
      RanksNonNegative(c, Last(c, r));
      r := FinishWithQueue(c, r);
    }
  }

  lemma GoneForGood(c: Config, s: State, step: Step)
    requires AllGone(s) && s.queue != [] && Enabled(c, s, step)
    ensures AllGone(Do(c, s, step)) && Do(c, s, step).queue != []
  {
  }

  // So a Close handles everything in every run exactly when this holds, say
  // when it swaps.
  lemma CloseHandlesAllIff(c: Config, s: State)
    requires Inv(c, s) && s.closed && c.queueSize > 0
    ensures (forall r: Run | Legal(c, r) && First(r) == s && Last(c, r).closer == Returned :: AllHandled(Last(c, r)))
            <==> WillHandle(s)
  {
    if WillHandle(s) {
      forall r: Run | Legal(c, r) && First(r) == s && Last(c, r).closer == Returned ensures AllHandled(Last(c, r)) {
        HandlesAll(c, r);
      }
    } else {
      var r := LeavesSome(c, s);
      assert Legal(c, r) && First(r) == s && Last(c, r).closer == Returned && !AllHandled(Last(c, r));
    }
  }
}
