// sdk/agent/agent.go: enqueue, the worker's loops, Sync and Close as code. The
// ghost field `run` records the steps taken, all of them steps of
// AgentProtocol; what sendOne does with a signal is in module Sending.
module AgentCode {
  import opened Signals
  import opened AgentProtocol

  const DEFAULT_QUEUE_SIZE: nat := 2048

  // n numbers from a on.
  function From(a: nat, n: nat): (r: seq<nat>)
    ensures |r| == n && forall i | 0 <= i < n :: r[i] == a + i
  {
    if n == 0 then [] else From(a, n - 1) + [a + n - 1]
  }

  // t is s after all but b of a worker's Sends.
  predicate Sent(s: State, t: State, w: nat, b: nat) {
    w < |s.workers| && s.workers[w].Sending?
    && t == s.(trail := t.trail, workers := s.workers[w := s.workers[w].(budget := b)])
  }

  lemma SendMore(c: Config, s: State, t: State, w: nat, b: nat, x: nat)
    requires Sent(s, t, w, b) && b > 0 && x < c.transports
    ensures Enabled(c, t, Send(w, x)) && Sent(s, Do(c, t, Send(w, x)), w, b - 1)
  {
    var k := s.workers[w];
    assert s.workers[w := k.(budget := b)][w := k.(budget := b - 1)] == s.workers[w := k.(budget := b - 1)];
  }

  // A run followed by some Sends of one worker.
  function Sends(r: Run, w: nat, attempts: seq<nat>): Run {
    if attempts == [] then r
    else Then(Sends(r, w, attempts[..|attempts| - 1]), Send(w, attempts[|attempts| - 1]))
  }

  lemma {:induction false} SendsLegal(c: Config, r: Run, w: nat, attempts: seq<nat>)
    requires Legal(c, r) && w < |Last(c, r).workers| && Last(c, r).workers[w].Sending?
    requires |attempts| <= Last(c, r).workers[w].budget && forall i | 0 <= i < |attempts| :: attempts[i] < c.transports
    ensures var q := Sends(r, w, attempts);
            && Legal(c, q) && First(q) == First(r)
            && Sent(Last(c, r), Last(c, q), w, Last(c, r).workers[w].budget - |attempts|)
    decreases |attempts|
  {
    var s := Last(c, r);
    if attempts == [] {
      assert s.workers[w := s.workers[w]] == s.workers;
    } else {
      var m := |attempts| - 1;
      var p := Sends(r, w, attempts[..m]);
      SendsLegal(c, r, w, attempts[..m]);
      SendMore(c, s, Last(c, p), w, s.workers[w].budget - m, attempts[m]);
      assert Sends(r, w, attempts) == Then(p, Send(w, attempts[m]));
    }
  }

  // A worker has counted its signal and made all its Sends.
  lemma AfterSends(c: Config, s: State, w: nat, n: nat, t: State)
    requires w < |s.workers| && s.workers[w].Received? && Enabled(c, s, Count(w, n))
    requires Sent(Do(c, s, Count(w, n)), t, w, 0)
    ensures Enabled(c, t, Finish(w)) && t.inflight == s.inflight + 1
    ensures var k := s.workers[w];
            Do(c, t, Finish(w))
            == s.(finished := s.finished + [k.index], trail := t.trail,
                  workers := s.workers[w := if k.draining then Draining else Selecting])
  {
    var u := Do(c, t, Finish(w));
    assert u.workers == s.workers[w := if s.workers[w].draining then Draining else Selecting];
  }

  // t is s after a worker has handled the first m signals queued.
  predicate Handled(s: State, t: State, m: nat) {
    m <= |s.queue|
    && t == s.(queue := s.queue[m..], taken := s.taken + m, trail := t.trail, finished := s.finished + From(s.taken, m))
  }

  lemma HandleMore(s: State, t: State, u: State, m: nat)
    requires Handled(s, t, m) && t.queue != []
    requires u == t.(queue := t.queue[1..], taken := t.taken + 1, finished := t.finished + [t.taken], trail := u.trail)
    ensures Handled(s, u, m + 1)
  {
    assert s.queue[m..][1..] == s.queue[m + 1..];
    assert s.finished + From(s.taken, m) + [s.taken + m] == s.finished + From(s.taken, m + 1);
  }

  // t is s after k transports have been closed.
  predicate ClosedUpTo(s: State, t: State, k: nat) {
    t == s.(closer := if k == 0 then Synced else Closing(k), trail := t.trail)
  }

  lemma CloseMore(c: Config, s: State, t: State, k: nat)
    requires ClosedUpTo(s, t, k) && k < c.transports
    ensures Enabled(c, t, CloseOne) && ClosedUpTo(s, Do(c, t, CloseOne), k + 1)
  {
  }

  class AgentImpl {
    const config: Config
    var ch: seq<Event>
    var closed: bool
    var cancelled: bool
    var dropped: nat
    var inflight: int
    ghost var run: Run

    ghost function Now(): State
      requires Legal(config, run)
      reads this
    {
      Last(config, run)
    }

    ghost predicate Valid()
      reads this
    {
      && Legal(config, run) && Init(config, First(run)) && |Now().workers| == WORKERS
      && Now().queue == ch && Now().closed == closed && Now().cancelled == cancelled
      && Now().dropped == dropped && Now().inflight == inflight
      && !Now().syncer.QueueEmpty?
    }

    // An agent that has been started: both workers run, the queue is empty.
    constructor (queueSize: int, transports: nat, maxSends: nat, collectors: bool)
      ensures Valid() && run.Start?
      ensures config == Config(if queueSize <= 0 then 2048 else queueSize, transports, maxSends)
      ensures ch == [] && !closed && !cancelled && dropped == 0 && inflight == 0
    {
      config := Config(if queueSize <= 0 then DEFAULT_QUEUE_SIZE else queueSize, transports, maxSends);
      ch, closed, cancelled, dropped, inflight := [], false, false, 0, 0;
      new;
      ghost var s := State([], multiset{}, false, false, false, 0, 0, [Selecting, Selecting],
                           if collectors then Collecting else Left, NotCalled, Reading, 0, [], 0, [], [], 0, 0, 0);
      run := Start(s);
    }

    ghost method Record(step: Step)
      requires Legal(config, run) && Enabled(config, Now(), step)
      modifies this`run
      ensures run == Then(old(run), step) && First(run) == First(old(run))
      ensures Legal(config, run) && Now() == Do(config, old(Now()), step)
    {
      run := Then(run, step);
    }

    // What every reachable state satisfies.
    lemma Reachable()
      requires Valid()
      ensures Inv(config, Now())
    {
      AgentProtocol.InitInv(config, First(run));
      RunInv(config, run);
    }

    // Never blocks: a closed agent ignores the signal, a full queue drops it.
    method Enqueue(sig: Event)
      requires Valid()
      modifies this`ch, this`dropped, this`run
      ensures Valid() && First(run) == First(old(run))
      ensures closed ==> ch == old(ch) && dropped == old(dropped) && Now().offered == old(Now()).offered
      ensures !closed ==>
                && Now().offered == old(Now()).offered + 1
                && (if |old(ch)| < config.queueSize then ch == old(ch) + [sig] && dropped == old(dropped)
                    else ch == old(ch) && dropped == old(dropped) + 1)
    {
      Record(Check(sig));
      if closed {
        return;
      }
      Record(Push(sig));
      if |ch| < config.queueSize {
        ch := ch + [sig];
      } else {
        dropped := dropped + 1;
      }
    }

    // A worker that has received a signal runs sendOne on it, which makes the
    // Sends of `attempts`.
    method Handle(w: nat, attempts: seq<nat>)
      requires Valid() && w < WORKERS && Now().workers[w].Received?
      requires |attempts| <= config.maxSends && forall i | 0 <= i < |attempts| :: attempts[i] < config.transports
      modifies this`inflight, this`run
      ensures Valid() && First(run) == First(old(run)) && inflight == old(inflight)
      ensures var s, k := old(Now()), old(Now()).workers[w];
              Now() == s.(finished := s.finished + [k.index], trail := Now().trail,
                          workers := s.workers[w := if k.draining then Draining else Selecting])
    {
      ghost var s := Now();
      Record(Count(w, |attempts|));
      inflight := inflight + 1;
      SendsLegal(config, run, w, attempts);
      run := Sends(run, w, attempts);
      AfterSends(config, s, w, |attempts|, Now());
      Record(Finish(w));
      inflight := inflight - 1;
    }

    // The worker's drain: it handles what is queued, in order, and leaves.
    method Drain(w: nat, attempts: nat -> seq<nat>)
      requires Valid() && w < WORKERS && cancelled && Now().workers[w] == Selecting
      requires forall n :: |attempts(n)| <= config.maxSends
                           && forall i | 0 <= i < |attempts(n)| :: attempts(n)[i] < config.transports
      modifies this`ch, this`inflight, this`run
      ensures Valid() && First(run) == First(old(run)) && ch == []
      ensures var s := old(Now());
              Now() == s.(queue := [], taken := s.taken + |s.queue|, trail := Now().trail,
                          finished := s.finished + From(s.taken, |s.queue|),
                          workers := s.workers[w := Gone], sealed := |s.accepted|)
    {
      Record(NoticeCancel(w));
      DrainQueue(w, attempts);
      Record(Leave(w));
    }

    method DrainQueue(w: nat, attempts: nat -> seq<nat>)
      requires Valid() && w < WORKERS && Now().workers[w] == Draining
      requires forall n :: |attempts(n)| <= config.maxSends
                           && forall i | 0 <= i < |attempts(n)| :: attempts(n)[i] < config.transports
      modifies this`ch, this`inflight, this`run
      ensures Valid() && First(run) == First(old(run)) && ch == []
      ensures Handled(old(Now()), Now(), |old(ch)|)
    {
      ghost var s := Now();
      ghost var m := 0;
      while ch != []
        invariant Valid() && First(run) == First(old(run))
        invariant Handled(s, Now(), m)
        decreases |ch|
      {
        ghost var before := Now();
        Serve(w, attempts(|ch|));
        HandleMore(s, before, Now(), m);
        m := m + 1;
      }
    }

    // One receive of a worker, at its outer select or in its drain, and the
    // handling of what it received.
    method Serve(w: nat, attempts: seq<nat>)
      requires Valid() && w < WORKERS && AtSelect(w) && ch != []
      requires |attempts| <= config.maxSends && forall i | 0 <= i < |attempts| :: attempts[i] < config.transports
      modifies this`ch, this`inflight, this`run
      ensures Valid() && First(run) == First(old(run)) && ch == old(ch)[1..]
      ensures var s := old(Now());
              Now() == s.(queue := s.queue[1..], taken := s.taken + 1, finished := s.finished + [s.taken],
                          trail := Now().trail)
    {
      ghost var s := Now();
      ghost var k := Received(s.taken, s.queue[0], s.workers[w] == Draining);
      assert s.workers[w := k][w := s.workers[w]] == s.workers;
      Take(w);
      Handle(w, attempts);
    }

    ghost predicate AtSelect(w: nat)
      requires Valid() && w < WORKERS
      reads this
    {
      Now().workers[w] == Selecting || Now().workers[w] == Draining
    }

    method Take(w: nat)
      requires Valid() && w < WORKERS && AtSelect(w) && ch != []
      modifies this`ch, this`run
      ensures Valid() && First(run) == First(old(run)) && ch == old(ch)[1..]
      ensures var s := old(Now());
              Now() == s.(queue := s.queue[1..], taken := s.taken + 1,
                          workers := s.workers[w := Received(s.taken, s.queue[0], s.workers[w] == Draining)])
    {
      Record(Receive(w));
      ch := ch[1..];
    }

    // The two reads of Sync, which may have been called before. On success the
    // run ends with the protocol's two reads, so SyncMisses says what it means.
    method TrySync() returns (quiet: bool)
      requires Valid()
      modifies this`run
      ensures Valid() && First(run) == First(old(run))
      ensures quiet <==> ch == [] && inflight == 0
      ensures quiet ==> Now().syncer == Quiescent(|Now().accepted|) && run.Then? && run.step == SyncReadInflight
      ensures !quiet ==> Now().syncer == Reading
      ensures Now() == old(Now()).(syncer := Now().syncer)
    {
      if Now().syncer != Reading {
        Record(SyncAgain);
      }
      if |ch| != 0 {
        return false;
      }
      Record(SyncReadQueue);
      Record(SyncReadInflight);
      return inflight == 0;
    }

    // The first call, with the workers and the collector at their selects,
    // drains the queue by both workers and closes every transport in order. Any
    // later call finds the agent closed and does nothing.
    method Close(attempts: nat -> seq<nat>)
      requires Valid()
      requires !closed ==>
                 && Now().workers == [Selecting, Selecting]
                 && !Now().collector.Passed? && Now().closer == NotCalled
      requires forall n :: |attempts(n)| <= config.maxSends
                           && forall i | 0 <= i < |attempts(n)| :: attempts(n)[i] < config.transports
      modifies this
      ensures Valid() && First(run) == First(old(run)) && closed
      ensures old(closed) ==> ch == old(ch) && Now() == old(Now())
      ensures !old(closed) ==> ch == [] && Now().closer == Returned
      ensures !old(closed) ==> forall i: nat | i < |Now().accepted| :: multiset(Now().finished)[i] == 1
      ensures !old(closed) ==> forall t: nat | t < config.transports :: multiset(Now().trail)[CloseAct(t)] == 1
    {
      if closed {
        Record(CloseAgain);
        return;
      }
      Shut();
      LetCollectorLeave();
      DrainBoth(attempts);
      JoinAndClose();
      CloseHandles(config, run);
    }

    method Shut()
      requires Valid() && !closed && Now().closer == NotCalled
      modifies this`closed, this`cancelled, this`run
      ensures Valid() && First(run) == First(old(run)) && closed && cancelled
      ensures var s := old(Now());
              Now() == s.(closed := true, cancelled := true, closer := Closer.Cancelled,
                          swapMark := Now().swapMark, swapWindow := Now().swapWindow)
    {
      Record(Swap);
      closed := true;
      Record(CancelWorkers);
      cancelled := true;
    }

    ghost method LetCollectorLeave()
      requires Valid() && cancelled && !Now().collector.Passed?
      modifies this`run
      ensures Valid() && First(run) == First(old(run)) && Now() == old(Now()).(collector := Left)
    {
      if Now().collector == Collecting {
        Record(CollectorLeave);
      }
    }

    method DrainBoth(attempts: nat -> seq<nat>)
      requires Valid() && cancelled && Now().workers == [Selecting, Selecting]
      requires forall n :: |attempts(n)| <= config.maxSends
                           && forall i | 0 <= i < |attempts(n)| :: attempts(n)[i] < config.transports
      modifies this`ch, this`inflight, this`run
      ensures Valid() && First(run) == First(old(run)) && ch == []
      ensures var s := old(Now());
              && Now().workers == [Gone, Gone] && Now().accepted == s.accepted
              && Now().closer == s.closer && Now().collector == s.collector
    {
      Drain(0, attempts);
      Drain(1, attempts);
    }

    method JoinAndClose()
      requires Valid() && Now().closer == Closer.Cancelled && Now().workers == [Gone, Gone] && Now().collector == Left
      modifies this`run
      ensures Valid() && First(run) == First(old(run))
      ensures Now() == old(Now()).(closer := Returned, trail := Now().trail)
      ensures forall t: nat | t < config.transports :: multiset(Now().trail)[CloseAct(t)] == 1
    {
      AwaitWorkers();
      CloseTransports();
      Record(CloseReturn);
      ClosesAll(config, run);
    }

    method AwaitWorkers()
      requires Valid() && Now().closer == Closer.Cancelled && Now().workers == [Gone, Gone] && Now().collector == Left
      modifies this`run
      ensures Valid() && First(run) == First(old(run)) && Now() == old(Now()).(closer := Synced)
    {
      Record(WaitDone);
      Record(CloseSync);
    }

    method CloseTransports()
      requires Valid() && Now().closer == Synced
      modifies this`run
      ensures Valid() && First(run) == First(old(run))
      ensures ClosedUpTo(old(Now()), Now(), config.transports)
    {
      ghost var s, first := Now(), First(run);
      for t := 0 to config.transports
        invariant ClosedSoFar(s, first, t)
      {
        CloseTransport(t, s, first);
      }
    }

    ghost predicate ClosedSoFar(s: State, first: State, t: nat)
      reads this
    {
      Valid() && First(run) == first && ClosedUpTo(s, Now(), t)
    }

    method CloseTransport(t: nat, ghost s: State, ghost first: State)
      requires t < config.transports && ClosedSoFar(s, first, t)
      modifies this`run
      ensures ClosedSoFar(s, first, t + 1)
    {
      CloseMore(config, s, Now(), t);
      Record(CloseOne);
    }
  }
}
