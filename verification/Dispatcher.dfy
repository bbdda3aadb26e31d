// server/internal/dispatcher/dispatcher.go: the code itself. The ghost field
// `run` records the protocol steps taken, so every method is proved to take
// only steps of DispatchProtocol.
module Dispatcher {
  import opened Signals
  import opened Batching
  import opened Pipelines
  import opened DispatchProtocol

  const DEFAULT_QUEUE_SIZE: nat := 4096
  const DEFAULT_BATCH_SIZE: nat := 64
  const CONTEXT_CANCELED := "context canceled"
  const BLANK := Event("", Time(ZERO_INSTANT, 0), "", "", "", "", "", map[])

  function OrDefault(n: int, d: nat): nat {
    if n <= 0 then d else n
  }

  // What the select in Dispatch may do with a signal the pipeline kept: with
  // both cases ready Go picks either, here by `pick`.
  datatype Fate = Queued | Cancelled | DroppedFull

  function Choose(room: bool, ctxDone: bool, pick: bool): Fate {
    if room && (!ctxDone || pick) then Queued
    else if ctxDone then Cancelled
    else DroppedFull
  }

  // The queue and the error Dispatch leaves behind.
  function Dispatched(ps: seq<Processor>, cap: nat, queue: seq<Event>, sig: Event, ctxDone: bool, pick: bool)
    : (seq<Event>, Option<string>)
  {
    var v := RunChain(ps, sig);
    if v.err.Some? then (queue, v.err)
    else if !v.keep then (queue, None)
    else match Choose(|queue| < cap, ctxDone, pick)
         case Queued => (queue + [v.out], None)
         case Cancelled => (queue, Some(CONTEXT_CANCELED))
         case DroppedFull => (queue, None)
  }

  // A signal the pipeline keeps joins the queue while there is room on a live
  // context, is dropped without an error when there is none, and gives the
  // context's error when that is done and there is no room. With both room and
  // a context that is done either may happen.
  lemma KeptFates(ps: seq<Processor>, cap: nat, queue: seq<Event>, sig: Event)
    requires RunChain(ps, sig).Passes()
    ensures var out := RunChain(ps, sig).out;
            forall pick ::
              && Dispatched(ps, cap, queue, sig, false, pick) == (if |queue| < cap then queue + [out] else queue, None)
              && (|queue| >= cap ==>
                    Dispatched(ps, cap, queue, sig, true, pick) == (queue, Some("context canceled")))
    ensures |queue| < cap ==>
              && Dispatched(ps, cap, queue, sig, true, true) == (queue + [RunChain(ps, sig).out], None)
              && Dispatched(ps, cap, queue, sig, true, false) == (queue, Some("context canceled"))
  {
  }

  // Any other leaves the queue as it is, with the pipeline's error if it gave one.
  lemma LostFates(ps: seq<Processor>, cap: nat, queue: seq<Event>, sig: Event, ctxDone: bool, pick: bool)
    requires !RunChain(ps, sig).Passes()
    ensures Dispatched(ps, cap, queue, sig, ctxDone, pick) == (queue, RunChain(ps, sig).err)
  {
  }

  // The same for DispatchBatch, which stops at the first error.
  function BatchDispatched(ps: seq<Processor>, cap: nat, queue: seq<Event>, batch: seq<Event>,
                           ctxDone: nat -> bool, pick: nat -> bool, i: nat)
    : (seq<Event>, Option<string>)
    requires i <= |batch|
    decreases |batch| - i
  {
    if i == |batch| then (queue, None)
    else
      var (q, err) := Dispatched(ps, cap, queue, batch[i], ctxDone(i), pick(i));
      if err.Some? then (q, err) else BatchDispatched(ps, cap, q, batch, ctxDone, pick, i + 1)
  }

  // What the pipeline makes of a list of signals, the dropped ones left out.
  function Kept(ps: seq<Processor>, batch: seq<Event>): seq<Event> {
    if batch == [] then []
    else
      var v := RunChain(ps, batch[0]);
      (if v.Passes() then [v.out] else []) + Kept(ps, batch[1..])
  }

  // On a live context and with a pipeline that does not fail, a batch fills
  // the queue with its kept signals in order for as long as there is room, and
  // reports no error for those it drops.
  lemma {:induction false} BatchFillsQueue(ps: seq<Processor>, cap: nat, queue: seq<Event>, batch: seq<Event>,
                                           ctxDone: nat -> bool, pick: nat -> bool, i: nat)
    requires i <= |batch| && |queue| <= cap
    requires forall j | i <= j < |batch| :: !ctxDone(j) && RunChain(ps, batch[j]).err.None?
    ensures var kept := Kept(ps, batch[i..]);
            var room := cap - |queue|;
            BatchDispatched(ps, cap, queue, batch, ctxDone, pick, i)
            == (queue + kept[..if |kept| < room then |kept| else room], None)
    decreases |batch| - i
  {
    if i < |batch| {
      assert batch[i..][0] == batch[i] && batch[i..][1..] == batch[i + 1..];
      var v := RunChain(ps, batch[i]);
      var (q, err) := Dispatched(ps, cap, queue, batch[i], ctxDone(i), pick(i));
      BatchFillsQueue(ps, cap, q, batch, ctxDone, pick, i + 1);
      var rest := Kept(ps, batch[i + 1..]);
      if v.Passes() && |queue| < cap {
        var room := cap - |queue| - 1;
        var n := if |rest| < room then |rest| else room;
        assert ([v.out] + rest)[..n + 1] == [v.out] + rest[..n];
        assert q + rest[..n] == queue + ([v.out] + rest[..n]);
      } else {
        assert |queue| == cap || Kept(ps, batch[i..]) == rest;
        assert |queue| == cap ==> Kept(ps, batch[i..])[..0] == rest[..0] == [];
      }
    } else {
      assert batch[i..] == [] && queue + [] == queue;
    }
  }

  // The first of n results that is an error, if any.
  function FirstError(results: nat -> Option<string>, n: nat): Option<string> {
    if n == 0 then None
    else
      var e := FirstError(results, n - 1);
      if e.Some? then e else results(n - 1)
  }

  lemma {:induction false} FirstErrorIsFirst(results: nat -> Option<string>, n: nat)
    ensures FirstError(results, n).None? <==> forall i: nat | i < n :: results(i).None?
    ensures FirstError(results, n).Some? ==>
              exists i: nat | i < n :: results(i) == FirstError(results, n) && forall j: nat | j < i :: results(j).None?
  {
    if n > 0 {
      FirstErrorIsFirst(results, n - 1);
    }
  }

  // One Flush of each of the first n outputs, in order.
  function Flushes(n: nat): (r: seq<Act>)
    ensures |r| == n && forall i | 0 <= i < n :: r[i] == FlushAct(i)
  {
    if n == 0 then [] else Flushes(n - 1) + [FlushAct(n - 1)]
  }

  class Async {
    const chain: Chain
    const config: Config
    var ch: seq<Event>
    const buf: array<Event>
    var len: nat
    var cancelled: bool
    // What each output's Write has been called with.
    var journal: seq<seq<seq<Event>>>
    ghost var run: Run

    ghost function Now(): State
      requires Legal(config, run)
      reads this
    {
      Last(config, run)
    }

    ghost predicate Valid()
      reads this, buf
    {
      && Legal(config, run) && Init(config, First(run)) && Shape(config, Now())
      && Now().queue == ch && Now().buf == buf[..] && Now().len == len
      && Now().cancelled == cancelled && Now().journal == journal
    }

    // The batch currently held, which is what has not been handed over.
    ghost function Batch(): seq<Event>
      reads this, buf
    {
      if len <= buf.Length then buf[..len] else []
    }

    constructor (chain: Chain, outputs: nat, queueSize: int, batchSize: int)
      ensures Valid() && fresh(buf) && run.Start? && Now().pc == Selecting
      ensures config
              == Config(if queueSize <= 0 then 4096 else queueSize, if batchSize <= 0 then 64 else batchSize, outputs)
      ensures this.chain == chain && ch == [] && len == 0 && !cancelled
    {
      var c := Config(OrDefault(queueSize, DEFAULT_QUEUE_SIZE), OrDefault(batchSize, DEFAULT_BATCH_SIZE), outputs);
      this.chain := chain;
      config := c;
      ch, len, cancelled := [], 0, false;
      buf := new Event[c.batchN](_ => BLANK);
      journal := seq(outputs, _ => []);
      new;
      ghost var s := State([], buf[..], 0, false, Selecting, NotStopping, 0, [], [], journal, [], 0);
      run := Start(s);
    }

    // Writing changes nothing but the journals and the loop's position.
    ghost predicate OnlyWrote(s: State, t: State) {
      t.handed == s.handed && t.accepted == s.accepted && t.stopper == s.stopper && KeepsPlan(s, t)
    }

    // Inside the drain, what has been and will be handed over is settled.
    ghost predicate KeepsPlan(s: State, t: State) {
      InDrain(config, s) ==> InDrain(config, t) && Planned(config, t) == Planned(config, s)
    }

    // Records a protocol step that has just been carried out.
    ghost method Record(step: Step)
      requires Legal(config, run) && Shape(config, Now()) && Enabled(config, Now(), step)
      modifies this`run
      ensures run == Then(old(run), step)
      ensures Legal(config, run) && First(run) == First(old(run))
      ensures Now() == Do(config, old(Now()), step) && Shape(config, Now())
      ensures !step.Enqueue? ==> KeepsPlan(old(Now()), Now())
    {
      if InDrain(config, Now()) && !step.Enqueue? {
        DrainStep(config, Now(), step);
      }
      ShapeStep(config, Now(), step);
      run := Then(run, step);
    }

    // What every reachable state satisfies.
    lemma Reachable()
      requires Valid()
      ensures Inv(config, Now())
    {
      InitInv(config, First(run));
      RunInv(config, run);
    }

    method Dispatch(sig: Event, ctxDone: bool, pick: bool) returns (err: Option<string>)
      requires Valid()
      modifies this`ch, this`run
      ensures Valid() && First(run) == First(old(run))
      ensures (ch, err) == Dispatched(chain.processors, config.queueSize, old(ch), sig, ctxDone, pick)
      ensures ch == old(ch) ==> run == old(run)
      ensures ch != old(ch) ==>
                RunChain(chain.processors, sig).Passes()
                && run == Then(old(run), Enqueue(RunChain(chain.processors, sig).out))
    {
      var v := chain.Process(sig);
      if v.err.Some? {
        return v.err;
      }
      if !v.keep {
        return None;
      }
      if |ch| < config.queueSize && (!ctxDone || pick) {
        ch := ch + [v.out];
        Record(Enqueue(v.out));
        return None;
      } else if ctxDone {
        return Some(CONTEXT_CANCELED);
      } else {
        return None;
      }
    }

    method DispatchBatch(batch: seq<Event>, ctxDone: nat -> bool, pick: nat -> bool) returns (err: Option<string>)
      requires Valid()
      modifies this`ch, this`run
      ensures Valid() && First(run) == First(old(run))
      ensures (ch, err)
              == BatchDispatched(chain.processors, config.queueSize, old(ch), batch, ctxDone, pick, 0)
    {
      for i := 0 to |batch|
        invariant Valid() && First(run) == First(old(run))
        invariant BatchDispatched(chain.processors, config.queueSize, old(ch), batch, ctxDone, pick, 0)
               == BatchDispatched(chain.processors, config.queueSize, ch, batch, ctxDone, pick, i)
      {
        err := Dispatch(batch[i], ctxDone(i), pick(i));
        if err.Some? {
          return;
        }
      }
      return None;
    }

    // Fan-out: every output is offered the batch as it stands in the buffer,
    // whichever of them fail, and the buffer is not written meanwhile.
    method Write(ok: nat -> bool)
      requires Valid() && Now().pc.Writing? && Now().pc.visited == 0
      modifies this`journal, this`run
      ensures Valid() && First(run) == First(old(run))
      ensures Now().pc == Writing(config.outputs, old(Now()).pc.resume)
      ensures OnlyWrote(old(Now()), Now())
      ensures |journal| == config.outputs == |old(journal)|
      ensures forall o | 0 <= o < config.outputs :: journal[o] == old(journal)[o] + [buf[..len]]
    {
      for o := 0 to config.outputs
        invariant Valid() && First(run) == First(old(run))
        invariant Now().pc == Writing(o, old(Now()).pc.resume)
        invariant OnlyWrote(old(Now()), Now())
        invariant forall p | 0 <= p < config.outputs ::
                    journal[p] == if p < o then old(journal)[p] + [buf[..len]] else old(journal)[p]
      {
        Record(WriteOne(ok(o)));
        journal := journal[o := journal[o] + [buf[..len]]];
      }
    }

    method FlushBatch(ok: nat -> bool)
      requires Valid()
      requires len != 0 ==> Now().pc.Writing? && Now().pc.visited == 0
      modifies this`journal, this`run, this`len
      ensures Valid() && First(run) == First(old(run)) && len == 0
      ensures old(len) == 0 ==> run == old(run) && journal == old(journal)
      ensures OnlyWrote(old(Now()), Now())
      ensures old(len) != 0 ==> Now().pc == match old(Now()).pc.resume
                                            case ToSelect => Selecting
                                            case ToDrain => Draining
                                            case ToExit => Exited
      ensures old(len) != 0 ==>
                && |journal| == config.outputs == |old(journal)|
                && forall o | 0 <= o < config.outputs :: journal[o] == old(journal)[o] + [old(buf[..len])]
    {
      if len == 0 {
        return;
      }
      Write(ok);
      len := 0;
      Record(WriteDone);
    }

    // One receive of the loop, at either select.
    method Receive(ok: nat -> bool)
      requires Valid() && ch != [] && (Now().pc == Selecting || Now().pc == Draining)
      modifies this`ch, this`len, this`journal, this`run, buf
      ensures Valid() && First(run) == First(old(run))
      ensures Now().pc == old(Now()).pc && Now().stopper == old(Now()).stopper
      ensures Now().accepted == old(Now()).accepted && KeepsPlan(old(Now()), Now())
      ensures ch == old(ch)[1..]
      ensures old(len) + 1 < config.batchN ==> journal == old(journal) && Batch() == old(Batch()) + [old(ch)[0]]
      ensures old(len) + 1 == config.batchN ==>
                && len == 0 && |journal| == config.outputs == |old(journal)|
                && forall o | 0 <= o < config.outputs ::
                     journal[o] == old(journal)[o] + [old(Batch()) + [old(ch)[0]]]
    {
      ghost var held := buf[..len];
      buf[len] := ch[0];
      len := len + 1;
      ch := ch[1..];
      assert buf[..len] == held + [old(ch)[0]];
      assert buf[..] == old(buf[..])[old(len) := old(ch)[0]];
      Record(DispatchProtocol.Step.Receive);
      if len >= config.batchN {
        FlushBatch(ok);
      }
    }

    method Tick(ok: nat -> bool)
      requires Valid() && Now().pc == Selecting
      modifies this`len, this`journal, this`run
      ensures Valid() && First(run) == First(old(run)) && Now().pc == Selecting
      ensures Batch() == []
      ensures |journal| == config.outputs == |old(journal)|
      ensures forall o | 0 <= o < config.outputs ::
                journal[o] == old(journal)[o] + if old(Batch()) == [] then [] else [old(Batch())]
    {
      Record(DispatchProtocol.Step.Tick);
      FlushBatch(ok);
    }

    // The branch the loop takes on a cancelled context, with no producer left:
    // it empties the queue into batches and the last one into the outputs.
    method Drain(ok: nat -> bool)
      requires Valid() && cancelled && Now().pc == Selecting
      modifies this`ch, this`len, this`journal, this`run, buf
      ensures Valid() && First(run) == First(old(run)) && Now().pc == Exited
      ensures Now().stopper == old(Now()).stopper && Now().accepted == old(Now()).accepted
      ensures ch == [] && Batch() == []
      ensures |journal| == config.outputs == |old(journal)|
      ensures forall o | 0 <= o < config.outputs ::
                journal[o] == old(journal)[o] + Chunks(config.batchN, old(Batch()) + old(ch))
    {
      Record(NoticeCancel);
      ghost var entry := Now();
      EmptyQueue(ok);
      Record(DrainEmpty);
      FlushBatch(ok);
      FansOut(entry, old(run));
      DrainedOut(config, entry, Now());
    }

    method EmptyQueue(ok: nat -> bool)
      requires Valid() && Now().pc == Draining
      modifies this`ch, this`len, this`journal, this`run, buf
      ensures Valid() && First(run) == First(old(run)) && Now().pc == Draining && ch == []
      ensures Now().stopper == old(Now()).stopper && Now().accepted == old(Now()).accepted
      ensures InDrain(config, Now()) && Planned(config, Now()) == Planned(config, old(Now()))
    {
      while ch != []
        invariant Valid() && First(run) == First(old(run)) && Now().pc == Draining
        invariant InDrain(config, Now()) && Planned(config, Now()) == Planned(config, old(Now()))
        invariant Now().stopper == old(Now()).stopper && Now().accepted == old(Now()).accepted
        decreases |ch|
      {
        Receive(ok);
      }
    }

    // Every output has been offered the same batches now and when the loop
    // noticed the cancellation.
    lemma FansOut(entry: State, before: Run)
      requires Valid() && Legal(config, before) && Init(config, First(before))
      requires Enabled(config, Last(config, before), NoticeCancel)
      requires entry == Do(config, Last(config, before), NoticeCancel)
      ensures FannedOut(config, entry) && FannedOut(config, Now())
    {
      RunFansOut(config, before);
      RunFansOut(config, run);
    }

    method FlushAll(results: nat -> Option<string>) returns (first: Option<string>)
      requires Valid() && Now().stopper == Flushing(0)
      modifies this`run
      ensures Valid() && First(run) == First(old(run)) && Now().stopper == Flushing(config.outputs)
      ensures Now().pc == old(Now()).pc
      ensures Now().trail == old(Now()).trail + Flushes(config.outputs)
      ensures first == FirstError(results, config.outputs)
    {
      first := None;
      ghost var entry, start := Now(), First(run);
      for o := 0 to config.outputs
        invariant FlushedSoFar(entry, start, o) && first == FirstError(results, o)
      {
        FlushOutput(o, results(o), entry, start);
        if results(o).Some? && first.None? {
          first := results(o);
        }
      }
    }

    ghost predicate FlushedSoFar(entry: State, start: State, o: nat)
      reads this, buf
    {
      && Valid() && First(run) == start && Now().stopper == Flushing(o)
      && Now().pc == entry.pc && Now().trail == entry.trail + Flushes(o)
    }

    method FlushOutput(o: nat, result: Option<string>, ghost entry: State, ghost start: State)
      requires o < config.outputs && FlushedSoFar(entry, start, o)
      modifies this`run
      ensures FlushedSoFar(entry, start, o + 1)
    {
      Record(FlushOne(result.None?));
    }

    // Stop once its wait has been answered by the loop's return.
    method Join(results: nat -> Option<string>) returns (err: Option<string>)
      requires Valid() && Now().pc == Exited && Now().stopper == Waiting
      modifies this`run
      ensures Valid() && First(run) == First(old(run)) && Now().pc == Exited
      ensures err == FirstError(results, config.outputs)
      ensures Now().trail == old(Now()).trail + Flushes(config.outputs) && WritesFirst(Now().trail)
    {
      Record(StopJoin);
      err := FlushAll(results);
      Record(StopReturn);
      Reachable();
    }

    // Stop while the loop is at its select: either the context of the caller
    // ends first, or the loop drains and every output is flushed after its
    // last Write.
    method Stop(ctxEnds: bool, ok: nat -> bool, results: nat -> Option<string>) returns (err: Option<string>)
      requires Valid() && Now().pc == Selecting && Now().stopper == NotStopping
      modifies this`ch, this`len, this`journal, this`cancelled, this`run, buf
      ensures Valid() && First(run) == First(old(run)) && cancelled
      ensures ctxEnds ==> err == Some(CONTEXT_CANCELED) && journal == old(journal) && ch == old(ch)
      ensures !ctxEnds ==> err == FirstError(results, config.outputs)
      ensures !ctxEnds ==> ch == [] && Batch() == [] && Now().pc == Exited
      ensures !ctxEnds ==>
                && |journal| == config.outputs == |old(journal)|
                && (forall o | 0 <= o < config.outputs ::
                      journal[o] == old(journal)[o] + Chunks(config.batchN, old(Batch()) + old(ch)))
      ensures !ctxEnds ==>
                && WritesFirst(Now().trail)
                && |Now().trail| >= config.outputs
                && Now().trail[|Now().trail| - config.outputs..] == Flushes(config.outputs)
    {
      Record(StopCall);
      cancelled := true;
      if ctxEnds {
        Record(StopGiveUp);
        return Some(CONTEXT_CANCELED);
      }
      Drain(ok);
      err := Join(results);
    }
  }
}
