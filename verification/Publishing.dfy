// server/internal/processor/normalize.go and publishingDispatcher of
// server/internal/app/app.go, on events as objects: Normalize updates them in
// place, and the hub is handed the very object the caller dispatched.
module Publishing {
  import opened Signals
  import opened Pipelines
  import opened Dispatcher

  const LEVEL_INFO := "info"

  // What Normalize makes of an event at a given time.
  function Normalized(e: Event, now: Time): Event {
    e.(kind := if e.kind == "" then KIND_LOG else e.kind,
       time := if e.time.IsZero() then now else e.time,
       level := if e.level == "" then LEVEL_INFO else ToLower(e.level))
  }

  // An empty kind becomes log, a missing time the present, an empty level info;
  // any other level is lower-cased and nothing else is touched.
  lemma NormalizedValues(e: Event, now: Time)
    ensures var r := Normalized(e, now);
            && r.kind == (if e.kind == "" then "log" else e.kind)
            && r.time == (if e.time.instant == ZERO_INSTANT then now else e.time)
            && (e.level == "" ==> r.level == "info")
            && (e.level != "" ==> |r.level| == |e.level|)
            && (forall i | 0 <= i < |e.level| :: SameLetter(r.level[i], e.level[i]) && !('A' <= r.level[i] <= 'Z'))
            && r.(kind := e.kind, time := e.time, level := e.level) == e
  {
    if e.level != "" {
      forall i | 0 <= i < |e.level|
        ensures SameLetter(ToLower(e.level)[i], e.level[i]) && !('A' <= ToLower(e.level)[i] <= 'Z')
      {
        LowerIs(e.level[i]);
      }
    }
  }

  // Normalizing twice is normalizing once, whenever the second one happens.
  lemma NormalizeIdempotent(e: Event, now: Time, later: Time)
    requires !now.IsZero()
    ensures Normalized(Normalized(e, now), later) == Normalized(e, now)
  {
    ToLowerIdempotent(e.level);
    ToLowerIdempotent(LEVEL_INFO);
    assert ToLower(LEVEL_INFO) == LEVEL_INFO;
    assert e.level != "" ==> |ToLower(e.level)| != 0;
  }

  // *signal.Event: the three fields Normalize assigns, and the others.
  class LiveEvent {
    var kind: string
    var time: Time
    var level: string
    const rest: Event

    constructor (e: Event)
      ensures Value() == e
    {
      kind, time, level, rest := e.kind, e.time, e.level, e;
    }

    function Value(): Event
      reads this
    {
      rest.(kind := kind, time := time, level := level)
    }
  }

  // A signal.Signal is an *Event or a value of some other type.
  datatype Signal = Pointer(ev: LiveEvent) | Other(value: Event) {
    function Value(): Event
      reads if Pointer? then {ev} else {}
    {
      if Pointer? then ev.Value() else value
    }
  }

  method NormalizeProcess(sig: Signal, now: Time) returns (out: Signal, keep: bool, err: Option<string>)
    modifies if sig.Pointer? then {sig.ev} else {}
    ensures out == sig && keep && err == None
    ensures sig.Pointer? ==> sig.ev.Value() == Normalized(old(sig.ev.Value()), now)
  {
    if sig.Other? {
      return sig, true, None;
    }
    var ev := sig.ev;
    if ev.kind == "" {
      ev.kind := KIND_LOG;
    }
    if ev.time.IsZero() {
      ev.time := now;
    }
    if ev.level == "" {
      ev.level := LEVEL_INFO;
    } else {
      ev.level := ToLower(ev.level);
    }
    return sig, true, None;
  }

  // A stage of the chain: Normalize, or one that returns a value of its own.
  datatype Stage = InPlace | Rewrite(process: Processor)

  // The value a stage makes of a signal's value. Normalize leaves a signal
  // that is not an *Event alone.
  function StageVerdict(stage: Stage, now: Time, pointer: bool, e: Event): Verdict {
    match stage
    case InPlace => Verdict(if pointer then Normalized(e, now) else e, true, None)
    case Rewrite(p) => p(e)
  }

  method ProcessStage(stage: Stage, sig: Signal, now: Time) returns (out: Signal, keep: bool, err: Option<string>)
    modifies if sig.Pointer? then {sig.ev} else {}
    ensures Verdict(out.Value(), keep, err) == StageVerdict(stage, now, sig.Pointer?, old(sig.Value()))
    ensures stage.InPlace? ==> out == sig && keep && err == None
    ensures stage.Rewrite? ==> out.Other? && sig.Value() == old(sig.Value())
  {
    match stage
    case InPlace =>
      out, keep, err := NormalizeProcess(sig, now);
    case Rewrite(p) =>
      var v := p(sig.Value());
      return Other(v.out), v.keep, v.err;
  }

  // A stage as a processor of values.
  function AsProcessor(stage: Stage, now: Time, pointer: bool): Processor {
    e => StageVerdict(stage, now, pointer, e)
  }

  // The chain's processors, for a signal that comes in as the caller's object
  // or not; a rewritten signal no longer is.
  function Processors(stages: seq<Stage>, now: Time, pointer: bool): (ps: seq<Processor>)
    ensures |ps| == |stages|
  {
    if stages == [] then []
    else [AsProcessor(stages[0], now, pointer)] + Processors(stages[1..], now, pointer && stages[0].InPlace?)
  }

  // The chain as a function of values.
  function ChainVerdict(stages: seq<Stage>, now: Time, pointer: bool, e: Event): Verdict {
    RunChain(Processors(stages, now, pointer), e)
  }

  predicate AllInPlace(stages: seq<Stage>) {
    forall i | 0 <= i < |stages| :: stages[i].InPlace?
  }

  // One stage, and the rest of the chain on what it made of the signal.
  lemma ChainVerdictNext(stages: seq<Stage>, now: Time, pointer: bool, e: Event)
    requires stages != []
    ensures var v := StageVerdict(stages[0], now, pointer, e);
            ChainVerdict(stages, now, pointer, e)
            == if v.err.Some? then Verdict(e, false, v.err)
               else if !v.keep then Verdict(v.out, false, None)
               else ChainVerdict(stages[1..], now, pointer && stages[0].InPlace?, v.out)
  {
    var ps := Processors(stages, now, pointer);
    assert ps[1..] == Processors(stages[1..], now, pointer && stages[0].InPlace?);
  }

  // One round of the loop over the stages.
  lemma ChainVerdictStep(stages: seq<Stage>, i: nat, now: Time, pointer: bool, e: Event)
    requires i < |stages|
    ensures var v := StageVerdict(stages[i], now, pointer, e);
            ChainVerdict(stages[i..], now, pointer, e)
            == if v.err.Some? then Verdict(e, false, v.err)
               else if !v.keep then Verdict(v.out, false, None)
               else ChainVerdict(stages[i + 1..], now, pointer && stages[i].InPlace?, v.out)
  {
    ChainVerdictNext(stages[i..], now, pointer, e);
    assert stages[i..][1..] == stages[i + 1..];
  }

  lemma {:induction false} ProcessorsConcat(a: seq<Stage>, b: seq<Stage>, now: Time, pointer: bool)
    ensures Processors(a + b, now, pointer)
            == Processors(a, now, pointer) + Processors(b, now, pointer && AllInPlace(a))
    decreases |a|
  {
    if a == [] {
      assert a + b == b;
    } else {
      assert (a + b)[1..] == a[1..] + b;
      ProcessorsConcat(a[1..], b, now, pointer && a[0].InPlace?);
      assert AllInPlace(a) <==> a[0].InPlace? && AllInPlace(a[1..]);
    }
  }

  // On objects too a chain of two lists runs the first, then the second, which
  // is given the caller's object if every stage before it normalizes in place.
  lemma StagesConcat(a: seq<Stage>, b: seq<Stage>, now: Time, pointer: bool, e: Event)
    ensures var first := ChainVerdict(a, now, pointer, e);
            ChainVerdict(a + b, now, pointer, e)
            == if first.Passes() then ChainVerdict(b, now, pointer && AllInPlace(a), first.out) else first
  {
    ProcessorsConcat(a, b, now, pointer);
    ChainConcat(Processors(a, now, pointer), Processors(b, now, pointer && AllInPlace(a)), e);
  }

  // However many Normalize stages a chain has, it normalizes once.
  lemma {:induction false} NormalizeChain(stages: seq<Stage>, now: Time, e: Event)
    requires AllInPlace(stages) && !now.IsZero()
    ensures ChainVerdict(stages, now, true, e)
            == Verdict(if stages == [] then e else Normalized(e, now), true, None)
  {
    if stages != [] {
      ChainVerdictNext(stages, now, true, e);
      NormalizeChain(stages[1..], now, Normalized(e, now));
      NormalizeIdempotent(e, now, now);
    }
  }

  function Values(sigs: seq<Signal>): (es: seq<Event>)
    reads set s | s in sigs && s.Pointer? :: s.ev
    ensures |es| == |sigs| && forall i | 0 <= i < |sigs| :: es[i] == sigs[i].Value()
  {
    if sigs == [] then []
    else
      assert forall s | s in sigs[1..] :: s in sigs;
      [sigs[0].Value()] + Values(sigs[1..])
  }

  class PublishingDispatcher {
    const stages: seq<Stage>
    const capacity: nat
    var queue: seq<Signal>
    var published: seq<Signal>

    constructor (stages: seq<Stage>, capacity: nat)
      ensures this.stages == stages && this.capacity == capacity && queue == [] && published == []
    {
      this.stages := stages;
      this.capacity := capacity;
      queue, published := [], [];
    }

    method Process(sig: Signal, now: Time) returns (out: Signal, keep: bool, err: Option<string>)
      modifies if sig.Pointer? then {sig.ev} else {}
      ensures Verdict(out.Value(), keep, err) == ChainVerdict(stages, now, sig.Pointer?, old(sig.Value()))
      ensures out == sig || out.Other?
      ensures AllInPlace(stages) ==> out == sig && keep && err == None
    {
      var cur := sig;
      for i := 0 to |stages|
        invariant cur == sig || cur.Other?
        invariant AllInPlace(stages) ==> cur == sig
        invariant ChainVerdict(stages, now, sig.Pointer?, old(sig.Value()))
               == ChainVerdict(stages[i..], now, cur.Pointer?, cur.Value())
      {
        ChainVerdictStep(stages, i, now, cur.Pointer?, cur.Value());
        var next, k, e := ProcessStage(stages[i], cur, now);
        if e.Some? {
          return cur, false, e;
        }
        if !k {
          return next, false, None;
        }
        cur := next;
      }
      return cur, true, None;
    }

    // Async.Dispatch on objects: the error, and on values what enters the
    // queue, are what Async.Dispatch makes of the chain's processors.
    method InnerDispatch(sig: Signal, now: Time, ctxDone: bool, pick: bool) returns (err: Option<string>)
      modifies this`queue, if sig.Pointer? then {sig.ev} else {}
      ensures var (q, e) := Dispatched(Processors(stages, now, sig.Pointer?), capacity, old(Values(queue)),
                                       old(sig.Value()), ctxDone, pick);
              && err == e && |queue| == |q| && |queue| <= |old(queue)| + 1 && queue[..|old(queue)|] == old(queue)
              && (|queue| > |old(queue)| ==> queue[|old(queue)|].Value() == q[|old(queue)|])
      ensures AllInPlace(stages) && |queue| > |old(queue)| ==> queue[|old(queue)|] == sig
      ensures AllInPlace(stages) ==>
                Verdict(sig.Value(), true, None) == ChainVerdict(stages, now, sig.Pointer?, old(sig.Value()))
    {
      var out, keep, e := Process(sig, now);
      if e.Some? {
        return e;
      }
      if !keep {
        return None;
      }
      match Choose(|queue| < capacity, ctxDone, pick)
      case Queued =>
        queue := queue + [out];
        return None;
      case Cancelled =>
        return Some(CONTEXT_CANCELED);
      case DroppedFull =>
        return None;
    }

    // The hub is told exactly when the inner Dispatch returned nil, which
    // includes the signals the pipeline or the full queue dropped, and it is
    // told of the caller's object. With the normalize chain that is the object
    // queued, normalized.
    method Dispatch(sig: Signal, now: Time, ctxDone: bool, pick: bool) returns (err: Option<string>)
      requires !now.IsZero()
      modifies this, if sig.Pointer? then {sig.ev} else {}
      ensures err == None ==> published == old(published) + [sig]
      ensures err != None ==> published == old(published) && queue == old(queue)
      ensures var v := ChainVerdict(stages, now, sig.Pointer?, old(sig.Value()));
              err == if v.err.Some? then v.err
                     else if v.keep && Choose(|old(queue)| < capacity, ctxDone, pick) == Cancelled
                     then Some(CONTEXT_CANCELED)
                     else None
      ensures queue == old(queue) || (|queue| == |old(queue)| + 1 && queue[..|old(queue)|] == old(queue))
      ensures AllInPlace(stages) && queue != old(queue) ==> queue == old(queue) + [sig]
      ensures AllInPlace(stages) && stages != [] && sig.Pointer? ==>
                sig.Value() == Normalized(old(sig.Value()), now)
    {
      if AllInPlace(stages) && sig.Pointer? {
        NormalizeChain(stages, now, sig.Value());
      }
      err := InnerDispatch(sig, now, ctxDone, pick);
      if err.Some? {
        return;
      }
      published := published + [sig];
    }
  }
}
