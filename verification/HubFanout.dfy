// What Publish of server/internal/live/hub.go promises all subscribers
// together: each signal published while a subscription is in the table is
// offered to it exactly once, in the order of the calls that do not overlap.
module HubFanout {
  import opened Signals
  import opened HubProtocol

  // The p-th Publish has still to visit this subscription.
  predicate Awaiting(s: State, p: nat, id: nat) {
    p in s.publishers && id in s.publishers[p].remaining
  }

  // The number of the first Publish that does not concern a subscription.
  function End(s: State, u: Sub): nat {
    if u.chClosed then u.until else |s.begun|
  }

  predicate Numbered(s: State) {
    && (forall p | p in s.publishers :: p < |s.begun| && s.publishers[p].sig == s.begun[p] && p !in s.ended)
    && (forall p | p in s.ended :: p < s.ended[p] <= |s.begun|)
  }

  predicate Sourced(s: State, u: Sub) {
    && |u.sources| == |u.offered|
    && (forall i | 0 <= i < |u.sources| :: u.sources[i] < |s.begun| && u.offered[i] == s.begun[u.sources[i]])
    && u.since <= End(s, u) <= |s.begun|
  }

  ghost predicate Once(s: State, id: nat)
    requires id in s.all
  {
    var u := s.all[id];
    && (forall p: nat | Awaiting(s, p, id) :: u.since <= p < End(s, u))
    && (forall p: nat ::
          multiset(u.sources)[p] == if u.since <= p < End(s, u) && !Awaiting(s, p, id) then 1 else 0)
  }

  // No call that had returned when another began comes after it.
  predicate InOrder(s: State, u: Sub) {
    forall i, j | 0 <= i < j < |u.sources| && u.sources[j] in s.ended :: s.ended[u.sources[j]] > u.sources[i]
  }

  ghost predicate SubFan(s: State, id: nat)
    requires id in s.all
  {
    Sourced(s, s.all[id]) && Once(s, id) && InOrder(s, s.all[id])
  }

  ghost predicate FanInv(s: State) {
    Guarded(s) && Numbered(s) && forall id | id in s.all :: SubFan(s, id)
  }

  lemma NumberedStep(s: State, step: Step)
    requires Guarded(s) && Numbered(s) && Enabled(s, step)
    ensures Numbered(Do(s, step))
  {
    if !step.PublishBegin? && !step.PublishTo? && !step.PublishEnd? {
      NoPublishFrame(s, step);
    } else {
      PublishNumbered(s, step);
    }
  }

  lemma NoPublishFrame(s: State, step: Step)
    requires Enabled(s, step) && !step.PublishBegin? && !step.PublishTo? && !step.PublishEnd?
    ensures var t := Do(s, step); t.publishers == s.publishers && t.begun == s.begun && t.ended == s.ended
  {
  }

  lemma PublishNumbered(s: State, step: Step)
    requires Numbered(s) && Enabled(s, step) && (step.PublishBegin? || step.PublishTo? || step.PublishEnd?)
    ensures Numbered(Do(s, step))
  {
  }

  // What a step leaves alone keeps the promise to a subscription.
  predicate SameFan(s: State, t: State, id: nat) {
    && id in s.all && id in t.all
    && var u, v := s.all[id], t.all[id];
       v.sources == u.sources && v.offered == u.offered && v.since == u.since && v.until == u.until
       && v.chClosed == u.chClosed
  }

  lemma FanKept(s: State, t: State, id: nat)
    requires SameFan(s, t, id) && SubFan(s, id)
    requires t.begun == s.begun && t.ended == s.ended && forall p: nat :: Awaiting(t, p, id) == Awaiting(s, p, id)
    ensures SubFan(t, id)
  {
  }

  lemma BeginKeeps(s: State, sig: Event, id: nat)
    requires FanInv(s) && id in s.all
    ensures SubFan(Do(s, PublishBegin(sig)), id)
  {
    var t, u, n := Do(s, PublishBegin(sig)), s.all[id], |s.begun|;
    assert SubFan(s, id);
    forall p: nat ensures Awaiting(t, p, id) <==> Awaiting(s, p, id) || (p == n && id in s.live) {
    }
    assert multiset(u.sources)[n] == 0;
  }

  lemma ToKeeps(s: State, p: nat, id: nat)
    requires FanInv(s) && Enabled(s, PublishTo(p, id))
    ensures SubFan(Do(s, PublishTo(p, id)), id)
  {
    var t, u := Do(s, PublishTo(p, id)), s.all[id];
    assert SubFan(s, id) && Awaiting(s, p, id);
    assert id in s.live && !u.chClosed;
    var v := t.all[id];
    assert v == Offer(u, s.begun[p], p) && t.begun == s.begun && t.ended == s.ended;
    OfferSourced(s, t, u, p);
    OfferInOrder(s, t, u, p);
    forall q: nat ensures Awaiting(t, q, id) <==> Awaiting(s, q, id) && q != p {
    }
    OfferOnce(s, t, p, id);
  }

  lemma OfferSourced(s: State, t: State, u: Sub, p: nat)
    requires Sourced(s, u) && !u.chClosed && p < |s.begun| && t.begun == s.begun
    ensures Sourced(t, Offer(u, s.begun[p], p))
  {
  }

  lemma OfferInOrder(s: State, t: State, u: Sub, p: nat)
    requires InOrder(s, u) && p < |s.begun| && p !in s.ended && t.ended == s.ended
    ensures InOrder(t, Offer(u, s.begun[p], p))
  {
  }

  lemma OfferOnce(s: State, t: State, p: nat, id: nat)
    requires id in s.all && Once(s, id) && Awaiting(s, p, id) && !s.all[id].chClosed
    requires id in t.all && t.begun == s.begun
    requires var u, v := s.all[id], t.all[id];
             v.sources == u.sources + [p] && v.since == u.since && v.until == u.until && v.chClosed == u.chClosed
    requires forall q: nat :: Awaiting(t, q, id) <==> Awaiting(s, q, id) && q != p
    ensures Once(t, id)
  {
    assert multiset(t.all[id].sources) == multiset(s.all[id].sources) + multiset{p};
  }

  lemma EndKeeps(s: State, p: nat, id: nat)
    requires FanInv(s) && Enabled(s, PublishEnd(p)) && id in s.all
    ensures SubFan(Do(s, PublishEnd(p)), id)
  {
    assert SubFan(s, id);
    forall q: nat ensures Awaiting(Do(s, PublishEnd(p)), q, id) == Awaiting(s, q, id) {
    }
  }

  lemma CancelKeeps(s: State, id: nat, i: nat)
    requires FanInv(s) && id in s.all && i in s.all && s.publishers == map[]
    ensures i in Cancelled(s, id).all && SubFan(Cancelled(s, id), i)
  {
    assert SubFan(s, i);
  }

  // The steps of the goroutines, the contexts and the readers.
  lemma GoroutineKeeps(s: State, step: Step, id: nat)
    requires FanInv(s) && OfGoroutine(step) && Enabled(s, step) && id in s.all && id in Do(s, step).all
    ensures SubFan(Do(s, step), id)
  {
    assert SubFan(s, id);
    GoroutineSame(s, step, id);
    FanKept(s, Do(s, step), id);
  }

  lemma GoroutineSame(s: State, step: Step, id: nat)
    requires OfGoroutine(step) && Enabled(s, step) && id in s.all && id < s.next
    ensures var t := Do(s, step);
            SameFan(s, t, id) && t.publishers == s.publishers && t.begun == s.begun && t.ended == s.ended
  {
    if step.id == id {
      GoroutineOwn(s, step);
    } else {
      OtherSub(s, step, id);
    }
  }

  lemma GoroutineOwn(s: State, step: Step)
    requires OfGoroutine(step) && Enabled(s, step)
    ensures SameFan(s, Do(s, step), step.id)
  {
  }

  lemma OtherToKeeps(s: State, p: nat, id: nat, i: nat)
    requires FanInv(s) && Enabled(s, PublishTo(p, id)) && i in s.all && i != id
    ensures SubFan(Do(s, PublishTo(p, id)), i)
  {
    var t := Do(s, PublishTo(p, id));
    assert SubFan(s, i);
    forall q: nat ensures Awaiting(t, q, i) == Awaiting(s, q, i) {
    }
    FanKept(s, t, i);
  }

  lemma SubscribeKeeps(s: State, f: Filter, id: nat)
    requires FanInv(s) && Enabled(s, Subscribe(f)) && id in Do(s, Subscribe(f)).all
    ensures SubFan(Do(s, Subscribe(f)), id)
  {
    if id != s.next {
      assert SubFan(s, id);
      FanKept(s, Do(s, Subscribe(f)), id);
    }
  }

  lemma ForwarderCancelKeeps(s: State, id: nat, i: nat)
    requires FanInv(s) && Enabled(s, ForwarderCancel(id)) && i in s.all
    ensures i in Do(s, ForwarderCancel(id)).all && SubFan(Do(s, ForwarderCancel(id)), i)
  {
    CancelKeeps(s, id, i);
    FanKept(Cancelled(s, id), Do(s, ForwarderCancel(id)), i);
  }

  lemma FanStep(s: State, step: Step, id: nat)
    requires FanInv(s) && Enabled(s, step) && id in Do(s, step).all
    ensures SubFan(Do(s, step), id)
  {
    if step.Subscribe? {
      SubscribeKeeps(s, step.filter, id);
    } else if step.PublishBegin? {
      BeginKeeps(s, step.sig, id);
    } else if step.PublishTo? {
      if step.id == id {
        ToKeeps(s, step.p, id);
      } else {
        OtherToKeeps(s, step.p, step.id, id);
      }
    } else if step.PublishEnd? {
      EndKeeps(s, step.p, id);
    } else if step.Cancel? {
      CancelKeeps(s, step.id, id);
    } else if step.ForwarderCancel? {
      ForwarderCancelKeeps(s, step.id, id);
    } else {
      GoroutineKeeps(s, step, id);
    }
  }

  lemma {:induction false} RunFan(r: Run)
    requires Legal(r) && Init(First(r))
    ensures FanInv(Last(r))
  {
    RunInv(r);
    if r.Then? {
      RunFan(r.prev);
      NumberedStep(Last(r.prev), r.step);
      forall id | id in Last(r).all ensures SubFan(Last(r), id) {
        FanStep(Last(r.prev), r.step, id);
      }
    }
  }

  // A subscription is offered, exactly once each, the signals of the Publish
  // calls that began while it was in the table, but for those still on their
  // way to it, and no others.
  lemma EachPublishOffered(r: Run, id: nat)
    requires Legal(r) && Init(First(r)) && id in Last(r).all
    ensures var s, u := Last(r), Last(r).all[id];
            && |u.sources| == |u.offered|
            && (forall i | 0 <= i < |u.sources| :: u.sources[i] < |s.begun| && u.offered[i] == s.begun[u.sources[i]])
            && (forall p: nat ::
                  multiset(u.sources)[p] == if u.since <= p < End(s, u) && !Awaiting(s, p, id) then 1 else 0)
  {
    RunFan(r);
    assert SubFan(Last(r), id);
  }

  // Two calls of Publish that do not overlap are offered to every subscription
  // in their order.
  lemma OffersKeepOrder(r: Run, id: nat, i: nat, j: nat)
    requires Legal(r) && Init(First(r)) && id in Last(r).all
    requires var s, u := Last(r), Last(r).all[id];
             && i < |u.sources| && j < |u.sources|
             && u.sources[i] in s.ended && s.ended[u.sources[i]] <= u.sources[j]
    ensures i < j
  {
    RunFan(r);
    assert SubFan(Last(r), id);
    if j <= i {
      BeginsBefore(Last(r), Last(r).all[id], i, j);
    }
  }

  lemma BeginsBefore(s: State, u: Sub, i: nat, j: nat)
    requires Numbered(s) && InOrder(s, u) && j <= i < |u.sources| && u.sources[i] in s.ended
    ensures s.ended[u.sources[i]] > u.sources[j]
  {
  }

  // --- From Publish to the console ----------------------------------------

  // The signals of the calls of Publish, in the order they began.
  function Published(r: Run): seq<Event> {
    match r
    case Start(_) => []
    case Then(p, step) => Published(p) + if step.PublishBegin? then [step.sig] else []
  }

  lemma {:induction false} BegunIs(r: Run)
    requires Legal(r) && Init(First(r))
    ensures Last(r).begun == Published(r)
  {
    if r.Then? {
      BegunIs(r.prev);
      StepBegun(Last(r.prev), r.step);
    }
  }

  lemma StepBegun(s: State, step: Step)
    requires Enabled(s, step)
    ensures Do(s, step).begun == s.begun + if step.PublishBegin? then [step.sig] else []
  {
    assert s.begun + [] == s.begun;
  }

  // The published signals with these numbers.
  function Picked(begun: seq<Event>, numbers: seq<nat>): (es: seq<Event>)
    requires Below(numbers, |begun|)
    ensures |es| == |numbers| && forall i | 0 <= i < |es| :: es[i] == begun[numbers[i]]
  {
    seq(|numbers|, i requires 0 <= i < |numbers| => begun[numbers[i]])
  }

  // Numbers that name each of a stretch once pick that stretch.
  lemma {:induction false} PickedStretch(begun: seq<Event>, numbers: seq<nat>, lo: nat, hi: nat)
    requires Below(numbers, |begun|) && lo <= hi <= |begun|
    requires forall p: nat :: multiset(numbers)[p] == if lo <= p < hi then 1 else 0
    ensures multiset(Picked(begun, numbers)) == multiset(begun[lo..hi])
    decreases hi
  {
    if lo == hi {
      assert multiset(numbers) == multiset{};
      assert |multiset(numbers)| == |numbers|;
    } else {
      var j := PlaceOf(numbers, hi - 1);
      var rest: seq<nat> := numbers[..j] + numbers[j + 1..];
      CountsWithout(numbers, j, lo, hi);
      PickedStretch(begun, rest, lo, hi - 1);
      PickedWithout(begun, numbers, j);
      StretchBag(begun, lo, hi);
    }
  }

  lemma CountsWithout(numbers: seq<nat>, j: nat, lo: nat, hi: nat)
    requires lo < hi && j < |numbers| && numbers[j] == hi - 1
    requires forall p: nat :: multiset(numbers)[p] == if lo <= p < hi then 1 else 0
    ensures var rest: seq<nat> := numbers[..j] + numbers[j + 1..];
            forall p: nat :: multiset(rest)[p] == if lo <= p < hi - 1 then 1 else 0
  {
    Without(numbers, j);
    var rest: seq<nat> := numbers[..j] + numbers[j + 1..];
    forall p: nat ensures multiset(rest)[p] == if lo <= p < hi - 1 then 1 else 0 {
      assert multiset(numbers)[p] == multiset(rest)[p] + if p == hi - 1 then 1 else 0;
    }
  }

  lemma StretchBag(begun: seq<Event>, lo: nat, hi: nat)
    requires lo < hi <= |begun|
    ensures multiset(begun[lo..hi]) == multiset(begun[lo..hi - 1]) + multiset{begun[hi - 1]}
  {
    assert begun[lo..hi] == begun[lo..hi - 1] + [begun[hi - 1]];
  }

  lemma PlaceOf(numbers: seq<nat>, p: nat) returns (j: nat)
    requires multiset(numbers)[p] == 1
    ensures j < |numbers| && numbers[j] == p
  {
    assert p in numbers;
    j :| 0 <= j < |numbers| && numbers[j] == p;
  }

  lemma PickedWithout(begun: seq<Event>, numbers: seq<nat>, j: nat)
    requires Below(numbers, |begun|) && j < |numbers|
    ensures var rest := numbers[..j] + numbers[j + 1..];
            Below(rest, |begun|)
            && multiset(Picked(begun, numbers)) == multiset(Picked(begun, rest)) + multiset{begun[numbers[j]]}
  {
    var all, rest := Picked(begun, numbers), numbers[..j] + numbers[j + 1..];
    assert Below(rest, |begun|);
    assert Picked(begun, rest) == all[..j] + all[j + 1..];
    Without(all, j);
  }

  lemma Without<T>(xs: seq<T>, j: nat)
    requires j < |xs|
    ensures multiset(xs) == multiset(xs[..j] + xs[j + 1..]) + multiset{xs[j]}
  {
    assert xs == xs[..j] + [xs[j]] + xs[j + 1..];
  }

  lemma {:induction false} FilteredCounts(f: Filter, es: seq<Event>, e: Event)
    ensures multiset(Filtered(f, es))[e] == if Matches(f, e) then multiset(es)[e] else 0
  {
    if es != [] {
      var m := |es| - 1;
      FilteredCounts(f, es[..m], e);
      assert es == es[..m] + [es[m]];
    }
  }

  // With neither buffer ever found full and a live context, a cancelled subscription
  // has been given exactly the matching signals whose Publish began while it
  // was in the table, each once.
  lemma DeliversPublished(r: Run, id: nat)
    requires Legal(r) && Init(First(r)) && id in Last(r).all
    requires Last(r).all[id].forwarder == Gone && !Last(r).all[id].ctxDone
    requires FoundInFull(r, id) == 0 && FoundOutFull(r, id) == 0
    ensures var s, u := Last(r), Last(r).all[id];
            && Below(u.emitted, |u.offered|) && u.since <= u.until <= |s.begun|
            && multiset(EventsAt(u.offered, u.emitted)) == multiset(Filtered(u.filter, s.begun[u.since..u.until]))
  {
    var s, u := Last(r), Last(r).all[id];
    DeliversAll(r, id);
    RunFan(r);
    assert SubFan(s, id);
    ClosedByCancel(r, id);
    assert Picked(s.begun, u.sources) == u.offered;
    PickedStretch(s.begun, u.sources, u.since, u.until);
    var published := s.begun[u.since..u.until];
    forall e ensures multiset(Filtered(u.filter, u.offered))[e] == multiset(Filtered(u.filter, published))[e] {
      FilteredCounts(u.filter, u.offered, e);
      FilteredCounts(u.filter, published, e);
    }
  }

  // A goroutine that has gone on a live context left a closed channel, which
  // no Publish has still to visit.
  lemma ClosedByCancel(r: Run, id: nat)
    requires Legal(r) && Init(First(r)) && id in Last(r).all
    requires Last(r).all[id].forwarder == Gone && !Last(r).all[id].ctxDone
    ensures Last(r).all[id].chClosed && forall p: nat :: !Awaiting(Last(r), p, id)
  {
    RunInv(r);
    assert SubOk(Last(r).all[id]);
  }

  // The p-th Publish had returned when the q-th began.
  predicate EndedBefore(s: State, p: nat, q: nat) {
    p in s.ended && s.ended[p] <= q
  }

  // The calls of Publish of a stretch came one after another.
  predicate OneAtATime(s: State, lo: nat, hi: nat) {
    forall p: nat, q: nat | lo <= p < q < hi :: EndedBefore(s, p, q)
  }

  // Numbers in order that name each of a stretch once are that stretch.
  lemma {:induction false} StretchInOrder(numbers: seq<nat>, lo: nat, hi: nat)
    requires lo <= hi && Increasing(numbers)
    requires forall p: nat :: multiset(numbers)[p] == if lo <= p < hi then 1 else 0
    ensures |numbers| == hi - lo && forall i | 0 <= i < |numbers| :: numbers[i] == lo + i
    decreases hi
  {
    if lo == hi {
      assert multiset(numbers) == multiset{};
      assert |multiset(numbers)| == |numbers|;
    } else {
      var j := PlaceOf(numbers, hi - 1);
      AllWithin(numbers, lo, hi);
      LastIsLargest(numbers, j, hi);
      var front: seq<nat> := numbers[..j];
      assert numbers == front + [hi - 1];
      forall p: nat ensures multiset(front)[p] == if lo <= p < hi - 1 then 1 else 0 {
        assert multiset(numbers)[p] == multiset(front)[p] + if p == hi - 1 then 1 else 0;
      }
      StretchInOrder(front, lo, hi - 1);
    }
  }

  lemma LastIsLargest(numbers: seq<nat>, j: nat, hi: nat)
    requires Increasing(numbers) && j < |numbers| && numbers[j] == hi - 1 && numbers[|numbers| - 1] < hi
    ensures j == |numbers| - 1
  {
  }

  lemma AllWithin(numbers: seq<nat>, lo: nat, hi: nat)
    requires forall p: nat :: multiset(numbers)[p] == if lo <= p < hi then 1 else 0
    ensures forall i | 0 <= i < |numbers| :: lo <= numbers[i] < hi
  {
    forall i | 0 <= i < |numbers| ensures lo <= numbers[i] < hi {
      assert numbers[i] in multiset(numbers);
    }
  }

  // Then a subscription is offered them in their order.
  lemma SourcesInOrder(r: Run, id: nat)
    requires Legal(r) && Init(First(r)) && id in Last(r).all
    requires var s, u := Last(r), Last(r).all[id];
             OneAtATime(s, u.since, End(s, u)) && forall p: nat :: !Awaiting(s, p, id)
    ensures var s, u := Last(r), Last(r).all[id];
            u.since <= End(s, u) <= |s.begun| && u.offered == s.begun[u.since..End(s, u)]
  {
    var s, u := Last(r), Last(r).all[id];
    RunFan(r);
    assert SubFan(s, id);
    OfferedStretch(s, u, End(s, u));
  }

  lemma OfferedStretch(s: State, u: Sub, end: nat)
    requires u.since <= end <= |s.begun| && Sourced(s, u) && InOrder(s, u) && OneAtATime(s, u.since, end)
    requires forall p: nat :: multiset(u.sources)[p] == if u.since <= p < end then 1 else 0
    ensures u.offered == s.begun[u.since..end]
  {
    SourcesIncrease(s, u, end);
    StretchInOrder(u.sources, u.since, end);
  }

  lemma SourcesIncrease(s: State, u: Sub, end: nat)
    requires InOrder(s, u) && OneAtATime(s, u.since, end)
    requires forall p: nat :: multiset(u.sources)[p] == if u.since <= p < end then 1 else 0
    ensures Increasing(u.sources)
  {
    AllWithin(u.sources, u.since, end);
    forall i, j | 0 <= i < j < |u.sources| ensures u.sources[i] < u.sources[j] {
      NoTwice(u.sources, i, j);
      InTheirOrder(s, u, i, j);
    }
  }

  lemma InTheirOrder(s: State, u: Sub, i: nat, j: nat)
    requires InOrder(s, u) && i < j < |u.sources|
    requires u.sources[j] < u.sources[i] ==> EndedBefore(s, u.sources[j], u.sources[i])
    ensures u.sources[i] <= u.sources[j]
  {
  }

  lemma NoTwice(numbers: seq<nat>, i: nat, j: nat)
    requires i < j < |numbers| && multiset(numbers)[numbers[i]] <= 1
    ensures numbers[i] != numbers[j]
  {
    assert numbers == numbers[..j] + [numbers[j]] + numbers[j + 1..];
    assert numbers[..j][i] == numbers[i];
  }

  // Published one after another, with no full buffer and a live context, a cancelled
  // subscription has been given exactly the matching signals published while
  // it was in the table, in the order they were published.
  lemma DeliversInOrder(r: Run, id: nat)
    requires Legal(r) && Init(First(r)) && id in Last(r).all
    requires Last(r).all[id].forwarder == Gone && !Last(r).all[id].ctxDone
    requires FoundInFull(r, id) == 0 && FoundOutFull(r, id) == 0
    requires OneAtATime(Last(r), Last(r).all[id].since, Last(r).all[id].until)
    ensures var s, u := Last(r), Last(r).all[id];
            && Below(u.emitted, |u.offered|) && u.since <= u.until <= |s.begun|
            && EventsAt(u.offered, u.emitted) == Filtered(u.filter, s.begun[u.since..u.until])
  {
    DeliversAll(r, id);
    ClosedByCancel(r, id);
    SourcesInOrder(r, id);
  }
}
