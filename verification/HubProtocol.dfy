// server/internal/live/hub.go as a step system: any number of concurrent
// Publish calls under the read lock, Subscribe and the cancel closure under the
// write lock, the end of a subscriber's context, its forwarding goroutine, and
// the console reading its output.
module HubProtocol {
  import opened Signals

  const BUFFER: nat := 128

  datatype Filter = Filter(
    kind: string,
    levels: seq<string>,
    services: seq<string>,
    hosts: seq<string>,
    keyword: string)

  predicate Matches(f: Filter, e: Event) {
    && (f.kind != "" ==> e.kind == f.kind)
    && (f.levels != [] ==> e.level in f.levels)
    && (f.services != [] ==> e.service in f.services)
    && (f.hosts != [] ==> e.host in f.hosts)
    && (f.keyword != "" ==> Contains(ToLower(e.message), ToLower(f.keyword)))
  }

  // The signals of a list that a filter lets through, in order.
  function Filtered(f: Filter, es: seq<Event>): seq<Event> {
    if es == [] then []
    else Filtered(f, es[..|es| - 1]) + if Matches(f, es[|es| - 1]) then [es[|es| - 1]] else []
  }

  // The forwarding goroutine: at its select, holding a signal it received,
  // about to call cancel, about to return, or gone.
  datatype Forwarder = Selecting | Holding(index: nat) | Cancelling | Returning | Gone

  // One subscription. A buffered signal is named by its place in `offered`, the
  // signals Publish tried to send on ch. Histories: admitted lists the places
  // that entered ch and taken counts those received, emitted those that entered
  // out and consumed counts those read from it, lostIn and lostOut count the
  // drops at the two full buffers. sources numbers the Publish each offered
  // signal came from; since and until number the first Publish after the
  // subscription and after the closing of ch.
  datatype Sub = Sub(
    filter: Filter,
    ctxDone: bool,
    ch: seq<nat>,
    chClosed: bool,
    out: seq<nat>,
    outClosed: bool,
    forwarder: Forwarder,
    offered: seq<Event>,
    admitted: seq<nat>,
    taken: nat,
    emitted: seq<nat>,
    consumed: nat,
    lostIn: nat,
    lostOut: nat,
    sources: seq<nat>,
    since: nat,
    until: nat)

  // A Publish holding the read lock, and the ids its range has still to visit.
  datatype Publisher = Publisher(sig: Event, remaining: set<nat>)

  // live is the key set of h.subs; all keeps every subscription ever made.
  // panicked records a send on a closed channel or a second close. begun lists
  // the signals published, which numbers the calls of Publish, and ended gives
  // for each that has returned how many had begun by then.
  datatype State = State(
    live: set<nat>,
    next: nat,
    all: map<nat, Sub>,
    publishers: map<nat, Publisher>,
    panicked: bool,
    begun: seq<Event>,
    ended: map<nat, nat>)

  datatype Step =
    | PublishBegin(sig: Event)
    | PublishTo(p: nat, id: nat)
    | PublishEnd(p: nat)
    | Subscribe(filter: Filter)
    | Cancel(id: nat)
    | ContextEnd(id: nat)
    | Notice(id: nat)
    | ForwarderCancel(id: nat)
    | Receive(id: nat)
    | ReceiveClosed(id: nat)
    | Forward(id: nat)
    | Return(id: nat)
    | Consume(id: nat)

  predicate Init(s: State) {
    s.live == {} && s.next == 0 && s.all == map[] && s.publishers == map[] && !s.panicked
    && s.begun == [] && s.ended == map[]
  }

  predicate Enabled(s: State, step: Step) {
    match step
    case PublishBegin(_) => true
    case PublishTo(p, id) => p in s.publishers && id in s.publishers[p].remaining && id in s.all
    case PublishEnd(p) => p in s.publishers && s.publishers[p].remaining == {}
    case Subscribe(_) => s.publishers == map[]
    case Cancel(id) => id in s.all && s.publishers == map[]
    case ContextEnd(id) => id in s.all
    case Notice(id) => id in s.all && s.all[id].ctxDone && s.all[id].forwarder == Selecting
    case ForwarderCancel(id) => id in s.all && s.all[id].forwarder == Cancelling && s.publishers == map[]
    case Receive(id) => id in s.all && s.all[id].forwarder == Selecting && s.all[id].ch != []
    case ReceiveClosed(id) =>
      id in s.all && s.all[id].forwarder == Selecting && s.all[id].ch == [] && s.all[id].chClosed
    case Forward(id) => id in s.all && s.all[id].forwarder.Holding? && s.all[id].forwarder.index < |s.all[id].offered|
    case Return(id) => id in s.all && s.all[id].forwarder == Returning
    case Consume(id) => id in s.all && s.all[id].out != []
  }

  function NewSub(f: Filter, since: nat): Sub {
    Sub(f, false, [], false, [], false, Selecting, [], [], 0, [], 0, 0, 0, [], since, 0)
  }

  // A send with default on ch, by the p-th Publish.
  function Offer(u: Sub, sig: Event, p: nat): Sub {
    var i := |u.offered|;
    var v := u.(offered := u.offered + [sig], sources := u.sources + [p]);
    if |u.ch| < BUFFER then v.(ch := u.ch + [i], admitted := u.admitted + [i])
    else v.(lostIn := u.lostIn + 1)
  }

  function Received(u: Sub): Sub
    requires u.ch != []
  {
    u.(ch := u.ch[1..], taken := u.taken + 1, forwarder := Holding(u.ch[0]))
  }

  // What the goroutine does with the signal it holds.
  function Forwarded(u: Sub): Sub
    requires u.forwarder.Holding? && u.forwarder.index < |u.offered|
  {
    var i := u.forwarder.index;
    var v := u.(forwarder := Selecting);
    if !Matches(u.filter, u.offered[i]) then v
    else if |u.out| < BUFFER then v.(out := u.out + [i], emitted := u.emitted + [i])
    else v.(lostOut := u.lostOut + 1)
  }

  function Consumed(u: Sub): Sub
    requires u.out != []
  {
    u.(out := u.out[1..], consumed := u.consumed + 1)
  }

  function With(s: State, id: nat, u: Sub): State {
    s.(all := s.all[id := u])
  }

  // The cancel closure.
  function Cancelled(s: State, id: nat): State
    requires id in s.all
  {
    if id in s.live then
      var u := s.all[id];
      s.(live := s.live - {id}, all := s.all[id := u.(chClosed := true, until := |s.begun|)],
         panicked := s.panicked || u.chClosed)
    else s
  }

  function Do(s: State, step: Step): State
    requires Enabled(s, step)
  {
    match step
    case PublishBegin(sig) =>
      s.(publishers := s.publishers[|s.begun| := Publisher(sig, s.live)], begun := s.begun + [sig])
    case PublishTo(p, id) =>
      var pub := s.publishers[p];
      var t := s.(publishers := s.publishers[p := pub.(remaining := pub.remaining - {id})]);
      if s.all[id].chClosed then t.(panicked := true) else With(t, id, Offer(s.all[id], pub.sig, p))
    case PublishEnd(p) => s.(publishers := s.publishers - {p}, ended := s.ended[p := |s.begun|])
    case Subscribe(f) =>
      s.(live := s.live + {s.next}, all := s.all[s.next := NewSub(f, |s.begun|)], next := s.next + 1)
    case Cancel(id) => Cancelled(s, id)
    case ContextEnd(id) => With(s, id, s.all[id].(ctxDone := true))
    case Notice(id) => With(s, id, s.all[id].(forwarder := Cancelling))
    case ForwarderCancel(id) => var t := Cancelled(s, id); With(t, id, t.all[id].(forwarder := Returning))
    case Receive(id) => With(s, id, Received(s.all[id]))
    case ReceiveClosed(id) => With(s, id, s.all[id].(forwarder := Returning))
    case Forward(id) =>
      var u := s.all[id];
      var t := With(s, id, Forwarded(u));
      if u.outClosed && Matches(u.filter, u.offered[u.forwarder.index]) then t.(panicked := true) else t
    case Return(id) =>
      var u := s.all[id];
      With(s, id, u.(forwarder := Gone, outClosed := true)).(panicked := s.panicked || u.outClosed)
    case Consume(id) => With(s, id, Consumed(s.all[id]))
  }

  datatype Run = Start(first: State) | Then(prev: Run, step: Step)

  function First(r: Run): State {
    match r case Start(s) => s case Then(p, _) => First(p)
  }

  predicate Legal(r: Run)
    decreases r, 0
  {
    r.Start? || (Legal(r.prev) && Enabled(Last(r.prev), r.step))
  }

  function Last(r: Run): State
    requires Legal(r)
    decreases r, 1
  {
    match r case Start(s) => s case Then(p, step) => Do(Last(p), step)
  }

  // --- Invariants ---------------------------------------------------------

  predicate Increasing(xs: seq<nat>) {
    forall i, j | 0 <= i < j < |xs| :: xs[i] < xs[j]
  }

  predicate Below(xs: seq<nat>, n: nat) {
    forall i | 0 <= i < |xs| :: xs[i] < n
  }

  // The places of a list whose signals the filter lets through.
  function Matching(f: Filter, offered: seq<Event>, places: seq<nat>): seq<nat>
    requires Below(places, |offered|)
  {
    if places == [] then []
    else
      var m := |places| - 1;
      Matching(f, offered, places[..m]) + if Matches(f, offered[places[m]]) then [places[m]] else []
  }

  function Processed(u: Sub): nat {
    if u.forwarder.Holding? && u.taken > 0 then u.taken - 1 else u.taken
  }

  // The first buffer: ch holds what was admitted and not yet received.
  predicate InOk(u: Sub) {
    && |u.ch| <= BUFFER
    && Increasing(u.admitted) && Below(u.admitted, |u.offered|)
    && |u.offered| == |u.admitted| + u.lostIn
    && u.taken <= |u.admitted| && u.ch == u.admitted[u.taken..]
    && (u.forwarder.Holding? ==> u.taken > 0 && u.forwarder.index == u.admitted[u.taken - 1])
  }

  // What was emitted of the places already processed: some of those that
  // matched, in order, and all of them when nothing was lost.
  predicate Emission(f: Filter, offered: seq<Event>, done: seq<nat>, emitted: seq<nat>, lost: nat)
    requires Below(done, |offered|)
  {
    var due := Matching(f, offered, done);
    && Increasing(emitted) && Below(emitted, |offered|)
    && (forall i | 0 <= i < |emitted| :: emitted[i] in done && Matches(f, offered[emitted[i]]))
    && |due| == |emitted| + lost
    && (lost == 0 ==> emitted == due)
  }

  function Done(u: Sub): (done: seq<nat>)
    requires InOk(u)
    ensures Below(done, |u.offered|)
  {
    u.admitted[..Processed(u)]
  }

  // The second: out holds what was emitted and not yet consumed.
  predicate OutOk(u: Sub)
    requires InOk(u)
  {
    && |u.out| <= BUFFER
    && u.consumed <= |u.emitted| && u.out == u.emitted[u.consumed..]
    && Emission(u.filter, u.offered, Done(u), u.emitted, u.lostOut)
  }

  predicate EndOk(u: Sub) {
    && (u.outClosed <==> u.forwarder == Gone)
    && (u.forwarder == Cancelling ==> u.ctxDone)
    && (u.forwarder == Returning || u.forwarder == Gone ==> u.chClosed)
    && ((u.forwarder == Returning || u.forwarder == Gone) && !u.ctxDone ==> u.ch == [])
  }

  predicate SubOk(u: Sub) {
    InOk(u) && OutOk(u) && EndOk(u)
  }

  predicate Guarded(s: State) {
    && !s.panicked
    && s.live <= s.all.Keys
    && (forall id | id in s.all :: id < s.next)
    && (forall id | id in s.all :: id in s.live <==> !s.all[id].chClosed)
    && (forall p | p in s.publishers :: s.publishers[p].remaining <= s.live)
  }

  predicate Inv(s: State) {
    Guarded(s) && forall id | id in s.all :: SubOk(s.all[id])
  }

  lemma MatchingGrows(f: Filter, offered: seq<Event>, more: seq<Event>, places: seq<nat>)
    requires Below(places, |offered|)
    ensures Below(places, |offered + more|)
    ensures Matching(f, offered + more, places) == Matching(f, offered, places)
  {
    if places != [] {
      MatchingGrows(f, offered, more, places[..|places| - 1]);
    }
  }

  lemma EmissionGrows(f: Filter, offered: seq<Event>, sig: Event, done: seq<nat>, emitted: seq<nat>, lost: nat)
    requires Below(done, |offered|) && Emission(f, offered, done, emitted, lost)
    ensures Below(done, |offered + [sig]|) && Emission(f, offered + [sig], done, emitted, lost)
  {
    MatchingGrows(f, offered, [sig], done);
    assert forall i | 0 <= i < |emitted| :: (offered + [sig])[emitted[i]] == offered[emitted[i]];
  }

  // One more place processed: it does not match, or it is emitted, or lost.
  lemma EmissionNext(f: Filter, offered: seq<Event>, done: seq<nat>, i: nat, emitted: seq<nat>, lost: nat)
    requires Below(done, |offered|) && i < |offered| && Increasing(done + [i])
    requires Emission(f, offered, done, emitted, lost)
    ensures Below(done + [i], |offered|)
    ensures !Matches(f, offered[i]) ==> Emission(f, offered, done + [i], emitted, lost)
    ensures Matches(f, offered[i]) ==> Emission(f, offered, done + [i], emitted, lost + 1)
    ensures Matches(f, offered[i]) ==> Emission(f, offered, done + [i], emitted + [i], lost)
  {
    var next := done + [i];
    assert next[..|next| - 1] == done && next[|next| - 1] == i;
    assert forall j | 0 <= j < |emitted| :: emitted[j] in next;
    if Matches(f, offered[i]) {
      EmittedBelow(done, i, emitted);
      assert Matching(f, offered, next) == Matching(f, offered, done) + [i];
      var more := emitted + [i];
      assert i in next;
      assert forall j | 0 <= j < |more| :: more[j] == if j < |emitted| then emitted[j] else i;
    }
  }

  lemma EmittedBelow(done: seq<nat>, i: nat, emitted: seq<nat>)
    requires Increasing(done + [i])
    requires forall j | 0 <= j < |emitted| :: emitted[j] in done
    ensures forall j | 0 <= j < |emitted| :: emitted[j] < i
  {
    forall j | 0 <= j < |emitted| ensures emitted[j] < i {
      var m :| 0 <= m < |done| && done[m] == emitted[j];
      assert (done + [i])[m] < (done + [i])[|done|];
    }
  }

  lemma OfferOk(u: Sub, sig: Event, p: nat)
    requires SubOk(u) && !u.chClosed
    ensures SubOk(Offer(u, sig, p))
  {
    var v := Offer(u, sig, p);
    OfferInOk(u, sig, p);
    assert Done(v) == Done(u);
    EmissionGrows(u.filter, u.offered, sig, Done(u), u.emitted, u.lostOut);
  }

  lemma OfferInOk(u: Sub, sig: Event, p: nat)
    requires InOk(u)
    ensures InOk(Offer(u, sig, p))
  {
    var v := Offer(u, sig, p);
    OfferMarks(u.admitted, |u.offered|);
    assert v.ch == v.admitted[v.taken..];
  }

  lemma OfferMarks(xs: seq<nat>, n: nat)
    requires Increasing(xs) && Below(xs, n)
    ensures Increasing(xs + [n]) && Below(xs + [n], n + 1) && Below(xs, n + 1)
  {
  }

  // The steps that leave both buffers as they are.
  lemma MarksOk(u: Sub, v: Sub)
    requires InOk(u) && OutOk(u)
    requires v == u.(ctxDone := v.ctxDone, chClosed := v.chClosed, outClosed := v.outClosed, forwarder := v.forwarder,
                     until := v.until)
    requires v.forwarder == u.forwarder || (!u.forwarder.Holding? && !v.forwarder.Holding?)
    ensures InOk(v) && OutOk(v)
  {
    assert Done(v) == Done(u);
  }

  lemma ReceiveOk(u: Sub)
    requires SubOk(u) && u.forwarder == Selecting && u.ch != []
    ensures SubOk(Received(u))
  {
    assert InOk(Received(u));
    assert Done(Received(u)) == Done(u);
  }

  lemma ForwardInOk(u: Sub)
    requires InOk(u) && u.forwarder.Holding?
    ensures u.forwarder.index < |u.offered| && InOk(Forwarded(u))
    ensures Increasing(Done(u) + [u.forwarder.index])
    ensures Done(Forwarded(u)) == Done(u) + [u.forwarder.index]
  {
    assert Done(u) + [u.forwarder.index] == u.admitted[..u.taken];
  }

  lemma ForwardOutOk(u: Sub, done: seq<nat>, i: nat)
    requires InOk(u) && OutOk(u) && u.forwarder == Holding(i) && done == Done(u)
    requires i < |u.offered| && Increasing(done + [i])
    requires InOk(Forwarded(u)) && Done(Forwarded(u)) == done + [i]
    ensures OutOk(Forwarded(u))
  {
    EmissionNext(u.filter, u.offered, done, i, u.emitted, u.lostOut);
    if Matches(u.filter, u.offered[i]) && |u.out| < BUFFER {
      assert u.emitted[u.consumed..] + [i] == (u.emitted + [i])[u.consumed..];
    }
  }

  lemma ForwardOk(u: Sub)
    requires SubOk(u) && u.forwarder.Holding?
    ensures u.forwarder.index < |u.offered| && SubOk(Forwarded(u))
  {
    ForwardInOk(u);
    assert EndOk(Forwarded(u));
    ForwardOutOk(u, Done(u), u.forwarder.index);
  }

  lemma ConsumeOk(u: Sub)
    requires SubOk(u) && u.out != []
    ensures SubOk(Consumed(u))
  {
    assert InOk(Consumed(u));
    assert Done(Consumed(u)) == Done(u);
  }

  predicate OfGoroutine(step: Step) {
    || step.ContextEnd? || step.Notice? || step.Receive? || step.ReceiveClosed? || step.Forward? || step.Return?
    || step.Consume?
  }

  lemma GuardedWith(s: State, id: nat, u: Sub)
    requires Guarded(s) && id in s.all && u.chClosed == s.all[id].chClosed
    ensures Guarded(With(s, id, u))
  {
  }

  // What the goroutine, its context and the reader do changes one subscription
  // and closes no ch.
  lemma GoroutineFrame(s: State, step: Step)
    requires !s.panicked && OfGoroutine(step) && Enabled(s, step) && EndOk(s.all[step.id])
    ensures var u := Do(s, step).all[step.id];
            Do(s, step) == With(s, step.id, u) && u.chClosed == s.all[step.id].chClosed
  {
  }

  lemma GuardedPublish(s: State, p: nat, id: nat)
    requires Guarded(s) && Enabled(s, PublishTo(p, id))
    ensures Guarded(Do(s, PublishTo(p, id)))
  {
    assert id in s.live;
    var pub := s.publishers[p];
    var t := s.(publishers := s.publishers[p := pub.(remaining := pub.remaining - {id})]);
    assert Guarded(t);
    GuardedWith(t, id, Offer(s.all[id], pub.sig, p));
  }

  lemma GuardedStep(s: State, step: Step)
    requires Inv(s) && Enabled(s, step)
    ensures Guarded(Do(s, step))
  {
    if OfGoroutine(step) {
      assert SubOk(s.all[step.id]);
      GoroutineFrame(s, step);
      GuardedWith(s, step.id, Do(s, step).all[step.id]);
    } else if step.PublishTo? {
      GuardedPublish(s, step.p, step.id);
    } else if step.Cancel? {
      GuardedCancel(s, step.id);
    } else if step.ForwarderCancel? {
      GuardedCancel(s, step.id);
      var t := Cancelled(s, step.id);
      GuardedWith(t, step.id, t.all[step.id].(forwarder := Returning));
    }
  }

  lemma GuardedCancel(s: State, id: nat)
    requires Guarded(s) && id in s.all && s.publishers == map[]
    ensures Guarded(Cancelled(s, id))
  {
  }

  // A step touches at most the subscription it names.
  lemma OtherSub(s: State, step: Step, id: nat)
    requires Enabled(s, step) && id in s.all && id != s.next
    requires step.Subscribe? || step.PublishBegin? || step.PublishEnd? || step.id != id
    ensures id in Do(s, step).all && Do(s, step).all[id] == s.all[id]
  {
  }

  lemma OwnSub(s: State, step: Step)
    requires Guarded(s) && Enabled(s, step)
    requires !step.Subscribe? && !step.PublishBegin? && !step.PublishEnd?
    requires step.id in s.all && SubOk(s.all[step.id])
    ensures step.id in Do(s, step).all && SubOk(Do(s, step).all[step.id])
  {
    var u := s.all[step.id];
    var v := Do(s, step).all[step.id];
    if step.PublishTo? {
      OfferOk(u, s.publishers[step.p].sig, step.p);
    } else if step.Receive? {
      ReceiveOk(u);
    } else if step.Forward? {
      ForwardOk(u);
    } else if step.Consume? {
      ConsumeOk(u);
    } else {
      MarksOk(u, v);
    }
  }

  lemma NewSubOk(f: Filter, since: nat)
    ensures SubOk(NewSub(f, since))
  {
    assert Done(NewSub(f, since)) == [];
  }

  lemma SubStep(s: State, step: Step, id: nat)
    requires Inv(s) && Enabled(s, step) && id in Do(s, step).all
    ensures SubOk(Do(s, step).all[id])
  {
    if step.Subscribe? && id == s.next {
      NewSubOk(step.filter, |s.begun|);
    } else if step.Subscribe? || step.PublishBegin? || step.PublishEnd? || step.id != id {
      assert id in s.all;
      OtherSub(s, step, id);
    } else {
      assert id in s.all;
      OwnSub(s, step);
    }
  }

  lemma {:induction false} RunInv(r: Run)
    requires Legal(r) && Inv(First(r))
    ensures Inv(Last(r))
  {
    if r.Then? {
      RunInv(r.prev);
      GuardedStep(Last(r.prev), r.step);
      forall id | id in Last(r).all ensures SubOk(Last(r).all[id]) {
        SubStep(Last(r.prev), r.step, id);
      }
    }
  }

  // In every interleaving no send hits a closed channel and no channel is
  // closed twice; every channel in the table is open, and ids are below next.
  lemma NeverPanics(r: Run)
    requires Legal(r) && Init(First(r))
    ensures var s := Last(r);
            && !s.panicked
            && s.live <= s.all.Keys
            && (forall id | id in s.all :: id < s.next)
            && (forall id | id in s.all :: id in s.live <==> !s.all[id].chClosed)
  {
    RunInv(r);
  }

  // A closed channel stays closed and its id never returns to the table.
  lemma {:induction false} ClosedForGood(r: Run, id: nat)
    requires Legal(r) && Inv(First(r)) && id in First(r).all && First(r).all[id].chClosed
    ensures var s := Last(r); id in s.all && s.all[id].chClosed && id !in s.live
  {
    if r.Then? {
      ClosedForGood(r.prev, id);
      RunInv(r.prev);
      StaysClosed(Last(r.prev), r.step, id);
    }
    RunInv(r);
  }

  lemma StaysClosed(s: State, step: Step, id: nat)
    requires Guarded(s) && Enabled(s, step) && id in s.all && s.all[id].chClosed
    ensures id in Do(s, step).all && Do(s, step).all[id].chClosed
  {
    assert id < s.next;
  }

  // The signals at given places.
  function EventsAt(offered: seq<Event>, places: seq<nat>): seq<Event>
    requires Below(places, |offered|)
  {
    if places == [] then []
    else EventsAt(offered, places[..|places| - 1]) + [offered[places[|places| - 1]]]
  }

  // What a subscriber has been given is an order-preserving, duplicate-free
  // selection of the signals offered to its channel, all matching its filter,
  // and both kinds of drop are accounted for exactly: everything offered was
  // admitted or lost at ch, and everything that matched among the processed
  // was emitted or lost at out.
  lemma Accounting(r: Run, id: nat)
    requires Legal(r) && Init(First(r)) && id in Last(r).all
    ensures var u := Last(r).all[id];
            && Increasing(u.emitted) && Below(u.emitted, |u.offered|) && Below(u.admitted, |u.offered|)
            && (forall i | 0 <= i < |u.emitted| :: Matches(u.filter, u.offered[u.emitted[i]]))
            && u.consumed <= |u.emitted| && u.out == u.emitted[u.consumed..]
            && |u.offered| == |u.admitted| + u.lostIn
            && |u.admitted| == Processed(u) + |u.ch| + (if u.forwarder.Holding? then 1 else 0)
            && Below(u.admitted[..Processed(u)], |u.offered|)
            && |Matching(u.filter, u.offered, u.admitted[..Processed(u)])| == |u.emitted| + u.lostOut
  {
    RunInv(r);
    assert SubOk(Last(r).all[id]);
  }

  // How often a Publish found the channel of a subscription full.
  function FoundInFull(r: Run, id: nat): nat
    requires Legal(r)
  {
    if r.Start? then 0
    else
      var s := Last(r.prev);
      FoundInFull(r.prev, id)
      + if r.step.PublishTo? && r.step.id == id && |s.all[id].ch| >= 128 then 1 else 0
  }

  // How often its goroutine, holding a signal that matches, found out full.
  function FoundOutFull(r: Run, id: nat): nat
    requires Legal(r)
  {
    if r.Start? then 0
    else
      var s := Last(r.prev);
      FoundOutFull(r.prev, id)
      + if r.step.Forward? && r.step.id == id && |s.all[id].out| >= 128
           && Matches(s.all[id].filter, s.all[id].offered[s.all[id].forwarder.index]) then 1 else 0
  }

  // What a step loses of one subscription.
  predicate LosesRightly(s: State, t: State, step: Step, id: nat)
    requires Enabled(s, step)
  {
    && id in s.all && id in t.all
    && t.all[id].lostIn
       == s.all[id].lostIn + (if step.PublishTo? && step.id == id && |s.all[id].ch| >= 128 then 1 else 0)
    && t.all[id].lostOut
       == s.all[id].lostOut
          + (if step.Forward? && step.id == id && |s.all[id].out| >= 128
                && Matches(s.all[id].filter, s.all[id].offered[s.all[id].forwarder.index]) then 1 else 0)
  }

  lemma StepLoses(s: State, step: Step, id: nat)
    requires Guarded(s) && Enabled(s, step) && id in s.all
    ensures LosesRightly(s, Do(s, step), step, id)
  {
    if step.Subscribe? || step.PublishBegin? || step.PublishEnd? || step.id != id {
      OtherSub(s, step, id);
    } else if step.PublishTo? {
      PublishLoses(s, step.p, id);
    } else if step.Forward? {
      ForwardLoses(s, id);
    } else {
      QuietLoses(s, step);
    }
  }

  lemma PublishLoses(s: State, p: nat, id: nat)
    requires Guarded(s) && Enabled(s, PublishTo(p, id))
    ensures LosesRightly(s, Do(s, PublishTo(p, id)), PublishTo(p, id), id)
  {
    assert id in s.live;
  }

  lemma ForwardLoses(s: State, id: nat)
    requires Enabled(s, Forward(id))
    ensures LosesRightly(s, Do(s, Forward(id)), Forward(id), id)
  {
  }

  lemma QuietLoses(s: State, step: Step)
    requires Enabled(s, step) && !step.PublishTo? && !step.Forward?
    requires !step.Subscribe? && !step.PublishBegin? && !step.PublishEnd?
    ensures LosesRightly(s, Do(s, step), step, step.id)
  {
  }

  lemma FreshLosesNothing(s: State, step: Step, id: nat)
    requires Enabled(s, step) && id !in s.all && id in Do(s, step).all
    ensures Do(s, step).all[id].lostIn == 0 && Do(s, step).all[id].lostOut == 0
  {
  }

  // A signal is lost exactly when it comes to a full buffer of 128: every drop
  // at ch is a Publish that found it full, every drop at out a matching signal
  // that did.
  lemma {:induction false} DropsOnlyWhenFull(r: Run, id: nat)
    requires Legal(r) && Init(First(r))
    ensures id in Last(r).all ==>
              Last(r).all[id].lostIn == FoundInFull(r, id) && Last(r).all[id].lostOut == FoundOutFull(r, id)
    ensures id !in Last(r).all ==> FoundInFull(r, id) == 0 && FoundOutFull(r, id) == 0
  {
    if r.Then? {
      var s := Last(r.prev);
      DropsOnlyWhenFull(r.prev, id);
      RunGuarded(r.prev);
      if id in s.all {
        StepLoses(s, r.step, id);
      } else if id in Last(r).all {
        FreshLosesNothing(s, r.step, id);
      }
    }
  }

  // A goroutine that has left, by its context or by the channel, has left a
  // closed channel whose id is in the table no more.
  lemma GoneFromTable(r: Run, id: nat)
    requires Legal(r) && Init(First(r)) && id in Last(r).all
    requires Last(r).all[id].forwarder == Gone
    ensures id !in Last(r).live && Last(r).all[id].chClosed && Last(r).all[id].outClosed
  {
    RunInv(r);
    assert SubOk(Last(r).all[id]);
  }

  // When neither buffer was ever found full and the context is live, once the
  // goroutine has left after a cancel the output is all the matching signals
  // offered.
  lemma DeliversAll(r: Run, id: nat)
    requires Legal(r) && Init(First(r)) && id in Last(r).all
    requires Last(r).all[id].forwarder == Gone && !Last(r).all[id].ctxDone
    requires FoundInFull(r, id) == 0 && FoundOutFull(r, id) == 0
    ensures var u := Last(r).all[id];
            Below(u.emitted, |u.offered|) && EventsAt(u.offered, u.emitted) == Filtered(u.filter, u.offered)
  {
    RunInv(r);
    DropsOnlyWhenFull(r, id);
    var u := Last(r).all[id];
    assert SubOk(u);
    IncreasingIsIdentity(u.admitted, |u.offered|);
    assert u.admitted[..Processed(u)] == u.admitted;
    MatchingAll(u.filter, u.offered, u.admitted, |u.offered|);
    assert u.offered[..|u.offered|] == u.offered;
  }

  lemma {:induction false} IncreasingIsIdentity(xs: seq<nat>, n: nat)
    requires Increasing(xs) && Below(xs, n) && |xs| == n
    ensures forall i | 0 <= i < n :: xs[i] == i
  {
    if n > 0 {
      var front := xs[..n - 1];
      assert forall i | 0 <= i < n - 1 :: front[i] < xs[n - 1] < n;
      IncreasingIsIdentity(front, n - 1);
      assert forall i | 0 <= i < n - 1 :: xs[i] == front[i];
      assert n > 1 ==> xs[n - 1] > xs[n - 2] == n - 2;
    }
  }

  lemma {:induction false} MatchingAll(f: Filter, offered: seq<Event>, places: seq<nat>, n: nat)
    requires n == |places| <= |offered| && forall i | 0 <= i < n :: places[i] == i
    ensures Below(Matching(f, offered, places), |offered|)
    ensures EventsAt(offered, Matching(f, offered, places)) == Filtered(f, offered[..n])
  {
    if n > 0 {
      MatchingAll(f, offered, places[..n - 1], n - 1);
      FilteredNext(f, offered, n);
      var m := Matching(f, offered, places[..n - 1]);
      EventsAtNext(offered, m, n - 1);
      assert places[n - 1] == n - 1 && m + [] == m;
    }
  }

  lemma FilteredNext(f: Filter, offered: seq<Event>, n: nat)
    requires 0 < n <= |offered|
    ensures Filtered(f, offered[..n])
            == Filtered(f, offered[..n - 1]) + if Matches(f, offered[n - 1]) then [offered[n - 1]] else []
    ensures Filtered(f, offered[..n - 1]) + [] == Filtered(f, offered[..n - 1])
  {
    assert offered[..n][..n - 1] == offered[..n - 1] && offered[..n][n - 1] == offered[n - 1];
  }

  lemma EventsAtNext(offered: seq<Event>, places: seq<nat>, i: nat)
    requires Below(places, |offered|) && i < |offered|
    ensures Below(places + [i], |offered|)
    ensures EventsAt(offered, places + [i]) == EventsAt(offered, places) + [offered[i]]
  {
    var all := places + [i];
    assert all[..|all| - 1] == places && all[|all| - 1] == i;
  }

  // --- A subscription that has ended comes to rest -------------------------

  lemma Extend(r: Run, step: Step) returns (q: Run)
    requires Legal(r) && Enabled(Last(r), step)
    ensures q == Then(r, step)
    ensures Legal(q) && First(q) == First(r) && Last(q) == Do(Last(r), step)
  {
    q := Then(r, step);
  }

  // t is s after some Publish calls have gone on: the goroutine of id is where
  // it was, and its context and whether ch is closed are as they were.
  predicate SameEnd(s: State, t: State, id: nat) {
    && id in s.all && id in t.all
    && t.all[id].forwarder == s.all[id].forwarder && t.all[id].ctxDone == s.all[id].ctxDone
    && t.all[id].chClosed == s.all[id].chClosed
  }

  // A Publish visits what it has still to visit.
  lemma {:induction false} FinishPublish(r0: Run, p: nat, id: nat) returns (r: Run)
    requires Legal(r0) && Inv(First(r0)) && p in Last(r0).publishers && id in Last(r0).all
    ensures Legal(r) && First(r) == First(r0) && SameEnd(Last(r0), Last(r), id)
    ensures Last(r).publishers == Last(r0).publishers - {p}
    decreases Last(r0).publishers[p].remaining
  {
    var s := Last(r0);
    RunGuarded(r0);
    if s.publishers[p].remaining == {} {
      r := Extend(r0, PublishEnd(p));
    } else {
      var i := NextVisit(s, p);
      r := Extend(r0, PublishTo(p, i));
      PublishToFrame(s, p, i, id);
      var t := Last(r);
      r := FinishPublish(r, p, id);
      assert t.publishers - {p} == s.publishers - {p};
    }
  }

  lemma RunGuarded(r: Run)
    requires Legal(r) && Inv(First(r))
    ensures Guarded(Last(r))
  {
    RunInv(r);
  }

  lemma NextVisit(s: State, p: nat) returns (i: nat)
    requires Guarded(s) && p in s.publishers && s.publishers[p].remaining != {}
    ensures i in s.publishers[p].remaining && Enabled(s, PublishTo(p, i))
  {
    i :| i in s.publishers[p].remaining;
  }

  lemma PublishToFrame(s: State, p: nat, i: nat, id: nat)
    requires Enabled(s, PublishTo(p, i)) && id in s.all
    ensures var t := Do(s, PublishTo(p, i));
            && SameEnd(s, t, id) && p in t.publishers
            && t.publishers == s.publishers[p := t.publishers[p]]
            && t.publishers[p].remaining == s.publishers[p].remaining - {i}
  {
  }

  // No Publish blocks, so the read lock comes free.
  lemma {:induction false} FinishPublishers(r0: Run, id: nat) returns (r: Run)
    requires Legal(r0) && Inv(First(r0)) && id in Last(r0).all
    ensures Legal(r) && First(r) == First(r0) && SameEnd(Last(r0), Last(r), id)
    ensures Last(r).publishers == map[]
    decreases |Last(r0).publishers|
  {
    var ps := Last(r0).publishers;
    r := r0;
    if ps != map[] {
      assert ps.Keys != {};
      var p :| p in ps.Keys;
      r := FinishPublish(r0, p, id);
      assert Last(r).publishers.Keys == ps.Keys - {p};
      assert |Last(r).publishers| == |Last(r).publishers.Keys| < |ps.Keys| == |ps|;
      r := FinishPublishers(r, id);
    }
  }

  // What the goroutine of a closed or ended subscription does next, until it
  // is done with the signals.
  function NextOf(u: Sub, id: nat): Step {
    if u.forwarder.Holding? then Forward(id)
    else if u.ctxDone then Notice(id)
    else if u.ch == [] then ReceiveClosed(id)
    else Receive(id)
  }

  predicate WithSignals(u: Sub) {
    u.forwarder.Holding? || u.forwarder == Selecting
  }

  lemma NextOfSub(s: State, id: nat)
    requires id in s.all && InOk(s.all[id]) && WithSignals(s.all[id])
    requires s.all[id].chClosed || s.all[id].ctxDone
    ensures Enabled(s, NextOf(s.all[id], id)) && id in Do(s, NextOf(s.all[id], id)).all
    ensures var u, v := s.all[id], Do(s, NextOf(s.all[id], id)).all[id];
            && v.ctxDone == u.ctxDone && v.chClosed == u.chClosed && v.forwarder != Gone
            && (WithSignals(v) ==>
                  |v.ch| < |u.ch| || (v.ch == u.ch && u.forwarder.Holding? && v.forwarder == Selecting))
  {
    if s.all[id].forwarder.Holding? {
      ForwardSub(s, id);
    } else {
      SelectSub(s, id);
    }
  }

  lemma ForwardSub(s: State, id: nat)
    requires id in s.all && InOk(s.all[id]) && s.all[id].forwarder.Holding?
    ensures Enabled(s, Forward(id)) && id in Do(s, Forward(id)).all
    ensures Do(s, Forward(id)).all[id] == Forwarded(s.all[id])
  {
  }

  lemma SelectSub(s: State, id: nat)
    requires id in s.all && s.all[id].forwarder == Selecting && (s.all[id].chClosed || s.all[id].ctxDone)
    ensures Enabled(s, NextOf(s.all[id], id)) && id in Do(s, NextOf(s.all[id], id)).all
    ensures var u, v := s.all[id], Do(s, NextOf(s.all[id], id)).all[id];
            v == if u.ctxDone then u.(forwarder := Cancelling)
                 else if u.ch == [] then u.(forwarder := Returning)
                 else Received(u)
  {
  }

  // The filter given to the call of Subscribe that made a subscription.
  function Asked(r: Run, id: nat): Option<Filter>
    requires Legal(r)
  {
    match r
    case Start(_) => None
    case Then(p, step) => if step.Subscribe? && Last(p).next == id then Some(step.filter) else Asked(p, id)
  }

  lemma StepFilter(s: State, step: Step, id: nat)
    requires Enabled(s, step) && id in s.all && id < s.next
    ensures id in Do(s, step).all && Do(s, step).all[id].filter == s.all[id].filter
  {
  }

  lemma StepNew(s: State, step: Step, id: nat)
    requires Enabled(s, step) && id !in s.all && id in Do(s, step).all
    ensures step.Subscribe? && id == s.next && Do(s, step).all[id].filter == step.filter
  {
  }

  // It is the one its signals are matched with ever after.
  lemma {:induction false} FilterIsAsked(r: Run, id: nat)
    requires Legal(r) && Init(First(r)) && id in Last(r).all
    ensures Asked(r, id) == Some(Last(r).all[id].filter)
  {
    if r.Then? {
      RunInv(r.prev);
      var s := Last(r.prev);
      if id in s.all {
        StepFilter(s, r.step, id);
        FilterIsAsked(r.prev, id);
      } else {
        StepNew(s, r.step, id);
      }
    }
  }

  // Once the cancel closure has run or the context has ended, the goroutine
  // can always be brought to its end, and the context is left as it was.
  lemma {:induction false} ForwarderFinishes(r0: Run, id: nat) returns (r: Run)
    requires Legal(r0) && Inv(First(r0)) && id in Last(r0).all
    requires Last(r0).all[id].chClosed || Last(r0).all[id].ctxDone
    ensures Legal(r) && First(r) == First(r0) && id in Last(r).all
    ensures Last(r).all[id].forwarder == Gone && Last(r).all[id].ctxDone == Last(r0).all[id].ctxDone
    decreases |Last(r0).all[id].ch|, Last(r0).all[id].forwarder.Holding?
  {
    var s := Last(r0);
    RunInv(r0);
    assert SubOk(s.all[id]);
    if WithSignals(s.all[id]) {
      NextOfSub(s, id);
      r := Extend(r0, NextOf(s.all[id], id));
      if WithSignals(Last(r).all[id]) {
        r := ForwarderFinishes(r, id);
      } else {
        r := Leaves(r, id);
      }
    } else {
      r := Leaves(r0, id);
    }
  }

  lemma Leaves(r0: Run, id: nat) returns (r: Run)
    requires Legal(r0) && Inv(First(r0)) && id in Last(r0).all && !WithSignals(Last(r0).all[id])
    ensures Legal(r) && First(r) == First(r0) && id in Last(r).all
    ensures Last(r).all[id].forwarder == Gone && Last(r).all[id].ctxDone == Last(r0).all[id].ctxDone
  {
    r := r0;
    if Last(r0).all[id].forwarder == Cancelling {
      r := FinishPublishers(r0, id);
      r := Extend(r, ForwarderCancel(id));
    }
    if Last(r).all[id].forwarder == Returning {
      r := Extend(r, Return(id));
    }
  }
}
