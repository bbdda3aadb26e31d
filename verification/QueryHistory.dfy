// Query of server/internal/output/filesystem/filesystem.go takes no lock. Here
// it lists the days and reads their files at different moments of a history of
// Writes, Archives and Restores: what it may miss, and what it cannot see.
module QueryHistory {
  import opened Signals
  import opened Framing
  import opened Codec
  import opened Disks
  import opened StoreLog
  import opened Archiving
  import opened StoreHistory

  // The history up to a moment.
  function Upto(ops: seq<Op>, n: nat): seq<Op> {
    if n <= |ops| then ops[..n] else ops
  }

  function LogUpto(c: Settings, ops: seq<Op>, n: nat): seq<Entry> {
    ShelvesAfterAll(c, Upto(ops, n)).log
  }

  // The files Query reads day by day, day d at moment at(d), and the logs they
  // represent.
  function ViewsAt(c: Settings, ops: seq<Op>, at: int -> nat): int -> Files {
    d => FilesAfterAll(c, Upto(ops, at(d)))
  }

  function LogsAt(c: Settings, ops: seq<Op>, at: int -> nat): int -> seq<Entry> {
    d => LogUpto(c, ops, at(d))
  }

  // The days it lists at a moment.
  function ListedDays(c: Settings, ops: seq<Op>, from: nat, q: Query): seq<int> {
    Ascending(Days(FilesAfterAll(c, Upto(ops, from)), OrLog(q.kind)))
  }

  // The result before paging.
  function FoundDuring(c: Settings, ops: seq<Op>, from: nat, at: int -> nat, q: Query): seq<Event> {
    SortedLater(c.lib, CollectedAt(c.lib, ViewsAt(c, ops, at), q, ListedDays(c, ops, from, q)))
  }

  // --- Bags of mapped lists -----------------------------------------------

  function Mapped<T>(f: T -> seq<T>, xs: seq<T>): seq<T> {
    if xs == [] then [] else Mapped(f, xs[..|xs| - 1]) + f(xs[|xs| - 1])
  }

  function Dropped<T>(xs: seq<T>, j: nat): seq<T>
    requires j < |xs|
  {
    xs[..j] + xs[j + 1..]
  }

  lemma {:induction false} MappedDropped<T>(f: T -> seq<T>, xs: seq<T>, j: nat)
    requires j < |xs|
    ensures multiset(Mapped(f, xs)) == multiset(Mapped(f, Dropped(xs, j))) + multiset(f(xs[j]))
    decreases |xs|
  {
    var m := |xs| - 1;
    if j == m {
      assert Dropped(xs, j) == xs[..m];
    } else {
      var rest := Dropped(xs, j);
      MappedDropped(f, xs[..m], j);
      assert rest[..|rest| - 1] == Dropped(xs[..m], j) && rest[|rest| - 1] == xs[m];
    }
  }

  lemma {:induction false} MappedGrows<T>(f: T -> seq<T>, xs: seq<T>, ys: seq<T>)
    requires multiset(xs) <= multiset(ys)
    ensures multiset(Mapped(f, xs)) <= multiset(Mapped(f, ys))
    decreases |xs|
  {
    if xs != [] {
      var m := |xs| - 1;
      var j := WhereIs(xs, ys);
      LessOne(xs, ys, j);
      MappedGrows(f, xs[..m], Dropped(ys, j));
      MappedDropped(f, ys, j);
    }
  }

  lemma WhereIs<T>(xs: seq<T>, ys: seq<T>) returns (j: nat)
    requires xs != [] && multiset(xs) <= multiset(ys)
    ensures j < |ys| && ys[j] == xs[|xs| - 1]
  {
    assert xs[|xs| - 1] in multiset(xs);
    assert xs[|xs| - 1] in ys;
    j :| 0 <= j < |ys| && ys[j] == xs[|xs| - 1];
  }

  lemma LessOne<T>(xs: seq<T>, ys: seq<T>, j: nat)
    requires xs != [] && multiset(xs) <= multiset(ys) && j < |ys| && ys[j] == xs[|xs| - 1]
    ensures multiset(xs[..|xs| - 1]) <= multiset(Dropped(ys, j))
  {
    var e, front := ys[j], xs[..|xs| - 1];
    assert multiset(xs) == multiset(front) + multiset{e} by {
      assert xs == front + [e];
    }
    assert multiset(ys) == multiset(Dropped(ys, j)) + multiset{e} by {
      assert ys == ys[..j] + [e] + ys[j + 1..];
    }
    Minus(multiset(front), multiset(Dropped(ys, j)), e);
  }

  lemma Minus<T>(a: multiset<T>, b: multiset<T>, e: T)
    requires a + multiset{e} <= b + multiset{e}
    ensures a <= b
  {
    assert a + multiset{e} - multiset{e} == a && b + multiset{e} - multiset{e} == b;
  }

  function FoundOne(q: Query): Event -> seq<Event> {
    e => if MatchQuery(q, Canonical(e)) then [Canonical(e)] else []
  }

  lemma {:induction false} FoundIsMapped(q: Query, es: seq<Event>)
    ensures Found(q, es) == Mapped(FoundOne(q), es)
    decreases |es|
  {
    if es != [] {
      FoundIsMapped(q, es[..|es| - 1]);
    }
  }

  lemma FoundBags(q: Query, xs: seq<Event>, ys: seq<Event>)
    requires multiset(xs) <= multiset(ys)
    ensures multiset(Found(q, xs)) <= multiset(Found(q, ys))
  {
    FoundIsMapped(q, xs);
    FoundIsMapped(q, ys);
    MappedGrows(FoundOne(q), xs, ys);
  }

  // --- Nothing is invented ------------------------------------------------

  predicate Genuine(a: Shelves, written: seq<Entry>, id: Id) {
    && multiset(SegmentOf(a.log, id)) <= multiset(SegmentOf(written, id))
    && (id in a.archived ==> multiset(a.archived[id]) <= multiset(SegmentOf(written, id)))
  }

  // A hot segment and an archive hold no event more often than it was written.
  lemma {:induction false} HistoryGenuine(c: Settings, ops: seq<Op>, id: Id)
    ensures Genuine(ShelvesAfterAll(c, ops), WrittenBy(c, ops), id)
    decreases |ops|
  {
    if ops != [] {
      var front, op := ops[..|ops| - 1], ops[|ops| - 1];
      HistoryGenuine(c, front, id);
      if op.WriteOp? {
        var done := op.batch[..Applied(c.lib, op.batch, op.faults, 0)];
        GenuineWrite(c, ShelvesAfterAll(c, front), WrittenBy(c, front), op.batch, op.faults, id);
      } else {
        GenuineStep(c, ShelvesAfterAll(c, front), WrittenBy(c, front), op, id);
      }
    }
  }

  lemma GenuineWrite(c: Settings, a: Shelves, written: seq<Entry>, batch: seq<Entry>, faults: nat -> Fault, id: Id)
    requires Genuine(a, written, id)
    ensures Genuine(WriteDo(c.lib, a, batch, faults), written + batch[..Applied(c.lib, batch, faults, 0)], id)
  {
    var done := batch[..Applied(c.lib, batch, faults, 0)];
    SegmentConcat(a.log, done, id);
    SegmentConcat(written, done, id);
  }

  // Segments and archives only change places.
  predicate ChangePlaces(a: Shelves, b: Shelves, id: Id) {
    var segment := SegmentOf(b.log, id);
    && (segment == [] || segment == SegmentOf(a.log, id) || (id in a.archived && segment == a.archived[id]))
    && (id in b.archived ==>
          b.archived[id] == SegmentOf(a.log, id) || (id in a.archived && b.archived[id] == a.archived[id]))
  }

  lemma GenuineMove(a: Shelves, b: Shelves, written: seq<Entry>, id: Id)
    requires Genuine(a, written, id) && ChangePlaces(a, b, id)
    ensures Genuine(b, written, id)
  {
  }

  lemma StepMoves(c: Settings, a: Shelves, op: Op, id: Id)
    requires !op.WriteOp?
    ensures ChangePlaces(a, ShelvesDo(c, a, op), id)
  {
    if op.ArchiveOp? {
      SegmentWithout(a.log, MovedIds(a, op.before, c.zone), id);
    } else if op.CutArchiveOp? {
      SegmentWithout(a.log, MovedIds(a, op.before, c.zone) * op.upTo, id);
    } else if op.id in a.archived {
      RestoredLog(a, op.id, id);
    }
  }

  lemma GenuineStep(c: Settings, a: Shelves, written: seq<Entry>, op: Op, id: Id)
    requires Genuine(a, written, id) && !op.WriteOp?
    ensures Genuine(ShelvesDo(c, a, op), written, id)
  {
    StepMoves(c, a, op, id);
    GenuineMove(a, ShelvesDo(c, a, op), written, id);
  }

  lemma {:induction false} WrittenGrows(c: Settings, ops: seq<Op>, n: nat)
    requires n <= |ops|
    ensures WrittenBy(c, ops[..n]) <= WrittenBy(c, ops)
    decreases |ops|
  {
    if n == |ops| {
      assert ops[..n] == ops;
    } else {
      WrittenGrows(c, ops[..|ops| - 1], n);
      assert ops[..|ops| - 1][..n] == ops[..n];
    }
  }

  // At any moment a segment is part of what the whole history writes to it.
  lemma SegmentGenuine(c: Settings, ops: seq<Op>, n: nat, id: Id)
    ensures multiset(SegmentOf(LogUpto(c, ops, n), id)) <= multiset(SegmentOf(WrittenBy(c, ops), id))
  {
    var front, all := WrittenBy(c, Upto(ops, n)), WrittenBy(c, ops);
    HistoryGenuine(c, Upto(ops, n), id);
    if n <= |ops| {
      WrittenGrows(c, ops, n);
    }
    PrefixBag(front, all, id);
  }

  lemma PrefixBag(front: seq<Entry>, all: seq<Entry>, id: Id)
    requires front <= all
    ensures multiset(SegmentOf(front, id)) <= multiset(SegmentOf(all, id))
  {
    assert all == front + all[|front|..];
    SegmentConcat(front, all[|front|..], id);
  }

  // --- What is left alone is not missed -----------------------------------

  // The operation takes the segment away or puts another in its place.
  predicate Disturbs(c: Settings, a: Shelves, op: Op, id: Id) {
    match op
    case WriteOp(_, _) => false
    case ArchiveOp(before, _) => id in MovedIds(a, before, c.zone)
    case CutArchiveOp(before, _, upTo) => id in MovedIds(a, before, c.zone) * upTo
    case RestoreOp(k, opts) => k == id && RestoreDo(a, k, opts).1 == None && (opts.toHot || !opts.readOnly)
  }

  predicate LeftAlone(c: Settings, ops: seq<Op>, lo: nat, hi: nat, id: Id) {
    forall k: nat | lo <= k < hi && k < |ops| :: !Disturbs(c, ShelvesAfterAll(c, ops[..k]), ops[k], id)
  }

  lemma UndisturbedStep(c: Settings, a: Shelves, op: Op, id: Id)
    requires !Disturbs(c, a, op, id)
    ensures SegmentOf(a.log, id) <= SegmentOf(ShelvesDo(c, a, op).log, id)
  {
    match op
    case WriteOp(batch, faults) => SegmentConcat(a.log, batch[..Applied(c.lib, batch, faults, 0)], id);
    case ArchiveOp(before, now) => SegmentWithout(a.log, MovedIds(a, before, c.zone), id);
    case CutArchiveOp(before, now, upTo) => SegmentWithout(a.log, MovedIds(a, before, c.zone) * upTo, id);
    case RestoreOp(k, opts) =>
      if k in a.archived {
        RestoredLog(a, k, id);
      }
  }

  lemma {:induction false} LeftAloneGrows(c: Settings, ops: seq<Op>, lo: nat, hi: nat, id: Id)
    requires lo <= hi && LeftAlone(c, ops, lo, hi, id)
    ensures SegmentOf(LogUpto(c, ops, lo), id) <= SegmentOf(LogUpto(c, ops, hi), id)
    decreases hi
  {
    if lo < hi {
      LeftAloneGrows(c, ops, lo, hi - 1, id);
      OneMore(c, ops, hi - 1, id);
    }
  }

  lemma OneMore(c: Settings, ops: seq<Op>, k: nat, id: Id)
    requires k < |ops| ==> !Disturbs(c, ShelvesAfterAll(c, ops[..k]), ops[k], id)
    ensures SegmentOf(LogUpto(c, ops, k), id) <= SegmentOf(LogUpto(c, ops, k + 1), id)
  {
    NextUpto(c, ops, k);
    if k < |ops| {
      UndisturbedStep(c, ShelvesAfterAll(c, ops[..k]), ops[k], id);
    }
  }

  lemma NextUpto(c: Settings, ops: seq<Op>, k: nat)
    ensures k < |ops| ==> LogUpto(c, ops, k + 1) == ShelvesDo(c, ShelvesAfterAll(c, ops[..k]), ops[k]).log
    ensures k < |ops| ==> LogUpto(c, ops, k) == ShelvesAfterAll(c, ops[..k]).log
    ensures k >= |ops| ==> LogUpto(c, ops, k + 1) == LogUpto(c, ops, k)
  {
    if k < |ops| {
      var next := ops[..k + 1];
      assert next[..|next| - 1] == ops[..k] && next[|next| - 1] == ops[k];
    } else {
      assert k == |ops| ==> ops[..k] == ops;
    }
  }

  // --- Query --------------------------------------------------------------

  lemma {:induction false} GatheredAtMost(logs: int -> seq<Entry>, all: seq<Entry>, q: Query, days: seq<int>)
    requires forall d | d in days ::
               multiset(SegmentOf(logs(d), Id(OrLog(q.kind), d))) <= multiset(SegmentOf(all, Id(OrLog(q.kind), d)))
    ensures multiset(GatheredAt(logs, q, days)) <= multiset(Gathered(all, q, days))
    decreases |days|
  {
    if days != [] {
      var m := |days| - 1;
      var id := Id(OrLog(q.kind), days[m]);
      GatheredAtMost(logs, all, q, days[..m]);
      assert days[m] in days;
      FoundBags(q, SegmentOf(logs(days[m]), id), SegmentOf(all, id));
      GatheredAtBag(logs, q, days);
      GatheredBag(all, q, days);
    }
  }

  lemma {:induction false} GatheredAtLeast(logs: int -> seq<Entry>, first: seq<Entry>, q: Query, days: seq<int>)
    requires forall d | d in days ::
               SegmentOf(first, Id(OrLog(q.kind), d)) <= SegmentOf(logs(d), Id(OrLog(q.kind), d))
    ensures multiset(Gathered(first, q, days)) <= multiset(GatheredAt(logs, q, days))
    decreases |days|
  {
    if days != [] {
      var m := |days| - 1;
      var id := Id(OrLog(q.kind), days[m]);
      var was, now := SegmentOf(first, id), SegmentOf(logs(days[m]), id);
      GatheredAtLeast(logs, first, q, days[..m]);
      assert days[m] in days;
      FoundPrefix(q, now, |was|);
      assert now[..|was|] == was;
      GatheredAtBag(logs, q, days);
      GatheredBag(first, q, days);
    }
  }

  lemma FitsUpto(lib: Library, ops: seq<Op>, n: nat)
    requires Fits(lib, ops)
    ensures Fits(lib, Upto(ops, n))
  {
  }

  lemma RepresentsUpto(c: Settings, ops: seq<Op>, n: nat)
    requires Fits(c.lib, ops)
    ensures Represents(c.lib, FilesAfterAll(c, Upto(ops, n)), LogUpto(c, ops, n))
    ensures AllStorable(c.lib, LogUpto(c, ops, n))
  {
    var front := Upto(ops, n);
    FitsUpto(c.lib, ops, n);
    HistoryShelved(c, front);
    HistoryStorable(c, front);
    ShelvedRepresents(c, FilesAfterAll(c, front), ShelvesAfterAll(c, front));
  }

  // Whatever happens between the listing and the reads, the result is, day by
  // day, the matching events of the hot segment at the moment it was read.
  lemma QueryDuringHistory(c: Settings, ops: seq<Op>, from: nat, at: int -> nat, q: Query)
    requires c.lib.Valid() && Fits(c.lib, ops)
    ensures var found := FoundDuring(c, ops, from, at, q);
            && multiset(found) == multiset(GatheredAt(LogsAt(c, ops, at), q, ListedDays(c, ops, from, q)))
            && NewestFirst(found)
  {
    var days := ListedDays(c, ops, from, q);
    forall d | d in days
      ensures Represents(c.lib, ViewsAt(c, ops, at)(d), LogsAt(c, ops, at)(d))
      ensures AllStorable(c.lib, LogsAt(c, ops, at)(d))
    {
      RepresentsUpto(c, ops, at(d));
    }
    CollectedAtIsGathered(c.lib, ViewsAt(c, ops, at), LogsAt(c, ops, at), q, days);
    SortsNewestFirst(c.lib, CollectedAt(c.lib, ViewsAt(c, ops, at), q, days));
  }

  // So it never shows an event more often than it was written, although an
  // archived segment may come back while it reads.
  lemma QuerySeesNothingTwice(c: Settings, ops: seq<Op>, from: nat, at: int -> nat, q: Query)
    requires c.lib.Valid() && Fits(c.lib, ops)
    ensures multiset(FoundDuring(c, ops, from, at, q)) <= multiset(Answers(WrittenBy(c, ops), q))
  {
    var days := ListedDays(c, ops, from, q);
    QueryDuringHistory(c, ops, from, at, q);
    forall d | d in days
      ensures multiset(SegmentOf(LogsAt(c, ops, at)(d), Id(OrLog(q.kind), d)))
           <= multiset(SegmentOf(WrittenBy(c, ops), Id(OrLog(q.kind), d)))
    {
      SegmentGenuine(c, ops, at(d), Id(OrLog(q.kind), d));
    }
    GatheredAtMost(LogsAt(c, ops, at), WrittenBy(c, ops), q, days);
    GatherSome(WrittenBy(c, ops), q, days);
  }

  // It misses no answer there was when it listed the days, if no listed
  // segment is taken away or replaced before it is read.
  lemma QueryMissesNothing(c: Settings, ops: seq<Op>, from: nat, at: int -> nat, q: Query)
    requires c.lib.Valid() && Fits(c.lib, ops)
    requires forall d | d in ListedDays(c, ops, from, q) ::
               from <= at(d) && LeftAlone(c, ops, from, at(d), Id(OrLog(q.kind), d))
    ensures multiset(Answers(LogUpto(c, ops, from), q)) <= multiset(FoundDuring(c, ops, from, at, q))
  {
    var days, first := ListedDays(c, ops, from, q), LogUpto(c, ops, from);
    QueryDuringHistory(c, ops, from, at, q);
    RepresentsUpto(c, ops, from);
    CoveredDays(c.lib, FilesAfterAll(c, Upto(ops, from)), first, OrLog(q.kind), days);
    GatherAll(first, q, days);
    forall d | d in days
      ensures SegmentOf(first, Id(OrLog(q.kind), d)) <= SegmentOf(LogsAt(c, ops, at)(d), Id(OrLog(q.kind), d))
    {
      LeftAloneGrows(c, ops, from, at(d), Id(OrLog(q.kind), d));
    }
    GatheredAtLeast(LogsAt(c, ops, at), first, q, days);
  }

  lemma {:induction false} GatheredAtNone(logs: int -> seq<Entry>, q: Query, days: seq<int>)
    requires forall d | d in days :: SegmentOf(logs(d), Id(OrLog(q.kind), d)) == []
    ensures GatheredAt(logs, q, days) == []
    decreases |days|
  {
    if days != [] {
      GatheredAtNone(logs, q, days[..|days| - 1]);
      assert days[|days| - 1] in days;
    }
  }

  function Always(n: nat): int -> nat {
    _ => n
  }

  // The condition is needed: an Archive of every listed segment between the
  // listing and the reads makes Query miss every answer.
  lemma QueryMissesMoved(c: Settings, ops: seq<Op>, before: Time, now: Time, q: Query)
    requires c.lib.Valid() && Fits(c.lib, ops)
    requires forall d | d in ListedDays(c, ops, |ops|, q) ::
               Id(OrLog(q.kind), d) in MovedIds(ShelvesAfterAll(c, ops), before, c.zone)
    ensures FoundDuring(c, ops + [ArchiveOp(before, now)], |ops|, Always(|ops| + 1), q) == []
  {
    var more, at := ops + [ArchiveOp(before, now)], Always(|ops| + 1);
    var a := ShelvesAfterAll(c, ops);
    assert more[..|ops|] == ops && Upto(ops, |ops|) == ops && Upto(more, |ops| + 1) == more;
    assert Fits(c.lib, more);
    var days := ListedDays(c, more, |ops|, q);
    forall d | d in days ensures SegmentOf(LogsAt(c, more, at)(d), Id(OrLog(q.kind), d)) == [] {
      SegmentWithout(a.log, MovedIds(a, before, c.zone), Id(OrLog(q.kind), d));
    }
    GatheredAtNone(LogsAt(c, more, at), q, days);
    FindsNone(c, more, |ops|, at, q);
  }

  lemma FindsNone(c: Settings, ops: seq<Op>, from: nat, at: int -> nat, q: Query)
    requires c.lib.Valid() && Fits(c.lib, ops)
    requires GatheredAt(LogsAt(c, ops, at), q, ListedDays(c, ops, from, q)) == []
    ensures FoundDuring(c, ops, from, at, q) == []
  {
    QueryDuringHistory(c, ops, from, at, q);
    var found := FoundDuring(c, ops, from, at, q);
    assert |multiset(found)| == |found|;
  }
}
