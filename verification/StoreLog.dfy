// The store of server/internal/output/filesystem/filesystem.go as functions of
// its files, and the abstract log it refines.
module StoreLog {
  import opened Signals
  import opened Framing
  import opened Codec
  import opened Disks
  import opened Batching
  import opened Paging

  // --- The log ------------------------------------------------------------

  // One written signal and the segment it went to.
  datatype Entry = Entry(id: Id, ev: Event)

  function DayOf(t: Time): int {
    (t.instant + t.offset) / NANOS_PER_DAY
  }

  function EntryOf(sig: Event, now: Time): Entry {
    Entry(Id(OrLog(sig.kind), DayOf(if sig.time.IsZero() then now else sig.time)), sig)
  }

  // The signals of a log that went to one segment, in order.
  function SegmentOf(log: seq<Entry>, id: Id): seq<Event> {
    if log == [] then []
    else
      var e := log[|log| - 1];
      SegmentOf(log[..|log| - 1], id) + if e.id == id then [e.ev] else []
  }

  function Line(lib: Library, e: Event): seq<Byte> {
    match EncodeJSON(lib, e)
    case None => []
    case Some(b) => b + [NEWLINE]
  }

  function Lines(lib: Library, es: seq<Event>): seq<Byte> {
    if es == [] then [] else Lines(lib, es[..|es| - 1]) + Line(lib, es[|es| - 1])
  }

  lemma LinesConcat(lib: Library, a: seq<Event>, b: seq<Event>)
    ensures Lines(lib, a + b) == Lines(lib, a) + Lines(lib, b)
  {
    if b == [] {
      assert a + b == a;
    } else {
      var m := |b| - 1;
      LinesConcat(lib, a, b[..m]);
      assert (a + b)[..|a + b| - 1] == a + b[..m] && (a + b)[|a + b| - 1] == b[m];
      Assoc(Lines(lib, a), Lines(lib, b[..m]), Line(lib, b[m]));
    }
  }

  lemma SegmentConcat(a: seq<Entry>, b: seq<Entry>, id: Id)
    ensures SegmentOf(a + b, id) == SegmentOf(a, id) + SegmentOf(b, id)
  {
    if b == [] {
      assert a + b == a;
    } else {
      assert (a + b)[..|a + b| - 1] == a + b[..|b| - 1];
      SegmentConcat(a, b[..|b| - 1], id);
    }
  }

  // --- Write --------------------------------------------------------------

  // Opening a segment for append makes it exist.
  function Touched(v: Files, p: Path): Files {
    if p in v then v else v[p := Ndjson([])]
  }

  function Appended(lib: Library, v: Files, e: Entry): Files {
    var p := Hot(e.id);
    v[p := Ndjson(Bytes(v, p) + Line(lib, e.ev))]
  }

  // The files after the entries of a batch have been appended one by one.
  function Written(lib: Library, v: Files, es: seq<Entry>): Files {
    if es == [] then v else Appended(lib, Written(lib, v, es[..|es| - 1]), es[|es| - 1])
  }

  // What can go wrong at the i-th signal of a batch, besides its encoding: the
  // open, or the append, which then writes nothing.
  datatype Fault = NoFault | OpenFault | AppendFault

  predicate Succeeds(lib: Library, e: Entry, fault: Fault) {
    fault == NoFault && EncodeJSON(lib, e.ev).Some?
  }

  // How many signals of a batch are written before Write returns.
  function Applied(lib: Library, es: seq<Entry>, faults: nat -> Fault, i: nat): (n: nat)
    requires i <= |es|
    ensures i <= n <= |es|
    ensures forall j | i <= j < n :: Succeeds(lib, es[j], faults(j))
    ensures n < |es| ==> !Succeeds(lib, es[n], faults(n))
    decreases |es| - i
  {
    if i < |es| && Succeeds(lib, es[i], faults(i)) then Applied(lib, es, faults, i + 1) else i
  }

  // The files after Write: the prefix is appended, and the file of the signal
  // that failed exists if it was the encoding or the append that failed.
  function AfterWrite(lib: Library, v: Files, es: seq<Entry>, faults: nat -> Fault): Files {
    var n := Applied(lib, es, faults, 0);
    var w := Written(lib, v, es[..n]);
    if n < |es| && faults(n) != OpenFault then Touched(w, Hot(es[n].id)) else w
  }

  lemma WrittenStep(lib: Library, v: Files, es: seq<Entry>, i: nat)
    requires i < |es|
    ensures Written(lib, v, es[..i + 1]) == Appended(lib, Written(lib, v, es[..i]), es[i])
  {
    assert es[..i + 1][..i] == es[..i];
  }

  lemma AfterWriteIs(lib: Library, v: Files, es: seq<Entry>, faults: nat -> Fault, i: nat)
    requires i <= |es| && Applied(lib, es, faults, 0) == Applied(lib, es, faults, i)
    ensures i == |es| ==> AfterWrite(lib, v, es, faults) == Written(lib, v, es)
    ensures i < |es| && !Succeeds(lib, es[i], faults(i)) ==>
              AfterWrite(lib, v, es, faults) ==
              if faults(i) == OpenFault then Written(lib, v, es[..i])
              else Touched(Written(lib, v, es[..i]), Hot(es[i].id))
  {
    assert es[..|es|] == es;
  }

  // A write is a stable partition: each segment becomes its old content and
  // the lines of the batch's entries for it, in order; no other file changes.
  lemma {:induction false} WrittenPartitions(lib: Library, v: Files, es: seq<Entry>, p: Path)
    ensures p.Hot? ==> Bytes(Written(lib, v, es), p) == Bytes(v, p) + Lines(lib, SegmentOf(es, p.id))
    ensures !p.Hot? ==> (p in Written(lib, v, es) <==> p in v) && (p in v ==> Written(lib, v, es)[p] == v[p])
  {
    if es != [] {
      var m := |es| - 1;
      WrittenPartitions(lib, v, es[..m], p);
      AppendedOne(lib, Written(lib, v, es[..m]), es[m], p);
      if p.Hot? {
        var seg := SegmentOf(es[..m], p.id);
        LinesSnoc(lib, seg, es[m].ev);
        Assoc(Bytes(v, p), Lines(lib, seg), if p.id == es[m].id then Line(lib, es[m].ev) else []);
        assert Lines(lib, seg) + [] == Lines(lib, seg);
      }
    } else if p.Hot? {
      assert Bytes(v, p) + [] == Bytes(v, p);
    }
  }

  lemma AppendedOne(lib: Library, v: Files, e: Entry, p: Path)
    ensures p.Hot? ==> Bytes(Appended(lib, v, e), p) == Bytes(v, p) + if p.id == e.id then Line(lib, e.ev) else []
    ensures !p.Hot? ==> (p in Appended(lib, v, e) <==> p in v) && (p in v ==> Appended(lib, v, e)[p] == v[p])
  {
    assert Bytes(v, p) + [] == Bytes(v, p);
  }

  lemma LinesSnoc(lib: Library, es: seq<Event>, e: Event)
    ensures Lines(lib, es + [e]) == Lines(lib, es) + Line(lib, e)
    ensures es + [] == es
  {
    assert (es + [e])[..|es|] == es;
  }

  // The same for Write as a whole: exactly the first `Applied` signals.
  lemma WritePartitions(lib: Library, v: Files, es: seq<Entry>, faults: nat -> Fault, p: Path)
    ensures var n := Applied(lib, es, faults, 0);
            var w := AfterWrite(lib, v, es, faults);
            && (p.Hot? ==> Bytes(w, p) == Bytes(v, p) + Lines(lib, SegmentOf(es[..n], p.id)))
            && (!p.Hot? ==> (p in w <==> p in v) && (p in v ==> w[p] == v[p]))
  {
    WrittenPartitions(lib, v, es[..Applied(lib, es, faults, 0)], p);
  }

  // --- Query --------------------------------------------------------------

  datatype Query = Query(kind: string, from: Time, to: Time, levels: seq<string>, services: seq<string>,
                         hosts: seq<string>, traceId: string, keyword: string, offset: int, limit: int)

  predicate MatchQuery(q: Query, e: Event) {
    && (!q.from.IsZero() ==> e.time.instant >= q.from.instant)
    && (!q.to.IsZero() ==> e.time.instant <= q.to.instant)
    && (q.levels != [] ==> e.level in q.levels)
    && (q.services != [] ==> e.service in q.services)
    && (q.hosts != [] ==> e.host in q.hosts)
    && (q.traceId != "" ==> e.traceId == q.traceId)
    && (q.keyword != "" ==> Contains(ToLower(e.message), ToLower(q.keyword)))
  }

  // The lines of a segment that decode and match.
  function Hits(lib: Library, q: Query, lines: seq<seq<Byte>>): seq<Event> {
    if lines == [] then []
    else
      var m := |lines| - 1;
      var d := Decoded(lib, lines[m]);
      Hits(lib, q, lines[..m]) + if d.Some? && MatchQuery(q, d.value) then [d.value] else []
  }

  lemma HitsSnoc(lib: Library, q: Query, lines: seq<seq<Byte>>, line: seq<Byte>)
    ensures Hits(lib, q, lines + [line]) ==
            var d := Decoded(lib, line);
            Hits(lib, q, lines) + if d.Some? && MatchQuery(q, d.value) then [d.value] else []
  {
    assert (lines + [line])[..|lines|] == lines;
  }

  // The days of a kind that have a segment.
  function Days(v: Files, kind: string): set<int> {
    set p | p in v.Keys && p.Hot? && p.id.kind == kind :: p.id.day
  }

  lemma Member<T>(s: set<T>) returns (a: T)
    requires s != {}
    ensures a in s
  {
    a :| a in s;
  }

  lemma LeastExists(s: set<int>)
    requires s != {}
    ensures exists m :: m in s && forall x | x in s :: m <= x
  {
    var a := Member(s);
    var rest := s - {a};
    assert forall x | x in s :: x == a || x in rest;
    if rest == {} {
      assert a in s && forall x | x in s :: a <= x;
    } else {
      LeastExists(rest);
      var m :| m in rest && forall x | x in rest :: m <= x;
      var least := if a < m then a else m;
      assert least in s && forall x | x in s :: least <= x;
    }
  }

  function Least(s: set<int>): (m: int)
    requires s != {}
    ensures m in s && forall x | x in s :: m <= x
  {
    LeastExists(s);
    var m :| m in s && forall x | x in s :: m <= x;
    m
  }

  // Directory order, which for day files is the order of days.
  function Ascending(s: set<int>): (r: seq<int>)
    ensures forall x :: x in r <==> x in s
    ensures forall i, j | 0 <= i < j < |r| :: r[i] < r[j]
  {
    if s == {} then []
    else
      var m := Least(s);
      var rest := Ascending(s - {m});
      assert forall x | x in rest :: x in s - {m};
      [m] + rest
  }

  // Query visits the segments from the last day to the first.
  function Collected(lib: Library, v: Files, q: Query, days: seq<int>): seq<Event> {
    if days == [] then []
    else
      var m := |days| - 1;
      Hits(lib, q, Scan(Bytes(v, Hot(Id(OrLog(q.kind), days[m]))))) + Collected(lib, v, q, days[..m])
  }

  lemma CollectedStep(lib: Library, v: Files, q: Query, days: seq<int>, i: nat)
    requires i < |days|
    ensures Collected(lib, v, q, days[..i + 1])
            == Hits(lib, q, Scan(Bytes(v, Hot(Id(OrLog(q.kind), days[i]))))) + Collected(lib, v, q, days[..i])
  {
    assert days[..i + 1][..i] == days[..i];
  }

  // All results, before paging.
  function Results(lib: Library, v: Files, q: Query): seq<Event> {
    SortedLater(lib, Collected(lib, v, q, Ascending(Days(v, OrLog(q.kind)))))
  }

  function QueryPage(lib: Library, v: Files, q: Query): Page<Event> {
    Paged(Results(lib, v, q), q.offset, q.limit)
  }

  // --- Refinement ---------------------------------------------------------

  // The events of a log that a query asks for, as they read back.
  function Answers(log: seq<Entry>, q: Query): seq<Event> {
    if log == [] then []
    else
      var e := log[|log| - 1];
      var c := Canonical(e.ev);
      Answers(log[..|log| - 1], q) + if e.id.kind == OrLog(q.kind) && MatchQuery(q, c) then [c] else []
  }

  // Two adjacent time windows between them give each answer of the whole
  // window once.
  lemma {:induction false} WindowsSplit(log: seq<Entry>, q: Query, mid: int, offset: int)
    requires mid != ZERO_INSTANT && mid + 1 != ZERO_INSTANT
    requires (q.from.IsZero() || q.from.instant <= mid + 1) && (q.to.IsZero() || q.to.instant >= mid)
    ensures multiset(Answers(log, q))
            == multiset(Answers(log, q.(to := Time(mid, offset))))
               + multiset(Answers(log, q.(from := Time(mid + 1, offset))))
  {
    if log != [] {
      var q1, q2 := q.(to := Time(mid, offset)), q.(from := Time(mid + 1, offset));
      WindowsSplit(log[..|log| - 1], q, mid, offset);
      AnswersBag(log, q);
      AnswersBag(log, q1);
      AnswersBag(log, q2);
      MatchSplits(Canonical(log[|log| - 1].ev), q, mid, offset);
    }
  }

  lemma MatchSplits(e: Event, q: Query, mid: int, offset: int)
    requires mid != ZERO_INSTANT && mid + 1 != ZERO_INSTANT
    requires (q.from.IsZero() || q.from.instant <= mid + 1) && (q.to.IsZero() || q.to.instant >= mid)
    ensures MatchQuery(q.(to := Time(mid, offset)), e) <==> MatchQuery(q, e) && e.time.instant <= mid
    ensures MatchQuery(q.(from := Time(mid + 1, offset)), e) <==> MatchQuery(q, e) && e.time.instant > mid
  {
  }

  lemma AnswersBag(log: seq<Entry>, q: Query)
    requires log != []
    ensures var e := log[|log| - 1];
            multiset(Answers(log, q))
            == multiset(Answers(log[..|log| - 1], q))
               + if e.id.kind == OrLog(q.kind) && MatchQuery(q, Canonical(e.ev)) then multiset{Canonical(e.ev)}
                 else multiset{}
  {
  }

  // The same of a list of events of one segment.
  function Found(q: Query, es: seq<Event>): seq<Event> {
    if es == [] then []
    else
      var c := Canonical(es[|es| - 1]);
      Found(q, es[..|es| - 1]) + if MatchQuery(q, c) then [c] else []
  }

  // Encodable, within the scanner's limit.
  predicate Storable(lib: Library, e: Event) {
    EncodeJSON(lib, e).Some? && |EncodeJSON(lib, e).value| < MAX_LINE
  }

  predicate AllStorable(lib: Library, log: seq<Entry>) {
    forall i | 0 <= i < |log| :: Storable(lib, log[i].ev)
  }

  // Each segment holds the lines of the log's entries for it.
  ghost predicate Represents(lib: Library, v: Files, log: seq<Entry>) {
    forall id: Id :: Bytes(v, Hot(id)) == Lines(lib, SegmentOf(log, id))
  }

  lemma EmptyRepresents(lib: Library)
    ensures Represents(lib, map[], [])
  {
  }

  lemma WriteRepresents(lib: Library, v: Files, log: seq<Entry>, es: seq<Entry>)
    requires Represents(lib, v, log)
    ensures Represents(lib, Written(lib, v, es), log + es)
  {
    forall id: Id ensures Bytes(Written(lib, v, es), Hot(id)) == Lines(lib, SegmentOf(log + es, id)) {
      WrittenPartitions(lib, v, es, Hot(id));
      SegmentConcat(log, es, id);
      LinesConcat(lib, SegmentOf(log, id), SegmentOf(es, id));
    }
  }

  // What the scanner and the decoder read of written lines is the events.
  lemma {:induction false} ReadsBack(lib: Library, q: Query, es: seq<Event>)
    requires lib.Valid() && forall i | 0 <= i < |es| :: Storable(lib, es[i])
    ensures Hits(lib, q, Scan(Lines(lib, es))) == Found(q, es)
  {
    var lines := seq(|es|, i requires 0 <= i < |es| => EncodeJSON(lib, es[i]).value);
    ScanLines(lib, es, lines);
    HitsFound(lib, q, es, lines);
  }

  lemma LinesCons(lib: Library, es: seq<Event>)
    requires es != []
    ensures Lines(lib, es) == Line(lib, es[0]) + Lines(lib, es[1..])
  {
    var e := es[0];
    LinesConcat(lib, [e], es[1..]);
    assert es == [e] + es[1..];
    LinesSnoc(lib, [], e);
    assert [] + [e] == [e] && Lines(lib, []) + Line(lib, e) == Line(lib, e);
  }

  lemma ScanLine(lib: Library, e: Event, rest: seq<Byte>)
    requires lib.Valid() && Storable(lib, e)
    ensures Scan(Line(lib, e) + rest) == [EncodeJSON(lib, e).value] + Scan(rest)
  {
    CodecRoundTrip(lib, e);
    ScanFirst(EncodeJSON(lib, e).value, rest);
  }

  lemma {:induction false} ScanLines(lib: Library, es: seq<Event>, lines: seq<seq<Byte>>)
    requires lib.Valid() && |lines| == |es|
    requires forall i | 0 <= i < |es| :: Storable(lib, es[i]) && lines[i] == EncodeJSON(lib, es[i]).value
    ensures Scan(Lines(lib, es)) == lines
    decreases |es|
  {
    if es != [] {
      var rest := es[1..];
      ScanLines(lib, rest, lines[1..]);
      LinesCons(lib, es);
      ScanLine(lib, es[0], Lines(lib, rest));
      assert lines == [lines[0]] + lines[1..];
    }
  }

  lemma {:induction false} HitsFound(lib: Library, q: Query, es: seq<Event>, lines: seq<seq<Byte>>)
    requires lib.Valid() && |lines| == |es|
    requires forall i | 0 <= i < |es| :: Storable(lib, es[i]) && lines[i] == EncodeJSON(lib, es[i]).value
    ensures Hits(lib, q, lines) == Found(q, es)
    decreases |es|
  {
    if es != [] {
      var m := |es| - 1;
      HitsFound(lib, q, es[..m], lines[..m]);
      CodecRoundTrip(lib, es[m]);
    }
  }

  // The events found by going through the days of a kind.
  function Gathered(log: seq<Entry>, q: Query, days: seq<int>): seq<Event> {
    if days == [] then []
    else
      var m := |days| - 1;
      Found(q, SegmentOf(log, Id(OrLog(q.kind), days[m]))) + Gathered(log, q, days[..m])
  }

  predicate Distinct(days: seq<int>) {
    forall i, j | 0 <= i < j < |days| :: days[i] != days[j]
  }

  lemma FoundAppend(q: Query, es: seq<Event>, e: Event)
    ensures Found(q, es + [e]) == Found(q, es) + if MatchQuery(q, Canonical(e)) then [Canonical(e)] else []
  {
    assert (es + [e])[..|es|] == es;
  }

  // What an entry contributes to a query over some days.
  function Hit(e: Entry, q: Query, days: seq<int>): seq<Event> {
    if e.id.kind == OrLog(q.kind) && e.id.day in days && MatchQuery(q, Canonical(e.ev)) then [Canonical(e.ev)] else []
  }

  lemma GrowOne(log: seq<Entry>, e: Entry, q: Query, day: int)
    ensures var id := Id(OrLog(q.kind), day);
            Found(q, SegmentOf(log + [e], id)) == Found(q, SegmentOf(log, id)) + Hit(e, q, [day])
  {
    var id := Id(OrLog(q.kind), day);
    assert (log + [e])[..|log|] == log;
    if e.id == id {
      FoundAppend(q, SegmentOf(log, id), e.ev);
    } else {
      assert SegmentOf(log + [e], id) == SegmentOf(log, id) + [] == SegmentOf(log, id);
      assert Found(q, SegmentOf(log, id)) + [] == Found(q, SegmentOf(log, id));
    }
  }

  lemma HitSplit(e: Entry, q: Query, front: seq<int>, d: int)
    requires Distinct(front + [d])
    ensures multiset(Hit(e, q, front + [d])) == multiset(Hit(e, q, [d])) + multiset(Hit(e, q, front))
  {
    assert d !in front by {
      assert forall i | 0 <= i < |front| :: (front + [d])[i] == front[i] && (front + [d])[i] != (front + [d])[|front|];
    }
  }

  // An entry adds its event to the day it belongs to, and to no other.
  lemma {:induction false} GatherOne(log: seq<Entry>, e: Entry, q: Query, days: seq<int>)
    requires Distinct(days)
    ensures multiset(Gathered(log + [e], q, days)) == multiset(Gathered(log, q, days)) + multiset(Hit(e, q, days))
    decreases |days|
  {
    if days != [] {
      var m := |days| - 1;
      var front, d := days[..m], days[m];
      GatherOne(log, e, q, front);
      GrowOne(log, e, q, d);
      GatheredBag(log, q, days);
      GatheredBag(log + [e], q, days);
      assert days == front + [d];
      HitSplit(e, q, front, d);
    }
  }

  lemma GatheredBag(log: seq<Entry>, q: Query, days: seq<int>)
    requires days != []
    ensures var m := |days| - 1;
            multiset(Gathered(log, q, days))
            == multiset(Found(q, SegmentOf(log, Id(OrLog(q.kind), days[m])))) + multiset(Gathered(log, q, days[..m]))
  {
  }

  predicate Covers(days: seq<int>, log: seq<Entry>, kind: string) {
    forall i | 0 <= i < |log| && log[i].id.kind == kind :: log[i].id.day in days
  }

  lemma {:induction false} GatherAll(log: seq<Entry>, q: Query, days: seq<int>)
    requires Distinct(days) && Covers(days, log, OrLog(q.kind))
    ensures multiset(Gathered(log, q, days)) == multiset(Answers(log, q))
    decreases |log|
  {
    if log == [] {
      GatherNone(q, days);
    } else {
      var m := |log| - 1;
      assert log == log[..m] + [log[m]];
      GatherAll(log[..m], q, days);
      GatherOne(log[..m], log[m], q, days);
    }
  }

  lemma GatherNone(q: Query, days: seq<int>)
    ensures Gathered([], q, days) == []
  {
  }

  lemma {:induction false} CollectedIsGathered(lib: Library, v: Files, log: seq<Entry>, q: Query, days: seq<int>)
    requires lib.Valid() && Represents(lib, v, log) && AllStorable(lib, log)
    ensures Collected(lib, v, q, days) == Gathered(log, q, days)
    decreases |days|
  {
    if days != [] {
      var m := |days| - 1;
      CollectedIsGathered(lib, v, log, q, days[..m]);
      var id := Id(OrLog(q.kind), days[m]);
      SegmentStorable(lib, log, id);
      ReadsBack(lib, q, SegmentOf(log, id));
    }
  }

  lemma SegmentStorable(lib: Library, log: seq<Entry>, id: Id)
    requires AllStorable(lib, log)
    ensures forall i | 0 <= i < |SegmentOf(log, id)| :: Storable(lib, SegmentOf(log, id)[i])
    ensures (exists i | 0 <= i < |log| :: log[i].id == id) ==> Lines(lib, SegmentOf(log, id)) != []
  {
    if log != [] {
      SegmentStorable(lib, log[..|log| - 1], id);
    }
  }

  // Query over the files is query over the log: before paging, the results are
  // the matching events of that kind, each as often as it was written, newest
  // first, and Total is their number. Day files, line framing and encoding do
  // not show, except that an empty kind reads back as log.
  lemma QueryRefinesLog(lib: Library, v: Files, log: seq<Entry>, q: Query)
    requires lib.Valid() && Represents(lib, v, log) && AllStorable(lib, log)
    ensures multiset(Results(lib, v, q)) == multiset(Answers(log, q))
    ensures NewestFirst(Results(lib, v, q))
    ensures QueryPage(lib, v, q).total == |Answers(log, q)|
  {
    var kind := OrLog(q.kind);
    var days := Ascending(Days(v, kind));
    CoveredDays(lib, v, log, kind, days);
    CollectedIsGathered(lib, v, log, q, days);
    GatherAll(log, q, days);
    SortsNewestFirst(lib, Collected(lib, v, q, days));
    var results := Results(lib, v, q);
    assert |results| == |multiset(results)| == |multiset(Answers(log, q))|;
  }

  // --- Any sequence of Writes from an empty store -------------------------

  // One call of Write, and what goes wrong during it.
  datatype Call = Call(batch: seq<Entry>, faults: nat -> Fault)

  function FilesAfter(lib: Library, calls: seq<Call>): Files {
    if calls == [] then map[]
    else
      var m := |calls| - 1;
      AfterWrite(lib, FilesAfter(lib, calls[..m]), calls[m].batch, calls[m].faults)
  }

  // Of each batch, the signals before the first that failed.
  function LogAfter(lib: Library, calls: seq<Call>): seq<Entry> {
    if calls == [] then []
    else
      var last := calls[|calls| - 1];
      LogAfter(lib, calls[..|calls| - 1]) + last.batch[..Applied(lib, last.batch, last.faults, 0)]
  }

  lemma AfterWriteRepresents(lib: Library, v: Files, log: seq<Entry>, es: seq<Entry>, faults: nat -> Fault)
    requires Represents(lib, v, log)
    ensures Represents(lib, AfterWrite(lib, v, es, faults), log + es[..Applied(lib, es, faults, 0)])
  {
    var done := es[..Applied(lib, es, faults, 0)];
    WriteRepresents(lib, v, log, done);
    forall id: Id ensures Bytes(AfterWrite(lib, v, es, faults), Hot(id)) == Lines(lib, SegmentOf(log + done, id)) {
      assert Bytes(AfterWrite(lib, v, es, faults), Hot(id)) == Bytes(Written(lib, v, done), Hot(id));
    }
  }

  lemma {:induction false} CallsRepresent(lib: Library, calls: seq<Call>)
    ensures Represents(lib, FilesAfter(lib, calls), LogAfter(lib, calls))
  {
    if calls == [] {
      EmptyRepresents(lib);
    } else {
      var m := |calls| - 1;
      var v, log, last := FilesAfter(lib, calls[..m]), LogAfter(lib, calls[..m]), calls[m];
      CallsRepresent(lib, calls[..m]);
      AfterWriteRepresents(lib, v, log, last.batch, last.faults);
    }
  }

  // Query after any sequence of Writes, successful or cut short: one page has
  // the right Total, and walking the pages shows every answer once, in order.
  lemma QueryAfterWrites(lib: Library, calls: seq<Call>, q: Query)
    requires lib.Valid() && AllStorable(lib, LogAfter(lib, calls))
    ensures var v, log := FilesAfter(lib, calls), LogAfter(lib, calls);
            && multiset(Results(lib, v, q)) == multiset(Answers(log, q))
            && NewestFirst(Results(lib, v, q))
            && QueryPage(lib, v, q).total == |Answers(log, q)|
            && Flatten(Walk(Results(lib, v, q), 0, q.limit)) == Results(lib, v, q)
  {
    CallsRepresent(lib, calls);
    QueryRefinesLog(lib, FilesAfter(lib, calls), LogAfter(lib, calls), q);
    WalkSeesAll(Results(lib, FilesAfter(lib, calls), q), q.limit);
  }

  // --- Query while Writes go on -------------------------------------------

  // Query takes no lock: it lists the days once and reads the file of a day
  // when it comes to it, here in views(day), when the log is logs(day).
  function CollectedAt(lib: Library, views: int -> Files, q: Query, days: seq<int>): seq<Event> {
    if days == [] then []
    else
      var m := |days| - 1;
      Hits(lib, q, Scan(Bytes(views(days[m]), Hot(Id(OrLog(q.kind), days[m]))))) + CollectedAt(lib, views, q, days[..m])
  }

  function GatheredAt(logs: int -> seq<Entry>, q: Query, days: seq<int>): seq<Event> {
    if days == [] then []
    else
      var m := |days| - 1;
      Found(q, SegmentOf(logs(days[m]), Id(OrLog(q.kind), days[m]))) + GatheredAt(logs, q, days[..m])
  }

  // Appends went on from one log to another while the days were read.
  predicate Between(logs: int -> seq<Entry>, first: seq<Entry>, last: seq<Entry>, days: seq<int>) {
    forall d | d in days :: first <= logs(d) <= last
  }

  lemma FoundFewer(q: Query, es: seq<Event>)
    requires es != []
    ensures multiset(Found(q, es[..|es| - 1])) <= multiset(Found(q, es))
  {
  }

  lemma {:induction false} FoundPrefix(q: Query, es: seq<Event>, n: nat)
    requires n <= |es|
    ensures multiset(Found(q, es[..n])) <= multiset(Found(q, es))
    decreases |es|
  {
    if n == |es| {
      assert es[..n] == es;
    } else {
      var front := es[..|es| - 1];
      FoundPrefix(q, front, n);
      FoundFewer(q, es);
      assert front[..n] == es[..n];
    }
  }

  // A longer log finds in a segment all that a shorter one did.
  lemma FoundGrows(q: Query, log: seq<Entry>, longer: seq<Entry>, id: Id)
    requires log <= longer
    ensures multiset(Found(q, SegmentOf(log, id))) <= multiset(Found(q, SegmentOf(longer, id)))
  {
    var segment, more := SegmentOf(longer, id), longer[|log|..];
    assert longer == log + more;
    SegmentConcat(log, more, id);
    FoundPrefix(q, segment, |SegmentOf(log, id)|);
    assert segment[..|SegmentOf(log, id)|] == SegmentOf(log, id);
  }

  lemma {:induction false} GatheredBetween(logs: int -> seq<Entry>, first: seq<Entry>, last: seq<Entry>, q: Query,
                                           days: seq<int>)
    requires Between(logs, first, last, days)
    ensures multiset(Gathered(first, q, days)) <= multiset(GatheredAt(logs, q, days))
    ensures multiset(GatheredAt(logs, q, days)) <= multiset(Gathered(last, q, days))
    decreases |days|
  {
    if days != [] {
      var m := |days| - 1;
      var id := Id(OrLog(q.kind), days[m]);
      GatheredBetween(logs, first, last, q, days[..m]);
      FoundGrows(q, first, logs(days[m]), id);
      FoundGrows(q, logs(days[m]), last, id);
      GatheredBag(first, q, days);
      GatheredBag(last, q, days);
      GatheredAtBag(logs, q, days);
    }
  }

  lemma GatheredAtBag(logs: int -> seq<Entry>, q: Query, days: seq<int>)
    requires days != []
    ensures var m := |days| - 1;
            multiset(GatheredAt(logs, q, days))
            == multiset(Found(q, SegmentOf(logs(days[m]), Id(OrLog(q.kind), days[m]))))
               + multiset(GatheredAt(logs, q, days[..m]))
  {
  }

  // Some days of a kind find no more than the log has.
  lemma {:induction false} GatherSome(log: seq<Entry>, q: Query, days: seq<int>)
    requires Distinct(days)
    ensures multiset(Gathered(log, q, days)) <= multiset(Answers(log, q))
    decreases |log|
  {
    if log == [] {
      GatherNone(q, days);
    } else {
      var m := |log| - 1;
      assert log == log[..m] + [log[m]];
      GatherSome(log[..m], q, days);
      GatherOne(log[..m], log[m], q, days);
      AnswersBag(log, q);
    }
  }

  lemma {:induction false} CollectedAtIsGathered(lib: Library, views: int -> Files, logs: int -> seq<Entry>, q: Query,
                                                 days: seq<int>)
    requires lib.Valid()
    requires forall d | d in days :: Represents(lib, views(d), logs(d)) && AllStorable(lib, logs(d))
    ensures CollectedAt(lib, views, q, days) == GatheredAt(logs, q, days)
    decreases |days|
  {
    if days != [] {
      var m := |days| - 1;
      CollectedAtIsGathered(lib, views, logs, q, days[..m]);
      var id := Id(OrLog(q.kind), days[m]);
      assert days[m] in days;
      SegmentStorable(lib, logs(days[m]), id);
      ReadsBack(lib, q, SegmentOf(logs(days[m]), id));
    }
  }

  // Whatever Writes append meanwhile, Query finds every answer there was when
  // it listed the days, and nothing that was not there when it had read the
  // last of them, each as often as it was written.
  lemma QueryDuringWrites(lib: Library, v: Files, first: seq<Entry>, last: seq<Entry>,
                          views: int -> Files, logs: int -> seq<Entry>, q: Query)
    requires lib.Valid() && Represents(lib, v, first) && AllStorable(lib, last) && first <= last
    requires Between(logs, first, last, Ascending(Days(v, OrLog(q.kind))))
    requires forall d | d in Days(v, OrLog(q.kind)) :: Represents(lib, views(d), logs(d))
    ensures var found := SortedLater(lib, CollectedAt(lib, views, q, Ascending(Days(v, OrLog(q.kind)))));
            && multiset(Answers(first, q)) <= multiset(found) <= multiset(Answers(last, q))
            && NewestFirst(found)
  {
    var kind := OrLog(q.kind);
    var days := Ascending(Days(v, kind));
    PrefixStorable(lib, logs, first, last, days);
    assert AllStorable(lib, first) by {
      assert forall i | 0 <= i < |first| :: first[i] == last[i];
    }
    CoveredDays(lib, v, first, kind, days);
    CollectedAtIsGathered(lib, views, logs, q, days);
    GatheredBetween(logs, first, last, q, days);
    GatherAll(first, q, days);
    GatherSome(last, q, days);
    SortsNewestFirst(lib, CollectedAt(lib, views, q, days));
  }

  lemma PrefixStorable(lib: Library, logs: int -> seq<Entry>, first: seq<Entry>, last: seq<Entry>, days: seq<int>)
    requires Between(logs, first, last, days) && AllStorable(lib, last)
    ensures forall d | d in days :: AllStorable(lib, logs(d))
  {
    forall d | d in days ensures AllStorable(lib, logs(d)) {
      assert forall i | 0 <= i < |logs(d)| :: logs(d)[i] == last[i];
    }
  }

  // The days there are cover the log.
  lemma CoveredDays(lib: Library, v: Files, log: seq<Entry>, kind: string, days: seq<int>)
    requires Represents(lib, v, log) && AllStorable(lib, log) && forall d :: d in days <==> d in Days(v, kind)
    ensures Covers(days, log, kind)
  {
    forall i | 0 <= i < |log| && log[i].id.kind == kind ensures log[i].id.day in days {
      SegmentStorable(lib, log, log[i].id);
      assert Bytes(v, Hot(log[i].id)) != [];
      assert Hot(log[i].id) in v.Keys;
      assert log[i].id.day in Days(v, kind);
    }
  }
}
