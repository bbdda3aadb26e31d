// Any sequence of Write, Archive and Restore on the store of
// server/internal/output/filesystem/filesystem.go, and the two shelves of
// events it refines: the hot segments Query looks at and the archives.
module StoreHistory {
  import opened Signals
  import opened Framing
  import opened Codec
  import opened Disks
  import opened Paging
  import opened StoreLog
  import opened Archiving

  // What New fixes.
  datatype Settings = Settings(lib: Library, zone: int, retainDays: int)

  // An Archive that stops at a segment it cannot compress has moved some of the
  // eligible ones, those in upTo, and prunes nothing.
  datatype Op =
    | WriteOp(batch: seq<Entry>, faults: nat -> Fault)
    | ArchiveOp(before: Time, now: Time)
    | CutArchiveOp(before: Time, now: Time, upTo: set<Id>)
    | RestoreOp(id: Id, opts: RestoreOptions)

  // log holds the entries in hot segments, segments names those that exist,
  // archived gives the events of each archive, and aside of each read-only
  // restore.
  datatype Shelves = Shelves(
    log: seq<Entry>,
    segments: set<Id>,
    archived: map<Id, seq<Event>>,
    aside: map<Id, seq<Event>>)

  // --- On the files -------------------------------------------------------

  function FilesDo(c: Settings, v: Files, op: Op): Files {
    match op
    case WriteOp(batch, faults) => AfterWrite(c.lib, v, batch, faults)
    case ArchiveOp(before, now) => ArchiveResult(v, before, now, c.retainDays, c.zone)
    case CutArchiveOp(before, now, upTo) => ArchiveSet(v, EligibleIds(v, before, c.zone) * upTo, c.zone, now)
    case RestoreOp(id, opts) => RestoreResult(v, id, opts).0
  }

  function FilesAfterAll(c: Settings, ops: seq<Op>): Files {
    if ops == [] then map[] else FilesDo(c, FilesAfterAll(c, ops[..|ops| - 1]), ops[|ops| - 1])
  }

  // --- On the shelves -----------------------------------------------------

  function Ids(es: seq<Entry>): set<Id> {
    set i | 0 <= i < |es| :: es[i].id
  }

  function EntriesFor(id: Id, es: seq<Event>): seq<Entry> {
    if es == [] then [] else EntriesFor(id, es[..|es| - 1]) + [Entry(id, es[|es| - 1])]
  }

  // A signal whose encoding or append fails has its segment created all the
  // same.
  function WriteDo(lib: Library, a: Shelves, batch: seq<Entry>, faults: nat -> Fault): Shelves {
    var n := Applied(lib, batch, faults, 0);
    a.(log := a.log + batch[..n],
       segments := a.segments + Ids(batch[..n]) + if n < |batch| && faults(n) != OpenFault then {batch[n].id} else {})
  }

  function MovedIds(a: Shelves, before: Time, zone: int): set<Id> {
    set id | id in a.segments && Eligible(id, before, zone)
  }

  // Retention forgets the archives of days that began more than so many days
  // ago.
  predicate Forgotten(c: Settings, id: Id, now: Time) {
    c.retainDays > 0 && DayStart(id.day, c.zone).instant + c.retainDays * NANOS_PER_DAY < now.instant
  }

  function ArchiveDo(c: Settings, a: Shelves, before: Time, now: Time): Shelves {
    var moved := MovedIds(a, before, c.zone);
    a.(log := Without(a.log, moved), segments := a.segments - moved,
       archived := map id | id in a.archived.Keys + moved && !Forgotten(c, id, now) ::
         if id in moved then SegmentOf(a.log, id) else a.archived[id])
  }

  function CutArchiveDo(a: Shelves, moved: set<Id>): Shelves {
    a.(log := Without(a.log, moved), segments := a.segments - moved,
       archived := map id | id in a.archived.Keys + moved ::
         if id in moved then SegmentOf(a.log, id) else a.archived[id])
  }

  function RestoreDo(a: Shelves, id: Id, opts: RestoreOptions): (Shelves, Option<RestoreError>) {
    if id !in a.archived then (a, Some(NoArchive))
    else if !opts.toHot && opts.readOnly then
      if id in a.aside && !opts.overwrite then (a, Some(TargetExists(Restored(id))))
      else (a.(aside := a.aside[id := a.archived[id]]), None)
    else if id in a.segments && !opts.overwrite then (a, Some(TargetExists(Hot(id))))
    else (a.(log := Without(a.log, {id}) + EntriesFor(id, a.archived[id]), segments := a.segments + {id}), None)
  }

  function ShelvesDo(c: Settings, a: Shelves, op: Op): Shelves {
    match op
    case WriteOp(batch, faults) => WriteDo(c.lib, a, batch, faults)
    case ArchiveOp(before, now) => ArchiveDo(c, a, before, now)
    case CutArchiveOp(before, now, upTo) => CutArchiveDo(a, MovedIds(a, before, c.zone) * upTo)
    case RestoreOp(id, opts) => RestoreDo(a, id, opts).0
  }

  const EMPTY := Shelves([], {}, map[], map[])

  function ShelvesAfterAll(c: Settings, ops: seq<Op>): Shelves {
    if ops == [] then EMPTY else ShelvesDo(c, ShelvesAfterAll(c, ops[..|ops| - 1]), ops[|ops| - 1])
  }

  // --- Refinement ---------------------------------------------------------

  // The files of one id hold what the shelves say.
  ghost predicate ShelvedId(lib: Library, v: Files, a: Shelves, id: Id) {
    && Bytes(v, Hot(id)) == Lines(lib, SegmentOf(a.log, id))
    && (Hot(id) in v <==> id in a.segments)
    && (ArchiveData(id) in v <==> id in a.archived)
    && (ArchiveMeta(id) in v <==> id in a.archived)
    && (id in a.archived ==> id.kind in KINDS && Bytes(v, ArchiveData(id)) == Lines(lib, a.archived[id]))
    && (Restored(id) in v <==> id in a.aside)
    && (id in a.aside ==> Bytes(v, Restored(id)) == Lines(lib, a.aside[id]))
  }

  ghost predicate Shelved(c: Settings, v: Files, a: Shelves) {
    Described(v, c.zone) && forall id: Id :: ShelvedId(c.lib, v, a, id)
  }

  lemma ShelvedRepresents(c: Settings, v: Files, a: Shelves)
    requires Shelved(c, v, a)
    ensures Represents(c.lib, v, a.log)
  {
    forall id: Id ensures Bytes(v, Hot(id)) == Lines(c.lib, SegmentOf(a.log, id)) {
      assert ShelvedId(c.lib, v, a, id);
    }
  }

  // --- Write --------------------------------------------------------------

  lemma {:induction false} WrittenHot(lib: Library, v: Files, es: seq<Entry>, id: Id)
    ensures Hot(id) in Written(lib, v, es) <==> Hot(id) in v || id in Ids(es)
    decreases |es|
  {
    if es != [] {
      var m := |es| - 1;
      WrittenHot(lib, v, es[..m], id);
      assert es == es[..m] + [es[m]];
      IdsSnoc(es[..m], es[m]);
    }
  }

  lemma IdsSnoc(es: seq<Entry>, e: Entry)
    ensures Ids(es + [e]) == Ids(es) + {e.id}
  {
    var more := es + [e];
    forall id ensures id in Ids(more) <==> id in Ids(es) || id == e.id {
      if id in Ids(es) {
        var i :| 0 <= i < |es| && es[i].id == id;
        assert more[i].id == id;
      }
      assert more[|es|].id == e.id;
    }
  }

  lemma {:induction false} WrittenDescribed(lib: Library, v: Files, es: seq<Entry>, zone: int)
    requires Described(v, zone)
    ensures Described(Written(lib, v, es), zone)
    decreases |es|
  {
    if es != [] {
      WrittenDescribed(lib, v, es[..|es| - 1], zone);
    }
  }

  lemma WriteShelvedId(lib: Library, v: Files, a: Shelves, batch: seq<Entry>, faults: nat -> Fault, id: Id)
    requires ShelvedId(lib, v, a, id)
    ensures ShelvedId(lib, AfterWrite(lib, v, batch, faults), WriteDo(lib, a, batch, faults), id)
  {
    var n := Applied(lib, batch, faults, 0);
    var done := batch[..n];
    WritePartitions(lib, v, batch, faults, Hot(id));
    WritePartitions(lib, v, batch, faults, ArchiveData(id));
    WritePartitions(lib, v, batch, faults, ArchiveMeta(id));
    WritePartitions(lib, v, batch, faults, Restored(id));
    SegmentConcat(a.log, done, id);
    LinesConcat(lib, SegmentOf(a.log, id), SegmentOf(done, id));
    WrittenHot(lib, v, done, id);
  }

  // --- Archive ------------------------------------------------------------

  lemma MovedAre(c: Settings, v: Files, a: Shelves, before: Time)
    requires Shelved(c, v, a)
    ensures EligibleIds(v, before, c.zone) == MovedIds(a, before, c.zone)
  {
    forall id ensures id in EligibleIds(v, before, c.zone) <==> id in MovedIds(a, before, c.zone) {
      assert ShelvedId(c.lib, v, a, id);
      assert Hot(id) in v <==> Hot(id) in v.Keys;
    }
  }

  // The files of one id after Archive.
  lemma ArchiveFilesAt(v: Files, id: Id, before: Time, now: Time, retainDays: int, zone: int)
    requires Described(v, zone)
    ensures var w := ArchiveResult(v, before, now, retainDays, zone);
            var moved, pruned := id in EligibleIds(v, before, zone), PrunedAway(v, id, before, now, retainDays, zone);
            && (Hot(id) in w <==> Hot(id) in v && !moved)
            && Bytes(w, Hot(id)) == (if moved then [] else Bytes(v, Hot(id)))
            && (ArchiveMeta(id) in w <==> (ArchiveMeta(id) in v || moved) && !pruned)
            && (ArchiveData(id) in w <==> (ArchiveData(id) in v || moved) && !pruned)
            && (ArchiveData(id) in w ==>
                  Bytes(w, ArchiveData(id)) == Bytes(v, if moved then Hot(id) else ArchiveData(id)))
            && (Restored(id) in w <==> Restored(id) in v)
            && Bytes(w, Restored(id)) == Bytes(v, Restored(id))
  {
    var ids := EligibleIds(v, before, zone);
    ArchiveSetAt(v, ids, zone, now, Hot(id));
    ArchiveSetAt(v, ids, zone, now, ArchiveMeta(id));
    ArchiveSetAt(v, ids, zone, now, ArchiveData(id));
    ArchiveSetAt(v, ids, zone, now, Restored(id));
  }

  lemma ArchiveShelvedId(c: Settings, v: Files, a: Shelves, before: Time, now: Time, id: Id)
    requires Shelved(c, v, a)
    ensures ShelvedId(c.lib, ArchiveResult(v, before, now, c.retainDays, c.zone), ArchiveDo(c, a, before, now), id)
  {
    assert ShelvedId(c.lib, v, a, id);
    MovedAre(c, v, a, before);
    ArchiveFilesAt(v, id, before, now, c.retainDays, c.zone);
    PrunedAwayIff(v, id, before, now, c.retainDays, c.zone);
    SegmentWithout(a.log, MovedIds(a, before, c.zone), id);
  }

  lemma ArchiveSetDescribed(v: Files, ids: set<Id>, now: Time, zone: int)
    requires Described(v, zone)
    ensures Described(ArchiveSet(v, ids, zone, now), zone)
  {
    var a := ArchiveSet(v, ids, zone, now);
    forall id: Id ensures
      && (ArchiveMeta(id) in a ==>
            a[ArchiveMeta(id)] == if id in ids then Meta(InfoFor(id, zone, now)) else v[ArchiveMeta(id)])
      && (ArchiveData(id) in a ==> a[ArchiveData(id)].Gzip?)
      && (Hot(id) in a ==> a[Hot(id)].Ndjson?)
    {
      ArchiveSetAt(v, ids, zone, now, ArchiveMeta(id));
      ArchiveSetAt(v, ids, zone, now, ArchiveData(id));
      ArchiveSetAt(v, ids, zone, now, Hot(id));
    }
  }

  lemma ArchiveResultDescribed(v: Files, before: Time, now: Time, retainDays: int, zone: int)
    requires Described(v, zone)
    ensures Described(ArchiveResult(v, before, now, retainDays, zone), zone)
  {
    var a := ArchiveSet(v, EligibleIds(v, before, zone), zone, now);
    ArchiveSetDescribed(v, EligibleIds(v, before, zone), now, zone);
    PruneSetDescribed(a, OldIds(a, Cutoff(now, retainDays)), zone);
  }

  lemma CutShelvedId(c: Settings, v: Files, a: Shelves, moved: set<Id>, now: Time, id: Id)
    requires ShelvedId(c.lib, v, a, id) && (id in moved ==> id.kind in KINDS)
    requires id in moved ==> id in a.segments
    ensures ShelvedId(c.lib, ArchiveSet(v, moved, c.zone, now), CutArchiveDo(a, moved), id)
  {
    ArchiveSetAt(v, moved, c.zone, now, Hot(id));
    ArchiveSetAt(v, moved, c.zone, now, ArchiveData(id));
    ArchiveSetAt(v, moved, c.zone, now, ArchiveMeta(id));
    ArchiveSetAt(v, moved, c.zone, now, Restored(id));
    SegmentWithout(a.log, moved, id);
  }

  // --- Restore ------------------------------------------------------------

  lemma {:induction false} SegmentOfEntries(id: Id, es: seq<Event>, k: Id)
    ensures SegmentOf(EntriesFor(id, es), k) == if k == id then es else []
    decreases |es|
  {
    if es != [] {
      var m := |es| - 1;
      SegmentOfEntries(id, es[..m], k);
      var front := EntriesFor(id, es[..m]);
      assert (front + [Entry(id, es[m])])[..|front|] == front;
      assert es[..m] + [es[m]] == es;
    }
  }

  // Restore agrees with the shelves on its error and on where it writes what.
  lemma RestoreAgrees(c: Settings, v: Files, a: Shelves, id: Id, opts: RestoreOptions)
    requires Shelved(c, v, a)
    ensures var (w, err) := RestoreResult(v, id, opts);
            var (b, e) := RestoreDo(a, id, opts);
            && err == e
            && (err == None ==>
                  && id in a.archived && ArchiveData(id) in v && v[ArchiveData(id)].Gzip?
                  && w == v[(if !opts.toHot && opts.readOnly then Restored(id) else Hot(id))
                            := Ndjson(v[ArchiveData(id)].bytes)])
            && (err != None ==> w == v && b == a)
  {
    assert ShelvedId(c.lib, v, a, id);
    DayOfStart(id.day, c.zone);
    assert forall k | k in KINDS :: k != "";
  }

  // A segment or a read-only copy is put in its place.
  lemma PutHot(lib: Library, v: Files, a: Shelves, b: Shelves, id: Id, bytes: seq<Byte>, k: Id)
    requires ShelvedId(lib, v, a, k) && id in a.archived && bytes == Lines(lib, a.archived[id])
    requires b == a.(log := b.log, segments := a.segments + {id})
    requires SegmentOf(b.log, k) == if k == id then a.archived[id] else SegmentOf(a.log, k)
    ensures ShelvedId(lib, v[Hot(id) := Ndjson(bytes)], b, k)
  {
  }

  lemma PutAside(lib: Library, v: Files, a: Shelves, id: Id, bytes: seq<Byte>, k: Id)
    requires ShelvedId(lib, v, a, k) && id in a.archived && bytes == Lines(lib, a.archived[id])
    ensures ShelvedId(lib, v[Restored(id) := Ndjson(bytes)], a.(aside := a.aside[id := a.archived[id]]), k)
  {
  }

  lemma RestoredLog(a: Shelves, id: Id, k: Id)
    requires id in a.archived
    ensures SegmentOf(Without(a.log, {id}) + EntriesFor(id, a.archived[id]), k)
            == if k == id then a.archived[id] else SegmentOf(a.log, k)
  {
    SegmentWithout(a.log, {id}, k);
    SegmentOfEntries(id, a.archived[id], k);
    SegmentConcat(Without(a.log, {id}), EntriesFor(id, a.archived[id]), k);
    assert [] + a.archived[id] == a.archived[id] && SegmentOf(a.log, k) + [] == SegmentOf(a.log, k);
  }

  lemma RestoreShelvedId(c: Settings, v: Files, a: Shelves, id: Id, opts: RestoreOptions, k: Id)
    requires Shelved(c, v, a)
    ensures ShelvedId(c.lib, RestoreResult(v, id, opts).0, RestoreDo(a, id, opts).0, k)
  {
    RestoreAgrees(c, v, a, id, opts);
    assert ShelvedId(c.lib, v, a, k) && ShelvedId(c.lib, v, a, id);
    if RestoreDo(a, id, opts).1 == None {
      var bytes := v[ArchiveData(id)].bytes;
      if !opts.toHot && opts.readOnly {
        PutAside(c.lib, v, a, id, bytes, k);
      } else {
        RestoredLog(a, id, k);
        PutHot(c.lib, v, a, RestoreDo(a, id, opts).0, id, bytes, k);
      }
    }
  }

  // --- The whole history --------------------------------------------------

  lemma ShelvedStep(c: Settings, v: Files, a: Shelves, op: Op)
    requires Shelved(c, v, a)
    ensures Shelved(c, FilesDo(c, v, op), ShelvesDo(c, a, op))
  {
    match op
    case WriteOp(batch, faults) =>
      WrittenDescribed(c.lib, v, batch[..Applied(c.lib, batch, faults, 0)], c.zone);
      forall id: Id ensures ShelvedId(c.lib, FilesDo(c, v, op), ShelvesDo(c, a, op), id) {
        assert ShelvedId(c.lib, v, a, id);
        WriteShelvedId(c.lib, v, a, batch, faults, id);
      }
    case ArchiveOp(before, now) =>
      ArchiveResultDescribed(v, before, now, c.retainDays, c.zone);
      forall id: Id ensures ShelvedId(c.lib, FilesDo(c, v, op), ShelvesDo(c, a, op), id) {
        ArchiveShelvedId(c, v, a, before, now, id);
      }
    case CutArchiveOp(before, now, upTo) =>
      var moved := MovedIds(a, before, c.zone) * upTo;
      MovedAre(c, v, a, before);
      ArchiveSetDescribed(v, moved, now, c.zone);
      forall id: Id ensures ShelvedId(c.lib, FilesDo(c, v, op), ShelvesDo(c, a, op), id) {
        assert ShelvedId(c.lib, v, a, id);
        CutShelvedId(c, v, a, moved, now, id);
      }
    case RestoreOp(id, opts) =>
      RestoreAgrees(c, v, a, id, opts);
      forall k: Id ensures ShelvedId(c.lib, FilesDo(c, v, op), ShelvesDo(c, a, op), k) {
        RestoreShelvedId(c, v, a, id, opts, k);
      }
  }

  lemma {:induction false} HistoryShelved(c: Settings, ops: seq<Op>)
    ensures Shelved(c, FilesAfterAll(c, ops), ShelvesAfterAll(c, ops))
    decreases |ops|
  {
    if ops != [] {
      HistoryShelved(c, ops[..|ops| - 1]);
      ShelvedStep(c, FilesAfterAll(c, ops[..|ops| - 1]), ShelvesAfterAll(c, ops[..|ops| - 1]), ops[|ops| - 1]);
    }
  }

  // Every signal whose encoding succeeds is within the scanner's limit.
  predicate Fits(lib: Library, ops: seq<Op>) {
    forall i, j | 0 <= i < |ops| && ops[i].WriteOp? && 0 <= j < |ops[i].batch| ::
      EncodeJSON(lib, ops[i].batch[j].ev).Some? ==> Storable(lib, ops[i].batch[j].ev)
  }

  predicate StorableAll(lib: Library, es: seq<Event>) {
    forall i | 0 <= i < |es| :: Storable(lib, es[i])
  }

  predicate StorableShelves(lib: Library, a: Shelves) {
    AllStorable(lib, a.log) && forall id | id in a.archived :: StorableAll(lib, a.archived[id])
  }

  lemma {:induction false} EntriesStorable(lib: Library, id: Id, es: seq<Event>)
    requires StorableAll(lib, es)
    ensures AllStorable(lib, EntriesFor(id, es))
    decreases |es|
  {
    if es != [] {
      EntriesStorable(lib, id, es[..|es| - 1]);
    }
  }

  lemma StorableStep(c: Settings, a: Shelves, op: Op)
    requires StorableShelves(c.lib, a) && Fits(c.lib, [op])
    ensures StorableShelves(c.lib, ShelvesDo(c, a, op))
  {
    match op
    case WriteOp(batch, faults) =>
      var n := Applied(c.lib, batch, faults, 0);
      assert [op][0] == op;
      assert forall j | 0 <= j < n :: Succeeds(c.lib, batch[j], faults(j)) && Storable(c.lib, batch[j].ev);
    case ArchiveOp(before, now) =>
      WithoutStorable(c.lib, a.log, MovedIds(a, before, c.zone));
      forall id ensures StorableAll(c.lib, SegmentOf(a.log, id)) {
        SegmentStorable(c.lib, a.log, id);
      }
    case CutArchiveOp(before, now, upTo) =>
      WithoutStorable(c.lib, a.log, MovedIds(a, before, c.zone) * upTo);
      forall id ensures StorableAll(c.lib, SegmentOf(a.log, id)) {
        SegmentStorable(c.lib, a.log, id);
      }
    case RestoreOp(id, opts) =>
      WithoutStorable(c.lib, a.log, {id});
      if id in a.archived {
        EntriesStorable(c.lib, id, a.archived[id]);
      }
  }

  lemma {:induction false} HistoryStorable(c: Settings, ops: seq<Op>)
    requires Fits(c.lib, ops)
    ensures StorableShelves(c.lib, ShelvesAfterAll(c, ops))
    decreases |ops|
  {
    if ops != [] {
      var m := |ops| - 1;
      HistoryStorable(c, ops[..m]);
      assert Fits(c.lib, [ops[m]]);
      StorableStep(c, ShelvesAfterAll(c, ops[..m]), ops[m]);
    }
  }

  // After any sequence of Writes, Archives and Restores from an empty store,
  // successful or cut short, Query answers from the hot shelf: a newest-first
  // permutation of its matching events, with their number as Total.
  lemma QueryAfterHistory(c: Settings, ops: seq<Op>, q: Query)
    requires c.lib.Valid() && Fits(c.lib, ops)
    ensures var v, a := FilesAfterAll(c, ops), ShelvesAfterAll(c, ops);
            && multiset(Results(c.lib, v, q)) == multiset(Answers(a.log, q))
            && NewestFirst(Results(c.lib, v, q))
            && QueryPage(c.lib, v, q).total == |Answers(a.log, q)|
  {
    var v, a := FilesAfterAll(c, ops), ShelvesAfterAll(c, ops);
    HistoryShelved(c, ops);
    HistoryStorable(c, ops);
    ShelvedRepresents(c, v, a);
    QueryRefinesLog(c.lib, v, a.log, q);
  }

  // And a Restore at that point succeeds or fails as the shelves say.
  lemma RestoreAfterHistory(c: Settings, ops: seq<Op>, id: Id, opts: RestoreOptions)
    ensures RestoreResult(FilesAfterAll(c, ops), id, opts).1 == RestoreDo(ShelvesAfterAll(c, ops), id, opts).1
  {
    HistoryShelved(c, ops);
    RestoreAgrees(c, FilesAfterAll(c, ops), ShelvesAfterAll(c, ops), id, opts);
  }

  // --- What is never lost -------------------------------------------------

  // All that Writes have appended.
  function WrittenBy(c: Settings, ops: seq<Op>): seq<Entry> {
    if ops == [] then []
    else
      var front, op := WrittenBy(c, ops[..|ops| - 1]), ops[|ops| - 1];
      if op.WriteOp? then front + op.batch[..Applied(c.lib, op.batch, op.faults, 0)] else front
  }

  // An Archive that truncates no archive and forgets none, a Restore that
  // replaces no segment.
  predicate Careful(c: Settings, a: Shelves, op: Op) {
    match op
    case WriteOp(_, _) => true
    case ArchiveOp(before, now) =>
      && (forall id | id in MovedIds(a, before, c.zone) :: id !in a.archived)
      && (forall id | id in a.archived.Keys + MovedIds(a, before, c.zone) :: !Forgotten(c, id, now))
    case CutArchiveOp(before, now, upTo) => forall id | id in MovedIds(a, before, c.zone) * upTo :: id !in a.archived
    case RestoreOp(id, opts) => id in a.segments && id in a.archived && opts.overwrite ==> !opts.toHot && opts.readOnly
  }

  predicate AllCareful(c: Settings, ops: seq<Op>) {
    ops == [] || (AllCareful(c, ops[..|ops| - 1])
                  && Careful(c, ShelvesAfterAll(c, ops[..|ops| - 1]), ops[|ops| - 1]))
  }

  function Shelf(a: Shelves, id: Id): multiset<Event> {
    multiset(SegmentOf(a.log, id)) + if id in a.archived then multiset(a.archived[id]) else multiset{}
  }

  // A segment that does not exist has no entries.
  predicate NoStray(a: Shelves, id: Id) {
    id !in a.segments ==> SegmentOf(a.log, id) == []
  }

  lemma {:induction false} SegmentOfIds(es: seq<Entry>, id: Id)
    ensures id !in Ids(es) ==> SegmentOf(es, id) == []
    decreases |es|
  {
    if es != [] {
      var m := |es| - 1;
      SegmentOfIds(es[..m], id);
      assert es == es[..m] + [es[m]];
      IdsSnoc(es[..m], es[m]);
    }
  }

  lemma CarefulWrite(c: Settings, a: Shelves, batch: seq<Entry>, faults: nat -> Fault, id: Id)
    requires NoStray(a, id)
    ensures var b, done := WriteDo(c.lib, a, batch, faults), batch[..Applied(c.lib, batch, faults, 0)];
            NoStray(b, id) && Shelf(b, id) == Shelf(a, id) + multiset(SegmentOf(done, id))
  {
    var done := batch[..Applied(c.lib, batch, faults, 0)];
    SegmentConcat(a.log, done, id);
    SegmentOfIds(done, id);
  }

  lemma CarefulStep(c: Settings, a: Shelves, op: Op, id: Id)
    requires Careful(c, a, op) && NoStray(a, id) && !op.WriteOp?
    ensures NoStray(ShelvesDo(c, a, op), id) && Shelf(a, id) <= Shelf(ShelvesDo(c, a, op), id)
  {
    match op
    case ArchiveOp(before, now) => SegmentWithout(a.log, MovedIds(a, before, c.zone), id);
    case CutArchiveOp(before, now, upTo) => SegmentWithout(a.log, MovedIds(a, before, c.zone) * upTo, id);
    case RestoreOp(k, opts) => CarefulRestore(a, k, opts, id);
  }

  lemma CarefulRestore(a: Shelves, k: Id, opts: RestoreOptions, id: Id)
    requires NoStray(a, id) && (k in a.segments && k in a.archived && opts.overwrite ==> !opts.toHot && opts.readOnly)
    ensures var b := RestoreDo(a, k, opts).0; NoStray(b, id) && Shelf(a, id) <= Shelf(b, id)
  {
    if k in a.archived {
      RestoredLog(a, k, id);
    }
  }

  // Then every signal ever written is still on a shelf, as often as it was
  // written.
  lemma {:induction false} CarefulHistoryKeeps(c: Settings, ops: seq<Op>, id: Id)
    requires AllCareful(c, ops)
    ensures NoStray(ShelvesAfterAll(c, ops), id)
    ensures multiset(SegmentOf(WrittenBy(c, ops), id)) <= Shelf(ShelvesAfterAll(c, ops), id)
    decreases |ops|
  {
    if ops != [] {
      var front, op := ops[..|ops| - 1], ops[|ops| - 1];
      CarefulHistoryKeeps(c, front, id);
      if op.WriteOp? {
        CarefulWrite(c, ShelvesAfterAll(c, front), op.batch, op.faults, id);
        SegmentConcat(WrittenBy(c, front), op.batch[..Applied(c.lib, op.batch, op.faults, 0)], id);
      } else {
        CarefulStep(c, ShelvesAfterAll(c, front), op, id);
      }
    }
  }
}
