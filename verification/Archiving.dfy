// Archive, pruneArchives and Restore of
// server/internal/output/filesystem/filesystem.go as functions of the files.
module Archiving {
  import opened Signals
  import opened Framing
  import opened Codec
  import opened Disks
  import opened StoreLog

  const KINDS := [KIND_LOG, KIND_METRIC, KIND_CONFIG, KIND_PROBE]

  // Midnight of a day in the server's zone.
  function DayStart(day: int, zone: int): Time {
    Time(day * NANOS_PER_DAY - zone, zone)
  }

  lemma DayOfStart(day: int, zone: int)
    ensures DayOf(DayStart(day, zone)) == day
  {
  }

  function InfoFor(id: Id, zone: int, now: Time): Info {
    var from := DayStart(id.day, zone);
    Info(id, ArchiveData(id), id.kind, from, from.(instant := from.instant + NANOS_PER_DAY - 1), now)
  }

  predicate Eligible(id: Id, before: Time, zone: int) {
    id.kind in KINDS && DayStart(id.day, zone).instant < before.instant
  }

  // The segments Archive(before) moves.
  function EligibleIds(v: Files, before: Time, zone: int): set<Id> {
    set p | p in v.Keys && p.Hot? && Eligible(p.id, before, zone) :: p.id
  }

  // One iteration of Archive: compress, describe, remove.
  function ArchiveOne(v: Files, id: Id, zone: int, now: Time): Files {
    v[ArchiveData(id) := Gzip(Bytes(v, Hot(id)))][ArchiveMeta(id) := Meta(InfoFor(id, zone, now))] - {Hot(id)}
  }

  // The files once the segments of `ids` have been moved.
  function ArchiveSet(v: Files, ids: set<Id>, zone: int, now: Time): Files {
    map p | p in v.Keys + (set i | i in ids :: ArchiveData(i)) + (set i | i in ids :: ArchiveMeta(i))
            && !(p.Hot? && p.id in ids) ::
      if p.ArchiveData? && p.id in ids then Gzip(Bytes(v, Hot(p.id)))
      else if p.ArchiveMeta? && p.id in ids then Meta(InfoFor(p.id, zone, now))
      else v[p]
  }

  // The ids of some kinds.
  function OfKinds(ids: set<Id>, kinds: seq<string>): set<Id> {
    set id | id in ids && id.kind in kinds
  }

  predicate DistinctKinds(kinds: seq<string>) {
    && (forall i | 0 <= i < |kinds| :: kinds[i] in KINDS)
    && (forall i, j | 0 <= i < j < |kinds| :: kinds[i] != kinds[j])
  }

  lemma NoKinds(ids: set<Id>, kinds: seq<string>)
    ensures OfKinds(ids, kinds[..0]) == {}
  {
  }

  lemma OfKindsStep(ids: set<Id>, kinds: seq<string>, k: nat)
    requires DistinctKinds(kinds) && k < |kinds|
    ensures kinds[k] in KINDS && forall id | id in OfKinds(ids, kinds[..k]) :: id.kind != kinds[k]
    ensures OfKinds(ids, kinds[..k + 1])
            == OfKinds(ids, kinds[..k]) + set id | id in ids && id.kind == kinds[k]
  {
    assert kinds[..k + 1] == kinds[..k] + [kinds[k]];
    assert forall i | 0 <= i < k :: kinds[..k][i] != kinds[k];
  }

  lemma AllKinds(v: Files, before: Time, zone: int)
    ensures DistinctKinds(KINDS)
    ensures var ids := EligibleIds(v, before, zone); OfKinds(ids, KINDS) == ids
  {
    assert KIND_LOG[0] == 'l' && KIND_METRIC[0] == 'm' && KIND_CONFIG[0] == 'c' && KIND_PROBE[0] == 'p';
  }

  // Listing a kind whose segments have not been touched yet shows the original
  // ones.
  lemma DaysLeft(v: Files, done: set<Id>, kind: string, zone: int, now: Time)
    requires forall id | id in done :: id.kind != kind
    ensures Days(ArchiveSet(v, done, zone, now), kind) == Days(v, kind)
    ensures forall d :: d in Days(v, kind) <==> Hot(Id(kind, d)) in v
  {
    var w := ArchiveSet(v, done, zone, now);
    DaysAre(v, kind);
    DaysAre(w, kind);
    forall d ensures d in Days(w, kind) <==> d in Days(v, kind) {
      ArchiveSetAt(v, done, zone, now, Hot(Id(kind, d)));
    }
  }

  lemma DaysAre(v: Files, kind: string)
    ensures forall d :: d in Days(v, kind) <==> Hot(Id(kind, d)) in v
  {
    forall d | Hot(Id(kind, d)) in v ensures d in Days(v, kind) {
      assert Hot(Id(kind, d)) in v.Keys;
    }
  }

  // What the loop over some days of a kind moves.
  function Moved(v: Files, before: Time, zone: int, kind: string, days: seq<int>): set<Id> {
    set id | id in EligibleIds(v, before, zone) && id.kind == kind && id.day in days
  }

  lemma MovedStep(v: Files, before: Time, zone: int, kind: string, days: seq<int>, i: nat)
    requires kind in KINDS && i < |days| && Hot(Id(kind, days[i])) in v
    requires forall j, k | 0 <= j < k < |days| :: days[j] < days[k]
    ensures var id := Id(kind, days[i]);
            && id !in Moved(v, before, zone, kind, days[..i])
            && Moved(v, before, zone, kind, days[..i + 1])
            == Moved(v, before, zone, kind, days[..i])
               + if DayStart(days[i], zone).instant < before.instant then {id} else {}
  {
    var id := Id(kind, days[i]);
    assert Hot(id) in v.Keys;
    assert days[..i + 1] == days[..i] + [days[i]];
    assert days[i] !in days[..i] by {
      assert forall j | 0 <= j < i :: days[j] < days[i];
    }
    assert id in EligibleIds(v, before, zone) <==> DayStart(days[i], zone).instant < before.instant;
  }

  lemma MovedAll(v: Files, before: Time, zone: int, kind: string, days: seq<int>)
    requires forall d :: Hot(Id(kind, d)) in v ==> d in days
    ensures Moved(v, before, zone, kind, days) == set id | id in EligibleIds(v, before, zone) && id.kind == kind
  {
    forall id | id in EligibleIds(v, before, zone) && id.kind == kind ensures id.day in days {
      assert Hot(Id(kind, id.day)) in v;
    }
  }

  lemma MovedSome(v: Files, before: Time, zone: int, kind: string, days: seq<int>, i: nat)
    requires i <= |days|
    ensures Moved(v, before, zone, kind, days[..i]) <= Moved(v, before, zone, kind, days)
  {
  }

  lemma OfKindsSome(ids: set<Id>, kinds: seq<string>, k: nat)
    requires k <= |kinds|
    ensures OfKinds(ids, kinds[..k]) <= OfKinds(ids, kinds)
  {
  }

  lemma ArchiveSetEmpty(v: Files, zone: int, now: Time)
    ensures ArchiveSet(v, {}, zone, now) == v
  {
    var w := ArchiveSet(v, {}, zone, now);
    forall p ensures (p in w <==> p in v) && (p in v ==> w[p] == v[p]) {
      ArchiveSetAt(v, {}, zone, now, p);
    }
  }

  lemma ArchiveSetGrows(v: Files, ids: set<Id>, id: Id, zone: int, now: Time)
    requires id !in ids
    ensures ArchiveSet(v, ids + {id}, zone, now) == ArchiveOne(ArchiveSet(v, ids, zone, now), id, zone, now)
  {
    var more := ids + {id};
    var w := ArchiveSet(v, ids, zone, now);
    var a, b := ArchiveSet(v, more, zone, now), ArchiveOne(w, id, zone, now);
    assert Bytes(w, Hot(id)) == Bytes(v, Hot(id));
    forall p ensures (p in a <==> p in b) && (p in a ==> a[p] == b[p]) {
      ArchiveSetAt(v, ids, zone, now, p);
      ArchiveSetAt(v, more, zone, now, p);
    }
  }

  // ArchiveSet file by file.
  lemma ArchiveSetAt(v: Files, ids: set<Id>, zone: int, now: Time, p: Path)
    ensures var w := ArchiveSet(v, ids, zone, now);
            && (p.id in ids ==>
                  match p
                  case Hot(_) => p !in w
                  case ArchiveData(id) => p in w && w[p] == Gzip(Bytes(v, Hot(id)))
                  case ArchiveMeta(id) => p in w && w[p] == Meta(InfoFor(id, zone, now))
                  case Restored(_) => (p in w <==> p in v) && (p in v ==> w[p] == v[p]))
            && (p.id !in ids ==> (p in w <==> p in v) && (p in v ==> w[p] == v[p]))
  {
  }

  // The descriptions Archive writes.
  ghost predicate Described(v: Files, zone: int) {
    && (forall id: Id | ArchiveMeta(id) in v ::
          && v[ArchiveMeta(id)].Meta?
          && var i := v[ArchiveMeta(id)].info;
             i.id == id && i.path == ArchiveData(id) && i.kind == id.kind && i.from == DayStart(id.day, zone))
    && (forall id: Id | ArchiveData(id) in v :: v[ArchiveData(id)].Gzip?)
    && (forall id: Id | Hot(id) in v :: v[Hot(id)].Ndjson?)
  }

  lemma ArchiveOneDescribed(v: Files, id: Id, zone: int, now: Time)
    requires Described(v, zone)
    ensures Described(ArchiveOne(v, id, zone, now), zone)
  {
  }

  // The archives whose day begins before the cutoff.
  function OldIds(v: Files, cutoff: Time): set<Id> {
    set p | p in v.Keys && p.ArchiveMeta? && v[p].Meta? && v[p].info.from.instant < cutoff.instant :: p.id
  }

  function PruneOne(v: Files, info: Info): Files {
    v - {info.path} - {ArchiveMeta(info.id)}
  }

  function PruneSet(v: Files, ids: set<Id>): Files {
    map p | p in v.Keys && !((p.ArchiveData? || p.ArchiveMeta?) && p.id in ids) :: v[p]
  }

  lemma PruneSetDescribed(v: Files, ids: set<Id>, zone: int)
    requires Described(v, zone)
    ensures Described(PruneSet(v, ids), zone)
  {
  }

  lemma PruneSetGrows(v: Files, ids: set<Id>, info: Info)
    requires info.path == ArchiveData(info.id)
    ensures PruneSet(v, ids + {info.id}) == PruneOne(PruneSet(v, ids), info)
  {
  }

  function Cutoff(now: Time, retainDays: int): Time {
    now.(instant := now.instant - retainDays * NANOS_PER_DAY)
  }

  function ArchiveResult(v: Files, before: Time, now: Time, retainDays: int, zone: int): Files {
    var a := ArchiveSet(v, EligibleIds(v, before, zone), zone, now);
    if retainDays > 0 then PruneSet(a, OldIds(a, Cutoff(now, retainDays))) else a
  }

  // Retention removes the archive of this id at the end of Archive.
  predicate PrunedAway(v: Files, id: Id, before: Time, now: Time, retainDays: int, zone: int) {
    var a := ArchiveSet(v, EligibleIds(v, before, zone), zone, now);
    retainDays > 0 && id in OldIds(a, Cutoff(now, retainDays))
  }

  // For the descriptions Archive writes that is decided by the day: it began
  // more than so many days ago, and the segment is moved now or was before.
  lemma PrunedAwayIff(v: Files, id: Id, before: Time, now: Time, retainDays: int, zone: int)
    requires Described(v, zone)
    ensures PrunedAway(v, id, before, now, retainDays, zone)
            <==> && retainDays > 0
                 && DayStart(id.day, zone).instant + retainDays * NANOS_PER_DAY < now.instant
                 && (id in EligibleIds(v, before, zone) || ArchiveMeta(id) in v)
  {
    var ids := EligibleIds(v, before, zone);
    var a := ArchiveSet(v, ids, zone, now);
    ArchiveSetAt(v, ids, zone, now, ArchiveMeta(id));
    assert ArchiveMeta(id) in a <==> ArchiveMeta(id) in a.Keys;
    assert id in OldIds(a, Cutoff(now, retainDays))
        <==> ArchiveMeta(id) in a && a[ArchiveMeta(id)].Meta?
             && a[ArchiveMeta(id)].info.from.instant < Cutoff(now, retainDays).instant;
  }

  // All the store holds of one segment.
  function Combined(v: Files, id: Id): seq<Byte> {
    Bytes(v, ArchiveData(id)) + Bytes(v, Hot(id))
  }

  // Moving a set of segments, all the eligible ones or those before the first
  // failure, keeps it exactly when no non-empty archive is truncated.
  lemma MovingConserves(v: Files, ids: set<Id>, id: Id, zone: int, now: Time)
    ensures Combined(ArchiveSet(v, ids, zone, now), id) == Combined(v, id)
            <==> (id in ids ==> Bytes(v, ArchiveData(id)) == [])
  {
    ArchiveSetAt(v, ids, zone, now, Hot(id));
    ArchiveSetAt(v, ids, zone, now, ArchiveData(id));
    var was, hot := Bytes(v, ArchiveData(id)), Bytes(v, Hot(id));
    assert |was + hot| == |was| + |hot|;
    assert was == [] ==> was + hot == hot;
  }

  // Archive keeps what it holds of a segment exactly when it neither truncates
  // a non-empty archive of the same id nor prunes a non-empty one.
  lemma ArchiveConserves(v: Files, id: Id, before: Time, now: Time, retainDays: int, zone: int)
    requires Described(v, zone)
    ensures var moved := id in EligibleIds(v, before, zone);
            var was, hot := Bytes(v, ArchiveData(id)), Bytes(v, Hot(id));
            var pruned := PrunedAway(v, id, before, now, retainDays, zone);
            Combined(ArchiveResult(v, before, now, retainDays, zone), id) == Combined(v, id)
            <==> (moved ==> was == []) && (pruned ==> if moved then hot == [] else was == [])
  {
    var ids := EligibleIds(v, before, zone);
    var a := ArchiveSet(v, ids, zone, now);
    var r := ArchiveResult(v, before, now, retainDays, zone);
    var was, hot := Bytes(v, ArchiveData(id)), Bytes(v, Hot(id));
    assert id in ids ==> Combined(a, id) == hot && Bytes(a, Hot(id)) == [] && |was + hot| == |was| + |hot|;
    assert id !in ids ==> Bytes(a, ArchiveData(id)) == was && Bytes(a, Hot(id)) == hot;
    if PrunedAway(v, id, before, now, retainDays, zone) {
      assert Bytes(r, ArchiveData(id)) == [] && Bytes(r, Hot(id)) == Bytes(a, Hot(id));
      assert Combined(r, id) == Bytes(a, Hot(id));
    } else {
      assert Combined(r, id) == Combined(a, id);
    }
    assert was == [] ==> was + hot == hot;
    assert |Combined(v, id)| == |was| + |hot|;
  }

  // --- Restore ------------------------------------------------------------

  datatype RestoreOptions = RestoreOptions(toHot: bool, readOnly: bool, overwrite: bool)

  datatype RestoreError = NoArchive | TargetExists(path: Path)

  // Where Restore writes: beside the archives only when it is told ReadOnly
  // and not ToHot, and into the hot segment in the other three cases.
  function Target(info: Info, opts: RestoreOptions): Path {
    var id := Id(OrLog(info.kind), DayOf(info.from));
    if !opts.toHot && opts.readOnly then Restored(id) else Hot(id)
  }

  function RestoreResult(v: Files, id: Id, opts: RestoreOptions): (Files, Option<RestoreError>) {
    if ArchiveMeta(id) !in v || !v[ArchiveMeta(id)].Meta? then (v, Some(NoArchive))
    else
      var dst := Target(v[ArchiveMeta(id)].info, opts);
      if dst in v && !opts.overwrite then (v, Some(TargetExists(dst)))
      else if ArchiveData(id) !in v || !v[ArchiveData(id)].Gzip? then (v, Some(NoArchive))
      else (v[dst := Ndjson(v[ArchiveData(id)].bytes)], None)
  }

  // An archived segment that retention spared comes back exactly, at its
  // original path, with any options that lead to the hot segment, and nothing
  // else changes.
  lemma RestoreInvertsArchive(v: Files, id: Id, before: Time, now: Time, retainDays: int, zone: int,
                              opts: RestoreOptions)
    requires Described(v, zone)
    requires id in EligibleIds(v, before, zone) && !PrunedAway(v, id, before, now, retainDays, zone)
    requires opts.toHot || !opts.readOnly
    ensures var w := ArchiveResult(v, before, now, retainDays, zone);
            Hot(id) in v && Hot(id) !in w && RestoreResult(w, id, opts) == (w[Hot(id) := v[Hot(id)]], None)
  {
    var w := ArchiveResult(v, before, now, retainDays, zone);
    DayOfStart(id.day, zone);
    assert id.kind != "" by {
      assert forall k | k in KINDS :: k != "";
    }
    ArchivedFiles(v, id, before, now, retainDays, zone);
    assert Target(w[ArchiveMeta(id)].info, opts) == Hot(id);
  }

  lemma ArchivedFiles(v: Files, id: Id, before: Time, now: Time, retainDays: int, zone: int)
    requires Described(v, zone)
    requires id in EligibleIds(v, before, zone) && !PrunedAway(v, id, before, now, retainDays, zone)
    ensures var w := ArchiveResult(v, before, now, retainDays, zone);
            && Hot(id) in v && v[Hot(id)].Ndjson? && Hot(id) !in w
            && ArchiveMeta(id) in w && w[ArchiveMeta(id)] == Meta(InfoFor(id, zone, now))
            && ArchiveData(id) in w && w[ArchiveData(id)] == Gzip(v[Hot(id)].bytes)
  {
    var ids := EligibleIds(v, before, zone);
    ArchiveSetAt(v, ids, zone, now, Hot(id));
    ArchiveSetAt(v, ids, zone, now, ArchiveData(id));
    ArchiveSetAt(v, ids, zone, now, ArchiveMeta(id));
  }

  // Without Overwrite no existing file is altered, whatever else holds.
  lemma RestoreKeepsExisting(v: Files, id: Id, opts: RestoreOptions)
    requires !opts.overwrite
    ensures forall p | p in v :: p in RestoreResult(v, id, opts).0 && RestoreResult(v, id, opts).0[p] == v[p]
  {
  }

  // With it the hot segment becomes the archive's content, whatever it was.
  lemma OverwriteReplaces(v: Files, id: Id, opts: RestoreOptions, zone: int)
    requires Described(v, zone) && opts.overwrite && (opts.toHot || !opts.readOnly) && id.kind != ""
    requires ArchiveMeta(id) in v && ArchiveData(id) in v
    ensures var (r, err) := RestoreResult(v, id, opts);
            && err == None
            && Bytes(r, Hot(id)) == Bytes(v, ArchiveData(id))
            && forall p | p != Hot(id) :: (p in r <==> p in v) && (p in v ==> r[p] == v[p])
  {
    DayOfStart(id.day, zone);
  }

  // --- What Query sees of it ----------------------------------------------

  // A log without the entries of some segments.
  function Without(log: seq<Entry>, gone: set<Id>): seq<Entry> {
    if log == [] then []
    else
      var e := log[|log| - 1];
      Without(log[..|log| - 1], gone) + if e.id in gone then [] else [e]
  }

  lemma {:induction false} SegmentWithout(log: seq<Entry>, gone: set<Id>, id: Id)
    ensures SegmentOf(Without(log, gone), id) == if id in gone then [] else SegmentOf(log, id)
    decreases |log|
  {
    if log != [] {
      var front, e := log[..|log| - 1], log[|log| - 1];
      var rest := Without(front, gone);
      SegmentWithout(front, gone, id);
      if e.id in gone {
        assert rest + [] == rest && SegmentOf(front, id) + [] == SegmentOf(front, id);
      } else {
        assert (rest + [e])[..|rest|] == rest;
      }
    }
  }

  // Archive hides the entries of the segments it moves, and no others.
  lemma ArchiveHides(lib: Library, v: Files, log: seq<Entry>, before: Time, now: Time, retainDays: int, zone: int)
    requires Represents(lib, v, log)
    ensures Represents(lib, ArchiveResult(v, before, now, retainDays, zone), Without(log, EligibleIds(v, before, zone)))
  {
    var ids := EligibleIds(v, before, zone);
    var w := ArchiveResult(v, before, now, retainDays, zone);
    forall id: Id ensures Bytes(w, Hot(id)) == Lines(lib, SegmentOf(Without(log, ids), id)) {
      SegmentWithout(log, ids, id);
      ArchiveSetAt(v, ids, zone, now, Hot(id));
      assert Bytes(v, Hot(id)) == Lines(lib, SegmentOf(log, id));
    }
  }

  // Restoring one of them shows its entries again.
  lemma RestoreReveals(lib: Library, v: Files, log: seq<Entry>, id: Id, before: Time, now: Time, retainDays: int,
                       zone: int, opts: RestoreOptions)
    requires Represents(lib, v, log) && Described(v, zone)
    requires id in EligibleIds(v, before, zone) && !PrunedAway(v, id, before, now, retainDays, zone)
    requires opts.toHot || !opts.readOnly
    ensures var ids := EligibleIds(v, before, zone);
            var r := RestoreResult(ArchiveResult(v, before, now, retainDays, zone), id, opts).0;
            Represents(lib, r, Without(log, ids - {id}))
  {
    var ids := EligibleIds(v, before, zone);
    var w := ArchiveResult(v, before, now, retainDays, zone);
    RestoreInvertsArchive(v, id, before, now, retainDays, zone, opts);
    ArchiveHides(lib, v, log, before, now, retainDays, zone);
    var r := w[Hot(id) := v[Hot(id)]];
    forall k: Id ensures Bytes(r, Hot(k)) == Lines(lib, SegmentOf(Without(log, ids - {id}), k)) {
      RevealsOne(lib, v, w, log, ids, id, k);
    }
  }

  // Of the segments hidden in w, the one put back is as it was in v.
  lemma RevealsOne(lib: Library, v: Files, w: Files, log: seq<Entry>, ids: set<Id>, id: Id, k: Id)
    requires id in ids && Hot(id) in v
    requires Bytes(v, Hot(k)) == Lines(lib, SegmentOf(log, k))
    requires Bytes(w, Hot(k)) == Lines(lib, SegmentOf(Without(log, ids), k))
    ensures Bytes(w[Hot(id) := v[Hot(id)]], Hot(k)) == Lines(lib, SegmentOf(Without(log, ids - {id}), k))
  {
    SegmentWithout(log, ids - {id}, k);
    SegmentWithout(log, ids, k);
  }

  // Query after Archive answers from the log without the archived segments.
  lemma QueryAfterArchive(lib: Library, v: Files, log: seq<Entry>, before: Time, now: Time, retainDays: int, zone: int,
                          q: Query)
    requires lib.Valid() && Represents(lib, v, log) && AllStorable(lib, log)
    ensures var w := ArchiveResult(v, before, now, retainDays, zone);
            multiset(Results(lib, w, q)) == multiset(Answers(Without(log, EligibleIds(v, before, zone)), q))
  {
    var ids := EligibleIds(v, before, zone);
    ArchiveHides(lib, v, log, before, now, retainDays, zone);
    WithoutStorable(lib, log, ids);
    QueryRefinesLog(lib, ArchiveResult(v, before, now, retainDays, zone), Without(log, ids), q);
  }

  lemma {:induction false} WithoutStorable(lib: Library, log: seq<Entry>, gone: set<Id>)
    requires AllStorable(lib, log)
    ensures AllStorable(lib, Without(log, gone))
    decreases |log|
  {
    if log != [] {
      WithoutStorable(lib, log[..|log| - 1], gone);
    }
  }

  // --- Which segment, which day -------------------------------------------

  // Archive at midnight moves exactly the signals of the store's kinds dated
  // before it, whenever they were written.
  lemma MovesWhatIsDatedBefore(sig: Event, clock: Time, d: int, zone: int)
    requires !sig.time.IsZero() && sig.time.offset == zone
    ensures Eligible(EntryOf(sig, clock).id, DayStart(d, zone), zone)
            <==> (if sig.kind == "" then "log" else sig.kind) in ["log", "metric", "config", "probe"]
                 && sig.time.instant < DayStart(d, zone).instant
  {
  }

  // The clock dates a signal that has no date.
  lemma UndatedAsNow(sig: Event, now: Time)
    requires sig.time.IsZero() && !now.IsZero()
    ensures EntryOf(sig, now).id == EntryOf(sig.(time := now), now).id
  {
  }

  // A description covers exactly the instants of its day, 24 hours less a
  // nanosecond.
  lemma InfoCoversDay(id: Id, zone: int, now: Time, x: int)
    ensures var i := InfoFor(id, zone, now);
            && (DayOf(Time(x, zone)) == id.day <==> i.from.instant <= x <= i.to.instant)
            && i.to.instant - i.from.instant == 24 * 60 * 60 * 1_000_000_000 - 1
            && i.id == id && i.kind == id.kind && i.path == ArchiveData(id) && i.createdAt == now
  {
  }
}
