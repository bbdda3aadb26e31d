// server/internal/output/filesystem/filesystem.go: the output itself, its
// methods run one at a time, as its mutex makes those that take it.
module Store {
  import opened Signals
  import opened Framing
  import opened Codec
  import opened Disks
  import opened Batching
  import opened Paging
  import opened StoreLog
  import opened Archiving

  datatype WriteError = OpenFailed | EncodeFailed | AppendFailed

  function EntriesOf(batch: seq<Event>, clock: nat -> Time): (es: seq<Entry>)
    ensures |es| == |batch| && forall i | 0 <= i < |es| :: es[i] == EntryOf(batch[i], clock(i))
  {
    seq(|batch|, i requires 0 <= i < |batch| => EntryOf(batch[i], clock(i)))
  }

  // Newest first, as ListArchives sorts.
  predicate LatestFirst(infos: seq<Info>) {
    forall i, j | 0 <= i < j < |infos| :: infos[i].from.instant >= infos[j].from.instant
  }

  function InfosOf(v: Files): set<Info> {
    set p | p in v.Keys && p.ArchiveMeta? && v[p].Meta? :: v[p].info
  }

  // The ids of those in a list that begin before the cutoff.
  function OldOf(list: seq<Info>, cutoff: Time): set<Id> {
    set i | i in list && i.from.instant < cutoff.instant :: i.id
  }

  lemma InsertSorted(infos: seq<Info>, info: Info, k: nat)
    requires LatestFirst(infos) && k <= |infos|
    requires forall j | 0 <= j < k :: infos[j].from.instant >= info.from.instant
    requires k < |infos| ==> infos[k].from.instant <= info.from.instant
    ensures LatestFirst(infos[..k] + [info] + infos[k..])
  {
    var r := infos[..k] + [info] + infos[k..];
    assert forall j | k <= j < |infos| :: infos[j].from.instant <= info.from.instant;
    forall i, j | 0 <= i < j < |r| ensures r[i].from.instant >= r[j].from.instant {
      assert r[i] == if i < k then infos[i] else if i == k then info else infos[i - 1];
      assert r[j] == if j < k then infos[j] else if j == k then info else infos[j - 1];
    }
  }

  method Insert(infos: seq<Info>, info: Info) returns (r: seq<Info>)
    requires LatestFirst(infos)
    ensures LatestFirst(r) && multiset(r) == multiset(infos) + multiset{info}
  {
    var k := 0;
    while k < |infos| && infos[k].from.instant >= info.from.instant
      invariant k <= |infos|
      invariant forall j | 0 <= j < k :: infos[j].from.instant >= info.from.instant
    {
      k := k + 1;
    }
    var front, back := infos[..k], infos[k..];
    assert infos == front + back;
    r := front + [info] + back;
    InsertSorted(infos, info, k);
    assert multiset(r) == multiset(front) + multiset{info} + multiset(back);
  }

  method Sorted(all: set<Info>) returns (infos: seq<Info>)
    ensures multiset(infos) == multiset(all) && LatestFirst(infos)
  {
    var todo := all;
    infos := [];
    while todo != {}
      invariant todo <= all && multiset(infos) == multiset(all - todo) && LatestFirst(infos)
      decreases todo
    {
      var info :| info in todo;
      infos := Insert(infos, info);
      assert all - (todo - {info}) == (all - todo) + {info};
      todo := todo - {info};
    }
    assert all - todo == all;
  }

  lemma OldOfStep(list: seq<Info>, cutoff: Time, i: nat)
    requires i < |list|
    ensures OldOf(list[..i + 1], cutoff)
            == OldOf(list[..i], cutoff) + if list[i].from.instant < cutoff.instant then {list[i].id} else {}
    ensures OldOf(list[..i], cutoff) + {} == OldOf(list[..i], cutoff)
  {
    assert list[..i + 1] == list[..i] + [list[i]];
  }

  lemma PruneSetEmpty(v: Files)
    ensures forall cutoff :: OldOf([], cutoff) == {} && PruneSet(v, {}) == v
  {
  }

  class Output {
    const lib: Library
    const zone: int
    const retainDays: int
    var disk: Disk
    // The open handles by path.
    var files: map<Path, nat>

    // Every handle leads to the file its path names, so there is one for each.
    ghost predicate Valid()
      reads this
    {
      && disk.Valid()
      && Described(disk.View(), zone)
      && forall p | p in files :: p.Hot? && p in disk.dir && disk.dir[p] == files[p]
    }

    ghost function View(): Files
      reads this
    {
      disk.View()
    }

    constructor (lib: Library, zone: int, retainDays: int)
      ensures Valid() && View() == map[] && files == map[]
      ensures this.lib == lib && this.zone == zone && this.retainDays == retainDays
    {
      this.lib := lib;
      this.zone := zone;
      this.retainDays := retainDays;
      disk, files := EMPTY_DISK, map[];
    }

    method OpenLocked(p: Path) returns (inode: nat)
      requires Valid() && p.Hot?
      modifies this`disk, this`files
      ensures Valid() && p in files && files[p] == inode
      ensures View() == Touched(old(View()), p)
      ensures forall q | q in old(files) :: q in files
    {
      if p in files {
        assert p in View();
        return files[p];
      }
      disk.OpenAppendView(p);
      var (d, n) := disk.OpenAppend(p);
      assert d.dir == disk.dir[p := n];
      disk := d;
      files := files[p := n];
      return n;
    }

    // All or nothing.
    method AppendLine(p: Path, inode: nat, line: seq<Byte>)
      requires Valid() && p in files && files[p] == inode
      modifies this`disk
      ensures Valid()
      ensures View() == old(View())[p := Ndjson(Bytes(old(View()), p) + line)]
    {
      disk.AppendView(p, line);
      disk := disk.Append(inode, line);
    }

    method WriteOne(sig: Event, now: Time, fault: Fault) returns (err: Option<WriteError>)
      requires Valid()
      modifies this`disk, this`files
      ensures Valid() && (forall q | q in old(files) :: q in files)
      ensures err == None <==> Succeeds(lib, EntryOf(sig, now), fault)
      ensures View() == if err == None then Appended(lib, old(View()), EntryOf(sig, now))
                        else if fault == OpenFault then old(View())
                        else Touched(old(View()), Hot(EntryOf(sig, now).id))
    {
      var p := Hot(EntryOf(sig, now).id);
      if fault == OpenFault {
        return Some(OpenFailed);
      }
      var f := OpenLocked(p);
      var b := EncodeJSON(lib, sig);
      if b.None? {
        return Some(EncodeFailed);
      }
      if fault == AppendFault {
        return Some(AppendFailed);
      }
      AppendLine(p, f, b.value + [NEWLINE]);
      TouchedAppended(old(View()), EntryOf(sig, now));
      return None;
    }

    lemma TouchedAppended(v: Files, e: Entry)
      ensures var w := Touched(v, Hot(e.id));
              w[Hot(e.id) := Ndjson(Bytes(w, Hot(e.id)) + Line(lib, e.ev))] == Appended(lib, v, e)
    {
    }

    method Write(batch: seq<Event>, clock: nat -> Time, faults: nat -> Fault) returns (err: Option<WriteError>)
      requires Valid()
      modifies this`disk, this`files
      ensures Valid()
      ensures View() == AfterWrite(lib, old(View()), EntriesOf(batch, clock), faults)
      ensures err == None <==> Applied(lib, EntriesOf(batch, clock), faults, 0) == |batch|
      ensures forall q | q in old(files) :: q in files
    {
      ghost var es := EntriesOf(batch, clock);
      for i := 0 to |batch|
        invariant Valid()
        invariant View() == Written(lib, old(View()), es[..i])
        invariant Applied(lib, es, faults, 0) == Applied(lib, es, faults, i)
        invariant forall q | q in old(files) :: q in files
      {
        err := WriteOne(batch[i], clock(i), faults(i));
        AfterWriteIs(lib, old(View()), es, faults, i);
        if err.Some? {
          return;
        }
        WrittenStep(lib, old(View()), es, i);
      }
      assert es[..|batch|] == es;
      return None;
    }

    // The scan of one segment: adds its hits to the items found so far.
    method ScanSegment(q: Query, content: seq<Byte>, before: seq<Event>) returns (items: seq<Event>)
      ensures items == before + Hits(lib, q, Scan(content))
    {
      items := before;
      var rest := content;
      ghost var seen: seq<seq<Byte>> := [];
      assert before + [] == before;
      while rest != [] && LineLength(rest) < MAX_LINE
        invariant items == before + Hits(lib, q, seen)
        invariant Scan(content) == seen + Scan(rest)
        decreases |rest|
      {
        var n := LineLength(rest);
        ScanStep(rest);
        ghost var left := Scan(if n < |rest| then rest[n + 1..] else []);
        var line := DropReturn(rest[..n]);
        var ev, _ := DecodeJSON(lib, line);
        HitsSnoc(lib, q, seen, line);
        if ev.Some? && MatchQuery(q, ev.value) {
          items := items + [ev.value];
        }
        Assoc(seen, [line], left);
        Assoc(before, Hits(lib, q, seen), if ev.Some? && MatchQuery(q, ev.value) then [ev.value] else []);
        seen := seen + [line];
        rest := if n < |rest| then rest[n + 1..] else [];
      }
      assert seen + [] == seen;
    }

    method RunQuery(q: Query) returns (page: Page<Event>)
      requires Valid()
      ensures page == QueryPage(lib, View(), q)
    {
      var items := Collect(q);
      page := TakePage(SortedLater(lib, items), q.offset, q.limit);
    }

    // The segments of the kind, the last day first.
    method Collect(q: Query) returns (items: seq<Event>)
      requires Valid()
      ensures items == Collected(lib, View(), q, Ascending(Days(View(), OrLog(q.kind))))
    {
      var kind := OrLog(q.kind);
      var days := Ascending(Days(disk.View(), kind));
      items := [];
      var i: nat := |days|;
      assert days[..|days|] == days;
      while i > 0
        invariant i <= |days|
        invariant items + Collected(lib, View(), q, days[..i]) == Collected(lib, View(), q, days)
      {
        i := i - 1;
        var p := Hot(Id(kind, days[i]));
        CollectedStep(lib, View(), q, days, i);
        Assoc(items, Hits(lib, q, Scan(Bytes(View(), p))), Collected(lib, View(), q, days[..i]));
        items := ScanSegment(q, Bytes(disk.View(), p), items);
      }
      assert items + [] == items;
    }

    method TakePage(all: seq<Event>, offset: int, limit: int) returns (page: Page<Event>)
      ensures page == Paged(all, offset, limit)
    {
      var items := all;
      var total := |items|;
      if offset > 0 && offset < |items| {
        items := items[offset..];
      } else if offset >= |items| {
        items := [];
      }
      var n := limit;
      if n <= 0 {
        n := 100;
      }
      var hasMore := |items| > n;
      if hasMore {
        items := items[..n];
      }
      return Page(total, items, hasMore);
    }

    // Compress, describe, remove; or give up if the segment cannot be read or
    // the archive not created.
    method ArchiveSegment(id: Id, now: Time, fails: bool) returns (ok: bool)
      requires Valid() && files == map[]
      modifies this`disk
      ensures Valid() && ok == !fails
      ensures View() == if ok then ArchiveOne(old(View()), id, zone, now) else old(View())
    {
      if fails {
        return false;
      }
      ArchiveOneDescribed(View(), id, zone, now);
      var data, meta := Gzip(Bytes(disk.View(), Hot(id))), Meta(InfoFor(id, zone, now));
      disk.CreateView(ArchiveData(id), data);
      var d := disk.Create(ArchiveData(id), data);
      d.CreateView(ArchiveMeta(id), meta);
      d := d.Create(ArchiveMeta(id), meta);
      d.RemoveView(Hot(id));
      disk := d.Remove(Hot(id));
      return true;
    }

    // What Archive has done so far, given that v was there when it began and
    // that it was to do the segments of `all`: it has moved `moved` of them,
    // and stopped at one that failed if there is an error.
    ghost predicate Progress(v: Files, all: set<Id>, moved: set<Id>, fails: Id -> bool, err: Option<Id>, now: Time)
      reads this
    {
      && View() == ArchiveSet(v, moved, zone, now) && moved <= all
      && (forall id | id in moved :: !fails(id))
      && (if err.None? then moved == all else err.value in all && fails(err.value))
    }

    // An error stays one when there is more to do.
    lemma Widen(v: Files, all: set<Id>, more: set<Id>, moved: set<Id>, fails: Id -> bool, err: Option<Id>, now: Time)
      requires Progress(v, all, moved, fails, err, now) && err.Some? && all <= more
      ensures Progress(v, more, moved, fails, err, now)
    {
    }

    // One directory entry: moved if its day begins before the cutoff.
    method ArchiveDay(id: Id, before: Time, now: Time, fails: Id -> bool, ghost v: Files, ghost all: set<Id>)
      returns (err: Option<Id>, ghost moved: set<Id>)
      requires Valid() && files == map[] && id !in all && Progress(v, all, all, fails, None, now)
      modifies this`disk
      ensures Valid()
      ensures Progress(v, all + (if DayStart(id.day, zone).instant < before.instant then {id} else {}), moved, fails,
                       err, now)
    {
      if DayStart(id.day, zone).instant < before.instant {
        ArchiveSetGrows(v, all, id, zone, now);
        var ok := ArchiveSegment(id, now, fails(id));
        if ok {
          return None, all + {id};
        }
        return Some(id), all;
      }
      assert all + {} == all;
      return None, all;
    }

    // The segments of `done` and of the first i days of a kind have been moved.
    ghost predicate DaysDone(v: Files, before: Time, kind: string, days: seq<int>, i: nat, done: set<Id>,
                             fails: Id -> bool, now: Time)
      requires i <= |days|
      reads this
    {
      var all := done + Moved(v, before, zone, kind, days[..i]);
      Valid() && files == map[] && Progress(v, all, all, fails, None, now)
    }

    // The entries of one directory.
    method ArchiveDays(kind: string, days: seq<int>, before: Time, now: Time, fails: Id -> bool,
                       ghost v: Files, ghost done: set<Id>)
      returns (err: Option<Id>, ghost moved: set<Id>)
      requires Valid() && files == map[] && kind in KINDS
      requires forall i, j | 0 <= i < j < |days| :: days[i] < days[j]
      requires forall i | 0 <= i < |days| :: Hot(Id(kind, days[i])) in v
      requires Progress(v, done, done, fails, None, now) && forall id | id in done :: id.kind != kind
      modifies this`disk
      ensures Valid() && Progress(v, done + Moved(v, before, zone, kind, days), moved, fails, err, now)
    {
      assert done + Moved(v, before, zone, kind, days[..0]) == done;
      for i := 0 to |days|
        invariant DaysDone(v, before, kind, days, i, done, fails, now)
      {
        err, moved := NextDay(kind, days, i, before, now, fails, v, done);
        if err.Some? {
          return;
        }
      }
      assert days[..|days|] == days;
      return None, done + Moved(v, before, zone, kind, days);
    }

    method NextDay(kind: string, days: seq<int>, i: nat, before: Time, now: Time, fails: Id -> bool,
                   ghost v: Files, ghost done: set<Id>)
      returns (err: Option<Id>, ghost moved: set<Id>)
      requires kind in KINDS && i < |days| && Hot(Id(kind, days[i])) in v
      requires forall j, k | 0 <= j < k < |days| :: days[j] < days[k]
      requires DaysDone(v, before, kind, days, i, done, fails, now) && forall id | id in done :: id.kind != kind
      modifies this`disk
      ensures err == None ==> DaysDone(v, before, kind, days, i + 1, done, fails, now)
      ensures err != None ==>
                Valid() && Progress(v, done + Moved(v, before, zone, kind, days), moved, fails, err, now)
    {
      ghost var moving := Moved(v, before, zone, kind, days[..i]);
      ghost var more := if DayStart(days[i], zone).instant < before.instant then {Id(kind, days[i])} else {};
      MovedStep(v, before, zone, kind, days, i);
      Regroup(done, moving, more);
      err, moved := ArchiveDay(Id(kind, days[i]), before, now, fails, v, done + moving);
      if err.Some? {
        MovedSome(v, before, zone, kind, days, i + 1);
        Widen(v, done + moving + more, done + Moved(v, before, zone, kind, days), moved, fails, err, now);
      }
    }

    // One round of the loop over kinds.
    method ArchiveKind(kind: string, before: Time, now: Time, fails: Id -> bool, ghost v: Files, ghost done: set<Id>)
      returns (err: Option<Id>, ghost moved: set<Id>)
      requires Valid() && files == map[] && kind in KINDS
      requires Progress(v, done, done, fails, None, now) && forall id | id in done :: id.kind != kind
      modifies this`disk
      ensures Valid()
      ensures Progress(v, done + (set id | id in EligibleIds(v, before, zone) && id.kind == kind), moved, fails,
                       err, now)
    {
      var days := Ascending(Days(disk.View(), kind));
      DaysLeft(v, done, kind, zone, now);
      assert forall i | 0 <= i < |days| :: days[i] in days;
      MovedAll(v, before, zone, kind, days);
      err, moved := ArchiveDays(kind, days, before, now, fails, v, done);
    }

    lemma Regroup(a: set<Id>, b: set<Id>, c: set<Id>)
      ensures a + (b + c) == a + b + c
    {
    }

    // The segments of the first k kinds have been moved.
    ghost predicate KindsDone(v: Files, ids: set<Id>, kinds: seq<string>, k: nat, fails: Id -> bool, now: Time)
      requires k <= |kinds|
      reads this
    {
      && Valid() && files == map[]
      && Progress(v, OfKinds(ids, kinds[..k]), OfKinds(ids, kinds[..k]), fails, None, now)
    }

    // The loop over kinds.
    method ArchiveKinds(kinds: seq<string>, before: Time, now: Time, fails: Id -> bool)
      returns (err: Option<Id>, ghost moved: set<Id>)
      requires Valid() && files == map[] && DistinctKinds(kinds)
      modifies this`disk
      ensures Valid()
      ensures Progress(old(View()), OfKinds(EligibleIds(old(View()), before, zone), kinds), moved, fails, err, now)
    {
      ghost var v := View();
      ghost var ids := EligibleIds(v, before, zone);
      ArchiveSetEmpty(v, zone, now);
      NoKinds(ids, kinds);
      for k := 0 to |kinds|
        invariant KindsDone(v, ids, kinds, k, fails, now)
      {
        err, moved := NextKind(kinds, k, before, now, fails, v);
        if err.Some? {
          return;
        }
      }
      assert kinds[..|kinds|] == kinds;
      return None, OfKinds(ids, kinds);
    }

    method NextKind(kinds: seq<string>, k: nat, before: Time, now: Time, fails: Id -> bool, ghost v: Files)
      returns (err: Option<Id>, ghost moved: set<Id>)
      requires DistinctKinds(kinds) && k < |kinds|
      requires KindsDone(v, EligibleIds(v, before, zone), kinds, k, fails, now)
      modifies this`disk
      ensures err == None ==> KindsDone(v, EligibleIds(v, before, zone), kinds, k + 1, fails, now)
      ensures err != None ==>
                Valid() && Progress(v, OfKinds(EligibleIds(v, before, zone), kinds), moved, fails, err, now)
    {
      ghost var ids := EligibleIds(v, before, zone);
      OfKindsStep(ids, kinds, k);
      err, moved := ArchiveKind(kinds[k], before, now, fails, v, OfKinds(ids, kinds[..k]));
      if err.Some? {
        OfKindsSome(ids, kinds, k + 1);
        Widen(v, OfKinds(ids, kinds[..k + 1]), OfKinds(ids, kinds), moved, fails, err, now);
      }
    }

    // The first segment that cannot be compressed ends it, with those before
    // it moved and nothing pruned.
    method Archive(before: Time, now: Time, fails: Id -> bool) returns (err: Option<Id>, ghost moved: set<Id>)
      requires Valid()
      modifies this`disk, this`files
      ensures Valid() && files == map[]
      ensures err == None <==> forall id | id in EligibleIds(old(View()), before, zone) :: !fails(id)
      ensures err == None ==> View() == ArchiveResult(old(View()), before, now, retainDays, zone)
      ensures err != None ==>
                && err.value in EligibleIds(old(View()), before, zone) && fails(err.value)
                && moved <= EligibleIds(old(View()), before, zone) && (forall id | id in moved :: !fails(id))
                && View() == ArchiveSet(old(View()), moved, zone, now)
    {
      files := map[];
      AllKinds(View(), before, zone);
      err, moved := ArchiveKinds(KINDS, before, now, fails);
      if err.Some? {
        return;
      }
      if retainDays > 0 {
        PruneArchives(Cutoff(now, retainDays));
      }
    }

    // The descriptions in the archive directory, latest first.
    method ListArchives() returns (infos: seq<Info>)
      requires Valid()
      ensures multiset(infos) == multiset(InfosOf(View()))
      ensures LatestFirst(infos)
    {
      infos := Sorted(InfosOf(disk.View()));
    }

    // pruneArchives, over the list in whichever order it comes.
    method PruneArchives(cutoff: Time)
      requires Valid() && files == map[]
      modifies this`disk
      ensures Valid() && View() == PruneSet(old(View()), OldIds(old(View()), cutoff))
    {
      ghost var v := View();
      var list := ListArchives();
      InListed(v, list);
      PruneSetEmpty(v);
      for i := 0 to |list|
        invariant disk.Valid() && View() == PruneSet(v, OldOf(list[..i], cutoff))
      {
        assert list[i] in list;
        OldOfStep(list, cutoff, i);
        if list[i].from.instant < cutoff.instant {
          RemoveArchive(list[i]);
          PruneSetGrows(v, OldOf(list[..i], cutoff), list[i]);
        }
      }
      assert list[..|list|] == list;
      OldOfAll(v, list, cutoff);
      PruneSetDescribed(v, OldIds(v, cutoff), zone);
    }

    method RemoveArchive(a: Info)
      requires disk.Valid()
      modifies this`disk
      ensures disk.Valid() && View() == PruneOne(old(View()), a)
    {
      disk.RemoveView(a.path);
      disk := disk.Remove(a.path);
      disk.RemoveView(ArchiveMeta(a.id));
      disk := disk.Remove(ArchiveMeta(a.id));
    }

    lemma InListed(v: Files, list: seq<Info>)
      requires Described(v, zone) && multiset(list) == multiset(InfosOf(v))
      ensures forall i: Info :: i in list <==> ArchiveMeta(i.id) in v && v[ArchiveMeta(i.id)] == Meta(i)
      ensures forall i | i in list :: i.path == ArchiveData(i.id)
    {
      forall i: Info ensures i in list <==> ArchiveMeta(i.id) in v && v[ArchiveMeta(i.id)] == Meta(i) {
        assert i in list <==> i in multiset(list);
        if ArchiveMeta(i.id) in v && v[ArchiveMeta(i.id)] == Meta(i) {
          assert ArchiveMeta(i.id) in v.Keys;
          assert i in InfosOf(v);
        }
      }
    }

    lemma OldOfAll(v: Files, list: seq<Info>, cutoff: Time)
      requires Described(v, zone)
      requires forall i: Info :: i in list <==> ArchiveMeta(i.id) in v && v[ArchiveMeta(i.id)] == Meta(i)
      ensures OldOf(list, cutoff) == OldIds(v, cutoff)
    {
      forall id | id in OldOf(list, cutoff) ensures id in OldIds(v, cutoff) {
        assert ArchiveMeta(id) in v.Keys;
      }
      forall id | id in OldIds(v, cutoff) ensures id in OldOf(list, cutoff) {
        assert v[ArchiveMeta(id)].info in list;
      }
    }

    method Restore(id: Id, opts: RestoreOptions) returns (err: Option<RestoreError>)
      requires Valid()
      modifies this`disk
      ensures Valid() && (View(), err) == RestoreResult(old(View()), id, opts)
    {
      var v := disk.View();
      if ArchiveMeta(id) !in v || !v[ArchiveMeta(id)].Meta? {
        return Some(NoArchive);
      }
      var dst := Target(v[ArchiveMeta(id)].info, opts);
      if dst in v && !opts.overwrite {
        return Some(TargetExists(dst));
      }
      if ArchiveData(id) !in v || !v[ArchiveData(id)].Gzip? {
        return Some(NoArchive);
      }
      var bytes := v[ArchiveData(id)].bytes;
      WriteSegment(dst, bytes);
      return None;
    }

    // The file is created, or truncated and filled again.
    method WriteSegment(p: Path, bytes: seq<Byte>)
      requires Valid() && (p.Hot? || p.Restored?)
      modifies this`disk
      ensures Valid() && View() == old(View())[p := Ndjson(bytes)]
    {
      disk.CreateView(p, Ndjson(bytes));
      disk := disk.Create(p, Ndjson(bytes));
    }
  }
}
