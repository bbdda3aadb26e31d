// Archive of server/internal/output/filesystem/filesystem.go as a step system.
// It takes the mutex only to close the handles, so everything it does after
// that can interleave with Write, which holds the mutex for a whole batch.
module ArchiveProtocol {
  import opened Signals
  import opened Framing
  import opened Codec
  import opened Disks
  import opened StoreLog
  import opened Archiving

  datatype Config = Config(lib: Library, zone: int, before: Time, now: Time)

  // A Write with the entries it has still to append; handle is the file it has
  // opened for the next one.
  datatype Writer = Idle | Writing(rest: seq<Entry>, handle: Option<nat>)

  // Archive: before closing the handles, between two directories, inside one
  // with the entries still to look at, having compressed a segment, having
  // written its description, returned, and returned with an error.
  datatype Archiver =
    | NotStarted
    | Between(kinds: seq<string>)
    | Inside(kinds: seq<string>, todo: set<Id>)
    | Copied(kinds: seq<string>, todo: set<Id>, id: Id)
    | Noted(kinds: seq<string>, todo: set<Id>, id: Id)
    | Finished
    | Failed

  // log lists the entries appended since the run began.
  datatype State = State(disk: Disk, files: map<Path, nat>, writer: Writer, archiver: Archiver, log: seq<Entry>)

  datatype Step =
    | BeginWrite(es: seq<Entry>)
    | Open
    | AppendOne
    | EndWrite
    | CloseHandles
    | ListKind
    | Look(id: Id)
    | GzipFail(id: Id)
    | Note
    | RemoveSource
    | KindDone
    | Return

  predicate Enabled(c: Config, s: State, step: Step) {
    match step
    case BeginWrite(_) => s.writer == Idle
    case Open => s.writer.Writing? && s.writer.rest != [] && s.writer.handle.None?
    case AppendOne => s.writer.Writing? && s.writer.rest != [] && s.writer.handle.Some?
                      && EncodeJSON(c.lib, s.writer.rest[0].ev).Some?
    case EndWrite => s.writer.Writing?
    case CloseHandles => s.archiver == NotStarted && s.writer == Idle
    case ListKind => s.archiver.Between? && s.archiver.kinds != []
    case Look(id) => s.archiver.Inside? && id in s.archiver.todo
    case GzipFail(id) => s.archiver.Inside? && id in s.archiver.todo && Eligible(id, c.before, c.zone)
    case Note => s.archiver.Copied?
    case RemoveSource => s.archiver.Noted?
    case KindDone => s.archiver.Inside? && s.archiver.todo == {}
    case Return => s.archiver.Between? && s.archiver.kinds == []
  }

  function Listed(disk: Disk, kind: string): set<Id> {
    set p | p in disk.dir.Keys && p.Hot? && p.id.kind == kind :: p.id
  }

  // An entry of a directory: skipped if its day is not before the cutoff;
  // Archive gives up if the file is gone.
  function Looked(c: Config, s: State, id: Id): State
    requires s.archiver.Inside?
  {
    var a := s.archiver;
    if !Eligible(id, c.before, c.zone) then s.(archiver := Inside(a.kinds, a.todo - {id}))
    else if Hot(id) !in s.disk.dir then s.(archiver := Failed)
    else s.(disk := s.disk.Create(ArchiveData(id), Gzip(Bytes(s.disk.View(), Hot(id)))),
            archiver := Copied(a.kinds, a.todo - {id}, id))
  }

  function Do(c: Config, s: State, step: Step): State
    requires Enabled(c, s, step)
  {
    match step
    case BeginWrite(es) => s.(writer := Writing(es, None))
    case Open =>
      var p := Hot(s.writer.rest[0].id);
      if p in s.files then s.(writer := s.writer.(handle := Some(s.files[p])))
      else
        var (d, n) := s.disk.OpenAppend(p);
        s.(disk := d, files := s.files[p := n], writer := s.writer.(handle := Some(n)))
    case AppendOne =>
      var e := s.writer.rest[0];
      s.(disk := s.disk.Append(s.writer.handle.value, Line(c.lib, e.ev)), log := s.log + [e],
         writer := Writing(s.writer.rest[1..], None))
    case EndWrite => s.(writer := Idle)
    case CloseHandles => s.(files := map[], archiver := Between(KINDS))
    case ListKind =>
      s.(archiver := Inside(s.archiver.kinds[1..], Listed(s.disk, s.archiver.kinds[0])))
    case Look(id) => Looked(c, s, id)
    case GzipFail(_) => s.(archiver := Failed)
    case Note =>
      var a := s.archiver;
      s.(disk := s.disk.Create(ArchiveMeta(a.id), Meta(InfoFor(a.id, c.zone, c.now))),
         archiver := Noted(a.kinds, a.todo, a.id))
    case RemoveSource =>
      var a := s.archiver;
      s.(disk := s.disk.Remove(Hot(a.id)), archiver := Inside(a.kinds, a.todo))
    case KindDone => s.(archiver := Between(s.archiver.kinds))
    case Return => s.(archiver := Finished)
  }

  datatype Run = Start(first: State) | Then(prev: Run, step: Step)

  function First(r: Run): State {
    match r case Start(s) => s case Then(p, _) => First(p)
  }

  predicate Legal(c: Config, r: Run)
    decreases r, 0
  {
    r.Start? || (Legal(c, r.prev) && Enabled(c, Last(c, r.prev), r.step))
  }

  function Last(c: Config, r: Run): State
    requires Legal(c, r)
    decreases r, 1
  {
    match r case Start(s) => s case Then(p, step) => Do(c, Last(c, p), step)
  }

  lemma Extend(c: Config, r: Run, step: Step) returns (q: Run)
    requires Legal(c, r) && Enabled(c, Last(c, r), step)
    ensures q == Then(r, step)
    ensures Legal(c, q) && First(q) == First(r) && Last(c, q) == Do(c, Last(c, r), step)
  {
    q := Then(r, step);
  }

  // Writes that target no day before the cutoff.
  predicate Late(c: Config, es: seq<Entry>) {
    forall i | 0 <= i < |es| :: !Eligible(es[i].id, c.before, c.zone)
  }

  predicate WritesLate(c: Config, r: Run) {
    r.Start? || (WritesLate(c, r.prev) && (r.step.BeginWrite? ==> Late(c, r.step.es)))
  }

  // A store with some handles open and nothing going on.
  ghost predicate Init(c: Config, s: State) {
    && s.disk.Valid() && s.writer == Idle && s.archiver == NotStarted && s.log == []
    && forall p | p in s.files :: p.Hot? && p in s.disk.dir && s.disk.dir[p] == s.files[p]
  }

  // --- Invariants ---------------------------------------------------------

  ghost predicate HandlesOk(c: Config, s: State) {
    && s.disk.Valid()
    && (forall p | p in s.files ::
          && p.Hot? && p in s.disk.dir && s.disk.dir[p] == s.files[p]
          && (s.archiver != NotStarted ==> !Eligible(p.id, c.before, c.zone)))
    && (s.writer.Writing? ==> Late(c, s.writer.rest))
    && (s.writer.Writing? && s.writer.handle.Some? ==>
          s.writer.rest != [] && Hot(s.writer.rest[0].id) in s.disk.dir
          && s.disk.dir[Hot(s.writer.rest[0].id)] == s.writer.handle.value)
  }

  // Archive is between compressing this segment and removing it.
  predicate Moving(s: State, id: Id) {
    (s.archiver.Copied? || s.archiver.Noted?) && s.archiver.id == id
  }

  // What the archiver has still to do: an eligible segment is in a directory
  // not yet listed, listed and not yet looked at, or being moved.
  ghost predicate TodoOk(c: Config, s: State) {
    && (s.archiver.Inside? || s.archiver.Copied? || s.archiver.Noted? ==>
          forall id | id in s.archiver.todo :: Hot(id) in s.disk.dir && !Moving(s, id))
    && (s.archiver.Copied? || s.archiver.Noted? ==>
          Hot(s.archiver.id) in s.disk.dir && Eligible(s.archiver.id, c.before, c.zone))
    && (s.archiver != NotStarted && s.archiver != Failed ==>
          forall id: Id | Hot(id) in s.disk.dir && Eligible(id, c.before, c.zone) ::
            Moving(s, id)
            || (!s.archiver.Finished? && id.kind in s.archiver.kinds)
            || (!s.archiver.Finished? && !s.archiver.Between? && id in s.archiver.todo))
  }

  predicate Same(v: Files, w: Files, p: Path) {
    (p in v <==> p in w) && (p in v ==> v[p] == w[p])
  }

  // One segment against the files v0 the run began with.
  ghost predicate IdOk(c: Config, v0: Files, s: State, id: Id) {
    var v := s.disk.View();
    if !Eligible(id, c.before, c.zone) then
      && Bytes(v, Hot(id)) == Bytes(v0, Hot(id)) + Lines(c.lib, SegmentOf(s.log, id))
      && Same(v, v0, ArchiveData(id))
    else
      && SegmentOf(s.log, id) == []
      && (Hot(id) in v ==> Same(v, v0, Hot(id)))
      && (if Moving(s, id) || (Hot(id) in v0 && Hot(id) !in v)
          then ArchiveData(id) in v && v[ArchiveData(id)] == Gzip(Bytes(v0, Hot(id)))
          else Same(v, v0, ArchiveData(id)))
  }

  ghost predicate Inv(c: Config, v0: Files, s: State) {
    HandlesOk(c, s) && TodoOk(c, s) && forall id: Id :: IdOk(c, v0, s, id)
  }

  lemma InitInv(c: Config, s: State)
    requires Init(c, s)
    ensures Inv(c, s.disk.View(), s)
  {
    forall id: Id ensures IdOk(c, s.disk.View(), s, id) {
      assert Bytes(s.disk.View(), Hot(id)) + [] == Bytes(s.disk.View(), Hot(id));
    }
  }

  // The steps that leave the disk alone.
  predicate Quiet(c: Config, s: State, step: Step) {
    || step.BeginWrite? || step.EndWrite? || step.CloseHandles? || step.ListKind? || step.KindDone? || step.Return?
    || step.GzipFail?
    || (step.Look? && !Eligible(step.id, c.before, c.zone))
  }

  lemma QuietFrame(c: Config, s: State, step: Step)
    requires Enabled(c, s, step) && Quiet(c, s, step)
    ensures var t := Do(c, s, step);
            t.disk == s.disk && t.log == s.log && forall id: Id :: Moving(t, id) == Moving(s, id)
  {
  }

  lemma QuietStep(c: Config, v0: Files, s: State, step: Step)
    requires Inv(c, v0, s) && Enabled(c, s, step) && Quiet(c, s, step)
    requires step.BeginWrite? ==> Late(c, step.es)
    ensures Inv(c, v0, Do(c, s, step))
  {
    var t := Do(c, s, step);
    QuietFrame(c, s, step);
    forall id: Id ensures IdOk(c, v0, t, id) {
      Untouched(c, v0, s, t, id);
    }
    if step.CloseHandles? {
      assert forall id: Id | Eligible(id, c.before, c.zone) :: id.kind in KINDS;
    } else if step.ListKind? {
      ListedAll(s.disk, s.archiver.kinds[0]);
      assert s.archiver.kinds == [s.archiver.kinds[0]] + s.archiver.kinds[1..];
    }
  }

  lemma ListedAll(disk: Disk, kind: string)
    ensures forall id: Id :: id in Listed(disk, kind) <==> Hot(id) in disk.dir && id.kind == kind
  {
    forall id: Id | Hot(id) in disk.dir && id.kind == kind ensures id in Listed(disk, kind) {
      assert Hot(id) in disk.dir.Keys;
    }
  }

  lemma OpenStep(c: Config, v0: Files, s: State)
    requires Inv(c, v0, s) && Enabled(c, s, Open)
    ensures Inv(c, v0, Do(c, s, Open))
  {
    var p := Hot(s.writer.rest[0].id);
    if p !in s.files {
      OpenNew(c, v0, s, p);
    }
    forall id: Id ensures IdOk(c, v0, Do(c, s, Open), id) {
      OpenId(c, v0, s, id);
    }
  }

  lemma OpenNew(c: Config, v0: Files, s: State, p: Path)
    requires HandlesOk(c, s) && TodoOk(c, s) && Enabled(c, s, Open) && p == Hot(s.writer.rest[0].id) && p !in s.files
    ensures HandlesOk(c, Do(c, s, Open)) && TodoOk(c, Do(c, s, Open))
  {
    s.disk.OpenAppendView(p);
  }

  lemma OpenId(c: Config, v0: Files, s: State, id: Id)
    requires HandlesOk(c, s) && IdOk(c, v0, s, id) && Enabled(c, s, Open)
    ensures IdOk(c, v0, Do(c, s, Open), id)
  {
    var p := Hot(s.writer.rest[0].id);
    var t := Do(c, s, Open);
    if p !in s.files {
      s.disk.OpenAppendView(p);
    }
    if p == Hot(id) {
      Opened(c, v0, s, t, id);
    } else {
      Untouched(c, v0, s, t, id);
    }
  }

  lemma Opened(c: Config, v0: Files, s: State, t: State, id: Id)
    requires !Eligible(id, c.before, c.zone) && IdOk(c, v0, s, id) && t.log == s.log
    requires Bytes(t.disk.View(), Hot(id)) == Bytes(s.disk.View(), Hot(id))
    requires Same(s.disk.View(), t.disk.View(), ArchiveData(id))
    ensures IdOk(c, v0, t, id)
  {
  }

  lemma AppendStep(c: Config, v0: Files, s: State)
    requires Inv(c, v0, s) && Enabled(c, s, AppendOne)
    ensures Inv(c, v0, Do(c, s, AppendOne))
  {
    var e := s.writer.rest[0];
    s.disk.AppendView(Hot(e.id), Line(c.lib, e.ev));
    forall id: Id ensures IdOk(c, v0, Do(c, s, AppendOne), id) {
      AppendId(c, v0, s, id);
    }
  }

  lemma AppendId(c: Config, v0: Files, s: State, id: Id)
    requires HandlesOk(c, s) && IdOk(c, v0, s, id) && Enabled(c, s, AppendOne)
    ensures IdOk(c, v0, Do(c, s, AppendOne), id)
  {
    var e := s.writer.rest[0];
    var t := Do(c, s, AppendOne);
    AppendedFiles(c, s);
    if id == e.id {
      Grown(c, v0, s, t, e);
    } else {
      SegmentOfOther(s.log, e, id);
      Untouched(c, v0, s, t, id);
    }
  }

  lemma AppendedFiles(c: Config, s: State)
    requires HandlesOk(c, s) && Enabled(c, s, AppendOne)
    ensures var e, t := s.writer.rest[0], Do(c, s, AppendOne);
            && !Eligible(e.id, c.before, c.zone) && t.log == s.log + [e] && t.archiver == s.archiver
            && Bytes(t.disk.View(), Hot(e.id)) == Bytes(s.disk.View(), Hot(e.id)) + Line(c.lib, e.ev)
            && forall p | p != Hot(e.id) :: Same(s.disk.View(), t.disk.View(), p)
  {
    var e := s.writer.rest[0];
    s.disk.AppendView(Hot(e.id), Line(c.lib, e.ev));
  }

  lemma SegmentOfOther(log: seq<Entry>, e: Entry, id: Id)
    requires id != e.id
    ensures SegmentOf(log + [e], id) == SegmentOf(log, id)
  {
    assert (log + [e])[..|log|] == log;
    assert SegmentOf(log, id) + [] == SegmentOf(log, id);
  }

  lemma Grown(c: Config, v0: Files, s: State, t: State, e: Entry)
    requires !Eligible(e.id, c.before, c.zone) && IdOk(c, v0, s, e.id)
    requires t.log == s.log + [e] && EncodeJSON(c.lib, e.ev).Some?
    requires Bytes(t.disk.View(), Hot(e.id)) == Bytes(s.disk.View(), Hot(e.id)) + Line(c.lib, e.ev)
    requires Same(s.disk.View(), t.disk.View(), ArchiveData(e.id))
    ensures IdOk(c, v0, t, e.id)
  {
    var segment := SegmentOf(s.log, e.id);
    assert (s.log + [e])[..|s.log|] == s.log;
    assert SegmentOf(t.log, e.id) == segment + [e.ev];
    LinesSnoc(c.lib, segment, e.ev);
    Concat(Bytes(v0, Hot(e.id)), Lines(c.lib, segment), Line(c.lib, e.ev));
  }

  lemma Untouched(c: Config, v0: Files, s: State, t: State, id: Id)
    requires IdOk(c, v0, s, id)
    requires SegmentOf(t.log, id) == SegmentOf(s.log, id) && Moving(t, id) == Moving(s, id)
    requires Same(s.disk.View(), t.disk.View(), Hot(id)) && Same(s.disk.View(), t.disk.View(), ArchiveData(id))
    ensures IdOk(c, v0, t, id)
  {
  }

  // A step that changes one file of the archiver's.
  lemma CreateKeepsHandles(c: Config, s: State, p: Path, content: Content, t: State)
    requires HandlesOk(c, s) && s.archiver != NotStarted && !p.Hot?
    requires t == s.(disk := s.disk.Create(p, content), archiver := t.archiver)
    ensures HandlesOk(c, t)
    ensures forall id: Id :: Hot(id) in t.disk.dir <==> Hot(id) in s.disk.dir
  {
    s.disk.CreateView(p, content);
  }

  lemma LookStep(c: Config, v0: Files, s: State, id: Id)
    requires Inv(c, v0, s) && Enabled(c, s, Look(id)) && Eligible(id, c.before, c.zone)
    ensures Inv(c, v0, Do(c, s, Look(id)))
  {
    var t := Do(c, s, Look(id));
    var content := Gzip(Bytes(s.disk.View(), Hot(id)));
    CreateKeepsHandles(c, s, ArchiveData(id), content, t);
    forall k: Id ensures IdOk(c, v0, t, k) {
      LookId(c, v0, s, id, k);
    }
  }

  lemma LookId(c: Config, v0: Files, s: State, id: Id, k: Id)
    requires s.disk.Valid() && IdOk(c, v0, s, id) && IdOk(c, v0, s, k) && Enabled(c, s, Look(id))
    requires Eligible(id, c.before, c.zone) && Hot(id) in s.disk.dir
    ensures IdOk(c, v0, Do(c, s, Look(id)), k)
  {
    var content := Gzip(Bytes(s.disk.View(), Hot(id)));
    s.disk.CreateView(ArchiveData(id), content);
    assert Hot(id) in s.disk.View();
    assert Bytes(s.disk.View(), Hot(id)) == Bytes(v0, Hot(id));
    if k != id {
      Untouched(c, v0, s, Do(c, s, Look(id)), k);
    }
  }

  lemma NoteStep(c: Config, v0: Files, s: State)
    requires Inv(c, v0, s) && Enabled(c, s, Note)
    ensures Inv(c, v0, Do(c, s, Note))
  {
    var t := Do(c, s, Note);
    var content := Meta(InfoFor(s.archiver.id, c.zone, c.now));
    CreateKeepsHandles(c, s, ArchiveMeta(s.archiver.id), content, t);
    forall k: Id ensures IdOk(c, v0, t, k) {
      NoteId(c, v0, s, k);
    }
  }

  lemma NoteId(c: Config, v0: Files, s: State, k: Id)
    requires s.disk.Valid() && IdOk(c, v0, s, k) && Enabled(c, s, Note)
    ensures IdOk(c, v0, Do(c, s, Note), k)
  {
    s.disk.CreateView(ArchiveMeta(s.archiver.id), Meta(InfoFor(s.archiver.id, c.zone, c.now)));
  }

  lemma RemoveStep(c: Config, v0: Files, s: State)
    requires Inv(c, v0, s) && Enabled(c, s, RemoveSource)
    ensures Inv(c, v0, Do(c, s, RemoveSource))
  {
    var t := Do(c, s, RemoveSource);
    s.disk.RemoveView(Hot(s.archiver.id));
    forall k: Id ensures IdOk(c, v0, t, k) {
      RemoveId(c, v0, s, k);
    }
  }

  lemma RemoveId(c: Config, v0: Files, s: State, k: Id)
    requires s.archiver.Noted? && Hot(s.archiver.id) in s.disk.dir && s.disk.Valid()
    requires Eligible(s.archiver.id, c.before, c.zone) && IdOk(c, v0, s, k)
    ensures IdOk(c, v0, Do(c, s, RemoveSource), k)
  {
    var id, t := s.archiver.id, Do(c, s, RemoveSource);
    s.disk.RemoveView(Hot(id));
    if k == id {
      assert Hot(id) in s.disk.View();
      Removed(c, v0, s, t, id);
    } else {
      Untouched(c, v0, s, t, k);
    }
  }

  lemma Removed(c: Config, v0: Files, s: State, t: State, id: Id)
    requires Eligible(id, c.before, c.zone) && IdOk(c, v0, s, id)
    requires Moving(s, id) && Hot(id) in s.disk.View() && !Moving(t, id) && Hot(id) !in t.disk.View()
    requires t.log == s.log && Same(s.disk.View(), t.disk.View(), ArchiveData(id))
    ensures IdOk(c, v0, t, id)
  {
  }

  lemma {:induction false} RunInv(c: Config, r: Run)
    requires Legal(c, r) && WritesLate(c, r) && Init(c, First(r))
    ensures Inv(c, First(r).disk.View(), Last(c, r))
  {
    if r.Then? {
      RunInv(c, r.prev);
      var v0, s := First(r).disk.View(), Last(c, r.prev);
      if Quiet(c, s, r.step) {
        QuietStep(c, v0, s, r.step);
      } else if r.step.Open? {
        OpenStep(c, v0, s);
      } else if r.step.AppendOne? {
        AppendStep(c, v0, s);
      } else if r.step.Look? {
        LookStep(c, v0, s, r.step.id);
      } else if r.step.Note? {
        NoteStep(c, v0, s);
      } else {
        RemoveStep(c, v0, s);
      }
    } else {
      InitInv(c, First(r));
    }
  }

  // Archive has described this segment, and may have removed it.
  predicate HasNote(s: State, v0: Files, id: Id) {
    (s.archiver.Noted? && s.archiver.id == id) || (Hot(id) in v0 && Hot(id) !in s.disk.View())
  }

  ghost predicate MetaOk(c: Config, v0: Files, s: State) {
    var v := s.disk.View();
    forall id: Id | Eligible(id, c.before, c.zone) && HasNote(s, v0, id) ::
      ArchiveMeta(id) in v && v[ArchiveMeta(id)] == Meta(InfoFor(id, c.zone, c.now))
  }

  // What a step does to the descriptions and to which eligible segments exist.
  ghost predicate NamesKept(c: Config, s: State, t: State, step: Step) {
    var v, w := s.disk.View(), t.disk.View();
    forall id: Id | Eligible(id, c.before, c.zone) ::
      && (!step.Note? ==> Same(v, w, ArchiveMeta(id)))
      && (!step.RemoveSource? ==> (Hot(id) in w <==> Hot(id) in v))
  }

  lemma WriterNames(c: Config, s: State, step: Step)
    requires HandlesOk(c, s) && Enabled(c, s, step) && (step.Open? || step.AppendOne?)
    ensures NamesKept(c, s, Do(c, s, step), step)
  {
    var p := Hot(s.writer.rest[0].id);
    if step.AppendOne? {
      AppendedFiles(c, s);
    } else if p !in s.files {
      s.disk.OpenAppendView(p);
    }
  }

  lemma LookNames(c: Config, s: State, id: Id)
    requires HandlesOk(c, s) && Enabled(c, s, Look(id))
    ensures NamesKept(c, s, Do(c, s, Look(id)), Look(id))
  {
    s.disk.CreateView(ArchiveData(id), Gzip(Bytes(s.disk.View(), Hot(id))));
  }

  lemma ArchiverNames(c: Config, s: State, step: Step)
    requires HandlesOk(c, s) && Enabled(c, s, step) && (step.Look? || step.Note? || step.RemoveSource?)
    ensures NamesKept(c, s, Do(c, s, step), step)
  {
    if step.Look? {
      LookNames(c, s, step.id);
    } else if step.Note? {
      s.disk.CreateView(ArchiveMeta(s.archiver.id), Meta(InfoFor(s.archiver.id, c.zone, c.now)));
    } else {
      s.disk.RemoveView(Hot(s.archiver.id));
    }
  }

  lemma StepNames(c: Config, s: State, step: Step)
    requires HandlesOk(c, s) && Enabled(c, s, step)
    ensures NamesKept(c, s, Do(c, s, step), step)
  {
    if step.Open? || step.AppendOne? {
      WriterNames(c, s, step);
    } else if step.Look? || step.Note? || step.RemoveSource? {
      ArchiverNames(c, s, step);
    }
  }

  lemma NotesStep(c: Config, v0: Files, s: State)
    requires Inv(c, v0, s) && MetaOk(c, v0, s) && Enabled(c, s, Note)
    ensures MetaOk(c, v0, Do(c, s, Note))
  {
    StepNames(c, s, Note);
    s.disk.CreateView(ArchiveMeta(s.archiver.id), Meta(InfoFor(s.archiver.id, c.zone, c.now)));
  }

  lemma RemovesStep(c: Config, v0: Files, s: State)
    requires Inv(c, v0, s) && MetaOk(c, v0, s) && Enabled(c, s, RemoveSource)
    ensures MetaOk(c, v0, Do(c, s, RemoveSource))
  {
    StepNames(c, s, RemoveSource);
    s.disk.RemoveView(Hot(s.archiver.id));
  }

  lemma OthersStep(c: Config, v0: Files, s: State, step: Step)
    requires Inv(c, v0, s) && MetaOk(c, v0, s) && Enabled(c, s, step) && !step.Note? && !step.RemoveSource?
    ensures MetaOk(c, v0, Do(c, s, step))
  {
    StepNames(c, s, step);
    var t := Do(c, s, step);
    assert t.archiver.Noted? ==> t.archiver == s.archiver;
  }

  lemma {:induction false} RunMeta(c: Config, r: Run)
    requires Legal(c, r) && WritesLate(c, r) && Init(c, First(r))
    ensures MetaOk(c, First(r).disk.View(), Last(c, r))
  {
    if r.Then? {
      RunMeta(c, r.prev);
      RunInv(c, r.prev);
      var v0, s := First(r).disk.View(), Last(c, r.prev);
      if r.step.Note? {
        NotesStep(c, v0, s);
      } else if r.step.RemoveSource? {
        RemovesStep(c, v0, s);
      } else {
        OthersStep(c, v0, s, r.step);
      }
    }
  }

  // --- Theorems -----------------------------------------------------------

  // Archive has moved this segment out of the hot files v0.
  predicate Gone(c: Config, v0: Files, s: State, id: Id) {
    Eligible(id, c.before, c.zone) && Hot(id) in v0 && Hot(id) !in s.disk.View()
  }

  // In every interleaving in which no Write targets a day before the cutoff,
  // the store holds of a segment exactly what it held at the beginning,
  // followed by what was appended, if and only if Archive has not moved it on
  // top of an archive that was not empty. While Archive is moving it, hot
  // segment and archive are both what the hot segment was.
  lemma NothingLost(c: Config, r: Run, id: Id)
    requires Legal(c, r) && WritesLate(c, r) && Init(c, First(r))
    ensures var s, v0 := Last(c, r), First(r).disk.View();
            var v := s.disk.View();
            if Moving(s, id)
            then Bytes(v, Hot(id)) == Bytes(v0, Hot(id)) && Bytes(v, ArchiveData(id)) == Bytes(v0, Hot(id))
            else Combined(v, id) == Combined(v0, id) + Lines(c.lib, SegmentOf(s.log, id))
                 <==> (Gone(c, v0, s, id) ==> Bytes(v0, ArchiveData(id)) == [])
  {
    RunInv(c, r);
    var v0, s := First(r).disk.View(), Last(c, r);
    assert IdOk(c, v0, s, id);
    if !Moving(s, id) {
      if Gone(c, v0, s, id) {
        GoneHolds(c, v0, s, id);
      } else {
        StayedHolds(c, v0, s, id);
      }
    }
  }

  lemma GoneHolds(c: Config, v0: Files, s: State, id: Id)
    requires IdOk(c, v0, s, id) && Gone(c, v0, s, id)
    ensures Combined(s.disk.View(), id) == Combined(v0, id) + Lines(c.lib, SegmentOf(s.log, id))
            <==> Bytes(v0, ArchiveData(id)) == []
  {
    var was, hot := Bytes(v0, ArchiveData(id)), Bytes(v0, Hot(id));
    assert Combined(s.disk.View(), id) == hot + [] == hot;
    assert Combined(v0, id) + [] == was + hot && |was + hot| == |was| + |hot|;
    assert was == [] ==> was + hot == hot;
  }

  lemma StayedHolds(c: Config, v0: Files, s: State, id: Id)
    requires IdOk(c, v0, s, id) && !Moving(s, id) && !Gone(c, v0, s, id)
    ensures Combined(s.disk.View(), id) == Combined(v0, id) + Lines(c.lib, SegmentOf(s.log, id))
  {
    assert Combined(v0, id) + [] == Combined(v0, id);
    Concat(Bytes(v0, ArchiveData(id)), Bytes(v0, Hot(id)), Lines(c.lib, SegmentOf(s.log, id)));
  }

  lemma Concat(a: seq<Byte>, b: seq<Byte>, c: seq<Byte>)
    ensures a + (b + c) == a + b + c
  {
  }

  // A segment of a day not before the cutoff only grows, by what was appended
  // to it, and when Archive has returned every other segment of its kinds has
  // become an archive with the content it began with, described by its kind
  // and day.
  lemma ArchiveCompletes(c: Config, r: Run, id: Id)
    requires Legal(c, r) && WritesLate(c, r) && Init(c, First(r))
    ensures var s, v0 := Last(c, r), First(r).disk.View();
            var v := s.disk.View();
            && (!Eligible(id, c.before, c.zone) ==>
                  Bytes(v, Hot(id)) == Bytes(v0, Hot(id)) + Lines(c.lib, SegmentOf(s.log, id)))
            && (Eligible(id, c.before, c.zone) && s.archiver == Finished ==>
                  && Hot(id) !in v
                  && (Hot(id) in v0 ==> ArchiveData(id) in v && v[ArchiveData(id)] == Gzip(Bytes(v0, Hot(id))))
                  && (Hot(id) in v0 ==> ArchiveMeta(id) in v && v[ArchiveMeta(id)] == Meta(InfoFor(id, c.zone, c.now))))
  {
    RunInv(c, r);
    RunMeta(c, r);
    assert IdOk(c, First(r).disk.View(), Last(c, r), id);
  }

  // A segment is never gone before its description is there, so whenever
  // Archive is stopped Restore finds what it moved.
  lemma DescribedBeforeRemoved(c: Config, r: Run, id: Id)
    requires Legal(c, r) && WritesLate(c, r) && Init(c, First(r)) && Gone(c, First(r).disk.View(), Last(c, r), id)
    ensures var v0, v := First(r).disk.View(), Last(c, r).disk.View();
            && ArchiveData(id) in v && v[ArchiveData(id)] == Gzip(Bytes(v0, Hot(id)))
            && ArchiveMeta(id) in v && v[ArchiveMeta(id)] == Meta(InfoFor(id, c.zone, c.now))
  {
    RunInv(c, r);
    RunMeta(c, r);
    assert IdOk(c, First(r).disk.View(), Last(c, r), id);
  }

  // The condition is needed: a signal appended to an eligible segment after it
  // was compressed is removed with it.
  lemma EarlyWriteIsLost(c: Config, e: Entry) returns (r: Run)
    requires Eligible(e.id, c.before, c.zone) && EncodeJSON(c.lib, e.ev).Some?
    ensures Legal(c, r) && Init(c, First(r))
    ensures var s := Last(c, r); s.log == [e] && Line(c.lib, e.ev) != [] && Combined(s.disk.View(), e.id) == []
  {
    r := CompressEmpty(c, e);
    r := AppendBehind(c, r, e);
    r := Extend(c, r, Note);
    r := Extend(c, r, RemoveSource);
    var s := Last(c, r);
    assert s.disk.dir.Keys == {ArchiveData(e.id), ArchiveMeta(e.id)};
    assert s.disk.data[1] == Gzip([]) && s.disk.dir[ArchiveData(e.id)] == 1;
  }

  // A Write of one signal to a segment that already has its file.
  lemma AppendBehind(c: Config, r0: Run, e: Entry) returns (r: Run)
    requires Legal(c, r0) && EncodeJSON(c.lib, e.ev).Some?
    requires var s := Last(c, r0); s.writer == Idle && s.files == map[] && Hot(e.id) in s.disk.dir
    ensures Legal(c, r) && First(r) == First(r0)
    ensures var s, t := Last(c, r0), Last(c, r);
            && t.disk == s.disk.Append(s.disk.dir[Hot(e.id)], Line(c.lib, e.ev))
            && t.log == s.log + [e] && t.archiver == s.archiver
  {
    r := Extend(c, r0, BeginWrite([e]));
    r := Extend(c, r, Open);
    r := Extend(c, r, AppendOne);
  }

  // An empty segment is compressed and not yet removed.
  lemma CompressEmpty(c: Config, e: Entry) returns (r: Run)
    requires Eligible(e.id, c.before, c.zone)
    ensures Legal(c, r) && Init(c, First(r))
    ensures var s := Last(c, r);
            && s.disk == Disk(map[Hot(e.id) := 0, ArchiveData(e.id) := 1], map[0 := Ndjson([]), 1 := Gzip([])], 2)
            && s.files == map[] && s.writer == Idle && s.log == [] && s.archiver.Copied? && s.archiver.id == e.id
  {
    var d0 := Disk(map[Hot(e.id) := 0], map[0 := Ndjson([])], 1);
    var s0 := State(d0, map[], Idle, NotStarted, []);
    r := Extend(c, Start(s0), CloseHandles);
    r := ReachKind(c, r, e.id);
    r := Extend(c, r, Look(e.id));
  }

  // Archive comes to the directory of the only segment there is.
  lemma {:induction false} ReachKind(c: Config, r0: Run, id: Id) returns (r: Run)
    requires Legal(c, r0) && Last(c, r0).archiver.Between? && id.kind in Last(c, r0).archiver.kinds
    requires Last(c, r0).disk.dir.Keys == {Hot(id)}
    ensures Legal(c, r) && First(r) == First(r0)
    ensures var s, t := Last(c, r0), Last(c, r);
            t.archiver.Inside? && id in t.archiver.todo && t == s.(archiver := t.archiver)
    decreases |Last(c, r0).archiver.kinds|
  {
    var s := Last(c, r0);
    r := Extend(c, r0, ListKind);
    ListedAll(s.disk, s.archiver.kinds[0]);
    assert Hot(id) in s.disk.dir.Keys;
    if s.archiver.kinds[0] != id.kind {
      assert Last(c, r).archiver.todo == {};
      r := Extend(c, r, KindDone);
      r := ReachKind(c, r, id);
    }
  }

  // The entries given to the calls of Write, but for those that the ended ones
  // left.
  function Given(c: Config, r: Run): seq<Entry>
    requires Legal(c, r)
  {
    match r
    case Start(_) => []
    case Then(p, step) =>
      if step.BeginWrite? then Given(c, p) + step.es
      else if step.EndWrite? then Dropped(Given(c, p), |Last(c, p).writer.rest|)
      else Given(c, p)
  }

  // A list without its last n elements.
  function Dropped<T>(xs: seq<T>, n: nat): seq<T> {
    if n <= |xs| then xs[..|xs| - n] else []
  }

  // They are what has been appended, in order, and what the Write under way
  // has still to append.
  lemma {:induction false} AppendsWhatIsGiven(c: Config, r: Run)
    requires Legal(c, r) && Init(c, First(r))
    ensures var s := Last(c, r);
            Given(c, r) == s.log + Rest(s)
  {
    if r.Then? {
      AppendsWhatIsGiven(c, r.prev);
      StepAppends(c, Last(c, r.prev), r.step, Given(c, r.prev));
    }
  }

  function Rest(s: State): seq<Entry> {
    if s.writer.Writing? then s.writer.rest else []
  }

  lemma StepAppends(c: Config, s: State, step: Step, given: seq<Entry>)
    requires Enabled(c, s, step) && given == s.log + Rest(s)
    ensures var t := Do(c, s, step);
            t.log + Rest(t) == if step.BeginWrite? then given + step.es
                               else if step.EndWrite? then Dropped(given, |s.writer.rest|)
                               else given
  {
    if step.AppendOne? {
      var e, t := s.writer.rest[0], Do(c, s, AppendOne);
      assert s.writer.rest == [e] + t.writer.rest;
      assert t.log + Rest(t) == s.log + [e] + t.writer.rest == s.log + s.writer.rest;
    } else if step.EndWrite? {
      assert (s.log + s.writer.rest)[..|s.log|] == s.log;
      assert s.log + [] == s.log;
    } else if step.BeginWrite? {
      assert s.log + [] == s.log;
    } else {
      RestFrame(c, s, step);
    }
  }

  lemma RestFrame(c: Config, s: State, step: Step)
    requires Enabled(c, s, step) && !step.BeginWrite? && !step.AppendOne? && !step.EndWrite?
    ensures Do(c, s, step).log == s.log && Rest(Do(c, s, step)) == Rest(s)
  {
  }

  // --- Archive can always be brought to its end ---------------------------

  function Stage(a: Archiver): nat {
    match a
    case NotStarted => 100
    case Between(kinds) => 1 + 2 * |kinds|
    case Inside(kinds, _) => 2 + 2 * |kinds|
    case Copied(kinds, _, _) => 2 + 2 * |kinds|
    case Noted(kinds, _, _) => 2 + 2 * |kinds|
    case Finished => 0
    case Failed => 0
  }

  function Todo(a: Archiver): set<Id> {
    if a.Inside? || a.Copied? || a.Noted? then a.todo else {}
  }

  function Moves(a: Archiver): nat {
    if a.Copied? then 2 else if a.Noted? then 1 else 0
  }

  // The step Archive takes when nothing fails.
  function NextStep(a: Archiver, id: Id): Step {
    match a
    case NotStarted => CloseHandles
    case Between(kinds) => if kinds == [] then Return else ListKind
    case Inside(_, todo) => if todo == {} then KindDone else Look(id)
    case Copied(_, _, _) => Note
    case _ => RemoveSource
  }

  predicate Under(a: Archiver, b: Archiver) {
    || Stage(a) < Stage(b)
    || (Stage(a) == Stage(b) && (Todo(a) < Todo(b) || (Todo(a) == Todo(b) && Moves(a) < Moves(b))))
  }

  lemma NextStepProgress(c: Config, s: State, id: Id)
    requires TodoOk(c, s) && s.archiver != Finished && s.archiver != Failed
    requires s.archiver == NotStarted ==> s.writer == Idle
    requires s.archiver.Inside? && s.archiver.todo != {} ==> id in s.archiver.todo
    ensures Enabled(c, s, NextStep(s.archiver, id))
    ensures var t := Do(c, s, NextStep(s.archiver, id));
            && t.archiver != NotStarted && t.archiver != Failed && Under(t.archiver, s.archiver)
            && t.log == s.log && t.writer == s.writer
  {
    assert |KINDS| == 4;
  }

  // A store with Archive under way, or not yet called and nobody writing, has
  // a run to its end in which nothing more is written.
  lemma {:induction false} ArchiveFinishes(c: Config, r0: Run) returns (r: Run)
    requires Legal(c, r0) && WritesLate(c, r0) && Init(c, First(r0))
    requires Last(c, r0).archiver != Failed && (Last(c, r0).archiver == NotStarted ==> Last(c, r0).writer == Idle)
    ensures Legal(c, r) && WritesLate(c, r) && First(r) == First(r0)
    ensures Last(c, r).archiver == Finished && Last(c, r).log == Last(c, r0).log
    decreases Stage(Last(c, r0).archiver), Todo(Last(c, r0).archiver), Moves(Last(c, r0).archiver)
  {
    var s := Last(c, r0);
    r := r0;
    if s.archiver != Finished {
      RunInv(c, r0);
      var id := if Todo(s.archiver) == {} then Id("", 0) else var i :| i in Todo(s.archiver); i;
      NextStepProgress(c, s, id);
      r := Extend(c, r0, NextStep(s.archiver, id));
      r := ArchiveFinishes(c, r);
    }
  }

  // What a run keeps of a segment it is not moving.
  ghost predicate Kept(c: Config, r: Run, id: Id)
    requires Legal(c, r)
  {
    Combined(Last(c, r).disk.View(), id)
    == Combined(First(r).disk.View(), id) + Lines(c.lib, SegmentOf(Last(c, r).log, id))
  }

  // So a store is certain to keep what it holds of a segment, whatever late
  // Writes come between the steps of Archive, exactly when the segment is not
  // about to be moved on top of an archive that is not empty.
  lemma KeepsIff(c: Config, s: State, id: Id)
    requires Init(c, s)
    ensures var v := s.disk.View();
            (forall r: Run | Legal(c, r) && WritesLate(c, r) && First(r) == s && !Moving(Last(c, r), id) ::
               Kept(c, r, id))
            <==> (Eligible(id, c.before, c.zone) && Hot(id) in v ==> Bytes(v, ArchiveData(id)) == [])
  {
    if Eligible(id, c.before, c.zone) && Hot(id) in s.disk.View() && Bytes(s.disk.View(), ArchiveData(id)) != [] {
      var r := ArchiveFinishes(c, Start(s));
      NothingLost(c, r, id);
      ArchiveCompletes(c, r, id);
      assert Legal(c, r) && WritesLate(c, r) && First(r) == s && !Moving(Last(c, r), id) && !Kept(c, r, id);
    } else {
      forall r: Run | Legal(c, r) && WritesLate(c, r) && First(r) == s && !Moving(Last(c, r), id)
        ensures Kept(c, r, id)
      {
        NothingLost(c, r, id);
      }
    }
  }
}
