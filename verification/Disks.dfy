// The part of the operating system's file system the store relies on: names
// lead to inodes, an open handle is an inode, a removed name leaves the inode
// to whoever has it open.
module Disks {
  import opened Signals
  import opened Framing

  // The archive id "<kind>-<day>".
  datatype Id = Id(kind: string, day: int)

  // <root>/hot/<kind>/<day>.ndjson and the other files of the store.
  datatype Path =
    | Hot(id: Id)
    | ArchiveData(id: Id)
    | ArchiveMeta(id: Id)
    | Restored(id: Id)

  datatype Info = Info(id: Id, path: Path, kind: string, from: Time, to: Time, createdAt: Time)

  // A compressed file stands for the bytes it expands to.
  datatype Content = Ndjson(bytes: seq<Byte>) | Gzip(bytes: seq<Byte>) | Meta(info: Info)

  // What a walk over all names reads.
  type Files = map<Path, Content>

  function Bytes(v: Files, p: Path): seq<Byte> {
    if p in v && !v[p].Meta? then v[p].bytes else []
  }

  datatype Disk = Disk(dir: map<Path, nat>, data: map<nat, Content>, next: nat) {
    ghost predicate Valid() {
      && (forall p | p in dir :: dir[p] in data)
      && (forall n | n in data :: n < next)
      && (forall p, q | p in dir && q in dir && p != q :: dir[p] != dir[q])
      && (forall p: Path | p in dir && p.Hot? :: data[dir[p]].Ndjson?)
    }

    function View(): Files {
      map p | p in dir && dir[p] in data :: data[dir[p]]
    }

    // O_CREATE|O_APPEND: the inode of the name, made empty if there is none.
    function OpenAppend(p: Path): (Disk, nat) {
      if p in dir then (this, dir[p])
      else (Disk(dir[p := next], data[next := Ndjson([])], next + 1), next)
    }

    function Append(inode: nat, bytes: seq<Byte>): Disk {
      if inode in data && data[inode].Ndjson?
      then this.(data := data[inode := Ndjson(data[inode].bytes + bytes)])
      else this
    }

    // os.Create: an existing file is truncated in place.
    function Create(p: Path, content: Content): Disk {
      if p in dir then this.(data := data[dir[p] := content])
      else Disk(dir[p := next], data[next := content], next + 1)
    }

    function Remove(p: Path): Disk {
      this.(dir := dir - {p})
    }

    lemma OpenAppendView(p: Path)
      requires Valid() && p.Hot?
      ensures var (d, inode) := OpenAppend(p);
              && d.Valid() && p in d.dir && d.dir[p] == inode
              && d.dir == dir[p := inode]
              && d.View() == if p in View() then View() else View()[p := Ndjson([])]
    {
      var (d, inode) := OpenAppend(p);
      if p !in dir {
        assert forall q | q in dir :: d.data[dir[q]] == data[dir[q]];
        assert d.View() == View()[p := Ndjson([])];
      } else {
        assert d.dir == dir[p := inode];
      }
    }

    lemma AppendView(p: Path, bytes: seq<Byte>)
      requires Valid() && p.Hot? && p in dir
      ensures var d := Append(dir[p], bytes);
              && d.Valid() && d.dir == dir
              && d.View() == View()[p := Ndjson(Bytes(View(), p) + bytes)]
    {
      var d := Append(dir[p], bytes);
      assert forall q | q in dir && q != p :: d.data[dir[q]] == data[dir[q]];
      assert d.View() == View()[p := Ndjson(Bytes(View(), p) + bytes)];
    }

    lemma CreateView(p: Path, content: Content)
      requires Valid() && (p.Hot? ==> content.Ndjson?)
      ensures var d := Create(p, content);
              && d.Valid() && d.View() == View()[p := content]
              && (forall q | q in dir :: q in d.dir && d.dir[q] == dir[q])
              && (forall q | q in d.dir && q != p :: q in dir)
    {
      if p in dir {
        TruncateView(p, content);
      } else {
        NewFileView(p, content);
      }
    }

    lemma TruncateView(p: Path, content: Content)
      requires Valid() && (p.Hot? ==> content.Ndjson?) && p in dir
      ensures var d := Create(p, content); d.Valid() && d.View() == View()[p := content] && d.dir == dir
    {
      var d := Create(p, content);
      assert forall q | q in dir && q != p :: d.data[dir[q]] == data[dir[q]];
      assert d.View() == View()[p := content];
    }

    lemma NewFileView(p: Path, content: Content)
      requires Valid() && (p.Hot? ==> content.Ndjson?) && p !in dir
      ensures var d := Create(p, content); d.Valid() && d.View() == View()[p := content] && d.dir == dir[p := next]
    {
      var d := Create(p, content);
      assert forall q | q in dir :: d.data[dir[q]] == data[dir[q]];
      assert d.View() == View()[p := content];
    }

    lemma RemoveView(p: Path)
      requires Valid()
      ensures Remove(p).Valid() && Remove(p).View() == View() - {p}
    {
      assert Remove(p).View() == View() - {p};
    }
  }

  const EMPTY_DISK := Disk(map[], map[], 0)
}
