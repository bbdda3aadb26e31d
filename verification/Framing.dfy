// pkg/framer/length.go: frames of a 32-bit big-endian length and a payload of
// at most 8 MiB, and the read loop of server/internal/input/tcp.go over them.
module Framing {
  import opened Signals

  type Byte = x: int | 0 <= x < 256

  const MAX_FRAME_SIZE: nat := 0x80_0000

  datatype FrameError = Eof | UnexpectedEof | TooLarge(size: nat) | WriteFailed

  // --- Header -------------------------------------------------------------

  function BigEndian(n: nat): (b: seq<Byte>)
    requires n < 0x1_0000_0000
    ensures |b| == 4
  {
    [n / 0x100_0000, n / 0x1_0000 % 0x100, n / 0x100 % 0x100, n % 0x100]
  }

  function Uint32(b: seq<Byte>): (n: nat)
    requires |b| == 4
    ensures n < 0x1_0000_0000
  {
    (b[0] as int) * 0x100_0000 + (b[1] as int) * 0x1_0000 + (b[2] as int) * 0x100 + b[3] as int
  }

  lemma HeaderRoundTrip(n: nat)
    requires n < 0x1_0000_0000
    ensures Uint32(BigEndian(n)) == n
  {
    var h := n / 0x100;
    var g := h / 0x100;
    assert g == n / 0x1_0000 && g / 0x100 == n / 0x100_0000;
  }

  // The most significant byte comes first.
  lemma HeaderReads(b: seq<Byte>)
    requires |b| == 4
    ensures Uint32(b) == ((b[0] as int * 256 + b[1]) * 256 + b[2]) * 256 + b[3]
  {
  }

  lemma HeaderUnique(b: seq<Byte>)
    requires |b| == 4
    ensures BigEndian(Uint32(b)) == b
  {
    Digits(b[0], b[1], b[2], b[3]);
  }

  lemma Digits(b0: int, b1: int, b2: int, b3: int)
    requires 0 <= b0 < 0x100 && 0 <= b1 < 0x100 && 0 <= b2 < 0x100 && 0 <= b3 < 0x100
    ensures var n := b0 * 0x100_0000 + b1 * 0x1_0000 + b2 * 0x100 + b3;
            && n / 0x100_0000 == b0 && n / 0x1_0000 % 0x100 == b1 && n / 0x100 % 0x100 == b2 && n % 0x100 == b3
  {
    var n := b0 * 0x100_0000 + b1 * 0x1_0000 + b2 * 0x100 + b3;
    assert n / 0x100 == b0 * 0x1_0000 + b1 * 0x100 + b2;
    assert n / 0x1_0000 == b0 * 0x100 + b1;
    assert n / 0x100_0000 == b0;
  }

  // --- Specification ------------------------------------------------------

  function Frame(payload: seq<Byte>): (s: seq<Byte>)
    requires |payload| <= MAX_FRAME_SIZE
    ensures |s| == 4 + |payload|
  {
    BigEndian(|payload|) + payload
  }

  // io.ReadFull of n bytes when `available` are left: an error that tells an
  // empty read from a cut one.
  function FullError(available: nat, n: nat): Option<FrameError> {
    if n <= available then None
    else if available == 0 then Some(Eof)
    else Some(UnexpectedEof)
  }

  datatype Read = Read(result: Result<seq<Byte>, FrameError>, consumed: nat)

  function ReadFrame(s: seq<Byte>): (r: Read)
    ensures r.consumed <= |s|
    ensures r.result.Ok? ==> r.consumed == 4 + |r.result.value|
  {
    var e := FullError(|s|, 4);
    if e.Some? then Read(Err(e.value), |s|)
    else
      var n := Uint32(s[..4]);
      if n > MAX_FRAME_SIZE then Read(Err(TooLarge(n)), 4)
      else
        var e := FullError(|s| - 4, n);
        if e.Some? then Read(Err(e.value), |s|) else Read(Ok(s[4..4 + n]), 4 + n)
  }

  // Reading until an error: the payloads, and that error.
  function ReadAll(s: seq<Byte>): (seq<seq<Byte>>, FrameError)
    decreases |s|
  {
    var r := ReadFrame(s);
    match r.result
    case Err(e) => ([], e)
    case Ok(p) =>
      var (ps, e) := ReadAll(s[r.consumed..]);
      ([p] + ps, e)
  }

  predicate Sendable(ps: seq<seq<Byte>>) {
    forall i | 0 <= i < |ps| :: |ps[i]| <= MAX_FRAME_SIZE
  }

  function EncodeAll(ps: seq<seq<Byte>>): seq<Byte>
    requires Sendable(ps)
  {
    if ps == [] then [] else Frame(ps[0]) + EncodeAll(ps[1..])
  }

  // A frame at the front is read back, whatever follows it.
  lemma ReadBack(payload: seq<Byte>, rest: seq<Byte>)
    requires |payload| <= MAX_FRAME_SIZE
    ensures ReadFrame(Frame(payload) + rest) == Read(Ok(payload), 4 + |payload|)
  {
    var s := Frame(payload) + rest;
    assert s[..4] == BigEndian(|payload|);
    HeaderRoundTrip(|payload|);
    assert s[4..4 + |payload|] == payload;
  }

  // And only frames are read: what was consumed is the frame of the payload.
  lemma ReadsOnlyFrames(s: seq<Byte>)
    requires ReadFrame(s).result.Ok?
    ensures var p := ReadFrame(s).result.value;
            |p| <= MAX_FRAME_SIZE && s[..ReadFrame(s).consumed] == Frame(p)
  {
    HeaderUnique(s[..4]);
    var n := Uint32(s[..4]);
    assert s[..4 + n] == s[..4] + s[4..4 + n];
  }

  // A length over 8 MiB is refused when its header has been read.
  lemma RefusesLarge(s: seq<Byte>)
    requires |s| >= 4
    ensures ReadFrame(s).result.Err? && ReadFrame(s).result.error.TooLarge? <==> Uint32(s[..4]) > 8 * 1024 * 1024
    ensures Uint32(s[..4]) > 8 * 1024 * 1024 ==> ReadFrame(s) == Read(Err(TooLarge(Uint32(s[..4]))), 4)
  {
  }

  // Cut short anywhere, a frame yields nothing: end of file at its very start
  // or just after its header, an unexpected end elsewhere.
  lemma ReadCut(payload: seq<Byte>, m: nat)
    requires |payload| <= MAX_FRAME_SIZE && m < |Frame(payload)|
    ensures ReadFrame(Frame(payload)[..m])
            == Read(Err(if m == 0 || m == 4 then Eof else UnexpectedEof), m)
  {
    if m >= 4 {
      assert Frame(payload)[..m][..4] == BigEndian(|payload|);
      HeaderRoundTrip(|payload|);
    }
  }

  // Of any prefix of a stream of frames, exactly the payloads whose frames lie
  // wholly inside it are read, in order, and then an error that tells whether
  // the cut fell at a frame's start or just after its header.
  lemma {:induction false} ReadPrefix(ps: seq<seq<Byte>>, m: nat) returns (k: nat)
    requires Sendable(ps) && m <= |EncodeAll(ps)|
    ensures k <= |ps| && |EncodeAll(ps[..k])| <= m
    ensures k < |ps| ==> m < |EncodeAll(ps[..k + 1])|
    ensures var left := m - |EncodeAll(ps[..k])|;
            ReadAll(EncodeAll(ps)[..m]) == (ps[..k], if left == 0 || left == 4 then Eof else UnexpectedEof)
    decreases |ps|
  {
    var s := EncodeAll(ps);
    if ps == [] {
      k := 0;
    } else {
      var f := Frame(ps[0]);
      assert EncodeAll([]) == [];
      assert ps[..1][0] == ps[0] && ps[..1][1..] == [];
      if m < |f| {
        k := 0;
        assert s[..m] == f[..m];
        ReadCut(ps[0], m);
      } else {
        var rest := ps[1..];
        var j := ReadPrefix(rest, m - |f|);
        k := j + 1;
        var more := EncodeAll(rest)[..m - |f|];
        assert s[..m] == f + more;
        ReadNext(ps[0], more);
        EncodeTake(ps, j);
        if j < |rest| {
          EncodeTake(ps, j + 1);
        }
      }
    }
  }

  lemma ReadNext(payload: seq<Byte>, more: seq<Byte>)
    requires |payload| <= MAX_FRAME_SIZE
    ensures ReadAll(Frame(payload) + more) == ([payload] + ReadAll(more).0, ReadAll(more).1)
  {
    ReadBack(payload, more);
    assert (Frame(payload) + more)[4 + |payload|..] == more;
  }

  lemma EncodeTake(ps: seq<seq<Byte>>, j: nat)
    requires Sendable(ps) && j < |ps|
    ensures ps[..j + 1] == [ps[0]] + ps[1..][..j]
    ensures EncodeAll(ps[..j + 1]) == Frame(ps[0]) + EncodeAll(ps[1..][..j])
  {
    assert ps[..j + 1][1..] == ps[1..][..j];
  }

  // --- Implementation -----------------------------------------------------

  // A connection that delivers its bytes in pieces of any size: how many of
  // those asked for at a position is up to `piece`.
  class Stream {
    const data: seq<Byte>
    const piece: (nat, nat) -> nat
    var pos: nat

    ghost predicate Valid()
      reads this
    {
      pos <= |data|
    }

    constructor (data: seq<Byte>, piece: (nat, nat) -> nat)
      ensures Valid() && pos == 0 && this.data == data
    {
      this.data := data;
      this.piece := piece;
      pos := 0;
    }

    // io.Reader: at least one byte unless the end has been reached.
    method Read(buf: array<Byte>, from: nat) returns (n: nat)
      requires Valid() && from < buf.Length
      modifies this, buf
      ensures Valid() && pos == old(pos) + n && from + n <= buf.Length
      ensures n == 0 <==> old(pos) == |data|
      ensures buf[..from] == old(buf[..from]) && buf[from..from + n] == data[old(pos)..pos]
      ensures buf[from + n..] == old(buf[from + n..])
    {
      var want := buf.Length - from;
      var left := |data| - pos;
      var most := if left < want then left else want;
      var p := piece(pos, want);
      n := if most == 0 then 0 else if p == 0 then 1 else if p > most then most else p;
      Copy(buf, from, n);
      pos := pos + n;
    }

    method Copy(buf: array<Byte>, from: nat, n: nat)
      requires pos + n <= |data| && from + n <= buf.Length
      modifies buf
      ensures buf[..from] == old(buf[..from]) && buf[from..from + n] == data[pos..pos + n]
      ensures buf[from + n..] == old(buf[from + n..])
    {
      for i := 0 to n
        invariant forall k | 0 <= k < from || from + i <= k < buf.Length :: buf[k] == old(buf[k])
        invariant buf[from..from + i] == data[pos..pos + i]
      {
        buf[from + i] := data[pos + i];
        assert buf[from..from + i + 1] == buf[from..from + i] + [data[pos + i]];
      }
    }
  }

  method ReadFull(r: Stream, buf: array<Byte>) returns (err: Option<FrameError>)
    requires r.Valid()
    modifies r, buf
    ensures r.Valid() && err == FullError(|r.data| - old(r.pos), buf.Length)
    ensures err.None? ==> r.pos == old(r.pos) + buf.Length && buf[..] == r.data[old(r.pos)..r.pos]
    ensures err.Some? ==> r.pos == |r.data|
  {
    var got := 0;
    while got < buf.Length
      invariant r.Valid() && got <= buf.Length && r.pos == old(r.pos) + got
      invariant buf[..got] == r.data[old(r.pos)..r.pos]
    {
      var n := r.Read(buf, got);
      if n == 0 {
        return Some(if got == 0 then Eof else UnexpectedEof);
      }
      assert r.data[old(r.pos)..r.pos] == r.data[old(r.pos)..old(r.pos) + got] + r.data[old(r.pos) + got..r.pos];
      assert buf[..got + n] == buf[..got] + buf[got..got + n];
      got := got + n;
    }
    assert buf[..] == buf[..got];
    return None;
  }

  method ReadLengthPrefixed(r: Stream) returns (result: Result<seq<Byte>, FrameError>)
    requires r.Valid()
    modifies r
    ensures r.Valid()
    ensures var spec := ReadFrame(r.data[old(r.pos)..]);
            result == spec.result && r.pos == old(r.pos) + spec.consumed
  {
    ghost var s := r.data[r.pos..];
    var hdr := new Byte[4](_ => 0);
    var err := ReadFull(r, hdr);
    if err.Some? {
      return Err(err.value);
    }
    assert hdr[..] == s[..4];
    var n := Uint32(hdr[..]);
    if n > MAX_FRAME_SIZE {
      return Err(TooLarge(n));
    }
    var buf := new Byte[n](_ => 0);
    err := ReadFull(r, buf);
    if err.Some? {
      return Err(err.value);
    }
    assert buf[..] == s[4..4 + n];
    return Ok(buf[..]);
  }

  type Decoder = seq<Byte> -> Option<Event>

  // The signals of some payloads; one that does not decode is skipped.
  function Decodable(decode: Decoder, payloads: seq<seq<Byte>>): seq<Event> {
    if payloads == [] then []
    else
      var last := decode(payloads[|payloads| - 1]);
      Decodable(decode, payloads[..|payloads| - 1]) + if last.Some? then [last.value] else []
  }

  lemma DecodableSnoc(decode: Decoder, payloads: seq<seq<Byte>>, p: seq<Byte>)
    ensures Decodable(decode, payloads + [p])
            == Decodable(decode, payloads) + if decode(p).Some? then [decode(p).value] else []
  {
    assert (payloads + [p])[..|payloads|] == payloads;
  }

  // The loop of the TCP input: it leaves at the first error of the reader or
  // when it finds its context done at the start of a round, and dispatches
  // what decodes. No error means that the context ended it.
  method Handle(r: Stream, decode: Decoder, done: nat -> bool)
    returns (dispatched: seq<Event>, err: Option<FrameError>, ghost payloads: seq<seq<Byte>>)
    requires r.Valid()
    modifies r
    ensures r.Valid() && dispatched == Decodable(decode, payloads)
    ensures payloads <= ReadAll(r.data[old(r.pos)..]).0 && forall i | 0 <= i < |payloads| :: !done(i)
    ensures err.Some? ==> (payloads, err.value) == ReadAll(r.data[old(r.pos)..]) && !done(|payloads|)
    ensures err.None? ==> done(|payloads|)
  {
    dispatched, err, payloads := [], None, [];
    ghost var all := ReadAll(r.data[r.pos..]);
    assert [] + all.0 == all.0;
    var i := 0;
    while !done(i)
      invariant r.Valid() && err == None && i == |payloads|
      invariant dispatched == Decodable(decode, payloads)
      invariant forall j | 0 <= j < i :: !done(j)
      invariant var rest := ReadAll(r.data[r.pos..]); all == (payloads + rest.0, rest.1)
      decreases |r.data| - r.pos
    {
      ghost var s := r.data[r.pos..];
      var next := ReadLengthPrefixed(r);
      match next
      case Err(e) =>
        assert payloads + [] == payloads;
        return dispatched, Some(e), payloads;
      case Ok(p) =>
        assert s[ReadFrame(s).consumed..] == r.data[r.pos..];
        assert payloads + ([p] + ReadAll(r.data[r.pos..]).0) == payloads + [p] + ReadAll(r.data[r.pos..]).0;
        DecodableSnoc(decode, payloads, p);
        var sig := decode(p);
        if sig.Some? {
          dispatched := dispatched + [sig.value];
        }
        payloads := payloads + [p];
        i := i + 1;
    }
  }

  // A connection that takes `capacity` bytes in all and then fails.
  class Sink {
    const capacity: nat
    var data: seq<Byte>

    ghost predicate Valid()
      reads this
    {
      |data| <= capacity
    }

    constructor (capacity: nat)
      ensures Valid() && data == [] && this.capacity == capacity
    {
      this.capacity := capacity;
      data := [];
    }

    method Write(bytes: seq<Byte>) returns (ok: bool)
      requires Valid()
      modifies this
      ensures Valid() && (ok <==> |old(data)| + |bytes| <= capacity)
      ensures data == old(data) + bytes[..if ok then |bytes| else capacity - |old(data)|]
    {
      ok := |data| + |bytes| <= capacity;
      data := data + bytes[..if ok then |bytes| else capacity - |data|];
    }
  }

  method WriteLengthPrefixed(w: Sink, payload: seq<Byte>) returns (err: Option<FrameError>)
    requires w.Valid()
    modifies w
    ensures w.Valid()
    ensures |payload| > MAX_FRAME_SIZE ==> err == Some(TooLarge(|payload|)) && w.data == old(w.data)
    ensures |payload| <= MAX_FRAME_SIZE ==>
              && (err == None || err == Some(WriteFailed))
              && (err == None <==> |old(w.data)| + 4 + |payload| <= w.capacity)
              && w.data == old(w.data)
                           + Frame(payload)[..if err == None then 4 + |payload| else w.capacity - |old(w.data)|]
  {
    if |payload| > MAX_FRAME_SIZE {
      return Some(TooLarge(|payload|));
    }
    var hdr := BigEndian(|payload|);
    var ok := w.Write(hdr);
    if !ok {
      assert hdr[..w.capacity - |old(w.data)|] == Frame(payload)[..w.capacity - |old(w.data)|];
      return Some(WriteFailed);
    }
    assert w.data == old(w.data) + hdr;
    ok := w.Write(payload);
    if !ok {
      return Some(WriteFailed);
    }
    assert hdr + payload == Frame(payload)[..4 + |payload|];
    return None;
  }
}
