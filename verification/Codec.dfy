// pkg/codec/json.go over JSON value trees, and the line framing the store puts
// around it.
module Codec {
  import opened Signals
  import opened Framing

  const NEWLINE: Byte := 10
  const RETURN: Byte := 13

  type Less = (Event, Event) -> bool

  // The libraries the code calls: encoding/json between bytes and trees, the
  // RFC 3339 form of a time, and sort.Slice.
  datatype Library = Library(
    marshal: Json -> Option<seq<Byte>>,
    parse: seq<Byte> -> Option<Json>,
    formatTime: Time -> Option<string>,
    parseTime: string -> Option<Time>,
    sort: (seq<Event>, Less) -> seq<Event>)
  {
    // What is assumed of them: JSON and times that can be written are read
    // back, an encoding is one line that does not end in a carriage return,
    // and sorting permutes its input, into order if the comparison is one.
    ghost predicate Valid() {
      && (forall v: Json :: marshal(v).Some? ==> parse(marshal(v).value) == Some(v) && OneLine(marshal(v).value))
      && (forall t: Time :: formatTime(t).Some? ==>
            formatTime(t).value != "" && parseTime(formatTime(t).value) == Some(t))
      && (forall es: seq<Event>, less: Less ::
            && multiset(sort(es, less)) == multiset(es)
            && (WeakOrder(less) ==> InOrder(sort(es, less), less)))
    }
  }

  predicate OneLine(b: seq<Byte>) {
    NEWLINE !in b && b != [] && b[|b| - 1] != RETURN
  }

  // A comparison sort.Slice is made for: irreflexive, transitive, and of two
  // different elements every third differs from one.
  ghost predicate WeakOrder(less: Less) {
    && (forall a :: !less(a, a))
    && (forall a, b, c | less(a, b) && less(b, c) :: less(a, c))
    && (forall a, b, c | less(a, b) :: less(a, c) || less(c, b))
  }

  predicate InOrder(es: seq<Event>, less: Less) {
    forall i, j | 0 <= i < j < |es| :: !less(es[j], es[i])
  }

  predicate Later(a: Event, b: Event) {
    a.time.instant > b.time.instant
  }

  // How Query sorts what it found.
  function SortedLater(lib: Library, es: seq<Event>): seq<Event> {
    lib.sort(es, Later)
  }

  lemma SortsNewestFirst(lib: Library, es: seq<Event>)
    requires lib.Valid()
    ensures multiset(SortedLater(lib, es)) == multiset(es) && NewestFirst(SortedLater(lib, es))
  {
    assert WeakOrder(Later);
    var r := SortedLater(lib, es);
    assert |multiset(r)| == |multiset(es)|;
    forall i, j | 0 <= i < j < |r| ensures r[i].time.instant >= r[j].time.instant {
      assert !Later(r[j], r[i]);
    }
  }

  predicate NewestFirst(es: seq<Event>) {
    forall i, j | 0 <= i < j < |es| :: es[i].time.instant >= es[j].time.instant
  }

  // The member names of an event on the wire.
  datatype Names = Names(kind: string, ts: string, level: string, service: string, host: string,
                         msg: string, message: string, traceId: string, attrs: string) {
    function List(): seq<string> {
      [kind, ts, level, service, host, msg, message, traceId, attrs]
    }

    predicate Distinct() {
      forall i, j | 0 <= i < j < |List()| :: List()[i] != List()[j]
    }
  }

  const NAMES := Names("kind", "ts", "level", "service", "host", "msg", "message", "trace_id", "attrs")

  lemma NamesDiffer()
    ensures NAMES.Distinct()
  {
    assert forall i | 0 <= i < 9 :: NAMES.List()[i][0] == ['k', 't', 'l', 's', 'h', 'm', 'm', 't', 'a'][i];
    assert |"ts"| != |"trace_id"| && |"msg"| != |"message"|;
  }

  // --- EncodeJSON ---------------------------------------------------------

  // A string member with omitempty.
  function Put(fields: map<string, Json>, key: string, s: string): map<string, Json> {
    if s == "" then fields else fields[key := JString(s)]
  }

  // The members of an Event whose time is written ts.
  function EventFields(n: Names, e: Event, ts: string): map<string, Json> {
    var f := map[n.kind := JString(e.kind), n.ts := JString(ts)];
    var f := Put(Put(Put(f, n.level, e.level), n.service, e.service), n.host, e.host);
    var f := Put(Put(f, n.msg, e.message), n.traceId, e.traceId);
    if e.attrs == map[] then f else f[n.attrs := JObject(e.attrs)]
  }

  function EncodeJSON(lib: Library, e: Event): Option<seq<Byte>> {
    match lib.formatTime(e.time)
    case None => None
    case Some(ts) => lib.marshal(JObject(EventFields(NAMES, e, ts)))
  }

  // --- DecodeJSON ---------------------------------------------------------

  // A field unmarshalled into a string variable: a value of another type
  // leaves it as it was.
  function Unmarshalled(fields: map<string, Json>, key: string, current: string): string {
    if key in fields && fields[key].JString? then fields[key].text else current
  }

  function StringField(fields: map<string, Json>, key: string): string {
    Unmarshalled(fields, key, "")
  }

  function TimeField(lib: Library, n: Names, fields: map<string, Json>): Time {
    var ts := StringField(fields, n.ts);
    if ts != "" && lib.parseTime(ts).Some? then lib.parseTime(ts).value else Time(ZERO_INSTANT, 0)
  }

  function OrLog(kind: string): string {
    if kind == "" then KIND_LOG else kind
  }

  function Decoded(lib: Library, payload: seq<Byte>): Option<Event> {
    match lib.parse(payload)
    case Some(JObject(fields)) => Some(EventOf(lib, NAMES, fields))
    case Some(JNull) => Some(EventOf(lib, NAMES, map[]))
    case _ => None
  }

  function EventOf(lib: Library, n: Names, fields: map<string, Json>): Event {
    Event(
      OrLog(StringField(fields, n.kind)),
      TimeField(lib, n, fields),
      StringField(fields, n.level),
      StringField(fields, n.service),
      StringField(fields, n.host),
      if n.msg in fields then StringField(fields, n.msg) else StringField(fields, n.message),
      StringField(fields, n.traceId),
      if n.attrs in fields && fields[n.attrs].JObject? then fields[n.attrs].fields else map[])
  }

  // The event, and the copy of its bytes it keeps.
  method DecodeJSON(lib: Library, payload: seq<Byte>) returns (r: Option<Event>, bytes: seq<Byte>)
    ensures r == Decoded(lib, payload) && bytes == if r.Some? then payload else []
  {
    var tree := lib.parse(payload);
    if tree.None? || (!tree.value.JObject? && !tree.value.JNull?) {
      return None, [];
    }
    var n := NAMES;
    var raw := if tree.value.JObject? then tree.value.fields else map[];
    var ev := Event("", Time(ZERO_INSTANT, 0), "", "", "", "", "", map[]);
    ev := ev.(kind := Unmarshalled(raw, n.kind, ev.kind));
    if ev.kind == "" {
      ev := ev.(kind := KIND_LOG);
    }
    var ts := Unmarshalled(raw, n.ts, "");
    if ts != "" {
      var t := lib.parseTime(ts);
      if t.Some? {
        ev := ev.(time := t.value);
      }
    }
    ev := ev.(level := Unmarshalled(raw, n.level, ev.level));
    ev := ev.(service := Unmarshalled(raw, n.service, ev.service));
    ev := ev.(host := Unmarshalled(raw, n.host, ev.host));
    if n.msg in raw {
      ev := ev.(message := Unmarshalled(raw, n.msg, ev.message));
    } else if n.message in raw {
      ev := ev.(message := Unmarshalled(raw, n.message, ev.message));
    }
    ev := ev.(traceId := Unmarshalled(raw, n.traceId, ev.traceId));
    if n.attrs in raw && raw[n.attrs].JObject? {
      ev := ev.(attrs := raw[n.attrs].fields);
    }
    return Some(ev), payload;
  }

  // s is the string member of this name, or empty if there is none or it is
  // not a string.
  predicate Holds(fields: map<string, Json>, name: string, s: string) {
    if name in fields && fields[name].JString? then s == fields[name].text else s == ""
  }

  // What each member of an object is decoded to. The message is the member
  // msg, and the member message only if there is no msg of any type; a missing
  // or unreadable ts is the zero time.
  lemma DecodesMembers(lib: Library, payload: seq<Byte>, fields: map<string, Json>)
    requires lib.parse(payload) == Some(JObject(fields))
    ensures Decoded(lib, payload).Some?
    ensures var e := Decoded(lib, payload).value;
            && (if Holds(fields, "kind", "") then e.kind == "log" else Holds(fields, "kind", e.kind))
            && Holds(fields, "level", e.level) && Holds(fields, "service", e.service)
            && Holds(fields, "host", e.host) && Holds(fields, "trace_id", e.traceId)
            && Holds(fields, if "msg" in fields then "msg" else "message", e.message)
    ensures var e := Decoded(lib, payload).value;
            && (forall ts, t | "ts" in fields && fields["ts"] == JString(ts) && ts != "" && lib.parseTime(ts) == Some(t)
                  :: e.time == t)
            && ((forall ts | "ts" in fields && fields["ts"] == JString(ts) :: ts == "" || lib.parseTime(ts).None?) ==>
                  e.time == Time(ZERO_INSTANT, 0))
            && e.attrs == if "attrs" in fields && fields["attrs"].JObject? then fields["attrs"].fields else map[]
  {
  }

  // null is the object without members, and nothing else but an object decodes.
  lemma DecodesObjects(lib: Library, payload: seq<Byte>)
    ensures Decoded(lib, payload).None?
            <==> lib.parse(payload).None? || !(lib.parse(payload).value.JObject? || lib.parse(payload).value.JNull?)
    ensures lib.parse(payload) == Some(JNull) ==>
              Decoded(lib, payload) == Some(Event("log", Time(ZERO_INSTANT, 0), "", "", "", "", "", map[]))
  {
  }

  // What an event reads back as: an empty kind is log.
  function Canonical(e: Event): Event {
    e.(kind := OrLog(e.kind))
  }

  lemma CodecRoundTrip(lib: Library, e: Event)
    requires lib.Valid() && EncodeJSON(lib, e).Some?
    ensures Decoded(lib, EncodeJSON(lib, e).value) == Some(Canonical(e))
    ensures OneLine(EncodeJSON(lib, e).value)
  {
    var ts := lib.formatTime(e.time).value;
    NamesDiffer();
    FieldsRoundTrip(lib, NAMES, e, ts);
  }

  lemma FieldsRoundTrip(lib: Library, n: Names, e: Event, ts: string)
    requires n.Distinct() && ts != "" && lib.parseTime(ts) == Some(e.time)
    ensures EventOf(lib, n, EventFields(n, e, ts)) == Canonical(e)
  {
    FieldsHead(n, e, ts);
    FieldsMiddle(n, e, ts);
    FieldsTail(n, e, ts);
  }

  function Place(names: seq<string>, name: string): nat {
    if names == [] || names[0] == name then 0 else 1 + Place(names[1..], name)
  }

  lemma {:induction false} PlaceOf(names: seq<string>, i: nat)
    requires i < |names| && forall j | 0 <= j < i :: names[j] != names[i]
    ensures Place(names, names[i]) == i
  {
    if i > 0 {
      PlaceOf(names[1..], i - 1);
    }
  }

  // Each name has a place of its own.
  lemma Places(n: Names)
    requires n.Distinct()
    ensures var l := n.List();
            && Place(l, n.kind) == 0 && Place(l, n.ts) == 1 && Place(l, n.level) == 2 && Place(l, n.service) == 3
            && Place(l, n.host) == 4 && Place(l, n.msg) == 5 && Place(l, n.message) == 6
            && Place(l, n.traceId) == 7 && Place(l, n.attrs) == 8
  {
    var l := n.List();
    forall i | 0 <= i < |l| ensures Place(l, l[i]) == i {
      PlaceOf(l, i);
    }
    assert l[0] == n.kind && l[1] == n.ts && l[2] == n.level && l[3] == n.service && l[4] == n.host;
    assert l[5] == n.msg && l[6] == n.message && l[7] == n.traceId && l[8] == n.attrs;
  }

  lemma FieldsHead(n: Names, e: Event, ts: string)
    requires n.Distinct()
    ensures var f := EventFields(n, e, ts);
            StringField(f, n.kind) == e.kind && StringField(f, n.ts) == ts
  {
    Places(n);
  }

  lemma FieldsMiddle(n: Names, e: Event, ts: string)
    requires n.Distinct()
    ensures var f := EventFields(n, e, ts);
            && StringField(f, n.level) == e.level && StringField(f, n.service) == e.service
            && StringField(f, n.host) == e.host
  {
    Places(n);
  }

  lemma FieldsTail(n: Names, e: Event, ts: string)
    requires n.Distinct()
    ensures var f := EventFields(n, e, ts);
            && n.message !in f && StringField(f, n.msg) == e.message
            && StringField(f, n.traceId) == e.traceId
            && (if n.attrs in f && f[n.attrs].JObject? then f[n.attrs].fields else map[]) == e.attrs
  {
    Places(n);
  }

  // A member of the wire form that is left out when empty.
  predicate Omits(fields: map<string, Json>, name: string, s: string) {
    if s == "" then name !in fields else name in fields && fields[name] == JString(s)
  }

  // The wire form of an event.
  lemma EncodesMembers(e: Event, ts: string)
    ensures var f := EventFields(NAMES, e, ts);
            && f.Keys <= {"kind", "ts", "level", "service", "host", "msg", "trace_id", "attrs"}
            && "kind" in f && f["kind"] == JString(e.kind) && "ts" in f && f["ts"] == JString(ts)
            && Omits(f, "level", e.level) && Omits(f, "service", e.service) && Omits(f, "host", e.host)
            && Omits(f, "msg", e.message) && Omits(f, "trace_id", e.traceId)
            && (if e.attrs == map[] then "attrs" !in f else "attrs" in f && f["attrs"] == JObject(e.attrs))
  {
    NamesDiffer();
    MembersOf(NAMES, e, ts);
    OmitsHead(NAMES, e, ts);
    OmitsTail(NAMES, e, ts);
  }

  lemma MembersOf(n: Names, e: Event, ts: string)
    ensures EventFields(n, e, ts).Keys <= {n.kind, n.ts, n.level, n.service, n.host, n.msg, n.traceId, n.attrs}
  {
  }

  lemma OmitsHead(n: Names, e: Event, ts: string)
    requires n.Distinct()
    ensures var f := EventFields(n, e, ts);
            && n.kind in f && f[n.kind] == JString(e.kind) && n.ts in f && f[n.ts] == JString(ts)
            && Omits(f, n.level, e.level) && Omits(f, n.service, e.service)
  {
    Places(n);
  }

  lemma OmitsTail(n: Names, e: Event, ts: string)
    requires n.Distinct()
    ensures var f := EventFields(n, e, ts);
            && Omits(f, n.host, e.host) && Omits(f, n.msg, e.message) && Omits(f, n.traceId, e.traceId)
            && (if e.attrs == map[] then n.attrs !in f else n.attrs in f && f[n.attrs] == JObject(e.attrs))
  {
    Places(n);
  }

  // --- Lines --------------------------------------------------------------

  // bufio.Scanner with the store's buffer gives up at a line of 8 MiB.
  const MAX_LINE: nat := 0x80_0000

  function LineLength(s: seq<Byte>): (n: nat)
    ensures n <= |s| && NEWLINE !in s[..n]
    ensures n < |s| ==> s[n] == NEWLINE
  {
    if s == [] || s[0] == NEWLINE then 0
    else
      assert s == [s[0]] + s[1..];
      var n := LineLength(s[1..]);
      assert s[..n + 1] == [s[0]] + s[1..][..n];
      n + 1
  }

  function DropReturn(line: seq<Byte>): seq<Byte> {
    if line != [] && line[|line| - 1] == RETURN then line[..|line| - 1] else line
  }

  // The tokens of the scanner: lines without their ends, up to the first that
  // is too long; an unfinished last line is a token too.
  function Scan(s: seq<Byte>): seq<seq<Byte>>
    decreases |s|
  {
    var n := LineLength(s);
    if s == [] || n >= MAX_LINE then []
    else [DropReturn(s[..n])] + if n < |s| then Scan(s[n + 1..]) else []
  }

  // One round of the scanner.
  lemma ScanStep(s: seq<Byte>)
    requires s != [] && LineLength(s) < MAX_LINE
    ensures var n := LineLength(s);
            Scan(s) == [DropReturn(s[..n])] + Scan(if n < |s| then s[n + 1..] else [])
  {
  }

  lemma LineLengthIs(line: seq<Byte>, rest: seq<Byte>)
    requires NEWLINE !in line
    ensures LineLength(line + [NEWLINE] + rest) == |line|
  {
    var s := line + [NEWLINE] + rest;
    if line != [] {
      assert s[0] == line[0] && s[1..] == line[1..] + [NEWLINE] + rest;
      LineLengthIs(line[1..], rest);
    }
  }

  // A carriage return before the end of a line is not part of it.
  lemma ScanDropsReturn(line: seq<Byte>, rest: seq<Byte>)
    requires NEWLINE !in line && |line| + 1 < MAX_LINE
    ensures Scan(line + [13, 10] + rest) == [line] + Scan(rest)
  {
    var whole := line + [RETURN];
    assert line + [13, 10] + rest == whole + [NEWLINE] + rest;
    var s := whole + [NEWLINE] + rest;
    LineLengthIs(whole, rest);
    assert s[..|whole|] == whole && whole[..|line|] == line;
    assert s[|whole| + 1..] == rest;
  }

  // The last line need not be ended.
  lemma ScanUnended(line: seq<Byte>)
    requires OneLine(line) && |line| < MAX_LINE
    ensures Scan(line) == [line]
  {
    LineLengthAll(line);
    assert line[..|line|] == line;
  }

  lemma LineLengthAll(line: seq<Byte>)
    requires NEWLINE !in line
    ensures LineLength(line) == |line|
  {
    if LineLength(line) < |line| {
      assert line[LineLength(line)] == NEWLINE;
    }
  }

  // A line of 8 MiB or more ends the scan; nothing behind it is read.
  lemma ScanStops(line: seq<Byte>, rest: seq<Byte>)
    requires NEWLINE !in line && |line| >= 8 * 1024 * 1024
    ensures Scan(line + [10] + rest) == [] && Scan(line) == []
  {
    LineLengthIs(line, rest);
    LineLengthAll(line);
  }

  lemma ScanFirst(line: seq<Byte>, rest: seq<Byte>)
    requires OneLine(line) && |line| < MAX_LINE
    ensures Scan(line + [NEWLINE] + rest) == [line] + Scan(rest)
  {
    var s := line + [NEWLINE] + rest;
    LineLengthIs(line, rest);
    assert s[..|line|] == line;
    assert s[|line| + 1..] == rest;
  }
}
