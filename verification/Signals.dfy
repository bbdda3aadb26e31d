// The event model shared by the SDK and the server, and the outcome types the
// Go code expresses with nil errors and (value, ok) pairs.
module Signals {
  datatype Option<+T> = None | Some(value: T)

  datatype Result<+T, +E> = Ok(value: T) | Err(error: E)

  // A JSON value tree. An object is a map because both decoders keep the last
  // of several equal keys; a number is kept as its literal.
  datatype Json =
    | JNull
    | JBool(truth: bool)
    | JNumber(literal: string)
    | JString(text: string)
    | JArray(items: seq<Json>)
    | JObject(fields: map<string, Json>)

  // An instant in nanoseconds and the zone offset it is displayed in. The zero
  // value of the Go type is the instant ZERO_INSTANT.
  datatype Time = Time(instant: int, offset: int) {
    predicate IsZero() {
      instant == ZERO_INSTANT
    }
  }

  const ZERO_INSTANT: int := 0
  const NANOS_PER_DAY: int := 86_400_000_000_000

  const KIND_LOG := "log"
  const KIND_METRIC := "metric"
  const KIND_CONFIG := "config"
  const KIND_PROBE := "probe"

  // An absent attribute map and an empty one are the same value here: the wire
  // form omits both.
  datatype Event = Event(
    kind: string,
    time: Time,
    level: string,
    service: string,
    host: string,
    message: string,
    traceId: string,
    attrs: map<string, Json>)

  function LowerChar(c: char): char {
    if 'A' <= c <= 'Z' then ((c as int) + 32) as char else c
  }

  // strings.ToLower on ASCII text.
  function ToLower(s: string): (r: string)
    ensures |r| == |s|
    ensures forall i | 0 <= i < |s| :: r[i] == LowerChar(s[i])
  {
    if s == [] then [] else [LowerChar(s[0])] + ToLower(s[1..])
  }

  lemma ToLowerIdempotent(s: string)
    ensures ToLower(ToLower(s)) == ToLower(s)
  {
    assert forall i | 0 <= i < |s| :: ToLower(ToLower(s))[i] == ToLower(s)[i];
  }

  predicate SameLetter(c: char, d: char) {
    || c == d
    || ('a' <= c <= 'z' && c as int - d as int == 32)
    || ('a' <= d <= 'z' && d as int - c as int == 32)
  }

  // Lower-casing makes the two cases of a letter equal, and nothing else.
  lemma LowerEqual(c: char, d: char)
    ensures LowerChar(c) == LowerChar(d) <==> SameLetter(c, d)
    ensures !('A' <= c <= 'Z') ==> LowerChar(c) == c
  {
    LowerIs(c);
    LowerIs(d);
  }

  lemma LowerIs(c: char)
    ensures LowerChar(c) as int == c as int + if 'A' <= c <= 'Z' then 32 else 0
  {
  }

  // strings.Contains.
  predicate Contains(text: string, part: string) {
    exists i | 0 <= i <= |text| :: PartAt(text, part, i)
  }

  predicate PartAt(text: string, part: string, i: nat) {
    i + |part| <= |text| && text[i..i + |part|] == part
  }

  // A part at a place of a text, whatever the case of either.
  predicate FoldedAt(text: string, part: string, i: nat) {
    i + |part| <= |text| && forall j | 0 <= j < |part| :: SameLetter(text[i + j], part[j])
  }

  lemma {:induction false} FoldedPart(text: string, part: string, i: nat)
    ensures PartAt(ToLower(text), ToLower(part), i) <==> FoldedAt(text, part, i)
  {
    if i + |part| <= |text| {
      var piece := ToLower(text)[i..i + |part|];
      forall j | 0 <= j < |part| ensures piece[j] == ToLower(part)[j] <==> SameLetter(text[i + j], part[j]) {
        LowerEqual(text[i + j], part[j]);
      }
    }
  }

  // Containment of the lower-cased texts is containment whatever the case.
  lemma ContainsFolded(text: string, part: string)
    ensures Contains(ToLower(text), ToLower(part)) <==> exists i | 0 <= i <= |text| :: FoldedAt(text, part, i)
  {
    forall i | 0 <= i <= |text| ensures PartAt(ToLower(text), ToLower(part), i) <==> FoldedAt(text, part, i) {
      FoldedPart(text, part, i);
    }
  }
}
