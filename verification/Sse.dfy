/** The Server-Sent Events parser shared by the streaming connectors and the usage observer. */
module Sse {
  import opened Wrappers
  import opened Utf8

  datatype SseEvent = SseEvent(event: Option<string>, data: string)

  // ----- text primitives (`str::lines`, `str::trim`, `str::strip_prefix`) -----

  function IndexOf(t: string, c: char): (i: nat)
    ensures i <= |t| && (i < |t| ==> t[i] == c) && c !in t[..i]
  {
    if t == "" || t[0] == c then 0
    else
      assert t[..1 + IndexOf(t[1..], c)] == [t[0]] + t[1..][..IndexOf(t[1..], c)];
      1 + IndexOf(t[1..], c)
  }

  function StripCr(line: string): string {
    if line != "" && line[|line| - 1] == '\r' then line[..|line| - 1] else line
  }

  /** Lines end at LF or CR LF; the last line needs no terminator and then keeps a CR. */
  function Lines(t: string): seq<string> {
    if t == "" then []
    else
      var i := IndexOf(t, '\n');
      if i == |t| then [t] else [StripCr(t[..i])] + Lines(t[i + 1..])
  }

  /** The Unicode White_Space property. */
  predicate Whitespace(c: char) {
    var n := c as int;
    || 0x9 <= n <= 0xD || n == 0x20 || n == 0x85 || n == 0xA0 || n == 0x1680 || 0x2000 <= n <= 0x200A
    || n == 0x2028 || n == 0x2029 || n == 0x202F || n == 0x205F || n == 0x3000
  }

  function Trim(t: string): string {
    if t == "" then ""
    else if Whitespace(t[0]) then Trim(t[1..])
    else if Whitespace(t[|t| - 1]) then Trim(t[..|t| - 1])
    else t
  }

  function StripPrefix(t: string, p: string): Option<string> {
    if p <= t then Some(t[|p|..]) else None
  }

  // ----- one event's text -----

  const EVENT := "event:"
  const DATA := "data:"

  function DropSpace(t: string): string {
    if " " <= t then t[1..] else t
  }

  /** The last `event:` line wins. */
  function EventName(lines: seq<string>): Option<string> {
    if lines == [] then None
    else
      match StripPrefix(lines[|lines| - 1], EVENT)
      case Some(rest) => Some(Trim(rest))
      case None => EventName(lines[..|lines| - 1])
  }

  /** The payloads of the `data:` lines, in order; every other line is ignored. */
  function DataLines(lines: seq<string>): seq<string> {
    if lines == [] then []
    else
      var before := DataLines(lines[..|lines| - 1]);
      match StripPrefix(lines[|lines| - 1], DATA)
      case Some(rest) => before + [DropSpace(rest)]
      case None => before
  }

  function Join(lines: seq<string>): string {
    if lines == [] then ""
    else if |lines| == 1 then lines[0]
    else Join(lines[..|lines| - 1]) + "\n" + lines[|lines| - 1]
  }

  function DropLeadingEmpty(lines: seq<string>): seq<string> {
    if lines != [] && lines[0] == "" then DropLeadingEmpty(lines[1..]) else lines
  }

  /** What one frame means: leading empty data lines are lost, the rest are joined by LF. */
  function Parse(text: string): SseEvent {
    var lines := Lines(text);
    SseEvent(EventName(lines), Join(DropLeadingEmpty(DataLines(lines))))
  }

  lemma {:induction false} DropLeadingEmptySnoc(ls: seq<string>, x: string)
    ensures DropLeadingEmpty(ls + [x]) ==
            if DropLeadingEmpty(ls) == [] then DropLeadingEmpty([x]) else DropLeadingEmpty(ls) + [x]
  {
    if ls == [] {
      assert ls + [x] == [x];
    } else {
      assert (ls + [x])[1..] == ls[1..] + [x];
      DropLeadingEmptySnoc(ls[1..], x);
    }
  }

  lemma {:induction false} JoinEmpty(ls: seq<string>)
    ensures Join(DropLeadingEmpty(ls)) == "" <==> DropLeadingEmpty(ls) == []
  {
    if ls != [] && ls[0] == "" {
      JoinEmpty(ls[1..]);
    } else if |ls| > 1 {
      assert Join(ls) == Join(ls[..|ls| - 1]) + "\n" + ls[|ls| - 1];
    }
  }

  /** One more data line, as the accumulating loop sees it. */
  lemma JoinSnoc(ls: seq<string>, x: string)
    ensures var d := Join(DropLeadingEmpty(ls));
            Join(DropLeadingEmpty(ls + [x])) == if d == "" then x else d + "\n" + x
  {
    DropLeadingEmptySnoc(ls, x);
    JoinEmpty(ls);
    var kept := DropLeadingEmpty(ls);
    assert (kept + [x])[..|kept|] == kept;
  }

  method ParseText(text: string) returns (e: SseEvent)
    ensures e == Parse(text)
  {
    var lines := Lines(text);
    var event: Option<string> := None;
    var data := "";
    for i := 0 to |lines|
      invariant event == EventName(lines[..i])
      invariant data == Join(DropLeadingEmpty(DataLines(lines[..i])))
    {
      assert lines[..i + 1][..i] == lines[..i];
      var named := StripPrefix(lines[i], EVENT);
      var payload := StripPrefix(lines[i], DATA);
      assert named.Some? ==> lines[i][0] == 'e';  // so `payload` is `None`
      if named.Some? {
        event := Some(Trim(named.value));
      } else if payload.Some? {
        JoinSnoc(DataLines(lines[..i]), DropSpace(payload.value));
        if data != "" {
          data := data + "\n";
        }
        data := data + DropSpace(payload.value);
      }
    }
    assert lines[..|lines|] == lines;
    e := SseEvent(event, data);
  }

  // ----- framing -----

  /** Where the first LF LF starts, or `None`. */
  function FindBlank(b: seq<byte>): (r: Option<nat>)
    ensures r.Some? ==> r.value + 2 <= |b|
  {
    if |b| < 2 then None
    else if b[0] == LF && b[1] == LF then Some(0)
    else
      match FindBlank(b[1..])
      case None => None
      case Some(p) => Some(p + 1)
  }

  /** One `next_event`: the event and the buffer it leaves. A head frame that is not UTF-8 is
      not drained, so it blocks every later frame. */
  function Pull(buffer: seq<byte>): (r: (Option<SseEvent>, seq<byte>))
    ensures r.0.Some? ==> |r.1| < |buffer|
    ensures r.0.None? ==> r.1 == buffer
  {
    match FindBlank(buffer)
    case None => (None, buffer)
    case Some(p) =>
      match Decode(buffer[..p])
      case None => (None, buffer)
      case Some(text) => (Some(Parse(text)), buffer[p + 2..])
  }

  class SseParser {
    var buffer: seq<byte>

    constructor ()
      ensures buffer == []
    {
      buffer := [];
    }

    method Feed(bytes: seq<byte>)
      modifies this
      ensures buffer == old(buffer) + bytes
    {
      buffer := buffer + bytes;
    }

    method NextEvent() returns (e: Option<SseEvent>)
      modifies this
      ensures (e, buffer) == Pull(old(buffer))
    {
      var pos := FindBlank(buffer);
      if pos.None? {
        return None;
      }
      var text := Decode(buffer[..pos.value]);
      if text.None? {
        return None;
      }
      buffer := buffer[pos.value + 2..];
      var event := ParseText(text.value);
      return Some(event);
    }
  }

  /** Everything `next_event` yields until it returns `None`, and the buffer left over. */
  function Drain(buffer: seq<byte>): (seq<SseEvent>, seq<byte>)
    decreases |buffer|
  {
    var (e, rest) := Pull(buffer);
    if e.None? then ([], rest)
    else
      var (es, left) := Drain(rest);
      ([e.value] + es, left)
  }

  function Flatten<T>(parts: seq<seq<T>>): seq<T> {
    if parts == [] then [] else parts[0] + Flatten(parts[1..])
  }

  /** Feed each chunk and drain after it. */
  function DrainChunks(buffer: seq<byte>, chunks: seq<seq<byte>>): (seq<SseEvent>, seq<byte>)
    decreases |chunks|
  {
    if chunks == [] then ([], buffer)
    else
      var (es, left) := Drain(buffer + chunks[0]);
      var (es', left') := DrainChunks(left, chunks[1..]);
      (es + es', left')
  }

  lemma {:induction false} FindBlankPrefix(a: seq<byte>, b: seq<byte>)
    requires FindBlank(a).Some?
    ensures FindBlank(a + b) == FindBlank(a)
  {
    if !(a[0] == LF && a[1] == LF) {
      assert (a + b)[1..] == a[1..] + b;
      FindBlankPrefix(a[1..], b);
    }
  }

  lemma PullPrefix(a: seq<byte>, b: seq<byte>)
    requires FindBlank(a).Some?
    ensures Pull(a + b) == (Pull(a).0, Pull(a).1 + b)
  {
    hide FindBlank, Decode, Parse;
    FindBlankPrefix(a, b);
    var p := FindBlank(a).value;
    assert (a + b)[..p] == a[..p];
    assert (a + b)[p + 2..] == a[p + 2..] + b;
  }

  /** Draining early and then again after more bytes is draining once at the end. */
  lemma {:induction false} DrainSplit(a: seq<byte>, b: seq<byte>)
    ensures Drain(a + b) == (Drain(a).0 + Drain(Drain(a).1 + b).0, Drain(Drain(a).1 + b).1)
    decreases |a|
  {
    hide FindBlank, Decode, Parse;
    if FindBlank(a).Some? {
      PullPrefix(a, b);
    }
    if Pull(a).0.Some? {
      var rest := Pull(a).1;
      DrainSplit(rest, b);
      assert [Pull(a).0.value] + (Drain(rest).0 + Drain(Drain(rest).1 + b).0) == Drain(a).0 + Drain(Drain(a).1 + b).0;
    } else {
      assert Drain(a).0 + Drain(a + b).0 == Drain(a + b).0;
    }
  }

  /** Draining again without new bytes yields nothing. */
  lemma {:induction false} DrainIdempotent(a: seq<byte>)
    ensures Drain(Drain(a).1) == ([], Drain(a).1)
    decreases |a|
  {
    if Pull(a).0.Some? {
      DrainIdempotent(Pull(a).1);
    }
  }

  /** Chunking independence: any split of the bytes, drained after every feed, yields the
      events and the leftover buffer of a single feed of all of them. */
  lemma {:induction false} ChunkingIndependence(buffer: seq<byte>, chunks: seq<seq<byte>>)
    requires Drain(buffer) == ([], buffer)
    ensures DrainChunks(buffer, chunks) == Drain(buffer + Flatten(chunks))
    decreases |chunks|
  {
    hide Pull, Drain;
    if chunks == [] {
      assert buffer + Flatten(chunks) == buffer;
    } else {
      var left := Drain(buffer + chunks[0]).1;
      DrainIdempotent(buffer + chunks[0]);
      ChunkingIndependence(left, chunks[1..]);
      DrainSplit(buffer + chunks[0], Flatten(chunks[1..]));
      assert buffer + Flatten(chunks) == buffer + chunks[0] + Flatten(chunks[1..]);
    }
  }
}
