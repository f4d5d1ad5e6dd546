/** What framing and parsing preserve: draining accounts for every byte, and a printed event
    parses back to itself exactly when no leading empty data line is lost. */
module SseRoundTrip {
  import opened Wrappers
  import opened Utf8
  import opened Sse

  // ----- draining is lossless -----

  const BLANK: seq<byte> := [LF, LF]

  /** The texts of the frames that `Drain` consumes. */
  ghost function Frames(buffer: seq<byte>): seq<string>
    decreases |buffer|
  {
    if Pull(buffer).0.None? then []
    else [Decode(buffer[..FindBlank(buffer).value]).value] + Frames(Pull(buffer).1)
  }

  ghost function FrameBytes(frames: seq<string>): seq<byte> {
    if frames == [] then [] else Encode(frames[0]) + BLANK + FrameBytes(frames[1..])
  }

  /** No LF LF ends earlier than the one that closes the frame. */
  ghost predicate OneFrame(text: string) {
    FindBlank(Encode(text) + BLANK) == Some(|Encode(text)|)
  }

  /** The head frame is complete but not UTF-8. */
  ghost predicate Blocked(buffer: seq<byte>) {
    FindBlank(buffer).Some? && Decode(buffer[..FindBlank(buffer).value]).None?
  }

  lemma {:induction false} FindBlankCloses(b: seq<byte>)
    requires FindBlank(b).Some?
    ensures var p := FindBlank(b).value;
            b[p..p + 2] == BLANK && FindBlank(b[..p] + BLANK) == Some(p)
  {
    var p := FindBlank(b).value;
    if p > 0 {
      FindBlankCloses(b[1..]);
      assert b[1..][p - 1..p + 1] == b[p..p + 2];
      var c := b[..p] + BLANK;
      assert c[1..] == b[1..][..p - 1] + BLANK;
      assert c[1] == b[1];
    }
  }

  lemma HeadFrame(buffer: seq<byte>)
    requires Pull(buffer).0.Some?
    ensures buffer == Encode(Frames(buffer)[0]) + BLANK + Pull(buffer).1
    ensures OneFrame(Frames(buffer)[0]) && Pull(buffer).0.value == Parse(Frames(buffer)[0])
  {
    hide FindBlank, Decode, Encode, Parse;
    var p := FindBlank(buffer).value;
    FindBlankCloses(buffer);
    EncodeDecode(buffer[..p]);
    assert buffer == buffer[..p] + buffer[p..p + 2] + buffer[p + 2..];
  }

  ghost function ParseAll(frames: seq<string>): seq<SseEvent> {
    if frames == [] then [] else [Parse(frames[0])] + ParseAll(frames[1..])
  }

  /** Every byte fed is in exactly one drained frame, in order, or still in the buffer; and the
      buffer is left only when it has no complete frame or its head frame is not UTF-8. */
  lemma {:induction false} DrainIsLossless(buffer: seq<byte>)
    ensures buffer == FrameBytes(Frames(buffer)) + Drain(buffer).1
    ensures Drain(buffer).0 == ParseAll(Frames(buffer))
    ensures forall f | f in Frames(buffer) :: OneFrame(f)
    ensures FindBlank(Drain(buffer).1).None? || Blocked(Drain(buffer).1)
    decreases |buffer|
  {
    hide FindBlank, Decode, Encode, Parse, Pull, OneFrame, Blocked;
    if Pull(buffer).0.Some? {
      var rest := Pull(buffer).1;
      HeadFrame(buffer);
      DrainIsLossless(rest);
      var head := Encode(Frames(buffer)[0]) + BLANK;
      assert Frames(buffer) == [Frames(buffer)[0]] + Frames(rest);
      assert Frames(buffer)[1..] == Frames(rest);
      assert head + (FrameBytes(Frames(rest)) + Drain(rest).1) == (head + FrameBytes(Frames(rest))) + Drain(rest).1;
    } else {
      NoPull(buffer);
      assert buffer == FrameBytes([]) + buffer;
    }
  }

  lemma NoPull(buffer: seq<byte>)
    ensures Pull(buffer).0.None? <==> FindBlank(buffer).None? || Blocked(buffer)
  {
    hide FindBlank, Decode, Parse;
  }

  // ----- a frame that is not UTF-8 -----

  /** The complete frames of a buffer, whether or not they are UTF-8. */
  ghost function RawFrames(buffer: seq<byte>): seq<seq<byte>>
    decreases |buffer|
  {
    match FindBlank(buffer)
    case None => []
    case Some(p) => [buffer[..p]] + RawFrames(buffer[p + 2..])
  }

  /** The texts of the frames before the first one that is not UTF-8. */
  ghost function TextsBeforeBad(frames: seq<seq<byte>>): seq<string> {
    if frames == [] || Decode(frames[0]).None? then [] else [Decode(frames[0]).value] + TextsBeforeBad(frames[1..])
  }

  ghost predicate AllDecode(frames: seq<seq<byte>>) {
    forall f | f in frames :: Decode(f).Some?
  }

  /** The frames pulled are those before the first that is not UTF-8, so every complete frame
      is pulled exactly when all of them are UTF-8. */
  lemma {:induction false} DrainStopsAtBadFrame(buffer: seq<byte>)
    ensures Frames(buffer) == TextsBeforeBad(RawFrames(buffer))
    ensures FindBlank(Drain(buffer).1).None? <==> AllDecode(RawFrames(buffer))
    decreases |buffer|
  {
    hide FindBlank, Decode, Parse;
    var raw := RawFrames(buffer);
    if FindBlank(buffer).Some? {
      var p := FindBlank(buffer).value;
      assert raw[0] == buffer[..p] && raw[1..] == RawFrames(buffer[p + 2..]);
      if Decode(buffer[..p]).Some? {
        assert Pull(buffer).1 == buffer[p + 2..];
        DrainStopsAtBadFrame(buffer[p + 2..]);
        assert raw == [raw[0]] + raw[1..];
      }
    }
  }

  /** Whatever is fed after a head frame that is not UTF-8, in whatever chunks, no event is ever
      pulled again and all of it piles up in the buffer. */
  lemma BlockedForGood(buffer: seq<byte>, chunks: seq<seq<byte>>)
    requires Blocked(buffer)
    ensures DrainChunks(buffer, chunks) == ([], buffer + Flatten(chunks))
  {
    hide FindBlank, Decode, Parse, DrainChunks, Flatten;
    assert Drain(buffer) == ([], buffer) by { NoPull(buffer); }
    ChunkingIndependence(buffer, chunks);
    PullPrefix(buffer, Flatten(chunks));
    NoPull(buffer);
  }

  const BAD_FRAME: seq<byte> := [0xFF, LF, LF]

  /** One stray byte is enough: every later event, however well formed, is lost. */
  lemma BadByteBlocks(e: Option<string>, data: seq<string>)
    requires Printable(e, data)
    ensures Drain(Print(e, data)).0 != []
    ensures Drain(BAD_FRAME + Print(e, data)).0 == []
  {
    hide Print, Printable;
    assert Print(e, data) + [] == Print(e, data);
    PrintThenPull(e, data, []);
    assert FindBlank(BAD_FRAME) == Some(1) by { assert BAD_FRAME[1..] == [LF, LF]; }
    assert Decode([0xFF]).None?;
    assert BAD_FRAME[..1] == [0xFF];
    PullPrefix(BAD_FRAME, Print(e, data));
  }

  // ----- printing an event -----

  predicate Line(l: string) {
    '\n' !in l && (l == "" || l[|l| - 1] != '\r')
  }

  predicate Printable(e: Option<string>, data: seq<string>) {
    && (e.Some? ==> '\n' !in e.value && Trim(e.value) == e.value)
    && forall l | l in data :: Line(l)
  }

  /** The event written out one field per line: `event: <name>`, then `data: <line>` each. */
  function FieldLines(e: Option<string>, data: seq<string>): seq<string> {
    if data == [] then
      if e.Some? then ["event: " + e.value] else []
    else FieldLines(e, data[..|data| - 1]) + ["data: " + data[|data| - 1]]
  }

  function Print(e: Option<string>, data: seq<string>): seq<byte> {
    Encode(Join(FieldLines(e, data))) + BLANK
  }

  lemma {:induction false} TrimEndsInk(t: string)
    ensures Trim(t) == "" || (!Whitespace(Trim(t)[0]) && !Whitespace(Trim(t)[|Trim(t)| - 1]))
    decreases |t|
  {
    if t != "" {
      if Whitespace(t[0]) {
        TrimEndsInk(t[1..]);
      } else if Whitespace(t[|t| - 1]) {
        TrimEndsInk(t[..|t| - 1]);
      }
    }
  }

  predicate FieldLine(l: string) {
    l != "" && Line(l)
  }

  lemma {:induction false} FieldLinesAreLines(e: Option<string>, data: seq<string>)
    requires Printable(e, data)
    ensures forall l | l in FieldLines(e, data) :: FieldLine(l)
  {
    if data == [] {
      if e.Some? {
        TrimEndsInk(e.value);
      }
    } else {
      FieldLinesAreLines(e, data[..|data| - 1]);
      assert Line(data[|data| - 1]);
    }
  }

  lemma EventFieldParses(name: string)
    requires Trim(name) == name
    ensures StripPrefix("event: " + name, EVENT) == Some(" " + name) && Trim(" " + name) == name
    ensures StripPrefix("event: " + name, DATA).None?
  {
    var l := "event: " + name;
    assert l[0] == 'e';
    assert l[|EVENT|..] == " " + name;
    assert (" " + name)[1..] == name;
  }

  lemma DataFieldParses(line: string)
    ensures StripPrefix("data: " + line, EVENT).None?
    ensures StripPrefix("data: " + line, DATA) == Some(" " + line) && DropSpace(" " + line) == line
  {
    var l := "data: " + line;
    assert l[0] == 'd';
    assert l[|DATA|..] == " " + line;
    assert (" " + line)[1..] == line;
  }

  lemma {:induction false} ParsedFields(e: Option<string>, data: seq<string>)
    requires Printable(e, data)
    ensures EventName(FieldLines(e, data)) == e
    ensures DataLines(FieldLines(e, data)) == data
  {
    hide StripPrefix, DropSpace, Trim, Line;
    var ls := FieldLines(e, data);
    if data == [] {
      if e.Some? {
        EventFieldParses(e.value);
        assert ls[..0] == FieldLines(None, []);
      }
    } else {
      var before := data[..|data| - 1];
      ParsedFields(e, before);
      DataFieldParses(data[|data| - 1]);
      assert ls[..|ls| - 1] == FieldLines(e, before);
    }
  }

  lemma {:induction false} JoinCons(x: string, ls: seq<string>)
    requires ls != []
    ensures Join([x] + ls) == x + "\n" + Join(ls)
  {
    var all := [x] + ls;
    if |ls| == 1 {
      assert all[..1] == [x];
    } else {
      assert all[..|all| - 1] == [x] + ls[..|ls| - 1];
      JoinCons(x, ls[..|ls| - 1]);
    }
  }

  lemma {:induction false} IndexOfAt(s: string, t: string)
    requires '\n' !in s && t != "" && t[0] == '\n'
    ensures IndexOf(s + t, '\n') == |s|
  {
    if s == "" {
      assert s + t == t;
    } else {
      assert (s + t)[1..] == s[1..] + t;
      IndexOfAt(s[1..], t);
    }
  }

  lemma {:induction false} LinesOfJoin(ls: seq<string>)
    requires forall l | l in ls :: FieldLine(l)
    ensures Lines(Join(ls)) == ls
  {
    if |ls| == 1 {
      assert FieldLine(ls[0]);
      assert ls == [ls[0]];
    } else if |ls| > 1 {
      assert ls == [ls[0]] + ls[1..];
      JoinCons(ls[0], ls[1..]);
      assert FieldLine(ls[0]);
      var t := Join(ls);
      assert t == ls[0] + ("\n" + Join(ls[1..]));
      IndexOfAt(ls[0], "\n" + Join(ls[1..]));
      assert t[..|ls[0]|] == ls[0] && t[|ls[0]| + 1..] == Join(ls[1..]);
      LinesOfJoin(ls[1..]);
    }
  }

  lemma {:induction false} JoinUnchanged(data: seq<string>)
    requires forall l | l in data :: '\n' !in l
    ensures Join(DropLeadingEmpty(data)) == Join(data) <==> |data| <= 1 || data[0] != ""
  {
    if |data| > 1 && data[0] == "" {
      assert data == [data[0]] + data[1..];
      JoinCons("", data[1..]);
      JoinShrinks(data[1..]);
      assert |Join(data)| == 1 + |Join(data[1..])|;
    }
  }

  lemma {:induction false} JoinShrinks(data: seq<string>)
    ensures |Join(DropLeadingEmpty(data))| <= |Join(data)|
  {
    if data != [] && data[0] == "" {
      JoinShrinks(data[1..]);
      assert data == [data[0]] + data[1..];
      if |data| > 1 {
        JoinCons(data[0], data[1..]);
      }
    }
  }

  // ----- a printed event is one frame -----

  lemma OnlyNewlineHasLf(c: char)
    requires c != '\n'
    ensures LF !in EncodeChar(c)
  {
  }

  lemma {:induction false} SkipText(s: string, rest: seq<byte>)
    requires '\n' !in s && rest != []
    ensures FindBlank(Encode(s) + rest) ==
            match FindBlank(rest) case None => None case Some(p) => Some(|Encode(s)| + p)
  {
    hide FindBlank, EncodeChar;
    if s == "" {
      assert Encode(s) + rest == rest;
    } else {
      var tail := Encode(s[1..]) + rest;
      SkipText(s[1..], rest);
      OnlyNewlineHasLf(s[0]);
      SkipBytes(EncodeChar(s[0]), tail);
      assert Encode(s) + rest == EncodeChar(s[0]) + tail;
    }
  }

  lemma {:induction false} SkipBytes(e: seq<byte>, rest: seq<byte>)
    requires LF !in e && rest != []
    ensures FindBlank(e + rest) == match FindBlank(rest) case None => None case Some(p) => Some(|e| + p)
  {
    if e == [] {
      assert e + rest == rest;
    } else {
      SkipBytes(e[1..], rest);
      assert (e + rest)[1..] == e[1..] + rest;
      assert e[0] != LF;
    }
  }

  lemma EncodeJoinCons(x: string, inner: string)
    ensures Encode(x + "\n" + inner) == Encode(x) + [LF] + Encode(inner)
  {
    EncodeConcat(x + "\n", inner);
    EncodeConcat(x, "\n");
    assert Encode("\n") == EncodeChar('\n') + Encode("");
  }

  lemma SkipLf(tail: seq<byte>)
    requires tail != [] && tail[0] != LF && FindBlank(tail).Some?
    ensures FindBlank([LF] + tail) == Some(1 + FindBlank(tail).value)
  {
    assert ([LF] + tail)[1] == tail[0] && ([LF] + tail)[1..] == tail;
  }

  lemma SkipLine(x: string, tail: seq<byte>)
    requires '\n' !in x && tail != [] && tail[0] != LF && FindBlank(tail).Some?
    ensures FindBlank(Encode(x) + ([LF] + tail)) == Some(|Encode(x)| + (1 + FindBlank(tail).value))
  {
    SkipLf(tail);
    SkipText(x, [LF] + tail);
  }

  lemma OneMoreLine(x: string, inner: string, close: seq<byte>)
    requires '\n' !in x && Encode(inner) != [] && Encode(inner)[0] != LF
    requires FindBlank(Encode(inner) + close) == Some(|Encode(inner)|)
    ensures FindBlank(Encode(x + "\n" + inner) + close) == Some(|Encode(x + "\n" + inner)|)
  {
    var tail := Encode(inner) + close;
    EncodeJoinCons(x, inner);
    SkipLine(x, tail);
    assert Encode(x + "\n" + inner) + close == Encode(x) + ([LF] + tail);
  }

  predicate Inked(l: string) {
    l != "" && '\n' !in l
  }

  lemma {:induction false} JoinedLinesAreOneFrame(ls: seq<string>, rest: seq<byte>)
    requires forall l | l in ls :: Inked(l)
    ensures FindBlank(Encode(Join(ls)) + (BLANK + rest)) == Some(|Encode(Join(ls))|)
  {
    if |ls| <= 1 {
      assert ls != [] ==> Inked(ls[0]);
      SkipText(Join(ls), BLANK + rest);
    } else {
      assert Inked(ls[0]);
      assert ls == [ls[0]] + ls[1..];
      JoinCons(ls[0], ls[1..]);
      JoinedLinesAreOneFrame(ls[1..], rest);
      StartsInside(ls[1..]);
      OneMoreLine(ls[0], Join(ls[1..]), BLANK + rest);
    }
  }

  lemma {:induction false} StartsInside(ls: seq<string>)
    requires ls != [] && forall l | l in ls :: Inked(l)
    ensures Join(ls) != "" && Join(ls)[0] != '\n'
    ensures Encode(Join(ls)) != [] && Encode(Join(ls))[0] != LF
  {
    assert Inked(ls[0]);
    if |ls| > 1 {
      assert ls == [ls[0]] + ls[1..];
      JoinCons(ls[0], ls[1..]);
    }
    var t := Join(ls);
    assert Encode(t)[0] == EncodeChar(t[0])[0];
  }

  lemma ParsePrinted(e: Option<string>, data: seq<string>)
    requires Printable(e, data)
    ensures Parse(Join(FieldLines(e, data))) == SseEvent(e, Join(DropLeadingEmpty(data)))
  {
    FieldLinesAreLines(e, data);
    LinesOfJoin(FieldLines(e, data));
    ParsedFields(e, data);
  }

  lemma PullFrame(text: string, rest: seq<byte>)
    requires FindBlank(Encode(text) + (BLANK + rest)) == Some(|Encode(text)|)
    ensures Pull(Encode(text) + BLANK + rest) == (Some(Parse(text)), rest)
  {
    var b := Encode(text) + BLANK + rest;
    assert b == Encode(text) + (BLANK + rest);
    assert b[..|Encode(text)|] == Encode(text) && b[|Encode(text)| + 2..] == rest;
    DecodeEncode(text);
  }

  /** A printed event, whatever follows it, is the next event pulled, and it is consumed whole.
      Its name and data come back unchanged iff no leading data line of several is empty. */
  lemma PrintThenPull(e: Option<string>, data: seq<string>, rest: seq<byte>)
    requires Printable(e, data)
    ensures Pull(Print(e, data) + rest) == (Some(SseEvent(e, Join(DropLeadingEmpty(data)))), rest)
    ensures Pull(Print(e, data) + rest).0 == Some(SseEvent(e, Join(data))) <==> |data| <= 1 || data[0] != ""
  {
    var ls := FieldLines(e, data);
    FieldLinesAreLines(e, data);
    assert forall l | l in ls :: FieldLine(l) && Inked(l);
    JoinedLinesAreOneFrame(ls, rest);
    PullFrame(Join(ls), rest);
    ParsePrinted(e, data);
    assert forall l | l in data :: Line(l);
    JoinUnchanged(data);
  }
}
