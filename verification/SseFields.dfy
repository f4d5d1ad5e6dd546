/** Every way of writing a frame that the parser accepts: with or without the optional space, with
    LF or CR LF between lines, with comments and unknown fields in between. */
module SseFields {
  import opened Wrappers
  import opened Utf8
  import opened Sse
  import opened SseRoundTrip

  /** A line of a frame: what follows `event:` or `data:`, or a line that starts with neither. */
  datatype Field = EventField(raw: string) | DataField(raw: string) | Other(text: string)

  /** A field and whether its line ends with CR LF instead of LF. */
  datatype Written = Written(field: Field, cr: bool)

  function LineOf(f: Field): string {
    match f
    case EventField(raw) => "event:" + raw
    case DataField(raw) => "data:" + raw
    case Other(text) => text
  }

  function RawOf(w: Written): string {
    LineOf(w.field) + if w.cr then "\r" else ""
  }

  function Raws(ws: seq<Written>): seq<string> {
    if ws == [] then [] else [RawOf(ws[0])] + Raws(ws[1..])
  }

  predicate Proper(w: Written) {
    && '\n' !in LineOf(w.field) && RawOf(w) != ""
    && (w.field.Other? ==> !("event:" <= w.field.text) && !("data:" <= w.field.text))
  }

  /** Lines hold no LF, and none but an empty one ended by CR LF is empty; all but the last have
      no CR of their own at the end, and the last is not ended by anything. */
  predicate WellWritten(ws: seq<Written>) {
    && (forall i | 0 <= i < |ws| :: Proper(ws[i]))
    && (forall i | 0 <= i < |ws| - 1 :: var l := LineOf(ws[i].field); l == "" || l[|l| - 1] != '\r')
    && (ws != [] ==> !ws[|ws| - 1].cr)
  }

  /** The name of the last `event:` line, without the white space around it. */
  function NameWritten(ws: seq<Written>): Option<string> {
    if ws == [] then None
    else if NameWritten(ws[1..]).Some? then NameWritten(ws[1..])
    else if ws[0].field.EventField? then Some(Trim(ws[0].field.raw))
    else None
  }

  /** The payloads of the `data:` lines, each without one leading space. */
  function DataWritten(ws: seq<Written>): seq<string> {
    if ws == [] then []
    else if ws[0].field.DataField? then
      var raw := ws[0].field.raw;
      [if raw != "" && raw[0] == ' ' then raw[1..] else raw] + DataWritten(ws[1..])
    else DataWritten(ws[1..])
  }

  // ----- the lines come back -----

  function LinesWritten(ws: seq<Written>): seq<string> {
    if ws == [] then [] else [LineOf(ws[0].field)] + LinesWritten(ws[1..])
  }

  lemma StripCrOfRaw(w: Written)
    requires var l := LineOf(w.field); l == "" || l[|l| - 1] != '\r'
    ensures StripCr(RawOf(w)) == LineOf(w.field)
  {
    var l := LineOf(w.field);
    if w.cr {
      assert (l + "\r")[..|l|] == l;
    } else {
      assert l + "" == l;
    }
  }

  lemma {:induction false} RawsAreInked(ws: seq<Written>)
    requires WellWritten(ws)
    ensures |Raws(ws)| == |ws|
    ensures forall l | l in Raws(ws) :: Inked(l)
  {
    if ws != [] {
      assert Proper(ws[0]);
      RawsAreInked(ws[1..]);
    }
  }

  lemma {:induction false} LinesComeBack(ws: seq<Written>)
    requires WellWritten(ws)
    ensures Lines(Join(Raws(ws))) == LinesWritten(ws)
  {
    hide LineOf, RawOf, StripCr, Proper;
    if |ws| == 1 {
      LastLine(ws[0]);
      assert Raws(ws) == [RawOf(ws[0])] && ws[1..] == [];
    } else if |ws| > 1 {
      RawsAreInked(ws);
      RawsAreInked(ws[1..]);
      var x, more := RawOf(ws[0]), Raws(ws[1..]);
      JoinCons(x, more);
      assert Inked(x);
      var t := Join(Raws(ws));
      assert t == x + ("\n" + Join(more));
      IndexOfAt(x, "\n" + Join(more));
      assert t[..|x|] == x && t[|x| + 1..] == Join(more);
      StripCrOfRaw(ws[0]);
      LinesComeBack(ws[1..]);
    }
  }

  lemma LastLine(w: Written)
    requires Proper(w) && !w.cr
    ensures Lines(RawOf(w)) == [LineOf(w.field)] && RawOf(w) == LineOf(w.field)
  {
    assert RawOf(w) == LineOf(w.field);
    var t := RawOf(w);
    assert IndexOf(t, '\n') == |t|;
  }

  // ----- and mean what they say -----

  /** A prefix is stripped exactly where it stands. */
  lemma StripPrefixExactly(t: string, p: string)
    ensures StripPrefix(t, p).Some? <==> exists r :: t == p + r
    ensures forall r | t == p + r :: StripPrefix(t, p) == Some(r)
  {
    if p <= t {
      assert t == p + t[|p|..];
    }
    forall r | t == p + r
      ensures StripPrefix(t, p) == Some(r)
    {
      assert t[|p|..] == r;
    }
  }

  lemma {:induction false} NameOfCons(l: string, ls: seq<string>)
    ensures EventName([l] + ls) ==
            if EventName(ls).Some? then EventName(ls)
            else match StripPrefix(l, EVENT) case Some(rest) => Some(Trim(rest)) case None => None
  {
    hide StripPrefix, Trim;
    var all := [l] + ls;
    if ls == [] {
      assert all[..0] == [];
    } else {
      assert all[..|all| - 1] == [l] + ls[..|ls| - 1];
      NameOfCons(l, ls[..|ls| - 1]);
    }
  }

  lemma {:induction false} DataOfCons(l: string, ls: seq<string>)
    ensures DataLines([l] + ls) ==
            (match StripPrefix(l, DATA) case Some(rest) => [DropSpace(rest)] case None => []) + DataLines(ls)
  {
    hide StripPrefix, DropSpace;
    var all := [l] + ls;
    if ls == [] {
      assert all[..0] == [];
    } else {
      assert all[..|all| - 1] == [l] + ls[..|ls| - 1];
      DataOfCons(l, ls[..|ls| - 1]);
    }
  }

  lemma FieldStrips(w: Written)
    requires Proper(w)
    ensures StripPrefix(LineOf(w.field), EVENT) == if w.field.EventField? then Some(w.field.raw) else None
    ensures StripPrefix(LineOf(w.field), DATA) == if w.field.DataField? then Some(w.field.raw) else None
  {
    var l := LineOf(w.field);
    match w.field
    case EventField(raw) =>
      assert l[0] == 'e' && l[|EVENT|..] == raw;
    case DataField(raw) =>
      assert l[0] == 'd' && l[|DATA|..] == raw;
    case Other(_) =>
  }

  lemma DropSpaceMeans(raw: string)
    ensures DropSpace(raw) == if raw != "" && raw[0] == ' ' then raw[1..] else raw
  {
  }

  lemma {:induction false} FieldsMean(ws: seq<Written>)
    requires WellWritten(ws)
    ensures EventName(LinesWritten(ws)) == NameWritten(ws)
    ensures DataLines(LinesWritten(ws)) == DataWritten(ws)
  {
    hide LineOf, StripPrefix, DropSpace, Trim, Proper, EventName, DataLines;
    if ws == [] {
      NoFields();
    } else {
      assert Proper(ws[0]);
      FieldsMean(ws[1..]);
      NameOfCons(LineOf(ws[0].field), LinesWritten(ws[1..]));
      DataOfCons(LineOf(ws[0].field), LinesWritten(ws[1..]));
      FieldStrips(ws[0]);
      if ws[0].field.DataField? {
        DropSpaceMeans(ws[0].field.raw);
      }
    }
  }

  lemma NoFields()
    ensures EventName([]) == None && DataLines([]) == []
  {
  }

  /** Any well-written frame, whatever follows it, is pulled whole as one event: its name is the
      last one given and its data are the payloads joined by LF, without leading empty ones. */
  lemma WrittenFramePulls(ws: seq<Written>, rest: seq<byte>)
    requires WellWritten(ws)
    ensures Pull(Encode(Join(Raws(ws))) + BLANK + rest)
         == (Some(SseEvent(NameWritten(ws), Join(DropLeadingEmpty(DataWritten(ws))))), rest)
  {
    hide WellWritten, Pull, Encode, Join, DropLeadingEmpty;
    RawsAreInked(ws);
    JoinedLinesAreOneFrame(Raws(ws), rest);
    PullFrame(Join(Raws(ws)), rest);
    LinesComeBack(ws);
    FieldsMean(ws);
  }

  // ----- the primitives, exactly -----

  /** Trimming keeps the part between the first and the last character that is not white space. */
  lemma {:induction false} TrimKeepsMiddle(t: string) returns (i: nat, j: nat)
    ensures i <= j <= |t| && Trim(t) == t[i..j]
    ensures forall k | 0 <= k < i || j <= k < |t| :: Whitespace(t[k])
    ensures i < j ==> !Whitespace(t[i]) && !Whitespace(t[j - 1])
    decreases |t|
  {
    hide Whitespace;
    i, j := 0, |t|;
    if t != "" {
      if Whitespace(t[0]) {
        i, j := TrimKeepsMiddle(t[1..]);
        i, j := i + 1, j + 1;
      } else if Whitespace(t[|t| - 1]) {
        i, j := TrimKeepsMiddle(t[..|t| - 1]);
      }
    }
  }

  /** The white space is the 25 code points that Unicode lists. */
  lemma WhitespaceListed(c: char)
    ensures Whitespace(c) <==>
            c as int in {9, 10, 11, 12, 13, 32, 133, 160, 5760, 8192, 8193, 8194, 8195, 8196, 8197, 8198, 8199, 8200,
                         8201, 8202, 8232, 8233, 8239, 8287, 12288}
  {
  }

  /** A frame ends at the first LF LF, and at nothing else. */
  lemma {:induction false} FindBlankExactly(b: seq<byte>)
    ensures match FindBlank(b)
            case Some(p) => p + 2 <= |b| && b[p] == 10 && b[p + 1] == 10
                            && forall q | 0 <= q < p :: !(b[q] == 10 && b[q + 1] == 10)
            case None => forall q | 0 <= q < |b| - 1 :: !(b[q] == 10 && b[q + 1] == 10)
  {
    if |b| >= 2 && !(b[0] == LF && b[1] == LF) {
      FindBlankExactly(b[1..]);
      assert forall q | 1 <= q < |b| - 1 :: b[q] == b[1..][q - 1] && b[q + 1] == b[1..][q];
    }
  }
}
