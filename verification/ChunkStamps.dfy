/** What the delivered chunks say besides the text: the stamps every chunk carries and the counts
    of every usage, read back from the delivered bytes. */
module ChunkStamps {
  import opened Wrappers
  import opened Sse
  import opened Json
  import opened Streams
  import opened Anthropic
  import opened StreamObserver
  import opened AnthropicStream
  import opened Pricing
  import opened Pipeline

  // ----- the upstream events as a history -----

  /** The model an event announces, if it is a `message_start` that names one. */
  function AnnouncedModel(parse: string -> Option<Json>, e: SseEvent): Option<string> {
    var data := parse(e.data);
    if e.event == Some("message_start") && data.Some? then StrIn(GetIn(data.value.Get("message"), "model")) else None
  }

  /** The latest announced model, the requested one before any. */
  function HeldModel(parse: string -> Option<Json>, requested: string, events: seq<SseEvent>): string {
    if events == [] then requested
    else
      match AnnouncedModel(parse, events[|events| - 1])
      case Some(model) => model
      case None => HeldModel(parse, requested, events[..|events| - 1])
  }

  /** The output count an event reports, if it is a `message_delta` that carries one. */
  function DeltaOutput(parse: string -> Option<Json>, e: SseEvent): Option<nat> {
    var data := parse(e.data);
    if WellFormedDelta(parse, e) then U64In(GetIn(data.value.Get("usage"), "output_tokens")) else None
  }

  function HeldOutput(parse: string -> Option<Json>, events: seq<SseEvent>): u32 {
    if events == [] then 0
    else
      match DeltaOutput(parse, events[|events| - 1])
      case Some(tokens) => tokens % 0x1_0000_0000
      case None => HeldOutput(parse, events[..|events| - 1])
  }

  /** What one delivered chunk carries: the model, and the counts if it is a usage report. */
  datatype Mark = Mark(model: string, usage: Option<Usage>)

  /** The marks due for the last event: one for each thing it says to the client, and a usage
      report after a well-formed `message_delta`, with what is held by then. */
  function LastMarks(parse: string -> Option<Json>, requested: string, events: seq<SseEvent>): seq<Mark>
    requires events != []
  {
    var last, model := events[|events| - 1], HeldModel(parse, requested, events);
    seq(|Said(parse, last)|, i => Mark(model, None))
    + if WellFormedDelta(parse, last) then
        [Mark(model, Some(Usage(HeldInput(parse, events), HeldOutput(parse, events))))]
      else []
  }

  function Marks(parse: string -> Option<Json>, requested: string, events: seq<SseEvent>): seq<Mark> {
    if events == [] then []
    else Marks(parse, requested, events[..|events| - 1]) + LastMarks(parse, requested, events)
  }

  // ----- what a client can read off a chunk -----

  /** The object carries these stamps; it has one choice, or none and a usage with these counts
      and their sum. */
  predicate Carries(j: Json, id: string, created: nat, m: Mark) {
    && j.Get("id") == Some(Str(id))
    && j.Get("object") == Some(Str("chat.completion.chunk"))
    && j.Get("created") == Some(Uint(created))
    && j.Get("model") == Some(Str(m.model))
    && j.Get("choices").Some? && j.Get("choices").value.Arr?
    && var choices := j.Get("choices").value.items;
    match m.usage
    case None =>
      j.Get("usage") == None && |choices| == 1 && choices[0].Get("index") == Some(Uint(0))
    case Some(u) =>
      && choices == []
      && j.Get("usage").Some?
      && var usage := j.Get("usage").value;
      && usage.Get("prompt_tokens") == Some(Uint(u.promptTokens))
      && usage.Get("completion_tokens") == Some(Uint(u.completionTokens))
      && usage.Get("total_tokens") == Some(Uint((u.promptTokens + u.completionTokens) % 0x1_0000_0000))
  }

  predicate CarriesAt(parse: string -> Option<Json>, e: SseEvent, id: string, created: nat, m: Mark) {
    e.event == None && parse(e.data).Some? && Carries(parse(e.data).value, id, created, m)
  }

  /** The same of a chunk before it is printed. */
  predicate Marked(c: Chunk, id: string, created: nat, m: Mark) {
    && c.head.id == id && c.head.created == created && c.head.model == m.model
    && m.usage == if c.UsageChunk? then Some(Usage(c.input, c.output)) else None
  }

  lemma MarkedCarries(c: Chunk, id: string, created: nat, m: Mark)
    requires Marked(c, id, created, m)
    ensures Carries(ChunkJson(c), id, created, m)
  {
  }

  ghost predicate AllMarked(cs: seq<Chunk>, id: string, created: nat, ms: seq<Mark>) {
    |cs| == |ms| && forall i | 0 <= i < |cs| :: Marked(cs[i], id, created, ms[i])
  }

  lemma MarkedConcat(a: seq<Chunk>, b: seq<Chunk>, id: string, created: nat, ms: seq<Mark>, ns: seq<Mark>)
    requires AllMarked(a, id, created, ms) && AllMarked(b, id, created, ns)
    ensures AllMarked(a + b, id, created, ms + ns)
  {
    hide Marked;
  }

  // ----- the transform keeps the history -----

  /** The transform's state is what the history so far says. */
  function Held(parse: string -> Option<Json>, id: string, created: u64, requested: string, events: seq<SseEvent>)
    : TransformState
  {
    TransformState(id, created, HeldModel(parse, requested, events), HeldInput(parse, events),
                   HeldOutput(parse, events))
  }

  lemma EventIsMarked(
    parse: string -> Option<Json>, id: string, created: u64, requested: string, before: seq<SseEvent>, e: SseEvent)
    ensures var (s, out) := Process(parse, Held(parse, id, created, requested, before), e);
            && s == Held(parse, id, created, requested, before + [e])
            && AllMarked(out, id, created, LastMarks(parse, requested, before + [e]))
  {
    assert (before + [e])[..|before|] == before;
  }

  lemma {:induction false} StreamIsMarked(
    parse: string -> Option<Json>, id: string, created: u64, requested: string, events: seq<SseEvent>)
    ensures var (s, out) := ProcessAll(parse, TransformState(id, created, requested, 0, 0), events);
            && s == Held(parse, id, created, requested, events)
            && AllMarked(out, id, created, Marks(parse, requested, events))
  {
    hide Process, Said, WellFormedDelta, AnnouncedModel, AnnouncedInput, DeltaOutput, Marked, LastMarks;
    if events != [] {
      var before, last := events[..|events| - 1], events[|events| - 1];
      var start := TransformState(id, created, requested, 0, 0);
      assert before + [last] == events;
      StreamIsMarked(parse, id, created, requested, before);
      EventIsMarked(parse, id, created, requested, before, last);
      ProcessAllConcat(parse, start, before, [last]);
      ProcessOne(parse, ProcessAll(parse, start, before).0, last);
      MarkedConcat(ProcessAll(parse, start, before).1, Process(parse, ProcessAll(parse, start, before).0, last).1,
                   id, created, Marks(parse, requested, before), LastMarks(parse, requested, events));
    }
  }

  // ----- read back from the delivered bytes -----

  lemma {:induction false} EventsAt(render: Json -> string, cs: seq<Chunk>, i: nat)
    requires i < |cs|
    ensures |EventsOf(render, cs)| == |cs| && EventsOf(render, cs)[i] == EventOf(render, cs[i])
  {
    if i > 0 {
      EventsAt(render, cs[1..], i - 1);
    } else if |cs| > 1 {
      EventsAt(render, cs[1..], 0);
    }
  }

  lemma EventCarries(codec: Codec, c: Chunk, id: string, created: nat, m: Mark)
    requires Lawful(codec) && Marked(c, id, created, m)
    ensures CarriesAt(codec.parse, EventOf(codec.render, c), id, created, m)
  {
    hide Carries, Marked;
    MarkedCarries(c, id, created, m);
  }

  /** Every delivered event is stamped with the chat id, the creation time and the model announced
      last, or the requested one, by the upstream events it comes from; every usage report has the
      counts held by then and their sum modulo 2^32; and a `[DONE]` ends them. */
  lemma ChunksCarryStamps(codec: Codec, id: string, created: u64, model: string, answers: seq<Poll>)
    requires Lawful(codec)
    ensures var es := Drain(Flatten(Chunks(Trace(codec, Start(id, created, model, answers))))).0;
            var ms := Marks(codec.parse, model, UpstreamEvents(answers));
            && |es| == |ms| + 1 && es[|ms|] == SseEvent(None, "[DONE]")
            && forall i | 0 <= i < |ms| :: CarriesAt(codec.parse, es[i], id, created, ms[i])
  {
    hide *;
    var t := TransformState(id, created, model, 0, 0);
    var cs := ProcessAll(codec.parse, t, UpstreamEvents(answers)).1;
    var ms := Marks(codec.parse, model, UpstreamEvents(answers));
    DeliveredEvents(codec, id, created, model, answers);
    StreamIsMarked(codec.parse, id, created, model, UpstreamEvents(answers));
    MarkedStream(codec, cs, id, created, ms);
  }

  lemma MarkedStream(codec: Codec, cs: seq<Chunk>, id: string, created: nat, ms: seq<Mark>)
    requires Lawful(codec) && AllMarked(cs, id, created, ms)
    ensures var es := EventsOf(codec.render, cs) + [DONE_EVENT];
            && |es| == |ms| + 1 && es[|ms|] == SseEvent(None, "[DONE]")
            && forall i | 0 <= i < |ms| :: CarriesAt(codec.parse, es[i], id, created, ms[i])
  {
    hide *;
    var es := EventsOf(codec.render, cs);
    MarksOf(cs, id, created, ms);
    NoEvents(codec.render, cs);
    IsDone();
    forall i | 0 <= i < |ms|
      ensures CarriesAt(codec.parse, (es + [DONE_EVENT])[i], id, created, ms[i])
    {
      assert (es + [DONE_EVENT])[i] == es[i];
      EventsAt(codec.render, cs, i);
      EventCarries(codec, cs[i], id, created, ms[i]);
    }
  }

  lemma MarksOf(cs: seq<Chunk>, id: string, created: nat, ms: seq<Mark>)
    requires AllMarked(cs, id, created, ms)
    ensures |cs| == |ms| && forall i | 0 <= i < |cs| :: Marked(cs[i], id, created, ms[i])
  {
    hide Marked;
  }

  lemma NoEvents(render: Json -> string, cs: seq<Chunk>)
    ensures |EventsOf(render, cs)| == |cs|
  {
    if cs != [] {
      EventsAt(render, cs, 0);
    }
  }

  lemma IsDone()
    ensures DONE_EVENT == SseEvent(None, "[DONE]")
  {
  }
}
