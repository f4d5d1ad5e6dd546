/** The Anthropic connector's streaming side: events in, OpenAI chunks out. */
module Anthropic {
  import opened Wrappers
  import opened Utf8
  import opened Sse
  import opened Json
  import opened Streams

  const U32: int := 0x1_0000_0000

  type u32 = x: int | 0 <= x < 0x1_0000_0000
  type u64 = x: int | 0 <= x < 0x1_0000_0000_0000_0000

  /** Rust's `as u32`. */
  function AsU32(n: nat): u32 {
    n % U32
  }

  // ----- what is emitted -----

  datatype Delta = Role | Content(text: string) | Nothing

  datatype Head = Head(id: string, created: u64, model: string)

  datatype Chunk =
    | DeltaChunk(head: Head, delta: Delta, finish: Option<string>)
    | UsageChunk(head: Head, input: u32, output: u32)

  function DeltaJson(d: Delta): Json {
    match d
    case Role => Obj(map["role" := Str("assistant")])
    case Content(text) => Obj(map["content" := Str(text)])
    case Nothing => Obj(map[])
  }

  function ChunkJson(c: Chunk): Json {
    var common := map[
      "id" := Str(c.head.id),
      "object" := Str("chat.completion.chunk"),
      "created" := Uint(c.head.created),
      "model" := Str(c.head.model)];
    match c
    case DeltaChunk(_, delta, finish) =>
      var choice := Obj(map[
        "index" := Uint(0),
        "delta" := DeltaJson(delta),
        "finish_reason" := if finish.Some? then Str(finish.value) else Null]);
      Obj(common["choices" := Arr([choice])])
    case UsageChunk(_, input, output) =>
      var usage := Obj(map[
        "prompt_tokens" := Uint(input),
        "completion_tokens" := Uint(output),
        "total_tokens" := Uint((input + output) % U32)]);  // u32 addition wraps in release builds
      Obj(common["choices" := Arr([])]["usage" := usage])
  }

  function Emit(render: Json -> string, c: Chunk): seq<byte> {
    Encode("data: " + render(ChunkJson(c)) + "\n\n")
  }

  function EmitAll(render: Json -> string, cs: seq<Chunk>): seq<seq<byte>> {
    if cs == [] then [] else [Emit(render, cs[0])] + EmitAll(render, cs[1..])
  }

  const DONE := "data: [DONE]\n\n"

  function DoneMarker(): seq<byte> {
    Encode(DONE)
  }

  /** What is assumed of the JSON library, on the chunks emitted here only: compact rendering is
      a one-line object, and parsing a rendering gives the value back. */
  ghost predicate Lawful(codec: Codec) {
    forall c: Chunk ::
      var text := codec.render(ChunkJson(c));
      && codec.parse(text) == Some(ChunkJson(c))
      && '\n' !in text
      && |text| >= 2 && text[0] == '{' && text[|text| - 1] == '}'
  }

  // ----- the transform -----

  datatype TransformState = TransformState(id: string, created: u64, model: string, input: u32, output: u32) {
    function Stamp(): Head {
      Head(id, created, model)
    }
  }

  function MapFinishReason(stopReason: string): string {
    if stopReason == "max_tokens" then "length" else "stop"
  }

  function Process(parse: string -> Option<Json>, s: TransformState, event: SseEvent): (TransformState, seq<Chunk>) {
    match parse(event.data)
    case None => (s, [])
    case Some(data) =>
      var kind := if event.event.Some? then event.event.value else "";
      if kind == "message_start" then
        var message := data.Get("message");
        var model := StrIn(GetIn(message, "model"));
        var tokens := U64In(GetIn(GetIn(message, "usage"), "input_tokens"));
        var s' := s.(model := if model.Some? then model.value else s.model,
                     input := if tokens.Some? then AsU32(tokens.value) else s.input);
        (s', [DeltaChunk(s'.Stamp(), Role, None)])
      else if kind == "content_block_delta" then
        var delta := data.Get("delta");
        var text := StrIn(GetIn(delta, "text"));
        if StrIn(GetIn(delta, "type")) == Some("text_delta") && text.Some? then
          (s, [DeltaChunk(s.Stamp(), Content(text.value), None)])
        else (s, [])
      else if kind == "message_delta" then
        var stopReason := StrIn(GetIn(data.Get("delta"), "stop_reason"));
        var finish := if stopReason.Some? then Some(MapFinishReason(stopReason.value)) else None;
        var tokens := U64In(GetIn(data.Get("usage"), "output_tokens"));
        var s' := s.(output := if tokens.Some? then AsU32(tokens.value) else s.output);
        (s', [DeltaChunk(s'.Stamp(), Nothing, finish), UsageChunk(s'.Stamp(), s'.input, s'.output)])
      else (s, [])
  }

  function ProcessAll(parse: string -> Option<Json>, s: TransformState, events: seq<SseEvent>)
    : (TransformState, seq<Chunk>)
    decreases |events|
  {
    if events == [] then (s, [])
    else
      var (s1, out1) := Process(parse, s, events[0]);
      var (s2, out2) := ProcessAll(parse, s1, events[1..]);
      (s2, out1 + out2)
  }

  class AnthropicTransform {
    const codec: Codec
    const chatId: string
    const created: u64
    var model: string
    var inputTokens: u32
    var outputTokens: u32

    ghost function View(): TransformState
      reads this
    {
      TransformState(chatId, created, model, inputTokens, outputTokens)
    }

    /** The random id and the creation time are inputs here. */
    constructor (codec: Codec, chatId: string, created: u64, model: string)
      ensures View() == TransformState(chatId, created, model, 0, 0) && this.codec == codec
    {
      this.codec, this.chatId, this.created, this.model := codec, chatId, created, model;
      inputTokens, outputTokens := 0, 0;
    }

    method ProcessEvent(event: SseEvent) returns (out: seq<seq<byte>>)
      modifies this
      ensures var (s, chunks) := Process(codec.parse, old(View()), event);
              View() == s && out == EmitAll(codec.render, chunks)
    {
      hide Emit;
      out := [];
      var parsed := codec.parse(event.data);
      if parsed.None? {
        return;
      }
      var data := parsed.value;
      var kind := if event.event.Some? then event.event.value else "";
      if kind == "message_start" {
        var message := data.Get("message");
        var newModel := StrIn(GetIn(message, "model"));
        if newModel.Some? {
          model := newModel.value;
        }
        var tokens := U64In(GetIn(GetIn(message, "usage"), "input_tokens"));
        if tokens.Some? {
          inputTokens := AsU32(tokens.value);
        }
        out := [Emit(codec.render, DeltaChunk(Head(chatId, created, model), Role, None))];
      } else if kind == "content_block_delta" {
        var delta := data.Get("delta");
        var text := StrIn(GetIn(delta, "text"));
        if StrIn(GetIn(delta, "type")) == Some("text_delta") && text.Some? {
          out := [Emit(codec.render, DeltaChunk(Head(chatId, created, model), Content(text.value), None))];
        }
      } else if kind == "message_delta" {
        var stopReason := StrIn(GetIn(data.Get("delta"), "stop_reason"));
        var tokens := U64In(GetIn(data.Get("usage"), "output_tokens"));
        if tokens.Some? {
          outputTokens := AsU32(tokens.value);
        }
        var finish := if stopReason.Some? then Some(MapFinishReason(stopReason.value)) else None;
        var head := Head(chatId, created, model);
        EmitTwo(codec.render, DeltaChunk(head, Nothing, finish), UsageChunk(head, inputTokens, outputTokens));
        out := [Emit(codec.render, DeltaChunk(head, Nothing, finish)),
                Emit(codec.render, UsageChunk(head, inputTokens, outputTokens))];
      }
    }
  }

  // ----- the adapter -----

  datatype AdapterState = AdapterState(
    answers: seq<Poll>, buffer: seq<byte>, transform: TransformState,
    pending: seq<seq<byte>>, upstreamDone: bool, emittedDone: bool)

  /** Feed one upstream chunk: parse every complete event and queue what it becomes. */
  function Absorb(codec: Codec, s: AdapterState, chunk: seq<byte>): AdapterState {
    var (events, left) := Drain(s.buffer + chunk);
    var (t, out) := ProcessAll(codec.parse, s.transform, events);
    s.(buffer := left, transform := t, pending := s.pending + EmitAll(codec.render, out))
  }

  /** One `poll_next`. Each turn of the loop consumes an upstream answer or ends the upstream. */
  function PollStep(codec: Codec, s: AdapterState): (Poll, AdapterState)
    decreases if s.upstreamDone then 0 else |s.answers| + 1
  {
    if s.pending != [] then (Item(s.pending[0]), s.(pending := s.pending[1..]))
    else if s.upstreamDone then
      if !s.emittedDone then (Item(DoneMarker()), s.(emittedDone := true)) else (END, s)
    else
      var answer := Answer(s.answers, 0);
      var rest := s.(answers := if s.answers == [] then [] else s.answers[1..]);
      if IsChunk(answer) then PollStep(codec, Absorb(codec, rest, answer.next.value.value))
      else if answer == END then PollStep(codec, rest.(upstreamDone := true))
      else (answer, rest)
  }

  class AnthropicStreamAdapter {
    const inner: BodyStream
    const parser: SseParser
    const transform: AnthropicTransform
    var pending: seq<seq<byte>>
    var upstreamDone: bool
    var emittedDone: bool

    ghost function View(): AdapterState
      reads this, inner, parser, transform
    {
      AdapterState(inner.answers, parser.buffer, transform.View(), pending, upstreamDone, emittedDone)
    }

    constructor (inner: BodyStream, codec: Codec, chatId: string, created: u64, model: string)
      ensures this.inner == inner && transform.codec == codec && fresh(parser) && fresh(transform)
      ensures View() == AdapterState(inner.answers, [], TransformState(chatId, created, model, 0, 0), [], false, false)
    {
      this.inner := inner;
      parser := new SseParser();
      transform := new AnthropicTransform(codec, chatId, created, model);
      pending, upstreamDone, emittedDone := [], false, false;
    }

    method Enqueue(outs: seq<seq<byte>>)
      modifies this`pending
      ensures pending == old(pending) + outs
    {
      for i := 0 to |outs|
        invariant pending == old(pending) + outs[..i]
      {
        pending := pending + [outs[i]];
      }
    }

    method AbsorbChunk(chunk: seq<byte>)
      modifies this`pending, parser, transform
      ensures View() == Absorb(transform.codec, old(View()), chunk)
    {
      ghost var codec := transform.codec;
      ghost var goal := Absorb(codec, View(), chunk);
      parser.Feed(chunk);
      DrainPull(parser.buffer);
      hide *;
      var event := parser.NextEvent();
      while event.Some?
        invariant Left(event, parser.buffer) == goal.buffer
        invariant Queued(codec, transform.View(), pending, Rest(event, parser.buffer)) == (goal.transform, goal.pending)
        decreases event.Some?, |parser.buffer|
      {
        QueuedStep(codec, transform.View(), pending, event.value, Drain(parser.buffer).0);
        DrainPull(parser.buffer);
        RestCons(event.value, parser.buffer);
        var outs := transform.ProcessEvent(event.value);
        Enqueue(outs);
        event := parser.NextEvent();
      }
      RestNone(codec, transform.View(), pending, parser.buffer);
    }

    method PollNext() returns (p: Poll)
      modifies this, inner, parser, transform
      ensures (p, View()) == PollStep(transform.codec, old(View()))
    {
      hide Absorb, Encode;
      while true
        invariant PollStep(transform.codec, View()) == PollStep(transform.codec, old(View()))
        decreases if upstreamDone then 0 else |inner.answers| + 1
      {
        if pending != [] {
          p := Item(pending[0]);
          pending := pending[1..];
          return;
        }
        if upstreamDone {
          if !emittedDone {
            emittedDone := true;
            return Item(DoneMarker());
          }
          return END;
        }
        var answer := inner.PollNext();
        if IsChunk(answer) {
          AbsorbChunk(answer.next.value.value);
        } else if answer == END {
          upstreamDone := true;
        } else {
          return answer;
        }
      }
      assert false;
    }
  }

  // ----- the adapter's event loop, seen from what is still to be drained -----

  /** The events not yet processed when `event` has just been pulled. */
  function Rest(event: Option<SseEvent>, buffer: seq<byte>): seq<SseEvent> {
    if event.None? then [] else [event.value] + Drain(buffer).0
  }

  function Left(event: Option<SseEvent>, buffer: seq<byte>): seq<byte> {
    if event.None? then buffer else Drain(buffer).1
  }

  function Queued(codec: Codec, t: TransformState, pending: seq<seq<byte>>, events: seq<SseEvent>)
    : (TransformState, seq<seq<byte>>)
  {
    var (t', out) := ProcessAll(codec.parse, t, events);
    (t', pending + EmitAll(codec.render, out))
  }

  lemma DrainPull(buffer: seq<byte>)
    ensures Drain(buffer) == (Rest(Pull(buffer).0, Pull(buffer).1), Left(Pull(buffer).0, Pull(buffer).1))
  {
  }

  lemma RestCons(event: SseEvent, buffer: seq<byte>)
    ensures Rest(Some(event), buffer) == [event] + Drain(buffer).0 && Left(Some(event), buffer) == Drain(buffer).1
  {
  }

  lemma RestNone(codec: Codec, t: TransformState, pending: seq<seq<byte>>, buffer: seq<byte>)
    ensures Queued(codec, t, pending, Rest(None, buffer)) == (t, pending) && Left(None, buffer) == buffer
  {
    assert pending + [] == pending;
  }

  lemma QueuedStep(codec: Codec, t: TransformState, pending: seq<seq<byte>>, e: SseEvent, rest: seq<SseEvent>)
    ensures var (t1, out) := Process(codec.parse, t, e);
            Queued(codec, t, pending, [e] + rest) == Queued(codec, t1, pending + EmitAll(codec.render, out), rest)
  {
    hide Process, Emit;
    var (t1, out) := Process(codec.parse, t, e);
    assert ([e] + rest)[1..] == rest;
    var later := ProcessAll(codec.parse, t1, rest).1;
    EmitAllConcat(codec.render, out, later);
    assert pending + (EmitAll(codec.render, out) + EmitAll(codec.render, later))
        == (pending + EmitAll(codec.render, out)) + EmitAll(codec.render, later);
  }

  lemma EmitTwo(render: Json -> string, a: Chunk, b: Chunk)
    ensures EmitAll(render, [a, b]) == [Emit(render, a), Emit(render, b)]
  {
    assert [a, b][1..] == [b] && [b][1..] == [];
    assert EmitAll(render, [b]) == [Emit(render, b)];
  }

  lemma {:induction false} EmitAllConcat(render: Json -> string, a: seq<Chunk>, b: seq<Chunk>)
    ensures EmitAll(render, a + b) == EmitAll(render, a) + EmitAll(render, b)
  {
    if a == [] {
      assert a + b == b;
    } else {
      assert (a + b)[1..] == a[1..] + b;
      EmitAllConcat(render, a[1..], b);
    }
  }
}
