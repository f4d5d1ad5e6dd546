/** What the Anthropic adapter delivers over a whole stream. */
module AnthropicStream {
  import opened Wrappers
  import opened Utf8
  import opened Sse
  import opened Json
  import opened Streams
  import opened Anthropic
  import opened StreamObserver

  // ----- the adapter's answers, in closed form -----

  function Items(chunks: seq<seq<byte>>): seq<Poll> {
    if chunks == [] then [] else [Item(chunks[0])] + Items(chunks[1..])
  }

  /** The upstream answers that count: everything before its first end. */
  function BeforeEnd(answers: seq<Poll>): seq<Poll> {
    if answers == [] || answers[0] == END then [] else [answers[0]] + BeforeEnd(answers[1..])
  }

  /** What upstream answers `a` become: the outputs of each chunk's newly complete events in the
      chunk's place, pendings and errors as they are. */
  function Body(codec: Codec, buffer: seq<byte>, t: TransformState, a: seq<Poll>): seq<Poll>
    decreases |a|
  {
    if a == [] then []
    else if IsChunk(a[0]) then
      var s := Absorb(codec, AdapterState([], buffer, t, [], false, false), a[0].next.value.value);
      Items(s.pending) + Body(codec, s.buffer, s.transform, a[1..])
    else [a[0]] + Body(codec, buffer, t, a[1..])
  }

  function Trace(codec: Codec, s: AdapterState): seq<Poll> {
    Items(s.pending) +
    if s.upstreamDone then if s.emittedDone then [] else [Item(DoneMarker())]
    else Body(codec, s.buffer, s.transform, BeforeEnd(s.answers)) + [Item(DoneMarker())]
  }

  /** Reading an upstream answer ahead of need does not change the trace. */
  lemma TraceAbsorb(codec: Codec, s: AdapterState)
    requires !s.upstreamDone && s.pending == [] && s.answers != [] && IsChunk(s.answers[0])
    ensures var s' := Absorb(codec, s.(answers := s.answers[1..]), s.answers[0].next.value.value);
            && Trace(codec, s') == Trace(codec, s)
            && s'.answers == s.answers[1..] && !s'.upstreamDone && s'.emittedDone == s.emittedDone
  {
    hide Drain, ProcessAll, EmitAll, Encode;
    var chunk := s.answers[0].next.value.value;
    var s' := Absorb(codec, s.(answers := s.answers[1..]), chunk);
    var a := BeforeEnd(s.answers);
    assert a[0] == s.answers[0] && a[1..] == BeforeEnd(s'.answers);
    var alone := Absorb(codec, AdapterState([], s.buffer, s.transform, [], false, false), chunk);
    assert s'.pending == alone.pending && s'.buffer == alone.buffer && s'.transform == alone.transform;
    assert Items(s.pending) == [];
  }

  predicate Sound(s: AdapterState) {
    s.emittedDone ==> s.upstreamDone
  }

  /** One poll answers with the head of the trace and leaves its tail. */
  lemma {:induction false} PollIsTraceHead(codec: Codec, s: AdapterState)
    requires Sound(s)
    ensures var (p, s') := PollStep(codec, s);
            && Sound(s') && p == Answer(Trace(codec, s), 0)
            && Trace(codec, s') == if Trace(codec, s) == [] then [] else Trace(codec, s)[1..]
    decreases if s.upstreamDone then 0 else |s.answers| + 1
  {
    hide Absorb, Encode;
    if s.pending != [] || s.upstreamDone {
    } else if s.answers == [] || s.answers[0] == END {
      PollIsTraceHead(codec, s.(answers := if s.answers == [] then [] else s.answers[1..], upstreamDone := true));
    } else if IsChunk(s.answers[0]) {
      TraceAbsorb(codec, s);
      PollIsTraceHead(codec, Absorb(codec, s.(answers := s.answers[1..]), s.answers[0].next.value.value));
    } else {
      var a := BeforeEnd(s.answers);
      assert a[0] == s.answers[0] && a[1..] == BeforeEnd(s.answers[1..]);
    }
  }

  function Polls(codec: Codec, s: AdapterState, n: nat): seq<Poll>
    decreases n
  {
    if n == 0 then [] else [PollStep(codec, s).0] + Polls(codec, PollStep(codec, s).1, n - 1)
  }

  /** Polled any number of times, the adapter is a stream that answers its trace and then, for
      ever, the end. */
  lemma {:induction false} AdapterFollowsTrace(codec: Codec, s: AdapterState, n: nat)
    requires Sound(s)
    ensures Polls(codec, s, n) == Answers(Trace(codec, s), n)
    decreases n
  {
    hide PollStep, Trace;
    if n > 0 {
      PollIsTraceHead(codec, s);
      var (p, s') := PollStep(codec, s);
      AdapterFollowsTrace(codec, s', n - 1);
      AnswersCons(Trace(codec, s), Trace(codec, s'), n);
    }
  }

  lemma AnswersCons(t: seq<Poll>, tail: seq<Poll>, n: nat)
    requires n > 0 && tail == if t == [] then [] else t[1..]
    ensures Answers(t, n) == [Answer(t, 0)] + Answers(tail, n - 1)
  {
    forall i | 0 <= i < n
      ensures Answers(t, n)[i] == ([Answer(t, 0)] + Answers(tail, n - 1))[i]
    {
      if i > 0 {
        assert Answer(tail, i - 1) == Answer(t, i);
      }
    }
  }

  function Start(id: string, created: u64, model: string, answers: seq<Poll>): AdapterState {
    AdapterState(answers, [], TransformState(id, created, model, 0, 0), [], false, false)
  }

  // ----- conservation -----

  /** Pendings and errors. */
  function Others(answers: seq<Poll>): seq<Poll> {
    if answers == [] then []
    else if IsChunk(answers[0]) then Others(answers[1..])
    else [answers[0]] + Others(answers[1..])
  }

  /** The chunks that the transform makes of all complete events in the bytes of `a`. */
  function Outputs(codec: Codec, buffer: seq<byte>, t: TransformState, a: seq<Poll>): seq<Chunk> {
    ProcessAll(codec.parse, t, Drain(buffer + Flatten(Chunks(a))).0).1
  }

  lemma {:induction false} ProcessAllConcat(
    parse: string -> Option<Json>, t: TransformState, a: seq<SseEvent>, b: seq<SseEvent>)
    ensures var first := ProcessAll(parse, t, a);
            var second := ProcessAll(parse, first.0, b);
            ProcessAll(parse, t, a + b) == (second.0, first.1 + second.1)
    decreases |a|
  {
    hide Process;
    if a == [] {
      assert a + b == b;
      assert [] + ProcessAll(parse, t, b).1 == ProcessAll(parse, t, b).1;
    } else {
      var step := Process(parse, t, a[0]);
      assert (a + b)[0] == a[0] && (a + b)[1..] == a[1..] + b;
      ProcessAllConcat(parse, step.0, a[1..], b);
      var first := ProcessAll(parse, step.0, a[1..]);
      var second := ProcessAll(parse, first.0, b);
      assert step.1 + (first.1 + second.1) == (step.1 + first.1) + second.1;
    }
  }

  lemma ItemCons(chunk: seq<byte>, rest: seq<Poll>)
    ensures Chunks([Item(chunk)] + rest) == [chunk] + Chunks(rest) && Others([Item(chunk)] + rest) == Others(rest)
  {
    assert ([Item(chunk)] + rest)[1..] == rest;
  }

  lemma {:induction false} ItemsAreChunks(cs: seq<seq<byte>>, rest: seq<Poll>)
    ensures Chunks(Items(cs) + rest) == cs + Chunks(rest) && Others(Items(cs) + rest) == Others(rest)
    decreases |cs|
  {
    hide Chunks, Others;
    if cs == [] {
      assert Items(cs) + rest == rest;
    } else {
      ItemCons(cs[0], Items(cs[1..]) + rest);
      ItemsAreChunks(cs[1..], rest);
      assert Items(cs) + rest == [Item(cs[0])] + (Items(cs[1..]) + rest);
    }
  }

  /** One chunk's share of the outputs. */
  lemma OutputsStep(codec: Codec, buffer: seq<byte>, t: TransformState, chunk: seq<byte>, rest: seq<Poll>)
    requires Drain(buffer) == ([], buffer)
    ensures var s := Absorb(codec, AdapterState([], buffer, t, [], false, false), chunk);
            && Drain(s.buffer) == ([], s.buffer)
            && EmitAll(codec.render, Outputs(codec, buffer, t, [Item(chunk)] + rest))
               == s.pending + EmitAll(codec.render, Outputs(codec, s.buffer, s.transform, rest))
  {
    hide Process, Emit, Pull, ProcessAll, Drain, EmitAll;
    var fed, later := buffer + chunk, Flatten(Chunks(rest));
    var a := [Item(chunk)] + rest;
    assert a[1..] == rest;
    assert buffer + Flatten(Chunks(a)) == fed + later;
    DrainSplit(fed, later);
    DrainIdempotent(fed);
    var first := ProcessAll(codec.parse, t, Drain(fed).0);
    ProcessAllConcat(codec.parse, t, Drain(fed).0, Drain(Drain(fed).1 + later).0);
    EmitAllConcat(codec.render, first.1, ProcessAll(codec.parse, first.0, Drain(Drain(fed).1 + later).0).1);
    assert [] + EmitAll(codec.render, first.1) == EmitAll(codec.render, first.1);
  }

  /** The data delivered is exactly the outputs of all complete events of all the bytes, in
      order; the other answers are exactly the upstream's, in order. */
  lemma {:induction false} BodyConserves(codec: Codec, buffer: seq<byte>, t: TransformState, a: seq<Poll>)
    requires Drain(buffer) == ([], buffer)
    ensures Chunks(Body(codec, buffer, t, a)) == EmitAll(codec.render, Outputs(codec, buffer, t, a))
    ensures Others(Body(codec, buffer, t, a)) == Others(a)
    decreases |a|
  {
    hide Absorb, Outputs, Drain, Emit;
    if a == [] {
      NoOutputs(codec, buffer, t);
    } else if IsChunk(a[0]) {
      var chunk := a[0].next.value.value;
      var s := Absorb(codec, AdapterState([], buffer, t, [], false, false), chunk);
      OutputsStep(codec, buffer, t, chunk, a[1..]);
      assert [Item(chunk)] + a[1..] == a;
      BodyConserves(codec, s.buffer, s.transform, a[1..]);
      ItemsAreChunks(s.pending, Body(codec, s.buffer, s.transform, a[1..]));
    } else {
      OutputsSkip(codec, buffer, t, a);
      BodyConserves(codec, buffer, t, a[1..]);
      var tail := Body(codec, buffer, t, a[1..]);
      assert ([a[0]] + tail)[1..] == tail;
    }
  }

  lemma NoOutputs(codec: Codec, buffer: seq<byte>, t: TransformState)
    requires Drain(buffer) == ([], buffer)
    ensures Outputs(codec, buffer, t, []) == []
  {
    assert buffer + Flatten(Chunks([])) == buffer;
  }

  lemma OutputsSkip(codec: Codec, buffer: seq<byte>, t: TransformState, a: seq<Poll>)
    requires a != [] && !IsChunk(a[0])
    ensures Outputs(codec, buffer, t, a) == Outputs(codec, buffer, t, a[1..])
  {
  }

  lemma {:induction false} BodySplit(codec: Codec, buffer: seq<byte>, t: TransformState, a: seq<Poll>, i: nat)
    requires i <= |a|
    ensures Body(codec, buffer, t, a[..i]) <= Body(codec, buffer, t, a)
    ensures i < |a| && !IsChunk(a[i]) ==>
              var before := Body(codec, buffer, t, a[..i]);
              |before| < |Body(codec, buffer, t, a)| && Body(codec, buffer, t, a)[|before|] == a[i]
    decreases i
  {
    hide Absorb;
    if i > 0 {
      assert a[..i][0] == a[0] && a[..i][1..] == a[1..][..i - 1];
      if IsChunk(a[0]) {
        var s := Absorb(codec, AdapterState([], buffer, t, [], false, false), a[0].next.value.value);
        BodySplit(codec, s.buffer, s.transform, a[1..], i - 1);
      } else {
        BodySplit(codec, buffer, t, a[1..], i - 1);
      }
    }
  }

  /** Adapter conservation. The whole trace carries the outputs of all complete events and then
      one `[DONE]`; pendings and errors come through unchanged, and each comes right after the
      outputs of the chunks before it. */
  lemma AdapterConserves(codec: Codec, id: string, created: u64, model: string, answers: seq<Poll>)
    ensures var t, up := TransformState(id, created, model, 0, 0), BeforeEnd(answers);
            var trace := Trace(codec, Start(id, created, model, answers));
            && Chunks(trace) == EmitAll(codec.render, Outputs(codec, [], t, up)) + [DoneMarker()]
            && trace != [] && trace[|trace| - 1] == Item(DoneMarker())
            && Others(trace) == Others(up)
            && forall i | 0 <= i < |up| && !IsChunk(up[i]) ::
                 exists k :: 0 <= k < |trace| && trace[k] == up[i]
                   && Chunks(trace[..k]) == EmitAll(codec.render, Outputs(codec, [], t, up[..i]))
                   && Others(trace[..k]) == Others(up[..i])
  {
    hide Outputs, Emit, Absorb, Encode, Drain;
    var t, up := TransformState(id, created, model, 0, 0), BeforeEnd(answers);
    var body := Body(codec, [], t, up);
    var trace := Trace(codec, Start(id, created, model, answers));
    assert trace == body + [Item(DoneMarker())];
    EmptyDrains();
    BodyConserves(codec, [], t, up);
    ChunksConcat(body, [Item(DoneMarker())]);
    OthersConcat(body, [Item(DoneMarker())]);
    forall i | 0 <= i < |up| && !IsChunk(up[i])
      ensures exists k :: 0 <= k < |trace| && trace[k] == up[i]
                && Chunks(trace[..k]) == EmitAll(codec.render, Outputs(codec, [], t, up[..i]))
                && Others(trace[..k]) == Others(up[..i])
    {
      var before := Body(codec, [], t, up[..i]);
      BodySplit(codec, [], t, up, i);
      BodyConserves(codec, [], t, up[..i]);
      assert trace[..|before|] == before;
      assert trace[|before|] == up[i];
    }
  }

  lemma EmptyDrains()
    ensures Drain([]) == ([], [])
  {
  }

  lemma {:induction false} OthersConcat(a: seq<Poll>, b: seq<Poll>)
    ensures Others(a + b) == Others(a) + Others(b)
    decreases |a|
  {
    if a == [] {
      assert a + b == b;
    } else {
      assert (a + b)[1..] == a[1..] + b;
      OthersConcat(a[1..], b);
    }
  }
}
