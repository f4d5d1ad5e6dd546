/** The streaming path end to end: Anthropic bytes through the adapter, its output through the
    usage observer, one charge at the end. */
module Pipeline {
  import opened Wrappers
  import opened Utf8
  import opened Sse
  import opened Json
  import opened Streams
  import opened Anthropic
  import opened StreamObserver
  import opened AnthropicStream
  import opened Pricing
  import opened Spend
  import opened SseRoundTrip

  // ----- the observer reads back what the adapter printed -----

  function EventOf(render: Json -> string, c: Chunk): SseEvent {
    SseEvent(None, render(ChunkJson(c)))
  }

  const DONE_EVENT := SseEvent(None, "[DONE]")

  function EventsOf(render: Json -> string, cs: seq<Chunk>): seq<SseEvent> {
    if cs == [] then [] else [EventOf(render, cs[0])] + EventsOf(render, cs[1..])
  }

  lemma PrintedData(text: string)
    ensures Encode("data: " + text + "\n\n") == Print(None, [text])
  {
    assert [text][..0] == [];
    assert FieldLines(None, [text]) == ["data: " + text];
    assert "data: " + text + "\n\n" == ("data: " + text) + "\n\n";
    EncodeConcat("data: " + text, "\n\n");
    assert "\n\n"[1..] == "\n" && "\n"[1..] == "";
    assert Encode("\n") == [LF] + Encode("");
    assert Encode("\n\n") == [LF] + Encode("\n");
  }

  lemma PullPrinted(text: string, rest: seq<byte>)
    requires Line(text)
    ensures Pull(Encode("data: " + text + "\n\n") + rest) == (Some(SseEvent(None, text)), rest)
  {
    hide Pull, Encode, Print;
    PrintedData(text);
    PrintThenPull(None, [text], rest);
  }

  lemma PullDone(rest: seq<byte>)
    ensures Pull(DoneMarker() + rest) == (Some(DONE_EVENT), rest)
  {
    hide Pull, Encode;
    PullPrinted("[DONE]", rest);
    assert "data: " + "[DONE]" + "\n\n" == DONE;
  }

  /** Every emitted chunk is one event for any reader of the stream. */
  lemma PullEmitted(codec: Codec, c: Chunk, rest: seq<byte>)
    requires Lawful(codec)
    ensures Pull(Emit(codec.render, c) + rest) == (Some(EventOf(codec.render, c)), rest)
  {
    hide Pull, Encode, ChunkJson;
    PullPrinted(codec.render(ChunkJson(c)), rest);
  }

  lemma DrainStep(buffer: seq<byte>, e: SseEvent, rest: seq<byte>)
    requires Pull(buffer) == (Some(e), rest)
    ensures Drain(buffer) == ([e] + Drain(rest).0, Drain(rest).1)
  {
  }

  lemma {:induction false} DrainEmitted(codec: Codec, cs: seq<Chunk>, rest: seq<byte>)
    requires Lawful(codec)
    ensures Drain(Flatten(EmitAll(codec.render, cs)) + rest)
         == (EventsOf(codec.render, cs) + Drain(rest).0, Drain(rest).1)
    decreases |cs|
  {
    hide Pull, Drain, Emit, Lawful, EventOf;
    if cs == [] {
      assert Flatten(EmitAll(codec.render, cs)) + rest == rest;
      assert EventsOf(codec.render, cs) + Drain(rest).0 == Drain(rest).0;
    } else {
      var tail := Flatten(EmitAll(codec.render, cs[1..])) + rest;
      assert Flatten(EmitAll(codec.render, cs)) + rest == Emit(codec.render, cs[0]) + tail;
      PullEmitted(codec, cs[0], tail);
      DrainStep(Emit(codec.render, cs[0]) + tail, EventOf(codec.render, cs[0]), tail);
      DrainEmitted(codec, cs[1..], rest);
      assert [EventOf(codec.render, cs[0])] + (EventsOf(codec.render, cs[1..]) + Drain(rest).0)
          == EventsOf(codec.render, cs) + Drain(rest).0;
    }
  }

  /** The round trip between `usage_chunk` and `parse_chunk_usage`: exactly the token counts
      come back, and no other chunk is mistaken for a usage report. */
  lemma UsageRoundTrip(codec: Codec, c: Chunk)
    requires Lawful(codec)
    ensures ParseChunkUsage(codec.parse, codec.render(ChunkJson(c)))
         == if c.UsageChunk? then Some(Usage(c.input, c.output)) else None
  {
    var text := codec.render(ChunkJson(c));
    assert codec.parse(text) == Some(ChunkJson(c)) && |text| >= 2 && text[0] == '{' && text[|text| - 1] == '}';
    assert Trim(text) == text;
    assert "[DONE]"[0] == '[';
    if c.UsageChunk? {
      var usage := ChunkJson(c).Get("usage");
      assert U64In(GetIn(usage, "prompt_tokens")) == Some(c.input);
      assert U64In(GetIn(usage, "completion_tokens")) == Some(c.output);
    } else {
      assert ChunkJson(c).Get("usage").None?;
    }
  }

  function FirstUsageChunk(cs: seq<Chunk>): Option<Usage> {
    if cs == [] then None
    else if cs[0].UsageChunk? then Some(Usage(cs[0].input, cs[0].output))
    else FirstUsageChunk(cs[1..])
  }

  lemma {:induction false} FirstUsageOfEmitted(codec: Codec, cs: seq<Chunk>)
    requires Lawful(codec)
    ensures FirstUsage(codec.parse, EventsOf(codec.render, cs)) == FirstUsageChunk(cs)
    decreases |cs|
  {
    hide ParseChunkUsage, Lawful, ChunkJson;
    if cs != [] {
      UsageRoundTrip(codec, cs[0]);
      FirstUsageOfEmitted(codec, cs[1..]);
      assert EventsOf(codec.render, cs)[1..] == EventsOf(codec.render, cs[1..]);
    }
  }

  lemma DoneHasNoUsage(parse: string -> Option<Json>)
    ensures FirstUsage(parse, [DONE_EVENT]) == None
  {
    assert Trim("[DONE]") == "[DONE]";
    assert [DONE_EVENT][1..] == [];
  }

  // ----- what the first usage report says, read off the upstream events -----

  /** A `message_delta` event whose data is JSON. */
  predicate WellFormedDelta(parse: string -> Option<Json>, e: SseEvent) {
    e.event == Some("message_delta") && parse(e.data).Some?
  }

  /** The index of the first one, or the number of events. */
  function FirstDelta(parse: string -> Option<Json>, events: seq<SseEvent>): (d: nat)
    ensures d <= |events|
    ensures forall i | 0 <= i < d :: !WellFormedDelta(parse, events[i])
    ensures d < |events| ==> WellFormedDelta(parse, events[d])
  {
    if events == [] || WellFormedDelta(parse, events[0]) then 0 else 1 + FirstDelta(parse, events[1..])
  }

  /** The input tokens an event announces, if it is a `message_start` that carries them. */
  function AnnouncedInput(parse: string -> Option<Json>, e: SseEvent): Option<nat> {
    var data := parse(e.data);
    if e.event == Some("message_start") && data.Some? then
      U64In(GetIn(GetIn(data.value.Get("message"), "usage"), "input_tokens"))
    else None
  }

  /** The latest announced input count, zero before any. */
  function HeldInput(parse: string -> Option<Json>, events: seq<SseEvent>): u32 {
    if events == [] then 0
    else
      match AnnouncedInput(parse, events[|events| - 1])
      case Some(tokens) => tokens % 0x1_0000_0000
      case None => HeldInput(parse, events[..|events| - 1])
  }

  /** The output count a `message_delta` reports, zero when it has none. */
  function ReportedOutput(parse: string -> Option<Json>, e: SseEvent): u32 {
    var data := parse(e.data);
    if data.None? then 0
    else
      match U64In(GetIn(data.value.Get("usage"), "output_tokens"))
      case Some(tokens) => tokens % 0x1_0000_0000
      case None => 0
  }

  /** The usage held at the first well-formed `message_delta`. */
  function HeldUsage(parse: string -> Option<Json>, events: seq<SseEvent>): Option<Usage> {
    var d := FirstDelta(parse, events);
    if d == |events| then None
    else Some(Usage(HeldInput(parse, events[..d]), ReportedOutput(parse, events[d])))
  }

  lemma ProcessHolds(parse: string -> Option<Json>, s: TransformState, e: SseEvent)
    ensures var (s', out) := Process(parse, s, e);
            && s'.input == (match AnnouncedInput(parse, e) case Some(tokens) => AsU32(tokens) case None => s.input)
            && (!WellFormedDelta(parse, e) ==> s'.output == s.output && FirstUsageChunk(out) == None)
            && (WellFormedDelta(parse, e) && s.output == 0 ==>
                  FirstUsageChunk(out) == Some(Usage(s.input, ReportedOutput(parse, e))))
  {
    if WellFormedDelta(parse, e) {
      var out := Process(parse, s, e).1;
      assert out[1..][0] == out[1];
    }
  }

  lemma {:induction false} FirstUsageChunkConcat(a: seq<Chunk>, b: seq<Chunk>)
    ensures FirstUsageChunk(a + b) == if FirstUsageChunk(a).Some? then FirstUsageChunk(a) else FirstUsageChunk(b)
    decreases |a|
  {
    if a == [] {
      assert a + b == b;
    } else {
      assert (a + b)[1..] == a[1..] + b;
      FirstUsageChunkConcat(a[1..], b);
    }
  }

  /** Before any well-formed `message_delta` the transform reports nothing and only tracks the
      input count. */
  lemma {:induction false} BeforeDelta(parse: string -> Option<Json>, s: TransformState, events: seq<SseEvent>)
    requires s.input == 0 && s.output == 0
    requires forall e | e in events :: !WellFormedDelta(parse, e)
    ensures var (s', out) := ProcessAll(parse, s, events);
            s'.input == HeldInput(parse, events) && s'.output == 0 && FirstUsageChunk(out) == None
    decreases |events|
  {
    hide Process, WellFormedDelta, AnnouncedInput;
    if events != [] {
      var before, last := events[..|events| - 1], events[|events| - 1];
      assert last in events;
      BeforeDelta(parse, s, before);
      var (s1, out1) := ProcessAll(parse, s, before);
      ProcessHolds(parse, s1, last);
      assert before + [last] == events;
      ProcessAllConcat(parse, s, before, [last]);
      ProcessOne(parse, s1, last);
      FirstUsageChunkConcat(out1, Process(parse, s1, last).1);
    }
  }

  lemma ProcessOne(parse: string -> Option<Json>, s: TransformState, e: SseEvent)
    ensures ProcessAll(parse, s, [e]) == Process(parse, s, e)
  {
    assert [e][1..] == [];
    assert Process(parse, s, e).1 + [] == Process(parse, s, e).1;
  }

  /** The first usage chunk the transform emits, in terms of the events alone. */
  lemma TransformReportsHeldUsage(parse: string -> Option<Json>, s: TransformState, events: seq<SseEvent>)
    requires s.input == 0 && s.output == 0
    ensures FirstUsageChunk(ProcessAll(parse, s, events).1) == HeldUsage(parse, events)
  {
    hide Process, WellFormedDelta, AnnouncedInput, ReportedOutput;
    var d := FirstDelta(parse, events);
    BeforeDelta(parse, s, events[..d]);
    if d == |events| {
      assert events[..d] == events;
    } else {
      var (s1, out1) := ProcessAll(parse, s, events[..d]);
      var rest := events[d + 1..];
      assert events == events[..d] + ([events[d]] + rest);
      ProcessAllConcat(parse, s, events[..d], [events[d]] + rest);
      ProcessAllConcat(parse, s1, [events[d]], rest);
      ProcessOne(parse, s1, events[d]);
      ProcessHolds(parse, s1, events[d]);
      var (s2, out2) := Process(parse, s1, events[d]);
      var out3 := ProcessAll(parse, s2, rest).1;
      FirstUsageChunkConcat(out1, out2 + out3);
      FirstUsageChunkConcat(out2, out3);
    }
  }

  // ----- the composition -----

  /** The observer polled `n` times over the adapter: the answers it forwards and the usage it
      reports. */
  function Piped(codec: Codec, adapter: AdapterState, observer: ObserverState, n: nat): (seq<Poll>, seq<Usage>)
    decreases n
  {
    if n == 0 then ([], [])
    else
      var (p, adapter') := PollStep(codec, adapter);
      var (observer', usage) := Observe(codec.parse, observer, p);
      var (ps, usages) := Piped(codec, adapter', observer', n - 1);
      ([p] + ps, AsSeq(usage) + usages)
  }

  lemma {:induction false} PipedIsPolled(codec: Codec, adapter: AdapterState, observer: ObserverState, n: nat)
    ensures Piped(codec, adapter, observer, n)
         == (Polls(codec, adapter, n), ObserveAll(codec.parse, observer, Polls(codec, adapter, n)))
    decreases n
  {
    hide PollStep, Observe;
    if n > 0 {
      var (p, adapter') := PollStep(codec, adapter);
      var observer' := Observe(codec.parse, observer, p).0;
      PipedIsPolled(codec, adapter', observer', n - 1);
      var ps := Polls(codec, adapter, n);
      assert ps[1..] == Polls(codec, adapter', n - 1);
    }
  }

  /** The upstream events: those of all the bytes that arrive before the upstream ends. */
  function UpstreamEvents(answers: seq<Poll>): seq<SseEvent> {
    Drain(Flatten(Chunks(BeforeEnd(answers)))).0
  }

  lemma {:induction false} FlattenConcat<T>(a: seq<seq<T>>, b: seq<seq<T>>)
    ensures Flatten(a + b) == Flatten(a) + Flatten(b)
    decreases |a|
  {
    if a == [] {
      assert a + b == b;
    } else {
      assert (a + b)[1..] == a[1..] + b;
      FlattenConcat(a[1..], b);
      assert a[0] + (Flatten(a[1..]) + Flatten(b)) == (a[0] + Flatten(a[1..])) + Flatten(b);
    }
  }

  lemma DrainDone()
    ensures Drain(Flatten([DoneMarker()])).0 == [DONE_EVENT]
  {
    hide Pull, DoneMarker;
    PullDone([]);
    assert Flatten([DoneMarker()]) == DoneMarker() + [];
    EmptyDrains();
    DrainStep(DoneMarker() + [], DONE_EVENT, []);
  }

  /** The events of all the bytes delivered: those of the chunks that the upstream events become,
      and the end marker. */
  lemma DeliveredEvents(codec: Codec, id: string, created: u64, model: string, answers: seq<Poll>)
    requires Lawful(codec)
    ensures var cs := ProcessAll(codec.parse, TransformState(id, created, model, 0, 0), UpstreamEvents(answers)).1;
            Drain(Flatten(Chunks(Trace(codec, Start(id, created, model, answers))))).0
            == EventsOf(codec.render, cs) + [DONE_EVENT]
  {
    hide *;
    var t, up := TransformState(id, created, model, 0, 0), BeforeEnd(answers);
    var cs := Outputs(codec, [], t, up);
    AdapterConserves(codec, id, created, model, answers);
    FlattenConcat(EmitAll(codec.render, cs), [DoneMarker()]);
    DrainEmitted(codec, cs, Flatten([DoneMarker()]));
    DrainDone();
    OutputsOfEvents(codec, t, answers);
  }

  /** Observing the whole trace reports the usage held at the first well-formed delta. */
  lemma TraceReports(codec: Codec, id: string, created: u64, model: string, answers: seq<Poll>)
    requires Lawful(codec)
    ensures ObserveAll(codec.parse, ObserverState([], false), Trace(codec, Start(id, created, model, answers)))
         == AsSeq(HeldUsage(codec.parse, UpstreamEvents(answers)))
  {
    hide *;
    var t := TransformState(id, created, model, 0, 0);
    var cs := ProcessAll(codec.parse, t, UpstreamEvents(answers)).1;
    ObservedOnce(codec.parse, Trace(codec, Start(id, created, model, answers)));
    DeliveredEvents(codec, id, created, model, answers);
    FirstUsageConcat(codec.parse, EventsOf(codec.render, cs), [DONE_EVENT]);
    DoneHasNoUsage(codec.parse);
    FirstUsageOfEmitted(codec, cs);
    TransformReportsHeldUsage(codec.parse, t, UpstreamEvents(answers));
  }

  lemma OutputsOfEvents(codec: Codec, t: TransformState, answers: seq<Poll>)
    ensures Outputs(codec, [], t, BeforeEnd(answers)) == ProcessAll(codec.parse, t, UpstreamEvents(answers)).1
  {
    var bytes := Flatten(Chunks(BeforeEnd(answers)));
    assert [] + bytes == bytes;
  }

  lemma {:induction false} EndsReportNothing(parse: string -> Option<Json>, s: ObserverState, t: seq<Poll>, n: nat)
    requires n >= |t|
    ensures ObserveAll(parse, s, Answers(t, n)) == ObserveAll(parse, s, t)
    decreases n
  {
    hide PullUsage;
    if n > 0 {
      var tail := if t == [] then [] else t[1..];
      AnswersCons(t, tail, n);
      assert Answers(t, n)[1..] == Answers(tail, n - 1);
      if t == [] {
        assert Observe(parse, s, END) == (s, None);
      }
      EndsReportNothing(parse, Observe(parse, s, Answer(t, 0)).0, tail, n - 1);
    }
  }

  /** End-to-end streaming accounting. However the Anthropic bytes are chunked and interleaved
      with pendings and errors, and however far the client reads: it receives the adapter's
      answers unchanged; at most one usage is reported, as soon as the bytes received contain it;
      and once the stream has been read to its end that is exactly the usage held at the first
      well-formed `message_delta`, if any. */
  lemma StreamingAccounting(codec: Codec, id: string, created: u64, model: string, answers: seq<Poll>, n: nat)
    requires Lawful(codec)
    ensures var start := Start(id, created, model, answers);
            var (delivered, reports) := Piped(codec, start, ObserverState([], false), n);
            var due := AsSeq(HeldUsage(codec.parse, UpstreamEvents(answers)));
            && delivered == Answers(Trace(codec, start), n)
            && reports == AsSeq(FirstUsage(codec.parse, Drain(Flatten(Chunks(delivered))).0))
            && (reports == due || reports == [])
            && (n >= |Trace(codec, start)| ==> reports == due)
  {
    hide Lawful, Trace, Observe, Piped, Polls, HeldUsage, UpstreamEvents, ObserveAll, Answer, FirstUsage;
    var start := Start(id, created, model, answers);
    var trace := Trace(codec, start);
    var s0 := ObserverState([], false);
    PipedIsPolled(codec, start, s0, n);
    AdapterFollowsTrace(codec, start, n);
    TraceReports(codec, id, created, model, answers);
    ObservedOnce(codec.parse, Answers(trace, n));
    if n >= |trace| {
      EndsReportNothing(codec.parse, s0, trace, n);
    } else {
      AnswersPrefix(trace, n);
      ObservedPrefix(codec.parse, s0, trace, n);
    }
  }

  lemma AnswersPrefix(t: seq<Poll>, n: nat)
    requires n <= |t|
    ensures Answers(t, n) == t[..n]
  {
  }

  /** The spend tracker's entries after the observer was polled once at each of the times `nows`. */
  function Ledger(
    codec: Codec, adapter: AdapterState, observer: ObserverState, account: Account, entries: Entries, nows: seq<int>)
    : Entries
    decreases |nows|
  {
    if nows == [] then entries
    else
      var (p, adapter') := PollStep(codec, adapter);
      var (observer', usage) := Observe(codec.parse, observer, p);
      Ledger(codec, adapter', observer', account, Billed(entries, account, usage, nows[0]), nows[1..])
  }

  /** Poll `k`, counted from 0, is the one that reports. */
  predicate ReportsAt(codec: Codec, adapter: AdapterState, observer: ObserverState, k: nat) {
    Piped(codec, adapter, observer, k).1 == [] && Piped(codec, adapter, observer, k + 1).1 != []
  }

  lemma {:induction false} LedgerFollowsReports(
    codec: Codec, adapter: AdapterState, observer: ObserverState, account: Account, entries: Entries, nows: seq<int>)
    returns (k: nat)
    requires |Piped(codec, adapter, observer, |nows|).1| <= 1
    ensures var reports := Piped(codec, adapter, observer, |nows|).1;
            var final := Ledger(codec, adapter, observer, account, entries, nows);
            if reports == [] then final == entries
            else k < |nows| && ReportsAt(codec, adapter, observer, k)
                 && final == Billed(entries, account, Some(reports[0]), nows[k])
    decreases |nows|
  {
    hide PollStep, Observe, Billed, Piped, ReportsAt;
    k := 0;
    if nows == [] {
      PipedNothing(codec, adapter, observer);
    } else {
      var (p, adapter') := PollStep(codec, adapter);
      var (observer', usage) := Observe(codec.parse, observer, p);
      NothingBilled(entries, account, nows[0]);
      var entries' := Billed(entries, account, usage, nows[0]);
      PipedOnce(codec, adapter, observer, |nows| - 1);
      var rest := LedgerFollowsReports(codec, adapter', observer', account, entries', nows[1..]);
      if usage.Some? {
        FirstPollReports(codec, adapter, observer);
      } else {
        k := rest + 1;
        if Piped(codec, adapter, observer, |nows|).1 != [] {
          LaterPollReports(codec, adapter, observer, rest);
        }
      }
    }
  }

  lemma PipedNothing(codec: Codec, adapter: AdapterState, observer: ObserverState)
    ensures Piped(codec, adapter, observer, 0) == ([], [])
  {
  }

  lemma PipedOnce(codec: Codec, adapter: AdapterState, observer: ObserverState, n: nat)
    ensures var (p, adapter') := PollStep(codec, adapter);
            var (observer', usage) := Observe(codec.parse, observer, p);
            var later := Piped(codec, adapter', observer', n).1;
            Piped(codec, adapter, observer, n + 1).1 == if usage.Some? then [usage.value] + later else later
  {
    hide PollStep, Observe;
    var (p, adapter') := PollStep(codec, adapter);
    var observer' := Observe(codec.parse, observer, p).0;
    assert [] + Piped(codec, adapter', observer', n).1 == Piped(codec, adapter', observer', n).1;
  }

  lemma FirstPollReports(codec: Codec, adapter: AdapterState, observer: ObserverState)
    requires Observe(codec.parse, observer, PollStep(codec, adapter).0).1.Some?
    ensures ReportsAt(codec, adapter, observer, 0)
  {
    hide PollStep, Observe, Piped;
    PipedNothing(codec, adapter, observer);
    PipedOnce(codec, adapter, observer, 0);
  }

  lemma LaterPollReports(codec: Codec, adapter: AdapterState, observer: ObserverState, k: nat)
    requires var (p, adapter') := PollStep(codec, adapter);
             var (observer', usage) := Observe(codec.parse, observer, p);
             usage.None? && ReportsAt(codec, adapter', observer', k)
    ensures ReportsAt(codec, adapter, observer, k + 1)
  {
    hide PollStep, Observe, Piped;
    PipedOnce(codec, adapter, observer, k);
    PipedOnce(codec, adapter, observer, k + 1);
  }

  lemma NothingBilled(entries: Entries, account: Account, now: int)
    ensures Billed(entries, account, None, now) == entries
  {
  }

  /** So the key is charged once and for those token counts: polled to the end, the observer
      leaves the tracker as one `record` of their cost at the time of the poll that reported them,
      or untouched when the model is unpriced, the key has no limit, or no delta arrived. */
  lemma ChargedOnce(
    codec: Codec, id: string, created: u64, model: string, answers: seq<Poll>, account: Account, entries: Entries,
    nows: seq<int>)
    returns (k: nat)
    requires Lawful(codec)
    ensures var start, s0 := Start(id, created, model, answers), ObserverState([], false);
            var events := UpstreamEvents(answers);
            var final := Ledger(codec, start, s0, account, entries, nows);
            var d := FirstDelta(codec.parse, events);
            |nows| >= |Trace(codec, start)| ==>
            if d == |events| then final == entries
            else
              var usage := Usage(HeldInput(codec.parse, events[..d]), ReportedOutput(codec.parse, events[d]));
              var cost := Compute(account.pricing, account.provider, account.model, usage);
              && k < |nows| && ReportsAt(codec, start, s0, k)
              && final == if account.limit.None? || cost.None? then entries
                          else Recorded(entries, account.keyId, account.limit.value.period, cost.value, nows[k])
  {
    hide Lawful, Trace, Piped, UpstreamEvents, HeldInput, ReportedOutput, Compute, FirstDelta, Ledger, ReportsAt,
        Recorded;
    var start := Start(id, created, model, answers);
    StreamingAccounting(codec, id, created, model, answers, |nows|);
    k := LedgerFollowsReports(codec, start, ObserverState([], false), account, entries, nows);
  }

  // ----- the client reads what the model said -----

  /** What one upstream event says to the client: the assistant's turn starts, a piece of text,
      or the turn ends with a finish reason. */
  datatype Utterance = TurnStarts | Says(text: string) | TurnEnds(finish: Option<string>)

  /** Read off an Anthropic event. */
  function Said(parse: string -> Option<Json>, e: SseEvent): seq<Utterance> {
    var data := parse(e.data);
    if data.None? then []
    else if e.event == Some("message_start") then [TurnStarts]
    else if e.event == Some("content_block_delta") then
      var delta := data.value.Get("delta");
      var text := StrIn(GetIn(delta, "text"));
      if StrIn(GetIn(delta, "type")) == Some("text_delta") && text.Some? then [Says(text.value)] else []
    else if e.event == Some("message_delta") then
      var reason := StrIn(GetIn(data.value.Get("delta"), "stop_reason"));
      [TurnEnds(if reason.None? then None else Some(if reason.value == "max_tokens" then "length" else "stop"))]
    else []
  }

  function FirstChoice(j: Json): Option<Json> {
    var choices := j.Get("choices");
    if choices.Some? && choices.value.Arr? && choices.value.items != [] then Some(choices.value.items[0]) else None
  }

  function Ends(finish: Option<string>): seq<Utterance> {
    if finish.Some? then [TurnEnds(finish)] else []
  }

  /** Read off an OpenAI event, as a client does: the first choice's delta tells which it is. */
  function Heard(parse: string -> Option<Json>, e: SseEvent): seq<Utterance> {
    if e.data == "[DONE]" || parse(e.data).None? then []
    else
      var choice := FirstChoice(parse(e.data).value);
      if choice.None? then []
      else
        var delta, finish := choice.value.Get("delta"), StrIn(choice.value.Get("finish_reason"));
        var content := StrIn(GetIn(delta, "content"));
        if StrIn(GetIn(delta, "role")) == Some("assistant") then [TurnStarts] + Ends(finish)
        else if content.Some? then [Says(content.value)] + Ends(finish)
        else [TurnEnds(finish)]
  }

  function Collect(read: SseEvent -> seq<Utterance>, events: seq<SseEvent>): seq<Utterance> {
    if events == [] then [] else read(events[0]) + Collect(read, events[1..])
  }

  function SaidAll(parse: string -> Option<Json>, events: seq<SseEvent>): seq<Utterance> {
    Collect(e => Said(parse, e), events)
  }

  function HeardAll(parse: string -> Option<Json>, events: seq<SseEvent>): seq<Utterance> {
    Collect(e => Heard(parse, e), events)
  }

  lemma {:induction false} CollectConcat(read: SseEvent -> seq<Utterance>, a: seq<SseEvent>, b: seq<SseEvent>)
    ensures Collect(read, a + b) == Collect(read, a) + Collect(read, b)
    decreases |a|
  {
    if a == [] {
      assert a + b == b;
    } else {
      assert (a + b)[1..] == a[1..] + b;
      CollectConcat(read, a[1..], b);
    }
  }

  /** A delta chunk is heard as what it stands for; a usage chunk says nothing. */
  function Meant(c: Chunk): seq<Utterance> {
    match c
    case DeltaChunk(_, Role, finish) => [TurnStarts] + Ends(finish)
    case DeltaChunk(_, Content(text), finish) => [Says(text)] + Ends(finish)
    case DeltaChunk(_, Nothing, finish) => [TurnEnds(finish)]
    case UsageChunk(_, _, _) => []
  }

  lemma ChunkIsHeard(codec: Codec, c: Chunk)
    requires Lawful(codec)
    ensures Heard(codec.parse, EventOf(codec.render, c)) == Meant(c)
  {
    var text := codec.render(ChunkJson(c));
    assert codec.parse(text) == Some(ChunkJson(c)) && |text| >= 2 && text[0] == '{';
    assert text != "[DONE]" by { assert "[DONE]"[0] == '['; }
  }

  function MeantAll(cs: seq<Chunk>): seq<Utterance> {
    if cs == [] then [] else Meant(cs[0]) + MeantAll(cs[1..])
  }

  lemma {:induction false} MeantConcat(a: seq<Chunk>, b: seq<Chunk>)
    ensures MeantAll(a + b) == MeantAll(a) + MeantAll(b)
    decreases |a|
  {
    if a == [] {
      assert a + b == b;
    } else {
      assert (a + b)[1..] == a[1..] + b;
      MeantConcat(a[1..], b);
    }
  }

  lemma {:induction false} ChunksAreHeard(codec: Codec, cs: seq<Chunk>)
    requires Lawful(codec)
    ensures HeardAll(codec.parse, EventsOf(codec.render, cs)) == MeantAll(cs)
    decreases |cs|
  {
    hide Heard, Meant, Lawful, EventOf;
    if cs != [] {
      ChunkIsHeard(codec, cs[0]);
      ChunksAreHeard(codec, cs[1..]);
      assert EventsOf(codec.render, cs)[1..] == EventsOf(codec.render, cs[1..]);
    }
  }

  lemma EventMeans(parse: string -> Option<Json>, s: TransformState, e: SseEvent)
    ensures MeantAll(Process(parse, s, e).1) == Said(parse, e)
  {
    var out := Process(parse, s, e).1;
    if |out| == 2 {
      assert out[1..] == [out[1]] && [out[1]][1..] == [];
      assert MeantAll([out[1]]) == Meant(out[1]) + [];
    } else if |out| == 1 {
      assert out[1..] == [];
    }
  }

  lemma {:induction false} TransformMeans(parse: string -> Option<Json>, s: TransformState, events: seq<SseEvent>)
    ensures MeantAll(ProcessAll(parse, s, events).1) == SaidAll(parse, events)
    decreases |events|
  {
    hide Process, Said, Meant;
    if events != [] {
      var (s1, out1) := Process(parse, s, events[0]);
      EventMeans(parse, s, events[0]);
      TransformMeans(parse, s1, events[1..]);
      MeantConcat(out1, ProcessAll(parse, s1, events[1..]).1);
    }
  }

  lemma DoneIsSilent(parse: string -> Option<Json>)
    ensures HeardAll(parse, [DONE_EVENT]) == []
  {
    var read := e => Heard(parse, e);
    assert [DONE_EVENT][1..] == [];
    assert Collect(read, [DONE_EVENT]) == read(DONE_EVENT) + Collect(read, []);
    assert read(DONE_EVENT) == [];
  }

  /** The conversion preserves meaning: a client that reads the delivered bytes to the end hears,
      in order, exactly the turn starts, the text and the finish reasons of the upstream events,
      however the bytes were chunked on either side. */
  lemma ClientHearsModel(codec: Codec, id: string, created: u64, model: string, answers: seq<Poll>)
    requires Lawful(codec)
    ensures HeardAll(codec.parse, Drain(Flatten(Chunks(Trace(codec, Start(id, created, model, answers))))).0)
         == SaidAll(codec.parse, UpstreamEvents(answers))
  {
    hide *;
    var t := TransformState(id, created, model, 0, 0);
    var cs := ProcessAll(codec.parse, t, UpstreamEvents(answers)).1;
    DeliveredEvents(codec, id, created, model, answers);
    HeardConcat(codec.parse, EventsOf(codec.render, cs), [DONE_EVENT]);
    ChunksAreHeard(codec, cs);
    DoneIsSilent(codec.parse);
    TransformMeans(codec.parse, t, UpstreamEvents(answers));
    assert MeantAll(cs) + [] == MeantAll(cs);
  }

  lemma HeardConcat(parse: string -> Option<Json>, a: seq<SseEvent>, b: seq<SseEvent>)
    ensures HeardAll(parse, a + b) == HeardAll(parse, a) + HeardAll(parse, b)
  {
    CollectConcat(e => Heard(parse, e), a, b);
  }

  // ----- one [DONE] -----

  lemma NoChunkIsDone(codec: Codec, c: Chunk)
    requires Lawful(codec)
    ensures Emit(codec.render, c) != DoneMarker()
  {
    hide Encode, Decode, ChunkJson;
    var text := codec.render(ChunkJson(c));
    assert text[0] == '{' && |text| >= 2;
    var printed := "data: " + text + "\n\n";
    assert printed[6] == '{' && DONE[6] == '[';
    DecodeEncode(printed);
    DecodeEncode(DONE);
  }

  lemma {:induction false} NoOutputIsDone(codec: Codec, cs: seq<Chunk>)
    requires Lawful(codec)
    ensures DoneMarker() !in EmitAll(codec.render, cs)
    decreases |cs|
  {
    hide Emit, DoneMarker, Lawful;
    if cs != [] {
      NoChunkIsDone(codec, cs[0]);
      NoOutputIsDone(codec, cs[1..]);
    }
  }

  /** Exactly one `[DONE]`: the last answer of the trace and no other. */
  lemma OneDone(codec: Codec, id: string, created: u64, model: string, answers: seq<Poll>)
    requires Lawful(codec)
    ensures var trace := Trace(codec, Start(id, created, model, answers));
            trace != [] && forall k | 0 <= k < |trace| :: trace[k] == Item(DoneMarker()) <==> k == |trace| - 1
  {
    hide Emit, DoneMarker, Lawful, Outputs, Trace, EmitAll;
    var t := TransformState(id, created, model, 0, 0);
    var trace := Trace(codec, Start(id, created, model, answers));
    var cs := Outputs(codec, [], t, BeforeEnd(answers));
    AdapterConserves(codec, id, created, model, answers);
    NoOutputIsDone(codec, cs);
    var front := trace[..|trace| - 1];
    assert trace == front + [Item(DoneMarker())];
    ChunksConcat(front, [Item(DoneMarker())]);
    LastChunk();
    SameFront(Chunks(front), EmitAll(codec.render, cs), DoneMarker());
    forall k | 0 <= k < |front|
      ensures trace[k] != Item(DoneMarker())
    {
      if IsChunk(front[k]) {
        ChunkAmong(front, k);
      }
    }
  }

  lemma SameFront<T>(a: seq<T>, b: seq<T>, x: T)
    requires a + [x] == b + [x]
    ensures a == b
  {
    assert a == (a + [x])[..|a + [x]| - 1];
    assert b == (b + [x])[..|b + [x]| - 1];
  }

  lemma LastChunk()
    ensures Chunks([Item(DoneMarker())]) == [DoneMarker()]
  {
  }

  lemma {:induction false} ChunkAmong(answers: seq<Poll>, k: nat)
    requires k < |answers| && IsChunk(answers[k])
    ensures answers[k].next.value.value in Chunks(answers)
    decreases k
  {
    if k > 0 {
      ChunkAmong(answers[1..], k - 1);
    }
  }
}
