/** The usage observer: forwards a body stream unchanged and charges the key once. */
module StreamObserver {
  import opened Wrappers
  import opened Utf8
  import opened Sse
  import opened Json
  import opened Streams
  import opened Pricing
  import opened Spend
  import Anthropic

  function ParseChunkUsage(parse: string -> Option<Json>, data: string): Option<Usage> {
    if Trim(data) == "[DONE]" then None
    else
      var value := parse(data);
      if value.None? then None
      else
        var usage := value.value.Get("usage");
        var prompt := U64In(GetIn(usage, "prompt_tokens"));
        var completion := U64In(GetIn(usage, "completion_tokens"));
        if prompt.Some? && completion.Some? then
          Some(Usage(Anthropic.AsU32(prompt.value), Anthropic.AsU32(completion.value)))
        else None
  }

  /** A `usage` object with both counts as unsigned integers. */
  predicate HasUsage(j: Json, prompt: nat, completion: nat) {
    && j.Obj? && "usage" in j.fields && j.fields["usage"].Obj?
    && var counts := j.fields["usage"].fields;
    && "prompt_tokens" in counts && counts["prompt_tokens"] == Uint(prompt)
    && "completion_tokens" in counts && counts["completion_tokens"] == Uint(completion)
  }

  /** Exactly which payloads report usage, and which counts, modulo 2^32. */
  lemma UsageReadExactly(parse: string -> Option<Json>, data: string, prompt: nat, completion: nat)
    ensures Trim(data) != "[DONE]" && parse(data).Some? && HasUsage(parse(data).value, prompt, completion) ==>
              ParseChunkUsage(parse, data) == Some(Usage(prompt % 0x1_0000_0000, completion % 0x1_0000_0000))
    ensures ParseChunkUsage(parse, data).Some? ==>
              Trim(data) != "[DONE]" && parse(data).Some? && exists p, c :: HasUsage(parse(data).value, p, c)
  {
    if ParseChunkUsage(parse, data).Some? {
      var counts := parse(data).value.fields["usage"].fields;
      assert HasUsage(parse(data).value, counts["prompt_tokens"].n, counts["completion_tokens"].n);
    }
  }

  /** Pull events until one carries usage; later ones stay in the buffer. */
  function PullUsage(parse: string -> Option<Json>, buffer: seq<byte>): (Option<Usage>, seq<byte>)
    decreases |buffer|
  {
    var (event, rest) := Pull(buffer);
    if event.None? then (None, rest)
    else
      var usage := ParseChunkUsage(parse, event.value.data);
      if usage.Some? then (usage, rest) else PullUsage(parse, rest)
  }

  datatype ObserverState = ObserverState(buffer: seq<byte>, found: bool)

  /** What one forwarded answer does to the observer, and the usage it reports, if any. */
  function Observe(parse: string -> Option<Json>, s: ObserverState, p: Poll): (ObserverState, Option<Usage>) {
    if IsChunk(p) && !s.found then
      var (usage, left) := PullUsage(parse, s.buffer + p.next.value.value);
      (ObserverState(left, usage.Some?), usage)
    else (s, None)
  }

  datatype Account = Account(pricing: Table, provider: string, model: string, keyId: string, limit: Option<SpendLimit>)

  /** The charge that a usage report makes: only for a priced model and a key with a limit. */
  function Bill(account: Account, usage: Usage): Option<real> {
    if account.limit.None? then None
    else Compute(account.pricing, account.provider, account.model, usage)
  }

  function Billed(entries: Entries, account: Account, usage: Option<Usage>, now: int): Entries {
    if usage.Some? && Bill(account, usage.value).Some? then
      Recorded(entries, account.keyId, account.limit.value.period, Bill(account, usage.value).value, now)
    else entries
  }

  class UsageObservingStream {
    const inner: BodyStream
    const parser: SseParser
    const tracker: SpendTracker
    const codec: Codec
    const account: Account
    var foundUsage: bool

    ghost function View(): ObserverState
      reads this, parser
    {
      ObserverState(parser.buffer, foundUsage)
    }

    constructor (inner: BodyStream, tracker: SpendTracker, codec: Codec, account: Account)
      ensures this.inner == inner && this.tracker == tracker && this.codec == codec && this.account == account
      ensures fresh(parser) && View() == ObserverState([], false)
    {
      this.inner, this.tracker, this.codec, this.account := inner, tracker, codec, account;
      parser := new SseParser();
      foundUsage := false;
    }

    /** The answer is the inner stream's own; at most one charge is recorded, and none once a
        usage report has been seen. */
    method PollNext(now: int) returns (p: Poll)
      modifies this, inner, parser, tracker
      ensures p == Answer(old(inner.answers), 0)
      ensures inner.answers == if old(inner.answers) == [] then [] else old(inner.answers)[1..]
      ensures View() == Observe(codec.parse, old(View()), p).0
      ensures tracker.entries == Billed(old(tracker.entries), account, Observe(codec.parse, old(View()), p).1, now)
    {
      p := inner.PollNext();
      if IsChunk(p) && !foundUsage {
        parser.Feed(p.next.value.value);
        ghost var goal := PullUsage(codec.parse, parser.buffer);
        hide Pull, ParseChunkUsage, Compute, Recorded;
        var event := parser.NextEvent();
        while event.Some?
          invariant !foundUsage && tracker.entries == old(tracker.entries)
          invariant goal == if event.None? then (None, parser.buffer)
                            else if ParseChunkUsage(codec.parse, event.value.data).Some? then
                              (ParseChunkUsage(codec.parse, event.value.data), parser.buffer)
                            else PullUsage(codec.parse, parser.buffer)
          invariant inner.answers == if old(inner.answers) == [] then [] else old(inner.answers)[1..]
          decreases event.Some?, |parser.buffer|
        {
          var usage := ParseChunkUsage(codec.parse, event.value.data);
          if usage.Some? {
            var cost := Compute(account.pricing, account.provider, account.model, usage.value);
            if cost.Some? {
              if account.limit.Some? {
                tracker.Record(account.keyId, account.limit.value.period, cost.value, now);
              }
            }
            foundUsage := true;
            break;
          }
          event := parser.NextEvent();
        }
      }
    }
  }

  // ----- over a whole stream -----

  /** Every usage report made while the answers pass through. */
  function ObserveAll(parse: string -> Option<Json>, s: ObserverState, answers: seq<Poll>): seq<Usage>
    decreases |answers|
  {
    if answers == [] then []
    else
      var (s', usage) := Observe(parse, s, answers[0]);
      (if usage.Some? then [usage.value] else []) + ObserveAll(parse, s', answers[1..])
  }

  /** The first usage an event list carries. */
  function FirstUsage(parse: string -> Option<Json>, events: seq<SseEvent>): Option<Usage> {
    if events == [] then None
    else if ParseChunkUsage(parse, events[0].data).Some? then ParseChunkUsage(parse, events[0].data)
    else FirstUsage(parse, events[1..])
  }

  function AsSeq<T>(o: Option<T>): seq<T> {
    if o.Some? then [o.value] else []
  }

  lemma {:induction false} PullUsageIsFirst(parse: string -> Option<Json>, buffer: seq<byte>)
    ensures PullUsage(parse, buffer).0 == FirstUsage(parse, Drain(buffer).0)
    ensures PullUsage(parse, buffer).0.None? ==> PullUsage(parse, buffer).1 == Drain(buffer).1
    decreases |buffer|
  {
    hide ParseChunkUsage;
    if Pull(buffer).0.Some? {
      PullUsageIsFirst(parse, Pull(buffer).1);
    }
  }

  lemma {:induction false} FirstUsageConcat(parse: string -> Option<Json>, a: seq<SseEvent>, b: seq<SseEvent>)
    ensures FirstUsage(parse, a + b) ==
            if FirstUsage(parse, a).Some? then FirstUsage(parse, a) else FirstUsage(parse, b)
  {
    hide ParseChunkUsage;
    if a == [] {
      assert a + b == b;
    } else {
      assert (a + b)[1..] == a[1..] + b;
      FirstUsageConcat(parse, a[1..], b);
    }
  }

  lemma {:induction false} FoundIsFinal(parse: string -> Option<Json>, s: ObserverState, answers: seq<Poll>)
    requires s.found
    ensures ObserveAll(parse, s, answers) == []
    decreases |answers|
  {
    if answers != [] {
      FoundIsFinal(parse, s, answers[1..]);
    }
  }

  lemma {:induction false} ObservedFrom(parse: string -> Option<Json>, buffer: seq<byte>, answers: seq<Poll>)
    requires Drain(buffer) == ([], buffer)
    ensures ObserveAll(parse, ObserverState(buffer, false), answers)
         == AsSeq(FirstUsage(parse, Drain(buffer + Flatten(Chunks(answers))).0))
    decreases |answers|
  {
    hide Pull, ParseChunkUsage, Drain, PullUsage;
    if answers == [] {
      assert buffer + Flatten(Chunks(answers)) == buffer;
    } else if !IsChunk(answers[0]) {
      ObservedFrom(parse, buffer, answers[1..]);
    } else {
      var fed := buffer + answers[0].next.value.value;
      var rest := Flatten(Chunks(answers[1..]));
      assert buffer + Flatten(Chunks(answers)) == fed + rest;
      DrainSplit(fed, rest);
      FirstUsageConcat(parse, Drain(fed).0, Drain(Drain(fed).1 + rest).0);
      PullUsageIsFirst(parse, fed);
      var (usage, left) := PullUsage(parse, fed);
      if usage.Some? {
        FoundIsFinal(parse, ObserverState(left, true), answers[1..]);
      } else {
        DrainIdempotent(fed);
        ObservedFrom(parse, left, answers[1..]);
      }
    }
  }

  /** At most one report, whatever the chunking and the interleaved pendings and errors: the
      first usage in the event sequence of all the bytes delivered. */
  lemma ObservedOnce(parse: string -> Option<Json>, answers: seq<Poll>)
    ensures ObserveAll(parse, ObserverState([], false), answers)
         == AsSeq(FirstUsage(parse, Drain(Flatten(Chunks(answers))).0))
  {
    ObservedFrom(parse, [], answers);
    assert [] + Flatten(Chunks(answers)) == Flatten(Chunks(answers));
  }

  /** Fewer answers report the same usage or, so far, nothing. */
  lemma {:induction false} ObservedPrefix(parse: string -> Option<Json>, s: ObserverState, answers: seq<Poll>, n: nat)
    requires n <= |answers|
    ensures ObserveAll(parse, s, answers[..n]) <= ObserveAll(parse, s, answers)
    decreases n
  {
    hide Observe;
    if n > 0 {
      assert answers[..n][1..] == answers[1..][..n - 1];
      ObservedPrefix(parse, Observe(parse, s, answers[0]).0, answers[1..], n - 1);
    }
  }
}
