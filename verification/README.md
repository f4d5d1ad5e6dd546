# Verified models of the VaultPlane gateway

VaultPlane is an API gateway in front of language-model providers. This project models its
stateful and arithmetic core in Dafny and proves what that core promises: streamed responses are
re-framed without loss and charged once, rate limits and spend limits hold, a gateway follows its
Control Node and never gets stuck on a broken bundle, failover tries the right providers, and
request signing uses correct dates and encodings.

`dafny verify dfyconfig.toml` checks everything.

## The parts

- **Streaming** (`Utf8`, `Sse`, `SseRoundTrip`, `SseFields`, `Json`, `Streams`, `Anthropic`,
  `StreamObserver`, `AnthropicStream`, `Pipeline`, `ChunkStamps`). Bytes are `seq<byte>`, UTF-8 is
  the concrete encoding of RFC 3629, and a body stream is the sequence of answers it gives to polls
  (pending, error, chunk, end). The adapter and the observer are classes whose `PollNext` loops
  follow the original; each is tied to a function of its state. `AnthropicStream` gives the
  adapter's answers in closed form for every interleaving, `Pipeline` composes it with the observer,
  and `ChunkStamps` reads the delivered chunks back. The JSON library is a parameter, `Codec`. The
  only thing assumed of it is `Anthropic.Lawful`: on the chunks emitted here, rendering is one
  line in braces and parsing a rendering gives the value back. Parsing of upstream data is an
  arbitrary function.
- **Admission and accounting** (`RateLimit`, `Periods`, `Spend`, `Overspend`, `Pricing`). Time is an
  input; `f64` is modelled as `real`. The token bucket has an exact characterisation and is
  optimal; the limiter and the spend tracker are refined to independent per-key histories; the
  check-then-charge race of the spend limit has an exact bound.
- **Control Node sync** (`Status`, `ConfigMap`, `Runtime`, `KeyStore`, `ControlNode`, `SyncRuns`,
  `SyncContents`). A tick takes the two HTTP answers, the build environment and the clock as inputs;
  the environment variables of the process are fixed. Runs are arbitrary sequences of ticks; nothing
  else writes the runtime or the key store during a run.
- **Failover** (`Registry`). A connector call's outcome is an input; the calls made and the audit
  trail are outputs.
- **Signing** (`Calendar`, `SigV4`, `Splitting`, `CanonicalRequest`). The calendar is defined by
  counting years and months one by one; the era arithmetic of the code is proved against it over
  all integers, with Rust's truncating division written out.
- **Response cache** (`ResponseCache`) and **request normalisation** (`Messages`).

## Where the code falls short of its purpose

- A spend limit per `week` uses a token made of the calendar year and the ISO week number. A day is
  called regular when that is the ISO year-week (`Periods.WeekTokenIsIso`). 30 December 2024 is not:
  it carries the token of the first week of January 2024 (`Periods.WeekTokenAtYearEnd`), so old spend
  counts again (`Spend.WeekSpendReturns`) and the overspend bound can be passed
  (`Overspend.WeekOverspend`). `Spend.PeriodSpendExactly`, `Spend.WeekSpendExactly` and
  `Overspend.OverspendExactly` say exactly when the totals and the bound are right.
- A data payload that starts with empty `data:` lines loses them (`SseRoundTrip.PrintThenPull` gives
  the exact condition).
- A complete frame that is not UTF-8 blocks the parser for good (`SseRoundTrip.BlockedForGood`, and
  `SseRoundTrip.BadByteBlocks` for an input), although the parser's comment only says that complete
  events are pulled out; `SseRoundTrip.DrainStopsAtBadFrame` says exactly when all of them are.
- The module comment of `anthropic.rs` says streamed usage is not recorded; the code emits a usage
  chunk and the observer records it. The model follows the code.
- Removing a key by id drops one record. `KeyStore.RemovalRevokes` says exactly when that revokes
  the id, `KeyStore.SharedIdSurvivesRemoval` gives keys for which it does not.

## Model

| member | source | states |
|---|---|---|
| `Utf8.DecodeEncode` | crates/vaultplane-core/src/sse.rs:34 | every string survives UTF-8 encoding and the validation that framing applies |
| `Utf8.EncodeDecode` | crates/vaultplane-core/src/sse.rs:34 | the bytes of an accepted frame are determined by its text, so validation accepts no second spelling |
| `Sse.ParseText` | crates/vaultplane-core/src/sse.rs:40-55 | the accumulating loop computes the declarative meaning of a frame: last event name trimmed, data lines joined without leading empty ones |
| `Sse.SseParser.Feed` | crates/vaultplane-core/src/sse.rs:28-30 | feeding appends to the buffer |
| `Sse.SseParser.NextEvent` | crates/vaultplane-core/src/sse.rs:33-37 | pulls the first complete UTF-8 frame and leaves the rest; otherwise nothing changes |
| `Sse.DrainSplit` | crates/vaultplane-core/src/sse.rs:27-37 | draining now and again after more bytes is draining once at the end, blank lines across the seam and blocked frames included |
| `Sse.ChunkingIndependence` | crates/vaultplane-core/src/sse.rs:27-37 | any split of the bytes, drained after every feed, gives the events and leftover of a single feed |
| `SseRoundTrip.DrainIsLossless` | crates/vaultplane-core/src/sse.rs:27-37 | every byte is in exactly one drained frame, in order, or in the leftover, which has no complete frame or a head frame that is not UTF-8 |
| `SseRoundTrip.DrainStopsAtBadFrame` | crates/vaultplane-core/src/sse.rs:33-37 | the frames pulled are the complete ones before the first that is not UTF-8, and every complete frame is pulled iff all of them are UTF-8 |
| `SseRoundTrip.BlockedForGood` | crates/vaultplane-core/src/sse.rs:33-35 | after a complete head frame that is not UTF-8, no bytes in any chunks ever yield an event again and all of them stay in the buffer |
| `SseRoundTrip.BadByteBlocks` | crates/vaultplane-core/src/sse.rs:33-35 | a witness: the three bytes 0xFF LF LF lose every later well-formed event |
| `SseRoundTrip.PrintThenPull` | crates/vaultplane-core/src/sse.rs:33-55 | a printed event is pulled whole whatever follows, and is unchanged iff no leading data line of several is empty |
| `SseFields.WrittenFramePulls` | crates/vaultplane-core/src/sse.rs:40-55 | any frame of event, data, comment and unknown lines, with or without the optional space and with LF or CR LF between lines, is pulled whole: the last name trimmed, the payloads joined |
| `SseFields.FindBlankExactly` | crates/vaultplane-core/src/sse.rs:33 | a frame ends at the first LF LF and at nothing else |
| `SseFields.TrimKeepsMiddle` | crates/vaultplane-core/src/sse.rs:45 | trimming keeps exactly the part between the first and the last character that is not white space |
| `SseFields.WhitespaceListed` | crates/vaultplane-core/src/sse.rs:45 | white space is the 25 code points that Unicode lists |
| `SseFields.StripPrefixExactly` | crates/vaultplane-core/src/sse.rs:44-46 | a field name is stripped exactly where it stands |
| `Messages.Normalise` | crates/vaultplane-core/src/provider/anthropic.rs:98-124 | a body that does not parse is refused; otherwise the loop hoists the joined system contents and keeps all other messages in order, with the default token limit and the temperature as given |
| `Messages.HoistingPartitions` | crates/vaultplane-core/src/provider/anthropic.rs:104-116 | no message is lost or duplicated by hoisting |
| `Messages.HoistingKeepsOrder` | crates/vaultplane-core/src/provider/anthropic.rs:104-116 | the messages sent on and the hoisted contents are those at the increasing positions of the messages that are not, or are, system ones |
| `Anthropic.AnthropicTransform.ProcessEvent` | crates/vaultplane-core/src/provider/anthropic.rs:253-350 | one event's new model and token state and the exact chunks emitted |
| `Anthropic.AnthropicStreamAdapter.AbsorbChunk` | crates/vaultplane-core/src/provider/anthropic.rs:396-403 | the inner loop queues, in order, what all newly complete events become |
| `Anthropic.AnthropicStreamAdapter.PollNext` | crates/vaultplane-core/src/provider/anthropic.rs:380-409 | one poll terminates and answers as the queue, the flags and the next upstream answer dictate |
| `AnthropicStream.AdapterFollowsTrace` | crates/vaultplane-core/src/provider/anthropic.rs:380-409 | polled any number of times, the adapter answers its closed-form trace and then the end for ever |
| `AnthropicStream.AdapterConserves` | crates/vaultplane-core/src/provider/anthropic.rs:377-410 | data delivered is exactly the outputs of all complete events of all bytes and then `[DONE]`; every pending and error comes right after the outputs of the chunks before it |
| `Pipeline.OneDone` | crates/vaultplane-core/src/provider/anthropic.rs:386-391 | there is a last answer, it is `[DONE]`, and no other answer is |
| `StreamObserver.UsageObservingStream.PollNext` | crates/vaultplane-core/src/stream_observer.rs:75-108 | the answer is forwarded unchanged; the tracker gets at most one charge and none after usage was seen |
| `StreamObserver.ObservedOnce` | crates/vaultplane-core/src/stream_observer.rs:75-120 | over any answers and chunking, the reported usage is the first one in the event sequence of all bytes, once |
| `StreamObserver.UsageReadExactly` | crates/vaultplane-core/src/stream_observer.rs:111-124 | exactly the payloads whose `usage` object has both counts as unsigned integers report usage, with the counts modulo 2^32 |
| `Pipeline.PullEmitted` | crates/vaultplane-core/src/provider/anthropic.rs:318-350 | every emitted chunk is exactly one event for a reader of the stream |
| `Pipeline.UsageRoundTrip` | crates/vaultplane-core/src/stream_observer.rs:111-124 | parsing a usage chunk gives back its token counts and no other chunk is taken for usage |
| `Pipeline.TransformReportsHeldUsage` | crates/vaultplane-core/src/provider/anthropic.rs:253-350 | the first usage chunk carries the last announced input count and the output count of the first well-formed `message_delta` |
| `Pipeline.StreamingAccounting` | crates/vaultplane-core/src/stream_observer.rs:75-120 | adapter piped into observer: same answers, at most one report, made as soon as the delivered bytes contain it, and at the end exactly the usage held at the first well-formed `message_delta` |
| `Pipeline.ChargedOnce` | crates/vaultplane-core/src/stream_observer.rs:75-108 | read to the end, the stream leaves the tracker as one record of the cost of those counts, at the time of the one poll that reported them, or untouched when unpriced, unlimited or without a delta |
| `Pipeline.ClientHearsModel` | crates/vaultplane-core/src/provider/anthropic.rs:253-409 | the conversion preserves meaning: a client of the delivered bytes hears, in order, exactly the turn starts, text and finish reasons of the upstream events, however chunked |
| `ChunkStamps.ChunksCarryStamps` | crates/vaultplane-core/src/provider/anthropic.rs:253-350 | every delivered event reads back with the chat id, the object name, the creation time and the model announced last by the events so far; every usage has the counts held by then and their sum modulo 2^32; then one `[DONE]` |
| `Pricing.CostIsLinear` | crates/vaultplane-core/src/cost.rs:17-22 | a pair has a cost iff the table lists it; cost is additive in the token counts and a thousand tokens of a kind cost the rate listed for that kind |
| `Pricing.OverlaidWith` | crates/vaultplane-core/src/config.rs:338-347 | nested insertion in arbitrary map order equals the right-biased pointwise merge |
| `Pricing.OverlayLookup` | crates/vaultplane-core/src/config.rs:336-347 | a pair is priced iff either table lists it, by the override where that lists it and else by the base |
| `Pricing.OverlayAssociative` | crates/vaultplane-core/src/config.rs:338-347 | overlays compose associatively |
| `Pricing.OverlayIdempotent` | crates/vaultplane-core/src/config.rs:338-347 | overlaying the same overrides again changes nothing |
| `Pricing.Metrics.RecordCompletion` | crates/vaultplane/src/proxy.rs:81-121 | a completion counts once under its provider, model and status and adds its rounded, saturated cents to the wrapping counter of its provider and model |
| `Pricing.CountersAreByLabel` | crates/vaultplane/src/proxy.rs:81-121 | after any completions each labelled counter is what that label's completions alone would make it |
| `Pricing.CounterIsSum` | crates/vaultplane/src/proxy.rs:106-119 | whatever the costs, the counter is the sum of the rounded cents modulo 2^64, and that sum is within n/2 of the exact total unless a single cost saturates |
| `Pricing.CentsSaturate` | crates/vaultplane/src/proxy.rs:110 | a single cost too large for 64 bits counts as the largest number of cents |
| `Pricing.CentsDrift` | crates/vaultplane/src/proxy.rs:106-119 | after n completions the cents counter is within n/2 of the exact total, while that fits 64 bits |
| `Pricing.ModelCentsDrift` | crates/vaultplane/src/proxy.rs:106-119 | so each model's cents counter is within half a cent per completion of that model's true total, while that fits 64 bits |
| `RateLimit.TokenBucket.TryConsume` | crates/vaultplane-core/src/auth.rs:288-299 | refill capped at capacity, then one token if a whole one is there |
| `RateLimit.RateLimiter.Check` | crates/vaultplane-core/src/auth.rs:305-314 | only the key's own bucket changes; a new bucket keeps the rate it was created with |
| `RateLimit.RateLimiter.Forget` | crates/vaultplane-core/src/auth.rs:317-322 | drops exactly the key's bucket |
| `RateLimit.BucketExactness` | crates/vaultplane-core/src/auth.rs:270-300 | a request is admitted iff from every earlier request on it still fits a full bucket plus the refill since |
| `RateLimit.WindowBound` | crates/vaultplane-core/src/auth.rs:270-300 | no window of length T has more than rps + rps * T admissions |
| `RateLimit.PacedRequestsPass` | crates/vaultplane-core/src/auth.rs:270-300 | requests at least 1/rps apart are never rejected |
| `RateLimit.StalledClock` | crates/vaultplane-core/src/auth.rs:288-299 | a clock that has not advanced refills nothing, and the bucket keeps its rate |
| `RateLimit.GreedyIsOptimal` | crates/vaultplane-core/src/auth.rs:288-299 | on every prefix no policy that never overdraws the same bucket admits more |
| `RateLimit.LimiterRefinesLoneBucket` | crates/vaultplane-core/src/auth.rs:302-323 | under any interleaving a key's bucket is that of a lone bucket fed its checks since its last forget |
| `RateLimit.LimiterDecision` | crates/vaultplane-core/src/auth.rs:302-323 | so each decision is the lone bucket's |
| `Periods.DayMonthTokens` | crates/vaultplane-core/src/auth.rs:337-344 | Day and Month tokens never decrease and are equal exactly within one calendar period |
| `Periods.TokensSpell` | crates/vaultplane-core/src/auth.rs:337-344 | what each token spells, and which tokens of different periods can be equal |
| `Periods.WeekTokenIsIso` | crates/vaultplane-core/src/auth.rs:341 | the Week token is the ISO year-week, and the calendar year the ISO year, iff the day is not in January with week 52 or more nor in December with week 1 |
| `Periods.RegularWeekTokens` | crates/vaultplane-core/src/auth.rs:341 | exactly when two Week tokens tell the ISO week correctly; they do whenever both days are equally far from their ISO year |
| `Periods.WeekTokensReturnLate` | crates/vaultplane-core/src/auth.rs:341 | a Week token shared by two different weeks lies at least 358 days apart |
| `Periods.IrregularMisleads` | crates/vaultplane-core/src/auth.rs:341 | every irregular moment has an earlier regular one that its token relates to wrongly |
| `Periods.WeekTokenAtYearEnd` | crates/vaultplane-core/src/auth.rs:341 | concrete dates where the Week token splits a week, rejoins another and goes backwards |
| `Spend.SpendTracker.Check` | crates/vaultplane-core/src/auth.rs:348-358 | rejects exactly a current entry at or over the limit; absent and stale entries pass |
| `Spend.SpendTracker.Record` | crates/vaultplane-core/src/auth.rs:362-377 | adds to the current period's total, restarting it when the token changed |
| `Spend.SpendTracker.Forget` | crates/vaultplane-core/src/auth.rs:380-385 | drops exactly the key's entry |
| `Spend.TrackerIsLedger` | crates/vaultplane-core/src/auth.rs:346-401 | in every history an entry is the sum of the key's latest unbroken run of charges with one token since its last forget |
| `Spend.CurrentUsdIsPeriodSpend` | crates/vaultplane-core/src/auth.rs:390-400 | with a monotone clock the reported spend is everything charged in the current calendar period since the last forget, as long as the charges' tokens tell that period |
| `Spend.PeriodSpendExactly` | crates/vaultplane-core/src/auth.rs:337-401 | for any set of moments: the reported spend is right about every history charged at them iff their tokens tell the current period from others |
| `Spend.DayMonthSpend` | crates/vaultplane-core/src/auth.rs:337-401 | for Day and Month limits it is right about every history |
| `Spend.WeekSpendExactly` | crates/vaultplane-core/src/auth.rs:341 | for Week limits it is right about every history charged on regular days iff the present day is regular |
| `Spend.WeekSpendReturns` | crates/vaultplane-core/src/auth.rs:348-358 | with a Week limit, January's spend blocks the key again at the end of December |
| `Overspend.BoundedOverspend` | crates/vaultplane/src/proxy.rs:362-373 | in every interleaving the period total stays below limit + K * C unless a token of the key's own steps has come back after being left |
| `Overspend.OverspendExactly` | crates/vaultplane/src/proxy.rs:362-373 | for any set of moments: every run that uses the key at them obeys the bound iff no token comes back among them, or nothing can be spent |
| `Overspend.ProxyIsLedger` | crates/vaultplane/src/proxy.rs:362-451 | over every run the entries are those of a tracker that got exactly the run's charges and forgets, and a request is pending from its passed check to its end |
| `Overspend.WeekUnreturning` | crates/vaultplane-core/src/auth.rs:341 | Week tokens do not come back on regular days, nor within 358 days |
| `Overspend.BoundedDayMonthOverspend` | crates/vaultplane/src/proxy.rs:442-451 | for Day and Month limits that is every run |
| `Overspend.OverspendIsAttained` | crates/vaultplane-core/src/auth.rs:348-377 | the bound is tight: from any total below the limit, K checks and K maximal charges add all of K * C |
| `Overspend.WeekOverspend` | crates/vaultplane-core/src/auth.rs:341 | for every Week limit and cost, a run around 30 December 2024 that reaches the forbidden total |
| `Status.StatusHandle.Record` | crates/vaultplane/src/control_plane/status.rs:211-264 | one tick's new link state, versions, counters and audit transition |
| `Status.StatusHandle.ReportNotStarted` | crates/vaultplane/src/control_plane/status.rs:193-200 | degraded with reason not_started, nothing else changed |
| `Status.AuditRefinesHealth` | crates/vaultplane/src/control_plane/status.rs:211-264 | audit events are exactly the changes of the abstract link; state and failure counter follow from the failing suffix |
| `Status.IdentityIsIndependent` | crates/vaultplane/src/control_plane/status.rs:202-264 | setting the identity never influences the link or its audit events, and no tick changes it |
| `ConfigMap.ApplyConfig` | crates/vaultplane/src/control_plane/map.rs:37-51 | assignments to the clone yield the field-wise overlay |
| `ConfigMap.AppliedIsIdempotent` | crates/vaultplane/src/control_plane/map.rs:37-147 | applying a bundle twice is applying it once and local settings are never touched |
| `Runtime.BuildRuntime` | crates/vaultplane/src/runtime.rs:117-248 | builds iff clients can be made, every provider is known and every plugin binds a supported hook and loads; then the runtime is the config's, with the credentials read from the environment |
| `KeyStore.KeyStore.ReplaceAll` | crates/vaultplane-core/src/auth.rs:208-212 | one write installs the new set by hash |
| `KeyStore.KeyStore.RemoveById` | crates/vaultplane-core/src/auth.rs:216-228 | removes one record with the id iff there is one, and reports it |
| `KeyStore.ByHashIsLast` | crates/vaultplane-core/src/auth.rs:170-176 | a replaced store holds exactly the last listed key of each hash, so omitted keys are revoked |
| `KeyStore.RemovalRevokes` | crates/vaultplane-core/src/auth.rs:214-228 | after any outcome of a removal, no token authenticates as the id iff at most one stored record had it |
| `KeyStore.SharedIdSurvivesRemoval` | crates/vaultplane-core/src/auth.rs:208-228 | a witness: of two installed keys with one id and two hashes, one still authenticates after the removal |
| `KeyStore.IssueThenRemove` | crates/vaultplane-core/src/auth.rs:191-228 | a key issued under a new id and hash authenticates, and removing its id restores the store |
| `ControlNode.ControlNodeClient.DoPollConfig` | crates/vaultplane/src/control_plane/client.rs:140-186 | the ETag is committed only together with a runtime that built |
| `ControlNode.ControlNodeClient.DoPollKeys` | crates/vaultplane/src/control_plane/client.rs:190-211 | a parsed key set replaces the store and commits its ETag; any failure keeps both |
| `ControlNode.ControlNodeClient.DoTick` | crates/vaultplane/src/control_plane/client.rs:117-135 | config first, then keys, then status and audit |
| `SyncRuns.ConfigAgreement` | crates/vaultplane/src/control_plane/client.rs:140-186 | over any run against any server, runtime, ETag and version come from the last bundle that built, or are all initial |
| `SyncRuns.KeysAgreement` | crates/vaultplane/src/control_plane/client.rs:190-211 | the same for key set, ETag and version |
| `SyncRuns.NotModifiedMeansFollowing` | crates/vaultplane/src/control_plane/client.rs:260-306 | an honest 304 means the gateway already runs what the server holds, so no broken version is masked |
| `SyncRuns.Convergence` | crates/vaultplane/src/control_plane/client.rs:117-186 | after any history one tick within the contract with a buildable bundle leaves runtime, keys and versions equal to the server's and the link synced |
| `SyncRuns.AnswersDecideLink` | crates/vaultplane/src/control_plane/client.rs:117-135 | after any run the last tick's answers alone decide the link: synced iff both delivered or unchanged and a delivered bundle builds; otherwise degraded with the resource, config first, and the reason; the counter is the number of ticks since the last delivery, saturating |
| `SyncRuns.AuditLogIsChanges` | crates/vaultplane/src/control_plane/client.rs:117-135 | over a whole run the link audit log, read as recoveries and failures with resource and reason, is exactly the changes of whom the answers blame |
| `SyncRuns.ReloadLog` | crates/vaultplane/src/control_plane/client.rs:140-186 | every delivered bundle is audited once, in order, with its version and whether it builds |
| `SyncContents.BuildsExactly` | crates/vaultplane/src/runtime.rs:117-222 | a bundle builds iff clients can be made, every route names one of the four providers and every WebAssembly plugin binds the supported hook and loads |
| `SyncContents.RuntimeReflectsBundle` | crates/vaultplane/src/control_plane/map.rs:37-176 | over any run the live runtime takes, field by field, its models, plugins, provider settings, credentials, prices and cache settings from the last bundle that built, or from the gateway's own config and process where that has none |
| `SyncContents.KeysReflectSet` | crates/vaultplane/src/control_plane/map.rs:173-208 | over any run a token authenticates iff the last parsed key set lists its hash, and then with the id, scope, limits and expiry of the last such entry |
| `Registry.NewRegistry` | crates/vaultplane-core/src/provider/registry.rs:47-79 | builds iff every provider is known, or reports the first unknown provider of the first model that has one, the primary's first |
| `Registry.ResolveAllByLast` | crates/vaultplane-core/src/provider/registry.rs:52-73 | a name is served iff configured, and as its last configuration says: the primary, then the fallbacks in order, on the listed statuses and within the timeout |
| `Registry.Dispatch` | crates/vaultplane-core/src/provider/registry.rs:94-169 | calls a prefix of the routes once each in order with each route's model; result, attempts and audit chain are those of the prefix |
| `Registry.DispatchEmbeddings` | crates/vaultplane-core/src/provider/registry.rs:182-257 | meets the same specification |
| `Registry.PrimaryIsCalledFirst` | crates/vaultplane-core/src/provider/registry.rs:52-108 | whatever the outcomes, a chat request for a served name goes first to the primary of its last configuration and then to the fallbacks as listed, each with its own model name |
| `Registry.PrimaryIsEmbeddedFirst` | crates/vaultplane-core/src/provider/registry.rs:52-196 | the same for embeddings requests |
| `Registry.FailoverIsDetermined` | crates/vaultplane-core/src/provider/registry.rs:94-257 | that specification leaves no freedom |
| `Registry.BuiltModelsAreAttempted` | crates/vaultplane-core/src/provider/registry.rs:99-168 | for a built model something is always attempted, and it succeeds iff some response stands or the last route responds |
| `Calendar.CivilFromDaysIsCivil` | crates/vaultplane-core/src/provider/sigv4.rs:73-84 | for every integer the result is a valid date with exactly that day count |
| `Calendar.CivilFromDaysInverts` | crates/vaultplane-core/src/provider/sigv4.rs:73-84 | every valid date is reached from its own count |
| `Calendar.CivilFromDaysSuccessor` | crates/vaultplane-core/src/provider/sigv4.rs:73-84 | the next count is the next calendar day across months, leap days and eras |
| `Calendar.CivilFromDaysIsUnique` | crates/vaultplane-core/src/provider/sigv4.rs:73-84 | any calendar that starts at the epoch and goes from day to day, both ways, is this function |
| `Calendar.CivilFromDaysOrder` | crates/vaultplane-core/src/provider/sigv4.rs:73-84 | later counts are later dates, so the map is injective |
| `SigV4.AmzDateWidth` | crates/vaultplane-core/src/provider/sigv4.rs:61-71 | the stamp is a prefix of the timestamp, and widths are fixed exactly through 9999 |
| `SigV4.AmzDateRoundTrip` | crates/vaultplane-core/src/provider/sigv4.rs:61-84 | through 9999 the timestamp reads back as its second |
| `SigV4.AmzDateOrder` | crates/vaultplane-core/src/provider/sigv4.rs:61-84 | through 9999 string order is chronological order |
| `SigV4.UriEncodeSegment` | crates/vaultplane-core/src/provider/sigv4.rs:38-49 | the loop percent-encodes the UTF-8 bytes one by one |
| `SigV4.PercentRoundTrip` | crates/vaultplane-core/src/provider/sigv4.rs:38-49 | decoding, which accepts only unreserved characters and upper-case triplets, returns every byte string |
| `SigV4.EncodedAlphabet` | crates/vaultplane-core/src/provider/sigv4.rs:38-49 | the output has only unreserved characters and `%`, and a string is left as it is iff all of it is unreserved |
| `CanonicalRequest.BuildCanonicalRequest` | crates/vaultplane-core/src/provider/sigv4.rs:107-117 | appending to the header strings yields the line-by-line canonical request and its header list |
| `CanonicalRequest.HeaderNamesSorted` | crates/vaultplane-core/src/provider/sigv4.rs:107-113 | the signed header list names exactly the header lines written, one by one, in strictly increasing order |
| `CanonicalRequest.CanonicalIsInjective` | crates/vaultplane-core/src/provider/sigv4.rs:107-117 | fields free of line breaks are all bound: different requests are canonicalised apart |
| `ResponseCache.PreimageSeparatesScopes` | crates/vaultplane-core/src/cache.rs:54-62 | with NUL-free scopes, preimages agree iff scopes do and model, NUL, body do together |
| `ResponseCache.KeysSeparateVirtualKeys` | crates/vaultplane/src/proxy.rs:59-64 | with a collision-free hash different virtual keys never share a cache key |
| `ResponseCache.CacheKeysExactly` | crates/vaultplane/src/proxy.rs:59-64 | exactly the streaming requests have no key; two others share one iff they are of one virtual key and model and agree on the idempotency key or else the body |
| `ResponseCache.HitsAreEarlierMisses` | crates/vaultplane/src/proxy.rs:410-490 | under eviction and hot swaps, every hit is an earlier 200 answer of the same runtime generation to a request of the same virtual key and model that asked the same |
| `ResponseCache.StoredPersists` | crates/vaultplane-core/src/cache.rs:54-75 | a stored answer stays through every step, swaps included, but its eviction or another answer under its key |
| `ResponseCache.SecondRequestHits` | crates/vaultplane/src/proxy.rs:410-490 | right after a drained 200 answer, a request with the same key that loads the same runtime is served from the cache |

## Left out

- HTTP clients and servers, TLS, signals, telemetry, the admin API, the command-line tool and the charts: I/O without an algorithm of their own.
- The OpenAI, Azure and Bedrock connectors and the non-streaming Anthropic response: thin translations. A connector is assumed to report no usage of its own for a streamed request.
- Plugins: the PII patterns and WebAssembly components live in engines that are not part of this model; `run_plugins` is a fold over them, and only whether a component loads matters to building a runtime.
- The proxy handlers as a whole: the order of their admission checks is not modelled, only the spend check, the charge and the cache steps and how they interleave. Embeddings requests use the cache like chat requests; that the key omits the endpoint is not claimed to be harmless.
- SHA-256, HMAC and the eviction policy of the cache library: the hash is a parameter, entries may vanish at any time.
- Full JSON and config syntax and RFC 3339 expiry: `serde` results are datatypes.
- Floating-point rounding, infinities and NaN: amounts, rates and times are reals.
- `Anthropic.AnthropicTransform.ProcessEvent`: the sum of the two token counts wraps at 2^32, as in release builds; a debug build panics there instead. The random id and creation time are inputs.
- `Registry.Dispatch`: the connector's answer and the timeout are given as outcomes, one per route; the latency of a call is not modelled. `attempts` is the prefix length modulo 2^32.
- `ControlNode.ControlNodeClient.DoPollConfig`: error texts are reduced to the reason and the version; the retry interval and the one-shot identity request are not modelled.
- `Pricing.Metrics.RecordCompletion`: the duration histogram is not modelled.
- `Pricing.CentsDrift`: requires the true total to fit the counter; `Pricing.CounterIsSum` says what it holds when it wraps.
- `Calendar.CivilFromDaysIsCivil`: integers are unbounded, so the 64-bit overflow near the ends of `i64` is not modelled.
- The fallback connector chosen by model-name prefix, connector reachability, constant-time comparison and key generation: they would only add easy members.
- Operator file reloads during api mode also write the runtime; runs of client ticks exclude them.
