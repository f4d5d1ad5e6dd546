/** Normalising an OpenAI chat request for the Anthropic schema: system messages are hoisted. */
module Messages {
  import opened Wrappers
  import opened Utf8
  import Sse

  datatype Message = Message(role: string, content: string)
  datatype ChatRequest = ChatRequest(messages: seq<Message>, maxTokens: Option<nat>, temperature: Option<real>)
  datatype ChatMessages = ChatMessages(
    system: Option<string>, messages: seq<Message>, maxTokens: nat, temperature: Option<real>)

  const DEFAULT_MAX_TOKENS: nat := 4096

  function SystemContents(ms: seq<Message>): seq<string> {
    if ms == [] then []
    else SystemContents(ms[..|ms| - 1]) + if ms[|ms| - 1].role == "system" then [ms[|ms| - 1].content] else []
  }

  function Others(ms: seq<Message>): seq<Message> {
    if ms == [] then []
    else Others(ms[..|ms| - 1]) + if ms[|ms| - 1].role == "system" then [] else [ms[|ms| - 1]]
  }

  /** A body that does not parse is refused. Otherwise the system prompt is the system contents
      joined by newlines, without leading empty ones, and absent when nothing is left; every other
      message is kept, in order. */
  method Normalise(parse: seq<byte> -> Result<ChatRequest, string>, body: seq<byte>)
    returns (r: Result<ChatMessages, string>)
    ensures r.Err? <==> parse(body).Err?
    ensures r.Err? ==> r.error == "invalid chat request: " + parse(body).error
    ensures r.Ok? ==>
              var request := parse(body).value;
              var prompt := Sse.Join(Sse.DropLeadingEmpty(SystemContents(request.messages)));
              && r.value.system == (if prompt == "" then None else Some(prompt))
              && r.value.messages == Others(request.messages)
              && r.value.maxTokens == (if request.maxTokens.Some? then request.maxTokens.value else 4096)
              && r.value.temperature == request.temperature
  {
    var parsed := parse(body);
    if parsed.Err? {
      return Err("invalid chat request: " + parsed.error);
    }
    var request := parsed.value;
    var ms := request.messages;
    var system := "";
    var messages := [];
    for i := 0 to |ms|
      invariant system == Sse.Join(Sse.DropLeadingEmpty(SystemContents(ms[..i])))
      invariant messages == Others(ms[..i])
    {
      assert ms[..i + 1][..i] == ms[..i];
      assert SystemContents(ms[..i]) + [] == SystemContents(ms[..i]) && Others(ms[..i]) + [] == Others(ms[..i]);
      if ms[i].role == "system" {
        Sse.JoinSnoc(SystemContents(ms[..i]), ms[i].content);
        if system != "" {
          system := system + "\n";
        }
        system := system + ms[i].content;
      } else {
        messages := messages + [ms[i]];
      }
    }
    assert ms[..|ms|] == ms;
    var maxTokens := if request.maxTokens.Some? then request.maxTokens.value else DEFAULT_MAX_TOKENS;
    r := Ok(ChatMessages(if system == "" then None else Some(system), messages, maxTokens, request.temperature));
  }

  /** The positions of the system messages, or of all others, in the conversation. */
  function Positions(ms: seq<Message>, system: bool): seq<nat> {
    if ms == [] then []
    else
      Positions(ms[..|ms| - 1], system) + if (ms[|ms| - 1].role == "system") == system then [|ms| - 1] else []
  }

  lemma {:induction false} PositionsAreThose(ms: seq<Message>, system: bool)
    ensures var ps := Positions(ms, system);
            && (forall i, j | 0 <= i < j < |ps| :: ps[i] < ps[j])
            && (forall p: nat :: p in ps <==> p < |ms| && ((ms[p].role == "system") == system))
  {
    if ms != [] {
      PositionsAreThose(ms[..|ms| - 1], system);
      var ps := Positions(ms[..|ms| - 1], system);
      forall i | 0 <= i < |ps|
        ensures ps[i] < |ms| - 1
      {
        assert ps[i] in ps;
      }
    }
  }

  /** `xs` is what `read` makes of the messages at these positions. */
  predicate At<T(==)>(ms: seq<Message>, ps: seq<nat>, xs: seq<T>, read: Message -> T) {
    |xs| == |ps| && forall i | 0 <= i < |ps| :: ps[i] < |ms| && xs[i] == read(ms[ps[i]])
  }

  lemma AtStays<T>(ms: seq<Message>, m: Message, ps: seq<nat>, xs: seq<T>, read: Message -> T)
    requires At(ms, ps, xs, read)
    ensures At(ms + [m], ps, xs, read)
    ensures At(ms + [m], ps + [|ms|], xs + [read(m)], read)
  {
    assert (ms + [m])[|ms|] == m;
  }

  lemma {:induction false} KeptAtPositions(ms: seq<Message>)
    ensures At(ms, Positions(ms, false), Others(ms), m => m)
  {
    if ms != [] {
      var before, last := ms[..|ms| - 1], ms[|ms| - 1];
      KeptAtPositions(before);
      hide Positions, Others, At;
      assert ms == before + [last];
      AtStays(before, last, Positions(before, false), Others(before), m => m);
      PositionsSnoc(ms, false);
      OthersSnoc(ms);
    }
  }

  lemma {:induction false} HoistedAtPositions(ms: seq<Message>)
    ensures At(ms, Positions(ms, true), SystemContents(ms), (m: Message) => m.content)
  {
    if ms != [] {
      var before, last := ms[..|ms| - 1], ms[|ms| - 1];
      HoistedAtPositions(before);
      hide Positions, SystemContents, At;
      assert ms == before + [last];
      AtStays(before, last, Positions(before, true), SystemContents(before), (m: Message) => m.content);
      PositionsSnoc(ms, true);
      ContentsSnoc(ms);
    }
  }

  lemma PositionsSnoc(ms: seq<Message>, system: bool)
    requires ms != []
    ensures Positions(ms, system) == if (ms[|ms| - 1].role == "system") == system
              then Positions(ms[..|ms| - 1], system) + [|ms| - 1] else Positions(ms[..|ms| - 1], system)
  {
    assert Positions(ms[..|ms| - 1], system) + [] == Positions(ms[..|ms| - 1], system);
  }

  lemma OthersSnoc(ms: seq<Message>)
    requires ms != []
    ensures Others(ms) == if ms[|ms| - 1].role == "system" then Others(ms[..|ms| - 1])
                          else Others(ms[..|ms| - 1]) + [ms[|ms| - 1]]
  {
    assert Others(ms[..|ms| - 1]) + [] == Others(ms[..|ms| - 1]);
  }

  lemma ContentsSnoc(ms: seq<Message>)
    requires ms != []
    ensures SystemContents(ms) == if ms[|ms| - 1].role == "system" then
                                    SystemContents(ms[..|ms| - 1]) + [ms[|ms| - 1].content]
                                  else SystemContents(ms[..|ms| - 1])
  {
    assert SystemContents(ms[..|ms| - 1]) + [] == SystemContents(ms[..|ms| - 1]);
  }

  /** Order is kept: the messages sent on are those at the increasing positions of the messages
      that are not system ones, and the system contents those at the positions of the others. */
  lemma HoistingKeepsOrder(ms: seq<Message>)
    ensures var kept, hoisted := Positions(ms, false), Positions(ms, true);
            && |Others(ms)| == |kept| && |SystemContents(ms)| == |hoisted|
            && (forall i, j | 0 <= i < j < |kept| :: kept[i] < kept[j])
            && (forall i, j | 0 <= i < j < |hoisted| :: hoisted[i] < hoisted[j])
            && (forall p: nat :: p in kept <==> p < |ms| && ms[p].role != "system")
            && (forall p: nat :: p in hoisted <==> p < |ms| && ms[p].role == "system")
            && (forall i | 0 <= i < |kept| :: kept[i] < |ms| && Others(ms)[i] == ms[kept[i]])
            && (forall i | 0 <= i < |hoisted| :: hoisted[i] < |ms| && SystemContents(ms)[i] == ms[hoisted[i]].content)
  {
    hide Positions, Others, SystemContents;
    KeptAtPositions(ms);
    HoistedAtPositions(ms);
    PositionsAreThose(ms, false);
    PositionsAreThose(ms, true);
  }

  /** No message is lost or duplicated: hoisting is a partition of the conversation. */
  lemma {:induction false} HoistingPartitions(ms: seq<Message>)
    ensures |SystemContents(ms)| + |Others(ms)| == |ms|
    ensures multiset(ms) == multiset(Others(ms)) + multiset(AsSystem(SystemContents(ms)))
  {
    if ms != [] {
      var before, last := ms[..|ms| - 1], ms[|ms| - 1];
      HoistingPartitions(before);
      assert ms == before + [last];
      if last.role == "system" {
        AsSystemSnoc(SystemContents(before), last.content);
        assert Others(before) + [] == Others(before);
      } else {
        assert SystemContents(before) + [] == SystemContents(before);
      }
    }
  }

  function AsSystem(contents: seq<string>): seq<Message> {
    seq(|contents|, i requires 0 <= i < |contents| => Message("system", contents[i]))
  }

  lemma AsSystemSnoc(contents: seq<string>, c: string)
    ensures AsSystem(contents + [c]) == AsSystem(contents) + [Message("system", c)]
  {
  }
}
