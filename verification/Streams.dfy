/** Byte streams as their consumers see them: a sequence of poll answers. */
module Streams {
  import opened Wrappers
  import opened Utf8

  type IoError = string

  datatype Poll = Pending | Ready(next: Option<Result<seq<byte>, IoError>>)

  function Item(chunk: seq<byte>): Poll {
    Ready(Some(Ok(chunk)))
  }

  const END: Poll := Ready(None)

  predicate IsChunk(p: Poll) {
    p.Ready? && p.next.Some? && p.next.value.Ok?
  }

  /** The chunks a run of answers delivers. */
  function Chunks(answers: seq<Poll>): seq<seq<byte>> {
    if answers == [] then []
    else if IsChunk(answers[0]) then [answers[0].next.value.value] + Chunks(answers[1..])
    else Chunks(answers[1..])
  }

  /** The `n`-th answer of a stream that gives `answers` and has then ended. */
  function Answer(answers: seq<Poll>, n: nat): Poll {
    if n < |answers| then answers[n] else END
  }

  function Answers(answers: seq<Poll>, n: nat): seq<Poll> {
    seq(n, i requires 0 <= i < n => Answer(answers, i))
  }

  class BodyStream {
    var answers: seq<Poll>

    constructor (answers: seq<Poll>)
      ensures this.answers == answers
    {
      this.answers := answers;
    }

    method PollNext() returns (p: Poll)
      modifies this
      ensures p == Answer(old(answers), 0)
      ensures answers == if old(answers) == [] then [] else old(answers)[1..]
    {
      if answers == [] {
        p := END;
      } else {
        p := answers[0];
        answers := answers[1..];
      }
    }
  }

  lemma {:induction false} ChunksConcat(a: seq<Poll>, b: seq<Poll>)
    ensures Chunks(a + b) == Chunks(a) + Chunks(b)
  {
    if a == [] {
      assert a + b == b;
    } else {
      assert (a + b)[1..] == a[1..] + b;
      ChunksConcat(a[1..], b);
    }
  }
}
