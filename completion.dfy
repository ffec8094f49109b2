/**
 * The two retry loops around the chat-completion provider.
 *
 * api/index.py asks for one non-streamed completion: at most 2 attempts, 2 s apart.
 * script.py streams the completion: at most 3 attempts with a 2**attempt s back-off,
 * and every chunk received is appended to one accumulator that is never reset, so the
 * text streamed by a failed attempt stays in front of the final reply.
 *
 * The provider is an oracle: `attempt(k)` is what the k-th call (from 0) does. Both
 * functions build the Groq client before their retry loop and outside its `try`, so a
 * constructor that raises makes the whole call raise; `client` is what the constructor
 * does. Sleeps are not taken; the methods report the delays, in seconds, that the source
 * sleeps and the number of calls made.
 */
module Completion {
  import opened Wrappers

  /** The outcome of one non-streamed call: it returned a message whose content may be null, or it raised. */
  datatype Reply = Returned(content: Option<string>) | Raised

  /** One streamed call: the chunks received (a chunk may carry no content), and whether
      the stream ran to its end (`false`: it raised after those chunks). */
  datatype Stream = Stream(chunks: seq<Option<string>>, completes: bool)

  /** How `get_llama_response` ends: it returned a reply (`None` when every call raised), or
      it raised because the client could not be built. */
  datatype LlmResult = Answered(reply: Option<string>) | ClientRaised

  // ---------------------------------------------------------------------------
  // api/index.py: two attempts, a 2-second pause between them

  /** The number of calls: a second one only when the first raised. */
  function ApiCalls(attempt: nat -> Reply): nat {
    if attempt(0).Raised? then 2 else 1
  }

  /** The content of the first call that did not raise; `None` when both raised. */
  function ApiReply(attempt: nat -> Reply): Option<string> {
    if attempt(0).Returned? then attempt(0).content
    else if attempt(1).Returned? then attempt(1).content
    else None
  }

  /** `get_llama_response` of the serverless API. Returns how it ended, the number of
      completion calls made and the pauses taken, in order. */
  method GetLlamaResponse(client: Outcome, attempt: nat -> Reply) returns (result: LlmResult, calls: nat, sleeps: seq<nat>)
    ensures client.Raises? ==> result == ClientRaised && calls == 0 && sleeps == []
    ensures client.Succeeds? ==> result == Answered(ApiReply(attempt)) && calls == ApiCalls(attempt)
                                 && |sleeps| == calls - 1
    ensures forall i :: 0 <= i < |sleeps| ==> sleeps[i] == 2
    // At most two calls, the second only after the first raised.
    ensures client.Succeeds? ==> 1 <= calls <= 2 && (calls == 2 <==> attempt(0).Raised?)
    // The first call that returned gives the reply; when both raised it is None.
    ensures client.Succeeds? && attempt(0).Returned? ==> result == Answered(attempt(0).content)
    ensures client.Succeeds? && attempt(0).Raised? && attempt(1).Returned? ==> result == Answered(attempt(1).content)
    ensures client.Succeeds? && attempt(0).Raised? && attempt(1).Raised? ==> result == Answered(None)
  {
    if client.Raises? {
      return ClientRaised, 0, [];
    }
    calls, sleeps := 0, [];
    for k := 0 to 2
      invariant calls == k && sleeps == if k == 0 then [] else [2]
      invariant forall j :: 0 <= j < k ==> attempt(j).Raised?
    {
      calls := calls + 1;
      var r := attempt(k);
      if r.Returned? {
        return Answered(r.content), calls, sleeps;
      }
      if k < 1 {
        sleeps := sleeps + [2];
      }
    }
    result := Answered(None);
  }

  // ---------------------------------------------------------------------------
  // script.py: three streamed attempts, pauses of 2**attempt seconds

  const StreamRetries: nat := 3

  function Pow2(n: nat): nat {
    if n == 0 then 1 else 2 * Pow2(n - 1)
  }

  /** The pauses after failed calls 0, 1, ..., n - 1: 1, 2, 4, ... seconds. */
  function Backoff(n: nat): (d: seq<nat>)
    ensures |d| == n && forall i :: 0 <= i < n ==> d[i] == Pow2(i)
  {
    if n == 0 then [] else Backoff(n - 1) + [Pow2(n - 1)]
  }

  /** The text of a run of chunks; a chunk without content adds "". */
  function Streamed(chunks: seq<Option<string>>): string {
    if chunks == [] then "" else Streamed(chunks[..|chunks| - 1]) + chunks[|chunks| - 1].GetOr("")
  }

  /** Everything calls 0 .. k - 1 streamed, in order. */
  function Accumulated(attempt: nat -> Stream, k: nat): string {
    if k == 0 then "" else Accumulated(attempt, k - 1) + Streamed(attempt(k - 1).chunks)
  }

  /** The first call from `k` on, below 3, whose stream completes; 3 when there is none. */
  function FirstCompleted(attempt: nat -> Stream, k: nat): (j: nat)
    requires k <= StreamRetries
    ensures k <= j <= StreamRetries
    ensures j < StreamRetries ==> attempt(j).completes
    ensures forall i :: k <= i < j ==> !attempt(i).completes
    decreases StreamRetries - k
  {
    if k == StreamRetries || attempt(k).completes then k else FirstCompleted(attempt, k + 1)
  }

  /** The reply: everything streamed up to and including the first completed call, or
      `None` when all three raised. */
  function StreamReply(attempt: nat -> Stream): Option<string> {
    var j := FirstCompleted(attempt, 0);
    if j < StreamRetries then Some(Accumulated(attempt, j + 1)) else None
  }

  function StreamCalls(attempt: nat -> Stream): nat {
    var j := FirstCompleted(attempt, 0);
    if j < StreamRetries then j + 1 else StreamRetries
  }

  /** The inner loop over a stream: every chunk's content, or "", is appended to `all`. */
  method AppendChunks(all: string, chunks: seq<Option<string>>) returns (r: string)
    ensures r == all + Streamed(chunks)
  {
    r := all;
    for c := 0 to |chunks|
      invariant r == all + Streamed(chunks[..c])
    {
      assert chunks[..c + 1][..c] == chunks[..c];
      r := r + chunks[c].GetOr("");
    }
    assert chunks[..|chunks|] == chunks;
  }

  /** `get_llama_response` of the video service, with the accumulator `all_responses`. */
  method GetStreamedResponse(client: Outcome, attempt: nat -> Stream) returns (result: LlmResult, calls: nat, sleeps: seq<nat>)
    ensures client.Raises? ==> result == ClientRaised && calls == 0 && sleeps == []
    ensures client.Succeeds? ==> result == Answered(StreamReply(attempt)) && calls == StreamCalls(attempt)
                                 && sleeps == Backoff(calls - 1)
  {
    if client.Raises? {
      return ClientRaised, 0, [];
    }
    var all := "";
    calls, sleeps := 0, [];
    for k := 0 to StreamRetries
      invariant calls == k && all == Accumulated(attempt, k)
      invariant sleeps == Backoff(if k < StreamRetries then k else StreamRetries - 1)
      invariant forall j :: 0 <= j < k ==> !attempt(j).completes
    {
      calls := calls + 1;
      var s := attempt(k);
      all := AppendChunks(all, s.chunks);
      if s.completes {
        assert FirstCompleted(attempt, k) == k;
        FirstCompletedFrom(attempt, k);
        return Answered(Some(all)), calls, sleeps;
      }
      if k < StreamRetries - 1 {
        sleeps := sleeps + [Pow2(k)];
      }
    }
    FirstCompletedFrom(attempt, StreamRetries);
    result := Answered(None);
  }

  /** When calls 0 .. k - 1 all raised, the search from 0 ends where the search from `k` does. */
  lemma {:induction false} FirstCompletedFrom(attempt: nat -> Stream, k: nat)
    requires k <= StreamRetries
    requires forall j :: 0 <= j < k ==> !attempt(j).completes
    ensures FirstCompleted(attempt, 0) == FirstCompleted(attempt, k)
    decreases k
  {
    if k > 0 {
      FirstCompletedSkip(attempt, k - 1);
      FirstCompletedFrom(attempt, k - 1);
    }
  }

  lemma FirstCompletedSkip(attempt: nat -> Stream, k: nat)
    requires k < StreamRetries && !attempt(k).completes
    ensures FirstCompleted(attempt, k) == FirstCompleted(attempt, k + 1)
  {
  }

  /** At most three calls; the pauses are 1 s and then 2 s, and none follows the last call. */
  lemma StreamRetryBounds(attempt: nat -> Stream)
    ensures 1 <= StreamCalls(attempt) <= StreamRetries
    ensures Backoff(StreamCalls(attempt) - 1) == [1, 2][..StreamCalls(attempt) - 1]
  {
    assert Backoff(2) == [1, 2];
  }

  /** `None` exactly when all three calls raised. */
  lemma StreamReplyNone(attempt: nat -> Stream)
    ensures StreamReply(attempt) == None
      <==> !attempt(0).completes && !attempt(1).completes && !attempt(2).completes
  {
  }

  /** The accumulator is never cleared: what a failed call streamed stays in front of the
      reply. Here the first call fails after some chunks and the second completes. */
  lemma FailedChunksKept(attempt: nat -> Stream)
    requires !attempt(0).completes && attempt(1).completes
    ensures StreamReply(attempt) == Some(Streamed(attempt(0).chunks) + Streamed(attempt(1).chunks))
  {
    assert FirstCompleted(attempt, 0) == 1;
    assert Accumulated(attempt, 1) == Streamed(attempt(0).chunks);
  }

  /** Whatever call completes first, the reply begins with everything every earlier call streamed. */
  lemma {:induction false} AccumulatedPrefix(attempt: nat -> Stream, i: nat, k: nat)
    requires i <= k
    ensures Accumulated(attempt, i) <= Accumulated(attempt, k)
    decreases k
  {
    if i < k {
      AccumulatedPrefix(attempt, i, k - 1);
    }
  }

  /** A chunk without content contributes nothing. */
  lemma StreamedSkipsEmpty(chunks: seq<Option<string>>)
    ensures Streamed(chunks + [None]) == Streamed(chunks)
  {
    assert (chunks + [None])[..|chunks|] == chunks;
  }
}
