/**
 * The two loops that wait for the transcription service.
 *
 * api/index.py (`get_transcription_result`) probes the transcript's status while less
 * than `max_wait` seconds have passed. A "completed" status returns the SRT body (or,
 * when that fetch does not answer 200, the SRT built from the word timestamps). Any
 * failure inside the loop, the provider's "error" status included, is caught: it is
 * retried 5 s later unless more than `max_wait - 30` seconds have passed, in which case
 * polling fails. Leaving the loop is a timeout.
 *
 * script.py polls the SRT endpoint until it answers 200, sleeping 10 s between polls and
 * with no time budget; a poll that raises leaves the loop through the caller's handler.
 *
 * The clock is logical: a probe reports how many seconds it took, and the pauses add 5 s.
 */
module Polling {
  import opened Wrappers
  import opened Srt

  // ---------------------------------------------------------------------------
  // api/index.py

  /** The request for the SRT rendering: it raised, or it answered with a status code and a body. */
  datatype SrtFetch = SrtRaised | SrtReply(code: int, body: string)

  /** The status request: it raised (network error, non-2xx, bad JSON, no "status" key), or it
      gave a status, the word timestamps (empty when absent) and what the SRT request did
      (used only when the status is "completed"). */
  datatype StatusReply = ProbeRaised | Status(status: string, words: seq<Word>, srt: SrtFetch)

  /** One pass through the loop body: the seconds it took and what the provider answered. */
  datatype Probe = Probe(took: nat, reply: StatusReply)

  datatype PollOutcome = Transcript(srt: string) | PollingFailed | TimedOut

  /** How the loop ended, the clock at that moment and the number of probes made. */
  datatype PollRun = PollRun(outcome: PollOutcome, elapsed: nat, probes: nat)

  /** What one probe means to the loop. */
  datatype Step = Done(srt: string) | Failed | Pending

  function Classify(r: StatusReply): Step {
    match r
    case ProbeRaised => Failed
    case Status(status, words, fetch) =>
      if status == "completed" then
        match fetch
        case SrtRaised => Failed
        case SrtReply(code, body) => Done(if code == 200 then body else SrtOf(words))
      else if status == "error" then Failed
      else Pending
  }

  /** The loop from probe `k`, with `elapsed` seconds on the clock. */
  function PollFrom(probe: nat -> Probe, maxWait: int, k: nat, elapsed: nat): PollRun
    decreases if elapsed < maxWait then maxWait - elapsed else 0
  {
    if elapsed >= maxWait then PollRun(TimedOut, elapsed, k)
    else
      var now := elapsed + probe(k).took;
      match Classify(probe(k).reply)
      case Done(srt) => PollRun(Transcript(srt), now, k + 1)
      case Failed =>
        if now > maxWait - 30 then PollRun(PollingFailed, now, k + 1)
        else PollFrom(probe, maxWait, k + 1, now + 5)
      case Pending => PollFrom(probe, maxWait, k + 1, now + 5)
  }

  /** `get_transcription_result(transcript_id, max_wait)`: `probe(k)` is the k-th pass. */
  method GetTranscriptionResult(probe: nat -> Probe, maxWait: int) returns (outcome: PollOutcome, elapsed: nat, probes: nat)
    ensures PollRun(outcome, elapsed, probes) == PollFrom(probe, maxWait, 0, 0)
  {
    elapsed, probes := 0, 0;
    while elapsed < maxWait
      invariant PollFrom(probe, maxWait, probes, elapsed) == PollFrom(probe, maxWait, 0, 0)
      decreases maxWait - elapsed
    {
      var p := probe(probes);
      probes := probes + 1;
      var now := elapsed + p.took;
      var failed := false;
      match p.reply {
        case ProbeRaised =>
          failed := true;
        case Status(status, words, fetch) =>
          if status == "completed" {
            if fetch.SrtRaised? {
              failed := true;
            } else if fetch.code == 200 {
              return Transcript(fetch.body), now, probes;
            } else {
              var srt := ConvertToSrt(words);
              return Transcript(srt), now, probes;
            }
          } else if status == "error" {
            failed := true;
          }
      }
      if failed && now > maxWait - 30 {
        return PollingFailed, now, probes;
      }
      elapsed := now + 5;
    }
    outcome := TimedOut;
  }

  /** The clock after probes 0 .. k - 1 each took their time and were followed by a 5 s pause. */
  function ClockAfter(probe: nat -> Probe, k: nat): nat {
    if k == 0 then 0 else ClockAfter(probe, k - 1) + probe(k - 1).took + 5
  }

  /** Probe `i` is passed over: still pending, or a failure early enough to retry. */
  predicate Retried(probe: nat -> Probe, maxWait: int, i: nat) {
    var step := Classify(probe(i).reply);
    step.Pending? || (step.Failed? && ClockAfter(probe, i) + probe(i).took <= maxWait - 30)
  }

  /** Probes that are passed over, inside the budget, only move the clock. */
  lemma {:induction false} RetriedPrefix(probe: nat -> Probe, maxWait: int, k: nat)
    requires ClockAfter(probe, k) < maxWait || k == 0
    requires forall i :: 0 <= i < k ==> Retried(probe, maxWait, i)
    ensures PollFrom(probe, maxWait, 0, 0) == PollFrom(probe, maxWait, k, ClockAfter(probe, k))
  {
    if k > 0 {
      assert ClockAfter(probe, k - 1) < maxWait;
      RetriedPrefix(probe, maxWait, k - 1);
      assert Retried(probe, maxWait, k - 1);
    }
  }

  /** The first probe that finds the transcript completed, inside the budget, decides the result. */
  lemma FirstCompletedWins(probe: nat -> Probe, maxWait: int, k: nat, srt: string)
    requires ClockAfter(probe, k) < maxWait
    requires forall i :: 0 <= i < k ==> Retried(probe, maxWait, i)
    requires Classify(probe(k).reply) == Done(srt)
    ensures PollFrom(probe, maxWait, 0, 0) == PollRun(Transcript(srt), ClockAfter(probe, k) + probe(k).took, k + 1)
  {
    RetriedPrefix(probe, maxWait, k);
  }

  /** When the SRT request does not answer 200, the transcript is rebuilt from the words. */
  lemma FallbackToWords(words: seq<Word>, code: int, body: string)
    requires code != 200
    ensures Classify(Status("completed", words, SrtReply(code, body))) == Done(SrtOf(words))
    ensures Classify(Status("completed", words, SrtReply(200, body))) == Done(body)
  {
  }

  /** The provider's "error" status is not final: it is one more failure, retried like a raise. */
  lemma ErrorStatusRetried(probe: nat -> Probe, maxWait: int)
    requires probe(0).reply.Status? && probe(0).reply.status == "error"
    requires 0 < maxWait && probe(0).took <= maxWait - 30
    ensures PollFrom(probe, maxWait, 0, 0) == PollFrom(probe, maxWait, 1, probe(0).took + 5)
  {
  }

  /** A timeout is reported only once the budget is spent; a polling failure only late in it. */
  lemma {:induction false} PollEndBounds(probe: nat -> Probe, maxWait: int, k: nat, elapsed: nat)
    ensures var run := PollFrom(probe, maxWait, k, elapsed);
      && (run.outcome == TimedOut ==> run.elapsed >= maxWait)
      && (run.outcome == PollingFailed ==> run.elapsed > maxWait - 30)
      && run.probes >= k && run.elapsed >= elapsed
    decreases if elapsed < maxWait then maxWait - elapsed else 0
  {
    if elapsed < maxWait {
      var now := elapsed + probe(k).took;
      match Classify(probe(k).reply)
      case Done(_) =>
      case Failed =>
        if now <= maxWait - 30 {
          PollEndBounds(probe, maxWait, k + 1, now + 5);
        }
      case Pending =>
        PollEndBounds(probe, maxWait, k + 1, now + 5);
    }
  }

  /** If the transcript never completes and nothing fails, the loop times out. */
  lemma {:induction false} NeverCompletesTimesOut(probe: nat -> Probe, maxWait: int, k: nat, elapsed: nat)
    requires forall i :: k <= i ==> Classify(probe(i).reply).Pending?
    ensures PollFrom(probe, maxWait, k, elapsed).outcome == TimedOut
    decreases if elapsed < maxWait then maxWait - elapsed else 0
  {
    if elapsed < maxWait {
      assert Classify(probe(k).reply).Pending?;
      NeverCompletesTimesOut(probe, maxWait, k + 1, elapsed + probe(k).took + 5);
    }
  }

  /** With no budget at all nothing is probed. */
  lemma NoBudgetNoProbe(probe: nat -> Probe, maxWait: int)
    requires maxWait <= 0
    ensures PollFrom(probe, maxWait, 0, 0) == PollRun(TimedOut, 0, 0)
  {
  }

  // ---------------------------------------------------------------------------
  // script.py

  /** One request for the SRT rendering: it raised, or it answered with a code and a text. */
  datatype SrtPoll = PollRaised | PollReply(code: int, text: string)

  datatype WaitOutcome = Ready(text: string) | PollError | StillWaiting

  /** How the wait ended and how many 10-second pauses it took. */
  datatype WaitRun = WaitRun(outcome: WaitOutcome, waits: nat)

  predicate Unsettled(p: SrtPoll) {
    p.PollReply? && p.code != 200
  }

  /** The wait from poll `i` on. The source loops without bound; the model sees the polls
      given, and after the last of them the job is still waiting. */
  function SrtWait(polls: seq<SrtPoll>, i: nat): WaitRun
    requires i <= |polls|
    decreases |polls| - i
  {
    if i == |polls| then WaitRun(StillWaiting, i)
    else match polls[i]
      case PollRaised => WaitRun(PollError, i)
      case PollReply(code, text) =>
        if code == 200 then WaitRun(Ready(text), i) else SrtWait(polls, i + 1)
  }

  /** The pause, in seconds, after each poll that did not answer 200. */
  const SrtPollPause: nat := 10

  /** The poll loop of `transcribe_video_to_srt`; `polls[k]` is the k-th request. Also
      returns the pauses taken, in order. */
  method WaitForSrt(polls: seq<SrtPoll>) returns (outcome: WaitOutcome, waits: nat, sleeps: seq<nat>)
    ensures WaitRun(outcome, waits) == SrtWait(polls, 0)
    ensures |sleeps| == waits && forall k :: 0 <= k < |sleeps| ==> sleeps[k] == SrtPollPause
  {
    sleeps := [];
    if |polls| == 0 {
      return StillWaiting, 0, sleeps;
    }
    var i := 0;
    var response := polls[0];
    if response.PollRaised? {
      return PollError, 0, sleeps;
    }
    waits := 0;
    while response.code != 200
      invariant i < |polls| && response == polls[i] && response.PollReply?
      invariant waits == i && SrtWait(polls, i) == SrtWait(polls, 0)
      invariant |sleeps| == waits && forall k :: 0 <= k < |sleeps| ==> sleeps[k] == SrtPollPause
      decreases |polls| - i
    {
      waits := waits + 1;
      sleeps := sleeps + [SrtPollPause];
      i := i + 1;
      if i == |polls| {
        return StillWaiting, waits, sleeps;
      }
      response := polls[i];
      if response.PollRaised? {
        return PollError, waits, sleeps;
      }
    }
    outcome := Ready(response.text);
  }

  /** The first poll that raises or answers 200 decides, after one pause per earlier poll. */
  lemma {:induction false} FirstSettledDecides(polls: seq<SrtPoll>, i: nat, j: nat)
    requires i <= j < |polls| && !Unsettled(polls[j])
    requires forall m :: i <= m < j ==> Unsettled(polls[m])
    ensures SrtWait(polls, i) == WaitRun(if polls[j].PollRaised? then PollError else Ready(polls[j].text), j)
    decreases j - i
  {
    if i < j {
      assert Unsettled(polls[i]);
      FirstSettledDecides(polls, i + 1, j);
    }
  }

  /** The job is still waiting exactly when no poll settled, after a pause per poll. */
  lemma {:induction false} StillWaitingExactly(polls: seq<SrtPoll>, i: nat)
    requires i <= |polls|
    ensures SrtWait(polls, i).outcome == StillWaiting <==> forall m :: i <= m < |polls| ==> Unsettled(polls[m])
    ensures SrtWait(polls, i).outcome == StillWaiting ==> SrtWait(polls, i).waits == |polls|
    decreases |polls| - i
  {
    if i < |polls| {
      StillWaitingExactly(polls, i + 1);
    }
  }
}
