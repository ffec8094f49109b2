/**
 * The job table of the subtitle-burning service (script.py): `processing_status`, a
 * dictionary from job id to record, and the pipeline that one worker runs per job.
 *
 * `upload_video` creates a "queued" record. `process_video_async` then runs
 * `transcribe_video_to_srt` (extracting_audio, uploading, transcribing, translating) and,
 * only when that returned True, `embed_subtitles_into_video` (embedding, rendering,
 * completed). Any failure writes "error" and ends the job. The files the pipeline writes
 * are represented by `srtFiles` (processed/<id>.srt and its text) and `videos` (the ids
 * whose processed/<id>_with_subtitles.mp4 exists). The ghost `history` records every
 * status write of every job.
 *
 * Every tool and provider call is an input: each either succeeds or raises. The worker
 * runs sequentially after the upload; the sleeps of the retry and poll loops are not taken.
 */
module VideoJobs {
  import opened Wrappers
  import opened FileTypes
  import opened Completion
  import opened Polling

  /** The statuses a record can hold, spelt in the source "queued", "extracting_audio",
      "uploading", "transcribing", "translating", "embedding", "rendering", "completed" and
      "error". */
  datatype Status = Queued | ExtractingAudio | Uploading | Transcribing | Translating
                  | Embedding | Rendering | Completed | Error

  /** The statuses a job passes through when nothing fails. */
  const Stages: seq<Status> := [Queued, ExtractingAudio, Uploading, Transcribing, Translating, Embedding, Rendering, Completed]

  /** The messages the worker writes, one constructor per fixed text of the source, in the
      order the pipeline writes them (`MissingSrtMessage(id)` names the missing
      processed/<id>.srt). The exception text the source appends to the three
      "Error during ..." messages and the response it appends to the missing-id message are
      not modelled. */
  datatype Message =
    | QueuedMessage | ExtractingMessage | UploadingMessage | RequestingMessage | NoIdMessage
    | AwaitingMessage | PollingMessage | TranslatingMessage | TranscriptionFailedMessage
    | MissingSrtMessage(id: string) | EmbeddingMessage | RenderingMessage | CompletedMessage
    | VideoFailedMessage

  /** One record of `processing_status`. */
  datatype Job = Job(status: Status, message: Message, filename: string, uploadedAt: string)

  // ---------------------------------------------------------------------------
  // The pipeline's inputs and its effect on one job, as functions

  /** The transcription request: it raised, or it answered JSON with or without an "id". */
  datatype Submit = SubmitRaised | Submitted(hasId: bool)

  /** What the collaborators of `transcribe_video_to_srt` do: audio extraction (ffmpeg and
      the mp3 conversion), the upload, the transcription request, the SRT polls, building
      the Groq client, and the language model's streams when the prompt carries a given SRT
      text (the rest of the prompt is fixed text). */
  datatype TranscribeInputs = TranscribeInputs(
    extract: Outcome, upload: Outcome, submit: Submit, polls: seq<SrtPoll>, client: Outcome,
    llm: string -> nat -> Stream)

  /** What the collaborators of `embed_subtitles_into_video` do: loading and composing the
      clips, and rendering the output file. */
  datatype EmbedInputs = EmbedInputs(compose: Outcome, render: Outcome)

  /** How `transcribe_video_to_srt` ends: it returned, or it is still polling once the given
      polls are used up (the source loops without bound). */
  datatype TranscribeEnd = Ended(ok: bool) | StillPolling

  /** The status writes of one stage function, the last message it wrote, the SRT text it
      saved (if any) and how it ended. */
  datatype TranscribeEffect = TranscribeEffect(writes: seq<Status>, message: Message, srt: Option<string>, end: TranscribeEnd)

  datatype EmbedEffect = EmbedEffect(writes: seq<Status>, message: Message, ok: bool)

  /** Everything a job's worker does: status writes, last message, SRT file, output video. */
  datatype JobRun = JobRun(writes: seq<Status>, message: Message, srt: Option<string>, video: bool)

  /** The statuses written before the SRT polls begin. */
  const Requested: seq<Status> := [ExtractingAudio, Uploading, Transcribing]

  /** The part of `transcribe_video_to_srt` after the transcription request was accepted:
      the SRT polls and the translation. The writes are those after "transcribing". A
      client constructor that raises makes `get_llama_response` raise, and the handler of
      `transcribe_video_to_srt` then writes "error" and returns False. */
  function AwaitRun(polls: seq<SrtPoll>, client: Outcome, llm: string -> nat -> Stream): TranscribeEffect {
    var wait := SrtWait(polls, 0);
    match wait.outcome
    case PollError => TranscribeEffect([Error], TranscriptionFailedMessage, None, Ended(false))
    case StillWaiting =>
      TranscribeEffect([], if wait.waits == 0 then AwaitingMessage else PollingMessage, None, StillPolling)
    case Ready(text) =>
      if client.Raises? then TranscribeEffect([Translating, Error], TranscriptionFailedMessage, None, Ended(false))
      else TranscribeEffect([Translating], TranslatingMessage, Saved(StreamReply(llm(text))), Ended(true))
  }

  /** The SRT text written from the model's reply: nothing when the reply is missing or empty. */
  function Saved(reply: Option<string>): Option<string> {
    if reply.Some? && reply.value != "" then reply else None
  }

  /** The stages up to the transcription request: the statuses written, the last message,
      and whether the request was answered with an id. */
  datatype RequestEffect = RequestEffect(writes: seq<Status>, message: Message, accepted: bool)

  function RequestRun(extract: Outcome, upload: Outcome, submit: Submit): RequestEffect {
    var failed := TranscriptionFailedMessage;
    if extract.Raises? then RequestEffect([ExtractingAudio, Error], failed, false)
    else if upload.Raises? then RequestEffect([ExtractingAudio, Uploading, Error], failed, false)
    else match submit
      case SubmitRaised => RequestEffect(Requested + [Error], failed, false)
      case Submitted(hasId) =>
        if hasId then RequestEffect(Requested, RequestingMessage, true)
        else RequestEffect(Requested + [Error], NoIdMessage, false)
  }

  function TranscribeRun(t: TranscribeInputs): TranscribeEffect {
    var r := RequestRun(t.extract, t.upload, t.submit);
    if !r.accepted then TranscribeEffect(r.writes, r.message, None, Ended(false))
    else
      var a := AwaitRun(t.polls, t.client, t.llm);
      a.(writes := r.writes + a.writes)
  }

  function EmbedRun(id: string, hasSrt: bool, e: EmbedInputs): EmbedEffect {
    if !hasSrt then EmbedEffect([Error], MissingSrtMessage(id), false)
    else if e.compose.Raises? then EmbedEffect([Embedding, Error], VideoFailedMessage, false)
    else if e.render.Raises? then EmbedEffect([Embedding, Rendering, Error], VideoFailedMessage, false)
    else EmbedEffect([Embedding, Rendering, Completed], CompletedMessage, true)
  }

  /** `process_video_async`: embedding runs only when transcription returned True. */
  function ProcessRun(id: string, t: TranscribeInputs, e: EmbedInputs): JobRun {
    var tr := TranscribeRun(t);
    if tr.end == Ended(true) then
      var em := EmbedRun(id, tr.srt.Some?, e);
      JobRun(tr.writes + em.writes, em.message, tr.srt, em.ok)
    else JobRun(tr.writes, tr.message, tr.srt, false)
  }

  function Last(s: seq<Status>): Status
    requires s != []
  {
    s[|s| - 1]
  }

  /** The invariant one job's record, status writes and files keep. */
  predicate Consistent(status: Status, trace: seq<Status>, hasSrt: bool, hasVideo: bool) {
    && trace != [] && trace[|trace| - 1] == status
    && (status == Queued ==> trace == [Queued] && !hasSrt)
    && ((status == Embedding || status == Rendering || status == Completed) ==> hasSrt)
    && (hasVideo <==> status == Completed)
  }

  // ---------------------------------------------------------------------------
  // One job's record

  /** One entry of `processing_status`: a dictionary the worker updates in place, with the
      files the pipeline writes for the job, processed/<id>.srt (`srt`, its text) and
      processed/<id>_with_subtitles.mp4 (`video`, whether it exists). The ghost `trace`
      records every status write. */
  class JobRecord {
    const id: string
    const filename: string
    const uploadedAt: string
    var status: Status
    var message: Message
    var srt: Option<string>
    var video: bool
    ghost var trace: seq<Status>

    ghost predicate Valid()
      reads this
    {
      Consistent(status, trace, srt.Some?, video)
    }

    /** The record as `GET /status/<job_id>` serialises it. */
    function Record(): Job
      reads this
    {
      Job(status, message, filename, uploadedAt)
    }

    /** The record `upload_video` creates: "queued", no files yet. */
    constructor (id: string, filename: string, uploadedAt: string)
      ensures Valid() && this.id == id && this.filename == filename && this.uploadedAt == uploadedAt
      ensures status == Queued && message == QueuedMessage && srt == None && !video && trace == [Queued]
    {
      this.id, this.filename, this.uploadedAt := id, filename, uploadedAt;
      status, message, srt, video := Queued, QueuedMessage, None, false;
      trace := [Queued];
    }

    /** One write of `processing_status[job_id]['status']` followed by one of its message.
        `before + w` is the status history so far, split so that callers can accumulate
        the writes of one stage in `w`. */
    method SetStatus(s: Status, m: Message, ghost before: seq<Status>, ghost w: seq<Status>)
      requires trace == before + w && Consistent(s, trace + [s], srt.Some?, video)
      modifies this
      ensures Valid() && status == s && message == m && trace == before + (w + [s])
      ensures trace == old(trace) + [s] && srt == old(srt) && video == old(video)
    {
      status, message := s, m;
      trace := trace + [s];
      assert (before + w) + [s] == before + (w + [s]);
    }

    /** A write of the message alone. */
    method SetMessage(m: Message)
      modifies this
      ensures message == m && status == old(status) && trace == old(trace)
      ensures srt == old(srt) && video == old(video)
    {
      message := m;
    }

    /** Writing processed/<id>.srt. */
    method SaveSrt(text: string)
      modifies this
      ensures srt == Some(text) && status == old(status) && message == old(message)
      ensures trace == old(trace) && video == old(video)
    {
      srt := Some(text);
    }

    /** `write_videofile` returned: the output exists and the job is completed. */
    method Finish(ghost before: seq<Status>, ghost w: seq<Status>)
      requires Valid() && status == Rendering && trace == before + w
      modifies this
      ensures Valid() && status == Completed && message == CompletedMessage && video
      ensures trace == before + (w + [Completed]) && srt == old(srt)
    {
      video := true;
      status, message := Completed, CompletedMessage;
      trace := trace + [Completed];
      assert (before + w) + [Completed] == before + (w + [Completed]);
    }

    /** `transcribe_video_to_srt(video_path, srt_path, job_id)`. */
    method TranscribeVideoToSrt(t: TranscribeInputs) returns (end: TranscribeEnd)
      requires Valid() && status == Queued
      modifies this
      ensures Valid() && !video
      ensures var run := TranscribeRun(t);
        && end == run.end && status == Last(run.writes) && message == run.message
        && trace == old(trace) + run.writes && srt == run.srt
    {
      var accepted := RequestTranscription(t.extract, t.upload, t.submit);
      if !accepted {
        return Ended(false);
      }
      end := AwaitTranscript(t.polls, t.client, t.llm);
      assert (old(trace) + Requested) + AwaitRun(t.polls, t.client, t.llm).writes
          == old(trace) + (Requested + AwaitRun(t.polls, t.client, t.llm).writes);
    }

    /** Audio extraction, the upload and the transcription request; `accepted` when the
        request was answered with an id. */
    method RequestTranscription(extract: Outcome, upload: Outcome, submit: Submit) returns (accepted: bool)
      requires Valid() && status == Queued
      modifies this
      ensures Valid() && srt == old(srt) && video == old(video)
      ensures var run := RequestRun(extract, upload, submit);
        && accepted == run.accepted && status == Last(run.writes) && message == run.message
        && trace == old(trace) + run.writes
    {
      ghost var h := trace;
      assert h == h + [];
      SetStatus(ExtractingAudio, ExtractingMessage, h, []);
      if extract.Raises? {
        SetStatus(Error, TranscriptionFailedMessage, h, [ExtractingAudio]);
        return false;
      }
      SetStatus(Uploading, UploadingMessage, h, [ExtractingAudio]);
      if upload.Raises? {
        SetStatus(Error, TranscriptionFailedMessage, h, [ExtractingAudio, Uploading]);
        return false;
      }
      SetStatus(Transcribing, RequestingMessage, h, [ExtractingAudio, Uploading]);
      if submit.SubmitRaised? {
        SetStatus(Error, TranscriptionFailedMessage, h, Requested);
        return false;
      }
      if !submit.hasId {
        SetStatus(Error, NoIdMessage, h, Requested);
        return false;
      }
      accepted := true;
    }

    /** After the transcription request: the SRT polls, then the translation and the SRT file. */
    method AwaitTranscript(polls: seq<SrtPoll>, client: Outcome, llm: string -> nat -> Stream) returns (end: TranscribeEnd)
      requires Valid() && status == Transcribing && srt.None?
      modifies this
      ensures Valid() && !video
      ensures var run := AwaitRun(polls, client, llm);
        && end == run.end && status == (if run.writes == [] then old(status) else Last(run.writes))
        && message == run.message && trace == old(trace) + run.writes && srt == run.srt
    {
      SetMessage(AwaitingMessage);
      var outcome, waits, _ := WaitForSrt(polls);
      if waits > 0 {
        SetMessage(PollingMessage);
      }
      match outcome {
        case PollError =>
          SetStatus(Error, TranscriptionFailedMessage, trace, []);
          return Ended(false);
        case StillWaiting =>
          return StillPolling;
        case Ready(text) =>
          var ok := Translate(client, llm(text));
          return Ended(ok);
      }
    }

    /** The "translating" stage: the model is asked for the SRT, and a non-empty reply is
        written to processed/<id>.srt. `ok` is false when `get_llama_response` raised, after
        the handler's "error" write. */
    method Translate(client: Outcome, attempt: nat -> Stream) returns (ok: bool)
      requires Valid() && status == Transcribing && srt.None?
      modifies this
      ensures Valid() && video == old(video) && ok == client.Succeeds?
      ensures ok ==> status == Translating && message == TranslatingMessage
                     && trace == old(trace) + [Translating] && srt == Saved(StreamReply(attempt))
      ensures !ok ==> status == Error && message == TranscriptionFailedMessage
                      && trace == old(trace) + [Translating, Error] && srt == None
    {
      ghost var h := trace;
      assert h == h + [];
      SetStatus(Translating, TranslatingMessage, h, []);
      var result, _, _ := GetStreamedResponse(client, attempt);
      match result {
        case ClientRaised =>
          SetStatus(Error, TranscriptionFailedMessage, h, [Translating]);
          return false;
        case Answered(reply) =>
          if reply.Some? && reply.value != "" {
            SaveSrt(reply.value);
          }
          return true;
      }
    }

    /** `embed_subtitles_into_video(video_path, srt_path, output_path, job_id)`. */
    method EmbedSubtitles(e: EmbedInputs) returns (ok: bool)
      requires Valid() && status == Translating
      modifies this
      ensures Valid() && srt == old(srt)
      ensures var run := EmbedRun(id, old(srt).Some?, e);
        && ok == run.ok && status == Last(run.writes) && message == run.message
        && trace == old(trace) + run.writes && video == run.ok
    {
      ghost var h := trace;
      assert h == h + [];
      if srt.None? {
        SetStatus(Error, MissingSrtMessage(id), h, []);
        return false;
      }
      SetStatus(Embedding, EmbeddingMessage, h, []);
      if e.compose.Raises? {
        SetStatus(Error, VideoFailedMessage, h, [Embedding]);
        return false;
      }
      SetStatus(Rendering, RenderingMessage, h, [Embedding]);
      if e.render.Raises? {
        SetStatus(Error, VideoFailedMessage, h, [Embedding, Rendering]);
        return false;
      }
      Finish(h, [Embedding, Rendering]);
      ok := true;
    }

    /** `process_video_async(video_path, job_id)`, run to its end after the upload. */
    method ProcessVideo(t: TranscribeInputs, e: EmbedInputs)
      requires Valid() && status == Queued
      modifies this
      ensures Valid()
      ensures var run := ProcessRun(id, t, e);
        && status == Last(run.writes) && message == run.message
        && trace == old(trace) + run.writes && srt == run.srt && video == run.video
    {
      var end := TranscribeVideoToSrt(t);
      if end == Ended(true) {
        ghost var tr := TranscribeRun(t);
        var _ := EmbedSubtitles(e);
        ghost var em := EmbedRun(id, tr.srt.Some?, e);
        assert (old(trace) + tr.writes) + em.writes == old(trace) + (tr.writes + em.writes);
      }
    }
  }

  /** What `GET /download/<job_id>` answers for a job: the name of the file sent. */
  function VideoAnswer(id: string, status: Status, video: bool): Response<string> {
    if status != Completed then HttpError(400)
    else if !video then HttpError(404)
    else Ok(id + "_with_subtitles.mp4")
  }

  /** What `GET /download/<job_id>/srt` answers for a job: the text of the file sent. */
  function SrtAnswer(status: Status, srt: Option<string>): Response<string> {
    if !(status == Completed || status == Embedding || status == Rendering) then HttpError(400)
    else if srt.None? then HttpError(404)
    else Ok(srt.value)
  }

  // ---------------------------------------------------------------------------
  // The table

  /** `processing_status`; each job's record is its own object, filed under its id. */
  class StatusTable {
    var jobs: map<string, JobRecord>

    ghost predicate Valid()
      reads this, jobs.Values
    {
      forall id :: id in jobs ==> jobs[id].id == id && jobs[id].Valid()
    }

    constructor ()
      ensures Valid() && jobs == map[]
    {
      jobs := map[];
    }

    /** `POST /upload`: the form's `video` part (whether present, and its file name). */
    method UploadVideo(hasVideoPart: bool, filename: string, jobId: string, uploadedAt: string) returns (r: Response<string>)
      requires Valid() && jobId !in jobs
      modifies this
      ensures Valid()
      ensures r.Ok? <==> hasVideoPart && filename != "" && VideoAllowedFile(filename)
      ensures r.HttpError? ==> r.code == 400 && jobs == old(jobs)
      ensures r.Ok? ==> r.value == jobId && jobId in jobs && fresh(jobs[jobId])
                        && jobs == old(jobs)[jobId := jobs[jobId]]
                        && jobs[jobId].Record() == Job(Queued, QueuedMessage, filename, uploadedAt)
                        && jobs[jobId].trace == [Queued] && jobs[jobId].srt == None && !jobs[jobId].video
    {
      if !hasVideoPart {
        return HttpError(400);
      }
      if filename == "" {
        return HttpError(400);
      }
      if VideoAllowedFile(filename) {
        var record := new JobRecord(jobId, filename, uploadedAt);
        jobs := jobs[jobId := record];
        return Ok(jobId);
      }
      r := HttpError(400);
    }

    /** The worker the upload starts for `id`: it changes that job's record and nothing else. */
    method ProcessVideo(id: string, t: TranscribeInputs, e: EmbedInputs)
      requires Valid() && id in jobs && jobs[id].status == Queued
      modifies jobs[id]
      ensures Valid()
      ensures var run := ProcessRun(id, t, e); var record := jobs[id];
        && record.Record() == old(record.Record()).(status := Last(run.writes), message := run.message)
        && record.trace == old(record.trace) + run.writes
        && record.srt == run.srt && record.video == run.video
    {
      var record := jobs[id];
      record.ProcessVideo(t, e);
      forall k | k in jobs
        ensures jobs[k].id == k && jobs[k].Valid()
      {
        if k != id {
          assert jobs[k] != record;
        }
      }
    }

    /** `GET /status/<job_id>`. */
    method GetStatus(id: string) returns (r: Response<Job>)
      ensures r == if id in jobs then Ok(jobs[id].Record()) else HttpError(404)
    {
      if id !in jobs {
        return HttpError(404);
      }
      r := Ok(jobs[id].Record());
    }

    /** `GET /download/<job_id>`. */
    method DownloadVideo(id: string) returns (r: Response<string>)
      ensures r == if id in jobs then VideoAnswer(id, jobs[id].status, jobs[id].video) else HttpError(404)
    {
      if id !in jobs {
        return HttpError(404);
      }
      var record := jobs[id];
      if record.status != Completed {
        return HttpError(400);
      }
      if !record.video {
        return HttpError(404);
      }
      r := Ok(id + "_with_subtitles.mp4");
    }

    /** `GET /download/<job_id>/srt`. */
    method DownloadSrt(id: string) returns (r: Response<string>)
      ensures r == if id in jobs then SrtAnswer(jobs[id].status, jobs[id].srt) else HttpError(404)
    {
      if id !in jobs {
        return HttpError(404);
      }
      var record := jobs[id];
      var status := record.status;
      if !(status == Completed || status == Embedding || status == Rendering) {
        return HttpError(400);
      }
      if record.srt.None? {
        return HttpError(404);
      }
      r := Ok(record.srt.value);
    }

    /** `GET /jobs`: every record, by id. */
    method ListJobs() returns (all: map<string, Job>)
      ensures all.Keys == jobs.Keys
      ensures forall id :: id in all ==> all[id] == jobs[id].Record()
    {
      all := map id | id in jobs :: jobs[id].Record();
    }
  }

  // ---------------------------------------------------------------------------
  // Properties

  /** The statuses written for one job are a prefix of the pipeline, possibly followed by a
      single "error" after which nothing more is written. */
  lemma TraceShape(id: string, t: TranscribeInputs, e: EmbedInputs)
    ensures var ws := [Queued] + ProcessRun(id, t, e).writes;
      && 2 <= |ws| <= |Stages|
      && (ws == Stages[..|ws|] || (ws[..|ws| - 1] == Stages[..|ws| - 1] && ws[|ws| - 1] == Error))
  {
    var r := RequestRun(t.extract, t.upload, t.submit);
    var ws := [Queued] + ProcessRun(id, t, e).writes;
    if !r.accepted {
      var n := |r.writes|;
      assert ws == Stages[..n] + [Error];
      StagesThenError(ws, n);
    } else {
      var a := AwaitRun(t.polls, t.client, t.llm);
      if a.end != Ended(true) {
        if a.writes == [] {
          assert ws == Stages[..4];
        } else if a.writes == [Error] {
          assert ws == Stages[..4] + [Error];
          StagesThenError(ws, 4);
        } else {
          assert ws == Stages[..5] + [Error];
          StagesThenError(ws, 5);
        }
      } else {
        var em := EmbedRun(id, a.srt.Some?, e);
        if em.ok {
          assert ws == Stages;
        } else {
          var n := 4 + |em.writes|;
          assert ws == Stages[..n] + [Error];
          StagesThenError(ws, n);
        }
      }
    }
  }

  lemma StagesThenError(ws: seq<Status>, n: nat)
    requires n <= |Stages| && ws == Stages[..n] + [Error]
    ensures ws[..|ws| - 1] == Stages[..|ws| - 1] && ws[|ws| - 1] == Error
  {
    assert ws[..|ws| - 1] == Stages[..n];
  }

  /** A job completes exactly when every stage succeeds, a poll answers 200, the client is
      built and the model returns non-empty text; the output video exists then and only then. */
  lemma CompletedExactly(id: string, t: TranscribeInputs, e: EmbedInputs)
    ensures var run := ProcessRun(id, t, e);
      && (Last(run.writes) == Completed <==>
            && t.extract == Succeeds && t.upload == Succeeds && t.submit == Submitted(true)
            && SrtWait(t.polls, 0).outcome.Ready? && t.client == Succeeds
            && TranscribeRun(t).srt.Some?
            && e == EmbedInputs(Succeeds, Succeeds))
      && (run.video <==> Last(run.writes) == Completed)
  {
  }

  /** A transcription request answered without an "id" ends the job before any later stage. */
  lemma NoIdStopsEarly(id: string, t: TranscribeInputs, e: EmbedInputs)
    requires t.extract == Succeeds && t.upload == Succeeds && t.submit == Submitted(false)
    ensures ProcessRun(id, t, e) == JobRun([ExtractingAudio, Uploading, Transcribing, Error], NoIdMessage, None, false)
  {
  }

  /** When the model's reply is empty or missing, transcription still reports success, no
      SRT file is written, and embedding then fails on the missing file. */
  lemma FalsyReplyFailsAtEmbedding(id: string, t: TranscribeInputs, e: EmbedInputs, text: string)
    requires t.extract == Succeeds && t.upload == Succeeds && t.submit == Submitted(true)
    requires SrtWait(t.polls, 0).outcome == Ready(text) && t.client == Succeeds
    requires var reply := StreamReply(t.llm(text)); reply.None? || reply.value == ""
    ensures TranscribeRun(t).end == Ended(true)
    ensures ProcessRun(id, t, e) == JobRun([ExtractingAudio, Uploading, Transcribing, Translating, Error], MissingSrtMessage(id), None, false)
  {
  }

  /** When the Groq client cannot be built, `get_llama_response` raises: the job ends with
      "error" right after "translating", no SRT file is written and embedding never runs. */
  lemma ClientFailureStopsTranscription(id: string, t: TranscribeInputs, e: EmbedInputs, text: string)
    requires t.extract == Succeeds && t.upload == Succeeds && t.submit == Submitted(true)
    requires SrtWait(t.polls, 0).outcome == Ready(text) && t.client == Raises
    ensures TranscribeRun(t).end == Ended(false)
    ensures ProcessRun(id, t, e) == JobRun([ExtractingAudio, Uploading, Transcribing, Translating, Error], TranscriptionFailedMessage, None, false)
  {
  }

  /** The text of the first poll that answers 200 is what the language model is given; the
      SRT file holds exactly the model's reply (when the client could be built). */
  lemma PromptCarriesTranscript(id: string, t: TranscribeInputs, e: EmbedInputs, j: nat)
    requires t.extract == Succeeds && t.upload == Succeeds && t.submit == Submitted(true)
    requires j < |t.polls| && t.polls[j].PollReply? && t.polls[j].code == 200
    requires forall m :: 0 <= m < j ==> Unsettled(t.polls[m])
    ensures var reply := StreamReply(t.llm(t.polls[j].text));
      ProcessRun(id, t, e).srt == if t.client == Succeeds && reply.Some? && reply.value != "" then reply else None
  {
    FirstSettledDecides(t.polls, 0, j);
  }

  /** While polls keep failing to answer 200 the job stays "transcribing". */
  lemma PollingNeverSettles(id: string, t: TranscribeInputs, e: EmbedInputs)
    requires t.extract == Succeeds && t.upload == Succeeds && t.submit == Submitted(true)
    requires |t.polls| > 0 && forall m :: 0 <= m < |t.polls| ==> Unsettled(t.polls[m])
    ensures ProcessRun(id, t, e) == JobRun([ExtractingAudio, Uploading, Transcribing], PollingMessage, None, false)
  {
    StillWaitingExactly(t.polls, 0);
  }

  /** Every run leaves a record that satisfies the table's invariant. */
  lemma RunConsistent(id: string, t: TranscribeInputs, e: EmbedInputs)
    ensures var run := ProcessRun(id, t, e);
      Consistent(Last(run.writes), [Queued] + run.writes, run.srt.Some?, run.video)
  {
    var tr := TranscribeRun(t);
    if tr.end == Ended(true) {
      assert tr.writes == Requested + [Translating];
    } else {
      assert tr.srt == None;
    }
  }

  /** The SRT file can be downloaded once embedding has begun; the video only once completed. */
  lemma DownloadGates(id: string, status: Status, srt: Option<string>, video: bool)
    ensures SrtAnswer(status, srt).Ok? <==> (status == Completed || status == Embedding || status == Rendering) && srt.Some?
    ensures SrtAnswer(status, srt).Ok? ==> SrtAnswer(status, srt).value == srt.value
    ensures VideoAnswer(id, status, video).Ok? <==> status == Completed && video
  {
  }

  /** For a consistent record, a status that lets the SRT or the video be downloaded comes
      with that file: the "file not found" answers are never given. */
  lemma ConsistentDownloads(id: string, status: Status, trace: seq<Status>, srt: Option<string>, video: bool)
    requires Consistent(status, trace, srt.Some?, video)
    ensures SrtAnswer(status, srt) != HttpError(404)
    ensures VideoAnswer(id, status, video) != HttpError(404)
  {
  }

  /** End to end: every stage succeeds, the first poll is still processing, the second
      answers 200, and the model completes on its first stream. */
  lemma HappyPath(id: string, t: TranscribeInputs, text: string, reply: string)
    requires t.extract == Succeeds && t.upload == Succeeds && t.submit == Submitted(true)
    requires t.polls == [PollReply(404, ""), PollReply(200, text)] && t.client == Succeeds
    requires t.llm(text)(0) == Stream([Some(reply)], true) && reply != ""
    ensures ProcessRun(id, t, EmbedInputs(Succeeds, Succeeds))
      == JobRun(Stages[1..], CompletedMessage, Some(reply), true)
  {
    FirstSettledDecides(t.polls, 0, 1);
    var attempt := t.llm(text);
    assert FirstCompleted(attempt, 0) == 0;
    assert Streamed([Some(reply)]) == reply by {
      assert [Some(reply)][..0] == [];
    }
    assert Accumulated(attempt, 1) == reply;
  }
}
