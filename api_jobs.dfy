/**
 * The job registry of the serverless transcription API (api/index.py): `processing_jobs`,
 * a dictionary from job id to record, kept in insertion order.
 *
 * `transcribe_file` validates the upload, creates a record only once every check has
 * passed, and then moves it through "uploading", "transcribing" and "completed". Every
 * collaborator reports its failure as an HTTPException, which the endpoint re-raises
 * without touching the record, so a failed job keeps the status it had reached; the
 * handler that would write "error" is reached only by a failing read, before any record
 * exists. The record therefore never holds "error".
 *
 * The upload's bytes are represented by their length, the provider's answers by inputs,
 * the fresh uuid by a parameter not yet in the table and the timestamp by an opaque string.
 */
module ApiJobs {
  import opened Wrappers
  import opened FileTypes
  import opened Text
  import opened Polling

  /** `MAX_CONTENT_LENGTH`: 25 MB. */
  const MaxContentLength: nat := 25 * 1024 * 1024

  /** `get_transcription_result` is called with its default budget. */
  const MaxWait: int := 300

  /** The statuses a record can hold: "uploading", "transcribing", "completed", "error". */
  datatype JobStatus = Uploading | Transcribing | Completed | Error


  const UploadingMessage: string := "Uploading file to transcription service..."
  const TranscribingMessage: string := "Transcription in progress..."
  const CompletedMessage: string := "Transcription completed successfully"

  /** One record of `processing_jobs` (the fields of the `JobStatus` model). */
  datatype ApiJob = ApiJob(
    jobId: string,
    status: JobStatus,
    message: string,
    filename: string,
    createdAt: string,
    srtContent: Option<string>,
    downloadUrl: Option<string>)

  function DownloadUrl(jobId: string): string {
    "/download/" + jobId
  }

  /** What a record looks like at each status `transcribe_file` writes. */
  predicate WellFormed(id: string, job: ApiJob) {
    && job.jobId == id
    && job.status != Error
    && (job.status == Completed <==> job.srtContent.Some?)
    && job.downloadUrl == (if job.status == Completed then Some(DownloadUrl(id)) else None)
  }

  // ---------------------------------------------------------------------------
  // transcribe_file as a function of its inputs

  /** How `transcribe_file` ends: rejected before any record exists, stopped with the
      record left at `status`, or finished with the transcript. */
  datatype Run = Rejected(code: nat) | Stopped(status: JobStatus, code: nat) | Finished(srt: string)

  /** The inputs: the file name; whether the provider key is configured; the size of the
      upload, or `None` when reading it raised; whether the upload and the transcription
      request succeeded (a request answered without an "id" fails like one that raised);
      and the status probes. */
  function TranscribeRun(filename: string, apiKey: bool, size: Option<nat>, uploaded: bool, submitted: bool, probe: nat -> Probe): Run {
    if filename == "" then Rejected(400)
    else if !ApiAllowedFile(filename) then Rejected(400)
    else if !apiKey then Rejected(500)
    else if size.None? then Rejected(500)
    else if size.value > MaxContentLength then Rejected(413)
    else if !uploaded then Stopped(Uploading, 500)
    else if !submitted then Stopped(Transcribing, 500)
    else match PollFrom(probe, MaxWait, 0, 0).outcome
      case Transcript(srt) => Finished(srt)
      case PollingFailed => Stopped(Transcribing, 500)
      case TimedOut => Stopped(Transcribing, 408)
  }

  /** The endpoint's answer: the job id on success, otherwise the HTTP status code. */
  function Answer(run: Run, jobId: string): Response<string> {
    match run
    case Finished(_) => Ok(jobId)
    case Rejected(code) => HttpError(code)
    case Stopped(_, code) => HttpError(code)
  }

  /** The record left behind by a run that got past validation. */
  function Record(jobId: string, filename: string, createdAt: string, run: Run): ApiJob
    requires !run.Rejected?
  {
    match run
    case Stopped(status, _) =>
      ApiJob(jobId, status, if status == Uploading then UploadingMessage else TranscribingMessage, filename, createdAt, None, None)
    case Finished(srt) =>
      ApiJob(jobId, Completed, CompletedMessage, filename, createdAt, Some(srt), Some(DownloadUrl(jobId)))
  }

  /** The table after the run. */
  function Stored(jobs: map<string, ApiJob>, jobId: string, filename: string, createdAt: string, run: Run): map<string, ApiJob> {
    if run.Rejected? then jobs else jobs[jobId := Record(jobId, filename, createdAt, run)]
  }

  /** `download_srt` on a table. */
  function Download(jobs: map<string, ApiJob>, id: string): Response<string> {
    if id !in jobs then HttpError(404)
    else if jobs[id].status != Completed then HttpError(400)
    else if jobs[id].srtContent.None? || jobs[id].srtContent.value == "" then HttpError(404)
    else Ok(jobs[id].srtContent.value)
  }

  /** `get_job_status` on a table. */
  function Lookup(jobs: map<string, ApiJob>, id: string): Response<ApiJob> {
    if id in jobs then Ok(jobs[id]) else HttpError(404)
  }

  /** `order` without `x`; the others keep their order. */
  function Without(s: seq<string>, x: string): (r: seq<string>)
    ensures |r| <= |s|
    ensures forall y :: y in r <==> y in s && y != x
  {
    if s == [] then []
    else
      var t := s[..|s| - 1];
      assert s == t + [s[|s| - 1]];
      if s[|s| - 1] == x then Without(t, x)
      else Without(t, x) + [s[|s| - 1]]
  }

  predicate Distinct(s: seq<string>) {
    forall i, j :: 0 <= i < j < |s| ==> s[i] != s[j]
  }

  // ---------------------------------------------------------------------------
  // The registry

  class JobTable {
    var jobs: map<string, ApiJob>
    /** The ids in insertion order, as Python's dict keeps them. */
    var order: seq<string>

    ghost predicate Valid()
      reads this
    {
      && Distinct(order)
      && (forall id :: id in jobs <==> id in order)
      && (forall id :: id in jobs ==> WellFormed(id, jobs[id]))
    }

    constructor ()
      ensures Valid() && jobs == map[] && order == []
    {
      jobs := map[];
      order := [];
    }

    /** `POST /transcribe`. */
    method TranscribeFile(filename: string, apiKey: bool, size: Option<nat>, jobId: string, createdAt: string,
                          uploaded: bool, submitted: bool, probe: nat -> Probe) returns (r: Response<string>)
      requires Valid() && jobId !in jobs
      modifies this
      ensures Valid()
      ensures var run := TranscribeRun(filename, apiKey, size, uploaded, submitted, probe);
        && r == Answer(run, jobId)
        && jobs == Stored(old(jobs), jobId, filename, createdAt, run)
        && order == if run.Rejected? then old(order) else old(order) + [jobId]
    {
      if filename == "" {
        return HttpError(400);
      }
      if !ApiAllowedFile(filename) {
        return HttpError(400);
      }
      if !apiKey {
        return HttpError(500);
      }
      // A read that raises reaches the generic handler, which finds no record to mark.
      if size.None? {
        return HttpError(500);
      }
      if size.value > MaxContentLength {
        return HttpError(413);
      }
      ghost var before := jobs;
      Insert(jobId, ApiJob(jobId, Uploading, UploadingMessage, filename, createdAt, None, None));
      if !uploaded {
        return HttpError(500);
      }
      ghost var uploading := jobs[jobId];
      Update(jobId, jobs[jobId].(status := Transcribing, message := TranscribingMessage));
      Overwrite(before, jobId, uploading, jobs[jobId]);
      if !submitted {
        return HttpError(500);
      }
      var outcome, _, _ := GetTranscriptionResult(probe, MaxWait);
      match outcome {
        case Transcript(srt) =>
          ghost var transcribing := jobs[jobId];
          Update(jobId, jobs[jobId].(status := Completed, message := CompletedMessage,
                                     srtContent := Some(srt), downloadUrl := Some(DownloadUrl(jobId))));
          Overwrite(before, jobId, transcribing, jobs[jobId]);
          return Ok(jobId);
        case PollingFailed =>
          return HttpError(500);
        case TimedOut =>
          return HttpError(408);
      }
    }

    /** A new key goes to the end of the insertion order. */
    method Insert(id: string, job: ApiJob)
      requires Valid() && id !in jobs && WellFormed(id, job)
      modifies this
      ensures Valid() && jobs == old(jobs)[id := job] && order == old(order) + [id]
    {
      jobs := jobs[id := job];
      order := order + [id];
    }

    /** `processing_jobs[job_id].update(...)`: the record of an existing key is replaced. */
    method Update(id: string, job: ApiJob)
      requires Valid() && id in jobs && WellFormed(id, job)
      modifies this
      ensures Valid() && jobs == old(jobs)[id := job] && order == old(order)
    {
      jobs := jobs[id := job];
    }

    /** `GET /status/{job_id}`. */
    method GetJobStatus(id: string) returns (r: Response<ApiJob>)
      ensures r == Lookup(jobs, id)
      ensures r.HttpError? <==> id !in jobs
    {
      if id !in jobs {
        return HttpError(404);
      }
      r := Ok(jobs[id]);
    }

    /** `GET /download/{job_id}`. */
    method DownloadSrt(id: string) returns (r: Response<string>)
      ensures r == Download(jobs, id)
    {
      if id !in jobs {
        return HttpError(404);
      }
      var job := jobs[id];
      if job.status != Completed {
        return HttpError(400);
      }
      if job.srtContent.None? || job.srtContent.value == "" {
        return HttpError(404);
      }
      r := Ok(job.srtContent.value);
    }

    /** `GET /jobs`: the number of jobs and every record, in insertion order. */
    method ListJobs() returns (total: nat, records: seq<ApiJob>)
      requires Valid()
      ensures total == |jobs| == |records| == |order|
      ensures forall i :: 0 <= i < |order| ==> records[i] == jobs[order[i]]
      ensures forall id :: id in jobs <==> exists i :: 0 <= i < |records| && records[i].jobId == id
    {
      var js, ids := jobs, order;
      total := |js|;
      records := seq(|ids|, i requires 0 <= i < |ids| && ids[i] in js => js[ids[i]]);
      DistinctCount(ids, js.Keys);
      forall id | id in jobs
        ensures exists i :: 0 <= i < |records| && records[i].jobId == id
      {
        var i := IndexOf(ids, id);
        assert records[i].jobId == id;
      }
    }

    /** `DELETE /jobs/{job_id}`. */
    method DeleteJob(id: string) returns (r: Response<string>)
      requires Valid()
      modifies this
      ensures Valid()
      ensures r.HttpError? <==> id !in old(jobs)
      ensures r.HttpError? ==> r.code == 404 && jobs == old(jobs) && order == old(order)
      ensures r.Ok? ==> (r.value == "Job " + id + " deleted successfully"
                         && jobs == old(jobs) - {id} && order == Without(old(order), id))
    {
      if id !in jobs {
        return HttpError(404);
      }
      WithoutDistinct(order, id);
      var rest := Without(order, id);
      forall i | 0 <= i < |rest| ensures rest[i] in jobs - {id} {
        assert rest[i] in rest;
      }
      jobs := jobs - {id};
      order := rest;
      r := Ok("Job " + id + " deleted successfully");
    }
  }

  // ---------------------------------------------------------------------------
  // Properties

  /** The checks made before any record exists, in the order they are made. */
  predicate Admitted(filename: string, apiKey: bool, size: Option<nat>) {
    filename != "" && ApiAllowedFile(filename) && apiKey && size.Some? && size.value <= MaxContentLength
  }

  /** The request is rejected, with no record created, exactly when a check before the
      upload fails; an oversized file that passed the earlier checks is answered 413. */
  lemma RejectedExactly(filename: string, apiKey: bool, size: Option<nat>, uploaded: bool, submitted: bool, probe: nat -> Probe)
    ensures var run := TranscribeRun(filename, apiKey, size, uploaded, submitted, probe);
      && (run.Rejected? <==> !Admitted(filename, apiKey, size))
      && (run == Rejected(413) <==> filename != "" && ApiAllowedFile(filename) && apiKey && size.Some? && size.value > MaxContentLength)
  {
  }

  /** A job finishes exactly when validation passes, the upload and the request succeed and
      the polling returns a transcript, and then it holds that transcript. */
  lemma FinishedExactly(filename: string, apiKey: bool, size: Option<nat>, uploaded: bool, submitted: bool, probe: nat -> Probe)
    ensures var run := TranscribeRun(filename, apiKey, size, uploaded, submitted, probe);
      && (run.Finished? <==> Admitted(filename, apiKey, size) && uploaded && submitted && PollFrom(probe, MaxWait, 0, 0).outcome.Transcript?)
      && (run.Finished? ==> PollFrom(probe, MaxWait, 0, 0).outcome == Transcript(run.srt))
  {
  }

  /** A failed job keeps the status it had reached: "uploading" when the upload failed,
      "transcribing" after; never "error". A timeout is answered 408, other failures 500. */
  lemma StoppedStatus(filename: string, apiKey: bool, size: Option<nat>, uploaded: bool, submitted: bool, probe: nat -> Probe)
    ensures var run := TranscribeRun(filename, apiKey, size, uploaded, submitted, probe);
      run.Stopped? ==>
        && run.status != Error
        && (run.status == Uploading <==> !uploaded)
        && (run.code == 408 <==> uploaded && submitted && PollFrom(probe, MaxWait, 0, 0).outcome == TimedOut)
  {
  }

  /** Whatever the run, the record it leaves is well formed: the table invariant is kept. */
  lemma RecordWellFormed(jobId: string, filename: string, createdAt: string, run: Run)
    requires !run.Rejected? && (run.Stopped? ==> run.status in {Uploading, Transcribing})
    ensures WellFormed(jobId, Record(jobId, filename, createdAt, run))
  {
  }

  /** After a finished run the transcript can be downloaded, unless it is empty. */
  lemma FinishedThenDownload(jobs: map<string, ApiJob>, jobId: string, filename: string, createdAt: string, srt: string)
    ensures var after := Stored(jobs, jobId, filename, createdAt, Finished(srt));
      Download(after, jobId) == if srt == "" then HttpError(404) else Ok(srt)
  {
  }

  /** Only a completed job with a non-empty transcript can be downloaded, and the
      download is exactly that transcript. */
  lemma DownloadExactly(jobs: map<string, ApiJob>, id: string, s: string)
    ensures Download(jobs, id) == Ok(s) <==>
      id in jobs && jobs[id].status == Completed && jobs[id].srtContent == Some(s) && s != ""
  {
  }

  /** After a delete both the status and the download of that id are 404, and every other
      id answers as before. */
  lemma DeleteThenNotFound(jobs: map<string, ApiJob>, id: string, other: string)
    requires other != id
    ensures Lookup(jobs - {id}, id) == HttpError(404) && Download(jobs - {id}, id) == HttpError(404)
    ensures Lookup(jobs - {id}, other) == Lookup(jobs, other)
    ensures Download(jobs - {id}, other) == Download(jobs, other)
  {
  }

  /** End to end: "clip.mp4", the first probe finds the transcript still processing and the
      second finds it completed, with the SRT request answering 200. */
  lemma SecondProbeCompletes(probe: nat -> Probe, body: string)
    requires probe(0) == Probe(3, Status("processing", [], SrtRaised))
    requires probe(1) == Probe(2, Status("completed", [], SrtReply(200, body)))
    ensures TranscribeRun("clip.mp4", true, Some(1000), true, true, probe) == Finished(body)
  {
    var f := "clip.mp4";
    assert f[5..] == "mp4";
    AllowedFileExactly(f, ApiExtensions, 4);
    assert Lower("mp4") == "mp4";
    assert ClockAfter(probe, 1) == 8;
    assert Retried(probe, MaxWait, 0);
    FirstCompletedWins(probe, MaxWait, 1, body);
  }

  lemma Overwrite(m: map<string, ApiJob>, k: string, a: ApiJob, b: ApiJob)
    ensures m[k := a][k := b] == m[k := b]
  {
  }

  lemma {:induction false} WithoutDistinct(s: seq<string>, x: string)
    requires Distinct(s)
    ensures Distinct(Without(s, x))
  {
    if s != [] {
      var t := s[..|s| - 1];
      assert Distinct(t);
      WithoutDistinct(t, x);
      assert s[|s| - 1] !in t;
    }
  }

  /** A repetition-free list of ids has as many entries as the set it enumerates. */
  lemma {:induction false} DistinctCount(s: seq<string>, keys: set<string>)
    requires Distinct(s)
    requires forall i :: 0 <= i < |s| ==> s[i] in keys
    requires forall k :: k in keys ==> k in s
    ensures |s| == |keys|
  {
    if s != [] {
      var t, x := s[..|s| - 1], s[|s| - 1];
      assert x !in t;
      forall k | k in keys - {x} ensures k in t {
        assert k in s;
        var i :| 0 <= i < |s| && s[i] == k;
        assert i < |s| - 1;
      }
      DistinctCount(t, keys - {x});
    }
  }

  lemma IndexOf(s: seq<string>, x: string) returns (i: nat)
    requires x in s
    ensures i < |s| && s[i] == x
  {
    i :| 0 <= i < |s| && s[i] == x;
  }
}
