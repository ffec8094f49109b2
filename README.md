# Automating Subtitles With AI: a verified model of the job core

The repository has two services.

- A serverless transcription API, `api/index.py`. It accepts an audio or video upload and has AssemblyAI transcribe it. The SRT transcript is kept in an in-memory job registry, where clients can read, download and delete it.
- A subtitle-burning service, `script.py`. It accepts a video and starts one worker per job. The worker extracts the audio, has the audio transcribed, and asks a Llama model (through Groq) to turn the transcript into English SRT. It then burns the subtitles into the video. Every step is reported through a status table.

This project models the deterministic core of both services in Dafny and proves properties of it:

- the SRT serialiser;
- the upload filters;
- the retry and polling loops;
- the two job tables and the state machine the worker drives through them.

Every provider and tool call, and building the Groq client, is an input of the model: it either succeeds with a value or raises. A collaborator called once (the audio upload, the transcription request, ffmpeg, building the Groq client) is a plain succeeds-or-raises input. A call that is retried (the completion calls and the API's transcript probes) is an oracle `k -> outcome`. The SRT poll of script.py, which has no bound, is a finite sequence of poll answers. Some file-system calls are instead assumed to succeed; "## Left out" lists them.

Files (each is one module):

- `wrappers.dfy`: `Option`; `Response`, which is a value or an HTTP error status code; and `Outcome`, which says whether a collaborator call succeeds or raises.
- `text.dfy`: decimal digits and zero-padding (`f"{n:02d}"`), `str.lower`, `str.strip` and `rsplit('.', 1)`.
- `file_types.dfy`: `allowed_file` of both services.
- `srt.dfy`: `format_time_srt` and `convert_to_srt`. The loop is proved against the function `SrtOf`, which cuts the words into cues of ten.
- `completion.dfy`: both `get_llama_response` loops.
  - In api/index.py: 2 attempts, with a 2 s pause between them.
  - In script.py: 3 streamed attempts, a `2**attempt` back-off, and an accumulator that is never reset.
- `polling.dfy`: two loops.
  - `get_transcription_result`: a logical clock, 5 s pauses, a `max_wait` budget and a 30 s no-retry margin.
  - The SRT poll of script.py, which has no budget.
- `api_jobs.dfy`: `processing_jobs` of api/index.py, as the class `JobTable`. It covers `transcribe_file`, status, download, list and delete.
- `video_jobs.dfy`: `processing_status` of script.py, as the class `StatusTable`, whose map holds one `JobRecord` object per job.
  - Record creation in `upload_video`.
  - The worker: `transcribe_video_to_srt`, `embed_subtitles_into_video` and `process_video_async`.
  - The gated reads.

Each stateful method is proved against a specification function of its inputs: `TranscribeRun`, `PollFrom`, `SrtWait`, `StreamReply`, `ProcessRun` and so on. The lemmas are then stated about those functions.

## Model

| member | source | states |
|---|---|---|
| Text.Digits | api/index.py:210 | the decimal form of a number is a non-empty string of digits |
| Text.ParseDigitsOfDigits | api/index.py:210 | reading the decimal form back gives the number (so cue numbers are written faithfully) |
| Text.DigitsLength | api/index.py:226 | a number has at most `w` digits exactly when it is below 10^w |
| Text.PadNumberValue | api/index.py:226 | `f"{n:0wd}"` is all digits, at least `w` long, and reads back as `n` |
| Text.PadNumberWidth | api/index.py:226 | below 10^w the padded number is exactly `w` characters |
| Text.LowerChar | api/index.py:74 | one character of `str.lower`: no ASCII capital remains, a capital becomes the same letter in lower case, the Kelvin sign (U+212A) becomes 'k', only capitals and the Kelvin sign change, and a character becomes '.' exactly when it is '.' |
| Text.Lower | api/index.py:74 | the model of `str.lower` keeps the length, leaves no ASCII capital, and keeps every '.' where it was |
| Text.LowerIdempotent | api/index.py:74 | lower-casing twice is lower-casing once |
| Text.LastDotLower | api/index.py:74 | lower-casing a name does not move its last '.' |
| FileTypes.AllowedFileIgnoresCase | api/index.py:72-74 | for every name and extension set, the name and its lower-cased form are accepted or refused alike |
| Text.LeadingSpace | api/index.py:212 | counts the leading whitespace, stopping at the first non-space |
| Text.StripEnds | api/index.py:212 | `strip()` gives "" exactly for all-whitespace input, and otherwise a string that starts and ends with a non-space |
| Text.StripSlice | api/index.py:212 | `strip()` is the slice of the input between its leading and its trailing whitespace |
| Text.LastDot | api/index.py:74 | finds the last '.', and finds none exactly when there is none |
| Text.LastDotUnique | api/index.py:74 | a '.' with no later '.' is the one `rsplit('.', 1)` splits at |
| FileTypes.AllowedFileExactly | api/index.py:72-74 | a name whose last '.' is at `i` is accepted iff its lower-cased extension is in the set |
| FileTypes.NoDotRefused | api/index.py:74 | a name without '.' is refused |
| FileTypes.VideoAllowedIsApiAllowed | script.py:24 | every name the video service accepts, the API accepts |
| FileTypes.AudioOnlyForApi | script.py:42-43 | a name passes the API's filter but not the video service's exactly when its lower-cased last extension is "mp3" or "wav" |
| FileTypes.ExtensionCaseIgnored | script.py:43 | the extension test ignores case: "Clip.MP4" is accepted, and so is "clip.m\u212Av", whose Kelvin sign lower-cases to 'k' |
| FileTypes.LastExtensionAccepted | script.py:43 | only the text after the last '.' counts ("a.tar.mkv" is accepted) |
| FileTypes.LastExtensionRefused | api/index.py:74 | an earlier ".mp4" does not help ("a.mp4.txt" is refused) |
| Srt.SplitFields | api/index.py:222-225 | minutes < 60, seconds < 60, ms < 1000, hours·3600+minutes·60+seconds is the whole seconds, and the fields add back up to the time |
| Srt.SplitUnique | api/index.py:222-225 | no other in-range clock reading denotes the same time |
| Srt.FormatTimeFields | api/index.py:226 | the stamp is hours (at least 2 digits) ':' MM ':' SS ',' mmm |
| Srt.ParseTimeParts | api/index.py:226 | a stamp assembled from digit fields of those widths reads back as those fields |
| Srt.StampLayout | api/index.py:226 | where the separators and fields of a stamp sit, counted from its end |
| Srt.FormatTimeRoundTrip | api/index.py:220-226 | the time stamp reads back as the same number of milliseconds |
| Srt.FormatTimeInjective | api/index.py:220-226 | different times give different stamps |
| Srt.FormatTimeFixedWidth | api/index.py:226 | below 100 hours the stamp is exactly 12 characters |
| Srt.CueCountBound | api/index.py:204 | cue k exists exactly when word 10k does |
| Srt.CueCountCeiling | api/index.py:204 | n words give ceil(n/10) cues |
| Srt.CuesLength | api/index.py:197-216 | the cue list has ceil(n/10) entries |
| Srt.CueAt | api/index.py:197-216 | cue k is numbered first+k and holds words 10k .. min(10k+10, n)−1 |
| Srt.SrtOfEmpty | api/index.py:189-190 | no words give "" |
| Srt.SrtOfCues | api/index.py:193-216 | cue k is numbered k+1, starts at the start of its first word, ends at the end of its last word (default start+1 s), and carries its words' texts, each followed by a space |
| Srt.ChunkEnds | api/index.py:204-205 | the first and last words of chunk k are words 10k and min(10k+10, n)−1 |
| Srt.AppendCue | api/index.py:210-212 | appending one `index\nSTART --> END\ntext\n\n` block extends the document by that cue |
| Srt.AddWord | api/index.py:197-216 | one loop turn keeps the loop invariant: cues written so far, the open cue's text and start time |
| Srt.ConvertToSrt | api/index.py:187-218 | the loop's result is exactly `SrtOf(words)` |
| Completion.GetLlamaResponse | api/index.py:76-98 | raises, with no call made, when building the client raises; otherwise makes 1 or 2 calls, 2 exactly when the first raised, with one 2 s pause before the second, and returns the content of the first call that did not raise (None if both raised) |
| Completion.Backoff | script.py:70-71 | n failed calls before the last give exactly n pauses, the k-th of 2^k seconds (1, 2, 4, ...) |
| Completion.FirstCompleted | script.py:50-67 | the first call whose stream completes: every earlier call raised |
| Completion.AppendChunks | script.py:64-66 | the inner loop appends every chunk's content, with "" for a None chunk |
| Completion.GetStreamedResponse | script.py:45-72 | raises, with no call made, when building the client raises; otherwise the reply, the number of calls and the pauses are those of `StreamReply`, `StreamCalls` and `Backoff` |
| Completion.StreamRetryBounds | script.py:47-71 | at most 3 calls; the pauses are 1 s then 2 s, and none follows the last call |
| Completion.StreamReplyNone | script.py:50-72 | None exactly when all three streams raised |
| Completion.FailedChunksKept | script.py:49-67 | the text a failed stream delivered stays in front of the final reply |
| Completion.AccumulatedPrefix | script.py:49-67 | the accumulator only grows: earlier text is a prefix of later text |
| Completion.StreamedSkipsEmpty | script.py:65 | a chunk without content adds nothing |
| Completion.FirstCompletedFrom | script.py:50-67 | when calls 0..k−1 raised, the first completed call is searched from k |
| Polling.GetTranscriptionResult | api/index.py:145-185 | the loop's result, clock and probe count are those of `PollFrom` |
| Polling.RetriedPrefix | api/index.py:150-183 | probes that are pending, or failed early enough to be retried, only move the clock by their time plus 5 s |
| Polling.FirstCompletedWins | api/index.py:161-172 | the first probe within the budget that finds the transcript completed decides the result |
| Polling.FallbackToWords | api/index.py:168-172 | a 200 SRT answer gives its body; any other code gives `convert_to_srt(words)` |
| Polling.ErrorStatusRetried | api/index.py:174-183 | the provider's "error" status is retried 5 s later when it is not late in the budget |
| Polling.PollEndBounds | api/index.py:180-185 | a timeout only once `max_wait` has passed; a polling failure only after `max_wait − 30` |
| Polling.NeverCompletesTimesOut | api/index.py:150-185 | a transcript that stays pending ends in a timeout |
| Polling.NoBudgetNoProbe | api/index.py:150 | with no budget, nothing is probed and the result is a timeout |
| Polling.WaitForSrt | script.py:126-131 | the poll loop's outcome and its number of pauses are those of `SrtWait`, and every pause is 10 s |
| Polling.FirstSettledDecides | script.py:126-131 | the first poll that raises or answers 200 decides the outcome, after one pause per earlier poll |
| Polling.StillWaitingExactly | script.py:128-131 | the loop is still waiting exactly when no poll answered 200 or raised, after one pause per poll |
| ApiJobs.JobTable.constructor | api/index.py:38 | the registry starts empty |
| ApiJobs.JobTable.TranscribeFile | api/index.py:254-331 | the answer and the new table are `Answer` and `Stored` of `TranscribeRun`; a record is created only after validation, and the table invariant is kept |
| ApiJobs.JobTable.Insert | api/index.py:285-292 | a new id is stored with its record and goes to the end of the insertion order |
| ApiJobs.JobTable.Update | api/index.py:297-314 | `.update` on an existing id replaces its record and keeps the order |
| ApiJobs.JobTable.GetJobStatus | api/index.py:333-339 | the stored record, or 404 exactly when the id is unknown |
| ApiJobs.JobTable.DownloadSrt | api/index.py:341-359 | the answer is `Download`: 404 for an unknown id, 400 for a job that is not completed, 404 for an empty transcript, and the transcript otherwise |
| ApiJobs.JobTable.ListJobs | api/index.py:394-400 | `total_jobs` is the number of jobs, and the records are every stored record, in insertion order |
| ApiJobs.JobTable.DeleteJob | api/index.py:402-409 | 404 exactly when the id is absent, with nothing changed; otherwise exactly that key is removed |
| ApiJobs.RejectedExactly | api/index.py:261-282 | rejected, with no record, iff a check before the upload fails; 413 iff only the size check fails |
| ApiJobs.FinishedExactly | api/index.py:261-314 | finished iff every check, the upload, the request and the polling succeed, and then the job holds the polled transcript |
| ApiJobs.StoppedStatus | api/index.py:295-331 | a failed job keeps "uploading" or "transcribing", never "error"; 408 exactly on a polling timeout |
| ApiJobs.RecordWellFormed | api/index.py:285-314 | every record a run leaves is well formed |
| ApiJobs.FinishedThenDownload | api/index.py:309-353 | after a finished run, the download is the transcript, or 404 when the transcript is empty |
| ApiJobs.DownloadExactly | api/index.py:341-359 | a download returns `s` iff the job is completed with non-empty transcript `s` |
| ApiJobs.DeleteThenNotFound | api/index.py:336-409 | after a delete, status and download of that id are 404, and other ids answer as before |
| ApiJobs.SecondProbeCompletes | api/index.py:254-320 | an end-to-end run in which the second probe completes |
| VideoJobs.JobRecord.constructor | script.py:261-266 | a new record is "queued" with the upload message and no files |
| VideoJobs.JobRecord.SetStatus | script.py:79-80 | one status write and its message, appended to the job's trace |
| VideoJobs.JobRecord.SetMessage | script.py:123-129 | a message write leaves the status and files alone |
| VideoJobs.JobRecord.SaveSrt | script.py:138-140 | writing processed/<id>.srt |
| VideoJobs.JobRecord.Finish | script.py:193-205 | after `write_videofile` the video exists and the job is completed |
| VideoJobs.JobRecord.RequestTranscription | script.py:78-119 | the writes and last message are those of `RequestRun`: extracting_audio, uploading, transcribing, or "error" at the first failure, including a response without an id |
| VideoJobs.JobRecord.AwaitTranscript | script.py:123-153 | the SRT poll and the translation, as `AwaitRun`: a raising poll or client ends in "error" and False |
| VideoJobs.JobRecord.Translate | script.py:133-153 | "translating" is written; when building the client raises, "error" follows, no file is written and the stage fails; otherwise the SRT file holds the model's reply when that is non-empty |
| VideoJobs.JobRecord.TranscribeVideoToSrt | script.py:74-153 | the return value, status, message, trace and SRT file are those of `TranscribeRun`, including False after "translating" when `get_llama_response` raises; no video exists |
| VideoJobs.JobRecord.EmbedSubtitles | script.py:155-212 | the return value, status, message, trace and video are those of `EmbedRun` |
| VideoJobs.JobRecord.ProcessVideo | script.py:214-227 | the worker's effect on the record is `ProcessRun`: embedding only after transcription returned True |
| VideoJobs.StatusTable.constructor | script.py:40 | the table starts empty |
| VideoJobs.StatusTable.UploadVideo | script.py:241-279 | a record is created iff a video part exists with a non-empty, allowed name; otherwise 400 and the map is unchanged |
| VideoJobs.StatusTable.ProcessVideo | script.py:214-227 | the worker changes only its own job's record, as `ProcessRun` says, and the table invariant is kept |
| VideoJobs.StatusTable.GetStatus | script.py:281-286 | the job's record, or 404 |
| VideoJobs.StatusTable.DownloadVideo | script.py:288-301 | 404 for an unknown id, otherwise `VideoAnswer`: 400 unless completed, 404 without the output file |
| VideoJobs.StatusTable.DownloadSrt | script.py:303-316 | 404 for an unknown id, otherwise `SrtAnswer`: 400 outside completed, embedding and rendering, 404 without the file |
| VideoJobs.StatusTable.ListJobs | script.py:318-321 | every record, by id |
| VideoJobs.TraceShape | script.py:74-227 | a job's statuses are a prefix of queued … completed, possibly followed by one "error" that ends them |
| VideoJobs.CompletedExactly | script.py:214-227 | completed iff every stage succeeds, a poll answers 200, the client is built and the model's reply is non-empty; the video exists iff completed |
| VideoJobs.NoIdStopsEarly | script.py:116-119 | a response without "id" ends the job with "error" before any later stage |
| VideoJobs.FalsyReplyFailsAtEmbedding | script.py:138-163 | an empty or missing reply still returns True, writes no SRT, and embedding then fails on the missing file |
| VideoJobs.ClientFailureStopsTranscription | script.py:133-153 | a Groq client that cannot be built (script.py:48) ends the job with "error" right after "translating", with no SRT file and no embedding |
| VideoJobs.PromptCarriesTranscript | script.py:126-140 | the text of the first 200 poll is what the model receives; the SRT file holds exactly its non-empty reply when the client is built |
| VideoJobs.PollingNeverSettles | script.py:128-131 | while no poll answers 200, the job stays "transcribing" with the waiting message |
| VideoJobs.RunConsistent | script.py:74-227 | every run leaves a record that satisfies the table invariant |
| VideoJobs.DownloadGates | script.py:288-316 | the SRT can be downloaded iff embedding, rendering or completed with the file; the video iff completed with the file |
| VideoJobs.ConsistentDownloads | script.py:293-316 | for a consistent record, the "file not found" answers are never given |
| VideoJobs.HappyPath | script.py:74-227 | an end-to-end run that writes every stage and produces the video |

## Left out

- Provider and tool calls are inputs, not modelled. This covers the HTTP requests, the Groq client's construction and its completion calls, ffmpeg, pydub and moviepy. Each one succeeds or raises.
- Threading and asyncio are not modelled; one worker runs to its end after the upload. The dictionary writes have no locking, and no atomicity is claimed.
- Sleeps are not taken. The retry loops report their pauses. The API poll uses a logical clock in whole seconds, advanced by each probe's duration plus 5 s.
- `format_time_srt` receives integer milliseconds, not float seconds, so float `%` and truncation artefacts are not modelled. The default end, start + 1, becomes start + 1000 ms.
- The word dictionaries' JSON values are typed. `Word` has an optional text, start and end; a non-string text or a negative time is not representable.
- `str.lower` is modelled for ASCII and the Kelvin sign only; other Unicode case mappings, including those that change the length ("İ" becomes two characters), are not modelled.
- `secure_filename` is treated as the identity. So a name it reduces to one without a '.' ("数据.mp4" or ".mp4" becomes "mp4") is modelled as an accepted upload with a record, where `rsplit('.', 1)[1]` raises and Flask answers 500 without a record. Saving the upload is assumed to succeed.
- The upload's bytes are represented by their length.
- `uuid.uuid4` becomes a job-id parameter that is not yet in the table.
- `datetime.now().isoformat()` becomes an opaque string parameter.
- The prompt text is not modelled. The model's streams are an oracle keyed by the SRT text that the prompt carries.
- The exception text is not modelled. The "Error during …" messages, and the missing-id message with the response appended, are represented by their fixed prefix.
- Writing the SRT file, removing the temporary audio files, and closing clips are assumed to succeed. "SRT file exists" and "output video exists" are fields of the job's record.
- `VideoJobs.JobRecord.AwaitTranscript` models the SRT poll's repeated "in progress" message writes as one write, because the writes are identical.
- The SRT poll of script.py has no time budget. The model sees a finite sequence of polls; when none settles, the job is `StillPolling`.
- The outer `except` of `process_video_async` is not modelled. Both stage functions catch every exception, so it is reached only when building the two file paths fails.
- The reading of the upload in `transcribe_file` appears as `size = None`. The generic handler then finds no record to mark and answers 500.
- `/translate-srt`, `/`, `/hello`, `/health` and the Flask 413 and 500 handlers are not modelled.
- The CORS, pydantic and routing glue is not modelled.
- `MAX_CONTENT_LENGTH` of script.py (500 MB) is enforced by Flask when `upload_video` first reads `request.files`. That read answers 413 before any record exists, so the limit is not part of `upload_video`'s model.

Four behaviours of the code are easy to miss, and the model follows the code in each:

- A failed `transcribe_file` job keeps "uploading" or "transcribing". Every collaborator failure is an HTTPException, which is re-raised without touching the record, so the record never holds "error".
- In `get_transcription_result`, the provider's "error" status is not final. Its HTTPException is caught by the loop's generic handler and retried, like any other failure.
- The SRT poll of script.py has no wall-clock budget.
- When the model's reply is empty, transcription still returns True. The job then fails in the embedding stage, on the missing SRT file.
