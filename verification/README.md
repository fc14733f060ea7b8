# Client-side video assembly of ShortVideo, in Dafny

This project models the three pieces of the web client that assemble videos and cache
episodes, and proves what they do.

- **`VideoMerger`** (`web/src/utils/videoMerger.ts`). It loads the ffmpeg.wasm engine from
  four CDNs in order. It stages every clip into the engine's virtual file system, trimming a
  clip whose window is not the whole source. It then merges the clips in one of two ways:
  a stream-copy concat driven by a `concat.txt` manifest, or a re-encoding `filter_complex`
  graph that chains `xfade`/`acrossfade` transitions. Finally it reads `output.mp4` back and
  deletes its working files.
- **The helper module** (`web/src/utils/ffmpeg.ts`). A single-flight loader (`getFFmpeg`,
  `unloadFFmpeg`, `isFFmpegLoaded`) keeps two module variables. Three pipelines use it:
  `trimVideo`, `mergeVideos` and `trimAndMergeVideos`.
- **The episode cache store** (`web/src/stores/episode.ts`). It keeps a map from episode id to
  a cache entry. `getCacheByEpisodeId` creates entries. `fetchEpisode` is a throttled fetch
  that parses the id and looks the episode up in its drama. The store also has `clearCache`
  and the character filter behind `del`.

How the model is built:

- The engine is a map from typed file names (`Files.FileName`) to symbolic contents
  (`Engine.Content`: a download, a cut of a time window, a concatenation, a rendering through
  a filter graph).
- Every engine call a pipeline awaits is one step of a trace (`Engine.Step`). `Engine.Run`
  interprets the trace. It stops at the first step that rejects, because the source has no
  `try`/`finally` around its engine calls.
- Downloads and command exit codes are parameters (`Engine.Env`).
- The engine is ffmpeg.wasm 0.12:
  - `writeFile` always succeeds.
  - `readFile` and `deleteFile` reject on a missing name.
  - `exec` resolves with an exit code and never rejects, and the code never checks that exit
    code. So a failing command is noticed only when its output file is read and is not there.
  - The concat demuxer opens the first listed file up front and each later one when it gets
    there (`Engine.PresentPrefix`). A missing first file, or an empty manifest, produces
    nothing. A missing later file ends the join at that file.
- `Files.Render` gives the literal names. `Files.ParseRender` proves that no two files of any
  pipeline share a name.
- In the store, `Date.now()`, `dramaAPI.get` and `parseInt` are parameters.

Behaviours of the code a reader might not expect:

- A failing trim or concat does not abort a pipeline at the command. It surfaces at the later
  read of the missing output (`Helpers.TrimFailureSurfacesAtRead`, `Helpers.FailedCutRejects`).
- In `trimAndMergeVideos`, a failed cut of a later clip does not stop the concatenation. The
  join ends at the missing cut, `final.mp4` holds the cuts before it, and it is read back.
  The call then rejects while deleting the missing cut (`Helpers.FailedCutTruncates`).
- Clip 0's transition counts when choosing between concat and the filter graph
  (`Merger.FirstTransitionChoosesGraph`). It is never read when building the graph
  (`Merger.FirstTransitionIgnored`).
- Nothing is cleaned up when a step fails. Files already written stay in the engine
  (`Merger.MergeVideosAsWrittenFails`, `Helpers.FailedCutRejects`).
- The transition merge always deletes `concat.txt`, which only the concat path writes, so it
  never succeeds (`Merger.MergeVideosAsWritten`, `Merger.GraphMergeRejectsAsWritten`).

## Model

| member | source | states |
|---|---|---|
| `Loader.Reply` | web/src/utils/ffmpeg.ts:24-31 | `getFFmpeg` answers with the cached instance when there is one. Otherwise it answers with the existing promise: a pending load is waited on, a fulfilled one gives the engine, and a rejected one gives its rejection. With neither, it waits on a new load. |
| `Loader.SettleAsWritten` | web/src/utils/ffmpeg.ts:33-48 | As written, a pending load that fulfils makes every call get the engine. One that rejects makes every later call get that rejection. Settling with no pending load changes nothing. Loads started are unchanged, and the invariant of `Valid` is kept. |
| `Loader.SettleCorrected` | web/src/utils/ffmpeg.ts:33-48 | With the corrected settling, a fulfilled load caches the engine. A rejected one leaves nothing cached and no promise, so the next call waits on a new load. Settling with no pending load changes nothing, and `Valid` is kept. |
| `Loader.Next` | web/src/utils/ffmpeg.ts:24-51 | A call starts a load exactly when neither an instance nor a promise exists, and otherwise changes nothing. Unloading clears both variables only when an instance exists. Only calls start loads. |
| `Loader.NextKeepsValid` | web/src/utils/ffmpeg.ts:41-47 | Every event keeps "an instance is cached exactly when the load promise fulfilled". |
| `Loader.ReplayKeepsValid` | web/src/utils/ffmpeg.ts:24-51 | The same invariant holds after any sequence of calls, settlements and unloads. |
| `Loader.StartsBounded` | web/src/utils/ffmpeg.ts:29-33 | Along any event sequence, the loads started grow by at most the number of unloads. |
| `Loader.AtMostOneLoadPerReset` | web/src/utils/ffmpeg.ts:29-33 | From the initial state, at most one load is started, plus one per unload. |
| `Loader.GetsShareOneLoad` | web/src/utils/ffmpeg.ts:29-33 | Any number of calls from the idle state start exactly one load, and they all wait on it. |
| `Loader.GetsIdle` | web/src/utils/ffmpeg.ts:25-31 | Once a promise exists, further calls change nothing. |
| `Loader.UnloadThenReload` | web/src/utils/ffmpeg.ts:208-217 | Unloading a loaded engine makes `isFFmpegLoaded` false and clears the promise. The next call starts a fresh load. |
| `Loader.RejectionIsPermanent` | web/src/utils/ffmpeg.ts:29-31 | Once the load has rejected, no sequence of calls, settlements or unloads changes the state, and every call gets that same rejection. |
| `Loader.FirstFailureSticks` | web/src/utils/ffmpeg.ts:212-217 | Call, failed load, unload, call: still one load started, and the second call gets the first rejection. |
| `Loader.RetryAfterFailure` | web/src/utils/ffmpeg.ts:33-48 | With the corrected settling, a failed load followed by a call starts a new load. |
| `Loader.StartsBoundedCorrected` | web/src/utils/ffmpeg.ts:24-51 | With the corrected settling, loads started are bounded by unloads plus failed loads. |
| `Merger.TryFrom` | web/src/utils/videoMerger.ts:67-114 | The CDN loop tries CDNs in list order. It succeeds exactly when some attempt loads, and it stops at the first one. Before that, every attempt failed. When all fail, it throws the failure text built from the last attempt's message. |
| `Merger.TryFromSteps` | web/src/utils/videoMerger.ts:71-109 | The notices the loop emits do not depend on the failure messages. |
| `Merger.LoopStepsRise` | web/src/utils/videoMerger.ts:71-109 | Every loop notice is in the loading phase. All are below 50 except the final "loaded" notice at 100, and they never decrease. A "trying a backup" notice names only a CDN that has a successor. |
| `Merger.LoopStepsLoadedLast` | web/src/utils/videoMerger.ts:89-98 | The "loaded" notice appears exactly when some attempt loads, and it is the last notice. |
| `Merger.FirstLoadNotices` | web/src/utils/videoMerger.ts:39-43 | A first load opens with the 0% notice, then the loop's notices. All are in the loading phase and non-decreasing. |
| `Merger.Initialize` | web/src/utils/videoMerger.ts:34-115 | Nothing happens when the engine is already loaded. Otherwise the merger ends loaded exactly when some CDN in the list loads. The notices are the first-load notice followed by the CDN loop's notices. When no CDN loads, the error thrown is the failure text built from the last CDN's message. |
| `Merger.Terminate` | web/src/utils/videoMerger.ts:320-325 | Afterwards the engine is not loaded. An unloaded merger is unchanged. A loaded one loses its engine and the files in it. |
| `Merger.TrimCommand` | web/src/utils/videoMerger.ts:170-176 | Clip i is cut from `input{i}.mp4` into `clip{i}.mp4`. The cut starts at `startTime` and has length `endTime - startTime`. |
| `Merger.StageTrimsIff` | web/src/utils/videoMerger.ts:153-182 | Clip i's download is always written first. It is cut, and `input{i}.mp4` deleted, exactly when `startTime > 0` or `endTime < duration`. Its working file is then `clip{i}.mp4`, and otherwise `input{i}.mp4`. |
| `Merger.HeadDownloadsFirst` | web/src/utils/videoMerger.ts:126-150 | Before the merge, the clips are downloaded in clip order, right after the two opening notices and before any file operation. No other step downloads. |
| `Merger.HeadQuiet` | web/src/utils/videoMerger.ts:126-189 | Nothing before the merge reads a file back, and nothing there writes or deletes `concat.txt`. |
| `Merger.WorkingFilesDistinct` | web/src/utils/videoMerger.ts:156-157 | No two clips share a working file. |
| `Merger.WorkingMap` | web/src/utils/videoMerger.ts:152-183 | After staging, each clip's working file holds its download, cut to its window when trimmed, and no other working name exists. |
| `Merger.StageRuns` | web/src/utils/videoMerger.ts:153-182 | Staging one clip adds exactly its working file with its content. |
| `Merger.StagingRuns` | web/src/utils/videoMerger.ts:152-183 | The staging loop adds exactly the working files of all clips. |
| `Merger.HeadRuns` | web/src/utils/videoMerger.ts:126-189 | When every download and trim succeeds, everything before the merge completes and adds exactly the working files. |
| `Merger.HeadFailsAtDownload` | web/src/utils/videoMerger.ts:139-143 | The first failing download stops the merge before anything is written. |
| `Merger.DownloadFailureWritesNothing` | web/src/utils/videoMerger.ts:139-143 | Such a merge rejects and leaves the engine's files as they were, on both paths. |
| `Merger.FirstTransitionChoosesGraph` | web/src/utils/videoMerger.ts:192-194 | A transition on clip 0 alone sends two clips down the filter-graph path. |
| `Merger.FirstTransitionIgnored` | web/src/utils/videoMerger.ts:266-269 | Changing clip 0's transition does not change the graph. |
| `Merger.ConcatStepsRun` | web/src/utils/videoMerger.ts:196-212 | The concat path writes a manifest listing the working files in order. The result is their contents joined in that order. |
| `Merger.GraphStepsRun` | web/src/utils/videoMerger.ts:286-298 | The graph path renders the working files, in order, through the graph with the fixed codecs. |
| `Merger.FinishRuns` | web/src/utils/videoMerger.ts:224-245 | Cleanup reads `output.mp4` back and deletes every listed file. |
| `Merger.FinishShape` | web/src/utils/videoMerger.ts:224-245 | Cleanup reads `output.mp4` back once, never writes `concat.txt`, and deletes it exactly when it is among the extra names. |
| `Merger.PlanAsWritten` | web/src/utils/videoMerger.ts:126-247 | The merge as written always deletes `concat.txt`. It writes `concat.txt` exactly when it takes the concat path, and it reads one file back. |
| `Merger.Plan` | web/src/utils/videoMerger.ts:126-247 | The corrected merge is the source's merge on the concat path. It deletes `concat.txt` exactly when it wrote it, and it reads one file back. |
| `Merger.ConcatMergeSucceeds` | web/src/utils/videoMerger.ts:194-247 | When everything succeeds on the concat path, the blob is the working files joined in clip order. Every file the merge wrote is deleted again. |
| `Merger.GraphMergeSucceeds` | web/src/utils/videoMerger.ts:213-247 | With the corrected cleanup, the transition path delivers the rendering and leaves the file system as it found it. |
| `Merger.GraphPathSucceeds` | web/src/utils/videoMerger.ts:213-247 | The same holds through any graph the engine renders. |
| `Merger.FinishRejects` | web/src/utils/videoMerger.ts:235-239 | Cleanup that lists an absent `concat.txt` rejects at it after deleting the working files. |
| `Merger.GraphPathRejects` | web/src/utils/videoMerger.ts:235-239 | On the transition path as written, the blob was read, then deleting `concat.txt` rejects and `output.mp4` is left behind. |
| `Merger.GraphMergeRejectsAsWritten` | web/src/utils/videoMerger.ts:235-239 | The as-written merge with transitions rejects on `concat.txt`, which was never written, and leaves `output.mp4` behind. |
| `Merger.AsWrittenStopStep` | web/src/utils/videoMerger.ts:238 | The step the as-written transition path stops at is the deletion of `concat.txt`. |
| `Merger.MergeWith` | web/src/utils/videoMerger.ts:117-124 | The load is `initialize`'s, and a failed load rejects with its error. An empty clip list is rejected with "no clips" once the engine is loaded, also when it already was. The trace runs exactly when clips are given and the engine is loaded. It is the merge trace run on the merger's own files, the merger keeps the files it leaves, and the call succeeds exactly when the trace completes, with one blob. Without a run, the merger is the one `initialize` left. |
| `Merger.MergeVideosAsWritten` | web/src/utils/videoMerger.ts:117-247 | As written, a merge that takes the transition path on an engine without `concat.txt` always rejects. |
| `Merger.MergeVideosCorrected` | web/src/utils/videoMerger.ts:117-247 | The corrected merge loads exactly as the source does, and on the concat path it is the source's merge. |
| `Merger.EmptyRejectedAfterLoad` | web/src/utils/videoMerger.ts:118-124 | Whenever some CDN loads, an empty list still goes through the whole load, with all its notices ending in "loaded". It is then rejected with "no clips", with the merger loaded and no trace run. |
| `Merger.EmptyRejectedAfterFirstCdn` | web/src/utils/videoMerger.ts:118-124 | When the first CDN loads, the notices are exactly "loading", "trying CDN 1 of 4" and "loaded", and then the list is rejected. |
| `Merger.EmptyUnloadable` | web/src/utils/videoMerger.ts:113-124 | When every CDN times out, an empty list is rejected with the load failure, not with "no clips". |
| `Merger.MergeVideosDelivers` | web/src/utils/videoMerger.ts:117-248 | A loaded merger that succeeds returns the concat or the corrected rendering, and keeps its file system. |
| `Merger.MergeVideosAsWrittenFails` | web/src/utils/videoMerger.ts:213-239 | As written, every successful transition merge rejects at cleanup and leaves `output.mp4` in the engine. |
| `Merger.TrimPercentRises` | web/src/utils/videoMerger.ts:166 | The "trimming clip i" percentage lies in 30..50 and never decreases with i. |
| `Merger.StagingInOrder` | web/src/utils/videoMerger.ts:152-183 | The merge's own staging notices stay in the processing phase, between the clip's trim percentage and 50, in order. |
| `Merger.HeadInOrder` | web/src/utils/videoMerger.ts:126-189 | The merge's own notices before the merge step are in the processing phase, from 0 to 50, and move forward. |
| `Merger.PlanInOrder` | web/src/utils/videoMerger.ts:126-245 | Over the merge's own notices, phases never go back, and within a phase the percentage never decreases. |
| `Merger.PlanAsWrittenInOrder` | web/src/utils/videoMerger.ts:126-245 | The same holds for the merge's own notices as written. |
| `Transitions.XfadeEffectRetracts` | web/src/utils/videoMerger.ts:301-317 | A name in the table passes through unchanged, and any other name becomes `fade`. So the filter always gets one of the 11 effect names, and mapping twice changes nothing. |
| `Transitions.NoneBecomesFade` | web/src/utils/videoMerger.ts:316 | `none` is not in the table and becomes `fade`. |
| `Transitions.JoinKind` | web/src/utils/videoMerger.ts:268 | A missing or empty type becomes `fade`, and any other type is kept. |
| `Transitions.JoinDuration` | web/src/utils/videoMerger.ts:269 | A missing or zero duration becomes 1 second, and any other duration is kept. |
| `Transitions.OffsetStep` | web/src/utils/videoMerger.ts:271 | Consecutive offsets differ by the earlier clip's duration, less the later transition, plus the earlier one. |
| `Transitions.OffsetsIncrease` | web/src/utils/videoMerger.ts:271 | Offsets strictly increase when every transition is positive and shorter than the clip it follows. |
| `Transitions.Resets` | web/src/utils/videoMerger.ts:256-260 | There are two stream-reset parts per input. |
| `Transitions.ResetsAt` | web/src/utils/videoMerger.ts:256-260 | Input j's parts reset `[j:v]` into `v{j}` and `[j:a]` into `a{j}`, in input order. |
| `Transitions.GraphShape` | web/src/utils/videoMerger.ts:256-290 | For N clips, the graph has 2N reset parts, then per join j an `xfade` and an `acrossfade`. Each reads the running label and `v{j}`/`a{j}` and writes `v{j}out`/`a{j}out`, with the mapped effect, the join's duration and its offset. The mapped outputs are the last running labels. |
| `Transitions.GraphIsLinear` | web/src/utils/videoMerger.ts:256-290 | Every label the graph produces is consumed exactly once or mapped to the output, and nothing else is consumed. |
| `Transitions.WrittenJoinsAt` | web/src/utils/videoMerger.ts:271-275 | In the source's graph, join j's `xfade` starts at the summed durations before clip j less the join's own transition. |
| `Transitions.TimelineOffsetClosedForm` | web/src/utils/videoMerger.ts:271 | The running stream after i clips is their working lengths less every overlap so far. So the corrected offset of join i subtracts all transitions up to and including its own. |
| `Transitions.CorrectedJoinsEndWithStream` | web/src/utils/videoMerger.ts:271-275 | In the corrected graph, every `xfade` window ends exactly where the stream it extends ends. |
| `Transitions.SingleJoinAgrees` | web/src/utils/videoMerger.ts:271 | For one join after an untrimmed clip, the source's offset is the corrected one. |
| `Transitions.LaterJoinOverruns` | web/src/utils/videoMerger.ts:271 | Three 5-second clips: the source starts the second transition at 9 s, on a 9-second stream. The corrected offset is 8 s. |
| `Transitions.TrimmedJoinOverruns` | web/src/utils/videoMerger.ts:271 | A clip trimmed to 2..8 s of a 10-second source lasts 6 s, yet the next transition starts at 9 s. The corrected offset is 5 s. |
| `Files.ParseRender` | web/src/utils/videoMerger.ts:156-157 | Every engine file name reads back as the file it names, so no two files of any pipeline collide. |
| `Files.RenderInjective` | web/src/utils/ffmpeg.ts:158-159 | Distinct files have distinct names. |
| `Decimal.ParseRendered` | web/src/utils/videoMerger.ts:156 | The decimal index in a file name reads back as the index. |
| `Manifest.Lines` | web/src/utils/videoMerger.ts:196 | The manifest has one `file '<name>'` line per file, in order. |
| `Manifest.ManifestRoundTrip` | web/src/utils/videoMerger.ts:196-197 | The concat demuxer reads the manifest back as exactly the listed files, in order. |
| `Manifest.EmptyUnreadable` | web/src/utils/ffmpeg.ts:114-125 | An empty manifest lists no file, so the concat demuxer has nothing to open. |
| `Strings.JoinSplit` | web/src/stores/episode.ts:194 | Joining the pieces of `split('-')` gives back the id. |
| `Strings.SplitJoin` | web/src/stores/episode.ts:194 | Splitting undoes joining for separator-free pieces. |
| `Engine.Apply` | web/src/utils/videoMerger.ts:160-179 | A download rejects only when it fails, and a read or delete only when the name is absent. A write or a command never rejects. A command changes at most its output file. |
| `Engine.Run` | web/src/utils/videoMerger.ts:117-248 | A trace completes exactly when no step rejects. |
| `Engine.RunStopsAtRejection` | web/src/utils/videoMerger.ts:231-239 | A trace stops at the first step that rejects, and nothing after it runs. |
| `Engine.ConcatJoinsListed` | web/src/utils/videoMerger.ts:205-212 | Concatenating a manifest of present files yields their contents joined in list order. |
| `Engine.PresentPrefix` | web/src/utils/videoMerger.ts:205-212 | The files the concat demuxer reaches are the longest run of present files at the head of the manifest. The next listed file, if any, is missing. |
| `Engine.Produce` | web/src/utils/videoMerger.ts:170-176 | A cut produces output exactly when its input exists, and a rendering exactly when all its inputs exist. A concatenation that produces output had its manifest and joins at least one file. |
| `Engine.ConcatStopsAtMissing` | web/src/utils/ffmpeg.ts:185-191 | When the first k listed files are present and file k is missing, the concatenation joins just the first k. |
| `Engine.ConcatNeedsFirst` | web/src/utils/ffmpeg.ts:119-125 | An empty manifest, or one whose first file is missing, produces nothing. |
| `Engine.CleanRunReads` | web/src/utils/videoMerger.ts:231 | A trace that completes delivers one blob per read step, in order. |
| `Engine.CleanRunFetches` | web/src/utils/videoMerger.ts:139-143 | In a trace that completes, every download it contains succeeded. |
| `Engine.DeleteOfUncreatedRejects` | web/src/utils/videoMerger.ts:238 | Deleting a name that was absent and that no step of the trace creates makes the trace reject. |
| `Engine.DeletesRemove` | web/src/utils/videoMerger.ts:235-237 | Deleting distinct present files removes exactly them. |
| `Engine.DeletesRejectAbsent` | web/src/utils/videoMerger.ts:235-239 | Deleting a list rejects at its first absent name. |
| `Helpers.Perform` | web/src/utils/ffmpeg.ts:58 | A rejected `getFFmpeg` rejects the call before any step. Otherwise the call succeeds exactly when every step completes. |
| `Helpers.TrimOutcome` | web/src/utils/ffmpeg.ts:53-90 | A rejected engine load rejects `trimVideo` before any step. A call that resolves returns one blob. When `input.mp4` and `output.mp4` are free, the call resolves exactly when the download and the cut succeed, and then returns the cut with the file system unchanged. |
| `Helpers.TrimDownloadRejects` | web/src/utils/ffmpeg.ts:65 | A failed download rejects `trimVideo` before anything is written. |
| `Helpers.TrimCutRuns` | web/src/utils/ffmpeg.ts:58-78 | `trimVideo` downloads into `input.mp4` and cuts `-ss start -to end` into `output.mp4`. A failing cut writes nothing. |
| `Helpers.TrimReadRuns` | web/src/utils/ffmpeg.ts:80-87 | It reads `output.mp4` and deletes both files. |
| `Helpers.TrimDelivers` | web/src/utils/ffmpeg.ts:53-90 | A successful trim returns the source's window from start to end, and leaves the engine's files as it found them. |
| `Helpers.TrimFailureSurfacesAtRead` | web/src/utils/ffmpeg.ts:78-82 | A failing cut is noticed only at the read. The call rejects there and `input.mp4` is left behind. |
| `Helpers.TrimProgress` | web/src/utils/ffmpeg.ts:60-87 | `trimVideo`'s reports never decrease, stay within 0..100 and end at 100. |
| `Helpers.StagedMap` | web/src/utils/ffmpeg.ts:102-107 | After its loop, each `clip_{i}.mp4` holds clip i's download, and no other staged name exists. |
| `Helpers.FetchesRun` | web/src/utils/ffmpeg.ts:102-112 | The download loop adds exactly the staged files. |
| `Helpers.MergeIgnoresWindows` | web/src/utils/ffmpeg.ts:102-107 | `mergeVideos` never reads a clip's start or end time. |
| `Helpers.CollectRuns` | web/src/utils/ffmpeg.ts:114-129 | The manifest lists the staged files in order. The concatenation joins their contents in that order and is read back. |
| `Helpers.CollectRejects` | web/src/utils/ffmpeg.ts:114-129 | With no clips, a missing first file or a failing concat, nothing is produced. The read of the output rejects and the manifest is left behind. |
| `Helpers.CollectTruncates` | web/src/utils/ffmpeg.ts:181-195 | When the first k listed files are present and file k is missing, a concat that exits cleanly writes the first k joined, and the read returns that truncated join. |
| `Helpers.CleanupRuns` | web/src/utils/ffmpeg.ts:131-137 | Cleanup deletes every listed file, the manifest and the output, then reports 100. |
| `Helpers.MergeFrontRuns` | web/src/utils/ffmpeg.ts:96-129 | Everything up to the read leaves the staged files, the manifest and the joined output. |
| `Helpers.MergeCleanupRestores` | web/src/utils/ffmpeg.ts:131-137 | On success, cleanup leaves no staged file, manifest or output. |
| `Helpers.MergeDelivers` | web/src/utils/ffmpeg.ts:92-140 | A successful `mergeVideos` returns the downloads joined in clip order and leaves the file system as it found it. |
| `Helpers.MergeOutcome` | web/src/utils/ffmpeg.ts:92-140 | A rejected engine load rejects `mergeVideos` before any step, and a call that resolves returns one blob. |
| `Helpers.EmptyMergeRejects` | web/src/utils/ffmpeg.ts:114-129 | With no clips, `mergeVideos` rejects at the read and leaves `filelist.txt` behind. |
| `Helpers.LoopTickRises` | web/src/utils/ffmpeg.ts:109-111 | The report after clip i lies strictly above the one before it and at most at 5 plus the loop's span. |
| `Helpers.FetchesTicks` | web/src/utils/ffmpeg.ts:109-111 | The download loop's reports increase and stay within 5..45. |
| `Helpers.MergeProgress` | web/src/utils/ffmpeg.ts:98-137 | `mergeVideos` reports never decrease, stay within 0..100 and end at 100. |
| `Helpers.TrimmedMap` | web/src/utils/ffmpeg.ts:156-178 | After its loop, `trimmed_{i}.mp4` exists exactly when clip i's cut succeeded, and then holds that cut. |
| `Helpers.TrimStepRuns` | web/src/utils/ffmpeg.ts:157-177 | Every clip is cut, whatever its window, and `input_{i}.mp4` is deleted right after. |
| `Helpers.TrimLoopRuns` | web/src/utils/ffmpeg.ts:156-178 | The loop leaves exactly the successful cuts. |
| `Helpers.TrimMergeFrontRuns` | web/src/utils/ffmpeg.ts:150-195 | Everything up to the read leaves the cuts, the manifest and `final.mp4` joining them. |
| `Helpers.TrimMergeCleanupRestores` | web/src/utils/ffmpeg.ts:197-203 | On success, cleanup leaves no cut, manifest or `final.mp4`. |
| `Helpers.TrimMergeDelivers` | web/src/utils/ffmpeg.ts:142-206 | A successful `trimAndMergeVideos` returns the cuts joined in clip order and leaves the file system as it found it. |
| `Helpers.FailedCutRejects` | web/src/utils/ffmpeg.ts:163-195 | When the first failing cut is clip 0's, or the concatenation fails, the call rejects at reading `final.mp4`. The successful cuts and the manifest are left behind. |
| `Helpers.FailedCutTruncates` | web/src/utils/ffmpeg.ts:156-201 | When a later clip's cut is the first to fail and the concatenation exits cleanly, `final.mp4` holds the earlier cuts joined and is read back. Cleanup then rejects at deleting the missing cut. The earlier cuts are gone, and the manifest, `final.mp4` and the later cuts are left behind. |
| `Helpers.TrimMergeOutcome` | web/src/utils/ffmpeg.ts:142-206 | A rejected engine load rejects `trimAndMergeVideos` before any step. A call that resolves returns one blob. When no name it uses is taken, it resolves only if every download and every cut succeeded. |
| `Helpers.ResolvedCutsOk` | web/src/utils/ffmpeg.ts:156-201 | On a clean file system, a `trimAndMergeVideos` call that resolves had every download and every cut succeed. |
| `Helpers.TrimLoopTicks` | web/src/utils/ffmpeg.ts:175-177 | The trim loop's reports increase and stay within 5..65. |
| `Helpers.TrimMergeProgress` | web/src/utils/ffmpeg.ts:152-203 | `trimAndMergeVideos` reports never decrease, stay within 0..100 and end at 100. |
| `EpisodeStore.DramaId` | web/src/stores/episode.ts:194-195 | The drama id is the id up to its first `-`, or the whole id when there is none. |
| `EpisodeStore.WantOf` | web/src/stores/episode.ts:196 | With a `-` in the id, the episode is looked up by `parseInt` of the segment between the first `-` and the next one. Without one, it is looked up by the whole id. |
| `EpisodeStore.SecondSegment` | web/src/stores/episode.ts:196 | The number parsed is the segment between the first and second `-`. |
| `EpisodeStore.Find` | web/src/stores/episode.ts:200-205 | The lookup returns the first matching episode, and returns none exactly when no episode matches. |
| `EpisodeStore.FindFirst` | web/src/stores/episode.ts:202-204 | Any episode that matches with no earlier match is the one found. |
| `EpisodeStore.Resolve` | web/src/stores/episode.ts:194-205 | The request fails exactly when the drama request throws, and then carries its message. Otherwise the episode is found exactly when the drama has an episode that matches the id. The one found is the first match. |
| `EpisodeStore.Begin` | web/src/stores/episode.ts:190-191 | A fetch that goes ahead marks the entry loading and clears its error, keeping its data and clock. |
| `EpisodeStore.Settle` | web/src/stores/episode.ts:207-218 | The entry always ends not loading. On found, the data is replaced and `lastFetch` set to the start time. On not found, the error is the not-found message. On failure, the error is the thrown message, or the default when it is empty. |
| `EpisodeStore.Fetch` | web/src/stores/episode.ts:181-219 | Only the fetched entry changes. An unknown id or a throttled non-forced fetch changes nothing. Otherwise the entry begins and settles. |
| `EpisodeStore.FetchSettles` | web/src/stores/episode.ts:207-218 | After a fetch that went ahead, the entry is not loading. It has an error exactly when the episode was not obtained, and its data changes only when it was. |
| `EpisodeStore.ForcedFetchProceeds` | web/src/stores/episode.ts:186-188 | A forced fetch of a known id always goes ahead. |
| `EpisodeStore.ThrottleWindow` | web/src/stores/episode.ts:186-188 | After a success at time t (t not 0), a non-forced fetch before t + 3000 does nothing. At or after it, the fetch goes ahead. |
| `EpisodeStore.MissKeepsClock` | web/src/stores/episode.ts:209-212 | A fetch that does not find the episode leaves the throttle exactly as it was. |
| `EpisodeStore.GetCache` | web/src/stores/episode.ts:54-65 | An unknown id gets a blank entry and starts a fetch. A known id's entry is returned unchanged. No other entry changes. |
| `EpisodeStore.Complete` | web/src/stores/episode.ts:207-218 | The started fetch settles on its entry, and only there. |
| `EpisodeStore.GetThenCompleteIsFetch` | web/src/stores/episode.ts:55-62 | Creating an entry and completing its fetch equals a fetch of a blank entry. |
| `EpisodeStore.GetCacheIdempotent` | web/src/stores/episode.ts:55-65 | Asking twice creates and fetches at most once. |
| `EpisodeStore.ClearCache` | web/src/stores/episode.ts:221-227 | Clearing one id removes only that entry. No id, or an empty one, empties the map. Nothing is changed or added. |
| `EpisodeStore.ClearThenGetStartsOver` | web/src/stores/episode.ts:221-227 | After clearing an id, asking for it creates a blank entry and fetches again. |
| `EpisodeStore.ClearCacheIdempotent` | web/src/stores/episode.ts:221-227 | Clearing twice is clearing once. |
| `EpisodeStore.Without` | web/src/stores/episode.ts:96 | Filtering never lengthens the list. |
| `EpisodeStore.WithoutMembers` | web/src/stores/episode.ts:96 | A character survives exactly when it was there and its id is not the deleted one. |
| `EpisodeStore.WithoutAppend` | web/src/stores/episode.ts:96 | Filtering keeps the order: it distributes over concatenation. |
| `EpisodeStore.WithoutIdempotent` | web/src/stores/episode.ts:96 | Deleting the same id twice is deleting it once. |
| `EpisodeStore.WithoutCount` | web/src/stores/episode.ts:96 | Exactly the characters with the deleted id are dropped. |
| `EpisodeStore.DelRequest` | web/src/stores/episode.ts:94-104 | Only a character deletion saves. It saves the episode's characters (none if missing) filtered by the deleted id, keeping their order and multiplicity, for the episode's drama and id. Exactly the characters with that id are dropped. |
| `EpisodeStore.Del` | web/src/stores/episode.ts:91-105 | After a successful save, a forced refetch settles the deleted-from entry, and every other entry is unchanged. A rejected save, or another kind, leaves the cache unchanged. No entry is added or removed. |

## Left out

- The engine itself, `fetchFile`, `toBlobURL` and `Blob`. Downloads and command exit codes
  are parameters (`Engine.Env`); contents are symbolic.
- Merger.TryFrom: the outcome of attempt i is a parameter indexed by CDN position. The URL
  fetches, the 60-second `Promise.race` timer and `setTimeout` are not modelled. A timeout is
  one of the outcomes.
- The engine's `log` and `progress` listeners in `initialize`. They print, or report a
  rounded engine-side percentage that the model has no counterpart for. The progress
  listener's `encoding` reports (videoMerger.ts:57-63) arrive during every trim `exec`
  (videoMerger.ts:170) and every merge `exec`, in the middle of the `processing` notices.
- StagingInOrder, HeadInOrder, PlanInOrder, PlanAsWrittenInOrder: they order the merge's own
  notices only. The listener's `encoding` reports interleave with them during staging, so the
  phases a caller of `mergeVideos` sees can go back from `encoding` to `processing`.
- XfadeEffect, XfadeEffectRetracts: the lookup `xfadeTypes[type]` is modelled as a lookup
  among the table's own names. In JavaScript, inherited keys such as `constructor`,
  `toString` or `__proto__` also give a truthy value, so the source would pass a non-effect
  value to `xfade`. The model maps those names to `fade`.
- Engine.Produce: a concatenation that reaches a missing later file is modelled as ending the
  join there, with the exit code still a parameter. The exact bytes ffmpeg writes in that case
  are not modelled. Helpers.FailedCutTruncates and Helpers.CollectTruncates rest on this.
- The number-to-string formatting of times inside argument strings. Commands are typed
  descriptors holding `real`s.
- Concurrency:
  - Overlapping `initialize` calls.
  - A `getFFmpeg` load interleaved with unloads, beyond the event sequences of `Loader`.
  - Overlapping fetches of one episode: `Fetch` runs a fetch to completion in one step, and
    `GetCache` with `Complete` split only the creating call.
- HeadFailsAtDownload, DownloadFailureWritesNothing: the downloads run concurrently under
  `Promise.all` (videoMerger.ts:139-143), which rejects with the failure that comes first in
  time. The model has no clock and reports the failing URL of lowest index. The file system
  is left unchanged either way. The order in which downloads complete is not modelled.
- Loader.Next: `instance` is a flag. The identity of the engine object, and a caller still
  holding an engine after `unloadFFmpeg`, are not modelled.
- EpisodeStore.Fetch: an entry removed by `clearCache` while its fetch is in flight is not
  modelled. The source would keep writing into the detached object.
- The episode operations that only call the network and refetch: `set`, `saveScript`,
  `extractData`, `generateImages`, `generateStoryboards`. `refresh` is a forced `Fetch`.
- `parseInt`: an abstract `string -> Option<int>`, with None standing for NaN.
- Vue reactivity and the getter object `getCacheByEpisodeId` returns.
- The drama and episode types are reduced to the fields the store reads.
  `web/src/types/drama.ts` is not part of this model.
- The `scene` and `storyboard` kinds of `del` do nothing in the source. The model has them do
  nothing too.

## Findings

| source | as written | input that shows it | evidently intended | confidence | as-written member | corrected member |
|---|---|---|---|---|---|---|
| web/src/utils/videoMerger.ts:238 | cleanup always deletes `concat.txt`, which only the concat path writes | two clips where the second has a `fade` transition, and every step succeeds | delete `concat.txt` only on the path that wrote it, so the transition merge succeeds | high; not executed | `Merger.GraphMergeRejectsAsWritten` | `Merger.GraphMergeSucceeds` |
| web/src/utils/videoMerger.ts:271 | join i's offset subtracts only join i's own transition, not the overlaps of earlier joins | three untrimmed 5-second clips with default transitions: offset 9 on a 9-second stream | start each transition its duration before the end of the running stream (8 s) | medium; not executed | `Transitions.LaterJoinOverruns` | `Transitions.CorrectedJoinsEndWithStream` |
| web/src/utils/videoMerger.ts:271 | offsets sum the source `duration`, even for clips trimmed to a shorter window | clip 2..8 s of a 10-second source followed by a 1-second slide: offset 9 after a 6-second clip | sum the trimmed lengths (offset 5) | medium; not executed | `Transitions.TrimmedJoinOverruns` | `Transitions.TimelineOffsetClosedForm` |
| web/src/utils/ffmpeg.ts:29-31 | a rejected load stays in `loadPromise`, and `unloadFFmpeg` does not clear it, so the engine can never load again | `getFFmpeg` while offline, then `unloadFFmpeg`, then `getFFmpeg` when back online | clear `loadPromise` when the load rejects, so the next call retries | high; not executed | `Loader.RejectionIsPermanent` | `Loader.RetryAfterFailure` |
