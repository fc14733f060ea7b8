/** The video merger (`VideoMerger`): loading the engine from a list of CDNs, and merging a
    clip list into one video either by stream-copy concatenation or through the transition
    filter graph. A merge is a trace of engine steps run by `Engine.Run`. */
module Merger {
  import opened Wrappers
  import opened Files
  import Manifest
  import opened Engine
  import opened Transitions

  /** The merger's state: whether the engine is loaded, and the engine's file system. */
  datatype Merger = Merger(loaded: bool, fs: Fs)

  const Fresh := Merger(false, map[])

  // ---------------------------------------------------------------------------------------
  // Loading

  /** The engine core's base URLs, tried in this order. */
  const CdnList: seq<string> := [
    "https://unpkg.zhimg.com/@ffmpeg/core@0.12.6/dist/esm",
    "https://npm.elemecdn.com/@ffmpeg/core@0.12.6/dist/esm",
    "https://cdn.jsdelivr.net/npm/@ffmpeg/core@0.12.6/dist/esm",
    "https://unpkg.com/@ffmpeg/core@0.12.6/dist/esm"]

  /** The number of base URLs tried, `|CdnList|`. The loop below takes `attempt(i)`, how the
      attempt at `CdnList[i]` ends, rather than the URL itself. */
  const Cdns: nat := 4

  /** How one load attempt from one base URL ends: the engine loads, some step throws (the
      message may be empty), or the 60-second race timer fires first. */
  datatype Attempt = Loaded | Threw(message: string) | TimedOut

  const TimeoutMessage := "加载超时"

  function AttemptMessage(a: Attempt): (m: string)
    requires !a.Loaded?
    ensures a.TimedOut? ==> m == TimeoutMessage
  {
    if a.TimedOut? then TimeoutMessage else a.message
  }

  /** The error `initialize` throws once every CDN has failed; an empty last message reads as
      "unknown error". */
  function FailureMessage(last: string): string {
    "FFmpeg加载失败: " + (if last == "" then "未知错误" else last) + "。请检查网络连接或稍后重试。"
  }

  /** A load: whether it succeeded, how many CDNs were tried, the progress notices, and the
      error thrown when none succeeded. */
  datatype Load = Load(loaded: bool, tried: nat, notices: seq<Step>, error: Option<string>)

  function Percent(s: Step): real {
    match s
    case Notice(_, p, _) => p
    case Tick(p) => p
    case _ => 0.0
  }

  /** The progress a step reports never decreases along a sequence of steps. */
  predicate Rising(steps: seq<Step>) {
    forall k :: 0 < k < |steps| ==> Percent(steps[k - 1]) <= Percent(steps[k])
  }

  predicate LoadingNotices(steps: seq<Step>) {
    forall k :: 0 <= k < |steps| ==> steps[k].Notice? && steps[k].phase == Loading
  }

  /** The loop of `initialize` from CDN `i` on, with `lastError` the message of the last
      failure so far. */
  function TryFrom(attempt: nat -> Attempt, i: nat, lastError: string): (r: Load)
    requires i <= Cdns
    ensures i <= r.tried <= Cdns
    ensures r.loaded <==> exists k :: i <= k < Cdns && attempt(k).Loaded?
    ensures forall k :: i <= k < r.tried - 1 ==> !attempt(k).Loaded?
    ensures r.loaded ==> r.tried > i && attempt(r.tried - 1).Loaded? && r.error.None?
    ensures !r.loaded ==> r.tried == Cdns && r.error.Some?
    ensures !r.loaded && i < Cdns ==> r.error == Some(FailureMessage(AttemptMessage(attempt(Cdns - 1))))
    ensures !r.loaded && i == Cdns ==> r.error == Some(FailureMessage(lastError))
    decreases Cdns - i
  {
    if i == Cdns then Load(false, i, [], Some(FailureMessage(lastError)))
    else
      var trying := Notice(Loading, (i as real / 4.0) * 50.0, TryingCdn(i + 1, 4));
      var a := attempt(i);
      if a.Loaded? then Load(true, i + 1, [trying, Notice(Loading, 100.0, EngineLoaded)], None)
      else
        var failed := if i < Cdns - 1 then [Notice(Loading, ((i + 1) as real / 4.0) * 50.0, CdnFailed(i + 1))] else [];
        var rest := TryFrom(attempt, i + 1, AttemptMessage(a));
        Load(rest.loaded, rest.tried, [trying] + failed + rest.notices, rest.error)
  }

  /** A loop notice from CDN `i` on: in the loading phase; the final "loaded" notice at 100,
      every other one between i/4 of the first half and half way; a failure notice names a CDN
      after the i-th that has a successor. */
  predicate LoopNotice(n: Step, i: nat) {
    && n.Notice? && n.phase == Loading
    && (n.message == EngineLoaded ==> n.percent == 100.0)
    && (n.message != EngineLoaded ==> (i as real / 4.0) * 50.0 <= n.percent < 50.0)
    && (n.message.CdnFailed? ==> i < n.message.number < Cdns)
  }

  /** The notices of one failed attempt, before those of the rest of the loop. */
  function FailedNotices(i: nat): seq<Step> {
    if i < Cdns - 1 then [Notice(Loading, ((i + 1) as real / 4.0) * 50.0, CdnFailed(i + 1))] else []
  }

  /** The notices the loop emits from CDN `i` on; they do not depend on the failure messages. */
  function LoopSteps(attempt: nat -> Attempt, i: nat): seq<Step>
    requires i <= Cdns
    decreases Cdns - i
  {
    if i == Cdns then []
    else if attempt(i).Loaded? then [TryingNotice(i), Notice(Loading, 100.0, EngineLoaded)]
    else [TryingNotice(i)] + FailedNotices(i) + LoopSteps(attempt, i + 1)
  }

  lemma {:induction false} TryFromSteps(attempt: nat -> Attempt, i: nat, lastError: string)
    requires i <= Cdns
    ensures TryFrom(attempt, i, lastError).notices == LoopSteps(attempt, i)
    decreases Cdns - i
  {
    if i < Cdns && !attempt(i).Loaded? {
      TryFromSteps(attempt, i + 1, AttemptMessage(attempt(i)));
    }
  }

  predicate LoopNotices(s: seq<Step>, i: nat) {
    forall k :: 0 <= k < |s| ==> LoopNotice(s[k], i)
  }

  /** A notice that fits from CDN i+1 on fits from CDN i on. */
  lemma LoopNoticesWeaken(s: seq<Step>, i: nat)
    requires LoopNotices(s, i + 1)
    ensures LoopNotices(s, i)
  {
    DivMonotone(i as real, (i + 1) as real, 4.0);
    forall k | 0 <= k < |s|
      ensures LoopNotice(s[k], i)
    {
      assert LoopNotice(s[k], i + 1);
    }
  }

  lemma LoopNoticesConcat(a: seq<Step>, b: seq<Step>, i: nat)
    requires LoopNotices(a, i) && LoopNotices(b, i)
    ensures LoopNotices(a + b, i)
  {
    forall k | 0 <= k < |a + b|
      ensures LoopNotice((a + b)[k], i)
    {
      if k >= |a| {
        assert (a + b)[k] == b[k - |a|];
      }
    }
  }

  /** The notices of the first loop iteration at CDN i (not the last), before the notices of
      the rest of the loop. */
  function TryingNotice(i: nat): Step {
    Notice(Loading, (i as real / 4.0) * 50.0, TryingCdn(i + 1, 4))
  }

  /** The loop notices of the rest of the loop still fit and rise once one failed attempt's
      notices go in front. */
  lemma FailedAttemptNotices(rest: seq<Step>, i: nat)
    requires i < Cdns
    requires LoopNotices(rest, i + 1) && Rising(rest)
    requires i + 1 < Cdns ==> |rest| > 0 && rest[0] == TryingNotice(i + 1)
    ensures var ns := [TryingNotice(i)] + FailedNotices(i) + rest;
      LoopNotices(ns, i) && Rising(ns)
  {
    LoopNoticesWeaken(rest, i);
    DivMonotone(i as real, (i + 1) as real, 4.0);
    var tail := FailedNotices(i) + rest;
    assert LoopNotices(FailedNotices(i), i);
    LoopNoticesConcat(FailedNotices(i), rest, i);
    assert LoopNotices([TryingNotice(i)], i);
    LoopNoticesConcat([TryingNotice(i)], tail, i);
    RisingCons(FailedNotices(i), rest);
    RisingCons([TryingNotice(i)], tail);
    assert [TryingNotice(i)] + tail == [TryingNotice(i)] + FailedNotices(i) + rest;
  }

  /** The notices of the loop: each is a loop notice, and progress never falls. */
  lemma {:induction false} LoopStepsRise(attempt: nat -> Attempt, i: nat)
    requires i <= Cdns
    ensures var ns := LoopSteps(attempt, i);
      && LoopNotices(ns, i)
      && Rising(ns)
      && (i < Cdns ==> |ns| > 0 && ns[0] == TryingNotice(i))
    decreases Cdns - i
  {
    if i < Cdns && !attempt(i).Loaded? {
      LoopStepsRise(attempt, i + 1);
      FailedAttemptNotices(LoopSteps(attempt, i + 1), i);
    }
  }

  /** Prefixing notices keeps progress rising when they are rising and do not exceed the
      first notice after them. */
  lemma RisingCons(front: seq<Step>, s: seq<Step>)
    requires |front| <= 1 && Rising(s)
    requires |front| == 1 && |s| > 0 ==> Percent(front[0]) <= Percent(s[0])
    ensures Rising(front + s)
  {
    var t := front + s;
    forall k | 0 < k < |t|
      ensures Percent(t[k - 1]) <= Percent(t[k])
    {
      if k > |front| {
        assert t[k - 1] == s[k - 1 - |front|];
      }
    }
  }

  predicate LoadedNotice(n: Step) {
    n.Notice? && n.message == EngineLoaded
  }

  /** Some CDN from the i-th on loads the engine. */
  predicate SomeLoads(attempt: nat -> Attempt, i: nat) {
    exists k :: i <= k < Cdns && attempt(k).Loaded?
  }

  /** Among `ns`, a "loaded" notice appears exactly as the last one, and only when `loads`. */
  predicate LoadedLast(ns: seq<Step>, loads: bool) {
    forall k :: 0 <= k < |ns| ==> (LoadedNotice(ns[k]) <==> loads && k == |ns| - 1)
  }

  lemma LoadedLastCons(x: Step, ns: seq<Step>, loads: bool)
    requires LoadedLast(ns, loads) && !LoadedNotice(x) && (loads ==> |ns| > 0)
    ensures LoadedLast([x] + ns, loads)
  {
    var t := [x] + ns;
    forall k | 0 <= k < |t|
      ensures LoadedNotice(t[k]) <==> loads && k == |t| - 1
    {
      if k > 0 {
        assert t[k] == ns[k - 1];
      }
    }
  }

  /** The "loaded" notice is the last notice, and present exactly when some CDN loads. */
  lemma {:induction false} LoopStepsLoadedLast(attempt: nat -> Attempt, i: nat)
    requires i <= Cdns
    ensures LoadedLast(LoopSteps(attempt, i), SomeLoads(attempt, i))
    decreases Cdns - i
  {
    var ns := LoopSteps(attempt, i);
    if i < Cdns && attempt(i).Loaded? {
      assert SomeLoads(attempt, i);
    } else if i < Cdns {
      var rest := LoopSteps(attempt, i + 1);
      LoopStepsLoadedLast(attempt, i + 1);
      assert LoadedLast(rest, SomeLoads(attempt, i + 1));
      assert SomeLoads(attempt, i) <==> SomeLoads(attempt, i + 1) by {
        if SomeLoads(attempt, i) {
          var k :| i <= k < Cdns && attempt(k).Loaded?;
          assert k != i;
        }
      }
      var front := [TryingNotice(i)] + FailedNotices(i);
      assert ns == front + rest;
      if SomeLoads(attempt, i + 1) {
        var k :| i + 1 <= k < Cdns && attempt(k).Loaded?;
        assert |rest| > 0;
      }
      forall k | 0 <= k < |ns|
        ensures LoadedNotice(ns[k]) <==> SomeLoads(attempt, i) && k == |ns| - 1
      {
        if k >= |front| {
          assert ns[k] == rest[k - |front|];
          assert LoadedNotice(rest[k - |front|]) <==> SomeLoads(attempt, i + 1) && k - |front| == |rest| - 1;
        } else {
          assert ns[k] == front[k];
          assert !LoadedNotice(front[k]);
          assert SomeLoads(attempt, i) ==> k < |ns| - 1;
        }
      }
    }
  }

  /** The notices of a first load: "loading the engine", then the loop's notices. */
  lemma FirstLoadNotices(attempt: nat -> Attempt)
    ensures var ns := [Notice(Loading, 0.0, LoadingEngine)] + LoopSteps(attempt, 0);
      && |ns| >= 2 && LoadingNotices(ns) && Rising(ns) && LoadedLast(ns, SomeLoads(attempt, 0))
  {
    var first := Notice(Loading, 0.0, LoadingEngine);
    var steps := LoopSteps(attempt, 0);
    LoopStepsRise(attempt, 0);
    LoopStepsLoadedLast(attempt, 0);
    LoadedLastCons(first, steps, SomeLoads(attempt, 0));
    RisingCons([first], steps);
    assert LoopNotices(steps, 0);
    var ns := [first] + steps;
    forall k | 0 <= k < |ns|
      ensures ns[k].Notice? && ns[k].phase == Loading
    {
      if k > 0 {
        assert ns[k] == steps[k - 1] && LoopNotice(steps[k - 1], 0);
      }
    }
  }

  /** `initialize`: nothing when already loaded; otherwise the first-load notice and the CDN
      loop. A failed load leaves the merger unloaded. */
  function Initialize(m: Merger, attempt: nat -> Attempt): (r: (Merger, Load))
    ensures m.loaded ==> r.0 == m && r.1.notices == [] && r.1.error.None?
    ensures !m.loaded ==> r.0.loaded == r.1.loaded && r.1.error.None? == r.1.loaded
    ensures !m.loaded ==> |r.1.notices| >= 2 && r.1.notices[0] == Notice(Loading, 0.0, LoadingEngine)
    ensures LoadingNotices(r.1.notices) && Rising(r.1.notices)
    ensures !m.loaded ==> LoadedLast(r.1.notices, r.0.loaded)
    ensures !m.loaded ==> (r.0.loaded <==> SomeLoads(attempt, 0))
    ensures !m.loaded ==> r.1.notices == [Notice(Loading, 0.0, LoadingEngine)] + LoopSteps(attempt, 0)
    ensures !m.loaded && !SomeLoads(attempt, 0) ==>
      r.1.error == Some(FailureMessage(AttemptMessage(attempt(Cdns - 1))))
    ensures r.0.fs == m.fs
  {
    if m.loaded then (m, Load(true, 0, [], None))
    else
      var l := TryFrom(attempt, 0, "");
      TryFromSteps(attempt, 0, "");
      FirstLoadNotices(attempt);
      (Merger(l.loaded, m.fs), Load(l.loaded, l.tried, [Notice(Loading, 0.0, LoadingEngine)] + l.notices, l.error))
  }

  /** `terminate`: stops a loaded engine (its file system goes with it). */
  function Terminate(m: Merger): (r: Merger)
    ensures !r.loaded
    ensures !m.loaded ==> r == m
    ensures m.loaded ==> r.fs == map[]
  {
    if m.loaded then Merger(false, map[]) else m
  }

  // ---------------------------------------------------------------------------------------
  // Staging the clips

  /** A clip is trimmed exactly when it does not start at 0 or ends before its source does. */
  predicate NeedsTrim(c: VideoClip) {
    c.startTime > 0.0 || c.endTime < c.duration
  }

  /** `-i input{i}.mp4 -ss start -t (end - start) -c copy clip{i}.mp4` */
  function TrimCommand(c: VideoClip, i: nat): (cmd: Command)
    ensures cmd.TrimLength? && cmd.input == Input(i) && cmd.output == Clip(i)
    ensures cmd.start == c.startTime && cmd.start + cmd.length == c.endTime
  {
    TrimLength(Input(i), c.startTime, c.endTime - c.startTime, Clip(i))
  }

  /** The file that stands for clip i in the merge. */
  function WorkingFile(c: VideoClip, i: nat): FileName {
    if NeedsTrim(c) then Clip(i) else Input(i)
  }

  /** `inputFiles`: one working file per clip, in clip order. */
  function WorkingFiles(clips: seq<VideoClip>): (r: seq<FileName>)
    ensures |r| == |clips|
    ensures forall k :: 0 <= k < |clips| ==> r[k] == WorkingFile(clips[k], k)
  {
    seq(|clips|, k requires 0 <= k < |clips| => WorkingFile(clips[k], k))
  }

  /** What clip i's working file holds after staging: the downloaded source, cut to the
      clip's window when it was trimmed. */
  function WorkingContent(c: VideoClip): Content {
    if NeedsTrim(c) then Cut(Bytes(c.url), c.startTime, c.endTime) else Bytes(c.url)
  }

  /** `Math.round` */
  function Round(x: real): real {
    ((x + 0.5).Floor) as real
  }

  /** Clip i's steps: write the download; when trimmed, report, trim and delete the download. */
  function Stage(c: VideoClip, i: nat, n: nat): seq<Step>
    requires i < n
  {
    [Do(Write(Input(i), Bytes(c.url)))] +
    (if NeedsTrim(c)
     then [Notice(Processing, Round(30.0 + (i as real / n as real) * 20.0), TrimmingClip(i + 1, n)),
           Do(Exec(TrimCommand(c, i))),
           Do(Delete(Input(i)))]
     else [])
  }

  /** The staging loop from clip i on. */
  function Staging(clips: seq<VideoClip>, i: nat): seq<Step>
    requires i <= |clips|
    decreases |clips| - i
  {
    if i == |clips| then [] else Stage(clips[i], i, |clips|) + Staging(clips, i + 1)
  }

  /** A step that neither downloads, reads back, nor creates or deletes `concat.txt`. */
  predicate Quiet(s: Step) {
    !s.Download? && !IsRead(s) && !Creates(s, ConcatList) && s != Do(Delete(ConcatList))
  }

  /** Staging only writes, cuts and deletes the clips' own files. */
  lemma {:induction false} StagingQuiet(clips: seq<VideoClip>, i: nat)
    requires i <= |clips|
    ensures forall s :: s in Staging(clips, i) ==> Quiet(s)
    decreases |clips| - i
  {
    if i < |clips| {
      StagingQuiet(clips, i + 1);
    }
  }

  /** The downloads, one per clip in clip order (`Promise.all` keeps the results in order). */
  function Downloads(clips: seq<VideoClip>): (r: seq<Step>)
    ensures |r| == |clips|
    ensures forall k :: 0 <= k < |clips| ==> r[k] == Download(clips[k].url)
  {
    seq(|clips|, k requires 0 <= k < |clips| => Download(clips[k].url))
  }

  /** `clips.some(clip => clip.transition && clip.transition.type !== 'none')`: clip 0 counts. */
  predicate AnyTransition(clips: seq<VideoClip>) {
    exists k :: 0 <= k < |clips| && HasTransition(clips[k])
  }

  /** The stream-copy concat path is taken when no clip has a transition or there is one clip. */
  predicate UsesConcat(clips: seq<VideoClip>) {
    !AnyTransition(clips) || |clips| == 1
  }

  // ---------------------------------------------------------------------------------------
  // The merge trace

  /** Everything up to choosing a path: announcements, downloads, staging. */
  function Head(clips: seq<VideoClip>): seq<Step> {
    [Notice(Processing, 0.0, DownloadingClips), Notice(Processing, 0.0, DownloadingCount(|clips|))]
    + Downloads(clips)
    + [Notice(Processing, 30.0, DownloadsDone)]
    + Staging(clips, 0)
    + [Notice(Processing, 50.0, PreparingMerge)]
  }

  /** Nothing before the merge reads a file back or touches `concat.txt`. */
  lemma HeadQuiet(clips: seq<VideoClip>)
    ensures forall s :: s in Head(clips) ==> !IsRead(s) && !Creates(s, ConcatList) && s != Do(Delete(ConcatList))
    ensures Reads(Head(clips)) == 0
  {
    StagingQuiet(clips, 0);
    NoReadsCount(Head(clips));
  }

  /** `Promise.all` is awaited before staging: the downloads come right after the two
      announcements, in clip order, and no engine call and no other download comes before or
      among them. */
  lemma HeadDownloadsFirst(clips: seq<VideoClip>)
    ensures var h := Head(clips);
      && |h| >= 2 + |clips|
      && (forall k :: 0 <= k < |clips| ==> h[2 + k] == Download(clips[k].url))
      && (forall k :: 0 <= k < |h| ==> (h[k].Download? <==> 2 <= k < 2 + |clips|))
      && (forall k :: 0 <= k < 2 + |clips| ==> !h[k].Do?)
  {
    var n := |clips|;
    var d := Downloads(clips);
    var st := Staging(clips, 0);
    var front := [Notice(Processing, 0.0, DownloadingClips), Notice(Processing, 0.0, DownloadingCount(n))];
    var back := [Notice(Processing, 30.0, DownloadsDone)] + st + [Notice(Processing, 50.0, PreparingMerge)];
    assert Head(clips) == front + d + back;
    StagingQuiet(clips, 0);
    assert forall s :: s in back ==> s in st || !s.Download?;
    DownloadsBetween(front, d, back);
  }

  /** In `front + d + back`, where only `d` downloads and `front` has two steps that are not
      file operations, the downloads sit exactly at indices 2 to 2 + |d|. */
  lemma DownloadsBetween(front: seq<Step>, d: seq<Step>, back: seq<Step>)
    requires |front| == 2 && forall s :: s in front ==> !s.Download? && !s.Do?
    requires forall k :: 0 <= k < |d| ==> d[k].Download?
    requires forall s :: s in back ==> !s.Download?
    ensures var h := front + d + back;
      forall k :: 0 <= k < |h| ==> (h[k].Download? <==> 2 <= k < 2 + |d|) && (k < 2 + |d| ==> !h[k].Do?)
    ensures forall k :: 0 <= k < |d| ==> (front + d + back)[2 + k] == d[k]
  {
    var h := front + d + back;
    forall k | 0 <= k < |h| ensures (h[k].Download? <==> 2 <= k < 2 + |d|) && (k < 2 + |d| ==> !h[k].Do?) {
      if k < 2 {
        assert h[k] == front[k] && front[k] in front;
      } else if k >= 2 + |d| {
        assert h[k] == back[k - 2 - |d|] && back[k - 2 - |d|] in back;
      }
    }
  }

  /** The concat path: write the manifest of the working files, report, concatenate. */
  function ConcatSteps(clips: seq<VideoClip>): seq<Step> {
    [Do(Write(ConcatList, Words(Manifest.Text(WorkingFiles(clips))))),
     Notice(Encoding, 0.0, Merging),
     Do(Exec(ConcatCopy(ConcatList, Output, true)))]
  }

  /** The transition path with a given filter graph. */
  function GraphSteps(clips: seq<VideoClip>, g: Graph): seq<Step> {
    [Notice(Encoding, 0.0, MergingWithTransitions),
     Do(Exec(FilterRender(WorkingFiles(clips), g, GraphCodecs, true, Output)))]
  }

  /** Read the result back, delete the working files and then `extra`, report completion. */
  function Tail(clips: seq<VideoClip>, extra: seq<FileName>): seq<Step> {
    Finish(WorkingFiles(clips), extra)
  }

  /** The cleanup steps for working files `w`. */
  function Finish(w: seq<FileName>, extra: seq<FileName>): seq<Step> {
    [Notice(Completed, 90.0, Finalizing), Do(ReadFile(Output))]
    + Deletes(w)
    + Deletes(extra)
    + [Notice(Completed, 100.0, MergeDone)]
  }

  /** Cleanup reads `output.mp4` back once, creates nothing called `concat.txt`, and deletes
      it exactly when it is among the extra names. */
  lemma FinishShape(w: seq<FileName>, extra: seq<FileName>)
    requires ConcatList !in w
    ensures forall s :: s in Finish(w, extra) ==> !Creates(s, ConcatList)
    ensures Do(Delete(ConcatList)) in Finish(w, extra) <==> ConcatList in extra
    ensures Reads(Finish(w, extra)) == 1
  {
    DeletesMembers(w);
    DeletesMembers(extra);
    FinishReadsOnce(w, extra);
  }

  /** Of the cleanup steps, only the read of `output.mp4` reads. */
  lemma FinishReadsOnce(w: seq<FileName>, extra: seq<FileName>)
    ensures Reads(Finish(w, extra)) == 1
  {
    var front := [Notice(Completed, 90.0, Finalizing), Do(ReadFile(Output))];
    DeletesReadNothing(w);
    DeletesReadNothing(extra);
    assert Reads(front) == 1 by {
      assert front[1..][1..] == [];
    }
    assert Reads([Notice(Completed, 100.0, MergeDone)]) == 0;
    ReadsAppend(front, Deletes(w));
    ReadsAppend(front + Deletes(w), Deletes(extra));
    ReadsAppend(front + Deletes(w) + Deletes(extra), [Notice(Completed, 100.0, MergeDone)]);
  }

  /** The merge as written: the transition path uses the source's offsets, and cleanup always
      deletes `concat.txt`, even on the transition path that never wrote it. */
  function PlanAsWritten(clips: seq<VideoClip>): (r: seq<Step>)
    ensures Do(Delete(ConcatList)) in r
    ensures (exists s :: s in r && Creates(s, ConcatList)) <==> UsesConcat(clips)
    ensures Reads(r) == 1
  {
    var mid := if UsesConcat(clips) then ConcatSteps(clips) else GraphSteps(clips, BuildGraph(clips, |clips|));
    PlanPieces(clips, mid, [ConcatList, Output]);
    Head(clips) + mid + Tail(clips, [ConcatList, Output])
  }

  /** The merge as evidently intended: timeline offsets, and `concat.txt` deleted only on the
      path that wrote it. */
  function Plan(clips: seq<VideoClip>): (r: seq<Step>)
    ensures UsesConcat(clips) ==> r == PlanAsWritten(clips)
    ensures Do(Delete(ConcatList)) in r <==> exists s :: s in r && Creates(s, ConcatList)
    ensures Reads(r) == 1
  {
    if UsesConcat(clips) then
      PlanPieces(clips, ConcatSteps(clips), [ConcatList, Output]);
      Head(clips) + ConcatSteps(clips) + Tail(clips, [ConcatList, Output])
    else
      PlanPieces(clips, GraphSteps(clips, CorrectedGraph(clips, |clips|)), [Output]);
      Head(clips) + GraphSteps(clips, CorrectedGraph(clips, |clips|)) + Tail(clips, [Output])
  }

  /** What a merge trace reads and does to `concat.txt`, from its three parts. */
  lemma PlanPieces(clips: seq<VideoClip>, mid: seq<Step>, extra: seq<FileName>)
    requires mid == ConcatSteps(clips) || exists g :: mid == GraphSteps(clips, g)
    ensures var r := Head(clips) + mid + Tail(clips, extra);
      && Reads(r) == 1
      && (Do(Delete(ConcatList)) in r <==> ConcatList in extra)
      && ((exists s :: s in r && Creates(s, ConcatList)) <==> mid == ConcatSteps(clips))
  {
    HeadQuiet(clips);
    assert ConcatList !in WorkingFiles(clips);
    FinishShape(WorkingFiles(clips), extra);
    if mid != ConcatSteps(clips) {
      var g :| mid == GraphSteps(clips, g);
    }
    NoReadsCount(mid);
    if mid == ConcatSteps(clips) {
      assert mid[0] in mid && Creates(mid[0], ConcatList);
    } else {
      forall s | s in mid ensures !Creates(s, ConcatList) {
      }
    }
    QuietAround(Head(clips), mid, Tail(clips, extra));
  }

  /** A middle piece between a head that reads nothing and never touches `concat.txt`, and
      a tail that reads once and never creates it: reads add up to one, the deletion comes
      from the tail and the creation from the middle. */
  lemma QuietAround(h: seq<Step>, mid: seq<Step>, t: seq<Step>)
    requires Reads(h) == 0 && forall s :: s in h ==> !Creates(s, ConcatList) && s != Do(Delete(ConcatList))
    requires Reads(mid) == 0 && Do(Delete(ConcatList)) !in mid
    requires Reads(t) == 1 && forall s :: s in t ==> !Creates(s, ConcatList)
    ensures Reads(h + mid + t) == 1
    ensures Do(Delete(ConcatList)) in h + mid + t <==> Do(Delete(ConcatList)) in t
    ensures (exists s :: s in h + mid + t && Creates(s, ConcatList)) <==> exists s :: s in mid && Creates(s, ConcatList)
  {
    ReadsAppend(h, mid);
    ReadsAppend(h + mid, t);
  }

  datatype MergeError = LoadFailed(message: string) | NoClips | Rejected(fault: Fault)

  /** One `mergeVideos` call: the merger after it, the load it performed (if any), the
      outcome of the trace (when it ran), and the blob's parts or the error. */
  datatype Merge = Merge(merger: Merger, load: Load, run: Option<Outcome>, result: Result<seq<Content>, MergeError>)

  /** `mergeVideos`: load when not loaded, then reject an empty list, then run the trace. */
  function MergeWith(m: Merger, clips: seq<VideoClip>, attempt: nat -> Attempt, env: Env, asWritten: bool): (r: Merge)
    ensures r.result.Err? && r.result.error.LoadFailed? <==> !m.loaded && r.load.error.Some?
    ensures |clips| == 0 && (m.loaded || r.load.error.None?) ==> r.result == Err(NoClips) && r.merger.loaded
    ensures m.loaded ==> r.load.notices == []
    ensures r.run.Some? <==> |clips| > 0 && (m.loaded || r.load.loaded)
    ensures r.run.Some? ==> r.merger == Merger(true, r.run.value.fs)
    ensures r.run.Some? ==> (r.result.Ok? <==> r.run.value.fault.None?)
    ensures r.run.Some? ==> r.run.value == Run(m.fs, if asWritten then PlanAsWritten(clips) else Plan(clips), env)
    ensures r.result.Ok? ==> |r.result.value| == 1
    ensures r.load == Initialize(m, attempt).1
    ensures r.run.None? ==> r.merger == Initialize(m, attempt).0
    ensures r.load.error.Some? ==> r.result == Err(LoadFailed(r.load.error.value))
  {
    var (m1, l) := Initialize(m, attempt);
    if l.error.Some? then Merge(m1, l, None, Err(LoadFailed(l.error.value)))
    else if |clips| == 0 then Merge(m1, l, None, Err(NoClips))
    else
      var plan := if asWritten then PlanAsWritten(clips) else Plan(clips);
      CleanRunReads(m1.fs, plan, env);
      var o := Run(m1.fs, plan, env);
      Merge(Merger(true, o.fs), l, Some(o), if o.fault.Some? then Err(Rejected(o.fault.value)) else Ok(o.read))
  }

  /** `mergeVideos` as written. Whatever the downloads and exit codes, a merge with
      transitions never resolves: cleanup deletes a `concat.txt` that nothing created. */
  function MergeVideosAsWritten(m: Merger, clips: seq<VideoClip>, attempt: nat -> Attempt, env: Env): (r: Merge)
    ensures !UsesConcat(clips) && ConcatList !in m.fs ==> r.result.Err?
  {
    var r := MergeWith(m, clips, attempt, env, true);
    if !UsesConcat(clips) && ConcatList !in m.fs then
      DeleteOfUncreatedRejects(m.fs, PlanAsWritten(clips), env, ConcatList);
      r
    else r
  }

  /** `mergeVideos` with the corrected cleanup and offsets. The corrections change nothing on
      the concat path, and nothing about loading. */
  function MergeVideosCorrected(m: Merger, clips: seq<VideoClip>, attempt: nat -> Attempt, env: Env): (r: Merge)
    ensures UsesConcat(clips) ==> r == MergeVideosAsWritten(m, clips, attempt, env)
    ensures r.load == MergeVideosAsWritten(m, clips, attempt, env).load
  {
    MergeWith(m, clips, attempt, env, false)
  }

  // ---------------------------------------------------------------------------------------
  // Running the trace

  predicate DownloadsOk(clips: seq<VideoClip>, env: Env) {
    forall k :: 0 <= k < |clips| ==> env.fetchOk(clips[k].url)
  }

  predicate TrimsOk(clips: seq<VideoClip>, env: Env) {
    forall k :: 0 <= k < |clips| && NeedsTrim(clips[k]) ==> env.execOk(TrimCommand(clips[k], k))
  }

  /** No per-clip name of clips i.. is in use. */
  predicate UnusedFrom(fs: Fs, clips: seq<VideoClip>, i: nat) {
    forall k :: i <= k < |clips| ==> Input(k) !in fs && Clip(k) !in fs
  }

  /** None of the names a merge of `clips` uses is in use. */
  predicate Unused(fs: Fs, clips: seq<VideoClip>) {
    ConcatList !in fs && Output !in fs && UnusedFrom(fs, clips, 0)
  }

  /** The working files of clips i.. and their contents. */
  function WorkingMap(clips: seq<VideoClip>, i: nat): (w: Fs)
    requires i <= |clips|
    ensures forall k :: i <= k < |clips| ==>
      WorkingFile(clips[k], k) in w && w[WorkingFile(clips[k], k)] == WorkingContent(clips[k])
    ensures forall f :: f in w ==> (f.Input? || f.Clip?) && i <= f.index < |clips| && f == WorkingFile(clips[f.index], f.index)
    decreases |clips| - i
  {
    if i == |clips| then map[] else WorkingMap(clips, i + 1)[WorkingFile(clips[i], i) := WorkingContent(clips[i])]
  }

  /** The working-file contents in clip order. */
  function MergedContents(clips: seq<VideoClip>): (r: seq<Content>)
    ensures |r| == |clips|
    ensures forall k :: 0 <= k < |clips| ==> r[k] == WorkingContent(clips[k])
  {
    seq(|clips|, k requires 0 <= k < |clips| => WorkingContent(clips[k]))
  }

  /** Steps that leave the file system alone: notices, ticks and successful downloads. */
  predicate Inert(steps: seq<Step>, env: Env) {
    forall k :: 0 <= k < |steps| ==>
      steps[k].Notice? || steps[k].Tick? || (steps[k].Download? && env.fetchOk(steps[k].url))
  }

  lemma {:induction false} InertRun(fs: Fs, steps: seq<Step>, env: Env)
    requires Inert(steps, env)
    ensures Run(fs, steps, env) == Outcome(fs, |steps|, [], None)
    decreases |steps|
  {
    if |steps| > 0 {
      InertRun(fs, steps[1..], env);
    }
  }

  /** One clip's staging puts its working file in place and leaves nothing else behind. */
  lemma StageRuns(fs: Fs, clips: seq<VideoClip>, i: nat, env: Env)
    requires i < |clips| && Input(i) !in fs
    requires NeedsTrim(clips[i]) ==> env.execOk(TrimCommand(clips[i], i))
    ensures Run(fs, Stage(clips[i], i, |clips|), env)
         == Outcome(fs[WorkingFile(clips[i], i) := WorkingContent(clips[i])], |Stage(clips[i], i, |clips|)|, [], None)
  {
    var c := clips[i];
    var fs1 := fs[Input(i) := Bytes(c.url)];
    var steps := Stage(c, i, |clips|);
    if NeedsTrim(c) {
      var cmd := TrimCommand(c, i);
      assert Produce(fs1, cmd) == Some(Cut(Bytes(c.url), c.startTime, c.endTime));
      var fs2 := fs1[Clip(i) := Cut(Bytes(c.url), c.startTime, c.endTime)];
      var fs3 := fs2 - {Input(i)};
      assert fs3 == fs[Clip(i) := WorkingContent(c)];
      assert steps[4..] == [];
      assert Run(fs3, steps[4..], env) == Outcome(fs3, 0, [], None);
      assert steps[3..] == [Do(Delete(Input(i)))];
      assert Run(fs2, steps[3..], env) == Outcome(fs3, 1, [], None);
      assert Run(fs1, steps[2..], env) == Outcome(fs3, 2, [], None);
      assert Run(fs1, steps[1..], env) == Outcome(fs3, 3, [], None);
    } else {
      assert steps[1..] == [];
    }
  }

  lemma {:induction false} StagingRuns(fs: Fs, clips: seq<VideoClip>, i: nat, env: Env)
    requires i <= |clips| && UnusedFrom(fs, clips, i) && TrimsOk(clips, env)
    ensures Run(fs, Staging(clips, i), env) == Outcome(fs + WorkingMap(clips, i), |Staging(clips, i)|, [], None)
    decreases |clips| - i
  {
    if i < |clips| {
      var stage := Stage(clips[i], i, |clips|);
      var f := WorkingFile(clips[i], i);
      var fs1 := fs[f := WorkingContent(clips[i])];
      StageRuns(fs, clips, i, env);
      WorkingMapStep(fs, clips, i);
      StagingRuns(fs1, clips, i + 1, env);
      RunAppend(fs, stage, Staging(clips, i + 1), env);
    }
  }

  lemma WorkingMapStep(fs: Fs, clips: seq<VideoClip>, i: nat)
    requires i < |clips| && UnusedFrom(fs, clips, i)
    ensures var fs1 := fs[WorkingFile(clips[i], i) := WorkingContent(clips[i])];
      && UnusedFrom(fs1, clips, i + 1)
      && fs1 + WorkingMap(clips, i + 1) == fs + WorkingMap(clips, i)
  {
    var f := WorkingFile(clips[i], i);
    var w1 := WorkingMap(clips, i + 1);
    assert f.index == i;
    assert forall g :: g in w1 ==> g.index > i;
    MoveEntry(fs, w1, f, WorkingContent(clips[i]));
  }

  /** An entry added before a union with a map that lacks it can be added to that map instead. */
  lemma MoveEntry(fs: Fs, w: Fs, f: FileName, v: Content)
    requires f !in w
    ensures fs[f := v] + w == fs + w[f := v]
  {
    var a := fs[f := v] + w;
    var b := fs + w[f := v];
    assert a.Keys == b.Keys;
    forall g | g in a ensures a[g] == b[g] {
      if g == f {
        assert a[g] == v;
      }
    }
  }

  /** Everything before the merge proper: the working files are in place. */
  lemma HeadRuns(fs: Fs, clips: seq<VideoClip>, env: Env)
    requires UnusedFrom(fs, clips, 0) && DownloadsOk(clips, env) && TrimsOk(clips, env)
    ensures Run(fs, Head(clips), env) == Outcome(fs + WorkingMap(clips, 0), |Head(clips)|, [], None)
  {
    var a := [Notice(Processing, 0.0, DownloadingClips), Notice(Processing, 0.0, DownloadingCount(|clips|))]
      + Downloads(clips) + [Notice(Processing, 30.0, DownloadsDone)];
    var b := Staging(clips, 0);
    var c := [Notice(Processing, 50.0, PreparingMerge)];
    assert Head(clips) == a + b + c;
    InertRun(fs, a, env);
    StagingRuns(fs, clips, 0, env);
    InertRun(fs + WorkingMap(clips, 0), c, env);
    RunAppend(fs, a, b, env);
    RunAppend(fs, a + b, c, env);
  }

  lemma WorkingFilesDistinct(clips: seq<VideoClip>)
    ensures Distinct(WorkingFiles(clips))
  {
    var w := WorkingFiles(clips);
    forall j, k | 0 <= j < k < |w| ensures w[j] != w[k] {
      assert w[j].index == j && w[k].index == k;
    }
  }

  lemma WorkingMapKeys(clips: seq<VideoClip>)
    ensures WorkingMap(clips, 0).Keys == Elems(WorkingFiles(clips))
  {
    var w := WorkingFiles(clips);
    forall f | f in WorkingMap(clips, 0) ensures f in Elems(w) {
      assert w[f.index] == f;
    }
  }

  /** The concat path's middle: the manifest lists the working files, and the demuxer reads
      them back from it in order. */
  lemma ConcatStepsRun(fs: Fs, clips: seq<VideoClip>, env: Env)
    requires |clips| >= 1 && env.execOk(ConcatCopy(ConcatList, Output, true))
    requires forall k :: 0 <= k < |clips| ==>
      WorkingFile(clips[k], k) in fs && fs[WorkingFile(clips[k], k)] == WorkingContent(clips[k])
    ensures Run(fs, ConcatSteps(clips), env)
         == Outcome(fs[ConcatList := Words(Manifest.Text(WorkingFiles(clips)))][Output := Joined(MergedContents(clips))], 3, [], None)
  {
    var w := WorkingFiles(clips);
    var fs2 := fs[ConcatList := Words(Manifest.Text(w))];
    assert AllPresent(fs2, w);
    assert Contents(fs2, w) == MergedContents(clips);
    ConcatJoinsListed(fs2, ConcatList, w, Output, true);
    var fs3 := fs2[Output := Joined(MergedContents(clips))];
    var steps := ConcatSteps(clips);
    assert Apply(fs2, steps[2], env) == Ok(Effect(fs3, []));
    assert Run(fs3, steps[3..], env) == Outcome(fs3, 0, [], None);
    assert Run(fs2, steps[2..], env) == Outcome(fs3, 1, [], None);
    assert Run(fs2, steps[1..], env) == Outcome(fs3, 2, [], None);
  }

  /** The transition path's middle: the filter graph renders the working files in order. */
  lemma GraphStepsRun(fs: Fs, clips: seq<VideoClip>, g: Graph, env: Env)
    requires env.execOk(FilterRender(WorkingFiles(clips), g, GraphCodecs, true, Output))
    requires forall k :: 0 <= k < |clips| ==>
      WorkingFile(clips[k], k) in fs && fs[WorkingFile(clips[k], k)] == WorkingContent(clips[k])
    ensures Run(fs, GraphSteps(clips, g), env)
         == Outcome(fs[Output := Rendered(MergedContents(clips), g, GraphCodecs)], 2, [], None)
  {
    var w := WorkingFiles(clips);
    assert AllPresent(fs, w);
    assert Contents(fs, w) == MergedContents(clips);
    var fs3 := fs[Output := Rendered(MergedContents(clips), g, GraphCodecs)];
    var steps := GraphSteps(clips, g);
    assert Run(fs3, steps[2..], env) == Outcome(fs3, 0, [], None);
    assert Run(fs, steps[1..], env) == Outcome(fs3, 1, [], None);
  }

  /** Cleanup of distinct present working files and distinct present extra files. */
  lemma FinishRuns(fs: Fs, w: seq<FileName>, extra: seq<FileName>, env: Env)
    requires Output in fs && Distinct(w) && Elems(w) <= fs.Keys
    requires Distinct(extra) && Elems(extra) <= fs.Keys
    requires forall f :: f in Elems(extra) ==> f !in Elems(w)
    ensures Run(fs, Finish(w, extra), env)
         == Outcome(fs - Elems(w) - Elems(extra), |Finish(w, extra)|, [fs[Output]], None)
  {
    var a := [Notice(Completed, 90.0, Finalizing), Do(ReadFile(Output))];
    var rest := Deletes(w) + Deletes(extra) + [Notice(Completed, 100.0, MergeDone)];
    assert Finish(w, extra) == a + rest;
    assert Run(fs, a[1..], env) == Outcome(fs, 1, [fs[Output]], None);
    DeletionsRun(fs, w, extra, env);
    RunChain(fs, a, rest, env, fs, [fs[Output]], Outcome(fs - Elems(w) - Elems(extra), |rest|, [], None));
  }

  /** The deletions and the closing notice of a cleanup. */
  lemma DeletionsRun(fs: Fs, w: seq<FileName>, extra: seq<FileName>, env: Env)
    requires Distinct(w) && Elems(w) <= fs.Keys
    requires Distinct(extra) && Elems(extra) <= fs.Keys
    requires forall f :: f in Elems(extra) ==> f !in Elems(w)
    ensures var rest := Deletes(w) + Deletes(extra) + [Notice(Completed, 100.0, MergeDone)];
      Run(fs, rest, env) == Outcome(fs - Elems(w) - Elems(extra), |rest|, [], None)
  {
    var b := Deletes(w);
    var c := Deletes(extra);
    var d := [Notice(Completed, 100.0, MergeDone)];
    var fs1 := fs - Elems(w);
    DeletesRemove(fs, w, env);
    DeletesRemove(fs1, extra, env);
    InertRun(fs1 - Elems(extra), d, env);
    RunChain(fs, b, c, env, fs1, [], Outcome(fs1 - Elems(extra), |c|, [], None));
    RunChain(fs, b + c, d, env, fs1 - Elems(extra), [], Outcome(fs1 - Elems(extra), |d|, [], None));
  }

  /** Removing what a merge added (the working files `wm`, named by `w`, plus `concat.txt` and
      `output.mp4`) gives back the file system it started from. */
  lemma CleanupRestores(fs: Fs, wm: Fs, w: seq<FileName>, list: Content, out: Content)
    requires ConcatList !in fs && Output !in fs && wm.Keys == Elems(w)
    requires forall f :: f in Elems(w) ==> f !in fs
    ensures (fs + wm)[ConcatList := list][Output := out] - Elems(w) - Elems([ConcatList, Output]) == fs
  {
    var x := (fs + wm)[ConcatList := list][Output := out] - Elems(w) - Elems([ConcatList, Output]);
    assert Elems([ConcatList, Output]) == {ConcatList, Output} by {
      assert [ConcatList, Output][0] in Elems([ConcatList, Output]);
      assert [ConcatList, Output][1] in Elems([ConcatList, Output]);
    }
    assert x.Keys == fs.Keys;
  }

  /** The same for the transition path, which adds only `output.mp4` besides the working
      files. */
  lemma GraphCleanupRestores(fs: Fs, wm: Fs, w: seq<FileName>, out: Content)
    requires Output !in fs && wm.Keys == Elems(w)
    requires forall f :: f in Elems(w) ==> f !in fs
    ensures (fs + wm)[Output := out] - Elems(w) - Elems([Output]) == fs
  {
    var x := (fs + wm)[Output := out] - Elems(w) - Elems([Output]);
    assert Elems([Output]) == {Output} by {
      assert [Output][0] in Elems([Output]);
    }
    assert x.Keys == fs.Keys;
  }

  /** A staged file system: the working files of `clips` are exactly what was added to `fs`. */
  lemma StagedApart(fs: Fs, clips: seq<VideoClip>)
    requires Unused(fs, clips)
    ensures WorkingMap(clips, 0).Keys == Elems(WorkingFiles(clips)) && Distinct(WorkingFiles(clips))
    ensures forall f :: f in Elems(WorkingFiles(clips)) ==> f !in fs && (f.Input? || f.Clip?)
  {
    WorkingMapKeys(clips);
    WorkingFilesDistinct(clips);
    forall f | f in Elems(WorkingFiles(clips)) ensures f !in fs && (f.Input? || f.Clip?) {
      var k :| 0 <= k < |clips| && WorkingFiles(clips)[k] == f;
    }
  }

  /** Everything an all-success merge needs from the outside world and the file system. */
  predicate Favourable(fs: Fs, clips: seq<VideoClip>, env: Env) {
    Unused(fs, clips) && DownloadsOk(clips, env) && TrimsOk(clips, env)
  }

  /** The concat path when every download, trim and the concatenation succeed: the blob is the
      working files joined in clip order, and the file system is left as it was found. */
  lemma ConcatMergeSucceeds(fs: Fs, clips: seq<VideoClip>, env: Env)
    requires |clips| >= 1 && UsesConcat(clips) && Favourable(fs, clips, env)
    requires env.execOk(ConcatCopy(ConcatList, Output, true))
    ensures Run(fs, Plan(clips), env) == Outcome(fs, |Plan(clips)|, [Joined(MergedContents(clips))], None)
    ensures PlanAsWritten(clips) == Plan(clips)
  {
    ConcatPathSucceeds(fs, clips, env);
    assert Plan(clips) == Head(clips) + ConcatSteps(clips) + Tail(clips, [ConcatList, Output]);
  }

  /** Staging, the manifest and the concatenation, then the cleanup. */
  lemma ConcatPathSucceeds(fs: Fs, clips: seq<VideoClip>, env: Env)
    requires |clips| >= 1 && Favourable(fs, clips, env)
    requires env.execOk(ConcatCopy(ConcatList, Output, true))
    ensures var plan := Head(clips) + ConcatSteps(clips) + Tail(clips, [ConcatList, Output]);
      Run(fs, plan, env) == Outcome(fs, |plan|, [Joined(MergedContents(clips))], None)
  {
    var front := Head(clips) + ConcatSteps(clips);
    var tail := Tail(clips, [ConcatList, Output]);
    var list := Words(Manifest.Text(WorkingFiles(clips)));
    var out := Joined(MergedContents(clips));
    ConcatFrontRuns(fs, clips, env);
    StagedApart(fs, clips);
    ConcatTailRuns(fs, WorkingMap(clips, 0), WorkingFiles(clips), list, out, env);
    RunChain(fs, front, tail, env, (fs + WorkingMap(clips, 0))[ConcatList := list][Output := out], [],
             Outcome(fs, |tail|, [out], None));
  }

  /** Staging, writing the manifest and concatenating: the working files, `concat.txt` and
      `output.mp4` are in place and nothing has been read yet. */
  lemma ConcatFrontRuns(fs: Fs, clips: seq<VideoClip>, env: Env)
    requires |clips| >= 1 && Favourable(fs, clips, env)
    requires env.execOk(ConcatCopy(ConcatList, Output, true))
    ensures Run(fs, Head(clips) + ConcatSteps(clips), env)
         == Outcome((fs + WorkingMap(clips, 0))[ConcatList := Words(Manifest.Text(WorkingFiles(clips)))]
                                             [Output := Joined(MergedContents(clips))],
                    |Head(clips)| + 3, [], None)
  {
    var fs1 := fs + WorkingMap(clips, 0);
    HeadRuns(fs, clips, env);
    ConcatStepsRun(fs1, clips, env);
    ChainQuiet(fs, Head(clips), ConcatSteps(clips), env, fs1,
               fs1[ConcatList := Words(Manifest.Text(WorkingFiles(clips)))][Output := Joined(MergedContents(clips))]);
  }

  /** The corrected transition path when everything succeeds: the blob is the working files
      rendered through the corrected graph, and the file system is left as it was found. */
  lemma GraphMergeSucceeds(fs: Fs, clips: seq<VideoClip>, env: Env)
    requires !UsesConcat(clips) && Favourable(fs, clips, env)
    requires env.execOk(FilterRender(WorkingFiles(clips), CorrectedGraph(clips, |clips|), GraphCodecs, true, Output))
    ensures Run(fs, Plan(clips), env)
         == Outcome(fs, |Plan(clips)|, [Rendered(MergedContents(clips), CorrectedGraph(clips, |clips|), GraphCodecs)], None)
  {
    var g := CorrectedGraph(clips, |clips|);
    GraphPathSucceeds(fs, clips, g, env);
    assert Plan(clips) == Head(clips) + GraphSteps(clips, g) + Tail(clips, [Output]);
  }

  /** The transition path through any graph `g` the engine renders, deleting only what it
      wrote. */
  lemma GraphPathSucceeds(fs: Fs, clips: seq<VideoClip>, g: Graph, env: Env)
    requires Favourable(fs, clips, env)
    requires env.execOk(FilterRender(WorkingFiles(clips), g, GraphCodecs, true, Output))
    ensures var plan := Head(clips) + GraphSteps(clips, g) + Tail(clips, [Output]);
      Run(fs, plan, env) == Outcome(fs, |plan|, [Rendered(MergedContents(clips), g, GraphCodecs)], None)
  {
    var front := Head(clips) + GraphSteps(clips, g);
    var tail := Tail(clips, [Output]);
    var out := Rendered(MergedContents(clips), g, GraphCodecs);
    GraphFrontRuns(fs, clips, g, env);
    StagedApart(fs, clips);
    GraphTailRuns(fs, WorkingMap(clips, 0), WorkingFiles(clips), out, env);
    RunChain(fs, front, tail, env, (fs + WorkingMap(clips, 0))[Output := out], [], Outcome(fs, |tail|, [out], None));
  }

  /** Staging and rendering through graph `g`: the working files and `output.mp4` are in
      place and nothing has been read yet. */
  lemma GraphFrontRuns(fs: Fs, clips: seq<VideoClip>, g: Graph, env: Env)
    requires Favourable(fs, clips, env)
    requires env.execOk(FilterRender(WorkingFiles(clips), g, GraphCodecs, true, Output))
    ensures Run(fs, Head(clips) + GraphSteps(clips, g), env)
         == Outcome((fs + WorkingMap(clips, 0))[Output := Rendered(MergedContents(clips), g, GraphCodecs)],
                    |Head(clips)| + 2, [], None)
  {
    var fs1 := fs + WorkingMap(clips, 0);
    HeadRuns(fs, clips, env);
    GraphStepsRun(fs1, clips, g, env);
    ChainQuiet(fs, Head(clips), GraphSteps(clips, g), env, fs1, fs1[Output := Rendered(MergedContents(clips), g, GraphCodecs)]);
  }

  /** Two clean runs that read nothing make one. */
  lemma ChainQuiet(fs: Fs, a: seq<Step>, b: seq<Step>, env: Env, mid: Fs, after: Fs)
    requires Run(fs, a, env) == Outcome(mid, |a|, [], None)
    requires Run(mid, b, env) == Outcome(after, |b|, [], None)
    ensures Run(fs, a + b, env) == Outcome(after, |a| + |b|, [], None)
  {
    RunChain(fs, a, b, env, mid, [], Outcome(after, |b|, [], None));
  }

  /** Cleanup that meets an absent `concat.txt`: the result has been read and the working
      files deleted when the deletion of `concat.txt` rejects. */
  lemma FinishRejects(fs: Fs, w: seq<FileName>, env: Env)
    requires Output in fs && ConcatList !in fs && Distinct(w) && Elems(w) <= fs.Keys
    ensures Run(fs, Finish(w, [ConcatList, Output]), env)
         == Outcome(fs - Elems(w), 2 + |w|, [fs[Output]], Some(MissingFile(ConcatList)))
  {
    var a := [Notice(Completed, 90.0, Finalizing), Do(ReadFile(Output))];
    var b := Deletes(w);
    var cd := Deletes([ConcatList, Output]) + [Notice(Completed, 100.0, MergeDone)];
    assert Finish(w, [ConcatList, Output]) == a + b + cd;
    assert Run(fs, a[1..], env) == Outcome(fs, 1, [fs[Output]], None);
    DeletesRemove(fs, w, env);
    var fs1 := fs - Elems(w);
    assert cd[0] == Do(Delete(ConcatList));
    assert Run(fs1, cd, env) == Outcome(fs1, 0, [], Some(MissingFile(ConcatList)));
    RunChain(fs, a, b, env, fs, [fs[Output]], Outcome(fs1, |b|, [], None));
    RunAppend(fs, a + b, cd, env);
  }

  /** Finding: as written, the transition path renders and reads the result, deletes the
      working files, then rejects on deleting the `concat.txt` it never wrote. The caller
      gets an error instead of the video, and `output.mp4` stays behind. */
  lemma GraphMergeRejectsAsWritten(fs: Fs, clips: seq<VideoClip>, env: Env)
    requires !UsesConcat(clips) && Favourable(fs, clips, env)
    requires env.execOk(FilterRender(WorkingFiles(clips), BuildGraph(clips, |clips|), GraphCodecs, true, Output))
    ensures var o := Run(fs, PlanAsWritten(clips), env);
      var out := Rendered(MergedContents(clips), BuildGraph(clips, |clips|), GraphCodecs);
      && o.fault == Some(MissingFile(ConcatList))
      && o.done == |Head(clips)| + 4 + |clips|
      && o.read == [out]
      && o.fs == fs[Output := out]
  {
    var g := BuildGraph(clips, |clips|);
    GraphPathRejects(fs, clips, g, env);
    assert PlanAsWritten(clips) == Head(clips) + GraphSteps(clips, g) + Tail(clips, [ConcatList, Output]);
  }

  /** The transition path through any graph `g` the engine renders, followed by the
      as-written cleanup that also deletes `concat.txt`. */
  lemma GraphPathRejects(fs: Fs, clips: seq<VideoClip>, g: Graph, env: Env)
    requires Favourable(fs, clips, env)
    requires env.execOk(FilterRender(WorkingFiles(clips), g, GraphCodecs, true, Output))
    ensures var out := Rendered(MergedContents(clips), g, GraphCodecs);
      Run(fs, Head(clips) + GraphSteps(clips, g) + Tail(clips, [ConcatList, Output]), env)
      == Outcome(fs[Output := out], |Head(clips)| + 4 + |clips|, [out], Some(MissingFile(ConcatList)))
  {
    var out := Rendered(MergedContents(clips), g, GraphCodecs);
    GraphFrontRuns(fs, clips, g, env);
    StagedApart(fs, clips);
    GraphTailRejects(fs, WorkingMap(clips, 0), WorkingFiles(clips), out, env);
    ChainFails(fs, Head(clips) + GraphSteps(clips, g), Tail(clips, [ConcatList, Output]), env,
               (fs + WorkingMap(clips, 0))[Output := out], fs[Output := out], 2 + |clips|, out, MissingFile(ConcatList));
  }

  /** A clean run that reads nothing, followed by one that reads one blob and then rejects. */
  lemma ChainFails(fs: Fs, a: seq<Step>, b: seq<Step>, env: Env, mid: Fs, after: Fs, n: nat, out: Content, f: Fault)
    requires Run(fs, a, env) == Outcome(mid, |a|, [], None)
    requires Run(mid, b, env) == Outcome(after, n, [out], Some(f))
    ensures Run(fs, a + b, env) == Outcome(after, |a| + n, [out], Some(f))
  {
    RunChain(fs, a, b, env, mid, [], Outcome(after, n, [out], Some(f)));
    assert [] + [out] == [out];
  }

  /** The step the as-written transition path stops at is the deletion of `concat.txt`. */
  lemma AsWrittenStopStep(clips: seq<VideoClip>)
    requires !UsesConcat(clips)
    ensures var k := |Head(clips)| + 4 + |clips|;
      k < |PlanAsWritten(clips)| && PlanAsWritten(clips)[k] == Do(Delete(ConcatList))
  {
    var head := Head(clips);
    var mid := GraphSteps(clips, BuildGraph(clips, |clips|));
    var tail := Tail(clips, [ConcatList, Output]);
    GraphTailStopStep(clips);
    assert PlanAsWritten(clips) == (head + mid) + tail;
    assert |head + mid| == |head| + 2;
  }

  lemma GraphTailStopStep(clips: seq<VideoClip>)
    ensures |Tail(clips, [ConcatList, Output])| == 5 + |clips|
    ensures Tail(clips, [ConcatList, Output])[2 + |clips|] == Do(Delete(ConcatList))
  {
    var w := WorkingFiles(clips);
    var a := [Notice(Completed, 90.0, Finalizing), Do(ReadFile(Output))];
    var c := Deletes([ConcatList, Output]);
    var d := [Notice(Completed, 100.0, MergeDone)];
    assert Tail(clips, [ConcatList, Output]) == (a + Deletes(w)) + (c + d);
    assert (c + d)[0] == Do(Delete(ConcatList));
  }

  /** After the transition path's as-written cleanup, only `output.mp4` is left behind. */
  lemma OutputLeft(fs: Fs, wm: Fs, w: seq<FileName>, out: Content)
    requires Output !in fs && wm.Keys == Elems(w)
    requires forall f :: f in Elems(w) ==> f !in fs && f != Output
    ensures (fs + wm)[Output := out] - Elems(w) == fs[Output := out]
  {
    var x := (fs + wm)[Output := out] - Elems(w);
    assert x.Keys == fs[Output := out].Keys;
  }

  /** The concat path's cleanup after staging `wm` and writing the manifest and the result. */
  lemma ConcatTailRuns(fs: Fs, wm: Fs, w: seq<FileName>, list: Content, out: Content, env: Env)
    requires ConcatList !in fs && Output !in fs && Distinct(w) && wm.Keys == Elems(w)
    requires forall f :: f in Elems(w) ==> f !in fs && (f.Input? || f.Clip?)
    ensures Run((fs + wm)[ConcatList := list][Output := out], Finish(w, [ConcatList, Output]), env)
         == Outcome(fs, |Finish(w, [ConcatList, Output])|, [out], None)
  {
    var extra := [ConcatList, Output];
    var fs2 := (fs + wm)[ConcatList := list][Output := out];
    assert Elems(extra) <= fs2.Keys by {
      forall f | f in Elems(extra) ensures f in fs2 {
        var k :| 0 <= k < 2 && extra[k] == f;
      }
    }
    forall f | f in Elems(extra) ensures f !in Elems(w) {
      var k :| 0 <= k < 2 && extra[k] == f;
    }
    FinishRuns(fs2, w, extra, env);
    CleanupRestores(fs, wm, w, list, out);
  }

  /** The transition path's cleanup after staging `wm` and rendering the result. */
  lemma GraphTailRuns(fs: Fs, wm: Fs, w: seq<FileName>, out: Content, env: Env)
    requires Output !in fs && Distinct(w) && wm.Keys == Elems(w)
    requires forall f :: f in Elems(w) ==> f !in fs && (f.Input? || f.Clip?)
    ensures Run((fs + wm)[Output := out], Finish(w, [Output]), env)
         == Outcome(fs, |Finish(w, [Output])|, [out], None)
  {
    var fs2 := (fs + wm)[Output := out];
    assert Elems([Output]) <= fs2.Keys by {
      forall f | f in Elems([Output]) ensures f in fs2 {
        assert [Output][0] == f;
      }
    }
    forall f | f in Elems([Output]) ensures f !in Elems(w) {
      assert [Output][0] == f;
    }
    FinishRuns(fs2, w, [Output], env);
    GraphCleanupRestores(fs, wm, w, out);
  }

  /** The as-written cleanup on the transition path: it rejects on the absent `concat.txt`
      with the working files gone and `output.mp4` left behind. */
  lemma GraphTailRejects(fs: Fs, wm: Fs, w: seq<FileName>, out: Content, env: Env)
    requires ConcatList !in fs && Output !in fs && Distinct(w) && wm.Keys == Elems(w)
    requires forall f :: f in Elems(w) ==> f !in fs && (f.Input? || f.Clip?)
    ensures Run((fs + wm)[Output := out], Finish(w, [ConcatList, Output]), env)
         == Outcome(fs[Output := out], 2 + |w|, [out], Some(MissingFile(ConcatList)))
  {
    var fs2 := (fs + wm)[Output := out];
    FinishRejects(fs2, w, env);
    OutputLeft(fs, wm, w, out);
  }

  // ---------------------------------------------------------------------------------------
  // Progress order

  function Rank(p: Phase): nat {
    match p
    case Loading => 0
    case Processing => 1
    case Encoding => 2
    case Completed => 3
  }

  /** Progress position (phase, percent) `(p, x)` is no later than `(q, y)`. */
  predicate NoLater(p: Phase, x: real, q: Phase, y: real) {
    Rank(p) < Rank(q) || (p == q && x <= y)
  }

  /** The notices of a trace move forward: phases never go back, and within a phase the
      percentage never decreases. */
  predicate InOrder(steps: seq<Step>) {
    forall j, k :: 0 <= j < k < |steps| && steps[j].Notice? && steps[k].Notice? ==>
      NoLater(steps[j].phase, steps[j].percent, steps[k].phase, steps[k].percent)
  }

  predicate AllFrom(steps: seq<Step>, p: Phase, x: real) {
    forall k :: 0 <= k < |steps| && steps[k].Notice? ==> NoLater(p, x, steps[k].phase, steps[k].percent)
  }

  predicate AllUntil(steps: seq<Step>, p: Phase, x: real) {
    forall k :: 0 <= k < |steps| && steps[k].Notice? ==> NoLater(steps[k].phase, steps[k].percent, p, x)
  }

  lemma InOrderAppend(a: seq<Step>, b: seq<Step>, p: Phase, x: real)
    requires InOrder(a) && InOrder(b) && AllUntil(a, p, x) && AllFrom(b, p, x)
    ensures InOrder(a + b)
  {
    var ab := a + b;
    forall j, k | 0 <= j < k < |ab| && ab[j].Notice? && ab[k].Notice?
      ensures NoLater(ab[j].phase, ab[j].percent, ab[k].phase, ab[k].percent)
    {
      if j < |a| && k >= |a| {
        assert ab[j] == a[j] && ab[k] == b[k - |a|];
      } else if j >= |a| {
        assert ab[j] == b[j - |a|] && ab[k] == b[k - |a|];
      } else {
        assert ab[j] == a[j] && ab[k] == a[k];
      }
    }
  }

  lemma AllAppend(a: seq<Step>, b: seq<Step>, p: Phase, x: real, q: Phase, y: real)
    requires AllFrom(a, p, x) && AllFrom(b, p, x) && AllUntil(a, q, y) && AllUntil(b, q, y)
    ensures AllFrom(a + b, p, x) && AllUntil(a + b, q, y)
  {
    var ab := a + b;
    forall k | 0 <= k < |ab| ensures ab[k] == (if k < |a| then a[k] else b[k - |a|]) {
    }
  }

  /** The percentage clip i's trim notice reports. */
  function TrimPercent(i: nat, n: nat): real
    requires 0 < n
  {
    Round(30.0 + (i as real / n as real) * 20.0)
  }

  lemma TrimPercentRises(i: nat, j: nat, n: nat)
    requires i <= j <= n && 0 < n
    ensures 30.0 <= TrimPercent(i, n) <= TrimPercent(j, n) <= 50.0
  {
    var x := 30.0 + (i as real / n as real) * 20.0;
    var y := 30.0 + (j as real / n as real) * 20.0;
    RatioRises(i, j, n);
    RoundRises(30.0, x);
    RoundRises(x, y);
    RoundRises(y, 50.0);
  }

  lemma RatioRises(i: nat, j: nat, n: nat)
    requires i <= j <= n && 0 < n
    ensures 0.0 <= i as real / n as real <= j as real / n as real <= 1.0
  {
    DivMonotone(0.0, i as real, n as real);
    DivMonotone(i as real, j as real, n as real);
    DivMonotone(j as real, n as real, n as real);
  }

  lemma DivMonotone(a: real, b: real, c: real)
    requires 0.0 < c && a <= b
    ensures a / c <= b / c
  {
    var d := (b - a) / c;
    assert b / c == a / c + d;
    assert d >= 0.0;
  }

  lemma RoundRises(x: real, y: real)
    requires x <= y
    ensures Round(x) <= Round(y)
  {
    assert (x + 0.5).Floor <= (y + 0.5).Floor;
  }

  lemma {:induction false} StagingInOrder(clips: seq<VideoClip>, i: nat)
    requires i <= |clips| && 0 < |clips|
    ensures var st := Staging(clips, i);
      InOrder(st) && AllFrom(st, Processing, TrimPercent(i, |clips|)) && AllUntil(st, Processing, 50.0)
    decreases |clips| - i
  {
    var n := |clips|;
    if i < n {
      var stage := Stage(clips[i], i, n);
      var rest := Staging(clips, i + 1);
      StagingInOrder(clips, i + 1);
      TrimPercentRises(i, i + 1, n);
      TrimPercentRises(i + 1, n, n);
      assert AllFrom(rest, Processing, TrimPercent(i, n));
      assert InOrder(stage) && AllUntil(stage, Processing, TrimPercent(i, n)) && AllFrom(stage, Processing, TrimPercent(i, n));
      InOrderAppend(stage, rest, Processing, TrimPercent(i, n));
      AllAppend(stage, rest, Processing, TrimPercent(i, n), Processing, 50.0);
    }
  }

  lemma HeadInOrder(clips: seq<VideoClip>)
    requires 0 < |clips|
    ensures InOrder(Head(clips)) && AllFrom(Head(clips), Processing, 0.0) && AllUntil(Head(clips), Processing, 50.0)
  {
    var n := |clips|;
    var a := [Notice(Processing, 0.0, DownloadingClips), Notice(Processing, 0.0, DownloadingCount(n))]
      + Downloads(clips) + [Notice(Processing, 30.0, DownloadsDone)];
    var st := Staging(clips, 0);
    var b := [Notice(Processing, 50.0, PreparingMerge)];
    assert Head(clips) == a + st + b;
    assert InOrder(a) && AllUntil(a, Processing, 30.0) && AllUntil(a, Processing, 50.0) && AllFrom(a, Processing, 0.0);
    StagingInOrder(clips, 0);
    TrimPercentRises(0, 0, n);
    assert AllFrom(st, Processing, 0.0);
    InOrderAppend(a, st, Processing, 30.0);
    AllAppend(a, st, Processing, 0.0, Processing, 50.0);
    InOrderAppend(a + st, b, Processing, 50.0);
    AllAppend(a + st, b, Processing, 0.0, Processing, 50.0);
  }

  /** The notices of a merge move forward: processing 0 to 50, then encoding, then completed
      90 and 100; the trim notices rise with the clip index between 30 and 50. */
  lemma PlanInOrder(clips: seq<VideoClip>)
    requires 0 < |clips|
    ensures InOrder(Plan(clips))
  {
    if UsesConcat(clips) {
      ConcatStepsInOrder(clips);
      PathInOrder(clips, ConcatSteps(clips), [ConcatList, Output]);
    } else {
      var g := CorrectedGraph(clips, |clips|);
      GraphStepsInOrder(clips, g);
      PathInOrder(clips, GraphSteps(clips, g), [Output]);
    }
  }

  lemma PlanAsWrittenInOrder(clips: seq<VideoClip>)
    requires 0 < |clips|
    ensures InOrder(PlanAsWritten(clips))
  {
    if UsesConcat(clips) {
      ConcatStepsInOrder(clips);
      PathInOrder(clips, ConcatSteps(clips), [ConcatList, Output]);
    } else {
      var g := BuildGraph(clips, |clips|);
      GraphStepsInOrder(clips, g);
      PathInOrder(clips, GraphSteps(clips, g), [ConcatList, Output]);
    }
  }

  /** Whatever encoding steps sit between staging and cleanup, the notices stay in order. */
  lemma PathInOrder(clips: seq<VideoClip>, mid: seq<Step>, extra: seq<FileName>)
    requires 0 < |clips|
    requires InOrder(mid) && AllFrom(mid, Encoding, 0.0) && AllUntil(mid, Encoding, 0.0)
    ensures InOrder(Head(clips) + mid + Tail(clips, extra))
  {
    var head := Head(clips);
    HeadInOrder(clips);
    InOrderAppend(head, mid, Processing, 50.0);
    AllAppend(head, mid, Loading, 0.0, Encoding, 0.0);
    TailInOrder(clips, extra);
    InOrderAppend(head + mid, Tail(clips, extra), Encoding, 0.0);
  }

  lemma ConcatStepsInOrder(clips: seq<VideoClip>)
    ensures var c := ConcatSteps(clips);
      InOrder(c) && AllFrom(c, Encoding, 0.0) && AllUntil(c, Encoding, 0.0)
  {
  }

  lemma GraphStepsInOrder(clips: seq<VideoClip>, g: Graph)
    ensures var c := GraphSteps(clips, g);
      InOrder(c) && AllFrom(c, Encoding, 0.0) && AllUntil(c, Encoding, 0.0)
  {
  }

  lemma TailInOrder(clips: seq<VideoClip>, extra: seq<FileName>)
    ensures InOrder(Tail(clips, extra)) && AllFrom(Tail(clips, extra), Completed, 90.0)
  {
    var t := Tail(clips, extra);
    var a := [Notice(Completed, 90.0, Finalizing), Do(ReadFile(Output))];
    var d := [Notice(Completed, 100.0, MergeDone)];
    var m := Deletes(WorkingFiles(clips)) + Deletes(extra);
    assert t == a + m + d;
    forall k | 0 <= k < |t| && t[k].Notice?
      ensures (k == 0 && t[k].percent == 90.0) || (k == |t| - 1 && t[k].percent == 100.0)
      ensures t[k].phase == Completed
    {
    }
  }

  // ---------------------------------------------------------------------------------------
  // Per-clip decisions and path choice

  /** Clip i is trimmed, with a stream copy of its window, exactly when `NeedsTrim` holds; a
      trimmed clip's download is deleted right after the trim. */
  lemma StageTrimsIff(c: VideoClip, i: nat, n: nat)
    requires i < n
    ensures Do(Exec(TrimCommand(c, i))) in Stage(c, i, n) <==> NeedsTrim(c)
    ensures Do(Delete(Input(i))) in Stage(c, i, n) <==> NeedsTrim(c)
    ensures Stage(c, i, n)[0] == Do(Write(Input(i), Bytes(c.url)))
    ensures WorkingFile(c, i) == (if NeedsTrim(c) then Clip(i) else Input(i))
  {
    var st := Stage(c, i, n);
    if NeedsTrim(c) {
      assert st[2] == Do(Exec(TrimCommand(c, i)));
      assert st[3] == Do(Delete(Input(i)));
    } else {
      assert st == [Do(Write(Input(i), Bytes(c.url)))];
    }
  }

  /** Clip 0's transition alone sends a merge down the transition path... */
  lemma FirstTransitionChoosesGraph(a: VideoClip, b: VideoClip)
    requires HasTransition(a) && b.transition.None?
    ensures !UsesConcat([a, b])
  {
    assert HasTransition([a, b][0]);
  }

  lemma {:induction false} SumDurationsAgree(xs: seq<VideoClip>, ys: seq<VideoClip>)
    requires |xs| == |ys| && forall k :: 0 <= k < |xs| ==> xs[k].duration == ys[k].duration
    ensures SumDurations(xs) == SumDurations(ys)
    decreases |xs|
  {
    if |xs| > 0 {
      SumDurationsAgree(xs[..|xs| - 1], ys[..|ys| - 1]);
    }
  }

  lemma {:induction false} ChainFromAgrees(xs: seq<VideoClip>, ys: seq<VideoClip>, offsets: seq<real>, i: nat, acc: Chain)
    requires |xs| == |ys| == |offsets| && 1 <= i
    requires forall k :: 1 <= k < |xs| ==> xs[k] == ys[k]
    ensures ChainFrom(xs, offsets, i, acc) == ChainFrom(ys, offsets, i, acc)
    decreases |xs| - i
  {
    if i < |xs| {
      assert JoinParts(xs, i, acc.video, acc.audio, offsets[i]) == JoinParts(ys, i, acc.video, acc.audio, offsets[i]);
      ChainFromAgrees(xs, ys, offsets, i + 1,
        Chain(acc.joins + JoinParts(xs, i, acc.video, acc.audio, offsets[i]), VOut(i), AOut(i)));
    }
  }

  /** ...but the graph never reads it: changing clip 0's transition leaves the graph as is. */
  lemma FirstTransitionIgnored(clips: seq<VideoClip>, t: Option<TransitionEffect>)
    requires |clips| >= 1
    ensures BuildGraph(clips[0 := clips[0].(transition := t)], |clips|) == BuildGraph(clips, |clips|)
  {
    var ys := clips[0 := clips[0].(transition := t)];
    forall i | 1 <= i < |clips| ensures Offset(ys, i) == Offset(clips, i) {
      SumDurationsAgree(ys[..i], clips[..i]);
    }
    assert WrittenOffsets(ys) == WrittenOffsets(clips);
    ChainFromAgrees(ys, clips, WrittenOffsets(clips), 1, Chain([], V(0), A(0)));
  }

  // ---------------------------------------------------------------------------------------
  // Whole calls

  /** An empty clip list is rejected only after the engine has been loaded: validation does
      not precede loading. Whichever CDN loads, the whole loading sequence is reported, ending
      with "loaded", and the merger stays loaded. */
  lemma EmptyRejectedAfterLoad(m: Merger, attempt: nat -> Attempt, env: Env)
    requires !m.loaded && SomeLoads(attempt, 0)
    ensures var r := MergeVideosAsWritten(m, [], attempt, env);
      && r.result == Err(NoClips)
      && r.merger.loaded
      && r.run.None?
      && r.load.notices == [Notice(Loading, 0.0, LoadingEngine)] + LoopSteps(attempt, 0)
      && |r.load.notices| >= 2 && LoadedNotice(r.load.notices[|r.load.notices| - 1])
  {
    var r := MergeWith(m, [], attempt, env, true);
    assert MergeVideosAsWritten(m, [], attempt, env) == r;
    var ns := r.load.notices;
    assert LoadedLast(ns, true);
    assert LoadedNotice(ns[|ns| - 1]);
  }

  /** The case where the first CDN loads, spelled out: three notices, then "no clips". */
  lemma EmptyRejectedAfterFirstCdn(m: Merger, attempt: nat -> Attempt, env: Env)
    requires !m.loaded && attempt(0).Loaded?
    ensures var r := MergeVideosAsWritten(m, [], attempt, env);
      && r.result == Err(NoClips)
      && r.merger.loaded
      && r.load.notices == [Notice(Loading, 0.0, LoadingEngine), Notice(Loading, 0.0, TryingCdn(1, 4)),
                            Notice(Loading, 100.0, EngineLoaded)]
  {
  }

  /** When the engine cannot be loaded, an empty list reports the load failure, not the empty
      list. */
  lemma EmptyUnloadable(m: Merger, attempt: nat -> Attempt, env: Env)
    requires !m.loaded && forall k :: 0 <= k < Cdns ==> attempt(k) == TimedOut
    ensures MergeVideosAsWritten(m, [], attempt, env).result == Err(LoadFailed(FailureMessage(TimeoutMessage)))
    ensures !MergeVideosAsWritten(m, [], attempt, env).merger.loaded
  {
    var l := TryFrom(attempt, 0, "");
    assert !attempt(3).Loaded?;
    assert !l.loaded;
  }

  /** A loaded merger merging clips whose downloads, trims and final command succeed returns
      the merged video (the working files joined in clip order, or rendered through the
      corrected graph) and leaves its file system as it found it. */
  lemma MergeVideosDelivers(m: Merger, clips: seq<VideoClip>, attempt: nat -> Attempt, env: Env)
    requires m.loaded && |clips| >= 1 && Favourable(m.fs, clips, env)
    requires UsesConcat(clips) ==> env.execOk(ConcatCopy(ConcatList, Output, true))
    requires !UsesConcat(clips) ==>
      env.execOk(FilterRender(WorkingFiles(clips), CorrectedGraph(clips, |clips|), GraphCodecs, true, Output))
    ensures var r := MergeVideosCorrected(m, clips, attempt, env);
      && r.merger == m
      && r.result == Ok([if UsesConcat(clips) then Joined(MergedContents(clips))
                         else Rendered(MergedContents(clips), CorrectedGraph(clips, |clips|), GraphCodecs)])
  {
    if UsesConcat(clips) {
      ConcatMergeSucceeds(m.fs, clips, env);
    } else {
      GraphMergeSucceeds(m.fs, clips, env);
    }
  }

  /** As written, the same call on clips that take the transition path rejects, and the
      rendered `output.mp4` stays in the merger's file system. */
  lemma MergeVideosAsWrittenFails(m: Merger, clips: seq<VideoClip>, attempt: nat -> Attempt, env: Env)
    requires m.loaded && !UsesConcat(clips) && Favourable(m.fs, clips, env)
    requires env.execOk(FilterRender(WorkingFiles(clips), BuildGraph(clips, |clips|), GraphCodecs, true, Output))
    ensures var r := MergeVideosAsWritten(m, clips, attempt, env);
      && r.result == Err(Rejected(MissingFile(ConcatList)))
      && r.merger.fs == m.fs[Output := Rendered(MergedContents(clips), BuildGraph(clips, |clips|), GraphCodecs)]
  {
    GraphMergeRejectsAsWritten(m.fs, clips, env);
  }

  lemma HeadFailsAtDownload(fs: Fs, clips: seq<VideoClip>, env: Env, k: nat)
    requires k < |clips| && !env.fetchOk(clips[k].url)
    requires forall j :: 0 <= j < k ==> env.fetchOk(clips[j].url)
    ensures Run(fs, Head(clips), env) == Outcome(fs, 2 + k, [], Some(DownloadFailed(clips[k].url)))
  {
    var h := Head(clips);
    var pre := [Notice(Processing, 0.0, DownloadingClips), Notice(Processing, 0.0, DownloadingCount(|clips|))]
      + Downloads(clips)[..k];
    var after := h[2 + k..];
    assert h[..2 + k] == pre;
    assert h == pre + after;
    assert after[0] == Download(clips[k].url);
    InertRun(fs, pre, env);
    RunChain(fs, pre, after, env, fs, [], Outcome(fs, 0, [], Some(DownloadFailed(clips[k].url))));
  }

  /** A failed download rejects the merge before anything is written: the first failing
      clip's URL is reported and the file system is untouched. */
  lemma DownloadFailureWritesNothing(fs: Fs, clips: seq<VideoClip>, env: Env, k: nat)
    requires k < |clips| && !env.fetchOk(clips[k].url)
    requires forall j :: 0 <= j < k ==> env.fetchOk(clips[j].url)
    ensures Run(fs, Plan(clips), env) == Outcome(fs, 2 + k, [], Some(DownloadFailed(clips[k].url)))
    ensures Run(fs, PlanAsWritten(clips), env) == Outcome(fs, 2 + k, [], Some(DownloadFailed(clips[k].url)))
  {
    var h := Head(clips);
    HeadFailsAtDownload(fs, clips, env, k);
    if UsesConcat(clips) {
      PrefixRejects(fs, h, ConcatSteps(clips), Tail(clips, [ConcatList, Output]), env);
    } else {
      PrefixRejects(fs, h, GraphSteps(clips, CorrectedGraph(clips, |clips|)), Tail(clips, [Output]), env);
      PrefixRejects(fs, h, GraphSteps(clips, BuildGraph(clips, |clips|)), Tail(clips, [ConcatList, Output]), env);
    }
  }
}
