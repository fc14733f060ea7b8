/** The helper module's three pipelines (`trimVideo`, `mergeVideos`, `trimAndMergeVideos`), each
    a trace of engine steps run by `Engine.Run` against the shared engine the loader provides.
    Progress reports are `Tick` steps; a rejected `getFFmpeg` rejects the call before any step. */
module Helpers {
  import opened Wrappers
  import opened Files
  import Manifest
  import Strings
  import opened Engine

  /** A clip of `mergeVideos`: the optional window fields are never read. */
  datatype MergeClip = MergeClip(url: string, startTime: Option<real>, endTime: Option<real>)

  /** A clip of `trimAndMergeVideos`. */
  datatype TrimClip = TrimClip(url: string, startTime: real, endTime: real)

  /** Why a helper call rejects: the engine could not be loaded, or a step of the trace
      rejected. */
  datatype Failure = EngineFailed(message: string) | Rejected(fault: Fault)

  /** After a call: the engine's file system and the blob contents, or the rejection. */
  datatype Call = Call(fs: Fs, result: Result<seq<Content>, Failure>)

  /** Awaits the engine (`engine` holds the loader's rejection, if any), then runs the trace. */
  function Perform(fs: Fs, engine: Option<string>, steps: seq<Step>, env: Env): (r: Call)
    ensures engine.Some? ==> r == Call(fs, Err(EngineFailed(engine.value)))
    ensures engine.None? ==> r.fs == Run(fs, steps, env).fs
    ensures engine.None? ==> (r.result.Ok? <==> Run(fs, steps, env).done == |steps|)
  {
    if engine.Some? then Call(fs, Err(EngineFailed(engine.value)))
    else
      var o := Run(fs, steps, env);
      if o.fault.Some? then Call(o.fs, Err(Rejected(o.fault.value))) else Call(o.fs, Ok(o.read))
  }

  lemma PerformClean(fs: Fs, steps: seq<Step>, env: Env, after: Fs, read: seq<Content>)
    requires Run(fs, steps, env) == Outcome(after, |steps|, read, None)
    ensures Perform(fs, None, steps, env) == Call(after, Ok(read))
  {
  }

  /** A clean run of `front` followed by a `cleanup` that restores the file system delivers
      what `front` read. */
  lemma PerformChain(fs: Fs, front: seq<Step>, cleanup: seq<Step>, env: Env, mid: Fs, read: seq<Content>)
    requires Run(fs, front, env) == Outcome(mid, |front|, read, None)
    requires Run(mid, cleanup, env) == Outcome(fs, |cleanup|, [], None)
    ensures Perform(fs, None, front + cleanup, env) == Call(fs, Ok(read))
  {
    RunChain(fs, front, cleanup, env, mid, read, Outcome(fs, |cleanup|, [], None));
    assert read + [] == read;
  }

  lemma PerformRejected(fs: Fs, steps: seq<Step>, env: Env, after: Fs, f: Fault)
    requires Run(fs, steps, env).fs == after && Run(fs, steps, env).fault == Some(f)
    ensures Perform(fs, None, steps, env) == Call(after, Err(Rejected(f)))
  {
  }

  /** A clean trace followed by one that rejects rejects, with the second one's file system. */
  lemma ChainRejects(fs: Fs, a: seq<Step>, b: seq<Step>, env: Env, mid: Fs, after: Fs, f: Fault)
    requires Run(fs, a, env).fs == mid && Run(fs, a, env).fault.None?
    requires Run(mid, b, env).fs == after && Run(mid, b, env).fault == Some(f)
    ensures Run(fs, a + b, env).fs == after && Run(fs, a + b, env).fault == Some(f)
  {
    RunAppend(fs, a, b, env);
  }

  /** A front that rejects makes the whole call reject the same way; cleanup never runs. */
  lemma PerformFrontRejects(fs: Fs, front: seq<Step>, cleanup: seq<Step>, env: Env, after: Fs, f: Fault)
    requires Run(fs, front, env).fs == after && Run(fs, front, env).fault == Some(f)
    ensures Perform(fs, None, front + cleanup, env) == Call(after, Err(Rejected(f)))
  {
    PrefixRejects(fs, front, cleanup, [], env);
    assert front + cleanup + [] == front + cleanup;
  }

  /** A clean front followed by a cleanup that rejects makes the call reject with the
      cleanup's fault; what the front read is dropped. */
  lemma PerformCleanupRejects(fs: Fs, front: seq<Step>, cleanup: seq<Step>, env: Env, mid: Fs, read: seq<Content>, after: Fs, f: Fault)
    requires Run(fs, front, env) == Outcome(mid, |front|, read, None)
    requires Run(mid, cleanup, env).fs == after && Run(mid, cleanup, env).fault == Some(f)
    ensures Perform(fs, None, front + cleanup, env) == Call(after, Err(Rejected(f)))
  {
    RunChain(fs, front, cleanup, env, mid, read, Run(mid, cleanup, env));
  }

  // ---------------------------------------------------------------------------------------
  // trimVideo

  /** Download to `input.mp4`, cut `[start, end]` into `output.mp4`, read it, delete both. */
  function TrimPlan(url: string, start: real, end: real): seq<Step> {
    TrimCut(url, start, end) + TrimReadBack
  }

  /** Report 10, download, write `input.mp4`, report 30, cut into `output.mp4`. */
  function TrimCut(url: string, start: real, end: real): seq<Step> {
    [Tick(10.0), Download(url), Do(Write(SingleInput, Bytes(url))), Tick(30.0),
     Do(Exec(TrimUntil(SingleInput, start, end, Output)))]
  }

  /** Report 80, read `output.mp4`, delete both files, report 100. */
  const TrimReadBack := [Tick(80.0), Do(ReadFile(Output)), Do(Delete(SingleInput)), Do(Delete(Output)), Tick(100.0)]

  function TrimVideo(fs: Fs, engine: Option<string>, url: string, start: real, end: real, env: Env): Call {
    Perform(fs, engine, TrimPlan(url, start, end), env)
  }

  /** A trim whose download and cut succeed yields the cut of the download and leaves the file
      system as it found it. */
  lemma TrimDelivers(fs: Fs, url: string, start: real, end: real, env: Env)
    requires SingleInput !in fs && Output !in fs
    requires env.fetchOk(url) && env.execOk(TrimUntil(SingleInput, start, end, Output))
    ensures TrimVideo(fs, None, url, start, end, env) == Call(fs, Ok([Cut(Bytes(url), start, end)]))
  {
    var c := Cut(Bytes(url), start, end);
    var fs2 := fs[SingleInput := Bytes(url)][Output := c];
    TrimCutRuns(fs, url, start, end, env);
    TrimReadRuns(fs2, env);
    RemoveAdded(fs, SingleInput, Bytes(url), Output, c);
    RunChain(fs, TrimCut(url, start, end), TrimReadBack, env, fs2, [], Outcome(fs, 5, [c], None));
    assert [] + [c] == [c];
    PerformClean(fs, TrimPlan(url, start, end), env, fs, [c]);
  }

  /** Deleting two files that were added gives back the file system before. */
  lemma RemoveAdded(fs: Fs, a: FileName, x: Content, b: FileName, y: Content)
    requires a !in fs && b !in fs && a != b
    ensures fs[a := x][b := y] - {a} - {b} == fs
  {
    assert (fs[a := x][b := y] - {a} - {b}).Keys == fs.Keys;
  }

  /** The first half of a trim: `output.mp4` holds the cut when the command succeeds, and is
      not written when it fails. */
  lemma TrimCutRuns(fs: Fs, url: string, start: real, end: real, env: Env)
    requires env.fetchOk(url)
    ensures var fs1 := fs[SingleInput := Bytes(url)];
      Run(fs, TrimCut(url, start, end), env)
      == Outcome(if env.execOk(TrimUntil(SingleInput, start, end, Output)) then fs1[Output := Cut(Bytes(url), start, end)] else fs1,
                 5, [], None)
  {
    var p := TrimCut(url, start, end);
    var fs1 := fs[SingleInput := Bytes(url)];
    var fs2 := if env.execOk(TrimUntil(SingleInput, start, end, Output)) then fs1[Output := Cut(Bytes(url), start, end)] else fs1;
    assert Run(fs1, p[4..], env) == Outcome(fs2, 1, [], None);
    assert Run(fs1, p[3..], env) == Outcome(fs2, 2, [], None);
    assert Run(fs, p[2..], env) == Outcome(fs2, 3, [], None);
  }

  /** The second half of a trim: read `output.mp4`, delete both files. */
  lemma TrimReadRuns(fs: Fs, env: Env)
    requires SingleInput in fs && Output in fs
    ensures Run(fs, TrimReadBack, env) == Outcome(fs - {SingleInput} - {Output}, 5, [fs[Output]], None)
  {
    var p := TrimReadBack;
    var fs3 := fs - {SingleInput};
    var fs4 := fs3 - {Output};
    assert Run(fs4, p[4..], env) == Outcome(fs4, 1, [], None);
    assert Run(fs3, p[3..], env) == Outcome(fs4, 2, [], None);
    assert Run(fs, p[2..], env) == Outcome(fs4, 3, [], None);
  }

  /** A cut that fails is only noticed at the read, which rejects; the download is left behind
      in `input.mp4`. */
  lemma TrimFailureSurfacesAtRead(fs: Fs, url: string, start: real, end: real, env: Env)
    requires Output !in fs
    requires env.fetchOk(url) && !env.execOk(TrimUntil(SingleInput, start, end, Output))
    ensures TrimVideo(fs, None, url, start, end, env)
         == Call(fs[SingleInput := Bytes(url)], Err(Rejected(MissingFile(Output))))
  {
    var fs1 := fs[SingleInput := Bytes(url)];
    TrimCutRuns(fs, url, start, end, env);
    assert Run(fs1, TrimReadBack, env) == Outcome(fs1, 1, [], Some(MissingFile(Output)));
    RunChain(fs, TrimCut(url, start, end), TrimReadBack, env, fs1, [], Outcome(fs1, 1, [], Some(MissingFile(Output))));
  }

  /** A trim whose download fails rejects at the download, before anything is written. */
  lemma TrimDownloadRejects(fs: Fs, url: string, start: real, end: real, env: Env)
    requires !env.fetchOk(url)
    ensures TrimVideo(fs, None, url, start, end, env) == Call(fs, Err(Rejected(DownloadFailed(url))))
  {
    var p := TrimPlan(url, start, end);
    assert p[1..][0] == Download(url);
    assert Run(fs, p[1..], env) == Outcome(fs, 0, [], Some(DownloadFailed(url)));
    assert Run(fs, p, env) == Outcome(fs, 1, [], Some(DownloadFailed(url)));
  }

  /** `trimVideo` in every environment: a failed engine load rejects before anything runs, a
      call that resolves returns one blob, and, when `input.mp4` and `output.mp4` are free, it
      resolves exactly when the download and the cut succeed, with the cut and the file system
      as it was. */
  lemma TrimOutcome(fs: Fs, engine: Option<string>, url: string, start: real, end: real, env: Env)
    ensures var r := TrimVideo(fs, engine, url, start, end, env);
      && (engine.Some? ==> r == Call(fs, Err(EngineFailed(engine.value))))
      && (r.result.Ok? ==> |r.result.value| == 1)
      && (engine.None? && SingleInput !in fs && Output !in fs ==>
            && (r.result.Ok? <==> env.fetchOk(url) && env.execOk(TrimUntil(SingleInput, start, end, Output)))
            && (r.result.Ok? ==> r == Call(fs, Ok([Cut(Bytes(url), start, end)]))))
  {
    var p := TrimPlan(url, start, end);
    NoReadsCount(TrimCut(url, start, end));
    NoReadsCount(TrimReadBack[2..]);
    assert TrimReadBack[1..][1..] == TrimReadBack[2..];
    ReadsAppend(TrimCut(url, start, end), TrimReadBack);
    CleanRunReads(fs, p, env);
    if engine.None? && SingleInput !in fs && Output !in fs {
      if !env.fetchOk(url) {
        TrimDownloadRejects(fs, url, start, end, env);
      } else if !env.execOk(TrimUntil(SingleInput, start, end, Output)) {
        TrimFailureSurfacesAtRead(fs, url, start, end, env);
      } else {
        TrimDelivers(fs, url, start, end, env);
      }
    }
  }

  // ---------------------------------------------------------------------------------------
  // The concatenation both merge helpers end with

  /** Write `filelist.txt` listing `names`, report, concatenate into `out`, report, read it. */
  function Collect(names: seq<FileName>, out: FileName, listed: real, merged: real): seq<Step> {
    [Do(Write(FileList, Words(Manifest.Text(names)))), Tick(listed), Do(Exec(ConcatCopy(FileList, out, false))),
     Tick(merged), Do(ReadFile(out))]
  }

  /** Delete every listed file, then the manifest and the result; report completion. */
  function Cleanup(names: seq<FileName>, out: FileName): seq<Step> {
    Deletes(names) + Deletes([FileList, out]) + [Tick(100.0)]
  }

  /** Names the manifest and the result may not share with the listed files. */
  predicate Apart(names: seq<FileName>, out: FileName) {
    out != FileList && forall k :: 0 <= k < |names| ==> names[k] != FileList && names[k] != out
  }

  /** The concatenation succeeds exactly when there is at least one listed file, every listed
      file is present, and the command exits cleanly; the result is the listed contents joined
      in list order. */
  lemma CollectRuns(fs: Fs, names: seq<FileName>, out: FileName, listed: real, merged: real, env: Env)
    requires Apart(names, out) && |names| >= 1 && AllPresent(fs, names)
    requires env.execOk(ConcatCopy(FileList, out, false))
    ensures var j := Joined(Contents(fs, names));
      Run(fs, Collect(names, out, listed, merged), env)
      == Outcome(fs[FileList := Words(Manifest.Text(names))][out := j], 5, [j], None)
  {
    var list := Words(Manifest.Text(names));
    var fs1 := fs[FileList := list];
    var cmd := ConcatCopy(FileList, out, false);
    var j := Joined(Contents(fs, names));
    assert AllPresent(fs1, names);
    assert Contents(fs1, names) == Contents(fs, names);
    ConcatJoinsListed(fs1, FileList, names, out, false);
    ExecWrites(fs1, cmd, env, j);
    CollectTrace(fs, list, cmd, listed, merged, env, fs1[out := j]);
    assert Collect(names, out, listed, merged)
        == [Do(Write(FileList, list)), Tick(listed), Do(Exec(cmd)), Tick(merged), Do(ReadFile(cmd.output))];
  }

  /** The concatenation's trace once the command's effect is known. */
  lemma CollectTrace(fs: Fs, list: Content, cmd: Command, listed: real, merged: real, env: Env, after: Fs)
    requires Apply(fs[FileList := list], Do(Exec(cmd)), env) == Ok(Effect(after, []))
    ensures var p := [Do(Write(FileList, list)), Tick(listed), Do(Exec(cmd)), Tick(merged), Do(ReadFile(cmd.output))];
      Run(fs, p, env) == (if cmd.output in after then Outcome(after, 5, [after[cmd.output]], None)
                          else Outcome(after, 4, [], Some(MissingFile(cmd.output))))
  {
    var p := [Do(Write(FileList, list)), Tick(listed), Do(Exec(cmd)), Tick(merged), Do(ReadFile(cmd.output))];
    var fs1 := fs[FileList := list];
    var o := if cmd.output in after then Outcome(after, 1, [after[cmd.output]], None)
             else Outcome(after, 0, [], Some(MissingFile(cmd.output)));
    assert Run(after, p[4..], env) == o;
    assert Run(after, p[3..], env) == o.(done := o.done + 1);
    assert Run(fs1, p[2..], env) == o.(done := o.done + 2);
    assert Run(fs1, p[1..], env) == o.(done := o.done + 3);
  }

  /** Staging that adds `m` to the file system, followed by the concatenation of `names`. */
  lemma StagedThenCollect(fs: Fs, ab: seq<Step>, m: Fs, names: seq<FileName>, out: FileName,
                          listed: real, merged: real, env: Env)
    requires Run(fs, ab, env) == Outcome(fs + m, |ab|, [], None)
    requires Apart(names, out) && |names| >= 1 && AllPresent(fs + m, names)
    requires env.execOk(ConcatCopy(FileList, out, false))
    ensures var j := Joined(Contents(fs + m, names));
      Run(fs, ab + Collect(names, out, listed, merged), env)
      == Outcome((fs + m)[FileList := Words(Manifest.Text(names))][out := j], |ab| + 5, [j], None)
  {
    var c := Collect(names, out, listed, merged);
    CollectRuns(fs + m, names, out, listed, merged, env);
    RunChain(fs, ab, c, env, fs + m, [], Run(fs + m, c, env));
  }

  /** Without any listed file, with the first listed file missing, or with a failing command,
      the concatenation writes nothing. */
  lemma NothingCollected(fs: Fs, names: seq<FileName>, out: FileName, env: Env)
    requires Apart(names, out)
    requires |names| == 0 || names[0] !in fs || !env.execOk(ConcatCopy(FileList, out, false))
    ensures var fs1 := fs[FileList := Words(Manifest.Text(names))];
      Apply(fs1, Do(Exec(ConcatCopy(FileList, out, false))), env) == Ok(Effect(fs1, []))
  {
    var fs1 := fs[FileList := Words(Manifest.Text(names))];
    var cmd := ConcatCopy(FileList, out, false);
    if |names| == 0 || names[0] !in fs {
      ConcatNeedsFirst(fs1, FileList, names, out, false);
    }
    ExecWritesNothing(fs1, cmd, env);
  }

  /** Without any listed file, with the first listed file missing, or with a failing command,
      nothing is produced and the read rejects; the manifest is left behind. */
  lemma CollectRejects(fs: Fs, names: seq<FileName>, out: FileName, listed: real, merged: real, env: Env)
    requires Apart(names, out) && out !in fs
    requires |names| == 0 || names[0] !in fs || !env.execOk(ConcatCopy(FileList, out, false))
    ensures Run(fs, Collect(names, out, listed, merged), env)
         == Outcome(fs[FileList := Words(Manifest.Text(names))], 4, [], Some(MissingFile(out)))
  {
    var list := Words(Manifest.Text(names));
    NothingCollected(fs, names, out, env);
    var cmd := ConcatCopy(FileList, out, false);
    CollectTrace(fs, list, cmd, listed, merged, env, fs[FileList := list]);
    assert Collect(names, out, listed, merged)
        == [Do(Write(FileList, list)), Tick(listed), Do(Exec(cmd)), Tick(merged), Do(ReadFile(cmd.output))];
  }

  /** With the first k listed files present and file k missing, a clean exit leaves the first
      k files joined in the output, and the read delivers that shortened join. */
  lemma CollectTruncates(fs: Fs, names: seq<FileName>, out: FileName, listed: real, merged: real, env: Env, k: nat)
    requires Apart(names, out) && 0 < k < |names|
    requires names[k] !in fs && forall j :: 0 <= j < k ==> names[j] in fs
    requires env.execOk(ConcatCopy(FileList, out, false))
    ensures var j := Joined(Contents(fs, names[..k]));
      Run(fs, Collect(names, out, listed, merged), env)
      == Outcome(fs[FileList := Words(Manifest.Text(names))][out := j], 5, [j], None)
  {
    var list := Words(Manifest.Text(names));
    var fs1 := fs[FileList := list];
    var cmd := ConcatCopy(FileList, out, false);
    var j := Joined(Contents(fs, names[..k]));
    assert names[k] != FileList;
    assert forall i :: 0 <= i < k ==> names[..k][i] == names[i];
    assert Contents(fs1, names[..k]) == Contents(fs, names[..k]);
    ConcatStopsAtMissing(fs1, FileList, names, out, false, k);
    ExecWrites(fs1, cmd, env, j);
    CollectTrace(fs, list, cmd, listed, merged, env, fs1[out := j]);
    assert Collect(names, out, listed, merged)
        == [Do(Write(FileList, list)), Tick(listed), Do(Exec(cmd)), Tick(merged), Do(ReadFile(cmd.output))];
  }

  /** Cleanup of distinct present files removes exactly them, the manifest and the result. */
  lemma CleanupRuns(fs: Fs, names: seq<FileName>, out: FileName, env: Env)
    requires Apart(names, out) && Distinct(names) && Elems(names) <= fs.Keys
    requires FileList in fs && out in fs
    ensures Run(fs, Cleanup(names, out), env)
         == Outcome(fs - Elems(names) - Elems([FileList, out]), |names| + 3, [], None)
  {
    var a := Deletes(names);
    var b := Deletes([FileList, out]);
    var c := [Tick(100.0)];
    DeletesRemove(fs, names, env);
    var fs1 := fs - Elems(names);
    assert FileList !in Elems(names) && out !in Elems(names);
    assert [FileList, out][0] in Elems([FileList, out]) && [FileList, out][1] in Elems([FileList, out]);
    DeletesRemove(fs1, [FileList, out], env);
    var fs2 := fs1 - Elems([FileList, out]);
    assert Run(fs2, c, env) == Outcome(fs2, 1, [], None);
    RunChain(fs, a, b, env, fs1, [], Outcome(fs2, 2, [], None));
    RunChain(fs, a + b, c, env, fs2, [], Outcome(fs2, 1, [], None));
  }

  /** Removing what a merge added (`added`, keyed by the listed files, plus the manifest and
      the result) gives back the file system it started from. */
  lemma CleanupRestores(fs: Fs, added: Fs, names: seq<FileName>, out: FileName, list: Content, result: Content)
    requires Apart(names, out) && added.Keys == Elems(names)
    requires forall k :: 0 <= k < |names| ==> names[k] !in fs
    requires FileList !in fs && out !in fs
    ensures (fs + added)[FileList := list][out := result] - Elems(names) - Elems([FileList, out]) == fs
  {
    var x := (fs + added)[FileList := list][out := result] - Elems(names) - Elems([FileList, out]);
    assert Elems([FileList, out]) == {FileList, out} by {
      assert [FileList, out][0] in Elems([FileList, out]) && [FileList, out][1] in Elems([FileList, out]);
    }
    forall f | f in Elems(names) ensures f !in fs {
      var k :| 0 <= k < |names| && names[k] == f;
    }
    assert x.Keys == fs.Keys;
  }

  // ---------------------------------------------------------------------------------------
  // Progress of the per-clip loops

  /** The concatenation reads its output back once. */
  lemma CollectReadsOnce(names: seq<FileName>, out: FileName, listed: real, merged: real)
    ensures Reads(Collect(names, out, listed, merged)) == 1
  {
    var c := Collect(names, out, listed, merged);
    assert c == c[..4] + [c[4]];
    NoReadsCount(c[..4]);
    ReadsAppend(c[..4], [c[4]]);
  }

  lemma CleanupReadsNothing(names: seq<FileName>, out: FileName)
    ensures Reads(Cleanup(names, out)) == 0
  {
    DeletesReadNothing(names);
    DeletesReadNothing([FileList, out]);
    ReadsAppend(Deletes(names), Deletes([FileList, out]));
    ReadsAppend(Deletes(names) + Deletes([FileList, out]), [Tick(100.0)]);
  }

  /** A pipeline of a front that reads nothing, the concatenation and the cleanup reads once. */
  lemma CollectPlanReadsOnce(front: seq<Step>, names: seq<FileName>, out: FileName, listed: real, merged: real)
    requires forall s :: s in front ==> !IsRead(s)
    ensures Reads(front + Collect(names, out, listed, merged) + Cleanup(names, out)) == 1
  {
    NoReadsCount(front);
    CollectReadsOnce(names, out, listed, merged);
    CleanupReadsNothing(names, out);
    ReadsAppend(front, Collect(names, out, listed, merged));
    ReadsAppend(front + Collect(names, out, listed, merged), Cleanup(names, out));
  }

  /** `5 + (i + 1) / n * span`: the report after clip i of n. */
  function LoopTick(i: nat, n: nat, span: real): real
    requires i < n
  {
    5.0 + ((i + 1) as real / n as real) * span
  }

  lemma LoopTickRises(i: nat, n: nat, span: real)
    requires i < n && span > 0.0
    ensures 5.0 + (i as real / n as real) * span < LoopTick(i, n, span) <= 5.0 + span
  {
    assert i as real / n as real < (i + 1) as real / n as real;
    assert (i + 1) as real / n as real <= 1.0;
  }

  // ---------------------------------------------------------------------------------------
  // mergeVideos

  /** `clip_${i}.mp4` for every clip. */
  function StagedNames(n: nat): (r: seq<FileName>)
    ensures |r| == n && forall k :: 0 <= k < n ==> r[k] == StagedClip(k)
  {
    seq(n, k requires 0 <= k => StagedClip(k))
  }

  /** The download loop from clip i on: fetch, write `clip_${i}.mp4`, report. */
  function Fetches(clips: seq<MergeClip>, i: nat): seq<Step>
    requires i <= |clips|
    decreases |clips| - i
  {
    if i == |clips| then []
    else
      var u := clips[i].url;
      [Download(u), Do(Write(StagedClip(i), Bytes(u))), Tick(LoopTick(i, |clips|, 40.0))] + Fetches(clips, i + 1)
  }

  function MergePlan(clips: seq<MergeClip>): seq<Step> {
    var names := StagedNames(|clips|);
    [Tick(5.0)] + Fetches(clips, 0) + Collect(names, Output, 50.0, 90.0) + Cleanup(names, Output)
  }

  function MergeVideos(fs: Fs, engine: Option<string>, clips: seq<MergeClip>, env: Env): Call {
    Perform(fs, engine, MergePlan(clips), env)
  }

  /** The downloads of clips i.., keyed by their staged names. */
  function StagedMap(clips: seq<MergeClip>, i: nat): (m: Fs)
    requires i <= |clips|
    ensures forall k :: i <= k < |clips| ==> StagedClip(k) in m && m[StagedClip(k)] == Bytes(clips[k].url)
    ensures forall f :: f in m ==> f.StagedClip? && i <= f.index < |clips|
    decreases |clips| - i
  {
    if i == |clips| then map[] else StagedMap(clips, i + 1)[StagedClip(i) := Bytes(clips[i].url)]
  }

  predicate FetchesOk(urls: seq<string>, env: Env) {
    forall k :: 0 <= k < |urls| ==> env.fetchOk(urls[k])
  }

  function MergeUrls(clips: seq<MergeClip>): (r: seq<string>)
    ensures |r| == |clips| && forall k :: 0 <= k < |clips| ==> r[k] == clips[k].url
  {
    seq(|clips|, k requires 0 <= k < |clips| => clips[k].url)
  }

  /** Writing one more file under a fresh key commutes with adding the rest of the map. */
  lemma AddFresh(fs: Fs, rest: Fs, f: FileName, v: Content)
    requires f !in rest
    ensures fs[f := v] + rest == fs + rest[f := v]
  {
    var a := fs[f := v] + rest;
    var b := fs + rest[f := v];
    assert a.Keys == b.Keys;
    forall g | g in a ensures a[g] == b[g] {
      if g == f {
        assert a[g] == v;
      }
    }
  }

  lemma {:induction false} FetchesRun(fs: Fs, clips: seq<MergeClip>, i: nat, env: Env)
    requires i <= |clips| && FetchesOk(MergeUrls(clips), env)
    ensures Run(fs, Fetches(clips, i), env) == Outcome(fs + StagedMap(clips, i), |Fetches(clips, i)|, [], None)
    decreases |clips| - i
  {
    if i < |clips| {
      var u := clips[i].url;
      var head := [Download(u), Do(Write(StagedClip(i), Bytes(u))), Tick(LoopTick(i, |clips|, 40.0))];
      var fs1 := fs[StagedClip(i) := Bytes(u)];
      assert env.fetchOk(MergeUrls(clips)[i]);
      assert Run(fs1, head[2..], env) == Outcome(fs1, 1, [], None);
      assert Run(fs, head, env) == Outcome(fs1, 3, [], None);
      FetchesRun(fs1, clips, i + 1, env);
      AddFresh(fs, StagedMap(clips, i + 1), StagedClip(i), Bytes(u));
      RunChain(fs, head, Fetches(clips, i + 1), env, fs1, [], Run(fs1, Fetches(clips, i + 1), env));
    }
  }

  lemma {:induction false} FetchesLength(clips: seq<MergeClip>, i: nat)
    requires i <= |clips|
    ensures |Fetches(clips, i)| == 3 * (|clips| - i)
    decreases |clips| - i
  {
    if i < |clips| {
      FetchesLength(clips, i + 1);
    }
  }

  lemma StagedKeys(clips: seq<MergeClip>)
    ensures StagedMap(clips, 0).Keys == Elems(StagedNames(|clips|))
  {
    var w := StagedNames(|clips|);
    forall f | f in StagedMap(clips, 0) ensures f in Elems(w) {
      assert w[f.index] == f;
    }
  }

  lemma StagedDistinct(n: nat)
    ensures Distinct(StagedNames(n)) && Apart(StagedNames(n), Output)
  {
  }

  /** The clip windows play no part: clip lists with the same URLs give the same trace. */
  lemma {:induction false} MergeIgnoresWindows(a: seq<MergeClip>, b: seq<MergeClip>)
    requires MergeUrls(a) == MergeUrls(b)
    ensures MergePlan(a) == MergePlan(b)
  {
    FetchesAgree(a, b, 0);
  }

  lemma {:induction false} FetchesAgree(a: seq<MergeClip>, b: seq<MergeClip>, i: nat)
    requires MergeUrls(a) == MergeUrls(b) && i <= |a|
    ensures Fetches(a, i) == Fetches(b, i)
    decreases |a| - i
  {
    assert |a| == |MergeUrls(a)| == |b|;
    if i < |a| {
      assert a[i].url == MergeUrls(a)[i] == b[i].url;
      FetchesAgree(a, b, i + 1);
    }
  }

  /** The downloads of `clips` in clip order. */
  function Downloaded(clips: seq<MergeClip>): (r: seq<Content>)
    ensures |r| == |clips| && forall k :: 0 <= k < |clips| ==> r[k] == Bytes(clips[k].url)
  {
    seq(|clips|, k requires 0 <= k < |clips| => Bytes(clips[k].url))
  }

  /** Everything up to the read, when the downloads and the concatenation succeed. */
  lemma MergeFrontRuns(fs: Fs, clips: seq<MergeClip>, env: Env)
    requires |clips| >= 1 && FetchesOk(MergeUrls(clips), env)
    requires env.execOk(ConcatCopy(FileList, Output, false))
    ensures var names := StagedNames(|clips|);
      var front := [Tick(5.0)] + Fetches(clips, 0) + Collect(names, Output, 50.0, 90.0);
      Run(fs, front, env)
      == Outcome((fs + StagedMap(clips, 0))[FileList := Words(Manifest.Text(names))][Output := Joined(Downloaded(clips))],
                 |front|, [Joined(Downloaded(clips))], None)
  {
    var n := |clips|;
    var names := StagedNames(n);
    var a := [Tick(5.0)];
    var b := Fetches(clips, 0);
    var c := Collect(names, Output, 50.0, 90.0);
    assert Run(fs, a, env) == Outcome(fs, 1, [], None);
    FetchesRun(fs, clips, 0, env);
    RunChain(fs, a, b, env, fs, [], Run(fs, b, env));
    StagedDistinct(n);
    StagedContents(fs, clips);
    StagedThenCollect(fs, a + b, StagedMap(clips, 0), names, Output, 50.0, 90.0, env);
  }

  /** After staging, the manifest's files are all present and hold the downloads in order. */
  lemma StagedContents(fs: Fs, clips: seq<MergeClip>)
    ensures AllPresent(fs + StagedMap(clips, 0), StagedNames(|clips|))
    ensures Contents(fs + StagedMap(clips, 0), StagedNames(|clips|)) == Downloaded(clips)
  {
  }

  /** The cleanup after a successful merge removes exactly what the merge added. */
  lemma MergeCleanupRestores(fs: Fs, clips: seq<MergeClip>, env: Env)
    requires FileList !in fs && Output !in fs && forall k :: 0 <= k < |clips| ==> StagedClip(k) !in fs
    ensures var names := StagedNames(|clips|);
      var fs2 := (fs + StagedMap(clips, 0))[FileList := Words(Manifest.Text(names))][Output := Joined(Downloaded(clips))];
      Run(fs2, Cleanup(names, Output), env) == Outcome(fs, |Cleanup(names, Output)|, [], None)
  {
    var names := StagedNames(|clips|);
    var j := Joined(Downloaded(clips));
    var fs2 := (fs + StagedMap(clips, 0))[FileList := Words(Manifest.Text(names))][Output := j];
    StagedKeys(clips);
    StagedDistinct(|clips|);
    CleanupRuns(fs2, names, Output, env);
    CleanupRestores(fs, StagedMap(clips, 0), names, Output, Words(Manifest.Text(names)), j);
  }

  /** A merge whose downloads and concatenation succeed yields the downloads joined in clip
      order, and leaves the file system as it found it. */
  lemma MergeDelivers(fs: Fs, clips: seq<MergeClip>, env: Env)
    requires |clips| >= 1 && FetchesOk(MergeUrls(clips), env)
    requires env.execOk(ConcatCopy(FileList, Output, false))
    requires FileList !in fs && Output !in fs && forall k :: 0 <= k < |clips| ==> StagedClip(k) !in fs
    ensures MergeVideos(fs, None, clips, env) == Call(fs, Ok([Joined(Downloaded(clips))]))
  {
    var names := StagedNames(|clips|);
    var front := [Tick(5.0)] + Fetches(clips, 0) + Collect(names, Output, 50.0, 90.0);
    var j := Joined(Downloaded(clips));
    MergeFrontRuns(fs, clips, env);
    MergeCleanupRestores(fs, clips, env);
    PerformChain(fs, front, Cleanup(names, Output), env,
                 (fs + StagedMap(clips, 0))[FileList := Words(Manifest.Text(names))][Output := j], [j]);
  }

  /** An empty clip list is not refused up front: the empty manifest does not parse, the read
      rejects, and `filelist.txt` is left behind. */
  lemma EmptyMergeRejects(fs: Fs, env: Env)
    requires Output !in fs
    ensures MergeVideos(fs, None, [], env) == Call(fs[FileList := Words("")], Err(Rejected(MissingFile(Output))))
  {
    var names := StagedNames(0);
    assert names == [];
    var a := [Tick(5.0)] + Fetches([], 0);
    assert a == [Tick(5.0)];
    assert Run(fs, a, env) == Outcome(fs, 1, [], None);
    CollectRejects(fs, names, Output, 50.0, 90.0, env);
    assert Manifest.Text(names) == "";
    RunChain(fs, a, Collect(names, Output, 50.0, 90.0), env, fs, [], Run(fs, Collect(names, Output, 50.0, 90.0), env));
    RunAppend(fs, a + Collect(names, Output, 50.0, 90.0), Cleanup(names, Output), env);
  }

  lemma {:induction false} FetchesReadNothing(clips: seq<MergeClip>, i: nat)
    requires i <= |clips|
    ensures forall s :: s in Fetches(clips, i) ==> !IsRead(s)
    decreases |clips| - i
  {
    if i < |clips| {
      FetchesReadNothing(clips, i + 1);
    }
  }

  /** `mergeVideos` in every environment: a failed engine load rejects before anything runs,
      and a call that resolves returns one blob. */
  lemma MergeOutcome(fs: Fs, engine: Option<string>, clips: seq<MergeClip>, env: Env)
    ensures var r := MergeVideos(fs, engine, clips, env);
      && (engine.Some? ==> r == Call(fs, Err(EngineFailed(engine.value))))
      && (r.result.Ok? ==> |r.result.value| == 1)
  {
    var names := StagedNames(|clips|);
    FetchesReadNothing(clips, 0);
    CollectPlanReadsOnce([Tick(5.0)] + Fetches(clips, 0), names, Output, 50.0, 90.0);
    CleanRunReads(fs, MergePlan(clips), env);
  }

  // ---------------------------------------------------------------------------------------
  // trimAndMergeVideos

  /** `trimmed_${i}.mp4` for every clip. */
  function TrimmedNames(n: nat): (r: seq<FileName>)
    ensures |r| == n && forall k :: 0 <= k < n ==> r[k] == Trimmed(k)
  {
    seq(n, k requires 0 <= k => Trimmed(k))
  }

  /** Clip i's cut: `-i input_${i}.mp4 -ss start -to end -c copy -avoid_negative_ts 1 trimmed_${i}.mp4`. */
  function ClipTrim(c: TrimClip, i: nat): Command {
    TrimUntil(RawInput(i), c.startTime, c.endTime, Trimmed(i))
  }

  /** The trim loop from clip i on: fetch, write, cut (every clip, whatever its window),
      delete the download, report. */
  function TrimLoop(clips: seq<TrimClip>, i: nat): seq<Step>
    requires i <= |clips|
    decreases |clips| - i
  {
    if i == |clips| then []
    else
      var u := clips[i].url;
      [Download(u), Do(Write(RawInput(i), Bytes(u))), Do(Exec(ClipTrim(clips[i], i))), Do(Delete(RawInput(i))),
       Tick(LoopTick(i, |clips|, 60.0))] + TrimLoop(clips, i + 1)
  }

  function TrimMergePlan(clips: seq<TrimClip>): seq<Step> {
    var names := TrimmedNames(|clips|);
    [Tick(5.0)] + TrimLoop(clips, 0) + Collect(names, Final, 70.0, 95.0) + Cleanup(names, Final)
  }

  function TrimAndMergeVideos(fs: Fs, engine: Option<string>, clips: seq<TrimClip>, env: Env): Call {
    Perform(fs, engine, TrimMergePlan(clips), env)
  }

  function TrimUrls(clips: seq<TrimClip>): (r: seq<string>)
    ensures |r| == |clips| && forall k :: 0 <= k < |clips| ==> r[k] == clips[k].url
  {
    seq(|clips|, k requires 0 <= k < |clips| => clips[k].url)
  }

  /** What clip i's cut yields: its window of its download. */
  function CutOf(c: TrimClip): Content {
    Cut(Bytes(c.url), c.startTime, c.endTime)
  }

  /** The cuts of clips i.. that succeed, keyed by their trimmed names. */
  function TrimmedMap(clips: seq<TrimClip>, i: nat, env: Env): (m: Fs)
    requires i <= |clips|
    ensures forall k :: i <= k < |clips| ==>
      (Trimmed(k) in m <==> env.execOk(ClipTrim(clips[k], k)))
    ensures forall k :: i <= k < |clips| && Trimmed(k) in m ==> m[Trimmed(k)] == CutOf(clips[k])
    ensures forall f :: f in m ==> f.Trimmed? && i <= f.index < |clips|
    decreases |clips| - i
  {
    if i == |clips| then map[]
    else
      var rest := TrimmedMap(clips, i + 1, env);
      if env.execOk(ClipTrim(clips[i], i)) then rest[Trimmed(i) := CutOf(clips[i])] else rest
  }

  /** One clip: the download comes and goes, and the cut is in place exactly when it
      succeeded. */
  lemma TrimStepRuns(fs: Fs, clips: seq<TrimClip>, i: nat, env: Env)
    requires i < |clips| && RawInput(i) !in fs && env.fetchOk(clips[i].url)
    ensures var u := clips[i].url;
      var step := [Download(u), Do(Write(RawInput(i), Bytes(u))), Do(Exec(ClipTrim(clips[i], i))),
                   Do(Delete(RawInput(i))), Tick(LoopTick(i, |clips|, 60.0))];
      var after := if env.execOk(ClipTrim(clips[i], i)) then fs[Trimmed(i) := CutOf(clips[i])] else fs;
      Run(fs, step, env) == Outcome(after, 5, [], None)
  {
    var u := clips[i].url;
    var step := [Download(u), Do(Write(RawInput(i), Bytes(u))), Do(Exec(ClipTrim(clips[i], i))),
                 Do(Delete(RawInput(i))), Tick(LoopTick(i, |clips|, 60.0))];
    var fs1 := fs[RawInput(i) := Bytes(u)];
    assert Produce(fs1, ClipTrim(clips[i], i)) == Some(CutOf(clips[i]));
    var fs2 := if env.execOk(ClipTrim(clips[i], i)) then fs1[Trimmed(i) := CutOf(clips[i])] else fs1;
    var fs3 := fs2 - {RawInput(i)};
    assert fs3 == if env.execOk(ClipTrim(clips[i], i)) then fs[Trimmed(i) := CutOf(clips[i])] else fs;
    assert Run(fs3, step[4..], env) == Outcome(fs3, 1, [], None);
    assert Run(fs2, step[3..], env) == Outcome(fs3, 2, [], None);
    assert Run(fs1, step[2..], env) == Outcome(fs3, 3, [], None);
  }

  lemma {:induction false} TrimLoopRuns(fs: Fs, clips: seq<TrimClip>, i: nat, env: Env)
    requires i <= |clips| && FetchesOk(TrimUrls(clips), env)
    requires forall k :: i <= k < |clips| ==> RawInput(k) !in fs
    ensures Run(fs, TrimLoop(clips, i), env) == Outcome(fs + TrimmedMap(clips, i, env), |TrimLoop(clips, i)|, [], None)
    decreases |clips| - i
  {
    if i < |clips| {
      var u := clips[i].url;
      var step := [Download(u), Do(Write(RawInput(i), Bytes(u))), Do(Exec(ClipTrim(clips[i], i))),
                   Do(Delete(RawInput(i))), Tick(LoopTick(i, |clips|, 60.0))];
      var ok := env.execOk(ClipTrim(clips[i], i));
      var fs1 := if ok then fs[Trimmed(i) := CutOf(clips[i])] else fs;
      assert env.fetchOk(TrimUrls(clips)[i]);
      TrimStepRuns(fs, clips, i, env);
      TrimLoopRuns(fs1, clips, i + 1, env);
      var rest := TrimmedMap(clips, i + 1, env);
      if ok {
        AddFresh(fs, rest, Trimmed(i), CutOf(clips[i]));
      }
      assert fs1 + rest == fs + TrimmedMap(clips, i, env);
      RunChain(fs, step, TrimLoop(clips, i + 1), env, fs1, [], Run(fs1, TrimLoop(clips, i + 1), env));
    }
  }

  /** Every cut succeeds. */
  predicate CutsOk(clips: seq<TrimClip>, env: Env) {
    forall k :: 0 <= k < |clips| ==> env.execOk(ClipTrim(clips[k], k))
  }

  /** The cuts of `clips` in clip order. */
  function CutContents(clips: seq<TrimClip>): (r: seq<Content>)
    ensures |r| == |clips| && forall k :: 0 <= k < |clips| ==> r[k] == CutOf(clips[k])
  {
    seq(|clips|, k requires 0 <= k < |clips| => CutOf(clips[k]))
  }

  lemma TrimmedKeys(clips: seq<TrimClip>, env: Env)
    requires CutsOk(clips, env)
    ensures TrimmedMap(clips, 0, env).Keys == Elems(TrimmedNames(|clips|))
    ensures Distinct(TrimmedNames(|clips|)) && Apart(TrimmedNames(|clips|), Final)
  {
    var w := TrimmedNames(|clips|);
    forall f | f in TrimmedMap(clips, 0, env) ensures f in Elems(w) {
      assert w[f.index] == f;
    }
    forall f | f in Elems(w) ensures f in TrimmedMap(clips, 0, env) {
      var k :| 0 <= k < |w| && w[k] == f;
    }
  }

  /** Everything up to the read, when every download, cut and the concatenation succeed. */
  lemma TrimMergeFrontRuns(fs: Fs, clips: seq<TrimClip>, env: Env)
    requires |clips| >= 1 && FetchesOk(TrimUrls(clips), env) && CutsOk(clips, env)
    requires env.execOk(ConcatCopy(FileList, Final, false))
    requires forall k :: 0 <= k < |clips| ==> RawInput(k) !in fs
    ensures var names := TrimmedNames(|clips|);
      var front := [Tick(5.0)] + TrimLoop(clips, 0) + Collect(names, Final, 70.0, 95.0);
      Run(fs, front, env)
      == Outcome((fs + TrimmedMap(clips, 0, env))[FileList := Words(Manifest.Text(names))][Final := Joined(CutContents(clips))],
                 |front|, [Joined(CutContents(clips))], None)
  {
    var names := TrimmedNames(|clips|);
    TrimMergeLoopRuns(fs, clips, env);
    TrimmedKeys(clips, env);
    TrimmedContents(fs, clips, env);
    StagedThenCollect(fs, [Tick(5.0)] + TrimLoop(clips, 0), TrimmedMap(clips, 0, env), names, Final, 70.0, 95.0, env);
  }

  /** After every cut succeeds, the manifest's files are all present and hold the cuts in
      order. */
  lemma TrimmedContents(fs: Fs, clips: seq<TrimClip>, env: Env)
    requires CutsOk(clips, env)
    ensures AllPresent(fs + TrimmedMap(clips, 0, env), TrimmedNames(|clips|))
    ensures Contents(fs + TrimmedMap(clips, 0, env), TrimmedNames(|clips|)) == CutContents(clips)
  {
  }

  /** The opening report and the trim loop. */
  lemma TrimMergeLoopRuns(fs: Fs, clips: seq<TrimClip>, env: Env)
    requires FetchesOk(TrimUrls(clips), env)
    requires forall k :: 0 <= k < |clips| ==> RawInput(k) !in fs
    ensures var ab := [Tick(5.0)] + TrimLoop(clips, 0);
      Run(fs, ab, env) == Outcome(fs + TrimmedMap(clips, 0, env), |ab|, [], None)
  {
    assert Run(fs, [Tick(5.0)], env) == Outcome(fs, 1, [], None);
    TrimLoopRuns(fs, clips, 0, env);
    RunChain(fs, [Tick(5.0)], TrimLoop(clips, 0), env, fs, [], Run(fs, TrimLoop(clips, 0), env));
  }

  /** No name a trim-and-merge of n clips uses is in use. */
  predicate TrimMergeUnused(fs: Fs, n: nat) {
    FileList !in fs && Final !in fs && forall k :: 0 <= k < n ==> RawInput(k) !in fs && Trimmed(k) !in fs
  }

  lemma TrimMergeCleanupRestores(fs: Fs, clips: seq<TrimClip>, env: Env)
    requires TrimMergeUnused(fs, |clips|) && CutsOk(clips, env)
    ensures var names := TrimmedNames(|clips|);
      var fs2 := (fs + TrimmedMap(clips, 0, env))[FileList := Words(Manifest.Text(names))][Final := Joined(CutContents(clips))];
      Run(fs2, Cleanup(names, Final), env) == Outcome(fs, |Cleanup(names, Final)|, [], None)
  {
    var names := TrimmedNames(|clips|);
    var j := Joined(CutContents(clips));
    var fs2 := (fs + TrimmedMap(clips, 0, env))[FileList := Words(Manifest.Text(names))][Final := j];
    TrimmedKeys(clips, env);
    CleanupRuns(fs2, names, Final, env);
    CleanupRestores(fs, TrimmedMap(clips, 0, env), names, Final, Words(Manifest.Text(names)), j);
  }

  /** A trim-and-merge whose every step succeeds yields the clips' windows joined in clip
      order, and leaves the file system as it found it. */
  lemma TrimMergeDelivers(fs: Fs, clips: seq<TrimClip>, env: Env)
    requires |clips| >= 1 && FetchesOk(TrimUrls(clips), env) && CutsOk(clips, env)
    requires env.execOk(ConcatCopy(FileList, Final, false))
    requires TrimMergeUnused(fs, |clips|)
    ensures TrimAndMergeVideos(fs, None, clips, env) == Call(fs, Ok([Joined(CutContents(clips))]))
  {
    var names := TrimmedNames(|clips|);
    var front := [Tick(5.0)] + TrimLoop(clips, 0) + Collect(names, Final, 70.0, 95.0);
    var j := Joined(CutContents(clips));
    TrimMergeFrontRuns(fs, clips, env);
    TrimMergeCleanupRestores(fs, clips, env);
    PerformChain(fs, front, Cleanup(names, Final), env,
                 (fs + TrimmedMap(clips, 0, env))[FileList := Words(Manifest.Text(names))][Final := j], [j]);
  }

  /** A cut that fails is not noticed at the cut. When it is clip 0's cut, or when the
      concatenation fails as well, nothing is concatenated: the read of `final.mp4` rejects,
      and the manifest and every successful cut are left behind. */
  lemma FailedCutRejects(fs: Fs, clips: seq<TrimClip>, env: Env, k: nat)
    requires FetchesOk(TrimUrls(clips), env)
    requires k < |clips| && !env.execOk(ClipTrim(clips[k], k)) && Trimmed(k) !in fs
    requires k == 0 || !env.execOk(ConcatCopy(FileList, Final, false))
    requires Final !in fs && forall i :: 0 <= i < |clips| ==> RawInput(i) !in fs
    ensures var names := TrimmedNames(|clips|);
      TrimAndMergeVideos(fs, None, clips, env)
      == Call((fs + TrimmedMap(clips, 0, env))[FileList := Words(Manifest.Text(names))], Err(Rejected(MissingFile(Final))))
  {
    var names := TrimmedNames(|clips|);
    var fs2 := (fs + TrimmedMap(clips, 0, env))[FileList := Words(Manifest.Text(names))];
    FailedCutFront(fs, clips, env, k);
    TrimMergeFrontRejects(fs, clips, env, fs2, MissingFile(Final));
  }

  /** The front of a trim-and-merge after a cut that leaves nothing to concatenate. */
  lemma FailedCutFront(fs: Fs, clips: seq<TrimClip>, env: Env, k: nat)
    requires FetchesOk(TrimUrls(clips), env)
    requires k < |clips| && !env.execOk(ClipTrim(clips[k], k)) && Trimmed(k) !in fs
    requires k == 0 || !env.execOk(ConcatCopy(FileList, Final, false))
    requires Final !in fs && forall i :: 0 <= i < |clips| ==> RawInput(i) !in fs
    ensures var names := TrimmedNames(|clips|);
      var o := Run(fs, [Tick(5.0)] + TrimLoop(clips, 0) + Collect(names, Final, 70.0, 95.0), env);
      o.fs == (fs + TrimmedMap(clips, 0, env))[FileList := Words(Manifest.Text(names))] && o.fault == Some(MissingFile(Final))
  {
    var names := TrimmedNames(|clips|);
    var fs1 := fs + TrimmedMap(clips, 0, env);
    TrimMergeLoopRuns(fs, clips, env);
    FailedCollect(fs, clips, env, k);
    ChainRejects(fs, [Tick(5.0)] + TrimLoop(clips, 0), Collect(names, Final, 70.0, 95.0), env, fs1,
                 fs1[FileList := Words(Manifest.Text(names))], MissingFile(Final));
  }

  /** The concatenation step after a cut that leaves nothing to concatenate. */
  lemma FailedCollect(fs: Fs, clips: seq<TrimClip>, env: Env, k: nat)
    requires k < |clips| && !env.execOk(ClipTrim(clips[k], k)) && Trimmed(k) !in fs
    requires k == 0 || !env.execOk(ConcatCopy(FileList, Final, false))
    requires Final !in fs
    ensures var names := TrimmedNames(|clips|); var fs1 := fs + TrimmedMap(clips, 0, env);
      Run(fs1, Collect(names, Final, 70.0, 95.0), env) == Outcome(fs1[FileList := Words(Manifest.Text(names))], 4, [], Some(MissingFile(Final)))
  {
    var names := TrimmedNames(|clips|);
    var fs1 := fs + TrimmedMap(clips, 0, env);
    CutMissing(fs, clips, env, k);
    assert k == 0 ==> names[0] !in fs1;
    assert Apart(names, Final);
    CollectRejects(fs1, names, Final, 70.0, 95.0, env);
  }

  /** A trim-and-merge whose front rejects rejects the same way. */
  lemma TrimMergeFrontRejects(fs: Fs, clips: seq<TrimClip>, env: Env, after: Fs, f: Fault)
    requires var names := TrimmedNames(|clips|);
      var o := Run(fs, [Tick(5.0)] + TrimLoop(clips, 0) + Collect(names, Final, 70.0, 95.0), env);
      o.fs == after && o.fault == Some(f)
    ensures TrimAndMergeVideos(fs, None, clips, env) == Call(after, Err(Rejected(f)))
  {
    var names := TrimmedNames(|clips|);
    PerformFrontRejects(fs, [Tick(5.0)] + TrimLoop(clips, 0) + Collect(names, Final, 70.0, 95.0), Cleanup(names, Final), env, after, f);
  }

  /** A trim-and-merge whose front runs cleanly and whose cleanup rejects rejects with the
      cleanup's fault. */
  lemma TrimMergeCleanupRejects(fs: Fs, clips: seq<TrimClip>, env: Env, mid: Fs, read: seq<Content>, after: Fs, f: Fault)
    requires var names := TrimmedNames(|clips|);
      var front := [Tick(5.0)] + TrimLoop(clips, 0) + Collect(names, Final, 70.0, 95.0);
      Run(fs, front, env) == Outcome(mid, |front|, read, None)
    requires var o := Run(mid, Cleanup(TrimmedNames(|clips|), Final), env); o.fs == after && o.fault == Some(f)
    ensures TrimAndMergeVideos(fs, None, clips, env) == Call(after, Err(Rejected(f)))
  {
    var names := TrimmedNames(|clips|);
    PerformCleanupRejects(fs, [Tick(5.0)] + TrimLoop(clips, 0) + Collect(names, Final, 70.0, 95.0), Cleanup(names, Final), env,
                          mid, read, after, f);
  }

  /** When the first failing cut is a later clip's (k > 0) and the concatenation exits
      cleanly, `final.mp4` holds the cuts before clip k joined, and the read delivers it. The
      call then rejects in cleanup, at deleting the missing `trimmed_{k}.mp4`: the cuts before
      it are deleted, and `final.mp4`, the manifest and the later cuts are left behind. */
  lemma FailedCutTruncates(fs: Fs, clips: seq<TrimClip>, env: Env, k: nat)
    requires FetchesOk(TrimUrls(clips), env)
    requires 0 < k < |clips| && !env.execOk(ClipTrim(clips[k], k)) && Trimmed(k) !in fs
    requires forall i :: 0 <= i < k ==> env.execOk(ClipTrim(clips[i], i))
    requires env.execOk(ConcatCopy(FileList, Final, false))
    requires forall i :: 0 <= i < |clips| ==> RawInput(i) !in fs
    ensures var names := TrimmedNames(|clips|);
      var fs2 := (fs + TrimmedMap(clips, 0, env))[FileList := Words(Manifest.Text(names))][Final := Joined(CutContents(clips[..k]))];
      TrimAndMergeVideos(fs, None, clips, env) == Call(fs2 - Elems(names[..k]), Err(Rejected(MissingFile(Trimmed(k)))))
  {
    var names := TrimmedNames(|clips|);
    var j := Joined(CutContents(clips[..k]));
    var fs2 := (fs + TrimmedMap(clips, 0, env))[FileList := Words(Manifest.Text(names))][Final := j];
    TruncatedFront(fs, clips, env, k);
    TruncatedCleanup(fs, clips, env, k);
    TrimMergeCleanupRejects(fs, clips, env, fs2, [j], fs2 - Elems(names[..k]), MissingFile(Trimmed(k)));
  }

  /** Cleanup after the truncated concatenation stops at the failed cut's name. */
  lemma TruncatedCleanup(fs: Fs, clips: seq<TrimClip>, env: Env, k: nat)
    requires 0 < k < |clips| && !env.execOk(ClipTrim(clips[k], k)) && Trimmed(k) !in fs
    requires forall i :: 0 <= i < k ==> env.execOk(ClipTrim(clips[i], i))
    ensures var names := TrimmedNames(|clips|);
      var fs2 := (fs + TrimmedMap(clips, 0, env))[FileList := Words(Manifest.Text(names))][Final := Joined(CutContents(clips[..k]))];
      var o := Run(fs2, Cleanup(names, Final), env);
      o.fs == fs2 - Elems(names[..k]) && o.fault == Some(MissingFile(Trimmed(k)))
  {
    var names := TrimmedNames(|clips|);
    var fs2 := (fs + TrimmedMap(clips, 0, env))[FileList := Words(Manifest.Text(names))][Final := Joined(CutContents(clips[..k]))];
    CutMissing(fs, clips, env, k);
    var o := CleanupStopsAt(fs2, names, k, env);
  }

  /** The front of a trim-and-merge whose first failing cut is a later clip's. */
  lemma TruncatedFront(fs: Fs, clips: seq<TrimClip>, env: Env, k: nat)
    requires FetchesOk(TrimUrls(clips), env)
    requires 0 < k < |clips| && !env.execOk(ClipTrim(clips[k], k)) && Trimmed(k) !in fs
    requires forall i :: 0 <= i < k ==> env.execOk(ClipTrim(clips[i], i))
    requires env.execOk(ConcatCopy(FileList, Final, false))
    requires forall i :: 0 <= i < |clips| ==> RawInput(i) !in fs
    ensures var names := TrimmedNames(|clips|);
      var o := Run(fs, [Tick(5.0)] + TrimLoop(clips, 0) + Collect(names, Final, 70.0, 95.0), env);
      o.fault == None && o.read == [Joined(CutContents(clips[..k]))]
      && o.fs == (fs + TrimmedMap(clips, 0, env))[FileList := Words(Manifest.Text(names))][Final := Joined(CutContents(clips[..k]))]
  {
    var names := TrimmedNames(|clips|);
    var a := [Tick(5.0)] + TrimLoop(clips, 0);
    var fs1 := fs + TrimmedMap(clips, 0, env);
    TrimMergeLoopRuns(fs, clips, env);
    CutMissing(fs, clips, env, k);
    var j := TruncatedCollect(fs1, clips, env, k);
    var fs2 := fs1[FileList := Words(Manifest.Text(names))][Final := j];
    RunChain(fs, a, Collect(names, Final, 70.0, 95.0), env, fs1, [], Outcome(fs2, 5, [j], None));
  }

  /** After the trim loop, a failed cut's output is absent and the successful ones hold
      their cuts. */
  lemma CutMissing(fs: Fs, clips: seq<TrimClip>, env: Env, k: nat)
    requires k < |clips| && !env.execOk(ClipTrim(clips[k], k)) && Trimmed(k) !in fs
    ensures Trimmed(k) !in fs + TrimmedMap(clips, 0, env)
    ensures forall i :: 0 <= i < |clips| && env.execOk(ClipTrim(clips[i], i)) ==>
      Trimmed(i) in fs + TrimmedMap(clips, 0, env) && (fs + TrimmedMap(clips, 0, env))[Trimmed(i)] == CutOf(clips[i])
  {
  }

  /** The concatenation after a failed cut k > 0 whose earlier cuts succeeded. */
  lemma TruncatedCollect(fs1: Fs, clips: seq<TrimClip>, env: Env, k: nat) returns (j: Content)
    requires 0 < k < |clips| && Trimmed(k) !in fs1
    requires forall i :: 0 <= i < k ==> Trimmed(i) in fs1 && fs1[Trimmed(i)] == CutOf(clips[i])
    requires env.execOk(ConcatCopy(FileList, Final, false))
    ensures j == Joined(CutContents(clips[..k]))
    ensures var names := TrimmedNames(|clips|);
      Run(fs1, Collect(names, Final, 70.0, 95.0), env)
      == Outcome(fs1[FileList := Words(Manifest.Text(names))][Final := j], 5, [j], None)
  {
    var names := TrimmedNames(|clips|);
    assert Apart(names, Final);
    CollectTruncates(fs1, names, Final, 70.0, 95.0, env, k);
    assert Contents(fs1, names[..k]) == CutContents(clips[..k]);
    j := Joined(CutContents(clips[..k]));
  }

  /** Cleanup of the trimmed names when `trimmed_{k}.mp4` is the first one missing. */
  lemma CleanupStopsAt(fs2: Fs, names: seq<FileName>, k: nat, env: Env) returns (o: Outcome)
    requires names == TrimmedNames(|names|) && k < |names|
    requires names[k] !in fs2 && forall i :: 0 <= i < k ==> names[i] in fs2
    ensures o == Outcome(fs2 - Elems(names[..k]), k, [], Some(MissingFile(names[k])))
    ensures Run(fs2, Cleanup(names, Final), env) == o
  {
    o := Outcome(fs2 - Elems(names[..k]), k, [], Some(MissingFile(names[k])));
    assert Distinct(names);
    DeletesRejectAbsent(fs2, names, env, k);
    PrefixRejects(fs2, Deletes(names), Deletes([FileList, Final]), [Tick(100.0)], env);
  }

  lemma {:induction false} TrimLoopShape(clips: seq<TrimClip>, i: nat)
    requires i <= |clips|
    ensures forall s :: s in TrimLoop(clips, i) ==> !IsRead(s)
    ensures forall k :: i <= k < |clips| ==> Download(clips[k].url) in TrimLoop(clips, i)
    decreases |clips| - i
  {
    if i < |clips| {
      TrimLoopShape(clips, i + 1);
    }
  }

  /** `trimAndMergeVideos` in every environment: a failed engine load rejects before anything
      runs, and a call that resolves returns one blob. When no name it uses is taken, it
      resolves only after every download and every cut succeeded: a concatenation cut short by
      a failed cut is never delivered. */
  lemma TrimMergeOutcome(fs: Fs, engine: Option<string>, clips: seq<TrimClip>, env: Env)
    ensures var r := TrimAndMergeVideos(fs, engine, clips, env);
      && (engine.Some? ==> r == Call(fs, Err(EngineFailed(engine.value))))
      && (r.result.Ok? ==> |r.result.value| == 1)
      && (r.result.Ok? && TrimMergeUnused(fs, |clips|) ==> FetchesOk(TrimUrls(clips), env) && CutsOk(clips, env))
  {
    var names := TrimmedNames(|clips|);
    var p := TrimMergePlan(clips);
    TrimLoopShape(clips, 0);
    CollectPlanReadsOnce([Tick(5.0)] + TrimLoop(clips, 0), names, Final, 70.0, 95.0);
    CleanRunReads(fs, p, env);
    var r := TrimAndMergeVideos(fs, engine, clips, env);
    if r.result.Ok? && TrimMergeUnused(fs, |clips|) {
      ResolvedCutsOk(fs, clips, env);
    }
  }

  /** A trim-and-merge on free names that resolves had every download and cut succeed. */
  lemma ResolvedCutsOk(fs: Fs, clips: seq<TrimClip>, env: Env)
    requires TrimMergeUnused(fs, |clips|)
    requires TrimAndMergeVideos(fs, None, clips, env).result.Ok?
    ensures FetchesOk(TrimUrls(clips), env) && CutsOk(clips, env)
  {
    var p := TrimMergePlan(clips);
    TrimLoopShape(clips, 0);
    CleanRunFetches(fs, p, env);
    forall k | 0 <= k < |clips| ensures env.fetchOk(TrimUrls(clips)[k]) {
      assert Download(clips[k].url) in p;
    }
    if !CutsOk(clips, env) {
      var k := FirstFailedCut(clips, env);
      if k == 0 || !env.execOk(ConcatCopy(FileList, Final, false)) {
        FailedCutRejects(fs, clips, env, k);
      } else {
        FailedCutTruncates(fs, clips, env, k);
      }
    }
  }

  /** The first clip whose cut fails. */
  lemma FirstFailedCut(clips: seq<TrimClip>, env: Env) returns (k: nat)
    requires !CutsOk(clips, env)
    ensures k < |clips| && !env.execOk(ClipTrim(clips[k], k))
    ensures forall i :: 0 <= i < k ==> env.execOk(ClipTrim(clips[i], i))
  {
    k := 0;
    while env.execOk(ClipTrim(clips[k], k))
      invariant k < |clips| && forall i :: 0 <= i < k ==> env.execOk(ClipTrim(clips[i], i))
      decreases |clips| - k
    {
      k := k + 1;
    }
  }

  // ---------------------------------------------------------------------------------------
  // Progress reports

  /** The reports of a trace strictly rise. */
  predicate TicksRise(steps: seq<Step>) {
    forall j, k :: 0 <= j < k < |steps| && steps[j].Tick? && steps[k].Tick? ==> steps[j].percent < steps[k].percent
  }

  /** Every report of a trace lies in `(lo, hi]`. */
  predicate TicksIn(steps: seq<Step>, lo: real, hi: real) {
    forall k :: 0 <= k < |steps| && steps[k].Tick? ==> lo < steps[k].percent <= hi
  }

  lemma TicksAppend(a: seq<Step>, b: seq<Step>, lo: real, mid: real, hi: real)
    requires lo <= mid <= hi
    requires TicksRise(a) && TicksRise(b) && TicksIn(a, lo, mid) && TicksIn(b, mid, hi)
    ensures TicksRise(a + b) && TicksIn(a + b, lo, hi)
  {
    var ab := a + b;
    forall k | 0 <= k < |ab| ensures ab[k] == (if k < |a| then a[k] else b[k - |a|]) {
    }
  }

  lemma {:induction false} FetchesTicks(clips: seq<MergeClip>, i: nat)
    requires i <= |clips| && 0 < |clips|
    ensures var f := Fetches(clips, i);
      TicksRise(f) && TicksIn(f, 5.0 + (i as real / |clips| as real) * 40.0, 45.0)
    decreases |clips| - i
  {
    var n := |clips|;
    if i < n {
      var u := clips[i].url;
      var t := LoopTick(i, n, 40.0);
      var step := [Download(u), Do(Write(StagedClip(i), Bytes(u))), Tick(t)];
      LoopTickRises(i, n, 40.0);
      FetchesTicks(clips, i + 1);
      TicksAppend(step, Fetches(clips, i + 1), 5.0 + (i as real / n as real) * 40.0, t, 45.0);
    }
  }

  lemma {:induction false} TrimLoopTicks(clips: seq<TrimClip>, i: nat)
    requires i <= |clips| && 0 < |clips|
    ensures var f := TrimLoop(clips, i);
      TicksRise(f) && TicksIn(f, 5.0 + (i as real / |clips| as real) * 60.0, 65.0)
    decreases |clips| - i
  {
    var n := |clips|;
    if i < n {
      var u := clips[i].url;
      var t := LoopTick(i, n, 60.0);
      var step := [Download(u), Do(Write(RawInput(i), Bytes(u))), Do(Exec(ClipTrim(clips[i], i))),
                   Do(Delete(RawInput(i))), Tick(t)];
      LoopTickRises(i, n, 60.0);
      TrimLoopTicks(clips, i + 1);
      TicksAppend(step, TrimLoop(clips, i + 1), 5.0 + (i as real / n as real) * 60.0, t, 65.0);
    }
  }

  lemma CollectTicks(names: seq<FileName>, out: FileName, listed: real, merged: real, lo: real)
    requires lo < listed < merged
    ensures TicksRise(Collect(names, out, listed, merged)) && TicksIn(Collect(names, out, listed, merged), lo, merged)
  {
  }

  lemma CleanupTicks(names: seq<FileName>, out: FileName, lo: real)
    requires lo < 100.0
    ensures var c := Cleanup(names, out);
      TicksRise(c) && TicksIn(c, lo, 100.0) && c[|c| - 1] == Tick(100.0)
  {
    var c := Cleanup(names, out);
    var d := Deletes(names) + Deletes([FileList, out]);
    assert c == d + [Tick(100.0)];
    forall k | 0 <= k < |d| ensures !d[k].Tick? {
      if k >= |names| {
        assert d[k] == Deletes([FileList, out])[k - |names|];
      }
    }
  }

  lemma LastOfAppend(x: seq<Step>, y: seq<Step>)
    requires |y| > 0
    ensures (x + y)[|x + y| - 1] == y[|y| - 1]
  {
  }

  /** A helper's trace in four phases: a first report of 5, a loop up to `m1`, the
      concatenation up to `m2`, and the cleanup ending at 100. */
  lemma PhasesRise(a: seq<Step>, b: seq<Step>, c: seq<Step>, d: seq<Step>, m1: real, m2: real)
    requires 5.0 <= m1 <= m2 <= 100.0 && a == [Tick(5.0)]
    requires TicksRise(b) && TicksIn(b, 5.0, m1)
    requires TicksRise(c) && TicksIn(c, m1, m2)
    requires TicksRise(d) && TicksIn(d, m2, 100.0) && |d| > 0 && d[|d| - 1] == Tick(100.0)
    ensures var p := a + b + c + d;
      TicksRise(p) && TicksIn(p, 0.0, 100.0) && p[|p| - 1] == Tick(100.0)
  {
    assert TicksRise(a) && TicksIn(a, 0.0, 5.0);
    TicksAppend(a, b, 0.0, 5.0, m1);
    TicksAppend(a + b, c, 0.0, m1, m2);
    TicksAppend(a + b + c, d, 0.0, m2, 100.0);
    LastOfAppend(a + b + c, d);
  }

  /** `mergeVideos` reports 5, one rising report per clip up to 45, then 50, 90 and 100. */
  lemma MergeProgress(clips: seq<MergeClip>)
    ensures var p := MergePlan(clips);
      TicksRise(p) && TicksIn(p, 0.0, 100.0) && p[|p| - 1] == Tick(100.0)
  {
    var names := StagedNames(|clips|);
    var b := Fetches(clips, 0);
    if |clips| > 0 {
      FetchesTicks(clips, 0);
    }
    assert TicksRise(b) && TicksIn(b, 5.0, 45.0);
    CollectTicks(names, Output, 50.0, 90.0, 45.0);
    CleanupTicks(names, Output, 90.0);
    PhasesRise([Tick(5.0)], b, Collect(names, Output, 50.0, 90.0), Cleanup(names, Output), 45.0, 90.0);
    assert MergePlan(clips) == [Tick(5.0)] + b + Collect(names, Output, 50.0, 90.0) + Cleanup(names, Output);
  }

  /** `trimAndMergeVideos` reports 5, one rising report per clip up to 65, then 70, 95 and
      100. */
  lemma TrimMergeProgress(clips: seq<TrimClip>)
    ensures var p := TrimMergePlan(clips);
      TicksRise(p) && TicksIn(p, 0.0, 100.0) && p[|p| - 1] == Tick(100.0)
  {
    var names := TrimmedNames(|clips|);
    var b := TrimLoop(clips, 0);
    if |clips| > 0 {
      TrimLoopTicks(clips, 0);
    }
    assert TicksRise(b) && TicksIn(b, 5.0, 65.0);
    CollectTicks(names, Final, 70.0, 95.0, 65.0);
    CleanupTicks(names, Final, 95.0);
    PhasesRise([Tick(5.0)], b, Collect(names, Final, 70.0, 95.0), Cleanup(names, Final), 65.0, 95.0);
    assert TrimMergePlan(clips) == [Tick(5.0)] + b + Collect(names, Final, 70.0, 95.0) + Cleanup(names, Final);
  }

  /** `trimVideo` reports 10, 30, 80 and 100. */
  lemma TrimProgress(url: string, start: real, end: real)
    ensures var p := TrimPlan(url, start, end);
      TicksRise(p) && TicksIn(p, 0.0, 100.0) && p[|p| - 1] == Tick(100.0)
  {
    var p := TrimPlan(url, start, end);
    assert p == [Tick(10.0), Download(url), Do(Write(SingleInput, Bytes(url))), Tick(30.0),
                 Do(Exec(TrimUntil(SingleInput, start, end, Output))), Tick(80.0), Do(ReadFile(Output)),
                 Do(Delete(SingleInput)), Do(Delete(Output)), Tick(100.0)];
  }
}
