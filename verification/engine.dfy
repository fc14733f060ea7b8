/** The media engine as the pipelines drive it: typed command descriptors instead of argument
    strings, a trace of steps (downloads, engine file operations, progress reports), and an
    interpreter of that trace over a virtual file system that maps names to symbolic contents.

    Engine behaviour modelled (ffmpeg.wasm 0.12): `writeFile` always succeeds and may
    overwrite; `readFile` and `deleteFile` reject when the name is absent; `exec` resolves to an
    exit code and never rejects, so a failing command only fails to produce its output file. */
module Engine {
  import opened Wrappers
  import opened Files
  import Manifest

  /** Filter-graph stream labels: `v{i}`, `v{i}out`, `a{i}`, `a{i}out`. */
  datatype Label = V(index: nat) | VOut(index: nat) | A(index: nat) | AOut(index: nat)

  datatype FilterPart =
    | ResetVideo(input: nat, out: Label)   // `[{input}:v]setpts=PTS-STARTPTS[{out}]`
    | ResetAudio(input: nat, out: Label)   // `[{input}:a]asetpts=PTS-STARTPTS[{out}]`
    | XFade(left: Label, right: Label, effect: string, duration: real, offset: real, out: Label)
      // `[{left}][{right}]xfade=transition={effect}:duration={duration}:offset={offset}[{out}]`
    | ACrossFade(left: Label, right: Label, duration: real, out: Label)
      // `[{left}][{right}]acrossfade=d={duration}:c1=tri:c2=tri[{out}]`

  /** `-filter_complex` parts (joined by ';') and the two `-map` labels. */
  datatype Graph = Graph(parts: seq<FilterPart>, mapVideo: Label, mapAudio: Label)

  /** Re-encoding settings of the filter-graph path. */
  datatype Codecs = Codecs(videoCodec: string, preset: string, crf: nat, audioCodec: string, audioBitrate: string)

  /** `-c:v libx264 -preset ultrafast -crf 23 -c:a aac -b:a 128k` */
  const GraphCodecs := Codecs("libx264", "ultrafast", 23, "aac", "128k")

  datatype Command =
    | TrimLength(input: FileName, start: real, length: real, output: FileName)
      // `-i {input} -ss {start} -t {length} -c copy {output}`
    | TrimUntil(input: FileName, start: real, end: real, output: FileName)
      // `-i {input} -ss {start} -to {end} -c copy -avoid_negative_ts 1 {output}`
    | ConcatCopy(list: FileName, output: FileName, fastStart: bool)
      // `-f concat -safe 0 -i {list} -c copy [-movflags +faststart] {output}`
    | FilterRender(inputs: seq<FileName>, graph: Graph, codecs: Codecs, fastStart: bool, output: FileName)
      // `-i ... -filter_complex ... -map [v] -map [a] <codecs> -movflags +faststart {output}`

  /** What a file holds, described by how it was made. */
  datatype Content =
    | Bytes(url: string)                                   // `fetchFile(url)`
    | Words(text: string)                                  // a text file the pipeline wrote
    | Cut(source: Content, start: real, end: real)         // stream copy of a time window
    | Joined(parts: seq<Content>)                          // concat-demuxer stream copy
    | Rendered(inputs: seq<Content>, graph: Graph, codecs: Codecs)  // filter-graph re-encode

  /** The contents of `names`, in order. */
  function Contents(fs: map<FileName, Content>, names: seq<FileName>): (r: seq<Content>)
    requires forall k :: 0 <= k < |names| ==> names[k] in fs
    ensures |r| == |names|
    ensures forall k :: 0 <= k < |names| ==> r[k] == fs[names[k]]
  {
    seq(|names|, k requires 0 <= k < |names| => fs[names[k]])
  }

  predicate AllPresent(fs: map<FileName, Content>, names: seq<FileName>) {
    forall k :: 0 <= k < |names| ==> names[k] in fs
  }

  /** The listed files up to the first one that is missing. The concat demuxer opens the
      first listed file when it starts and every later one only when it reaches it; a file it
      cannot open ends its input there, and the command still finishes with what it has. */
  function PresentPrefix(fs: map<FileName, Content>, names: seq<FileName>): (r: seq<FileName>)
    ensures |r| <= |names| && r == names[..|r|]
    ensures AllPresent(fs, r)
    ensures |r| < |names| ==> names[|r|] !in fs
    decreases |names|
  {
    if |names| == 0 || names[0] !in fs then []
    else
      var rest := PresentPrefix(fs, names[1..]);
      assert [names[0]] + rest == names[..|rest| + 1];
      [names[0]] + rest
  }

  /** What a command that exits with status 0 leaves in its output file, or None when it cannot
      start: a cut's input is missing, a rendering's input is missing (every `-i` is opened up
      front), or the concat manifest is unreadable, empty or names a missing first file. A
      concat whose first file is present joins the files up to the first missing one. The
      concat demuxer reads the manifest text back with `Manifest.Read`. */
  function Produce(fs: map<FileName, Content>, c: Command): (r: Option<Content>)
    ensures c.TrimLength? || c.TrimUntil? ==> (r.Some? <==> c.input in fs)
    ensures c.FilterRender? ==> (r.Some? <==> AllPresent(fs, c.inputs))
    ensures c.ConcatCopy? && r.Some? ==> c.list in fs && r.value.Joined? && |r.value.parts| >= 1
  {
    match c
    case TrimLength(i, start, length, _) => if i in fs then Some(Cut(fs[i], start, start + length)) else None
    case TrimUntil(i, start, end, _) => if i in fs then Some(Cut(fs[i], start, end)) else None
    case ConcatCopy(l, _, _) =>
      if l in fs && fs[l].Words? then
        match Manifest.Read(fs[l].text)
        case Some(names) =>
          if |names| >= 1 && names[0] in fs then Some(Joined(Contents(fs, PresentPrefix(fs, names)))) else None
        case None => None
      else None
    case FilterRender(ins, g, codecs, _, _) =>
      if AllPresent(fs, ins) then Some(Rendered(Contents(fs, ins), g, codecs)) else None
  }

  datatype EngineOp =
    | Write(name: FileName, data: Content)
    | Exec(command: Command)
    | ReadFile(name: FileName)
    | Delete(name: FileName)

  /** `MergeProgress.phase` */
  datatype Phase = Loading | Processing | Encoding | Completed

  /** `MergeProgress.message`, one constructor per message the video merger emits. */
  datatype Message =
    | LoadingEngine                        // first-load notice
    | TryingCdn(number: nat, total: nat)   // "loading from CDN {number}/{total}"
    | EngineLoaded
    | CdnFailed(number: nat)               // "CDN {number} failed, trying a backup source"
    | DownloadingClips
    | DownloadingCount(count: nat)
    | DownloadsDone
    | TrimmingClip(number: nat, total: nat)
    | PreparingMerge
    | Merging                              // concat path
    | MergingWithTransitions               // filter-graph path
    | Finalizing
    | MergeDone

  datatype Step =
    | Download(url: string)                                 // `fetchFile(url)`
    | Do(op: EngineOp)                                      // one awaited engine call
    | Notice(phase: Phase, percent: real, message: Message) // video merger `onProgress`
    | Tick(percent: real)                                   // helper-module `onProgress(number)`

  datatype Fault = DownloadFailed(url: string) | MissingFile(name: FileName)

  /** The outside world: which downloads succeed, and which commands exit with status 0 when
      they can run at all. */
  datatype Env = Env(fetchOk: string -> bool, execOk: Command -> bool)

  type Fs = map<FileName, Content>

  /** After a trace: the file system, how many steps completed, the contents read back, and
      the fault (if any) that stopped the trace at step `done`. */
  datatype Outcome = Outcome(fs: Fs, done: nat, read: seq<Content>, fault: Option<Fault>)

  datatype Effect = Effect(fs: Fs, read: seq<Content>)

  /** One step. */
  function Apply(fs: Fs, s: Step, env: Env): (r: Result<Effect, Fault>)
    ensures r.Err? <==>
      || (s.Download? && !env.fetchOk(s.url))
      || (s.Do? && (s.op.ReadFile? || s.op.Delete?) && s.op.name !in fs)
    ensures r.Ok? && s.Do? && s.op.Exec? ==>
      (r.value.fs == fs || (s.op.command.output in r.value.fs && r.value.fs - {s.op.command.output} == fs - {s.op.command.output}))
  {
    match s
    case Download(u) => if env.fetchOk(u) then Ok(Effect(fs, [])) else Err(DownloadFailed(u))
    case Do(Write(n, d)) => Ok(Effect(fs[n := d], []))
    case Do(Exec(c)) =>
      var d := Produce(fs, c);
      if d.Some? && env.execOk(c) then Ok(Effect(fs[c.output := d.value], [])) else Ok(Effect(fs, []))
    case Do(ReadFile(n)) => if n in fs then Ok(Effect(fs, [fs[n]])) else Err(MissingFile(n))
    case Do(Delete(n)) => if n in fs then Ok(Effect(fs - {n}, [])) else Err(MissingFile(n))
    case Notice(_, _, _) => Ok(Effect(fs, []))
    case Tick(_) => Ok(Effect(fs, []))
  }

  /** Runs a trace until it ends or a step rejects; nothing after a rejection runs, and no
      cleanup is attempted (the source has no `finally`). */
  function Run(fs: Fs, steps: seq<Step>, env: Env): (o: Outcome)
    ensures o.done <= |steps|
    ensures o.fault.None? <==> o.done == |steps|
    decreases |steps|
  {
    if |steps| == 0 then Outcome(fs, 0, [], None)
    else match Apply(fs, steps[0], env)
      case Err(f) => Outcome(fs, 0, [], Some(f))
      case Ok(e) =>
        var o := Run(e.fs, steps[1..], env);
        Outcome(o.fs, o.done + 1, e.read + o.read, o.fault)
  }

  /** A trace stops exactly at a step that rejects, with that step's fault; every step before
      it was accepted. */
  lemma {:induction false} RunStopsAtRejection(fs: Fs, steps: seq<Step>, env: Env)
    ensures var o := Run(fs, steps, env);
      o.fault.Some? ==> Apply(o.fs, steps[o.done], env) == Err(o.fault.value)
    decreases |steps|
  {
    if |steps| > 0 && Apply(fs, steps[0], env).Ok? {
      RunStopsAtRejection(Apply(fs, steps[0], env).value.fs, steps[1..], env);
    }
  }

  /** Continues an outcome with a further trace (sequential composition). */
  function Then(o: Outcome, rest: seq<Step>, env: Env): Outcome {
    if o.fault.Some? then o
    else
      var o2 := Run(o.fs, rest, env);
      Outcome(o2.fs, o.done + o2.done, o.read + o2.read, o2.fault)
  }

  /** Running a concatenation runs the first trace, then (if it did not fail) the second. */
  lemma {:induction false} RunAppend(fs: Fs, a: seq<Step>, b: seq<Step>, env: Env)
    ensures Run(fs, a + b, env) == Then(Run(fs, a, env), b, env)
    decreases |a|
  {
    if |a| == 0 {
      assert a + b == b;
    } else {
      assert (a + b)[0] == a[0];
      assert (a + b)[1..] == a[1..] + b;
      var r := Apply(fs, a[0], env);
      if r.Ok? {
        RunAppend(r.value.fs, a[1..], b, env);
        AppendAfterStep(Run(r.value.fs, a[1..], env), r.value.read, b, env);
      }
    }
  }

  /** The outcome of a first step that read `read` and continued with outcome `o`, followed
      by `b`. */
  lemma AppendAfterStep(o: Outcome, read: seq<Content>, b: seq<Step>, env: Env)
    ensures var first := Outcome(o.fs, o.done + 1, read + o.read, o.fault);
      var t := Then(o, b, env);
      Then(first, b, env) == Outcome(t.fs, t.done + 1, read + t.read, t.fault)
  {
    if o.fault.None? {
      var o2 := Run(o.fs, b, env);
      assert read + (o.read + o2.read) == (read + o.read) + o2.read;
    }
  }

  /** A command that produces nothing, or exits with an error, leaves the files alone. */
  lemma ExecWritesNothing(fs: Fs, c: Command, env: Env)
    requires Produce(fs, c).None? || !env.execOk(c)
    ensures Apply(fs, Do(Exec(c)), env) == Ok(Effect(fs, []))
  {
  }

  /** A command that produces `d` and exits cleanly writes `d` to its output. */
  lemma ExecWrites(fs: Fs, c: Command, env: Env, d: Content)
    requires Produce(fs, c) == Some(d) && env.execOk(c)
    ensures Apply(fs, Do(Exec(c)), env) == Ok(Effect(fs[c.output := d], []))
  {
  }

  /** Sequential composition of two traces whose outcomes are known, the first one clean. */
  lemma RunChain(fs: Fs, a: seq<Step>, b: seq<Step>, env: Env, mid: Fs, ra: seq<Content>, o: Outcome)
    requires Run(fs, a, env) == Outcome(mid, |a|, ra, None)
    requires Run(mid, b, env) == o
    ensures Run(fs, a + b, env) == Outcome(o.fs, |a| + o.done, ra + o.read, o.fault)
  {
    RunAppend(fs, a, b, env);
  }

  /** When the first k listed files are present and the next one (if any) is not, the
      present prefix is exactly those k files. */
  lemma {:induction false} PresentPrefixAt(fs: Fs, names: seq<FileName>, k: nat)
    requires k <= |names| && forall j :: 0 <= j < k ==> names[j] in fs
    requires k < |names| ==> names[k] !in fs
    ensures PresentPrefix(fs, names) == names[..k]
    decreases k
  {
    if k > 0 {
      assert names[0] in fs;
      PresentPrefixAt(fs, names[1..], k - 1);
      assert names[..k] == [names[0]] + names[1..][..k - 1];
    }
  }

  /** The concat demuxer joins the files its manifest lists, in listed order. */
  lemma ConcatJoinsListed(fs: Fs, list: FileName, names: seq<FileName>, out: FileName, fastStart: bool)
    requires |names| >= 1 && AllPresent(fs, names)
    requires list in fs && fs[list] == Words(Manifest.Text(names))
    ensures Produce(fs, ConcatCopy(list, out, fastStart)) == Some(Joined(Contents(fs, names)))
  {
    Manifest.ManifestRoundTrip(names);
    assert Manifest.Read(fs[list].text) == Some(names);
    PresentPrefixAt(fs, names, |names|);
    assert names[..|names|] == names;
    assert names[0] in fs;
  }

  /** A manifest whose file k (not the first) is missing, with every file before it present,
      yields the files before it joined: the output is cut short, not absent. */
  lemma ConcatStopsAtMissing(fs: Fs, list: FileName, names: seq<FileName>, out: FileName, fastStart: bool, k: nat)
    requires 0 < k < |names| && names[k] !in fs && forall j :: 0 <= j < k ==> names[j] in fs
    requires list in fs && fs[list] == Words(Manifest.Text(names))
    ensures Produce(fs, ConcatCopy(list, out, fastStart)) == Some(Joined(Contents(fs, names[..k])))
  {
    Manifest.ManifestRoundTrip(names);
    PresentPrefixAt(fs, names, k);
  }

  /** An empty manifest, or one whose first file is missing, produces nothing. */
  lemma ConcatNeedsFirst(fs: Fs, list: FileName, names: seq<FileName>, out: FileName, fastStart: bool)
    requires |names| == 0 || names[0] !in fs
    requires list in fs && fs[list] == Words(Manifest.Text(names))
    ensures Produce(fs, ConcatCopy(list, out, fastStart)).None?
  {
    if |names| == 0 {
      Manifest.EmptyUnreadable();
    } else {
      Manifest.ManifestRoundTrip(names);
    }
  }

  /** The steps that read a file back. */
  predicate IsRead(s: Step) {
    s.Do? && s.op.ReadFile?
  }

  /** How many steps of a trace read a file back. */
  function Reads(steps: seq<Step>): nat
    decreases |steps|
  {
    if |steps| == 0 then 0 else (if IsRead(steps[0]) then 1 else 0) + Reads(steps[1..])
  }

  lemma {:induction false} ReadsAppend(a: seq<Step>, b: seq<Step>)
    ensures Reads(a + b) == Reads(a) + Reads(b)
    decreases |a|
  {
    if |a| == 0 {
      assert a + b == b;
    } else {
      assert (a + b)[1..] == a[1..] + b;
      ReadsAppend(a[1..], b);
    }
  }

  /** A trace that completes delivers one content per read step, and nothing else. */
  lemma {:induction false} CleanRunReads(fs: Fs, steps: seq<Step>, env: Env)
    ensures Run(fs, steps, env).fault.None? ==> |Run(fs, steps, env).read| == Reads(steps)
    decreases |steps|
  {
    if |steps| > 0 {
      match Apply(fs, steps[0], env)
      case Err(_) =>
      case Ok(e) =>
        assert |e.read| == if IsRead(steps[0]) then 1 else 0;
        CleanRunReads(e.fs, steps[1..], env);
    }
  }

  lemma {:induction false} NoReadsCount(steps: seq<Step>)
    requires forall s :: s in steps ==> !IsRead(s)
    ensures Reads(steps) == 0
    decreases |steps|
  {
    if |steps| > 0 {
      assert steps[0] in steps;
      NoReadsCount(steps[1..]);
    }
  }

  /** A trace that completes fetched every URL it downloads. */
  lemma {:induction false} CleanRunFetches(fs: Fs, steps: seq<Step>, env: Env)
    requires Run(fs, steps, env).fault.None?
    ensures forall u :: Download(u) in steps ==> env.fetchOk(u)
    decreases |steps|
  {
    if |steps| > 0 {
      var e := Apply(fs, steps[0], env);
      assert e.Ok?;
      CleanRunFetches(e.value.fs, steps[1..], env);
      forall u | Download(u) in steps ensures env.fetchOk(u) {
        if Download(u) != steps[0] {
          assert Download(u) in steps[1..];
        }
      }
    }
  }

  /** A step that can bring file f into existence: a write of f, or a command whose output
      is f. */
  predicate Creates(s: Step, f: FileName) {
    s.Do? && ((s.op.Write? && s.op.name == f) || (s.op.Exec? && s.op.command.output == f))
  }

  /** A trace that deletes a file it never creates, on a file system without it, rejects:
      if nothing before the deletion rejects, the deletion itself does. */
  lemma {:induction false} DeleteOfUncreatedRejects(fs: Fs, steps: seq<Step>, env: Env, f: FileName)
    requires f !in fs && Do(Delete(f)) in steps
    requires forall s :: s in steps ==> !Creates(s, f)
    ensures Run(fs, steps, env).fault.Some?
    decreases |steps|
  {
    if steps[0] != Do(Delete(f)) {
      match Apply(fs, steps[0], env)
      case Err(_) =>
      case Ok(e) =>
        assert steps[0] in steps;
        assert f !in e.fs;
        assert Do(Delete(f)) in steps[1..];
        DeleteOfUncreatedRejects(e.fs, steps[1..], env, f);
    }
  }

  /** A trace that starts with a rejected prefix rejects the same way. */
  lemma PrefixRejects(fs: Fs, a: seq<Step>, b: seq<Step>, c: seq<Step>, env: Env)
    requires Run(fs, a, env).fault.Some?
    ensures Run(fs, a + b + c, env) == Run(fs, a, env)
  {
    RunAppend(fs, a, b, env);
    RunAppend(fs, a + b, c, env);
  }

  function Deletes(names: seq<FileName>): (r: seq<Step>)
    ensures |r| == |names|
    ensures forall k :: 0 <= k < |names| ==> r[k] == Do(Delete(names[k]))
    decreases |names|
  {
    if |names| == 0 then [] else [Do(Delete(names[0]))] + Deletes(names[1..])
  }

  lemma {:induction false} DeletesReadNothing(names: seq<FileName>)
    ensures Reads(Deletes(names)) == 0
    decreases |names|
  {
    if |names| > 0 {
      assert Deletes(names)[1..] == Deletes(names[1..]);
      DeletesReadNothing(names[1..]);
    }
  }

  /** Which names a list of deletions deletes. */
  lemma DeletesMembers(names: seq<FileName>)
    ensures forall x :: Do(Delete(x)) in Deletes(names) <==> x in names
    ensures forall s :: s in Deletes(names) ==> s.Do? && s.op.Delete?
  {
    var d := Deletes(names);
    forall x | x in names ensures Do(Delete(x)) in d {
      var k :| 0 <= k < |names| && names[k] == x;
      assert d[k] == Do(Delete(x));
    }
  }

  predicate Distinct<T(==)>(xs: seq<T>) {
    forall j, k :: 0 <= j < k < |xs| ==> xs[j] != xs[k]
  }

  function Elems<T>(xs: seq<T>): set<T> {
    set k | 0 <= k < |xs| :: xs[k]
  }

  /** Deleting distinct present files removes exactly them and rejects nothing. */
  lemma {:induction false} DeletesRemove(fs: Fs, names: seq<FileName>, env: Env)
    requires Distinct(names) && Elems(names) <= fs.Keys
    ensures Run(fs, Deletes(names), env) == Outcome(fs - Elems(names), |names|, [], None)
    decreases |names|
  {
    if |names| > 0 {
      var rest := names[1..];
      assert Elems(names) == {names[0]} + Elems(rest) by {
        forall x | x in Elems(names) ensures x in {names[0]} + Elems(rest) {
          var k :| 0 <= k < |names| && names[k] == x;
          if k > 0 { assert rest[k - 1] == x; }
        }
      }
      assert names[0] !in Elems(rest);
      assert Deletes(names)[1..] == Deletes(rest);
      DeletesRemove(fs - {names[0]}, rest, env);
      assert fs - {names[0]} - Elems(rest) == fs - Elems(names);
    }
  }

  /** Deleting a list that holds an absent file rejects at the first absent one, after
      removing the files before it. */
  lemma {:induction false} DeletesRejectAbsent(fs: Fs, names: seq<FileName>, env: Env, k: nat)
    requires Distinct(names) && k < |names| && names[k] !in fs
    requires forall j :: 0 <= j < k ==> names[j] in fs
    ensures Run(fs, Deletes(names), env) == Outcome(fs - Elems(names[..k]), k, [], Some(MissingFile(names[k])))
    decreases |names|
  {
    DeletesStep(fs, names, env);
    if k > 0 {
      TailStillAbsent(fs, names, k);
      DeletesRejectAbsent(fs - {names[0]}, names[1..], env, k - 1);
      MinusPrefixCons(fs, names, k);
    } else {
      assert Elems(names[..0]) == {};
    }
  }

  /** The first deletion of a list either rejects or removes its file and goes on. */
  lemma DeletesStep(fs: Fs, names: seq<FileName>, env: Env)
    requires |names| > 0
    ensures names[0] !in fs ==> Run(fs, Deletes(names), env) == Outcome(fs, 0, [], Some(MissingFile(names[0])))
    ensures names[0] in fs ==> var o := Run(fs - {names[0]}, Deletes(names[1..]), env);
      Run(fs, Deletes(names), env) == Outcome(o.fs, o.done + 1, o.read, o.fault)
  {
    assert Deletes(names)[1..] == Deletes(names[1..]);
  }

  /** Removing the head keeps the tail's first k - 1 names present and its next one absent. */
  lemma TailStillAbsent(fs: Fs, names: seq<FileName>, k: nat)
    requires Distinct(names) && 0 < k < |names| && names[k] !in fs
    requires forall j :: 0 <= j < k ==> names[j] in fs
    ensures Distinct(names[1..]) && names[1..][k - 1] !in fs - {names[0]}
    ensures forall j :: 0 <= j < k - 1 ==> names[1..][j] in fs - {names[0]}
  {
    var rest := names[1..];
    forall j | 0 <= j < k - 1 ensures rest[j] in fs - {names[0]} {
      assert rest[j] == names[j + 1] && names[j + 1] != names[0];
    }
  }

  /** Removing the head, then the tail's first k - 1 names, removes the first k names. */
  lemma MinusPrefixCons(fs: Fs, names: seq<FileName>, k: nat)
    requires 0 < k <= |names|
    ensures fs - {names[0]} - Elems(names[1..][..k - 1]) == fs - Elems(names[..k])
  {
    ElemsPrefixCons(names, k);
  }

  /** The first k names are the head and the first k - 1 of the tail. */
  lemma ElemsPrefixCons<T>(names: seq<T>, k: nat)
    requires 0 < k <= |names|
    ensures Elems(names[..k]) == {names[0]} + Elems(names[1..][..k - 1])
  {
    var rest := names[1..];
    forall x | x in Elems(names[..k]) ensures x in {names[0]} + Elems(rest[..k - 1]) {
      var i :| 0 <= i < k && names[..k][i] == x;
      if i > 0 { assert rest[..k - 1][i - 1] == x; }
    }
    forall x | x in Elems(rest[..k - 1]) ensures x in Elems(names[..k]) {
      var i :| 0 <= i < k - 1 && rest[..k - 1][i] == x;
      assert names[..k][i + 1] == x;
    }
    assert names[..k][0] == names[0];
  }
}
