/** The video merger's clip records and its transition filter-graph builder
    (`mergeWithTransitions` and `getXfadeFilter`). */
module Transitions {
  import opened Wrappers
  import opened Files
  import opened Engine

  /** `TransitionEffect`: the transition into the clip that carries it. `kind` is the runtime
      string, so the empty string stands for a falsy type. */
  datatype TransitionEffect = TransitionEffect(kind: string, duration: real)

  /** `VideoClip`; times are in seconds. */
  datatype VideoClip = VideoClip(
    url: string,
    startTime: real,
    endTime: real,
    duration: real,
    transition: Option<TransitionEffect>)

  /** The `xfadeTypes` table: each effect name maps to itself. */
  const XfadeTypes: map<string, string> := map[
    "fade" := "fade", "fadeblack" := "fadeblack", "fadewhite" := "fadewhite",
    "slideleft" := "slideleft", "slideright" := "slideright", "slideup" := "slideup",
    "slidedown" := "slidedown", "wipeleft" := "wipeleft", "wiperight" := "wiperight",
    "circleopen" := "circleopen", "circleclose" := "circleclose"]

  /** `xfadeTypes[type] || 'fade'`: a named effect is kept, anything else becomes `fade`. */
  function XfadeEffect(kind: string): string {
    if kind in XfadeTypes then XfadeTypes[kind] else "fade"
  }

  /** The engine never receives a transition name it does not know, a known name passes
      through unchanged, and mapping twice changes nothing. */
  lemma XfadeEffectRetracts(kind: string)
    ensures XfadeEffect(kind) in XfadeTypes
    ensures XfadeEffect(kind) == kind <==> kind in XfadeTypes
    ensures XfadeEffect(XfadeEffect(kind)) == XfadeEffect(kind)
  {
    assert "fade" in XfadeTypes;
    if kind in XfadeTypes {
      assert XfadeTypes[kind] == kind;
    }
  }

  /** `none`, the type the editor offers for "no transition", is not in the table. */
  lemma NoneBecomesFade()
    ensures "none" !in XfadeTypes && XfadeEffect("none") == "fade"
  {
  }

  /** `transition?.type || 'fade'` */
  function JoinKind(t: Option<TransitionEffect>): (k: string)
    ensures k != ""
    ensures t.None? ==> k == "fade"
    ensures t.Some? && t.value.kind != "" ==> k == t.value.kind
    ensures t.Some? && t.value.kind == "" ==> k == "fade"
  {
    match t
    case None => "fade"
    case Some(x) => if x.kind == "" then "fade" else x.kind
  }

  /** `transition?.duration || 1.0`: a missing or zero duration becomes one second. */
  function JoinDuration(t: Option<TransitionEffect>): (d: real)
    ensures d != 0.0
    ensures t.None? ==> d == 1.0
    ensures t.Some? && t.value.duration != 0.0 ==> d == t.value.duration
    ensures t.Some? && t.value.duration == 0.0 ==> d == 1.0
  {
    match t
    case None => 1.0
    case Some(x) => if x.duration == 0.0 then 1.0 else x.duration
  }

  /** `clip.transition && clip.transition.type !== 'none'` */
  predicate HasTransition(c: VideoClip) {
    c.transition.Some? && c.transition.value.kind != "none"
  }

  /** `clips.slice(0, n).reduce((sum, c) => sum + c.duration, 0)` */
  function SumDurations(clips: seq<VideoClip>): real
    decreases |clips|
  {
    if |clips| == 0 then 0.0 else SumDurations(clips[..|clips| - 1]) + clips[|clips| - 1].duration
  }

  /** The offset the source gives join `i` (clip i-1 into clip i): the summed `duration` of the
      clips before it, minus this join's transition duration. */
  function Offset(clips: seq<VideoClip>, i: nat): real
    requires 1 <= i < |clips|
  {
    SumDurations(clips[..i]) - JoinDuration(clips[i].transition)
  }

  lemma SumDurationsStep(clips: seq<VideoClip>, i: nat)
    requires i < |clips|
    ensures SumDurations(clips[..i + 1]) == SumDurations(clips[..i]) + clips[i].duration
  {
    assert clips[..i + 1][..i] == clips[..i];
  }

  /** Consecutive offsets differ by the earlier clip's duration, less the later transition,
      plus the earlier one. */
  lemma OffsetStep(clips: seq<VideoClip>, i: nat)
    requires 1 <= i && i + 1 < |clips|
    ensures Offset(clips, i + 1) - Offset(clips, i)
         == clips[i].duration - JoinDuration(clips[i + 1].transition) + JoinDuration(clips[i].transition)
  {
    SumDurationsStep(clips, i);
  }

  /** Every transition is positive and shorter than the clip it follows. */
  predicate TransitionsFit(clips: seq<VideoClip>) {
    forall i :: 1 <= i < |clips| ==>
      0.0 < JoinDuration(clips[i].transition) < clips[i - 1].duration
  }

  /** Offsets strictly increase when every transition is positive and shorter than the clip
      it follows. */
  lemma {:induction false} OffsetsIncrease(clips: seq<VideoClip>, i: nat, j: nat)
    requires TransitionsFit(clips)
    requires 1 <= i < j < |clips|
    ensures Offset(clips, i) < Offset(clips, j)
    decreases j - i
  {
    OffsetStep(clips, j - 1);
    assert 0.0 < JoinDuration(clips[j - 1].transition);
    assert JoinDuration(clips[j].transition) < clips[j - 1].duration;
    if i < j - 1 {
      OffsetsIncrease(clips, i, j - 1);
    }
  }

  // ---------------------------------------------------------------------------------------
  // The filter graph

  /** Running labels: `v0`, then `v{i}out` once join i has been emitted. */
  function RunningVideo(i: nat): Label {
    if i == 0 then V(0) else VOut(i)
  }

  function RunningAudio(i: nat): Label {
    if i == 0 then A(0) else AOut(i)
  }

  /** The timestamp-reset parts, two per input, in input order. */
  function Resets(n: nat): (r: seq<FilterPart>)
    ensures |r| == 2 * n
  {
    if n == 0 then []
    else Resets(n - 1) + [ResetVideo(n - 1, V(n - 1)), ResetAudio(n - 1, A(n - 1))]
  }

  /** Input j's resets are parts 2j and 2j+1. */
  lemma {:induction false} ResetsAt(n: nat)
    ensures forall j :: 0 <= j < n ==> Resets(n)[2 * j] == ResetVideo(j, V(j)) && Resets(n)[2 * j + 1] == ResetAudio(j, A(j))
  {
    if n > 0 {
      ResetsAt(n - 1);
      var prev := Resets(n - 1);
      assert Resets(n) == prev + [ResetVideo(n - 1, V(n - 1)), ResetAudio(n - 1, A(n - 1))];
      forall j | 0 <= j < n
        ensures Resets(n)[2 * j] == ResetVideo(j, V(j)) && Resets(n)[2 * j + 1] == ResetAudio(j, A(j))
      {
        if j < n - 1 {
          assert Resets(n)[2 * j] == prev[2 * j] && Resets(n)[2 * j + 1] == prev[2 * j + 1];
        }
      }
    }
  }

  /** The builder's loop state: join parts pushed so far and the running labels. */
  datatype Chain = Chain(joins: seq<FilterPart>, video: Label, audio: Label)

  /** The two parts of join `i` given the running labels and the join's offset. */
  function JoinParts(clips: seq<VideoClip>, i: nat, video: Label, audio: Label, offset: real): seq<FilterPart>
    requires i < |clips|
  {
    var t := clips[i].transition;
    [XFade(video, V(i), XfadeEffect(JoinKind(t)), JoinDuration(t), offset, VOut(i)),
     ACrossFade(audio, A(i), JoinDuration(t), AOut(i))]
  }

  /** The loop `for (let i = 1; i < clips.length; i++)` from iteration `i` on; `offsets[i]` is
      the offset join i uses. */
  function ChainFrom(clips: seq<VideoClip>, offsets: seq<real>, i: nat, acc: Chain): Chain
    requires |offsets| == |clips|
    decreases |clips| - i
  {
    if i >= |clips| then acc
    else
      ChainFrom(clips, offsets, i + 1,
        Chain(acc.joins + JoinParts(clips, i, acc.video, acc.audio, offsets[i]), VOut(i), AOut(i)))
  }

  /** The graph for `inputs` working files and `clips`, with the given join offsets: the reset
      parts are pushed first, then the loop pushes the join parts. */
  function GraphWith(clips: seq<VideoClip>, inputs: nat, offsets: seq<real>): Graph
    requires |offsets| == |clips|
  {
    var c := ChainFrom(clips, offsets, 1, Chain([], V(0), A(0)));
    Graph(Resets(inputs) + c.joins, c.video, c.audio)
  }

  /** The source's offsets, indexed by join (entry 0 is unused). */
  function WrittenOffsets(clips: seq<VideoClip>): (r: seq<real>)
    ensures |r| == |clips|
    ensures forall i :: 1 <= i < |clips| ==> r[i] == Offset(clips, i)
  {
    seq(|clips|, i requires 0 <= i < |clips| => if i == 0 then 0.0 else Offset(clips, i))
  }

  /** `mergeWithTransitions`' filter graph, as written. */
  function BuildGraph(clips: seq<VideoClip>, inputs: nat): Graph {
    GraphWith(clips, inputs, WrittenOffsets(clips))
  }

  /** Join j's `xfade` part: running video label in, `v{j}` in, `v{j}out` out. */
  function VideoJoin(clips: seq<VideoClip>, offsets: seq<real>, j: nat): FilterPart
    requires 1 <= j < |clips| == |offsets|
  {
    var t := clips[j].transition;
    XFade(RunningVideo(j - 1), V(j), XfadeEffect(JoinKind(t)), JoinDuration(t), offsets[j], VOut(j))
  }

  /** Join j's `acrossfade` part. */
  function AudioJoin(clips: seq<VideoClip>, offsets: seq<real>, j: nat): FilterPart
    requires 1 <= j < |clips| == |offsets|
  {
    ACrossFade(RunningAudio(j - 1), A(j), JoinDuration(clips[j].transition), AOut(j))
  }

  /** Joins 1..i-1 sit at their places, two parts each. */
  predicate JoinsPlaced(clips: seq<VideoClip>, offsets: seq<real>, joins: seq<FilterPart>, i: nat)
    requires |offsets| == |clips| && 1 <= i <= |clips|
  {
    && |joins| == 2 * (i - 1)
    && forall j :: 1 <= j < i ==>
         joins[2 * (j - 1)] == VideoJoin(clips, offsets, j)
         && joins[2 * (j - 1) + 1] == AudioJoin(clips, offsets, j)
  }

  /** Pushing join i's parts onto joins 1..i-1 places join i. */
  lemma JoinsPlacedStep(clips: seq<VideoClip>, offsets: seq<real>, joins: seq<FilterPart>, i: nat)
    requires |offsets| == |clips| && 1 <= i < |clips|
    requires JoinsPlaced(clips, offsets, joins, i)
    ensures JoinsPlaced(clips, offsets, joins + JoinParts(clips, i, RunningVideo(i - 1), RunningAudio(i - 1), offsets[i]), i + 1)
  {
    var next := joins + JoinParts(clips, i, RunningVideo(i - 1), RunningAudio(i - 1), offsets[i]);
    forall j | 1 <= j < i + 1
      ensures next[2 * (j - 1)] == VideoJoin(clips, offsets, j)
      ensures next[2 * (j - 1) + 1] == AudioJoin(clips, offsets, j)
    {
      if j < i {
        assert next[2 * (j - 1)] == joins[2 * (j - 1)];
        assert next[2 * (j - 1) + 1] == joins[2 * (j - 1) + 1];
      }
    }
  }

  /** The join parts the loop has pushed once it reaches iteration `i`. */
  function JoinsBefore(clips: seq<VideoClip>, offsets: seq<real>, i: nat): seq<FilterPart>
    requires |offsets| == |clips| && 1 <= i <= |clips|
    decreases i
  {
    if i == 1 then []
    else JoinsBefore(clips, offsets, i - 1) + JoinParts(clips, i - 1, RunningVideo(i - 2), RunningAudio(i - 2), offsets[i - 1])
  }

  /** The loop state at iteration `i` determines the final state. */
  lemma {:induction false} ChainFromShaped(clips: seq<VideoClip>, offsets: seq<real>, i: nat)
    requires |offsets| == |clips| && 1 <= i <= |clips|
    ensures ChainFrom(clips, offsets, i, Chain(JoinsBefore(clips, offsets, i), RunningVideo(i - 1), RunningAudio(i - 1)))
         == Chain(JoinsBefore(clips, offsets, |clips|), RunningVideo(|clips| - 1), RunningAudio(|clips| - 1))
    decreases |clips| - i
  {
    if i < |clips| {
      var c := Chain(JoinsBefore(clips, offsets, i), RunningVideo(i - 1), RunningAudio(i - 1));
      var next := Chain(JoinsBefore(clips, offsets, i + 1), RunningVideo(i), RunningAudio(i));
      assert ChainFrom(clips, offsets, i, c) == ChainFrom(clips, offsets, i + 1, next);
      ChainFromShaped(clips, offsets, i + 1);
    }
  }

  /** Every join pushed so far sits at its place. */
  lemma {:induction false} JoinsBeforePlaced(clips: seq<VideoClip>, offsets: seq<real>, i: nat)
    requires |offsets| == |clips| && 1 <= i <= |clips|
    ensures JoinsPlaced(clips, offsets, JoinsBefore(clips, offsets, i), i)
    decreases i
  {
    if i > 1 {
      JoinsBeforePlaced(clips, offsets, i - 1);
      JoinsPlacedStep(clips, offsets, JoinsBefore(clips, offsets, i - 1), i - 1);
    }
  }

  /** Where join `j`'s two parts sit in the graph of `n` inputs. */
  function JoinAt(n: nat, j: nat): nat
    requires j >= 1
  {
    2 * n + 2 * (j - 1)
  }

  /** The shape of the filter graph for N clips and N working files: 2N reset parts in input
      order, then for each join j = 1..N-1 an `xfade` reading the running video label and
      `v{j}` into `v{j}out` with the mapped effect, the join's duration and offset, and an
      `acrossfade` doing the same for audio; the outputs mapped are the last running labels.
      Clip 0's transition is never read. */
  lemma GraphShape(clips: seq<VideoClip>, offsets: seq<real>)
    requires |offsets| == |clips| >= 1
    ensures var g := GraphWith(clips, |clips|, offsets); var n := |clips|;
      && |g.parts| == 2 * n + 2 * (n - 1)
      && (forall j :: 0 <= j < n ==> g.parts[2 * j] == ResetVideo(j, V(j)) && g.parts[2 * j + 1] == ResetAudio(j, A(j)))
      && (forall j :: 1 <= j < n ==>
            g.parts[JoinAt(n, j)] == VideoJoin(clips, offsets, j)
            && g.parts[JoinAt(n, j) + 1] == AudioJoin(clips, offsets, j))
      && g.mapVideo == RunningVideo(n - 1)
      && g.mapAudio == RunningAudio(n - 1)
  {
    var n := |clips|;
    ResetsAt(n);
    ChainFromShaped(clips, offsets, 1);
    JoinsBeforePlaced(clips, offsets, n);
    ResetsThenJoins(clips, offsets, Resets(n), JoinsBefore(clips, offsets, n));
  }

  /** Joins placed after 2N reset parts sit at `JoinAt`. */
  lemma ResetsThenJoins(clips: seq<VideoClip>, offsets: seq<real>, resets: seq<FilterPart>, joins: seq<FilterPart>)
    requires |offsets| == |clips| >= 1 && |resets| == 2 * |clips|
    requires JoinsPlaced(clips, offsets, joins, |clips|)
    ensures forall j :: 1 <= j < |clips| ==>
      (resets + joins)[JoinAt(|clips|, j)] == VideoJoin(clips, offsets, j)
      && (resets + joins)[JoinAt(|clips|, j) + 1] == AudioJoin(clips, offsets, j)
  {
    var n := |clips|;
    var parts := resets + joins;
    forall j | 1 <= j < n
      ensures parts[JoinAt(n, j)] == VideoJoin(clips, offsets, j)
      ensures parts[JoinAt(n, j) + 1] == AudioJoin(clips, offsets, j)
    {
      assert parts[JoinAt(n, j)] == joins[2 * (j - 1)];
      assert parts[JoinAt(n, j) + 1] == joins[2 * (j - 1) + 1];
    }
  }

  // ---------------------------------------------------------------------------------------
  // Label accounting: every label the graph produces is consumed exactly once.

  function Consumes(p: FilterPart): multiset<Label> {
    match p
    case ResetVideo(_, _) => multiset{}
    case ResetAudio(_, _) => multiset{}
    case XFade(l, r, _, _, _, _) => multiset{l, r}
    case ACrossFade(l, r, _, _) => multiset{l, r}
  }

  function Produced(parts: seq<FilterPart>): multiset<Label>
    decreases |parts|
  {
    if |parts| == 0 then multiset{} else Produced(parts[..|parts| - 1]) + multiset{parts[|parts| - 1].out}
  }

  function Consumed(parts: seq<FilterPart>): multiset<Label>
    decreases |parts|
  {
    if |parts| == 0 then multiset{} else Consumed(parts[..|parts| - 1]) + Consumes(parts[|parts| - 1])
  }

  /** The reset labels `v{j}` and `a{j}` for lo <= j < hi. */
  function ResetLabels(lo: nat, hi: nat): multiset<Label>
    decreases hi - lo
  {
    if lo >= hi then multiset{} else multiset{V(lo), A(lo)} + ResetLabels(lo + 1, hi)
  }

  lemma {:induction false} AccountAppend(a: seq<FilterPart>, b: seq<FilterPart>)
    ensures Produced(a + b) == Produced(a) + Produced(b)
    ensures Consumed(a + b) == Consumed(a) + Consumed(b)
    decreases |b|
  {
    if |b| == 0 {
      assert a + b == a;
    } else {
      var b' := b[..|b| - 1];
      assert (a + b)[..|a + b| - 1] == a + b';
      AccountAppend(a, b');
    }
  }

  lemma PairAccount(x: FilterPart, y: FilterPart)
    ensures Produced([x, y]) == multiset{x.out, y.out}
    ensures Consumed([x, y]) == Consumes(x) + Consumes(y)
  {
    assert [x, y][..1] == [x];
    assert [x][..0] == [];
    assert Produced([x]) == multiset{} + multiset{x.out};
    assert Produced([x, y]) == Produced([x]) + multiset{y.out};
    assert Consumed([x]) == multiset{} + Consumes(x);
    assert Consumed([x, y]) == Consumed([x]) + Consumes(y);
  }

  lemma {:induction false} ResetsProduce(n: nat)
    ensures Produced(Resets(n)) == ResetLabels(0, n)
    ensures Consumed(Resets(n)) == multiset{}
  {
    if n > 0 {
      ResetsProduce(n - 1);
      ResetsStep(Resets(n - 1), n - 1);
      assert Resets(n) == Resets(n - 1) + [ResetVideo(n - 1, V(n - 1)), ResetAudio(n - 1, A(n - 1))];
    }
  }

  /** Appending clip j's two resets to parts that produced the resets of clips 0..j-1. */
  lemma ResetsStep(prev: seq<FilterPart>, j: nat)
    requires Produced(prev) == ResetLabels(0, j) && Consumed(prev) == multiset{}
    ensures Produced(prev + [ResetVideo(j, V(j)), ResetAudio(j, A(j))]) == ResetLabels(0, j + 1)
    ensures Consumed(prev + [ResetVideo(j, V(j)), ResetAudio(j, A(j))]) == multiset{}
  {
    JoinAccount(prev, ResetVideo(j, V(j)), ResetAudio(j, A(j)));
    ResetLabelsSplit(0, j);
  }

  lemma {:induction false} ResetLabelsSplit(lo: nat, hi: nat)
    requires lo <= hi
    ensures ResetLabels(lo, hi + 1) == ResetLabels(lo, hi) + multiset{V(hi), A(hi)}
    decreases hi - lo
  {
    if lo < hi {
      ResetLabelsSplit(lo + 1, hi);
    }
  }

  /** Appending one join to a list of parts. */
  lemma JoinAccount(a: seq<FilterPart>, x: FilterPart, y: FilterPart)
    ensures Produced(a + [x, y]) == Produced(a) + multiset{x.out, y.out}
    ensures Consumed(a + [x, y]) == Consumed(a) + Consumes(x) + Consumes(y)
  {
    AccountAppend(a, [x, y]);
    PairAccount(x, y);
  }

  /** One join keeps the balance: it consumes the two running labels and the new clip's
      reset labels, and produces the two new running labels. */
  lemma Rebalance<L>(consumed: multiset<L>, produced: multiset<L>, resets: multiset<L>,
                     v: L, a: L, vi: L, ai: L, vo: L, ao: L)
    requires consumed + multiset{v, a} == resets + produced
    ensures (consumed + multiset{v, vi} + multiset{a, ai}) + multiset{vo, ao}
         == (resets + multiset{vi, ai}) + (produced + multiset{vo, ao})
  {
    SwapPairs(consumed, v, vi, a, ai);
    Regroup(resets, produced, multiset{vi, ai}, multiset{vo, ao});
  }

  lemma SwapPairs<L>(m: multiset<L>, p: L, q: L, r: L, s: L)
    ensures m + multiset{p, q} + multiset{r, s} == m + multiset{p, r} + multiset{q, s}
  {
    var lhs := m + multiset{p, q} + multiset{r, s};
    var rhs := m + multiset{p, r} + multiset{q, s};
    forall x
      ensures lhs[x] == rhs[x]
    {
    }
  }

  lemma Regroup<L>(a: multiset<L>, b: multiset<L>, c: multiset<L>, d: multiset<L>)
    ensures a + b + c + d == (a + c) + (b + d)
  {
    var lhs := a + b + c + d;
    var rhs := (a + c) + (b + d);
    forall x
      ensures lhs[x] == rhs[x]
    {
    }
  }

  /** The accounting the chain loop keeps: the labels its joins consumed, plus the two running
      labels, equal the reset labels of the inputs joined so far plus what its joins produced. */
  lemma {:induction false} ChainBalances(clips: seq<VideoClip>, offsets: seq<real>, i: nat, c: Chain)
    requires |offsets| == |clips| && 1 <= i <= |clips|
    requires Consumed(c.joins) + multiset{c.video, c.audio} == ResetLabels(0, i) + Produced(c.joins)
    ensures var r := ChainFrom(clips, offsets, i, c);
      Consumed(r.joins) + multiset{r.video, r.audio} == ResetLabels(0, |clips|) + Produced(r.joins)
    decreases |clips| - i
  {
    if i < |clips| {
      var t := clips[i].transition;
      var x := XFade(c.video, V(i), XfadeEffect(JoinKind(t)), JoinDuration(t), offsets[i], VOut(i));
      var y := ACrossFade(c.audio, A(i), JoinDuration(t), AOut(i));
      assert JoinParts(clips, i, c.video, c.audio, offsets[i]) == [x, y];
      var joins := c.joins + [x, y];
      JoinAccount(c.joins, x, y);
      ResetLabelsSplit(0, i);
      Rebalance(Consumed(c.joins), Produced(c.joins), ResetLabels(0, i),
                c.video, c.audio, V(i), A(i), VOut(i), AOut(i));
      ChainBalances(clips, offsets, i + 1, Chain(joins, VOut(i), AOut(i)));
    }
  }

  /** The graph is linear: counting multiplicities, the labels read by filters or `-map`
      are exactly the labels the filters write. So no label is consumed twice or left
      unconsumed, and nothing reads a label that was never written. */
  lemma GraphIsLinear(clips: seq<VideoClip>, offsets: seq<real>)
    requires |offsets| == |clips| >= 1
    ensures var g := GraphWith(clips, |clips|, offsets);
      Consumed(g.parts) + multiset{g.mapVideo, g.mapAudio} == Produced(g.parts)
  {
    var n := |clips|;
    var c := ChainFrom(clips, offsets, 1, Chain([], V(0), A(0)));
    assert ResetLabels(0, 1) == multiset{V(0), A(0)};
    ChainBalances(clips, offsets, 1, Chain([], V(0), A(0)));
    ResetsProduce(n);
    AccountAppend(Resets(n), c.joins);
  }

  // ---------------------------------------------------------------------------------------
  // Corrected offsets (see the findings in the README)

  /** Length of clip i's working file: the trimmed window when it was trimmed, else the whole
      source. */
  function WorkingLength(c: VideoClip): real {
    if c.startTime > 0.0 || c.endTime < c.duration then c.endTime - c.startTime else c.duration
  }

  /** Length of the running stream after joining clips 0..i-1, when each `xfade` starts its
      transition `duration` seconds before the end of its first input: each join adds the new
      clip and overlaps the two by the transition. */
  function RunningLength(clips: seq<VideoClip>, i: nat): real
    requires 1 <= i <= |clips|
  {
    if i == 1 then WorkingLength(clips[0])
    else RunningLength(clips, i - 1) + WorkingLength(clips[i - 1]) - JoinDuration(clips[i - 1].transition)
  }

  /** The offset that starts join i's transition exactly `d_i` seconds before the running
      stream ends. */
  function TimelineOffset(clips: seq<VideoClip>, i: nat): real
    requires 1 <= i < |clips|
  {
    RunningLength(clips, i) - JoinDuration(clips[i].transition)
  }

  function SumLengths(clips: seq<VideoClip>): real
    decreases |clips|
  {
    if |clips| == 0 then 0.0 else SumLengths(clips[..|clips| - 1]) + WorkingLength(clips[|clips| - 1])
  }

  /** The summed transition durations of joins lo..hi-1. */
  function SumJoins(clips: seq<VideoClip>, lo: nat, hi: nat): real
    requires hi <= |clips|
    decreases hi - lo
  {
    if lo >= hi then 0.0 else SumJoins(clips, lo, hi - 1) + JoinDuration(clips[hi - 1].transition)
  }

  /** The running stream after i clips is their summed working lengths minus every overlap so
      far; so join i's corrected offset subtracts ALL transitions up to and including its own. */
  lemma {:induction false} TimelineOffsetClosedForm(clips: seq<VideoClip>, i: nat)
    requires 1 <= i <= |clips|
    ensures RunningLength(clips, i) == SumLengths(clips[..i]) - SumJoins(clips, 1, i)
    ensures i < |clips| ==> TimelineOffset(clips, i) == SumLengths(clips[..i]) - SumJoins(clips, 1, i + 1)
  {
    if i == 1 {
      assert clips[..1][..0] == [];
    } else {
      TimelineOffsetClosedForm(clips, i - 1);
      assert clips[..i][..i - 1] == clips[..i - 1];
    }
  }

  /** The corrected offsets, indexed by join (entry 0 is unused). */
  function TimelineOffsets(clips: seq<VideoClip>): (r: seq<real>)
    ensures |r| == |clips|
    ensures forall i :: 1 <= i < |clips| ==> r[i] == TimelineOffset(clips, i)
  {
    seq(|clips|, i requires 0 <= i < |clips| => if i == 0 then 0.0 else TimelineOffset(clips, i))
  }

  /** The transition graph with corrected offsets. Each join's transition window ends exactly
      where the running stream ends, so it overlaps the tail of the previous material and the
      head of the new clip. */
  function CorrectedGraph(clips: seq<VideoClip>, inputs: nat): Graph {
    GraphWith(clips, inputs, TimelineOffsets(clips))
  }

  /** In the corrected graph every `xfade` window [offset, offset + duration) ends exactly
      where the stream it extends ends. */
  lemma CorrectedJoinsEndWithStream(clips: seq<VideoClip>)
    requires |clips| >= 1
    ensures var g := CorrectedGraph(clips, |clips|);
      && |g.parts| == 4 * |clips| - 2
      && forall j :: 1 <= j < |clips| ==>
        && g.parts[JoinAt(|clips|, j)].XFade?
        && g.parts[JoinAt(|clips|, j)].offset + g.parts[JoinAt(|clips|, j)].duration == RunningLength(clips, j)
  {
    GraphShape(clips, TimelineOffsets(clips));
  }

  /** In the source's graph join j's `xfade` starts at the summed `duration` of the clips
      before it less the join's own transition. */
  lemma WrittenJoinsAt(clips: seq<VideoClip>)
    requires |clips| >= 1
    ensures var g := BuildGraph(clips, |clips|);
      && |g.parts| == 4 * |clips| - 2
      && forall j :: 1 <= j < |clips| ==>
        && g.parts[JoinAt(|clips|, j)].XFade?
        && g.parts[JoinAt(|clips|, j)].offset == SumDurations(clips[..j]) - JoinDuration(clips[j].transition)
  {
    GraphShape(clips, WrittenOffsets(clips));
  }

  /** For one join between untrimmed clips the source's offset is the corrected one. */
  lemma SingleJoinAgrees(clips: seq<VideoClip>)
    requires |clips| == 2
    requires !(clips[0].startTime > 0.0 || clips[0].endTime < clips[0].duration)
    ensures Offset(clips, 1) == TimelineOffset(clips, 1)
  {
    var p := clips[..1];
    assert p[..0] == [];
    assert SumDurations(p) == clips[0].duration;
    assert WorkingLength(clips[0]) == clips[0].duration;
  }

  /** Finding: for three untrimmed 5-second clips joined with 1-second fades the source puts
      the second transition at 9 s, but the running stream after the first join is only
      9 s long, so the window [9, 10) lies past its end. The corrected offset is 8. */
  lemma LaterJoinOverruns()
    ensures var c := VideoClip("a", 0.0, 5.0, 5.0, None);
      var clips := [c, c, c];
      && Offset(clips, 2) == 9.0
      && RunningLength(clips, 2) == 9.0
      && Offset(clips, 2) + JoinDuration(clips[2].transition) > RunningLength(clips, 2)
      && TimelineOffset(clips, 2) == 8.0
  {
    var c := VideoClip("a", 0.0, 5.0, 5.0, None);
    var clips := [c, c, c];
    assert clips[..2][..1] == [c];
    assert clips[..2][..1][..0] == [];
    assert SumDurations(clips[..2][..1]) == 5.0;
    assert SumDurations(clips[..2]) == 10.0;
    assert WorkingLength(c) == 5.0;
    assert RunningLength(clips, 1) == 5.0;
    assert RunningLength(clips, 2) == 9.0;
  }

  /** Finding: a clip trimmed to 2..8 of a 10-second source is 6 seconds long, yet the source
      starts the next transition at 10 - 1 = 9 s, after the trimmed clip has ended. */
  lemma TrimmedJoinOverruns()
    ensures var a := VideoClip("a", 2.0, 8.0, 10.0, None);
      var b := VideoClip("b", 0.0, 5.0, 5.0, Some(TransitionEffect("slideleft", 1.0)));
      var clips := [a, b];
      && Offset(clips, 1) == 9.0
      && WorkingLength(a) == 6.0
      && Offset(clips, 1) > WorkingLength(a)
      && TimelineOffset(clips, 1) == 5.0
  {
    var a := VideoClip("a", 2.0, 8.0, 10.0, None);
    var b := VideoClip("b", 0.0, 5.0, 5.0, Some(TransitionEffect("slideleft", 1.0)));
    assert [a, b][..1][..0] == [];
  }
}
