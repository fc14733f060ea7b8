/** The concat-demuxer manifest: one `file '<name>'` line per file, joined with "\n"
    (`files.map(f => `file '${f}'`).join('\n')`), and a reader that recovers the list. */
module Manifest {
  import opened Wrappers
  import opened Decimal
  import opened Files
  import Strings

  function Line(name: string): string {
    "file '" + name + "'"
  }

  /** The manifest line of each file, in order. */
  function Lines(names: seq<FileName>): (r: seq<string>)
    ensures |r| == |names|
    ensures forall k :: 0 <= k < |names| ==> r[k] == Line(Render(names[k]))
    decreases |names|
  {
    if |names| == 0 then [] else [Line(Render(names[0]))] + Lines(names[1..])
  }

  /** The manifest file's content. */
  function Text(names: seq<FileName>): string {
    Strings.Join(Lines(names), '\n')
  }

  function ParseLine(line: string): Option<FileName> {
    if |line| >= 7 && line[..6] == "file '" && line[|line| - 1] == '\''
    then ParseName(line[6..|line| - 1])
    else None
  }

  function ParseLines(lines: seq<string>): Option<seq<FileName>>
    decreases |lines|
  {
    if |lines| == 0 then Some([])
    else match (ParseLine(lines[0]), ParseLines(lines[1..]))
      case (Some(f), Some(rest)) => Some([f] + rest)
      case _ => None
  }

  /** What the concat demuxer reads out of a manifest: the listed files, in order. */
  function Read(text: string): Option<seq<FileName>> {
    ParseLines(Strings.Split(text, '\n'))
  }

  lemma RenderHasNoNewline(f: FileName)
    ensures '\n' !in Render(f)
  {
    match f {
      case Input(i) => IndexedHasNoNewline("input", i);
      case Clip(i) => IndexedHasNoNewline("clip", i);
      case StagedClip(i) => IndexedHasNoNewline("clip_", i);
      case RawInput(i) => IndexedHasNoNewline("input_", i);
      case Trimmed(i) => IndexedHasNoNewline("trimmed_", i);
      case _ =>
    }
  }

  lemma IndexedHasNoNewline(prefix: string, i: nat)
    requires '\n' !in prefix
    ensures '\n' !in Indexed(prefix, i)
  {
    var d := NatToString(i);
    assert '\n' !in d;
    assert '\n' !in ".mp4";
  }

  lemma {:induction false} LinesHaveNoNewlines(names: seq<FileName>)
    ensures Strings.Free(Lines(names), '\n')
  {
    forall k | 0 <= k < |names|
      ensures '\n' !in Lines(names)[k]
    {
      RenderHasNoNewline(names[k]);
      assert Lines(names)[k] == "file '" + Render(names[k]) + "'";
    }
  }

  lemma {:induction false} ParseLinesOfNames(names: seq<FileName>)
    ensures ParseLines(Lines(names)) == Some(names)
    decreases |names|
  {
    if |names| > 0 {
      var line := Line(Render(names[0]));
      assert line[6..|line| - 1] == Render(names[0]);
      ParseRender(names[0]);
      assert Lines(names)[1..] == Lines(names[1..]);
      ParseLinesOfNames(names[1..]);
      assert [names[0]] + names[1..] == names;
    }
  }

  /** Reading the manifest back yields exactly the files it was written from, in the same
      order: the concat demuxer sees the working files one per line, in working-file order. */
  lemma ManifestRoundTrip(names: seq<FileName>)
    requires |names| >= 1
    ensures Read(Text(names)) == Some(names)
  {
    LinesHaveNoNewlines(names);
    Strings.SplitJoin(Lines(names), '\n');
    ParseLinesOfNames(names);
  }

  /** The empty manifest is the empty text, which reads as one blank line and so as no list
      at all: the concat demuxer rejects it. */
  lemma EmptyUnreadable()
    ensures Read(Text([])) == None
  {
    assert Text([]) == "";
    assert Strings.Split("", '\n') == [""];
  }
}
