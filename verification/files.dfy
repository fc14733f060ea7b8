/** The names the pipelines give to files inside the engine's virtual file system, the
    literal strings those names stand for, and the concat-demuxer manifest that lists them.

    Names are a datatype so that the file system can be a plain `set<FileName>`; `Render`
    is the boundary to the engine's string names, and `ParseName` proves that boundary
    collision-free. */
module Files {
  import opened Wrappers
  import opened Decimal

  datatype FileName =
    | Input(index: nat)       // `input${i}.mp4`: raw download of clip i (video merger)
    | Clip(index: nat)        // `clip${i}.mp4`: trimmed copy of clip i (video merger)
    | ConcatList              // `concat.txt`: concat manifest (video merger)
    | Output                  // `output.mp4`: merged result of both modules
    | SingleInput             // `input.mp4`: download of the one-clip trim helper
    | StagedClip(index: nat)  // `clip_${i}.mp4`: download of clip i (plain merge helper)
    | RawInput(index: nat)    // `input_${i}.mp4`: download of clip i (trim-and-merge helper)
    | Trimmed(index: nat)     // `trimmed_${i}.mp4`: trimmed copy of clip i (trim-and-merge helper)
    | FileList                // `filelist.txt`: concat manifest of both helpers
    | Final                   // `final.mp4`: result of the trim-and-merge helper

  /** `${prefix}${i}.mp4` */
  function Indexed(prefix: string, i: nat): string {
    prefix + NatToString(i) + ".mp4"
  }

  /** The literal file name the engine sees. */
  function Render(f: FileName): string {
    match f
    case Input(i) => Indexed("input", i)
    case Clip(i) => Indexed("clip", i)
    case ConcatList => "concat.txt"
    case Output => "output.mp4"
    case SingleInput => "input.mp4"
    case StagedClip(i) => Indexed("clip_", i)
    case RawInput(i) => Indexed("input_", i)
    case Trimmed(i) => Indexed("trimmed_", i)
    case FileList => "filelist.txt"
    case Final => "final.mp4"
  }

  /** Recognises `${prefix}<digits>.mp4` and returns the number. */
  function ParseIndexed(prefix: string, s: string): Option<nat> {
    if |s| > |prefix| + 4 && s[..|prefix|] == prefix && s[|s| - 4..] == ".mp4"
       && AllDigits(s[|prefix|..|s| - 4])
    then Some(ParseDigits(s[|prefix|..|s| - 4]))
    else None
  }

  /** Reads an engine file name back as a `FileName`. */
  function ParseName(s: string): Option<FileName> {
    if s == "concat.txt" then Some(ConcatList)
    else if s == "output.mp4" then Some(Output)
    else if s == "input.mp4" then Some(SingleInput)
    else if s == "filelist.txt" then Some(FileList)
    else if s == "final.mp4" then Some(Final)
    else if ParseIndexed("input_", s).Some? then Some(RawInput(ParseIndexed("input_", s).value))
    else if ParseIndexed("input", s).Some? then Some(Input(ParseIndexed("input", s).value))
    else if ParseIndexed("clip_", s).Some? then Some(StagedClip(ParseIndexed("clip_", s).value))
    else if ParseIndexed("clip", s).Some? then Some(Clip(ParseIndexed("clip", s).value))
    else if ParseIndexed("trimmed_", s).Some? then Some(Trimmed(ParseIndexed("trimmed_", s).value))
    else None
  }

  lemma IndexedShape(prefix: string, i: nat)
    ensures var s := Indexed(prefix, i);
      && |s| == |prefix| + |NatToString(i)| + 4
      && s[..|prefix|] == prefix
      && s[|prefix|..|s| - 4] == NatToString(i)
      && s[|s| - 4..] == ".mp4"
      && IsDigit(s[|prefix|])
  {
    var s := Indexed(prefix, i);
    assert s[|prefix|] == NatToString(i)[0];
  }

  /** A prefix recognises exactly its own names. */
  lemma ParseIndexedOwn(prefix: string, i: nat)
    ensures ParseIndexed(prefix, Indexed(prefix, i)) == Some(i)
  {
    IndexedShape(prefix, i);
    ParseRendered(i);
  }

  /** A different prefix never recognises the name, provided the longer of the two prefixes
      has a non-digit where the shorter one ends. */
  lemma ParseIndexedOther(p: string, q: string, i: nat)
    requires p != q
    requires |q| < |p| ==> !IsDigit(p[|q|])
    requires |p| < |q| ==> !IsDigit(q[|p|])
    ensures ParseIndexed(p, Indexed(q, i)).None?
  {
    IndexedShape(q, i);
  }

  /** A rendered indexed name is never a fixed name: it is too long for it, or has a digit
      where the fixed name does not. */
  lemma IndexedNotFixed(q: string, i: nat, fixed: string)
    requires |q| + 5 <= |fixed| ==> !IsDigit(fixed[|q|])
    ensures Indexed(q, i) != fixed
  {
    IndexedShape(q, i);
  }

  /** Parsing undoes rendering, so `Render` is injective: no two distinct files of any
      pipeline share an engine name. */
  lemma ParseRender(f: FileName)
    ensures ParseName(Render(f)) == Some(f)
  {
    match f {
      case Input(i) => ParseInput(i);
      case Clip(i) => ParseClip(i);
      case StagedClip(i) => ParseStagedClip(i);
      case RawInput(i) => ParseRawInput(i);
      case Trimmed(i) => ParseTrimmed(i);
      case _ =>
    }
  }

  lemma ParseInput(i: nat)
    ensures ParseName(Render(Input(i))) == Some(Input(i))
  {
    IndexedNotFixed("input", i, "concat.txt");
    IndexedNotFixed("input", i, "output.mp4");
    IndexedNotFixed("input", i, "input.mp4");
    IndexedNotFixed("input", i, "filelist.txt");
    IndexedNotFixed("input", i, "final.mp4");
    ParseIndexedOther("input_", "input", i);
    ParseIndexedOwn("input", i);
  }

  lemma ParseClip(i: nat)
    ensures ParseName(Render(Clip(i))) == Some(Clip(i))
  {
    IndexedNotFixed("clip", i, "concat.txt");
    IndexedNotFixed("clip", i, "output.mp4");
    IndexedNotFixed("clip", i, "input.mp4");
    IndexedNotFixed("clip", i, "filelist.txt");
    IndexedNotFixed("clip", i, "final.mp4");
    ParseIndexedOther("input_", "clip", i);
    ParseIndexedOther("input", "clip", i);
    ParseIndexedOther("clip_", "clip", i);
    ParseIndexedOwn("clip", i);
  }

  lemma ParseStagedClip(i: nat)
    ensures ParseName(Render(StagedClip(i))) == Some(StagedClip(i))
  {
    IndexedNotFixed("clip_", i, "concat.txt");
    IndexedNotFixed("clip_", i, "output.mp4");
    IndexedNotFixed("clip_", i, "input.mp4");
    IndexedNotFixed("clip_", i, "filelist.txt");
    IndexedNotFixed("clip_", i, "final.mp4");
    ParseIndexedOther("input_", "clip_", i);
    ParseIndexedOther("input", "clip_", i);
    ParseIndexedOwn("clip_", i);
  }

  lemma ParseRawInput(i: nat)
    ensures ParseName(Render(RawInput(i))) == Some(RawInput(i))
  {
    IndexedNotFixed("input_", i, "concat.txt");
    IndexedNotFixed("input_", i, "output.mp4");
    IndexedNotFixed("input_", i, "input.mp4");
    IndexedNotFixed("input_", i, "filelist.txt");
    IndexedNotFixed("input_", i, "final.mp4");
    ParseIndexedOwn("input_", i);
  }

  lemma ParseTrimmed(i: nat)
    ensures ParseName(Render(Trimmed(i))) == Some(Trimmed(i))
  {
    IndexedNotFixed("trimmed_", i, "concat.txt");
    IndexedNotFixed("trimmed_", i, "output.mp4");
    IndexedNotFixed("trimmed_", i, "input.mp4");
    IndexedNotFixed("trimmed_", i, "filelist.txt");
    IndexedNotFixed("trimmed_", i, "final.mp4");
    ParseIndexedOther("input_", "trimmed_", i);
    ParseIndexedOther("input", "trimmed_", i);
    ParseIndexedOther("clip_", "trimmed_", i);
    ParseIndexedOther("clip", "trimmed_", i);
    ParseIndexedOwn("trimmed_", i);
  }

  lemma RenderInjective(f: FileName, g: FileName)
    requires Render(f) == Render(g)
    ensures f == g
  {
    ParseRender(f);
    ParseRender(g);
  }
}
