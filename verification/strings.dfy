/** `String.prototype.split` and `Array.prototype.join` with a one-character separator, and
    the two round trips between them. */
module Strings {

  /** The first position of `c` in `s`. */
  function IndexOf(s: string, c: char): (k: nat)
    requires c in s
    ensures k < |s| && s[k] == c && c !in s[..k]
    decreases |s|
  {
    if s[0] == c then 0
    else
      assert c in s[1..] by {
        var j :| 0 <= j < |s| && s[j] == c;
        assert s[1..][j - 1] == c;
      }
      var k := 1 + IndexOf(s[1..], c);
      assert s[..k] == [s[0]] + s[1..][..k - 1];
      k
  }

  /** No piece contains the separator. */
  predicate Free(parts: seq<string>, sep: char) {
    forall k :: 0 <= k < |parts| ==> sep !in parts[k]
  }

  /** `s.split(sep)`: the pieces between separators, always at least one. */
  function Split(s: string, sep: char): (r: seq<string>)
    ensures |r| >= 1 && Free(r, sep)
    decreases |s|
  {
    if sep !in s then [s]
    else
      var k := IndexOf(s, sep);
      [s[..k]] + Split(s[k + 1..], sep)
  }

  /** `parts.join(sep)`. */
  function Join(parts: seq<string>, sep: char): string
    decreases |parts|
  {
    if |parts| == 0 then ""
    else if |parts| == 1 then parts[0]
    else parts[0] + [sep] + Join(parts[1..], sep)
  }

  /** Splitting undoes joining for non-empty lists of separator-free pieces. */
  lemma {:induction false} SplitJoin(parts: seq<string>, sep: char)
    requires |parts| >= 1 && Free(parts, sep)
    ensures Split(Join(parts, sep), sep) == parts
    decreases |parts|
  {
    if |parts| > 1 {
      var rest := parts[1..];
      FreeCons(parts, sep);
      JoinCons(parts, sep);
      SplitAt(parts[0], Join(rest, sep), sep);
      SplitJoin(rest, sep);
      assert parts == [parts[0]] + rest;
    }
  }

  /** The head of a separator-free list and its tail are separator-free. */
  lemma FreeCons(parts: seq<string>, sep: char)
    requires |parts| >= 1 && Free(parts, sep)
    ensures sep !in parts[0] && Free(parts[1..], sep)
  {
    forall k | 0 <= k < |parts| - 1 ensures sep !in parts[1..][k] {
      assert parts[1..][k] == parts[k + 1];
    }
  }

  /** Joining two or more pieces puts the separator after the first. */
  lemma JoinCons(parts: seq<string>, sep: char)
    requires |parts| > 1
    ensures Join(parts, sep) == parts[0] + [sep] + Join(parts[1..], sep)
  {
  }

  /** A separator-free head followed by the separator splits off as the first piece. */
  lemma SplitAt(head: string, rest: string, sep: char)
    requires sep !in head
    ensures Split(head + [sep] + rest, sep) == [head] + Split(rest, sep)
  {
    var s := head + [sep] + rest;
    assert s[|head|] == sep;
    var k := IndexOf(s, sep);
    assert s[..|head|] == head;
    assert forall j :: 0 <= j < |head| ==> s[j] == head[j];
    assert s[k + 1..] == rest;
  }

  /** Joining the pieces back gives the string that was split. */
  lemma {:induction false} JoinSplit(s: string, sep: char)
    ensures Join(Split(s, sep), sep) == s
    decreases |s|
  {
    if sep in s {
      var k := IndexOf(s, sep);
      var rest := Split(s[k + 1..], sep);
      var parts := [s[..k]] + rest;
      assert Split(s, sep) == parts;
      assert parts[0] == s[..k] && parts[1..] == rest && |parts| > 1;
      assert Join(parts, sep) == s[..k] + [sep] + Join(rest, sep);
      JoinSplit(s[k + 1..], sep);
      assert s == s[..k] + [sep] + s[k + 1..];
    }
  }
}
