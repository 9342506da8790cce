/**
  PatchBuilderTool: the simplified "unified diff" between an original and a modified
  text. It is not a real diff: after the file header and a single hunk line it lists
  the original lines missing from the modified text, then the modified lines missing
  from the original, then up to three leading lines the two texts share position by
  position. The wall-clock timestamp of the header is a parameter, and the file path
  is an optional string.
 */
module PatchBuilder {
  import opened Wrappers
  import opened Strings

  // ------------------------------------------------------------------
  // contains
  // ------------------------------------------------------------------

  /** contains(lines, target): a linear search for an equal line. */
  method ContainsLine(lines: seq<string>, target: string) returns (found: bool)
    ensures found <==> target in lines
  {
    var i := 0;
    while i < |lines|
      invariant 0 <= i <= |lines|
      invariant target !in lines[..i]
    {
      if lines[i] == target {
        return true;
      }
      assert lines[..i + 1] == lines[..i] + [lines[i]];
      i := i + 1;
    }
    assert lines[..|lines|] == lines;
    return false;
  }

  // ------------------------------------------------------------------
  // The sections of the diff
  // ------------------------------------------------------------------

  /** The lines of xs that do not occur in other, in order and with repeats kept. */
  function Absent(xs: seq<string>, other: seq<string>): (r: seq<string>)
    ensures |r| <= |xs|
  {
    if |xs| == 0 then []
    else Absent(xs[..|xs| - 1], other) + (if xs[|xs| - 1] in other then [] else [xs[|xs| - 1]])
  }

  /** The lines that sit at the same position i < k in both texts. */
  function Common(xs: seq<string>, ys: seq<string>, k: nat): (r: seq<string>)
    requires k <= |xs| && k <= |ys|
    ensures |r| <= k
  {
    if k == 0 then []
    else Common(xs, ys, k - 1) + (if xs[k - 1] == ys[k - 1] then [xs[k - 1]] else [])
  }

  /** Each line with the marker in front and a newline after. */
  function Block(marker: string, ls: seq<string>): string {
    if |ls| == 0 then "" else Block(marker, ls[..|ls| - 1]) + marker + ls[|ls| - 1] + "\n"
  }

  function Min(a: nat, b: nat): nat {
    if a <= b then a else b
  }

  /** The number of context lines createSimpleDiff shows at most. */
  const ContextLines := 3

  function HunkLine(n: nat, m: nat): string {
    "@@ -1," + NatToString(n) + " +1," + NatToString(m) + " @@\n"
  }

  /** What createSimpleDiff returns for the two line arrays. */
  function SimpleDiff(original: seq<string>, modified: seq<string>): string {
    HunkLine(|original|, |modified|)
    + Block("-", Absent(original, modified))
    + Block("+", Absent(modified, original))
    + Block(" ", Common(original, modified, Min(ContextLines, Min(|original|, |modified|))))
  }

  /** The two header lines: old and new name, each with the timestamp after a tab. */
  function DiffHeader(fileName: string, timestamp: string): string {
    "--- a/" + fileName + "\t" + timestamp + "\n" + "+++ b/" + fileName + "\t" + timestamp + "\n"
  }

  /** A missing path is reported as "unknown". */
  function FileName(filePath: Option<string>): string {
    match filePath
    case None => "unknown"
    case Some(p) => p
  }

  /** What createUnifiedDiff returns. */
  function UnifiedDiff(filePath: Option<string>, original: string, modified: string, timestamp: string): string {
    if original == modified then ""
    else DiffHeader(FileName(filePath), timestamp) + SimpleDiff(Lines(original), Lines(modified))
  }

  // ------------------------------------------------------------------
  // createSimpleDiff / createUnifiedDiff
  // ------------------------------------------------------------------

  lemma AbsentSnoc(xs: seq<string>, i: nat, other: seq<string>)
    requires i < |xs|
    ensures Absent(xs[..i + 1], other)
            == Absent(xs[..i], other) + (if xs[i] in other then [] else [xs[i]])
  {
    assert xs[..i + 1][..i] == xs[..i];
  }

  lemma BlockSnoc(marker: string, ls: seq<string>, x: string)
    ensures Block(marker, ls + [x]) == Block(marker, ls) + marker + x + "\n"
  {
    assert (ls + [x])[..|ls|] == ls;
  }

  /** One step of a section loop: a line that the other text lacks is appended with its marker. */
  lemma AbsentBlockStep(h: string, marker: string, xs: seq<string>, i: nat, other: seq<string>)
    requires i < |xs|
    ensures xs[i] !in other ==>
              h + Block(marker, Absent(xs[..i], other)) + marker + xs[i] + "\n"
              == h + Block(marker, Absent(xs[..i + 1], other))
    ensures xs[i] in other ==>
              h + Block(marker, Absent(xs[..i], other)) == h + Block(marker, Absent(xs[..i + 1], other))
  {
    AbsentSnoc(xs, i, other);
    if xs[i] !in other {
      BlockSnoc(marker, Absent(xs[..i], other), xs[i]);
      RegroupMarkedLine(h, Block(marker, Absent(xs[..i], other)), marker, xs[i]);
    } else {
      assert Absent(xs[..i], other) + [] == Absent(xs[..i], other);
    }
  }

  lemma CommonBlockStep(h: string, xs: seq<string>, ys: seq<string>, i: nat)
    requires i < |xs| && i < |ys|
    ensures xs[i] == ys[i] ==>
              h + Block(" ", Common(xs, ys, i)) + " " + xs[i] + "\n" == h + Block(" ", Common(xs, ys, i + 1))
    ensures xs[i] != ys[i] ==>
              h + Block(" ", Common(xs, ys, i)) == h + Block(" ", Common(xs, ys, i + 1))
  {
    if xs[i] == ys[i] {
      BlockSnoc(" ", Common(xs, ys, i), xs[i]);
      RegroupMarkedLine(h, Block(" ", Common(xs, ys, i)), " ", xs[i]);
    } else {
      assert Common(xs, ys, i) + [] == Common(xs, ys, i);
    }
  }

  /** createSimpleDiff: the hunk line and three loops over one StringBuilder. */
  method CreateSimpleDiff(original: seq<string>, modified: seq<string>) returns (r: string)
    ensures r == SimpleDiff(original, modified)
  {
    var result := "@@ -1," + NatToString(|original|) + " +1," + NatToString(|modified|) + " @@\n";
    ghost var head := result;
    var i := 0;
    while i < |original|
      invariant 0 <= i <= |original|
      invariant result == head + Block("-", Absent(original[..i], modified))
    {
      var present := ContainsLine(modified, original[i]);
      AbsentBlockStep(head, "-", original, i, modified);
      if !present {
        result := result + "-" + original[i] + "\n";
      }
      i := i + 1;
    }
    assert original[..|original|] == original;
    head := result;
    i := 0;
    while i < |modified|
      invariant 0 <= i <= |modified|
      invariant result == head + Block("+", Absent(modified[..i], original))
    {
      var present := ContainsLine(original, modified[i]);
      AbsentBlockStep(head, "+", modified, i, original);
      if !present {
        result := result + "+" + modified[i] + "\n";
      }
      i := i + 1;
    }
    assert modified[..|modified|] == modified;
    head := result;
    var contextLines := 3;
    var bound := Min(contextLines, Min(|original|, |modified|));
    i := 0;
    while i < bound
      invariant 0 <= i <= bound
      invariant result == head + Block(" ", Common(original, modified, i))
    {
      CommonBlockStep(head, original, modified, i);
      if i < |original| && i < |modified| && original[i] == modified[i] {
        result := result + " " + original[i] + "\n";
      }
      i := i + 1;
    }
    r := result;
  }

  /** createUnifiedDiff, with the formatted timestamp passed in. */
  method CreateUnifiedDiff(filePath: Option<string>, original: string, modified: string, timestamp: string)
    returns (diff: string)
    ensures diff == UnifiedDiff(filePath, original, modified, timestamp)
  {
    if original == modified {
      return "";
    }
    var fileName := if filePath.Some? then filePath.value else "unknown";
    var originalLines := Lines(original);
    var modifiedLines := Lines(modified);
    var body := CreateSimpleDiff(originalLines, modifiedLines);
    diff := "--- a/" + fileName + "\t" + timestamp + "\n" + "+++ b/" + fileName + "\t" + timestamp + "\n" + body;
  }

  // ------------------------------------------------------------------
  // Properties
  // ------------------------------------------------------------------

  /** A line is listed exactly when it occurs in its own text and not in the other. */
  lemma {:induction false} AbsentMeaning(xs: seq<string>, other: seq<string>, x: string)
    ensures x in Absent(xs, other) <==> x in xs && x !in other
  {
    if |xs| > 0 {
      var init := xs[..|xs| - 1];
      AbsentMeaning(init, other, x);
      assert xs == init + [xs[|xs| - 1]];
    }
  }

  /** Nothing is listed exactly when every line occurs in the other text. */
  lemma AbsentEmpty(xs: seq<string>, other: seq<string>)
    ensures (forall k :: 0 <= k < |xs| ==> xs[k] in other) <==> Absent(xs, other) == []
  {
    if Absent(xs, other) == [] {
      forall k | 0 <= k < |xs|
        ensures xs[k] in other
      {
        AbsentMeaning(xs, other, xs[k]);
      }
    } else {
      var x := Absent(xs, other)[0];
      AbsentMeaning(xs, other, x);
    }
  }

  /** Everything is listed, in order, when no line occurs in the other text. */
  lemma {:induction false} AbsentAll(xs: seq<string>, other: seq<string>)
    requires forall k :: 0 <= k < |xs| ==> xs[k] !in other
    ensures Absent(xs, other) == xs
  {
    if |xs| > 0 {
      var init := xs[..|xs| - 1];
      AbsentAll(init, other);
      assert init + [xs[|xs| - 1]] == xs;
    }
  }

  /** A context line is a line both texts hold at the same position among the first k. */
  lemma {:induction false} CommonMeaning(xs: seq<string>, ys: seq<string>, k: nat, x: string)
    requires k <= |xs| && k <= |ys|
    ensures x in Common(xs, ys, k) <==> exists i :: 0 <= i < k && xs[i] == ys[i] && xs[i] == x
  {
    if k > 0 {
      CommonMeaning(xs, ys, k - 1, x);
    }
  }

  /** The diff is empty exactly when the texts are equal, and otherwise opens with the header. */
  lemma UnifiedDiffShape(filePath: Option<string>, original: string, modified: string, timestamp: string)
    ensures UnifiedDiff(filePath, original, modified, timestamp) == "" <==> original == modified
    ensures original != modified ==>
              StartsWith(UnifiedDiff(filePath, original, modified, timestamp), DiffHeader(FileName(filePath), timestamp))
  {
    if original != modified {
      var h := DiffHeader(FileName(filePath), timestamp);
      var d := UnifiedDiff(filePath, original, modified, timestamp);
      assert d[..|h|] == h;
    }
  }

  /** Two digit runs, each followed by the same separator text, are read back apart. */
  lemma DigitsThenCounts(a: string, c: string, b: string, d: string)
    requires forall i :: 0 <= i < |a| ==> IsDigit(a[i])
    requires forall i :: 0 <= i < |b| ==> IsDigit(b[i])
    requires forall i :: 0 <= i < |c| ==> IsDigit(c[i])
    requires forall i :: 0 <= i < |d| ==> IsDigit(d[i])
    requires a + (" +1," + c + " @@\n") == b + (" +1," + d + " @@\n")
    ensures a == b && c == d
  {
    DigitRunPrefix(a, " +1," + c + " @@\n", b, " +1," + d + " @@\n");
    assert c + " @@\n" == (" +1," + c + " @@\n")[4..];
    assert d + " @@\n" == (" +1," + d + " @@\n")[4..];
    DigitRunPrefix(c, " @@\n", d, " @@\n");
  }

  lemma HunkLineSplit(n: nat, m: nat)
    ensures HunkLine(n, m)[6..] == NatToString(n) + (" +1," + NatToString(m) + " @@\n")
  {
    var a, c := NatToString(n), NatToString(m);
    assert HunkLine(n, m) == "@@ -1," + (a + (" +1," + c + " @@\n"));
  }

  /** The hunk line records both line counts: different counts give different hunk lines. */
  lemma HunkLineInjective(n: nat, m: nat, n2: nat, m2: nat)
    requires HunkLine(n, m) == HunkLine(n2, m2)
    ensures n == n2 && m == m2
  {
    HunkLineSplit(n, m);
    HunkLineSplit(n2, m2);
    DigitsThenCounts(NatToString(n), NatToString(m), NatToString(n2), NatToString(m2));
    NatToStringInjective(n, n2);
    NatToStringInjective(m, m2);
  }

  /**
    Different texts always give different line arrays, so a non-empty diff always
    compares two distinct arrays.
   */
  lemma LinesDiffer(original: string, modified: string)
    requires original != modified
    ensures Lines(original) != Lines(modified)
  {
    JoinSplit(original, "\n");
    JoinSplit(modified, "\n");
  }

  /** Appending lines that the original lacks lists only them, after an empty removal section. */
  lemma AppendOnlyDiff(original: seq<string>, added: seq<string>)
    requires forall k :: 0 <= k < |added| ==> added[k] !in original
    ensures Absent(original, original + added) == []
    ensures Absent(original + added, original) == added
  {
    AbsentEmpty(original, original + added);
    AbsentAppend(original, added, original);
    AbsentEmpty(original, original);
    AbsentAll(added, original);
  }

  lemma {:induction false} AbsentAppend(xs: seq<string>, ys: seq<string>, other: seq<string>)
    ensures Absent(xs + ys, other) == Absent(xs, other) + Absent(ys, other)
    decreases |ys|
  {
    if |ys| == 0 {
      assert xs + ys == xs;
    } else {
      var init := ys[..|ys| - 1];
      AbsentAppend(xs, init, other);
      assert (xs + ys)[..|xs + ys| - 1] == xs + init;
    }
  }
}
