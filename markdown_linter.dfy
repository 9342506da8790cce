/**
  MarkdownLinterTool: flags opening code fences without a language tag and headings
  that skip a level, and counts headings.  Each check is a loop over the lines of the
  text, proved against a specification function of the lines scanned so far.
 */
module MarkdownLinter {
  import opened Wrappers
  import opened Strings
  import opened Domain
  import opened Headings

  const FenceFindingId := "missing-code-fence-language"
  const FenceFindingMessage := "Code fence missing language tag"
  const SkipFindingId := "heading-skip-level"

  /** The message of a heading-skip finding: "Heading jumps from level <from> to <to>". */
  function SkipMessage(from: nat, to: nat): string {
    "Heading jumps from level " + NatToString(from) + " to " + NatToString(to)
  }

  // ------------------------------------------------------------------
  // Code fences
  // ------------------------------------------------------------------

  /** A fence line: after trimming, it starts with three backticks. */
  predicate IsFence(line: string) {
    StartsWith(Trim(line), "```")
  }

  /** Whether scanning lines[..n] ends inside a code block: each fence line toggles the state. */
  function InCodeBlock(lines: seq<string>, n: nat): bool
    requires n <= |lines|
  {
    if n == 0 then false
    else if IsFence(lines[n - 1]) then !InCodeBlock(lines, n - 1)
    else InCodeBlock(lines, n - 1)
  }

  /** The number of fence lines among lines[..n]. */
  function FenceCount(lines: seq<string>, n: nat): (r: nat)
    requires n <= |lines|
    ensures r <= n
  {
    if n == 0 then 0 else FenceCount(lines, n - 1) + (if IsFence(lines[n - 1]) then 1 else 0)
  }

  /** The block state is the parity of the fences seen so far. */
  lemma {:induction false} InCodeBlockIsOddFenceCount(lines: seq<string>, n: nat)
    requires n <= |lines|
    ensures InCodeBlock(lines, n) <==> FenceCount(lines, n) % 2 == 1
  {
    if n > 0 {
      InCodeBlockIsOddFenceCount(lines, n - 1);
    }
  }

  /** Line i opens a code block and its language tag, after the backticks, is empty. */
  predicate OpensUntagged(lines: seq<string>, i: nat)
    requires i < |lines|
  {
    IsFence(lines[i]) && !InCodeBlock(lines, i) && Trim(Trim(lines[i])[3..]) == ""
  }

  /**
    The findings checkCodeFences reports for lines[..n]: one WARN finding, on the
    1-based line number, for every opening fence without a language tag.
   */
  function FenceFindings(file: Option<Path>, lines: seq<string>, n: nat): (r: seq<Finding>)
    requires n <= |lines|
    ensures |r| <= n
  {
    if n == 0 then []
    else
      FenceFindings(file, lines, n - 1)
      + (if OpensUntagged(lines, n - 1) then [LineFinding(FenceFindingId, FenceFindingMessage, Warn, file, n)] else [])
  }

  /** f is the WARN fence finding on line f.lineStart (1-based) of lines[..n], an untagged opening fence. */
  predicate IsFenceFinding(file: Option<Path>, lines: seq<string>, n: nat, f: Finding)
    requires n <= |lines|
  {
    && 1 <= f.lineStart <= n
    && f == LineFinding(FenceFindingId, FenceFindingMessage, Warn, file, f.lineStart)
    && OpensUntagged(lines, f.lineStart - 1)
  }

  /** The findings are in strictly increasing line order. */
  predicate InLineOrder(r: seq<Finding>) {
    forall j, k :: 0 <= j < k < |r| ==> r[j].lineStart < r[k].lineStart
  }

  /** Every reported finding is the WARN fence finding on an untagged opening fence, in line order. */
  lemma {:induction false} FenceFindingsSound(file: Option<Path>, lines: seq<string>, n: nat)
    requires n <= |lines|
    ensures forall f :: f in FenceFindings(file, lines, n) ==> IsFenceFinding(file, lines, n, f)
    ensures InLineOrder(FenceFindings(file, lines, n))
  {
    if n > 0 {
      FenceFindingsSound(file, lines, n - 1);
      var p := FenceFindings(file, lines, n - 1);
      var r := FenceFindings(file, lines, n);
      forall f | f in r ensures IsFenceFinding(file, lines, n, f) {
        if f in p {
          assert IsFenceFinding(file, lines, n - 1, f);
        }
      }
      forall j, k | 0 <= j < k < |r| ensures r[j].lineStart < r[k].lineStart {
        assert r[j] in p;
        if k < |p| {
          assert r[j] == p[j] && r[k] == p[k];
        }
      }
    }
  }

  /** Every untagged opening fence is reported. */
  lemma {:induction false} FenceFindingsComplete(file: Option<Path>, lines: seq<string>, n: nat, i: nat)
    requires i < n <= |lines|
    requires OpensUntagged(lines, i)
    ensures exists j :: 0 <= j < |FenceFindings(file, lines, n)| && FenceFindings(file, lines, n)[j].lineStart == i + 1
  {
    var r := FenceFindings(file, lines, n);
    if i == n - 1 {
      assert r[|r| - 1].lineStart == i + 1;
    } else {
      FenceFindingsComplete(file, lines, n - 1, i);
      var j :| 0 <= j < |FenceFindings(file, lines, n - 1)| && FenceFindings(file, lines, n - 1)[j].lineStart == i + 1;
      assert r[j] == FenceFindings(file, lines, n - 1)[j];
    }
  }

  /** A closing fence is never reported, whatever follows its backticks. */
  lemma ClosingFenceNotReported(file: Option<Path>, lines: seq<string>, i: nat)
    requires i < |lines| && IsFence(lines[i]) && InCodeBlock(lines, i)
    ensures forall f :: f in FenceFindings(file, lines, |lines|) ==> f.lineStart != i + 1
  {
    FenceFindingsSound(file, lines, |lines|);
  }

  /** checkCodeFences: the fence scan over content.split("\n"). */
  method CheckCodeFences(file: Option<Path>, content: string) returns (findings: seq<Finding>)
    ensures findings == FenceFindings(file, LinesDrop(content), |LinesDrop(content)|)
  {
    var lines := LinesDrop(content);
    findings := [];
    var inCodeBlock := false;
    var i := 0;
    while i < |lines|
      invariant 0 <= i <= |lines|
      invariant inCodeBlock == InCodeBlock(lines, i)
      invariant findings == FenceFindings(file, lines, i)
    {
      var line := Trim(lines[i]);
      if StartsWith(line, "```") {
        if !inCodeBlock {
          var language := Trim(line[3..]);
          if language == "" {
            findings := findings + [LineFinding(FenceFindingId, FenceFindingMessage, Warn, file, i + 1)];
          }
          inCodeBlock := true;
        } else {
          inCodeBlock := false;
        }
      }
      i := i + 1;
    }
  }

  // ------------------------------------------------------------------
  // Heading levels
  // ------------------------------------------------------------------

  /** The level of the last heading line among lines[..n], or 0 when there is none. */
  function PreviousLevel(lines: seq<string>, n: nat): nat
    requires n <= |lines|
  {
    if n == 0 then 0
    else match LineHeading(lines[n - 1])
      case Some(h) => h.level
      case None => PreviousLevel(lines, n - 1)
  }

  /** Line i is a heading more than one level deeper than the heading before it. */
  predicate SkipsLevel(lines: seq<string>, i: nat)
    requires i < |lines|
  {
    var prev := PreviousLevel(lines, i);
    LineHeading(lines[i]).Some? && prev > 0 && LineHeading(lines[i]).value.level > prev + 1
  }

  /**
    The findings checkHeadings reports for lines[..n]: one INFO finding per heading that
    jumps more than one level below the previous heading, naming both levels.
   */
  function HeadingFindings(file: Option<Path>, lines: seq<string>, n: nat): (r: seq<Finding>)
    requires n <= |lines|
    ensures |r| <= n
  {
    if n == 0 then []
    else HeadingFindings(file, lines, n - 1) + (if SkipsLevel(lines, n - 1) then [SkipFinding(file, lines, n - 1)] else [])
  }

  /** The finding for a heading on line i that skips a level: INFO, naming the previous and the new level. */
  function SkipFinding(file: Option<Path>, lines: seq<string>, i: nat): Finding
    requires i < |lines| && SkipsLevel(lines, i)
  {
    LineFinding(SkipFindingId, SkipMessage(PreviousLevel(lines, i), LineHeading(lines[i]).value.level), Info, file, i + 1)
  }

  /** f is the INFO finding for line f.lineStart (1-based) of lines[..n], a heading that skips a level. */
  predicate IsSkipFinding(file: Option<Path>, lines: seq<string>, n: nat, f: Finding)
    requires n <= |lines|
  {
    && 1 <= f.lineStart <= n
    && SkipsLevel(lines, f.lineStart - 1)
    && f == SkipFinding(file, lines, f.lineStart - 1)
  }

  /**
    Every reported finding sits on a heading that skips a level, names the previous
    and the new level, and the findings come in line order.
   */
  lemma {:induction false} HeadingFindingsSound(file: Option<Path>, lines: seq<string>, n: nat)
    requires n <= |lines|
    ensures forall f :: f in HeadingFindings(file, lines, n) ==> IsSkipFinding(file, lines, n, f)
    ensures InLineOrder(HeadingFindings(file, lines, n))
  {
    if n > 0 {
      HeadingFindingsSound(file, lines, n - 1);
      var p := HeadingFindings(file, lines, n - 1);
      var r := HeadingFindings(file, lines, n);
      forall f | f in r ensures IsSkipFinding(file, lines, n, f) {
        if f in p {
          assert IsSkipFinding(file, lines, n - 1, f);
        }
      }
      forall j, k | 0 <= j < k < |r| ensures r[j].lineStart < r[k].lineStart {
        assert r[j] in p;
        if k < |p| {
          assert r[j] == p[j] && r[k] == p[k];
        }
      }
    }
  }

  /** The levels of the heading lines among lines[..n], in order. */
  function LevelsUpTo(lines: seq<string>, n: nat): (r: seq<nat>)
    requires n <= |lines|
    ensures forall t :: 0 <= t < |r| ==> 1 <= r[t] <= 6
  {
    if n == 0 then []
    else match LineHeading(lines[n - 1])
      case Some(h) => LevelsUpTo(lines, n - 1) + [h.level]
      case None => LevelsUpTo(lines, n - 1)
  }

  /** Every heading is at most one level deeper than the heading before it. */
  predicate Gradual(levels: seq<nat>) {
    forall t :: 0 < t < |levels| ==> levels[t] <= levels[t - 1] + 1
  }

  lemma {:induction false} PreviousLevelIsLastLevel(lines: seq<string>, n: nat)
    requires n <= |lines|
    ensures PreviousLevel(lines, n) == (if |LevelsUpTo(lines, n)| == 0 then 0 else LevelsUpTo(lines, n)[|LevelsUpTo(lines, n)| - 1])
  {
    if n > 0 && LineHeading(lines[n - 1]).None? {
      PreviousLevelIsLastLevel(lines, n - 1);
    }
  }

  /**
    checkHeadings reports nothing exactly when the heading levels never jump by more
    than one from one heading to the next.
   */
  lemma {:induction false} NoHeadingFindingsIffGradual(file: Option<Path>, lines: seq<string>, n: nat)
    requires n <= |lines|
    ensures HeadingFindings(file, lines, n) == [] <==> Gradual(LevelsUpTo(lines, n))
  {
    if n > 0 {
      NoHeadingFindingsIffGradual(file, lines, n - 1);
      PreviousLevelIsLastLevel(lines, n - 1);
      HeadingFindingsEmptyStep(file, lines, n);
      var L := LevelsUpTo(lines, n - 1);
      var h := LineHeading(lines[n - 1]);
      if h.Some? {
        var x := h.value.level;
        assert LevelsUpTo(lines, n) == L + [x];
        GradualSnoc(L, x);
        var prev := PreviousLevel(lines, n - 1);
        assert prev > 0 <==> |L| > 0;
        assert SkipsLevel(lines, n - 1) <==> prev > 0 && x > prev + 1;
      } else {
        assert LevelsUpTo(lines, n) == L;
        assert !SkipsLevel(lines, n - 1);
      }
    }
  }

  lemma HeadingFindingsEmptyStep(file: Option<Path>, lines: seq<string>, n: nat)
    requires 0 < n <= |lines|
    ensures HeadingFindings(file, lines, n) == [] <==>
              HeadingFindings(file, lines, n - 1) == [] && !SkipsLevel(lines, n - 1)
  {
    if SkipsLevel(lines, n - 1) {
      assert |HeadingFindings(file, lines, n)| > 0;
    }
  }

  /** Appending a level keeps the levels gradual exactly when it is at most one below the last. */
  lemma GradualSnoc(levels: seq<nat>, x: nat)
    ensures Gradual(levels + [x]) <==> Gradual(levels) && (|levels| == 0 || x <= levels[|levels| - 1] + 1)
  {
    var L' := levels + [x];
    if Gradual(L') {
      forall t | 0 < t < |levels| ensures levels[t] <= levels[t - 1] + 1 {
        assert levels[t] == L'[t] && levels[t - 1] == L'[t - 1];
      }
      if |levels| > 0 {
        assert L'[|levels|] == x && L'[|levels| - 1] == levels[|levels| - 1];
      }
    }
    if Gradual(levels) && (|levels| == 0 || x <= levels[|levels| - 1] + 1) {
      forall t | 0 < t < |L'| ensures L'[t] <= L'[t - 1] + 1 {
        if t < |levels| {
          assert L'[t] == levels[t] && L'[t - 1] == levels[t - 1];
        } else {
          assert L'[t] == x && L'[t - 1] == levels[|levels| - 1];
        }
      }
    }
  }

  /** checkHeadings: the heading-level scan over content.split("\n"). */
  method CheckHeadings(file: Option<Path>, content: string) returns (findings: seq<Finding>)
    ensures findings == HeadingFindings(file, LinesDrop(content), |LinesDrop(content)|)
  {
    var lines := LinesDrop(content);
    findings := [];
    var previousLevel := 0;
    var i := 0;
    while i < |lines|
      invariant 0 <= i <= |lines|
      invariant previousLevel == PreviousLevel(lines, i)
      invariant findings == HeadingFindings(file, lines, i)
    {
      var matcher := LineHeading(lines[i]);
      if matcher.Some? {
        var level := matcher.value.level;
        if previousLevel > 0 && level > previousLevel + 1 {
          var finding := LineFinding(SkipFindingId, SkipMessage(previousLevel, level), Info, file, i + 1);
          assert finding == SkipFinding(file, lines, i);
          findings := findings + [finding];
        }
        previousLevel := level;
      }
      i := i + 1;
    }
  }

  /** The tool's literal ids and messages are not blank, so forLine accepts every finding it builds. */
  lemma LiteralsNotBlank(from: nat, to: nat)
    ensures !IsBlank(FenceFindingId) && !IsBlank(FenceFindingMessage) && !IsBlank(SkipFindingId)
    ensures !IsBlank(SkipMessage(from, to))
  {
    NotBlankByFirst(FenceFindingId);
    NotBlankByFirst(FenceFindingMessage);
    NotBlankByFirst(SkipFindingId);
    assert SkipMessage(from, to)[0] == 'H' by {
      assert SkipMessage(from, to) == "Heading jumps from level " + (NatToString(from) + " to " + NatToString(to));
    }
    NotBlankByFirst(SkipMessage(from, to));
  }

  /** lint: the fence findings followed by the heading findings, each one a valid record. */
  method Lint(file: Option<Path>, content: string) returns (findings: seq<Finding>)
    ensures findings == FenceFindings(file, LinesDrop(content), |LinesDrop(content)|)
                        + HeadingFindings(file, LinesDrop(content), |LinesDrop(content)|)
    ensures forall j :: 0 <= j < |findings| ==> findings[j].Valid() && findings[j].lineStart >= 1
  {
    var fences := CheckCodeFences(file, content);
    var headings := CheckHeadings(file, content);
    findings := fences + headings;
    ghost var lines := LinesDrop(content);
    FenceFindingsSound(file, lines, |lines|);
    HeadingFindingsSound(file, lines, |lines|);
    forall j | 0 <= j < |findings| ensures findings[j].Valid() && findings[j].lineStart >= 1 {
      var f := findings[j];
      if j < |fences| {
        assert f in fences;
        LiteralsNotBlank(0, 0);
      } else {
        assert f in headings;
        assert IsSkipFinding(file, lines, |lines|, f);
        var i := f.lineStart - 1;
        LiteralsNotBlank(PreviousLevel(lines, i), LineHeading(lines[i]).value.level);
      }
    }
  }

  /** countHeadings: how many times Matcher.find() succeeds on the whole text. */
  method CountHeadings(content: string) returns (count: nat)
    ensures count == |TextHeadings(content)|
  {
    var lines := Lines(content);
    count := 0;
    var pos := 0;
    while true
      invariant pos <= |lines|
      invariant count + |HeadingsFrom(lines, pos)| == |TextHeadings(content)|
      decreases |lines| - pos
    {
      var found := FindFrom(lines, pos);
      if found.None? {
        break;
      }
      count := count + 1;
      pos := found.value.resume;
    }
  }

  // ------------------------------------------------------------------
  // The cases of the tool's own test suite, on the lines of each text
  // ------------------------------------------------------------------

  /** An untagged fence after a title is reported on its line. */
  lemma UntaggedFenceExample()
    ensures FenceFindings(None, ["# Test", "", "```", "code here", "```"], 5)
            == [LineFinding(FenceFindingId, FenceFindingMessage, Warn, None, 3)]
  {
    var ls := ["# Test", "", "```", "code here", "```"];
    assert !IsFence(ls[0]) && !IsFence(ls[1]) && IsFence(ls[2]) && !IsFence(ls[3]) && IsFence(ls[4]);
    assert Trim(ls[2])[3..] == "";
  }

  /** A title followed by a third-level heading is a skip from 1 to 3. */
  lemma SkippedLevelExample()
    ensures HeadingFindings(None, ["# Title", "", "### Skipped level"], 3)
            == [LineFinding(SkipFindingId, SkipMessage(1, 3), Info, None, 3)]
  {
    var ls := ["# Title", "", "### Skipped level"];
    assert LeadingHashes(ls[0]) == 1;
    assert LeadingHashes(ls[1]) == 0;
    assert LeadingHashes(ls[2]) == 3;
  }
}
