/**
  The ATX heading pattern `^(#{1,6})\s+(.*)$` that the linter, the table-of-contents
  tool and the visual tool share, in its two uses:
  - Matcher.matches() on a single line (LineHeading), and
  - repeated Matcher.find() over a whole MULTILINE text (FindFrom / TextHeadings),
    where `\s+` may run across line ends after a line holding only hashes and blanks.
  Text is taken as lines separated by '\n' only, so `.` matches every other character.
 */
module Headings {
  import opened Wrappers
  import opened Strings

  /** A matched heading: the number of hashes and the trimmed second group. */
  datatype Heading = Heading(level: nat, title: string)

  /** The number of '#' characters the line starts with. */
  function LeadingHashes(line: string): (n: nat)
    ensures n <= |line|
  {
    if |line| > 0 && line[0] == '#' then 1 + LeadingHashes(line[1..]) else 0
  }

  /** The leading hashes are a run of '#' that ends the line or is followed by another character. */
  lemma {:induction false} LeadingHashesShape(line: string)
    ensures line[..LeadingHashes(line)] == Repeat('#', LeadingHashes(line))
    ensures LeadingHashes(line) == |line| || line[LeadingHashes(line)] != '#'
  {
    if |line| > 0 && line[0] == '#' {
      LeadingHashesShape(line[1..]);
      var n := LeadingHashes(line[1..]);
      assert line[..n + 1] == [line[0]] + line[1..][..n];
    }
  }

  predicate AllRegexSpace(s: string) {
    forall i :: 0 <= i < |s| ==> IsRegexSpace(s[i])
  }

  /**
    Matcher.matches() of the heading pattern on one line: one to six hashes, then at
    least one `\s` character; the title is the rest of the line, trimmed.
   */
  function LineHeading(line: string): (r: Option<Heading>)
    ensures r.Some? ==> 1 <= r.value.level <= 6 && r.value.level < |line|
  {
    var n := LeadingHashes(line);
    if 1 <= n <= 6 && n < |line| && IsRegexSpace(line[n]) then Some(Heading(n, Trim(line[n..]))) else None
  }

  /**
    What a match means: the line is level hashes, a `\s` character and the rest, and
    the title is that rest trimmed; and no line of that shape is refused.
   */
  lemma LineHeadingMeaning(line: string)
    ensures var r := LineHeading(line);
            r.Some? ==> && line[..r.value.level] == Repeat('#', r.value.level)
                        && IsRegexSpace(line[r.value.level])
                        && r.value.title == Trim(line[r.value.level..])
    ensures LineHeading(line).None? ==>
              forall k :: 1 <= k <= 6 && k < |line| && line[..k] == Repeat('#', k) ==> !IsRegexSpace(line[k])
  {
    LeadingHashesShape(line);
    if LineHeading(line).None? {
      forall k | 1 <= k <= 6 && k < |line| && line[..k] == Repeat('#', k) ensures !IsRegexSpace(line[k]) {
        assert line[k - 1] == Repeat('#', k)[k - 1] == '#';
        var n := LeadingHashes(line);
        if n > k {
          assert line[k] == '#';
        } else {
          assert n == k;
        }
      }
    }
  }

  /** A heading written as hashes, a space and its title is read back with that level and title. */
  lemma LineHeadingRoundTrip(level: nat, title: string)
    requires 1 <= level <= 6
    requires title == Trim(title)
    ensures LineHeading(Repeat('#', level) + " " + title) == Some(Heading(level, title))
  {
    var line := Repeat('#', level) + " " + title;
    assert LeadingHashes(line) == level by {
      assert line == Repeat('#', level) + (" " + title);
      LeadingHashesOf(level, " " + title);
    }
    assert line[level..] == " " + title;
    assert IsRegexSpace(line[level]);
    assert Trim(line[level..]) == title by {
      TrimLeadingSpace(title);
    }
  }

  lemma {:induction false} LeadingHashesOf(n: nat, rest: string)
    requires |rest| > 0 && rest[0] != '#'
    ensures LeadingHashes(Repeat('#', n) + rest) == n
  {
    if n > 0 {
      assert (Repeat('#', n) + rest)[1..] == Repeat('#', n - 1) + rest;
      LeadingHashesOf(n - 1, rest);
    } else {
      assert Repeat('#', n) + rest == rest;
    }
  }

  lemma TrimLeadingSpace(t: string)
    requires t == Trim(t)
    ensures Trim(" " + t) == t
  {
    TrimDropsTrimmablePrefix(" ", t);
  }

  // ------------------------------------------------------------------
  // Matcher.find over the whole text
  // ------------------------------------------------------------------

  /** The state of a successful find: the heading, and the line the next find starts at. */
  datatype Match = Match(heading: Heading, resume: nat)

  /** The first line at or after i that holds a character other than `\s`, or |ls| if none. */
  function NextContentLine(ls: seq<string>, i: nat): (j: nat)
    requires i <= |ls|
    ensures i <= j <= |ls|
    ensures forall k :: i <= k < j ==> AllRegexSpace(ls[k])
    ensures j < |ls| ==> !AllRegexSpace(ls[j])
    decreases |ls| - i
  {
    if i == |ls| || !AllRegexSpace(ls[i]) then i else NextContentLine(ls, i + 1)
  }

  /**
    A line where the pattern starts but `\s+` reaches the end of the line: the match
    then continues on a later line.
   */
  predicate IsBareHeadingLine(line: string) {
    var n := LeadingHashes(line);
    1 <= n <= 6 && (n == |line| || IsRegexSpace(line[n])) && AllRegexSpace(line[n..])
  }

  /**
    One Matcher.find() over the lines ls (the text split at every '\n'), starting at the
    start of line i.  A line opening with one to six hashes followed by `\s` matches on
    its own when it has more than blanks after the hashes; a bare heading line lets `\s+`
    swallow the line ends that follow, and the title then comes from the next line with
    content (or is empty when the text ends first).
   */
  function FindFrom(ls: seq<string>, i: nat): (r: Option<Match>)
    requires i <= |ls|
    ensures r.Some? ==> i < r.value.resume <= |ls| && 1 <= r.value.heading.level <= 6
    decreases |ls| - i
  {
    if i == |ls| then None
    else
      var line := ls[i];
      var n := LeadingHashes(line);
      if !(1 <= n <= 6) || (n < |line| && !IsRegexSpace(line[n])) then FindFrom(ls, i + 1)
      else if !AllRegexSpace(line[n..]) then Some(Match(Heading(n, Trim(line[n..])), i + 1))
      else if n == |line| && i + 1 == |ls| then None
      else
        var j := NextContentLine(ls, i + 1);
        if j == |ls| then Some(Match(Heading(n, ""), |ls|))
        else Some(Match(Heading(n, Trim(ls[j])), j + 1))
  }

  /** All the headings repeated find() calls report, starting at line i. */
  function HeadingsFrom(ls: seq<string>, i: nat): (r: seq<Heading>)
    requires i <= |ls|
    ensures |r| <= |ls| - i
    ensures forall k :: 0 <= k < |r| ==> 1 <= r[k].level <= 6
    decreases |ls| - i
  {
    match FindFrom(ls, i)
    case None => []
    case Some(m) => [m.heading] + HeadingsFrom(ls, m.resume)
  }

  /** The headings `while (matcher.find())` visits in a text. */
  function TextHeadings(text: string): (r: seq<Heading>)
    ensures |r| <= |Lines(text)|
    ensures forall k :: 0 <= k < |r| ==> 1 <= r[k].level <= 6
  {
    HeadingsFrom(Lines(text), 0)
  }

  /** The headings LineHeading finds when applied to each of ls[i..] in turn. */
  function LineHeadingsFrom(ls: seq<string>, i: nat): seq<Heading>
    requires i <= |ls|
    decreases |ls| - i
  {
    if i == |ls| then []
    else match LineHeading(ls[i])
      case Some(h) => [h] + LineHeadingsFrom(ls, i + 1)
      case None => LineHeadingsFrom(ls, i + 1)
  }

  /**
    Without bare heading lines, searching the whole text finds exactly the headings that
    matching each line separately finds, in the same order.
   */
  lemma {:induction false} FindAgreesWithLines(ls: seq<string>, i: nat)
    requires i <= |ls|
    requires forall k :: i <= k < |ls| ==> !IsBareHeadingLine(ls[k])
    ensures HeadingsFrom(ls, i) == LineHeadingsFrom(ls, i)
    decreases |ls| - i
  {
    if i < |ls| {
      FindAgreesWithLines(ls, i + 1);
      var line := ls[i];
      var n := LeadingHashes(line);
      if !(1 <= n <= 6) || (n < |line| && !IsRegexSpace(line[n])) {
        assert LineHeading(line).None?;
        FindSkipsLine(ls, i);
      } else {
        assert !AllRegexSpace(line[n..]);
        assert n < |line|;
      }
    }
  }

  lemma FindSkipsLine(ls: seq<string>, i: nat)
    requires i < |ls|
    requires var n := LeadingHashes(ls[i]); !(1 <= n <= 6) || (n < |ls[i]| && !IsRegexSpace(ls[i][n]))
    ensures HeadingsFrom(ls, i) == HeadingsFrom(ls, i + 1)
  {
  }

  /** A text none of whose lines is a bare heading line has its headings found line by line. */
  lemma TextHeadingsPerLine(text: string)
    requires forall k :: 0 <= k < |Lines(text)| ==> !IsBareHeadingLine(Lines(text)[k])
    ensures TextHeadings(text) == LineHeadingsFrom(Lines(text), 0)
  {
    FindAgreesWithLines(Lines(text), 0);
  }

  /** A bare "#" line followed by a heading merges with it: one level-1 match titled with the whole next line. */
  lemma BareLineMerges()
    ensures TextHeadings("#\n## Install") == [Heading(1, "## Install")]
  {
    var ls := ["#", "## Install"];
    BareLineSplit();
    BareLineFind(ls);
    assert HeadingsFrom(ls, 2) == [];
  }

  lemma BareLineSplit()
    ensures Lines("#\n## Install") == ["#", "## Install"]
  {
    var ls := ["#", "## Install"];
    assert forall k :: 0 <= k < |ls| ==> '\n' !in ls[k];
    SplitJoin(ls, '\n');
    assert JoinWith(ls, "\n") == "#\n## Install";
  }

  lemma BareLineFind(ls: seq<string>)
    requires ls == ["#", "## Install"]
    ensures FindFrom(ls, 0) == Some(Match(Heading(1, "## Install"), 2))
  {
    assert LeadingHashes(ls[0]) == 1;
    assert NextContentLine(ls, 1) == 1 by {
      assert !IsRegexSpace(ls[1][0]);
    }
    assert Trim(ls[1]) == ls[1] by {
      TrimUntrimmedEnds(ls[1]);
    }
  }
}
