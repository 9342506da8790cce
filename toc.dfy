/**
  TocTool: the table of contents built from the headings of a document, the
  GitHub-style anchors its links point to, the test for an existing table and its
  insertion after the first line that starts with '#'.
 */
module Toc {
  import opened Strings
  import opened Headings

  // ------------------------------------------------------------------
  // createAnchor
  // ------------------------------------------------------------------

  /** The characters `[^a-z0-9\s-]` does not remove. */
  predicate IsAnchorSource(c: char) {
    ('a' <= c <= 'z') || ('0' <= c <= '9') || IsRegexSpace(c) || c == '-'
  }

  predicate IsAnchorChar(c: char) {
    ('a' <= c <= 'z') || ('0' <= c <= '9') || c == '-'
  }

  /** replaceAll("[^a-z0-9\\s-]", ""): every other character removed. */
  function KeepAnchorSource(s: string): string {
    if |s| == 0 then "" else (if IsAnchorSource(s[0]) then [s[0]] else "") + KeepAnchorSource(s[1..])
  }

  /** The string without the `\s` characters it starts with. */
  function DropRegexSpaces(s: string): (r: string)
    ensures |r| <= |s| && (r == [] || !IsRegexSpace(r[0]))
    ensures |s| > 0 && IsRegexSpace(s[0]) ==> |r| < |s|
  {
    if |s| > 0 && IsRegexSpace(s[0]) then DropRegexSpaces(s[1..]) else s
  }

  /** The string without the dashes it starts with. */
  function DropDashes(s: string): (r: string)
    ensures |r| <= |s| && (r == [] || r[0] != '-')
    ensures |s| > 0 && s[0] == '-' ==> |r| < |s|
  {
    if |s| > 0 && s[0] == '-' then DropDashes(s[1..]) else s
  }

  /** replaceAll("\\s+", "-"): every run of `\s` characters becomes one dash. */
  function SpaceRunsToDash(s: string): string
    decreases |s|
  {
    if |s| == 0 then ""
    else if IsRegexSpace(s[0]) then "-" + SpaceRunsToDash(DropRegexSpaces(s))
    else [s[0]] + SpaceRunsToDash(s[1..])
  }

  /** replaceAll("-+", "-"): every run of dashes becomes one dash. */
  function CollapseDashes(s: string): string
    decreases |s|
  {
    if |s| == 0 then ""
    else if s[0] == '-' then "-" + CollapseDashes(DropDashes(s))
    else [s[0]] + CollapseDashes(s[1..])
  }

  /** replaceAll("^-|-$", ""): a dash at the very start and one at the very end removed. */
  function StripEdgeDashes(s: string): string {
    var t := if |s| > 0 && s[0] == '-' then s[1..] else s;
    if |t| > 0 && t[|t| - 1] == '-' then t[..|t| - 1] else t
  }

  /** createAnchor: lowercase, drop punctuation, blanks to dashes, one dash per run, none at the ends. */
  function CreateAnchor(heading: string): string {
    StripEdgeDashes(CollapseDashes(SpaceRunsToDash(KeepAnchorSource(Lower(heading)))))
  }

  predicate AnchorCharsOnly(s: string) {
    forall i :: 0 <= i < |s| ==> IsAnchorChar(s[i])
  }

  predicate SourceCharsOnly(s: string) {
    forall i :: 0 <= i < |s| ==> IsAnchorSource(s[i])
  }

  /** No two dashes in a row. */
  predicate NoDoubleDash(s: string) {
    forall i :: 0 <= i < |s| - 1 ==> !(s[i] == '-' && s[i + 1] == '-')
  }

  /** Lowercase ASCII has no capital letters, so the filter leaves only [a-z0-9\s-]. */
  lemma {:induction false} KeepAnchorSourceShape(s: string)
    ensures SourceCharsOnly(KeepAnchorSource(s))
  {
    if |s| > 0 {
      KeepAnchorSourceShape(s[1..]);
    }
  }

  lemma {:induction false} DropRegexSpacesSuffix(s: string)
    ensures DropRegexSpaces(s) == s[|s| - |DropRegexSpaces(s)|..]
  {
    if |s| > 0 && IsRegexSpace(s[0]) {
      DropRegexSpacesSuffix(s[1..]);
    }
  }

  lemma {:induction false} DropDashesSuffix(s: string)
    ensures DropDashes(s) == s[|s| - |DropDashes(s)|..]
  {
    if |s| > 0 && s[0] == '-' {
      DropDashesSuffix(s[1..]);
    }
  }

  /** After the blanks become dashes only [a-z0-9-] is left. */
  lemma {:induction false} SpaceRunsToDashShape(s: string)
    requires SourceCharsOnly(s)
    ensures AnchorCharsOnly(SpaceRunsToDash(s))
    decreases |s|
  {
    if |s| > 0 {
      if IsRegexSpace(s[0]) {
        var d := DropRegexSpaces(s);
        DropRegexSpacesSuffix(s);
        assert SourceCharsOnly(d) by {
          forall i | 0 <= i < |d| ensures IsAnchorSource(d[i]) {
            assert d[i] == s[|s| - |d| + i];
          }
        }
        SpaceRunsToDashShape(d);
      } else {
        SpaceRunsToDashShape(s[1..]);
      }
    }
  }

  /** Collapsing keeps the characters and leaves no two dashes in a row. */
  lemma {:induction false} CollapseDashesShape(s: string)
    requires AnchorCharsOnly(s)
    ensures AnchorCharsOnly(CollapseDashes(s)) && NoDoubleDash(CollapseDashes(s))
    ensures |s| > 0 ==> |CollapseDashes(s)| > 0 && (CollapseDashes(s)[0] == '-' <==> s[0] == '-')
    decreases |s|
  {
    if |s| > 0 {
      var r := CollapseDashes(s);
      if s[0] == '-' {
        var d := DropDashes(s);
        DropDashesSuffix(s);
        assert AnchorCharsOnly(d) by {
          forall i | 0 <= i < |d| ensures IsAnchorChar(d[i]) {
            assert d[i] == s[|s| - |d| + i];
          }
        }
        CollapseDashesShape(d);
        var t := CollapseDashes(d);
        assert r == "-" + t;
        forall i | 0 <= i < |r| - 1 ensures !(r[i] == '-' && r[i + 1] == '-') {
          if i > 0 {
            assert r[i] == t[i - 1] && r[i + 1] == t[i];
          }
        }
      } else {
        CollapseDashesShape(s[1..]);
        var t := CollapseDashes(s[1..]);
        assert r == [s[0]] + t;
        forall i | 0 <= i < |r| - 1 ensures !(r[i] == '-' && r[i + 1] == '-') {
          if i > 0 {
            assert r[i] == t[i - 1] && r[i + 1] == t[i];
          }
        }
      }
    }
  }

  /**
    Every anchor is made of lowercase ASCII letters, digits and dashes, holds no two
    dashes in a row, and neither starts nor ends with a dash.
   */
  lemma CreateAnchorShape(heading: string)
    ensures var a := CreateAnchor(heading);
            && AnchorCharsOnly(a) && NoDoubleDash(a)
            && (a == [] || (a[0] != '-' && a[|a| - 1] != '-'))
  {
    var k := KeepAnchorSource(Lower(heading));
    KeepAnchorSourceShape(Lower(heading));
    SpaceRunsToDashShape(k);
    var c := CollapseDashes(SpaceRunsToDash(k));
    CollapseDashesShape(SpaceRunsToDash(k));
    var t := if |c| > 0 && c[0] == '-' then c[1..] else c;
    assert AnchorCharsOnly(t) && NoDoubleDash(t) by {
      if |c| > 0 && c[0] == '-' {
        forall i | 0 <= i < |t| - 1 ensures !(t[i] == '-' && t[i + 1] == '-') {
          assert t[i] == c[i + 1] && t[i + 1] == c[i + 2];
        }
      }
    }
    if |c| > 1 && c[0] == '-' {
      assert t[0] == c[1] && c[1] != '-';
    }
  }

  // ------------------------------------------------------------------
  // hasToc
  // ------------------------------------------------------------------

  predicate SpacesBetween(s: string, from: int, to: int) {
    0 <= from <= to <= |s| && forall k :: from <= k < to ==> IsRegexSpace(s[k])
  }

  /** t occurs at j in s when ASCII case is ignored. */
  predicate OccursAtIgnoreCase(s: string, t: string, j: int) {
    0 <= j && j + |t| <= |s| && Lower(s[j..j + |t|]) == t
  }

  /** `##\s*Table of Contents`, case-insensitively, with "##" at i and the title at j. */
  predicate TocHeadingAt(s: string, i: int, j: int) {
    OccursAt(s, "##", i) && SpacesBetween(s, i + 2, j) && OccursAtIgnoreCase(s, "table of contents", j)
  }

  /** `<!--\s*toc\s*-->`, case-insensitively, with "<!--" at i, "toc" at j and "-->" at k. */
  predicate TocCommentAt(s: string, i: int, j: int, k: int) {
    && OccursAt(s, "<!--", i) && SpacesBetween(s, i + 4, j) && OccursAtIgnoreCase(s, "toc", j)
    && SpacesBetween(s, j + 3, k) && OccursAt(s, "-->", k)
  }

  /** hasToc: the marker pattern is found anywhere in the text. */
  predicate HasToc(content: string) {
    || (exists i, j | 0 <= i <= j <= |content| :: TocHeadingAt(content, i, j))
    || (exists i, j, k | 0 <= i <= j <= k <= |content| :: TocCommentAt(content, i, j, k))
  }

  /** A marker found in a piece of a text is found in the text. */
  lemma TocHeadingShift(a: string, t: string, b: string, i: int, j: int)
    requires TocHeadingAt(t, i, j)
    ensures TocHeadingAt(a + t + b, |a| + i, |a| + j)
  {
    var s := a + t + b;
    assert s[|a| + i..|a| + i + 2] == t[i..i + 2];
    assert s[|a| + j..|a| + j + 17] == t[j..j + 17];
    forall k | |a| + i + 2 <= k < |a| + j ensures IsRegexSpace(s[k]) {
      assert s[k] == t[k - |a|];
    }
  }

  /** A marker that lies inside s[lo..hi] is found in that piece. */
  lemma TocHeadingSlice(s: string, lo: int, hi: int, i: int, j: int)
    requires 0 <= lo <= i && j + 17 <= hi <= |s| && TocHeadingAt(s, i, j)
    ensures TocHeadingAt(s[lo..hi], i - lo, j - lo)
  {
    var t := s[lo..hi];
    assert t[i - lo..i - lo + 2] == s[i..i + 2] by {
      var u, v := t[i - lo..i - lo + 2], s[i..i + 2];
      forall k | 0 <= k < 2 ensures u[k] == v[k] {
        assert t[i - lo + k] == s[i + k];
      }
    }
    assert t[j - lo..j - lo + 17] == s[j..j + 17] by {
      var u, v := t[j - lo..j - lo + 17], s[j..j + 17];
      forall k | 0 <= k < 17 ensures u[k] == v[k] {
        assert t[j - lo + k] == s[j + k];
      }
    }
    forall k | i - lo + 2 <= k < j - lo ensures IsRegexSpace(t[k]) {
      assert t[k] == s[k + lo];
    }
  }

  /** A text starting with "## Table of Contents" has a TOC marker at its start. */
  lemma TocTitleIsMarker(s: string)
    requires StartsWith(s, "## Table of Contents")
    ensures TocHeadingAt(s, 0, 3)
  {
    assert s[3..20] == s[..20][3..20];
    LowerTocTitle();
  }

  lemma LowerTocTitle()
    ensures Lower("## Table of Contents"[3..20]) == "table of contents"
  {
    var t := "## Table of Contents"[3..20];
    assert t[0] == 'T' && t[9] == 'C';
  }

  // ------------------------------------------------------------------
  // generateToc / buildTocMarkdown
  // ------------------------------------------------------------------

  datatype TocEntry = TocEntry(level: nat, title: string, anchor: string)

  /** title.equalsIgnoreCase("Table of Contents"), for ASCII case. */
  predicate IsTocTitle(title: string) {
    Lower(title) == "table of contents"
  }

  /** The entry of one heading: none for the TOC's own heading, else its level, title and anchor. */
  function EntryOf(h: Heading): (r: seq<TocEntry>)
    ensures |r| <= 1
  {
    if IsTocTitle(h.title) then [] else [TocEntry(h.level, h.title, CreateAnchor(h.title))]
  }

  /** The entries generateToc collects: every heading but the TOC's own, with its anchor. */
  function TocEntries(hs: seq<Heading>): (r: seq<TocEntry>)
    ensures |r| <= |hs|
  {
    if |hs| == 0 then [] else EntryOf(hs[0]) + TocEntries(hs[1..])
  }

  /** The line of one entry: two spaces per level below 1, then the link. */
  function EntryLine(e: TocEntry): string
    requires e.level >= 1
  {
    Repeat(' ', (e.level - 1) * 2) + "- [" + e.title + "](#" + e.anchor + ")"
  }

  predicate LevelsPositive(es: seq<TocEntry>) {
    forall k :: 0 <= k < |es| ==> es[k].level >= 1
  }

  /** The entry lines of es, each followed by '\n'. */
  function EntryBlock(es: seq<TocEntry>): string
    requires LevelsPositive(es)
  {
    if |es| == 0 then "" else EntryBlock(es[..|es| - 1]) + EntryLine(es[|es| - 1]) + "\n"
  }

  const TocTitle := "## Table of Contents"

  /** The table: nothing for no entries, else the title, a blank line and one line per entry. */
  function TocText(es: seq<TocEntry>): string
    requires LevelsPositive(es)
  {
    if |es| == 0 then "" else TocTitle + "\n\n" + EntryBlock(es)
  }

  lemma EntryBlockSnoc(es: seq<TocEntry>, i: nat)
    requires i < |es| && LevelsPositive(es)
    ensures LevelsPositive(es[..i]) && LevelsPositive(es[..i + 1])
    ensures EntryBlock(es[..i + 1]) == EntryBlock(es[..i]) + EntryLine(es[i]) + "\n"
  {
    assert es[..i + 1][..i] == es[..i];
  }

  /** buildTocMarkdown: the StringBuilder loop over the entries. */
  method BuildTocMarkdown(entries: seq<TocEntry>) returns (toc: string)
    requires LevelsPositive(entries)
    ensures toc == TocText(entries)
  {
    if |entries| == 0 {
      return "";
    }
    toc := TocTitle + "\n\n";
    ghost var head := toc;
    var i := 0;
    while i < |entries|
      invariant 0 <= i <= |entries| && LevelsPositive(entries[..i])
      invariant toc == head + EntryBlock(entries[..i])
    {
      var entry := entries[i];
      var indent := (entry.level - 1) * 2;
      var spaces := Repeat(' ', indent);
      var line := spaces + "- [" + entry.title + "](#" + entry.anchor + ")";
      EntryBlockSnoc(entries, i);
      assert line == EntryLine(entries[i]);
      RegroupLine(head, EntryBlock(entries[..i]), line);
      toc := toc + line + "\n";
      i := i + 1;
    }
    assert entries[..|entries|] == entries;
  }

  /** The entries of a heading list all have a level of at least one. */
  lemma {:induction false} TocEntriesLevels(hs: seq<Heading>)
    requires forall k :: 0 <= k < |hs| ==> 1 <= hs[k].level <= 6
    ensures LevelsPositive(TocEntries(hs))
  {
    if |hs| > 0 {
      TocEntriesLevels(hs[1..]);
    }
  }

  /** generateToc's result, from the headings a find() loop visits. */
  function GeneratedToc(content: string): string {
    TocEntriesLevels(TextHeadings(content));
    TocText(TocEntries(TextHeadings(content)))
  }

  /** One find() step: the entries collected so far grow by those of the heading just found. */
  lemma CollectStep(ls: seq<string>, i: nat, entries: seq<TocEntry>, total: seq<TocEntry>)
    requires i <= |ls| && FindFrom(ls, i).Some?
    requires entries + TocEntries(HeadingsFrom(ls, i)) == total
    ensures var m := FindFrom(ls, i).value;
            (entries + EntryOf(m.heading)) + TocEntries(HeadingsFrom(ls, m.resume)) == total
  {
    var m := FindFrom(ls, i).value;
    assert HeadingsFrom(ls, i) == [m.heading] + HeadingsFrom(ls, m.resume);
    assert TocEntries(HeadingsFrom(ls, i)) == EntryOf(m.heading) + TocEntries(HeadingsFrom(ls, m.resume));
  }

  /**
    The while (matcher.find()) loop of generateToc over the text's lines: one entry per
    heading not titled as the table itself.
   */
  method CollectTocEntries(lines: seq<string>) returns (entries: seq<TocEntry>)
    ensures entries == TocEntries(HeadingsFrom(lines, 0))
  {
    entries := [];
    var pos := 0;
    var found := FindFrom(lines, pos);
    while found.Some?
      invariant pos <= |lines| && found == FindFrom(lines, pos)
      invariant entries + TocEntries(HeadingsFrom(lines, pos)) == TocEntries(HeadingsFrom(lines, 0))
      decreases |lines| - pos
    {
      var heading := found.value.heading;
      CollectStep(lines, pos, entries, TocEntries(HeadingsFrom(lines, 0)));
      if !IsTocTitle(heading.title) {
        var anchor := CreateAnchor(heading.title);
        entries := entries + [TocEntry(heading.level, heading.title, anchor)];
      } else {
        entries := entries + [];
      }
      pos := found.value.resume;
      found := FindFrom(lines, pos);
    }
  }

  /** generateToc: the entries of the text's headings, laid out as the table. */
  method GenerateToc(content: string) returns (toc: string)
    ensures toc == GeneratedToc(content)
  {
    var entries := CollectTocEntries(Lines(content));
    TocEntriesLevels(TextHeadings(content));
    toc := BuildTocMarkdown(entries);
  }

  /** The table is empty exactly when every heading found is titled "Table of Contents". */
  lemma {:induction false} TocEntriesEmptyIff(hs: seq<Heading>)
    ensures TocEntries(hs) == [] <==> forall k :: 0 <= k < |hs| ==> IsTocTitle(hs[k].title)
  {
    if |hs| > 0 {
      TocEntriesEmptyIff(hs[1..]);
      if forall k :: 0 <= k < |hs[1..]| ==> IsTocTitle(hs[1..][k].title) {
        if IsTocTitle(hs[0].title) {
          forall k | 0 <= k < |hs| ensures IsTocTitle(hs[k].title) {
            if k > 0 { assert hs[k] == hs[1..][k - 1]; }
          }
        }
      } else {
        var k :| 0 <= k < |hs[1..]| && !IsTocTitle(hs[1..][k].title);
        assert hs[1..][k] == hs[k + 1];
      }
    }
  }

  /** generateToc gives "" exactly when the text has no heading but TOC headings. */
  lemma GeneratedTocEmptyIff(content: string)
    ensures GeneratedToc(content) == "" <==>
              forall k :: 0 <= k < |TextHeadings(content)| ==> IsTocTitle(TextHeadings(content)[k].title)
  {
    TocEntriesEmptyIff(TextHeadings(content));
    TocEntriesLevels(TextHeadings(content));
  }

  /** A table that is not empty is recognised by hasToc. */
  lemma GeneratedTocHasToc(content: string)
    requires GeneratedToc(content) != ""
    ensures StartsWith(GeneratedToc(content), TocTitle)
    ensures HasToc(GeneratedToc(content))
  {
    var toc := GeneratedToc(content);
    assert toc[..|TocTitle|] == TocTitle;
    TocTitleIsMarker(toc);
  }

  // ------------------------------------------------------------------
  // insertToc
  // ------------------------------------------------------------------

  /** The index of the first line starting with '#', or |lines| when there is none. */
  function FirstHashLine(lines: seq<string>): (k: nat)
    ensures k <= |lines|
    ensures forall j :: 0 <= j < k ==> !StartsWith(lines[j], "#")
    ensures k < |lines| ==> StartsWith(lines[k], "#")
  {
    if |lines| == 0 then 0
    else if StartsWith(lines[0], "#") then 0
    else 1 + FirstHashLine(lines[1..])
  }

  /** The lines, each with its '\n', and the block "\n" + toc + "\n" after line k. */
  function WithBlockAfter(lines: seq<string>, k: nat, toc: string, n: nat): string
    requires k < n <= |lines|
  {
    Terminated(lines[..k + 1]) + ("\n" + toc + "\n") + Terminated(lines[k + 1..n])
  }

  /**
    insertToc's result: the table after the first line that starts with '#' with the
    whole text trimmed, or the table, a blank line and the text when no line does.
   */
  function InsertedToc(content: string, toc: string): string {
    var lines := Lines(content);
    var k := FirstHashLine(lines);
    if k == |lines| then toc + "\n\n" + content
    else Trim(WithBlockAfter(lines, k, toc, |lines|))
  }

  /** insertToc: copies the lines and puts the block after the first one starting with '#'. */
  method InsertToc(content: string, toc: string) returns (r: string)
    ensures r == InsertedToc(content, toc)
  {
    var lines := Lines(content);
    var result := "";
    ghost var k := FirstHashLine(lines);
    var inserted := false;
    var i := 0;
    while i < |lines|
      invariant 0 <= i <= |lines|
      invariant inserted <==> k < i
      invariant !inserted ==> result == Terminated(lines[..i])
      invariant inserted ==> result == WithBlockAfter(lines, k, toc, i)
    {
      result := result + lines[i] + "\n";
      if inserted {
        WithBlockAfterSnoc(lines, k, toc, i);
      } else {
        TerminatedPrefixSnoc(lines, i);
      }
      if !inserted && StartsWith(lines[i], "#") {
        result := result + "\n" + toc + "\n";
        inserted := true;
        WithBlockAfterStart(lines, k, toc);
      }
      i := i + 1;
    }
    if !inserted {
      return toc + "\n\n" + content;
    }
    r := Trim(result);
  }

  lemma TerminatedPrefixSnoc(lines: seq<string>, i: nat)
    requires i < |lines|
    ensures Terminated(lines[..i + 1]) == Terminated(lines[..i]) + lines[i] + "\n"
  {
    assert lines[..i + 1] == lines[..i] + [lines[i]];
    TerminatedSnoc(lines[..i], lines[i]);
  }

  lemma WithBlockAfterStart(lines: seq<string>, k: nat, toc: string)
    requires k < |lines|
    ensures WithBlockAfter(lines, k, toc, k + 1) == Terminated(lines[..k + 1]) + "\n" + toc + "\n"
  {
    assert lines[k + 1..k + 1] == [];
  }

  lemma WithBlockAfterSnoc(lines: seq<string>, k: nat, toc: string, n: nat)
    requires k < n < |lines|
    ensures WithBlockAfter(lines, k, toc, n + 1) == WithBlockAfter(lines, k, toc, n) + lines[n] + "\n"
  {
    assert lines[k + 1..n + 1] == lines[k + 1..n] + [lines[n]];
    TerminatedSnoc(lines[k + 1..n], lines[n]);
  }

  /** Taking the inserted block back out leaves the text with one '\n' added at its end. */
  lemma InsertTocKeepsText(content: string, toc: string)
    requires FirstHashLine(Lines(content)) < |Lines(content)|
    ensures var lines := Lines(content);
            var k := FirstHashLine(lines);
            Terminated(lines[..k + 1]) + Terminated(lines[k + 1..]) == content + "\n"
  {
    var lines := Lines(content);
    var k := FirstHashLine(lines);
    TerminatedAppend(lines[..k + 1], lines[k + 1..]);
    assert lines[..k + 1] + lines[k + 1..] == lines;
    TerminatedIsJoin(lines);
    JoinSplit(content, "\n");
  }

  /** After a table that starts with its title is inserted, hasToc holds, so it is never inserted twice. */
  lemma InsertedTocHasToc(content: string, toc: string)
    requires StartsWith(toc, TocTitle)
    ensures HasToc(InsertedToc(content, toc))
  {
    TocTitleIsMarker(toc);
    var lines := Lines(content);
    var k := FirstHashLine(lines);
    if k == |lines| {
      TocHeadingShift([], toc, "\n\n" + content, 0, 3);
      assert [] + toc + ("\n\n" + content) == toc + "\n\n" + content;
    } else {
      var a := Terminated(lines[..k + 1]);
      var b := Terminated(lines[k + 1..|lines|]);
      assert WithBlockAfter(lines, k, toc, |lines|) == (a + "\n") + toc + ("\n" + b);
      MarkerSurvivesTrim(a + "\n", toc, "\n" + b);
    }
  }

  /** Trimming a text cannot cut into a table title inside it. */
  lemma MarkerSurvivesTrim(p: string, toc: string, q: string)
    requires StartsWith(toc, TocTitle)
    ensures HasToc(Trim(p + toc + q))
  {
    var x := p + toc + q;
    var m := |p|;
    TitleNotTrimmable(p, toc, q);
    TocTitleIsMarker(toc);
    TocHeadingShift(p, toc, q, 0, 3);
    var a := TrimKeepsWindow(x, m, m + 20);
    TocHeadingSlice(x, a, a + |Trim(x)|, m, m + 3);
  }

  lemma TitleNotTrimmable(p: string, toc: string, q: string)
    requires StartsWith(toc, TocTitle)
    ensures |p| + 20 <= |p + toc + q|
    ensures !IsTrimmable((p + toc + q)[|p|]) && !IsTrimmable((p + toc + q)[|p| + 19])
  {
    assert (p + toc + q)[|p|] == toc[0] == TocTitle[0];
    assert (p + toc + q)[|p| + 19] == toc[19] == TocTitle[19];
  }
}
