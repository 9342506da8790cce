/**
  VisualEnhancementTool: icons on headings, dividers before second-level sections,
  emphasised call-outs, and the counts behind needsVisualEnhancement and
  getVisualStats. A string is a sequence of Unicode code points, so the tool's
  codePointAt scan is a scan over characters (a lone low surrogate it also visits
  is never in an emoji range).
 */
module Visual {
  import opened Wrappers
  import opened Strings
  import opened Headings

  // ------------------------------------------------------------------
  // hasEmoji and the section icons
  // ------------------------------------------------------------------

  /** The three code point ranges the tool counts as emoji. */
  predicate IsEmoji(c: char) {
    var n := c as int;
    (0x1F300 <= n <= 0x1F9FF) || (0x2600 <= n <= 0x27BF) || (0x1F600 <= n <= 0x1F64F)
  }

  predicate HasEmoji(s: string) {
    exists i | 0 <= i < |s| :: IsEmoji(s[i])
  }

  /**
    The keyword table, keyword to icon, in the order the entries are declared.
    The tool keeps it in a HashMap and takes the first keyword its iteration meets;
    this model tries them in declaration order.
   */
  const SectionIcons: seq<(string, string)> := [
      ("features", "\U{1F3AF}"),
      ("capabilities", "\U{26A1}"),
      ("highlights", "\U{2728}"),
      ("quick start", "\U{1F680}"),
      ("getting started", "\U{1F3C1}"),
      ("installation", "\U{1F4E6}"),
      ("setup", "\U{2699}\U{FE0F}"),
      ("usage", "\U{1F4BB}"),
      ("examples", "\U{1F4DA}"),
      ("tutorial", "\U{1F4D6}"),
      ("guide", "\U{1F4DD}"),
      ("configuration", "\U{2699}\U{FE0F}"),
      ("settings", "\U{1F527}"),
      ("options", "\U{1F39B}\U{FE0F}"),
      ("testing", "\U{1F9EA}"),
      ("tests", "\U{2705}"),
      ("development", "\U{1F6E0}\U{FE0F}"),
      ("building", "\U{1F528}"),
      ("architecture", "\U{1F3D7}\U{FE0F}"),
      ("design", "\U{1F3A8}"),
      ("structure", "\U{1F4D0}"),
      ("documentation", "\U{1F4C4}"),
      ("api", "\U{1F50C}"),
      ("reference", "\U{1F4DA}"),
      ("contributing", "\U{1F91D}"),
      ("community", "\U{1F465}"),
      ("support", "\U{1F4AC}"),
      ("deployment", "\U{1F6A2}"),
      ("production", "\U{1F3ED}"),
      ("monitoring", "\U{1F4CA}"),
      ("security", "\U{1F512}"),
      ("license", "\U{1F4C4}"),
      ("legal", "\U{2696}\U{FE0F}"),
      ("performance", "\U{26A1}"),
      ("optimization", "\U{1F684}"),
      ("troubleshooting", "\U{1F41B}"),
      ("faq", "\U{2753}"),
      ("known issues", "\U{26A0}\U{FE0F}"),
      ("changelog", "\U{1F4CB}"),
      ("roadmap", "\U{1F5FA}\U{FE0F}"),
      ("releases", "\U{1F389}"),
      ("table of contents", "\U{1F4CB}"),
      ("contents", "\U{1F4D1}")
    ]

  /** A keyword table the icon search can work with: no keyword is empty and every icon starts with an emoji. */
  predicate IconTable(table: seq<(string, string)>) {
    forall k :: 0 <= k < |table| ==> |table[k].0| > 0 && |table[k].1| > 0 && IsEmoji(table[k].1[0])
  }

  lemma SectionIconsWellFormed()
    ensures IconTable(SectionIcons)
  {
  }

  /** The icon of the first keyword of the table that the lower-cased title contains. */
  function FindIconIn(lower: string, table: seq<(string, string)>): Option<string> {
    if |table| == 0 then None
    else if Contains(lower, table[0].0) then Some(table[0].1)
    else FindIconIn(lower, table[1..])
  }

  /** An icon is found exactly when the title contains a keyword, and it is that keyword's icon. */
  lemma {:induction false} FindIconInMeaning(lower: string, table: seq<(string, string)>)
    ensures FindIconIn(lower, table).None? <==> forall k :: 0 <= k < |table| ==> !Contains(lower, table[k].0)
    ensures FindIconIn(lower, table).Some? ==>
              exists k :: 0 <= k < |table| && Contains(lower, table[k].0)
                       && FindIconIn(lower, table).value == table[k].1
                       && forall j :: 0 <= j < k ==> !Contains(lower, table[j].0)
  {
    if |table| > 0 && !Contains(lower, table[0].0) {
      FindIconInMeaning(lower, table[1..]);
      if FindIconIn(lower, table).Some? {
        var k :| 0 <= k < |table[1..]| && Contains(lower, table[1..][k].0)
                 && FindIconIn(lower, table[1..]).value == table[1..][k].1
                 && forall j :: 0 <= j < k ==> !Contains(lower, table[1..][j].0);
        assert Contains(lower, table[k + 1].0);
      }
    }
  }

  // ------------------------------------------------------------------
  // addIconToHeading / addIconsToHeadings
  //
  // The operations take the keyword table as a parameter; the tool always uses
  // SectionIcons. Keeping the table abstract keeps the proofs independent of its
  // 43 entries.
  // ------------------------------------------------------------------

  /** findIconForTitle: the title is matched in lower case. */
  function FindIconForTitle(title: string, table: seq<(string, string)>): Option<string> {
    FindIconIn(Lower(title), table)
  }

  /**
    A heading line that matches the heading pattern, whose title holds no emoji and
    names a keyword of the table, is rewritten as hashes, space, icon, space, title.
   */
  function AddIconToHeading(heading: string, table: seq<(string, string)>): string {
    match LineHeading(heading)
    case None => heading
    case Some(h) =>
      if HasEmoji(h.title) then heading
      else match FindIconForTitle(h.title, table)
        case None => heading
        case Some(icon) => Repeat('#', h.level) + " " + icon + " " + h.title
  }

  /** The rewritten heading reads back with the same level and the icon in front of the title. */
  lemma IconHeadingReadBack(level: nat, icon: string, title: string)
    requires 1 <= level <= 6 && title == Trim(title) && |title| > 0
    requires |icon| > 0 && IsEmoji(icon[0])
    ensures LineHeading(Repeat('#', level) + " " + icon + " " + title) == Some(Heading(level, icon + " " + title))
    ensures HasEmoji(icon + " " + title)
  {
    var t := icon + " " + title;
    TrimShape(title);
    assert t[|t| - 1] == title[|title| - 1];
    assert t[0] == icon[0];
    TrimUntrimmedEnds(t);
    LineHeadingRoundTrip(level, t);
    assert Repeat('#', level) + " " + icon + " " + title == Repeat('#', level) + " " + t;
  }

  /**
    A heading gains an icon exactly when it matches the heading pattern, its title holds
    no emoji and contains (in lower case) a keyword of the table; the icon is that
    keyword's, and level and title are kept.
   */
  lemma AddIconToHeadingMeaning(heading: string, table: seq<(string, string)>)
    requires IconTable(table)
    ensures AddIconToHeading(heading, table) != heading <==>
              && LineHeading(heading).Some?
              && !HasEmoji(LineHeading(heading).value.title)
              && exists k :: 0 <= k < |table| && Contains(Lower(LineHeading(heading).value.title), table[k].0)
    ensures AddIconToHeading(heading, table) != heading ==>
              exists k :: 0 <= k < |table|
                       && Contains(Lower(LineHeading(heading).value.title), table[k].0)
                       && AddIconToHeading(heading, table)
                          == Repeat('#', LineHeading(heading).value.level) + " " + table[k].1 + " " + LineHeading(heading).value.title
  {
    if LineHeading(heading).Some? {
      var h := LineHeading(heading).value;
      FindIconInMeaning(Lower(h.title), table);
      if !HasEmoji(h.title) && FindIconForTitle(h.title, table).Some? {
        var k :| 0 <= k < |table| && Contains(Lower(h.title), table[k].0)
                 && FindIconForTitle(h.title, table).value == table[k].1
                 && forall j :: 0 <= j < k ==> !Contains(Lower(h.title), table[j].0);
        TrimIdempotent(heading[h.level..]);
        assert |table[k].0| > 0 && IsEmoji(table[k].1[0]);
        IconHeadingReadBack(h.level, table[k].1, h.title);
      }
    }
  }

  /** Adding an icon twice gives the same line as adding it once. */
  lemma AddIconToHeadingIdempotent(heading: string, table: seq<(string, string)>)
    requires IconTable(table)
    ensures AddIconToHeading(AddIconToHeading(heading, table), table) == AddIconToHeading(heading, table)
  {
    var r := AddIconToHeading(heading, table);
    if r != heading {
      AddIconToHeadingMeaning(heading, table);
      var h := LineHeading(heading).value;
      var k :| 0 <= k < |table| && Contains(Lower(h.title), table[k].0)
               && r == Repeat('#', h.level) + " " + table[k].1 + " " + h.title;
      TrimIdempotent(heading[h.level..]);
      assert |table[k].0| > 0 && IsEmoji(table[k].1[0]);
      IconHeadingReadBack(h.level, table[k].1, h.title);
    }
  }

  /** One line of addIconsToHeadings: only a line whose trim starts with '#' is offered. */
  function IconLine(line: string, table: seq<(string, string)>): string {
    if StartsWith(Trim(line), "#") then AddIconToHeading(line, table) else line
  }

  function IconLines(ls: seq<string>, table: seq<(string, string)>): (r: seq<string>)
    ensures |r| == |ls|
  {
    if |ls| == 0 then [] else IconLines(ls[..|ls| - 1], table) + [IconLine(ls[|ls| - 1], table)]
  }

  /** The text addIconsToHeadings returns. */
  function IconText(content: string, table: seq<(string, string)>): string {
    Trim(Terminated(IconLines(Lines(content), table)))
  }

  method AddIconsToHeadingsWith(content: string, table: seq<(string, string)>) returns (r: string)
    ensures r == IconText(content, table)
  {
    var result := "";
    var lines := Lines(content);
    var i := 0;
    while i < |lines|
      invariant 0 <= i <= |lines|
      invariant result == Terminated(IconLines(lines[..i], table))
    {
      var line := lines[i];
      if StartsWith(Trim(line), "#") {
        result := result + AddIconToHeading(line, table);
      } else {
        result := result + line;
      }
      result := result + "\n";
      assert lines[..i + 1][..i] == lines[..i];
      TerminatedSnoc(IconLines(lines[..i], table), IconLine(line, table));
      i := i + 1;
    }
    assert lines[..|lines|] == lines;
    r := Trim(result);
  }

  /** addIconsToHeadings with the tool's own table. */
  method AddIconsToHeadings(content: string) returns (r: string)
    ensures r == IconText(content, SectionIcons)
  {
    r := AddIconsToHeadingsWith(content, SectionIcons);
  }

  /** The '#' guard never hides a heading: a line the heading pattern accepts starts with '#'. */
  lemma IconLineIsAddIcon(line: string, table: seq<(string, string)>)
    ensures IconLine(line, table) == AddIconToHeading(line, table)
  {
    if LineHeading(line).Some? {
      LeadingHashesShape(line);
      assert line[0] == '#';
      var a := TrimKeepsWindow(line, 0, 1);
      assert Trim(line)[0] == '#';
    }
  }

  lemma {:induction false} IconLinesUnchanged(ls: seq<string>, table: seq<(string, string)>)
    requires forall k :: 0 <= k < |ls| ==> AddIconToHeading(ls[k], table) == ls[k]
    ensures IconLines(ls, table) == ls
  {
    if |ls| > 0 {
      IconLinesUnchanged(ls[..|ls| - 1], table);
      IconLineIsAddIcon(ls[|ls| - 1], table);
    }
  }

  /** When no line gains an icon, the text comes back trimmed and otherwise unchanged. */
  lemma IconTextUnchanged(content: string, table: seq<(string, string)>)
    requires forall k :: 0 <= k < |Lines(content)| ==> AddIconToHeading(Lines(content)[k], table) == Lines(content)[k]
    ensures IconText(content, table) == Trim(content)
  {
    var ls := Lines(content);
    IconLinesUnchanged(ls, table);
    TerminatedIsJoin(ls);
    JoinSplit(content, "\n");
    TrimDropsTrimmableSuffix(content, "\n");
  }

  // ------------------------------------------------------------------
  // addSectionDividers
  // ------------------------------------------------------------------

  /** The value lastWasH1 takes after a line: its trim starts with "# " and not with "## ". */
  predicate IsH1Line(line: string) {
    StartsWith(Trim(line), "# ") && !StartsWith(Trim(line), "## ")
  }

  /**
    A divider goes before line i when its trim starts with "## ", it is not the first
    line, the line before is not a level-one heading and is not already "---".
   */
  predicate NeedsDivider(ls: seq<string>, i: nat)
    requires i < |ls|
  {
    StartsWith(Trim(ls[i]), "## ") && i > 0 && !IsH1Line(ls[i - 1]) && Trim(ls[i - 1]) != "---"
  }

  /** The lines "\n---\n\n" adds: a blank line, the rule and another blank line. */
  const DividerBlock: seq<string> := ["", "---", ""]

  /** The first n lines with the divider block in front of each line that needs one. */
  function DividedLines(ls: seq<string>, n: nat): seq<string>
    requires n <= |ls|
  {
    if n == 0 then []
    else DividedLines(ls, n - 1) + (if NeedsDivider(ls, n - 1) then DividerBlock else []) + [ls[n - 1]]
  }

  /** The text addSectionDividers returns. */
  function DividedText(content: string): string {
    Trim(Terminated(DividedLines(Lines(content), |Lines(content)|)))
  }

  function DividerText(ls: seq<string>, i: nat): string
    requires i < |ls|
  {
    if NeedsDivider(ls, i) then "\n---\n\n" else ""
  }

  lemma DividedStep(ls: seq<string>, i: nat)
    requires i < |ls|
    ensures Terminated(DividedLines(ls, i + 1)) == Terminated(DividedLines(ls, i)) + DividerText(ls, i) + ls[i] + "\n"
  {
    var d := DividedLines(ls, i);
    var b := if NeedsDivider(ls, i) then DividerBlock else [];
    TerminatedAppend(d + b, [ls[i]]);
    TerminatedAppend(d, b);
    assert Terminated([ls[i]]) == ls[i] + "\n";
    if NeedsDivider(ls, i) {
      assert Terminated(DividerBlock) == "\n---\n\n";
    }
  }

  method AddSectionDividers(content: string) returns (r: string)
    ensures r == DividedText(content)
  {
    var result := "";
    var lines := Lines(content);
    var lastWasH1 := false;
    var i := 0;
    while i < |lines|
      invariant 0 <= i <= |lines|
      invariant result == Terminated(DividedLines(lines, i))
      invariant lastWasH1 == (i > 0 && IsH1Line(lines[i - 1]))
    {
      var line := Trim(lines[i]);
      ghost var before := result;
      if StartsWith(line, "## ") && i > 0 && !lastWasH1 {
        if Trim(lines[i - 1]) != "---" {
          result := result + "\n---\n\n";
        }
      }
      assert result == before + DividerText(lines, i);
      result := result + lines[i] + "\n";
      DividedStep(lines, i);
      lastWasH1 := StartsWith(line, "# ") && !StartsWith(line, "## ");
      assert lastWasH1 == IsH1Line(lines[i]);
      i := i + 1;
    }
    r := Trim(result);
  }

  /** How many of the first n lines get a divider. */
  function DividerCount(ls: seq<string>, n: nat): (c: nat)
    requires n <= |ls|
    ensures c <= n
  {
    if n == 0 then 0 else DividerCount(ls, n - 1) + (if NeedsDivider(ls, n - 1) then 1 else 0)
  }

  /** Where line i of the input lands among the divided lines. */
  function Position(ls: seq<string>, i: nat): nat
    requires i < |ls|
  {
    i + 3 * DividerCount(ls, i + 1)
  }

  /** Each line that gets a divider adds three lines. */
  lemma {:induction false} DividedLinesLength(ls: seq<string>, n: nat)
    requires n <= |ls|
    ensures |DividedLines(ls, n)| == n + 3 * DividerCount(ls, n)
  {
    if n > 0 {
      DividedLinesLength(ls, n - 1);
    }
  }

  /** Dividing more lines only extends the divided lines. */
  lemma {:induction false} DividedLinesPrefix(ls: seq<string>, m: nat, n: nat)
    requires m <= n <= |ls|
    ensures |DividedLines(ls, m)| <= |DividedLines(ls, n)|
    ensures DividedLines(ls, m) == DividedLines(ls, n)[..|DividedLines(ls, m)|]
    decreases n - m
  {
    if m < n {
      DividedLinesPrefix(ls, m, n - 1);
      var d := DividedLines(ls, n - 1);
      assert DividedLines(ls, n)[..|d|] == d;
    }
  }

  /**
    Line i of the input sits at Position(ls, i) among the divided lines, and when it
    needs a divider the divider block sits right before it.
   */
  lemma DividedLinesAt(ls: seq<string>, i: nat, n: nat)
    requires i < n <= |ls|
    ensures Position(ls, i) < |DividedLines(ls, n)|
    ensures DividedLines(ls, n)[Position(ls, i)] == ls[i]
    ensures NeedsDivider(ls, i) ==>
              3 <= Position(ls, i) && DividedLines(ls, n)[Position(ls, i) - 3..Position(ls, i)] == DividerBlock
  {
    var e := DividedLines(ls, i + 1);
    var p := Position(ls, i);
    DividedLinesLength(ls, i + 1);
    DividedLinesPrefix(ls, i + 1, n);
    assert |e| == p + 1;
    assert e[p] == ls[i];
    if NeedsDivider(ls, i) {
      assert e[p - 3..p] == DividerBlock;
      assert DividedLines(ls, n)[p - 3..p] == e[p - 3..p];
    }
  }

  /** Only a line whose trim opens a level-two heading gets a divider; level three and deeper never do. */
  lemma DividerOnlyBeforeLevelTwo(ls: seq<string>, i: nat)
    requires i < |ls| && NeedsDivider(ls, i)
    ensures LeadingHashes(Trim(ls[i])) == 2
  {
    var t := Trim(ls[i]);
    assert t[..3] == "## ";
    assert t == Repeat('#', 2) + t[2..] by {
      assert t[0] == t[..3][0] && t[1] == t[..3][1];
    }
    assert t[2..][0] == t[..3][2];
    LeadingHashesOf(2, t[2..]);
  }

  /**
    A second pass divides again: the divider block ends in a blank line, and the check
    for an existing divider looks only at the line right before the heading.
   */
  lemma DividerRepeats(ls: seq<string>, i: nat)
    requires i < |ls| && NeedsDivider(ls, i)
    ensures Position(ls, i) < |DividedLines(ls, |ls|)|
    ensures NeedsDivider(DividedLines(ls, |ls|), Position(ls, i))
  {
    var d := DividedLines(ls, |ls|);
    var p := Position(ls, i);
    DividedLinesAt(ls, i, |ls|);
    assert d[p - 1] == d[p - 3..p][2] == "";
    assert Trim("") == "";
  }

  // ------------------------------------------------------------------
  // emphasizeKeyPhrases / enhanceVisualHierarchy
  // ------------------------------------------------------------------

  /** The call-out words in the order of the pattern's alternation, with the icon each gets. */
  const Callouts: seq<(string, string)> := [
      ("Important:", "\U{26A0}\U{FE0F}"),
      ("Note:", "\U{1F4DD}"),
      ("Warning:", "\U{26A0}\U{FE0F}"),
      ("Tip:", "\U{1F4A1}"),
      ("Info:", "\U{2139}\U{FE0F}")
    ]

  /** The first code points of the call-out icons. */
  predicate IsCalloutIconStart(c: char) {
    c == '\U{26A0}' || c == '\U{1F4DD}' || c == '\U{1F4A1}' || c == '\U{2139}'
  }

  predicate IsCalloutInitial(c: char) {
    c == 'I' || c == 'N' || c == 'W' || c == 'T'
  }

  lemma CalloutsWellFormed()
    ensures forall j :: 0 <= j < |Callouts| ==>
              && |Callouts[j].0| >= 4 && IsCalloutInitial(Callouts[j].0[0]) && '\n' !in Callouts[j].0
              && |Callouts[j].1| > 0 && IsCalloutIconStart(Callouts[j].1[0]) && '\n' !in Callouts[j].1
  {
  }

  /** `^(Important:|Note:|Warning:|Tip:|Info:)` to `**$1**` on one line, trying the words from j on. */
  function BoldFrom(line: string, j: nat): string
    requires j <= |Callouts|
    decreases |Callouts| - j
  {
    if j == |Callouts| then line
    else if StartsWith(line, Callouts[j].0) then "**" + Callouts[j].0 + "**" + line[|Callouts[j].0|..]
    else BoldFrom(line, j + 1)
  }

  /** One of the five icon passes on one line: `^\*\*word\*\*` to `icon **word**`. */
  function IconStep(line: string, word: string, icon: string): string {
    if StartsWith(line, "**" + word + "**") then icon + " **" + word + "**" + line[|word| + 4..] else line
  }

  /** The icon passes from the j-th on, one after the other. */
  function IconsFrom(line: string, j: nat): string
    requires j <= |Callouts|
    decreases |Callouts| - j
  {
    if j == |Callouts| then line else IconsFrom(IconStep(line, Callouts[j].0, Callouts[j].1), j + 1)
  }

  /** What the six replaceAll passes do to one line. */
  function EmphasizeLine(line: string): string {
    IconsFrom(BoldFrom(line, 0), 0)
  }

  function EmphasizedLines(ls: seq<string>): (r: seq<string>)
    ensures |r| == |ls| && forall k :: 0 <= k < |ls| ==> r[k] == EmphasizeLine(ls[k])
  {
    seq(|ls|, k requires 0 <= k < |ls| => EmphasizeLine(ls[k]))
  }

  /** emphasizeKeyPhrases: every `(?m)^` pass works line by line. */
  function EmphasizeKeyPhrases(content: string): string {
    JoinWith(EmphasizedLines(Lines(content)), "\n")
  }

  /** Bolding leaves a line alone or makes it start with '*'. */
  lemma {:induction false} BoldFromShape(line: string, j: nat)
    requires j <= |Callouts|
    ensures BoldFrom(line, j) == line || (|BoldFrom(line, j)| > 0 && BoldFrom(line, j)[0] == '*')
    ensures (|line| == 0 || !IsCalloutInitial(line[0])) ==> BoldFrom(line, j) == line
    ensures '\n' !in line ==> '\n' !in BoldFrom(line, j)
    decreases |Callouts| - j
  {
    CalloutsWellFormed();
    if j < |Callouts| {
      if StartsWith(line, Callouts[j].0) {
        assert line[0] == line[..|Callouts[j].0|][0] == Callouts[j].0[0];
        if '\n' !in line {
          assert '\n' !in line[|Callouts[j].0|..];
        }
      } else {
        BoldFromShape(line, j + 1);
      }
    }
  }

  /** One icon pass either leaves the line alone or rewrites a line that starts with '*' to start with the icon. */
  lemma IconStepShape(line: string, word: string, icon: string)
    requires |icon| > 0
    ensures IconStep(line, word, icon) == line
            || (|line| > 0 && line[0] == '*' && IconStep(line, word, icon)[0] == icon[0])
    ensures '\n' !in line && '\n' !in word && '\n' !in icon ==> '\n' !in IconStep(line, word, icon)
  {
    if StartsWith(line, "**" + word + "**") {
      assert line[0] == line[..|word| + 4][0];
      if '\n' !in line {
        assert '\n' !in line[|word| + 4..];
      }
    }
  }

  /** The icon passes leave a line alone or make it start with a call-out icon. */
  lemma {:induction false} IconsFromShape(line: string, j: nat)
    requires j <= |Callouts|
    ensures IconsFrom(line, j) == line || (|IconsFrom(line, j)| > 0 && IsCalloutIconStart(IconsFrom(line, j)[0]))
    decreases |Callouts| - j
  {
    if j < |Callouts| {
      CalloutsWellFormed();
      var next := IconStep(line, Callouts[j].0, Callouts[j].1);
      IconStepShape(line, Callouts[j].0, Callouts[j].1);
      IconsFromShape(next, j + 1);
      if next != line {
        IconsFromUnchanged(next, j + 1);
      }
    }
  }

  /** A line that does not start with '*' passes the icon passes unchanged. */
  lemma {:induction false} IconsFromUnchanged(line: string, j: nat)
    requires j <= |Callouts|
    requires |line| == 0 || line[0] != '*'
    ensures IconsFrom(line, j) == line
    decreases |Callouts| - j
  {
    if j < |Callouts| {
      IconStepShape(line, Callouts[j].0, Callouts[j].1);
      IconsFromUnchanged(line, j + 1);
    }
  }

  lemma {:induction false} IconsFromNoNewline(line: string, j: nat)
    requires j <= |Callouts| && '\n' !in line
    ensures '\n' !in IconsFrom(line, j)
    decreases |Callouts| - j
  {
    if j < |Callouts| {
      CalloutsWellFormed();
      IconStepShape(line, Callouts[j].0, Callouts[j].1);
      IconsFromNoNewline(IconStep(line, Callouts[j].0, Callouts[j].1), j + 1);
    }
  }

  /** A line that starts with none of I, N, W, T and '*' is left as it is. */
  lemma EmphasizeLineUnchanged(line: string)
    requires |line| == 0 || (!IsCalloutInitial(line[0]) && line[0] != '*')
    ensures EmphasizeLine(line) == line
  {
    BoldFromShape(line, 0);
    IconsFromUnchanged(line, 0);
  }

  /** No two call-out words agree on their first two letters. */
  lemma CalloutWordsDiffer(a: nat, b: nat)
    requires a < |Callouts| && b < |Callouts| && a != b
    ensures Callouts[a].0[0] != Callouts[b].0[0] || Callouts[a].0[1] != Callouts[b].0[1]
  {
  }

  /** A line no earlier word starts is bolded by the first word that starts it. */
  lemma {:induction false} BoldFromAt(line: string, j0: nat, j: nat)
    requires j0 <= j < |Callouts| && StartsWith(line, Callouts[j].0)
    requires forall i :: j0 <= i < j ==> !StartsWith(line, Callouts[i].0)
    ensures BoldFrom(line, j0) == "**" + Callouts[j].0 + "**" + line[|Callouts[j].0|..]
    decreases j - j0
  {
    if j0 < j {
      BoldFromAt(line, j0 + 1, j);
    }
  }

  /** A line no earlier pass rewrites gets the icon of the first pass that matches it. */
  lemma {:induction false} IconsFromAt(line: string, j0: nat, j: nat)
    requires j0 <= j < |Callouts| && StartsWith(line, "**" + Callouts[j].0 + "**")
    requires forall i :: j0 <= i < j ==> !StartsWith(line, "**" + Callouts[i].0 + "**")
    ensures IconsFrom(line, j0)
            == Callouts[j].1 + " **" + Callouts[j].0 + "**" + line[|Callouts[j].0| + 4..]
    decreases j - j0
  {
    if j0 < j {
      IconsFromAt(line, j0 + 1, j);
    } else {
      CalloutsWellFormed();
      var next := IconStep(line, Callouts[j].0, Callouts[j].1);
      assert next[0] == Callouts[j].1[0];
      IconsFromUnchanged(next, j + 1);
    }
  }

  /**
    A line that starts with a call-out word becomes the word's icon, a space and the
    word in bold, followed by the rest of the line.
   */
  lemma CalloutLine(j: nat, rest: string)
    requires j < |Callouts|
    ensures EmphasizeLine(Callouts[j].0 + rest) == Callouts[j].1 + " **" + Callouts[j].0 + "**" + rest
  {
    var word := Callouts[j].0;
    var line := word + rest;
    CalloutsWellFormed();
    assert line[..|word|] == word;
    forall i | 0 <= i < j ensures !StartsWith(line, Callouts[i].0) {
      CalloutWordsDiffer(i, j);
    }
    BoldFromAt(line, 0, j);
    assert line[|word|..] == rest;
    var b := "**" + word + "**" + rest;
    assert b[..|word| + 4] == "**" + word + "**";
    assert b[2] == word[0] && b[3] == word[1];
    forall i | 0 <= i < j ensures !StartsWith(b, "**" + Callouts[i].0 + "**") {
      CalloutWordsDiffer(i, j);
      var p := "**" + Callouts[i].0 + "**";
      assert p[2] == Callouts[i].0[0] && p[3] == Callouts[i].0[1];
    }
    IconsFromAt(b, 0, j);
    assert b[|word| + 4..] == rest;
  }

  /** Emphasising a line twice gives what emphasising it once gives. */
  lemma EmphasizeLineIdempotent(line: string)
    ensures EmphasizeLine(EmphasizeLine(line)) == EmphasizeLine(line)
  {
    var b := BoldFrom(line, 0);
    var e := IconsFrom(b, 0);
    BoldFromShape(line, 0);
    BoldFromShape(b, 0);
    IconsFromShape(b, 0);
    assert BoldFrom(b, 0) == b;
    if e == b {
      assert BoldFrom(e, 0) == e;
    } else {
      BoldFromShape(e, 0);
      IconsFromUnchanged(e, 0);
    }
  }

  lemma EmphasizeKeyPhrasesLines(content: string)
    ensures Lines(EmphasizeKeyPhrases(content)) == EmphasizedLines(Lines(content))
  {
    var ls := Lines(content);
    var es := EmphasizedLines(ls);
    SplitKeepPiecesFree(content, '\n');
    forall k | 0 <= k < |es| ensures '\n' !in es[k] {
      BoldFromShape(ls[k], 0);
      IconsFromNoNewline(BoldFrom(ls[k], 0), 0);
    }
    SplitJoin(es, '\n');
  }

  /** Emphasising the whole text a second time changes nothing. */
  lemma EmphasizeKeyPhrasesIdempotent(content: string)
    ensures EmphasizeKeyPhrases(EmphasizeKeyPhrases(content)) == EmphasizeKeyPhrases(content)
  {
    var es := EmphasizedLines(Lines(content));
    EmphasizeKeyPhrasesLines(content);
    forall k | 0 <= k < |es| ensures EmphasizeLine(es[k]) == es[k] {
      EmphasizeLineIdempotent(Lines(content)[k]);
    }
    assert EmphasizedLines(es) == es;
  }

  /** enhanceVisualHierarchy: dividers first, then the call-outs. */
  method EnhanceVisualHierarchy(content: string) returns (r: string)
    ensures r == EmphasizeKeyPhrases(DividedText(content))
  {
    r := AddSectionDividers(content);
    r := EmphasizeKeyPhrases(r);
  }

  // ------------------------------------------------------------------
  // needsVisualEnhancement
  // ------------------------------------------------------------------

  /** The trimmed line matches `^##+ .*`: two or more hashes, then a space. */
  predicate IsSubHeadingLine(line: string) {
    var t := Trim(line);
    var n := LeadingHashes(t);
    n >= 2 && n < |t| && t[n] == ' '
  }

  function SubHeadings(ls: seq<string>): (c: nat)
    ensures c <= |ls|
  {
    if |ls| == 0 then 0
    else SubHeadings(ls[..|ls| - 1]) + (if IsSubHeadingLine(ls[|ls| - 1]) then 1 else 0)
  }

  function SubHeadingsWithIcon(ls: seq<string>): nat {
    if |ls| == 0 then 0
    else SubHeadingsWithIcon(ls[..|ls| - 1]) + (if IsSubHeadingLine(ls[|ls| - 1]) && HasEmoji(ls[|ls| - 1]) then 1 else 0)
  }

  /**
    Fewer than 30% of the headings of level two and deeper carry an emoji. The
    tool's double comparison w / n < 0.3 is exact here: it is 10 * w < 3 * n.
   */
  predicate NeedsVisual(content: string) {
    var ls := LinesDrop(content);
    SubHeadings(ls) > 0 && 10 * SubHeadingsWithIcon(ls) < 3 * SubHeadings(ls)
  }

  method NeedsVisualEnhancement(content: string) returns (b: bool)
    ensures b == NeedsVisual(content)
  {
    var h2OrLowerCount := 0;
    var h2WithIconCount := 0;
    var lines := LinesDrop(content);
    var i := 0;
    while i < |lines|
      invariant 0 <= i <= |lines|
      invariant h2OrLowerCount == SubHeadings(lines[..i])
      invariant h2WithIconCount == SubHeadingsWithIcon(lines[..i])
    {
      var line := lines[i];
      if IsSubHeadingLine(line) {
        h2OrLowerCount := h2OrLowerCount + 1;
        if HasEmoji(line) {
          h2WithIconCount := h2WithIconCount + 1;
        }
      }
      assert lines[..i + 1][..i] == lines[..i];
      i := i + 1;
    }
    assert lines[..|lines|] == lines;
    if h2OrLowerCount > 0 {
      b := 10 * h2WithIconCount < 3 * h2OrLowerCount;
    } else {
      b := false;
    }
  }

  lemma {:induction false} SubHeadingsWithIconAtMost(ls: seq<string>)
    ensures SubHeadingsWithIcon(ls) <= SubHeadings(ls)
  {
    if |ls| > 0 {
      SubHeadingsWithIconAtMost(ls[..|ls| - 1]);
    }
  }

  /** When fewer headings carry an emoji than there are headings, one of them carries none. */
  lemma {:induction false} BareSubHeading(ls: seq<string>)
    requires SubHeadingsWithIcon(ls) < SubHeadings(ls)
    ensures exists k :: 0 <= k < |ls| && IsSubHeadingLine(ls[k]) && !HasEmoji(ls[k])
  {
    var last := ls[|ls| - 1];
    var init := ls[..|ls| - 1];
    if IsSubHeadingLine(last) && !HasEmoji(last) {
      assert ls[|ls| - 1] == last;
    } else {
      BareSubHeading(init);
      var k :| 0 <= k < |init| && IsSubHeadingLine(init[k]) && !HasEmoji(init[k]);
      assert ls[k] == init[k];
    }
  }

  /** All headings carry an emoji if the sum of the counts is twice the heading count. */
  lemma {:induction false} NoBareSubHeading(ls: seq<string>)
    requires forall k :: 0 <= k < |ls| && IsSubHeadingLine(ls[k]) ==> HasEmoji(ls[k])
    ensures SubHeadingsWithIcon(ls) == SubHeadings(ls)
  {
    if |ls| > 0 {
      var init := ls[..|ls| - 1];
      forall k | 0 <= k < |init| && IsSubHeadingLine(init[k]) ensures HasEmoji(init[k]) {
        assert init[k] == ls[k];
      }
      NoBareSubHeading(init);
    }
  }

  /**
    Enhancement is asked for only when some heading of level two or deeper lacks an
    emoji, never when every one of them has one or there are none, and always when
    there is at least one and none has an emoji.
   */
  lemma NeedsVisualMeaning(content: string)
    ensures NeedsVisual(content) ==>
              exists k :: 0 <= k < |LinesDrop(content)| && IsSubHeadingLine(LinesDrop(content)[k]) && !HasEmoji(LinesDrop(content)[k])
    ensures (forall k :: 0 <= k < |LinesDrop(content)| && IsSubHeadingLine(LinesDrop(content)[k]) ==> HasEmoji(LinesDrop(content)[k]))
              ==> !NeedsVisual(content)
    ensures SubHeadings(LinesDrop(content)) > 0 && SubHeadingsWithIcon(LinesDrop(content)) == 0 ==> NeedsVisual(content)
  {
    var ls := LinesDrop(content);
    if NeedsVisual(content) {
      BareSubHeading(ls);
    }
    if forall k :: 0 <= k < |ls| && IsSubHeadingLine(ls[k]) ==> HasEmoji(ls[k]) {
      NoBareSubHeading(ls);
    }
  }

  // ------------------------------------------------------------------
  // getVisualStats
  // ------------------------------------------------------------------

  datatype VisualStats = VisualStats(totalHeadings: nat, headingsWithIcons: nat, dividers: nat, emphasisElements: nat)

  /** The trimmed line matches `.*\*\*(Important|Note|Warning|Tip|Info):.*`. */
  predicate HasEmphasis(t: string) {
    || Contains(t, "**Important:") || Contains(t, "**Note:") || Contains(t, "**Warning:")
    || Contains(t, "**Tip:") || Contains(t, "**Info:")
  }

  /** The counters after one more line. */
  function CountLine(s: VisualStats, line: string): VisualStats {
    var t := Trim(line);
    var heading := StartsWith(t, "#");
    VisualStats(
      s.totalHeadings + (if heading then 1 else 0),
      s.headingsWithIcons + (if heading && HasEmoji(t) then 1 else 0),
      s.dividers + (if t == "---" then 1 else 0),
      s.emphasisElements + (if HasEmphasis(t) then 1 else 0))
  }

  function StatsOf(ls: seq<string>): VisualStats {
    if |ls| == 0 then VisualStats(0, 0, 0, 0) else CountLine(StatsOf(ls[..|ls| - 1]), ls[|ls| - 1])
  }

  method GetVisualStats(content: string) returns (s: VisualStats)
    ensures s == StatsOf(LinesDrop(content))
  {
    var totalHeadings := 0;
    var headingsWithIcons := 0;
    var dividers := 0;
    var emphasisCount := 0;
    var lines := LinesDrop(content);
    var i := 0;
    while i < |lines|
      invariant 0 <= i <= |lines|
      invariant StatsOf(lines[..i]) == VisualStats(totalHeadings, headingsWithIcons, dividers, emphasisCount)
    {
      var trimmed := Trim(lines[i]);
      if StartsWith(trimmed, "#") {
        totalHeadings := totalHeadings + 1;
        if HasEmoji(trimmed) {
          headingsWithIcons := headingsWithIcons + 1;
        }
      }
      if trimmed == "---" {
        dividers := dividers + 1;
      }
      if HasEmphasis(trimmed) {
        emphasisCount := emphasisCount + 1;
      }
      assert lines[..i + 1][..i] == lines[..i];
      assert StatsOf(lines[..i + 1]) == CountLine(StatsOf(lines[..i]), lines[i]);
      i := i + 1;
    }
    assert lines[..|lines|] == lines;
    s := VisualStats(totalHeadings, headingsWithIcons, dividers, emphasisCount);
  }

  /**
    Headings with an icon are among the headings, a divider line is never a heading,
    and no counter exceeds the number of lines.
   */
  lemma {:induction false} StatsBounds(ls: seq<string>)
    ensures StatsOf(ls).headingsWithIcons <= StatsOf(ls).totalHeadings
    ensures StatsOf(ls).totalHeadings + StatsOf(ls).dividers <= |ls|
    ensures StatsOf(ls).emphasisElements <= |ls|
  {
    if |ls| > 0 {
      StatsBounds(ls[..|ls| - 1]);
      assert !StartsWith("---", "#") by {
        assert "---"[..1][0] == '-';
      }
    }
  }
}
