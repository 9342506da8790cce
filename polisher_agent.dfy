/**
  ReadmePolisherAgent: the goal that finds the README, lints it, runs the rewrite
  pipeline and packages the result as a patch bundle.

  The pipeline is specified step by step on values (Cleaned, TestStep, TocStep,
  BadgeStep, VisualStep); the methods that run it are proved to produce exactly
  that text and to append exactly those findings to the caller's list.
 */
module PolisherAgent {
  import opened Wrappers
  import opened Strings
  import opened Domain
  import opened Config
  import Headings
  import MarkdownLinter
  import TextRewrite
  import Toc
  import Badges
  import Visual
  import RepoScanner
  import PatchBuilder

  // ------------------------------------------------------------------
  // The caller's findings list, which the pipeline appends to in place
  // ------------------------------------------------------------------

  class FindingList {
    var items: seq<Finding>

    constructor (initial: seq<Finding>)
      ensures items == initial
    {
      items := initial;
    }

    /** List.add. */
    method Add(f: Finding)
      modifies this
      ensures items == old(items) + [f]
    {
      items := items + [f];
    }
  }

  const TestFindingId := "added-test-section"
  const TocFindingId := "added-toc"
  const VisualsFindingId := "enhanced-visuals"

  /** The INFO note a pipeline step records, on line 0 of the README. */
  function StepFinding(id: string, message: string, file: Path): Finding {
    LineFinding(id, message, Info, Some(file), 0)
  }

  function TestFinding(file: Path): Finding {
    StepFinding(TestFindingId, "Added 'How to Run Tests' section", file)
  }

  function TocFinding(file: Path): Finding {
    StepFinding(TocFindingId, "Added table of contents", file)
  }

  function VisualsFinding(file: Path): Finding {
    StepFinding(VisualsFindingId, "Added icons and visual formatting to headings", file)
  }

  /** Some finding of the list carries the id (Stream.anyMatch on id().equals). */
  predicate HasId(fs: seq<Finding>, id: string) {
    exists i :: 0 <= i < |fs| && fs[i].id == id
  }

  // ------------------------------------------------------------------
  // Conditions
  // ------------------------------------------------------------------

  /** shouldAddTestSection. */
  predicate ShouldAddTestSection(content: string, build: BuildSystem) {
    RepoScanner.NeedsTestSection(content) && build != Other
  }

  /** What shouldAddToc answers: a positive threshold, enough headings and no table yet. */
  predicate TocWanted(content: string, threshold: int) {
    threshold > 0 && |Headings.TextHeadings(content)| >= threshold && !Toc.HasToc(content)
  }

  /** shouldAddToc: a threshold of zero or less switches the table off before anything is counted. */
  method ShouldAddToc(content: string, threshold: int) returns (b: bool)
    ensures b == TocWanted(content, threshold)
    ensures threshold <= 0 ==> !b
  {
    if threshold <= 0 {
      return false;
    }
    var headingCount := MarkdownLinter.CountHeadings(content);
    b := headingCount >= threshold && !Toc.HasToc(content);
  }

  /** shouldEnhanceVisuals: fewer than 30% of the sub-headings carry an emoji. */
  method ShouldEnhanceVisuals(content: string) returns (b: bool)
    ensures b == Visual.NeedsVisual(content)
  {
    b := Visual.NeedsVisualEnhancement(content);
  }

  // ------------------------------------------------------------------
  // addTestSection
  // ------------------------------------------------------------------

  /** The sections after which the test section is preferably placed, tried in this order. */
  const TestAnchors: seq<string> := ["## Installation", "## Usage", "## Getting Started"]

  /** The start of the next level-two heading. */
  const NextSection := "\n## "

  /** String.indexOf: the first occurrence, or -1. */
  function IndexOf(s: string, t: string): (r: int)
    ensures Contains(s, t) ==> OccursAt(s, t, r) && forall i :: 0 <= i < r ==> !OccursAt(s, t, i)
    ensures !Contains(s, t) ==> r == -1
  {
    IndexOfFrom(s, t, 0)
  }

  /**
    The nextSection of the loop body for one anchor: where the first "\n## " after the
    anchor's first occurrence starts; -1 when there is none or the anchor is absent.
   */
  function NextAfter(content: string, anchor: string): (n: int)
    ensures n != -1 ==> Contains(content, anchor) && IndexOf(content, anchor) + |anchor| <= n
                        && OccursAt(content, NextSection, n)
    ensures n == -1 && Contains(content, anchor) ==>
              forall i :: IndexOf(content, anchor) + |anchor| <= i ==> !OccursAt(content, NextSection, i)
  {
    if Contains(content, anchor) then IndexOfFrom(content, NextSection, IndexOf(content, anchor) + |anchor|)
    else -1
  }

  /** The index of the first anchor the loop returns at; |anchors| when it falls through. */
  function FirstSpliceAnchor(content: string, anchors: seq<string>): (k: nat)
    ensures k <= |anchors|
    ensures k < |anchors| ==> NextAfter(content, anchors[k]) > 0
    ensures forall j :: 0 <= j < k ==> NextAfter(content, anchors[j]) <= 0
  {
    if |anchors| == 0 then 0
    else if NextAfter(content, anchors[0]) > 0 then 0
    else 1 + FirstSpliceAnchor(content, anchors[1..])
  }

  /** addTestSection: splice the snippet before the next "\n## " after an anchor, else append it. */
  function AddTestSection(content: string, build: BuildSystem): string {
    var testSection := RepoScanner.TestCommandSnippet(build);
    var k := FirstSpliceAnchor(content, TestAnchors);
    if k < |TestAnchors| then
      var nextSection := NextAfter(content, TestAnchors[k]);
      content[..nextSection] + "\n" + testSection + "\n" + content[nextSection..]
    else
      content + "\n\n" + testSection
  }

  /** Where addTestSection inserts its block: before the next section, or at the end. */
  function InsertionPoint(content: string): (p: nat)
    ensures p <= |content|
  {
    var k := FirstSpliceAnchor(content, TestAnchors);
    if k < |TestAnchors| then NextAfter(content, TestAnchors[k]) else |content|
  }

  /** The block addTestSection inserts there. */
  function InsertedBlock(content: string, build: BuildSystem): string {
    var testSection := RepoScanner.TestCommandSnippet(build);
    if FirstSpliceAnchor(content, TestAnchors) < |TestAnchors| then "\n" + testSection + "\n"
    else "\n\n" + testSection
  }

  /** r is c with the block b put in at position p: everything of c stays, before and after b. */
  predicate InsertedAt(r: string, c: string, p: nat, b: string) {
    p <= |c| && |r| == |c| + |b| && r[..p] == c[..p] && r[p..p + |b|] == b && r[p + |b|..] == c[p..]
  }

  lemma SpliceInserts(c: string, p: nat, s: string)
    requires p <= |c|
    ensures InsertedAt(c[..p] + "\n" + s + "\n" + c[p..], c, p, "\n" + s + "\n")
    ensures Contains("\n" + s + "\n", s)
  {
    var b := "\n" + s + "\n";
    var r := c[..p] + "\n" + s + "\n" + c[p..];
    assert r == c[..p] + b + c[p..];
    assert b[1..1 + |s|] == s;
    assert OccursAt(b, s, 1);
  }

  lemma AppendInserts(c: string, s: string)
    ensures InsertedAt(c + "\n\n" + s, c, |c|, "\n\n" + s)
    ensures Contains("\n\n" + s, s)
  {
    var b := "\n\n" + s;
    assert c + "\n\n" + s == c + b;
    assert b[2..2 + |s|] == s;
    assert OccursAt(b, s, 2);
  }

  /**
    The original text survives intact around one inserted block, and that block
    holds the snippet.
   */
  lemma AddTestSectionKeepsOriginal(content: string, build: BuildSystem)
    ensures InsertedAt(AddTestSection(content, build), content, InsertionPoint(content), InsertedBlock(content, build))
    ensures Contains(InsertedBlock(content, build), RepoScanner.TestCommandSnippet(build))
  {
    var s := RepoScanner.TestCommandSnippet(build);
    if FirstSpliceAnchor(content, TestAnchors) < |TestAnchors| {
      SpliceInserts(content, InsertionPoint(content), s);
    } else {
      AppendInserts(content, s);
    }
  }

  /**
    The block goes right before a "\n## " when it is spliced in, and at the end
    exactly when no anchor is followed by a later level-two heading.
   */
  lemma InsertionPointMeaning(content: string)
    ensures InsertionPoint(content) < |content| ==> OccursAt(content, NextSection, InsertionPoint(content))
    ensures InsertionPoint(content) == |content| <==>
              forall k :: 0 <= k < |TestAnchors| ==> NextAfter(content, TestAnchors[k]) <= 0
  {
  }

  /** Once the section is added the text no longer asks for one. */
  lemma AddTestSectionSatisfies(content: string, build: BuildSystem)
    ensures !RepoScanner.NeedsTestSection(AddTestSection(content, build))
  {
    var s := RepoScanner.TestCommandSnippet(build);
    var r := AddTestSection(content, build);
    var k := FirstSpliceAnchor(content, TestAnchors);
    if k < |TestAnchors| {
      var n := NextAfter(content, TestAnchors[k]);
      RegroupAround(content[..n], s, content[n..]);
      RepoScanner.SnippetSatisfiesTestSection(build, content[..n] + "\n", "\n" + content[n..]);
    } else {
      RegroupAfter(content, s);
      RepoScanner.SnippetSatisfiesTestSection(build, content + "\n\n", "");
    }
  }

  /** A splice point lies after an anchor that occurs in the text before it. */
  lemma SpliceFollowsAnchor(content: string)
    requires InsertionPoint(content) < |content|
    ensures exists k :: 0 <= k < |TestAnchors| && Contains(content[..InsertionPoint(content)], TestAnchors[k])
  {
    var k := FirstSpliceAnchor(content, TestAnchors);
    var p := InsertionPoint(content);
    var a := TestAnchors[k];
    var i := IndexOf(content, a);
    assert content[..p][i..i + |a|] == content[i..i + |a|];
    assert OccursAt(content[..p], a, i);
  }

  // ------------------------------------------------------------------
  // The rewrite pipeline, as values
  // ------------------------------------------------------------------

  /** The text so far and the findings the steps have added so far. */
  datatype Outcome = Outcome(text: string, added: seq<Finding>)

  /** The three clean-up passes, in order: fences, setext headings, trailing blanks. */
  function Cleaned(content: string, config: PolishingConfig): string {
    TextRewrite.RemoveTrailingWhitespace(
      TextRewrite.NormalizeHeadings(TextRewrite.FixedText(content, config.defaultCodeLanguage)))
  }

  /** Some step's finding when it fired, nothing otherwise. */
  function Opt(b: bool, f: Finding): seq<Finding> {
    if b then [f] else []
  }

  /** The text after the test-section step. */
  function WithTestSection(text: string, build: BuildSystem): string {
    if ShouldAddTestSection(text, build) then AddTestSection(text, build) else text
  }

  function TestStep(text: string, build: BuildSystem, file: Path): Outcome {
    Outcome(WithTestSection(text, build), Opt(ShouldAddTestSection(text, build), TestFinding(file)))
  }

  /** The text after the table-of-contents step. */
  function WithToc(text: string, threshold: int): string {
    if TocWanted(text, threshold) then Toc.InsertedToc(text, Toc.GeneratedToc(text)) else text
  }

  function TocStep(o: Outcome, threshold: int, file: Path): Outcome {
    Outcome(WithToc(o.text, threshold), o.added + Opt(TocWanted(o.text, threshold), TocFinding(file)))
  }

  /** The badge section generateBadgeSection builds for the repository's root directory. */
  function BadgeBlock(config: PolishingConfig, build: BuildSystem, repo: Badges.RepoDir): string {
    Badges.BadgeSection(build, config.jdkVersion, Badges.DetectedLicense(Some(repo)))
  }

  /** The text after the badge step. */
  function WithBadges(text: string, config: PolishingConfig, build: BuildSystem, repo: Badges.RepoDir): string {
    if config.badgesEnabled && !Badges.HasBadges(text) then BadgeBlock(config, build, repo) + text else text
  }

  function BadgeStep(o: Outcome, config: PolishingConfig, build: BuildSystem, repo: Badges.RepoDir): Outcome {
    Outcome(WithBadges(o.text, config, build, repo), o.added)
  }

  /** enhanceVisualsGoal's text: icons first, then dividers, then call-outs. */
  function Enhanced(text: string): string {
    Visual.EmphasizeKeyPhrases(Visual.DividedText(Visual.IconText(text, Visual.SectionIcons)))
  }

  /** The text after the visual step. */
  function WithVisuals(text: string): string {
    if Visual.NeedsVisual(text) then Enhanced(text) else text
  }

  function VisualStep(o: Outcome, file: Path): Outcome {
    Outcome(WithVisuals(o.text), o.added + Opt(Visual.NeedsVisual(o.text), VisualsFinding(file)))
  }

  /** The clean-up, test-section and table-of-contents steps. */
  function Front(content: string, build: BuildSystem, config: PolishingConfig, file: Path): Outcome {
    TocStep(TestStep(Cleaned(content, config), build, file), config.addTocThresholdHeadings, file)
  }

  /** Every step up to and including the badges. */
  function BeforeVisuals(content: string, build: BuildSystem, config: PolishingConfig,
                         repo: Badges.RepoDir, file: Path): Outcome {
    BadgeStep(Front(content, build, config, file), config, build, repo)
  }

  /** rewriteMarkdownGoal: every step, the visual one last. */
  function Rewritten(content: string, build: BuildSystem, config: PolishingConfig,
                     repo: Badges.RepoDir, file: Path): Outcome {
    VisualStep(BeforeVisuals(content, build, config, repo, file), file)
  }

  // ------------------------------------------------------------------
  // The methods that run it
  // ------------------------------------------------------------------

  /** enhanceVisualsGoal. */
  method EnhanceVisualsGoal(content: string) returns (result: string)
    ensures result == Enhanced(content)
  {
    result := Visual.AddIconsToHeadings(content);
    result := Visual.EnhanceVisualHierarchy(result);
  }

  /** The three clean-up passes of rewriteMarkdownGoal. */
  method CleanUp(content: string, config: PolishingConfig) returns (result: string)
    ensures result == Cleaned(content, config)
  {
    result := TextRewrite.FixCodeFences(content, config.defaultCodeLanguage);
    result := TextRewrite.NormalizeHeadings(result);
    result := TextRewrite.RemoveTrailingWhitespace(result);
  }

  /** The test-section step of rewriteMarkdownGoal. */
  method AddTestSectionStep(text: string, build: BuildSystem, findings: FindingList, file: Path)
    returns (result: string)
    modifies findings
    ensures result == WithTestSection(text, build)
    ensures findings.items == old(findings.items) + Opt(ShouldAddTestSection(text, build), TestFinding(file))
  {
    result := text;
    if ShouldAddTestSection(result, build) {
      result := AddTestSection(result, build);
      findings.Add(TestFinding(file));
    }
  }

  /** The table-of-contents step of rewriteMarkdownGoal. */
  method AddTocStep(text: string, threshold: int, findings: FindingList, file: Path) returns (result: string)
    modifies findings
    ensures result == WithToc(text, threshold)
    ensures findings.items == old(findings.items) + Opt(TocWanted(text, threshold), TocFinding(file))
  {
    result := text;
    var addToc := ShouldAddToc(result, threshold);
    if addToc {
      var toc := Toc.GenerateToc(result);
      result := Toc.InsertToc(result, toc);
      findings.Add(TocFinding(file));
    }
  }

  /** The badge step of rewriteMarkdownGoal: no finding is recorded. */
  method AddBadgesStep(text: string, config: PolishingConfig, build: BuildSystem, repo: Badges.RepoDir)
    returns (result: string)
    ensures result == WithBadges(text, config, build, repo)
  {
    result := text;
    if config.badgesEnabled && !Badges.HasBadges(result) {
      var badges := Badges.GenerateBadgeSection(build, config.jdkVersion, Some(repo));
      result := badges + result;
    }
  }

  /** The visual step of rewriteMarkdownGoal. */
  method EnhanceVisualsStep(text: string, findings: FindingList, file: Path) returns (result: string)
    modifies findings
    ensures result == WithVisuals(text)
    ensures findings.items == old(findings.items) + Opt(Visual.NeedsVisual(text), VisualsFinding(file))
  {
    result := text;
    var enhance := ShouldEnhanceVisuals(result);
    if enhance {
      result := EnhanceVisualsGoal(result);
      findings.Add(VisualsFinding(file));
    }
  }

  /** The first half of rewriteMarkdownGoal: clean-up, test section, table of contents. */
  method RewriteFront(content: string, build: BuildSystem, config: PolishingConfig,
                      findings: FindingList, file: Path) returns (result: string)
    modifies findings
    ensures result == Front(content, build, config, file).text
    ensures findings.items == old(findings.items) + Front(content, build, config, file).added
  {
    ghost var start := findings.items;
    result := CleanUp(content, config);
    ghost var t0 := result;
    result := AddTestSectionStep(result, build, findings, file);
    ghost var t1 := result;
    result := AddTocStep(result, config.addTocThresholdHeadings, findings, file);
    ghost var a := Opt(ShouldAddTestSection(t0, build), TestFinding(file));
    ghost var b := Opt(TocWanted(t1, config.addTocThresholdHeadings), TocFinding(file));
    assert findings.items == start + a + b;
    AppendAssoc(start, a, b);
  }

  /**
    rewriteMarkdownGoal: reassigns the text step by step and appends one finding per
    step that fires, except the badges, to the caller's list.
   */
  method RewriteMarkdownGoal(content: string, snapshot: RepoSnapshot, config: PolishingConfig,
                             findings: FindingList, file: Path, repo: Badges.RepoDir) returns (result: string)
    modifies findings
    ensures result == Rewritten(content, snapshot.build, config, repo, file).text
    ensures findings.items == old(findings.items) + Rewritten(content, snapshot.build, config, repo, file).added
  {
    ghost var start := findings.items;
    ghost var fr := Front(content, snapshot.build, config, file);
    ghost var bv := BeforeVisuals(content, snapshot.build, config, repo, file);
    ghost var c := Opt(Visual.NeedsVisual(bv.text), VisualsFinding(file));
    assert bv.added == fr.added && bv.text == WithBadges(fr.text, config, snapshot.build, repo);
    assert Rewritten(content, snapshot.build, config, repo, file) == Outcome(WithVisuals(bv.text), bv.added + c);
    result := RewriteFront(content, snapshot.build, config, findings, file);
    result := AddBadgesStep(result, config, snapshot.build, repo);
    assert result == bv.text;
    result := EnhanceVisualsStep(result, findings, file);
    assert findings.items == start + fr.added + c;
    AppendAssoc(start, fr.added, c);
  }

  // ------------------------------------------------------------------
  // What each step does
  // ------------------------------------------------------------------

  /** The pipeline's text and findings, written out step by step. */
  lemma RewrittenSteps(content: string, build: BuildSystem, config: PolishingConfig, repo: Badges.RepoDir, file: Path)
    ensures var t0 := Cleaned(content, config);
            var t1 := WithTestSection(t0, build);
            var t2 := WithToc(t1, config.addTocThresholdHeadings);
            var t3 := WithBadges(t2, config, build, repo);
            Rewritten(content, build, config, repo, file)
              == Outcome(WithVisuals(t3), Opt(ShouldAddTestSection(t0, build), TestFinding(file))
                                          + Opt(TocWanted(t1, config.addTocThresholdHeadings), TocFinding(file))
                                          + Opt(Visual.NeedsVisual(t3), VisualsFinding(file)))
  {
  }

  /** The findings of the pipeline, written out step by step. */
  lemma RewrittenAdded(content: string, build: BuildSystem, config: PolishingConfig, repo: Badges.RepoDir, file: Path)
    ensures var tested := TestStep(Cleaned(content, config), build, file);
            BeforeVisuals(content, build, config, repo, file).added
              == Opt(ShouldAddTestSection(Cleaned(content, config), build), TestFinding(file))
                 + Opt(TocWanted(tested.text, config.addTocThresholdHeadings), TocFinding(file))
    ensures var b := BeforeVisuals(content, build, config, repo, file);
            Rewritten(content, build, config, repo, file).added
              == b.added + Opt(Visual.NeedsVisual(b.text), VisualsFinding(file))
  {
  }

  lemma HasIdAppend(a: seq<Finding>, b: seq<Finding>, id: string)
    ensures HasId(a + b, id) <==> HasId(a, id) || HasId(b, id)
  {
    if HasId(a + b, id) {
      var i :| 0 <= i < |a + b| && (a + b)[i].id == id;
      if i >= |a| {
        assert b[i - |a|].id == id;
      }
    }
    if HasId(a, id) {
      var i :| 0 <= i < |a| && a[i].id == id;
      assert (a + b)[i].id == id;
    }
    if HasId(b, id) {
      var i :| 0 <= i < |b| && b[i].id == id;
      assert (a + b)[|a| + i].id == id;
    }
  }

  lemma HasIdOpt(b: bool, f: Finding, id: string)
    ensures HasId(Opt(b, f), id) <==> b && f.id == id
  {
    if b && f.id == id {
      assert Opt(b, f)[0].id == id;
    }
  }

  /** The three step ids are told apart by their lengths. */
  lemma StepIdsDistinct()
    ensures TestFindingId != TocFindingId && TestFindingId != VisualsFindingId && TocFindingId != VisualsFindingId
    ensures TestFindingId != MarkdownLinter.SkipFindingId && TocFindingId != MarkdownLinter.SkipFindingId
            && VisualsFindingId != MarkdownLinter.SkipFindingId
    ensures TestFindingId != MarkdownLinter.FenceFindingId && TocFindingId != MarkdownLinter.FenceFindingId
            && VisualsFindingId != MarkdownLinter.FenceFindingId
  {
    assert |TestFindingId| == 18 && |TocFindingId| == 9 && |VisualsFindingId| == 16;
    assert |MarkdownLinter.SkipFindingId| == 18 && |MarkdownLinter.FenceFindingId| == 27;
    assert TestFindingId[0] == 'a' && MarkdownLinter.SkipFindingId[0] == 'h';
  }

  /** In a list made of the three optional step findings, each id is there exactly when its step fired. */
  lemma HasIdSteps(t: bool, c: bool, v: bool, file: Path)
    ensures var fs := Opt(t, TestFinding(file)) + Opt(c, TocFinding(file)) + Opt(v, VisualsFinding(file));
            && (HasId(fs, TestFindingId) <==> t)
            && (HasId(fs, TocFindingId) <==> c)
            && (HasId(fs, VisualsFindingId) <==> v)
            && !HasId(fs, MarkdownLinter.SkipFindingId)
    ensures !HasId(Opt(t, TestFinding(file)) + Opt(c, TocFinding(file)), VisualsFindingId)
  {
    StepIdsDistinct();
    var a, b, d := Opt(t, TestFinding(file)), Opt(c, TocFinding(file)), Opt(v, VisualsFinding(file));
    forall id | id in {TestFindingId, TocFindingId, VisualsFindingId, MarkdownLinter.SkipFindingId}
      ensures HasId(a + b + d, id) <==> HasId(a, id) || HasId(b, id) || HasId(d, id)
      ensures HasId(a + b, id) <==> HasId(a, id) || HasId(b, id)
    {
      HasIdAppend(a + b, d, id);
      HasIdAppend(a, b, id);
      HasIdOpt(t, TestFinding(file), id);
      HasIdOpt(c, TocFinding(file), id);
      HasIdOpt(v, VisualsFinding(file), id);
    }
    HasIdOpt(t, TestFinding(file), TestFindingId);
    HasIdOpt(c, TocFinding(file), TestFindingId);
    HasIdOpt(v, VisualsFinding(file), TestFindingId);
    HasIdOpt(t, TestFinding(file), TocFindingId);
    HasIdOpt(c, TocFinding(file), TocFindingId);
    HasIdOpt(v, VisualsFinding(file), TocFindingId);
    HasIdOpt(t, TestFinding(file), VisualsFindingId);
    HasIdOpt(c, TocFinding(file), VisualsFindingId);
    HasIdOpt(v, VisualsFinding(file), VisualsFindingId);
    HasIdOpt(t, TestFinding(file), MarkdownLinter.SkipFindingId);
    HasIdOpt(c, TocFinding(file), MarkdownLinter.SkipFindingId);
    HasIdOpt(v, VisualsFinding(file), MarkdownLinter.SkipFindingId);
  }

  /**
    "added-test-section" is recorded exactly when the cleaned text asks for a test
    section and the build system is known; afterwards no such text still asks for one.
   */
  lemma TestSectionAddedIff(content: string, build: BuildSystem, config: PolishingConfig, repo: Badges.RepoDir, file: Path)
    ensures HasId(Rewritten(content, build, config, repo, file).added, TestFindingId)
            <==> RepoScanner.NeedsTestSection(Cleaned(content, config)) && build != Other
    ensures build != Other ==> !RepoScanner.NeedsTestSection(TestStep(Cleaned(content, config), build, file).text)
  {
    var cleaned := Cleaned(content, config);
    var tested := TestStep(cleaned, build, file);
    var b := BeforeVisuals(content, build, config, repo, file);
    RewrittenAdded(content, build, config, repo, file);
    HasIdSteps(ShouldAddTestSection(cleaned, build), TocWanted(tested.text, config.addTocThresholdHeadings),
               Visual.NeedsVisual(b.text), file);
    if ShouldAddTestSection(cleaned, build) {
      AddTestSectionSatisfies(cleaned, build);
    }
  }

  /**
    "added-toc" is recorded exactly when, after the test step, the threshold is
    positive, the text has at least that many headings and no table yet; then the
    table generated from the text is inserted, and the text has a table afterwards.
   */
  lemma TocAddedIff(content: string, build: BuildSystem, config: PolishingConfig, repo: Badges.RepoDir, file: Path)
    ensures var tested := TestStep(Cleaned(content, config), build, file).text;
            HasId(Rewritten(content, build, config, repo, file).added, TocFindingId)
            <==> config.addTocThresholdHeadings > 0
                 && |Headings.TextHeadings(tested)| >= config.addTocThresholdHeadings && !Toc.HasToc(tested)
    ensures config.addTocThresholdHeadings <= 0 ==> !HasId(Rewritten(content, build, config, repo, file).added, TocFindingId)
    ensures var tested := TestStep(Cleaned(content, config), build, file);
            var withToc := TocStep(tested, config.addTocThresholdHeadings, file);
            TocWanted(tested.text, config.addTocThresholdHeadings) ==>
              withToc.text == Toc.InsertedToc(tested.text, Toc.GeneratedToc(tested.text))
              && (Toc.GeneratedToc(tested.text) != "" ==> Toc.HasToc(withToc.text))
  {
    var cleaned := Cleaned(content, config);
    var tested := TestStep(cleaned, build, file);
    var b := BeforeVisuals(content, build, config, repo, file);
    RewrittenAdded(content, build, config, repo, file);
    HasIdSteps(ShouldAddTestSection(cleaned, build), TocWanted(tested.text, config.addTocThresholdHeadings),
               Visual.NeedsVisual(b.text), file);
    var toc := Toc.GeneratedToc(tested.text);
    if TocWanted(tested.text, config.addTocThresholdHeadings) && toc != "" {
      Toc.GeneratedTocHasToc(tested.text);
      Toc.InsertedTocHasToc(tested.text, toc);
    }
  }

  /**
    The badge section is put in front exactly when badges are enabled and the text
    has none; otherwise the text is left alone. The step records no finding.
   */
  lemma BadgesPrepended(content: string, build: BuildSystem, config: PolishingConfig, repo: Badges.RepoDir, file: Path)
    ensures var withToc := TocStep(TestStep(Cleaned(content, config), build, file), config.addTocThresholdHeadings, file);
            var b := BeforeVisuals(content, build, config, repo, file);
            && b.added == withToc.added
            && (config.badgesEnabled && !Badges.HasBadges(withToc.text) ==> b.text == BadgeBlock(config, build, repo) + withToc.text)
            && (!(config.badgesEnabled && !Badges.HasBadges(withToc.text)) ==> b.text == withToc.text)
            && EndsWith(b.text, withToc.text)
  {
    var withToc := TocStep(TestStep(Cleaned(content, config), build, file), config.addTocThresholdHeadings, file);
    var b := BeforeVisuals(content, build, config, repo, file);
    if config.badgesEnabled && !Badges.HasBadges(withToc.text) {
      var block := BadgeBlock(config, build, repo);
      assert b.text[|b.text| - |withToc.text|..] == withToc.text;
    } else {
      assert b.text[|b.text| - |withToc.text|..] == b.text;
    }
  }

  /**
    "enhanced-visuals" is recorded exactly when the text after the badges needs
    visual work; then icons, dividers and call-outs are applied in that order.
   */
  lemma VisualsAppliedIff(content: string, build: BuildSystem, config: PolishingConfig, repo: Badges.RepoDir, file: Path)
    ensures var b := BeforeVisuals(content, build, config, repo, file);
            HasId(Rewritten(content, build, config, repo, file).added, VisualsFindingId) <==> Visual.NeedsVisual(b.text)
    ensures var b := BeforeVisuals(content, build, config, repo, file);
            Rewritten(content, build, config, repo, file).text
              == (if Visual.NeedsVisual(b.text) then Enhanced(b.text) else b.text)
  {
    var cleaned := Cleaned(content, config);
    var tested := TestStep(cleaned, build, file);
    var b := BeforeVisuals(content, build, config, repo, file);
    RewrittenAdded(content, build, config, repo, file);
    HasIdSteps(ShouldAddTestSection(cleaned, build), TocWanted(tested.text, config.addTocThresholdHeadings),
               Visual.NeedsVisual(b.text), file);
  }

  /** An INFO note on line 0 of the file that the record constructor accepts. */
  predicate StepNote(f: Finding, file: Path) {
    f.severity == Info && f.lineStart == 0 && f.lineEnd == 0 && f.file == Some(file) && f.Valid()
  }

  lemma StepFindingsValid(file: Path)
    ensures StepNote(TestFinding(file), file) && StepNote(TocFinding(file), file) && StepNote(VisualsFinding(file), file)
  {
    NotBlankByFirst(TestFindingId);
    NotBlankByFirst(TocFindingId);
    NotBlankByFirst(VisualsFindingId);
    NotBlankByFirst(TestFinding(file).message);
    NotBlankByFirst(TocFinding(file).message);
    NotBlankByFirst(VisualsFinding(file).message);
  }

  /**
    The pipeline adds at most three notes, one per step that fired, all INFO on
    line 0 of the README; their order is that of RewrittenSteps.
   */
  lemma RewrittenNotes(content: string, build: BuildSystem, config: PolishingConfig, repo: Badges.RepoDir, file: Path)
    ensures forall f :: f in Rewritten(content, build, config, repo, file).added ==> StepNote(f, file)
    ensures |Rewritten(content, build, config, repo, file).added| <= 3
  {
    var cleaned := Cleaned(content, config);
    var tested := TestStep(cleaned, build, file);
    var b := BeforeVisuals(content, build, config, repo, file);
    RewrittenAdded(content, build, config, repo, file);
    StepNotesOf(ShouldAddTestSection(cleaned, build), TocWanted(tested.text, config.addTocThresholdHeadings),
                Visual.NeedsVisual(b.text), file);
  }

  /** Any choice of fired steps gives valid INFO notes on line 0. */
  lemma StepNotesOf(t: bool, c: bool, v: bool, file: Path)
    ensures forall f :: f in Opt(t, TestFinding(file)) + Opt(c, TocFinding(file)) + Opt(v, VisualsFinding(file)) ==>
                          StepNote(f, file)
    ensures |Opt(t, TestFinding(file)) + Opt(c, TocFinding(file)) + Opt(v, VisualsFinding(file))| <= 3
  {
    StepFindingsValid(file);
  }

  // ------------------------------------------------------------------
  // buildImprovements
  // ------------------------------------------------------------------

  /** A bash or java fence tag that the polished text has and the original had not. */
  predicate FixedFences(original: string, polished: string) {
    || (!Contains(original, "```bash") && Contains(polished, "```bash"))
    || (!Contains(original, "```java") && Contains(polished, "```java"))
  }

  /** buildImprovements: each flag from the finding ids, the fence flag from the two texts. */
  function BuildImprovements(original: string, polished: string, findings: seq<Finding>): (r: ReadmeImprovements)
    ensures r.notes == findings
  {
    NewImprovements(HasId(findings, TestFindingId), FixedFences(original, polished),
                    HasId(findings, MarkdownLinter.SkipFindingId), HasId(findings, TocFindingId),
                    HasId(findings, VisualsFindingId), Some(findings))
  }

  /** The ids the linter gives its findings. */
  predicate LinterIds(lint: seq<Finding>) {
    forall i :: 0 <= i < |lint| ==>
      lint[i].id == MarkdownLinter.FenceFindingId || lint[i].id == MarkdownLinter.SkipFindingId
  }

  lemma LinterIdsNoStep(lint: seq<Finding>)
    requires LinterIds(lint)
    ensures !HasId(lint, TestFindingId) && !HasId(lint, TocFindingId) && !HasId(lint, VisualsFindingId)
  {
    StepIdsDistinct();
  }

  /**
    The summary of a run whose notes are the linter's findings followed by the
    pipeline's: each step flag is set exactly when that step fired, the heading flag
    exactly when the linter reported a skipped level, and the fence flag only when
    the text changed.
   */
  lemma ImprovementsReflectPipeline(lint: seq<Finding>, content: string, build: BuildSystem,
                                    config: PolishingConfig, repo: Badges.RepoDir, file: Path)
    requires LinterIds(lint)
    ensures var o := Rewritten(content, build, config, repo, file);
            var r := BuildImprovements(content, o.text, lint + o.added);
            var tested := TestStep(Cleaned(content, config), build, file);
            && r.notes == lint + o.added
            && (r.addedTestSection <==> ShouldAddTestSection(Cleaned(content, config), build))
            && (r.addedToc <==> TocWanted(tested.text, config.addTocThresholdHeadings))
            && (r.enhancedVisuals <==> Visual.NeedsVisual(BeforeVisuals(content, build, config, repo, file).text))
            && (r.normalizedHeadings <==> HasId(lint, MarkdownLinter.SkipFindingId))
            && (r.fixedCodeBlocks ==> o.text != content)
  {
    var cleaned := Cleaned(content, config);
    var tested := TestStep(cleaned, build, file);
    var b := BeforeVisuals(content, build, config, repo, file);
    var o := Rewritten(content, build, config, repo, file);
    RewrittenAdded(content, build, config, repo, file);
    HasIdSteps(ShouldAddTestSection(cleaned, build), TocWanted(tested.text, config.addTocThresholdHeadings),
               Visual.NeedsVisual(b.text), file);
    LinterIdsNoStep(lint);
    HasIdAppend(lint, o.added, TestFindingId);
    HasIdAppend(lint, o.added, TocFindingId);
    HasIdAppend(lint, o.added, VisualsFindingId);
    HasIdAppend(lint, o.added, MarkdownLinter.SkipFindingId);
  }

  // ------------------------------------------------------------------
  // findReadme
  // ------------------------------------------------------------------

  /** The index of the last '/' in the path, or -1 when it has none. */
  function LastSlash(p: Path): (k: int)
    ensures -1 <= k < |p|
    ensures k >= 0 ==> p[k] == '/'
    ensures forall j :: k < j < |p| ==> p[j] != '/'
  {
    if |p| == 0 then -1
    else if p[|p| - 1] == '/' then |p| - 1
    else LastSlash(p[..|p| - 1])
  }

  /** Path.getFileName: the text after the last '/'. */
  function BaseName(p: Path): (r: string)
    ensures |r| <= |p| && r == p[|p| - |r|..]
    ensures forall i :: 0 <= i < |r| ==> r[i] != '/'
    ensures |r| < |p| ==> p[|p| - |r| - 1] == '/'
  {
    p[LastSlash(p) + 1..]
  }

  /** String.equalsIgnoreCase, with ASCII case mapping: the same length and the same letters. */
  predicate EqualsIgnoreCase(a: string, b: string) {
    |a| == |b| && forall i :: 0 <= i < |a| ==> LowerChar(a[i]) == LowerChar(b[i])
  }

  predicate IsReadme(p: Path) {
    EqualsIgnoreCase(BaseName(p), "README.md")
  }

  /** The index of the first README from position i on; |files| when there is none. */
  function FirstReadme(files: seq<Path>, i: nat): (k: nat)
    requires i <= |files|
    ensures i <= k <= |files|
    ensures k < |files| ==> IsReadme(files[k])
    ensures forall j :: i <= j < k ==> !IsReadme(files[j])
    decreases |files| - i
  {
    if i == |files| then i
    else if IsReadme(files[i]) then i
    else FirstReadme(files, i + 1)
  }

  /** findReadme: the first markdown file named README.md in any case, or none. */
  function FindReadme(files: seq<Path>): (r: Option<Path>)
    ensures r.None? <==> forall i :: 0 <= i < |files| ==> !IsReadme(files[i])
    ensures r.Some? ==> exists k :: 0 <= k < |files| && files[k] == r.value && IsReadme(r.value)
                                    && forall j :: 0 <= j < k ==> !IsReadme(files[j])
  {
    var k := FirstReadme(files, 0);
    if k < |files| then Some(files[k]) else None
  }

  lemma BaseNameSnoc(p: Path, c: char)
    requires c != '/'
    ensures BaseName(p + [c]) == BaseName(p) + [c]
  {
    assert (p + [c])[..|p|] == p;
    assert LastSlash(p + [c]) == LastSlash(p);
    assert (p + [c])[LastSlash(p) + 1..] == p[LastSlash(p) + 1..] + [c];
  }

  lemma BaseNameSlash(p: Path)
    ensures BaseName(p + "/") == ""
  {
  }

  /** A name without '/' is its own file name, whatever directory it is in. */
  lemma {:induction false} BaseNameOfChild(dir: string, name: string)
    requires forall i :: 0 <= i < |name| ==> name[i] != '/'
    ensures BaseName(name) == name
    ensures BaseName(dir + "/" + name) == name
    decreases |name|
  {
    if |name| == 0 {
      BaseNameSlash(dir);
      assert dir + "/" + name == dir + "/";
    } else {
      var front, last := name[..|name| - 1], name[|name| - 1];
      BaseNameOfChild(dir, front);
      assert name == front + [last];
      assert dir + "/" + name == (dir + "/" + front) + [last];
      BaseNameSnoc(front, last);
      BaseNameSnoc(dir + "/" + front, last);
    }
  }

  /** Lower-casing commutes with taking the file name, since '/' has no case. */
  lemma {:induction false} BaseNameLower(p: Path)
    ensures BaseName(Lower(p)) == Lower(BaseName(p))
    decreases |p|
  {
    if |p| > 0 {
      var q, c := p[..|p| - 1], p[|p| - 1];
      assert p == q + [c];
      BaseNameLower(q);
      BaseNameLowerSnoc(q, c);
    }
  }

  lemma BaseNameLowerSnoc(q: Path, c: char)
    requires BaseName(Lower(q)) == Lower(BaseName(q))
    ensures BaseName(Lower(q + [c])) == Lower(BaseName(q + [c]))
  {
    LowerAppend(q, [c]);
    assert Lower([c]) == [LowerChar(c)];
    if c == '/' {
      BaseNameSlash(q);
      BaseNameSlash(Lower(q));
    } else {
      BaseNameSnoc(q, c);
      BaseNameSnoc(Lower(q), LowerChar(c));
      LowerAppend(BaseName(q), [c]);
    }
  }

  /** Whether a path is a README does not depend on the case of any of its letters. */
  lemma ReadmeCaseBlind(p: Path, q: Path)
    requires Lower(p) == Lower(q)
    ensures IsReadme(p) <==> IsReadme(q)
  {
    BaseNameLower(p);
    BaseNameLower(q);
    var a, b := BaseName(p), BaseName(q);
    assert Lower(a) == Lower(b);
    assert |a| == |b|;
    forall i | 0 <= i < |a| ensures LowerChar(a[i]) == LowerChar(b[i]) {
      assert Lower(a)[i] == Lower(b)[i];
    }
  }

  // ------------------------------------------------------------------
  // polishReadmeGoal
  // ------------------------------------------------------------------

  /** lintMarkdownGoal: the linter's findings for the README, fence findings first. */
  function LintFindings(file: Path, content: string): seq<Finding> {
    var lines := LinesDrop(content);
    MarkdownLinter.FenceFindings(Some(file), lines, |lines|) + MarkdownLinter.HeadingFindings(Some(file), lines, |lines|)
  }

  /** The linter's findings carry its own two ids and sit on lines from 1 on. */
  lemma LintFindingsShape(file: Path, content: string)
    ensures LinterIds(LintFindings(file, content))
    ensures forall i :: 0 <= i < |LintFindings(file, content)| ==> LintFindings(file, content)[i].lineStart >= 1
  {
    var lines := LinesDrop(content);
    var fences := MarkdownLinter.FenceFindings(Some(file), lines, |lines|);
    var headings := MarkdownLinter.HeadingFindings(Some(file), lines, |lines|);
    MarkdownLinter.FenceFindingsSound(Some(file), lines, |lines|);
    MarkdownLinter.HeadingFindingsSound(Some(file), lines, |lines|);
    var all := fences + headings;
    forall i | 0 <= i < |all|
      ensures all[i].id == MarkdownLinter.FenceFindingId || all[i].id == MarkdownLinter.SkipFindingId
      ensures all[i].lineStart >= 1
    {
      if i < |fences| {
        assert all[i] in fences;
      } else {
        assert all[i] in headings;
      }
    }
  }

  /**
    The bundle polishReadmeGoal returns, given the snapshot, the texts of the files
    that can be read, the root directory's files and the diff timestamp. A README
    that cannot be read is the Err carrying its path.
   */
  function PolishedBundle(snapshot: RepoSnapshot, readable: map<Path, string>, config: PolishingConfig,
                          repo: Badges.RepoDir, timestamp: string): Result<PatchBundle, Path> {
    var readme := FindReadme(snapshot.markdownFiles);
    if readme.None? then Ok(PatchBundle("", EmptyImprovements()))
    else if readme.value !in readable then Err(readme.value)
    else
      var file := readme.value;
      var original := readable[file];
      var o := Rewritten(original, snapshot.build, config, repo, file);
      Ok(PatchBundle(PatchBuilder.UnifiedDiff(Some(file), original, o.text, timestamp),
                     BuildImprovements(original, o.text, LintFindings(file, original) + o.added)))
  }

  /** polishReadmeGoal, after the scan: find, read, lint, rewrite, summarise, diff. */
  method PolishReadmeGoal(snapshot: RepoSnapshot, readable: map<Path, string>, config: PolishingConfig,
                          repo: Badges.RepoDir, timestamp: string) returns (r: Result<PatchBundle, Path>)
    ensures r == PolishedBundle(snapshot, readable, config, repo, timestamp)
  {
    var readme := FindReadme(snapshot.markdownFiles);
    if readme.None? {
      return Ok(PatchBundle("", EmptyImprovements()));
    }
    var file := readme.value;
    if file !in readable {
      return Err(file);
    }
    var original := readable[file];
    var lint := MarkdownLinter.Lint(Some(file), original);
    var findings := new FindingList(lint);
    var polished := RewriteMarkdownGoal(original, snapshot, config, findings, file, repo);
    var improvements := BuildImprovements(original, polished, findings.items);
    var diff := PatchBuilder.CreateUnifiedDiff(Some(file), original, polished, timestamp);
    r := Ok(PatchBundle(diff, improvements));
  }

  /** Without a README the bundle is empty: no changes and nothing improved. */
  lemma NoReadmeNoChanges(snapshot: RepoSnapshot, readable: map<Path, string>, config: PolishingConfig,
                          repo: Badges.RepoDir, timestamp: string)
    requires forall i :: 0 <= i < |snapshot.markdownFiles| ==> !IsReadme(snapshot.markdownFiles[i])
    ensures var r := PolishedBundle(snapshot, readable, config, repo, timestamp);
            r.Ok? && !HasChanges(r.value) && ImprovementCount(r.value.summary) == 0 && r.value.summary.notes == []
  {
    assert IsBlank("");
  }

  /**
    With a readable README the diff is empty exactly when the pipeline changed
    nothing, the notes list the linter's findings (lines from 1) before the
    pipeline's (line 0), and the flags report the steps that fired.
   */
  lemma BundleOfReadme(snapshot: RepoSnapshot, readable: map<Path, string>, config: PolishingConfig,
                       repo: Badges.RepoDir, timestamp: string)
    requires FindReadme(snapshot.markdownFiles).Some? && FindReadme(snapshot.markdownFiles).value in readable
    ensures var file := FindReadme(snapshot.markdownFiles).value;
            var original := readable[file];
            var o := Rewritten(original, snapshot.build, config, repo, file);
            var r := PolishedBundle(snapshot, readable, config, repo, timestamp);
            var notes := r.value.summary.notes;
            && r.Ok?
            && (r.value.unifiedDiff == "" <==> o.text == original)
            && notes == LintFindings(file, original) + o.added
            && (forall i :: 0 <= i < |notes| ==> (notes[i].lineStart >= 1 <==> i < |LintFindings(file, original)|))
            && (r.value.summary.addedTestSection <==> ShouldAddTestSection(Cleaned(original, config), snapshot.build))
            && (r.value.summary.enhancedVisuals <==>
                  Visual.NeedsVisual(BeforeVisuals(original, snapshot.build, config, repo, file).text))
            && (r.value.summary.normalizedHeadings <==> HasId(LintFindings(file, original), MarkdownLinter.SkipFindingId))
  {
    var file := FindReadme(snapshot.markdownFiles).value;
    var original := readable[file];
    var o := Rewritten(original, snapshot.build, config, repo, file);
    var lint := LintFindings(file, original);
    var bundle := PatchBundle(PatchBuilder.UnifiedDiff(Some(file), original, o.text, timestamp),
                              BuildImprovements(original, o.text, lint + o.added));
    assert PolishedBundle(snapshot, readable, config, repo, timestamp) == Ok(bundle);
    LintFindingsShape(file, original);
    RewrittenNotes(original, snapshot.build, config, repo, file);
    ImprovementsReflectPipeline(lint, original, snapshot.build, config, repo, file);
    PatchBuilder.UnifiedDiffShape(Some(file), original, o.text, timestamp);
    NotesLines(lint, o.added, file);
  }

  /** Linter findings (lines from 1) followed by step notes (line 0) tell themselves apart. */
  lemma NotesLines(lint: seq<Finding>, added: seq<Finding>, file: Path)
    requires forall i :: 0 <= i < |lint| ==> lint[i].lineStart >= 1
    requires forall f :: f in added ==> StepNote(f, file)
    ensures forall i :: 0 <= i < |lint + added| ==> ((lint + added)[i].lineStart >= 1 <==> i < |lint|)
  {
    forall i | 0 <= i < |lint + added| ensures (lint + added)[i].lineStart >= 1 <==> i < |lint| {
      if i >= |lint| {
        assert (lint + added)[i] == added[i - |lint|];
        assert added[i - |lint|] in added;
      }
    }
  }

  /**
    With the default configuration fences default to bash, the table needs four
    headings, and badges, never empty with JDK 21, go in exactly when the text has none.
   */
  lemma DefaultsPipeline(content: string, build: BuildSystem, repo: Badges.RepoDir, o: Outcome)
    ensures Cleaned(content, Defaults())
              == TextRewrite.RemoveTrailingWhitespace(TextRewrite.NormalizeHeadings(TextRewrite.FixedText(content, "bash")))
    ensures TocWanted(content, Defaults().addTocThresholdHeadings) <==>
              |Headings.TextHeadings(content)| >= 4 && !Toc.HasToc(content)
    ensures BadgeStep(o, Defaults(), build, repo).text != o.text <==> !Badges.HasBadges(o.text)
  {
    var block := BadgeBlock(Defaults(), build, repo);
    Strings.NotBlankByFirst("21");
    assert Badges.HasJdk(Some("21"));
    assert |Badges.BadgeList(build, Some("21"), Badges.DetectedLicense(Some(repo)))| > 0;
    assert |block| > 0;
  }
}
