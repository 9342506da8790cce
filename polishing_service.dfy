/**
  PolishingService: the older entry point. polishRepository hands the whole run to
  the agent; its private polishContent is the agent's rewrite without the visual
  step. Its addTestSection, findReadme and buildImprovements are the agent's
  helpers letter for letter, so the agent's definitions serve both.
 */
module PolishingService {
  import opened Wrappers
  import opened Strings
  import opened Domain
  import opened Config
  import MarkdownLinter
  import TextRewrite
  import Toc
  import Badges
  import Visual
  import RepoScanner
  import PolisherAgent

  /** polishRepository: delegates to the agent's polishReadmeGoal. */
  method PolishRepository(snapshot: RepoSnapshot, readable: map<Path, string>, config: PolishingConfig,
                          repo: Badges.RepoDir, timestamp: string) returns (r: Result<PatchBundle, Path>)
    ensures r == PolisherAgent.PolishedBundle(snapshot, readable, config, repo, timestamp)
    ensures PolisherAgent.FindReadme(snapshot.markdownFiles).None? ==> r.Ok? && !HasChanges(r.value)
  {
    r := PolisherAgent.PolishReadmeGoal(snapshot, readable, config, repo, timestamp);
    if PolisherAgent.FindReadme(snapshot.markdownFiles).None? {
      assert IsBlank("");
    }
  }

  /**
    polishContent: clean-up, test section, table of contents (its threshold test
    wrapped around the count), badges. It never adds icons or call-outs.
   */
  method PolishContent(content: string, snapshot: RepoSnapshot, config: PolishingConfig,
                       findings: PolisherAgent.FindingList, file: Path, repo: Badges.RepoDir)
    returns (result: string)
    modifies findings
    ensures result == PolisherAgent.BeforeVisuals(content, snapshot.build, config, repo, file).text
    ensures findings.items == old(findings.items) + PolisherAgent.BeforeVisuals(content, snapshot.build, config, repo, file).added
  {
    ghost var start := findings.items;
    result := PolishFront(content, snapshot.build, config, findings, file);
    ghost var fr := PolisherAgent.Front(content, snapshot.build, config, file);
    if config.badgesEnabled && !Badges.HasBadges(result) {
      var badges := Badges.GenerateBadgeSection(snapshot.build, config.jdkVersion, Some(repo));
      result := badges + result;
    }
    assert result == PolisherAgent.WithBadges(fr.text, config, snapshot.build, repo);
  }

  /** The part of polishContent before the badges. */
  method PolishFront(content: string, build: BuildSystem, config: PolishingConfig,
                     findings: PolisherAgent.FindingList, file: Path) returns (result: string)
    modifies findings
    ensures result == PolisherAgent.Front(content, build, config, file).text
    ensures findings.items == old(findings.items) + PolisherAgent.Front(content, build, config, file).added
  {
    ghost var start := findings.items;
    result := PolisherAgent.CleanUp(content, config);
    ghost var t0 := result;
    result := PolisherAgent.AddTestSectionStep(result, build, findings, file);
    ghost var t1 := result;
    result := AddTocNested(result, config.addTocThresholdHeadings, findings, file);
    ghost var a := PolisherAgent.Opt(PolisherAgent.ShouldAddTestSection(t0, build), PolisherAgent.TestFinding(file));
    ghost var b := PolisherAgent.Opt(PolisherAgent.TocWanted(t1, config.addTocThresholdHeadings), PolisherAgent.TocFinding(file));
    assert findings.items == start + a + b;
    AppendAssoc(start, a, b);
  }

  /** polishContent's table-of-contents step: the threshold test wraps the count and the check for an existing table. */
  method AddTocNested(text: string, threshold: int, findings: PolisherAgent.FindingList, file: Path)
    returns (result: string)
    modifies findings
    ensures result == PolisherAgent.WithToc(text, threshold)
    ensures findings.items == old(findings.items)
                              + PolisherAgent.Opt(PolisherAgent.TocWanted(text, threshold), PolisherAgent.TocFinding(file))
  {
    result := text;
    if threshold > 0 {
      var headingCount := MarkdownLinter.CountHeadings(result);
      if headingCount >= threshold && !Toc.HasToc(result) {
        var toc := Toc.GenerateToc(result);
        result := Toc.InsertToc(result, toc);
        findings.Add(PolisherAgent.TocFinding(file));
      }
    }
  }

  /**
    The agent is the service followed by the visual step: the texts differ only by
    that step, the agent's notes are the service's plus at most the visuals note, and
    when the service's text needs no visual work the two agree exactly.
   */
  lemma AgentExtendsService(content: string, build: BuildSystem, config: PolishingConfig,
                            repo: Badges.RepoDir, file: Path)
    ensures var s := PolisherAgent.BeforeVisuals(content, build, config, repo, file);
            var a := PolisherAgent.Rewritten(content, build, config, repo, file);
            && a.text == PolisherAgent.WithVisuals(s.text)
            && s.added <= a.added
            && (PolisherAgent.HasId(a.added, PolisherAgent.VisualsFindingId) <==> Visual.NeedsVisual(s.text))
            && (!Visual.NeedsVisual(s.text) ==> a == s)
  {
    var cleaned := PolisherAgent.Cleaned(content, config);
    var tested := PolisherAgent.TestStep(cleaned, build, file);
    var s := PolisherAgent.BeforeVisuals(content, build, config, repo, file);
    PolisherAgent.RewrittenAdded(content, build, config, repo, file);
    PolisherAgent.HasIdSteps(PolisherAgent.ShouldAddTestSection(cleaned, build),
                             PolisherAgent.TocWanted(tested.text, config.addTocThresholdHeadings),
                             Visual.NeedsVisual(s.text), file);
  }

  /**
    A summary built from the service's notes, after the linter's, never reports
    enhanced visuals, whatever the text: only the agent's visual step records that id.
   */
  lemma ServiceNeverEnhances(lint: seq<Finding>, original: string, polished: string, content: string,
                             build: BuildSystem, config: PolishingConfig, repo: Badges.RepoDir, file: Path)
    requires PolisherAgent.LinterIds(lint)
    ensures !PolisherAgent.HasId(PolisherAgent.BeforeVisuals(content, build, config, repo, file).added,
                                 PolisherAgent.VisualsFindingId)
    ensures !PolisherAgent.BuildImprovements(original, polished,
              lint + PolisherAgent.BeforeVisuals(content, build, config, repo, file).added).enhancedVisuals
  {
    var cleaned := PolisherAgent.Cleaned(content, config);
    var tested := PolisherAgent.TestStep(cleaned, build, file);
    var s := PolisherAgent.BeforeVisuals(content, build, config, repo, file);
    PolisherAgent.RewrittenAdded(content, build, config, repo, file);
    PolisherAgent.HasIdSteps(PolisherAgent.ShouldAddTestSection(cleaned, build),
                             PolisherAgent.TocWanted(tested.text, config.addTocThresholdHeadings), false, file);
    PolisherAgent.LinterIdsNoStep(lint);
    PolisherAgent.HasIdAppend(lint, s.added, PolisherAgent.VisualsFindingId);
  }
}
