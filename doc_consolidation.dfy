/**
  DocConsolidationTool, part two: folding the documentation files at the repository
  root into one development guide. Listing the directory and reading the files are
  replaced by their result, a list of (name, content) pairs for the regular files at
  the root.
 */
module DocConsolidation {
  import opened Strings
  import opened SectionNames

  // ------------------------------------------------------------------
  // removeTopLevelHeading
  // ------------------------------------------------------------------

  predicate IsTopHeadingLine(line: string) {
    StartsWith(Trim(line), "# ")
  }

  /** trim().isEmpty(). */
  predicate IsBlankLine(line: string) {
    Trim(line) == ""
  }

  /** The first line at or after from that is not blank, or the end. */
  function SkipBlankLines(lines: seq<string>, from: nat): (k: nat)
    requires from <= |lines|
    ensures from <= k <= |lines|
    ensures forall j :: from <= j < k ==> IsBlankLine(lines[j])
    ensures k == |lines| || !IsBlankLine(lines[k])
    decreases |lines| - from
  {
    if from < |lines| && IsBlankLine(lines[from]) then SkipBlankLines(lines, from + 1) else from
  }

  /** What removeTopLevelHeading returns. */
  function WithoutTopHeading(content: string): string {
    var lines := LinesDrop(content);
    if |lines| > 0 && IsTopHeadingLine(lines[0]) then JoinWith(lines[SkipBlankLines(lines, 1)..], "\n")
    else content
  }

  method RemoveTopLevelHeading(content: string) returns (r: string)
    ensures r == WithoutTopHeading(content)
  {
    var lines := LinesDrop(content);
    if |lines| > 0 && StartsWith(Trim(lines[0]), "# ") {
      var startIdx := 1;
      while startIdx < |lines| && Trim(lines[startIdx]) == ""
        invariant 1 <= startIdx <= |lines|
        invariant SkipBlankLines(lines, startIdx) == SkipBlankLines(lines, 1)
      {
        startIdx := startIdx + 1;
      }
      return JoinWith(lines[startIdx..], "\n");
    }
    return content;
  }

  lemma JoinNotEmpty(ls: seq<string>, sep: string)
    requires |ls| >= 1 && ls[|ls| - 1] != ""
    ensures JoinWith(ls, sep) != ""
  {
    if |ls| > 1 {
      var init := ls[..|ls| - 1];
      JoinWithSnoc(init, ls[|ls| - 1], sep);
      assert init + [ls[|ls| - 1]] == ls;
    }
  }

  /** Lines without newlines whose last one is not empty come back whole from split("\n"). */
  lemma SplitDropJoin(ls: seq<string>)
    requires |ls| >= 1 && ls[|ls| - 1] != ""
    requires forall k :: 0 <= k < |ls| ==> '\n' !in ls[k]
    ensures LinesDrop(JoinWith(ls, "\n")) == ls
  {
    var j := JoinWith(ls, "\n");
    SplitJoin(ls, '\n');
    JoinNotEmpty(ls, "\n");
    assert SplitDrop(j, "\n") == DropTrailingEmpty(ls);
    assert TrailingEmptyStart(ls) == |ls|;
    assert ls[..|ls|] == ls;
  }

  /**
    Below a top-level heading the text keeps exactly the lines after the heading and
    the blank lines that follow it; any other text is left alone.
   */
  lemma WithoutTopHeadingLines(content: string)
    ensures var lines := LinesDrop(content);
            if |lines| > 0 && IsTopHeadingLine(lines[0]) then
              var k := SkipBlankLines(lines, 1);
              && 1 <= k
              && (forall j :: 1 <= j < k ==> IsBlankLine(lines[j]))
              && (k == |lines| ==> WithoutTopHeading(content) == "")
              && (k < |lines| ==> LinesDrop(WithoutTopHeading(content)) == lines[k..] && !IsBlankLine(lines[k]))
            else WithoutTopHeading(content) == content
  {
    var lines := LinesDrop(content);
    if |lines| > 0 && IsTopHeadingLine(lines[0]) {
      var k := SkipBlankLines(lines, 1);
      if k < |lines| {
        var ks := SplitKeep(content, "\n");
        SplitKeepPiecesFree(content, '\n');
        var n := TrailingEmptyStart(ks);
        TrimShape(lines[0]);
        assert |lines[0]| >= 2;
        assert content != "";
        assert lines == ks[..n];
        assert forall j :: 0 <= j < |lines| ==> '\n' !in lines[j];
        assert lines[|lines| - 1] == ks[n - 1];
        SplitDropJoin(lines[k..]);
      }
    }
  }

  // ------------------------------------------------------------------
  // deduplicateSections
  // ------------------------------------------------------------------

  /** The key two paragraphs are compared by: trimmed and lower-cased. */
  function ParagraphKey(p: string): string {
    Lower(Trim(p))
  }

  /** The non-empty keys among the paragraphs: the seen set after them. */
  function SeenKeys(ps: seq<string>): set<string> {
    set j | 0 <= j < |ps| && ParagraphKey(ps[j]) != "" :: ParagraphKey(ps[j])
  }

  /** The paragraphs kept: those with a non-empty key not seen before, in order. */
  function Kept(ps: seq<string>): (r: seq<string>)
    ensures |r| <= |ps|
  {
    if |ps| == 0 then []
    else
      var p := ps[|ps| - 1];
      var key := ParagraphKey(p);
      Kept(ps[..|ps| - 1]) + (if key != "" && key !in SeenKeys(ps[..|ps| - 1]) then [p] else [])
  }

  /** What deduplicateSections returns. */
  function Deduplicated(content: string): string {
    JoinWith(Kept(SplitDrop(content, "\n\n")), "\n\n")
  }

  lemma SeenKeysSnoc(ps: seq<string>, i: nat)
    requires i < |ps|
    ensures SeenKeys(ps[..i + 1])
            == SeenKeys(ps[..i]) + (if ParagraphKey(ps[i]) != "" then {ParagraphKey(ps[i])} else {})
  {
    var a, b := ps[..i + 1], ps[..i];
    assert forall j :: 0 <= j < i ==> a[j] == b[j];
    if ParagraphKey(ps[i]) != "" {
      assert ParagraphKey(a[i]) in SeenKeys(a);
    }
  }

  /** deduplicateSections: one pass with a list of kept paragraphs and a set of seen keys. */
  method DeduplicateSections(content: string) returns (r: string)
    ensures r == Deduplicated(content)
  {
    var paragraphs := SplitDrop(content, "\n\n");
    var deduplicated: seq<string> := [];
    var seen: set<string> := {};
    for i := 0 to |paragraphs|
      invariant deduplicated == Kept(paragraphs[..i])
      invariant seen == SeenKeys(paragraphs[..i])
    {
      var para := paragraphs[i];
      assert paragraphs[..i + 1][..i] == paragraphs[..i];
      SeenKeysSnoc(paragraphs, i);
      var normalized := Lower(Trim(para));
      if normalized != "" && normalized !in seen {
        deduplicated := deduplicated + [para];
        seen := seen + {normalized};
      }
    }
    assert paragraphs[..|paragraphs|] == paragraphs;
    r := JoinWith(deduplicated, "\n\n");
  }

  /** Keys of the kept paragraphs are non-empty and pairwise different, and they are all the keys seen. */
  lemma {:induction false} KeptShape(ps: seq<string>)
    ensures forall a :: 0 <= a < |Kept(ps)| ==> Kept(ps)[a] in ps && ParagraphKey(Kept(ps)[a]) != ""
    ensures forall a, b :: 0 <= a < b < |Kept(ps)| ==> ParagraphKey(Kept(ps)[a]) != ParagraphKey(Kept(ps)[b])
    ensures SeenKeys(Kept(ps)) == SeenKeys(ps)
  {
    if |ps| > 0 {
      var init := ps[..|ps| - 1];
      var p := ps[|ps| - 1];
      KeptShape(init);
      SeenKeysSnoc(ps, |ps| - 1);
      assert ps[..|ps| - 1] == init && ps[..|ps|] == ps;
      var k := Kept(init);
      if ParagraphKey(p) != "" && ParagraphKey(p) !in SeenKeys(init) {
        assert Kept(ps) == k + [p];
        SeenKeysSnoc(k + [p], |k|);
        assert (k + [p])[..|k|] == k && (k + [p])[..|k| + 1] == k + [p];
        forall a | 0 <= a < |k|
          ensures ParagraphKey(k[a]) != ParagraphKey(p)
        {
          assert ParagraphKey(k[a]) in SeenKeys(k);
        }
      } else {
        assert Kept(ps) == k;
      }
    }
  }

  /** The first paragraph with a given non-empty key is always kept. */
  lemma {:induction false} KeptFirst(ps: seq<string>, i: nat)
    requires i < |ps| && ParagraphKey(ps[i]) != ""
    requires forall j :: 0 <= j < i ==> ParagraphKey(ps[j]) != ParagraphKey(ps[i])
    ensures ps[i] in Kept(ps)
    decreases |ps|
  {
    var init := ps[..|ps| - 1];
    if i < |ps| - 1 {
      KeptFirst(init, i);
    } else {
      assert ParagraphKey(ps[i]) !in SeenKeys(init);
    }
  }

  /** Paragraphs whose keys are already non-empty and distinct are all kept. */
  lemma {:induction false} KeptDistinct(ps: seq<string>)
    requires forall a :: 0 <= a < |ps| ==> ParagraphKey(ps[a]) != ""
    requires forall a, b :: 0 <= a < b < |ps| ==> ParagraphKey(ps[a]) != ParagraphKey(ps[b])
    ensures Kept(ps) == ps
  {
    if |ps| > 0 {
      var init := ps[..|ps| - 1];
      KeptDistinct(init);
      assert ParagraphKey(ps[|ps| - 1]) !in SeenKeys(init);
      assert init + [ps[|ps| - 1]] == ps;
    }
  }

  /** Deduplicating the kept paragraphs again removes nothing more. */
  lemma KeptIdempotent(ps: seq<string>)
    ensures Kept(Kept(ps)) == Kept(ps)
  {
    KeptShape(ps);
    KeptDistinct(Kept(ps));
  }

  // ------------------------------------------------------------------
  // findDocumentationFiles
  // ------------------------------------------------------------------

  /** A regular file at the repository root. */
  datatype DocFile = DocFile(name: string, content: string)

  const ExcludedFiles: set<string> := {"CLAUDE.md", "README.md", "DEVELOPMENT.md"}

  /** The filters of findDocumentationFiles: a case-sensitive ".md" name not excluded. */
  predicate IsDocumentationFile(f: DocFile) {
    EndsWith(f.name, ".md") && f.name !in ExcludedFiles
  }

  function DocumentationFilter(listing: seq<DocFile>): (r: seq<DocFile>)
    ensures |r| <= |listing|
  {
    if |listing| == 0 then []
    else
      var f := listing[|listing| - 1];
      DocumentationFilter(listing[..|listing| - 1]) + (if IsDocumentationFile(f) then [f] else [])
  }

  lemma {:induction false} DocumentationFilterMeaning(listing: seq<DocFile>, f: DocFile)
    ensures f in DocumentationFilter(listing) <==> f in listing && IsDocumentationFile(f)
  {
    if |listing| > 0 {
      var init := listing[..|listing| - 1];
      DocumentationFilterMeaning(init, f);
      assert listing == init + [listing[|listing| - 1]];
    }
  }

  /** Path order for names in one directory: character by character, a prefix first. */
  predicate NameLe(a: string, b: string)
    decreases |a|
  {
    |a| == 0 || (|b| > 0 && (a[0] < b[0] || (a[0] == b[0] && NameLe(a[1..], b[1..]))))
  }

  lemma {:induction false} NameLeTotal(a: string, b: string)
    ensures NameLe(a, b) || NameLe(b, a)
    decreases |a|
  {
    if |a| > 0 && |b| > 0 && a[0] == b[0] {
      NameLeTotal(a[1..], b[1..]);
    }
  }

  predicate SortedByName(docs: seq<DocFile>) {
    forall i :: 0 <= i < |docs| - 1 ==> NameLe(docs[i].name, docs[i + 1].name)
  }

  function InsertByName(d: DocFile, sorted: seq<DocFile>): (r: seq<DocFile>)
    ensures |r| == |sorted| + 1 && multiset(r) == multiset(sorted) + multiset{d}
    ensures r[0] == d || (|sorted| > 0 && r[0] == sorted[0])
  {
    if |sorted| == 0 then [d]
    else if NameLe(d.name, sorted[0].name) then [d] + sorted
    else
      var rest := InsertByName(d, sorted[1..]);
      assert sorted == [sorted[0]] + sorted[1..];
      [sorted[0]] + rest
  }

  lemma {:induction false} InsertKeepsOrder(d: DocFile, sorted: seq<DocFile>)
    requires SortedByName(sorted)
    ensures SortedByName(InsertByName(d, sorted))
  {
    if |sorted| > 0 && !NameLe(d.name, sorted[0].name) {
      NameLeTotal(d.name, sorted[0].name);
      InsertKeepsOrder(d, sorted[1..]);
    }
  }

  /** The sorted() step of the stream: the files in name order. */
  function SortByName(docs: seq<DocFile>): (r: seq<DocFile>)
    ensures |r| == |docs| && multiset(r) == multiset(docs) && SortedByName(r)
  {
    if |docs| == 0 then []
    else
      var init := docs[..|docs| - 1];
      assert docs == init + [docs[|docs| - 1]];
      InsertKeepsOrder(docs[|docs| - 1], SortByName(init));
      InsertByName(docs[|docs| - 1], SortByName(init))
  }

  /** findDocumentationFiles over the directory listing. */
  function DocumentationFiles(listing: seq<DocFile>): seq<DocFile> {
    SortByName(DocumentationFilter(listing))
  }

  // ------------------------------------------------------------------
  // consolidateDocumentation
  // ------------------------------------------------------------------

  datatype ConsolidationResult = ConsolidationResult(consolidatedContent: string, filesToRemove: seq<string>, hasConsolidation: bool)

  const GuideTitle := "# Development Guide\n\n"
  const GuideIntro := "This document consolidates all development and process documentation for README Wrangler.\n\n"
  const Rule := "---\n\n"
  const TocTitle := "## Table of Contents\n\n"
  const TocEnd := "\n---\n\n"
  const SectionEnd := "\n\n---\n\n"

  /** The table-of-contents line of one file. */
  function TocEntry(name: string): string {
    "- [" + SectionName(name) + "](#" + TocAnchor(SectionName(name)) + ")\n"
  }

  function TocEntries(docs: seq<DocFile>): string {
    if |docs| == 0 then "" else TocEntries(docs[..|docs| - 1]) + TocEntry(docs[|docs| - 1].name)
  }

  /** The section heading of one file. */
  function SectionHeading(name: string): string {
    "## " + SectionName(name) + "\n\n"
  }

  /** The section of one file: its heading, its content without top heading and repeats, a rule. */
  function SectionText(d: DocFile): string {
    SectionHeading(d.name) + Deduplicated(WithoutTopHeading(d.content)) + SectionEnd
  }

  function SectionTexts(docs: seq<DocFile>): string {
    if |docs| == 0 then "" else SectionTexts(docs[..|docs| - 1]) + SectionText(docs[|docs| - 1])
  }

  function Names(docs: seq<DocFile>): (r: seq<string>)
    ensures |r| == |docs| && forall i :: 0 <= i < |docs| ==> r[i] == docs[i].name
  {
    if |docs| == 0 then [] else [docs[0].name] + Names(docs[1..])
  }

  /** What consolidateDocumentation returns for the root listing. */
  function Consolidation(listing: seq<DocFile>): ConsolidationResult {
    var docs := DocumentationFiles(listing);
    if |docs| == 0 then ConsolidationResult("", [], false)
    else ConsolidationResult(
      GuideTitle + GuideIntro + Rule + TocTitle + TocEntries(docs) + TocEnd + SectionTexts(docs),
      Names(docs), true)
  }

  lemma TocStep(head: string, t: string, name: string, anchor: string)
    ensures head + t + "- [" + name + "](#" + anchor + ")\n" == head + (t + ("- [" + name + "](#" + anchor + ")\n"))
  {
  }

  lemma SectionStep(head: string, t: string, name: string, body: string)
    ensures head + t + "## " + name + "\n\n" + body + SectionEnd == head + (t + ("## " + name + "\n\n" + body + SectionEnd))
  {
  }

  /** The table-of-contents loop: one link line per file, appended to the builder. */
  method AppendTableOfContents(builder: string, docs: seq<DocFile>) returns (r: string)
    ensures r == builder + TocEntries(docs)
  {
    r := builder;
    for i := 0 to |docs|
      invariant r == builder + TocEntries(docs[..i])
    {
      assert docs[..i + 1][..i] == docs[..i];
      var sectionName := FileNameToSectionName(docs[i].name);
      var anchor := TocAnchor(sectionName);
      TocStep(builder, TocEntries(docs[..i]), sectionName, anchor);
      r := r + "- [" + sectionName + "](#" + anchor + ")\n";
    }
    assert docs[..|docs|] == docs;
  }

  /** The section loop: heading, cleaned content and a rule per file, appended to the builder. */
  method AppendSections(builder: string, docs: seq<DocFile>) returns (r: string)
    ensures r == builder + SectionTexts(docs)
  {
    r := builder;
    for i := 0 to |docs|
      invariant r == builder + SectionTexts(docs[..i])
    {
      assert docs[..i + 1][..i] == docs[..i];
      var sectionName := FileNameToSectionName(docs[i].name);
      var processed := RemoveTopLevelHeading(docs[i].content);
      processed := DeduplicateSections(processed);
      SectionStep(builder, SectionTexts(docs[..i]), sectionName, processed);
      r := r + "## " + sectionName + "\n\n" + processed + SectionEnd;
    }
    assert docs[..|docs|] == docs;
  }

  /** consolidateDocumentation: the header, the table of contents, then one section per file. */
  method ConsolidateDocumentation(listing: seq<DocFile>) returns (result: ConsolidationResult)
    ensures result == Consolidation(listing)
  {
    var docs := DocumentationFiles(listing);
    if |docs| == 0 {
      return ConsolidationResult("", [], false);
    }
    var consolidated := GuideTitle;
    consolidated := consolidated + GuideIntro;
    consolidated := consolidated + Rule;
    consolidated := consolidated + TocTitle;
    consolidated := AppendTableOfContents(consolidated, docs);
    consolidated := consolidated + TocEnd;
    consolidated := AppendSections(consolidated, docs);
    result := ConsolidationResult(consolidated, Names(docs), true);
  }

  // ------------------------------------------------------------------
  // Properties
  // ------------------------------------------------------------------

  /** A file is consolidated exactly when it is an eligible file of the listing. */
  lemma DocumentationFilesMeaning(listing: seq<DocFile>, f: DocFile)
    ensures f in DocumentationFiles(listing) <==> f in listing && IsDocumentationFile(f)
  {
    var e := DocumentationFilter(listing);
    DocumentationFilterMeaning(listing, f);
    assert f in DocumentationFiles(listing) <==> f in multiset(DocumentationFiles(listing));
    assert f in e <==> f in multiset(e);
  }

  /** Without an eligible file nothing is consolidated and nothing is to be removed. */
  lemma ConsolidationWhen(listing: seq<DocFile>)
    ensures var r := Consolidation(listing);
            && (r.hasConsolidation <==> exists f :: f in listing && IsDocumentationFile(f))
            && (!r.hasConsolidation ==> r == ConsolidationResult("", [], false))
            && (r.hasConsolidation <==> r.filesToRemove != [])
  {
    var docs := DocumentationFiles(listing);
    if |docs| > 0 {
      DocumentationFilesMeaning(listing, docs[0]);
    } else if exists f :: f in listing && IsDocumentationFile(f) {
      var f :| f in listing && IsDocumentationFile(f);
      DocumentationFilesMeaning(listing, f);
    }
  }

  /** A name is among the consolidated files' names exactly when an eligible file has it. */
  lemma DocumentationNames(listing: seq<DocFile>, n: string)
    ensures n in Names(DocumentationFiles(listing))
            <==> exists f :: f in listing && IsDocumentationFile(f) && f.name == n
  {
    var docs := DocumentationFiles(listing);
    var names := Names(docs);
    if n in names {
      var i :| 0 <= i < |names| && names[i] == n;
      DocumentationFilesMeaning(listing, docs[i]);
    }
    if exists f :: f in listing && IsDocumentationFile(f) && f.name == n {
      var f :| f in listing && IsDocumentationFile(f) && f.name == n;
      DocumentationFilesMeaning(listing, f);
      var i :| 0 <= i < |docs| && docs[i] == f;
      assert names[i] == n;
    }
  }

  lemma ConsolidationNames(listing: seq<DocFile>)
    ensures Consolidation(listing).filesToRemove == Names(DocumentationFiles(listing))
  {
  }

  /**
    The files to remove are the names of the eligible files, in name order, and never
    an excluded name.
   */
  lemma ConsolidationFileNames(listing: seq<DocFile>)
    ensures var names := Consolidation(listing).filesToRemove;
            && (forall i :: 0 <= i < |names| - 1 ==> NameLe(names[i], names[i + 1]))
            && (forall n :: n in names <==> exists f :: f in listing && IsDocumentationFile(f) && f.name == n)
            && (forall n :: n in ExcludedFiles ==> n !in names)
  {
    ConsolidationNames(listing);
    forall n
      ensures n in Names(DocumentationFiles(listing))
              <==> exists f :: f in listing && IsDocumentationFile(f) && f.name == n
    {
      DocumentationNames(listing, n);
    }
  }

  lemma {:induction false} TocEntriesContain(docs: seq<DocFile>, i: nat)
    requires i < |docs|
    ensures Contains(TocEntries(docs), TocEntry(docs[i].name))
  {
    var init, last := docs[..|docs| - 1], docs[|docs| - 1];
    assert TocEntries(docs) == TocEntries(init) + TocEntry(last.name);
    if i < |docs| - 1 {
      TocEntriesContain(init, i);
      ContainsExtend(TocEntries(init), TocEntry(docs[i].name), TocEntry(last.name));
    } else {
      var e := TocEntry(last.name);
      assert e[..|e|] == e;
      ContainsStartOfRight(TocEntries(init), e, e);
    }
  }

  lemma {:induction false} SectionTextsContain(docs: seq<DocFile>, i: nat)
    requires i < |docs|
    ensures Contains(SectionTexts(docs), SectionHeading(docs[i].name))
  {
    var init, last := docs[..|docs| - 1], docs[|docs| - 1];
    assert SectionTexts(docs) == SectionTexts(init) + SectionText(last);
    if i < |docs| - 1 {
      SectionTextsContain(init, i);
      ContainsExtend(SectionTexts(init), SectionHeading(docs[i].name), SectionText(last));
    } else {
      var h := SectionHeading(last.name);
      var body := Deduplicated(WithoutTopHeading(last.content));
      assert (h + body)[..|h|] == h;
      StartsWithAppend(h + body, SectionEnd, h);
      ContainsStartOfRight(SectionTexts(init), SectionText(last), h);
    }
  }

  /**
    The guide opens with its title, has a table of contents, and for every eligible
    file both a table-of-contents link and a "## <section name>" heading.
   */
  lemma ConsolidationOutline(listing: seq<DocFile>, f: DocFile)
    requires f in listing && IsDocumentationFile(f)
    ensures var text := Consolidation(listing).consolidatedContent;
            && StartsWith(text, GuideTitle)
            && Contains(text, TocTitle)
            && Contains(text, TocEntry(f.name))
            && Contains(text, SectionHeading(f.name))
  {
    var docs := DocumentationFiles(listing);
    DocumentationFilesMeaning(listing, f);
    var i :| 0 <= i < |docs| && docs[i] == f;
    var pre := GuideTitle + GuideIntro + Rule;
    var a := pre + TocTitle;
    var b := a + TocEntries(docs);
    var c := b + TocEnd;
    var text := c + SectionTexts(docs);
    assert Consolidation(listing).consolidatedContent == text;
    // the title
    assert (GuideTitle + GuideIntro)[..|GuideTitle|] == GuideTitle;
    StartsWithAppend(GuideTitle + GuideIntro, Rule, GuideTitle);
    StartsWithAppend(pre, TocTitle, GuideTitle);
    StartsWithAppend(a, TocEntries(docs), GuideTitle);
    StartsWithAppend(b, TocEnd, GuideTitle);
    StartsWithAppend(c, SectionTexts(docs), GuideTitle);
    // the table of contents
    assert TocTitle[..|TocTitle|] == TocTitle;
    ContainsStartOfRight(pre, TocTitle, TocTitle);
    ContainsExtend(a, TocTitle, TocEntries(docs));
    ContainsExtend(b, TocTitle, TocEnd);
    ContainsExtend(c, TocTitle, SectionTexts(docs));
    // the link
    TocEntriesContain(docs, i);
    ContainsExtend(TocEntries(docs), TocEntry(f.name), a);
    ContainsExtend(b, TocEntry(f.name), TocEnd);
    ContainsExtend(c, TocEntry(f.name), SectionTexts(docs));
    // the section heading
    SectionTextsContain(docs, i);
    ContainsExtend(SectionTexts(docs), SectionHeading(f.name), c);
  }
}
