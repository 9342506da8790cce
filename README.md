# ReadmeWrangler in Dafny

ReadmeWrangler polishes the README of a Java repository. It lints the markdown, then
rewrites it step by step: it tags bare code fences, turns setext headings into ATX
headings, strips trailing blanks, adds a "How to Run Tests" section, a table of
contents, a row of shields.io badges and visual touches (icons on headings, `---`
dividers, bold call-outs). It reports the result as a unified diff with a summary of the
improvements made. Around that core sit a repository scanner, a documentation
consolidator and a few value records.

This project models that core in Dafny 4.11 and proves what its code promises. It has
one module per Java file of the core:

- **Domain** (`domain.dfy`) holds the records `PolishingFinding`, `ReadmeImprovements`,
  `PatchBundle` and `RepoSnapshot`, and the `BuildSystem` and `Severity` enums.
  - Each validating record constructor is a function on `Option` arguments that returns a
    `Result`. A rejected record is an `Err` carrying the exception's message.
- **Config** (`config.dfy`) holds `PolishingConfig` and its defaults.
- **Tools**, one module each: `MarkdownLinter`, `TextRewrite`, `Toc`, `Badges`, `Visual`,
  `PatchBuilder`, `RepoScanner` and `DocConsolidation`.
  - A Java method that loops over lines is a Dafny `method` with a loop. The loop is
    proved against a specification function of the lines scanned so far.
  - Pure string logic is written as functions.
- **PolisherAgent** (`polisher_agent.dfy`) models the agent's pipeline.
  - The findings list that `rewriteMarkdownGoal` appends to is the class `FindingList`.
    Its one field, `items`, is mutated in place.
  - Each step is a method. Its contract ties the new text and the new findings to the
    step's specification function. The whole run is proved equal to the composition
    `Rewritten`.
- **PolishingService** (`polishing_service.dfy`) models the older service entry point.
  Its private pipeline is the agent's without the visual step. Its private
  `addTestSection`, `findReadme` and `buildImprovements` (PolishingService.java lines
  137-193) are the agent's methods character for character, so the agent's members
  `AddTestSection`, `FindReadme` and `BuildImprovements` model both copies.
- **Shared modules** support the rest:
  - `Strings` models the Java `String` operations the code uses: `trim`, `isBlank`,
    `split` with and without the `-1` limit, `join`, `contains`, `indexOf`,
    `toLowerCase` and `replace`.
  - `Headings` models the heading regular expression that three tools share.
  - `SectionNames` models the file-name-to-section-name conversion of the consolidator.
  - `Wrappers` supplies `Option` and `Result`.

Text is a `string` whose lines are separated by `'\n'` alone. The model includes
`normalizeLineEndings`, which removes the `'\r'` of each CRLF pair. A path is its text.
Directory walks, file reads and writes, and the clock are replaced by parameters:
- a list of file names;
- a map from path to file contents;
- a timestamp string.

## Model

| member | source | states |
|---|---|---|
| Domain.NewFinding | src/main/java/com/baskettecase/readmewrangler/domain/PolishingFinding.java:27-40 | accepted exactly when id and message are present and not blank and 0 <= lineStart <= lineEnd; an accepted finding is valid and stores the arguments; a missing severity becomes Info; a missing or blank id gives the id message |
| Domain.ForLine | src/main/java/com/baskettecase/readmewrangler/domain/PolishingFinding.java:45-47 | accepted exactly when id and message are not blank and the line is not negative; the finding starts and ends on that line |
| Domain.LineFinding | src/main/java/com/baskettecase/readmewrangler/domain/PolishingFinding.java:45-47 | a single-line finding starts and ends on its line |
| Domain.ForLineAccepts | src/main/java/com/baskettecase/readmewrangler/domain/PolishingFinding.java:27-47 | forLine with a non-blank id and message and a line >= 0 is accepted, builds exactly that single-line finding, and the finding is valid |
| Domain.NewImprovements | src/main/java/com/baskettecase/readmewrangler/domain/ReadmeImprovements.java:27-29 | missing notes become the empty list, given notes are kept; the five flags are stored as given |
| Domain.EmptyImprovements | src/main/java/com/baskettecase/readmewrangler/domain/ReadmeImprovements.java:34-36 | no improvement is counted, visuals are off and there are no notes |
| Domain.CountBySeverity | src/main/java/com/baskettecase/readmewrangler/domain/ReadmeImprovements.java:41-45 | at most the number of notes; zero exactly when no note has the severity; the number of notes exactly when every note has it |
| Domain.CountsPartitionNotes | src/main/java/com/baskettecase/readmewrangler/domain/ReadmeImprovements.java:41-45 | the Info, Warn and Error counts add up to the number of notes |
| Domain.NewPatchBundle | src/main/java/com/baskettecase/readmewrangler/domain/PatchBundle.java:17-24 | a missing diff becomes "" and then has no changes; a missing summary becomes the empty summary; given values are kept |
| Domain.ImprovementCount | src/main/java/com/baskettecase/readmewrangler/domain/PatchBundle.java:36-41 | between 0 and 4; 0 exactly when none of the four counted flags is set, 4 exactly when all are |
| Domain.SummaryLine | src/main/java/com/baskettecase/readmewrangler/domain/PatchBundle.java:36-46 | the line ends in " findings" |
| Domain.SummaryLineDetermines | src/main/java/com/baskettecase/readmewrangler/domain/PatchBundle.java:36-46 | two bundles with the same summary line have the same improvement count and the same number of notes |
| Domain.SummaryFormatReadBack | src/main/java/com/baskettecase/readmewrangler/domain/PatchBundle.java:43-45 | "%d improvements, %d findings" is read back to the two numbers it was printed from |
| Domain.SummaryLineIgnoresVisuals | src/main/java/com/baskettecase/readmewrangler/domain/PatchBundle.java:37-41 | flipping enhancedVisuals never changes the summary line |
| Domain.NewRepoSnapshot | src/main/java/com/baskettecase/readmewrangler/domain/RepoSnapshot.java:24-33 | accepted exactly when a root is given, else the root error; missing lists become empty; a missing build system becomes Other; given values are kept |
| Headings.LineHeading | src/main/java/com/baskettecase/readmewrangler/tool/MarkdownLinterTool.java:21 | a matched line heading has level 1 to 6, and the line is longer than its hashes |
| Headings.LineHeadingMeaning | src/main/java/com/baskettecase/readmewrangler/tool/MarkdownLinterTool.java:83-86 | a match means the line is level hashes, one regex-space character and a rest whose trim is the title; a line of one to six hashes followed by a regex space always matches |
| Headings.LineHeadingRoundTrip | src/main/java/com/baskettecase/readmewrangler/tool/MarkdownLinterTool.java:21 | a heading written as hashes, a space and a trimmed title is matched back with that level and title |
| Headings.LeadingHashesShape | src/main/java/com/baskettecase/readmewrangler/tool/MarkdownLinterTool.java:21 | the leading hashes are a run of '#' that ends the line or stops at another character |
| Headings.NextContentLine | src/main/java/com/baskettecase/readmewrangler/tool/MarkdownLinterTool.java:21 | the first line from i on that holds something other than regex spaces; every line skipped holds only regex spaces |
| Headings.FindFrom | src/main/java/com/baskettecase/readmewrangler/tool/MarkdownLinterTool.java:109-113 | a find from line i reports a heading of level 1 to 6 and resumes strictly after i |
| Headings.HeadingsFrom | src/main/java/com/baskettecase/readmewrangler/tool/MarkdownLinterTool.java:109-113 | repeated finds report at most one heading per remaining line, each of level 1 to 6 |
| Headings.TextHeadings | src/main/java/com/baskettecase/readmewrangler/tool/MarkdownLinterTool.java:108-115 | at most one heading per line of the text, each of level 1 to 6 |
| Headings.FindAgreesWithLines | src/main/java/com/baskettecase/readmewrangler/tool/MarkdownLinterTool.java:83-85 | with no bare heading lines, finding over the whole text gives exactly the line-by-line matches, in order |
| Headings.FindSkipsLine | src/main/java/com/baskettecase/readmewrangler/tool/MarkdownLinterTool.java:109-113 | a line without one to six hashes, or whose hashes are followed by a character that is not a regex space, contributes no heading |
| Headings.TextHeadingsPerLine | src/main/java/com/baskettecase/readmewrangler/tool/MarkdownLinterTool.java:108-115 | a text with no bare heading lines has its find-headings equal to its per-line matches |
| Headings.BareLineMerges | src/main/java/com/baskettecase/readmewrangler/tool/MarkdownLinterTool.java:108-115 | "#" on its own line followed by "## Install" is found as one level-1 heading titled "## Install", because `\s+` runs across the line end |
| MarkdownLinter.FenceCount | src/main/java/com/baskettecase/readmewrangler/tool/MarkdownLinterTool.java:47-49 | at most the number of lines scanned |
| MarkdownLinter.InCodeBlockIsOddFenceCount | src/main/java/com/baskettecase/readmewrangler/tool/MarkdownLinterTool.java:46-67 | the in-code-block flag is set exactly when an odd number of fence lines have been seen |
| MarkdownLinter.FenceFindings | src/main/java/com/baskettecase/readmewrangler/tool/MarkdownLinterTool.java:42-71 | at most one finding per line scanned |
| MarkdownLinter.FenceFindingsSound | src/main/java/com/baskettecase/readmewrangler/tool/MarkdownLinterTool.java:47-66 | every fence finding is the Warn "missing-code-fence-language" finding on the 1-based line of an opening fence with an empty tag; findings come in line order |
| MarkdownLinter.FenceFindingsComplete | src/main/java/com/baskettecase/readmewrangler/tool/MarkdownLinterTool.java:47-66 | every opening fence with an empty tag is reported on its 1-based line |
| MarkdownLinter.ClosingFenceNotReported | src/main/java/com/baskettecase/readmewrangler/tool/MarkdownLinterTool.java:63-66 | a closing fence is never reported, whatever follows its backticks |
| MarkdownLinter.CheckCodeFences | src/main/java/com/baskettecase/readmewrangler/tool/MarkdownLinterTool.java:42-71 | the fence loop over content.split("\n") returns exactly the fence findings of all the lines |
| MarkdownLinter.HeadingFindings | src/main/java/com/baskettecase/readmewrangler/tool/MarkdownLinterTool.java:76-103 | at most one finding per line scanned |
| MarkdownLinter.HeadingFindingsSound | src/main/java/com/baskettecase/readmewrangler/tool/MarkdownLinterTool.java:80-99 | every heading finding is the Info "heading-skip-level" finding on a heading more than one level below the previous heading, naming both levels; findings come in line order |
| MarkdownLinter.LevelsUpTo | src/main/java/com/baskettecase/readmewrangler/tool/MarkdownLinterTool.java:83-86 | the heading levels seen so far are each between 1 and 6 |
| MarkdownLinter.PreviousLevelIsLastLevel | src/main/java/com/baskettecase/readmewrangler/tool/MarkdownLinterTool.java:80-98 | previousLevel is the level of the last heading line seen, or 0 before the first |
| MarkdownLinter.NoHeadingFindingsIffGradual | src/main/java/com/baskettecase/readmewrangler/tool/MarkdownLinterTool.java:80-99 | there are no heading findings exactly when no heading is more than one level below the heading before it |
| MarkdownLinter.HeadingFindingsEmptyStep | src/main/java/com/baskettecase/readmewrangler/tool/MarkdownLinterTool.java:81-99 | the findings stay empty after a line exactly when they were empty before it and that line skips no level |
| MarkdownLinter.CheckHeadings | src/main/java/com/baskettecase/readmewrangler/tool/MarkdownLinterTool.java:76-103 | the heading loop over content.split("\n") returns exactly the heading findings of all the lines |
| MarkdownLinter.LiteralsNotBlank | src/main/java/com/baskettecase/readmewrangler/tool/MarkdownLinterTool.java:54-95 | the tool's ids and messages are not blank, so every forLine call it makes is accepted |
| MarkdownLinter.Lint | src/main/java/com/baskettecase/readmewrangler/tool/MarkdownLinterTool.java:30-37 | all fence findings come before all heading findings; every finding is a valid record on a line >= 1 |
| MarkdownLinter.CountHeadings | src/main/java/com/baskettecase/readmewrangler/tool/MarkdownLinterTool.java:108-115 | the count is the number of successful finds of the heading pattern over the whole text |
| MarkdownLinter.UntaggedFenceExample | src/test/java/com/baskettecase/readmewrangler/tool/MarkdownLinterToolTest.java:21-35 | a bare fence after a title is reported once, as a Warn on line 3 |
| MarkdownLinter.SkippedLevelExample | src/test/java/com/baskettecase/readmewrangler/tool/MarkdownLinterToolTest.java:57-69 | "# Title" then "### Skipped level" is reported as a skip from level 1 to level 3 on line 3 |
| TextRewrite.InferLanguage | src/main/java/com/baskettecase/readmewrangler/tool/TextRewriteTool.java:46-49 | past the last line the default tag is returned |
| TextRewrite.InferLanguageFirstRule | src/main/java/com/baskettecase/readmewrangler/tool/TextRewriteTool.java:51-73 | the tag is that of the first rule the trimmed next line satisfies, in the order bash, java, yaml, xml; it is the default when no rule matches |
| TextRewrite.FixedLines | src/main/java/com/baskettecase/readmewrangler/tool/TextRewriteTool.java:28-38 | one output line per input line |
| TextRewrite.FixCodeFences | src/main/java/com/baskettecase/readmewrangler/tool/TextRewriteTool.java:24-41 | the StringBuilder loop over content.split("\n", -1) returns the fixed lines, each followed by a line break, trimmed |
| TextRewrite.FixCodeFencesNotIdempotent | src/main/java/com/baskettecase/readmewrangler/tool/TextRewriteTool.java:24-41 | fixCodeFences is not idempotent: the line test needs the backticks in column 0 and the final trim removes an indent, so "  ```\nx" gives "```\nx", which a second run tags as "```text\nx" |
| TextRewrite.InferredTagNotBlank | src/main/java/com/baskettecase/readmewrangler/tool/TextRewriteTool.java:46-74 | with a non-blank default every inferred tag is non-blank after trimming |
| TextRewrite.FixedLinesHaveNoBareFence | src/main/java/com/baskettecase/readmewrangler/tool/TextRewriteTool.java:31-34 | with a non-blank default no bare fence line is left among the fixed lines |
| TextRewrite.ClosingFenceTagged | src/main/java/com/baskettecase/readmewrangler/tool/TextRewriteTool.java:31 | there is no open/close tracking: the fence before "./mvnw test" becomes bash and the closing fence gets the default "text" |
| TextRewrite.SetextLines | src/main/java/com/baskettecase/readmewrangler/tool/TextRewriteTool.java:87-90 | a replaceAll pass never adds lines |
| TextRewrite.SetextLinesUnchangedIff | src/main/java/com/baskettecase/readmewrangler/tool/TextRewriteTool.java:87-90 | a pass leaves the lines as they are exactly when no non-empty line has an underline of two or more of the character below it |
| TextRewrite.NormalizeHeadingsWithoutSetext | src/main/java/com/baskettecase/readmewrangler/tool/TextRewriteTool.java:82-93 | a text with no setext pair of either kind is returned unchanged |
| TextRewrite.LinesOfJoin | src/main/java/com/baskettecase/readmewrangler/tool/TextRewriteTool.java:87 | splitting a join of lines without line breaks gives the lines back |
| TextRewrite.SetextMerge | src/main/java/com/baskettecase/readmewrangler/tool/TextRewriteTool.java:87-90 | a non-empty line followed by an underline becomes prefix + line, and the underline goes |
| TextRewrite.SetextKeep | src/main/java/com/baskettecase/readmewrangler/tool/TextRewriteTool.java:87-90 | a line that is empty, or has no underline below it, is kept as it is |
| TextRewrite.SetextExample | src/test/java/com/baskettecase/readmewrangler/tool/TextRewriteToolTest.java:41-55 | "Title" over "===" and "Subtitle" over "---" become "# Title" and "## Subtitle" |
| TextRewrite.SetextExampleFirstPass | src/main/java/com/baskettecase/readmewrangler/tool/TextRewriteTool.java:87 | the '=' pass runs first and leaves the '-' pair for the second pass |
| TextRewrite.SetextNotIdempotent | src/main/java/com/baskettecase/readmewrangler/tool/TextRewriteTool.java:87 | a line underlined twice gains a second "# " on a second run: the rewrite is not idempotent |
| TextRewrite.StripLines | src/main/java/com/baskettecase/readmewrangler/tool/TextRewriteTool.java:101-103 | each line is stripped on its own |
| TextRewrite.StripTrailingBlanksShape | src/main/java/com/baskettecase/readmewrangler/tool/TextRewriteTool.java:102 | stripping removes a run of spaces and tabs from the end and leaves a line that does not end in one |
| TextRewrite.StripAppendBlanks | src/main/java/com/baskettecase/readmewrangler/tool/TextRewriteTool.java:102 | a line with spaces and tabs appended strips back to the line |
| TextRewrite.RemoveTrailingWhitespaceLines | src/main/java/com/baskettecase/readmewrangler/tool/TextRewriteTool.java:101-103 | every line break is kept; each line loses its trailing spaces and tabs |
| TextRewrite.RemoveTrailingWhitespaceIdempotent | src/main/java/com/baskettecase/readmewrangler/tool/TextRewriteTool.java:101-103 | a second run changes nothing |
| TextRewrite.RemoveTrailingWhitespaceExample | src/test/java/com/baskettecase/readmewrangler/tool/TextRewriteToolTest.java:57-65 | the two lines of the test lose their trailing spaces |
| TextRewrite.ExampleStripped | src/test/java/com/baskettecase/readmewrangler/tool/TextRewriteToolTest.java:57-65 | the test's lines, stripped one by one |
| TextRewrite.NormalizeLineEndingsDropsCr | src/main/java/com/baskettecase/readmewrangler/tool/TextRewriteTool.java:111-113 | exactly the carriage returns directly before a line feed are deleted; every other character is kept in order |
| TextRewrite.KeptCharsShift | src/main/java/com/baskettecase/readmewrangler/tool/TextRewriteTool.java:112 | the scan moves past one character, or past a whole CRLF pair that it turns into a line feed |
| TextRewrite.KeptCharsSuffix | src/main/java/com/baskettecase/readmewrangler/tool/TextRewriteTool.java:112 | the scan from an offset depends only on the text from there on |
| TextRewrite.NormalizeLineEndingsOnLf | src/main/java/com/baskettecase/readmewrangler/tool/TextRewriteTool.java:111-113 | a text with no CRLF pair is returned unchanged |
| TextRewrite.NormalizeLineEndingsNotIdempotent | src/main/java/com/baskettecase/readmewrangler/tool/TextRewriteTool.java:112 | "\r\r\n" becomes "\r\n", which a second run turns into "\n" |
| Toc.DropRegexSpaces | src/main/java/com/baskettecase/readmewrangler/tool/TocTool.java:74 | the result is a suffix that does not start with a regex space, and strictly shorter when the input did |
| Toc.DropDashes | src/main/java/com/baskettecase/readmewrangler/tool/TocTool.java:75 | the result is a suffix that does not start with a dash, and strictly shorter when the input did |
| Toc.KeepAnchorSourceShape | src/main/java/com/baskettecase/readmewrangler/tool/TocTool.java:72-73 | after lower-casing and the filter only a-z, 0-9, regex spaces and dashes are left |
| Toc.SpaceRunsToDashShape | src/main/java/com/baskettecase/readmewrangler/tool/TocTool.java:74 | once the blanks become dashes only a-z, 0-9 and dashes are left |
| Toc.CollapseDashesShape | src/main/java/com/baskettecase/readmewrangler/tool/TocTool.java:75 | collapsing keeps those characters, leaves no two dashes in a row, and keeps a leading dash exactly when there was one |
| Toc.CreateAnchorShape | src/main/java/com/baskettecase/readmewrangler/tool/TocTool.java:71-77 | every anchor holds only a-z, 0-9 and dashes, never two dashes in a row, and neither starts nor ends with a dash |
| Toc.TocHeadingShift | src/main/java/com/baskettecase/readmewrangler/tool/TocTool.java:82-84 | a marker found inside a piece of text is found in any text containing that piece |
| Toc.TocHeadingSlice | src/main/java/com/baskettecase/readmewrangler/tool/TocTool.java:82-84 | a marker lying within a slice is found in that slice |
| Toc.TocTitleIsMarker | src/main/java/com/baskettecase/readmewrangler/tool/TocTool.java:51 | a text starting with "## Table of Contents" matches the marker at its start |
| Toc.EntryOf | src/main/java/com/baskettecase/readmewrangler/tool/TocTool.java:29-37 | a heading gives at most one entry |
| Toc.TocEntries | src/main/java/com/baskettecase/readmewrangler/tool/TocTool.java:26-38 | at most one entry per heading |
| Toc.BuildTocMarkdown | src/main/java/com/baskettecase/readmewrangler/tool/TocTool.java:46-66 | the StringBuilder loop gives "" for no entries, else "## Table of Contents", a blank line and one "- [title](#anchor)" line per entry, indented two spaces per level below 1 |
| Toc.EntryBlockSnoc | src/main/java/com/baskettecase/readmewrangler/tool/TocTool.java:53-63 | each loop turn appends one entry line and its line break |
| Toc.TocEntriesLevels | src/main/java/com/baskettecase/readmewrangler/tool/TocTool.java:54 | every entry's level is at least 1, so the indent is never negative |
| Toc.CollectStep | src/main/java/com/baskettecase/readmewrangler/tool/TocTool.java:29-38 | one find() turn adds the entry of the heading just found and continues after it |
| Toc.CollectTocEntries | src/main/java/com/baskettecase/readmewrangler/tool/TocTool.java:26-38 | the find() loop collects one entry per heading, in text order, skipping headings titled "Table of Contents" in any case |
| Toc.GenerateToc | src/main/java/com/baskettecase/readmewrangler/tool/TocTool.java:25-41 | the table of the entries the find() loop collects |
| Toc.TocEntriesEmptyIff | src/main/java/com/baskettecase/readmewrangler/tool/TocTool.java:33-37 | there are no entries exactly when every heading is titled "Table of Contents" in some case |
| Toc.GeneratedTocEmptyIff | src/main/java/com/baskettecase/readmewrangler/tool/TocTool.java:25-49 | generateToc gives "" exactly when every heading of the text is a table-of-contents heading |
| Toc.GeneratedTocHasToc | src/main/java/com/baskettecase/readmewrangler/tool/TocTool.java:51 | a non-empty table starts with its title and is recognised by hasToc |
| Toc.FirstHashLine | src/main/java/com/baskettecase/readmewrangler/tool/TocTool.java:98 | the first line starting with '#': no earlier line starts with '#', and there is none when the index is past the end |
| Toc.InsertToc | src/main/java/com/baskettecase/readmewrangler/tool/TocTool.java:89-110 | the loop copies every line and adds "\n" + toc + "\n" after the first line starting with '#', then trims; with no such line it returns toc, a blank line and the text |
| Toc.TerminatedPrefixSnoc | src/main/java/com/baskettecase/readmewrangler/tool/TocTool.java:95 | each loop turn appends the line and a line break |
| Toc.WithBlockAfterStart | src/main/java/com/baskettecase/readmewrangler/tool/TocTool.java:95-101 | at the first '#' line the block follows that line's break |
| Toc.WithBlockAfterSnoc | src/main/java/com/baskettecase/readmewrangler/tool/TocTool.java:94-95 | after the block each later line is copied with its line break |
| Toc.InsertTocKeepsText | src/main/java/com/baskettecase/readmewrangler/tool/TocTool.java:94-102 | taking the inserted block out leaves the original text plus one line break |
| Toc.InsertedTocHasToc | src/main/java/com/baskettecase/readmewrangler/tool/TocTool.java:89-110 | after a table that starts with its title is inserted, hasToc holds, so the table is never inserted twice |
| Toc.MarkerSurvivesTrim | src/main/java/com/baskettecase/readmewrangler/tool/TocTool.java:109 | trimming cannot cut into a table title inside the text |
| Toc.TitleNotTrimmable | src/main/java/com/baskettecase/readmewrangler/tool/TocTool.java:109 | the first and last characters of the title are not trimmed away |
| Badges.ShieldsBadgeShape | src/main/java/com/baskettecase/readmewrangler/tool/BadgeTool.java:32-45 | every badge image starts with "![" and names shields.io |
| Badges.LicenseOfTextFirstPhrase | src/main/java/com/baskettecase/readmewrangler/tool/BadgeTool.java:78-95 | the license is the first in the order Apache, MIT, GPL-3.0, LGPL, BSD whose phrase the lowered text contains; no earlier phrase occurs; Custom otherwise |
| Badges.FirstExisting | src/main/java/com/baskettecase/readmewrangler/tool/BadgeTool.java:63-70 | the first candidate that exists; none exists when there is no result |
| Badges.DetectLicense | src/main/java/com/baskettecase/readmewrangler/tool/BadgeTool.java:58-96 | the candidate loop with its early break, then the phrase chain; an unreadable file is Custom |
| Badges.DetectedLicenseNoneIff | src/main/java/com/baskettecase/readmewrangler/tool/BadgeTool.java:58-74 | there is no license exactly when there is no directory or none of LICENSE, LICENSE.txt, LICENSE.md, COPYING exists |
| Badges.DetectedLicenseLabel | src/main/java/com/baskettecase/readmewrangler/tool/BadgeTool.java:80-95 | a detected license is one of the six labels |
| Badges.BadgeList | src/main/java/com/baskettecase/readmewrangler/tool/BadgeTool.java:28-46 | at most three badges |
| Badges.GenerateBadgeSection | src/main/java/com/baskettecase/readmewrangler/tool/BadgeTool.java:27-53 | the badges build, JDK, license in that order, joined by one space and followed by two line breaks, or "" when there are none |
| Badges.BadgeSectionEmptyIff | src/main/java/com/baskettecase/readmewrangler/tool/BadgeTool.java:30-50 | the section is empty exactly when the build is neither Maven nor Gradle, the JDK version is null or blank, and no license is found |
| Badges.StartsWithBadge | src/main/java/com/baskettecase/readmewrangler/tool/BadgeTool.java:101-103 | a text starting with a badge image is recognised by hasBadges |
| Badges.FirstBadge | src/main/java/com/baskettecase/readmewrangler/tool/BadgeTool.java:28-46 | the first badge of a non-empty list is a shields.io image |
| Badges.BadgeSectionHasBadges | src/main/java/com/baskettecase/readmewrangler/tool/BadgeTool.java:27-103 | a non-empty section is recognised by hasBadges, so the pipeline never adds a second row |
| Badges.BadgeAltLetters | src/main/java/com/baskettecase/readmewrangler/tool/BadgeTool.java:32-45 | the four badge kinds differ in the first letter of their alt text |
| Badges.BuildBadgeIff | src/main/java/com/baskettecase/readmewrangler/tool/BadgeTool.java:30-35 | a build badge is in the list exactly when the build system is Maven or Gradle |
| Badges.JdkBadgeIff | src/main/java/com/baskettecase/readmewrangler/tool/BadgeTool.java:37-40 | a JDK badge is in the list exactly when jdkVersion is neither null nor blank, and it is the badge for that version |
| Visual.SectionIconsWellFormed | src/main/java/com/baskettecase/readmewrangler/tool/VisualEnhancementTool.java:20-93 | the keyword table has no empty keyword and every icon starts with an emoji |
| Visual.FindIconInMeaning | src/main/java/com/baskettecase/readmewrangler/tool/VisualEnhancementTool.java:148-159 | an icon is found exactly when the lower-cased title contains a keyword; it is the icon of the first such keyword tried |
| Visual.IconHeadingReadBack | src/main/java/com/baskettecase/readmewrangler/tool/VisualEnhancementTool.java:139 | a rewritten heading reads back with the same level and the icon in front of the title, which now holds an emoji |
| Visual.AddIconToHeadingMeaning | src/main/java/com/baskettecase/readmewrangler/tool/VisualEnhancementTool.java:120-143 | a heading changes exactly when it matches the heading pattern, its title has no emoji and contains a keyword; it then becomes hashes, space, that keyword's icon, space, title |
| Visual.AddIconToHeadingIdempotent | src/main/java/com/baskettecase/readmewrangler/tool/VisualEnhancementTool.java:120-143 | adding an icon to a line twice gives the same line as adding it once |
| Visual.IconLines | src/main/java/com/baskettecase/readmewrangler/tool/VisualEnhancementTool.java:105-112 | one output line per input line |
| Visual.AddIconsToHeadingsWith | src/main/java/com/baskettecase/readmewrangler/tool/VisualEnhancementTool.java:101-115 | the loop over content.split("\n", -1) offers each line whose trim starts with '#' to addIconToHeading, keeps the others, and trims the joined text |
| Visual.AddIconsToHeadings | src/main/java/com/baskettecase/readmewrangler/tool/VisualEnhancementTool.java:101-115 | addIconsToHeadings with the tool's own keyword table |
| Visual.IconLineIsAddIcon | src/main/java/com/baskettecase/readmewrangler/tool/VisualEnhancementTool.java:106-110 | the '#' guard never hides a heading: every line is treated as addIconToHeading treats it |
| Visual.IconLinesUnchanged | src/main/java/com/baskettecase/readmewrangler/tool/VisualEnhancementTool.java:105-112 | when no line gains an icon the lines are unchanged |
| Visual.IconTextUnchanged | src/main/java/com/baskettecase/readmewrangler/tool/VisualEnhancementTool.java:101-115 | when no line gains an icon the text comes back trimmed and otherwise unchanged |
| Visual.DividedStep | src/main/java/com/baskettecase/readmewrangler/tool/VisualEnhancementTool.java:203-216 | each loop turn appends the divider when one is needed, then the line and a line break |
| Visual.AddSectionDividers | src/main/java/com/baskettecase/readmewrangler/tool/VisualEnhancementTool.java:197-219 | the loop puts "\n---\n\n" before each line that needs a divider and trims the joined text |
| Visual.DividerCount | src/main/java/com/baskettecase/readmewrangler/tool/VisualEnhancementTool.java:207-211 | at most one divider per line |
| Visual.DividedLinesLength | src/main/java/com/baskettecase/readmewrangler/tool/VisualEnhancementTool.java:207-214 | each divider adds three lines |
| Visual.DividedLinesPrefix | src/main/java/com/baskettecase/readmewrangler/tool/VisualEnhancementTool.java:203-216 | scanning more lines only extends the output |
| Visual.DividedLinesAt | src/main/java/com/baskettecase/readmewrangler/tool/VisualEnhancementTool.java:203-216 | every input line is kept in order, and a line that needs a divider has the blank, "---", blank block right before it |
| Visual.DividerOnlyBeforeLevelTwo | src/main/java/com/baskettecase/readmewrangler/tool/VisualEnhancementTool.java:207 | only a line whose trim opens a level-two heading gets a divider |
| Visual.DividerRepeats | src/main/java/com/baskettecase/readmewrangler/tool/VisualEnhancementTool.java:207-210 | a second pass divides again, because the block ends in a blank line and only the line right before the heading is checked for "---" |
| Visual.CalloutsWellFormed | src/main/java/com/baskettecase/readmewrangler/tool/VisualEnhancementTool.java:226-233 | the call-out words and icons are non-empty, hold no line break, and start with a call-out letter and an icon character |
| Visual.EmphasizedLines | src/main/java/com/baskettecase/readmewrangler/tool/VisualEnhancementTool.java:224-236 | one output line per input line, each emphasised on its own |
| Visual.BoldFromShape | src/main/java/com/baskettecase/readmewrangler/tool/VisualEnhancementTool.java:226 | bolding leaves a line alone or makes it start with '*'; a line not starting with I, N, W or T is left alone |
| Visual.IconStepShape | src/main/java/com/baskettecase/readmewrangler/tool/VisualEnhancementTool.java:229-233 | an icon pass leaves a line alone or rewrites a line starting with '*' to start with the icon |
| Visual.IconsFromShape | src/main/java/com/baskettecase/readmewrangler/tool/VisualEnhancementTool.java:229-233 | the icon passes leave a line alone or make it start with a call-out icon |
| Visual.IconsFromUnchanged | src/main/java/com/baskettecase/readmewrangler/tool/VisualEnhancementTool.java:229-233 | a line not starting with '*' passes the icon passes unchanged |
| Visual.IconsFromNoNewline | src/main/java/com/baskettecase/readmewrangler/tool/VisualEnhancementTool.java:229-233 | the passes never add a line break |
| Visual.EmphasizeLineUnchanged | src/main/java/com/baskettecase/readmewrangler/tool/VisualEnhancementTool.java:224-236 | a line starting with none of I, N, W, T or '*' is left alone |
| Visual.CalloutWordsDiffer | src/main/java/com/baskettecase/readmewrangler/tool/VisualEnhancementTool.java:226 | no two call-out words share their first two letters |
| Visual.BoldFromAt | src/main/java/com/baskettecase/readmewrangler/tool/VisualEnhancementTool.java:226 | a line starting with a call-out word gets that word in bold |
| Visual.IconsFromAt | src/main/java/com/baskettecase/readmewrangler/tool/VisualEnhancementTool.java:229-233 | a line starting with a bold call-out word gets that word's icon |
| Visual.CalloutLine | src/main/java/com/baskettecase/readmewrangler/tool/VisualEnhancementTool.java:224-236 | a line starting with a call-out word becomes icon, space, the bold word, then the rest of the line |
| Visual.EmphasizeLineIdempotent | src/main/java/com/baskettecase/readmewrangler/tool/VisualEnhancementTool.java:224-236 | emphasising a line twice gives what emphasising it once gives |
| Visual.EmphasizeKeyPhrasesLines | src/main/java/com/baskettecase/readmewrangler/tool/VisualEnhancementTool.java:224-236 | the rewrite keeps every line break and works line by line |
| Visual.EmphasizeKeyPhrasesIdempotent | src/main/java/com/baskettecase/readmewrangler/tool/VisualEnhancementTool.java:224-236 | emphasising the whole text a second time changes nothing |
| Visual.EnhanceVisualHierarchy | src/main/java/com/baskettecase/readmewrangler/tool/VisualEnhancementTool.java:184-192 | dividers first, then call-outs |
| Visual.SubHeadings | src/main/java/com/baskettecase/readmewrangler/tool/VisualEnhancementTool.java:246-254 | at most one counted heading per line |
| Visual.NeedsVisualEnhancement | src/main/java/com/baskettecase/readmewrangler/tool/VisualEnhancementTool.java:241-263 | true exactly when there is at least one heading of level two or deeper and fewer than 30% of them carry an emoji |
| Visual.SubHeadingsWithIconAtMost | src/main/java/com/baskettecase/readmewrangler/tool/VisualEnhancementTool.java:248-252 | the headings with an emoji are among the headings counted |
| Visual.BareSubHeading | src/main/java/com/baskettecase/readmewrangler/tool/VisualEnhancementTool.java:248-252 | when fewer headings carry an emoji than are counted, one of them carries none |
| Visual.NoBareSubHeading | src/main/java/com/baskettecase/readmewrangler/tool/VisualEnhancementTool.java:248-252 | when every counted heading carries an emoji, the two counts agree |
| Visual.NeedsVisualMeaning | src/main/java/com/baskettecase/readmewrangler/tool/VisualEnhancementTool.java:241-263 | enhancement is asked for only when some level-two-or-deeper heading lacks an emoji; never when all have one or there are none; always when there are some and none has one |
| Visual.GetVisualStats | src/main/java/com/baskettecase/readmewrangler/tool/VisualEnhancementTool.java:268-295 | the loop over content.split("\n") computes the four counters of the lines |
| Visual.StatsBounds | src/main/java/com/baskettecase/readmewrangler/tool/VisualEnhancementTool.java:275-292 | headings with icons are among the headings; a divider line is never a heading, so headings plus dividers is at most the number of lines; emphasis count is at most the number of lines |
| PatchBuilder.ContainsLine | src/main/java/com/baskettecase/readmewrangler/tool/PatchBuilderTool.java:90-97 | the linear search finds the target exactly when it is one of the lines |
| PatchBuilder.Absent | src/main/java/com/baskettecase/readmewrangler/tool/PatchBuilderTool.java:63-67 | at most as many lines as the text it filters |
| PatchBuilder.Common | src/main/java/com/baskettecase/readmewrangler/tool/PatchBuilderTool.java:78-82 | at most one context line per position scanned |
| PatchBuilder.AbsentSnoc | src/main/java/com/baskettecase/readmewrangler/tool/PatchBuilderTool.java:63-67 | each loop turn adds the line exactly when the other text lacks it |
| PatchBuilder.BlockSnoc | src/main/java/com/baskettecase/readmewrangler/tool/PatchBuilderTool.java:63-82 | each appended line carries its marker and a line break |
| PatchBuilder.AbsentBlockStep | src/main/java/com/baskettecase/readmewrangler/tool/PatchBuilderTool.java:63-74 | one turn of a section loop appends the marked line exactly when the other text lacks it |
| PatchBuilder.CommonBlockStep | src/main/java/com/baskettecase/readmewrangler/tool/PatchBuilderTool.java:78-82 | one turn of the context loop appends the line exactly when both texts hold it at that position |
| PatchBuilder.CreateSimpleDiff | src/main/java/com/baskettecase/readmewrangler/tool/PatchBuilderTool.java:55-85 | the hunk line "@@ -1,n +1,m @@", then the removed lines, the added lines and up to three shared leading lines, from one StringBuilder |
| PatchBuilder.CreateUnifiedDiff | src/main/java/com/baskettecase/readmewrangler/tool/PatchBuilderTool.java:30-49 | "" for equal texts, else the two header lines with the file name ("unknown" when there is no path) and the timestamp, then the simple diff of the split lines |
| PatchBuilder.AbsentMeaning | src/main/java/com/baskettecase/readmewrangler/tool/PatchBuilderTool.java:63-74 | a line is listed exactly when it is in its own text and not in the other |
| PatchBuilder.AbsentEmpty | src/main/java/com/baskettecase/readmewrangler/tool/PatchBuilderTool.java:63-74 | nothing is listed exactly when every line occurs in the other text |
| PatchBuilder.AbsentAll | src/main/java/com/baskettecase/readmewrangler/tool/PatchBuilderTool.java:63-74 | every line is listed, in order, when none occurs in the other text |
| PatchBuilder.CommonMeaning | src/main/java/com/baskettecase/readmewrangler/tool/PatchBuilderTool.java:78-82 | a context line is a line both texts hold at the same position among the first three |
| PatchBuilder.UnifiedDiffShape | src/main/java/com/baskettecase/readmewrangler/tool/PatchBuilderTool.java:30-49 | the diff is empty exactly when the texts are equal, and otherwise starts with the header |
| PatchBuilder.DigitsThenCounts | src/main/java/com/baskettecase/readmewrangler/tool/PatchBuilderTool.java:58-60 | the two counts of the hunk line are read back apart |
| PatchBuilder.HunkLineSplit | src/main/java/com/baskettecase/readmewrangler/tool/PatchBuilderTool.java:58-60 | after "@@ -1," comes the first count, then " +1,", the second count and " @@" |
| PatchBuilder.HunkLineInjective | src/main/java/com/baskettecase/readmewrangler/tool/PatchBuilderTool.java:58-60 | the hunk line records both line counts: different counts give different hunk lines |
| PatchBuilder.LinesDiffer | src/main/java/com/baskettecase/readmewrangler/tool/PatchBuilderTool.java:42-43 | different texts always split into different line arrays |
| PatchBuilder.AppendOnlyDiff | src/main/java/com/baskettecase/readmewrangler/tool/PatchBuilderTool.java:63-74 | appending new lines to a text lists nothing as removed and exactly the new lines as added |
| PatchBuilder.AbsentAppend | src/main/java/com/baskettecase/readmewrangler/tool/PatchBuilderTool.java:63-67 | the filter distributes over concatenation |
| RepoScanner.DetectBuildSystemOrder | src/main/java/com/baskettecase/readmewrangler/tool/RepoScannerTool.java:50-63 | Maven exactly when pom.xml or mvnw is present; Gradle exactly when no Maven marker but a Gradle marker is; Makefile exactly when only a Makefile is; Other exactly when no marker is present |
| RepoScanner.DetectBuildSystemMarkersOnly | src/main/java/com/baskettecase/readmewrangler/tool/RepoScannerTool.java:50-63 | files other than the six marker names never change the answer |
| RepoScanner.IgnoredPathMeaning | src/main/java/com/baskettecase/readmewrangler/tool/RepoScannerTool.java:118-128 | a relative path is ignored exactly when one of node_modules, .git, target, build, .idea, .vscode occurs in it |
| RepoScanner.IgnoredPathWithin | src/main/java/com/baskettecase/readmewrangler/tool/RepoScannerTool.java:118-128 | any path that embeds an ignored path is ignored too |
| RepoScanner.GithubFolderIgnored | src/main/java/com/baskettecase/readmewrangler/tool/RepoScannerTool.java:123 | the test is on substrings, so everything under .github is ignored |
| RepoScanner.MarkdownFiles | src/main/java/com/baskettecase/readmewrangler/tool/RepoScannerTool.java:68-82 | at most as many files as the walk visits |
| RepoScanner.FindMarkdownFiles | src/main/java/com/baskettecase/readmewrangler/tool/RepoScannerTool.java:68-82 | the pass over the walked regular files keeps, in walk order, those with a ".md" name in any case outside ignored paths |
| RepoScanner.MarkdownFilesMeaning | src/main/java/com/baskettecase/readmewrangler/tool/RepoScannerTool.java:72-78 | a file is kept exactly when it was walked and passes both filters |
| RepoScanner.MarkdownNameIgnoresCase | src/main/java/com/baskettecase/readmewrangler/tool/RepoScannerTool.java:74-75 | a name ending in ".MD" is kept like one ending in ".md" |
| RepoScanner.SnippetShape | src/main/java/com/baskettecase/readmewrangler/tool/RepoScannerTool.java:136-175 | every snippet opens with "## How to Run Tests" and an empty line, then a bash fence holding the build system's commands |
| RepoScanner.SnippetWrapperCommands | src/main/java/com/baskettecase/readmewrangler/tool/RepoScannerTool.java:138-159 | the Maven snippet runs "./mvnw test" and the Gradle snippet runs "./gradlew test" |
| RepoScanner.SnippetsDiffer | src/main/java/com/baskettecase/readmewrangler/tool/RepoScannerTool.java:136-175 | each build system gets its own snippet |
| RepoScanner.NeedsTestSectionCaseBlind | src/main/java/com/baskettecase/readmewrangler/tool/RepoScannerTool.java:183-188 | a text mentioning "run test", "running test" or "test command" in any capitalisation needs no test section |
| RepoScanner.HeadingMentionsRunTest | src/main/java/com/baskettecase/readmewrangler/tool/RepoScannerTool.java:139 | the snippet heading holds "Run Test" |
| RepoScanner.LowerRunTest | src/main/java/com/baskettecase/readmewrangler/tool/RepoScannerTool.java:184-185 | "Run Test" lower-cases to "run test" |
| RepoScanner.SnippetSatisfiesTestSection | src/main/java/com/baskettecase/readmewrangler/tool/RepoScannerTool.java:136-188 | once a snippet is in the text no further test section is asked for |
| SectionNames.FileNameToSectionName | src/main/java/com/baskettecase/readmewrangler/tool/DocConsolidationTool.java:111-128 | the replace-split-title-case loop yields the section name function's value |
| SectionNames.Capitals | src/main/java/com/baskettecase/readmewrangler/tool/DocConsolidationTool.java:120-126 | at most one capitalised word per split word |
| SectionNames.TitleCaseIsJoin | src/main/java/com/baskettecase/readmewrangler/tool/DocConsolidationTool.java:119-127 | the loop's text is the capitalised non-empty words joined by single spaces, plus one trailing space |
| SectionNames.CapitalsTrailingEmpty | src/main/java/com/baskettecase/readmewrangler/tool/DocConsolidationTool.java:118 | trailing empty words, which a split without limit drops, add no capital |
| SectionNames.CapitalisedIsTitleWord | src/main/java/com/baskettecase/readmewrangler/tool/DocConsolidationTool.java:122-123 | a capitalised word starts upper-case and continues lower-case |
| SectionNames.CapitalsAreTitleWords | src/main/java/com/baskettecase/readmewrangler/tool/DocConsolidationTool.java:120-126 | words free of spaces and control characters give title words only |
| SectionNames.TitleWordsShape | src/main/java/com/baskettecase/readmewrangler/tool/DocConsolidationTool.java:111-128 | a file name without control characters gives title words only |
| SectionNames.JoinedTitleWords | src/main/java/com/baskettecase/readmewrangler/tool/DocConsolidationTool.java:127 | trimming the loop's text removes exactly its trailing space, and splitting the result at spaces gives the words back |
| SectionNames.SectionNameWords | src/main/java/com/baskettecase/readmewrangler/tool/DocConsolidationTool.java:111-128 | the section name of GETTING_STARTED.md-like names is its title words joined by single spaces: no leading, trailing or doubled space, and empty only when there are no words |
| SectionNames.SectionNameOfWords | src/main/java/com/baskettecase/readmewrangler/tool/DocConsolidationTool.java:111-128 | a file name whose replaced form is words joined by single spaces is named by those words, capitalised and joined by single spaces |
| SectionNames.SpacedStem | src/main/java/com/baskettecase/readmewrangler/tool/DocConsolidationTool.java:112-115 | a stem without '.', '_' or '-' comes out of the four replace calls as itself once its ".md" is gone |
| SectionNames.SectionNameSetup | src/test/java/com/baskettecase/readmewrangler/tool/DocConsolidationToolTest.java:131-139 | SETUP.md is named "Setup" |
| SectionNames.RunEnd | src/main/java/com/baskettecase/readmewrangler/tool/DocConsolidationTool.java:56 | the end of a run of characters matched by [^a-z0-9]+ lies after its start and stops at a letter, a digit or the end |
| SectionNames.RunEndStopsAtAnchor | src/main/java/com/baskettecase/readmewrangler/tool/DocConsolidationTool.java:56 | a run ends at a letter, a digit or the end of the text |
| SectionNames.DashRunsShape | src/main/java/com/baskettecase/readmewrangler/tool/DocConsolidationTool.java:56 | the anchor holds only lower-case letters, digits and dashes, never two dashes in a row |
| SectionNames.DashRunsKeepsAnchorText | src/main/java/com/baskettecase/readmewrangler/tool/DocConsolidationTool.java:56 | letters and digits pass through the replacement unchanged |
| SectionNames.DashRunsSpace | src/main/java/com/baskettecase/readmewrangler/tool/DocConsolidationTool.java:56 | a space before a letter or digit becomes one dash |
| SectionNames.AnchorStep | src/main/java/com/baskettecase/readmewrangler/tool/DocConsolidationTool.java:56 | one word, a space and the rest give the word lower-cased, a dash and the rest's anchor |
| SectionNames.AnchorOfWords | src/main/java/com/baskettecase/readmewrangler/tool/DocConsolidationTool.java:55-57 | the anchor of words joined by spaces is the words lower-cased and joined by dashes |
| SectionNames.TocAnchorSetup | src/test/java/com/baskettecase/readmewrangler/tool/DocConsolidationToolTest.java:131-139 | "Setup" gets the anchor setup, so SETUP.md is listed as [Setup](#setup) |
| SectionNames.TocAnchorGettingStarted | src/main/java/com/baskettecase/readmewrangler/tool/DocConsolidationTool.java:55-57 | "Getting Started" gets the anchor getting-started |
| DocConsolidation.SkipBlankLines | src/main/java/com/baskettecase/readmewrangler/tool/DocConsolidationTool.java:137-140 | the first non-blank line at or after the start, with only blank lines skipped |
| DocConsolidation.RemoveTopLevelHeading | src/main/java/com/baskettecase/readmewrangler/tool/DocConsolidationTool.java:133-144 | the loop's result is the top-heading removal function's value |
| DocConsolidation.SplitDropJoin | src/main/java/com/baskettecase/readmewrangler/tool/DocConsolidationTool.java:134-141 | lines without newlines joined by newlines split back into the same lines |
| DocConsolidation.WithoutTopHeadingLines | src/main/java/com/baskettecase/readmewrangler/tool/DocConsolidationTool.java:133-144 | after a first line that trims to "# ..." the text keeps exactly the lines past it and past the blank lines that follow; any other text is returned unchanged |
| DocConsolidation.Kept | src/main/java/com/baskettecase/readmewrangler/tool/DocConsolidationTool.java:150-162 | no more paragraphs are kept than were split off |
| DocConsolidation.SeenKeysSnoc | src/main/java/com/baskettecase/readmewrangler/tool/DocConsolidationTool.java:154-160 | one more paragraph adds its key to the seen set exactly when that key is not empty |
| DocConsolidation.DeduplicateSections | src/main/java/com/baskettecase/readmewrangler/tool/DocConsolidationTool.java:149-163 | the loop over the paragraphs with its seen set yields the deduplication function's value |
| DocConsolidation.KeptShape | src/main/java/com/baskettecase/readmewrangler/tool/DocConsolidationTool.java:149-163 | kept paragraphs come from the input, have non-empty and pairwise different keys, and cover every key seen |
| DocConsolidation.KeptFirst | src/main/java/com/baskettecase/readmewrangler/tool/DocConsolidationTool.java:154-160 | the first paragraph with a given non-empty key is always kept |
| DocConsolidation.KeptDistinct | src/main/java/com/baskettecase/readmewrangler/tool/DocConsolidationTool.java:149-163 | paragraphs whose keys are non-empty and distinct are all kept |
| DocConsolidation.KeptIdempotent | src/main/java/com/baskettecase/readmewrangler/tool/DocConsolidationTool.java:149-163 | deduplicating again removes nothing more |
| DocConsolidation.DocumentationFilter | src/main/java/com/baskettecase/readmewrangler/tool/DocConsolidationTool.java:97-99 | the filter keeps at most the listed files |
| DocConsolidation.DocumentationFilterMeaning | src/main/java/com/baskettecase/readmewrangler/tool/DocConsolidationTool.java:97-99 | a file passes exactly when it is listed, its name ends in ".md" and it is not CLAUDE.md, README.md or DEVELOPMENT.md |
| DocConsolidation.NameLeTotal | src/main/java/com/baskettecase/readmewrangler/tool/DocConsolidationTool.java:100 | any two names are ordered one way or the other |
| DocConsolidation.InsertByName | src/main/java/com/baskettecase/readmewrangler/tool/DocConsolidationTool.java:100 | inserting adds exactly the one file |
| DocConsolidation.InsertKeepsOrder | src/main/java/com/baskettecase/readmewrangler/tool/DocConsolidationTool.java:100 | inserting into a name-ordered list keeps it ordered |
| DocConsolidation.SortByName | src/main/java/com/baskettecase/readmewrangler/tool/DocConsolidationTool.java:100 | the sorted list is a name-ordered permutation of the input |
| DocConsolidation.Names | src/main/java/com/baskettecase/readmewrangler/tool/DocConsolidationTool.java:85 | the names of the files, one per file, in order |
| DocConsolidation.AppendTableOfContents | src/main/java/com/baskettecase/readmewrangler/tool/DocConsolidationTool.java:52-58 | the loop appends one link line per file to the builder |
| DocConsolidation.AppendSections | src/main/java/com/baskettecase/readmewrangler/tool/DocConsolidationTool.java:62-79 | the loop appends heading, cleaned content and rule per file to the builder |
| DocConsolidation.ConsolidateDocumentation | src/main/java/com/baskettecase/readmewrangler/tool/DocConsolidationTool.java:36-88 | the method yields the consolidation function's value for the listing |
| DocConsolidation.DocumentationFilesMeaning | src/main/java/com/baskettecase/readmewrangler/tool/DocConsolidationTool.java:93-105 | a file is consolidated exactly when it is an eligible file of the listing |
| DocConsolidation.ConsolidationWhen | src/main/java/com/baskettecase/readmewrangler/tool/DocConsolidationTool.java:39-44 | there is a consolidation exactly when some eligible file exists, and exactly when there are files to remove; otherwise the result is empty, no files, false |
| DocConsolidation.DocumentationNames | src/main/java/com/baskettecase/readmewrangler/tool/DocConsolidationTool.java:93-105 | a name is among the consolidated files' names exactly when an eligible file has it |
| DocConsolidation.ConsolidationNames | src/main/java/com/baskettecase/readmewrangler/tool/DocConsolidationTool.java:83-87 | the files to remove are the consolidated files' names |
| DocConsolidation.ConsolidationFileNames | src/main/java/com/baskettecase/readmewrangler/tool/DocConsolidationTool.java:83-105 | the files to remove are in name order, are exactly the eligible names, and never an excluded name |
| DocConsolidation.TocEntriesContain | src/main/java/com/baskettecase/readmewrangler/tool/DocConsolidationTool.java:53-58 | the table of contents holds every file's link line |
| DocConsolidation.SectionTextsContain | src/main/java/com/baskettecase/readmewrangler/tool/DocConsolidationTool.java:62-69 | the sections hold every file's heading |
| DocConsolidation.ConsolidationOutline | src/main/java/com/baskettecase/readmewrangler/tool/DocConsolidationTool.java:46-79 | the guide opens with its title, holds a table of contents, and has a link line and a "## " heading for every eligible file |
| PolisherAgent.FindingList.constructor | src/main/java/com/baskettecase/readmewrangler/agent/ReadmePolisherAgent.java:83 | the list starts as the given findings |
| PolisherAgent.FindingList.Add | src/main/java/com/baskettecase/readmewrangler/agent/ReadmePolisherAgent.java:141-147 | List.add appends exactly the one finding and changes nothing else |
| PolisherAgent.ShouldAddToc | src/main/java/com/baskettecase/readmewrangler/agent/ReadmePolisherAgent.java:200-205 | the answer is: threshold positive, at least that many headings, no table yet; a threshold of zero or less always answers false |
| PolisherAgent.ShouldEnhanceVisuals | src/main/java/com/baskettecase/readmewrangler/agent/ReadmePolisherAgent.java:210-213 | the answer is the visual enhancer's verdict on the text |
| PolisherAgent.IndexOf | src/main/java/com/baskettecase/readmewrangler/agent/ReadmePolisherAgent.java:226-227 | String.indexOf: the first occurrence when there is one, -1 otherwise |
| PolisherAgent.NextAfter | src/main/java/com/baskettecase/readmewrangler/agent/ReadmePolisherAgent.java:225-228 | the next "\n## " at or after the end of the anchor's first occurrence, or -1 when none follows |
| PolisherAgent.FirstSpliceAnchor | src/main/java/com/baskettecase/readmewrangler/agent/ReadmePolisherAgent.java:223-232 | the loop returns at the first anchor followed by a later "\n## " at a positive index, and every earlier anchor is not |
| PolisherAgent.InsertionPoint | src/main/java/com/baskettecase/readmewrangler/agent/ReadmePolisherAgent.java:219-236 | the insertion point lies within the text |
| PolisherAgent.AddTestSectionKeepsOriginal | src/main/java/com/baskettecase/readmewrangler/agent/ReadmePolisherAgent.java:219-236 | the original text survives whole around one inserted block, and that block holds the build system's snippet |
| PolisherAgent.InsertionPointMeaning | src/main/java/com/baskettecase/readmewrangler/agent/ReadmePolisherAgent.java:223-235 | a splice goes right before a "\n## ", and the snippet is appended at the end exactly when no anchor has a later level-two heading |
| PolisherAgent.AddTestSectionSatisfies | src/main/java/com/baskettecase/readmewrangler/agent/ReadmePolisherAgent.java:219-236 | after the section is added the text no longer asks for one |
| PolisherAgent.SpliceFollowsAnchor | src/main/java/com/baskettecase/readmewrangler/agent/ReadmePolisherAgent.java:224-229 | a splice point comes after an anchor that occurs before it |
| PolisherAgent.SpliceInserts | src/main/java/com/baskettecase/readmewrangler/agent/ReadmePolisherAgent.java:229 | the splice keeps the text before and after the point and puts the snippet between newlines |
| PolisherAgent.AppendInserts | src/main/java/com/baskettecase/readmewrangler/agent/ReadmePolisherAgent.java:235 | appending keeps the whole text and adds a blank line and the snippet |
| PolisherAgent.EnhanceVisualsGoal | src/main/java/com/baskettecase/readmewrangler/agent/ReadmePolisherAgent.java:242-252 | icons are added first, then dividers and call-outs |
| PolisherAgent.CleanUp | src/main/java/com/baskettecase/readmewrangler/agent/ReadmePolisherAgent.java:127-136 | fences are fixed with the configured language, then headings normalised, then trailing whitespace removed |
| PolisherAgent.AddTestSectionStep | src/main/java/com/baskettecase/readmewrangler/agent/ReadmePolisherAgent.java:138-148 | the section is added and the "added-test-section" note appended exactly when the text asks for one and the build system is known |
| PolisherAgent.AddTocStep | src/main/java/com/baskettecase/readmewrangler/agent/ReadmePolisherAgent.java:150-161 | the generated table is inserted and the "added-toc" note appended exactly when shouldAddToc holds |
| PolisherAgent.AddBadgesStep | src/main/java/com/baskettecase/readmewrangler/agent/ReadmePolisherAgent.java:163-172 | the badge section goes in front exactly when badges are enabled and the text has none; no note is recorded |
| PolisherAgent.EnhanceVisualsStep | src/main/java/com/baskettecase/readmewrangler/agent/ReadmePolisherAgent.java:174-184 | the text is enhanced and the "enhanced-visuals" note appended exactly when the text needs visual work |
| PolisherAgent.RewriteFront | src/main/java/com/baskettecase/readmewrangler/agent/ReadmePolisherAgent.java:127-161 | the clean-up, test-section and table steps give the pipeline's text so far and append exactly their notes |
| PolisherAgent.RewriteMarkdownGoal | src/main/java/com/baskettecase/readmewrangler/agent/ReadmePolisherAgent.java:118-187 | the method returns the pipeline's text and appends to the caller's list exactly the notes of the steps that fired, in step order |
| PolisherAgent.RewrittenSteps | src/main/java/com/baskettecase/readmewrangler/agent/ReadmePolisherAgent.java:118-187 | the pipeline written out: five texts in a row and one optional note per step other than badges |
| PolisherAgent.RewrittenAdded | src/main/java/com/baskettecase/readmewrangler/agent/ReadmePolisherAgent.java:138-184 | the notes before the visual step, and the visual note after them |
| PolisherAgent.HasIdAppend | src/main/java/com/baskettecase/readmewrangler/agent/ReadmePolisherAgent.java:321-334 | an id is in a concatenation exactly when it is in one of the parts |
| PolisherAgent.HasIdOpt | src/main/java/com/baskettecase/readmewrangler/agent/ReadmePolisherAgent.java:321-334 | an optional note carries an id exactly when its step fired with that id |
| PolisherAgent.StepIdsDistinct | src/main/java/com/baskettecase/readmewrangler/agent/ReadmePolisherAgent.java:141-183 | the three step ids differ from each other and from the linter's ids |
| PolisherAgent.HasIdSteps | src/main/java/com/baskettecase/readmewrangler/agent/ReadmePolisherAgent.java:321-334 | in the step notes each id is present exactly when its step fired |
| PolisherAgent.TestSectionAddedIff | src/main/java/com/baskettecase/readmewrangler/agent/ReadmePolisherAgent.java:139-148 | "added-test-section" is recorded exactly when the cleaned text asks for a test section and the build system is not OTHER, and the text then asks for none |
| PolisherAgent.TocAddedIff | src/main/java/com/baskettecase/readmewrangler/agent/ReadmePolisherAgent.java:150-161 | "added-toc" is recorded exactly when the threshold is positive, the tested text has that many headings and no table; the generated table is then inserted and present |
| PolisherAgent.BadgesPrepended | src/main/java/com/baskettecase/readmewrangler/agent/ReadmePolisherAgent.java:163-172 | badges go in front exactly when enabled and absent, otherwise the text is untouched; no note is added and the previous text stays a suffix |
| PolisherAgent.VisualsAppliedIff | src/main/java/com/baskettecase/readmewrangler/agent/ReadmePolisherAgent.java:174-184 | "enhanced-visuals" is recorded exactly when the text after the badges needs visual work, and then that text is enhanced, otherwise kept |
| PolisherAgent.StepFindingsValid | src/main/java/com/baskettecase/readmewrangler/agent/ReadmePolisherAgent.java:141-183 | the three step notes are INFO on line 0 of the README |
| PolisherAgent.RewrittenNotes | src/main/java/com/baskettecase/readmewrangler/agent/ReadmePolisherAgent.java:138-184 | the pipeline adds at most three notes, all INFO on line 0 of the README |
| PolisherAgent.StepNotesOf | src/main/java/com/baskettecase/readmewrangler/agent/ReadmePolisherAgent.java:138-184 | any choice of fired steps gives at most three valid notes |
| PolisherAgent.BuildImprovements | src/main/java/com/baskettecase/readmewrangler/agent/ReadmePolisherAgent.java:320-344 | the summary's notes are the findings passed in |
| PolisherAgent.LinterIdsNoStep | src/main/java/com/baskettecase/readmewrangler/agent/ReadmePolisherAgent.java:321-334 | the linter's findings never carry a step id |
| PolisherAgent.ImprovementsReflectPipeline | src/main/java/com/baskettecase/readmewrangler/agent/ReadmePolisherAgent.java:320-344 | after the linter's findings, each flag is set exactly when its step fired, the heading flag exactly when the linter saw a skipped level, and the fence flag only when the text changed |
| PolisherAgent.LastSlash | src/main/java/com/baskettecase/readmewrangler/agent/ReadmePolisherAgent.java:312 | the index of the last '/', with no '/' after it, or -1 when the path has none |
| PolisherAgent.BaseName | src/main/java/com/baskettecase/readmewrangler/agent/ReadmePolisherAgent.java:312 | Path.getFileName: a suffix of the path without '/', preceded by '/' when shorter than the path |
| PolisherAgent.FirstReadme | src/main/java/com/baskettecase/readmewrangler/agent/ReadmePolisherAgent.java:311-313 | the first README from a position on, with none before it |
| PolisherAgent.FindReadme | src/main/java/com/baskettecase/readmewrangler/agent/ReadmePolisherAgent.java:310-315 | none exactly when no file is a README; otherwise the first file whose name equals README.md ignoring case |
| PolisherAgent.BaseNameSnoc | src/main/java/com/baskettecase/readmewrangler/agent/ReadmePolisherAgent.java:312 | a character other than '/' extends the file name |
| PolisherAgent.BaseNameSlash | src/main/java/com/baskettecase/readmewrangler/agent/ReadmePolisherAgent.java:312 | a trailing '/' leaves an empty file name |
| PolisherAgent.BaseNameOfChild | src/main/java/com/baskettecase/readmewrangler/agent/ReadmePolisherAgent.java:312 | a name without '/' is its own file name in any directory |
| PolisherAgent.BaseNameLower | src/main/java/com/baskettecase/readmewrangler/agent/ReadmePolisherAgent.java:312 | lower-casing commutes with taking the file name |
| PolisherAgent.BaseNameLowerSnoc | src/main/java/com/baskettecase/readmewrangler/agent/ReadmePolisherAgent.java:312 | the commutation extends by one character |
| PolisherAgent.ReadmeCaseBlind | src/main/java/com/baskettecase/readmewrangler/agent/ReadmePolisherAgent.java:312 | whether a path is a README does not depend on letter case |
| PolisherAgent.LintFindingsShape | src/main/java/com/baskettecase/readmewrangler/agent/ReadmePolisherAgent.java:109-112 | the linter's findings carry its two ids and sit on lines from 1 on |
| PolisherAgent.PolishReadmeGoal | src/main/java/com/baskettecase/readmewrangler/agent/ReadmePolisherAgent.java:64-94 | the goal after the scan gives the bundle function's value |
| PolisherAgent.NoReadmeNoChanges | src/main/java/com/baskettecase/readmewrangler/agent/ReadmePolisherAgent.java:76-80 | without a README the bundle has no diff, no improvements and no notes |
| PolisherAgent.BundleOfReadme | src/main/java/com/baskettecase/readmewrangler/agent/ReadmePolisherAgent.java:82-93 | with a readable README the diff is empty exactly when the pipeline changed nothing, the notes are the linter's (lines from 1) then the pipeline's (line 0), and the flags report the steps that fired |
| PolisherAgent.NotesLines | src/main/java/com/baskettecase/readmewrangler/agent/ReadmePolisherAgent.java:83-87 | linter findings and step notes are told apart by their line |
| PolisherAgent.DefaultsPipeline | src/main/java/com/baskettecase/readmewrangler/service/PolishingConfig.java:26-36 | with the defaults fences default to bash, the table needs four headings, and badges go in exactly when the text has none |
| PolishingService.PolishRepository | src/main/java/com/baskettecase/readmewrangler/service/PolishingService.java:60-69 | the service returns the agent's bundle; without a README it has no changes |
| PolishingService.PolishContent | src/main/java/com/baskettecase/readmewrangler/service/PolishingService.java:74-132 | polishContent gives the agent's text and notes up to and including the badges, never the visual step |
| PolishingService.PolishFront | src/main/java/com/baskettecase/readmewrangler/service/PolishingService.java:81-118 | clean-up, test section and table give the agent's text and notes so far |
| PolishingService.AddTocNested | src/main/java/com/baskettecase/readmewrangler/service/PolishingService.java:104-118 | the nested threshold test inserts the table and records "added-toc" exactly when the agent's shouldAddToc would |
| PolishingService.AgentExtendsService | src/main/java/com/baskettecase/readmewrangler/service/PolishingService.java:74-132 | the agent's text is the service's followed by the visual step, the agent's notes extend the service's, by "enhanced-visuals" exactly when the service's text needs visual work, and otherwise the two agree |
| PolishingService.ServiceNeverEnhances | src/main/java/com/baskettecase/readmewrangler/service/PolishingService.java:74-132 | the service's notes never carry "enhanced-visuals", so its summary never reports enhanced visuals |

A function that only computes a value carries no contract of its own; the rows of the
lemmas about it say what it means:

- `Toc.CreateAnchor`: `Toc.CreateAnchorShape`; `Toc.HasToc`: `Toc.GeneratedTocHasToc`, `Toc.InsertedTocHasToc`.
- `Badges.HasBadges`: `Badges.StartsWithBadge`, `Badges.BadgeSectionHasBadges`.
- `TextRewrite.NormalizeHeadings`: `TextRewrite.SetextLinesUnchangedIff`, `TextRewrite.SetextMerge`, `TextRewrite.SetextKeep`, `TextRewrite.NormalizeHeadingsWithoutSetext`.
- `TextRewrite.RemoveTrailingWhitespace`: `TextRewrite.RemoveTrailingWhitespaceLines`, `TextRewrite.RemoveTrailingWhitespaceIdempotent`.
- `TextRewrite.NormalizeLineEndings`: `TextRewrite.NormalizeLineEndingsDropsCr`, `TextRewrite.NormalizeLineEndingsOnLf`.
- `RepoScanner.DetectBuildSystem`: `RepoScanner.DetectBuildSystemOrder`, `RepoScanner.DetectBuildSystemMarkersOnly`; `RepoScanner.IsIgnoredPath`: `RepoScanner.IgnoredPathMeaning`, `RepoScanner.IgnoredPathWithin`.
- `RepoScanner.TestCommandSnippet`: `RepoScanner.SnippetShape`, `RepoScanner.SnippetsDiffer`; `RepoScanner.NeedsTestSection`: `RepoScanner.NeedsTestSectionCaseBlind`, `RepoScanner.SnippetSatisfiesTestSection`.
- `Visual.FindIconForTitle`: `Visual.FindIconInMeaning`; `Visual.AddIconToHeading`: `Visual.AddIconToHeadingMeaning`, `Visual.AddIconToHeadingIdempotent`.
- `Visual.EmphasizeKeyPhrases`: `Visual.EmphasizeKeyPhrasesLines`, `Visual.EmphasizeKeyPhrasesIdempotent`; `Visual.NeedsVisual`: `Visual.NeedsVisualMeaning`.
- `PatchBuilder.SimpleDiff`: `PatchBuilder.CreateSimpleDiff`; `PatchBuilder.UnifiedDiff`: `PatchBuilder.CreateUnifiedDiff`, `PatchBuilder.UnifiedDiffShape`.
- `PolisherAgent.AddTestSection`: `PolisherAgent.AddTestSectionKeepsOriginal`, `PolisherAgent.InsertionPointMeaning`, `PolisherAgent.AddTestSectionSatisfies`.
- `Config.Defaults`: `PolisherAgent.DefaultsPipeline`.

## Left out

- Filesystem access is not modelled; its results are parameters:
  - `scanRepository` (which probes marker files and walks the tree) and `findScripts`. Build detection takes the set of root file names. The markdown filter takes the walked regular files in walk order.
  - `Files.readString` of the README and of the documentation files. These become the map `readable` and the `DocFile` contents.
  - License detection takes the first existing candidate as an absent, unreadable or readable file.
  - `writePatchToFile` is not modelled.
- `consolidateDocsGoal` and `shouldConsolidateDocs` are not modelled. They list the root directory, write DEVELOPMENT.md and delete files. `PolisherAgent.PolishReadmeGoal` therefore starts after that step, and the text of the guide is `DocConsolidation.Consolidation`.
- The clock is not modelled. The diff header's `Instant.now()` is the `timestamp` parameter, and patch ids built from `System.currentTimeMillis()` are not modelled.
- The `repoName` argument of `generateBadgeSection` is not modelled, since the tool never reads it. The repository root is a list of its file names.
- PolisherAgent.AddBadgesStep: does not model the `NullPointerException` that the call site raises for a repository at a filesystem root. ReadmePolisherAgent.java line 166 computes `snapshot.root().getFileName().toString()` before calling the badge tool, and `getFileName()` is null for a root path. The Java step therefore throws whenever badges are enabled and the text has none. The model returns the text with the badges.
- PolishingService.PolishContent: the same `NullPointerException` at PolishingService.java line 123 is not modelled, for the same reason. The repository root is not a path in this model, so the failure cannot be expressed.
- `PolisherAgent.BaseName` differs from `Path.getFileName` on two kinds of path:
  - on a root path, where the Java code would throw a `NullPointerException`;
  - on a path with a trailing `/`, which Java normalises away and the model keeps.
- Case mapping is ASCII only, and text is assumed to use `'\n'` alone as line separator. Java's `$` and `.` also treat `'\r'` and Unicode line separators as line ends, and the model does not.
- `VisualStats.iconPercentage` is a double and is not modelled. The 30% test of `needsVisualEnhancement` is the exact integer test 10 × withIcons < 3 × total.
- The icon table is a `HashMap` in Java, whose iteration order is unspecified.
  - The model tries keywords in declaration order (`Visual.FindIconInMeaning` states that order).
  - `Visual.AddIconToHeadingMeaning` and `Visual.AddIconToHeadingIdempotent` state only facts that hold whatever the order: some keyword the title contains supplies the icon.
  - When a title contains two keywords, the icon chosen can differ from Java's. For "## Getting Started Guide" the model gives the "getting started" icon 🏁. The JDK's hash layout for this table (64 buckets) tries "guide" first and give 📝 (derived from the hash codes, not executed).
- Host surfaces are not modelled: the command-line interface, the REST controller, the tool-protocol adapter with its pending-patch map, and Spring bootstrap. Logging and annotations are not modelled either.
- Idempotence is proved only where the code has it. Repeating a step does not always leave the text alone:
  - `addSectionDividers` inserts a blank line that hides its own divider from the next run (`Visual.DividerRepeats`);
  - `addIconsToHeadings` trims an indented heading on one pass and gives it an icon on the next. For it, idempotence is proved per heading line, not for whole texts.
  - `fixCodeFences` leaves a bare fence indented on the first line alone, then its final trim removes the indent, so a second run tags it: "  ```\nx" becomes "```\nx", then "```text\nx" (`TextRewrite.FixCodeFencesNotIdempotent`).
  - `normalizeLineEndings` removes one `'\r'` per CRLF pair, so "\r\r\n" becomes "\r\n" and then "\n" (`TextRewrite.NormalizeLineEndingsNotIdempotent`).
  - The setext rewrite is proved correct per pass only. Its output can hold a new setext pair: "A\n==\n==" becomes "# A\n==", which a second run turns into "# # A".
- Code and documentation disagree in three places, and the model follows the code:
  - the rewriters, and the pipeline as a whole, are described as idempotent, but the steps above are not, so a second run can change the text again;
  - `fixCodeFences` is described as tagging opening fences, but it tags every bare fence line, closing ones too;
  - `deduplicateSections` is documented as removing consecutive duplicate paragraphs, but it removes every later duplicate.
