/**
  The value records the polishing tools exchange: build systems, severities,
  findings, the improvement summary, the patch bundle and the repository snapshot.
  Java's nullable constructor arguments are Options; a rejected record is an Err.
 */
module Domain {
  import opened Wrappers
  import opened Strings

  /** A file-system path, kept as its text. */
  type Path = string

  datatype BuildSystem = Maven | Gradle | Makefile | Other

  datatype Severity = Info | Warn | Error

  // ------------------------------------------------------------------
  // PolishingFinding
  // ------------------------------------------------------------------

  datatype Finding = Finding(
    id: string,
    message: string,
    severity: Severity,
    file: Option<Path>,
    lineStart: int,
    lineEnd: int)
  {
    /** What the record's constructor insists on. */
    predicate Valid() {
      !IsBlank(id) && !IsBlank(message) && 0 <= lineStart <= lineEnd
    }
  }

  /**
    The record constructor: a missing or blank id or message and a negative or
    reversed line range are refused, checked in that order; a missing severity
    becomes Info.
   */
  function NewFinding(id: Option<string>, message: Option<string>, severity: Option<Severity>,
                      file: Option<Path>, lineStart: int, lineEnd: int): (r: Result<Finding, string>)
    ensures r.Ok? <==> id.Some? && !IsBlank(id.value) && message.Some? && !IsBlank(message.value)
                       && 0 <= lineStart <= lineEnd
    ensures r.Ok? ==> r.value.Valid()
    ensures r.Ok? ==> r.value.id == id.value && r.value.message == message.value && r.value.file == file
                      && r.value.lineStart == lineStart && r.value.lineEnd == lineEnd
    ensures r.Ok? ==> r.value.severity == (if severity.Some? then severity.value else Info)
    ensures (id.None? || IsBlank(id.value)) ==> r == Err("Finding ID cannot be null or blank")
  {
    if id.None? || IsBlank(id.value) then Err("Finding ID cannot be null or blank")
    else if message.None? || IsBlank(message.value) then Err("Finding message cannot be null or blank")
    else if lineStart < 0 || lineEnd < 0 || lineEnd < lineStart then
      Err("Invalid line range: " + IntToString(lineStart) + "-" + IntToString(lineEnd))
    else
      Ok(Finding(id.value, message.value, if severity.Some? then severity.value else Info,
                 file, lineStart, lineEnd))
  }

  /** PolishingFinding.forLine: a finding that starts and ends on the same line. */
  function ForLine(id: Option<string>, message: Option<string>, severity: Option<Severity>,
                   file: Option<Path>, line: int): (r: Result<Finding, string>)
    ensures r.Ok? <==> id.Some? && !IsBlank(id.value) && message.Some? && !IsBlank(message.value) && line >= 0
    ensures r.Ok? ==> r.value.lineStart == line && r.value.lineEnd == line && r.value.Valid()
  {
    NewFinding(id, message, severity, file, line, line)
  }

  /**
    The finding the tools build with forLine from their own literal id and message:
    the record itself, once the constructor has accepted it.
   */
  function LineFinding(id: string, message: string, severity: Severity, file: Option<Path>, line: nat): (f: Finding)
    ensures f.lineStart == f.lineEnd == line
  {
    Finding(id, message, severity, file, line, line)
  }

  /** For a non-blank id and message, forLine accepts and builds exactly LineFinding. */
  lemma ForLineAccepts(id: string, message: string, severity: Severity, file: Option<Path>, line: nat)
    requires !IsBlank(id) && !IsBlank(message)
    ensures ForLine(Some(id), Some(message), Some(severity), file, line) == Ok(LineFinding(id, message, severity, file, line))
    ensures LineFinding(id, message, severity, file, line).Valid()
  {
  }

  // ------------------------------------------------------------------
  // ReadmeImprovements
  // ------------------------------------------------------------------

  datatype ReadmeImprovements = ReadmeImprovements(
    addedTestSection: bool,
    fixedCodeBlocks: bool,
    normalizedHeadings: bool,
    addedToc: bool,
    enhancedVisuals: bool,
    notes: seq<Finding>)

  /** The record constructor: a missing notes list becomes the empty list. */
  function NewImprovements(addedTestSection: bool, fixedCodeBlocks: bool, normalizedHeadings: bool,
                           addedToc: bool, enhancedVisuals: bool, notes: Option<seq<Finding>>): (r: ReadmeImprovements)
    ensures notes.None? ==> r.notes == []
    ensures notes.Some? ==> r.notes == notes.value
    ensures r.addedTestSection == addedTestSection && r.fixedCodeBlocks == fixedCodeBlocks
    ensures r.normalizedHeadings == normalizedHeadings && r.addedToc == addedToc
    ensures r.enhancedVisuals == enhancedVisuals
  {
    ReadmeImprovements(addedTestSection, fixedCodeBlocks, normalizedHeadings, addedToc, enhancedVisuals,
                       if notes.Some? then notes.value else [])
  }

  /** ReadmeImprovements.empty(): nothing improved and nothing noted. */
  function EmptyImprovements(): (r: ReadmeImprovements)
    ensures ImprovementCount(r) == 0 && !r.enhancedVisuals && r.notes == []
  {
    NewImprovements(false, false, false, false, false, Some([]))
  }

  /** countBySeverity: how many notes carry the given severity. */
  function CountBySeverity(notes: seq<Finding>, severity: Severity): (r: nat)
    ensures r <= |notes|
    ensures r == 0 <==> forall i :: 0 <= i < |notes| ==> notes[i].severity != severity
    ensures r == |notes| <==> forall i :: 0 <= i < |notes| ==> notes[i].severity == severity
  {
    if |notes| == 0 then 0
    else (if notes[0].severity == severity then 1 else 0) + CountBySeverity(notes[1..], severity)
  }

  /** Every note has exactly one of the three severities, so the counts add up to the list length. */
  lemma {:induction false} CountsPartitionNotes(notes: seq<Finding>)
    ensures CountBySeverity(notes, Info) + CountBySeverity(notes, Warn) + CountBySeverity(notes, Error) == |notes|
  {
    if |notes| > 0 {
      CountsPartitionNotes(notes[1..]);
    }
  }

  // ------------------------------------------------------------------
  // PatchBundle
  // ------------------------------------------------------------------

  datatype PatchBundle = PatchBundle(unifiedDiff: string, summary: ReadmeImprovements)

  /** The record constructor: a missing diff becomes "" and a missing summary the empty one. */
  function NewPatchBundle(unifiedDiff: Option<string>, summary: Option<ReadmeImprovements>): (r: PatchBundle)
    ensures r.unifiedDiff == (if unifiedDiff.Some? then unifiedDiff.value else "")
    ensures summary.None? ==> r.summary == EmptyImprovements()
    ensures summary.Some? ==> r.summary == summary.value
    ensures unifiedDiff.None? ==> !HasChanges(r)
  {
    PatchBundle(if unifiedDiff.Some? then unifiedDiff.value else "",
                if summary.Some? then summary.value else EmptyImprovements())
  }

  /** hasChanges: the diff holds something other than whitespace. */
  predicate HasChanges(b: PatchBundle) {
    !IsBlank(b.unifiedDiff)
  }

  /**
    The number of improvements the summary line reports: the four flags other than
    enhancedVisuals.
   */
  function ImprovementCount(s: ReadmeImprovements): (r: nat)
    ensures r <= 4
    ensures r == 0 <==> !s.addedTestSection && !s.fixedCodeBlocks && !s.normalizedHeadings && !s.addedToc
    ensures r == 4 <==> s.addedTestSection && s.fixedCodeBlocks && s.normalizedHeadings && s.addedToc
  {
    (if s.addedTestSection then 1 else 0) + (if s.fixedCodeBlocks then 1 else 0)
    + (if s.normalizedHeadings then 1 else 0) + (if s.addedToc then 1 else 0)
  }

  /** getSummaryLine: "<improvements> improvements, <notes> findings". */
  function SummaryLine(b: PatchBundle): (r: string)
    ensures EndsWith(r, " findings")
  {
    NatToString(ImprovementCount(b.summary)) + (" improvements, " + (NatToString(|b.summary.notes|) + " findings"))
  }

  /**
    The summary line can be read back: two bundles with the same line report the same
    number of improvements and the same number of findings.
   */
  lemma SummaryLineDetermines(b1: PatchBundle, b2: PatchBundle)
    requires SummaryLine(b1) == SummaryLine(b2)
    ensures ImprovementCount(b1.summary) == ImprovementCount(b2.summary)
    ensures |b1.summary.notes| == |b2.summary.notes|
  {
    SummaryFormatReadBack(ImprovementCount(b1.summary), |b1.summary.notes|,
                          ImprovementCount(b2.summary), |b2.summary.notes|);
  }

  lemma SummaryFormatReadBack(c1: nat, n1: nat, c2: nat, n2: nat)
    requires NatToString(c1) + (" improvements, " + (NatToString(n1) + " findings"))
          == NatToString(c2) + (" improvements, " + (NatToString(n2) + " findings"))
    ensures c1 == c2 && n1 == n2
  {
    var mid, tail := " improvements, ", " findings";
    var y1, y2 := NatToString(n1) + tail, NatToString(n2) + tail;
    var x1, x2 := mid + y1, mid + y2;
    ReadNumber(c1, x1, c2, x2);
    assert y1 == x1[|mid|..] && y2 == x2[|mid|..];
    ReadNumber(n1, tail, n2, tail);
  }

  /** A number printed in front of a non-digit is read back unambiguously. */
  lemma ReadNumber(a: nat, x: string, b: nat, y: string)
    requires |x| > 0 && !IsDigit(x[0]) && |y| > 0 && !IsDigit(y[0])
    requires NatToString(a) + x == NatToString(b) + y
    ensures a == b && x == y
  {
    DigitRunPrefix(NatToString(a), x, NatToString(b), y);
    NatToStringInjective(a, b);
  }

  /** Visual enhancement is not one of the improvements the summary line counts. */
  lemma SummaryLineIgnoresVisuals(b: PatchBundle)
    ensures SummaryLine(b) == SummaryLine(b.(summary := b.summary.(enhancedVisuals := !b.summary.enhancedVisuals)))
  {
  }

  // ------------------------------------------------------------------
  // RepoSnapshot
  // ------------------------------------------------------------------

  datatype RepoSnapshot = RepoSnapshot(root: Path, markdownFiles: seq<Path>, build: BuildSystem, scripts: seq<Path>)

  /** The record constructor: no root is refused; missing lists become empty and a missing build system Other. */
  function NewRepoSnapshot(root: Option<Path>, markdownFiles: Option<seq<Path>>, build: Option<BuildSystem>,
                           scripts: Option<seq<Path>>): (r: Result<RepoSnapshot, string>)
    ensures r.Ok? <==> root.Some?
    ensures r.Err? ==> r.error == "Repository root cannot be null"
    ensures r.Ok? ==> r.value.root == root.value
    ensures r.Ok? ==> r.value.markdownFiles == (if markdownFiles.Some? then markdownFiles.value else [])
    ensures r.Ok? ==> r.value.scripts == (if scripts.Some? then scripts.value else [])
    ensures r.Ok? ==> r.value.build == (if build.Some? then build.value else Other)
  {
    if root.None? then Err("Repository root cannot be null")
    else Ok(RepoSnapshot(root.value,
                         if markdownFiles.Some? then markdownFiles.value else [],
                         if build.Some? then build.value else Other,
                         if scripts.Some? then scripts.value else []))
  }
}
