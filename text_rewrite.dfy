/**
  TextRewriteTool: the four text-to-text rewriters of the polishing pipeline.
  fixCodeFences is a loop that appends to a StringBuilder and is a method proved
  against FixedText; the three regular-expression rewrites are pure functions over
  the '\n'-separated lines of the text.
 */
module TextRewrite {
  import opened Strings

  // ------------------------------------------------------------------
  // inferLanguage
  // ------------------------------------------------------------------

  /** A shell command the build tools or the shell itself start with. */
  predicate IsCommandLine(next: string) {
    || StartsWith(next, "mvn ") || StartsWith(next, "./mvnw")
    || StartsWith(next, "gradle") || StartsWith(next, "./gradlew")
    || StartsWith(next, "cd ") || StartsWith(next, "ls ")
    || StartsWith(next, "npm ") || StartsWith(next, "make ")
  }

  predicate LooksLikeJava(next: string) {
    StartsWith(next, "public class") || StartsWith(next, "import ") || StartsWith(next, "package ")
    || Contains(next, "@")
  }

  predicate LooksLikeYaml(next: string) {
    StartsWith(next, "{") || StartsWith(next, "---")
  }

  predicate LooksLikeXml(next: string) {
    StartsWith(next, "<") && Contains(next, ">")
  }

  /** The four inference rules, in the order they are tried. */
  datatype Rule = BashRule | JavaRule | YamlRule | XmlRule

  const InferenceRules: seq<Rule> := [BashRule, JavaRule, YamlRule, XmlRule]

  predicate RuleMatches(rule: Rule, next: string) {
    match rule
    case BashRule => IsCommandLine(next)
    case JavaRule => LooksLikeJava(next)
    case YamlRule => LooksLikeYaml(next)
    case XmlRule => LooksLikeXml(next)
  }

  function RuleTag(rule: Rule): string {
    match rule
    case BashRule => "bash"
    case JavaRule => "java"
    case YamlRule => "yaml"
    case XmlRule => "xml"
  }

  /** Rule k of the table is the first that matches next. */
  predicate FirstMatchingRule(next: string, k: int) {
    && 0 <= k < |InferenceRules|
    && RuleMatches(InferenceRules[k], next)
    && forall j :: 0 <= j < k ==> !RuleMatches(InferenceRules[j], next)
  }

  /** inferLanguage: the line after the fence, trimmed, is tried against the rules in order. */
  function InferLanguage(lines: seq<string>, startIdx: nat, defaultLang: string): (r: string)
    ensures startIdx >= |lines| ==> r == defaultLang
  {
    if startIdx >= |lines| then defaultLang
    else
      var nextLine := Trim(lines[startIdx]);
      if IsCommandLine(nextLine) then "bash"
      else if LooksLikeJava(nextLine) then "java"
      else if LooksLikeYaml(nextLine) then "yaml"
      else if LooksLikeXml(nextLine) then "xml"
      else defaultLang
  }

  /**
    The inferred tag is that of the first rule of the table the trimmed next line
    satisfies, and the default when no rule does.
   */
  lemma InferLanguageFirstRule(lines: seq<string>, startIdx: nat, defaultLang: string)
    requires startIdx < |lines|
    ensures var next := Trim(lines[startIdx]);
            var r := InferLanguage(lines, startIdx, defaultLang);
            || (exists k :: FirstMatchingRule(next, k) && r == RuleTag(InferenceRules[k]))
            || ((forall k :: 0 <= k < |InferenceRules| ==> !RuleMatches(InferenceRules[k], next)) && r == defaultLang)
  {
    var next := Trim(lines[startIdx]);
    if IsCommandLine(next) {
      assert FirstMatchingRule(next, 0);
    } else if LooksLikeJava(next) {
      assert FirstMatchingRule(next, 1);
    } else if LooksLikeYaml(next) {
      assert FirstMatchingRule(next, 2);
    } else if LooksLikeXml(next) {
      assert FirstMatchingRule(next, 3);
    }
  }

  // ------------------------------------------------------------------
  // fixCodeFences
  // ------------------------------------------------------------------

  /** A line holding three backticks and nothing but trimmable characters after them. */
  predicate IsBareFence(line: string) {
    StartsWith(line, "```") && Trim(line[3..]) == ""
  }

  /** What fixCodeFences writes for line i: a bare fence gets the inferred tag, other lines are kept. */
  function FixedLine(lines: seq<string>, i: nat, defaultLang: string): string
    requires i < |lines|
  {
    if IsBareFence(lines[i]) then "```" + InferLanguage(lines, i + 1, defaultLang) else lines[i]
  }

  function FixedLines(lines: seq<string>, defaultLang: string): (r: seq<string>)
    ensures |r| == |lines|
  {
    seq(|lines|, i requires 0 <= i < |lines| => FixedLine(lines, i, defaultLang))
  }

  /** The text fixCodeFences returns: the fixed lines, each followed by '\n', trimmed. */
  function FixedText(content: string, defaultLang: string): string {
    Trim(Terminated(FixedLines(Lines(content), defaultLang)))
  }

  /**
    fixCodeFences is not idempotent: a bare fence indented on the first line is not a
    fence to the line test, but the final trim removes its indent, so a second run tags it.
   */
  lemma FixCodeFencesNotIdempotent()
    ensures FixedText("  ```\nx", "text") == "```\nx"
    ensures FixedText("```\nx", "text") == "```text\nx"
  {
    FenceRunIndented();
    FenceRunBare();
  }

  lemma FenceRunIndented()
    ensures FixedText("  ```\nx", "text") == "```\nx"
  {
    var ls := ["  ```", "x"];
    assert "  ```\nx" == "  ```" + "\n" + "x";
    TwoLines("  ```", "x");
    assert !IsBareFence(ls[0]) by { assert ls[0][..3][0] == ' '; }
    assert FixedLines(ls, "text") == ls by {
      assert FixedLine(ls, 0, "text") == ls[0];
      assert FixedLine(ls, 1, "text") == ls[1];
    }
    TwoLinesTrimmed("  ```", "x");
    assert "  ```" + "\n" + "x" == "  " + "```\nx";
    TrimStartAppend("  ", "```\nx");
    assert TrimStart("```\nx") == "```\nx";
  }

  lemma FenceRunBare()
    ensures FixedText("```\nx", "text") == "```text\nx"
  {
    var ls := ["```", "x"];
    assert "```\nx" == "```" + "\n" + "x";
    TwoLines("```", "x");
    assert IsBareFence(ls[0]) by { assert ls[0][3..] == ""; }
    assert InferLanguage(ls, 1, "text") == "text" by {
      assert Trim("x") == "x";
      assert !Contains("x", "@") by { assert !OccursAt("x", "@", 0); }
    }
    var fixed := ["```text", "x"];
    assert FixedLines(ls, "text") == fixed by {
      assert FixedLine(ls, 0, "text") == "```text";
      assert FixedLine(ls, 1, "text") == "x";
    }
    TwoLinesTrimmed("```text", "x");
    assert "```text" + "\n" + "x" == "```text\nx";
    assert TrimStart("```text\nx") == "```text\nx";
  }

  /** A text of two lines splits into them. */
  lemma TwoLines(a: string, b: string)
    requires '\n' !in a && '\n' !in b
    ensures Lines(a + "\n" + b) == [a, b]
  {
    assert JoinWith([a, b], "\n") == a + "\n" + b;
    SplitJoin([a, b], '\n');
  }

  /** Two lines, each terminated, lose only the final line break to trimEnd. */
  lemma TwoLinesTrimmed(a: string, b: string)
    requires |b| > 0 && !IsTrimmable(b[|b| - 1])
    ensures Trim(Terminated([a, b])) == TrimStart(a + "\n" + b)
  {
    TerminatedSnoc([], a);
    TerminatedSnoc([a], b);
    assert [a] + [b] == [a, b];
    var body := a + "\n" + b;
    assert Terminated([a, b]) == body + "\n";
    TrimEndAppend(body, "\n");
    assert TrimEnd(body) == body by { assert body[|body| - 1] == b[|b| - 1]; }
  }

  /** fixCodeFences: rewrites every bare fence line, opening or closing, with an inferred tag. */
  method FixCodeFences(content: string, defaultLanguage: string) returns (r: string)
    ensures r == FixedText(content, defaultLanguage)
  {
    var result := "";
    var lines := Lines(content);
    ghost var fixed := FixedLines(lines, defaultLanguage);
    var i := 0;
    while i < |lines|
      invariant 0 <= i <= |lines|
      invariant result == Terminated(fixed[..i])
    {
      var line := lines[i];
      if StartsWith(line, "```") && Trim(line[3..]) == "" {
        var inferredLang := InferLanguage(lines, i + 1, defaultLanguage);
        result := result + "```" + inferredLang + "\n";
      } else {
        result := result + line + "\n";
      }
      assert fixed[i] == FixedLine(lines, i, defaultLanguage);
      assert fixed[..i + 1] == fixed[..i] + [fixed[i]];
      TerminatedSnoc(fixed[..i], fixed[i]);
      i := i + 1;
    }
    assert fixed[..|lines|] == fixed;
    r := Trim(result);
  }

  /** Each tag inferLanguage can produce is its own trim and not empty, given such a default. */
  lemma InferredTagNotBlank(lines: seq<string>, startIdx: nat, defaultLang: string)
    requires Trim(defaultLang) != ""
    ensures Trim(InferLanguage(lines, startIdx, defaultLang)) != ""
  {
    var r := InferLanguage(lines, startIdx, defaultLang);
    if r != defaultLang {
      TrimUntrimmedEnds(r);
    }
  }

  /** With a default tag that is not blank, no bare fence line is left among the fixed lines. */
  lemma FixedLinesHaveNoBareFence(lines: seq<string>, defaultLang: string)
    requires Trim(defaultLang) != ""
    ensures forall i :: 0 <= i < |lines| ==> !IsBareFence(FixedLines(lines, defaultLang)[i])
  {
    var fixed := FixedLines(lines, defaultLang);
    forall i | 0 <= i < |lines| ensures !IsBareFence(fixed[i]) {
      if IsBareFence(lines[i]) {
        var tag := InferLanguage(lines, i + 1, defaultLang);
        InferredTagNotBlank(lines, i + 1, defaultLang);
        assert fixed[i] == "```" + tag;
        assert fixed[i][3..] == tag;
      }
    }
  }

  /** No open/close tracking: a closing fence is tagged just as an opening one is. */
  lemma ClosingFenceTagged()
    ensures FixedLines(["```", "./mvnw test", "```"], "text") == ["```bash", "./mvnw test", "```text"]
  {
    var ls := ["```", "./mvnw test", "```"];
    assert ls[0][3..] == "" && IsBareFence(ls[0]) && IsBareFence(ls[2]);
    assert !IsBareFence(ls[1]) by { assert ls[1][0] != '`'; }
    assert Trim(ls[1]) == ls[1] by { TrimUntrimmedEnds(ls[1]); }
    assert IsCommandLine(ls[1]) by { assert ls[1][..6] == "./mvnw"; }
    assert FixedLine(ls, 0, "text") == "```bash";
    assert FixedLine(ls, 1, "text") == "./mvnw test";
    assert FixedLine(ls, 2, "text") == "```text";
  }

  // ------------------------------------------------------------------
  // normalizeHeadings
  // ------------------------------------------------------------------

  /** Two or more copies of c and nothing else: a setext underline. */
  predicate IsUnderline(line: string, c: char) {
    |line| >= 2 && forall k :: 0 <= k < |line| ==> line[k] == c
  }

  /** Line i is not empty and line i + 1 underlines it with c. */
  predicate SetextPairAt(ls: seq<string>, c: char, i: int) {
    0 <= i && i + 1 < |ls| && |ls[i]| > 0 && IsUnderline(ls[i + 1], c)
  }

  /**
    One `(?m)^(.+)\n c{2,}$` replaceAll over lines: scanning from the top, a non-empty
    line with an underline below it becomes prefix + line and the underline goes; the
    scan resumes after the underline.
   */
  function SetextLines(ls: seq<string>, c: char, prefix: string): (r: seq<string>)
    ensures |r| <= |ls|
    decreases |ls|
  {
    if SetextPairAt(ls, c, 0) then [prefix + ls[0]] + SetextLines(ls[2..], c, prefix)
    else if |ls| == 0 then []
    else [ls[0]] + SetextLines(ls[1..], c, prefix)
  }

  function SetextPass(content: string, c: char, prefix: string): string {
    JoinWith(SetextLines(Lines(content), c, prefix), "\n")
  }

  /** normalizeHeadings: the '=' underlines to "# " first, then the '-' underlines to "## ". */
  function NormalizeHeadings(content: string): string {
    SetextPass(SetextPass(content, '=', "# "), '-', "## ")
  }

  /** A pass changes the lines exactly when some non-empty line is underlined. */
  lemma {:induction false} SetextLinesUnchangedIff(ls: seq<string>, c: char, prefix: string)
    ensures SetextLines(ls, c, prefix) == ls <==> forall i :: !SetextPairAt(ls, c, i)
    decreases |ls|
  {
    if SetextPairAt(ls, c, 0) {
      assert |SetextLines(ls[2..], c, prefix)| <= |ls| - 2;
    } else if |ls| > 0 {
      SetextLinesUnchangedIff(ls[1..], c, prefix);
      if forall i :: !SetextPairAt(ls, c, i) {
        forall i ensures !SetextPairAt(ls[1..], c, i) {
          if SetextPairAt(ls[1..], c, i) {
            assert SetextPairAt(ls, c, i + 1);
          }
        }
      } else {
        var i :| SetextPairAt(ls, c, i);
        assert SetextPairAt(ls[1..], c, i - 1);
        assert [ls[0]] + ls[1..] == ls;
      }
    }
  }

  /** A text without setext headings comes out of normalizeHeadings unchanged. */
  lemma NormalizeHeadingsWithoutSetext(content: string)
    requires forall i :: !SetextPairAt(Lines(content), '=', i) && !SetextPairAt(Lines(content), '-', i)
    ensures NormalizeHeadings(content) == content
  {
    SetextLinesUnchangedIff(Lines(content), '=', "# ");
    JoinSplit(content, "\n");
    SetextLinesUnchangedIff(Lines(content), '-', "## ");
  }

  /** The lines of a literal text with no '\n' inside its lines. */
  lemma LinesOfJoin(ls: seq<string>)
    requires |ls| >= 1 && forall k :: 0 <= k < |ls| ==> '\n' !in ls[k]
    ensures Lines(JoinWith(ls, "\n")) == ls
  {
    SplitJoin(ls, '\n');
  }

  lemma SetextMerge(line: string, underline: string, rest: seq<string>, c: char, prefix: string)
    requires |line| > 0 && IsUnderline(underline, c)
    ensures SetextLines([line, underline] + rest, c, prefix) == [prefix + line] + SetextLines(rest, c, prefix)
  {
    assert ([line, underline] + rest)[2..] == rest;
  }

  lemma SetextKeep(line: string, rest: seq<string>, c: char, prefix: string)
    requires |line| == 0 || |rest| == 0 || !IsUnderline(rest[0], c)
    ensures SetextLines([line] + rest, c, prefix) == [line] + SetextLines(rest, c, prefix)
  {
    assert ([line] + rest)[1..] == rest;
  }

  /** The lines of the tool's own test: a setext title and subtitle become ATX headings. */
  lemma SetextExample()
    ensures SetextLines(SetextLines(["Title", "===", "", "Subtitle", "---", ""], '=', "# "), '-', "## ")
            == ["# Title", "", "## Subtitle", ""]
  {
    SetextExampleFirstPass();
    assert !IsUnderline("", '-');
    assert SetextLines([], '-', "## ") == [];
    SetextKeep("", [], '-', "## ");
    assert SetextLines([""], '-', "## ") == [""];
    SetextMerge("Subtitle", "---", [""], '-', "## ");
    assert ["Subtitle", "---", ""] == ["Subtitle", "---"] + [""];
    assert "## " + "Subtitle" == "## Subtitle";
    assert SetextLines(["Subtitle", "---", ""], '-', "## ") == ["## Subtitle", ""];
    SetextKeep("", ["Subtitle", "---", ""], '-', "## ");
    assert SetextLines(["", "Subtitle", "---", ""], '-', "## ") == ["", "## Subtitle", ""];
    SetextKeep("# Title", ["", "Subtitle", "---", ""], '-', "## ");
  }

  lemma SetextExampleFirstPass()
    ensures SetextLines(["Title", "===", "", "Subtitle", "---", ""], '=', "# ")
            == ["# Title", "", "Subtitle", "---", ""]
  {
    assert !IsUnderline("Subtitle", '=') by { assert "Subtitle"[0] != '='; }
    assert !IsUnderline("---", '=') by { assert "---"[0] != '='; }
    assert SetextLines([], '=', "# ") == [];
    SetextKeep("", [], '=', "# ");
    assert SetextLines([""], '=', "# ") == [""];
    SetextKeep("---", [""], '=', "# ");
    assert SetextLines(["---", ""], '=', "# ") == ["---", ""];
    SetextKeep("Subtitle", ["---", ""], '=', "# ");
    assert SetextLines(["Subtitle", "---", ""], '=', "# ") == ["Subtitle", "---", ""];
    SetextKeep("", ["Subtitle", "---", ""], '=', "# ");
    assert SetextLines(["", "Subtitle", "---", ""], '=', "# ") == ["", "Subtitle", "---", ""];
    SetextMerge("Title", "===", ["", "Subtitle", "---", ""], '=', "# ");
    assert ["Title", "===", "", "Subtitle", "---", ""] == ["Title", "==="] + ["", "Subtitle", "---", ""];
    assert "# " + "Title" == "# Title";
  }

  /** A line underlined twice is headed twice by a second run: the rewrite is not idempotent. */
  lemma SetextNotIdempotent()
    ensures SetextLines(["A", "==", "=="], '=', "# ") == ["# A", "=="]
    ensures SetextLines(["# A", "=="], '=', "# ") == ["# # A"]
  {
    SetextKeep("==", [], '=', "# ");
    assert SetextLines([], '=', "# ") == [];
    assert SetextLines(["=="], '=', "# ") == ["=="];
    SetextMerge("A", "==", ["=="], '=', "# ");
    assert ["A", "==", "=="] == ["A", "=="] + ["=="];
    assert "# " + "A" == "# A";
    SetextMerge("# A", "==", [], '=', "# ");
    assert ["# A", "=="] == ["# A", "=="] + [];
    assert "# " + "# A" == "# # A";
  }

  // ------------------------------------------------------------------
  // removeTrailingWhitespace
  // ------------------------------------------------------------------

  predicate IsSpaceOrTab(c: char) {
    c == ' ' || c == '\t'
  }

  /** The line without the spaces and tabs it ends with. */
  function StripTrailingBlanks(line: string): string {
    if |line| > 0 && IsSpaceOrTab(line[|line| - 1]) then StripTrailingBlanks(line[..|line| - 1]) else line
  }

  function StripLines(ls: seq<string>): (r: seq<string>)
    ensures |r| == |ls| && forall k :: 0 <= k < |ls| ==> r[k] == StripTrailingBlanks(ls[k])
  {
    seq(|ls|, k requires 0 <= k < |ls| => StripTrailingBlanks(ls[k]))
  }

  /** removeTrailingWhitespace: `(?m)[ \t]+$` removed at the end of every line. */
  function RemoveTrailingWhitespace(content: string): string {
    JoinWith(StripLines(Lines(content)), "\n")
  }

  /** Stripping cuts a run of spaces and tabs off the end and leaves a line that does not end in one. */
  lemma {:induction false} StripTrailingBlanksShape(line: string)
    ensures |StripTrailingBlanks(line)| <= |line|
    ensures StripTrailingBlanks(line) == line[..|StripTrailingBlanks(line)|]
    ensures forall k :: |StripTrailingBlanks(line)| <= k < |line| ==> IsSpaceOrTab(line[k])
    ensures StripTrailingBlanks(line) == [] || !IsSpaceOrTab(StripTrailingBlanks(line)[|StripTrailingBlanks(line)| - 1])
  {
    if |line| > 0 && IsSpaceOrTab(line[|line| - 1]) {
      StripTrailingBlanksShape(line[..|line| - 1]);
    }
  }

  lemma {:induction false} StripAppendBlanks(s: string, t: string)
    requires s == [] || !IsSpaceOrTab(s[|s| - 1])
    requires forall k :: 0 <= k < |t| ==> IsSpaceOrTab(t[k])
    ensures StripTrailingBlanks(s + t) == s
    decreases |t|
  {
    if |t| > 0 {
      assert (s + t)[..|s + t| - 1] == s + t[..|t| - 1];
      StripAppendBlanks(s, t[..|t| - 1]);
    } else {
      assert s + t == s;
    }
  }

  /** Every line break is kept: the result has the same lines, each stripped. */
  lemma RemoveTrailingWhitespaceLines(content: string)
    ensures Lines(RemoveTrailingWhitespace(content)) == StripLines(Lines(content))
  {
    var ls := Lines(content);
    var ss := StripLines(ls);
    SplitKeepPiecesFree(content, '\n');
    forall k | 0 <= k < |ss| ensures '\n' !in ss[k] {
      StripTrailingBlanksShape(ls[k]);
    }
    SplitJoin(ss, '\n');
  }

  /** Removing trailing whitespace a second time changes nothing. */
  lemma RemoveTrailingWhitespaceIdempotent(content: string)
    ensures RemoveTrailingWhitespace(RemoveTrailingWhitespace(content)) == RemoveTrailingWhitespace(content)
  {
    var ss := StripLines(Lines(content));
    RemoveTrailingWhitespaceLines(content);
    forall k | 0 <= k < |ss| ensures StripTrailingBlanks(ss[k]) == ss[k] {
      StripTrailingBlanksShape(Lines(content)[k]);
    }
    assert StripLines(ss) == ss;
  }

  /** The two lines of the tool's own test lose their trailing spaces. */
  lemma RemoveTrailingWhitespaceExample()
    ensures RemoveTrailingWhitespace("Line with trailing spaces   " + "\n" + "Another line  ")
            == "Line with trailing spaces" + "\n" + "Another line"
  {
    var ls := ["Line with trailing spaces   ", "Another line  "];
    var ss := ["Line with trailing spaces", "Another line"];
    assert JoinWith(ls, "\n") == ls[0] + "\n" + ls[1];
    LinesOfJoin(ls);
    ExampleStripped();
    assert JoinWith(ss, "\n") == ss[0] + "\n" + ss[1];
  }

  lemma ExampleStripped()
    ensures StripLines(["Line with trailing spaces   ", "Another line  "]) == ["Line with trailing spaces", "Another line"]
  {
    var ls := ["Line with trailing spaces   ", "Another line  "];
    assert StripTrailingBlanks(ls[0]) == "Line with trailing spaces" by {
      assert ls[0] == "Line with trailing spaces" + "   ";
      StripAppendBlanks("Line with trailing spaces", "   ");
    }
    assert StripTrailingBlanks(ls[1]) == "Another line" by {
      assert ls[1] == "Another line" + "  ";
      StripAppendBlanks("Another line", "  ");
    }
  }

  // ------------------------------------------------------------------
  // normalizeLineEndings
  // ------------------------------------------------------------------

  /** normalizeLineEndings: every non-overlapping "\r\n", left to right, becomes "\n". */
  function NormalizeLineEndings(content: string): string {
    Replace(content, "\r\n", "\n")
  }

  /** s[i] is a carriage return directly in front of a line feed. */
  predicate CrBeforeLf(s: string, i: int) {
    0 <= i && i + 1 < |s| && s[i] == '\r' && s[i + 1] == '\n'
  }

  /** The characters of s[from..] that are not a carriage return in front of a line feed, in order. */
  function KeptChars(s: string, from: nat): string
    requires from <= |s|
    decreases |s| - from
  {
    if from == |s| then []
    else if CrBeforeLf(s, from) then KeptChars(s, from + 1)
    else [s[from]] + KeptChars(s, from + 1)
  }

  /**
    Replacing "\r\n" with "\n" deletes exactly the carriage returns that sit in front of
    a line feed and keeps every other character in order.
   */
  lemma {:induction false} NormalizeLineEndingsDropsCr(content: string)
    ensures NormalizeLineEndings(content) == KeptChars(content, 0)
    decreases |content|
  {
    if |content| >= 2 && content[..2] == "\r\n" {
      NormalizeLineEndingsDropsCr(content[2..]);
      KeptCharsShift(content, 2);
    } else if |content| >= 2 {
      NormalizeLineEndingsDropsCr(content[1..]);
      KeptCharsShift(content, 1);
    } else if |content| == 1 {
      assert KeptChars(content, 1) == [];
    }
  }

  /** KeptChars from an offset is KeptChars of the suffix, except at a split "\r\n" pair. */
  lemma {:induction false} KeptCharsShift(s: string, d: nat)
    requires (d == 1 || d == 2) && d <= |s|
    requires d == 2 ==> s[..2] == "\r\n"
    requires d == 1 ==> |s| >= 2 && s[..2] != "\r\n"
    ensures KeptChars(s, 0) == (if d == 2 then "\n" else [s[0]]) + KeptChars(s[d..], 0)
  {
    KeptCharsSuffix(s, d, d);
    if d == 2 {
      assert CrBeforeLf(s, 0) && !CrBeforeLf(s, 1);
    }
  }

  /** KeptChars of s from an offset at or after d equals that of s[d..]. */
  lemma {:induction false} KeptCharsSuffix(s: string, d: nat, from: nat)
    requires d <= from <= |s|
    ensures KeptChars(s, from) == KeptChars(s[d..], from - d)
    decreases |s| - from
  {
    if from < |s| {
      KeptCharsSuffix(s, d, from + 1);
      assert CrBeforeLf(s, from) <==> CrBeforeLf(s[d..], from - d);
    }
  }

  /** A text without carriage returns in front of line feeds is left unchanged. */
  lemma NormalizeLineEndingsOnLf(content: string)
    requires !Contains(content, "\r\n")
    ensures NormalizeLineEndings(content) == content
  {
    ReplaceAbsent(content, "\r\n", "\n");
  }

  /** A carriage return in front of a CRLF pair survives one run: the rewrite is not idempotent. */
  lemma NormalizeLineEndingsNotIdempotent()
    ensures NormalizeLineEndings("\r\r\n") == "\r\n"
    ensures NormalizeLineEndings("\r\n") == "\n"
  {
    assert "\r\r\n"[..2] != "\r\n" by { assert "\r\r\n"[..2][1] == '\r'; }
    assert "\r\r\n"[1..] == "\r\n";
    assert "\r\n"[2..] == "";
  }
}
