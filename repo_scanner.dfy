/**
  RepoScannerTool: the heuristics that look at a repository without reading file
  contents. The directory walk and the existence probes are replaced by their results:
  the set of file names present at the repository root, and the list of regular files
  the walk visits, each with its own name and its path relative to the root.
 */
module RepoScanner {
  import opened Strings
  import opened Domain

  // ------------------------------------------------------------------
  // detectBuildSystem
  // ------------------------------------------------------------------

  /** The root files whose presence decides the build system. */
  const MavenMarkers: set<string> := {"pom.xml", "mvnw"}
  const GradleMarkers: set<string> := {"build.gradle", "build.gradle.kts", "gradlew"}
  const MakeMarkers: set<string> := {"Makefile"}

  function DetectBuildSystem(rootFiles: set<string>): BuildSystem {
    if "pom.xml" in rootFiles || "mvnw" in rootFiles then Maven
    else if "build.gradle" in rootFiles || "build.gradle.kts" in rootFiles || "gradlew" in rootFiles then Gradle
    else if "Makefile" in rootFiles then Makefile
    else Other
  }

  /**
    Detection is a priority order over the marker files: Maven wins over Gradle,
    Gradle over Make, and a repository with no marker is Other.
   */
  lemma DetectBuildSystemOrder(rootFiles: set<string>)
    ensures DetectBuildSystem(rootFiles) == Maven <==> rootFiles * MavenMarkers != {}
    ensures DetectBuildSystem(rootFiles) == Gradle
            <==> rootFiles * MavenMarkers == {} && rootFiles * GradleMarkers != {}
    ensures DetectBuildSystem(rootFiles) == Makefile
            <==> rootFiles * (MavenMarkers + GradleMarkers) == {} && "Makefile" in rootFiles
    ensures DetectBuildSystem(rootFiles) == Other
            <==> rootFiles * (MavenMarkers + GradleMarkers + MakeMarkers) == {}
  {
    if "pom.xml" in rootFiles { assert "pom.xml" in rootFiles * MavenMarkers; }
    if "mvnw" in rootFiles { assert "mvnw" in rootFiles * MavenMarkers; }
    if "build.gradle" in rootFiles { assert "build.gradle" in rootFiles * GradleMarkers; }
    if "build.gradle.kts" in rootFiles { assert "build.gradle.kts" in rootFiles * GradleMarkers; }
    if "gradlew" in rootFiles { assert "gradlew" in rootFiles * GradleMarkers; }
    if "Makefile" in rootFiles { assert "Makefile" in rootFiles * MakeMarkers; }
  }

  /** Only the six marker names matter: every other file leaves the answer alone. */
  lemma DetectBuildSystemMarkersOnly(rootFiles: set<string>, others: set<string>)
    requires others * (MavenMarkers + GradleMarkers + MakeMarkers) == {}
    ensures DetectBuildSystem(rootFiles + others) == DetectBuildSystem(rootFiles)
  {
    assert "pom.xml" !in others && "mvnw" !in others;
    assert "build.gradle" !in others && "build.gradle.kts" !in others && "gradlew" !in others;
    assert "Makefile" !in others;
  }

  // ------------------------------------------------------------------
  // isIgnoredPath / findMarkdownFiles
  // ------------------------------------------------------------------

  /** The substrings that exclude a relative path from the markdown search. */
  const IgnoredParts: seq<string> := ["node_modules", ".git", "target", "build", ".idea", ".vscode"]

  /** isIgnoredPath on the path relative to the repository root: a plain substring test. */
  predicate IsIgnoredPath(relative: string) {
    Contains(relative, "node_modules") || Contains(relative, ".git") || Contains(relative, "target")
    || Contains(relative, "build") || Contains(relative, ".idea") || Contains(relative, ".vscode")
  }

  /** A path is ignored exactly when one of the ignored parts occurs in it. */
  lemma IgnoredPathMeaning(relative: string)
    ensures IsIgnoredPath(relative) <==> exists k :: 0 <= k < |IgnoredParts| && Contains(relative, IgnoredParts[k])
  {
    if IsIgnoredPath(relative) {
      if Contains(relative, "node_modules") { assert Contains(relative, IgnoredParts[0]); }
      else if Contains(relative, ".git") { assert Contains(relative, IgnoredParts[1]); }
      else if Contains(relative, "target") { assert Contains(relative, IgnoredParts[2]); }
      else if Contains(relative, "build") { assert Contains(relative, IgnoredParts[3]); }
      else if Contains(relative, ".idea") { assert Contains(relative, IgnoredParts[4]); }
      else { assert Contains(relative, IgnoredParts[5]); }
    }
  }

  /** Everything below an ignored path, and anything that embeds one, is ignored too. */
  lemma IgnoredPathWithin(relative: string, prefix: string, suffix: string)
    requires IsIgnoredPath(relative)
    ensures IsIgnoredPath(prefix + relative + suffix)
  {
    IgnoredPathMeaning(relative);
    var k :| 0 <= k < |IgnoredParts| && Contains(relative, IgnoredParts[k]);
    ContainsAppend(relative, IgnoredParts[k], prefix, suffix);
    IgnoredPathMeaning(prefix + relative + suffix);
  }

  /**
    Because the test is on substrings rather than path segments, files whose names
    merely contain an ignored word are skipped as well, such as anything under .github.
   */
  lemma GithubFolderIgnored(rest: string)
    ensures IsIgnoredPath(".github/" + rest)
  {
    var p := ".github/" + rest;
    assert p[0..4] == ".git";
    assert OccursAt(p, ".git", 0);
  }

  /** A regular file met by the directory walk. */
  datatype WalkedFile = WalkedFile(name: string, relative: string)

  /** The filters of findMarkdownFiles: a lower-case ".md" name outside ignored paths. */
  predicate IsMarkdownFile(f: WalkedFile) {
    EndsWith(Lower(f.name), ".md") && !IsIgnoredPath(f.relative)
  }

  /** The walked files that pass, in walk order. */
  function MarkdownFiles(walked: seq<WalkedFile>): (r: seq<WalkedFile>)
    ensures |r| <= |walked|
  {
    if |walked| == 0 then []
    else MarkdownFiles(walked[..|walked| - 1]) + (if IsMarkdownFile(walked[|walked| - 1]) then [walked[|walked| - 1]] else [])
  }

  /** findMarkdownFiles over the walk's regular files: one pass adding each match to the list. */
  method FindMarkdownFiles(walked: seq<WalkedFile>) returns (markdownFiles: seq<WalkedFile>)
    ensures markdownFiles == MarkdownFiles(walked)
  {
    markdownFiles := [];
    for i := 0 to |walked|
      invariant markdownFiles == MarkdownFiles(walked[..i])
    {
      assert walked[..i + 1][..i] == walked[..i];
      var name := Lower(walked[i].name);
      if EndsWith(name, ".md") && !IsIgnoredPath(walked[i].relative) {
        markdownFiles := markdownFiles + [walked[i]];
      }
    }
    assert walked[..|walked|] == walked;
  }

  /** A file is selected exactly when it was walked and passes both filters. */
  lemma {:induction false} MarkdownFilesMeaning(walked: seq<WalkedFile>, f: WalkedFile)
    ensures f in MarkdownFiles(walked) <==> f in walked && IsMarkdownFile(f)
  {
    if |walked| > 0 {
      var init := walked[..|walked| - 1];
      MarkdownFilesMeaning(init, f);
      assert walked == init + [walked[|walked| - 1]];
    }
  }

  /** The name test ignores case: README.MD is selected like readme.md. */
  lemma MarkdownNameIgnoresCase(stem: string, relative: string)
    requires !IsIgnoredPath(relative)
    ensures IsMarkdownFile(WalkedFile(stem + ".MD", relative))
    ensures IsMarkdownFile(WalkedFile(stem + ".md", relative))
  {
    LowerAppend(stem, ".MD");
    LowerAppend(stem, ".md");
    assert Lower(".MD") == ".md" == Lower(".md");
  }

  // ------------------------------------------------------------------
  // generateTestCommandSnippet / needsTestSection
  // ------------------------------------------------------------------

  const TestHeading := "## How to Run Tests\n"

  /** The lines inside the bash fence, per build system. */
  function TestCommands(b: BuildSystem): string {
    match b
    case Maven => "# Using Maven wrapper (recommended)\n" + MavenWrapperTest + "\n\n# Or with installed Maven\nmvn test\n"
    case Gradle => "# Using Gradle wrapper (recommended)\n" + GradleWrapperTest + "\n\n# Or with installed Gradle\ngradle test\n"
    case Makefile => "make test\n"
    case Other => "# Add your test command here\n"
  }

  const MavenWrapperTest := "./mvnw test"
  const GradleWrapperTest := "./gradlew test"

  /** The text block of generateTestCommandSnippet, indentation stripped as Java does. */
  function TestCommandSnippet(b: BuildSystem): string {
    TestHeading + "\n" + "```bash\n" + TestCommands(b) + "```\n"
  }

  /**
    Every snippet opens with the test heading, then an empty line, and closes with a
    bash fence holding the build system's commands.
   */
  lemma SnippetShape(b: BuildSystem)
    ensures StartsWith(TestCommandSnippet(b), TestHeading + "\n")
    ensures OccursAt(TestCommandSnippet(b), "```bash\n" + TestCommands(b) + "```\n", |TestHeading| + 1)
  {
    FiveParts(TestHeading, "\n", "```bash\n", TestCommands(b), "```\n");
    var s := TestCommandSnippet(b);
    assert s[..|TestHeading| + 1] == TestHeading + "\n";
  }

  /** The Maven snippet runs the Maven wrapper, the Gradle snippet the Gradle wrapper. */
  lemma SnippetWrapperCommands(b: BuildSystem)
    ensures b == Maven ==> Contains(TestCommandSnippet(b), "./mvnw test")
    ensures b == Gradle ==> Contains(TestCommandSnippet(b), "./gradlew test")
  {
    FiveParts(TestHeading, "\n", "```bash\n", TestCommands(b), "```\n");
    var s := TestCommandSnippet(b);
    var at := |TestHeading| + 1 + 8;
    if b == Maven {
      var pre := "# Using Maven wrapper (recommended)\n";
      MiddlePart(pre, MavenWrapperTest, "\n\n# Or with installed Maven\nmvn test\n");
      assert s[at + |pre|..at + |pre| + |MavenWrapperTest|] == TestCommands(b)[|pre|..|pre| + |MavenWrapperTest|];
      assert OccursAt(s, MavenWrapperTest, at + |pre|);
    } else if b == Gradle {
      var pre := "# Using Gradle wrapper (recommended)\n";
      MiddlePart(pre, GradleWrapperTest, "\n\n# Or with installed Gradle\ngradle test\n");
      assert s[at + |pre|..at + |pre| + |GradleWrapperTest|] == TestCommands(b)[|pre|..|pre| + |GradleWrapperTest|];
      assert OccursAt(s, GradleWrapperTest, at + |pre|);
    }
  }

  /** Each build system gets its own snippet. */
  lemma SnippetsDiffer(b: BuildSystem, c: BuildSystem)
    requires b != c
    ensures TestCommandSnippet(b) != TestCommandSnippet(c)
  {
    var lb, lc := |TestCommands(b)|, |TestCommands(c)|;
    assert lb != lc;
    assert |TestCommandSnippet(b)| == |TestHeading| + 1 + 8 + lb + 4;
    assert |TestCommandSnippet(c)| == |TestHeading| + 1 + 8 + lc + 4;
  }

  predicate NeedsTestSection(content: string) {
    var lower := Lower(content);
    !Contains(lower, "run test") && !Contains(lower, "running test") && !Contains(lower, "test command")
  }

  /** Mentioning a test command in any capitalisation counts as having a test section. */
  lemma NeedsTestSectionCaseBlind(content: string, before: string, after: string)
    requires Lower(content) == "run test" || Lower(content) == "running test" || Lower(content) == "test command"
    ensures !NeedsTestSection(before + content + after)
  {
    var s := before + content + after;
    assert s[|before|..|before| + |content|] == content;
    assert OccursAt(s, content, |before|);
    LowerContains(s, content);
  }

  /** The test heading holds "Run Test"... */
  lemma HeadingMentionsRunTest()
    ensures Contains(TestHeading, "Run Test")
  {
    MiddlePart("## How to ", "Run Test", "s\n");
    assert TestHeading == "## How to " + "Run Test" + "s\n";
  }

  /** ...which lowercases to "run test". */
  lemma LowerRunTest()
    ensures Lower("Run Test") == "run test"
  {
    var l := Lower("Run Test");
    assert l[0] == 'r' && l[4] == 't';
  }

  /**
    Once a generated snippet is in the text, no further one is asked for: the heading
    "How to Run Tests" lowercases to contain "run test".
   */
  lemma SnippetSatisfiesTestSection(b: BuildSystem, before: string, after: string)
    ensures !NeedsTestSection(before + TestCommandSnippet(b) + after)
  {
    var s := TestCommandSnippet(b);
    FiveParts(TestHeading, "\n", "```bash\n", TestCommands(b), "```\n");
    StartsWithContains(s, TestHeading);
    HeadingMentionsRunTest();
    LowerRunTest();
    ContainsTransitive(s, TestHeading, "Run Test");
    ContainsAppend(s, "Run Test", before, after);
    LowerContains(before + s + after, "Run Test");
  }
}
