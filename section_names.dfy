/**
  DocConsolidationTool, part one: how a documentation file's name becomes the title
  of its section in the consolidated guide (fileNameToSectionName), and how that title
  becomes the anchor of its table-of-contents link.
 */
module SectionNames {
  import opened Strings

  // ------------------------------------------------------------------
  // fileNameToSectionName
  // ------------------------------------------------------------------

  /** The four replace calls: ".md" and ".MD" removed, '_' and '-' turned into spaces. */
  function Spaced(fileName: string): string {
    Replace(Replace(Replace(Replace(fileName, ".md", ""), ".MD", ""), "_", " "), "-", " ")
  }

  /** A word with its first character upper-cased and the rest lower-cased. */
  function Capitalised(word: string): string
    requires |word| > 0
  {
    [UpperChar(word[0])] + Lower(word[1..])
  }

  /**
    What the title-case loop has appended after the given words: each non-empty word
    capitalised and followed by one space; empty words add nothing.
   */
  function TitleCase(words: seq<string>): string {
    if |words| == 0 then ""
    else
      var w := words[|words| - 1];
      TitleCase(words[..|words| - 1]) + (if w == "" then "" else Capitalised(w) + " ")
  }

  function SectionName(fileName: string): string {
    Trim(TitleCase(SplitDrop(Spaced(fileName), " ")))
  }

  /** fileNameToSectionName: replace, split at spaces, title-case word by word, trim. */
  method FileNameToSectionName(fileName: string) returns (sectionName: string)
    ensures sectionName == SectionName(fileName)
  {
    var name := Spaced(fileName);
    var words := SplitDrop(name, " ");
    var result := "";
    for i := 0 to |words|
      invariant result == TitleCase(words[..i])
    {
      assert words[..i + 1][..i] == words[..i];
      if words[i] != "" {
        result := result + Capitalised(words[i]) + " ";
      }
    }
    assert words[..|words|] == words;
    sectionName := Trim(result);
  }

  /** The non-empty words, capitalised, in order. */
  function Capitals(words: seq<string>): (r: seq<string>)
    ensures |r| <= |words|
  {
    if |words| == 0 then []
    else
      var w := words[|words| - 1];
      Capitals(words[..|words| - 1]) + (if w == "" then [] else [Capitalised(w)])
  }

  /** The loop's text is the capitalised words joined by single spaces, plus one trailing space. */
  lemma {:induction false} TitleCaseIsJoin(words: seq<string>)
    ensures TitleCase(words) == if Capitals(words) == [] then "" else JoinWith(Capitals(words), " ") + " "
  {
    if |words| > 0 {
      var init, w := words[..|words| - 1], words[|words| - 1];
      TitleCaseIsJoin(init);
      if w != "" {
        var c := Capitalised(w);
        assert Capitals(words) == Capitals(init) + [c];
        assert TitleCase(words) == TitleCase(init) + (c + " ");
        if Capitals(init) == [] {
          assert Capitals(words) == [c];
        } else {
          var j := JoinWith(Capitals(init), " ");
          JoinWithSnoc(Capitals(init), c, " ");
          assert j + " " + (c + " ") == j + " " + c + " ";
        }
      } else {
        assert Capitals(words) == Capitals(init) + [] == Capitals(init);
        assert TitleCase(words) == TitleCase(init) + "" == TitleCase(init);
      }
    }
  }

  /** Empty words at the end, which split without a limit drops, add no capital. */
  lemma {:induction false} CapitalsTrailingEmpty(words: seq<string>, n: nat)
    requires n <= |words| && forall i :: n <= i < |words| ==> words[i] == ""
    ensures Capitals(words[..n]) == Capitals(words)
    decreases |words| - n
  {
    if n < |words| {
      var init := words[..|words| - 1];
      CapitalsTrailingEmpty(init, n);
      assert init[..n] == words[..n];
    } else {
      assert words[..n] == words;
    }
  }

  lemma CapitalsSplitDrop(s: string)
    ensures Capitals(SplitDrop(s, " ")) == Capitals(SplitKeep(s, " "))
  {
    var ls := SplitKeep(s, " ");
    if s == "" {
      assert ls == [""];
      assert Capitals([""]) == Capitals([""][..0]);
    } else {
      CapitalsTrailingEmpty(ls, TrailingEmptyStart(ls));
    }
  }

  /** No character below U+0020: the name holds no control characters. */
  predicate NoControl(s: string) {
    forall i :: 0 <= i < |s| ==> s[i] >= ' '
  }

  lemma {:induction false} ReplaceNoControl(s: string, pat: string, rep: string)
    requires |pat| > 0 && NoControl(s) && NoControl(rep)
    ensures NoControl(Replace(s, pat, rep))
    decreases |s|
  {
    if |s| >= |pat| {
      if s[..|pat|] == pat {
        ReplaceNoControl(s[|pat|..], pat, rep);
      } else {
        ReplaceNoControl(s[1..], pat, rep);
      }
    }
  }

  lemma {:induction false} SplitKeepNoControl(s: string, sep: string)
    requires |sep| > 0 && NoControl(s)
    ensures forall k :: 0 <= k < |SplitKeep(s, sep)| ==> NoControl(SplitKeep(s, sep)[k])
    decreases |s|
  {
    if StartsWith(s, sep) {
      SplitKeepNoControl(s[|sep|..], sep);
    } else if |s| > 0 {
      SplitKeepNoControl(s[1..], sep);
    }
  }

  /** A word of the title: non-empty, upper-cased first, lower-cased after, no space or control character. */
  predicate IsTitleWord(w: string) {
    && |w| > 0
    && UpperChar(w[0]) == w[0]
    && (forall i :: 1 <= i < |w| ==> LowerChar(w[i]) == w[i])
    && (forall i :: 0 <= i < |w| ==> w[i] > ' ')
  }

  lemma CapitalisedIsTitleWord(w: string)
    requires |w| > 0 && NoControl(w) && ' ' !in w
    ensures IsTitleWord(Capitalised(w))
  {
    var c := Capitalised(w);
    assert c[0] == UpperChar(w[0]) && w[0] > ' ';
    forall i | 1 <= i < |c|
      ensures LowerChar(c[i]) == c[i] && c[i] > ' '
    {
      assert c[i] == LowerChar(w[i]) && w[i] != ' ' && w[i] >= ' ';
    }
  }

  /** Words free of spaces and control characters give title words only. */
  lemma {:induction false} CapitalsAreTitleWords(words: seq<string>)
    requires forall k :: 0 <= k < |words| ==> NoControl(words[k]) && ' ' !in words[k]
    ensures forall k :: 0 <= k < |Capitals(words)| ==> IsTitleWord(Capitals(words)[k])
  {
    if |words| > 0 {
      var w := words[|words| - 1];
      CapitalsAreTitleWords(words[..|words| - 1]);
      if w != "" {
        CapitalisedIsTitleWord(w);
      }
    }
  }

  /** The first and last characters of a join of non-empty pieces are those of its end pieces. */
  lemma {:induction false} JoinEnds(ls: seq<string>, sep: string)
    requires |ls| >= 1 && forall k :: 0 <= k < |ls| ==> |ls[k]| > 0
    ensures |JoinWith(ls, sep)| > 0
    ensures JoinWith(ls, sep)[0] == ls[0][0]
    ensures JoinWith(ls, sep)[|JoinWith(ls, sep)| - 1] == ls[|ls| - 1][|ls[|ls| - 1]| - 1]
  {
    if |ls| > 1 {
      JoinEnds(ls[1..], sep);
    }
  }

  /** The title words of a file name, in order. */
  function TitleWords(fileName: string): seq<string> {
    Capitals(SplitKeep(Spaced(fileName), " "))
  }

  lemma TitleWordsShape(fileName: string)
    requires NoControl(fileName)
    ensures forall k :: 0 <= k < |TitleWords(fileName)| ==> IsTitleWord(TitleWords(fileName)[k])
  {
    var name := Spaced(fileName);
    var a := Replace(fileName, ".md", "");
    var b := Replace(a, ".MD", "");
    var c := Replace(b, "_", " ");
    ReplaceNoControl(fileName, ".md", "");
    ReplaceNoControl(a, ".MD", "");
    ReplaceNoControl(b, "_", " ");
    ReplaceNoControl(c, "-", " ");
    SplitKeepNoControl(name, " ");
    SplitKeepPiecesFree(name, ' ');
    CapitalsAreTitleWords(SplitKeep(name, " "));
  }

  /** Title words joined by single spaces, with the loop's trailing space trimmed away. */
  lemma JoinedTitleWords(caps: seq<string>)
    requires |caps| >= 1 && forall k :: 0 <= k < |caps| ==> IsTitleWord(caps[k])
    ensures Trim(JoinWith(caps, " ") + " ") == JoinWith(caps, " ") != ""
    ensures SplitKeep(JoinWith(caps, " "), " ") == caps
  {
    var j := JoinWith(caps, " ");
    TrimDropsTrimmableSuffix(j, " ");
    JoinEnds(caps, " ");
    TrimUntrimmedEnds(j);
    SplitJoin(caps, ' ');
  }

  /**
    For a file name without control characters, the section name is its title words
    joined by single spaces: splitting it at spaces gives exactly those words, none of
    them empty, so there is no leading, trailing or doubled space.
   */
  lemma SectionNameWords(fileName: string)
    requires NoControl(fileName)
    ensures forall k :: 0 <= k < |TitleWords(fileName)| ==> IsTitleWord(TitleWords(fileName)[k])
    ensures SectionName(fileName) == JoinWith(TitleWords(fileName), " ")
    ensures TitleWords(fileName) != [] ==> SplitKeep(SectionName(fileName), " ") == TitleWords(fileName)
    ensures TitleWords(fileName) == [] <==> SectionName(fileName) == ""
  {
    var name := Spaced(fileName);
    TitleWordsShape(fileName);
    CapitalsSplitDrop(name);
    TitleCaseIsJoin(SplitDrop(name, " "));
    if TitleWords(fileName) != [] {
      JoinedTitleWords(TitleWords(fileName));
    }
  }

  /** A file name whose replaced form is words joined by single spaces is named by those words, capitalised. */
  lemma SectionNameOfWords(fileName: string, ws: seq<string>)
    requires NoControl(fileName) && |ws| >= 1
    requires forall k :: 0 <= k < |ws| ==> ' ' !in ws[k]
    requires Spaced(fileName) == JoinWith(ws, " ")
    ensures SectionName(fileName) == JoinWith(Capitals(ws), " ")
  {
    SectionNameWords(fileName);
    SplitJoin(ws, ' ');
  }

  /** The name of a file is its stem, title-cased word by word: SETUP.md gives "Setup". */
  lemma SectionNameSetup()
    ensures SectionName("SETUP.md") == "Setup"
  {
    SpacedSetup();
    SectionNameOfWords("SETUP.md", ["SETUP"]);
    CapitalsSetup();
  }

  /** A stem free of '.', '_' and '-' loses only its ".md". */
  lemma SpacedStem(w: string)
    requires '.' !in w && '_' !in w && '-' !in w
    ensures Spaced(w + ".md") == w
  {
    ReplaceSkips(w, ".md", ".md", "");
    assert ".md"[..3] == ".md" && ".md"[3..] == "";
    assert Replace("", ".md", "") == "";
    assert w + "" == w;
    ReplaceSkips(w, "", ".MD", "");
    ReplaceSkips(w, "", "_", " ");
    ReplaceSkips(w, "", "-", " ");
  }

  lemma SpacedSetup()
    ensures NoControl("SETUP.md") && ' ' !in "SETUP"
    ensures Spaced("SETUP.md") == JoinWith(["SETUP"], " ")
  {
    var f := "SETUP" + ".md";
    assert f == "SETUP.md";
    assert forall i :: 0 <= i < |f| ==> f[i] >= ' ';
    SpacedStem("SETUP");
  }

  lemma CapitalsSetup()
    ensures JoinWith(Capitals(["SETUP"]), " ") == "Setup"
  {
    assert ["SETUP"][..0] == [];
    assert Capitalised("SETUP") == "Setup";
  }

  // ------------------------------------------------------------------
  // The table-of-contents anchor
  // ------------------------------------------------------------------

  /** The characters the anchor pattern [^a-z0-9]+ does not match. */
  predicate IsAnchorChar(c: char) {
    'a' <= c <= 'z' || '0' <= c <= '9'
  }

  /** Where the run of non-anchor characters that starts at i ends. */
  function RunEnd(s: string, i: nat): (j: nat)
    requires i <= |s|
    ensures i <= j <= |s|
    ensures i < |s| && !IsAnchorChar(s[i]) ==> i < j
    decreases |s| - i
  {
    if i < |s| && !IsAnchorChar(s[i]) then RunEnd(s, i + 1) else i
  }

  /** replaceAll("[^a-z0-9]+", "-"): every maximal run of other characters becomes one dash. */
  function DashRuns(s: string): string
    decreases |s|
  {
    if |s| == 0 then ""
    else if IsAnchorChar(s[0]) then [s[0]] + DashRuns(s[1..])
    else "-" + DashRuns(s[RunEnd(s, 0)..])
  }

  /** The anchor: the section name lower-cased, then every non-alphanumeric run a dash. */
  function TocAnchor(sectionName: string): string {
    DashRuns(Lower(sectionName))
  }

  lemma {:induction false} RunEndStopsAtAnchor(s: string, i: nat)
    requires i <= |s|
    ensures RunEnd(s, i) == |s| || IsAnchorChar(s[RunEnd(s, i)])
    decreases |s| - i
  {
    if i < |s| && !IsAnchorChar(s[i]) {
      RunEndStopsAtAnchor(s, i + 1);
    }
  }

  /** An anchor is made of lower-case letters, digits and single dashes. */
  lemma {:induction false} DashRunsShape(s: string)
    ensures forall i :: 0 <= i < |DashRuns(s)| ==> IsAnchorChar(DashRuns(s)[i]) || DashRuns(s)[i] == '-'
    ensures forall i :: 0 <= i < |DashRuns(s)| - 1 ==> DashRuns(s)[i] != '-' || DashRuns(s)[i + 1] != '-'
    ensures |s| > 0 ==> |DashRuns(s)| > 0 && (IsAnchorChar(s[0]) ==> DashRuns(s)[0] == s[0])
    decreases |s|
  {
    if |s| > 0 {
      if IsAnchorChar(s[0]) {
        DashRunsShape(s[1..]);
      } else {
        var j := RunEnd(s, 0);
        RunEndStopsAtAnchor(s, 0);
        DashRunsShape(s[j..]);
      }
    }
  }

  /** Text that is already letters and digits passes through. */
  lemma {:induction false} DashRunsKeepsAnchorText(a: string, t: string)
    requires forall i :: 0 <= i < |a| ==> IsAnchorChar(a[i])
    ensures DashRuns(a + t) == a + DashRuns(t)
    decreases |a|
  {
    if |a| > 0 {
      assert (a + t)[1..] == a[1..] + t;
      DashRunsKeepsAnchorText(a[1..], t);
    } else {
      assert a + t == t;
    }
  }

  /** A space before a letter or digit becomes one dash. */
  lemma DashRunsSpace(t: string)
    requires |t| > 0 && IsAnchorChar(t[0])
    ensures DashRuns(" " + t) == "-" + DashRuns(t)
  {
    var s := " " + t;
    assert RunEnd(s, 1) == 1;
    assert s[1..] == t;
  }

  /** Words whose lower-case forms are letters and digits only. */
  predicate AnchorWords(ws: seq<string>) {
    forall k :: 0 <= k < |ws| ==> |ws[k]| > 0 && forall i :: 0 <= i < |ws[k]| ==> IsAnchorChar(LowerChar(ws[k][i]))
  }

  function LowerAll(ws: seq<string>): (r: seq<string>)
    ensures |r| == |ws| && forall k :: 0 <= k < |ws| ==> r[k] == Lower(ws[k])
  {
    if |ws| == 0 then [] else [Lower(ws[0])] + LowerAll(ws[1..])
  }

  /** One step of the join: a word, a space, and the rest starting with a letter or digit. */
  lemma AnchorStep(w: string, rest: string)
    requires forall i :: 0 <= i < |w| ==> IsAnchorChar(LowerChar(w[i]))
    requires |rest| > 0 && IsAnchorChar(LowerChar(rest[0]))
    ensures TocAnchor(w + " " + rest) == Lower(w) + "-" + TocAnchor(rest)
  {
    LowerAppend(w + " ", rest);
    LowerAppend(w, " ");
    assert Lower(" ") == " ";
    assert Lower(w + " " + rest) == Lower(w) + (" " + Lower(rest));
    DashRunsKeepsAnchorText(Lower(w), " " + Lower(rest));
    DashRunsSpace(Lower(rest));
  }

  /**
    The anchor of words joined by single spaces is the words lower-cased and joined by
    dashes: the link [Getting Started](#getting-started).
   */
  lemma {:induction false} AnchorOfWords(ws: seq<string>)
    requires |ws| >= 1 && AnchorWords(ws)
    ensures TocAnchor(JoinWith(ws, " ")) == JoinWith(LowerAll(ws), "-")
    decreases |ws|
  {
    var w := ws[0];
    if |ws| == 1 {
      DashRunsKeepsAnchorText(Lower(w), "");
      assert Lower(w) + "" == Lower(w);
    } else {
      var rest := JoinWith(ws[1..], " ");
      AnchorOfWords(ws[1..]);
      JoinEnds(ws[1..], " ");
      AnchorStep(w, rest);
      assert LowerAll(ws)[1..] == LowerAll(ws[1..]);
    }
  }

  /** The anchor of the link to a one-word section: #setup. */
  lemma TocAnchorSetup()
    ensures TocAnchor("Setup") == "setup"
  {
    assert Lower("Setup") == "setup";
    DashRunsKeepsAnchorText("setup", "");
    assert "setup" + "" == "setup";
  }

  /** Words become lower-case and a space a dash: #getting-started. */
  lemma TocAnchorGettingStarted()
    ensures TocAnchor("Getting Started") == "getting-started"
  {
    var ws := ["Getting", "Started"];
    assert AnchorWords(ws);
    AnchorOfWords(ws);
    assert JoinWith(ws, " ") == "Getting Started";
    LowerGettingStarted();
    assert JoinWith(["getting", "started"], "-") == "getting-started";
  }

  lemma LowerGettingStarted()
    ensures LowerAll(["Getting", "Started"]) == ["getting", "started"]
  {
    assert Lower("Getting") == "getting";
    assert Lower("Started") == "started";
  }
}
