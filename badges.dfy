/**
  BadgeTool: the shields.io badge line for a README (build system, JDK version,
  license), the license detection behind it and the test for existing badges.
  The repository directory is given as the set of file names that exist in it and the
  contents of those that can be read; a name that exists but has no content stands for
  a file whose reading fails.
 */
module Badges {
  import opened Wrappers
  import opened Strings
  import opened Domain

  // ------------------------------------------------------------------
  // Badge markup
  // ------------------------------------------------------------------

  const Shields := "shields.io"

  /** Every badge is an image "![alt](https://img.shields.io/badge/<path>)". */
  function ShieldsBadge(alt: string, path: string): string {
    "![" + alt + "](https://img." + Shields + "/badge/" + path + ")"
  }

  const MavenBadge := ShieldsBadge("Maven Build", "build-maven-blue")
  const GradleBadge := ShieldsBadge("Gradle Build", "build-gradle-blue")

  function JdkBadge(version: string): string {
    ShieldsBadge("JDK " + version, "JDK-" + version + "-orange")
  }

  function LicenseBadge(license: string): string {
    ShieldsBadge("License", "license-" + license + "-green")
  }

  /** content.contains("![") && content.contains("shields.io") */
  predicate HasBadges(content: string) {
    Contains(content, "![") && Contains(content, Shields)
  }

  /** Every badge starts with "![" and names shields.io. */
  lemma ShieldsBadgeShape(alt: string, path: string)
    ensures StartsWith(ShieldsBadge(alt, path), "![")
    ensures Contains(ShieldsBadge(alt, path), Shields)
    ensures ShieldsBadge(alt, path)[..2] == "![" && (|alt| > 0 ==> ShieldsBadge(alt, path)[2] == alt[0])
  {
    var b := ShieldsBadge(alt, path);
    var pre := "![" + alt + "](https://img.";
    assert b == pre + Shields + ("/badge/" + path + ")");
    assert OccursAt(b, Shields, |pre|) by {
      assert b[|pre|..|pre| + |Shields|] == Shields;
    }
  }

  // ------------------------------------------------------------------
  // detectLicense
  // ------------------------------------------------------------------

  /** The licenses detectLicense tells apart. */
  datatype License = Apache | Mit | Gpl3 | Lgpl | Bsd | Custom

  /** The label put into the badge. */
  function Label(l: License): string {
    match l
    case Apache => "Apache-2.0"
    case Mit => "MIT"
    case Gpl3 => "GPL-3.0"
    case Lgpl => "LGPL"
    case Bsd => "BSD"
    case Custom => "Custom"
  }

  /** The lowercase phrase that identifies each license other than Custom. */
  function Phrase(l: License): string
    requires l != Custom
  {
    match l
    case Apache => "apache license"
    case Mit => "mit license"
    case Gpl3 => "gnu general public license v3"
    case Lgpl => "gnu lesser general public license"
    case Bsd => "bsd"
  }

  /** The position of a license in the order the phrases are tried. */
  function Rank(l: License): nat {
    match l
    case Apache => 0
    case Mit => 1
    case Gpl3 => 2
    case Lgpl => 3
    case Bsd => 4
    case Custom => 5
  }

  /** The if/else chain over the lowercased license text. */
  function LicenseOfText(lower: string): License {
    if Contains(lower, "apache license") then Apache
    else if Contains(lower, "mit license") then Mit
    else if Contains(lower, "gnu general public license v3") then Gpl3
    else if Contains(lower, "gnu lesser general public license") then Lgpl
    else if Contains(lower, "bsd") then Bsd
    else Custom
  }

  /**
    The license found is the first in phrase order whose phrase the text contains; it
    is Custom exactly when the text contains none of the phrases.
   */
  lemma LicenseOfTextFirstPhrase(lower: string)
    ensures var l := LicenseOfText(lower);
            && (l != Custom ==> Contains(lower, Phrase(l)))
            && (forall k: License :: k != Custom && Rank(k) < Rank(l) ==> !Contains(lower, Phrase(k)))
  {
  }

  const LicenseCandidates := ["LICENSE", "LICENSE.txt", "LICENSE.md", "COPYING"]

  /** A repository directory: the names that exist and the readable contents among them. */
  datatype RepoDir = RepoDir(existing: set<string>, contents: map<string, string>)

  /** The first of names that exists in the directory. */
  function FirstExisting(names: seq<string>, existing: set<string>): (r: Option<string>)
    ensures r.Some? ==> r.value in existing && r.value in names
    ensures r.None? ==> forall k :: 0 <= k < |names| ==> names[k] !in existing
  {
    if |names| == 0 then None
    else if names[0] in existing then Some(names[0])
    else FirstExisting(names[1..], existing)
  }

  /**
    detectLicense: no repository or no license file gives no license; a file that cannot
    be read, or whose text names none of the known licenses, gives "Custom".
   */
  function DetectedLicense(repo: Option<RepoDir>): Option<string> {
    if repo.None? then None
    else match FirstExisting(LicenseCandidates, repo.value.existing)
      case None => None
      case Some(name) =>
        if name in repo.value.contents then Some(Label(LicenseOfText(Lower(repo.value.contents[name]))))
        else Some(Label(Custom))
  }

  /** detectLicense: the candidate loop with its early break, then the phrase chain. */
  method DetectLicense(repo: Option<RepoDir>) returns (license: Option<string>)
    ensures license == DetectedLicense(repo)
  {
    if repo.None? {
      return None;
    }
    var licenseFile: Option<string> := None;
    var i := 0;
    while i < |LicenseCandidates|
      invariant 0 <= i <= |LicenseCandidates|
      invariant licenseFile.None? ==> FirstExisting(LicenseCandidates[i..], repo.value.existing)
                                       == FirstExisting(LicenseCandidates, repo.value.existing)
      invariant licenseFile.Some? ==> licenseFile == FirstExisting(LicenseCandidates, repo.value.existing)
    {
      var name := LicenseCandidates[i];
      if name in repo.value.existing {
        licenseFile := Some(name);
        break;
      }
      assert LicenseCandidates[i..][1..] == LicenseCandidates[i + 1..];
      i := i + 1;
    }
    if licenseFile.None? {
      assert LicenseCandidates[|LicenseCandidates|..] == [];
      return None;
    }
    var name := licenseFile.value;
    if name in repo.value.contents {
      var lower := Lower(repo.value.contents[name]);
      license := Some(Label(LicenseOfText(lower)));
    } else {
      license := Some("Custom");
    }
  }

  /** There is no license exactly when there is no repository or none of the candidate files exists. */
  lemma DetectedLicenseNoneIff(repo: Option<RepoDir>)
    ensures DetectedLicense(repo).None? <==>
              repo.None? || forall k :: 0 <= k < |LicenseCandidates| ==> LicenseCandidates[k] !in repo.value.existing
  {
    if repo.Some? && FirstExisting(LicenseCandidates, repo.value.existing).Some? {
      var name := FirstExisting(LicenseCandidates, repo.value.existing).value;
      var k :| 0 <= k < |LicenseCandidates| && LicenseCandidates[k] == name;
    }
  }

  /** A detected license is one of the six labels. */
  lemma DetectedLicenseLabel(repo: Option<RepoDir>)
    requires DetectedLicense(repo).Some?
    ensures exists l: License :: DetectedLicense(repo).value == Label(l)
  {
    var name := FirstExisting(LicenseCandidates, repo.value.existing).value;
    if name !in repo.value.contents {
      assert DetectedLicense(repo).value == Label(Custom);
    }
  }

  // ------------------------------------------------------------------
  // generateBadgeSection
  // ------------------------------------------------------------------

  /** A jdkVersion that is neither null nor blank. */
  predicate HasJdk(jdkVersion: Option<string>) {
    jdkVersion.Some? && !IsBlank(jdkVersion.value)
  }

  /** The badges of the section, in order: build, JDK, license. */
  function BadgeList(build: BuildSystem, jdkVersion: Option<string>, license: Option<string>): (r: seq<string>)
    ensures |r| <= 3
  {
    BuildBadges(build) + JdkBadges(jdkVersion) + LicenseBadges(license)
  }

  function BuildBadges(build: BuildSystem): seq<string> {
    if build == Maven then [MavenBadge] else if build == Gradle then [GradleBadge] else []
  }

  function JdkBadges(jdkVersion: Option<string>): seq<string> {
    if HasJdk(jdkVersion) then [JdkBadge(jdkVersion.value)] else []
  }

  function LicenseBadges(license: Option<string>): seq<string> {
    if license.Some? then [LicenseBadge(license.value)] else []
  }

  /** The section: "" for no badges, else the badges joined by one space and two newlines. */
  function BadgeSection(build: BuildSystem, jdkVersion: Option<string>, license: Option<string>): string {
    var badges := BadgeList(build, jdkVersion, license);
    if |badges| == 0 then "" else JoinWith(badges, " ") + "\n\n"
  }

  /** generateBadgeSection: the ArrayList of badges, then String.join. */
  method GenerateBadgeSection(build: BuildSystem, jdkVersion: Option<string>, repo: Option<RepoDir>)
    returns (section: string)
    ensures section == BadgeSection(build, jdkVersion, DetectedLicense(repo))
  {
    var badges: seq<string> := [];
    if build == Maven {
      badges := badges + [MavenBadge];
    } else if build == Gradle {
      badges := badges + [GradleBadge];
    }
    if jdkVersion.Some? && !IsBlank(jdkVersion.value) {
      badges := badges + [JdkBadge(jdkVersion.value)];
    }
    assert badges == BuildBadges(build) + JdkBadges(jdkVersion);
    var license := DetectLicense(repo);
    if license.Some? {
      badges := badges + [LicenseBadge(license.value)];
    }
    assert badges == BadgeList(build, jdkVersion, license);
    if |badges| == 0 {
      return "";
    }
    section := JoinWith(badges, " ") + "\n\n";
  }

  /** The section is empty exactly when there is no build badge, no JDK badge and no license. */
  lemma BadgeSectionEmptyIff(build: BuildSystem, jdkVersion: Option<string>, license: Option<string>)
    ensures BadgeSection(build, jdkVersion, license) == "" <==>
              build != Maven && build != Gradle && !HasJdk(jdkVersion) && license.None?
  {
    var badges := BadgeList(build, jdkVersion, license);
    if |badges| > 0 {
      assert |JoinWith(badges, " ") + "\n\n"| > 0;
    }
  }

  /** A text that starts with a badge is recognised by hasBadges. */
  lemma StartsWithBadge(s: string, alt: string, path: string)
    requires StartsWith(s, ShieldsBadge(alt, path))
    ensures HasBadges(s)
  {
    var b := ShieldsBadge(alt, path);
    ShieldsBadgeShape(alt, path);
    assert s == [] + b + s[|b|..];
    StartsWithContains(b, "![");
    ContainsAppend(b, "![", [], s[|b|..]);
    ContainsAppend(b, Shields, [], s[|b|..]);
  }

  /** The first badge of a non-empty list is a shields.io badge. */
  lemma FirstBadge(build: BuildSystem, jdkVersion: Option<string>, license: Option<string>)
    returns (alt: string, path: string)
    requires |BadgeList(build, jdkVersion, license)| > 0
    ensures BadgeList(build, jdkVersion, license)[0] == ShieldsBadge(alt, path)
  {
    if build == Maven {
      alt, path := "Maven Build", "build-maven-blue";
    } else if build == Gradle {
      alt, path := "Gradle Build", "build-gradle-blue";
    } else if HasJdk(jdkVersion) {
      alt, path := "JDK " + jdkVersion.value, "JDK-" + jdkVersion.value + "-orange";
    } else {
      alt, path := "License", "license-" + license.value + "-green";
    }
  }

  /** A section that is not empty is recognised by hasBadges, so badges are never added twice. */
  lemma BadgeSectionHasBadges(build: BuildSystem, jdkVersion: Option<string>, license: Option<string>)
    requires BadgeSection(build, jdkVersion, license) != ""
    ensures HasBadges(BadgeSection(build, jdkVersion, license))
  {
    var badges := BadgeList(build, jdkVersion, license);
    var alt, path := FirstBadge(build, jdkVersion, license);
    JoinWithStartsWithFirst(badges, " ");
    StartsWithAppend(JoinWith(badges, " "), "\n\n", badges[0]);
    StartsWithBadge(BadgeSection(build, jdkVersion, license), alt, path);
  }

  /** A build badge is one of the two build-system images. */
  predicate IsBuildBadge(b: string) {
    b == MavenBadge || b == GradleBadge
  }

  /** The badges tell themselves apart by the first letter of their alt text. */
  lemma BadgeAltLetters(version: string, license: string)
    ensures MavenBadge[2] == 'M' && GradleBadge[2] == 'G'
    ensures |JdkBadge(version)| > 2 && JdkBadge(version)[2] == 'J'
    ensures |LicenseBadge(license)| > 2 && LicenseBadge(license)[2] == 'L'
  {
    ShieldsBadgeShape("Maven Build", "build-maven-blue");
    ShieldsBadgeShape("Gradle Build", "build-gradle-blue");
    ShieldsBadgeShape("JDK " + version, "JDK-" + version + "-orange");
    ShieldsBadgeShape("License", "license-" + license + "-green");
  }

  /** A build badge is in the list exactly when the build system is Maven or Gradle. */
  lemma BuildBadgeIff(build: BuildSystem, jdkVersion: Option<string>, license: Option<string>)
    ensures (exists k :: 0 <= k < |BadgeList(build, jdkVersion, license)| && IsBuildBadge(BadgeList(build, jdkVersion, license)[k]))
            <==> build == Maven || build == Gradle
  {
    var badges := BadgeList(build, jdkVersion, license);
    var v := if jdkVersion.Some? then jdkVersion.value else "";
    var l := if license.Some? then license.value else "";
    BadgeAltLetters(v, l);
    if build == Maven || build == Gradle {
      assert IsBuildBadge(badges[0]);
    } else {
      forall k | 0 <= k < |badges| ensures !IsBuildBadge(badges[k]) {
        assert badges[k] == JdkBadge(v) || badges[k] == LicenseBadge(l);
      }
    }
  }

  /** A JDK badge: its alt text starts with "JDK ". */
  predicate IsJdkBadge(b: string) {
    StartsWith(b, "![JDK ")
  }

  /** Only the JDK badge has an alt text starting with "JDK ". */
  lemma JdkBadgeAlone(version: string, license: string)
    ensures IsJdkBadge(JdkBadge(version))
    ensures !IsJdkBadge(MavenBadge) && !IsJdkBadge(GradleBadge) && !IsJdkBadge(LicenseBadge(license))
  {
    var b := JdkBadge(version);
    assert b == "![JDK " + (version + "](https://img." + Shields + "/badge/JDK-" + version + "-orange)");
    OtherBadgesNotJdk(license);
  }

  lemma OtherBadgesNotJdk(license: string)
    ensures !IsJdkBadge(MavenBadge) && !IsJdkBadge(GradleBadge) && !IsJdkBadge(LicenseBadge(license))
  {
    BadgeAltLetters("", license);
    var jdk := "![JDK ";
    assert jdk[2] == 'J';
    forall b | b in {MavenBadge, GradleBadge, LicenseBadge(license)} ensures !StartsWith(b, jdk) {
      assert |b| > 2 && b[2] != jdk[2];
    }
  }

  /**
    A JDK badge is in the list exactly when jdkVersion is present and not blank, and
    then it is the badge for that version.
   */
  lemma JdkBadgeIff(build: BuildSystem, jdkVersion: Option<string>, license: Option<string>)
    ensures (exists k :: 0 <= k < |BadgeList(build, jdkVersion, license)| && IsJdkBadge(BadgeList(build, jdkVersion, license)[k]))
            <==> HasJdk(jdkVersion)
    ensures HasJdk(jdkVersion) ==> JdkBadge(jdkVersion.value) in BadgeList(build, jdkVersion, license)
  {
    var badges := BadgeList(build, jdkVersion, license);
    var bs, ls := BuildBadges(build), LicenseBadges(license);
    var v := if jdkVersion.Some? then jdkVersion.value else "";
    var l := if license.Some? then license.value else "";
    JdkBadgeAlone(v, l);
    if HasJdk(jdkVersion) {
      assert badges == bs + [JdkBadge(v)] + ls;
      assert badges[|bs|] == JdkBadge(v);
    } else {
      assert badges == bs + ls;
      forall k | 0 <= k < |badges| ensures !IsJdkBadge(badges[k]) {
        if k < |bs| {
          assert badges[k] == MavenBadge || badges[k] == GradleBadge;
        } else {
          assert badges[k] == LicenseBadge(l);
        }
      }
    }
  }
}
