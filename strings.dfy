/**
  The parts of java.lang.String that the polishing tools rely on, over Dafny strings
  (sequences of Unicode scalar values).  Case mapping is ASCII-only.
 */
module Strings {

  // ------------------------------------------------------------------
  // Character classes
  // ------------------------------------------------------------------

  /** The characters String.trim() strips: every code point up to U+0020. */
  predicate IsTrimmable(c: char) {
    c <= ' '
  }

  /** Character.isWhitespace, the test behind String.isBlank(). */
  predicate IsWhitespace(c: char) {
    || c == ' ' || c == '\t' || c == '\n' || c == '\U{B}' || c == '\U{C}' || c == '\r'
    || ('\U{1C}' <= c <= '\U{1F}')
    || c == '\U{1680}' || ('\U{2000}' <= c <= '\U{2006}') || ('\U{2008}' <= c <= '\U{200A}')
    || c == '\U{2028}' || c == '\U{2029}' || c == '\U{205F}' || c == '\U{3000}'
  }

  /** The regex class `\s` (without UNICODE_CHARACTER_CLASS): [ \t\n\x0B\f\r]. */
  predicate IsRegexSpace(c: char) {
    c == ' ' || c == '\t' || c == '\n' || c == '\U{B}' || c == '\U{C}' || c == '\r'
  }

  lemma RegexSpaceIsTrimmable(c: char)
    ensures IsRegexSpace(c) ==> IsTrimmable(c)
  {
  }

  // ------------------------------------------------------------------
  // trim / isBlank
  // ------------------------------------------------------------------

  /** Drops the leading characters up to U+0020. */
  function TrimStart(s: string): string {
    if |s| > 0 && IsTrimmable(s[0]) then TrimStart(s[1..]) else s
  }

  /** Drops the trailing characters up to U+0020. */
  function TrimEnd(s: string): string {
    if |s| > 0 && IsTrimmable(s[|s| - 1]) then TrimEnd(s[..|s| - 1]) else s
  }

  /** String.trim(): drops every leading and trailing character up to U+0020. */
  function Trim(s: string): string {
    TrimStart(TrimEnd(s))
  }

  predicate AllTrimmable(s: string) {
    forall i :: 0 <= i < |s| ==> IsTrimmable(s[i])
  }

  /** TrimStart removes a trimmable prefix and leaves a string that starts untrimmable. */
  lemma {:induction false} TrimStartShape(s: string)
    ensures |TrimStart(s)| <= |s| && TrimStart(s) == s[|s| - |TrimStart(s)|..]
    ensures AllTrimmable(s[..|s| - |TrimStart(s)|])
    ensures TrimStart(s) == [] || !IsTrimmable(TrimStart(s)[0])
  {
    if |s| > 0 && IsTrimmable(s[0]) {
      TrimStartShape(s[1..]);
      var k := |s[1..]| - |TrimStart(s[1..])|;
      assert s[..k + 1] == [s[0]] + s[1..][..k];
    }
  }

  /** TrimEnd removes a trimmable suffix and leaves a string that ends untrimmable. */
  lemma {:induction false} TrimEndShape(s: string)
    ensures |TrimEnd(s)| <= |s| && TrimEnd(s) == s[..|TrimEnd(s)|]
    ensures AllTrimmable(s[|TrimEnd(s)|..])
    ensures TrimEnd(s) == [] || !IsTrimmable(TrimEnd(s)[|TrimEnd(s)| - 1])
  {
    if |s| > 0 && IsTrimmable(s[|s| - 1]) {
      var t := s[..|s| - 1];
      TrimEndShape(t);
      assert s[|TrimEnd(t)|..] == t[|TrimEnd(t)|..] + [s[|s| - 1]];
    }
  }

  /**
    What trim leaves: a piece of s whose ends are not trimmable, with only trimmable
    characters cut away on either side; nothing is left exactly when s is all trimmable.
   */
  lemma TrimShape(s: string)
    ensures |Trim(s)| <= |s|
    ensures Trim(s) == [] || (!IsTrimmable(Trim(s)[0]) && !IsTrimmable(Trim(s)[|Trim(s)| - 1]))
    ensures Trim(s) == [] <==> AllTrimmable(s)
    ensures exists a | 0 <= a <= |s| - |Trim(s)| ::
              && Trim(s) == s[a..a + |Trim(s)|] && AllTrimmable(s[..a]) && AllTrimmable(s[a + |Trim(s)|..])
  {
    var e := TrimEnd(s);
    TrimEndShape(s);
    TrimStartShape(e);
    var r := Trim(s);
    var a := |e| - |r|;
    assert r == s[a..a + |r|] && AllTrimmable(s[..a]) by {
      assert s[..a] == e[..a];
    }
    assert AllTrimmable(s[a + |r|..]) by {
      if r == [] {
        assert s[a + |r|..] == s[|e|..];
      }
    }
    if r == [] {
      assert s[a + |r|..] == s;
    } else {
      assert r[|r| - 1] == e[|e| - 1];
    }
  }

  /**
    Trimming keeps every character between two that are not trimmable: the trim is the
    piece of s starting at the returned offset a, which covers s[lo..hi].
   */
  lemma TrimKeepsWindow(s: string, lo: nat, hi: nat) returns (a: nat)
    requires lo < hi <= |s| && !IsTrimmable(s[lo]) && !IsTrimmable(s[hi - 1])
    ensures a <= lo && hi <= a + |Trim(s)| <= |s| && Trim(s) == s[a..a + |Trim(s)|]
  {
    var e := TrimEnd(s);
    TrimEndShape(s);
    TrimStartShape(e);
    var r := Trim(s);
    a := |e| - |r|;
  }

  /** A string whose ends are not trimmable is its own trim. */
  lemma TrimUntrimmedEnds(s: string)
    requires s == [] || (!IsTrimmable(s[0]) && !IsTrimmable(s[|s| - 1]))
    ensures Trim(s) == s
  {
  }

  lemma TrimIdempotent(s: string)
    ensures Trim(Trim(s)) == Trim(s)
  {
    TrimShape(s);
    TrimUntrimmedEnds(Trim(s));
  }

  lemma {:induction false} TrimStartAppend(p: string, t: string)
    requires AllTrimmable(p)
    ensures TrimStart(p + t) == TrimStart(t)
    decreases |p|
  {
    if |p| > 0 {
      assert (p + t)[1..] == p[1..] + t;
      TrimStartAppend(p[1..], t);
    } else {
      assert p + t == t;
    }
  }

  lemma {:induction false} TrimEndAppend(t: string, p: string)
    requires AllTrimmable(p)
    ensures TrimEnd(t + p) == TrimEnd(t)
    decreases |p|
  {
    if |p| > 0 {
      assert (t + p)[..|t + p| - 1] == t + p[..|p| - 1];
      TrimEndAppend(t, p[..|p| - 1]);
    } else {
      assert t + p == t;
    }
  }

  /** A trimmable prefix the trim stops at does not reach past it. */
  lemma {:induction false} TrimEndPrefix(p: string, t: string)
    requires AllTrimmable(p)
    ensures TrimEnd(p + t) == p + TrimEnd(t) || (TrimEnd(t) == [] && AllTrimmable(TrimEnd(p + t)))
    decreases |t|
  {
    if |t| > 0 && IsTrimmable(t[|t| - 1]) {
      assert (p + t)[..|p + t| - 1] == p + t[..|t| - 1];
      TrimEndPrefix(p, t[..|t| - 1]);
    } else if |t| > 0 {
      assert (p + t)[|p + t| - 1] == t[|t| - 1];
    } else {
      assert p + t == p;
      TrimEndShape(p);
    }
  }

  /** Trimmable characters in front do not change the trim. */
  lemma TrimDropsTrimmablePrefix(p: string, t: string)
    requires AllTrimmable(p)
    ensures Trim(p + t) == Trim(t)
  {
    TrimEndPrefix(p, t);
    if TrimEnd(p + t) == p + TrimEnd(t) {
      TrimStartAppend(p, TrimEnd(t));
    } else {
      TrimStartAppend(TrimEnd(p + t), []);
      assert TrimEnd(p + t) + [] == TrimEnd(p + t);
    }
  }

  /** Trimmable characters at the end do not change the trim. */
  lemma TrimDropsTrimmableSuffix(t: string, p: string)
    requires AllTrimmable(p)
    ensures Trim(t + p) == Trim(t)
  {
    TrimEndAppend(t, p);
  }

  /** String.isBlank(): empty, or only Character.isWhitespace code points. */
  predicate IsBlank(s: string) {
    |s| == 0 || (IsWhitespace(s[0]) && IsBlank(s[1..]))
  }

  /** A string that starts with a non-whitespace character is not blank. */
  lemma NotBlankByFirst(s: string)
    requires |s| > 0 && !IsWhitespace(s[0])
    ensures !IsBlank(s)
  {
  }

  // ------------------------------------------------------------------
  // startsWith / endsWith / contains / indexOf
  // ------------------------------------------------------------------

  predicate StartsWith(s: string, prefix: string) {
    |prefix| <= |s| && s[..|prefix|] == prefix
  }

  predicate EndsWith(s: string, suffix: string) {
    |suffix| <= |s| && s[|s| - |suffix|..] == suffix
  }

  /** t occurs in s starting at offset i. */
  predicate OccursAt(s: string, t: string, i: int) {
    0 <= i && i + |t| <= |s| && s[i..i + |t|] == t
  }

  /** String.contains: t occurs in s at some offset. */
  predicate Contains(s: string, t: string) {
    exists i | 0 <= i <= |s| - |t| :: OccursAt(s, t, i)
  }

  lemma ContainsAt(s: string, t: string, i: int)
    requires OccursAt(s, t, i)
    ensures Contains(s, t)
  {
  }

  /** An occurrence inside an occurrence is an occurrence. */
  lemma ContainsTransitive(s: string, t: string, u: string)
    requires Contains(s, t) && Contains(t, u)
    ensures Contains(s, u)
  {
    var i :| 0 <= i <= |s| - |t| && OccursAt(s, t, i);
    var j :| 0 <= j <= |t| - |u| && OccursAt(t, u, j);
    forall k | 0 <= k < |u| ensures s[i + j + k] == u[k] {
      assert u[k] == t[j..j + |u|][k] == t[j + k];
      assert t[j + k] == s[i..i + |t|][j + k] == s[i + j + k];
    }
    assert s[i + j..i + j + |u|] == u;
    assert OccursAt(s, u, i + j);
  }

  lemma ContainsAppend(s: string, t: string, a: string, b: string)
    requires Contains(s, t)
    ensures Contains(a + s + b, t)
  {
    var i :| 0 <= i <= |s| - |t| && OccursAt(s, t, i);
    assert (a + s + b)[|a| + i..|a| + i + |t|] == s[i..i + |t|];
    assert OccursAt(a + s + b, t, |a| + i);
  }

  lemma StartsWithContains(s: string, t: string)
    requires StartsWith(s, t)
    ensures Contains(s, t)
  {
    assert OccursAt(s, t, 0);
  }

  lemma StartsWithAppend(a: string, b: string, t: string)
    requires StartsWith(a, t)
    ensures StartsWith(a + b, t)
  {
    assert (a + b)[..|t|] == a[..|t|];
  }

  /** The first piece of a join starts it. */
  lemma JoinWithStartsWithFirst(ls: seq<string>, sep: string)
    requires |ls| > 0
    ensures StartsWith(JoinWith(ls, sep), ls[0])
  {
  }

  /** Where the parts of a five-part concatenation sit. */
  lemma FiveParts(a: string, b: string, c: string, d: string, e: string)
    ensures StartsWith(a + b + c + d + e, a)
    ensures OccursAt(a + b + c + d + e, c + d + e, |a| + |b|)
    ensures OccursAt(a + b + c + d + e, d, |a| + |b| + |c|)
  {
    var s := a + b + c + d + e;
    assert s[..|a|] == a;
    assert s[|a| + |b|..|a| + |b| + |c + d + e|] == c + d + e;
    assert s[|a| + |b| + |c|..|a| + |b| + |c| + |d|] == d;
  }

  /** Where the middle part of a three-part concatenation sits. */
  lemma MiddlePart(a: string, b: string, c: string)
    ensures OccursAt(a + b + c, b, |a|)
  {
    assert (a + b + c)[|a|..|a| + |b|] == b;
  }

  /*
    Regrouping lemmas. A StringBuilder appends on the left; calling these keeps the
    associativity steps out of the loop proofs, where they are expensive.
   */

  lemma AppendAssoc<T>(x: seq<T>, y: seq<T>, z: seq<T>)
    ensures x + y + z == x + (y + z)
  {
  }

  lemma RegroupLine(h: string, b: string, line: string)
    ensures h + b + line + "\n" == h + (b + line + "\n")
  {
  }

  lemma RegroupMarkedLine(h: string, b: string, marker: string, line: string)
    ensures h + b + marker + line + "\n" == h + (b + marker + line + "\n")
  {
  }

  lemma RegroupAround(a: string, s: string, b: string)
    ensures a + "\n" + s + "\n" + b == (a + "\n") + s + ("\n" + b)
  {
  }

  lemma RegroupAfter(a: string, s: string)
    ensures a + "\n\n" + s == (a + "\n\n") + s + ""
  {
  }

  /** Text appended on either side keeps an occurrence. */
  lemma ContainsExtend(a: string, t: string, b: string)
    requires Contains(a, t)
    ensures Contains(a + b, t) && Contains(b + a, t)
  {
    ContainsAppend(a, t, "", b);
    ContainsAppend(a, t, b, "");
    assert "" + a + b == a + b && b + a + "" == b + a;
  }

  /** Whatever a text on the right starts with occurs in the whole. */
  lemma ContainsStartOfRight(a: string, b: string, t: string)
    requires StartsWith(b, t)
    ensures Contains(a + b, t)
  {
    assert (a + b)[|a|..|a| + |t|] == b[..|t|];
    assert OccursAt(a + b, t, |a|);
  }

  /** String.indexOf(t, from) for 0 <= from <= |s|: the first occurrence at or after from, or -1. */
  function IndexOfFrom(s: string, t: string, from: nat): (r: int)
    requires from <= |s|
    ensures r == -1 || (from <= r && OccursAt(s, t, r))
    ensures forall i :: from <= i && (r == -1 || i < r) ==> !OccursAt(s, t, i)
    decreases |s| - from
  {
    if from + |t| <= |s| && s[from..from + |t|] == t then from
    else if from + |t| >= |s| then -1
    else IndexOfFrom(s, t, from + 1)
  }

  // ------------------------------------------------------------------
  // ASCII case mapping
  // ------------------------------------------------------------------

  function LowerChar(c: char): char {
    if 'A' <= c <= 'Z' then (c as int + 32) as char else c
  }

  function UpperChar(c: char): char {
    if 'a' <= c <= 'z' then (c as int - 32) as char else c
  }

  /** String.toLowerCase(), restricted to ASCII letters. */
  function Lower(s: string): (r: string)
    ensures |r| == |s|
    ensures forall i :: 0 <= i < |s| ==> r[i] == LowerChar(s[i])
  {
    seq(|s|, i requires 0 <= i < |s| => LowerChar(s[i]))
  }

  lemma LowerAppend(a: string, b: string)
    ensures Lower(a + b) == Lower(a) + Lower(b)
  {
  }

  lemma LowerSlice(s: string, i: nat, j: nat)
    requires i <= j <= |s|
    ensures Lower(s)[i..j] == Lower(s[i..j])
  {
  }

  /** Case mapping keeps occurrences: an occurrence of t in s is one of Lower(t) in Lower(s). */
  lemma LowerContains(s: string, t: string)
    requires Contains(s, t)
    ensures Contains(Lower(s), Lower(t))
  {
    var i :| 0 <= i <= |s| - |t| && OccursAt(s, t, i);
    LowerSlice(s, i, i + |t|);
    assert OccursAt(Lower(s), Lower(t), i);
  }

  // ------------------------------------------------------------------
  // split / join
  // ------------------------------------------------------------------

  /**
    String.split(sep, -1) for a separator that is a plain literal: cuts at every
    non-overlapping occurrence, scanning left to right, and keeps every piece
    (so there is always one piece more than there are cuts).
   */
  function SplitKeep(s: string, sep: string): (r: seq<string>)
    requires |sep| > 0
    ensures |r| >= 1
    decreases |s|
  {
    if StartsWith(s, sep) then [""] + SplitKeep(s[|sep|..], sep)
    else if |s| == 0 then [""]
    else
      var t := SplitKeep(s[1..], sep);
      [[s[0]] + t[0]] + t[1..]
  }

  /** Drops the empty pieces at the end, as split with limit 0 does. */
  function DropTrailingEmpty(ls: seq<string>): seq<string> {
    ls[..TrailingEmptyStart(ls)]
  }

  /** Where the run of empty pieces that ls ends with begins. */
  function TrailingEmptyStart(ls: seq<string>): (n: nat)
    ensures n <= |ls|
    ensures n == 0 || ls[n - 1] != ""
    ensures forall i :: n <= i < |ls| ==> ls[i] == ""
  {
    if |ls| > 0 && ls[|ls| - 1] == "" then TrailingEmptyStart(ls[..|ls| - 1]) else |ls|
  }

  /**
    String.split(sep) (limit 0) for a plain literal separator: as SplitKeep, then the
    trailing empty pieces go; an input without any occurrence comes back whole, so the
    empty string gives [""].
   */
  function SplitDrop(s: string, sep: string): (r: seq<string>)
    requires |sep| > 0
  {
    if s == "" then [""] else DropTrailingEmpty(SplitKeep(s, sep))
  }

  /** The lines of s as split("\n", -1) gives them. */
  function Lines(s: string): (r: seq<string>)
    ensures |r| >= 1
  {
    SplitKeep(s, "\n")
  }

  /** The lines of s as split("\n") gives them: trailing empty lines dropped. */
  function LinesDrop(s: string): seq<string> {
    SplitDrop(s, "\n")
  }

  /** String.join(sep, ls). */
  function JoinWith(ls: seq<string>, sep: string): string {
    if |ls| == 0 then ""
    else if |ls| == 1 then ls[0]
    else ls[0] + sep + JoinWith(ls[1..], sep)
  }

  /** The text a StringBuilder holds after appending each of ls followed by "\n". */
  function Terminated(ls: seq<string>): string {
    if |ls| == 0 then "" else Terminated(ls[..|ls| - 1]) + ls[|ls| - 1] + "\n"
  }

  lemma {:induction false} JoinWithSnoc(ls: seq<string>, x: string, sep: string)
    requires |ls| >= 1
    ensures JoinWith(ls + [x], sep) == JoinWith(ls, sep) + sep + x
    decreases |ls|
  {
    if |ls| == 1 {
      assert ls + [x] == [ls[0], x];
    } else {
      assert (ls + [x])[1..] == ls[1..] + [x];
      JoinWithSnoc(ls[1..], x, sep);
    }
  }

  lemma {:induction false} TerminatedIsJoin(ls: seq<string>)
    requires |ls| >= 1
    ensures Terminated(ls) == JoinWith(ls, "\n") + "\n"
    decreases |ls|
  {
    if |ls| > 1 {
      var init := ls[..|ls| - 1];
      TerminatedIsJoin(init);
      JoinWithSnoc(init, ls[|ls| - 1], "\n");
      assert init + [ls[|ls| - 1]] == ls;
    }
  }

  lemma TerminatedSnoc(ls: seq<string>, x: string)
    ensures Terminated(ls + [x]) == Terminated(ls) + x + "\n"
  {
    assert (ls + [x])[..|ls|] == ls;
  }

  lemma {:induction false} TerminatedAppend(a: seq<string>, b: seq<string>)
    ensures Terminated(a + b) == Terminated(a) + Terminated(b)
    decreases |b|
  {
    if |b| > 0 {
      var init := b[..|b| - 1];
      TerminatedAppend(a, init);
      assert (a + b)[..|a + b| - 1] == a + init;
      assert init + [b[|b| - 1]] == b;
      TerminatedSnoc(init, b[|b| - 1]);
    } else {
      assert a + b == a;
    }
  }

  /** Splitting and joining back with the same separator gives the text back. */
  lemma {:induction false} JoinSplit(s: string, sep: string)
    requires |sep| > 0
    ensures JoinWith(SplitKeep(s, sep), sep) == s
    decreases |s|
  {
    if StartsWith(s, sep) {
      JoinSplit(s[|sep|..], sep);
      JoinConsEmpty(SplitKeep(s[|sep|..], sep), sep);
      assert s == sep + s[|sep|..];
    } else if |s| > 0 {
      JoinSplit(s[1..], sep);
      JoinConsHead(s[0], SplitKeep(s[1..], sep), sep);
      assert s == [s[0]] + s[1..];
    }
  }

  lemma JoinConsEmpty(t: seq<string>, sep: string)
    requires |t| >= 1
    ensures JoinWith([""] + t, sep) == sep + JoinWith(t, sep)
  {
    assert ([""] + t)[1..] == t;
  }

  lemma JoinConsHead(c: char, t: seq<string>, sep: string)
    requires |t| >= 1
    ensures JoinWith([[c] + t[0]] + t[1..], sep) == [c] + JoinWith(t, sep)
  {
    var r := [[c] + t[0]] + t[1..];
    if |t| > 1 {
      assert r[1..] == t[1..];
    }
  }

  /** No piece produced by a one-character separator contains that character. */
  lemma {:induction false} SplitKeepPiecesFree(s: string, c: char)
    ensures forall k :: 0 <= k < |SplitKeep(s, [c])| ==> c !in SplitKeep(s, [c])[k]
    decreases |s|
  {
    if StartsWith(s, [c]) {
      SplitKeepPiecesFree(s[1..], c);
    } else if |s| > 0 {
      SplitKeepPiecesFree(s[1..], c);
      assert s[0] != c;
    }
  }

  lemma {:induction false} SplitKeepFree(s: string, c: char)
    requires c !in s
    ensures SplitKeep(s, [c]) == [s]
    decreases |s|
  {
    if |s| > 0 {
      SplitKeepFree(s[1..], c);
      assert [s[0]] + s[1..] == s;
    }
  }

  lemma {:induction false} SplitKeepCons(a: string, c: char, rest: string)
    requires c !in a
    ensures SplitKeep(a + [c] + rest, [c]) == [a] + SplitKeep(rest, [c])
    decreases |a|
  {
    if |a| == 0 {
      assert a + [c] + rest == [c] + rest;
      assert ([c] + rest)[1..] == rest;
    } else {
      var s := a + [c] + rest;
      assert s[1..] == a[1..] + [c] + rest;
      SplitKeepCons(a[1..], c, rest);
      assert s[0] == a[0] && a[0] != c;
      assert [a[0]] + a[1..] == a;
    }
  }

  /** Joining pieces free of a one-character separator and splitting again gives the pieces back. */
  lemma {:induction false} SplitJoin(ls: seq<string>, c: char)
    requires |ls| >= 1
    requires forall k :: 0 <= k < |ls| ==> c !in ls[k]
    ensures SplitKeep(JoinWith(ls, [c]), [c]) == ls
    decreases |ls|
  {
    if |ls| == 1 {
      SplitKeepFree(ls[0], c);
    } else {
      SplitJoin(ls[1..], c);
      SplitKeepCons(ls[0], c, JoinWith(ls[1..], [c]));
      assert [ls[0]] + ls[1..] == ls;
    }
  }

  // ------------------------------------------------------------------
  // Numbers and other small builders
  // ------------------------------------------------------------------

  function DigitChar(d: nat): char
    requires d < 10
  {
    "0123456789"[d]
  }

  predicate IsDigit(c: char) {
    '0' <= c <= '9'
  }

  /** The decimal form String.format("%d") gives a non-negative int. */
  function NatToString(n: nat): (r: string)
    ensures |r| >= 1
    ensures forall i :: 0 <= i < |r| ==> IsDigit(r[i])
  {
    if n < 10 then [DigitChar(n)] else NatToString(n / 10) + [DigitChar(n % 10)]
  }

  /** Integer.toString / string concatenation of an int. */
  function IntToString(n: int): (r: string)
    ensures |r| >= 1
  {
    if n < 0 then "-" + NatToString(-n) else NatToString(n)
  }

  /**
    A run of digits followed by a non-digit is read unambiguously: two such texts that
    agree have the same digit run.
   */
  lemma DigitRunPrefix(p: string, x: string, q: string, y: string)
    requires forall i :: 0 <= i < |p| ==> IsDigit(p[i])
    requires forall i :: 0 <= i < |q| ==> IsDigit(q[i])
    requires |x| > 0 && !IsDigit(x[0]) && |y| > 0 && !IsDigit(y[0])
    requires p + x == q + y
    ensures p == q && x == y
  {
    assert p == (p + x)[..|p|] == (q + y)[..|q|] == q;
  }

  function DigitValue(c: char): nat
    requires IsDigit(c)
  {
    c as int - '0' as int
  }

  /** Reads a string of decimal digits back as a number. */
  function ParseDigits(s: string): nat
    requires forall i :: 0 <= i < |s| ==> IsDigit(s[i])
  {
    if |s| == 0 then 0 else ParseDigits(s[..|s| - 1]) * 10 + DigitValue(s[|s| - 1])
  }

  lemma {:induction false} ParseNatToString(n: nat)
    ensures ParseDigits(NatToString(n)) == n
  {
    if n >= 10 {
      ParseNatToString(n / 10);
      var r := NatToString(n);
      assert r[..|r| - 1] == NatToString(n / 10);
    }
  }

  /** Different numbers print differently. */
  lemma NatToStringInjective(a: nat, b: nat)
    requires NatToString(a) == NatToString(b)
    ensures a == b
  {
    ParseNatToString(a);
    ParseNatToString(b);
  }

  /** String.repeat on a one-character string: c, n times. */
  function Repeat(c: char, n: nat): (r: string)
    ensures |r| == n && forall i :: 0 <= i < n ==> r[i] == c
  {
    seq(n, _ => c)
  }

  /** String.replace(pat, rep): every non-overlapping occurrence, left to right. */
  function Replace(s: string, pat: string, rep: string): string
    requires |pat| > 0
    decreases |s|
  {
    if |s| < |pat| then s
    else if s[..|pat|] == pat then rep + Replace(s[|pat|..], pat, rep)
    else [s[0]] + Replace(s[1..], pat, rep)
  }

  lemma {:induction false} ReplaceAbsent(s: string, pat: string, rep: string)
    requires |pat| > 0 && !Contains(s, pat)
    ensures Replace(s, pat, rep) == s
    decreases |s|
  {
    if |s| >= |pat| {
      assert !OccursAt(s, pat, 0);
      if Contains(s[1..], pat) {
        var i :| 0 <= i <= |s[1..]| - |pat| && OccursAt(s[1..], pat, i);
        assert s[i + 1..i + 1 + |pat|] == s[1..][i..i + |pat|];
        assert OccursAt(s, pat, i + 1);
        assert false;
      }
      ReplaceAbsent(s[1..], pat, rep);
    }
  }

  /** A prefix that holds no first character of the pattern is copied through unchanged. */
  lemma {:induction false} ReplaceSkips(a: string, t: string, pat: string, rep: string)
    requires |pat| > 0 && pat[0] !in a
    ensures Replace(a + t, pat, rep) == a + Replace(t, pat, rep)
    decreases |a|
  {
    if |a| > 0 {
      var s := a + t;
      assert s[0] == a[0] && s[1..] == a[1..] + t;
      ReplaceSkips(a[1..], t, pat, rep);
      if |s| < |pat| {
        assert Replace(t, pat, rep) == t;
      } else {
        assert s[..|pat|][0] != pat[0];
      }
      assert [a[0]] + a[1..] == a;
    } else {
      assert a + t == t;
    }
  }
}
