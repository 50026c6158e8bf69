/**
 * text_cleaner.py: line-level cleaning of extracted resume text
 * (`clean_extracted_text`, `clean_and_preserve_structure`) and the skill
 * list cleaner `clean_skill_list`.
 */
module TextCleaner {
  import opened Chars
  import opened Strings
  import opened Outcomes

  const Newline: set<char> := {'\n'}

  // ---------------------------------------------------------------------
  // The page-number regex `(?i)\b(page|confidential)\b.*?\d+`
  // ---------------------------------------------------------------------

  /** `\b` in front of a word character at `i`. */
  predicate WordStart(s: string, i: nat)
    requires i <= |s|
  {
    i == 0 || !IsWordChar(s[i - 1])
  }

  /** `\b` behind a word character ending at `j`. */
  predicate WordEnd(s: string, j: nat)
    requires j <= |s|
  {
    j == |s| || !IsWordChar(s[j])
  }

  /** `s[i..]` starts with the whole word `w`, ignoring case. */
  predicate KeywordIs(s: string, i: nat, w: string)
    requires i <= |s|
  {
    i + |w| <= |s| && Lower(s[i..i + |w|]) == w && WordStart(s, i) && WordEnd(s, i + |w|)
  }

  /** Length of the keyword `\b(page|confidential)\b` matched at `i`, or 0. */
  function KeywordAt(s: string, i: nat): (n: nat)
    requires i <= |s|
    ensures n == 0 <==> !KeywordIs(s, i, "page") && !KeywordIs(s, i, "confidential")
    ensures n > 0 ==> i + n <= |s|
  {
    if KeywordIs(s, i, "page") then 4
    else if KeywordIs(s, i, "confidential") then 12
    else 0
  }

  /** Where the lazy `.*?` stops: the first digit or newline at or after `j`. */
  function GapEnd(s: string, j: nat): (k: nat)
    requires j <= |s|
    ensures j <= k <= |s|
    ensures forall m :: j <= m < k ==> !IsDigit(s[m]) && s[m] != '\n'
    ensures k < |s| ==> IsDigit(s[k]) || s[k] == '\n'
    decreases |s| - j
  {
    if j == |s| || IsDigit(s[j]) || s[j] == '\n' then j else GapEnd(s, j + 1)
  }

  /** End of the greedy `\d+` run starting at `k`. */
  function DigitsEnd(s: string, k: nat): (e: nat)
    requires k <= |s|
    ensures k <= e <= |s|
    ensures forall m :: k <= m < e ==> IsDigit(s[m])
    ensures e < |s| ==> !IsDigit(s[e])
    decreases |s| - k
  {
    if k < |s| && IsDigit(s[k]) then DigitsEnd(s, k + 1) else k
  }

  /** A digit follows position `j` on the same line. */
  ghost predicate DigitOnLine(s: string, j: nat)
  {
    exists k :: j <= k < |s| && IsDigit(s[k]) && forall m :: j <= m < k ==> s[m] != '\n'
  }

  /** The end of the page-reference match that starts at `i`, if one does. */
  function PageRefAt(s: string, i: nat): (r: Option<nat>)
    requires i <= |s|
    ensures r.Some? ==> i < r.value <= |s| && KeywordAt(s, i) > 0
    ensures r.Some? ==> exists k :: i + KeywordAt(s, i) <= k < r.value && IsDigit(s[k])
    ensures r.Some? ==> forall m :: i + KeywordAt(s, i) <= m < r.value ==> s[m] != '\n'
    ensures r.Some? ==> r.value == |s| || !IsDigit(s[r.value])
    ensures r.Some? ==> exists k :: i + KeywordAt(s, i) <= k < r.value && IsDigit(s[k]) &&
                                   (forall m :: i + KeywordAt(s, i) <= m < k ==> !IsDigit(s[m])) &&
                                   (forall m :: k <= m < r.value ==> IsDigit(s[m]))
    ensures KeywordAt(s, i) == 0 ==> r.None?
    ensures KeywordAt(s, i) > 0 && DigitOnLine(s, i + KeywordAt(s, i)) ==> r.Some?
  {
    var n := KeywordAt(s, i);
    if n == 0 then None
    else
      var k := GapEnd(s, i + n);
      if k < |s| && IsDigit(s[k]) then Some(DigitsEnd(s, k)) else None
  }

  /** `re.sub(pattern, '', s[i..])`, scanning left to right from `i`. */
  function ScrubFrom(s: string, i: nat): (r: string)
    requires i <= |s|
    ensures |r| <= |s| - i
    ensures forall k :: 0 <= k < |r| ==> r[k] in s[i..]
    decreases |s| - i
  {
    if i == |s| then ""
    else match PageRefAt(s, i)
      case Some(e) =>
        var r := ScrubFrom(s, e);
        assert forall k :: 0 <= k < |r| ==> r[k] in s[i..] by {
          forall k | 0 <= k < |r|
            ensures r[k] in s[i..]
          {
            var m :| 0 <= m < |s[e..]| && s[e..][m] == r[k];
            assert s[i..][e - i + m] == r[k];
          }
        }
        r
      case None =>
        var r := ScrubFrom(s, i + 1);
        assert forall k :: 0 <= k < |r| ==> r[k] in s[i..] by {
          forall k | 0 <= k < |r|
            ensures r[k] in s[i..]
          {
            var m :| 0 <= m < |s[i + 1..]| && s[i + 1..][m] == r[k];
            assert s[i..][1 + m] == r[k];
          }
        }
        [s[i]] + r
  }

  function RemovePageRefs(s: string): (r: string)
    ensures |r| <= |s|
    ensures forall k :: 0 <= k < |r| ==> r[k] in s
  {
    assert s[0..] == s;
    ScrubFrom(s, 0)
  }

  predicate NoDigit(s: string)
  {
    forall k :: 0 <= k < |s| ==> !IsDigit(s[k])
  }

  /** A page reference at the start is dropped whole: scanning resumes after its last digit. */
  lemma PageRefDropped(s: string, e: nat)
    requires PageRefAt(s, 0) == Some(e)
    ensures RemovePageRefs(s) == ScrubFrom(s, e)
    ensures |RemovePageRefs(s)| <= |s| - e
  {
  }

  /** No page reference matches at or after `i`. */
  predicate NoRefFrom(s: string, i: nat)
    requires i <= |s|
  {
    forall j :: i <= j < |s| ==> PageRefAt(s, j).None?
  }

  /** The scan from `i` keeps everything exactly when no page reference matches from `i` on. */
  lemma ScrubKeeps(s: string, i: nat)
    requires i <= |s|
    ensures ScrubFrom(s, i) == s[i..] <==> NoRefFrom(s, i)
  {
    if NoRefFrom(s, i) {
      ScrubKeepsAll(s, i);
    } else {
      var j :| i <= j < |s| && PageRefAt(s, j).Some?;
      ScrubShrinks(s, i, j);
    }
  }

  lemma {:induction false} ScrubKeepsAll(s: string, i: nat)
    requires i <= |s| && NoRefFrom(s, i)
    ensures ScrubFrom(s, i) == s[i..]
    decreases |s| - i
  {
    if i < |s| {
      assert PageRefAt(s, i).None?;
      ScrubKeepsAll(s, i + 1);
      ScrubStep(s, i);
      assert s[i..] == [s[i]] + s[i + 1..];
    }
  }

  /** Where no page reference matches, the scan keeps one character and moves on. */
  lemma ScrubStep(s: string, i: nat)
    requires i < |s| && PageRefAt(s, i).None?
    ensures ScrubFrom(s, i) == [s[i]] + ScrubFrom(s, i + 1)
  {
  }

  /** A match at `j` removes at least one character from the scan that starts at or before `j`. */
  lemma {:induction false} ScrubShrinks(s: string, i: nat, j: nat)
    requires i <= j < |s| && PageRefAt(s, j).Some?
    ensures |ScrubFrom(s, i)| < |s| - i
    decreases j - i
  {
    if PageRefAt(s, i).None? {
      ScrubShrinks(s, i + 1, j);
      ScrubStep(s, i);
    }
  }

  /** Without a digit no page reference can match. */
  lemma NoRefWithoutDigit(s: string)
    requires NoDigit(s)
    ensures NoRefFrom(s, 0)
  {
    forall j | 0 <= j < |s|
      ensures PageRefAt(s, j).None?
    {
    }
  }

  /** "Page 3" is a page reference and disappears. */
  lemma PageNumberRemoved(s: string)
    requires s == "Page 3"
    ensures RemovePageRefs(s) == ""
  {
    assert Lower(s[0..4]) == "page";
    assert KeywordAt(s, 0) == 4;
    assert GapEnd(s, 5) == 5;
    assert DigitsEnd(s, 6) == 6;
    assert DigitsEnd(s, 5) == 6;
    assert PageRefAt(s, 0) == Some(6);
  }

  /** No keyword starts at a character that is neither a `p` nor a `c` in either case. */
  lemma NoKeywordHere(s: string, j: nat)
    requires j < |s| && s[j] !in {'p', 'P', 'c', 'C'}
    ensures PageRefAt(s, j).None?
  {
    if j + 4 <= |s| {
      assert Lower(s[j..j + 4])[0] == LowerChar(s[j]);
    }
    if j + 12 <= |s| {
      assert Lower(s[j..j + 12])[0] == LowerChar(s[j]);
    }
  }

  /** "Page 1 of 2": the lazy `.*?` stops at the first digit, so only "Page 1" goes. */
  lemma PageOfRemoved(s: string)
    requires s == "Page 1 of 2"
    ensures RemovePageRefs(s) == " of 2"
  {
    PageOfStart(s);
    PageRefDropped(s, 6);
    PageOfRest(s);
    ScrubKeeps(s, 6);
  }

  lemma PageOfStart(s: string)
    requires s == "Page 1 of 2"
    ensures PageRefAt(s, 0) == Some(6)
  {
    assert Lower(s[0..4]) == "page";
    assert KeywordAt(s, 0) == 4;
    assert GapEnd(s, 5) == 5;
    assert DigitsEnd(s, 6) == 6;
    assert DigitsEnd(s, 5) == 6;
  }

  lemma PageOfRest(s: string)
    requires s == "Page 1 of 2"
    ensures NoRefFrom(s, 6)
  {
    forall j | 6 <= j < |s|
      ensures PageRefAt(s, j).None?
    {
      assert s[6..] == " of 2" && s[j] == s[6..][j - 6];
      NoKeywordHere(s, j);
    }
  }

  /** The whole line step on "Page 1 of 2" keeps "of 2". */
  lemma PageOfLine(line: string)
    requires line == "Page 1 of 2"
    ensures CleanLine(line) == Some("of 2")
  {
    assert NoEdgeSpace(line);
    assert Strip(line) == line;
    PageOfRewrite(line);
    StripOfTwo(" of 2");
  }

  lemma PageOfRewrite(line: string)
    requires line == "Page 1 of 2"
    ensures Rewrite(line) == " of 2"
  {
    PageOfCollapsed(line);
    PageOfRemoved(line);
    ReplaceAbsent(" of 2", '\U{000C}', ' ');
  }

  lemma PageOfCollapsed(line: string)
    requires line == "Page 1 of 2"
    ensures CollapseSpace(line) == line
  {
    CollapseSpaceKeeps(line);
  }

  /** Replacing a character that does not occur changes nothing. */
  lemma ReplaceAbsent(s: string, a: char, b: char)
    requires a !in s
    ensures ReplaceChar(s, a, b) == s
  {
  }

  lemma StripOfTwo(c: string)
    requires c == " of 2"
    ensures Strip(c) == "of 2"
  {
    assert StripStart(c[1..]) == 0;
    assert StripStart(c) == 1;
    assert StripEnd(c[1..]) == 4;
  }

  // ---------------------------------------------------------------------
  // clean_extracted_text
  // ---------------------------------------------------------------------

  /** `s.replace(a, b)` for single characters. */
  function ReplaceChar(s: string, a: char, b: char): (r: string)
    ensures |r| == |s|
    ensures forall k :: 0 <= k < |s| ==> r[k] == (if s[k] == a then b else s[k])
  {
    seq(|s|, k requires 0 <= k < |s| => if s[k] == a then b else s[k])
  }

  /** Whitespace that is only plain spaces. */
  predicate PlainSpaces(s: string)
  {
    forall k :: 0 <= k < |s| && IsSpace(s[k]) ==> s[k] == ' '
  }

  /** Lines 20-22 on a stripped, non-empty line: collapse spaces, drop page references, replace form feeds. */
  function Rewrite(a: string): (d: string)
    ensures PlainSpaces(d)
  {
    var b := CollapseSpace(a);
    var c := RemovePageRefs(b);
    var d := ReplaceChar(c, '\U{000C}', ' ');
    assert PlainSpaces(d) by {
      forall k | 0 <= k < |d| && IsSpace(d[k])
        ensures d[k] == ' '
      {
        var n :| 0 <= n < |b| && b[n] == c[k];
      }
    }
    d
  }

  /** Loop body of `clean_extracted_text` for one line: `None` when the line is dropped. */
  function CleanLine(line: string): (r: Option<string>)
    ensures AllSpace(line) ==> r.None?
    ensures r.Some? ==> r.value != "" && NoEdgeSpace(r.value) && PlainSpaces(r.value)
  {
    var a := Strip(line);
    if a == "" then None
    else
      var d := Rewrite(a);
      var e := Strip(d);
      assert PlainSpaces(e) by {
        forall k | 0 <= k < |e| && IsSpace(e[k])
          ensures e[k] == ' '
        {
          var m :| 0 <= m < |d| && d[m] == e[k];
        }
      }
      if e == "" then None else Some(e)
  }

  /** The form-feed replacement of line 22 never fires: the space collapse already turned form feeds into spaces. */
  lemma FormFeedGone(line: string)
    requires Strip(line) != ""
    ensures Rewrite(Strip(line)) == RemovePageRefs(CollapseSpace(Strip(line)))
  {
    var b := CollapseSpace(Strip(line));
    var c := RemovePageRefs(b);
    forall k | 0 <= k < |c|
      ensures c[k] != '\U{000C}'
    {
      var n :| 0 <= n < |b| && b[n] == c[k];
    }
  }

  /** A line already in clean shape and free of digits is kept as it is. */
  predicate TidyLine(l: string)
  {
    l != "" && NoEdgeSpace(l) && PlainSpaces(l) && NoDoubleSpace(l) && NoDigit(l)
  }

  lemma TidyLineKept(l: string)
    requires TidyLine(l)
    ensures CleanLine(l) == Some(l)
  {
    CollapseSpaceKeeps(l);
    RewriteDigitFree(l, l);
  }

  /** On a line without digits, cleaning yields a tidy line. */
  lemma CleanLineTidy(line: string)
    requires NoDigit(line) && CleanLine(line).Some?
    ensures TidyLine(CleanLine(line).value)
  {
    var a := Strip(line);
    var b := CollapseSpace(a);
    DigitFreeSteps(line, a, b);
    CleanLineDigitFree(line, b);
  }

  /** Digits are neither created by stripping nor by collapsing spaces. */
  lemma DigitFreeSteps(line: string, a: string, b: string)
    requires NoDigit(line) && a == Strip(line) && b == CollapseSpace(a)
    ensures NoDigit(b)
  {
    CollapseSpaceChars(a);
    forall k | 0 <= k < |b|
      ensures !IsDigit(b[k])
    {
      if !IsSpace(b[k]) {
        var m :| 0 <= m < |a| && a[m] == b[k];
        var n :| 0 <= n < |line| && line[n] == a[m];
      }
    }
  }

  /** Without digits, a kept line is its collapsed, stripped form. */
  lemma CleanLineDigitFree(line: string, b: string)
    requires Strip(line) != "" && b == CollapseSpace(Strip(line)) && NoDigit(b)
    ensures CleanLine(line) == Some(b)
  {
    var a := Strip(line);
    RewriteDigitFree(a, b);
    assert NoEdgeSpace(b);
  }

  lemma RewriteDigitFree(a: string, b: string)
    requires b == CollapseSpace(a) && NoDigit(b)
    ensures Rewrite(a) == b
  {
    NoRefWithoutDigit(b);
    ScrubKeeps(b, 0);
    assert b[0..] == b;
    assert RemovePageRefs(b) == b;
    assert ReplaceChar(b, '\U{000C}', ' ') == b;
  }

  /** The per-line results of the loop, one per input line. */
  function LineResults(lines: seq<string>): (os: seq<Option<string>>)
    ensures |os| == |lines|
    ensures forall i :: 0 <= i < |lines| ==> os[i] == CleanLine(lines[i])
  {
    Map(CleanLine, lines)
  }

  /** The kept lines, cleaned, in input order. */
  function CleanLines(lines: seq<string>): (r: seq<string>)
    ensures |r| <= |lines|
    ensures forall k :: 0 <= k < |r| ==> r[k] != "" && NoEdgeSpace(r[k]) && PlainSpaces(r[k])
  {
    var os := LineResults(lines);
    var r := Somes(os);
    forall k | 0 <= k < |r|
      ensures r[k] != "" && NoEdgeSpace(r[k]) && PlainSpaces(r[k])
    {
      var i :| 0 <= i < |os| && os[i] == Some(r[k]);
    }
    r
  }

  /** Cleaning works line by line, so the output lines keep the input order. */
  lemma CleanLinesAppend(a: seq<string>, b: seq<string>)
    ensures CleanLines(a + b) == CleanLines(a) + CleanLines(b)
  {
    MapAppend(CleanLine, a, b);
    SomesAppend(LineResults(a), LineResults(b));
  }

  /** A single line contributes its cleaned form, or nothing. */
  lemma CleanLinesOne(l: string)
    ensures CleanLines([l]) == if CleanLine(l).Some? then [CleanLine(l).value] else []
  {
    var os := LineResults([l]);
    assert os == [CleanLine(l)];
    assert os[1..] == [];
  }

  /** Plain spaces contain no newline. */
  lemma PlainNoNewline(xs: seq<string>)
    requires forall k :: 0 <= k < |xs| ==> PlainSpaces(xs[k])
    ensures forall k :: 0 <= k < |xs| ==> Avoids(xs[k], Newline)
  {
    forall k, m | 0 <= k < |xs| && 0 <= m < |xs[k]|
      ensures xs[k][m] != '\n'
    {
      if xs[k][m] == '\n' {
        assert IsSpace(xs[k][m]);
      }
    }
  }

  /** Joining non-empty strings is empty only for the empty list. */
  lemma JoinEmpty(xs: seq<string>, sep: char)
    requires forall k :: 0 <= k < |xs| ==> xs[k] != ""
    ensures Join(xs, sep) == "" <==> xs == []
  {
    if |xs| > 1 {
      assert |Join(xs, sep)| >= |xs[0]|;
    }
  }

  /** Each line of blank-only text is blank. */
  lemma BlankLines(text: string)
    ensures AllSpace(text) ==> CleanLines(SplitOn(text, Newline)) == []
  {
    if AllSpace(text) {
      var ls := SplitOn(text, Newline);
      forall k | 0 <= k < |ls|
        ensures AllSpace(ls[k])
      {
        forall m | 0 <= m < |ls[k]|
          ensures IsSpace(ls[k][m])
        {
          var n :| 0 <= n < |text| && text[n] == ls[k][m];
        }
      }
      AllBlankDropped(ls);
    }
  }

  lemma AllBlankDropped(ls: seq<string>)
    requires forall k :: 0 <= k < |ls| ==> AllSpace(ls[k])
    ensures CleanLines(ls) == []
  {
    SomesNone(LineResults(ls));
  }

  /**
   * `clean_extracted_text`: `None` for empty or blank text; otherwise the
   * cleaned lines joined by newlines, and `None` again when none is left.
   */
  function CleanExtractedText(text: string): (r: Option<string>)
    ensures text == "" || AllSpace(text) ==> r.None?
    ensures r.None? && text != "" ==> CleanLines(SplitOn(text, Newline)) == []
    ensures r.Some? ==> r.value != "" && SplitOn(r.value, Newline) == CleanLines(SplitOn(text, Newline))
  {
    if text == "" then None
    else
      var lines := CleanLines(SplitOn(text, Newline));
      var out := Join(lines, '\n');
      JoinEmpty(lines, '\n');
      BlankLines(text);
      if out == "" then None
      else
        PlainNoNewline(lines);
        SplitJoin(lines, '\n');
        Some(out)
  }

  /** Text made of tidy lines comes back unchanged. */
  lemma TidyTextKept(lines: seq<string>)
    requires |lines| >= 1
    requires forall k :: 0 <= k < |lines| ==> TidyLine(lines[k])
    ensures CleanExtractedText(Join(lines, '\n')) == Some(Join(lines, '\n'))
  {
    forall k | 0 <= k < |lines|
      ensures PlainSpaces(lines[k])
    {
    }
    PlainNoNewline(lines);
    SplitJoin(lines, '\n');
    TidyLinesKept(lines);
    JoinEmpty(lines, '\n');
  }

  lemma TidyLinesKept(lines: seq<string>)
    requires forall k :: 0 <= k < |lines| ==> TidyLine(lines[k])
    ensures CleanLines(lines) == lines
  {
    var os := LineResults(lines);
    forall i | 0 <= i < |lines|
      ensures os[i] == Some(lines[i])
    {
      TidyLineKept(lines[i]);
    }
    SomesAll(os);
  }

  /** On text without digits, cleaning a second time changes nothing. */
  lemma CleanExtractedTextIdempotent(text: string)
    requires NoDigit(text) && CleanExtractedText(text).Some?
    ensures CleanExtractedText(CleanExtractedText(text).value) == CleanExtractedText(text)
  {
    var ls := SplitOn(text, Newline);
    var out := CleanLines(ls);
    forall k | 0 <= k < |ls|
      ensures NoDigit(ls[k])
    {
      forall m | 0 <= m < |ls[k]|
        ensures !IsDigit(ls[k][m])
      {
        var n :| 0 <= n < |text| && text[n] == ls[k][m];
      }
    }
    CleanLinesTidy(ls);
    JoinEmpty(out, '\n');
    TidyTextKept(out);
  }

  lemma CleanLinesTidy(ls: seq<string>)
    requires forall k :: 0 <= k < |ls| ==> NoDigit(ls[k])
    ensures forall k :: 0 <= k < |CleanLines(ls)| ==> TidyLine(CleanLines(ls)[k])
  {
    var r := CleanLines(ls);
    forall k | 0 <= k < |r|
      ensures TidyLine(r[k])
    {
      var i :| 0 <= i < |ls| && LineResults(ls)[i] == Some(r[k]);
      CleanLineTidy(ls[i]);
    }
  }

  // ---------------------------------------------------------------------
  // clean_and_preserve_structure
  // ---------------------------------------------------------------------

  /** `str.isupper()`: some cased character, and none lower-case. */
  predicate IsUpperText(s: string)
  {
    (exists k :: 0 <= k < |s| && IsUpper(s[k])) && forall k :: 0 <= k < |s| ==> !IsLower(s[k])
  }

  /**
   * `str.istitle()`: some cased character; capitals only after uncased
   * characters, lower-case letters only after cased ones.
   */
  predicate IsTitleText(s: string)
  {
    && (exists k :: 0 <= k < |s| && IsLetter(s[k]))
    && (forall k :: 0 <= k < |s| && IsUpper(s[k]) ==> k == 0 || !IsLetter(s[k - 1]))
    && (forall k :: 0 <= k < |s| && IsLower(s[k]) ==> k > 0 && IsLetter(s[k - 1]))
  }

  const HeaderWords: seq<string> :=
    ["education", "experience", "skills", "projects", "certifications", "summary", "work history"]

  /** The section-header test of lines 48-55. */
  predicate IsHeader(line: string)
  {
    || (IsUpperText(line) && 3 < |line| < 100)
    || (IsTitleText(line) && |line| < 80)
    || exists k :: 0 <= k < |HeaderWords| && Contains(Lower(line), HeaderWords[k])
  }

  /**
   * Lines 42-63 over the stripped non-empty lines, for a header test `hd`:
   * a header gets a blank line before and after it once some line has been
   * emitted (`started`).
   */
  function Spaced(hd: string -> bool, ls: seq<string>, started: bool): (r: seq<string>)
    ensures |r| >= |ls|
  {
    if ls == [] then []
    else (if hd(ls[0]) && started then ["", ls[0], ""] else [ls[0]]) + Spaced(hd, ls[1..], true)
  }

  /** The layout with the header test of lines 48-55. */
  function Layout(ls: seq<string>, started: bool): (r: seq<string>)
    ensures |r| >= |ls|
  {
    Spaced(IsHeader, ls, started)
  }

  /** Laying out a list is laying out its first `j` lines, then the rest as lines that follow others. */
  lemma {:induction false} SpacedSplit(hd: string -> bool, ls: seq<string>, j: nat, started: bool)
    requires j <= |ls|
    ensures Spaced(hd, ls, started) == Spaced(hd, ls[..j], started) + Spaced(hd, ls[j..], started || j > 0)
    decreases j
  {
    if j == 0 {
      assert ls[..0] == [] && ls[0..] == ls;
    } else {
      var tl := ls[1..];
      assert tl[..j - 1] == ls[..j][1..];
      assert tl[j - 1..] == ls[j..];
      SpacedSplit(hd, tl, j - 1, true);
      assert ls[..j][0] == ls[0];
    }
  }

  lemma SpacedHeader(hd: string -> bool, ls: seq<string>, j: nat)
    requires 0 < j < |ls| && hd(ls[j])
    ensures Spaced(hd, ls, false) == Spaced(hd, ls[..j], false) + ["", ls[j], ""] + Spaced(hd, ls[j + 1..], true)
  {
    SpacedPadded(hd, ls[j..]);
    assert ls[j..][0] == ls[j] && ls[j..][1..] == ls[j + 1..];
    SpacedSplit(hd, ls, j, false);
  }

  lemma SpacedPadded(hd: string -> bool, rest: seq<string>)
    requires rest != [] && hd(rest[0])
    ensures Spaced(hd, rest, true) == ["", rest[0], ""] + Spaced(hd, rest[1..], true)
  {
  }

  /** A header that is not the first line sits between two blank lines. */
  lemma LayoutHeader(ls: seq<string>, j: nat)
    requires 0 < j < |ls| && IsHeader(ls[j])
    ensures Layout(ls, false) == Layout(ls[..j], false) + ["", ls[j], ""] + Layout(ls[j + 1..], true)
  {
    SpacedHeader(IsHeader, ls, j);
  }

  /** The first line is never padded. */
  lemma LayoutFirst(ls: seq<string>)
    requires ls != []
    ensures Layout(ls, false)[0] == ls[0]
  {
    assert Spaced(IsHeader, ls, false) == [ls[0]] + Spaced(IsHeader, ls[1..], true);
  }

  /** The non-blank lines, in order. */
  function NonBlank(ls: seq<string>): (r: seq<string>)
    ensures forall k :: 0 <= k < |r| ==> r[k] != ""
  {
    if ls == [] then []
    else
      var rest := NonBlank(ls[1..]);
      if ls[0] != "" then [ls[0]] + rest else rest
  }

  lemma {:induction false} NonBlankAppend(a: seq<string>, b: seq<string>)
    ensures NonBlank(a + b) == NonBlank(a) + NonBlank(b)
    decreases |a|
  {
    if a == [] {
      assert a + b == b;
    } else {
      NonBlankAppend(a[1..], b);
      assert (a + b)[0] == a[0];
      assert (a + b)[1..] == a[1..] + b;
    }
  }

  /** Only blank lines are added: dropping them gives the input lines back. */
  lemma LayoutOnlyAddsBlanks(ls: seq<string>, started: bool)
    requires forall k :: 0 <= k < |ls| ==> ls[k] != ""
    ensures NonBlank(Layout(ls, started)) == ls
  {
    SpacedOnlyAddsBlanks(IsHeader, ls, started);
  }

  lemma {:induction false} SpacedOnlyAddsBlanks(hd: string -> bool, ls: seq<string>, started: bool)
    requires forall k :: 0 <= k < |ls| ==> ls[k] != ""
    ensures NonBlank(Spaced(hd, ls, started)) == ls
    decreases |ls|
  {
    if ls != [] {
      SpacedOnlyAddsBlanks(hd, ls[1..], true);
      var head := if hd(ls[0]) && started then ["", ls[0], ""] else [ls[0]];
      NonBlankAppend(head, Spaced(hd, ls[1..], true));
      if hd(ls[0]) && started {
        NonBlankAppend([""], [ls[0], ""]);
        NonBlankAppend([ls[0]], [""]);
      }
      assert ls == [ls[0]] + ls[1..];
    }
  }

  const Artifacts: set<char> := {'|', '—', '\U{FFFD}', '\U{000C}'}

  /** The replacements of lines 68-76, character by character. */
  function FixArtifacts(s: string): (r: string)
    ensures Avoids(r, Artifacts)
    ensures Avoids(s, Artifacts) ==> r == s
  {
    if s == "" then ""
    else
      var c := s[0];
      var head := if c == '|' then "I" else if c == '—' then "-" else if c == '\U{FFFD}' then "" else if c == '\U{000C}' then "\n" else [c];
      var r := head + FixArtifacts(s[1..]);
      assert s == [c] + s[1..];
      r
  }

  lemma FixArtifactsIdempotent(s: string)
    ensures FixArtifacts(FixArtifacts(s)) == FixArtifacts(s)
  {
  }

  /** `clean_and_preserve_structure`. */
  function CleanAndPreserve(text: string): (r: string)
    ensures text == "" ==> r == ""
    ensures Avoids(r, Artifacts)
  {
    if text == "" then ""
    else FixArtifacts(Join(Layout(StrippedNonEmpty(SplitOn(text, Newline)), false), '\n'))
  }

  /** Text free of artifacts, blank lines, edge spaces and headers is returned as it is. */
  lemma CleanAndPreserveKeeps(text: string)
    requires forall k :: 0 <= k < |SplitOn(text, Newline)| ==>
      SplitOn(text, Newline)[k] != "" && NoEdgeSpace(SplitOn(text, Newline)[k])
    requires forall k :: 0 <= k < |SplitOn(text, Newline)| ==> !IsHeader(SplitOn(text, Newline)[k])
    requires Avoids(text, Artifacts)
    ensures CleanAndPreserve(text) == text
  {
    if text != "" {
      var lines := SplitOn(text, Newline);
      StrippedKeepsAll(lines);
      SpacedPlain(IsHeader, lines, false);
      JoinSplit(text, '\n');
      Unchanged(text, lines);
    }
  }

  lemma Unchanged(text: string, lines: seq<string>)
    requires text != "" && Join(lines, '\n') == text && Avoids(text, Artifacts)
    requires StrippedNonEmpty(SplitOn(text, Newline)) == lines && Layout(lines, false) == lines
    ensures CleanAndPreserve(text) == text
  {
  }

  lemma {:induction false} StrippedKeepsAll(xs: seq<string>)
    requires forall k :: 0 <= k < |xs| ==> xs[k] != "" && NoEdgeSpace(xs[k])
    ensures StrippedNonEmpty(xs) == xs
    decreases |xs|
  {
    if xs != [] {
      StrippedKeepsAll(xs[1..]);
      assert xs == [xs[0]] + xs[1..];
    }
  }

  lemma {:induction false} SpacedPlain(hd: string -> bool, ls: seq<string>, started: bool)
    requires forall k :: 0 <= k < |ls| ==> !hd(ls[k])
    ensures Spaced(hd, ls, started) == ls
    decreases |ls|
  {
    if ls != [] {
      SpacedPlain(hd, ls[1..], true);
      assert ls == [ls[0]] + ls[1..];
    }
  }

  // ---------------------------------------------------------------------
  // clean_skill_list
  // ---------------------------------------------------------------------

  /** The `skill_normalizations` dict of lines 85-99, in order. */
  const SkillNormalizations: seq<(string, string)> := [
    ("objective-c", "objective-c"),
    ("objective c", "objective-c"),
    ("cocoa touch", "cocoa touch"),
    ("cocoa", "cocoa touch"),
    ("nsuserdefaults", "nsuserdefaults"),
    ("node.js", "node"),
    ("node", "node"),
    ("rest", "rest"),
    ("soap", "soap"),
    ("xml", "xml"),
    ("json", "json"),
    ("sqlite", "sqlite"),
    ("plist", "plist")
  ]

  /** `d.get(k, k)` over an ordered list of pairs. */
  function GetOrSelf(d: seq<(string, string)>, k: string): (r: string)
    ensures (forall i :: 0 <= i < |d| ==> d[i].0 != k) ==> r == k
    ensures r == k || exists i :: 0 <= i < |d| && d[i] == (k, r)
  {
    if d == [] then k
    else if d[0].0 == k then d[0].1
    else
      var r := GetOrSelf(d[1..], k);
      assert forall i :: 1 <= i < |d| ==> d[i] == d[1..][i - 1];
      r
  }

  /** The dedup key of a cleaned skill. */
  function SkillKey(c: string): string
  {
    GetOrSelf(SkillNormalizations, Lower(c))
  }

  /** Word characters and single plain spaces, letter case kept. */
  predicate IsSkillForm(c: string)
  {
    && (forall k :: 0 <= k < |c| ==> IsWordChar(c[k]) || c[k] == ' ')
    && NoDoubleSpace(c)
  }

  /** `strip()`, then `[^\w\s] -> ''`, then `\s+ -> ' '` (no second strip). */
  function CleanSkill(s: string): (c: string)
    ensures IsSkillForm(c)
    ensures |c| <= |s|
  {
    var kept := RemovePunct(Strip(s));
    var c := CollapseSpace(kept);
    CollapseSpaceChars(kept);
    assert forall k :: 0 <= k < |c| ==> IsWordChar(c[k]) || c[k] == ' ' by {
      forall k | 0 <= k < |c|
        ensures IsWordChar(c[k]) || c[k] == ' '
      {
        if !IsSpace(c[k]) {
          var j :| 0 <= j < |kept| && kept[j] == c[k];
        }
      }
    }
    CollapseSpaceLength(kept);
    c
  }

  lemma {:induction false} CollapseSpaceLength(s: string)
    ensures |CollapseSpace(s)| <= |s|
    decreases |s|
  {
    if |s| > 0 {
      if IsSpace(s[0]) {
        CollapseSpaceLength(s[StripStart(s)..]);
      } else {
        CollapseSpaceLength(s[1..]);
      }
    }
  }

  /** One list item: `None` stands for an item that is not a string. */
  function CleanedItem(item: Option<string>): (r: Option<string>)
    ensures r.Some? ==> |r.value| >= 2 && IsSkillForm(r.value)
    ensures item.None? || item == Some("") ==> r.None?
  {
    if item.None? || item.value == "" then None
    else
      var c := CleanSkill(item.value);
      if |c| < 2 then None else Some(c)
  }

  /** The items that survive cleaning, cleaned, in order. */
  function Candidates(items: seq<Option<string>>): (cs: seq<string>)
    ensures |cs| <= |items|
    ensures forall k :: 0 <= k < |cs| ==> |cs[k]| >= 2 && IsSkillForm(cs[k])
  {
    var os := seq(|items|, i requires 0 <= i < |items| => CleanedItem(items[i]));
    var cs := Somes(os);
    forall k | 0 <= k < |cs|
      ensures |cs[k]| >= 2 && IsSkillForm(cs[k])
    {
      var i :| 0 <= i < |os| && os[i] == Some(cs[k]);
    }
    cs
  }

  /** The dedup keys of the candidates. */
  function Keys(cs: seq<string>): (ks: seq<string>)
    ensures |ks| == |cs|
    ensures forall i :: 0 <= i < |cs| ==> ks[i] == SkillKey(cs[i])
  {
    seq(|cs|, i requires 0 <= i < |cs| => SkillKey(cs[i]))
  }

  /**
   * The `seen`-set loop over keys from position `i` on: the positions whose
   * key is new, in increasing order.
   */
  function Firsts(ks: seq<string>, i: nat, seen: set<string>): (idx: seq<nat>)
    requires i <= |ks|
    ensures |idx| <= |ks| - i
    ensures forall k :: 0 <= k < |idx| ==> i <= idx[k] < |ks| && ks[idx[k]] !in seen
    ensures forall k, l :: 0 <= k < l < |idx| ==> idx[k] < idx[l] && ks[idx[k]] != ks[idx[l]]
    decreases |ks| - i
  {
    if i == |ks| then []
    else if ks[i] in seen then Firsts(ks, i + 1, seen)
    else [i] + Firsts(ks, i + 1, seen + {ks[i]})
  }

  /** Exactly the first position of each key not already seen is kept. */
  lemma {:induction false} FirstsExact(ks: seq<string>, i: nat, seen: set<string>, j: nat)
    requires i <= |ks|
    ensures j in Firsts(ks, i, seen) <==>
      i <= j < |ks| && ks[j] !in seen && forall m :: i <= m < j ==> ks[m] != ks[j]
    decreases |ks| - i
  {
    if i < |ks| {
      if ks[i] in seen {
        FirstsExact(ks, i + 1, seen, j);
      } else {
        FirstsExact(ks, i + 1, seen + {ks[i]}, j);
      }
    }
  }

  /** `clean_skill_list`: the cleaned candidates whose key comes first, in input order. */
  function CleanSkillList(items: seq<Option<string>>): (r: seq<string>)
    ensures |r| <= |items|
    ensures forall k :: 0 <= k < |r| ==> |r[k]| >= 2 && IsSkillForm(r[k])
    ensures forall k, l :: 0 <= k < l < |r| ==> SkillKey(r[k]) != SkillKey(r[l])
  {
    var cs := Candidates(items);
    var ks := Keys(cs);
    var idx := Firsts(ks, 0, {});
    var r := Picked(cs, idx);
    PickedDistinct(cs, ks, idx);
    r
  }

  /** The entries of `cs` at the positions `idx`, in that order. */
  function Picked(cs: seq<string>, idx: seq<nat>): (r: seq<string>)
    requires forall k :: 0 <= k < |idx| ==> idx[k] < |cs|
    ensures |r| == |idx|
    ensures forall k :: 0 <= k < |idx| ==> r[k] == cs[idx[k]]
  {
    seq(|idx|, k requires 0 <= k < |idx| => cs[idx[k]])
  }

  /** Positions with pairwise different keys pick skills with pairwise different keys. */
  lemma PickedDistinct(cs: seq<string>, ks: seq<string>, idx: seq<nat>)
    requires ks == Keys(cs)
    requires forall k :: 0 <= k < |idx| ==> idx[k] < |cs|
    requires forall k, l :: 0 <= k < l < |idx| ==> ks[idx[k]] != ks[idx[l]]
    ensures forall k, l :: 0 <= k < l < |idx| ==> SkillKey(Picked(cs, idx)[k]) != SkillKey(Picked(cs, idx)[l])
  {
    var r := Picked(cs, idx);
    forall k, l | 0 <= k < l < |idx|
      ensures SkillKey(r[k]) != SkillKey(r[l])
    {
      assert ks[idx[k]] != ks[idx[l]];
    }
  }

  /**
   * Every output skill is a candidate whose key no earlier candidate has,
   * every such candidate is output, and the order is the input order.
   */
  lemma CleanSkillListFirsts(items: seq<Option<string>>)
    ensures var cs := Candidates(items);
      var idx := Firsts(Keys(cs), 0, {});
      && CleanSkillList(items) == Picked(cs, idx)
      && (forall k, l :: 0 <= k < l < |idx| ==> idx[k] < idx[l])
      && (forall j :: 0 <= j < |cs| ==> (j in idx <==> forall m :: 0 <= m < j ==> SkillKey(cs[m]) != SkillKey(cs[j])))
  {
    var cs := Candidates(items);
    var ks := Keys(cs);
    forall j | 0 <= j < |cs|
      ensures j in Firsts(ks, 0, {}) <==> forall m :: 0 <= m < j ==> SkillKey(cs[m]) != SkillKey(cs[j])
    {
      FirstsExact(ks, 0, {}, j);
    }
  }

  /** Cleaning keeps letter case, so an item without capitals cleans to a skill without capitals. */
  lemma CleanSkillNoUpper(s: string)
    requires NoUpper(s)
    ensures NoUpper(CleanSkill(s))
  {
    var kept := RemovePunct(Strip(s));
    CharsFromTrans(kept, Strip(s), s);
    CharsFromNoUpper(kept, s);
    CollapseSpaceChars(kept);
  }

  /** Lower-case items give lower-case skills. */
  lemma CleanSkillListNoUpper(items: seq<Option<string>>)
    requires forall i :: 0 <= i < |items| && items[i].Some? ==> NoUpper(items[i].value)
    ensures forall k :: 0 <= k < |CleanSkillList(items)| ==> NoUpper(CleanSkillList(items)[k])
  {
    CleanSkillListFirsts(items);
    var cs := Candidates(items);
    var os := seq(|items|, i requires 0 <= i < |items| => CleanedItem(items[i]));
    assert cs == Somes(os);
    forall k | 0 <= k < |cs|
      ensures NoUpper(cs[k])
    {
      var i :| 0 <= i < |os| && os[i] == Some(cs[k]);
      CleanSkillNoUpper(items[i].value);
    }
  }

  /** Every candidate's key is the key of some output skill. */
  lemma CleanSkillListComplete(items: seq<Option<string>>, j: nat)
    requires j < |Candidates(items)|
    ensures exists k :: 0 <= k < |CleanSkillList(items)| && SkillKey(CleanSkillList(items)[k]) == SkillKey(Candidates(items)[j])
    decreases j
  {
    var cs := Candidates(items);
    var ks := Keys(cs);
    var idx := Firsts(ks, 0, {});
    FirstsExact(ks, 0, {}, j);
    if j in idx {
      var k :| 0 <= k < |idx| && idx[k] == j;
      assert CleanSkillList(items)[k] == cs[j];
    } else {
      var m :| 0 <= m < j && ks[m] == ks[j];
      CleanSkillListComplete(items, m);
    }
  }

  /** The strip happens before punctuation removal, so a bullet such as "- Python" leaves a leading space. */
  lemma LeadingSpaceKept(p: string, w: string)
    requires |p| >= 1 && forall i :: 0 <= i < |p| ==> !IsWordChar(p[i]) && !IsSpace(p[i])
    requires |w| >= 1 && forall i :: 0 <= i < |w| ==> IsWordChar(w[i])
    ensures CleanSkill(p + " " + w) == " " + w
  {
    BulletStripped(p, w);
    CleanSkillIs(p + " " + w, " " + w);
  }

  lemma BulletStripped(p: string, w: string)
    requires |p| >= 1 && forall i :: 0 <= i < |p| ==> !IsWordChar(p[i]) && !IsSpace(p[i])
    requires |w| >= 1 && forall i :: 0 <= i < |w| ==> IsWordChar(w[i])
    ensures RemovePunct(Strip(p + " " + w)) == " " + w
    ensures forall i :: 0 <= i < |" " + w| && IsSpace((" " + w)[i]) ==> (" " + w)[i] == ' '
    ensures NoDoubleSpace(" " + w)
  {
    SingleLeadingSpace(w);
    var s := p + " " + w;
    assert s[0] == p[0] && s[|s| - 1] == w[|w| - 1];
    assert NoEdgeSpace(s);
    assert Strip(s) == s;
    assert WordOrSpace(" " + w) by {
      forall i | 0 <= i < |" " + w| ensures IsWordChar((" " + w)[i]) || IsSpace((" " + w)[i]) {
        if i > 0 { assert (" " + w)[i] == w[i - 1]; }
      }
    }
    RemovePunctSplice("", p, " " + w);
    assert "" + p + (" " + w) == s;
    assert "" + (" " + w) == " " + w;
  }

  lemma SingleLeadingSpace(w: string)
    requires forall i :: 0 <= i < |w| ==> IsWordChar(w[i])
    ensures forall i :: 0 <= i < |" " + w| && IsSpace((" " + w)[i]) ==> (" " + w)[i] == ' '
    ensures NoDoubleSpace(" " + w)
  {
    forall i | 1 <= i < |" " + w| ensures !IsSpace((" " + w)[i]) {
      assert (" " + w)[i] == w[i - 1];
    }
  }

  /** `CleanSkill` leaves text alone once punctuation removal yields single-spaced text. */
  lemma CleanSkillIs(s: string, c: string)
    requires RemovePunct(Strip(s)) == c
    requires forall i :: 0 <= i < |c| && IsSpace(c[i]) ==> c[i] == ' '
    requires NoDoubleSpace(c)
    ensures CleanSkill(s) == c
  {
    CollapseSpaceKeeps(c);
  }
}
