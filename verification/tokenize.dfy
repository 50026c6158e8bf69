/**
 * The skill-string tokenisers: `split_skills_string` (skill_matcher.py and
 * enhanced_parser.py) and `split_skills_by_uppercase` (enhanced_parser.py
 * and resume_parser.py).
 *
 * `re.findall` scans left to right: at each position it tries the pattern,
 * takes the first alternative that matches (each greedy, backtracking only as
 * far as a lookahead needs), and on a match continues after it; otherwise it
 * moves on by one character. `[A-Z]` and `[a-z]` are ASCII classes.
 */
module Tokenize {
  import opened Chars
  import opened Strings
  import opened Outcomes

  /** Length of the run of lower-case letters that starts `s`. */
  function LowerRun(s: string): (n: nat)
    ensures n <= |s|
    ensures forall k :: 0 <= k < n ==> IsLower(s[k])
    ensures n < |s| ==> !IsLower(s[n])
  {
    if |s| > 0 && IsLower(s[0]) then 1 + LowerRun(s[1..]) else 0
  }

  /** Length of the run of upper-case letters that starts `s`. */
  function UpperRun(s: string): (n: nat)
    ensures n <= |s|
    ensures forall k :: 0 <= k < n ==> IsUpper(s[k])
    ensures n < |s| ==> !IsUpper(s[n])
  {
    if |s| > 0 && IsUpper(s[0]) then 1 + UpperRun(s[1..]) else 0
  }

  /** The lower-case run has length `m` when exactly the first `m` characters are lower-case. */
  lemma LowerRunIs(t: string, m: nat)
    requires m <= |t|
    requires forall k :: 0 <= k < m ==> IsLower(t[k])
    requires m < |t| ==> !IsLower(t[m])
    ensures LowerRun(t) == m
  {
  }

  lemma UpperRunIs(t: string, m: nat)
    requires m <= |t|
    requires forall k :: 0 <= k < m ==> IsUpper(t[k])
    requires m < |t| ==> !IsUpper(t[m])
    ensures UpperRun(t) == m
  {
  }

  predicate AllLower(w: string)
  {
    forall k :: 0 <= k < |w| ==> IsLower(w[k])
  }

  predicate AllUpper(w: string)
  {
    forall k :: 0 <= k < |w| ==> IsUpper(w[k])
  }

  /** `[A-Z][a-z]+`. */
  predicate IsTitleWord(w: string)
  {
    |w| >= 2 && IsUpper(w[0]) && forall k :: 1 <= k < |w| ==> IsLower(w[k])
  }

  /** What the burst pattern `[A-Z][a-z]+|[A-Z]+|[a-z]+` can match. */
  predicate IsWord(w: string)
  {
    IsTitleWord(w) || (|w| > 0 && AllUpper(w)) || (|w| > 0 && AllLower(w))
  }

  /** `$` without MULTILINE: the end of the text, or just before a final newline. */
  predicate AtEnd(s: string, q: nat)
  {
    q == |s| || (q + 1 == |s| && s[q] == '\n')
  }

  /**
   * The length of the match of `[A-Z][a-z]+|[A-Z]+(?=[A-Z]|$)` at the start
   * of `s`: a capital and its lower-case tail, else the longest capital run
   * that ends the text or is followed by a capital.
   */
  function CamelLen(s: string): (r: Option<nat>)
    requires |s| > 0
    ensures r.Some? ==> 0 < r.value <= |s|
    ensures r.Some? && |s| > 1 && IsLower(s[1]) ==> IsTitleWord(s[..r.value])
    ensures r.Some? && !(|s| > 1 && IsLower(s[1])) ==> AllUpper(s[..r.value])
    ensures r.Some? && !(|s| > 1 && IsLower(s[1])) && !AtEnd(s, r.value) ==> r.value < |s| && IsUpper(s[r.value])
  {
    if !IsUpper(s[0]) then None
    else if |s| > 1 && IsLower(s[1]) then
      var n := 1 + LowerRun(s[1..]);
      assert forall k :: 1 <= k < n ==> s[k] == s[1..][k - 1];
      Some(n)
    else
      var n := UpperRun(s);
      if AtEnd(s, n) then Some(n)
      else if n >= 2 then Some(n - 1)
      else None
  }

  /** `split_skills_by_uppercase`: `re.findall(r'[A-Z][a-z]+|[A-Z]+(?=[A-Z]|$)', s)`; stripping changes no letter run. */
  function CamelSplit(s: string): (r: seq<string>)
    ensures forall i :: 0 <= i < |r| ==> IsTitleWord(r[i]) || (|r[i]| > 0 && AllUpper(r[i]))
    decreases |s|
  {
    if s == [] then []
    else match CamelLen(s)
      case Some(n) => [s[..n]] + CamelSplit(s[n..])
      case None => CamelSplit(s[1..])
  }

  /** Text without capitals yields no tokens: in particular any lower-cased text. */
  lemma {:induction false} CamelSplitNoUpper(s: string)
    requires NoUpper(s)
    ensures CamelSplit(s) == []
    decreases |s|
  {
    if s != [] {
      assert !IsUpper(s[0]);
      assert NoUpper(s[1..]) by {
        forall k | 0 <= k < |s[1..]|
          ensures !IsUpper(s[1..][k])
        {
          assert s[1..][k] == s[k + 1];
        }
      }
      CamelSplitNoUpper(s[1..]);
    }
  }

  /** Capitalised words run together are split back into exactly those words. */
  lemma {:induction false} CamelSplitTitleWords(ws: seq<string>)
    requires forall i :: 0 <= i < |ws| ==> IsTitleWord(ws[i])
    ensures CamelSplit(Concat(ws)) == ws
    decreases |ws|
  {
    if ws != [] {
      var w := ws[0];
      var rest := Concat(ws[1..]);
      var s := Concat(ws);
      assert s == w + rest;
      CamelSplitTitleWords(ws[1..]);
      if ws[1..] != [] {
        ConcatStartsWith(ws[1..]);
      }
      TitleWordLen(w, rest);
      assert s[..|w|] == w;
      assert s[|w|..] == rest;
      assert ws == [w] + ws[1..];
    }
  }

  /** A title word followed by a non-lower-case character or by nothing is matched whole. */
  lemma TitleWordLen(w: string, rest: string)
    requires IsTitleWord(w)
    requires rest == [] || !IsLower(rest[0])
    ensures CamelLen(w + rest) == Some(|w|)
    ensures BurstLen(w + rest) == Some(|w|)
  {
    var s := w + rest;
    assert s[0] == w[0] && s[1] == w[1];
    var t := s[1..];
    assert t == w[1..] + rest;
    forall k | 0 <= k < |w| - 1
      ensures IsLower(t[k])
    {
      assert t[k] == w[k + 1];
    }
    if |w| - 1 < |t| {
      assert t[|w| - 1] == rest[0];
    }
    LowerRunIs(t, |w| - 1);
  }

  /** The concatenation starts with the first word's first letter. */
  lemma ConcatStartsWith(ws: seq<string>)
    requires |ws| > 0 && |ws[0]| > 0
    ensures |Concat(ws)| > 0 && Concat(ws)[0] == ws[0][0]
  {
    assert Concat(ws) == ws[0] + Concat(ws[1..]);
  }

  /** The length of the match of `[A-Z][a-z]+|[A-Z]+|[a-z]+` at the start of `s`. */
  function BurstLen(s: string): (r: Option<nat>)
    requires |s| > 0
    ensures r.Some? ==> 0 < r.value <= |s| && IsWord(s[..r.value])
  {
    if IsUpper(s[0]) then
      if |s| > 1 && IsLower(s[1]) then
        var n := 1 + LowerRun(s[1..]);
        assert forall k :: 1 <= k < n ==> s[k] == s[1..][k - 1];
        Some(n)
      else Some(UpperRun(s))
    else if IsLower(s[0]) then Some(LowerRun(s))
    else None
  }

  /** `re.findall(r'[A-Z][a-z]+|[A-Z]+|[a-z]+', s)`. */
  function Burst(s: string): (r: seq<string>)
    ensures forall i :: 0 <= i < |r| ==> IsWord(r[i])
    decreases |s|
  {
    if s == [] then []
    else match BurstLen(s)
      case Some(n) => [s[..n]] + Burst(s[n..])
      case None => Burst(s[1..])
  }

  /** `[w for w in ws if w.strip() and len(w) > 2]` for letter runs, which stripping does not change. */
  function LongWords(ws: seq<string>): (r: seq<string>)
    ensures |r| <= |ws|
    ensures forall i :: 0 <= i < |r| ==> |r[i]| > 2 && r[i] in ws
  {
    if ws == [] then []
    else if |ws[0]| > 2 then [ws[0]] + LongWords(ws[1..])
    else LongWords(ws[1..])
  }

  lemma {:induction false} LongWordsKeeps(ws: seq<string>)
    requires forall i :: 0 <= i < |ws| ==> |ws[i]| > 2
    ensures LongWords(ws) == ws
    decreases |ws|
  {
    if ws != [] {
      LongWordsKeeps(ws[1..]);
    }
  }

  /** Words separated by single spaces burst back into exactly those words. */
  lemma {:induction false} BurstJoin(ws: seq<string>)
    requires forall i :: 0 <= i < |ws| ==> IsWord(ws[i])
    ensures Burst(Join(ws, ' ')) == ws
    decreases |ws|
  {
    if ws != [] {
      var w := ws[0];
      var s := Join(ws, ' ');
      var rest := if |ws| == 1 then "" else [' '] + Join(ws[1..], ' ');
      assert s == w + rest;
      WordLen(w, rest);
      assert s[..|w|] == w;
      assert s[|w|..] == rest;
      BurstJoin(ws[1..]);
      if |ws| > 1 {
        assert rest[1..] == Join(ws[1..], ' ');
      }
      assert ws == [w] + ws[1..];
    }
  }

  /** A word followed by a space or by nothing is matched whole. */
  lemma WordLen(w: string, rest: string)
    requires IsWord(w)
    requires rest == [] || rest[0] == ' '
    ensures BurstLen(w + rest) == Some(|w|)
  {
    var s := w + rest;
    if IsTitleWord(w) {
      TitleWordLen(w, rest);
    } else if AllUpper(w) {
      forall k | 0 <= k < |w|
        ensures IsUpper(s[k])
      {
        assert s[k] == w[k];
      }
      if |w| < |s| {
        assert s[|w|] == rest[0];
      }
      UpperRunIs(s, |w|);
      if |w| > 1 {
        assert s[1] == w[1];
      } else if |s| > 1 {
        assert s[1] == rest[0];
      }
    } else {
      forall k | 0 <= k < |w|
        ensures IsLower(s[k])
      {
        assert s[k] == w[k];
      }
      if |w| < |s| {
        assert s[|w|] == rest[0];
      }
      LowerRunIs(s, |w|);
    }
  }

  /** Index of the first pair of adjacent whitespace characters, or `|s|`. */
  function FirstDouble(s: string): (k: nat)
    ensures k <= |s|
    ensures forall j :: 0 <= j < k && j + 1 < |s| ==> !(IsSpace(s[j]) && IsSpace(s[j + 1]))
    ensures k < |s| ==> k + 1 < |s| && IsSpace(s[k]) && IsSpace(s[k + 1])
  {
    if |s| < 2 then |s|
    else if IsSpace(s[0]) && IsSpace(s[1]) then 0
    else 1 + FirstDouble(s[1..])
  }

  /** `re.split(r'\s{2,}', s)`: cut at every run of two or more whitespace characters. */
  function WideSplit(s: string): (pieces: seq<string>)
    ensures |pieces| >= 1
    ensures forall i :: 0 <= i < |pieces| ==> NoDoubleSpace(pieces[i])
    ensures forall i :: 0 <= i < |pieces| ==> CharsFrom(pieces[i], s)
    decreases |s|
  {
    var k := FirstDouble(s);
    if k == |s| then
      SliceCharsFrom(s, 0, |s|);
      assert s[0..|s|] == s;
      [s]
    else
      var n := k + StripStart(s[k..]);
      assert n >= k + 2 by {
        assert s[k..][0] == s[k] && s[k..][1] == s[k + 1];
      }
      var rest := WideSplit(s[n..]);
      SliceCharsFrom(s, 0, k);
      assert s[0..k] == s[..k];
      forall i | 0 <= i < |rest|
        ensures CharsFrom(rest[i], s)
      {
        SliceCharsFrom(s, n, |s|);
        CharsFromTrans(rest[i], s[n..], s);
      }
      [s[..k]] + rest
  }

  /** Pieces glued with two spaces. */
  function JoinWide(xs: seq<string>): string
  {
    if |xs| == 0 then ""
    else if |xs| == 1 then xs[0]
    else xs[0] + "  " + JoinWide(xs[1..])
  }

  /** Stripped, non-empty pieces without double spaces, glued with two spaces, split back into themselves. */
  lemma {:induction false} WideSplitJoin(ws: seq<string>)
    requires |ws| >= 1
    requires forall i :: 0 <= i < |ws| ==> ws[i] != "" && NoEdgeSpace(ws[i]) && NoDoubleSpace(ws[i])
    ensures WideSplit(JoinWide(ws)) == ws
    decreases |ws|
  {
    if |ws| > 1 {
      WideSplitJoin(ws[1..]);
      JoinWideStart(ws[1..]);
      WideStep(ws[0], JoinWide(ws[1..]));
      assert ws == [ws[0]] + ws[1..];
    }
  }

  /** One piece and the double space after it come off the front. */
  lemma WideStep(w: string, rest: string)
    requires w != "" && NoEdgeSpace(w) && NoDoubleSpace(w)
    requires rest != "" && !IsSpace(rest[0])
    ensures WideSplit(w + "  " + rest) == [w] + WideSplit(rest)
  {
    var s := w + "  " + rest;
    assert s == w + ("  " + rest);
    FirstDoubleAt(w, "  " + rest);
    var tail := s[|w|..];
    assert tail == "  " + rest;
    assert IsSpace(tail[0]) && IsSpace(tail[1]) && !IsSpace(tail[2]);
    assert StripStart(tail) == 2;
    assert s[..|w|] == w;
    assert s[|w| + 2..] == rest;
  }

  lemma JoinWideStart(ws: seq<string>)
    requires |ws| >= 1 && ws[0] != ""
    ensures |JoinWide(ws)| > 0 && JoinWide(ws)[0] == ws[0][0]
  {
  }

  /** The first double space of `a + b` is at the join when `a` has none and does not end in whitespace. */
  lemma FirstDoubleAt(a: string, b: string)
    requires a != "" && NoDoubleSpace(a) && !IsSpace(a[|a| - 1])
    requires |b| >= 2 && IsSpace(b[0]) && IsSpace(b[1])
    ensures FirstDouble(a + b) == |a|
  {
    var s := a + b;
    forall j | 0 <= j < |a|
      ensures !(IsSpace(s[j]) && IsSpace(s[j + 1]))
    {
      if j + 1 < |a| {
        assert s[j] == a[j] && s[j + 1] == a[j + 1];
      } else {
        assert s[j] == a[|a| - 1];
      }
    }
    assert s[|a|] == b[0] && s[|a| + 1] == b[1];
    FirstDoubleIs(s, |a|);
  }

  lemma FirstDoubleIs(s: string, m: nat)
    requires m + 1 < |s| && IsSpace(s[m]) && IsSpace(s[m + 1])
    requires forall j :: 0 <= j < m ==> !(IsSpace(s[j]) && IsSpace(s[j + 1]))
    ensures FirstDouble(s) == m
  {
  }

  /** The delimiters `, ; • \n /` of `split_skills_string`. */
  const SkillDelimiters: set<char> := {',', ';', '•', '\n', '/'}

  /**
   * skill_matcher.py `split_skills_string`: the delimiter split when any
   * delimiter occurs; else the double-space split, unless that leaves at
   * most one piece, in which case the letter runs longer than two.
   */
  function SplitSkillsMatcher(s: string): (r: seq<string>)
    ensures s == "" ==> r == []
    ensures forall i :: 0 <= i < |r| ==> r[i] != "" && NoEdgeSpace(r[i]) && Avoids(r[i], SkillDelimiters)
    ensures Avoids(s, SkillDelimiters) && |StrippedNonEmpty(WideSplit(s))| <= 1 ==>
      forall i :: 0 <= i < |r| ==> |r[i]| > 2 && IsWord(r[i])
  {
    if s == "" then []
    else if !Avoids(s, SkillDelimiters) then SplitByDelimiters(s)
    else
      var pieces := WidePieces(s);
      if |pieces| <= 1 then
        var r := LongWords(Burst(s));
        assert forall i :: 0 <= i < |r| ==> IsWord(r[i]) && Avoids(r[i], SkillDelimiters) by {
          forall i | 0 <= i < |r|
            ensures IsWord(r[i]) && Avoids(r[i], SkillDelimiters)
          {
            WordIsLetters(r[i]);
          }
        }
        r
      else pieces
  }

  /** enhanced_parser.py `split_skills_string`: as above, but the fallback is the capital split. */
  function SplitSkillsEnhanced(s: string): (r: seq<string>)
    ensures s == "" ==> r == []
    ensures forall i :: 0 <= i < |r| ==> r[i] != "" && NoEdgeSpace(r[i]) && Avoids(r[i], SkillDelimiters)
    ensures Avoids(s, SkillDelimiters) && |StrippedNonEmpty(WideSplit(s))| <= 1 ==> r == CamelSplit(s)
  {
    if s == "" then []
    else if !Avoids(s, SkillDelimiters) then SplitByDelimiters(s)
    else
      var pieces := WidePieces(s);
      if |pieces| <= 1 then
        var r := CamelSplit(s);
        forall i | 0 <= i < |r|
          ensures Avoids(r[i], SkillDelimiters)
        {
          WordIsLetters(r[i]);
        }
        r
      else pieces
  }

  /** Splitting never introduces a capital: lower-case text gives lower-case skills. */
  lemma SplitSkillsEnhancedNoUpper(s: string)
    requires NoUpper(s)
    ensures forall i :: 0 <= i < |SplitSkillsEnhanced(s)| ==> NoUpper(SplitSkillsEnhanced(s)[i])
  {
    if s != "" {
      if !Avoids(s, SkillDelimiters) {
        StrippedNoUpper(SplitOn(s, SkillDelimiters), s);
      } else if |WidePieces(s)| <= 1 {
        CamelSplitNoUpper(s);
      } else {
        StrippedNoUpper(WideSplit(s), s);
      }
    }
  }

  /** `[x.strip() for x in re.split(r'[,;•\n/]', s) if x.strip()]`. */
  function SplitByDelimiters(s: string): (r: seq<string>)
    ensures forall i :: 0 <= i < |r| ==> r[i] != "" && NoEdgeSpace(r[i]) && Avoids(r[i], SkillDelimiters)
  {
    var pieces := SplitOn(s, SkillDelimiters);
    StrippedAvoids(pieces, SkillDelimiters);
    StrippedNonEmpty(pieces)
  }

  /** The stripped, non-empty pieces of the double-space split. */
  function WidePieces(s: string): (r: seq<string>)
    requires Avoids(s, SkillDelimiters)
    ensures forall i :: 0 <= i < |r| ==> r[i] != "" && NoEdgeSpace(r[i]) && Avoids(r[i], SkillDelimiters)
  {
    var pieces := WideSplit(s);
    forall i | 0 <= i < |pieces|
      ensures Avoids(pieces[i], SkillDelimiters)
    {
      CharsFromAvoids(pieces[i], s, SkillDelimiters);
    }
    StrippedAvoids(pieces, SkillDelimiters);
    StrippedNonEmpty(pieces)
  }

  /** Stripping keeps pieces free of characters they were free of. */
  lemma StrippedAvoids(xs: seq<string>, bad: set<char>)
    requires forall i :: 0 <= i < |xs| ==> Avoids(xs[i], bad)
    ensures forall i :: 0 <= i < |StrippedNonEmpty(xs)| ==> Avoids(StrippedNonEmpty(xs)[i], bad)
  {
    var r := StrippedNonEmpty(xs);
    forall i | 0 <= i < |r|
      ensures Avoids(r[i], bad)
    {
      StrippedNonEmptyMembers(xs, r[i]);
      var j :| 0 <= j < |xs| && r[i] == Strip(xs[j]);
      CharsFromAvoids(r[i], xs[j], bad);
    }
  }

  lemma WordIsLetters(w: string)
    requires IsTitleWord(w) || IsWord(w)
    ensures forall k :: 0 <= k < |w| ==> IsLetter(w[k])
    ensures Avoids(w, SkillDelimiters) && NoEdgeSpace(w)
  {
  }

  /** Stripped non-empty strings pass through the strip-and-filter step unchanged. */
  lemma {:induction false} StrippedKeeps(xs: seq<string>)
    requires forall i :: 0 <= i < |xs| ==> xs[i] != "" && NoEdgeSpace(xs[i])
    ensures StrippedNonEmpty(xs) == xs
    decreases |xs|
  {
    if xs != [] {
      StrippedKeeps(xs[1..]);
      assert xs == [xs[0]] + xs[1..];
    }
  }

  /** Two or more clean skills joined by commas split back into themselves (both variants). */
  lemma SplitSkillsCommas(ws: seq<string>)
    requires |ws| >= 2
    requires forall i :: 0 <= i < |ws| ==> ws[i] != "" && NoEdgeSpace(ws[i]) && Avoids(ws[i], SkillDelimiters)
    ensures SplitSkillsMatcher(Join(ws, ',')) == ws
    ensures SplitSkillsEnhanced(Join(ws, ',')) == ws
  {
    var s := Join(ws, ',');
    assert s == ws[0] + [','] + Join(ws[1..], ',');
    assert s[|ws[0]|] == ',';
    assert !Avoids(s, SkillDelimiters);
    forall i | 0 <= i < |ws|
      ensures Avoids(ws[i], {','})
    {
    }
    SplitOnWider(ws, s);
    StrippedKeeps(ws);
  }

  /** Splitting on all delimiters equals splitting on the comma when the pieces have no other delimiter. */
  lemma SplitOnWider(ws: seq<string>, s: string)
    requires |ws| >= 1 && s == Join(ws, ',')
    requires forall i :: 0 <= i < |ws| ==> Avoids(ws[i], SkillDelimiters)
    ensures SplitOn(s, SkillDelimiters) == ws
  {
    JoinAvoids(ws, ',', SkillDelimiters);
    SplitJoinWith(ws, ',', SkillDelimiters);
  }

  /** Joining keeps out every character other than the separator. */
  lemma {:induction false} JoinAvoids(xs: seq<string>, sep: char, seps: set<char>)
    requires forall i :: 0 <= i < |xs| ==> Avoids(xs[i], seps)
    ensures Avoids(Join(xs, sep), seps - {sep})
    decreases |xs|
  {
    if |xs| > 1 {
      JoinAvoids(xs[1..], sep, seps);
    }
  }

  /** `SplitJoin` for a separator set: only the separator character that was joined with occurs. */
  lemma {:induction false} SplitJoinWith(xs: seq<string>, sep: char, seps: set<char>)
    requires |xs| >= 1 && sep in seps
    requires forall i :: 0 <= i < |xs| ==> Avoids(xs[i], seps)
    ensures SplitOn(Join(xs, sep), seps) == xs
    decreases |xs|
  {
    if |xs| > 1 {
      var s := Join(xs, sep);
      var x := xs[0];
      var rest := Join(xs[1..], sep);
      assert s == x + ([sep] + rest);
      FirstInPrefix(x, [sep] + rest, seps);
      assert s[..|x|] == x;
      assert s[|x| + 1..] == rest;
      SplitJoinWith(xs[1..], sep, seps);
      assert xs == [x] + xs[1..];
    } else {
      assert Join(xs, sep) == xs[0];
      assert FirstIn(xs[0], seps) == |xs[0]|;
    }
  }

  /** Two or more delimiter-free skills glued with two spaces split back into themselves (both variants). */
  lemma SplitSkillsWide(ws: seq<string>)
    requires |ws| >= 2
    requires forall i :: 0 <= i < |ws| ==>
      ws[i] != "" && NoEdgeSpace(ws[i]) && NoDoubleSpace(ws[i]) && Avoids(ws[i], SkillDelimiters)
    ensures SplitSkillsMatcher(JoinWide(ws)) == ws
    ensures SplitSkillsEnhanced(JoinWide(ws)) == ws
  {
    var s := JoinWide(ws);
    JoinWideAvoids(ws);
    JoinWideStart(ws);
    WideSplitJoin(ws);
    StrippedKeeps(ws);
  }

  lemma {:induction false} JoinWideAvoids(xs: seq<string>)
    requires forall i :: 0 <= i < |xs| ==> Avoids(xs[i], SkillDelimiters)
    ensures Avoids(JoinWide(xs), SkillDelimiters)
    decreases |xs|
  {
    if |xs| > 1 {
      JoinWideAvoids(xs[1..]);
    }
  }

  /** Words longer than two letters, single-spaced, come back from the letter-run fallback. */
  lemma SplitSkillsWords(ws: seq<string>)
    requires forall i :: 0 <= i < |ws| ==> IsWord(ws[i]) && |ws[i]| > 2
    ensures SplitSkillsMatcher(Join(ws, ' ')) == ws
  {
    var s := Join(ws, ' ');
    if ws != [] {
      SingleSpaced(ws);
      OneWidePiece(s);
      BurstJoin(ws);
      LongWordsKeeps(ws);
    }
  }

  /** Text without double spaces or edge spaces is one piece of the double-space split. */
  lemma OneWidePiece(s: string)
    requires s != "" && Avoids(s, SkillDelimiters) && NoDoubleSpace(s) && NoEdgeSpace(s)
    ensures WidePieces(s) == [s]
  {
    assert FirstDouble(s) == |s|;
    assert WideSplit(s) == [s];
    assert Strip(s) == s;
    assert StrippedNonEmpty([s]) == [s];
  }

  /** Letter words joined by single spaces: no delimiter, no double space, no edge space. */
  lemma {:induction false} SingleSpaced(ws: seq<string>)
    requires |ws| >= 1
    requires forall i :: 0 <= i < |ws| ==> IsWord(ws[i])
    ensures var s := Join(ws, ' ');
      s != "" && Avoids(s, SkillDelimiters) && NoDoubleSpace(s) && NoEdgeSpace(s)
      && !IsSpace(s[0]) && !IsSpace(s[|s| - 1])
    decreases |ws|
  {
    var w := ws[0];
    WordIsLetters(w);
    if |ws| > 1 {
      SingleSpaced(ws[1..]);
      var rest := Join(ws[1..], ' ');
      var s := Join(ws, ' ');
      assert s == w + [' '] + rest;
      forall i | 0 <= i < |s| - 1
        ensures !(IsSpace(s[i]) && IsSpace(s[i + 1]))
      {
        if i < |w| {
          assert s[i] == w[i];
        } else if i > |w| {
          assert s[i] == rest[i - |w| - 1] && s[i + 1] == rest[i - |w|];
        } else {
          assert s[i + 1] == rest[0];
        }
      }
    }
  }

  /** Capitalised words run together come back from the capital-split fallback. */
  lemma SplitSkillsTitleWords(ws: seq<string>)
    requires |ws| >= 1
    requires forall i :: 0 <= i < |ws| ==> IsTitleWord(ws[i])
    ensures SplitSkillsEnhanced(Concat(ws)) == ws
  {
    var s := Concat(ws);
    LettersConcat(ws);
    ConcatStartsWith(ws);
    OneWidePiece(s);
    CamelSplitTitleWords(ws);
  }

  lemma {:induction false} LettersConcat(ws: seq<string>)
    requires forall i :: 0 <= i < |ws| ==> IsTitleWord(ws[i])
    ensures forall k :: 0 <= k < |Concat(ws)| ==> IsLetter(Concat(ws)[k])
    ensures Avoids(Concat(ws), SkillDelimiters) && NoDoubleSpace(Concat(ws)) && NoEdgeSpace(Concat(ws))
    decreases |ws|
  {
    if ws != [] {
      LettersConcat(ws[1..]);
      var s := Concat(ws);
      assert s == ws[0] + Concat(ws[1..]);
      forall k | 0 <= k < |s|
        ensures IsLetter(s[k])
      {
        if k >= |ws[0]| {
          assert s[k] == Concat(ws[1..])[k - |ws[0]|];
        }
      }
    }
  }
}
