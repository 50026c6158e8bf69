/**
 * The `str` operations the parser relies on: `strip()`, single-character
 * `re.split`, `'sep'.join`, substring search (`w in s`), and the two
 * character-level `re.sub` rewrites `[^\w\s] -> ''` and `\s+ -> ' '`.
 */
module Strings {
  import opened Chars

  /** Every character of `r` also occurs in `s`. */
  ghost predicate CharsFrom(r: string, s: string)
  {
    forall i :: 0 <= i < |r| ==> r[i] in s
  }

  /** No character of `s` is in `bad`. */
  predicate Avoids(s: string, bad: set<char>)
  {
    forall i :: 0 <= i < |s| ==> s[i] !in bad
  }

  predicate AllSpace(s: string)
  {
    forall i :: 0 <= i < |s| ==> IsSpace(s[i])
  }

  /** What `str.strip()` returns: no whitespace at either end. */
  predicate NoEdgeSpace(s: string)
  {
    |s| == 0 || (!IsSpace(s[0]) && !IsSpace(s[|s| - 1]))
  }

  /** No two adjacent whitespace characters. */
  predicate NoDoubleSpace(s: string)
  {
    forall i :: 0 <= i < |s| - 1 ==> !(IsSpace(s[i]) && IsSpace(s[i + 1]))
  }

  predicate OccursAt(s: string, i: nat, w: string)
  {
    i + |w| <= |s| && s[i..i + |w|] == w
  }

  /** Python's `w in s` for strings. */
  predicate Contains(s: string, w: string)
  {
    exists i :: 0 <= i <= |s| && OccursAt(s, i, w)
  }

  lemma CharsFromTrans(a: string, b: string, c: string)
    requires CharsFrom(a, b) && CharsFrom(b, c)
    ensures CharsFrom(a, c)
  {
  }

  lemma CharsFromAvoids(r: string, s: string, bad: set<char>)
    requires CharsFrom(r, s) && Avoids(s, bad)
    ensures Avoids(r, bad)
  {
  }

  lemma CharsFromNoUpper(r: string, s: string)
    requires CharsFrom(r, s) && NoUpper(s)
    ensures NoUpper(r)
  {
  }

  lemma SliceCharsFrom(s: string, i: nat, j: nat)
    requires i <= j <= |s|
    ensures CharsFrom(s[i..j], s)
  {
    forall k | 0 <= k < j - i
      ensures s[i..j][k] in s
    {
      assert s[i..j][k] == s[i + k];
    }
  }

  /** An occurrence inside a slice is an occurrence in the whole string. */
  lemma SliceContains(s: string, i: nat, j: nat, w: string)
    requires i <= j <= |s|
    requires Contains(s[i..j], w)
    ensures Contains(s, w)
  {
    var k :| 0 <= k <= j - i && OccursAt(s[i..j], k, w);
    assert s[i + k..i + k + |w|] == w by {
      forall m | 0 <= m < |w|
        ensures s[i + k + m] == w[m]
      {
        assert s[i..j][k..k + |w|][m] == w[m];
      }
    }
    assert OccursAt(s, i + k, w);
  }

  /** Number of leading whitespace characters. */
  function StripStart(s: string): (n: nat)
    ensures n <= |s|
    ensures forall k :: 0 <= k < n ==> IsSpace(s[k])
    ensures n < |s| ==> !IsSpace(s[n])
  {
    if |s| > 0 && IsSpace(s[0]) then 1 + StripStart(s[1..]) else 0
  }

  /** Length of `s` without its trailing whitespace. */
  function StripEnd(s: string): (m: nat)
    ensures m <= |s|
    ensures forall k :: m <= k < |s| ==> IsSpace(s[k])
    ensures 0 < m ==> !IsSpace(s[m - 1])
  {
    if |s| > 0 && IsSpace(s[|s| - 1]) then StripEnd(s[..|s| - 1]) else |s|
  }

  /** `str.strip()`: `s` without leading and trailing whitespace. */
  function Strip(s: string): (r: string)
    ensures NoEdgeSpace(r)
    ensures |r| <= |s|
    ensures r == [] <==> AllSpace(s)
    ensures NoEdgeSpace(s) ==> r == s
    ensures CharsFrom(r, s)
    ensures exists n :: StripsTo(s, n, r)
  {
    var n := StripStart(s);
    var m := StripEnd(s[n..]);
    assert s[n..][..m] == s[n..n + m];
    SliceCharsFrom(s, n, n + m);
    StripParts(s, n, m);
    s[n..n + m]
  }

  /** `r` is `s` with a whitespace prefix of length `n` and a whitespace suffix cut off. */
  predicate StripsTo(s: string, n: nat, r: string)
  {
    n + |r| <= |s| && r == s[n..n + |r|] && AllSpace(s[..n]) && AllSpace(s[n + |r|..])
  }

  lemma StripParts(s: string, n: nat, m: nat)
    requires n == StripStart(s) && m == StripEnd(s[n..])
    ensures StripsTo(s, n, s[n..n + m])
  {
    var t := s[n + m..];
    forall k | 0 <= k < |t|
      ensures IsSpace(t[k])
    {
      assert t[k] == s[n..][m + k];
    }
  }

  /** Index of the first character of `s` in `seps`, or `|s|`. */
  function FirstIn(s: string, seps: set<char>): (k: nat)
    ensures k <= |s|
    ensures forall j :: 0 <= j < k ==> s[j] !in seps
    ensures k < |s| ==> s[k] in seps
  {
    if |s| == 0 then 0 else if s[0] in seps then 0 else 1 + FirstIn(s[1..], seps)
  }

  /** `re.split('[...]', s)` with a character class: cut at every separator. */
  function SplitOn(s: string, seps: set<char>): (pieces: seq<string>)
    ensures |pieces| >= 1
    ensures forall i :: 0 <= i < |pieces| ==> Avoids(pieces[i], seps)
    ensures forall i :: 0 <= i < |pieces| ==> CharsFrom(pieces[i], s)
    decreases |s|
  {
    var k := FirstIn(s, seps);
    if k == |s| then
      SliceCharsFrom(s, 0, |s|);
      assert s[0..|s|] == s;
      [s]
    else
      var rest := SplitOn(s[k + 1..], seps);
      SliceCharsFrom(s, 0, k);
      assert s[0..k] == s[..k];
      forall i | 0 <= i < |rest|
        ensures CharsFrom(rest[i], s)
      {
        SliceCharsFrom(s, k + 1, |s|);
        CharsFromTrans(rest[i], s[k + 1..], s);
      }
      [s[..k]] + rest
  }

  /** Python's `sep.join(xs)` for a one-character separator. */
  function Join(xs: seq<string>, sep: char): (r: string)
  {
    if |xs| == 0 then ""
    else if |xs| == 1 then xs[0]
    else xs[0] + [sep] + Join(xs[1..], sep)
  }

  /**
   * A word without the separator occurs in the joined text exactly when it
   * occurs in one of the pieces: no occurrence can straddle a separator.
   */
  lemma {:induction false} JoinContains(xs: seq<string>, sep: char, w: string)
    requires |w| > 0 && sep !in w
    ensures Contains(Join(xs, sep), w) <==> exists j :: 0 <= j < |xs| && Contains(xs[j], w)
    decreases |xs|
  {
    if |xs| >= 2 {
      var x := xs[0];
      var rest := Join(xs[1..], sep);
      assert Join(xs, sep) == x + [sep] + rest;
      JoinContains(xs[1..], sep, w);
      assert forall j :: 1 <= j < |xs| ==> xs[j] == xs[1..][j - 1];
      if Contains(x + [sep] + rest, w) {
        var i :| 0 <= i <= |x + [sep] + rest| && OccursAt(x + [sep] + rest, i, w);
        OccursSplit(x, sep, rest, w, i);
        if i > |x| {
          assert Contains(rest, w);
        }
      }
      if exists j :: 0 <= j < |xs| && Contains(xs[j], w) {
        var j :| 0 <= j < |xs| && Contains(xs[j], w);
        if j == 0 {
          var p :| 0 <= p <= |x| && OccursAt(x, p, w);
          OccursLeft(x, sep, rest, w, p);
        } else {
          assert Contains(rest, w);
          var q :| 0 <= q <= |rest| && OccursAt(rest, q, w);
          OccursRight(x, sep, rest, w, q);
        }
      }
    }
  }

  /** An occurrence in `x + [sep] + rest` of a word without `sep` lies in `x` or in `rest`. */
  lemma OccursSplit(x: string, sep: char, rest: string, w: string, i: nat)
    requires OccursAt(x + [sep] + rest, i, w) && sep !in w
    ensures (i + |w| <= |x| && OccursAt(x, i, w)) || (i > |x| && OccursAt(rest, i - |x| - 1, w))
  {
    var s := x + [sep] + rest;
    assert s[|x|] == sep;
    assert forall k :: i <= k < i + |w| ==> s[k] == w[k - i];
    if i + |w| <= |x| {
      assert x[i..i + |w|] == s[i..i + |w|];
    } else if i > |x| {
      assert rest[i - |x| - 1..i - |x| - 1 + |w|] == s[i..i + |w|];
    } else {
      assert false;
    }
  }

  lemma OccursLeft(x: string, sep: char, rest: string, w: string, p: nat)
    requires OccursAt(x, p, w)
    ensures OccursAt(x + [sep] + rest, p, w)
  {
    assert (x + [sep] + rest)[p..p + |w|] == x[p..p + |w|];
  }

  lemma OccursRight(x: string, sep: char, rest: string, w: string, q: nat)
    requires OccursAt(rest, q, w)
    ensures OccursAt(x + [sep] + rest, |x| + 1 + q, w)
  {
    assert (x + [sep] + rest)[|x| + 1 + q..|x| + 1 + q + |w|] == rest[q..q + |w|];
  }

  /** The pieces glued together without separators. */
  function Concat(xs: seq<string>): string
  {
    if |xs| == 0 then "" else xs[0] + Concat(xs[1..])
  }

  /** `s` with every character of `seps` deleted. */
  function Remove(s: string, seps: set<char>): string
  {
    if |s| == 0 then "" else (if s[0] in seps then "" else [s[0]]) + Remove(s[1..], seps)
  }

  function CountIn(s: string, seps: set<char>): nat
  {
    if |s| == 0 then 0 else (if s[0] in seps then 1 else 0) + CountIn(s[1..], seps)
  }

  lemma RemoveNone(s: string, seps: set<char>)
    requires Avoids(s, seps)
    ensures Remove(s, seps) == s
    ensures CountIn(s, seps) == 0
  {
    if |s| > 0 {
      RemoveNone(s[1..], seps);
    }
  }

  lemma RemoveAppend(a: string, b: string, seps: set<char>)
    ensures Remove(a + b, seps) == Remove(a, seps) + Remove(b, seps)
    ensures CountIn(a + b, seps) == CountIn(a, seps) + CountIn(b, seps)
  {
    if |a| == 0 {
      assert a + b == b;
    } else {
      assert (a + b)[1..] == a[1..] + b;
      RemoveAppend(a[1..], b, seps);
    }
  }

  /**
   * Splitting loses exactly the separators: the pieces put back together
   * are `s` without its separators, and there is one more piece than
   * there are separators.
   */
  lemma {:induction false} SplitOnLosesOnlySeparators(s: string, seps: set<char>)
    ensures Concat(SplitOn(s, seps)) == Remove(s, seps)
    ensures |SplitOn(s, seps)| == 1 + CountIn(s, seps)
    decreases |s|
  {
    var k := FirstIn(s, seps);
    if k == |s| {
      RemoveNone(s, seps);
      assert Concat([s]) == s + Concat([]);
    } else {
      var a := s[..k];
      var rest := SplitOn(s[k + 1..], seps);
      assert SplitOn(s, seps) == [a] + rest;
      SplitOnLosesOnlySeparators(s[k + 1..], seps);
      assert ([a] + rest)[1..] == rest;
      RemoveAtSeparator(s, k, seps);
    }
  }

  /** Removal and counting across the first separator, at index `k`. */
  lemma RemoveAtSeparator(s: string, k: nat, seps: set<char>)
    requires k < |s| && s[k] in seps && Avoids(s[..k], seps)
    ensures Remove(s, seps) == s[..k] + Remove(s[k + 1..], seps)
    ensures CountIn(s, seps) == 1 + CountIn(s[k + 1..], seps)
  {
    assert s == s[..k] + ([s[k]] + s[k + 1..]);
    RemoveNone(s[..k], seps);
    RemoveAppend(s[..k], [s[k]] + s[k + 1..], seps);
    RemoveAppend([s[k]], s[k + 1..], seps);
    assert ([s[k]])[1..] == [];
  }

  /** Splitting a joined list at its separator gives the list back. */
  lemma {:induction false} SplitJoin(xs: seq<string>, sep: char)
    requires |xs| >= 1
    requires forall i :: 0 <= i < |xs| ==> Avoids(xs[i], {sep})
    ensures SplitOn(Join(xs, sep), {sep}) == xs
    decreases |xs|
  {
    if |xs| > 1 {
      var s := Join(xs, sep);
      var x := xs[0];
      var rest := Join(xs[1..], sep);
      assert s == x + ([sep] + rest);
      FirstInPrefix(x, [sep] + rest, {sep});
      assert FirstIn(s, {sep}) == |x|;
      assert s[..|x|] == x;
      assert s[|x| + 1..] == rest;
      SplitJoin(xs[1..], sep);
      assert xs == [x] + xs[1..];
    }
  }

  /** Joining the pieces of a split with the same separator gives the text back. */
  lemma {:induction false} JoinSplit(s: string, sep: char)
    ensures Join(SplitOn(s, {sep}), sep) == s
    decreases |s|
  {
    var k := FirstIn(s, {sep});
    if k < |s| {
      var rest := SplitOn(s[k + 1..], {sep});
      assert SplitOn(s, {sep}) == [s[..k]] + rest;
      JoinSplit(s[k + 1..], sep);
      assert ([s[..k]] + rest)[1..] == rest;
      assert s == s[..k] + [sep] + s[k + 1..];
    }
  }

  lemma {:induction false} FirstInPrefix(a: string, b: string, seps: set<char>)
    requires Avoids(a, seps)
    requires |b| > 0 && b[0] in seps
    ensures FirstIn(a + b, seps) == |a|
    decreases |a|
  {
    if |a| == 0 {
      assert a + b == b;
    } else {
      assert (a + b)[1..] == a[1..] + b;
      FirstInPrefix(a[1..], b, seps);
    }
  }

  /** `[x.strip() for x in xs if x.strip()]`. */
  function StrippedNonEmpty(xs: seq<string>): (r: seq<string>)
    ensures |r| <= |xs|
    ensures forall i :: 0 <= i < |r| ==> r[i] != "" && NoEdgeSpace(r[i])
  {
    if |xs| == 0 then []
    else
      var h := Strip(xs[0]);
      if h != "" then [h] + StrippedNonEmpty(xs[1..]) else StrippedNonEmpty(xs[1..])
  }

  /** The kept strings are exactly the non-empty stripped inputs. */
  lemma {:induction false} StrippedNonEmptyMembers(xs: seq<string>, t: string)
    ensures t in StrippedNonEmpty(xs) <==> t != "" && exists j :: 0 <= j < |xs| && t == Strip(xs[j])
    decreases |xs|
  {
    if |xs| > 0 {
      StrippedNonEmptyMembers(xs[1..], t);
      if exists j :: 0 <= j < |xs| && t == Strip(xs[j]) {
        var j :| 0 <= j < |xs| && t == Strip(xs[j]);
        if j > 0 {
          assert xs[j] == xs[1..][j - 1];
        }
      }
      if exists j :: 0 <= j < |xs[1..]| && t == Strip(xs[1..][j]) {
        var j :| 0 <= j < |xs[1..]| && t == Strip(xs[1..][j]);
        assert xs[1..][j] == xs[j + 1];
      }
    }
  }

  /** Stripped pieces of a text without capitals have none either. */
  lemma StrippedNoUpper(xs: seq<string>, s: string)
    requires NoUpper(s)
    requires forall j :: 0 <= j < |xs| ==> CharsFrom(xs[j], s)
    ensures forall i :: 0 <= i < |StrippedNonEmpty(xs)| ==> NoUpper(StrippedNonEmpty(xs)[i])
  {
    var r := StrippedNonEmpty(xs);
    forall i | 0 <= i < |r|
      ensures NoUpper(r[i])
    {
      StrippedNonEmptyMembers(xs, r[i]);
      var j :| 0 <= j < |xs| && r[i] == Strip(xs[j]);
      CharsFromTrans(r[i], xs[j], s);
      CharsFromNoUpper(r[i], s);
    }
  }

  /** Only characters of the regex class `[\w\s]`. */
  predicate WordOrSpace(s: string)
  {
    forall i :: 0 <= i < |s| ==> IsWordChar(s[i]) || IsSpace(s[i])
  }

  /** `re.sub(r'[^\w\s]', '', s)`: keep only word and whitespace characters. */
  function RemovePunct(s: string): (r: string)
    ensures |r| <= |s|
    ensures WordOrSpace(r)
    ensures CharsFrom(r, s)
  {
    if |s| == 0 then ""
    else
      var rest := RemovePunct(s[1..]);
      assert CharsFrom(rest, s) by {
        SliceCharsFrom(s, 1, |s|);
        CharsFromTrans(rest, s[1..], s);
      }
      if IsWordChar(s[0]) || IsSpace(s[0]) then [s[0]] + rest else rest
  }

  /** Nothing is removed from a string without punctuation. */
  lemma {:induction false} RemovePunctKeeps(s: string)
    requires WordOrSpace(s)
    ensures RemovePunct(s) == s
    decreases |s|
  {
    if |s| > 0 {
      assert WordOrSpace(s[1..]) by {
        forall i | 0 <= i < |s| - 1
          ensures IsWordChar(s[1..][i]) || IsSpace(s[1..][i])
        {
          assert s[1..][i] == s[i + 1];
        }
      }
      RemovePunctKeeps(s[1..]);
      assert s == [s[0]] + s[1..];
    }
  }

  /** Punctuation removal works piecewise. */
  lemma {:induction false} RemovePunctAppend(a: string, b: string)
    ensures RemovePunct(a + b) == RemovePunct(a) + RemovePunct(b)
    decreases |a|
  {
    if |a| == 0 {
      assert a + b == b;
    } else {
      assert (a + b)[1..] == a[1..] + b;
      RemovePunctAppend(a[1..], b);
    }
  }

  /** A string of punctuation only is removed entirely. */
  lemma {:induction false} RemovePunctDropsAll(p: string)
    requires forall i :: 0 <= i < |p| ==> !IsWordChar(p[i]) && !IsSpace(p[i])
    ensures RemovePunct(p) == ""
    decreases |p|
  {
    if |p| > 0 {
      assert forall i :: 0 <= i < |p| - 1 ==> p[1..][i] == p[i + 1];
      RemovePunctDropsAll(p[1..]);
    }
  }

  /** Punctuation between two clean pieces disappears and the pieces join up. */
  lemma RemovePunctSplice(a: string, p: string, b: string)
    requires WordOrSpace(a) && WordOrSpace(b)
    requires forall i :: 0 <= i < |p| ==> !IsWordChar(p[i]) && !IsSpace(p[i])
    ensures RemovePunct(a + p + b) == a + b
  {
    var ap := a + p;
    RemovePunctAppend(ap, b);
    RemovePunctAppend(a, p);
    RemovePunctDropsAll(p);
    assert RemovePunct(ap) == RemovePunct(a);
    RemovePunctKeeps(a);
    RemovePunctKeeps(b);
  }

  /** `re.sub(r'\s+', ' ', s)`: every run of whitespace becomes one space. */
  function CollapseSpace(s: string): (r: string)
    ensures |r| == 0 <==> |s| == 0
    ensures |r| > 0 ==> (IsSpace(r[0]) <==> IsSpace(s[0]))
    ensures |r| > 0 ==> (IsSpace(r[|r| - 1]) <==> IsSpace(s[|s| - 1]))
    ensures forall i :: 0 <= i < |r| && IsSpace(r[i]) ==> r[i] == ' '
    ensures NoDoubleSpace(r)
    decreases |s|
  {
    if |s| == 0 then ""
    else if IsSpace(s[0]) then
      var n := StripStart(s);
      [' '] + CollapseSpace(s[n..])
    else
      [s[0]] + CollapseSpace(s[1..])
  }

  /** Collapsing keeps every non-whitespace character where it came from. */
  lemma {:induction false} CollapseSpaceChars(s: string)
    ensures forall i :: 0 <= i < |CollapseSpace(s)| && !IsSpace(CollapseSpace(s)[i]) ==> CollapseSpace(s)[i] in s
    decreases |s|
  {
    if |s| > 0 {
      var n := if IsSpace(s[0]) then StripStart(s) else 1;
      var rest := CollapseSpace(s[n..]);
      CollapseSpaceChars(s[n..]);
      assert CollapseSpace(s) == (if IsSpace(s[0]) then [' '] else [s[0]]) + rest;
      forall i | 0 <= i < |rest| && !IsSpace(rest[i])
        ensures rest[i] in s
      {
        var j :| 0 <= j < |s[n..]| && s[n..][j] == rest[i];
        assert s[n + j] == rest[i];
      }
    }
  }

  /** The leading-whitespace count is the index of the first non-whitespace character. */
  lemma StripStartIs(s: string, n: nat)
    requires n <= |s| && AllSpace(s[..n])
    requires n < |s| ==> !IsSpace(s[n])
    ensures StripStart(s) == n
  {
  }

  /** Collapsing works piecewise across a cut after a non-whitespace character. */
  lemma {:induction false} CollapseSpaceAppend(a: string, b: string)
    requires |a| > 0 && !IsSpace(a[|a| - 1])
    ensures CollapseSpace(a + b) == CollapseSpace(a) + CollapseSpace(b)
    decreases |a|
  {
    var ab := a + b;
    assert ab[0] == a[0];
    if IsSpace(a[0]) {
      var n := StripStart(a);
      var t := a[n..];
      LeadingRun(a, b, n);
      assert ab[n..] == t + b;
      assert t[|t| - 1] == a[|a| - 1];
      CollapseSpaceAppend(t, b);
    } else if |a| == 1 {
      assert ab[1..] == b;
      assert a[1..] == [];
    } else {
      var t := a[1..];
      assert ab[1..] == t + b;
      assert t[|t| - 1] == a[|a| - 1];
      CollapseSpaceAppend(t, b);
    }
  }

  /** The leading whitespace of `a + b` is that of `a` when `a` ends in a non-whitespace character. */
  lemma LeadingRun(a: string, b: string, n: nat)
    requires |a| > 0 && !IsSpace(a[|a| - 1]) && n == StripStart(a)
    ensures n < |a| && StripStart(a + b) == n
  {
    var ab := a + b;
    var p := ab[..n];
    forall k | 0 <= k < |p|
      ensures IsSpace(p[k])
    {
      assert p[k] == a[k];
    }
    assert n < |ab| ==> ab[n] == a[n];
    StripStartIs(ab, n);
  }

  /** A whole run of whitespace, up to the next non-whitespace character, becomes one space. */
  lemma CollapseSpaceRun(w: string, b: string)
    requires |w| > 0 && AllSpace(w)
    requires b == [] || !IsSpace(b[0])
    ensures CollapseSpace(w + b) == " " + CollapseSpace(b)
  {
    var wb := w + b;
    assert wb[..|w|] == w;
    StripStartIs(wb, |w|);
    assert wb[|w|..] == b;
  }

  /** A string whose whitespace is already single plain spaces is left alone. */
  lemma {:induction false} CollapseSpaceKeeps(s: string)
    requires forall i :: 0 <= i < |s| && IsSpace(s[i]) ==> s[i] == ' '
    requires NoDoubleSpace(s)
    ensures CollapseSpace(s) == s
    decreases |s|
  {
    if |s| > 0 {
      var tail := s[1..];
      forall i | 0 <= i < |tail| && IsSpace(tail[i])
        ensures tail[i] == ' '
      {
        assert tail[i] == s[i + 1];
      }
      forall i | 0 <= i < |tail| - 1
        ensures !(IsSpace(tail[i]) && IsSpace(tail[i + 1]))
      {
        assert tail[i] == s[i + 1] && tail[i + 1] == s[i + 2];
      }
      CollapseSpaceKeeps(tail);
      if IsSpace(s[0]) {
        if |tail| > 0 {
          assert tail[0] == s[1];
          assert !IsSpace(s[1]);
        }
        assert StripStart(tail) == 0;
        assert StripStart(s) == 1;
        assert CollapseSpace(s) == [' '] + CollapseSpace(tail);
      } else {
        assert CollapseSpace(s) == [s[0]] + CollapseSpace(tail);
      }
      assert s == [s[0]] + tail;
    }
  }

  /** The distinct non-empty members of a list, as `set(x for x in xs if x)` collects them. */
  function Forms(cs: seq<string>): set<string>
  {
    set c | c in cs && c != ""
  }

  /** No member repeats and none is empty. */
  predicate Distinct(cs: seq<string>)
  {
    && (forall i :: 0 <= i < |cs| ==> cs[i] != "")
    && (forall i, j :: 0 <= i < j < |cs| ==> cs[i] != cs[j])
  }

  /** A list has at most as many non-empty members as entries, and exactly as many iff they are distinct. */
  lemma {:induction false} FormsSize(cs: seq<string>)
    ensures |Forms(cs)| <= |cs|
    ensures |Forms(cs)| == |cs| <==> Distinct(cs)
    decreases |cs|
  {
    if cs != [] {
      var n := |cs| - 1;
      var pre := cs[..n];
      FormsSize(pre);
      FormsSnoc(pre, cs[n]);
      assert cs == pre + [cs[n]];
      if Distinct(cs) {
        DistinctSnoc(pre, cs[n]);
      } else if cs[n] != "" && cs[n] !in Forms(pre) && |Forms(pre)| == |pre| {
        DistinctSnoc(pre, cs[n]);
      }
    }
  }

  lemma FormsSnoc(pre: seq<string>, c: string)
    ensures Forms(pre + [c]) == Forms(pre) + (if c != "" then {c} else {})
  {
    assert forall d :: d in pre + [c] <==> d in pre || d == c;
  }

  /** Appending keeps a list distinct exactly when the new member is non-empty and new. */
  lemma DistinctSnoc(pre: seq<string>, c: string)
    ensures Distinct(pre + [c]) <==> Distinct(pre) && c != "" && c !in Forms(pre)
  {
    var cs := pre + [c];
    if Distinct(cs) {
      forall i, j | 0 <= i < j < |pre|
        ensures pre[i] != pre[j]
      {
        assert cs[i] != cs[j];
      }
      forall i | 0 <= i < |pre|
        ensures pre[i] != ""
      {
        assert cs[i] == pre[i];
      }
      assert c != "" by {
        assert cs[|pre|] == c;
      }
      forall i | 0 <= i < |pre|
        ensures pre[i] != c
      {
        assert cs[i] != cs[|pre|];
      }
    } else if Distinct(pre) && c != "" && c !in Forms(pre) {
      forall i, j | 0 <= i < j < |cs|
        ensures cs[i] != cs[j]
      {
        if j == |pre| {
          assert pre[i] in pre;
        } else {
          assert pre[i] != pre[j];
        }
      }
      assert forall i :: 0 <= i < |cs| ==> cs[i] != "";
    }
  }
}
