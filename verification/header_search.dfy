/**
 * The section-header regular expressions of the two section extractors,
 *
 *   (kw1|kw2|...)[\s\w]*[:\-]?\s*(.*?)(?=stop1|stop2|...|$)
 *
 * searched with `re.search(..., re.IGNORECASE | re.DOTALL)` over text that
 * is already lower-cased. Because the lazy body can always run on to `$`,
 * the first path the backtracking engine tries succeeds, so the search is a
 * deterministic scan: the leftmost position where some keyword alternative
 * matches (alternatives tried in order), the greedy optional runs after it,
 * then the body up to the first position where a stop word or `$` matches.
 */
module HeaderSearch {
  import opened Chars
  import opened Strings
  import opened Outcomes

  /** One element of a keyword alternative: literal text, or `\s+`. */
  datatype Piece = Lit(text: string) | Gap

  type Keyword = seq<Piece>

  /**
   * A header pattern: the keyword alternatives in order, whether `[\s\w]*`
   * follows the keyword group, and the stop words of the lookahead.
   */
  datatype Pattern = Pattern(keywords: seq<Keyword>, wordTail: bool, stops: seq<string>)

  /** Positions of one match: group 1 is `[start, keyEnd)`, group 2 is `[bodyStart, bodyEnd)`. */
  datatype Hit = Hit(start: nat, keyEnd: nat, bodyStart: nat, bodyEnd: nat)

  /** `t[p..e]` is the longest run from `p` of characters satisfying `ok`. */
  ghost predicate GreedyRun(t: string, p: nat, e: nat, ok: char -> bool)
  {
    p <= e <= |t| && (forall k :: p <= k < e ==> ok(t[k])) && (e == |t| || !ok(t[e]))
  }

  /** A longest run from a given position has only one end. */
  lemma GreedyRunUnique(t: string, p: nat, e1: nat, e2: nat, ok: char -> bool)
    requires GreedyRun(t, p, e1, ok) && GreedyRun(t, p, e2, ok)
    ensures e1 == e2
  {
  }

  /** End of the longest run from `p` of characters satisfying `ok` (a greedy `[...]*`). */
  function RunEnd(t: string, p: nat, ok: char -> bool): (e: nat)
    requires p <= |t|
    ensures p <= e <= |t|
    ensures forall k :: p <= k < e ==> ok(t[k])
    ensures e == |t| || !ok(t[e])
    decreases |t| - p
  {
    if p == |t| || !ok(t[p]) then p else RunEnd(t, p + 1, ok)
  }

  /** `\s*` from `p`. */
  function SpaceEnd(t: string, p: nat): (e: nat)
    requires p <= |t|
    ensures p <= e <= |t|
    ensures forall k :: p <= k < e ==> IsSpace(t[k])
    ensures e == |t| || !IsSpace(t[e])
  {
    RunEnd(t, p, IsSpace)
  }

  predicate IsWordOrSpace(c: char) { IsWordChar(c) || IsSpace(c) }

  /**
   * The regex meaning of a keyword alternative: its pieces occur one after
   * another from `p` and end at `e`, a literal as written and `\s+` as any
   * non-empty run of white space.
   */
  ghost predicate PiecesMatch(t: string, p: nat, kw: Keyword, e: nat)
    decreases |kw|
  {
    if kw == [] then p == e
    else match kw[0]
      case Lit(w) => OccursAt(t, p, w) && PiecesMatch(t, p + |w|, kw[1..], e)
      case Gap => exists q :: p < q <= |t| && AllSpace(t[p..q]) && PiecesMatch(t, q, kw[1..], e)
  }

  /** Every `\s+` is followed by a literal that starts with a non-space, as in `technical\s+skills`. */
  predicate GapsBeforeWords(kw: Keyword)
  {
    forall i :: 0 <= i < |kw| && kw[i].Gap? ==>
      i + 1 < |kw| && kw[i + 1].Lit? && kw[i + 1].text != [] && !IsSpace(kw[i + 1].text[0])
  }

  /**
   * Where a keyword alternative matching at `p` ends. A `\s+` takes the
   * whole run of white space; the literal after it starts with a letter, so
   * giving white space back could never help the match.
   */
  function KeywordEnd(t: string, p: nat, kw: Keyword): (r: Option<nat>)
    requires p <= |t|
    ensures r.Some? ==> p <= r.value <= |t|
    ensures r.Some? ==> PiecesMatch(t, p, kw, r.value)
    ensures kw == [] ==> r == Some(p)
    ensures |kw| > 0 && kw[0].Lit? && !OccursAt(t, p, kw[0].text) ==> r == None
    decreases |kw|
  {
    if kw == [] then Some(p)
    else match kw[0]
      case Lit(w) =>
        if OccursAt(t, p, w) then KeywordEnd(t, p + |w|, kw[1..]) else None
      case Gap =>
        var e := SpaceEnd(t, p);
        if e == p then None
        else
          var r := KeywordEnd(t, e, kw[1..]);
          if r.Some? then GapWitness(t, p, e, kw, r.value); r else r
  }

  lemma GapWitness(t: string, p: nat, e: nat, kw: Keyword, f: nat)
    requires |kw| > 0 && kw[0].Gap? && p < e <= |t|
    requires forall k :: p <= k < e ==> IsSpace(t[k])
    requires PiecesMatch(t, e, kw[1..], f)
    ensures PiecesMatch(t, p, kw, f)
  {
    var u := t[p..e];
    forall k | 0 <= k < |u|
      ensures IsSpace(u[k])
    {
      assert u[k] == t[p + k];
    }
  }

  /**
   * When every `\s+` is followed by a word, the alternative matches from `p`
   * to `e` exactly when `KeywordEnd` reports `e`: the match end is unique.
   */
  lemma {:induction false} KeywordEndExact(t: string, p: nat, kw: Keyword, e: nat)
    requires p <= |t| && GapsBeforeWords(kw)
    ensures PiecesMatch(t, p, kw, e) <==> KeywordEnd(t, p, kw) == Some(e)
    decreases |kw|
  {
    if kw != [] {
      assert GapsBeforeWords(kw[1..]) by {
        forall i | 0 <= i < |kw| - 1 && kw[1..][i].Gap?
          ensures i + 1 < |kw| - 1 && kw[1..][i + 1].Lit? && kw[1..][i + 1].text != [] && !IsSpace(kw[1..][i + 1].text[0])
        {
          assert kw[1..][i] == kw[i + 1];
        }
      }
      match kw[0]
      case Lit(w) =>
        if OccursAt(t, p, w) {
          KeywordEndExact(t, p + |w|, kw[1..], e);
        }
      case Gap =>
        if PiecesMatch(t, p, kw, e) {
          var q :| p < q <= |t| && AllSpace(t[p..q]) && PiecesMatch(t, q, kw[1..], e);
          GapEnd(t, p, q, kw, e);
          KeywordEndExact(t, q, kw[1..], e);
        }
    }
  }

  /** After `\s+`, a match of the next word starts where the white-space run ends. */
  lemma GapEnd(t: string, p: nat, q: nat, kw: Keyword, e: nat)
    requires 2 <= |kw| && kw[0].Gap? && kw[1].Lit? && kw[1].text != [] && !IsSpace(kw[1].text[0])
    requires p < q <= |t| && AllSpace(t[p..q]) && PiecesMatch(t, q, kw[1..], e)
    ensures SpaceEnd(t, p) == q
  {
    var w := kw[1].text;
    assert OccursAt(t, q, w);
    assert t[q] == t[q..q + |w|][0] == w[0];
    forall k | p <= k < q
      ensures IsSpace(t[k])
    {
      assert t[k] == t[p..q][k - p];
    }
    assert GreedyRun(t, p, q, IsSpace);
    GreedyRunUnique(t, p, q, SpaceEnd(t, p), IsSpace);
  }

  /** Some alternative of the group matches at `p`. */
  predicate HeaderAt(t: string, p: nat, kws: seq<Keyword>)
    requires p <= |t|
  {
    exists i :: 0 <= i < |kws| && KeywordEnd(t, p, kws[i]).Some?
  }

  /** The end of the first alternative, in order, that matches at `p`. */
  function FirstKeyword(t: string, p: nat, kws: seq<Keyword>): (r: Option<nat>)
    requires p <= |t|
    ensures r.None? <==> !HeaderAt(t, p, kws)
    ensures r.Some? ==> exists i :: 0 <= i < |kws| && KeywordEnd(t, p, kws[i]) == r &&
                                   (forall j :: 0 <= j < i ==> KeywordEnd(t, p, kws[j]).None?)
    decreases |kws|
  {
    if kws == [] then None
    else
      var e := KeywordEnd(t, p, kws[0]);
      if e.Some? then e
      else
        var r := FirstKeyword(t, p, kws[1..]);
        assert forall i :: 1 <= i < |kws| ==> kws[i] == kws[1..][i - 1];
        assert HeaderAt(t, p, kws) <==> HeaderAt(t, p, kws[1..]) by {
          if HeaderAt(t, p, kws) {
            var i :| 0 <= i < |kws| && KeywordEnd(t, p, kws[i]).Some?;
            assert kws[1..][i - 1] == kws[i];
          }
        }
        if r.Some? then
          assert exists i :: 0 <= i < |kws| && KeywordEnd(t, p, kws[i]) == r &&
                             (forall j :: 0 <= j < i ==> KeywordEnd(t, p, kws[j]).None?) by {
            var i :| 0 <= i < |kws[1..]| && KeywordEnd(t, p, kws[1..][i]) == r &&
                     (forall j :: 0 <= j < i ==> KeywordEnd(t, p, kws[1..][j]).None?);
            assert KeywordEnd(t, p, kws[i + 1]) == r;
            assert forall j :: 1 <= j < i + 1 ==> KeywordEnd(t, p, kws[j]) == KeywordEnd(t, p, kws[1..][j - 1]);
          }
          r
        else r
  }

  /** The lookahead `(?=stop1|...|$)` holds at `q`; `$` also matches before a final newline. */
  predicate StopAt(t: string, q: nat, stops: seq<string>)
  {
    || q == |t|
    || (q + 1 == |t| && t[q] == '\n')
    || exists i :: 0 <= i < |stops| && OccursAt(t, q, stops[i])
  }

  /** The lazy `(.*?)`: the first position from `q` on where the lookahead holds. */
  function BodyEnd(t: string, q: nat, stops: seq<string>): (e: nat)
    requires q <= |t|
    ensures q <= e <= |t|
    ensures StopAt(t, e, stops)
    ensures forall k :: q <= k < e ==> !StopAt(t, k, stops)
    decreases |t| - q
  {
    if StopAt(t, q, stops) then q else BodyEnd(t, q + 1, stops)
  }

  /** The greedy `[\s\w]*` after the keyword ends at `a`; without it, `a` is the keyword's end. */
  ghost predicate TailRun(t: string, wordTail: bool, ke: nat, a: nat)
  {
    if wordTail then GreedyRun(t, ke, a, IsWordOrSpace) else a == ke
  }

  /** `[:\-]?` at `a`: one colon or hyphen is taken when it is there. */
  function ColonEnd(t: string, a: nat): nat
    requires a <= |t|
  {
    if a < |t| && (t[a] == ':' || t[a] == '-') then a + 1 else a
  }

  /**
   * `[\s\w]*[:\-]?\s*` between the keyword ending at `ke` and the body
   * starting at `bs`, each part as long as it can be.
   */
  ghost predicate Separator(t: string, wordTail: bool, ke: nat, bs: nat)
  {
    exists a :: ke <= a <= |t| && TailRun(t, wordTail, ke, a) && GreedyRun(t, ColonEnd(t, a), bs, IsSpace)
  }

  /** The separator determines where the body starts. */
  lemma SeparatorUnique(t: string, wordTail: bool, ke: nat, bs1: nat, bs2: nat)
    requires Separator(t, wordTail, ke, bs1) && Separator(t, wordTail, ke, bs2)
    ensures bs1 == bs2
  {
    var a1 :| ke <= a1 <= |t| && TailRun(t, wordTail, ke, a1) && GreedyRun(t, ColonEnd(t, a1), bs1, IsSpace);
    var a2 :| ke <= a2 <= |t| && TailRun(t, wordTail, ke, a2) && GreedyRun(t, ColonEnd(t, a2), bs2, IsSpace);
    if wordTail {
      GreedyRunUnique(t, ke, a1, a2, IsWordOrSpace);
    }
    GreedyRunUnique(t, ColonEnd(t, a1), bs1, bs2, IsSpace);
  }

  /** The body ends at the first position from `q` on where the lookahead holds. */
  lemma BodyEndIs(t: string, q: nat, stops: seq<string>, e: nat)
    requires q <= e <= |t| && StopAt(t, e, stops)
    requires forall k :: q <= k < e ==> !StopAt(t, k, stops)
    ensures BodyEnd(t, q, stops) == e
  {
  }

  /** The match positions once the keyword group has matched from `p` to `ke`. */
  function HitAt(t: string, pat: Pattern, p: nat, ke: nat): (h: Hit)
    requires p <= ke <= |t|
    ensures h.start == p && h.keyEnd == ke
    ensures ke <= h.bodyStart <= h.bodyEnd <= |t|
    ensures Separator(t, pat.wordTail, ke, h.bodyStart)
    ensures h.bodyStart == |t| || !IsSpace(t[h.bodyStart])
    ensures StopAt(t, h.bodyEnd, pat.stops)
    ensures forall k :: h.bodyStart <= k < h.bodyEnd ==> !StopAt(t, k, pat.stops)
  {
    var a := if pat.wordTail then RunEnd(t, ke, IsWordOrSpace) else ke;
    var bs := SpaceEnd(t, ColonEnd(t, a));
    assert TailRun(t, pat.wordTail, ke, a);
    assert GreedyRun(t, ColonEnd(t, a), bs, IsSpace);
    Hit(p, ke, bs, BodyEnd(t, bs, pat.stops))
  }

  /**
   * `h` is the match a search from `p` reports: no keyword matches between
   * `p` and `h.start`, the first matching alternative at `h.start` ends at
   * `h.keyEnd`, and the body runs from the first non-space after the
   * optional runs to the first position where the lookahead holds.
   */
  ghost predicate LeftmostHit(t: string, pat: Pattern, p: nat, h: Hit)
  {
    && p <= h.start <= h.keyEnd <= h.bodyStart <= h.bodyEnd <= |t|
    && HeaderAt(t, h.start, pat.keywords)
    && (forall q :: p <= q < h.start ==> !HeaderAt(t, q, pat.keywords))
    && FirstKeyword(t, h.start, pat.keywords) == Some(h.keyEnd)
    && Separator(t, pat.wordTail, h.keyEnd, h.bodyStart)
    && (h.bodyStart == |t| || !IsSpace(t[h.bodyStart]))
    && StopAt(t, h.bodyEnd, pat.stops)
    && (forall k :: h.bodyStart <= k < h.bodyEnd ==> !StopAt(t, k, pat.stops))
  }

  /** `re.search(pattern, t)` started from position `p`. */
  function SearchFrom(t: string, pat: Pattern, p: nat): (r: Option<Hit>)
    requires p <= |t|
    ensures r.None? ==> forall q :: p <= q <= |t| ==> !HeaderAt(t, q, pat.keywords)
    ensures r.Some? ==> p <= r.value.start && LeftmostHit(t, pat, p, r.value)
    decreases |t| - p
  {
    match FirstKeyword(t, p, pat.keywords)
    case Some(ke) =>
      var h := HitAt(t, pat, p, ke);
      assert HeaderAt(t, h.start, pat.keywords);
      Some(h)
    case None =>
      if p == |t| then None
      else
        var r := SearchFrom(t, pat, p + 1);
        if r.Some? then LeftmostStep(t, pat, p, r.value); r else r
  }

  /** At most one hit meets the description: the search result is fully determined by it. */
  lemma LeftmostUnique(t: string, pat: Pattern, p: nat, h1: Hit, h2: Hit)
    requires LeftmostHit(t, pat, p, h1) && LeftmostHit(t, pat, p, h2)
    ensures h1 == h2
  {
    SeparatorUnique(t, pat.wordTail, h1.keyEnd, h1.bodyStart, h2.bodyStart);
  }

  /** A position where no keyword matches can be skipped. */
  lemma LeftmostStep(t: string, pat: Pattern, p: nat, h: Hit)
    requires p < |t| && !HeaderAt(t, p, pat.keywords)
    requires p + 1 <= h.start && LeftmostHit(t, pat, p + 1, h)
    ensures LeftmostHit(t, pat, p, h)
  {
  }

  function Search(t: string, pat: Pattern): (r: Option<Hit>)
    ensures r.None? <==> forall q :: 0 <= q <= |t| ==> !HeaderAt(t, q, pat.keywords)
    ensures r.Some? ==> LeftmostHit(t, pat, 0, r.value)
  {
    SearchFrom(t, pat, 0)
  }

  /** `match.group(1)`: the keyword text. */
  function Group1(t: string, h: Hit): string
    requires h.start <= h.keyEnd <= |t|
  {
    t[h.start..h.keyEnd]
  }

  /** `match.group(2)`: the lazily captured body. */
  function Group2(t: string, h: Hit): string
    requires h.bodyStart <= h.bodyEnd <= |t|
  {
    t[h.bodyStart..h.bodyEnd]
  }
}
