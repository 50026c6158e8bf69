/**
 * `compute_skill_gap` (skill_matcher.py and skill_matcher_db.py) and the
 * match score built on it.
 *
 * Both lists are canonicalised into sets; a skill that normalises to "" is
 * skipped. The canonical forms found in both are "matched", the required
 * ones absent from the resume are "missing", and each canonical form is
 * reported through the last required entry that produced it. Python builds
 * the two result lists by iterating a set, so their order is unspecified;
 * they are modelled as sets. Two different canonical forms never map back to
 * the same required entry, so no list element is lost by this.
 *
 * The set algebra is stated over the list of canonical forms `cs` of the
 * required skills (`cs[i]` is the canonical form of `xs[i]`), so that it does
 * not depend on how normalisation works.
 */
module Gap {
  import opened Strings
  import opened Canon

  /** The canonical form of every entry, in list order. */
  function Canons(t: Table, xs: seq<string>): (cs: seq<string>)
    ensures |cs| == |xs|
    ensures forall i :: 0 <= i < |xs| ==> cs[i] == Normalize(t, xs[i])
  {
    seq(|xs|, i requires 0 <= i < |xs| => Normalize(t, xs[i]))
  }

  /** Position `i` holds the last occurrence of `c` in `cs`. */
  predicate IsLast(cs: seq<string>, c: string, i: int)
  {
    0 <= i < |cs| && cs[i] == c && forall j :: i < j < |cs| ==> cs[j] != c
  }

  /** Entry `i` is the one its (non-empty) canonical form is reported through. */
  predicate Reports(cs: seq<string>, i: int)
  {
    0 <= i < |cs| && cs[i] != "" && IsLast(cs, cs[i], i)
  }

  /** `skill_mapping`: each canonical form to the surface form that last produced it. */
  function Mapping(xs: seq<string>, cs: seq<string>): (m: map<string, string>)
    requires |xs| == |cs|
    ensures m.Keys == Forms(cs)
    ensures forall c :: c in m ==> exists i :: IsLast(cs, c, i) && m[c] == xs[i]
    decreases |xs|
  {
    if xs == [] then map[]
    else
      var n := |xs| - 1;
      var m0 := Mapping(xs[..n], cs[..n]);
      assert Forms(cs) == Forms(cs[..n]) + (if cs[n] != "" then {cs[n]} else {}) by {
        assert cs == cs[..n] + [cs[n]];
      }
      assert forall c :: c in m0 && c != cs[n] ==> exists i :: IsLast(cs, c, i) && m0[c] == xs[i] by {
        forall c | c in m0 && c != cs[n]
          ensures exists i :: IsLast(cs, c, i) && m0[c] == xs[i]
        {
          var i :| IsLast(cs[..n], c, i) && m0[c] == xs[..n][i];
          assert IsLast(cs, c, i);
        }
      }
      if cs[n] != "" then
        assert IsLast(cs, cs[n], n);
        m0[cs[n] := xs[n]]
      else m0
  }

  /** The `{"matched": ..., "missing": ...}` result. */
  datatype GapResult = GapResult(matched: set<string>, missing: set<string>)

  /** The surface forms a set of canonical forms is reported as. */
  function Reported(m: map<string, string>, forms: set<string>): set<string>
    requires forms <= m.Keys
  {
    set c | c in forms :: m[c]
  }

  /**
   * The gap of required skills `xs`, with canonical forms `cs`, against the
   * resume's canonical forms `have`: a required entry is reported exactly
   * when it is the last one with its non-empty canonical form, as matched
   * when the resume has that form and as missing otherwise.
   */
  function GapFrom(have: set<string>, xs: seq<string>, cs: seq<string>): (g: GapResult)
    requires |xs| == |cs|
    ensures forall s :: s in g.matched <==> exists i :: Reports(cs, i) && cs[i] in have && xs[i] == s
    ensures forall s :: s in g.missing <==> exists i :: Reports(cs, i) && cs[i] !in have && xs[i] == s
  {
    var m := Mapping(xs, cs);
    var need := Forms(cs);
    ReportedIndices(xs, cs, need * have);
    ReportedIndices(xs, cs, need - have);
    GapResult(Reported(m, need * have), Reported(m, need - have))
  }

  /** A surface form is reported for a set of canonical forms iff it sits at the last occurrence of one of them. */
  lemma ReportedIndices(xs: seq<string>, cs: seq<string>, forms: set<string>)
    requires |xs| == |cs| && forms <= Forms(cs)
    ensures forall s :: s in Reported(Mapping(xs, cs), forms) <==> exists i :: Reports(cs, i) && cs[i] in forms && xs[i] == s
  {
    var m := Mapping(xs, cs);
    forall s | s in Reported(m, forms)
      ensures exists i :: Reports(cs, i) && cs[i] in forms && xs[i] == s
    {
      var c :| c in forms && s == m[c];
      var i :| IsLast(cs, c, i) && m[c] == xs[i];
      assert Reports(cs, i);
    }
    forall s | exists i :: Reports(cs, i) && cs[i] in forms && xs[i] == s
      ensures s in Reported(m, forms)
    {
      var i :| Reports(cs, i) && cs[i] in forms && xs[i] == s;
      var k :| IsLast(cs, cs[i], k) && m[cs[i]] == xs[k];
      assert k == i;
    }
  }

  /** `compute_skill_gap` over the synonym table `t`. */
  function ComputeGap(t: Table, resume: seq<string>, required: seq<string>): (g: GapResult)
    ensures forall s :: s in g.matched <==> exists i ::
      Reports(Canons(t, required), i) && Canons(t, required)[i] in Forms(Canons(t, resume)) && required[i] == s
    ensures forall s :: s in g.missing <==> exists i ::
      Reports(Canons(t, required), i) && Canons(t, required)[i] !in Forms(Canons(t, resume)) && required[i] == s
  {
    GapFrom(Forms(Canons(t, resume)), required, Canons(t, required))
  }

  /** The canonical forms of a set of surface forms. */
  ghost function CanonsOf(t: Table, ss: set<string>): set<string>
  {
    set s | s in ss :: Normalize(t, s)
  }

  /**
   * Every reported skill is a required one whose canonical form is a
   * required form; it is matched exactly when the resume has that form.
   */
  lemma GapMembers(t: Table, resume: seq<string>, required: seq<string>)
    ensures var g := ComputeGap(t, resume, required);
      forall s :: s in g.matched + g.missing ==>
        && s in required
        && Normalize(t, s) in Forms(Canons(t, required))
        && (s in g.matched <==> Normalize(t, s) in Forms(Canons(t, resume)))
  {
    var g := ComputeGap(t, resume, required);
    var cs := Canons(t, required);
    forall s | s in g.matched + g.missing
      ensures s in required && Normalize(t, s) in Forms(cs)
      ensures s in g.matched <==> Normalize(t, s) in Forms(Canons(t, resume))
    {
      var i :| Reports(cs, i) && required[i] == s;
      assert Normalize(t, s) == cs[i];
    }
  }

  /** Every required canonical form is reported, as matched or as missing. */
  lemma GapCovers(t: Table, resume: seq<string>, required: seq<string>)
    ensures var g := ComputeGap(t, resume, required);
      Forms(Canons(t, required)) <= CanonsOf(t, g.matched + g.missing)
  {
    var g := ComputeGap(t, resume, required);
    var cs := Canons(t, required);
    forall c | c in Forms(cs)
      ensures c in CanonsOf(t, g.matched + g.missing)
    {
      var k :| 0 <= k < |cs| && cs[k] == c;
      var i := LastOf(cs, k);
      assert Reports(cs, i);
      assert required[i] in g.matched + g.missing;
      assert Normalize(t, required[i]) == c;
    }
  }

  /**
   * Matched and missing never share a canonical form; matched forms are the
   * required forms the resume has, missing forms are the ones it lacks.
   */
  lemma GapPartition(t: Table, resume: seq<string>, required: seq<string>)
    ensures var g := ComputeGap(t, resume, required);
      && (forall a, b :: a in g.matched && b in g.missing ==> Normalize(t, a) != Normalize(t, b))
      && CanonsOf(t, g.matched) == Forms(Canons(t, required)) * Forms(Canons(t, resume))
      && CanonsOf(t, g.missing) == Forms(Canons(t, required)) - Forms(Canons(t, resume))
  {
    GapMembers(t, resume, required);
    ReportedForms(t, resume, required, true);
    ReportedForms(t, resume, required, false);
  }

  /** The canonical forms of one side of the gap. */
  lemma ReportedForms(t: Table, resume: seq<string>, required: seq<string>, matched: bool)
    ensures var g := ComputeGap(t, resume, required);
      var side := if matched then g.matched else g.missing;
      CanonsOf(t, side) == if matched then Forms(Canons(t, required)) * Forms(Canons(t, resume))
                           else Forms(Canons(t, required)) - Forms(Canons(t, resume))
  {
    var g := ComputeGap(t, resume, required);
    var side := if matched then g.matched else g.missing;
    var need := Forms(Canons(t, required));
    var have := Forms(Canons(t, resume));
    GapMembers(t, resume, required);
    GapCovers(t, resume, required);
    forall c | c in need && (c in have <==> matched)
      ensures c in CanonsOf(t, side)
    {
      var s :| s in g.matched + g.missing && Normalize(t, s) == c;
    }
  }

  /** The last occurrence of the value at position `k`. */
  function LastOf(cs: seq<string>, k: nat): (i: nat)
    requires k < |cs|
    ensures k <= i < |cs| && IsLast(cs, cs[k], i)
    decreases |cs| - k
  {
    if forall j :: k < j < |cs| ==> cs[j] != cs[k] then k
    else
      var j :| k < j < |cs| && cs[j] == cs[k];
      LastOf(cs, j)
  }

  /** Nothing is missing exactly when every required canonical form occurs in the resume. */
  lemma NothingMissing(have: set<string>, xs: seq<string>, cs: seq<string>)
    requires |xs| == |cs|
    ensures GapFrom(have, xs, cs).missing == {} <==> Forms(cs) <= have
  {
    if !(Forms(cs) <= have) {
      var c :| c in Forms(cs) && c !in have;
      var k :| 0 <= k < |cs| && cs[k] == c;
      var i := LastOf(cs, k);
      assert Reports(cs, i);
      assert xs[i] in GapFrom(have, xs, cs).missing;
    }
  }

  /** An image of a set under a map that is one-to-one on it has the set's size. */
  lemma {:induction false} InjectiveImageSize(m: map<string, string>, forms: set<string>)
    requires forms <= m.Keys
    requires forall a, b :: a in forms && b in forms && m[a] == m[b] ==> a == b
    ensures |Reported(m, forms)| == |forms|
    decreases |forms|
  {
    if forms != {} {
      var x :| x in forms;
      var rest := forms - {x};
      InjectiveImageSize(m, rest);
      assert Reported(m, forms) == Reported(m, rest) + {m[x]};
      assert m[x] !in Reported(m, rest);
    }
  }

  /** Equal surface forms have equal canonical forms. */
  predicate Consistent(xs: seq<string>, cs: seq<string>)
    requires |xs| == |cs|
  {
    forall i, j :: 0 <= i < |xs| && 0 <= j < |xs| && xs[i] == xs[j] ==> cs[i] == cs[j]
  }

  lemma CanonsConsistent(t: Table, xs: seq<string>)
    ensures Consistent(xs, Canons(t, xs))
  {
  }

  /** One reported entry per matched canonical form. */
  lemma MatchedSize(have: set<string>, xs: seq<string>, cs: seq<string>)
    requires |xs| == |cs| && Consistent(xs, cs)
    ensures |GapFrom(have, xs, cs).matched| == |Forms(cs) * have|
  {
    var m := Mapping(xs, cs);
    var both := Forms(cs) * have;
    forall a, b | a in both && b in both && m[a] == m[b]
      ensures a == b
    {
      var i :| IsLast(cs, a, i) && m[a] == xs[i];
      var j :| IsLast(cs, b, j) && m[b] == xs[j];
    }
    InjectiveImageSize(m, both);
  }

  /** `(len(matched) / total) * 100 if total > 0 else 0.0`, as an exact rational. */
  function Percent(part: nat, total: nat): (p: real)
    ensures total == 0 ==> p == 0.0
    ensures part <= total ==> 0.0 <= p <= 100.0
    ensures total > 0 ==> (p == 100.0 <==> part == total)
    ensures p == 0.0 <==> total == 0 || part == 0
  {
    if total > 0 then
      assert part > 0 ==> part as real / total as real > 0.0;
      (part as real / total as real) * 100.0
    else 0.0
  }

  /** The match score of a resume against one role's required skills. */
  function Score(t: Table, resume: seq<string>, required: seq<string>): real
  {
    Percent(|ComputeGap(t, resume, required).matched|, |required|)
  }

  /** The score is a percentage, and 0 for an empty requirement list. */
  lemma ScoreBounds(t: Table, resume: seq<string>, required: seq<string>)
    ensures 0.0 <= Score(t, resume, required) <= 100.0
    ensures required == [] ==> Score(t, resume, required) == 0.0
  {
    var cs := Canons(t, required);
    var have := Forms(Canons(t, resume));
    CanonsConsistent(t, required);
    MatchedSize(have, required, cs);
    FormsSize(cs);
    SubsetSize(Forms(cs) * have, Forms(cs));
  }

  /** The score is 0 exactly when nothing is required or no required skill is matched. */
  lemma ScoreZero(t: Table, resume: seq<string>, required: seq<string>)
    ensures Score(t, resume, required) == 0.0 <==> required == [] || ComputeGap(t, resume, required).matched == {}
  {
  }

  /**
   * A full score means nothing is missing and the required skills have
   * pairwise different, non-empty canonical forms; and conversely.
   */
  lemma ScoreFull(t: Table, resume: seq<string>, required: seq<string>)
    ensures Score(t, resume, required) == 100.0
      <==> required != [] && ComputeGap(t, resume, required).missing == {} && Distinct(Canons(t, required))
  {
    CanonsConsistent(t, required);
    FullMatch(Forms(Canons(t, resume)), required, Canons(t, required));
  }

  /** Every required entry is matched one-to-one exactly when nothing is missing and the forms are distinct. */
  lemma FullMatch(have: set<string>, xs: seq<string>, cs: seq<string>)
    requires |xs| == |cs| && Consistent(xs, cs)
    ensures |GapFrom(have, xs, cs).matched| == |xs| <==> GapFrom(have, xs, cs).missing == {} && Distinct(cs)
  {
    MatchedSize(have, xs, cs);
    FormsSize(cs);
    NothingMissing(have, xs, cs);
    var both := Forms(cs) * have;
    SubsetSize(both, Forms(cs));
    if Forms(cs) <= have {
      assert both == Forms(cs);
    }
  }

  /** A subset is no larger, and of equal size only when it is the whole set. */
  lemma SubsetSize(a: set<string>, b: set<string>)
    requires a <= b
    ensures |a| <= |b|
    ensures |a| == |b| ==> a == b
  {
    assert b == a + (b - a);
    if |a| == |b| {
      assert |b - a| == 0;
    }
  }
}
