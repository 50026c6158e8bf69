/**
 * Role selection and overlap ranking: the scoring part of `analyze_resume`
 * in skill_matcher_db.py (every role scored by skill overlap, stable sort,
 * top three) and in skill_matcher.py (role predictions taken as an input).
 *
 * The role registry is a Python dict from role name to required skills,
 * modelled as an ordered sequence of roles.
 */
module Ranking {
  import opened Outcomes
  import opened Strings
  import opened Canon
  import opened Gap
  import Tokenize

  datatype Role = Role(name: string, skills: seq<string>)

  type Registry = seq<Role>

  /** Dict keys are unique. */
  predicate UniqueNames(reg: Registry)
  {
    forall i, j :: 0 <= i < j < |reg| ==> reg[i].name != reg[j].name
  }

  /** `roles_map.get(name, [])`. */
  function Lookup(reg: Registry, name: string): (r: seq<string>)
    ensures (forall i :: 0 <= i < |reg| ==> reg[i].name != name) ==> r == []
    ensures forall i :: 0 <= i < |reg| && reg[i].name == name && UniqueNames(reg) ==> r == reg[i].skills
    ensures r == [] || exists i :: 0 <= i < |reg| && reg[i].name == name && r == reg[i].skills
  {
    if reg == [] then []
    else if reg[0].name == name then reg[0].skills
    else
      var r := Lookup(reg[1..], name);
      assert forall i :: 1 <= i < |reg| ==> reg[i] == reg[1..][i - 1];
      r
  }

  /** The role names, in registry order. */
  function Names(reg: Registry): (ns: seq<string>)
    ensures |ns| == |reg|
    ensures forall i :: 0 <= i < |reg| ==> ns[i] == reg[i].name
  {
    seq(|reg|, i requires 0 <= i < |reg| => reg[i].name)
  }

  /** One `(role, match_score)` pair. */
  datatype Prediction = Prediction(role: string, score: real)

  /** The prediction loop of skill_matcher_db.py: one entry per role, in registry order. */
  function Predict(t: Table, skills: seq<string>, reg: Registry): (ps: seq<Prediction>)
    ensures |ps| == |reg|
    ensures forall i :: 0 <= i < |reg| ==> ps[i].role == reg[i].name
  {
    seq(|reg|, i requires 0 <= i < |reg| => Prediction(reg[i].name, Score(t, skills, reg[i].skills)))
  }

  /**
   * Every prediction is a percentage, 0 for a role without skills, and 100
   * exactly when nothing the role requires is missing and its skills have
   * distinct non-empty canonical forms.
   */
  lemma PredictScores(t: Table, skills: seq<string>, reg: Registry, i: nat)
    requires i < |reg|
    ensures 0.0 <= Predict(t, skills, reg)[i].score <= 100.0
    ensures reg[i].skills == [] ==> Predict(t, skills, reg)[i].score == 0.0
    ensures Predict(t, skills, reg)[i].score == 100.0 <==>
      reg[i].skills != [] && ComputeGap(t, skills, reg[i].skills).missing == {} && Distinct(Canons(t, reg[i].skills))
  {
    ScoreBounds(t, skills, reg[i].skills);
    ScoreFull(t, skills, reg[i].skills);
  }

  /** Scores never increase along the sequence. */
  predicate SortedDesc(ps: seq<Prediction>)
  {
    forall i, j :: 0 <= i < j < |ps| ==> ps[i].score >= ps[j].score
  }

  /** The predictions with score `v`, in their order. */
  function WithScore(ps: seq<Prediction>, v: real): seq<Prediction>
  {
    if ps == [] then []
    else (if ps[0].score == v then [ps[0]] else []) + WithScore(ps[1..], v)
  }

  /** Inserts `x` after every prediction scoring at least as much as it, so ties keep arrival order. */
  function Insert(x: Prediction, s: seq<Prediction>): (r: seq<Prediction>)
    requires SortedDesc(s)
    ensures SortedDesc(r)
    ensures |r| == |s| + 1
    ensures r[0] == x || (s != [] && r[0] == s[0])
  {
    if s == [] then [x]
    else if s[0].score < x.score then
      [x] + s
    else
      var tail := Insert(x, s[1..]);
      assert tail[0].score <= s[0].score;
      [s[0]] + tail
  }

  lemma {:induction false} InsertPerm(x: Prediction, s: seq<Prediction>)
    requires SortedDesc(s)
    ensures multiset(Insert(x, s)) == multiset(s) + multiset{x}
    decreases |s|
  {
    if s != [] && s[0].score >= x.score {
      InsertPerm(x, s[1..]);
      assert s == [s[0]] + s[1..];
    }
  }

  /** `predictions.sort(key=lambda x: x[1], reverse=True)`: a stable sort, highest score first. */
  function Sort(ps: seq<Prediction>): (r: seq<Prediction>)
    ensures SortedDesc(r)
    ensures |r| == |ps|
  {
    if ps == [] then [] else Insert(ps[|ps| - 1], Sort(ps[..|ps| - 1]))
  }

  /** Sorting only reorders. */
  lemma {:induction false} SortPerm(ps: seq<Prediction>)
    ensures multiset(Sort(ps)) == multiset(ps)
    decreases |ps|
  {
    if ps != [] {
      SortPerm(ps[..|ps| - 1]);
      InsertPerm(ps[|ps| - 1], Sort(ps[..|ps| - 1]));
      assert ps == ps[..|ps| - 1] + [ps[|ps| - 1]];
    }
  }

  /** Nothing in `s` scores `v` when every score is below it. */
  lemma {:induction false} WithScoreNone(s: seq<Prediction>, v: real)
    requires forall k :: 0 <= k < |s| ==> s[k].score < v
    ensures WithScore(s, v) == []
    decreases |s|
  {
    if s != [] {
      WithScoreNone(s[1..], v);
    }
  }

  /** Inserting `x` adds it at the end of its score's group. */
  lemma {:induction false} InsertWithScore(x: Prediction, s: seq<Prediction>, v: real)
    requires SortedDesc(s)
    ensures WithScore(Insert(x, s), v) == WithScore(s, v) + (if x.score == v then [x] else [])
    decreases |s|
  {
    if s == [] {
      WithScoreCons(x, [], v);
    } else if s[0].score < x.score {
      InsertFront(x, s, v);
    } else {
      InsertWithScore(x, s[1..], v);
      InsertLater(x, s, v);
    }
  }

  /** `x` outscores all of `s`, so it goes first and nothing in `s` shares its score. */
  lemma InsertFront(x: Prediction, s: seq<Prediction>, v: real)
    requires SortedDesc(s) && s != [] && s[0].score < x.score
    ensures WithScore(Insert(x, s), v) == WithScore(s, v) + (if x.score == v then [x] else [])
  {
    assert Insert(x, s) == [x] + s;
    WithScoreCons(x, s, v);
    if x.score == v {
      WithScoreNone(s, v);
    }
  }

  /** `x` goes after the head of `s`, into the tail. */
  lemma InsertLater(x: Prediction, s: seq<Prediction>, v: real)
    requires SortedDesc(s) && s != [] && s[0].score >= x.score
    requires WithScore(Insert(x, s[1..]), v) == WithScore(s[1..], v) + (if x.score == v then [x] else [])
    ensures WithScore(Insert(x, s), v) == WithScore(s, v) + (if x.score == v then [x] else [])
  {
    assert Insert(x, s) == [s[0]] + Insert(x, s[1..]);
    assert s == [s[0]] + s[1..];
    WithScoreStep(s[0], s[1..], Insert(x, s[1..]), v, if x.score == v then [x] else []);
  }

  /** Putting the same prediction in front of both sides keeps an "adds `e` at the end" relation. */
  lemma WithScoreStep(a: Prediction, r: seq<Prediction>, r2: seq<Prediction>, v: real, e: seq<Prediction>)
    requires WithScore(r2, v) == WithScore(r, v) + e
    ensures WithScore([a] + r2, v) == WithScore([a] + r, v) + e
  {
    WithScoreCons(a, r2, v);
    WithScoreCons(a, r, v);
    AppendAssoc(if a.score == v then [a] else [], WithScore(r, v), e);
  }

  lemma WithScoreCons(a: Prediction, r: seq<Prediction>, v: real)
    ensures WithScore([a] + r, v) == (if a.score == v then [a] else []) + WithScore(r, v)
  {
    assert ([a] + r)[1..] == r;
  }

  /** Appending one prediction appends it to its score's group. */
  lemma {:induction false} WithScoreSnoc(ps: seq<Prediction>, x: Prediction, v: real)
    ensures WithScore(ps + [x], v) == WithScore(ps, v) + (if x.score == v then [x] else [])
    decreases |ps|
  {
    if ps != [] {
      WithScoreSnoc(ps[1..], x, v);
      assert (ps + [x])[1..] == ps[1..] + [x];
    }
  }

  /** Stability: predictions with equal scores keep their relative order. */
  lemma {:induction false} SortStable(ps: seq<Prediction>, v: real)
    ensures WithScore(Sort(ps), v) == WithScore(ps, v)
    decreases |ps|
  {
    if ps != [] {
      var pre := ps[..|ps| - 1];
      var x := ps[|ps| - 1];
      SortStable(pre, v);
      InsertWithScore(x, Sort(pre), v);
      assert ps == pre + [x];
      WithScoreSnoc(pre, x, v);
    }
  }

  /** `predictions[:3]`. */
  function Top3(ps: seq<Prediction>): (r: seq<Prediction>)
    ensures |r| == if |ps| < 3 then |ps| else 3
    ensures r <= ps
    ensures SortedDesc(ps) ==> SortedDesc(r)
  {
    if |ps| < 3 then ps else ps[..3]
  }

  /** Of sorted predictions, the three kept score at least as high as any dropped. */
  lemma Top3Best(ps: seq<Prediction>)
    requires SortedDesc(ps)
    ensures forall i, j :: 0 <= i < |Top3(ps)| <= j < |ps| ==> Top3(ps)[i].score >= ps[j].score
  {
  }

  /** The ranked predictions of skill_matcher_db.py `analyze_resume`. */
  function Rank(t: Table, skills: seq<string>, reg: Registry): (r: seq<Prediction>)
    ensures SortedDesc(r)
    ensures |r| == |reg|
  {
    Sort(Predict(t, skills, reg))
  }

  /** Each ranked prediction names a role of the registry and carries that role's score. */
  lemma RankedFromRegistry(t: Table, skills: seq<string>, reg: Registry, k: nat)
    requires k < |Rank(t, skills, reg)|
    ensures exists i :: 0 <= i < |reg| && Rank(t, skills, reg)[k] == Predict(t, skills, reg)[i]
  {
    var ps := Predict(t, skills, reg);
    var r := Rank(t, skills, reg);
    SortPerm(ps);
    assert r[k] in multiset(r);
    assert r[k] in ps;
  }

  /** What `analyze_resume` returns, without the parsed sections. */
  datatype Analysis = Analysis(
    predictions: seq<Prediction>,
    chosen: string,
    required: seq<string>,
    gap: GapResult,
    score: real)

  /** `match_score` for the chosen role. */
  function ChosenScore(t: Table, skills: seq<string>, required: seq<string>): (p: real)
    ensures 0.0 <= p <= 100.0
    ensures required == [] ==> p == 0.0
    ensures p == 100.0 <==> required != [] && ComputeGap(t, skills, required).missing == {} && Distinct(Canons(t, required))
    ensures p == 0.0 <==> required == [] || ComputeGap(t, skills, required).matched == {}
  {
    ScoreBounds(t, skills, required);
    ScoreFull(t, skills, required);
    ScoreZero(t, skills, required);
    Score(t, skills, required)
  }

  /**
   * skill_matcher_db.py `analyze_resume` after parsing: `t` is the synonym
   * table (SynonymMerge.BuildSkillSynonyms), `reg` the role registry.
   * With no chosen role and no roles at all, `next(iter(...))` raises.
   */
  function AnalyzeDb(t: Table, reg: Registry, skills: seq<string>, chosen: Option<string>): (r: Result<Analysis>)
    ensures r.Err? <==> chosen.None? && reg == []
    ensures r.Err? ==> r.error == NoRoleAvailable
    ensures r.Ok? && chosen.Some? ==> r.value.chosen == chosen.value
    ensures r.Ok? ==> r.value.required == Lookup(reg, r.value.chosen)
    ensures r.Ok? ==> r.value.gap == ComputeGap(t, skills, r.value.required)
    ensures r.Ok? ==> r.value.score == ChosenScore(t, skills, r.value.required)
    ensures r.Ok? ==> SortedDesc(r.value.predictions)
    ensures r.Ok? ==> |r.value.predictions| == if |reg| < 3 then |reg| else 3
    ensures r.Ok? ==> r.value.predictions <= Rank(t, skills, reg)
  {
    var ranked := Rank(t, skills, reg);
    if chosen.None? && ranked == [] then Err(NoRoleAvailable)
    else
      var role := if chosen.Some? then chosen.value else ranked[0].role;
      var required := Lookup(reg, role);
      Ok(Analysis(Top3(ranked), role, required, ComputeGap(t, skills, required), ChosenScore(t, skills, required)))
  }

  /** With no role chosen, the top prediction is chosen and the match score is its score. */
  lemma AnalyzeDbPicksTop(t: Table, reg: Registry, skills: seq<string>)
    requires reg != [] && UniqueNames(reg)
    ensures AnalyzeDb(t, reg, skills, None).Ok?
    ensures AnalyzeDb(t, reg, skills, None).value.chosen == AnalyzeDb(t, reg, skills, None).value.predictions[0].role
    ensures AnalyzeDb(t, reg, skills, None).value.score == AnalyzeDb(t, reg, skills, None).value.predictions[0].score
  {
    var ranked := Rank(t, skills, reg);
    RankedFromRegistry(t, skills, reg, 0);
  }

  /** A chosen role that is not in the registry has no required skills and scores 0. */
  lemma AnalyzeUnknownRole(t: Table, reg: Registry, skills: seq<string>, name: string)
    requires forall i :: 0 <= i < |reg| ==> reg[i].name != name
    ensures AnalyzeDb(t, reg, skills, Some(name)).Ok?
    ensures AnalyzeDb(t, reg, skills, Some(name)).value.required == []
    ensures AnalyzeDb(t, reg, skills, Some(name)).value.score == 0.0
  {
  }

  /** The `skills` entry of the parsed resume: a single string or a list. */
  datatype ParsedSkills = Text(text: string) | Items(items: seq<string>)

  /**
   * skill_matcher.py, lines 400-407: a lone string, or a list holding one
   * string, is split into skills; any other list is used as it is.
   */
  function SkillsList(p: ParsedSkills): (r: seq<string>)
    ensures p.Items? && |p.items| != 1 ==> r == p.items
    ensures p.Text? || |p.items| == 1 ==>
      forall i :: 0 <= i < |r| ==> r[i] != "" && NoEdgeSpace(r[i]) && Avoids(r[i], Tokenize.SkillDelimiters)
    ensures p == Text("") ==> r == []
  {
    match p
    case Text(s) => Tokenize.SplitSkillsMatcher(s)
    case Items(xs) => if |xs| == 1 then Tokenize.SplitSkillsMatcher(xs[0]) else xs
  }

  /** Clean skills given as a list, or as one comma-separated string, come out the same. */
  lemma SkillsListCommas(ws: seq<string>)
    requires |ws| >= 2
    requires forall i :: 0 <= i < |ws| ==> ws[i] != "" && NoEdgeSpace(ws[i]) && Avoids(ws[i], Tokenize.SkillDelimiters)
    ensures SkillsList(Text(Join(ws, ','))) == ws
    ensures SkillsList(Items([Join(ws, ',')])) == ws
    ensures SkillsList(Items(ws)) == ws
  {
    Tokenize.SplitSkillsCommas(ws);
  }

  /**
   * skill_matcher.py `analyze_resume` after parsing: `preds` is what the
   * classifier returned and `t` the synonym table, which is the built-in
   * `MatcherSynonyms.Synonyms()` there.
   */
  function AnalyzeMatcher(t: Table, reg: Registry, parsed: ParsedSkills, preds: seq<Prediction>, chosen: Option<string>): (r: Result<Analysis>)
    ensures r.Err? <==> chosen.None? && preds == [] && reg == []
    ensures r.Ok? ==> r.value.predictions == preds
    ensures r.Ok? && chosen.Some? ==> r.value.chosen == chosen.value
    ensures r.Ok? && chosen.None? && preds != [] ==> r.value.chosen == preds[0].role
    ensures r.Ok? && chosen.None? && preds == [] ==> r.value.chosen == reg[0].name
    ensures r.Ok? ==> r.value.required == Lookup(reg, r.value.chosen)
    ensures r.Ok? ==> r.value.gap == ComputeGap(t, SkillsList(parsed), r.value.required)
    ensures r.Ok? ==> r.value.score == ChosenScore(t, SkillsList(parsed), r.value.required)
  {
    var skills := SkillsList(parsed);
    if chosen.None? && preds == [] && reg == [] then Err(NoRoleAvailable)
    else
      var role := if chosen.Some? then chosen.value else if preds != [] then preds[0].role else reg[0].name;
      var required := Lookup(reg, role);
      Ok(Analysis(preds, role, required, ComputeGap(t, skills, required), ChosenScore(t, skills, required)))
  }

  /** Without a classifier, the first registered role is analysed against its own skills. */
  lemma AnalyzeMatcherFallback(t: Table, reg: Registry, parsed: ParsedSkills)
    requires reg != [] && UniqueNames(reg)
    ensures AnalyzeMatcher(t, reg, parsed, [], None).Ok?
    ensures AnalyzeMatcher(t, reg, parsed, [], None).value.required == reg[0].skills
  {
  }

  /** skill_matcher_db.py, lines 93-98: the roles used when the database is unreachable. */
  function FallbackRoles(): (reg: Registry)
    ensures |reg| == 2
    ensures UniqueNames(reg)
  {
    [ Role("Junior Data Scientist", ["Python", "Pandas", "Numpy", "Data Visualization",
                                     "SQL", "Statistics", "Scikit-learn", "EDA", "Communication"]),
      Role("Data Analyst", ["SQL", "Excel", "Data Visualization", "Statistics",
                            "Reporting", "Communication"]) ]
  }

  /** `load_skill_dataset_from_db`: the database's roles, or the fallback when loading fails. */
  function LoadRoles(db: Option<Registry>): (reg: Registry)
    ensures db.Some? ==> reg == db.value
    ensures db.None? ==> reg == FallbackRoles() && reg != []
  {
    db.GetOr(FallbackRoles())
  }
}
