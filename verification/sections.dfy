/**
 * The two section extractors: `enhanced_extract_sections`, which returns
 * ordered lists and cleans the skills, and `resume_parser.extract_sections`,
 * which tries a list of header patterns per section and returns each section
 * as a set. Both search the lower-cased text.
 */
module Sections {
  import opened Chars
  import opened Strings
  import opened Outcomes
  import opened HeaderSearch
  import opened Tokenize
  import opened TextCleaner

  // ---------------------------------------------------------------------
  // Shared pieces
  // ---------------------------------------------------------------------

  /** One literal keyword alternative. */
  function Word(w: string): Keyword { [Lit(w)] }

  /** Two words separated by `\s+`. */
  function Words(a: string, b: string): Keyword { [Lit(a), Gap, Lit(b)] }

  /** A two-word alternative meets the condition under which its match end is exact. */
  lemma WordsSeparate(a: string, b: string)
    requires b != [] && !IsSpace(b[0])
    ensures GapsBeforeWords(Words(a, b))
  {
  }

  /** `[x.strip() for x in re.split('[...]', s) if x.strip()]`. */
  function ListItems(s: string, seps: set<char>): (r: seq<string>)
    ensures forall i :: 0 <= i < |r| ==> r[i] != "" && NoEdgeSpace(r[i]) && Avoids(r[i], seps)
    ensures NoUpper(s) ==> forall i :: 0 <= i < |r| ==> NoUpper(r[i])
  {
    var pieces := SplitOn(s, seps);
    StrippedAvoids(pieces, seps);
    if NoUpper(s) then StrippedNoUpper(pieces, s); StrippedNonEmpty(pieces) else StrippedNonEmpty(pieces)
  }

  /** `match.group(2).strip()`, lower-case because the searched text is. */
  function Body(t: string, h: Hit): (b: string)
    requires h.bodyStart <= h.bodyEnd <= |t|
    ensures NoEdgeSpace(b)
    ensures NoUpper(t) ==> NoUpper(b)
  {
    var g := Group2(t, h);
    SliceCharsFrom(t, h.bodyStart, h.bodyEnd);
    CharsFromTrans(Strip(g), g, t);
    if NoUpper(t) then CharsFromNoUpper(Strip(g), t); Strip(g) else Strip(g)
  }

  /** The body of a reported match contains no stop word, not even inside a longer word. */
  lemma BodyHasNoStop(t: string, pat: Pattern, p: nat, h: Hit)
    requires LeftmostHit(t, pat, p, h)
    ensures forall i :: 0 <= i < |pat.stops| && pat.stops[i] != "" ==> !Contains(Group2(t, h), pat.stops[i])
  {
    var g := Group2(t, h);
    assert g == t[h.bodyStart..h.bodyEnd];
    forall i | 0 <= i < |pat.stops| && pat.stops[i] != ""
      ensures !Contains(g, pat.stops[i])
    {
      var w := pat.stops[i];
      forall k | 0 <= k <= |g|
        ensures !OccursAt(g, k, w)
      {
        if k + |w| <= |g| {
          SliceOccurs(t, h.bodyStart, h.bodyEnd, k, w);
          assert !StopAt(t, h.bodyStart + k, pat.stops);
        }
      }
    }
  }

  /** An occurrence inside a slice is an occurrence in the whole text, shifted by the slice's start. */
  lemma SliceOccurs(t: string, a: nat, b: nat, k: nat, w: string)
    requires a <= b <= |t| && k + |w| <= b - a
    ensures OccursAt(t[a..b], k, w) <==> OccursAt(t, a + k, w)
  {
    var u := t[a..b][k..k + |w|];
    var v := t[a + k..a + k + |w|];
    forall m | 0 <= m < |u|
      ensures u[m] == v[m]
    {
    }
    assert u == v;
  }

  // ---------------------------------------------------------------------
  // enhanced_parser.py: enhanced_extract_sections
  // ---------------------------------------------------------------------

  const EnhancedSkills := Pattern(
    [Word("skills"), Word("technical skills"), Word("technologies"), Word("expertise")],
    false, ["education", "experience", "work"])

  const EnhancedEducation := Pattern(
    [Word("education"), Word("academic background"), Word("qualifications")],
    false, ["experience", "skills", "work"])

  const EnhancedExperience := Pattern(
    [Word("experience"), Word("work history"), Word("employment"), Word("professional")],
    false, ["education", "skills"])

  /** The separators of the education and experience items. */
  const ItemBreaks: set<char> := {'\n', '•', '-'}

  /** "skills: python": the colon and the space are skipped, and the body is "python". */
  lemma SkillsColonBody(t: string)
    requires t == "skills: python"
    ensures Search(t, EnhancedSkills) == Some(Hit(0, 6, 8, 14))
    ensures Group2(t, Hit(0, 6, 8, 14)) == "python"
  {
    SkillsColonKeyword(t);
    SkillsColonHit(t);
    assert t[8..14] == "python";
  }

  lemma SkillsColonKeyword(t: string)
    requires t == "skills: python"
    ensures FirstKeyword(t, 0, EnhancedSkills.keywords) == Some(6)
  {
    assert OccursAt(t, 0, "skills");
    assert KeywordEnd(t, 0, Word("skills")) == Some(6);
  }

  lemma SkillsColonHit(t: string)
    requires t == "skills: python"
    ensures HitAt(t, EnhancedSkills, 0, 6) == Hit(0, 6, 8, 14)
  {
    assert ColonEnd(t, 6) == 7;
    assert RunEnd(t, 8, IsSpace) == 8;
    assert SpaceEnd(t, 7) == 8;
    SkillsColonScan(t);
  }

  lemma SkillsColonScan(t: string)
    requires t == "skills: python"
    ensures BodyEnd(t, 8, EnhancedSkills.stops) == 14
  {
    var stops := EnhancedSkills.stops;
    forall k | 8 <= k < 14
      ensures !StopAt(t, k, stops)
    {
      assert t[8..14] == "python" && t[k] == t[8..14][k - 8];
      NoStopHere(t, k, stops);
    }
    BodyEndIs(t, 8, stops, 14);
  }

  /** No stop word can start at a character that begins none of them. */
  lemma NoStopHere(t: string, k: nat, stops: seq<string>)
    requires k < |t| && t[k] != '\n' && t[k] !in {'e', 'w', 's'}
    requires stops == EnhancedSkills.stops
    ensures !StopAt(t, k, stops)
  {
    forall i | 0 <= i < |stops|
      ensures !OccursAt(t, k, stops[i])
    {
      assert stops[i][0] in {'e', 'w', 's'};
    }
  }

  /** The result dict: the three keys are always present. */
  datatype SectionLists = SectionLists(skills: seq<string>, education: seq<string>, experience: seq<string>)

  function AsItems(xs: seq<string>): (r: seq<Option<string>>)
    ensures |r| == |xs| && forall i :: 0 <= i < |xs| ==> r[i] == Some(xs[i])
  {
    Map((x: string) => Some(x), xs)
  }

  /** The skills: the split body, then `clean_skill_list` when the split gave anything. */
  function EnhancedSkillList(t: string): (r: seq<string>)
    ensures Search(t, EnhancedSkills).None? ==> r == []
    ensures forall k :: 0 <= k < |r| ==> |r[k]| >= 2 && IsSkillForm(r[k])
    ensures forall k, l :: 0 <= k < l < |r| ==> SkillKey(r[k]) != SkillKey(r[l])
    ensures NoUpper(t) ==> forall k :: 0 <= k < |r| ==> NoUpper(r[k])
  {
    match Search(t, EnhancedSkills)
    case None => []
    case Some(h) =>
      var items := SplitSkillsEnhanced(Body(t, h));
      if items == [] then []
      else
        var r := CleanSkillList(AsItems(items));
        if NoUpper(t) then
          SplitSkillsEnhancedNoUpper(Body(t, h));
          CleanSkillListNoUpper(AsItems(items));
          r
        else r
  }

  /** Education or experience: the body split at newlines, bullets and hyphens. */
  function EnhancedItems(t: string, pat: Pattern): (r: seq<string>)
    ensures Search(t, pat).None? ==> r == []
    ensures forall i :: 0 <= i < |r| ==> r[i] != "" && NoEdgeSpace(r[i]) && Avoids(r[i], ItemBreaks)
    ensures NoUpper(t) ==> forall i :: 0 <= i < |r| ==> NoUpper(r[i])
  {
    match Search(t, pat)
    case None => []
    case Some(h) => ListItems(Body(t, h), ItemBreaks)
  }

  /** `enhanced_extract_sections(text)`. */
  function EnhancedExtract(text: string): (r: SectionLists)
    ensures forall k :: 0 <= k < |r.skills| ==> NoUpper(r.skills[k]) && |r.skills[k]| >= 2 && IsSkillForm(r.skills[k])
    ensures forall k, l :: 0 <= k < l < |r.skills| ==> SkillKey(r.skills[k]) != SkillKey(r.skills[l])
    ensures forall i :: 0 <= i < |r.education| ==>
      NoUpper(r.education[i]) && r.education[i] != "" && NoEdgeSpace(r.education[i]) && Avoids(r.education[i], ItemBreaks)
    ensures forall i :: 0 <= i < |r.experience| ==>
      NoUpper(r.experience[i]) && r.experience[i] != "" && NoEdgeSpace(r.experience[i]) && Avoids(r.experience[i], ItemBreaks)
  {
    var t := Lower(text);
    SectionLists(EnhancedSkillList(t), EnhancedItems(t, EnhancedEducation), EnhancedItems(t, EnhancedExperience))
  }

  /** A section whose header occurs nowhere in the lower-cased text stays empty. */
  lemma EnhancedMissingHeader(text: string)
    ensures (forall q :: 0 <= q <= |text| ==> !HeaderAt(Lower(text), q, EnhancedSkills.keywords)) ==>
      EnhancedExtract(text).skills == []
    ensures (forall q :: 0 <= q <= |text| ==> !HeaderAt(Lower(text), q, EnhancedEducation.keywords)) ==>
      EnhancedExtract(text).education == []
    ensures (forall q :: 0 <= q <= |text| ==> !HeaderAt(Lower(text), q, EnhancedExperience.keywords)) ==>
      EnhancedExtract(text).experience == []
  {
  }

  /** The delimiter-free single-piece body of the skills section yields no skills: it has no capitals. */
  lemma EnhancedSkillsNeedDelimiters(t: string, h: Hit)
    requires NoUpper(t)
    requires Search(t, EnhancedSkills) == Some(h)
    requires Avoids(Body(t, h), SkillDelimiters) && |StrippedNonEmpty(WideSplit(Body(t, h)))| <= 1
    ensures EnhancedSkillList(t) == []
  {
    var b := Body(t, h);
    CamelSplitNoUpper(b);
    assert SplitSkillsEnhanced(b) == [];
  }

  // ---------------------------------------------------------------------
  // resume_parser.py: extract_sections
  // ---------------------------------------------------------------------

  const ResumeSkillPatterns: seq<Pattern> := [
    Pattern([Words("technical", "skills"), Word("skills"), Word("technologies"), Word("expertise"), Word("competencies")],
      false, ["education", "experience", "work"]),
    Pattern([Words("programming", "languages"), Word("tools"), Words("software", "skills")],
      false, ["education", "experience", "work"])
  ]

  const ResumeEducationPatterns: seq<Pattern> := [
    Pattern([Word("education"), Words("academic", "background"), Word("qualifications"), Word("degrees")],
      false, ["experience", "skills", "work"]),
    Pattern([Word("university"), Word("college"), Word("school"), Word("bachelor"), Word("master"), Word("phd")],
      true, ["experience", "skills", "work"])
  ]

  const ResumeExperiencePatterns: seq<Pattern> := [
    Pattern([Word("experience"), Words("work", "history"), Word("employment"), Word("professional")],
      false, ["education", "skills"]),
    Pattern([Word("internship"), Word("work"), Word("job"), Word("position")],
      true, ["education", "skills"])
  ]

  /** The separators of the skills body. */
  const SkillBreaks: set<char> := {',', ';', '•', '\n'}

  /** The separators of the education and experience bodies. */
  const LineBreaks: set<char> := {'\n', '•'}

  /** The `for pattern in patterns: ... break` loop: the match of the first pattern that matches. */
  function FirstHit(t: string, pats: seq<Pattern>): (r: Option<Hit>)
    ensures r.Some? ==> r.value.start <= r.value.keyEnd <= r.value.bodyStart <= r.value.bodyEnd <= |t|
  {
    FirstSome(Map((p: Pattern) => Search(t, p), pats))
  }

  /** No pattern matches, or some pattern matches and every earlier one does not. */
  lemma FirstHitFirst(t: string, pats: seq<Pattern>)
    ensures FirstHit(t, pats).None? <==> forall i :: 0 <= i < |pats| ==> Search(t, pats[i]).None?
    ensures FirstHit(t, pats).Some? ==> exists i :: 0 <= i < |pats| && Search(t, pats[i]) == FirstHit(t, pats) &&
                                                   (forall j :: 0 <= j < i ==> Search(t, pats[j]).None?)
  {
  }

  /** The skills: split at delimiters when there is one, else the capital split. */
  function ResumeSkillList(t: string): (r: seq<string>)
    ensures FirstHit(t, ResumeSkillPatterns).None? ==> r == []
    ensures NoUpper(t) ==> forall i :: 0 <= i < |r| ==> r[i] != "" && NoUpper(r[i]) && NoEdgeSpace(r[i]) && Avoids(r[i], SkillBreaks)
  {
    match FirstHit(t, ResumeSkillPatterns)
    case None => []
    case Some(h) =>
      var body := Body(t, h);
      if !Avoids(body, SkillBreaks) then ListItems(body, SkillBreaks)
      else
        var r := CamelSplit(body);
        if NoUpper(t) then CamelSplitNoUpper(body); r else r
  }

  /** `group(2).strip() if group(2) else group(1)`. */
  function BodyOrKeyword(t: string, h: Hit): (s: string)
    requires h.start <= h.keyEnd <= h.bodyStart <= h.bodyEnd <= |t|
    ensures NoUpper(t) ==> NoUpper(s)
  {
    if Group2(t, h) != "" then Body(t, h)
    else
      SliceCharsFrom(t, h.start, h.keyEnd);
      if NoUpper(t) then CharsFromNoUpper(Group1(t, h), t); Group1(t, h) else Group1(t, h)
  }

  /**
   * A section of lines found by `pats`: the stripped body split at line
   * breaks and bullets, or the header keyword itself when the body is empty.
   */
  function SectionItems(t: string, pats: seq<Pattern>): (r: seq<string>)
    ensures FirstHit(t, pats).None? ==> r == []
    ensures forall i :: 0 <= i < |r| ==> r[i] != "" && NoEdgeSpace(r[i]) && Avoids(r[i], LineBreaks)
    ensures NoUpper(t) ==> forall i :: 0 <= i < |r| ==> NoUpper(r[i])
  {
    match FirstHit(t, pats)
    case None => []
    case Some(h) => ListItems(BodyOrKeyword(t, h), LineBreaks)
  }

  function ResumeEducationList(t: string): (r: seq<string>)
    ensures FirstHit(t, ResumeEducationPatterns).None? ==> r == []
    ensures forall i :: 0 <= i < |r| ==> r[i] != "" && NoEdgeSpace(r[i]) && Avoids(r[i], LineBreaks)
    ensures NoUpper(t) ==> forall i :: 0 <= i < |r| ==> NoUpper(r[i])
  {
    SectionItems(t, ResumeEducationPatterns)
  }

  /**
   * Experience as line 68 reads: an empty body falls back to group 1 of the
   * education match, which is `None` when no education pattern matched.
   */
  function ResumeExperienceAsWritten(t: string): (r: Result<seq<string>>)
    ensures FirstHit(t, ResumeExperiencePatterns).None? ==> r == Ok([])
    ensures r.Ok? ==> forall i :: 0 <= i < |r.value| ==>
      r.value[i] != "" && NoEdgeSpace(r.value[i]) && Avoids(r.value[i], LineBreaks)
  {
    FallbackToOther(t, ResumeExperiencePatterns, ResumeEducationPatterns)
  }

  /** A section found by `pats` whose empty body falls back to the keyword of the section `other` finds. */
  function FallbackToOther(t: string, pats: seq<Pattern>, other: seq<Pattern>): (r: Result<seq<string>>)
    ensures FirstHit(t, pats).None? ==> r == Ok([])
    ensures r.Ok? ==> forall i :: 0 <= i < |r.value| ==>
      r.value[i] != "" && NoEdgeSpace(r.value[i]) && Avoids(r.value[i], LineBreaks)
  {
    match FirstHit(t, pats)
    case None => Ok([])
    case Some(h) =>
      if Group2(t, h) != "" then Ok(ListItems(Body(t, h), LineBreaks))
      else match FirstHit(t, other)
        case None => Err(NoEducationMatch)
        case Some(e) => Ok(ListItems(Group1(t, e), LineBreaks))
  }

  /** Experience as the education branch does it: an empty body falls back to the experience keyword. */
  function ResumeExperienceList(t: string): (r: seq<string>)
    ensures FirstHit(t, ResumeExperiencePatterns).None? ==> r == []
    ensures forall i :: 0 <= i < |r| ==> r[i] != "" && NoEdgeSpace(r[i]) && Avoids(r[i], LineBreaks)
    ensures NoUpper(t) ==> forall i :: 0 <= i < |r| ==> NoUpper(r[i])
  {
    SectionItems(t, ResumeExperiencePatterns)
  }

  /** The result dict of `extract_sections`, each list deduplicated into a set. */
  datatype SectionSets = SectionSets(skills: set<string>, education: set<string>, experience: set<string>)

  /** `extract_sections(text)` as written. */
  function ExtractSectionsAsWritten(text: string): (r: Result<SectionSets>)
    ensures r.Err? <==> ResumeExperienceAsWritten(Lower(text)).Err?
  {
    var t := Lower(text);
    match ResumeExperienceAsWritten(t)
    case Err(f) => Err(f)
    case Ok(exp) => Ok(SectionSets(Forms(ResumeSkillList(t)), Forms(ResumeEducationList(t)), Forms(exp)))
  }

  /** `extract_sections(text)` with the experience fallback corrected. */
  function ExtractSections(text: string): (r: SectionSets)
    ensures "" !in r.skills && "" !in r.education && "" !in r.experience
    ensures forall x :: x in r.skills ==> NoUpper(x) && NoEdgeSpace(x) && Avoids(x, SkillBreaks)
    ensures forall x :: x in r.education ==> NoUpper(x) && NoEdgeSpace(x) && Avoids(x, LineBreaks)
    ensures forall x :: x in r.experience ==> NoUpper(x) && NoEdgeSpace(x) && Avoids(x, LineBreaks)
  {
    var t := Lower(text);
    SectionSets(Forms(ResumeSkillList(t)), Forms(ResumeEducationList(t)), Forms(ResumeExperienceList(t)))
  }

  /**
   * The final `list(set(...))` pass keeps no more items than each list had,
   * and exactly as many when the list had no repeats (its items are never
   * empty).
   */
  lemma ExtractSectionsSize(text: string)
    ensures var t := Lower(text); var r := ExtractSections(text);
      && |r.skills| <= |ResumeSkillList(t)| && (|r.skills| == |ResumeSkillList(t)| <==> Distinct(ResumeSkillList(t)))
      && |r.education| <= |ResumeEducationList(t)| && (|r.education| == |ResumeEducationList(t)| <==> Distinct(ResumeEducationList(t)))
      && |r.experience| <= |ResumeExperienceList(t)| && (|r.experience| == |ResumeExperienceList(t)| <==> Distinct(ResumeExperienceList(t)))
  {
    var t := Lower(text);
    FormsSize(ResumeSkillList(t));
    FormsSize(ResumeEducationList(t));
    FormsSize(ResumeExperienceList(t));
  }

  /** With a header present, a skills body without delimiters yields no skills: the capital split finds none in lower-case text. */
  lemma ResumeSkillsNeedDelimiters(text: string, h: Hit)
    requires FirstHit(Lower(text), ResumeSkillPatterns) == Some(h)
    requires Avoids(Body(Lower(text), h), SkillBreaks)
    ensures ExtractSections(text).skills == {}
  {
    CamelSplitNoUpper(Body(Lower(text), h));
  }

  /** The two readings of line 68 agree unless the experience body is empty. */
  lemma ExperienceFallbackOnly(text: string)
    requires FirstHit(Lower(text), ResumeExperiencePatterns).None? ||
             Group2(Lower(text), FirstHit(Lower(text), ResumeExperiencePatterns).value) != ""
    ensures ExtractSectionsAsWritten(text) == Ok(ExtractSections(text))
  {
  }

  /** A keyword whose first two letters do not occur at `q` does not match there. */
  lemma MissesAt(t: string, q: nat, kw: Keyword)
    requires q <= |t|
    requires |kw| >= 1 && kw[0].Lit? && |kw[0].text| >= 2
    requires q + |kw[0].text| > |t| || t[q] != kw[0].text[0] || t[q + 1] != kw[0].text[1]
    ensures KeywordEnd(t, q, kw).None?
  {
    var w := kw[0].text;
    if q + |w| <= |t| {
      assert t[q..q + |w|][0] == t[q] && t[q..q + |w|][1] == t[q + 1];
    }
  }

  /** "experience" alone: the experience body is empty and no education header occurs. */
  lemma ExperienceOnlyFacts(t: string)
    requires t == "experience"
    ensures FirstHit(t, ResumeEducationPatterns).None?
    ensures FirstHit(t, ResumeExperiencePatterns) == Some(Hit(0, 10, 10, 10))
  {
    forall k | 0 <= k < |ResumeEducationPatterns|
      ensures Search(t, ResumeEducationPatterns[k]).None?
    {
      var kws := ResumeEducationPatterns[k].keywords;
      forall q, i | 0 <= q <= |t| && 0 <= i < |kws|
        ensures KeywordEnd(t, q, kws[i]).None?
      {
        MissesAt(t, q, kws[i]);
      }
    }
    assert OccursAt(t, 0, "experience");
  }

  /**
   * The input "experience" makes the code as written fail: the experience
   * body is empty and there is no education match to fall back on.
   */
  lemma ExperienceWithoutEducation()
    ensures ExtractSectionsAsWritten("experience") == Err(NoEducationMatch)
  {
    var t := "experience";
    LowerOfNoUpper(t);
    ExperienceOnlyFacts(t);
    AsWrittenFails(t, Hit(0, 10, 10, 10));
  }

  /** With the corrected fallback, "experience" lists the experience keyword itself. */
  lemma ExperienceKeywordKept()
    ensures ExtractSections("experience").experience == {"experience"}
  {
    var t := "experience";
    ExperienceListIsKeyword(t);
    ExperienceSet(t, [t]);
  }

  lemma ExperienceListIsKeyword(t: string)
    requires t == "experience"
    ensures ResumeExperienceList(Lower(t)) == [t]
  {
    PlainWord(t);
    assert Group1(t, Hit(0, 10, 10, 10)) == t;
    ExperienceOnlyFacts(t);
    CorrectedKeepsKeyword(t, Hit(0, 10, 10, 10));
    LowerOfNoUpper(t);
  }

  lemma PlainWord(w: string)
    requires |w| > 0 && forall i :: 0 <= i < |w| ==> IsLower(w[i])
    ensures NoEdgeSpace(w) && Avoids(w, LineBreaks)
  {
  }

  lemma ExperienceSet(text: string, xs: seq<string>)
    requires ResumeExperienceList(Lower(text)) == xs
    ensures ExtractSections(text).experience == Forms(xs)
  {
  }

  /** An empty experience body with no education match is the failing case of line 68. */
  lemma AsWrittenFails(t: string, h: Hit)
    requires FirstHit(t, ResumeEducationPatterns).None?
    requires FirstHit(t, ResumeExperiencePatterns) == Some(h)
    requires h.bodyStart == h.bodyEnd <= |t|
    ensures ResumeExperienceAsWritten(t) == Err(NoEducationMatch)
  {
    FallbackFails(t, ResumeExperiencePatterns, ResumeEducationPatterns, h);
  }

  lemma FallbackFails(t: string, pats: seq<Pattern>, other: seq<Pattern>, h: Hit)
    requires FirstHit(t, other).None?
    requires FirstHit(t, pats) == Some(h)
    requires h.bodyStart == h.bodyEnd <= |t|
    ensures FallbackToOther(t, pats, other) == Err(NoEducationMatch)
  {
    assert Group2(t, h) == "";
  }

  /** An empty experience body: the corrected fallback lists the keyword. */
  lemma CorrectedKeepsKeyword(t: string, h: Hit)
    requires FirstHit(t, ResumeExperiencePatterns) == Some(h)
    requires h.start <= h.keyEnd <= h.bodyStart == h.bodyEnd <= |t|
    requires Group1(t, h) != "" && NoEdgeSpace(Group1(t, h)) && Avoids(Group1(t, h), LineBreaks)
    ensures ResumeExperienceList(t) == [Group1(t, h)]
  {
    KeywordKept(t, ResumeExperiencePatterns, h);
  }

  /** A section with an empty body lists its single-line header keyword alone. */
  lemma KeywordKept(t: string, pats: seq<Pattern>, h: Hit)
    requires FirstHit(t, pats) == Some(h)
    requires h.start <= h.keyEnd <= h.bodyStart == h.bodyEnd <= |t|
    requires Group1(t, h) != "" && NoEdgeSpace(Group1(t, h)) && Avoids(Group1(t, h), LineBreaks)
    ensures SectionItems(t, pats) == [Group1(t, h)]
  {
    assert Group2(t, h) == "";
    OneLine(Group1(t, h));
  }

  /** A stripped single line is its own only item. */
  lemma OneLine(s: string)
    requires s != "" && NoEdgeSpace(s) && Avoids(s, LineBreaks)
    ensures ListItems(s, LineBreaks) == [s]
  {
    assert SplitOn(s, LineBreaks) == [s];
  }
}
