/**
 * Skill canonicalisation (`normalize_skill_to_base`, `get_skill_synonyms`),
 * shared by skill_matcher.py and skill_matcher_db.py: the two differ only in
 * which synonym table they scan.
 *
 * A synonym table is a Python dict iterated in insertion order, so it is
 * modelled as an ordered sequence of entries; the first entry that matches wins.
 */
module Canon {
  import opened Chars
  import opened Strings
  import opened Outcomes

  /** One `base_skill: [synonym, ...]` item of a synonym dict. */
  datatype Entry = Entry(base: string, synonyms: seq<string>)

  type Table = seq<Entry>

  /** The loop test `skill_lower in synonyms or skill_lower == base_skill`. */
  predicate Hits(e: Entry, c: string)
  {
    c in e.synonyms || c == e.base
  }

  /** Entry `i` is the first one, in table order, that `c` hits. */
  ghost predicate IsFirstHit(t: Table, c: string, i: int)
  {
    0 <= i < |t| && Hits(t[i], c) && forall j :: 0 <= j < i ==> !Hits(t[j], c)
  }

  ghost predicate NoHit(t: Table, c: string)
  {
    forall j :: 0 <= j < |t| ==> !Hits(t[j], c)
  }

  /** The dict scan from position `i` on: the index of the first entry `c` hits. */
  function FirstHitFrom(t: Table, c: string, i: nat): (r: Option<nat>)
    requires i <= |t|
    ensures r.Some? ==> i <= r.value < |t| && Hits(t[r.value], c)
    ensures r.Some? ==> forall j :: i <= j < r.value ==> !Hits(t[j], c)
    ensures r.None? ==> forall j :: i <= j < |t| ==> !Hits(t[j], c)
    decreases |t| - i
  {
    if i == |t| then None
    else if Hits(t[i], c) then Some(i)
    else FirstHitFrom(t, c, i + 1)
  }

  function FirstHit(t: Table, c: string): (r: Option<nat>)
    ensures r.Some? ==> IsFirstHit(t, c, r.value)
    ensures r.None? ==> NoHit(t, c)
  {
    FirstHitFrom(t, c, 0)
  }

  /** A first hit in `a` stays the first hit when more entries follow. */
  lemma FirstHitBefore(a: Table, b: Table, c: string, i: nat)
    requires IsFirstHit(a, c, i)
    ensures IsFirstHit(a + b, c, i) && (a + b)[i] == a[i]
  {
    forall j | 0 <= j <= i
      ensures (a + b)[j] == a[j]
    {
    }
  }

  /** When nothing in `a` is hit, the first hit of `a + b` is the first hit in `b`, shifted by `|a|`. */
  lemma FirstHitAfter(a: Table, b: Table, c: string, i: nat)
    requires NoHit(a, c) && IsFirstHit(b, c, i)
    ensures IsFirstHit(a + b, c, |a| + i) && (a + b)[|a| + i] == b[i]
  {
    forall j | 0 <= j < |a| + i
      ensures !Hits((a + b)[j], c)
    {
      if j >= |a| {
        assert (a + b)[j] == b[j - |a|];
      } else {
        assert (a + b)[j] == a[j];
      }
    }
  }

  /** Neither part is hit, so the whole is not. */
  lemma NoHitConcat(a: Table, b: Table, c: string)
    requires NoHit(a, c) && NoHit(b, c)
    ensures NoHit(a + b, c)
  {
    forall j | 0 <= j < |a + b|
      ensures !Hits((a + b)[j], c)
    {
      if j >= |a| {
        assert (a + b)[j] == b[j - |a|];
      } else {
        assert (a + b)[j] == a[j];
      }
    }
  }

  /** The shape of a cleaned skill: lower-case word characters separated by single spaces. */
  predicate IsCleanForm(c: string)
  {
    && NoUpper(c)
    && (forall i :: 0 <= i < |c| ==> IsWordChar(c[i]) || c[i] == ' ')
    && NoDoubleSpace(c)
  }

  /**
   * `skill.lower().strip()`, then `re.sub(r'[^\w\s]', '', _)` and
   * `re.sub(r'\s+', ' ', _)`. The strip comes before punctuation removal,
   * so `"- python"` cleans to `" python"`.
   */
  function Clean(s: string): (c: string)
    ensures IsCleanForm(c)
  {
    var lowered := Strip(Lower(s));
    var kept := RemovePunct(lowered);
    CharsFromNoUpper(lowered, Lower(s));
    CharsFromNoUpper(kept, lowered);
    var c := CollapseSpace(kept);
    CollapseSpaceChars(kept);
    assert forall i :: 0 <= i < |c| ==> !IsUpper(c[i]) by {
      forall i | 0 <= i < |c|
        ensures !IsUpper(c[i])
      {
        if !IsSpace(c[i]) {
          var j :| 0 <= j < |kept| && kept[j] == c[i];
        }
      }
    }
    assert forall i :: 0 <= i < |c| ==> IsWordChar(c[i]) || c[i] == ' ' by {
      forall i | 0 <= i < |c|
        ensures IsWordChar(c[i]) || c[i] == ' '
      {
        if !IsSpace(c[i]) {
          var j :| 0 <= j < |kept| && kept[j] == c[i];
        }
      }
    }
    c
  }

  /** Cleaning a string that is already clean and stripped changes nothing. */
  lemma CleanKeeps(c: string)
    requires IsCleanForm(c) && NoEdgeSpace(c)
    ensures Clean(c) == c
  {
    LowerOfNoUpper(c);
    var stripped := Strip(Lower(c));
    assert stripped == c;
    RemovePunctKeepsClean(c);
    SpacesArePlain(c);
    CollapseSpaceKeeps(c);
  }

  lemma RemovePunctKeepsClean(c: string)
    requires IsCleanForm(c)
    ensures RemovePunct(c) == c
  {
    forall i | 0 <= i < |c|
      ensures IsWordChar(c[i]) || IsSpace(c[i])
    {
      assert IsWordChar(c[i]) || c[i] == ' ';
    }
    RemovePunctKeeps(c);
  }

  lemma SpacesArePlain(c: string)
    requires IsCleanForm(c)
    ensures forall i :: 0 <= i < |c| && IsSpace(c[i]) ==> c[i] == ' '
  {
    forall i | 0 <= i < |c| && IsSpace(c[i])
      ensures c[i] == ' '
    {
      assert IsWordChar(c[i]) || c[i] == ' ';
    }
  }

  /** Cleaning ignores letter case. */
  lemma CleanIgnoresCase(s: string)
    ensures Clean(Lower(s)) == Clean(s)
  {
    LowerOfNoUpper(Lower(s));
  }

  /** skill_matcher.py `normalize_skill_to_base`, over an explicit table. */
  function Normalize(t: Table, s: string): (r: string)
    ensures s == "" ==> r == ""
    ensures s != "" ==> forall i :: IsFirstHit(t, Clean(s), i) ==> r == t[i].base
    ensures s != "" && NoHit(t, Clean(s)) ==> r == Clean(s)
  {
    if s == "" then ""
    else
      var c := Clean(s);
      match FirstHit(t, c)
      case Some(i) => t[i].base
      case None => c
  }

  /** The letter case of the input never changes the canonical form. */
  lemma NormalizeIgnoresCase(t: Table, s: string)
    ensures Normalize(t, Lower(s)) == Normalize(t, s)
  {
    CleanIgnoresCase(s);
  }

  /** Normalisation once the cleaned form `c` and its first hit are known. */
  lemma NormalizeHits(t: Table, s: string, c: string, i: nat)
    requires s != "" && Clean(s) == c && IsFirstHit(t, c, i)
    ensures Normalize(t, s) == t[i].base
  {
  }

  /** Normalisation once the cleaned form `c` is known to miss the table. */
  lemma NormalizeMisses(t: Table, s: string, c: string)
    requires s != "" && Clean(s) == c && NoHit(t, c)
    ensures Normalize(t, s) == c
  {
  }

  /** A skill whose lower-case form is already clean cleans to that form. */
  lemma CleanOfLower(s: string)
    requires IsCleanForm(Lower(s)) && NoEdgeSpace(Lower(s))
    ensures Clean(s) == Lower(s)
  {
    CleanIgnoresCase(s);
    CleanKeeps(Lower(s));
  }

  /** A skill whose lower-case form is two clean pieces around punctuation cleans to the pieces joined. */
  lemma CleanSplice(s: string, a: string, p: string, b: string)
    requires Lower(s) == a + p + b && NoEdgeSpace(a + p + b)
    requires WordOrSpace(a) && WordOrSpace(b)
    requires forall i :: 0 <= i < |p| ==> !IsWordChar(p[i]) && !IsSpace(p[i])
    requires IsCleanForm(a + b) && NoEdgeSpace(a + b)
    ensures Clean(s) == a + b
  {
    assert Strip(Lower(s)) == a + p + b;
    RemovePunctSplice(a, p, b);
    SpacesArePlain(a + b);
    CollapseSpaceKeeps(a + b);
  }

  /**
   * Canonical forms of a table: every base key is already clean and
   * stripped, and no earlier entry captures it. Under this condition
   * normalisation is idempotent (for inputs that do not clean to a string
   * with a leading or trailing space).
   */
  ghost predicate WellFormed(t: Table)
  {
    && (forall i :: 0 <= i < |t| ==> IsCleanForm(t[i].base) && NoEdgeSpace(t[i].base))
    && (forall i, j :: 0 <= j < i < |t| ==> !Hits(t[j], t[i].base))
  }

  /** A base key that is not in clean form breaks well-formedness. */
  lemma UncleanBaseBreaksWellFormed(t: Table, i: nat)
    requires i < |t| && !IsCleanForm(t[i].base)
    ensures !WellFormed(t)
  {
  }

  /** In a well-formed table every base key is its own canonical form. */
  lemma BaseIsCanonical(t: Table, i: nat)
    requires WellFormed(t) && i < |t|
    ensures Normalize(t, t[i].base) == t[i].base
  {
    var b := t[i].base;
    if b != "" {
      CleanKeeps(b);
      assert IsFirstHit(t, b, i);
    }
  }

  lemma NormalizeIdempotent(t: Table, s: string)
    requires WellFormed(t)
    requires NoEdgeSpace(Clean(s))
    ensures Normalize(t, Normalize(t, s)) == Normalize(t, s)
  {
    if s != "" {
      var c := Clean(s);
      match FirstHit(t, c)
      case Some(i) =>
        BaseIsCanonical(t, i);
      case None =>
        if c != "" {
          CleanKeeps(c);
        }
    }
  }

  /** skill_matcher.py `get_skill_synonyms`: no punctuation removal, only lower and strip. */
  function SynonymsOf(t: Table, skill: string): (r: seq<string>)
    ensures forall i :: IsFirstHit(t, Strip(Lower(skill)), i) ==> r == t[i].synonyms
    ensures NoHit(t, Strip(Lower(skill))) ==> r == [Strip(Lower(skill))]
  {
    var k := Strip(Lower(skill));
    match FirstHit(t, k)
    case Some(i) => t[i].synonyms
    case None => [k]
  }
}
