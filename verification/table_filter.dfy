/**
 * The pure part of `extract_skills_from_pdf_tables`: which tables count as
 * skills tables, which cell texts look like skills, and the scan over the
 * pages' tables. A table is a list of rows of cells; a cell is `None` or a
 * string, as the PDF library hands them over.
 */
module TableFilter {
  import opened Chars
  import opened Strings
  import opened Outcomes

  type Cell = Option<string>
  type Row = seq<Cell>
  type Table = seq<Row>

  /** The words whose presence in the header row marks a skills table. */
  const TableKeywords: seq<string> :=
    ["skill", "technology", "tool", "language", "framework", "proficiency", "expertise", "competency", "technical"]

  /** The words that mark a cell as a header or metadata rather than a skill. */
  const Blacklist: seq<string> :=
    ["years", "proficiency", "level", "rating", "skill", "technology", "category", "tool"]

  /** `' '.join(str(cell or '') for cell in row).lower()`. */
  function HeaderText(row: Row): (r: string)
    ensures NoUpper(r)
  {
    Lower(Join(Map((c: Cell) => c.GetOr(""), row), ' '))
  }

  predicate ContainsAny(s: string, words: seq<string>)
  {
    exists i :: 0 <= i < |words| && Contains(s, words[i])
  }

  /** Some keyword occurs in the lower-cased text of header cell `j` (a `None` cell reads as ""). */
  predicate CellHasKeyword(row: Row, j: int)
  {
    0 <= j < |row| && ContainsAny(Lower(row[j].GetOr("")), TableKeywords)
  }

  /**
   * `is_skills_table(table)`. The cells are joined with spaces, and no
   * keyword holds a space, so the verdict is decided cell by cell: some
   * header cell contains a keyword.
   */
  function IsSkillsTable(table: Table): (b: bool)
    ensures table == [] ==> !b
    ensures b <==> table != [] && exists j :: CellHasKeyword(table[0], j)
  {
    if table == [] then false
    else
      HeaderCells(table[0]);
      ContainsAny(HeaderText(table[0]), TableKeywords)
  }

  /** Lower-casing the joined row is joining the lower-cased cells. */
  lemma {:induction false} LowerJoin(xs: seq<string>)
    ensures Lower(Join(xs, ' ')) == Join(Map(Lower, xs), ' ')
    decreases |xs|
  {
    if |xs| >= 2 {
      LowerJoin(xs[1..]);
      LowerConcat(xs[0] + [' '], Join(xs[1..], ' '));
      LowerConcat(xs[0], [' ']);
      assert Map(Lower, xs)[1..] == Map(Lower, xs[1..]);
    }
  }

  lemma HeaderCells(row: Row)
    ensures ContainsAny(HeaderText(row), TableKeywords) <==> exists j :: CellHasKeyword(row, j)
  {
    var cells := Map((c: Cell) => c.GetOr(""), row);
    var lowered := Map(Lower, cells);
    LowerJoin(cells);
    assert HeaderText(row) == Join(lowered, ' ');
    forall k | 0 <= k < |TableKeywords|
      ensures Contains(HeaderText(row), TableKeywords[k]) <==> exists j :: 0 <= j < |lowered| && Contains(lowered[j], TableKeywords[k])
    {
      JoinContains(lowered, ' ', TableKeywords[k]);
    }
    if ContainsAny(HeaderText(row), TableKeywords) {
      var k :| 0 <= k < |TableKeywords| && Contains(HeaderText(row), TableKeywords[k]);
      var j :| 0 <= j < |lowered| && Contains(lowered[j], TableKeywords[k]);
      assert CellHasKeyword(row, j);
    }
    if exists j :: CellHasKeyword(row, j) {
      var j :| CellHasKeyword(row, j);
      var k :| 0 <= k < |TableKeywords| && Contains(Lower(row[j].GetOr("")), TableKeywords[k]);
      assert lowered[j] == Lower(row[j].GetOr(""));
    }
  }

  /** `str.isdigit()`: non-empty and digits only. */
  predicate AllDigits(s: string)
  {
    |s| > 0 && forall i :: 0 <= i < |s| ==> IsDigit(s[i])
  }

  /** The regex class `[A-Za-z0-9\s\+\.\/#-]`. */
  predicate IsSkillChar(c: char)
  {
    IsLetter(c) || IsDigit(c) || IsSpace(c) || c in {'+', '.', '/', '#', '-'}
  }

  /**
   * `re.match(r'^[A-Za-z0-9\s\+\.\/#-]{2,30}$', s)` for texts of at most 30
   * characters. `$` also matches before a final newline, so the regex accepts
   * 30 class characters followed by '\n' while this predicate does not;
   * `looks_like_skill` rejects such a 31-character text by its length guard first.
   */
  predicate MatchesSkillPattern(s: string)
  {
    2 <= |s| <= 30 && forall i :: 0 <= i < |s| ==> IsSkillChar(s[i])
  }

  /** `looks_like_skill(s)`. */
  function LooksLikeSkill(s: string): (b: bool)
    ensures ContainsAny(Lower(s), Blacklist) ==> !b
    ensures AllDigits(s) ==> !b
    ensures |s| < 2 || |s| > 30 ==> !b
    ensures b ==> 2 <= |s| <= 30 && forall i :: 0 <= i < |s| ==> IsSkillChar(s[i])
  {
    if ContainsAny(Lower(s), Blacklist) then false
    else if AllDigits(s) || |s| < 2 then false
    else if |s| > 30 then false
    else MatchesSkillPattern(s)
  }

  /** A cell's contribution: the stripped text of a non-empty string cell that looks like a skill. */
  function CellSkill(cell: Cell): (r: Option<string>)
    ensures r.Some? ==> cell.Some? && r.value == Strip(cell.value)
    ensures r.Some? ==> r.value != "" && NoEdgeSpace(r.value) && LooksLikeSkill(r.value)
  {
    match cell
    case None => None
    case Some(v) =>
      if v == "" then None
      else
        var t := Strip(v);
        if t != "" && LooksLikeSkill(t) then Some(t) else None
  }

  function RowSkills(row: Row): seq<string>
  {
    Somes(Map(CellSkill, row))
  }

  /** A table that is empty or not a skills table contributes nothing; header cells are scanned too. */
  function TableSkills(table: Table): (r: seq<string>)
    ensures !IsSkillsTable(table) ==> r == []
  {
    if table == [] || !IsSkillsTable(table) then [] else Flatten(Map(RowSkills, table))
  }

  function PageSkills(tables: seq<Table>): seq<string>
  {
    Flatten(Map(TableSkills, tables))
  }

  /** The loops over pages, tables, rows and cells, appending in that order. */
  function ScanTables(pages: seq<seq<Table>>): seq<string>
  {
    Flatten(Map(PageSkills, pages))
  }

  /** Cell `c` of row `r` of table `t` on page `p` lies in a skills table and contributes `x`. */
  ghost predicate FoundAt(pages: seq<seq<Table>>, x: string, p: nat, t: nat, r: nat, c: nat)
  {
    && p < |pages| && t < |pages[p]| && r < |pages[p][t]| && c < |pages[p][t][r]|
    && IsSkillsTable(pages[p][t])
    && CellSkill(pages[p][t][r][c]) == Some(x)
  }

  lemma RowSkillsHas(row: Row, x: string)
    ensures x in RowSkills(row) <==> exists c :: 0 <= c < |row| && CellSkill(row[c]) == Some(x)
  {
    var os := Map(CellSkill, row);
    if x in RowSkills(row) {
      assert Some(x) in os;
      var c :| 0 <= c < |os| && os[c] == Some(x);
      assert CellSkill(row[c]) == Some(x);
    }
    if exists c :: 0 <= c < |row| && CellSkill(row[c]) == Some(x) {
      var c :| 0 <= c < |row| && CellSkill(row[c]) == Some(x);
      assert os[c] == Some(x);
      SomesHas(os, x);
    }
  }

  lemma TableSkillsHas(table: Table, x: string)
    ensures x in TableSkills(table) <==>
      IsSkillsTable(table) && exists r, c :: 0 <= r < |table| && 0 <= c < |table[r]| && CellSkill(table[r][c]) == Some(x)
  {
    if IsSkillsTable(table) {
      var rows := Map(RowSkills, table);
      if x in TableSkills(table) {
        var r :| 0 <= r < |rows| && x in rows[r];
        RowSkillsHas(table[r], x);
      }
      if exists r, c :: 0 <= r < |table| && 0 <= c < |table[r]| && CellSkill(table[r][c]) == Some(x) {
        var r, c :| 0 <= r < |table| && 0 <= c < |table[r]| && CellSkill(table[r][c]) == Some(x);
        RowSkillsHas(table[r], x);
        FlattenHas(rows, r, x);
      }
    }
  }

  lemma PageSkillsHas(tables: seq<Table>, x: string)
    ensures x in PageSkills(tables) <==>
      exists t, r, c :: 0 <= t < |tables| && 0 <= r < |tables[t]| && 0 <= c < |tables[t][r]| &&
                        IsSkillsTable(tables[t]) && CellSkill(tables[t][r][c]) == Some(x)
  {
    var ts := Map(TableSkills, tables);
    if x in PageSkills(tables) {
      var t :| 0 <= t < |ts| && x in ts[t];
      TableSkillsHas(tables[t], x);
      var r, c :| 0 <= r < |tables[t]| && 0 <= c < |tables[t][r]| && CellSkill(tables[t][r][c]) == Some(x);
    }
    if exists t, r, c :: 0 <= t < |tables| && 0 <= r < |tables[t]| && 0 <= c < |tables[t][r]| &&
                         IsSkillsTable(tables[t]) && CellSkill(tables[t][r][c]) == Some(x) {
      var t, r, c :| 0 <= t < |tables| && 0 <= r < |tables[t]| && 0 <= c < |tables[t][r]| &&
                     IsSkillsTable(tables[t]) && CellSkill(tables[t][r][c]) == Some(x);
      TableSkillsHas(tables[t], x);
      FlattenHas(ts, t, x);
    }
  }

  /**
   * Exactly the stripped texts of the cells of skills tables that pass
   * `looks_like_skill` are reported.
   */
  lemma ScanTablesHas(pages: seq<seq<Table>>, x: string)
    ensures x in ScanTables(pages) <==> exists p, t, r, c :: FoundAt(pages, x, p, t, r, c)
  {
    if x in ScanTables(pages) {
      ScanFound(pages, x);
    }
    if exists p, t, r, c :: FoundAt(pages, x, p, t, r, c) {
      var p, t, r, c :| FoundAt(pages, x, p, t, r, c);
      FoundScanned(pages, x, p, t, r, c);
    }
  }

  lemma ScanFound(pages: seq<seq<Table>>, x: string)
    requires x in ScanTables(pages)
    ensures exists p, t, r, c :: FoundAt(pages, x, p, t, r, c)
  {
    var ps := Map(PageSkills, pages);
    var p :| 0 <= p < |ps| && x in ps[p];
    PageSkillsHas(pages[p], x);
    var t, r, c :| 0 <= t < |pages[p]| && 0 <= r < |pages[p][t]| && 0 <= c < |pages[p][t][r]| &&
                   IsSkillsTable(pages[p][t]) && CellSkill(pages[p][t][r][c]) == Some(x);
    assert FoundAt(pages, x, p, t, r, c);
  }

  lemma FoundScanned(pages: seq<seq<Table>>, x: string, p: nat, t: nat, r: nat, c: nat)
    requires FoundAt(pages, x, p, t, r, c)
    ensures x in ScanTables(pages)
  {
    PageSkillsHas(pages[p], x);
    FlattenHas(Map(PageSkills, pages), p, x);
  }

  /** Every reported skill is stripped, non-empty and passes `looks_like_skill`. */
  lemma ScanTablesClean(pages: seq<seq<Table>>)
    ensures forall x :: x in ScanTables(pages) ==> x != "" && NoEdgeSpace(x) && LooksLikeSkill(x)
  {
    forall x | x in ScanTables(pages)
      ensures x != "" && NoEdgeSpace(x) && LooksLikeSkill(x)
    {
      ScanTablesHas(pages, x);
      var p, t, r, c :| FoundAt(pages, x, p, t, r, c);
    }
  }

  /** Output order follows page order: the skills of earlier pages come first. */
  lemma ScanTablesAppend(a: seq<seq<Table>>, b: seq<seq<Table>>)
    ensures ScanTables(a + b) == ScanTables(a) + ScanTables(b)
  {
    MapAppend(PageSkills, a, b);
    FlattenAppend(Map(PageSkills, a), Map(PageSkills, b));
  }

  /** Only the header row decides: rows added below a non-empty table leave the verdict as it is. */
  lemma HeaderRowDecides(table: Table, more: Table)
    requires table != []
    ensures IsSkillsTable(table + more) == IsSkillsTable(table)
  {
    assert (table + more)[0] == table[0];
  }

  /**
   * The length guards of `looks_like_skill` are implied by the pattern's
   * `{2,30}`: the verdict is the blacklist test, the digit test and the
   * pattern alone.
   */
  lemma LooksLikeSkillExact(s: string)
    ensures LooksLikeSkill(s) <==> !ContainsAny(Lower(s), Blacklist) && !AllDigits(s) && MatchesSkillPattern(s)
  {
  }
}
