# career_path_finder: skill matching and resume parsing core, in Dafny

This project models the extraction-and-matching engine of career_path_finder.
That engine turns resume text into skill, education and experience sections,
canonicalises skills through a synonym table, and computes the skill gap and
match score against a job role. It also ranks roles by skill overlap. The
model covers:

- **Canonicalisation** (`Canon`, `MatcherSynonyms`, `DbSynonyms`,
  `SynonymMerge`, `CanonExamples`). `normalize_skill_to_base` and
  `get_skill_synonyms` run over an ordered synonym table, so the first match
  wins. The table of skill_matcher.py and the defaults of skill_matcher_db.py
  are copied entry for entry. `build_skill_synonyms_from_db` merges database
  records over the defaults, following Python's dict ordering.
- **Gap and score** (`Gap`). `compute_skill_gap` is the same code in both
  matcher modules, and `Gap.ComputeGap` models both. The percentage match
  score is an exact rational.
- **Ranking and analysis** (`Ranking`). The overlap ranking of
  skill_matcher_db.py uses a stable descending sort and keeps the top three.
  The role choice and score of both `analyze_resume` functions are modelled;
  the classifier's predictions are an input.
- **Tokenisers and cleaners** (`Tokenize`, `TextCleaner`, `Strings`,
  `Chars`). This covers both `split_skills_string` variants,
  `split_skills_by_uppercase`, `clean_extracted_text`,
  `clean_and_preserve_structure` and `clean_skill_list`.
- **Section extraction** (`HeaderSearch`, `Sections`). The header regular
  expressions become a deterministic leftmost scan with a lazy body. This
  covers `enhanced_extract_sections` and `resume_parser.extract_sections`.
- **Table filter** (`TableFilter`). This covers `is_skills_table`,
  `looks_like_skill` and the cell scan of `extract_skills_from_pdf_tables`.

Python `None` and raised exceptions become `Option` and `Result` values
(`Outcomes`). Dicts iterated in insertion order become sequences of entries.
Sets whose iteration order Python leaves open become Dafny sets.

Some behaviour of the code that a reader might not expect:

- `split_skills_string` splits only at the delimiters `, ; • \n /`. Without
  one it splits at runs of two or more spaces, and failing that it falls
  back to letter runs (skill_matcher.py) or to the capital split
  (enhanced_parser.py).
- `normalize_skill_to_base` returns `""` for a non-empty input made only of
  punctuation.
- `resume_parser.extract_sections` deduplicates exactly, without case
  folding, and loses the order.
- Line 68 of resume_parser.py can raise on a document that has an experience
  header (see Findings).

## Model

| member | source | states |
|---|---|---|
| Canon.FirstHit | src/parsing/ml/skill_matcher.py:135-137 | the dict loop's hit is the first entry, in table order, whose base equals the cleaned skill or whose synonyms contain it; no result means no entry matches |
| Canon.Clean | src/parsing/ml/skill_matcher.py:130-132 | lower-casing, punctuation removal and whitespace collapsing always give lower-case word characters separated by single spaces |
| Canon.CleanKeeps | src/parsing/ml/skill_matcher.py:130-132 | a string already in that shape, with no edge spaces, is a fixed point of the cleaning |
| Canon.CleanIgnoresCase | src/parsing/ml/skill_matcher.py:130 | cleaning the lower-cased input gives the same result as cleaning the input |
| Canon.Normalize | src/parsing/ml/skill_matcher.py:124-139 | the empty skill maps to ""; otherwise the base of the first entry the cleaned skill hits, and the cleaned skill itself when no entry is hit |
| Canon.NormalizeIgnoresCase | src/parsing/ml/skill_matcher.py:124-139 | the letter case of the input never changes the canonical form |
| Canon.UncleanBaseBreaksWellFormed | src/parsing/ml/skill_matcher.py:28-113 | a table with a base key that is not in cleaned form (such as "c++") fails the condition under which normalisation is idempotent |
| Canon.BaseIsCanonical | src/parsing/ml/skill_matcher.py:124-139 | in a table whose base keys are clean and not captured by earlier entries, every base key normalises to itself |
| Canon.NormalizeIdempotent | src/parsing/ml/skill_matcher.py:124-139 | on a table whose base keys are clean and not captured by earlier entries, normalising a canonical form returns it unchanged |
| Canon.SynonymsOf | src/parsing/ml/skill_matcher.py:116-122 | the synonym list of the first entry hit by the stripped lower-case skill, without punctuation removal; else the one-element list of that string |
| CanonExamples.NodejsIsJavascript | src/parsing/ml/skill_matcher.py:32-79 | "nodejs" is listed under javascript (line 32) and node (line 79); it normalises to "javascript" because the first hit wins |
| CanonExamples.TestExpectations | test_skill_matching.py:21-28 | the six expected normalisations of the test script hold: Python, ML, Sql, Data Visualization, Pandas and React.js |
| CanonExamples.RnMobile | src/parsing/ml/skill_matcher.py:89 | "rn mobile" normalises to the base key "react native" |
| CanonExamples.ReactNative | src/parsing/ml/skill_matcher.py:76-89 | the base key "react native" normalises to "react", because the earlier react entry lists it as a synonym |
| CanonExamples.Sklearn | src/parsing/ml/skill_matcher.py:49 | "sklearn" normalises to the base key "scikit-learn" |
| CanonExamples.ScikitLearn | src/parsing/ml/skill_matcher.py:49 | the base key "scikit-learn" loses its hyphen and normalises to "scikitlearn", which no entry lists |
| CanonExamples.CPlusPlusCollapses | src/parsing/ml/skill_matcher.py:34 | "C++" cleans to "c" and normalises to "c": the c++ entry cannot be reached through its own key |
| CanonExamples.NotIdempotent | src/parsing/ml/skill_matcher.py:124-139 | normalising twice differs from normalising once on the shipped table, for "rn mobile" and for "sklearn" |
| CanonExamples.TableNotWellFormed | src/parsing/ml/skill_matcher.py:34 | the shipped table fails the idempotence condition, at its c++ entry |
| SynonymMerge.PutLaws | src/parsing/ml/skill_matcher_db.py:56-58 | a dict assignment sets the key's value and changes no other key; an existing key keeps its position and a new key is appended |
| SynonymMerge.MergeKeys | src/parsing/ml/skill_matcher_db.py:60 | the `{**a, **b}` merge keeps every key of `a` in place, then appends b's new keys once each, in order of first assignment |
| SynonymMerge.MergeGet | src/parsing/ml/skill_matcher_db.py:60 | after the merge, a key holds its last value from `b` if `b` assigns it, and its value in `a` otherwise |
| SynonymMerge.FreshUnique | src/parsing/ml/skill_matcher_db.py:60 | the keys the merge appends are pairwise different |
| SynonymMerge.RecordValue | src/parsing/ml/skill_matcher_db.py:53-58 | a record's stored synonyms are lower-case: a list whose items all have `.lower()` is lower-cased item by item, and a field that is not a list gives the lower-cased name alone |
| SynonymMerge.Assignments | src/parsing/ml/skill_matcher_db.py:51-58 | the record loop runs through iff every record has a name and every item of its synonym list can be lower-cased; it then makes one assignment per record, of the lower-cased name and its value |
| SynonymMerge.BuildLaws | src/parsing/ml/skill_matcher_db.py:43-60 | the merged table has every default key in place, followed by the new database keys in record order; a database key holds its last record's value and any other key its default |
| SynonymMerge.DatabaseLowerCase | src/parsing/ml/skill_matcher_db.py:52-56 | every key and every synonym that comes from the database is lower-case |
| SynonymMerge.BuildFallsBack | src/parsing/ml/skill_matcher_db.py:62-64 | when the records cannot be read, or a record has no name, or a synonym item has no `.lower()` (such as a NULL in the array), the default table is returned unchanged |
| Gap.Mapping | src/parsing/ml/skill_matcher.py:340-348 | `skill_mapping` has exactly the non-empty canonical forms as keys, each mapped to the surface form at its last occurrence |
| Gap.GapFrom | src/parsing/ml/skill_matcher.py:350-355 | a surface form is matched (missing) iff it is the last required entry with its non-empty canonical form and the resume has (lacks) that form |
| Gap.ComputeGap | src/parsing/ml/skill_matcher.py:328-357 | the same characterisation stated on the two input lists: both are canonicalised over the table and empty canonical forms are skipped |
| Gap.GapMembers | src/parsing/ml/skill_matcher.py:343-355 | every reported skill is an element of the required list with a required canonical form; it is matched iff the resume has that form |
| Gap.GapCovers | src/parsing/ml/skill_matcher.py:343-351 | every non-empty required canonical form is reported through matched or missing |
| Gap.GapPartition | src/parsing/ml/skill_matcher.py:350-351 | matched and missing share no canonical form; their forms are the intersection and the difference of the two canonical sets |
| Gap.NothingMissing | src/parsing/ml/skill_matcher.py:351 | missing is empty iff every required canonical form occurs among the resume's |
| Gap.MatchedSize | src/parsing/ml/skill_matcher.py:350-354 | the number of matched skills is the number of canonical forms the two sides share |
| Strings.FormsSize | src/parsing/ml/skill_matcher.py:341-346 | a required list has at most as many canonical forms as entries, and exactly as many iff its forms are distinct and non-empty |
| Gap.FullMatch | src/parsing/ml/skill_matcher.py:350-355 | every required entry is matched one-to-one iff nothing is missing and the required forms are distinct and non-empty |
| Gap.Percent | src/parsing/ml/skill_matcher.py:424-425 | the percentage is 0 for an empty total, lies in [0, 100] for a part no larger than the total, is 100 iff the part equals the total, and is 0 iff the total or the part is 0 |
| Gap.ScoreBounds | src/parsing/ml/skill_matcher.py:422-425 | the match score lies in [0, 100] and is 0 for an empty requirement list |
| Gap.ScoreZero | src/parsing/ml/skill_matcher.py:422-425 | the match score is 0 exactly when nothing is required or no required skill is matched |
| Gap.ScoreFull | src/parsing/ml/skill_matcher.py:422-425 | the score is 100 iff the list is non-empty, nothing is missing and no two required entries share a canonical form or normalise to "" |
| Ranking.Lookup | src/parsing/ml/skill_matcher_db.py:186 | `roles_map.get(name, [])`: [] for an unknown role; otherwise the skills of a role with that name, which are that role's skills when names are unique |
| Ranking.Predict | src/parsing/ml/skill_matcher_db.py:175-179 | one prediction per registry role, in registry order |
| Ranking.PredictScores | src/parsing/ml/skill_matcher_db.py:177-178 | each prediction's score is in [0, 100], is 0 for a role without skills, and is 100 iff nothing is missing and the role's canonical forms are distinct |
| Ranking.Insert | src/parsing/ml/skill_matcher_db.py:181 | inserting into a descending list keeps it descending and adds one element |
| Ranking.SortPerm | src/parsing/ml/skill_matcher_db.py:181 | sorting is a permutation of the predictions |
| Ranking.SortStable | src/parsing/ml/skill_matcher_db.py:181 | predictions with equal scores keep their registry order |
| Ranking.Top3 | src/parsing/ml/skill_matcher_db.py:195 | `predictions[:3]`: a prefix of length min(3, n) that stays sorted |
| Ranking.Top3Best | src/parsing/ml/skill_matcher_db.py:195 | every kept prediction scores at least as high as every dropped one |
| Ranking.Rank | src/parsing/ml/skill_matcher_db.py:175-181 | the ranked list has one entry per role and is sorted descending by score |
| Ranking.RankedFromRegistry | src/parsing/ml/skill_matcher_db.py:175-181 | each ranked entry is the prediction of some registry role |
| Ranking.ChosenScore | src/parsing/ml/skill_matcher_db.py:188-191 | the match score is in [0, 100]; it is 100 iff nothing is missing and the required forms are distinct, and 0 iff nothing is required or nothing is matched |
| Ranking.AnalyzeDb | src/parsing/ml/skill_matcher_db.py:158-200 | fails exactly when no role is chosen and the registry is empty; otherwise required is the chosen role's skill list, gap is the gap against it and score is its ChosenScore (100 iff nothing is missing, 0 iff nothing is matched), and the predictions are the sorted top three of the ranking |
| Ranking.AnalyzeDbPicksTop | src/parsing/ml/skill_matcher_db.py:183-191 | with no role chosen and a non-empty registry, the top prediction is chosen and the match score equals its prediction score |
| Ranking.AnalyzeUnknownRole | src/parsing/ml/skill_matcher_db.py:186-191 | a chosen role missing from the registry has no required skills and scores 0 |
| Ranking.SkillsList | src/parsing/ml/skill_matcher.py:400-407 | a list of any length but one is kept as it is; a lone string, or a one-element list, gives stripped, non-empty skills without delimiters, and "" gives none |
| Ranking.SkillsListCommas | src/parsing/ml/skill_matcher.py:400-407 | clean skills given as a list, as a comma-separated string, or as a one-element list holding that string all give back the same list |
| Ranking.AnalyzeMatcher | src/parsing/ml/skill_matcher.py:400-434 | fails exactly when there is no chosen role, no prediction and no role; chooses the given role, else the top prediction, else the first role; required is that role's skill list, gap is the gap of the parsed skills against it, and score is its ChosenScore |
| Ranking.AnalyzeMatcherFallback | src/parsing/ml/skill_matcher.py:413-416 | without predictions, the first registered role is analysed against its own skills |
| Ranking.FallbackRoles | src/parsing/ml/skill_matcher_db.py:93-98 | the offline registry has two roles with different names |
| Ranking.LoadRoles | src/parsing/ml/skill_matcher_db.py:84-98 | the database's roles when loading succeeds, else the non-empty fallback registry |
| Strings.Strip | src/parsing/text_cleaner.py:15 | `strip()` returns the input with a whitespace prefix and a whitespace suffix cut off, leaving no edge whitespace; it is empty iff the input is all whitespace, and keeps a stripped string as it is |
| Strings.SplitOnLosesOnlySeparators | src/parsing/enhanced_parser.py:36 | the pieces of a character-class split, put back together, are the text without its separators, and there is one more piece than separators |
| Strings.JoinSplit | src/parsing/text_cleaner.py:11-28 | joining the pieces of a split on one character with that character gives the text back |
| Strings.StrippedNonEmptyMembers | src/parsing/enhanced_parser.py:36 | the comprehension keeps exactly the non-empty stripped pieces |
| Strings.RemovePunct | src/parsing/text_cleaner.py:107 | `[^\w\s] -> ''` keeps only word and whitespace characters, all taken from the input |
| Strings.RemovePunctSplice | src/parsing/text_cleaner.py:107 | punctuation between two clean pieces disappears and the pieces join up |
| Strings.CollapseSpace | src/parsing/text_cleaner.py:108 | `\s+ -> ' '` leaves no two adjacent whitespace characters, only plain spaces, and whitespace at an end only where the input had it; with CollapseSpaceAppend and CollapseSpaceRun this characterises the rewrite completely |
| Strings.CollapseSpaceKeeps | src/parsing/text_cleaner.py:108 | a text already single-spaced with plain spaces is unchanged |
| Strings.CollapseSpaceAppend | src/parsing/text_cleaner.py:108 | collapsing works piecewise across a cut after a non-whitespace character, so non-whitespace characters keep their order |
| Strings.CollapseSpaceRun | src/parsing/text_cleaner.py:108 | a whole whitespace run, up to the next non-whitespace character, becomes exactly one space |
| Chars.Lower | src/parsing/enhanced_parser.py:23 | `lower()` keeps the length and leaves no capital letter |
| Tokenize.CamelSplit | src/parsing/enhanced_parser.py:70-77 | every token is a capital followed by lower-case letters, or a non-empty run of capitals |
| Tokenize.CamelSplitNoUpper | src/parsing/resume_parser.py:79-86 | text without capitals, lower-cased text in particular, yields no tokens |
| Tokenize.CamelSplitTitleWords | src/parsing/enhanced_parser.py:70-77 | capitalised words run together split back into exactly those words |
| Tokenize.Burst | src/parsing/ml/skill_matcher.py:321 | every token of `[A-Z][a-z]+\|[A-Z]+\|[a-z]+` is a capitalised word, a capital run or a lower-case run |
| Tokenize.BurstJoin | src/parsing/ml/skill_matcher.py:321 | such words joined by single spaces burst back into exactly those words |
| Tokenize.LongWords | src/parsing/ml/skill_matcher.py:322 | only tokens longer than two characters are kept, all from the input |
| Tokenize.WideSplit | src/parsing/ml/skill_matcher.py:315 | `re.split(r'\s{2,}')` gives at least one piece, none with a double space, all made of input characters |
| Tokenize.WideSplitJoin | src/parsing/ml/skill_matcher.py:315 | stripped pieces glued with two spaces split back into themselves |
| Tokenize.SplitSkillsMatcher | src/parsing/ml/skill_matcher.py:300-324 | "" gives []; tokens are stripped, non-empty and delimiter-free; with no delimiter and at most one wide piece, every token is a letter run longer than two |
| Tokenize.SplitByDelimiters | src/parsing/ml/skill_matcher.py:310-311 | the delimiter split gives stripped, non-empty tokens without `, ; • \n /` |
| Tokenize.SplitSkillsCommas | src/parsing/ml/skill_matcher.py:310-311 | two or more clean skills joined by commas split back into themselves, in both variants |
| Tokenize.SplitSkillsWide | src/parsing/ml/skill_matcher.py:315-316 | two or more delimiter-free skills glued with two spaces split back into themselves, in both variants |
| Tokenize.SplitSkillsWords | src/parsing/ml/skill_matcher.py:319-322 | single-spaced letter words longer than two come back from the letter-run fallback |
| Tokenize.SplitSkillsEnhanced | src/parsing/enhanced_parser.py:46-68 | "" gives []; tokens are stripped, non-empty and delimiter-free; with no delimiter and at most one wide piece, the result is the capital split |
| Tokenize.SplitSkillsEnhancedNoUpper | src/parsing/enhanced_parser.py:46-68 | lower-case text gives lower-case skills |
| Tokenize.SplitSkillsTitleWords | src/parsing/enhanced_parser.py:64-66 | capitalised words run together come back from the capital-split fallback |
| TextCleaner.PageRefAt | src/parsing/text_cleaner.py:21 | a page-reference match starts with the whole word page or confidential, in any case, runs without a newline through the first digit run after the word (the lazy `.*?` holds no digit) and ends where that run ends; and it is found whenever such a word is followed on its line by a digit |
| TextCleaner.RemovePageRefs | src/parsing/text_cleaner.py:21 | removing page references never lengthens a line and adds no character |
| TextCleaner.PageRefDropped | src/parsing/text_cleaner.py:21 | a reference matched at the start is removed whole, keyword to last digit, and scanning goes on after it |
| TextCleaner.ScrubKeeps | src/parsing/text_cleaner.py:21 | the scan keeps its text unchanged exactly when no page reference matches at any position from where it starts |
| TextCleaner.PageNumberRemoved | src/parsing/text_cleaner.py:21 | "Page 3" is removed entirely |
| TextCleaner.PageOfRemoved | src/parsing/text_cleaner.py:21 | on "Page 1 of 2" only "Page 1" is removed, leaving " of 2" |
| TextCleaner.PageOfLine | src/parsing/text_cleaner.py:15-25 | the line "Page 1 of 2" is kept as "of 2" |
| TextCleaner.CleanLine | src/parsing/text_cleaner.py:15-25 | a blank line is dropped; a kept line is non-empty and stripped, and its only whitespace is plain spaces |
| TextCleaner.FormFeedGone | src/parsing/text_cleaner.py:20-22 | the form-feed replacement never fires, because the space collapse has already turned form feeds into spaces |
| TextCleaner.TidyLineKept | src/parsing/text_cleaner.py:15-25 | a stripped, single-spaced, digit-free line is kept as it is |
| TextCleaner.CleanLines | src/parsing/text_cleaner.py:14-25 | at most one output line per input line, each non-empty, stripped and plain-spaced |
| TextCleaner.CleanLinesAppend | src/parsing/text_cleaner.py:14-25 | cleaning works line by line, so the output keeps the input order |
| TextCleaner.AllBlankDropped | src/parsing/text_cleaner.py:16-17 | blank lines leave nothing |
| TextCleaner.CleanExtractedText | src/parsing/text_cleaner.py:5-30 | None for empty or blank text, and None when no line survives; otherwise a non-empty text whose lines are exactly the cleaned lines |
| TextCleaner.TidyTextKept | src/parsing/text_cleaner.py:5-30 | text made of tidy lines comes back unchanged |
| TextCleaner.CleanExtractedTextIdempotent | src/parsing/text_cleaner.py:5-30 | on text without digits, cleaning the result again changes nothing |
| TextCleaner.LayoutHeader | src/parsing/text_cleaner.py:58-61 | a header line that is not the first line is emitted between two blank lines |
| TextCleaner.LayoutFirst | src/parsing/text_cleaner.py:58 | the first line is never padded |
| TextCleaner.LayoutOnlyAddsBlanks | src/parsing/text_cleaner.py:42-63 | dropping the blank lines of the layout gives back the non-empty input lines exactly |
| TextCleaner.FixArtifacts | src/parsing/text_cleaner.py:68-76 | the result contains none of the replaced characters, and text without them is unchanged |
| TextCleaner.FixArtifactsIdempotent | src/parsing/text_cleaner.py:68-76 | the replacements applied twice act as once |
| TextCleaner.CleanAndPreserve | src/parsing/text_cleaner.py:32-78 | "" gives ""; the output contains no pipe, em dash, replacement character or form feed |
| TextCleaner.CleanAndPreserveKeeps | src/parsing/text_cleaner.py:32-78 | stripped, non-blank, header-free lines without artifacts come back unchanged |
| TextCleaner.GetOrSelf | src/parsing/text_cleaner.py:116 | `d.get(k, k)` is k for an absent key, else a value stored under k |
| TextCleaner.CleanSkill | src/parsing/text_cleaner.py:106-108 | a cleaned skill is word characters and single plain spaces, no longer than the input |
| TextCleaner.CleanedItem | src/parsing/text_cleaner.py:101-111 | non-strings and empty strings are skipped; a kept item has at least two characters and the cleaned shape |
| TextCleaner.Firsts | src/parsing/text_cleaner.py:118-121 | the seen-set loop keeps increasing positions whose keys are pairwise different and unseen |
| TextCleaner.FirstsExact | src/parsing/text_cleaner.py:118-121 | a position is kept iff its key is unseen and no earlier position has it |
| TextCleaner.CleanSkillList | src/parsing/text_cleaner.py:80-123 | no longer than the input; every entry has at least two characters and the cleaned shape; no two entries share a normalisation key |
| TextCleaner.CleanSkillListFirsts | src/parsing/text_cleaner.py:114-121 | the output is exactly the candidates whose key no earlier candidate has, in input order |
| TextCleaner.CleanSkillListComplete | src/parsing/text_cleaner.py:118-121 | every candidate's key is the key of some output skill |
| TextCleaner.CleanSkillListNoUpper | src/parsing/text_cleaner.py:113-121 | original capitalisation is kept, so lower-case items give lower-case skills |
| TextCleaner.LeadingSpaceKept | src/parsing/text_cleaner.py:106-108 | the strip happens before punctuation removal, so a bullet followed by a word, such as "- Python", gives " Python" |
| HeaderSearch.KeywordEnd | src/parsing/resume_parser.py:20 | a reported keyword end is one where the alternative's pieces occur in order, a literal as written and `\s+` as a non-empty whitespace run |
| HeaderSearch.KeywordEndExact | src/parsing/resume_parser.py:20 | when every `\s+` is followed by a word, the pieces match from a position to an end exactly when KeywordEnd reports that end |
| Sections.WordsSeparate | src/parsing/resume_parser.py:20 | a two-word alternative such as `technical\s+skills` meets the condition of KeywordEndExact |
| HeaderSearch.FirstKeyword | src/parsing/resume_parser.py:20 | the end of the first keyword alternative, in order, that matches at a position; none iff no alternative matches there |
| HeaderSearch.BodyEnd | src/parsing/enhanced_parser.py:18 | the lazy body stops at the first position where a stop word or `$` matches |
| HeaderSearch.HitAt | src/parsing/resume_parser.py:48 | after the keyword, the separator holds: `[\s\w]*` (when present) is a longest run of word and space characters, `[:\-]?` takes a colon or hyphen that is there, and `\s*` is a longest space run ending at the body start; the body ends at the first stop |
| HeaderSearch.SeparatorUnique | src/parsing/resume_parser.py:48 | the separator description allows only one body start, so it pins group 2's start |
| HeaderSearch.Search | src/parsing/enhanced_parser.py:26 | no match iff no keyword alternative matches anywhere; otherwise the leftmost header with its first matching alternative, the greedy separator and the lazy body |
| HeaderSearch.LeftmostUnique | src/parsing/enhanced_parser.py:26 | at most one hit meets the search's description, so the contract determines the match, both groups included |
| Sections.ListItems | src/parsing/enhanced_parser.py:36 | items are stripped, non-empty and free of the separators; lower-case text gives lower-case items |
| Sections.Body | src/parsing/enhanced_parser.py:28 | `group(1).strip()` has no edge spaces and no capitals when the text has none |
| Sections.SkillsColonBody | src/parsing/enhanced_parser.py:18-28 | on "skills: python" the skills pattern matches at 0, skips ": " and captures "python" |
| Sections.BodyHasNoStop | src/parsing/enhanced_parser.py:18 | the captured body contains no stop word, not even inside a longer word such as "framework" |
| Sections.EnhancedSkillList | src/parsing/enhanced_parser.py:31-42 | no header gives []; otherwise the cleaned skill list, with no repeated normalisation key and no capitals in lower-case text |
| Sections.EnhancedItems | src/parsing/enhanced_parser.py:34-36 | no header gives []; items are stripped, non-empty and free of newline, bullet and hyphen |
| Sections.EnhancedExtract | src/parsing/enhanced_parser.py:6-44 | all three sections are lower-case; skills are cleaned and deduplicated by key; education and experience items are stripped, non-empty and separator-free |
| Sections.EnhancedMissingHeader | src/parsing/enhanced_parser.py:10-38 | a section whose header occurs nowhere in the lower-cased text stays [] |
| Sections.EnhancedSkillsNeedDelimiters | src/parsing/enhanced_parser.py:59-66 | on the lower-cased text, a delimiter-free single-piece skills body yields no skills |
| Sections.FirstHit | src/parsing/resume_parser.py:24-42 | the per-section pattern loop breaks on a match, so its result lies within the text |
| Sections.FirstHitFirst | src/parsing/resume_parser.py:24-42 | no result iff no pattern matches; otherwise the match of a pattern all of whose predecessors fail |
| Sections.ExtractSectionsSize | src/parsing/resume_parser.py:74-75 | each deduplicated section has no more items than its list, and exactly as many iff the list had no repeats |
| Sections.ResumeSkillList | src/parsing/resume_parser.py:24-42 | no header gives []; on lower-case text the skills are stripped, non-empty, lower-case and free of `, ; • \n` |
| Sections.BodyOrKeyword | src/parsing/resume_parser.py:54 | `group(2).strip() if group(2) else group(1)` has no capitals in lower-case text |
| Sections.ResumeEducationList | src/parsing/resume_parser.py:46-57 | no header gives []; items are stripped, non-empty, lower-case on lower-case text, and free of newline and bullet |
| Sections.ResumeExperienceAsWritten | src/parsing/resume_parser.py:60-71 | no header gives Ok([]); every listed item is stripped, non-empty and free of newline and bullet |
| Sections.ResumeExperienceList | src/parsing/resume_parser.py:60-71 | the corrected loop: no header gives []; items are stripped, non-empty, lower-case on lower-case text, and separator-free |
| Sections.ExtractSectionsAsWritten | src/parsing/resume_parser.py:5-77 | the function fails exactly when the experience branch fails |
| Sections.ExtractSections | src/parsing/resume_parser.py:5-77 | the three sets contain no empty string, and every element is lower-case, stripped and free of its section's separators |
| Sections.ResumeSkillsNeedDelimiters | src/parsing/resume_parser.py:34-39 | a skills body without delimiters yields no skills, because the capital split finds nothing in lower-cased text |
| Sections.ExperienceFallbackOnly | src/parsing/resume_parser.py:68 | the code as written and the corrected code agree unless the experience body is empty |
| Sections.AsWrittenFails | src/parsing/resume_parser.py:68 | an empty experience body with no education match makes the code as written fail |
| Sections.ExperienceWithoutEducation | src/parsing/resume_parser.py:68 | the text "experience" makes `extract_sections` as written fail |
| Sections.CorrectedKeepsKeyword | src/parsing/resume_parser.py:68 | with the corrected fallback, an empty experience body lists the experience keyword |
| Sections.ExperienceKeywordKept | src/parsing/resume_parser.py:68 | with the corrected fallback, "experience" yields the experience set {"experience"} |
| TableFilter.HeaderText | src/parsing/pdf_table_extractor.py:44 | the joined header row is lower-case |
| TableFilter.IsSkillsTable | src/parsing/pdf_table_extractor.py:36-49 | false for an empty table; otherwise true iff some single header cell, lower-cased and with None read as "", contains one of the nine keywords, since no keyword can straddle the spaces that join the cells |
| Strings.JoinContains | src/parsing/pdf_table_extractor.py:44-49 | a word without the separator occurs in the joined text iff it occurs in one of the pieces |
| TableFilter.HeaderRowDecides | src/parsing/pdf_table_extractor.py:44-49 | rows below the header never change the verdict |
| TableFilter.LooksLikeSkill | src/parsing/pdf_table_extractor.py:51-73 | false for blacklisted words, all-digit text and lengths below 2 or above 30; true implies 2 to 30 characters of the allowed class |
| TableFilter.LooksLikeSkillExact | src/parsing/pdf_table_extractor.py:51-73 | the verdict is exactly: no blacklisted word, not all digits, and the pattern matches (the length guards are implied) |
| TableFilter.CellSkill | src/parsing/pdf_table_extractor.py:26-29 | a cell contributes its stripped text only if that is non-empty and looks like a skill |
| TableFilter.TableSkills | src/parsing/pdf_table_extractor.py:17-29 | a table that is not a skills table contributes nothing |
| TableFilter.ScanTablesHas | src/parsing/pdf_table_extractor.py:13-29 | a text is reported iff some cell of some skills table, header rows included, contributes it |
| TableFilter.ScanTablesClean | src/parsing/pdf_table_extractor.py:24-29 | every reported skill is stripped, non-empty and passes `looks_like_skill` |
| TableFilter.ScanTablesAppend | src/parsing/pdf_table_extractor.py:13-29 | output follows page order: the skills of earlier pages come first |

## Left out

- Character classes: `\s`, `strip()` and `isspace()` use Python's full whitespace set. `\w`, `\d`, `lower()`, `isupper()`, `istitle()` and `isdigit()` are approximated on ASCII letters and digits plus `_`. Unicode case folding is not modelled, for example the Kelvin sign under `lower()`.
- Scores are exact rationals rather than floats; display rounding (66.7) is not modelled.
- I/O and foreign libraries: PDF, DOCX and OCR extraction, and the pdfplumber call with its catch-all `except`. The page and table lists are an input.
- The Supabase `SkillRepository`: database records and roles are inputs. `None` stands for a failed load.
- `normalize_skill_to_base` in skill_matcher_db.py (lines 66-82) is `Canon.Normalize` with the table passed explicitly. `synonyms_map=None` there means `DbSynonyms.Synonyms()`. The fallback in `compute_skill_gap` (lines 128-133) chooses the table the same way.
- The ML classifier (`load_model`, `predict_roles`, training and evaluation): predictions are an input list.
- Ranking.AnalyzeMatcher: takes the synonym table as a parameter; in skill_matcher.py it is always `MatcherSynonyms.Synonyms()`.
- CSV loading in `load_skill_dataset`. Its guarantee of a non-empty, stripped skill list per role is not needed: every contract holds for any registry.
- `parse_resume_structured` and the `src/parsing/__init__.py` dispatch: file-type I/O. The section extractors are modelled directly on text.
- `_naive_extract_from_raw` (unused), the Streamlit UI, and debug printing (`debug_skill_matching`, the `DEBUG` prints).
- HeaderSearch.KeywordEnd: a `\s+` inside a keyword alternative takes the whole whitespace run. HeaderSearch.KeywordEndExact shows this agrees with backtracking whenever the next literal starts with a non-space, as in every shipped alternative (Sections.WordsSeparate); other alternatives are not covered.
- Sections.ExtractSections: each section is a set, so the order `list(set(...))` produces is not modelled.
- Gap.ComputeGap: matched and missing are sets, because Python builds them by iterating a set. No element is lost, since different canonical forms report different required entries.
- Canon.NormalizeIdempotent: proved only for tables meeting `Canon.WellFormed`, and for inputs whose cleaned form has no edge space. The shipped table does not meet the condition (`CanonExamples.TableNotWellFormed`).
- TextCleaner.CleanExtractedTextIdempotent: proved only for text without digits. Page-reference removal acts only where a digit occurs, and that case is not covered.
- Non-string inputs: `clean_extracted_text`'s `isinstance` check is covered only through the string type. Non-string list items of `clean_skill_list` are `None` items.

## Findings

| source | as written | input that shows it | evidently intended | confidence | as-written member | corrected member |
|---|---|---|---|---|---|---|
| src/parsing/resume_parser.py:68 | an empty experience body falls back to `edu_match.group(1)`: the education match, which is `None` when no education pattern matched | the text "experience": the body is empty and no education header occurs, so `None.group(1)` raises | fall back to the experience match's own keyword, `exp_match.group(1)`, as the education branch does at line 54 | not executed | Sections.ExperienceWithoutEducation | Sections.ExperienceKeywordKept |
