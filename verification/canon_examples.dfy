/**
 * Worked instances of `normalize_skill_to_base` over the skill_matcher.py
 * table: the first-match rule, the expectations of test_skill_matching.py,
 * and inputs on which normalising twice differs from normalising once.
 *
 * Each instance `X` is proved from helpers named by the fact they establish:
 *   - `XLower`: what the input lower-cases to;
 *   - `XForm`: that this is already in cleaned form, or `XPieces`: that it
 *     is two clean pieces around punctuation;
 *   - `XClean`: what the input cleans to, from the two above;
 *   - `XTable`: the position of the first entry that the cleaned input hits
 *     (or that none does), from
 *   - `XLanguages`, `XDataScience`, ...: the same fact for one group of the
 *     table, chained with `Canon.FirstHitBefore`, `Canon.FirstHitAfter` and
 *     `Canon.NoHitConcat` along `Synonyms() == Languages() + FromDataScience()`,
 *     `FromDataScience() == DataScience() + FromDatabases()`, and so on.
 * Splitting by group keeps each proof to a few entries: a proof that
 * mentions the whole table at once makes the verifier unfold every entry.
 * The helpers take their string as a variable equal to the literal for the
 * same reason. Positions count entries from 0 in table order.
 */
module CanonExamples {
  import opened Chars
  import opened Strings
  import opened Canon
  import opened MatcherSynonyms

  /** "nodejs" is listed under both `javascript` (line 32) and `node` (line 79); the earlier entry wins. */
  lemma NodejsIsJavascript()
    ensures Normalize(Synonyms(), "nodejs") == "javascript"
  {
    NodejsIsJavascriptClean("nodejs");
    NodejsIsJavascriptTable("nodejs");
    NormalizeHits(Synonyms(), "nodejs", "nodejs", 2);
  }

  lemma NodejsIsJavascriptClean(s: string)
    requires s == "nodejs"
    ensures Clean(s) == "nodejs"
  {
    NodejsIsJavascriptLower(s);
    NodejsIsJavascriptForm(Lower(s));
    CleanOfLower(s);
  }

  lemma NodejsIsJavascriptLower(s: string)
    requires s == "nodejs"
    ensures Lower(s) == "nodejs"
  {
  }

  lemma NodejsIsJavascriptForm(c: string)
    requires c == "nodejs"
    ensures IsCleanForm(c) && NoEdgeSpace(c)
  {
  }

  lemma NodejsIsJavascriptTable(c: string)
    requires c == "nodejs"
    ensures IsFirstHit(Synonyms(), c, 2) && Synonyms()[2].base == "javascript"
  {
    NodejsIsJavascriptLanguages(c);
    FirstHitBefore(Languages(), FromDataScience(), c, 2);
  }

  lemma NodejsIsJavascriptLanguages(c: string)
    requires c == "nodejs"
    ensures IsFirstHit(Languages(), c, 2)
  {
  }

  /** Test expectation: "Python" normalises to "python". */
  lemma PythonExpectation()
    ensures Normalize(Synonyms(), "Python") == "python"
  {
    PythonExpectationClean("Python");
    PythonExpectationTable("python");
    NormalizeHits(Synonyms(), "Python", "python", 0);
  }

  lemma PythonExpectationClean(s: string)
    requires s == "Python"
    ensures Clean(s) == "python"
  {
    PythonExpectationLower(s);
    PythonExpectationForm(Lower(s));
    CleanOfLower(s);
  }

  lemma PythonExpectationLower(s: string)
    requires s == "Python"
    ensures Lower(s) == "python"
  {
  }

  lemma PythonExpectationForm(c: string)
    requires c == "python"
    ensures IsCleanForm(c) && NoEdgeSpace(c)
  {
  }

  lemma PythonExpectationTable(c: string)
    requires c == "python"
    ensures IsFirstHit(Synonyms(), c, 0) && Synonyms()[0].base == "python"
  {
    PythonExpectationLanguages(c);
    FirstHitBefore(Languages(), FromDataScience(), c, 0);
  }

  lemma PythonExpectationLanguages(c: string)
    requires c == "python"
    ensures IsFirstHit(Languages(), c, 0)
  {
  }

  /** Test expectation: "ML" normalises to "machine learning". */
  lemma MlExpectation()
    ensures Normalize(Synonyms(), "ML") == "machine learning"
  {
    MlExpectationClean("ML");
    MlExpectationTable("ml");
    NormalizeHits(Synonyms(), "ML", "ml", 10);
  }

  lemma MlExpectationClean(s: string)
    requires s == "ML"
    ensures Clean(s) == "ml"
  {
    MlExpectationLower(s);
    MlExpectationForm(Lower(s));
    CleanOfLower(s);
  }

  lemma MlExpectationLower(s: string)
    requires s == "ML"
    ensures Lower(s) == "ml"
  {
  }

  lemma MlExpectationForm(c: string)
    requires c == "ml"
    ensures IsCleanForm(c) && NoEdgeSpace(c)
  {
  }

  lemma MlExpectationTable(c: string)
    requires c == "ml"
    ensures IsFirstHit(Synonyms(), c, 10) && Synonyms()[10].base == "machine learning"
  {
    MlExpectationLanguages(c);
    MlExpectationDataScience(c);
    FirstHitBefore(DataScience(), FromDatabases(), c, 0);
    FirstHitAfter(Languages(), FromDataScience(), c, 0);
  }

  lemma MlExpectationLanguages(c: string)
    requires c == "ml"
    ensures NoHit(Languages(), c)
  {
  }

  lemma MlExpectationDataScience(c: string)
    requires c == "ml"
    ensures IsFirstHit(DataScience(), c, 0)
  {
  }

  /** Test expectation: "Sql" normalises to "sql". */
  lemma SqlExpectation()
    ensures Normalize(Synonyms(), "Sql") == "sql"
  {
    SqlExpectationClean("Sql");
    SqlExpectationTable("sql");
    NormalizeHits(Synonyms(), "Sql", "sql", 24);
  }

  lemma SqlExpectationClean(s: string)
    requires s == "Sql"
    ensures Clean(s) == "sql"
  {
    SqlExpectationLower(s);
    SqlExpectationForm(Lower(s));
    CleanOfLower(s);
  }

  lemma SqlExpectationLower(s: string)
    requires s == "Sql"
    ensures Lower(s) == "sql"
  {
  }

  lemma SqlExpectationForm(c: string)
    requires c == "sql"
    ensures IsCleanForm(c) && NoEdgeSpace(c)
  {
  }

  lemma SqlExpectationTable(c: string)
    requires c == "sql"
    ensures IsFirstHit(Synonyms(), c, 24) && Synonyms()[24].base == "sql"
  {
    SqlExpectationLanguages(c);
    SqlExpectationDataScience(c);
    SqlExpectationDatabases(c);
    FirstHitBefore(Databases(), FromCloudDevOps(), c, 0);
    FirstHitAfter(DataScience(), FromDatabases(), c, 0);
    FirstHitAfter(Languages(), FromDataScience(), c, 14);
  }

  lemma SqlExpectationLanguages(c: string)
    requires c == "sql"
    ensures NoHit(Languages(), c)
  {
  }

  lemma SqlExpectationDataScience(c: string)
    requires c == "sql"
    ensures NoHit(DataScience(), c)
  {
  }

  lemma SqlExpectationDatabases(c: string)
    requires c == "sql"
    ensures IsFirstHit(Databases(), c, 0)
  {
  }

  /** Test expectation: "Data Visualization" normalises to "data visualization". */
  lemma DataVisualizationExpectation()
    ensures Normalize(Synonyms(), "Data Visualization") == "data visualization"
  {
    DataVisualizationExpectationClean("Data Visualization");
    DataVisualizationExpectationTable("data visualization");
    NormalizeHits(Synonyms(), "Data Visualization", "data visualization", 14);
  }

  lemma DataVisualizationExpectationClean(s: string)
    requires s == "Data Visualization"
    ensures Clean(s) == "data visualization"
  {
    DataVisualizationExpectationLower(s);
    DataVisualizationExpectationForm(Lower(s));
    CleanOfLower(s);
  }

  lemma DataVisualizationExpectationLower(s: string)
    requires s == "Data Visualization"
    ensures Lower(s) == "data visualization"
  {
  }

  lemma DataVisualizationExpectationForm(c: string)
    requires c == "data visualization"
    ensures IsCleanForm(c) && NoEdgeSpace(c)
  {
  }

  lemma DataVisualizationExpectationTable(c: string)
    requires c == "data visualization"
    ensures IsFirstHit(Synonyms(), c, 14) && Synonyms()[14].base == "data visualization"
  {
    DataVisualizationExpectationLanguages(c);
    DataVisualizationExpectationDataScience(c);
    FirstHitBefore(DataScience(), FromDatabases(), c, 4);
    FirstHitAfter(Languages(), FromDataScience(), c, 4);
  }

  lemma DataVisualizationExpectationLanguages(c: string)
    requires c == "data visualization"
    ensures NoHit(Languages(), c)
  {
  }

  lemma DataVisualizationExpectationDataScience(c: string)
    requires c == "data visualization"
    ensures IsFirstHit(DataScience(), c, 4)
  {
  }

  /** Test expectation: "Pandas" normalises to "pandas". */
  lemma PandasExpectation()
    ensures Normalize(Synonyms(), "Pandas") == "pandas"
  {
    PandasExpectationClean("Pandas");
    PandasExpectationTable("pandas");
    NormalizeHits(Synonyms(), "Pandas", "pandas", 15);
  }

  lemma PandasExpectationClean(s: string)
    requires s == "Pandas"
    ensures Clean(s) == "pandas"
  {
    PandasExpectationLower(s);
    PandasExpectationForm(Lower(s));
    CleanOfLower(s);
  }

  lemma PandasExpectationLower(s: string)
    requires s == "Pandas"
    ensures Lower(s) == "pandas"
  {
  }

  lemma PandasExpectationForm(c: string)
    requires c == "pandas"
    ensures IsCleanForm(c) && NoEdgeSpace(c)
  {
  }

  lemma PandasExpectationTable(c: string)
    requires c == "pandas"
    ensures IsFirstHit(Synonyms(), c, 15) && Synonyms()[15].base == "pandas"
  {
    PandasExpectationLanguages(c);
    PandasExpectationDataScience(c);
    FirstHitBefore(DataScience(), FromDatabases(), c, 5);
    FirstHitAfter(Languages(), FromDataScience(), c, 5);
  }

  lemma PandasExpectationLanguages(c: string)
    requires c == "pandas"
    ensures NoHit(Languages(), c)
  {
  }

  lemma PandasExpectationDataScience(c: string)
    requires c == "pandas"
    ensures IsFirstHit(DataScience(), c, 5)
  {
  }

  /** Test expectation: the dot of "React.js" is deleted before lookup, and "reactjs" is a synonym of `react`. */
  lemma ReactJsExpectation()
    ensures Normalize(Synonyms(), "React.js") == "react"
  {
    ReactJsExpectationClean("React.js");
    ReactJsExpectationTable("reactjs");
    NormalizeHits(Synonyms(), "React.js", "reactjs", 38);
  }

  lemma ReactJsExpectationClean(s: string)
    requires s == "React.js"
    ensures Clean(s) == "reactjs"
  {
    ReactJsExpectationLower(s);
    ReactJsExpectationPieces("react", ".", "js");
    CleanSplice(s, "react", ".", "js");
  }

  lemma ReactJsExpectationPieces(a: string, p: string, b: string)
    requires a == "react" && p == "." && b == "js"
    ensures WordOrSpace(a) && WordOrSpace(b) && NoEdgeSpace(a + p + b)
    ensures IsCleanForm(a + b) && NoEdgeSpace(a + b) && a + b == "reactjs"
    ensures forall i :: 0 <= i < |p| ==> !IsWordChar(p[i]) && !IsSpace(p[i])
  {
  }

  lemma ReactJsExpectationLower(s: string)
    requires s == "React.js"
    ensures Lower(s) == "react" + "." + "js"
  {
    assert Lower(s) == "react.js";
  }

  lemma ReactJsExpectationTable(c: string)
    requires c == "reactjs"
    ensures IsFirstHit(Synonyms(), c, 38) && Synonyms()[38].base == "react"
  {
    ReactJsExpectationLanguages(c);
    ReactJsExpectationDataScience(c);
    ReactJsExpectationDatabases(c);
    ReactJsExpectationCloudDevOps(c);
    ReactJsExpectationWebDevelopment(c);
    FirstHitBefore(WebDevelopment(), FromMobileDevelopment(), c, 2);
    FirstHitAfter(CloudDevOps(), FromWebDevelopment(), c, 2);
    FirstHitAfter(Databases(), FromCloudDevOps(), c, 11);
    FirstHitAfter(DataScience(), FromDatabases(), c, 14);
    FirstHitAfter(Languages(), FromDataScience(), c, 28);
  }

  lemma ReactJsExpectationLanguages(c: string)
    requires c == "reactjs"
    ensures NoHit(Languages(), c)
  {
  }

  lemma ReactJsExpectationDataScience(c: string)
    requires c == "reactjs"
    ensures NoHit(DataScience(), c)
  {
  }

  lemma ReactJsExpectationDatabases(c: string)
    requires c == "reactjs"
    ensures NoHit(Databases(), c)
  {
  }

  lemma ReactJsExpectationCloudDevOps(c: string)
    requires c == "reactjs"
    ensures NoHit(CloudDevOps(), c)
  {
  }

  lemma ReactJsExpectationWebDevelopment(c: string)
    requires c == "reactjs"
    ensures IsFirstHit(WebDevelopment(), c, 2)
  {
  }

  /** "rn mobile" is a synonym of the base key "react native". */
  lemma RnMobile()
    ensures Normalize(Synonyms(), "rn mobile") == "react native"
  {
    RnMobileClean("rn mobile");
    RnMobileTable("rn mobile");
    NormalizeHits(Synonyms(), "rn mobile", "rn mobile", 49);
  }

  lemma RnMobileClean(s: string)
    requires s == "rn mobile"
    ensures Clean(s) == "rn mobile"
  {
    RnMobileLower(s);
    RnMobileForm(Lower(s));
    CleanOfLower(s);
  }

  lemma RnMobileLower(s: string)
    requires s == "rn mobile"
    ensures Lower(s) == "rn mobile"
  {
  }

  lemma RnMobileForm(c: string)
    requires c == "rn mobile"
    ensures IsCleanForm(c) && NoEdgeSpace(c)
  {
  }

  lemma RnMobileTable(c: string)
    requires c == "rn mobile"
    ensures IsFirstHit(Synonyms(), c, 49) && Synonyms()[49].base == "react native"
  {
    RnMobileLanguages(c);
    RnMobileDataScience(c);
    RnMobileDatabases(c);
    RnMobileCloudDevOps(c);
    RnMobileWebDevelopment(c);
    RnMobileMobileDevelopment(c);
    FirstHitBefore(MobileDevelopment(), FromSecurity(), c, 3);
    FirstHitAfter(WebDevelopment(), FromMobileDevelopment(), c, 3);
    FirstHitAfter(CloudDevOps(), FromWebDevelopment(), c, 13);
    FirstHitAfter(Databases(), FromCloudDevOps(), c, 22);
    FirstHitAfter(DataScience(), FromDatabases(), c, 25);
    FirstHitAfter(Languages(), FromDataScience(), c, 39);
  }

  lemma RnMobileLanguages(c: string)
    requires c == "rn mobile"
    ensures NoHit(Languages(), c)
  {
  }

  lemma RnMobileDataScience(c: string)
    requires c == "rn mobile"
    ensures NoHit(DataScience(), c)
  {
  }

  lemma RnMobileDatabases(c: string)
    requires c == "rn mobile"
    ensures NoHit(Databases(), c)
  {
  }

  lemma RnMobileCloudDevOps(c: string)
    requires c == "rn mobile"
    ensures NoHit(CloudDevOps(), c)
  {
  }

  lemma RnMobileWebDevelopment(c: string)
    requires c == "rn mobile"
    ensures NoHit(WebDevelopment(), c)
  {
  }

  lemma RnMobileMobileDevelopment(c: string)
    requires c == "rn mobile"
    ensures IsFirstHit(MobileDevelopment(), c, 3)
  {
  }

  /** The base key "react native" is shadowed: the earlier `react` entry lists it. */
  lemma ReactNative()
    ensures Normalize(Synonyms(), "react native") == "react"
  {
    ReactNativeClean("react native");
    ReactNativeTable("react native");
    NormalizeHits(Synonyms(), "react native", "react native", 38);
  }

  lemma ReactNativeClean(s: string)
    requires s == "react native"
    ensures Clean(s) == "react native"
  {
    ReactNativeLower(s);
    ReactNativeForm(Lower(s));
    CleanOfLower(s);
  }

  lemma ReactNativeLower(s: string)
    requires s == "react native"
    ensures Lower(s) == "react native"
  {
  }

  lemma ReactNativeForm(c: string)
    requires c == "react native"
    ensures IsCleanForm(c) && NoEdgeSpace(c)
  {
  }

  lemma ReactNativeTable(c: string)
    requires c == "react native"
    ensures IsFirstHit(Synonyms(), c, 38) && Synonyms()[38].base == "react"
  {
    ReactNativeLanguages(c);
    ReactNativeDataScience(c);
    ReactNativeDatabases(c);
    ReactNativeCloudDevOps(c);
    ReactNativeWebDevelopment(c);
    FirstHitBefore(WebDevelopment(), FromMobileDevelopment(), c, 2);
    FirstHitAfter(CloudDevOps(), FromWebDevelopment(), c, 2);
    FirstHitAfter(Databases(), FromCloudDevOps(), c, 11);
    FirstHitAfter(DataScience(), FromDatabases(), c, 14);
    FirstHitAfter(Languages(), FromDataScience(), c, 28);
  }

  lemma ReactNativeLanguages(c: string)
    requires c == "react native"
    ensures NoHit(Languages(), c)
  {
  }

  lemma ReactNativeDataScience(c: string)
    requires c == "react native"
    ensures NoHit(DataScience(), c)
  {
  }

  lemma ReactNativeDatabases(c: string)
    requires c == "react native"
    ensures NoHit(Databases(), c)
  {
  }

  lemma ReactNativeCloudDevOps(c: string)
    requires c == "react native"
    ensures NoHit(CloudDevOps(), c)
  {
  }

  lemma ReactNativeWebDevelopment(c: string)
    requires c == "react native"
    ensures IsFirstHit(WebDevelopment(), c, 2)
  {
  }

  /** "sklearn" is a synonym of the base key "scikit-learn". */
  lemma Sklearn()
    ensures Normalize(Synonyms(), "sklearn") == "scikit-learn"
  {
    SklearnClean("sklearn");
    SklearnTable("sklearn");
    NormalizeHits(Synonyms(), "sklearn", "sklearn", 17);
  }

  lemma SklearnClean(s: string)
    requires s == "sklearn"
    ensures Clean(s) == "sklearn"
  {
    SklearnLower(s);
    SklearnForm(Lower(s));
    CleanOfLower(s);
  }

  lemma SklearnLower(s: string)
    requires s == "sklearn"
    ensures Lower(s) == "sklearn"
  {
  }

  lemma SklearnForm(c: string)
    requires c == "sklearn"
    ensures IsCleanForm(c) && NoEdgeSpace(c)
  {
  }

  lemma SklearnTable(c: string)
    requires c == "sklearn"
    ensures IsFirstHit(Synonyms(), c, 17) && Synonyms()[17].base == "scikit-learn"
  {
    SklearnLanguages(c);
    SklearnDataScience(c);
    FirstHitBefore(DataScience(), FromDatabases(), c, 7);
    FirstHitAfter(Languages(), FromDataScience(), c, 7);
  }

  lemma SklearnLanguages(c: string)
    requires c == "sklearn"
    ensures NoHit(Languages(), c)
  {
  }

  lemma SklearnDataScience(c: string)
    requires c == "sklearn"
    ensures IsFirstHit(DataScience(), c, 7)
  {
  }

  /** The base key "scikit-learn" loses its hyphen, and "scikitlearn" is in no entry. */
  lemma ScikitLearn()
    ensures Normalize(Synonyms(), "scikit-learn") == "scikitlearn"
  {
    ScikitLearnClean("scikit-learn");
    ScikitLearnTable("scikitlearn");
    NormalizeMisses(Synonyms(), "scikit-learn", "scikitlearn");
  }

  lemma ScikitLearnClean(s: string)
    requires s == "scikit-learn"
    ensures Clean(s) == "scikitlearn"
  {
    ScikitLearnLower(s);
    ScikitLearnPieces("scikit", "-", "learn");
    CleanSplice(s, "scikit", "-", "learn");
  }

  lemma ScikitLearnPieces(a: string, p: string, b: string)
    requires a == "scikit" && p == "-" && b == "learn"
    ensures WordOrSpace(a) && WordOrSpace(b) && NoEdgeSpace(a + p + b)
    ensures IsCleanForm(a + b) && NoEdgeSpace(a + b) && a + b == "scikitlearn"
    ensures forall i :: 0 <= i < |p| ==> !IsWordChar(p[i]) && !IsSpace(p[i])
  {
  }

  lemma ScikitLearnLower(s: string)
    requires s == "scikit-learn"
    ensures Lower(s) == "scikit" + "-" + "learn"
  {
    assert Lower(s) == "scikit-learn";
  }

  lemma ScikitLearnTable(c: string)
    requires c == "scikitlearn"
    ensures NoHit(Synonyms(), c)
  {
    ScikitLearnLanguages(c);
    ScikitLearnDataScience(c);
    ScikitLearnDatabases(c);
    ScikitLearnCloudDevOps(c);
    ScikitLearnWebDevelopment(c);
    ScikitLearnMobileDevelopment(c);
    ScikitLearnSecurity(c);
    ScikitLearnUiUx(c);
    ScikitLearnSoftSkills(c);
    NoHitConcat(UiUx(), FromSoftSkills(), c);
    NoHitConcat(Security(), FromUiUx(), c);
    NoHitConcat(MobileDevelopment(), FromSecurity(), c);
    NoHitConcat(WebDevelopment(), FromMobileDevelopment(), c);
    NoHitConcat(CloudDevOps(), FromWebDevelopment(), c);
    NoHitConcat(Databases(), FromCloudDevOps(), c);
    NoHitConcat(DataScience(), FromDatabases(), c);
    NoHitConcat(Languages(), FromDataScience(), c);
  }

  lemma ScikitLearnLanguages(c: string)
    requires c == "scikitlearn"
    ensures NoHit(Languages(), c)
  {
  }

  lemma ScikitLearnDataScience(c: string)
    requires c == "scikitlearn"
    ensures NoHit(DataScience(), c)
  {
  }

  lemma ScikitLearnDatabases(c: string)
    requires c == "scikitlearn"
    ensures NoHit(Databases(), c)
  {
  }

  lemma ScikitLearnCloudDevOps(c: string)
    requires c == "scikitlearn"
    ensures NoHit(CloudDevOps(), c)
  {
  }

  lemma ScikitLearnWebDevelopment(c: string)
    requires c == "scikitlearn"
    ensures NoHit(WebDevelopment(), c)
  {
  }

  lemma ScikitLearnMobileDevelopment(c: string)
    requires c == "scikitlearn"
    ensures NoHit(MobileDevelopment(), c)
  {
  }

  lemma ScikitLearnSecurity(c: string)
    requires c == "scikitlearn"
    ensures NoHit(Security(), c)
  {
  }

  lemma ScikitLearnUiUx(c: string)
    requires c == "scikitlearn"
    ensures NoHit(UiUx(), c)
  {
  }

  lemma ScikitLearnSoftSkills(c: string)
    requires c == "scikitlearn"
    ensures NoHit(SoftSkills(), c)
  {
  }

  /** "C++" cleans to "c", which no entry lists: the `c++` entry is out of reach of its own key. */
  lemma CPlusPlusCollapses()
    ensures Normalize(Synonyms(), "C++") == "c"
  {
    CPlusPlusCollapsesClean("C++");
    CPlusPlusCollapsesTable("c");
    NormalizeMisses(Synonyms(), "C++", "c");
  }

  lemma CPlusPlusCollapsesClean(s: string)
    requires s == "C++"
    ensures Clean(s) == "c"
  {
    CPlusPlusCollapsesLower(s);
    CPlusPlusCollapsesPieces("c", "++", "");
    CleanSplice(s, "c", "++", "");
  }

  lemma CPlusPlusCollapsesPieces(a: string, p: string, b: string)
    requires a == "c" && p == "++" && b == ""
    ensures WordOrSpace(a) && WordOrSpace(b) && NoEdgeSpace(a + p + b)
    ensures IsCleanForm(a + b) && NoEdgeSpace(a + b) && a + b == "c"
    ensures forall i :: 0 <= i < |p| ==> !IsWordChar(p[i]) && !IsSpace(p[i])
  {
  }

  lemma CPlusPlusCollapsesLower(s: string)
    requires s == "C++"
    ensures Lower(s) == "c" + "++" + ""
  {
    assert Lower(s) == "c++";
  }

  lemma CPlusPlusCollapsesTable(c: string)
    requires c == "c"
    ensures NoHit(Synonyms(), c)
  {
    CPlusPlusCollapsesLanguages(c);
    CPlusPlusCollapsesDataScience(c);
    CPlusPlusCollapsesDatabases(c);
    CPlusPlusCollapsesCloudDevOps(c);
    CPlusPlusCollapsesWebDevelopment(c);
    CPlusPlusCollapsesMobileDevelopment(c);
    CPlusPlusCollapsesSecurity(c);
    CPlusPlusCollapsesUiUx(c);
    CPlusPlusCollapsesSoftSkills(c);
    NoHitConcat(UiUx(), FromSoftSkills(), c);
    NoHitConcat(Security(), FromUiUx(), c);
    NoHitConcat(MobileDevelopment(), FromSecurity(), c);
    NoHitConcat(WebDevelopment(), FromMobileDevelopment(), c);
    NoHitConcat(CloudDevOps(), FromWebDevelopment(), c);
    NoHitConcat(Databases(), FromCloudDevOps(), c);
    NoHitConcat(DataScience(), FromDatabases(), c);
    NoHitConcat(Languages(), FromDataScience(), c);
  }

  lemma CPlusPlusCollapsesLanguages(c: string)
    requires c == "c"
    ensures NoHit(Languages(), c)
  {
  }

  lemma CPlusPlusCollapsesDataScience(c: string)
    requires c == "c"
    ensures NoHit(DataScience(), c)
  {
  }

  lemma CPlusPlusCollapsesDatabases(c: string)
    requires c == "c"
    ensures NoHit(Databases(), c)
  {
  }

  lemma CPlusPlusCollapsesCloudDevOps(c: string)
    requires c == "c"
    ensures NoHit(CloudDevOps(), c)
  {
  }

  lemma CPlusPlusCollapsesWebDevelopment(c: string)
    requires c == "c"
    ensures NoHit(WebDevelopment(), c)
  {
  }

  lemma CPlusPlusCollapsesMobileDevelopment(c: string)
    requires c == "c"
    ensures NoHit(MobileDevelopment(), c)
  {
  }

  lemma CPlusPlusCollapsesSecurity(c: string)
    requires c == "c"
    ensures NoHit(Security(), c)
  {
  }

  lemma CPlusPlusCollapsesUiUx(c: string)
    requires c == "c"
    ensures NoHit(UiUx(), c)
  {
  }

  lemma CPlusPlusCollapsesSoftSkills(c: string)
    requires c == "c"
    ensures NoHit(SoftSkills(), c)
  {
  }

  /** The expectations of test_skill_matching.py, together. */
  lemma TestExpectations()
    ensures Normalize(Synonyms(), "Python") == "python"
    ensures Normalize(Synonyms(), "ML") == "machine learning"
    ensures Normalize(Synonyms(), "Sql") == "sql"
    ensures Normalize(Synonyms(), "Data Visualization") == "data visualization"
    ensures Normalize(Synonyms(), "Pandas") == "pandas"
    ensures Normalize(Synonyms(), "React.js") == "react"
  {
    PythonExpectation();
    MlExpectation();
    SqlExpectation();
    DataVisualizationExpectation();
    PandasExpectation();
    ReactJsExpectation();
  }

  /** Normalisation is not idempotent on the shipped table: a shadowed and a punctuated base key. */
  lemma NotIdempotent()
    ensures Normalize(Synonyms(), Normalize(Synonyms(), "rn mobile")) != Normalize(Synonyms(), "rn mobile")
    ensures Normalize(Synonyms(), Normalize(Synonyms(), "sklearn")) != Normalize(Synonyms(), "sklearn")
  {
    RnMobile();
    ReactNative();
    Sklearn();
    ScikitLearn();
  }

  /** The table breaks the well-formedness condition, at the `c++` key. */
  lemma TableNotWellFormed()
    ensures !WellFormed(Synonyms())
  {
    CPlusPlusAt(Synonyms());
    NotWellFormedAt(Synonyms());
  }

  lemma CPlusPlusAt(t: Table)
    requires t == Synonyms()
    ensures |t| > 4 && t[4] == CPlusPlus()
  {
    assert IsFirstHit(Languages(), "c++", 4);
    FirstHitBefore(Languages(), FromDataScience(), "c++", 4);
  }

  lemma NotWellFormedAt(t: Table)
    requires |t| > 4 && t[4] == CPlusPlus()
    ensures !WellFormed(t)
  {
    PlusIsNotClean(t[4].base);
    UncleanBaseBreaksWellFormed(t, 4);
  }

  lemma PlusIsNotClean(b: string)
    requires b == "c++"
    ensures !IsCleanForm(b)
  {
    assert b[1] == '+';
  }

}
