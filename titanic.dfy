/** The passenger-survival feature transform (`process_titanic_data`): fill
    missing ages, fares and ports of embarkation, derive a title from the
    passenger's name, derive the family size and whether the passenger
    travels alone, label-encode three text columns, scale three numeric
    ones and keep a fixed list of model features. */
module Titanic {
  import opened Wrappers
  import opened Seqs
  import opened Tables
  import opened Frames
  import opened LabelEncoding
  import opened Steps

  // ---------------------------------------------------------------------
  // The title parser: `Name.str.extract(' ([A-Za-z]+)\.')`

  predicate IsAsciiLetter(c: char) {
    'A' <= c <= 'Z' || 'a' <= c <= 'z'
  }

  /** The pattern ` ([A-Za-z]+)\.` matches `s` at position `p` with group
      `t`: a space, then `t`, a non-empty run of ASCII letters, then a dot. */
  ghost predicate MatchesAt(s: string, p: int, t: string) {
    && 0 <= p && p + |t| + 2 <= |s|
    && |t| > 0
    && s[p] == ' '
    && s[p + 1..p + 1 + |t|] == t
    && (forall k | 0 <= k < |t| :: IsAsciiLetter(t[k]))
    && s[p + 1 + |t|] == '.'
  }

  /** The length of the longest run of ASCII letters starting at `j`. */
  function LetterRun(s: string, j: nat): (n: nat)
    requires j <= |s|
    ensures j + n <= |s|
    ensures forall k | j <= k < j + n :: IsAsciiLetter(s[k])
    ensures j + n == |s| || !IsAsciiLetter(s[j + n])
    decreases |s| - j
  {
    if j < |s| && IsAsciiLetter(s[j]) then 1 + LetterRun(s, j + 1) else 0
  }

  /** The regular-expression engine's attempt at position `p`: a space, the
      greedy run of letters after it, then a dot. */
  function TitleAt(s: string, p: nat): (r: Option<string>)
    requires p < |s|
    ensures r.Some? ==> |r.value| > 0
  {
    var n := LetterRun(s, p + 1);
    if s[p] == ' ' && n > 0 && p + 1 + n < |s| && s[p + 1 + n] == '.'
    then Some(s[p + 1..p + 1 + n]) else None
  }

  /** The attempt at `p` succeeds with `t` exactly when the pattern matches
      there with group `t`. The greedy letter run can only be followed by a
      dot when it is the longest run, so backtracking to a shorter run never
      finds another match at the same position. */
  lemma TitleAtSpec(s: string, p: nat, t: string)
    requires p < |s|
    ensures TitleAt(s, p) == Some(t) <==> MatchesAt(s, p, t)
  {
    var n := LetterRun(s, p + 1);
    if MatchesAt(s, p, t) {
      assert |t| == n;
    }
    if TitleAt(s, p) == Some(t) {
      assert forall k | 0 <= k < |t| :: t[k] == s[p + 1 + k];
    }
  }

  /** `re.search`: the first position, from `p` on, at which the pattern
      matches. */
  function SearchFrom(s: string, p: nat): Option<string>
    requires p <= |s|
    decreases |s| - p
  {
    if p == |s| then None
    else match TitleAt(s, p)
      case Some(t) => Some(t)
      case None => SearchFrom(s, p + 1)
  }

  /** The salutation token of a name, or missing when the pattern does not
      occur. */
  function ExtractTitle(name: string): Option<string> {
    SearchFrom(name, 0)
  }

  /** Searching from `from`, the pattern first matches at `p`, with group `t`. */
  ghost predicate FirstMatchFrom(s: string, from: int, p: int, t: string) {
    from <= p && MatchesAt(s, p, t) && forall q, u | from <= q < p :: !MatchesAt(s, q, u)
  }

  /** The pattern matches at `p` with group `t`, and nowhere before `p`. */
  ghost predicate FirstMatch(s: string, p: int, t: string) {
    FirstMatchFrom(s, 0, p, t)
  }

  lemma {:induction false} SearchFromFindsFirst(s: string, p: nat)
    requires p <= |s|
    ensures SearchFrom(s, p).None? ==> forall q, u | p <= q :: !MatchesAt(s, q, u)
    ensures SearchFrom(s, p).Some? ==> exists q :: FirstMatchFrom(s, p, q, SearchFrom(s, p).value)
    decreases |s| - p
  {
    if p < |s| && TitleAt(s, p).None? {
      forall u ensures !MatchesAt(s, p, u) {
        TitleAtSpec(s, p, u);
      }
      SearchFromFindsFirst(s, p + 1);
      if SearchFrom(s, p + 1).Some? {
        var q :| FirstMatchFrom(s, p + 1, q, SearchFrom(s, p + 1).value);
        assert FirstMatchFrom(s, p, q, SearchFrom(s, p).value);
      }
    } else if p < |s| {
      TitleAtSpec(s, p, TitleAt(s, p).value);
      assert FirstMatchFrom(s, p, p, SearchFrom(s, p).value);
    }
  }

  /** The extracted title is exactly the group of the first match of the
      pattern in the name. */
  lemma ExtractTitleIsFirstMatch(name: string, t: string)
    ensures ExtractTitle(name) == Some(t) <==> exists p :: FirstMatch(name, p, t)
  {
    SearchFromFindsFirst(name, 0);
    if ExtractTitle(name).Some? {
      var q :| FirstMatchFrom(name, 0, q, ExtractTitle(name).value);
      assert FirstMatch(name, q, ExtractTitle(name).value);
    }
    if p :| FirstMatch(name, p, t) {
      assert MatchesAt(name, p, t);
      var v := ExtractTitle(name).value;
      var q :| FirstMatchFrom(name, 0, q, v);
      assert p == q;
      TitleAtSpec(name, p, t);
      TitleAtSpec(name, p, v);
    }
  }

  /** The title is missing exactly when the pattern occurs nowhere. */
  lemma ExtractTitleMissing(name: string)
    ensures ExtractTitle(name).None? <==> forall p, u :: !MatchesAt(name, p, u)
  {
    SearchFromFindsFirst(name, 0);
  }

  /** "Braund, Mr. Owen Harris" has the title "Mr". */
  lemma ExtractTitleExample()
    ensures ExtractTitle("Braund, Mr. Owen Harris") == Some("Mr")
  {
    var s := "Braund, Mr. Owen Harris";
    assert s[8..10] == "Mr";
    assert MatchesAt(s, 7, "Mr");
    assert forall q, u | 0 <= q < 7 :: !MatchesAt(s, q, u) by {
      forall q, u | 0 <= q < 7 ensures !MatchesAt(s, q, u) {
        assert s[q] != ' ';
      }
    }
    assert FirstMatch(s, 7, "Mr");
    ExtractTitleIsFirstMatch(s, "Mr");
  }

  // ---------------------------------------------------------------------
  // The title mapping

  const TitleMapping: map<string, string> := map[
    "Mr" := "Mr", "Miss" := "Miss", "Mrs" := "Mrs", "Master" := "Master",
    "Dr" := "Other", "Rev" := "Other", "Col" := "Other", "Major" := "Other",
    "Mlle" := "Miss", "Countess" := "Other", "Ms" := "Miss", "Lady" := "Other",
    "Jonkheer" := "Other", "Don" := "Other", "Dona" := "Other", "Mme" := "Mrs",
    "Capt" := "Other", "Sir" := "Other"]

  const CanonicalTitles: set<string> := {"Mr", "Miss", "Mrs", "Master", "Other"}

  const RareTitles: set<string> :=
    {"Dr", "Rev", "Col", "Major", "Countess", "Lady", "Jonkheer", "Don", "Dona", "Capt", "Sir"}

  /** `Series.map(title_mapping)` on one cell: a token outside the table,
      like a missing token, gives a missing title. */
  function MapTitle(token: Option<string>): (r: Option<string>)
    ensures r.Some? <==> token.Some? && token.value in TitleMapping
    ensures r.Some? ==> r.value in CanonicalTitles
  {
    match token
    case Some(t) => if t in TitleMapping then Some(TitleMapping[t]) else None
    case None => None
  }

  /** The keys of the mapping: the four common titles, their three French
      or abbreviated variants, and the eleven rare titles. */
  lemma TitleMappingKeys()
    ensures TitleMapping.Keys == RareTitles + {"Mr", "Miss", "Mrs", "Master", "Mlle", "Ms", "Mme"}
  {
  }

  /** The mapping is onto the five canonical titles. */
  lemma TitleMappingValues()
    ensures TitleMapping.Values == CanonicalTitles
  {
    assert TitleMapping["Mr"] == "Mr" && TitleMapping["Miss"] == "Miss";
    assert TitleMapping["Mrs"] == "Mrs" && TitleMapping["Master"] == "Master";
    assert TitleMapping["Dr"] == "Other";
  }

  /** Exactly the rare titles become "Other". */
  lemma TitleMappingOther()
    ensures forall k | k in TitleMapping :: TitleMapping[k] == "Other" <==> k in RareTitles
  {
    RareTitlesToOther();
    OnlyRareTitlesToOther();
  }

  lemma RareTitlesToOther()
    ensures forall k | k in RareTitles :: k in TitleMapping && TitleMapping[k] == "Other"
  {
  }

  lemma OnlyRareTitlesToOther()
    ensures forall k | k in TitleMapping && k !in RareTitles :: TitleMapping[k] != "Other"
  {
  }

  /** The French and abbreviated variants keep their meaning. */
  lemma TitleMappingVariants()
    ensures TitleMapping["Mlle"] == "Miss" && TitleMapping["Ms"] == "Miss" && TitleMapping["Mme"] == "Mrs"
  {
  }

  /** The four common titles map to themselves. */
  lemma TitleMappingCommon()
    ensures forall k | k in CanonicalTitles - {"Other"} :: k in TitleMapping && TitleMapping[k] == k
  {
  }

  /** The `Title` cell derived from a `Name` cell (a missing name gives a
      missing title). */
  function TitleOf(name: Option<string>): Option<string> {
    match name
    case None => None
    case Some(s) => MapTitle(ExtractTitle(s))
  }

  function TitleColumn(names: seq<Option<string>>): (r: seq<Option<string>>)
    ensures |r| == |names|
    ensures forall i | 0 <= i < |names| :: r[i] == TitleOf(names[i])
  {
    seq(|names|, i requires 0 <= i < |names| => TitleOf(names[i]))
  }

  /** `df['Name'].str...`: the `.str` accessor needs a text column. */
  function TitleColumnOf(name: Column): (r: Result<Column, Error>)
    ensures r.Ok? <==> name.CatCol?
    ensures r.Ok? ==> r.value == CatCol(TitleColumn(name.cats))
  {
    match name
    case NumCol(_) => Err(NotText("Name"))
    case CatCol(xs) => Ok(CatCol(TitleColumn(xs)))
  }

  // ---------------------------------------------------------------------
  // Family features

  /** `SibSp + Parch + 1` for one row; a missing count gives a missing size.
      With non-negative counts the size is at least one. */
  function FamilySizeOf(sibsp: Option<real>, parch: Option<real>): (r: Option<real>)
    ensures r.Some? <==> sibsp.Some? && parch.Some?
    ensures r.Some? ==> r.value - 1.0 == sibsp.value + parch.value
    ensures r.Some? && sibsp.value >= 0.0 && parch.value >= 0.0 ==> r.value >= 1.0
  {
    if sibsp.Some? && parch.Some? then Some(sibsp.value + parch.value + 1.0) else None
  }

  /** `(FamilySize == 1).astype(int)` for one row: 1 exactly when the family
      size is one, else 0 (a missing size compares unequal). */
  function IsAloneOf(size: Option<real>): (r: real)
    ensures r == 1.0 <==> size == Some(1.0)
    ensures r == 0.0 <==> size != Some(1.0)
  {
    if size == Some(1.0) then 1.0 else 0.0
  }

  function FamilySizeColumn(sibsp: seq<Option<real>>, parch: seq<Option<real>>): (r: seq<Option<real>>)
    requires |sibsp| == |parch|
    ensures |r| == |sibsp|
    ensures forall i | 0 <= i < |r| :: r[i] == FamilySizeOf(sibsp[i], parch[i])
  {
    seq(|sibsp|, i requires 0 <= i < |sibsp| => FamilySizeOf(sibsp[i], parch[i]))
  }

  function IsAloneColumn(size: seq<Option<real>>): (r: seq<Option<real>>)
    ensures |r| == |size| && NoneMissing(r)
    ensures forall i | 0 <= i < |r| :: r[i] == Some(IsAloneOf(size[i]))
  {
    seq(|size|, i requires 0 <= i < |size| => Some(IsAloneOf(size[i])))
  }

  /** `df['SibSp'] + df['Parch'] + 1`: adding a text column raises. */
  function FamilySizeColumnOf(sibsp: Column, parch: Column): (r: Result<seq<Option<real>>, Error>)
    requires sibsp.Length() == parch.Length()
    ensures r.Ok? <==> sibsp.NumCol? && parch.NumCol?
    ensures r.Ok? ==> r.value == FamilySizeColumn(sibsp.nums, parch.nums)
  {
    if sibsp.CatCol? then Err(NotNumeric("SibSp"))
    else if parch.CatCol? then Err(NotNumeric("Parch"))
    else Ok(FamilySizeColumn(sibsp.nums, parch.nums))
  }

  // ---------------------------------------------------------------------
  // Imputation

  /** `s.fillna(s.median())` with the median taken as given. pandas' median
      of a column with no value is NaN, and filling with NaN changes
      nothing; a text column has no median. */
  function MedianFilled(c: Column, n: string, stats: Stats): (r: Result<Column, Error>)
    ensures r.Ok? <==> c.NumCol?
    ensures r.Ok? ==> r.value.NumCol? && r.value.Length() == c.Length()
    ensures r.Ok? && c.HasValue() ==> r.value.Complete()
    ensures r.Ok? ==> forall i | 0 <= i < |c.nums| && c.nums[i].Some? :: r.value.nums[i] == c.nums[i]
    ensures r.Ok? && c.HasValue() ==>
      forall i | 0 <= i < |c.nums| && c.nums[i].None? :: r.value.nums[i] == Some(stats.median(n))
  {
    match c
    case CatCol(_) => Err(NotNumeric(n))
    case NumCol(xs) => Ok(NumCol(if AnyPresent(xs) then FillNa(xs, stats.median(n)) else xs))
  }

  /** `s.fillna(s.mode()[0])` with the mode taken as given. The mode of a
      column with no value is empty, so taking its first element raises. */
  function ModeFilled(c: Column, n: string, stats: Stats): (r: Result<Column, Error>)
    ensures r.Ok? <==> c.HasValue()
    ensures r.Ok? ==> r.value.Kind() == c.Kind() && r.value.Length() == c.Length() && r.value.Complete()
    ensures r.Ok? ==> forall i | 0 <= i < c.Length() && c.Cells()[i] != Missing :: r.value.Cells()[i] == c.Cells()[i]
  {
    if !c.HasValue() then Err(EmptyMode(n))
    else match c
      case NumCol(xs) => Ok(NumCol(FillNa(xs, stats.numberMode(n))))
      case CatCol(xs) => Ok(CatCol(FillNa(xs, stats.textMode(n))))
  }

  // ---------------------------------------------------------------------
  // The transform as a whole, column by column

  const EncodedFeatures: seq<string> := ["Sex", "Embarked", "Title"]
  const ScaledFeatures: seq<string> := ["Age", "Fare", "FamilySize"]
  const ModelFeatures: seq<string> :=
    ["Pclass", "Sex", "Age", "SibSp", "Parch", "Fare", "Embarked", "Title", "FamilySize", "IsAlone"]

  lemma EncodedFeaturesDistinct()
    ensures NoDuplicates(EncodedFeatures)
  {
    DistinctElements(EncodedFeatures);
  }

  lemma ScaledFeaturesDistinct()
    ensures NoDuplicates(ScaledFeatures)
  {
    DistinctElements(ScaledFeatures);
  }

  lemma ModelFeaturesDistinct()
    ensures NoDuplicates(ModelFeatures)
  {
    DistinctByShape(ModelFeatures);
  }

  lemma SurvivedNotModelFeature()
    ensures "Survived" !in ModelFeatures
  {
  }

  /** The selected features: the ten model features, then `Survived` when
      the table has it. */
  function OutputFeatures(t: Table): seq<string> {
    if "Survived" in t.cols then ModelFeatures + ["Survived"] else ModelFeatures
  }

  lemma SurvivedNotDerived()
    ensures "Survived" !in DerivedFeatures
  {
  }

  lemma OutputFeaturesDistinct(t: Table)
    ensures NoDuplicates(OutputFeatures(t))
  {
    ModelFeaturesDistinct();
    SurvivedNotModelFeature();
    AppendNoDuplicates(ModelFeatures, ["Survived"]);
  }

  /** What lines 22-24 need: numeric ages and fares, and at least one port
      of embarkation to take the mode of. */
  predicate Fillable(t: Table) {
    && "Age" in t.cols && t.cols["Age"].NumCol?
    && "Embarked" in t.cols && t.cols["Embarked"].HasValue()
    && "Fare" in t.cols && t.cols["Fare"].NumCol?
  }

  /** The first failure of lines 22-24, in the order the source evaluates
      them. */
  function FillError(t: Table): Error {
    if "Age" !in t.cols then MissingColumn("Age")
    else if t.cols["Age"].CatCol? then NotNumeric("Age")
    else if "Embarked" !in t.cols then MissingColumn("Embarked")
    else if !t.cols["Embarked"].HasValue() then EmptyMode("Embarked")
    else if "Fare" !in t.cols then MissingColumn("Fare")
    else NotNumeric("Fare")
  }

  /** What lines 22-54 need: the columns filled and the columns the derived
      features are computed from, of the kind each computation needs. */
  predicate Preparable(raw: Table) {
    && Fillable(raw)
    && "Name" in raw.cols && raw.cols["Name"].CatCol?
    && "SibSp" in raw.cols && raw.cols["SibSp"].NumCol?
    && "Parch" in raw.cols && raw.cols["Parch"].NumCol?
  }

  /** The first failure of lines 22-54. */
  function PrepareError(raw: Table): Error {
    if !Fillable(raw) then FillError(raw)
    else if "Name" !in raw.cols then MissingColumn("Name")
    else if raw.cols["Name"].NumCol? then NotText("Name")
    else if "SibSp" !in raw.cols then MissingColumn("SibSp")
    else if "Parch" !in raw.cols then MissingColumn("Parch")
    else if raw.cols["SibSp"].CatCol? then NotNumeric("SibSp")
    else NotNumeric("Parch")
  }

  /** What the whole transform needs of the raw table: besides the above,
      a `Sex` column to encode and a `Pclass` column to select. */
  predicate TitanicAccepts(raw: Table) {
    Preparable(raw) && "Sex" in raw.cols && "Pclass" in raw.cols
  }

  /** The exception the transform raises first on a table it does not
      accept. */
  function TitanicError(raw: Table): Error {
    if !Preparable(raw) then PrepareError(raw)
    else if "Sex" !in raw.cols then MissingColumn("Sex")
    else MissingColumn("Pclass")
  }

  /** Line 22: the ages after filling. */
  function AgeFilled(raw: Table, stats: Stats): seq<Option<real>>
    requires Fillable(raw)
  {
    MedianFilled(raw.cols["Age"], "Age", stats).value.nums
  }

  /** Line 23: the ports of embarkation after filling. */
  function EmbarkedFilled(raw: Table, stats: Stats): Column
    requires Fillable(raw)
  {
    ModeFilled(raw.cols["Embarked"], "Embarked", stats).value
  }

  /** Line 24: the fares after filling. */
  function FareFilled(raw: Table, stats: Stats): seq<Option<real>>
    requires Fillable(raw)
  {
    MedianFilled(raw.cols["Fare"], "Fare", stats).value.nums
  }

  /** The table after lines 22-24: the three columns replaced where they
      stand. */
  function Filled(t: Table, stats: Stats): (r: Table)
    requires t.Valid() && Fillable(t)
    ensures r.Valid() && r.names == t.names && r.height == t.height
  {
    Table(t.names,
          t.cols["Age" := NumCol(AgeFilled(t, stats))]["Embarked" := EmbarkedFilled(t, stats)]["Fare" := NumCol(FareFilled(t, stats))],
          t.height)
  }

  /** Lines 27-48: the titles. */
  function Titles(t: Table): seq<Option<string>>
    requires "Name" in t.cols && t.cols["Name"].CatCol?
  {
    TitleColumn(t.cols["Name"].cats)
  }

  /** The table after lines 27-48. */
  function WithTitle(t: Table): (r: Table)
    requires t.Valid() && "Name" in t.cols && t.cols["Name"].CatCol?
  {
    SetColumn(t, "Title", CatCol(Titles(t)))
  }

  /** Line 51: the family sizes, before scaling. */
  function FamilySizes(t: Table): seq<Option<real>>
    requires t.Valid()
    requires "SibSp" in t.cols && t.cols["SibSp"].NumCol? && "Parch" in t.cols && t.cols["Parch"].NumCol?
  {
    FamilySizeColumn(t.cols["SibSp"].nums, t.cols["Parch"].nums)
  }

  /** The table after lines 51-54. */
  function WithFamilyFeatures(t: Table): (r: Table)
    requires t.Valid()
    requires "SibSp" in t.cols && t.cols["SibSp"].NumCol? && "Parch" in t.cols && t.cols["Parch"].NumCol?
  {
    var size := FamilySizes(t);
    SetColumn(SetColumn(t, "FamilySize", NumCol(size)), "IsAlone", NumCol(IsAloneColumn(size)))
  }

  /** The first failure of lines 51-54. */
  function FamilyError(t: Table): Error {
    if "SibSp" !in t.cols then MissingColumn("SibSp")
    else if "Parch" !in t.cols then MissingColumn("Parch")
    else if t.cols["SibSp"].CatCol? then NotNumeric("SibSp")
    else NotNumeric("Parch")
  }

  /** The names the transform adds to the table. */
  const DerivedFeatures: set<string> := {"Title", "FamilySize", "IsAlone"}

  /** Column `n` after lines 22-54: a filled column replaces its
      original, a derived one is computed, any other is kept. */
  function PreparedColumn(raw: Table, stats: Stats, n: string): (r: Column)
    requires raw.Valid() && Preparable(raw) && (n in raw.cols || n in DerivedFeatures)
    ensures r.Length() == raw.height
  {
    assert raw.cols["SibSp"].Length() == raw.height;
    if n == "Age" then NumCol(AgeFilled(raw, stats))
    else if n == "Embarked" then EmbarkedFilled(raw, stats)
    else if n == "Fare" then NumCol(FareFilled(raw, stats))
    else if n == "Title" then (assert raw.cols["Name"].Length() == raw.height; CatCol(Titles(raw)))
    else if n == "FamilySize" then NumCol(FamilySizes(raw))
    else if n == "IsAlone" then NumCol(IsAloneColumn(FamilySizes(raw)))
    else (assert raw.cols[n].Length() == raw.height; raw.cols[n])
  }

  /** The columns after lines 22-54. */
  function PreparedCols(raw: Table, stats: Stats): (r: map<string, Column>)
    requires raw.Valid() && Preparable(raw)
    ensures r.Keys == raw.cols.Keys + DerivedFeatures
  {
    map n | n in raw.cols.Keys + DerivedFeatures :: PreparedColumn(raw, stats, n)
  }

  /** The column names after lines 22-54: the derived names are appended
      in order unless the table had them. */
  function PreparedNames(raw: Table): (r: seq<string>)
    requires raw.Valid()
    ensures NoDuplicates(r)
    ensures forall n :: n in r <==> n in raw.cols || n in DerivedFeatures
  {
    AddName(AddName(AddName(raw.names, "Title"), "FamilySize"), "IsAlone")
  }

  /** The table after lines 22-54. */
  function Prepared(raw: Table, stats: Stats): (r: Table)
    requires raw.Valid() && Preparable(raw)
    ensures r.Valid() && r.height == raw.height
  {
    Table(PreparedNames(raw), PreparedCols(raw, stats), raw.height)
  }

  /** The steps of lines 22-54, one after the other, leave the prepared
      table. */
  lemma PreparedBySteps(raw: Table, stats: Stats)
    requires raw.Valid() && Preparable(raw)
    ensures WithFamilyFeatures(WithTitle(Filled(raw, stats))) == Prepared(raw, stats)
  {
    var t1 := Filled(raw, stats);
    assert t1.cols["Name"] == raw.cols["Name"];
    var t2 := WithTitle(t1);
    assert t2.cols["SibSp"] == raw.cols["SibSp"] && t2.cols["Parch"] == raw.cols["Parch"];
    var t3 := WithFamilyFeatures(t2);
    assert t3.names == PreparedNames(raw);
    StepsColumns(raw, stats, t3);
  }

  /** Column by column, the steps leave the prepared columns. */
  lemma StepsColumns(raw: Table, stats: Stats, t3: Table)
    requires raw.Valid() && Preparable(raw)
    requires t3.cols == raw.cols["Age" := NumCol(AgeFilled(raw, stats))]["Embarked" := EmbarkedFilled(raw, stats)]
      ["Fare" := NumCol(FareFilled(raw, stats))]["Title" := CatCol(Titles(raw))]
      ["FamilySize" := NumCol(FamilySizes(raw))]["IsAlone" := NumCol(IsAloneColumn(FamilySizes(raw)))]
    ensures t3.cols == PreparedCols(raw, stats)
  {
    forall n | n in t3.cols ensures t3.cols[n] == PreparedColumn(raw, stats, n) {
    }
  }

  /** A table with a value in its `Embarked` column is one row high at
      least. */
  lemma FillableHasRows(t: Table)
    requires t.Valid() && Fillable(t)
    ensures t.height > 0
  {
    var xs := t.cols["Embarked"];
    assert xs.Length() > 0;
  }

  /** The columns to be scaled are numeric once prepared. */
  lemma PreparedScaledNumeric(raw: Table, stats: Stats)
    requires raw.Valid() && Preparable(raw)
    ensures forall n | n in ScaledFeatures :: n in PreparedCols(raw, stats) && PreparedCols(raw, stats)[n].NumCol?
  {
  }

  /** Every selected feature is a column of the prepared table. */
  lemma OutputFeaturesAvailable(raw: Table, stats: Stats)
    requires raw.Valid() && TitanicAccepts(raw)
    ensures forall n | n in OutputFeatures(raw) :: n in PreparedCols(raw, stats)
  {
    forall n | n in OutputFeatures(raw) ensures n in raw.cols.Keys + DerivedFeatures {
      if n != "Survived" {
        ModelFeatureNames(n);
      }
    }
  }

  lemma ModelFeatureNames(n: string)
    requires n in ModelFeatures
    ensures n in {"Pclass", "Sex", "Age", "SibSp", "Parch", "Fare", "Embarked", "Title", "FamilySize", "IsAlone"}
  {
  }

  /** The selected table (line 77): each feature as prepared, then
      label-encoded (lines 57-59) or standardized (lines 62-64) when it is
      listed for that. */
  function TitanicOutput(raw: Table, stats: Stats): Table
    requires raw.Valid() && TitanicAccepts(raw)
  {
    OutputFeaturesAvailable(raw, stats);
    PreparedScaledNumeric(raw, stats);
    EncodedScaledTable(PreparedCols(raw, stats), OutputFeatures(raw), EncodedFeatures, ScaledFeatures, stats, raw.height)
  }

  /** `process_titanic_data` up to the split, as a whole. */
  function TitanicTransform(raw: Table, stats: Stats): Result<Processed, Error>
    requires raw.Valid()
  {
    if !TitanicAccepts(raw) then Err(TitanicError(raw))
    else
      var out := TitanicOutput(raw, stats);
      Ok(Processed(out, DestinationFor(out, "Survived")))
  }

  // ---------------------------------------------------------------------
  // The transform, step by step on a frame

  /** Lines 22-24, run on the frame. */
  method FillMissingInPlace(df: Frame, stats: Stats) returns (r: Result<Table, Error>)
    requires df.View().Valid()
    modifies df
    ensures r.Ok? <==> Fillable(old(df.View()))
    ensures r.Err? ==> r.error == FillError(old(df.View()))
    ensures r.Ok? ==> r.value == df.View() == Filled(old(df.View()), stats)
  {
    var age :- df.Get("Age");
    var age' :- MedianFilled(age, "Age", stats);
    df.Set("Age", age');
    var embarked :- df.Get("Embarked");
    var embarked' :- ModeFilled(embarked, "Embarked", stats);
    df.Set("Embarked", embarked');
    var fare :- df.Get("Fare");
    var fare' :- MedianFilled(fare, "Fare", stats);
    df.Set("Fare", fare');
    r := Ok(df.View());
  }

  /** Lines 27-48, run on the frame. */
  method AddTitleInPlace(df: Frame) returns (r: Result<Table, Error>)
    requires df.View().Valid()
    modifies df
    ensures r.Ok? <==> "Name" in old(df.View()).cols && old(df.View()).cols["Name"].CatCol?
    ensures r.Err? ==> r.error == if "Name" in old(df.View()).cols then NotText("Name") else MissingColumn("Name")
    ensures r.Ok? ==> r.value == df.View() == WithTitle(old(df.View()))
  {
    var name :- df.Get("Name");
    var title :- TitleColumnOf(name);
    df.Set("Title", title);
    r := Ok(df.View());
  }

  /** Lines 51-54, run on the frame. */
  method AddFamilyFeaturesInPlace(df: Frame) returns (r: Result<Table, Error>)
    requires df.View().Valid()
    modifies df
    ensures r.Ok? <==>
      "SibSp" in old(df.View()).cols && old(df.View()).cols["SibSp"].NumCol? &&
      "Parch" in old(df.View()).cols && old(df.View()).cols["Parch"].NumCol?
    ensures r.Err? ==> r.error == FamilyError(old(df.View()))
    ensures r.Ok? ==> r.value == df.View() == WithFamilyFeatures(old(df.View()))
  {
    var sibsp :- df.Get("SibSp");
    var parch :- df.Get("Parch");
    var size :- FamilySizeColumnOf(sibsp, parch);
    df.Set("FamilySize", NumCol(size));
    df.Set("IsAlone", NumCol(IsAloneColumn(size)));
    r := Ok(df.View());
  }

  /** Lines 22-54, run on the frame. */
  method PrepareInPlace(df: Frame, stats: Stats) returns (r: Result<Table, Error>)
    requires df.View().Valid()
    modifies df
    ensures r.Ok? <==> Preparable(old(df.View()))
    ensures r.Err? ==> r.error == PrepareError(old(df.View()))
    ensures r.Ok? ==> r.value == df.View() == Prepared(old(df.View()), stats)
  {
    ghost var raw := df.View();
    var t1 :- FillMissingInPlace(df, stats);
    FillKeeps(raw, stats);
    var t2 :- AddTitleInPlace(df);
    TitleKeeps(t1);
    assert SameColumn(t2, raw, "SibSp") && SameColumn(t2, raw, "Parch");
    r := AddFamilyFeaturesInPlace(df);
    if r.Ok? {
      PreparedBySteps(raw, stats);
    }
  }

  /** Two tables agree on column `n`: both lack it or both hold it alike. */
  predicate SameColumn(a: Table, b: Table, n: string) {
    && (n in a.cols <==> n in b.cols)
    && (n in a.cols ==> a.cols[n] == b.cols[n])
  }

  /** Filling leaves the name and the family counts alone. */
  lemma FillKeeps(raw: Table, stats: Stats)
    requires raw.Valid() && Fillable(raw)
    ensures SameColumn(Filled(raw, stats), raw, "Name")
    ensures SameColumn(Filled(raw, stats), raw, "SibSp") && SameColumn(Filled(raw, stats), raw, "Parch")
  {
  }

  /** Adding the title leaves the family counts alone. */
  lemma TitleKeeps(t: Table)
    requires t.Valid() && "Name" in t.cols && t.cols["Name"].CatCol?
    ensures SameColumn(WithTitle(t), t, "SibSp") && SameColumn(WithTitle(t), t, "Parch")
  {
  }

  /** Once the steps before it have passed, the selection of line 77 can
      only miss `Pclass`. */
  lemma SelectionMissesOnlyPclass(raw: Table, t: Table)
    requires "Sex" in raw.cols && Preparable(raw)
    requires t.cols.Keys == raw.cols.Keys + DerivedFeatures
    ensures (forall n | n in OutputFeatures(raw) :: n in t.cols) <==> "Pclass" in raw.cols
    ensures "Pclass" !in raw.cols ==> FirstAbsent(t, OutputFeatures(raw)) == "Pclass"
  {
    var fs := OutputFeatures(raw);
    if "Pclass" in raw.cols {
      forall n | n in fs ensures n in t.cols {
        if n != "Survived" {
          ModelFeatureNames(n);
        }
      }
    } else {
      assert fs[0] == "Pclass" && fs[0] in fs;
    }
  }

  /** Lines 57-77 on the prepared frame: encode, scale, then select the
      features; a missing `Sex` or `Pclass` column raises KeyError. */
  method EncodeScaleSelect(df: Frame, ghost raw: Table, ghost p: map<string, Column>, stats: Stats) returns (r: Result<Table, Error>)
    requires raw.Valid() && Preparable(raw)
    requires df.View().Valid() && df.height == raw.height && df.cols == p
    requires p.Keys == raw.cols.Keys + DerivedFeatures
    requires forall n | n in ScaledFeatures :: n in p && p[n].NumCol?
    modifies df
    ensures r.Ok? <==> TitanicAccepts(raw)
    ensures r.Err? ==> r.error == MissingColumn(if "Sex" in raw.cols then "Pclass" else "Sex")
    ensures r.Ok? ==> Selectable(p, OutputFeatures(raw), EncodedFeatures, ScaledFeatures)
    ensures r.Ok? ==> r.value == EncodedScaledTable(p, OutputFeatures(raw), EncodedFeatures, ScaledFeatures, stats, raw.height)
  {
    EncodedFeaturesDistinct();
    ScaledFeaturesDistinct();
    FillableHasRows(raw);
    EncodingMissesOnlySex(df.View(), raw);
    var t5 :- EncodeScaleInPlace(df, EncodedFeatures, ScaledFeatures, stats);
    r := SelectOutput(df, raw, p, stats);
  }

  /** Once the steps before it have passed, the encoding loop can only miss
      `Sex`. */
  lemma EncodingMissesOnlySex(t: Table, raw: Table)
    requires Preparable(raw) && t.cols.Keys == raw.cols.Keys + DerivedFeatures
    ensures (forall n | n in EncodedFeatures :: n in t.cols) <==> "Sex" in raw.cols
    ensures "Sex" !in raw.cols ==> (exists n | n in EncodedFeatures :: n !in t.cols) && FirstAbsent(t, EncodedFeatures) == "Sex"
  {
    assert EncodedFeatures[0] == "Sex" && "Sex" !in DerivedFeatures;
    assert "Embarked" in t.cols && "Title" in t.cols;
    if "Sex" in raw.cols {
      forall n | n in EncodedFeatures ensures n in t.cols {
        assert n == "Sex" || n == "Embarked" || n == "Title";
      }
    } else {
      assert "Sex" in EncodedFeatures && "Sex" !in t.cols;
    }
  }

  /** Line 77 on the encoded and scaled frame: the model features, then
      `Survived` when the frame has it. */
  method SelectOutput(df: Frame, ghost raw: Table, ghost p: map<string, Column>, stats: Stats) returns (r: Result<Table, Error>)
    requires "Sex" in raw.cols && Preparable(raw)
    requires df.View().Valid() && df.height == raw.height
    requires df.cols.Keys == p.Keys == raw.cols.Keys + DerivedFeatures
    requires forall n | n in ScaledFeatures :: n in p && p[n].NumCol?
    requires forall n | n in p :: df.cols[n] == EncodedScaled(p[n], n, EncodedFeatures, ScaledFeatures, stats)
    ensures r.Ok? <==> "Pclass" in raw.cols
    ensures r.Err? ==> r.error == MissingColumn("Pclass")
    ensures r.Ok? ==> Selectable(p, OutputFeatures(raw), EncodedFeatures, ScaledFeatures)
    ensures r.Ok? ==> r.value == EncodedScaledTable(p, OutputFeatures(raw), EncodedFeatures, ScaledFeatures, stats, raw.height)
  {
    SurvivedNotDerived();
    assert "Survived" in df.cols <==> "Survived" in raw.cols;
    var features := ModelFeatures;
    if "Survived" in df.cols {
      features := features + ["Survived"];
    }
    assert features == OutputFeatures(raw);
    OutputFeaturesDistinct(raw);
    SelectedOutput(df.View(), raw, p, stats);
    r := df.Select(features);
  }

  /** Line 77 on the encoded and scaled table. */
  lemma SelectedOutput(t: Table, raw: Table, p: map<string, Column>, stats: Stats)
    requires "Sex" in raw.cols && Preparable(raw)
    requires t.Valid() && t.height == raw.height
    requires t.cols.Keys == p.Keys == raw.cols.Keys + DerivedFeatures
    requires forall n | n in ScaledFeatures :: n in p && p[n].NumCol?
    requires forall n | n in p :: t.cols[n] == EncodedScaled(p[n], n, EncodedFeatures, ScaledFeatures, stats)
    ensures NoDuplicates(OutputFeatures(raw))
    ensures var r := SelectColumns(t, OutputFeatures(raw));
      && (r.Ok? <==> "Pclass" in raw.cols)
      && (r.Err? ==> r.error == MissingColumn("Pclass"))
      && (r.Ok? ==> Selectable(p, OutputFeatures(raw), EncodedFeatures, ScaledFeatures))
      && (r.Ok? ==> r.value == EncodedScaledTable(p, OutputFeatures(raw), EncodedFeatures, ScaledFeatures, stats, raw.height))
  {
    var features := OutputFeatures(raw);
    OutputFeaturesDistinct(raw);
    SelectionMissesOnlyPclass(raw, t);
    if "Pclass" in raw.cols {
      SelectEncodedScaled(t, features, p, EncodedFeatures, ScaledFeatures, stats);
    }
  }

  /** `process_titanic_data` up to the split: reads the raw table into a
      frame, edits it in place step by step and returns what is written. */
  method ProcessTitanic(raw: Table, stats: Stats) returns (r: Result<Processed, Error>)
    requires raw.Valid()
    ensures r == TitanicTransform(raw, stats)
  {
    var df := new Frame(raw);
    var t3 :- PrepareInPlace(df, stats);
    PreparedScaledNumeric(raw, stats);
    var out :- EncodeScaleSelect(df, raw, PreparedCols(raw, stats), stats);
    r := Ok(Processed(out, DestinationFor(out, "Survived")));
  }
}
