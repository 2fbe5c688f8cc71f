/** What `process_titanic_data` promises about the table it writes, proved
    on the closed form `Titanic.TitanicTransform` (which `ProcessTitanic`
    computes step by step). */
module TitanicFacts {
  import opened Wrappers
  import opened Seqs
  import opened Tables
  import opened LabelEncoding
  import opened Steps
  import opened Titanic

  /** The transform fails exactly on the tables it does not accept, with
      the first exception the source raises; otherwise it writes one row per
      passenger, the ten model features in order and `Survived` last when
      the input has it, and splits exactly when `Survived` is there. */
  lemma TitanicTransformResult(raw: Table, stats: Stats)
    requires raw.Valid()
    ensures TitanicTransform(raw, stats).Ok? <==> TitanicAccepts(raw)
    ensures TitanicTransform(raw, stats).Err? ==> TitanicTransform(raw, stats).error == TitanicError(raw)
    ensures TitanicTransform(raw, stats).Ok? ==>
      var out := TitanicTransform(raw, stats).value;
      && out.table.Valid() && out.table.height == raw.height
      && out.table.names == (if "Survived" in raw.cols then ModelFeatures + ["Survived"] else ModelFeatures)
      && (out.destination == TrainValidationSplit <==> "Survived" in raw.cols)
  {
    if TitanicAccepts(raw) {
      var p := PreparedCols(raw, stats);
      OutputFeaturesDistinct(raw);
      OutputFeaturesAvailable(raw, stats);
      PreparedScaledNumeric(raw, stats);
      EncodedScaledTableValid(p, OutputFeatures(raw), EncodedFeatures, ScaledFeatures, stats, raw.height);
      var out := TitanicOutput(raw, stats);
      assert "Survived" in raw.cols <==> "Survived" in OutputFeatures(raw) by {
        SurvivedNotModelFeature();
      }
    }
  }

  /** Every selected column is the prepared column, encoded and then scaled
      as listed. */
  lemma OutputColumn(raw: Table, stats: Stats, n: string)
    requires raw.Valid() && TitanicAccepts(raw) && n in OutputFeatures(raw)
    ensures n in raw.cols || n in DerivedFeatures
    ensures n in ScaledFeatures && n !in EncodedFeatures ==> PreparedColumn(raw, stats, n).NumCol?
    ensures n in TitanicOutput(raw, stats).cols
    ensures TitanicOutput(raw, stats).cols[n] ==
      EncodedScaled(PreparedColumn(raw, stats, n), n, EncodedFeatures, ScaledFeatures, stats)
  {
    OutputFeaturesAvailable(raw, stats);
    PreparedScaledNumeric(raw, stats);
  }

  /** The ten model features are always selected. */
  lemma ModelFeatureSelected(raw: Table, n: string)
    requires n in {"Pclass", "Sex", "Age", "SibSp", "Parch", "Fare", "Embarked", "Title", "FamilySize", "IsAlone"}
    ensures n in OutputFeatures(raw)
  {
  }

  // ---------------------------------------------------------------------
  // Columns written as read

  /** A selected column that is neither filled, derived, encoded nor
      scaled (`Pclass`, `SibSp`, `Parch` and, when present, `Survived`) is
      written as read. */
  lemma KeptColumn(raw: Table, stats: Stats, n: string)
    requires raw.Valid() && TitanicAccepts(raw)
    requires n in {"Pclass", "SibSp", "Parch"} || (n == "Survived" && n in raw.cols)
    ensures n in TitanicOutput(raw, stats).cols && TitanicOutput(raw, stats).cols[n] == raw.cols[n]
  {
    KeptName(raw, n);
    OutputColumn(raw, stats, n);
    KeptUnchanged(raw, stats, n);
  }

  lemma KeptName(raw: Table, n: string)
    requires n in {"Pclass", "SibSp", "Parch"} || (n == "Survived" && n in raw.cols)
    ensures n in OutputFeatures(raw)
    ensures n !in ["Age", "Embarked", "Fare", "Title", "FamilySize", "IsAlone"]
    ensures n !in EncodedFeatures && n !in ScaledFeatures
  {
  }

  lemma KeptUnchanged(raw: Table, stats: Stats, n: string)
    requires raw.Valid() && Preparable(raw) && n in raw.cols
    requires n !in ["Age", "Embarked", "Fare", "Title", "FamilySize", "IsAlone"]
    requires n !in EncodedFeatures && n !in ScaledFeatures
    ensures EncodedScaled(PreparedColumn(raw, stats, n), n, EncodedFeatures, ScaledFeatures, stats) == raw.cols[n]
  {
  }

  // ---------------------------------------------------------------------
  // The family features

  lemma PreparedIsAlone(raw: Table, stats: Stats)
    requires raw.Valid() && Preparable(raw)
    ensures EncodedScaled(PreparedColumn(raw, stats, "IsAlone"), "IsAlone", EncodedFeatures, ScaledFeatures, stats)
      == NumCol(IsAloneColumn(FamilySizes(raw)))
  {
  }

  lemma PreparedFamilySize(raw: Table, stats: Stats)
    requires raw.Valid() && Preparable(raw)
    ensures EncodedScaled(PreparedColumn(raw, stats, "FamilySize"), "FamilySize", EncodedFeatures, ScaledFeatures, stats)
      == NumCol(Standardize(FamilySizes(raw), stats.moments("FamilySize")))
  {
  }

  /** Row `i` of the family sizes, before scaling. */
  lemma FamilySizeCell(raw: Table, i: nat)
    requires raw.Valid() && Preparable(raw) && i < raw.height
    ensures var sibsp := raw.cols["SibSp"].nums;
      var parch := raw.cols["Parch"].nums;
      && i < |sibsp| && i < |parch| && i < |FamilySizes(raw)|
      && FamilySizes(raw)[i] == FamilySizeOf(sibsp[i], parch[i])
  {
    assert raw.cols["SibSp"].Length() == raw.cols["Parch"].Length() == raw.height;
  }

  /** Row `i` of `IsAlone`: 1 exactly when the passenger travels with no
      sibling, spouse, parent or child, and 0 otherwise, also when a count
      is missing. */
  lemma IsAloneFeature(raw: Table, stats: Stats, i: nat)
    requires raw.Valid() && TitanicAccepts(raw) && i < raw.height
    ensures var out := TitanicOutput(raw, stats).cols;
      var sibsp := raw.cols["SibSp"].nums;
      var parch := raw.cols["Parch"].nums;
      && i < |sibsp| && i < |parch|
      && "IsAlone" in out && out["IsAlone"].NumCol? && i < |out["IsAlone"].nums|
      && out["IsAlone"].nums[i] ==
         Some(if sibsp[i].Some? && parch[i].Some? && sibsp[i].value + parch[i].value == 0.0 then 1.0 else 0.0)
  {
    ModelFeatureSelected(raw, "IsAlone");
    OutputColumn(raw, stats, "IsAlone");
    PreparedIsAlone(raw, stats);
    var sizes := FamilySizes(raw);
    assert TitanicOutput(raw, stats).cols["IsAlone"] == NumCol(IsAloneColumn(sizes));
    FamilySizeCell(raw, i);
    var sibsp, parch := raw.cols["SibSp"].nums[i], raw.cols["Parch"].nums[i];
    assert IsAloneColumn(sizes)[i] == Some(IsAloneOf(FamilySizeOf(sibsp, parch)));
    AloneWithoutFamily(sibsp, parch);
  }

  /** One row of lines 51-54: alone exactly when both counts are present and
      add up to zero. */
  lemma AloneWithoutFamily(sibsp: Option<real>, parch: Option<real>)
    ensures IsAloneOf(FamilySizeOf(sibsp, parch))
      == if sibsp.Some? && parch.Some? && sibsp.value + parch.value == 0.0 then 1.0 else 0.0
  {
  }

  /** Row `i` of `FamilySize`: `SibSp + Parch + 1`, missing when a count
      is, standardized with the family-size moments. */
  lemma FamilySizeFeature(raw: Table, stats: Stats, i: nat)
    requires raw.Valid() && TitanicAccepts(raw) && i < raw.height
    ensures var out := TitanicOutput(raw, stats).cols;
      var sibsp := raw.cols["SibSp"].nums;
      var parch := raw.cols["Parch"].nums;
      && i < |sibsp| && i < |parch|
      && "FamilySize" in out && out["FamilySize"].NumCol? && i < |out["FamilySize"].nums|
      && out["FamilySize"].nums[i] == ScaleCell(FamilySizeOf(sibsp[i], parch[i]), stats.moments("FamilySize"))
  {
    ModelFeatureSelected(raw, "FamilySize");
    OutputColumn(raw, stats, "FamilySize");
    PreparedFamilySize(raw, stats);
    FamilySizeCell(raw, i);
  }

  // ---------------------------------------------------------------------
  // Age and fare

  lemma PreparedFilled(raw: Table, stats: Stats, n: string)
    requires raw.Valid() && Preparable(raw) && (n == "Age" || n == "Fare")
    ensures EncodedScaled(PreparedColumn(raw, stats, n), n, EncodedFeatures, ScaledFeatures, stats)
      == NumCol(Standardize(MedianFilled(raw.cols[n], n, stats).value.nums, stats.moments(n)))
  {
  }

  /** The value a median-filled column holds at row `i`. */
  function FilledCell(xs: seq<Option<real>>, median: real, i: nat): Option<real>
    requires i < |xs|
  {
    if xs[i].Some? then xs[i] else if AnyPresent(xs) then Some(median) else None
  }

  /** Row `i` of a median-filled column: a present value is kept; a
      missing one becomes the median, unless the column has no value at
      all. */
  lemma MedianFilledCell(c: Column, n: string, stats: Stats, i: nat)
    requires c.NumCol? && i < |c.nums|
    ensures i < |MedianFilled(c, n, stats).value.nums|
    ensures MedianFilled(c, n, stats).value.nums[i] == FilledCell(c.nums, stats.median(n), i)
  {
    assert c.HasValue() <==> AnyPresent(c.nums);
  }

  /** Row `i` of `Age` or `Fare`: the filled value (the value if present,
      else the column's median, else missing when the column has no value
      at all), standardized with the column's moments. */
  lemma FilledScaled(raw: Table, stats: Stats, n: string, i: nat)
    requires raw.Valid() && TitanicAccepts(raw) && (n == "Age" || n == "Fare") && i < raw.height
    ensures var out := TitanicOutput(raw, stats).cols;
      var xs := raw.cols[n].nums;
      && i < |xs| && n in out && out[n].NumCol? && i < |out[n].nums|
      && out[n].nums[i] == ScaleCell(FilledCell(xs, stats.median(n), i), stats.moments(n))
  {
    assert raw.cols[n].Length() == raw.height;
    ModelFeatureSelected(raw, n);
    OutputColumn(raw, stats, n);
    PreparedFilled(raw, stats, n);
    MedianFilledCell(raw.cols[n], n, stats, i);
  }

  // ---------------------------------------------------------------------
  // The label-encoded columns

  lemma PreparedEncoded(raw: Table, stats: Stats, n: string)
    requires raw.Valid() && TitanicAccepts(raw) && n in {"Sex", "Embarked", "Title"}
    ensures n in EncodedFeatures && n !in ScaledFeatures
    ensures EncodedScaled(PreparedColumn(raw, stats, n), n, EncodedFeatures, ScaledFeatures, stats)
      == Encode(if n == "Sex" then raw.cols["Sex"] else if n == "Embarked" then EmbarkedFilled(raw, stats) else CatCol(Titles(raw)))
  {
  }

  /** Two cells of a text column are equal exactly when the values are. */
  lemma CatCells(xs: seq<Option<string>>, i: nat, j: nat)
    requires i < |xs| && j < |xs|
    ensures CatCol(xs).Cells()[i] == CatCol(xs).Cells()[j] <==> xs[i] == xs[j]
  {
  }

  /** `Sex` is label-encoded: two passengers get the same code exactly
      when their recorded sex is the same (a missing value is a value of
      its own), and every code is a whole number below the number of
      distinct values. */
  lemma SexEncoded(raw: Table, stats: Stats)
    requires raw.Valid() && TitanicAccepts(raw)
    ensures var out := TitanicOutput(raw, stats).cols;
      var sex := raw.cols["Sex"];
      && "Sex" in out && out["Sex"] == Encode(sex)
      && (forall i, j | 0 <= i < sex.Length() && 0 <= j < sex.Length() ::
            out["Sex"].nums[i] == out["Sex"].nums[j] <==> sex.Cells()[i] == sex.Cells()[j])
      && (forall i | 0 <= i < sex.Length() ::
            out["Sex"].nums[i].Some? && 0.0 <= out["Sex"].nums[i].value < |Distinct(sex.Cells())| as real)
  {
    ModelFeatureSelected(raw, "Sex");
    OutputColumn(raw, stats, "Sex");
    PreparedEncoded(raw, stats, "Sex");
    EncodeSpec(raw.cols["Sex"]);
  }

  /** `Embarked` is filled with its mode and then label-encoded: every
      passenger gets a code, and two get the same code exactly when their
      ports, after filling, are the same. */
  lemma EmbarkedEncoded(raw: Table, stats: Stats)
    requires raw.Valid() && TitanicAccepts(raw)
    ensures var out := TitanicOutput(raw, stats).cols;
      var filled := EmbarkedFilled(raw, stats);
      && "Embarked" in out && out["Embarked"] == Encode(filled)
      && filled.Complete() && filled.Length() == raw.height
      && (forall i | 0 <= i < raw.height && raw.cols["Embarked"].Cells()[i] != Missing ::
            filled.Cells()[i] == raw.cols["Embarked"].Cells()[i])
      && (forall i, j | 0 <= i < filled.Length() && 0 <= j < filled.Length() ::
            out["Embarked"].nums[i] == out["Embarked"].nums[j] <==> filled.Cells()[i] == filled.Cells()[j])
  {
    assert raw.cols["Embarked"].Length() == raw.height;
    ModelFeatureSelected(raw, "Embarked");
    OutputColumn(raw, stats, "Embarked");
    PreparedEncoded(raw, stats, "Embarked");
    EncodeSpec(EmbarkedFilled(raw, stats));
  }

  /** `Title` is label-encoded: two passengers get the same code exactly
      when the titles derived from their names are the same. */
  lemma TitleEncoded(raw: Table, stats: Stats)
    requires raw.Valid() && TitanicAccepts(raw)
    ensures var out := TitanicOutput(raw, stats).cols;
      var names := raw.cols["Name"].cats;
      && "Title" in out && out["Title"].NumCol? && |out["Title"].nums| == |names|
      && (forall i, j | 0 <= i < |names| && 0 <= j < |names| ::
            out["Title"].nums[i] == out["Title"].nums[j] <==> TitleOf(names[i]) == TitleOf(names[j]))
  {
    ModelFeatureSelected(raw, "Title");
    OutputColumn(raw, stats, "Title");
    PreparedEncoded(raw, stats, "Title");
    var titles := Titles(raw);
    EncodeSpec(CatCol(titles));
    forall i, j | 0 <= i < |titles| && 0 <= j < |titles|
      ensures CatCol(titles).Cells()[i] == CatCol(titles).Cells()[j] <==> titles[i] == titles[j]
    {
      CatCells(titles, i, j);
    }
  }

  // ---------------------------------------------------------------------
  // What the statistics decide

  /** The prepared columns depend on the medians and modes only. */
  lemma PreparedIgnoresMoments(raw: Table, s1: Stats, s2: Stats, n: string)
    requires raw.Valid() && Preparable(raw) && (n in raw.cols || n in DerivedFeatures)
    requires s1.median == s2.median && s1.textMode == s2.textMode && s1.numberMode == s2.numberMode
    ensures PreparedColumn(raw, s1, n) == PreparedColumn(raw, s2, n)
  {
  }

  /** The scaler's moments only reach the three scaled columns: two runs
      whose medians and modes agree write the same other columns. */
  lemma MomentsOnlyScale(raw: Table, s1: Stats, s2: Stats, n: string)
    requires raw.Valid() && TitanicAccepts(raw)
    requires s1.median == s2.median && s1.textMode == s2.textMode && s1.numberMode == s2.numberMode
    requires n in OutputFeatures(raw) && n !in ScaledFeatures
    ensures n in TitanicOutput(raw, s1).cols && n in TitanicOutput(raw, s2).cols
    ensures TitanicOutput(raw, s1).cols[n] == TitanicOutput(raw, s2).cols[n]
  {
    OutputColumn(raw, s1, n);
    OutputColumn(raw, s2, n);
    PreparedIgnoresMoments(raw, s1, s2, n);
  }
}
