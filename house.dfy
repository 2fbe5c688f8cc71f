/** The house-price feature transform (`process_house_data`): drop eight
    columns, impute numeric columns with their medians and text columns with
    their most frequent values, derive five numeric features, label-encode
    the text columns, standardize every numeric column and decide where the
    result is written. */
module House {
  import opened Wrappers
  import opened Seqs
  import opened Tables
  import opened Frames
  import opened LabelEncoding
  import opened Steps

  /** Lines 28-37: the columns dropped before anything else. */
  const HouseDropList: seq<string> :=
    ["Id", "Utilities", "Street", "PoolQC", "MiscFeature", "Alley", "Fence", "FireplaceQu"]

  // ---------------------------------------------------------------------
  // Derived features: weighted sums of columns

  /** One operand of a derived feature: a column and the factor it is
      multiplied by (`* 0.5` for half baths, `-` as a factor of -1). */
  datatype Term = Term(name: string, weight: real)

  /** `df[name] = <weighted sum of terms>`. */
  datatype Derivation = Derivation(name: string, terms: seq<Term>)

  /** Line 54. */
  const TotalSF := Derivation("TotalSF", [Term("TotalBsmtSF", 1.0), Term("1stFlrSF", 1.0), Term("2ndFlrSF", 1.0)])
  /** Lines 57-62. */
  const TotalBathrooms := Derivation("TotalBathrooms",
    [Term("FullBath", 1.0), Term("HalfBath", 0.5), Term("BsmtFullBath", 1.0), Term("BsmtHalfBath", 0.5)])
  /** Line 65. */
  const HouseAge := Derivation("HouseAge", [Term("YrSold", 1.0), Term("YearBuilt", -1.0)])
  /** Line 66. */
  const RemodAge := Derivation("RemodAge", [Term("YrSold", 1.0), Term("YearRemodAdd", -1.0)])
  /** Lines 69-71. */
  const TotalPorchSF := Derivation("TotalPorchSF",
    [Term("OpenPorchSF", 1.0), Term("EnclosedPorch", 1.0), Term("3SsnPorch", 1.0), Term("ScreenPorch", 1.0)])

  /** Lines 53-71: the five derived features, in the order they are assigned. */
  const Derivations: seq<Derivation> := [TotalSF, TotalBathrooms, HouseAge, RemodAge, TotalPorchSF]

  /** One row of a derived feature: the weighted sum of the operands' cells,
      missing (NaN) as soon as one operand is. */
  function Combine(terms: seq<Term>, cells: seq<Option<real>>): (r: Option<real>)
    requires |cells| == |terms|
    ensures r.Some? <==> forall k | 0 <= k < |cells| :: cells[k].Some?
  {
    if cells == [] then Some(0.0)
    else
      var rest := Combine(terms[1..], cells[1..]);
      assert forall k | 1 <= k < |cells| :: cells[k] == cells[1..][k - 1];
      if cells[0].Some? && rest.Some? then Some(terms[0].weight * cells[0].value + rest.value) else None
  }

  /** One step of the weighted sum over present cells. */
  lemma CombineStep(terms: seq<Term>, cells: seq<Option<real>>)
    requires |cells| == |terms| > 0
    requires forall k | 0 <= k < |cells| :: cells[k].Some?
    ensures Combine(terms[1..], cells[1..]).Some?
    ensures Combine(terms, cells) == Some(terms[0].weight * cells[0].value + Combine(terms[1..], cells[1..]).value)
  {
    assert forall k | 0 <= k < |cells[1..]| :: cells[1..][k] == cells[k + 1];
  }

  /** All operands of `terms` are numeric columns of `t`. */
  predicate OperandsNumeric(t: Table, terms: seq<Term>) {
    forall k | 0 <= k < |terms| :: terms[k].name in t.cols && t.cols[terms[k].name].NumCol?
  }

  /** Row `i` of every operand. */
  function CellsAt(t: Table, terms: seq<Term>, i: nat): (r: seq<Option<real>>)
    requires t.Valid() && OperandsNumeric(t, terms) && i < t.height
    ensures |r| == |terms|
  {
    seq(|terms|, k requires 0 <= k < |terms| =>
      assert t.cols[terms[k].name].Length() == t.height;
      t.cols[terms[k].name].nums[i])
  }

  /** The exception `df[n0] + df[n1] - ...` raises, evaluated left to right
      as Python does: the first two operands are looked up before any
      operator runs, and each later one just before it joins the running
      total. A factor other than 1 (`* 0.5`, `-`) on a text column raises
      TypeError, and so does a sum with text on one side only. */
  function OperandError(t: Table, terms: seq<Term>): (e: Error)
    requires !OperandsNumeric(t, terms)
    ensures e.MissingColumn? || e.NotNumeric?
    ensures e.MissingColumn? ==> e.name !in t.cols && exists j | 0 <= j < |terms| :: terms[j].name == e.name
    ensures e.NotNumeric? ==> e.name in t.cols && t.cols[e.name].CatCol? && exists j | 0 <= j < |terms| :: terms[j].name == e.name
    ensures (forall j | 0 <= j < |terms| :: terms[j].name in t.cols) ==> e.NotNumeric?
    ensures terms[0].name !in t.cols ==> e == MissingColumn(terms[0].name)
    ensures |terms| > 1 && terms[0].name in t.cols && terms[0].weight == 1.0 && terms[1].name !in t.cols ==> e == MissingColumn(terms[1].name)
  {
    var n := terms[0].name;
    if n !in t.cols then MissingColumn(n)
    else if t.cols[n].CatCol? && terms[0].weight != 1.0 then NotNumeric(n)
    else StepError(t, terms, 1, t.cols[n].CatCol?)
  }

  /** The exception of operands `k..` once the operands before `k` are
      summed: `text` says the running total is text, which happens when
      every operand so far is text and `+` has concatenated them. */
  function StepError(t: Table, terms: seq<Term>, k: nat, text: bool): (e: Error)
    requires 0 < k <= |terms| && !OperandsNumeric(t, terms)
    requires forall j | 0 <= j < k :: terms[j].name in t.cols && (t.cols[terms[j].name].CatCol? <==> text)
    ensures e.MissingColumn? || e.NotNumeric?
    ensures e.MissingColumn? ==> e.name !in t.cols && exists j | k <= j < |terms| :: terms[j].name == e.name
    ensures e.NotNumeric? ==> e.name in t.cols && t.cols[e.name].CatCol? && exists j | 0 <= j < |terms| :: terms[j].name == e.name
    ensures (forall j | k <= j < |terms| :: terms[j].name in t.cols) ==> e.NotNumeric?
    ensures k < |terms| && terms[k].name !in t.cols ==> e == MissingColumn(terms[k].name)
    decreases |terms| - k
  {
    if k == |terms| then
      // Every operand is text and `+` concatenates them: pandas raises
      // nothing here, the model reports the first operand.
      assert text by {
        if !text {
          assert OperandsNumeric(t, terms);
        }
      }
      NotNumeric(terms[0].name)
    else
      var n := terms[k].name;
      if n !in t.cols then MissingColumn(n)
      else if t.cols[n].CatCol? && terms[k].weight != 1.0 then NotNumeric(n)
      else if text && !t.cols[n].CatCol? then NotNumeric(terms[0].name)
      else if !text && t.cols[n].CatCol? then NotNumeric(n)
      else StepError(t, terms, k + 1, text)
  }

  /** How lines 54 and 65 fail on text and absent operands: a text first
      operand does not hide an absent second one, two text operands
      concatenate before the third is looked up, and `-` raises on text. */
  lemma DerivedFeatureErrors(t: Table)
    requires t.Valid()
    ensures "TotalBsmtSF" in t.cols && t.cols["TotalBsmtSF"].CatCol? && "1stFlrSF" !in t.cols ==>
      AddLinear(t, TotalSF.name, TotalSF.terms) == Err(MissingColumn("1stFlrSF"))
    ensures "TotalBsmtSF" in t.cols && t.cols["TotalBsmtSF"].CatCol? && "1stFlrSF" in t.cols && t.cols["1stFlrSF"].CatCol? && "2ndFlrSF" !in t.cols ==>
      AddLinear(t, TotalSF.name, TotalSF.terms) == Err(MissingColumn("2ndFlrSF"))
    ensures "YrSold" in t.cols && t.cols["YrSold"].CatCol? && "YearBuilt" in t.cols && t.cols["YearBuilt"].CatCol? ==>
      AddLinear(t, HouseAge.name, HouseAge.terms) == Err(NotNumeric("YearBuilt"))
  {
    var sf := TotalSF.terms;
    if "TotalBsmtSF" in t.cols && t.cols["TotalBsmtSF"].CatCol? && "1stFlrSF" in t.cols && t.cols["1stFlrSF"].CatCol? && "2ndFlrSF" !in t.cols {
      assert !OperandsNumeric(t, sf) by { assert sf[0].name == "TotalBsmtSF"; }
      assert StepError(t, sf, 1, true) == StepError(t, sf, 2, true);
    }
    var age := HouseAge.terms;
    if "YrSold" in t.cols && t.cols["YrSold"].CatCol? && "YearBuilt" in t.cols && t.cols["YearBuilt"].CatCol? {
      assert !OperandsNumeric(t, age) by { assert age[0].name == "YrSold"; }
      assert StepError(t, age, 1, true) == NotNumeric("YearBuilt");
    }
  }

  /** The derived column for `terms`. */
  function LinearColumn(t: Table, terms: seq<Term>): (r: Result<seq<Option<real>>, Error>)
    requires t.Valid()
    ensures r.Ok? <==> OperandsNumeric(t, terms)
    ensures r.Err? ==> r.error == OperandError(t, terms)
    ensures r.Ok? ==> |r.value| == t.height
    ensures r.Ok? ==> forall i | 0 <= i < t.height :: r.value[i] == Combine(terms, CellsAt(t, terms, i))
  {
    if !OperandsNumeric(t, terms) then Err(OperandError(t, terms))
    else Ok(seq(t.height, i requires 0 <= i < t.height => Combine(terms, CellsAt(t, terms, i))))
  }

  /** `df[n] = <expression over terms>`. */
  function AddLinear(t: Table, n: string, terms: seq<Term>): (r: Result<Table, Error>)
    requires t.Valid()
    ensures r.Ok? <==> OperandsNumeric(t, terms)
    ensures r.Err? ==> r.error == OperandError(t, terms)
    ensures r.Ok? ==> r.value.Valid() && r.value == SetColumn(t, n, NumCol(LinearColumn(t, terms).value))
    ensures r.Ok? ==> r.value.cols.Keys == t.cols.Keys + {n} && r.value.cols[n].NumCol?
  {
    var c :- LinearColumn(t, terms);
    Ok(SetColumn(t, n, NumCol(c)))
  }

  /** The assignments of `ds`, one after the other; the first that raises
      stops the transform. */
  function DeriveAll(t: Table, ds: seq<Derivation>): (r: Result<Table, Error>)
    requires t.Valid()
    ensures r.Ok? ==> r.value.Valid() && r.value.height == t.height
    decreases |ds|
  {
    if ds == [] then Ok(t)
    else
      var t1 :- AddLinear(t, ds[0].name, ds[0].terms);
      DeriveAll(t1, ds[1..])
  }

  /** Lines 53-71. */
  function WithDerived(t: Table): (r: Result<Table, Error>)
    requires t.Valid()
    ensures r.Ok? ==> r.value.Valid() && r.value.height == t.height
  {
    DeriveAll(t, Derivations)
  }

  // ---------------------------------------------------------------------
  // The transform as a whole

  /** Line 38: the table after the drop. */
  function Dropped(raw: Table): (r: Table)
    requires raw.Valid()
    ensures r.Valid()
  {
    DropColumns(raw, HouseDropList)
  }

  /** Lines 41-50: both imputations. */
  function Imputed(d: Table, stats: Stats): (r: Result<Table, Error>)
    requires d.Valid()
    ensures r.Ok? ==> r.value.Valid() && r.value.names == d.names && r.value.height == d.height
  {
    KindsPartition(d);
    var t1 :- ImputeColumns(d, NamesOfKind(d, Numerical), stats);
    ImputeColumns(t1, NamesOfKind(d, Categorical), stats)
  }

  /** Lines 40-86 on the table left after the drop, with the derived
      features `ds`: the columns of the derived table, each encoded when it
      was text before the imputation and then standardized when it is
      numeric after the derivation (lines 74-83). */
  function TransformKept(d: Table, ds: seq<Derivation>, stats: Stats): (r: Result<Processed, Error>)
    requires d.Valid()
    ensures r.Ok? ==> (r.value.destination == TrainValidationSplit <==> "SalePrice" in r.value.table.cols)
  {
    var t2 :- Imputed(d, stats);
    var t3 :- DeriveAll(t2, ds);
    var out := EncodedScaledTable(t3.cols, t3.names, NamesOfKind(d, Categorical), NamesOfKind(t3, Numerical), stats, t3.height);
    Ok(Processed(out, DestinationFor(out, "SalePrice")))
  }

  /** `process_house_data` up to the split. */
  function HouseTransform(raw: Table, stats: Stats): Result<Processed, Error>
    requires raw.Valid()
  {
    TransformKept(Dropped(raw), Derivations, stats)
  }

  // ---------------------------------------------------------------------
  // The transform, step by step on a frame

  /** `df[n] = <expression over terms>`, run on the frame. */
  method AddLinearInPlace(df: Frame, n: string, terms: seq<Term>) returns (r: Result<Table, Error>)
    requires df.View().Valid()
    modifies df
    ensures r == AddLinear(old(df.View()), n, terms)
    ensures r.Ok? ==> df.View() == r.value
  {
    var c :- LinearColumn(df.View(), terms);
    df.Set(n, NumCol(c));
    r := Ok(df.View());
  }

  /** Lines 53-71, run on the frame. */
  method AddDerivedInPlace(df: Frame) returns (r: Result<Table, Error>)
    requires df.View().Valid()
    modifies df
    ensures r == WithDerived(old(df.View()))
    ensures r.Ok? ==> df.View() == r.value
  {
    ghost var t := df.View();
    DeriveFirst(t, TotalSF, [TotalBathrooms, HouseAge, RemodAge, TotalPorchSF]);
    var t1 :- AddLinearInPlace(df, TotalSF.name, TotalSF.terms);
    DeriveFirst(t1, TotalBathrooms, [HouseAge, RemodAge, TotalPorchSF]);
    var t2 :- AddLinearInPlace(df, TotalBathrooms.name, TotalBathrooms.terms);
    DeriveFirst(t2, HouseAge, [RemodAge, TotalPorchSF]);
    var t3 :- AddLinearInPlace(df, HouseAge.name, HouseAge.terms);
    DeriveFirst(t3, RemodAge, [TotalPorchSF]);
    var t4 :- AddLinearInPlace(df, RemodAge.name, RemodAge.terms);
    DeriveFirst(t4, TotalPorchSF, []);
    r := AddLinearInPlace(df, TotalPorchSF.name, TotalPorchSF.terms);
  }

  /** Running `[d] + ds` is running `d` and then, unless it raised, `ds`. */
  lemma DeriveFirst(t: Table, d: Derivation, ds: seq<Derivation>)
    requires t.Valid()
    ensures AddLinear(t, d.name, d.terms).Err? ==> DeriveAll(t, [d] + ds) == Err(AddLinear(t, d.name, d.terms).error)
    ensures AddLinear(t, d.name, d.terms).Ok? ==> DeriveAll(t, [d] + ds) == DeriveAll(AddLinear(t, d.name, d.terms).value, ds)
    ensures ds == [] ==> DeriveAll(t, [d]) == AddLinear(t, d.name, d.terms)
  {
    assert ([d] + ds)[1..] == ds;
  }

  /** `process_house_data` up to the split: reads the raw table into a
      frame, edits it in place step by step and returns what is written. */
  method ProcessHouse(raw: Table, stats: Stats) returns (r: Result<Processed, Error>)
    requires raw.Valid()
    ensures r == HouseTransform(raw, stats)
  {
    var df := new Frame(raw);
    df.Drop(HouseDropList);
    var numerical := NamesOfKind(df.View(), Numerical);
    var categorical := NamesOfKind(df.View(), Categorical);
    KindsPartition(df.View());
    var t1 :- ImputeInPlace(df, numerical, stats);
    var t2 :- ImputeInPlace(df, categorical, stats);
    var t3 :- AddDerivedInPlace(df);
    r := EncodeScaleOutput(df, t2, categorical, stats);
  }

  /** Lines 74-86 on the derived frame: the numeric columns are listed anew,
      the text columns listed before the derivation are encoded, the listed
      numeric columns standardized. Neither step can fail here. */
  method EncodeScaleOutput(df: Frame, ghost t2: Table, categorical: seq<string>, stats: Stats) returns (r: Result<Processed, Error>)
    requires t2.Valid() && t2.height > 0 && NoDuplicates(categorical)
    requires forall n | n in categorical :: n in t2.cols
    requires df.View().Valid() && WithDerived(t2) == Ok(df.View())
    modifies df
    ensures var t3 := old(df.View());
      var out := EncodedScaledTable(t3.cols, t3.names, categorical, NamesOfKind(t3, Numerical), stats, t3.height);
      r == Ok(Processed(out, DestinationFor(out, "SalePrice")))
  {
    ghost var t3 := df.View();
    var numerical := NamesOfKind(df.View(), Numerical);
    KindsPartition(t3);
    DerivationsIndependent();
    DeriveAllAssigned(t2, Derivations);
    DeriveAllKeeps(t2, Derivations);
    assert Derivations[0] == TotalSF;
    var encoded := EncodeScaleInPlace(df, categorical, numerical, stats);
    assert encoded.Ok?;
    var out := encoded.value;
    EncodedScaledWhole(t3, out, categorical, numerical, stats);
    r := Ok(Processed(out, DestinationFor(out, "SalePrice")));
  }

  // ---------------------------------------------------------------------
  // Properties of the derivation

  /** The names the derivations assign. */
  function Assigned(ds: seq<Derivation>): set<string> {
    set j | 0 <= j < |ds| :: ds[j].name
  }

  /** No two derivations assign the same column and none reads a column one
      of them assigns, so their order does not matter. */
  predicate Independent(ds: seq<Derivation>) {
    && (forall j, k | 0 <= j < k < |ds| :: ds[j].name != ds[k].name)
    && (forall j, k, m | 0 <= j < |ds| && 0 <= k < |ds| && 0 <= m < |ds[k].terms| :: ds[k].terms[m].name != ds[j].name)
  }

  /** Every operand of every derivation is a numeric column of `t`. */
  predicate AllOperandsNumeric(t: Table, ds: seq<Derivation>) {
    forall j | 0 <= j < |ds| :: OperandsNumeric(t, ds[j].terms)
  }

  /** The five derivations of the transform are independent. */
  lemma DerivationsIndependent()
    ensures Independent(Derivations)
  {
    var names := [TotalSF.name, TotalBathrooms.name, HouseAge.name, RemodAge.name, TotalPorchSF.name];
    assert forall j | 0 <= j < 5 :: Derivations[j].name == names[j];
    ReadsNone(TotalSF, names);
    ReadsNone(TotalBathrooms, names);
    ReadsNone(HouseAge, names);
    ReadsNone(RemodAge, names);
    ReadsNone(TotalPorchSF, names);
  }

  /** `d` reads none of the columns the transform assigns. */
  lemma ReadsNone(d: Derivation, names: seq<string>)
    requires d in Derivations && names == [TotalSF.name, TotalBathrooms.name, HouseAge.name, RemodAge.name, TotalPorchSF.name]
    ensures forall m, j | 0 <= m < |d.terms| && 0 <= j < |names| :: d.terms[m].name != names[j]
  {
  }

  /** Assigning a column that `terms` does not read changes neither whether
      the operands are numeric nor the weighted sum. */
  lemma SetKeepsOperands(t: Table, n: string, c: Column, terms: seq<Term>)
    requires t.Valid() && c.Length() == t.height
    requires forall m | 0 <= m < |terms| :: terms[m].name != n
    ensures OperandsNumeric(SetColumn(t, n, c), terms) == OperandsNumeric(t, terms)
    ensures LinearColumn(SetColumn(t, n, c), terms) == LinearColumn(t, terms)
  {
    var u := SetColumn(t, n, c);
    if OperandsNumeric(t, terms) {
      forall i | 0 <= i < t.height ensures CellsAt(u, terms, i) == CellsAt(t, terms, i) {
      }
      assert LinearColumn(u, terms).value == LinearColumn(t, terms).value;
    } else {
      assert forall m | 0 <= m < |terms| :: terms[m].name in u.cols <==> terms[m].name in t.cols;
      assert OperandError(u, terms) == OperandError(t, terms) by {
        OperandErrorFrame(t, u, terms);
      }
    }
  }

  /** The exception raised by the operands depends only on the operand
      columns. */
  lemma OperandErrorFrame(t: Table, u: Table, terms: seq<Term>)
    requires !OperandsNumeric(t, terms)
    requires forall m | 0 <= m < |terms| :: (terms[m].name in u.cols <==> terms[m].name in t.cols)
    requires forall m | 0 <= m < |terms| && terms[m].name in t.cols :: u.cols[terms[m].name] == t.cols[terms[m].name]
    ensures !OperandsNumeric(u, terms) && OperandError(u, terms) == OperandError(t, terms)
  {
    var n := terms[0].name;
    if n in t.cols && !(t.cols[n].CatCol? && terms[0].weight != 1.0) {
      StepErrorFrame(t, u, terms, 1, t.cols[n].CatCol?);
    }
  }

  /** `StepError` depends only on the operand columns. */
  lemma {:induction false} StepErrorFrame(t: Table, u: Table, terms: seq<Term>, k: nat, text: bool)
    requires 0 < k <= |terms| && !OperandsNumeric(t, terms)
    requires forall j | 0 <= j < k :: terms[j].name in t.cols && (t.cols[terms[j].name].CatCol? <==> text)
    requires forall m | 0 <= m < |terms| :: (terms[m].name in u.cols <==> terms[m].name in t.cols)
    requires forall m | 0 <= m < |terms| && terms[m].name in t.cols :: u.cols[terms[m].name] == t.cols[terms[m].name]
    ensures !OperandsNumeric(u, terms)
    ensures forall j | 0 <= j < k :: terms[j].name in u.cols && (u.cols[terms[j].name].CatCol? <==> text)
    ensures StepError(u, terms, k, text) == StepError(t, terms, k, text)
    decreases |terms| - k
  {
    assert !OperandsNumeric(u, terms) by {
      var m :| 0 <= m < |terms| && !(terms[m].name in t.cols && t.cols[terms[m].name].NumCol?);
    }
    if k < |terms| {
      var n := terms[k].name;
      if n in t.cols && !(t.cols[n].CatCol? && terms[k].weight != 1.0) && (text == t.cols[n].CatCol?) {
        StepErrorFrame(t, u, terms, k + 1, text);
      }
    }
  }

  /** Independent derivations succeed exactly when all their operands are
      numeric columns of the table they start from. */
  lemma {:induction false} DeriveAllOk(t: Table, ds: seq<Derivation>)
    requires t.Valid() && Independent(ds)
    ensures DeriveAll(t, ds).Ok? <==> AllOperandsNumeric(t, ds)
    decreases |ds|
  {
    if ds != [] && OperandsNumeric(t, ds[0].terms) {
      var c := NumCol(LinearColumn(t, ds[0].terms).value);
      var t1 := SetColumn(t, ds[0].name, c);
      var rest := ds[1..];
      assert forall j | 0 <= j < |rest| :: rest[j] == ds[j + 1];
      forall j | 0 <= j < |rest| ensures OperandsNumeric(t1, rest[j].terms) == OperandsNumeric(t, rest[j].terms) {
        SetKeepsOperands(t, ds[0].name, c, rest[j].terms);
      }
      DeriveAllOk(t1, rest);
    }
  }

  /** After the derivations every column of the starting table is still
      there and unchanged unless assigned. */
  lemma {:induction false} DeriveAllKeeps(t: Table, ds: seq<Derivation>)
    requires t.Valid() && DeriveAll(t, ds).Ok?
    ensures var r := DeriveAll(t, ds).value;
      && r.cols.Keys == t.cols.Keys + Assigned(ds)
      && (forall n | n in t.cols && n !in Assigned(ds) :: r.cols[n] == t.cols[n])
    decreases |ds|
  {
    if ds != [] {
      var t1 := AddLinear(t, ds[0].name, ds[0].terms).value;
      var rest := ds[1..];
      assert DeriveAll(t, ds) == DeriveAll(t1, rest);
      DeriveAllKeeps(t1, rest);
      AssignedTail(ds);
    }
  }

  /** The names a non-empty list assigns are its first name and those of the
      rest. */
  lemma AssignedTail(ds: seq<Derivation>)
    requires ds != []
    ensures Assigned(ds) == {ds[0].name} + Assigned(ds[1..])
  {
    var rest := ds[1..];
    assert forall j | 0 <= j < |rest| :: rest[j] == ds[j + 1];
  }

  /** After independent derivations each assigned column is the weighted
      sum of its operands in the starting table. */
  lemma {:induction false} DeriveAllAssigned(t: Table, ds: seq<Derivation>)
    requires t.Valid() && Independent(ds) && DeriveAll(t, ds).Ok?
    ensures forall j | 0 <= j < |ds| :: OperandsNumeric(t, ds[j].terms)
    ensures forall j | 0 <= j < |ds| ::
      && ds[j].name in DeriveAll(t, ds).value.cols
      && DeriveAll(t, ds).value.cols[ds[j].name] == NumCol(LinearColumn(t, ds[j].terms).value)
    decreases |ds|
  {
    if ds != [] {
      var c := NumCol(LinearColumn(t, ds[0].terms).value);
      var t1 := SetColumn(t, ds[0].name, c);
      var rest := ds[1..];
      IndependentTail(ds);
      DeriveAllAssigned(t1, rest);
      DeriveAllKeeps(t1, rest);
      var r := DeriveAll(t1, rest).value;
      assert DeriveAll(t, ds).value == r;
      forall j | 0 <= j < |ds|
        ensures OperandsNumeric(t, ds[j].terms)
        ensures ds[j].name in r.cols && r.cols[ds[j].name] == NumCol(LinearColumn(t, ds[j].terms).value)
      {
        if j > 0 {
          assert ds[j] == rest[j - 1];
          SetKeepsOperands(t, ds[0].name, c, ds[j].terms);
        }
      }
    }
  }

  /** What the first of independent derivations leaves to the others. */
  lemma IndependentTail(ds: seq<Derivation>)
    requires Independent(ds) && ds != []
    ensures Independent(ds[1..]) && ds[0].name !in Assigned(ds[1..])
    ensures forall j, m | 1 <= j < |ds| && 0 <= m < |ds[j].terms| :: ds[j].terms[m].name != ds[0].name
  {
    var rest := ds[1..];
    assert forall j | 0 <= j < |rest| :: rest[j] == ds[j + 1];
  }

  /** A weighted sum of columns with no missing cell has no missing cell. */
  lemma LinearComplete(t: Table, terms: seq<Term>)
    requires t.Valid() && OperandsNumeric(t, terms)
    requires forall m | 0 <= m < |terms| :: t.cols[terms[m].name].Complete()
    ensures NoneMissing(LinearColumn(t, terms).value)
  {
    forall i | 0 <= i < t.height ensures LinearColumn(t, terms).value[i].Some? {
      var cells := CellsAt(t, terms, i);
      forall k | 0 <= k < |cells| ensures cells[k].Some? {
        assert t.cols[terms[k].name].Length() == t.height;
      }
    }
  }
}
