/** What `process_house_data` promises about the table it writes: when it
    raises, which columns it writes, that every written column is numeric
    with no missing cell, and what each kind of column holds. */
module HouseFacts {
  import opened Wrappers
  import opened Seqs
  import opened Tables
  import opened LabelEncoding
  import opened Steps
  import opened House

  // ---------------------------------------------------------------------
  // The stages of the transform, after the drop

  /** The table after both imputations. */
  function ImputedTable(d: Table, stats: Stats): (r: Table)
    requires d.Valid() && Imputed(d, stats).Ok?
    ensures r.Valid()
  {
    Imputed(d, stats).value
  }

  /** The table after the derived features. */
  function DerivedTable(d: Table, ds: seq<Derivation>, stats: Stats): (r: Table)
    requires d.Valid() && TransformKept(d, ds, stats).Ok?
    ensures r.Valid()
  {
    DeriveAll(ImputedTable(d, stats), ds).value
  }

  /** No column of `t` misses a cell. */
  predicate AllComplete(t: Table) {
    forall n | n in t.cols :: t.cols[n].Complete()
  }

  // ---------------------------------------------------------------------
  // When the transform raises

  /** The conditions under which no step after the drop raises: rows are
      left, there is a numeric and a text column for the two imputers, no
      column is entirely missing, and every operand of the derived features
      is a numeric column. */
  predicate KeptAccepts(d: Table, ds: seq<Derivation>) {
    && d.height > 0
    && (exists n | n in d.cols :: d.cols[n].Kind() == Numerical)
    && (exists n | n in d.cols :: d.cols[n].Kind() == Categorical)
    && (forall n | n in d.cols :: d.cols[n].HasValue())
    && AllOperandsNumeric(d, ds)
  }

  /** Lines 41-50 succeed exactly when both imputers have rows and columns
      and no column is entirely missing. */
  lemma ImputedOk(d: Table, stats: Stats)
    requires d.Valid()
    ensures Imputed(d, stats).Ok? <==>
      && d.height > 0
      && (exists n | n in d.cols :: d.cols[n].Kind() == Numerical)
      && (exists n | n in d.cols :: d.cols[n].Kind() == Categorical)
      && (forall n | n in d.cols :: d.cols[n].HasValue())
  {
    KindListed(d, Numerical);
    KindListed(d, Categorical);
    KindsPartition(d);
    var nums := NamesOfKind(d, Numerical);
    var cats := NamesOfKind(d, Categorical);
    var first := ImputeColumns(d, nums, stats);
    if first.Ok? {
      var t1 := first.value;
      assert forall n | n in cats :: n in t1.cols && t1.cols[n] == d.cols[n];
      assert forall n | n in d.cols :: n in nums || n in cats;
    }
  }

  /** pandas' `select_dtypes` lists a column exactly when one of that kind
      exists. */
  lemma KindListed(d: Table, k: Kind)
    requires d.Valid()
    ensures |NamesOfKind(d, k)| > 0 <==> exists n | n in d.cols :: d.cols[n].Kind() == k
  {
    var ns := NamesOfKind(d, k);
    if |ns| > 0 {
      assert ns[0] in ns;
    }
    if exists n | n in d.cols :: d.cols[n].Kind() == k {
      var n :| n in d.cols && d.cols[n].Kind() == k;
      assert n in ns;
    }
  }

  /** After lines 41-50 every column is imputed once, by the imputer of its
      kind, and none is added or removed. */
  lemma ImputedColumns(d: Table, stats: Stats)
    requires d.Valid() && Imputed(d, stats).Ok?
    ensures forall n :: n in ImputedTable(d, stats).cols <==> n in d.cols
    ensures forall n | n in d.cols :: ImputedTable(d, stats).cols[n] == ImputeColumn(d.cols[n], n, stats)
  {
    var t2 := ImputedTable(d, stats);
    forall n | n in d.cols ensures t2.cols[n] == ImputeColumn(d.cols[n], n, stats) {
      ImputedColumn(d, stats, n);
    }
  }

  /** One column through both imputers. */
  lemma ImputedColumn(d: Table, stats: Stats, n: string)
    requires d.Valid() && Imputed(d, stats).Ok? && n in d.cols
    ensures ImputedTable(d, stats).cols[n] == ImputeColumn(d.cols[n], n, stats)
  {
    KindsPartition(d);
    var nums := NamesOfKind(d, Numerical);
    var cats := NamesOfKind(d, Categorical);
    var t1 := ImputeColumns(d, nums, stats).value;
    assert ImputedTable(d, stats) == ImputeColumns(t1, cats, stats).value;
    assert (n in nums) != (n in cats);
  }

  /** Whether the operands are numeric depends only on the kind of each
      column. */
  lemma OperandsSameKinds(t: Table, u: Table, ds: seq<Derivation>)
    requires forall n :: n in u.cols <==> n in t.cols
    requires forall n | n in t.cols :: u.cols[n].Kind() == t.cols[n].Kind()
    ensures AllOperandsNumeric(u, ds) == AllOperandsNumeric(t, ds)
  {
    assert forall n | n in t.cols :: u.cols[n].NumCol? == t.cols[n].NumCol?;
  }

  /** With independent derived features, the steps after the drop raise
      exactly when `KeptAccepts` fails. */
  lemma TransformKeptOk(d: Table, ds: seq<Derivation>, stats: Stats)
    requires d.Valid() && Independent(ds)
    ensures TransformKept(d, ds, stats).Ok? <==> KeptAccepts(d, ds)
  {
    ImputedOk(d, stats);
    if Imputed(d, stats).Ok? {
      var t2 := ImputedTable(d, stats);
      ImputedColumns(d, stats);
      OperandsSameKinds(d, t2, ds);
      DeriveAllOk(t2, ds);
    }
  }

  /** `process_house_data` raises exactly when the table left after the
      drop is not accepted. */
  lemma HouseTransformOk(raw: Table, stats: Stats)
    requires raw.Valid()
    ensures HouseTransform(raw, stats).Ok? <==> KeptAccepts(Dropped(raw), Derivations)
  {
    DerivationsIndependent();
    TransformKeptOk(Dropped(raw), Derivations, stats);
  }

  // ---------------------------------------------------------------------
  // Which columns are written

  /** The derived table holds every column left after the drop, imputed
      unless a derived feature overwrote it, and the derived features, each
      the weighted sum of its operands after the imputation. */
  lemma DerivedColumns(d: Table, ds: seq<Derivation>, stats: Stats)
    requires d.Valid() && Independent(ds) && TransformKept(d, ds, stats).Ok?
    ensures forall n :: n in DerivedTable(d, ds, stats).cols <==> n in d.cols || n in Assigned(ds)
    ensures forall n | n in d.cols && n !in Assigned(ds) ::
      DerivedTable(d, ds, stats).cols[n] == ImputeColumn(d.cols[n], n, stats)
    ensures forall j | 0 <= j < |ds| ::
      && OperandsNumeric(ImputedTable(d, stats), ds[j].terms)
      && ds[j].name in DerivedTable(d, ds, stats).cols
      && DerivedTable(d, ds, stats).cols[ds[j].name] == NumCol(LinearColumn(ImputedTable(d, stats), ds[j].terms).value)
  {
    var t2 := ImputedTable(d, stats);
    ImputedColumns(d, stats);
    DeriveAllKeeps(t2, ds);
    DeriveAllAssigned(t2, ds);
  }

  /** The written table: every column of the derived table, encoded if it
      was a text column before the imputation, then standardized if it is
      numeric after the derivation. */
  lemma OutputColumns(d: Table, ds: seq<Derivation>, stats: Stats)
    requires d.Valid() && TransformKept(d, ds, stats).Ok?
    ensures TransformKept(d, ds, stats).value.table.Valid() && TransformKept(d, ds, stats).value.table.height == d.height
    ensures forall n :: n in TransformKept(d, ds, stats).value.table.cols <==> n in DerivedTable(d, ds, stats).cols
    ensures forall n | n in DerivedTable(d, ds, stats).cols ::
      var t3 := DerivedTable(d, ds, stats);
      var cats := NamesOfKind(d, Categorical);
      var nums := NamesOfKind(t3, Numerical);
      && (n in nums && n !in cats ==> t3.cols[n].NumCol?)
      && TransformKept(d, ds, stats).value.table.cols[n] == EncodedScaled(t3.cols[n], n, cats, nums, stats)
  {
    var t3 := DerivedTable(d, ds, stats);
    var cats := NamesOfKind(d, Categorical);
    var nums := NamesOfKind(t3, Numerical);
    KindsPartition(t3);
    EncodedScaledTableValid(t3.cols, t3.names, cats, nums, stats, t3.height);
  }

  /** Lines 86-94: the table is split for training exactly when the raw
      table has the target column. */
  lemma DestinationFollowsTarget(raw: Table, stats: Stats)
    requires raw.Valid() && HouseTransform(raw, stats).Ok?
    ensures HouseTransform(raw, stats).value.destination == TrainValidationSplit <==> "SalePrice" in raw.cols
  {
    WrittenColumns(raw, stats);
    TargetNotAssigned();
  }

  /** Neither the drop list nor a derived feature is named `SalePrice`. */
  lemma TargetNotAssigned()
    ensures "SalePrice" !in HouseDropList && "SalePrice" !in Assigned(Derivations)
  {
    var names := [TotalSF.name, TotalBathrooms.name, HouseAge.name, RemodAge.name, TotalPorchSF.name];
    assert forall j | 0 <= j < 5 :: Derivations[j].name == names[j];
  }

  /** The written columns are the raw ones not dropped and the derived
      features; so none of the eight dropped columns is written. */
  lemma WrittenColumns(raw: Table, stats: Stats)
    requires raw.Valid() && HouseTransform(raw, stats).Ok?
    ensures forall n :: n in HouseTransform(raw, stats).value.table.cols <==>
      (n in raw.cols && n !in HouseDropList) || n in Assigned(Derivations)
    ensures forall n | n in HouseDropList :: n !in HouseTransform(raw, stats).value.table.cols
  {
    var d := Dropped(raw);
    DerivationsIndependent();
    DerivedColumns(d, Derivations, stats);
    OutputColumns(d, Derivations, stats);
    DropListNotAssigned();
  }

  /** No derived feature has the name of a dropped column. */
  lemma DropListNotAssigned()
    ensures forall n | n in HouseDropList :: n !in Assigned(Derivations)
  {
    var names := [TotalSF.name, TotalBathrooms.name, HouseAge.name, RemodAge.name, TotalPorchSF.name];
    assert forall j | 0 <= j < 5 :: Derivations[j].name == names[j];
  }

  // ---------------------------------------------------------------------
  // What the columns hold

  /** Every column of the derived table is complete: the imputed columns
      are, and a weighted sum of complete columns is. */
  lemma DerivedComplete(d: Table, ds: seq<Derivation>, stats: Stats)
    requires d.Valid() && Independent(ds) && TransformKept(d, ds, stats).Ok?
    ensures AllComplete(DerivedTable(d, ds, stats))
  {
    var t3 := DerivedTable(d, ds, stats);
    forall n | n in t3.cols ensures t3.cols[n].Complete() {
      DerivedColumnComplete(d, ds, stats, n);
    }
  }

  /** One column of the derived table is complete. */
  lemma DerivedColumnComplete(d: Table, ds: seq<Derivation>, stats: Stats, n: string)
    requires d.Valid() && Independent(ds) && TransformKept(d, ds, stats).Ok?
    requires n in DerivedTable(d, ds, stats).cols
    ensures DerivedTable(d, ds, stats).cols[n].Complete()
  {
    var t2 := ImputedTable(d, stats);
    DerivedColumns(d, ds, stats);
    if n in Assigned(ds) {
      var j :| 0 <= j < |ds| && ds[j].name == n;
      ImputedColumns(d, stats);
      LinearComplete(t2, ds[j].terms);
    }
  }

  /** One column of the written table, as `OutputColumns` states for all. */
  lemma OutputColumn(d: Table, ds: seq<Derivation>, stats: Stats, n: string)
    requires d.Valid() && TransformKept(d, ds, stats).Ok?
    requires n in DerivedTable(d, ds, stats).cols
    ensures var t3 := DerivedTable(d, ds, stats);
      var cats := NamesOfKind(d, Categorical);
      var nums := NamesOfKind(t3, Numerical);
      && (n in nums && n !in cats ==> t3.cols[n].NumCol?)
      && n in TransformKept(d, ds, stats).value.table.cols
      && TransformKept(d, ds, stats).value.table.cols[n] == EncodedScaled(t3.cols[n], n, cats, nums, stats)
  {
    OutputColumns(d, ds, stats);
  }

  /** A text column of the derived table was a text column before the
      imputation, so the encoding loop reaches it. */
  lemma TextColumnListed(d: Table, ds: seq<Derivation>, stats: Stats, n: string)
    requires d.Valid() && Independent(ds) && TransformKept(d, ds, stats).Ok?
    requires n in DerivedTable(d, ds, stats).cols && DerivedTable(d, ds, stats).cols[n].CatCol?
    ensures n in NamesOfKind(d, Categorical)
  {
    DerivedColumns(d, ds, stats);
  }

  /** Every written column is numeric and has no missing cell: text columns
      are label-encoded, and standardizing a complete column keeps it
      complete. */
  lemma OutputNumericComplete(d: Table, ds: seq<Derivation>, stats: Stats)
    requires d.Valid() && Independent(ds) && TransformKept(d, ds, stats).Ok?
    ensures forall n | n in TransformKept(d, ds, stats).value.table.cols ::
      TransformKept(d, ds, stats).value.table.cols[n].NumCol? && TransformKept(d, ds, stats).value.table.cols[n].Complete()
  {
    var out := TransformKept(d, ds, stats).value.table;
    forall n | n in out.cols ensures out.cols[n].NumCol? && out.cols[n].Complete() {
      OutputColumnNumericComplete(d, ds, stats, n);
    }
  }

  /** One written column is numeric and complete. */
  lemma OutputColumnNumericComplete(d: Table, ds: seq<Derivation>, stats: Stats, n: string)
    requires d.Valid() && Independent(ds) && TransformKept(d, ds, stats).Ok?
    requires n in TransformKept(d, ds, stats).value.table.cols
    ensures TransformKept(d, ds, stats).value.table.cols[n].NumCol? && TransformKept(d, ds, stats).value.table.cols[n].Complete()
  {
    var t3 := DerivedTable(d, ds, stats);
    OutputColumns(d, ds, stats);
    OutputColumn(d, ds, stats, n);
    DerivedColumnComplete(d, ds, stats, n);
    if t3.cols[n].CatCol? {
      TextColumnListed(d, ds, stats, n);
    }
  }

  /** A text column left after the drop and not overwritten by a derived
      feature is written as the label codes of its imputed values. */
  lemma TextColumnEncoded(d: Table, ds: seq<Derivation>, stats: Stats, n: string)
    requires d.Valid() && Independent(ds) && TransformKept(d, ds, stats).Ok?
    requires n in d.cols && d.cols[n].CatCol? && n !in Assigned(ds)
    ensures n in TransformKept(d, ds, stats).value.table.cols
    ensures TransformKept(d, ds, stats).value.table.cols[n] == Encode(ImputeColumn(d.cols[n], n, stats))
  {
    DerivedColumns(d, ds, stats);
    OutputColumns(d, ds, stats);
  }

  /** A numeric column left after the drop and not overwritten by a
      derived feature is written standardized after its imputation. */
  lemma NumericColumnScaled(d: Table, ds: seq<Derivation>, stats: Stats, n: string)
    requires d.Valid() && Independent(ds) && TransformKept(d, ds, stats).Ok?
    requires n in d.cols && d.cols[n].NumCol? && n !in Assigned(ds)
    ensures n in TransformKept(d, ds, stats).value.table.cols
    ensures TransformKept(d, ds, stats).value.table.cols[n] == NumCol(Standardize(ImputeColumn(d.cols[n], n, stats).nums, stats.moments(n)))
  {
    DerivedColumns(d, ds, stats);
    OutputColumns(d, ds, stats);
  }

  /** Row `i` of the operands after the imputation: a present value, or the
      column's median where it was missing. */
  function ImputedCells(d: Table, stats: Stats, terms: seq<Term>, i: nat): (r: seq<Option<real>>)
    requires d.Valid() && OperandsNumeric(d, terms) && i < d.height
    ensures |r| == |terms| && NoneMissing(r)
  {
    seq(|terms|, k requires 0 <= k < |terms| =>
      assert d.cols[terms[k].name].Length() == d.height;
      Some(d.cols[terms[k].name].nums[i].GetOr(stats.median(terms[k].name))))
  }

  /** A derived feature is written as the standardized weighted sum of its
      operands' imputed values, unless a text column of that name existed
      (the encoding loop would then encode it first). */
  lemma DerivedFeature(d: Table, ds: seq<Derivation>, stats: Stats, j: nat, i: nat)
    requires d.Valid() && Independent(ds) && TransformKept(d, ds, stats).Ok?
    requires j < |ds| && i < d.height
    requires !(ds[j].name in d.cols && d.cols[ds[j].name].CatCol?)
    ensures OperandsNumeric(d, ds[j].terms)
    ensures var out := TransformKept(d, ds, stats).value.table;
      && ds[j].name in out.cols && out.cols[ds[j].name].NumCol? && i < |out.cols[ds[j].name].nums|
      && out.cols[ds[j].name].nums[i]
           == ScaleCell(Combine(ds[j].terms, ImputedCells(d, stats, ds[j].terms, i)), stats.moments(ds[j].name))
  {
    var t2 := ImputedTable(d, stats);
    var terms := ds[j].terms;
    DerivedScaled(d, ds, stats, j);
    ImputedOperands(d, stats, terms, i);
    assert LinearColumn(t2, terms).value[i] == Combine(terms, CellsAt(t2, terms, i));
  }

  /** A derived feature is written as its standardized column. */
  lemma DerivedScaled(d: Table, ds: seq<Derivation>, stats: Stats, j: nat)
    requires d.Valid() && Independent(ds) && TransformKept(d, ds, stats).Ok?
    requires j < |ds| && !(ds[j].name in d.cols && d.cols[ds[j].name].CatCol?)
    ensures OperandsNumeric(ImputedTable(d, stats), ds[j].terms)
    ensures ds[j].name in TransformKept(d, ds, stats).value.table.cols
    ensures TransformKept(d, ds, stats).value.table.cols[ds[j].name]
      == NumCol(Standardize(LinearColumn(ImputedTable(d, stats), ds[j].terms).value, stats.moments(ds[j].name)))
  {
    var t3 := DerivedTable(d, ds, stats);
    DerivedColumns(d, ds, stats);
    OutputColumns(d, ds, stats);
    assert ds[j].name !in NamesOfKind(d, Categorical);
    assert ds[j].name in NamesOfKind(t3, Numerical);
  }

  /** The operands' cells after the imputation are the raw cells with the
      medians filled in. */
  lemma ImputedOperands(d: Table, stats: Stats, terms: seq<Term>, i: nat)
    requires d.Valid() && Imputed(d, stats).Ok? && i < d.height
    requires OperandsNumeric(ImputedTable(d, stats), terms)
    ensures OperandsNumeric(d, terms)
    ensures CellsAt(ImputedTable(d, stats), terms, i) == ImputedCells(d, stats, terms, i)
  {
    var t2 := ImputedTable(d, stats);
    ImputedColumns(d, stats);
    forall k | 0 <= k < |terms| ensures terms[k].name in d.cols && d.cols[terms[k].name].NumCol? {
      ImputedColumn(d, stats, terms[k].name);
    }
    forall k | 0 <= k < |terms| ensures CellsAt(t2, terms, i)[k] == ImputedCells(d, stats, terms, i)[k] {
      ImputedColumn(d, stats, terms[k].name);
      assert d.cols[terms[k].name].Length() == d.height;
    }
  }

  // ---------------------------------------------------------------------
  // The same, in terms of the raw table

  /** Every column `process_house_data` writes is numeric with no missing
      cell. */
  lemma HouseOutputNumericComplete(raw: Table, stats: Stats)
    requires raw.Valid() && HouseTransform(raw, stats).Ok?
    ensures forall n | n in HouseTransform(raw, stats).value.table.cols ::
      && HouseTransform(raw, stats).value.table.cols[n].NumCol?
      && HouseTransform(raw, stats).value.table.cols[n].Complete()
  {
    DerivationsIndependent();
    OutputNumericComplete(Dropped(raw), Derivations, stats);
  }

  /** A raw column that is not dropped is left as it is by the drop. */
  lemma KeptByDrop(raw: Table, n: string)
    requires raw.Valid() && n in raw.cols && n !in HouseDropList
    ensures n in Dropped(raw).cols && Dropped(raw).cols[n] == raw.cols[n]
  {
  }

  /** A kept raw text column is written as the label codes of its values,
      missing cells replaced by the most frequent value. */
  lemma HouseTextEncoded(raw: Table, stats: Stats, n: string)
    requires raw.Valid() && HouseTransform(raw, stats).Ok?
    requires n in raw.cols && raw.cols[n].CatCol? && n !in HouseDropList && n !in Assigned(Derivations)
    ensures n in HouseTransform(raw, stats).value.table.cols
    ensures HouseTransform(raw, stats).value.table.cols[n] == Encode(CatCol(FillNa(raw.cols[n].cats, stats.textMode(n))))
  {
    KeptByDrop(raw, n);
    DerivationsIndependent();
    TextColumnEncoded(Dropped(raw), Derivations, stats, n);
  }

  /** Two rows of a kept raw text column get the same code exactly when
      their imputed values are equal. */
  lemma HouseTextCodes(raw: Table, stats: Stats, n: string, i: nat, j: nat)
    requires raw.Valid() && HouseTransform(raw, stats).Ok?
    requires n in raw.cols && raw.cols[n].CatCol? && n !in HouseDropList && n !in Assigned(Derivations)
    requires i < raw.height && j < raw.height
    ensures n in HouseTransform(raw, stats).value.table.cols
    ensures var c := HouseTransform(raw, stats).value.table.cols[n];
      var filled := FillNa(raw.cols[n].cats, stats.textMode(n));
      && c.NumCol? && i < |c.nums| && j < |c.nums| && i < |filled| && j < |filled|
      && (c.nums[i] == c.nums[j] <==> filled[i] == filled[j])
  {
    HouseTextEncoded(raw, stats, n);
    var filled := FillNa(raw.cols[n].cats, stats.textMode(n));
    var c := CatCol(filled);
    assert raw.cols[n].Length() == raw.height;
    assert HouseTransform(raw, stats).value.table.cols[n] == Encode(c);
    EncodeSpec(c);
    assert Encode(c).nums[i] == Encode(c).nums[j] <==> c.Cells()[i] == c.Cells()[j];
    assert c.Cells()[i] == TextCell(filled[i].value) && c.Cells()[j] == TextCell(filled[j].value);
  }

  /** A kept raw numeric column is written standardized, after its missing
      cells were replaced by the median. */
  lemma HouseNumericScaled(raw: Table, stats: Stats, n: string)
    requires raw.Valid() && HouseTransform(raw, stats).Ok?
    requires n in raw.cols && raw.cols[n].NumCol? && n !in HouseDropList && n !in Assigned(Derivations)
    ensures n in HouseTransform(raw, stats).value.table.cols
    ensures HouseTransform(raw, stats).value.table.cols[n]
      == NumCol(Standardize(FillNa(raw.cols[n].nums, stats.median(n)), stats.moments(n)))
  {
    KeptByDrop(raw, n);
    DerivationsIndependent();
    NumericColumnScaled(Dropped(raw), Derivations, stats, n);
  }

  /** The target column, when present, is standardized like every other
      numeric column: line 74 lists it among the numeric features. */
  lemma TargetScaled(raw: Table, stats: Stats)
    requires raw.Valid() && HouseTransform(raw, stats).Ok?
    requires "SalePrice" in raw.cols && raw.cols["SalePrice"].NumCol?
    ensures "SalePrice" in HouseTransform(raw, stats).value.table.cols
    ensures HouseTransform(raw, stats).value.table.cols["SalePrice"]
      == NumCol(Standardize(FillNa(raw.cols["SalePrice"].nums, stats.median("SalePrice")), stats.moments("SalePrice")))
  {
    TargetNotAssigned();
    HouseNumericScaled(raw, stats, "SalePrice");
  }

  /** Row `i` of a raw numeric column after the median imputation. */
  function RawFilled(raw: Table, stats: Stats, n: string, i: nat): real
    requires raw.Valid() && n in raw.cols && raw.cols[n].NumCol? && i < raw.height
  {
    assert raw.cols[n].Length() == raw.height;
    raw.cols[n].nums[i].GetOr(stats.median(n))
  }

  /** A derived feature is written as the standardized weighted sum of its
      operands' raw values, missing ones replaced by the median, unless a
      text column of that name survived the drop. */
  lemma HouseDerivedFeature(raw: Table, stats: Stats, j: nat, i: nat)
    requires raw.Valid() && HouseTransform(raw, stats).Ok?
    requires j < |Derivations| && i < raw.height
    requires !(Derivations[j].name in raw.cols && raw.cols[Derivations[j].name].CatCol? && Derivations[j].name !in HouseDropList)
    ensures OperandsNumeric(raw, Derivations[j].terms)
    ensures Derivations[j].name in HouseTransform(raw, stats).value.table.cols
    ensures var c := HouseTransform(raw, stats).value.table.cols[Derivations[j].name];
      && c.NumCol? && i < |c.nums|
      && c.nums[i] == ScaleCell(Combine(Derivations[j].terms, ImputedCells(raw, stats, Derivations[j].terms, i)),
                                stats.moments(Derivations[j].name))
  {
    var d := Dropped(raw);
    var terms := Derivations[j].terms;
    DerivationsIndependent();
    DerivedFeature(d, Derivations, stats, j, i);
    assert OperandsNumeric(raw, terms);
    assert ImputedCells(d, stats, terms, i) == ImputedCells(raw, stats, terms, i);
  }
}
