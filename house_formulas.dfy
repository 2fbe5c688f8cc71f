/** The five derived house features, formula by formula (lines 53-71 of
    `process_house.py`): each is the exact sum or difference of its operand
    cells in the same row, and missing (NaN) when one of them is. */
module HouseFormulas {
  import opened Wrappers
  import opened Tables
  import opened House

  /** `n` names a numeric column of `t`. */
  predicate NumericIn(t: Table, n: string) {
    n in t.cols && t.cols[n].NumCol?
  }

  /** Row `i` of the numeric column `n`. */
  function ValueAt(t: Table, n: string, i: nat): Option<real>
    requires t.Valid() && NumericIn(t, n) && i < t.height
  {
    assert t.cols[n].Length() == t.height;
    t.cols[n].nums[i]
  }

  // ---------------------------------------------------------------------
  // Column arithmetic as pandas does it: NaN in, NaN out

  function Plus(x: Option<real>, y: Option<real>): Option<real> {
    if x.Some? && y.Some? then Some(x.value + y.value) else None
  }

  function Minus(x: Option<real>, y: Option<real>): Option<real> {
    if x.Some? && y.Some? then Some(x.value - y.value) else None
  }

  function Times(x: Option<real>, k: real): Option<real> {
    if x.Some? then Some(x.value * k) else None
  }

  // ---------------------------------------------------------------------
  // Weighted sums of a fixed number of present cells

  lemma {:induction false} CombineTwo(terms: seq<Term>, cs: seq<Option<real>>)
    requires |terms| == |cs| == 2 && cs[0].Some? && cs[1].Some?
    ensures Combine(terms, cs) == Some(terms[0].weight * cs[0].value + terms[1].weight * cs[1].value)
  {
    CombineStep(terms, cs);
    CombineStep(terms[1..], cs[1..]);
    assert cs[1..][1..] == [];
    assert terms[1..][0] == terms[1] && cs[1..][0] == cs[1];
    assert Combine(terms[1..][1..], cs[1..][1..]).value == 0.0;
    assert Combine(terms[1..], cs[1..]).value == terms[1].weight * cs[1].value;
  }

  lemma {:induction false} CombineThree(terms: seq<Term>, cs: seq<Option<real>>)
    requires |terms| == |cs| == 3 && cs[0].Some? && cs[1].Some? && cs[2].Some?
    ensures Combine(terms, cs)
         == Some(terms[0].weight * cs[0].value + terms[1].weight * cs[1].value + terms[2].weight * cs[2].value)
  {
    CombineStep(terms, cs);
    assert terms[1..][0] == terms[1] && terms[1..][1] == terms[2];
    assert cs[1..][0] == cs[1] && cs[1..][1] == cs[2];
    CombineTwo(terms[1..], cs[1..]);
    var rest := terms[1].weight * cs[1].value + terms[2].weight * cs[2].value;
    assert Combine(terms[1..], cs[1..]).value == rest;
    assert Combine(terms, cs).value == terms[0].weight * cs[0].value + rest;
  }

  lemma {:induction false} CombineFour(terms: seq<Term>, cs: seq<Option<real>>)
    requires |terms| == |cs| == 4 && cs[0].Some? && cs[1].Some? && cs[2].Some? && cs[3].Some?
    ensures Combine(terms, cs)
         == Some(terms[0].weight * cs[0].value + terms[1].weight * cs[1].value
                 + terms[2].weight * cs[2].value + terms[3].weight * cs[3].value)
  {
    CombineStep(terms, cs);
    assert terms[1..][0] == terms[1] && terms[1..][1] == terms[2] && terms[1..][2] == terms[3];
    assert cs[1..][0] == cs[1] && cs[1..][1] == cs[2] && cs[1..][2] == cs[3];
    CombineThree(terms[1..], cs[1..]);
    var rest := terms[1].weight * cs[1].value + terms[2].weight * cs[2].value + terms[3].weight * cs[3].value;
    assert Combine(terms[1..], cs[1..]).value == rest;
    assert Combine(terms, cs).value == terms[0].weight * cs[0].value + rest;
  }

  // ---------------------------------------------------------------------
  // One derived row

  /** Row `i` of the `j`-th derived column is the weighted sum of row `i` of
      its operands, read in the table the derivation starts from. */
  lemma DerivedRow(t: Table, j: nat, i: nat)
    requires t.Valid() && WithDerived(t).Ok? && j < |Derivations| && i < t.height
    ensures OperandsNumeric(t, Derivations[j].terms)
    ensures Derivations[j].name in WithDerived(t).value.cols
    ensures var c := WithDerived(t).value.cols[Derivations[j].name];
      && c.NumCol? && i < |c.nums|
      && c.nums[i] == Combine(Derivations[j].terms, CellsAt(t, Derivations[j].terms, i))
  {
    DerivationsIndependent();
    DeriveAllAssigned(t, Derivations);
  }

  /** The cells of a two-operand row. */
  lemma CellsTwo(t: Table, terms: seq<Term>, i: nat)
    requires t.Valid() && OperandsNumeric(t, terms) && i < t.height && |terms| == 2
    ensures CellsAt(t, terms, i) == [ValueAt(t, terms[0].name, i), ValueAt(t, terms[1].name, i)]
  {
  }

  /** The cells of a three-operand row. */
  lemma CellsThree(t: Table, terms: seq<Term>, i: nat)
    requires t.Valid() && OperandsNumeric(t, terms) && i < t.height && |terms| == 3
    ensures CellsAt(t, terms, i)
         == [ValueAt(t, terms[0].name, i), ValueAt(t, terms[1].name, i), ValueAt(t, terms[2].name, i)]
  {
  }

  /** The cells of a four-operand row. */
  lemma CellsFour(t: Table, terms: seq<Term>, i: nat)
    requires t.Valid() && OperandsNumeric(t, terms) && i < t.height && |terms| == 4
    ensures CellsAt(t, terms, i)
         == [ValueAt(t, terms[0].name, i), ValueAt(t, terms[1].name, i),
             ValueAt(t, terms[2].name, i), ValueAt(t, terms[3].name, i)]
  {
  }

  // ---------------------------------------------------------------------
  // The weighted sums, read as the expressions the source writes

  /** `a - b`. */
  lemma {:induction false} CombineDifference(terms: seq<Term>, x: Option<real>, y: Option<real>)
    requires |terms| == 2 && terms[0].weight == 1.0 && terms[1].weight == -1.0
    ensures Combine(terms, [x, y]) == Minus(x, y)
  {
    var cs := [x, y];
    if x.Some? && y.Some? {
      CombineTwo(terms, cs);
      assert terms[0].weight * x.value + terms[1].weight * y.value == x.value - y.value;
    } else {
      assert !(cs[0].Some? && cs[1].Some?);
    }
  }

  /** `a + b + c`. */
  lemma {:induction false} CombineSumOfThree(terms: seq<Term>, x: Option<real>, y: Option<real>, z: Option<real>)
    requires |terms| == 3 && terms[0].weight == 1.0 && terms[1].weight == 1.0 && terms[2].weight == 1.0
    ensures Combine(terms, [x, y, z]) == Plus(Plus(x, y), z)
  {
    var cs := [x, y, z];
    if x.Some? && y.Some? && z.Some? {
      CombineThree(terms, cs);
      var a, b, c := x.value, y.value, z.value;
      assert terms[0].weight * a + terms[1].weight * b + terms[2].weight * c == a + b + c;
      assert Combine(terms, cs).value == a + b + c;
      assert Plus(x, y).value == a + b;
    } else {
      assert !(cs[0].Some? && cs[1].Some? && cs[2].Some?);
    }
  }

  /** `a + b + c + d`. */
  lemma {:induction false} CombineSumOfFour(terms: seq<Term>, w: Option<real>, x: Option<real>, y: Option<real>, z: Option<real>)
    requires |terms| == 4
    requires terms[0].weight == 1.0 && terms[1].weight == 1.0 && terms[2].weight == 1.0 && terms[3].weight == 1.0
    ensures Combine(terms, [w, x, y, z]) == Plus(Plus(Plus(w, x), y), z)
  {
    var cs := [w, x, y, z];
    if w.Some? && x.Some? && y.Some? && z.Some? {
      CombineFour(terms, cs);
      var a, b, c, d := w.value, x.value, y.value, z.value;
      assert terms[0].weight * a + terms[1].weight * b + terms[2].weight * c + terms[3].weight * d == a + b + c + d;
      assert Combine(terms, cs).value == a + b + c + d;
      assert Plus(w, x).value == a + b;
      assert Plus(Plus(w, x), y).value == a + b + c;
    } else {
      assert !(cs[0].Some? && cs[1].Some? && cs[2].Some? && cs[3].Some?);
    }
  }

  /** `a + b * 0.5 + c + d * 0.5`. */
  lemma {:induction false} CombineBathrooms(terms: seq<Term>, w: Option<real>, x: Option<real>, y: Option<real>, z: Option<real>)
    requires |terms| == 4
    requires terms[0].weight == 1.0 && terms[1].weight == 0.5 && terms[2].weight == 1.0 && terms[3].weight == 0.5
    ensures Combine(terms, [w, x, y, z]) == Plus(Plus(Plus(w, Times(x, 0.5)), y), Times(z, 0.5))
  {
    var cs := [w, x, y, z];
    if w.Some? && x.Some? && y.Some? && z.Some? {
      CombineFour(terms, cs);
      var a, b, c, d := w.value, x.value, y.value, z.value;
      assert terms[0].weight * a + terms[1].weight * b + terms[2].weight * c + terms[3].weight * d
          == a + b * 0.5 + c + d * 0.5;
      assert Combine(terms, cs).value == a + b * 0.5 + c + d * 0.5;
      assert Plus(w, Times(x, 0.5)).value == a + b * 0.5;
      assert Plus(Plus(w, Times(x, 0.5)), y).value == a + b * 0.5 + c;
      assert Times(z, 0.5).value == d * 0.5;
    } else {
      assert !(cs[0].Some? && cs[1].Some? && cs[2].Some? && cs[3].Some?);
    }
  }

  // ---------------------------------------------------------------------
  // The five formulas

  /** Line 54: total floor area is basement plus first plus second floor. */
  lemma TotalSFFormula(t: Table, i: nat)
    requires t.Valid() && WithDerived(t).Ok? && i < t.height
    ensures NumericIn(t, "TotalBsmtSF") && NumericIn(t, "1stFlrSF") && NumericIn(t, "2ndFlrSF")
    ensures "TotalSF" in WithDerived(t).value.cols
    ensures var c := WithDerived(t).value.cols["TotalSF"];
      && c.NumCol? && i < |c.nums|
      && c.nums[i] == Plus(Plus(ValueAt(t, "TotalBsmtSF", i), ValueAt(t, "1stFlrSF", i)), ValueAt(t, "2ndFlrSF", i))
  {
    assert Derivations[0] == TotalSF;
    DerivedRow(t, 0, i);
    CellsThree(t, TotalSF.terms, i);
    CombineSumOfThree(TotalSF.terms, ValueAt(t, "TotalBsmtSF", i), ValueAt(t, "1stFlrSF", i), ValueAt(t, "2ndFlrSF", i));
  }

  /** Lines 57-62: full baths count one, half baths one half, above and
      below ground. */
  lemma TotalBathroomsFormula(t: Table, i: nat)
    requires t.Valid() && WithDerived(t).Ok? && i < t.height
    ensures NumericIn(t, "FullBath") && NumericIn(t, "HalfBath") && NumericIn(t, "BsmtFullBath") && NumericIn(t, "BsmtHalfBath")
    ensures "TotalBathrooms" in WithDerived(t).value.cols
    ensures var c := WithDerived(t).value.cols["TotalBathrooms"];
      && c.NumCol? && i < |c.nums|
      && c.nums[i] == Plus(Plus(Plus(ValueAt(t, "FullBath", i), Times(ValueAt(t, "HalfBath", i), 0.5)),
                                ValueAt(t, "BsmtFullBath", i)),
                           Times(ValueAt(t, "BsmtHalfBath", i), 0.5))
  {
    assert Derivations[1] == TotalBathrooms;
    DerivedRow(t, 1, i);
    CellsFour(t, TotalBathrooms.terms, i);
    CombineBathrooms(TotalBathrooms.terms, ValueAt(t, "FullBath", i), ValueAt(t, "HalfBath", i),
                     ValueAt(t, "BsmtFullBath", i), ValueAt(t, "BsmtHalfBath", i));
  }

  /** Line 65: the age at sale is the sale year minus the construction year. */
  lemma HouseAgeFormula(t: Table, i: nat)
    requires t.Valid() && WithDerived(t).Ok? && i < t.height
    ensures NumericIn(t, "YrSold") && NumericIn(t, "YearBuilt")
    ensures "HouseAge" in WithDerived(t).value.cols
    ensures var c := WithDerived(t).value.cols["HouseAge"];
      && c.NumCol? && i < |c.nums|
      && c.nums[i] == Minus(ValueAt(t, "YrSold", i), ValueAt(t, "YearBuilt", i))
  {
    assert Derivations[2] == HouseAge;
    DerivedRow(t, 2, i);
    CellsTwo(t, HouseAge.terms, i);
    CombineDifference(HouseAge.terms, ValueAt(t, "YrSold", i), ValueAt(t, "YearBuilt", i));
  }

  /** Line 66: the time since remodelling is the sale year minus the
      remodelling year. */
  lemma RemodAgeFormula(t: Table, i: nat)
    requires t.Valid() && WithDerived(t).Ok? && i < t.height
    ensures NumericIn(t, "YrSold") && NumericIn(t, "YearRemodAdd")
    ensures "RemodAge" in WithDerived(t).value.cols
    ensures var c := WithDerived(t).value.cols["RemodAge"];
      && c.NumCol? && i < |c.nums|
      && c.nums[i] == Minus(ValueAt(t, "YrSold", i), ValueAt(t, "YearRemodAdd", i))
  {
    assert Derivations[3] == RemodAge;
    DerivedRow(t, 3, i);
    CellsTwo(t, RemodAge.terms, i);
    CombineDifference(RemodAge.terms, ValueAt(t, "YrSold", i), ValueAt(t, "YearRemodAdd", i));
  }

  /** Lines 69-71: the porch area is the sum of the four porch kinds. */
  lemma TotalPorchSFFormula(t: Table, i: nat)
    requires t.Valid() && WithDerived(t).Ok? && i < t.height
    ensures NumericIn(t, "OpenPorchSF") && NumericIn(t, "EnclosedPorch") && NumericIn(t, "3SsnPorch") && NumericIn(t, "ScreenPorch")
    ensures "TotalPorchSF" in WithDerived(t).value.cols
    ensures var c := WithDerived(t).value.cols["TotalPorchSF"];
      && c.NumCol? && i < |c.nums|
      && c.nums[i] == Plus(Plus(Plus(ValueAt(t, "OpenPorchSF", i), ValueAt(t, "EnclosedPorch", i)),
                                ValueAt(t, "3SsnPorch", i)),
                           ValueAt(t, "ScreenPorch", i))
  {
    assert Derivations[4] == TotalPorchSF;
    DerivedRow(t, 4, i);
    CellsFour(t, TotalPorchSF.terms, i);
    CombineSumOfFour(TotalPorchSF.terms, ValueAt(t, "OpenPorchSF", i), ValueAt(t, "EnclosedPorch", i),
                     ValueAt(t, "3SsnPorch", i), ValueAt(t, "ScreenPorch", i));
  }
}
