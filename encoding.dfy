/** scikit-learn's LabelEncoder as the pipelines use it, fit and applied to
    one column at a time: the classes are the column's distinct values in
    sorted order, and each cell is replaced by the position of its value
    among them. Text sorts as Python's `str` does; a missing cell counts as
    a value of its own that sorts after every other value. */
module LabelEncoding {
  import opened Wrappers
  import opened Tables

  /** Python's `<` on `str`: the first differing code point decides, and a
      proper prefix comes first. */
  predicate TextLess(a: string, b: string) {
    if a == [] then b != []
    else if b == [] then false
    else if a[0] != b[0] then a[0] < b[0]
    else TextLess(a[1..], b[1..])
  }

  function Tag(k: Cell): nat {
    match k
    case NumCell(_) => 0
    case TextCell(_) => 1
    case Missing => 2
  }

  /** The order the encoder sorts a column's values in. A column holds
      numbers or text, never both; a missing cell comes last. */
  predicate CellLess(a: Cell, b: Cell) {
    if Tag(a) != Tag(b) then Tag(a) < Tag(b)
    else match (a, b)
      case (NumCell(x), NumCell(y)) => x < y
      case (TextCell(s), TextCell(u)) => TextLess(s, u)
      case _ => false
  }

  lemma {:induction false} TextLessIrreflexive(a: string)
    ensures !TextLess(a, a)
  {
    if a != [] {
      TextLessIrreflexive(a[1..]);
    }
  }

  lemma {:induction false} TextLessTransitive(a: string, b: string, c: string)
    requires TextLess(a, b) && TextLess(b, c)
    ensures TextLess(a, c)
  {
    if a != [] && a[0] == b[0] && b[0] == c[0] {
      TextLessTransitive(a[1..], b[1..], c[1..]);
    }
  }

  lemma {:induction false} TextLessTotal(a: string, b: string)
    requires a != b
    ensures TextLess(a, b) || TextLess(b, a)
  {
    if a != [] && b != [] && a[0] == b[0] {
      assert a == [a[0]] + a[1..] && b == [b[0]] + b[1..];
      TextLessTotal(a[1..], b[1..]);
    }
  }

  /** CellLess is a strict total order. */
  lemma CellLessStrictTotal(a: Cell, b: Cell, c: Cell)
    ensures !CellLess(a, a)
    ensures CellLess(a, b) && CellLess(b, c) ==> CellLess(a, c)
    ensures a != b ==> CellLess(a, b) || CellLess(b, a)
  {
    if a.TextCell? {
      TextLessIrreflexive(a.s);
      if b.TextCell? && c.TextCell? && CellLess(a, b) && CellLess(b, c) {
        TextLessTransitive(a.s, b.s, c.s);
      }
      if b.TextCell? && a != b {
        TextLessTotal(a.s, b.s);
      }
    }
  }

  /** The distinct values of a column (the encoder's `classes_`). */
  function Distinct(ks: seq<Cell>): set<Cell> {
    set k | k in ks
  }

  /** The position of `k` in the sorted list of `d`: how many values of `d`
      sort before it. */
  function Rank(d: set<Cell>, k: Cell): nat {
    |set u | u in d && CellLess(u, k)|
  }

  lemma SubsetCard(a: set<Cell>, b: set<Cell>)
    requires a <= b
    ensures |a| <= |b|
    ensures a < b ==> |a| < |b|
  {
    assert a + (b - a) == b;
    assert a * (b - a) == {};
    if a < b {
      var x :| x in b && x !in a;
      assert x in b - a;
    }
  }

  /** A value's rank is below the number of distinct values. */
  lemma RankBelowCount(d: set<Cell>, k: Cell)
    requires k in d
    ensures Rank(d, k) < |d|
  {
    CellLessStrictTotal(k, k, k);
    var below := set u | u in d && CellLess(u, k);
    SubsetCard(below, d - {k});
  }

  /** A value that sorts earlier has a smaller rank. */
  lemma RankMonotone(d: set<Cell>, a: Cell, b: Cell)
    requires a in d && b in d && CellLess(a, b)
    ensures Rank(d, a) < Rank(d, b)
  {
    var below_a := set u | u in d && CellLess(u, a);
    var below_b := set u | u in d && CellLess(u, b);
    forall u | u in below_a ensures u in below_b {
      CellLessStrictTotal(u, a, b);
    }
    CellLessStrictTotal(a, a, a);
    assert a in below_b && a !in below_a;
    SubsetCard(below_a, below_b);
  }

  /** The integer codes `LabelEncoder().fit_transform` gives a column: each
      value's position among the sorted distinct values, so a code lies in
      0..k-1 for k distinct values. */
  function Codes(ks: seq<Cell>): (r: seq<nat>)
    ensures |r| == |ks|
    ensures forall i | 0 <= i < |ks| :: r[i] < |Distinct(ks)|
  {
    var d := Distinct(ks);
    var r := seq(|ks|, i requires 0 <= i < |ks| => Rank(d, ks[i]));
    assert forall i | 0 <= i < |ks| :: r[i] < |d| by {
      forall i | 0 <= i < |ks| ensures r[i] < |d| {
        RankBelowCount(d, ks[i]);
      }
    }
    r
  }

  /** Equal values get equal codes, distinct values distinct codes, and the
      codes follow the sorted order of the values. */
  lemma CodesFollowValues(ks: seq<Cell>)
    ensures forall i, j | 0 <= i < |ks| && 0 <= j < |ks| :: Codes(ks)[i] == Codes(ks)[j] <==> ks[i] == ks[j]
    ensures forall i, j | 0 <= i < |ks| && 0 <= j < |ks| :: CellLess(ks[i], ks[j]) ==> Codes(ks)[i] < Codes(ks)[j]
  {
    var d := Distinct(ks);
    var r := Codes(ks);
    forall i, j | 0 <= i < |ks| && 0 <= j < |ks| && CellLess(ks[i], ks[j]) ensures r[i] < r[j] {
      RankMonotone(d, ks[i], ks[j]);
    }
    forall i, j | 0 <= i < |ks| && 0 <= j < |ks| && ks[i] != ks[j] ensures r[i] != r[j] {
      CellLessStrictTotal(ks[i], ks[j], ks[j]);
    }
  }

  /** `LabelEncoder().fit_transform(df[n])`: a numeric column of the codes. */
  function Encode(c: Column): (r: Column)
    ensures r.NumCol? && r.Length() == c.Length() && r.Complete()
  {
    var codes := Codes(c.Cells());
    NumCol(seq(|codes|, i requires 0 <= i < |codes| => Some(codes[i] as real)))
  }

  /** Per column, the encoding gives equal values equal codes and distinct
      values distinct codes, and every code is a whole number in 0..k-1,
      where k is the number of distinct values in the column. */
  lemma EncodeSpec(c: Column)
    ensures forall i, j | 0 <= i < c.Length() && 0 <= j < c.Length() ::
      Encode(c).nums[i] == Encode(c).nums[j] <==> c.Cells()[i] == c.Cells()[j]
    ensures forall i | 0 <= i < c.Length() ::
      Encode(c).nums[i].Some? && Encode(c).nums[i].value == Encode(c).nums[i].value.Floor as real &&
      0.0 <= Encode(c).nums[i].value < |Distinct(c.Cells())| as real
  {
    CodesFollowValues(c.Cells());
  }
}
