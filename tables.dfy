/** The in-memory table both feature pipelines work on, and pure models of
    the pandas and scikit-learn calls they make on it.

    A column carries its kind explicitly: `NumCol` is a numeric pandas
    column (int64 or float64), `CatCol` an object column of text. A missing
    cell (NaN) is `None`. Numbers are exact reals. */
module Tables {
  import opened Wrappers
  import opened Seqs

  datatype Kind = Numerical | Categorical

  datatype Column = NumCol(nums: seq<Option<real>>) | CatCol(cats: seq<Option<string>>)
  {
    function Length(): nat {
      match this
      case NumCol(xs) => |xs|
      case CatCol(xs) => |xs|
    }

    function Kind(): Kind {
      if NumCol? then Numerical else Categorical
    }

    /** True when at least one cell is not missing. */
    predicate HasValue() {
      match this
      case NumCol(xs) => AnyPresent(xs)
      case CatCol(xs) => AnyPresent(xs)
    }

    /** True when no cell is missing. */
    predicate Complete() {
      match this
      case NumCol(xs) => NoneMissing(xs)
      case CatCol(xs) => NoneMissing(xs)
    }

    /** The cells of the column, whatever its kind. */
    function Cells(): (cs: seq<Cell>)
      ensures |cs| == Length()
    {
      match this
      case NumCol(xs) =>
        seq(|xs|, i requires 0 <= i < |xs| => match xs[i] case None => Missing case Some(x) => NumCell(x))
      case CatCol(xs) =>
        seq(|xs|, i requires 0 <= i < |xs| => match xs[i] case None => Missing case Some(s) => TextCell(s))
    }
  }

  /** One cell of a table. */
  datatype Cell = NumCell(x: real) | TextCell(s: string) | Missing

  predicate AnyPresent<T>(xs: seq<Option<T>>) {
    exists i | 0 <= i < |xs| :: xs[i].Some?
  }

  predicate NoneMissing<T>(xs: seq<Option<T>>) {
    forall i | 0 <= i < |xs| :: xs[i].Some?
  }

  /** Why a transform aborts. */
  datatype Error =
    | MissingColumn(name: string)  // pandas KeyError on `df[name]`
    | NotNumeric(name: string)     // arithmetic, median or scaling on a text column
    | NotText(name: string)        // the `.str` accessor on a non-text column
    | EmptyMode(name: string)      // `mode()[0]` of a column with no value
    | AllMissing(name: string)     // SimpleImputer discards the column, so the assignment back fails
    | NoFeatures                   // scikit-learn refuses an array with no column
    | NoRows                       // scikit-learn refuses an array with no row

  /** A table: ordered distinct column names, one column per name, all of
      the same height. */
  datatype Table = Table(names: seq<string>, cols: map<string, Column>, height: nat)
  {
    ghost predicate Valid() {
      && NoDuplicates(names)
      && (forall n :: n in cols <==> n in names)
      && (forall n | n in cols :: cols[n].Length() == height)
    }
  }

  /** `df[n]`. */
  function Lookup(t: Table, n: string): Result<Column, Error> {
    if n in t.cols then Ok(t.cols[n]) else Err(MissingColumn(n))
  }

  /** `df[n]` where the caller goes on to do arithmetic with it. */
  function LookupNumeric(t: Table, n: string): Result<seq<Option<real>>, Error> {
    if n !in t.cols then Err(MissingColumn(n))
    else if t.cols[n].CatCol? then Err(NotNumeric(n))
    else Ok(t.cols[n].nums)
  }

  /** `df[n] = c`: an existing column is replaced where it stands, a new one
      is appended after the last column. */
  function SetColumn(t: Table, n: string, c: Column): (r: Table)
    requires t.Valid() && c.Length() == t.height
    ensures r.Valid() && r.height == t.height
    ensures r.cols == t.cols[n := c]
    ensures n in t.cols ==> r.names == t.names
    ensures n !in t.cols ==> r.names == t.names + [n]
  {
    Table(AddName(t.names, n), t.cols[n := c], t.height)
  }

  /** `df.drop(labels, axis=1, errors="ignore")`. */
  function DropColumns(t: Table, labels: seq<string>): (r: Table)
    requires t.Valid()
    ensures r.Valid() && r.height == t.height
    ensures r.names == Without(t.names, labels)
    ensures forall n | n in r.cols :: n in t.cols && r.cols[n] == t.cols[n]
  {
    FilterNoDuplicates(t.names, x => x !in labels);
    Table(Without(t.names, labels), map n | n in t.cols && n !in labels :: t.cols[n], t.height)
  }

  /** The first name of `fs` that is not a column of `t`. */
  function FirstAbsent(t: Table, fs: seq<string>): string
    requires exists n | n in fs :: n !in t.cols
  {
    if fs[0] !in t.cols then fs[0] else FirstAbsent(t, fs[1..])
  }

  /** The first absent name of a concatenation lies in the first part when
      that part has one, otherwise in the second. */
  lemma {:induction false} FirstAbsentAppend(t: Table, a: seq<string>, b: seq<string>)
    requires exists n | n in a + b :: n !in t.cols
    ensures (exists n | n in a :: n !in t.cols) ==> FirstAbsent(t, a + b) == FirstAbsent(t, a)
    ensures (forall n | n in a :: n in t.cols) ==>
      (exists n | n in b :: n !in t.cols) && FirstAbsent(t, a + b) == FirstAbsent(t, b)
    decreases |a|
  {
    if a == [] {
      assert a + b == b;
    } else {
      assert (a + b)[0] == a[0] && (a + b)[1..] == a[1..] + b;
      if a[0] in t.cols {
        var n :| n in a + b && n !in t.cols;
        assert n in a[1..] + b;
        FirstAbsentAppend(t, a[1..], b);
      }
    }
  }

  /** `df[fs]` for a list `fs` of distinct names: a new table holding exactly
      those columns, in the order of `fs`; KeyError if one is absent. */
  function SelectColumns(t: Table, fs: seq<string>): (r: Result<Table, Error>)
    requires t.Valid() && NoDuplicates(fs)
    ensures r.Ok? <==> forall n | n in fs :: n in t.cols
    ensures r.Ok? ==> r.value.Valid() && r.value.names == fs && r.value.height == t.height
    ensures r.Ok? ==> forall n | n in fs :: r.value.cols[n] == t.cols[n]
    ensures r.Err? ==> (exists n | n in fs :: n !in t.cols) && r.error == MissingColumn(FirstAbsent(t, fs))
  {
    if forall n | n in fs :: n in t.cols then
      Ok(Table(fs, map n | n in fs :: t.cols[n], t.height))
    else
      Err(MissingColumn(FirstAbsent(t, fs)))
  }

  /** `df[block.names] = block`: every column of `block` replaces the column
      of that name, and names not yet in `t` are appended in block order. */
  function AssignAll(t: Table, block: Table): (r: Table)
    requires t.Valid() && block.Valid() && block.height == t.height
    ensures r.Valid() && r.height == t.height
    ensures r.cols == t.cols + block.cols
    ensures (forall n | n in block.names :: n in t.cols) ==> r.names == t.names
  {
    var added := Without(block.names, t.names);
    FilterNoDuplicates(block.names, x => x !in t.names);
    WithoutAbsent(added, t.names);
    assert (forall n | n in block.names :: n in t.cols) ==> added == [] by {
      if added != [] {
        assert added[0] in added;
      }
    }
    AppendNoDuplicates(t.names, added);
    Table(t.names + added, t.cols + block.cols, t.height)
  }

  /** The names of the columns of kind `k`, in table order: pandas'
      `df.select_dtypes(...).columns`. */
  function NamesOfKind(t: Table, k: Kind): (r: seq<string>)
    ensures forall n :: n in r <==> n in t.names && n in t.cols && t.cols[n].Kind() == k
  {
    Filter(t.names, n => n in t.cols && t.cols[n].Kind() == k)
  }

  /** Every column of a table is tagged numerical or categorical, never both,
      and each tag list keeps the table's order and has no repeats. */
  lemma KindsPartition(t: Table)
    requires t.Valid()
    ensures NoDuplicates(NamesOfKind(t, Numerical)) && NoDuplicates(NamesOfKind(t, Categorical))
    ensures forall n | n in t.names :: (n in NamesOfKind(t, Numerical)) != (n in NamesOfKind(t, Categorical))
  {
    FilterNoDuplicates(t.names, n => n in t.cols && t.cols[n].Kind() == Numerical);
    FilterNoDuplicates(t.names, n => n in t.cols && t.cols[n].Kind() == Categorical);
  }

  /** `Series.fillna(v)`: every missing cell becomes `v`, every other cell is
      kept. */
  function FillNa<T>(xs: seq<Option<T>>, v: T): (r: seq<Option<T>>)
    ensures |r| == |xs| && NoneMissing(r)
    ensures forall i | 0 <= i < |xs| && xs[i].Some? :: r[i] == xs[i]
    ensures forall i | 0 <= i < |xs| && xs[i].None? :: r[i] == Some(v)
  {
    seq(|xs|, i requires 0 <= i < |xs| => Some(xs[i].GetOr(v)))
  }

  type Positive = r: real | r > 0.0 witness 1.0

  /** The mean and the standard deviation StandardScaler fits for one column
      (scikit-learn replaces a zero deviation by 1, so it is positive). */
  datatype Moments = Moments(mean: real, std: Positive)

  /** The statistics the libraries compute from the data, taken as given:
      column medians, column modes and scaler moments. */
  datatype Stats = Stats(
    median: string -> real,       // `median()` of a numeric column
    textMode: string -> string,   // `mode()[0]` / most frequent value of a text column
    numberMode: string -> real,   // `mode()[0]` of a numeric column
    moments: string -> Moments)   // StandardScaler's fit of a column

  /** StandardScaler's transform of one cell, `(x - mean) / std`; a
      missing cell stays missing. The mean and deviation are recovered from
      the result. */
  function ScaleCell(x: Option<real>, m: Moments): (r: Option<real>)
    ensures r.Some? == x.Some?
    ensures r.Some? ==> r.value * m.std + m.mean == x.value
  {
    match x
    case None => None
    case Some(v) => Some((v - m.mean) / m.std)
  }

  /** StandardScaler's transform of one column, cell by cell. */
  function Standardize(xs: seq<Option<real>>, m: Moments): (r: seq<Option<real>>)
    ensures |r| == |xs|
    ensures forall i | 0 <= i < |xs| :: r[i] == ScaleCell(xs[i], m)
  {
    seq(|xs|, i requires 0 <= i < |xs| => ScaleCell(xs[i], m))
  }

  /** `StandardScaler().fit_transform(block)`: every column standardized with
      its own moments; an empty block or a text column raises, a block
      with no row before anything else. */
  function StandardScale(block: Table, stats: Stats): (r: Result<Table, Error>)
    requires block.Valid()
    ensures r.Ok? <==> |block.names| > 0 && block.height > 0 && forall n | n in block.cols :: block.cols[n].NumCol?
    ensures block.height == 0 ==> r == Err(NoRows)
    ensures r.Ok? ==> r.value.Valid() && r.value.names == block.names && r.value.height == block.height
    ensures r.Ok? ==> forall n | n in block.cols ::
      r.value.cols[n] == NumCol(Standardize(block.cols[n].nums, stats.moments(n)))
  {
    var text := Filter(block.names, n => n in block.cols && block.cols[n].CatCol?);
    if block.height == 0 then Err(NoRows)
    else if |block.names| == 0 then Err(NoFeatures)
    else if text != [] then assert text[0] in text; Err(NotNumeric(text[0]))
    else
      assert forall n | n in block.cols :: block.cols[n].NumCol? by {
        forall n | n in block.cols ensures block.cols[n].NumCol? {
          assert n in block.names && n !in text;
        }
      }
      Ok(Table(block.names,
               map n | n in block.cols :: NumCol(Standardize(block.cols[n].nums, stats.moments(n))),
               block.height))
  }

  /** One column of SimpleImputer's output: the median fills a numeric
      column, the most frequent value a text column. */
  function ImputeColumn(c: Column, n: string, stats: Stats): (r: Column)
    ensures r.Kind() == c.Kind() && r.Length() == c.Length() && r.Complete()
    ensures forall i | 0 <= i < c.Length() && c.Cells()[i] != Missing :: r.Cells()[i] == c.Cells()[i]
    ensures forall i | 0 <= i < c.Length() && c.Cells()[i] == Missing ::
      r.Cells()[i] == if c.NumCol? then NumCell(stats.median(n)) else TextCell(stats.textMode(n))
  {
    match c
    case NumCol(xs) => NumCol(FillNa(xs, stats.median(n)))
    case CatCol(xs) => CatCol(FillNa(xs, stats.textMode(n)))
  }

  /** `SimpleImputer(...).fit_transform(block)` where `block` holds columns
      of the kind the strategy is meant for. An empty block raises, and a
      column with no value at all is discarded by the imputer, so the
      assignment of the result back into the frame raises. scikit-learn
      counts the rows before the columns. */
  function SimpleImpute(block: Table, stats: Stats): (r: Result<Table, Error>)
    requires block.Valid()
    ensures r.Ok? <==> |block.names| > 0 && block.height > 0 && forall n | n in block.cols :: block.cols[n].HasValue()
    ensures block.height == 0 ==> r == Err(NoRows)
    ensures r.Ok? ==> r.value.Valid() && r.value.names == block.names && r.value.height == block.height
    ensures r.Ok? ==> forall n | n in block.cols :: r.value.cols[n] == ImputeColumn(block.cols[n], n, stats)
  {
    var empty := Filter(block.names, n => n in block.cols && !block.cols[n].HasValue());
    if block.height == 0 then Err(NoRows)
    else if |block.names| == 0 then Err(NoFeatures)
    else if empty != [] then assert empty[0] in empty; Err(AllMissing(empty[0]))
    else
      assert forall n | n in block.cols :: block.cols[n].HasValue() by {
        forall n | n in block.cols ensures block.cols[n].HasValue() {
          assert n in block.names && n !in empty;
        }
      }
      Ok(Table(block.names, map n | n in block.cols :: ImputeColumn(block.cols[n], n, stats), block.height))
  }
}
