/** Pipeline steps both feature transforms share: the label-encoding loop,
    the "select columns, run a scikit-learn transformer, assign the result
    back" pattern of imputation and scaling, and where the finished table
    goes. Each step is a pure function on tables and a method that performs
    it on a Frame in place. */
module Steps {
  import opened Wrappers
  import opened Seqs
  import opened Tables
  import opened Frames
  import opened LabelEncoding

  /** Where a processed table is written: split 80/20 into training and
      validation files when it has a label column, otherwise written whole. */
  datatype Destination = TrainValidationSplit | SingleFile

  datatype Processed = Processed(table: Table, destination: Destination)

  /** The destination for a table, given the name of its target column. */
  function DestinationFor(t: Table, target: string): (d: Destination)
    ensures d == TrainValidationSplit <==> target in t.cols
  {
    if target in t.cols then TrainValidationSplit else SingleFile
  }

  /** `for feature in fs: df[feature] = LabelEncoder().fit_transform(df[feature])`:
      each listed column is replaced by its codes, the others are kept, and
      the first absent name raises KeyError. */
  function EncodeColumns(t: Table, fs: seq<string>): (r: Result<Table, Error>)
    requires t.Valid() && NoDuplicates(fs)
    ensures r.Ok? <==> forall n | n in fs :: n in t.cols
    ensures r.Ok? ==> r.value.Valid() && r.value.names == t.names && r.value.height == t.height
    ensures r.Ok? ==> r.value.cols.Keys == t.cols.Keys
    ensures r.Ok? ==> forall n | n in t.cols ::
      n in r.value.cols && r.value.cols[n] == (if n in fs then Encode(t.cols[n]) else t.cols[n])
    decreases |fs|
  {
    if fs == [] then Ok(t)
    else
      var last := fs[|fs| - 1];
      FrontLast(fs);
      NoDuplicatesPrefix(fs, |fs| - 1);
      var t' :- EncodeColumns(t, fs[..|fs| - 1]);
      var c :- Lookup(t', last);
      Ok(SetColumn(t', last, Encode(c)))
  }

  /** The loop raises KeyError for the first listed name that is absent. */
  lemma {:induction false} EncodeColumnsError(t: Table, fs: seq<string>)
    requires t.Valid() && NoDuplicates(fs)
    ensures EncodeColumns(t, fs).Err? ==>
      (exists n | n in fs :: n !in t.cols) && EncodeColumns(t, fs).error == MissingColumn(FirstAbsent(t, fs))
    decreases |fs|
  {
    if fs != [] && EncodeColumns(t, fs).Err? {
      var init := fs[..|fs| - 1];
      FrontLast(fs);
      NoDuplicatesPrefix(fs, |fs| - 1);
      EncodeColumnsError(t, init);
      FirstAbsentAppend(t, init, [fs[|fs| - 1]]);
    }
  }

  /** Once a prefix of the list fails, the whole loop fails the same way. */
  lemma {:induction false} EncodeColumnsErrPrefix(t: Table, fs: seq<string>, k: nat)
    requires t.Valid() && NoDuplicates(fs) && k <= |fs| && NoDuplicates(fs[..k])
    requires EncodeColumns(t, fs[..k]).Err?
    ensures EncodeColumns(t, fs) == EncodeColumns(t, fs[..k])
    decreases |fs| - k
  {
    if k < |fs| {
      NoDuplicatesPrefix(fs, k + 1);
      assert fs[..k] == fs[..k + 1][..k];
      assert fs[..k + 1][..k + 1 - 1] == fs[..k];
      EncodeColumnsErrPrefix(t, fs, k + 1);
    } else {
      assert fs[..k] == fs;
    }
  }

  /** The encoding loop, run on the frame. */
  method EncodeInPlace(df: Frame, fs: seq<string>) returns (r: Result<Table, Error>)
    requires df.View().Valid() && NoDuplicates(fs)
    modifies df
    ensures r == EncodeColumns(old(df.View()), fs)
    ensures r.Ok? ==> df.View() == r.value
  {
    ghost var t0 := df.View();
    NoDuplicatesPrefix(fs, 0);
    for k := 0 to |fs|
      invariant df.View().Valid() && NoDuplicates(fs[..k])
      invariant EncodeColumns(t0, fs[..k]) == Ok(df.View())
    {
      NoDuplicatesPrefix(fs, k + 1);
      PrefixStep(fs, k);
      var c := df.Get(fs[k]);
      if c.Err? {
        r := Err(c.error);
        EncodeColumnsErrPrefix(t0, fs, k + 1);
        return;
      }
      df.Set(fs[k], Encode(c.value));
    }
    assert fs[..|fs|] == fs;
    r := Ok(df.View());
  }

  /** `df[fs] = transformer.fit_transform(df[fs])` for a transformer modelled
      by `fit`: only the listed columns change. */
  function ScaleColumns(t: Table, fs: seq<string>, stats: Stats): (r: Result<Table, Error>)
    requires t.Valid() && NoDuplicates(fs)
    ensures r.Ok? <==> |fs| > 0 && t.height > 0 && forall n | n in fs :: n in t.cols && t.cols[n].NumCol?
    ensures r.Ok? ==> r.value.Valid() && r.value.names == t.names && r.value.height == t.height
    ensures r.Ok? ==> r.value.cols.Keys == t.cols.Keys
    ensures r.Ok? ==> forall n | n in t.cols ::
      n in r.value.cols && r.value.cols[n] == (if n in fs then NumCol(Standardize(t.cols[n].nums, stats.moments(n))) else t.cols[n])
  {
    var block :- SelectColumns(t, fs);
    var scaled :- StandardScale(block, stats);
    Ok(AssignAll(t, scaled))
  }

  /** Scaling, run on the frame. */
  method ScaleInPlace(df: Frame, fs: seq<string>, stats: Stats) returns (r: Result<Table, Error>)
    requires df.View().Valid() && NoDuplicates(fs)
    modifies df
    ensures r == ScaleColumns(old(df.View()), fs, stats)
    ensures r.Ok? ==> df.View() == r.value
  {
    var block :- df.Select(fs);
    var scaled :- StandardScale(block, stats);
    df.Assign(scaled);
    r := Ok(df.View());
  }

  /** Column `n` after the encoding loop over `enc` and then the scaling of
      `sc`: encoded when listed in `enc`, then standardized when listed in
      `sc`. */
  function EncodedScaled(c: Column, n: string, enc: seq<string>, sc: seq<string>, stats: Stats): (r: Column)
    requires n in sc && n !in enc ==> c.NumCol?
  {
    var e := if n in enc then Encode(c) else c;
    if n in sc then NumCol(Standardize(e.nums, stats.moments(n))) else e
  }

  /** Encoding `enc` and then scaling `sc` changes each column of `t` as
      `EncodedScaled` says, and no column is added or removed. */
  lemma EncodeThenScale(t: Table, enc: seq<string>, sc: seq<string>, stats: Stats)
    requires t.Valid() && NoDuplicates(enc) && NoDuplicates(sc)
    requires EncodeColumns(t, enc).Ok?
    requires ScaleColumns(EncodeColumns(t, enc).value, sc, stats).Ok?
    ensures forall n | n in sc && n !in enc :: n in t.cols && t.cols[n].NumCol?
    ensures var r := ScaleColumns(EncodeColumns(t, enc).value, sc, stats).value;
      && r.Valid() && r.height == t.height && r.names == t.names && r.cols.Keys == t.cols.Keys
      && forall n | n in t.cols :: r.cols[n] == EncodedScaled(t.cols[n], n, enc, sc, stats)
  {
  }

  /** The encoding loop over `enc` and then the scaling of `sc`, run on the
      frame. Scaling cannot fail once every column of `sc` is numeric or
      about to be encoded. */
  method EncodeScaleInPlace(df: Frame, enc: seq<string>, sc: seq<string>, stats: Stats) returns (r: Result<Table, Error>)
    requires df.View().Valid() && NoDuplicates(enc) && NoDuplicates(sc)
    requires |sc| > 0 && df.height > 0
    requires forall n | n in sc :: n in df.cols && (n !in enc ==> df.cols[n].NumCol?)
    modifies df
    ensures r.Ok? <==> forall n | n in enc :: n in old(df.View()).cols
    ensures r.Err? ==> (exists n | n in enc :: n !in old(df.View()).cols) && r.error == MissingColumn(FirstAbsent(old(df.View()), enc))
    ensures r.Ok? ==> r.value == df.View() && r.value.Valid()
    ensures r.Ok? ==> r.value.names == old(df.View()).names && r.value.height == old(df.View()).height
    ensures r.Ok? ==> r.value.cols.Keys == old(df.View()).cols.Keys
    ensures r.Ok? ==> forall n | n in old(df.View()).cols ::
      r.value.cols[n] == EncodedScaled(old(df.View()).cols[n], n, enc, sc, stats)
  {
    ghost var t := df.View();
    EncodeColumnsError(t, enc);
    var encoded :- EncodeInPlace(df, enc);
    r := ScaleInPlace(df, sc, stats);
    assert r.Ok?;
    EncodeThenScale(t, enc, sc, stats);
  }

  /** Selecting `fs` from a table whose columns are the encoded and scaled
      columns of `p`. */
  lemma SelectEncodedScaled(t: Table, fs: seq<string>, p: map<string, Column>, enc: seq<string>, sc: seq<string>, stats: Stats)
    requires t.Valid() && NoDuplicates(fs)
    requires forall n | n in fs :: n in t.cols && n in p && (n in sc && n !in enc ==> p[n].NumCol?)
    requires forall n | n in fs :: t.cols[n] == EncodedScaled(p[n], n, enc, sc, stats)
    ensures SelectColumns(t, fs) == Ok(EncodedScaledTable(p, fs, enc, sc, stats, t.height))
  {
    assert (map n | n in fs :: t.cols[n]) == map n | n in fs :: EncodedScaled(p[n], n, enc, sc, stats);
  }

  /** Every name has a column, and a column to scale but not to encode is
      numeric. */
  predicate Selectable(p: map<string, Column>, fs: seq<string>, enc: seq<string>, sc: seq<string>) {
    forall n | n in fs :: n in p && (n in sc && n !in enc ==> p[n].NumCol?)
  }

  /** The columns `fs` of `p`, each encoded and then scaled as listed. */
  function EncodedScaledTable(p: map<string, Column>, fs: seq<string>, enc: seq<string>, sc: seq<string>, stats: Stats, height: nat): Table
    requires Selectable(p, fs, enc, sc)
  {
    Table(fs, map n | n in fs :: EncodedScaled(p[n], n, enc, sc, stats), height)
  }

  /** The selected table holds one column of the common height per name. */
  lemma EncodedScaledTableValid(p: map<string, Column>, fs: seq<string>, enc: seq<string>, sc: seq<string>, stats: Stats, height: nat)
    requires NoDuplicates(fs)
    requires forall n | n in fs :: n in p && p[n].Length() == height && (n in sc && n !in enc ==> p[n].NumCol?)
    ensures EncodedScaledTable(p, fs, enc, sc, stats, height).Valid()
    ensures EncodedScaledTable(p, fs, enc, sc, stats, height).cols.Keys == set n | n in fs
  {
    var t := EncodedScaledTable(p, fs, enc, sc, stats, height);
    forall n | n in fs ensures t.cols[n].Length() == height {
      var e := if n in enc then Encode(p[n]) else p[n];
      assert e.Length() == height;
    }
  }

  /** A table whose every column is the encoded and scaled column of `t`
      under the same name and in the same order. */
  lemma EncodedScaledWhole(t: Table, r: Table, enc: seq<string>, sc: seq<string>, stats: Stats)
    requires t.Valid() && r.names == t.names && r.height == t.height && r.cols.Keys == t.cols.Keys
    requires forall n | n in sc && n !in enc :: n in t.cols ==> t.cols[n].NumCol?
    requires forall n | n in t.cols :: r.cols[n] == EncodedScaled(t.cols[n], n, enc, sc, stats)
    ensures r == EncodedScaledTable(t.cols, t.names, enc, sc, stats, t.height)
  {
    assert r.cols == map n | n in t.names :: EncodedScaled(t.cols[n], n, enc, sc, stats);
  }

  /** `df[fs] = SimpleImputer(...).fit_transform(df[fs])`: only the listed
      columns change, each is imputed with its own statistic. */
  function ImputeColumns(t: Table, fs: seq<string>, stats: Stats): (r: Result<Table, Error>)
    requires t.Valid() && NoDuplicates(fs)
    ensures r.Ok? <==> |fs| > 0 && t.height > 0 && forall n | n in fs :: n in t.cols && t.cols[n].HasValue()
    ensures r.Ok? ==> r.value.Valid() && r.value.names == t.names && r.value.height == t.height
    ensures r.Ok? ==> forall n | n in t.cols ::
      n in r.value.cols && r.value.cols[n] == (if n in fs then ImputeColumn(t.cols[n], n, stats) else t.cols[n])
  {
    var block :- SelectColumns(t, fs);
    var filled :- SimpleImpute(block, stats);
    Ok(AssignAll(t, filled))
  }

  /** Imputation, run on the frame. */
  method ImputeInPlace(df: Frame, fs: seq<string>, stats: Stats) returns (r: Result<Table, Error>)
    requires df.View().Valid() && NoDuplicates(fs)
    modifies df
    ensures r == ImputeColumns(old(df.View()), fs, stats)
    ensures r.Ok? ==> df.View() == r.value
  {
    var block :- df.Select(fs);
    var filled :- SimpleImpute(block, stats);
    df.Assign(filled);
    r := Ok(df.View());
  }
}
