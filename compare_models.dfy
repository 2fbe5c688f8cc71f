/** The model-comparison script (`compare_models.py`): which bar charts are
    drawn and under which file names, and the Markdown report with one row
    per metrics record and the best model of each dataset. Charts and the
    report are modelled by their structure: the file names, the rows and the
    sections, not the pixels or the formatted digits. */
module CompareModels {
  import opened Wrappers
  import opened Seqs

  // ---------------------------------------------------------------------
  // Metrics records

  /** A value of a metrics record as `json.load` returns it. */
  datatype Value = Num(x: real) | Text(s: string) | Null

  /** One metrics record (a JSON object read into a dict): its keys in the
      order they were written, and their values. */
  datatype Record = Record(keys: seq<string>, fields: map<string, Value>) {
    ghost predicate Valid() {
      NoDuplicates(keys) && forall k :: k in keys <==> k in fields
    }
  }

  // ---------------------------------------------------------------------
  // Columns of the metrics frame and the charted metrics (lines 34-49)

  /** `names` followed by the elements of `ks` it lacks, in the order of `ks`. */
  function AddKeys(names: seq<string>, ks: seq<string>): (r: seq<string>)
    requires NoDuplicates(names)
    ensures NoDuplicates(r)
    ensures |names| <= |r| && r[..|names|] == names
    ensures forall n :: n in r <==> n in names || n in ks
  {
    if ks == [] then names
    else
      var init := AddKeys(names, ks[..|ks| - 1]);
      assert ks == ks[..|ks| - 1] + [ks[|ks| - 1]];
      AddName(init, ks[|ks| - 1])
  }

  /** Line 34: the columns of `pd.DataFrame(metrics)` are the keys of all
      records, each where it first appears. */
  function Columns(records: seq<Record>): (r: seq<string>)
    ensures NoDuplicates(r)
    ensures forall n :: n in r <==> exists j | 0 <= j < |records| :: n in records[j].keys
  {
    if records == [] then []
    else
      var init := Columns(records[..|records| - 1]);
      assert forall j | 0 <= j < |records| - 1 :: records[..|records| - 1][j] == records[j];
      AddKeys(init, records[|records| - 1].keys)
  }

  /** Line 40: every column except `model_name`, in column order. */
  function MetricsToPlot(records: seq<Record>): (r: seq<string>)
    ensures NoDuplicates(r)
    ensures forall n :: n in r <==> n != "model_name" && exists j | 0 <= j < |records| :: n in records[j].keys
  {
    FilterNoDuplicates(Columns(records), x => x !in ["model_name"]);
    Without(Columns(records), ["model_name"])
  }

  /** ASCII upper case of one character. */
  function Upper(c: char): char {
    if 'a' <= c <= 'z' then (c as int - 32) as char else c
  }

  /** ASCII lower case of one character. */
  function Lower(c: char): char {
    if 'A' <= c <= 'Z' then (c as int + 32) as char else c
  }

  /** Python's `str.capitalize` on ASCII text: the first character in upper
      case, all others in lower case. */
  function Capitalize(s: string): (r: string)
    ensures |r| == |s|
  {
    if s == [] then []
    else [Upper(s[0])] + seq(|s| - 1, i requires 0 <= i < |s| - 1 => Lower(s[i + 1]))
  }

  /** Capitalizing a capitalized string changes nothing. */
  lemma CapitalizeIdempotent(s: string)
    ensures Capitalize(Capitalize(s)) == Capitalize(s)
  {
    var r := Capitalize(s);
    if s != [] {
      forall i | 0 <= i < |r| ensures Capitalize(r)[i] == r[i] {
        CaseFixed(s[i]);
      }
    }
  }

  /** Upper and lower case are idempotent, and upper case ignores the case
      it starts from. */
  lemma CaseFixed(c: char)
    ensures Upper(Upper(c)) == Upper(c) && Lower(Lower(c)) == Lower(c) && Upper(Lower(c)) == Upper(c)
  {
  }

  /** Capitalization ignores letter case: strings that agree up to case
      capitalize alike. */
  lemma CapitalizeIgnoresCase(s: string, t: string)
    requires |s| == |t| && forall i | 0 <= i < |s| :: Lower(s[i]) == Lower(t[i])
    ensures Capitalize(s) == Capitalize(t)
  {
    if s != [] {
      forall i | 0 <= i < |s| ensures Capitalize(s)[i] == Capitalize(t)[i] {
        CaseFixed(s[i]);
        CaseFixed(t[i]);
      }
    }
  }

  const ChartSuffix: string := "_comparison.png"

  /** Line 48: the file a chart of `metric` is saved to. */
  function ChartFileName(dataset: string, metric: string): string {
    Capitalize(dataset) + "_" + metric + ChartSuffix
  }

  /** The chart files of the metrics, in their order. */
  function ChartFiles(dataset: string, metrics: seq<string>): (files: seq<string>)
    ensures |files| == |metrics|
    ensures forall k | 0 <= k < |files| :: files[k] == ChartFileName(dataset, metrics[k])
  {
    if metrics == [] then [] else ChartFiles(dataset, metrics[..|metrics| - 1]) + [ChartFileName(dataset, metrics[|metrics| - 1])]
  }

  /** The metric a chart file of `dataset` shows, read back from its name. */
  function ChartMetric(dataset: string, name: string): Option<string> {
    var prefix := Capitalize(dataset) + "_";
    if |name| >= |prefix| + |ChartSuffix| && name[..|prefix|] == prefix && name[|name| - |ChartSuffix|..] == ChartSuffix
    then Some(name[|prefix|..|name| - |ChartSuffix|])
    else None
  }

  /** Lines 42-49: the files the chart loop writes, one per charted metric
      in the order of the metrics. The drawing itself is not modelled. */
  method CreateComparisonPlots(records: seq<Record>, dataset: string) returns (files: seq<string>)
    requires forall k | 0 <= k < |records| :: records[k].Valid()
    ensures var metrics := MetricsToPlot(records);
      && |files| == |metrics|
      && (forall k | 0 <= k < |files| :: files[k] == ChartFileName(dataset, metrics[k]))
      && NoDuplicates(files)
  {
    var metrics := MetricsToPlot(records);
    files := [];
    for k := 0 to |metrics|
      invariant files == ChartFiles(dataset, metrics[..k])
    {
      files := files + [ChartFileName(dataset, metrics[k])];
    }
    assert NoDuplicates(metrics);
    ChartFilesDistinct(dataset, metrics, files);
  }

  // ---------------------------------------------------------------------
  // Properties of the chart names

  /** The metric is read back from the file name of its chart. */
  lemma ChartMetricRoundTrip(dataset: string, metric: string)
    ensures ChartMetric(dataset, ChartFileName(dataset, metric)) == Some(metric)
  {
    var prefix := Capitalize(dataset) + "_";
    var name := ChartFileName(dataset, metric);
    assert name == prefix + metric + ChartSuffix;
    assert name[..|prefix|] == prefix;
    assert name[|name| - |ChartSuffix|..] == ChartSuffix;
    assert name[|prefix|..|name| - |ChartSuffix|] == metric;
  }

  /** Different metrics of one dataset never share a chart file. */
  lemma ChartFileNameInjective(dataset: string, m1: string, m2: string)
    requires ChartFileName(dataset, m1) == ChartFileName(dataset, m2)
    ensures m1 == m2
  {
    ChartMetricRoundTrip(dataset, m1);
    ChartMetricRoundTrip(dataset, m2);
  }

  /** Files that name distinct metrics are distinct. */
  lemma ChartFilesDistinct(dataset: string, metrics: seq<string>, files: seq<string>)
    requires NoDuplicates(metrics) && |files| == |metrics|
    requires forall k | 0 <= k < |files| :: files[k] == ChartFileName(dataset, metrics[k])
    ensures NoDuplicates(files)
  {
    NoDuplicatesIndex(metrics);
    forall i, j | 0 <= i < j < |files| ensures files[i] != files[j] {
      if files[i] == files[j] {
        ChartFileNameInjective(dataset, metrics[i], metrics[j]);
      }
    }
    DistinctElements(files);
  }

  /** The dataset names the script passes are already capitalized. */
  lemma DatasetPrefixes()
    ensures Capitalize("Titanic") == "Titanic"
    ensures Capitalize("House") == "House"
    ensures Capitalize("titanic") == "Titanic"
  {
  }

  // ---------------------------------------------------------------------
  // Properties of the columns and the charted metrics

  /** The columns of the first `k` records come first, in the same order:
      a later record only appends keys not seen before. */
  lemma {:induction false} ColumnsPrefix(records: seq<Record>, k: nat)
    requires k <= |records|
    ensures var c := Columns(records[..k]);
      |c| <= |Columns(records)| && Columns(records)[..|c|] == c
    decreases |records|
  {
    if k < |records| {
      var init := records[..|records| - 1];
      ColumnsPrefix(init, k);
      assert init[..k] == records[..k];
      var c := Columns(records[..k]);
      var ci := Columns(init);
      assert Columns(records) == AddKeys(ci, records[|records| - 1].keys);
      assert Columns(records)[..|ci|] == ci;
      assert Columns(records)[..|c|] == ci[..|c|];
    } else {
      assert records[..k] == records;
    }
  }

  /** A single record's columns are its keys, in its own order. */
  lemma OneRecordColumns(r: Record)
    requires r.Valid()
    ensures Columns([r]) == r.keys
  {
    assert [r][..0] == [];
    var none: seq<string> := [];
    assert none + r.keys == r.keys;
    AddKeysFresh(none, r.keys);
  }

  /** Adding duplicate-free keys none of which is present appends them all. */
  lemma {:induction false} AddKeysFresh(names: seq<string>, ks: seq<string>)
    requires NoDuplicates(names) && NoDuplicates(names + ks)
    ensures AddKeys(names, ks) == names + ks
  {
    if ks != [] {
      var init := ks[..|ks| - 1];
      assert names + ks == (names + init) + [ks[|ks| - 1]];
      NoDuplicatesPrefix(names + ks, |names + init|);
      assert (names + ks)[..|names + init|] == names + init;
      AddKeysFresh(names, init);
    }
  }

  /** The charted metrics are the columns with `model_name` taken out of its
      place and nothing else moved. */
  lemma MetricsAreColumnsWithoutModelName(records: seq<Record>)
    ensures "model_name" !in Columns(records) ==> MetricsToPlot(records) == Columns(records)
    ensures forall i | 0 <= i < |Columns(records)| && Columns(records)[i] == "model_name" ::
      MetricsToPlot(records) == Columns(records)[..i] + Columns(records)[i + 1..]
  {
    var cols := Columns(records);
    if "model_name" !in cols {
      WithoutAbsent(cols, ["model_name"]);
    }
    forall i | 0 <= i < |cols| && cols[i] == "model_name"
      ensures MetricsToPlot(records) == cols[..i] + cols[i + 1..]
    {
      DropOne(cols, i);
    }
  }

  /** Removing the element at `i` of a duplicate-free sequence by value. */
  lemma DropOne(xs: seq<string>, i: nat)
    requires NoDuplicates(xs) && i < |xs|
    ensures Without(xs, [xs[i]]) == xs[..i] + xs[i + 1..]
  {
    var v, left, right := xs[i], xs[..i], xs[i + 1..];
    DropOneParts(xs, i);
    WithoutAppend(left, [v] + right, [v]);
    WithoutAppend([v], right, [v]);
    WithoutAbsent(left, [v]);
    WithoutAbsent(right, [v]);
    assert Without([v], [v]) == [];
  }

  /** A duplicate-free sequence around position `i`: the element there occurs
      on neither side. */
  lemma DropOneParts(xs: seq<string>, i: nat)
    requires NoDuplicates(xs) && i < |xs|
    ensures xs == xs[..i] + ([xs[i]] + xs[i + 1..])
    ensures xs[i] !in xs[..i] && xs[i] !in xs[i + 1..]
  {
    SplitAt(xs, i);
    NoDuplicatesIndex(xs);
    var left, right := xs[..i], xs[i + 1..];
    forall k | 0 <= k < |left| ensures left[k] != xs[i] {
    }
    forall k | 0 <= k < |right| ensures right[k] != xs[i] {
      assert right[k] == xs[i + 1 + k];
    }
  }

  /** A sequence is the part before `i`, the element at `i` and the rest. */
  lemma SplitAt(xs: seq<string>, i: nat)
    requires i < |xs|
    ensures xs == xs[..i] + ([xs[i]] + xs[i + 1..])
  {
    assert xs[i..] == [xs[i]] + xs[i + 1..];
    assert xs == xs[..i] + xs[i..];
  }

  // ---------------------------------------------------------------------
  // The report (lines 52-112)

  /** The two kinds of metrics file: Titanic classifiers and house-price
      regressors. */
  datatype Task = Classification | Regression

  /** Lines 75 and 87: the metric columns of a report row, in order. The
      last is the score the best model is chosen by (lines 98 and 109). */
  function RowMetrics(task: Task): (r: seq<string>)
    ensures |r| == 4
  {
    match task
    case Classification => ["accuracy", "precision", "recall", "f1"]
    case Regression => ["mse", "rmse", "mae", "r2"]
  }

  /** The fixed Markdown text of the report, one piece per place it occurs:
      the title and Titanic table header, the House table header, the
      analysis heading with the Titanic paragraph, the House paragraph. */
  datatype Section = TitanicResults | HouseResults | TitanicAnalysis | HouseAnalysis

  /** A piece of the report: fixed text, a table row (the model name and
      the four metrics), or a best-model line (the model name and its
      score). */
  datatype Block =
    | Heading(section: Section)
    | Row(model: Value, values: seq<real>)
    | BestModel(model: Value, score: real)

  /** What building the report raises. */
  datatype ReportError =
    | KeyError(key: string)      // a record lacks the key
    | FormatError(key: string)   // a fixed-point format applied to a value that is not a number
    | EmptyMetrics               // `max` of an empty list

  /** `record[k]`. */
  function Field(r: Record, k: string): Result<Value, ReportError> {
    if k in r.fields then Ok(r.fields[k]) else Err(KeyError(k))
  }

  /** `{record[k]:.3f}` for each of `ks`, left to right as the f-string
      evaluates them. */
  function Numbers(r: Record, ks: seq<string>): (v: Result<seq<real>, ReportError>)
    ensures v.Ok? ==> |v.value| == |ks|
  {
    if ks == [] then Ok([])
    else
      var init :- Numbers(r, ks[..|ks| - 1]);
      var x :- Field(r, ks[|ks| - 1]);
      if x.Num? then Ok(init + [x.x]) else Err(FormatError(ks[|ks| - 1]))
  }

  /** Lines 75 and 87: the table row of one record. */
  function RowOf(task: Task, r: Record): Result<Block, ReportError> {
    var m :- Field(r, "model_name");
    var vs :- Numbers(r, RowMetrics(task));
    Ok(Row(m, vs))
  }

  /** Lines 74-75 and 86-87: the rows of all records, in order, or the
      exception of the first record that has none. */
  function Rows(task: Task, records: seq<Record>): (v: Result<seq<Block>, ReportError>)
    ensures v.Ok? ==> |v.value| == |records|
    ensures v.Ok? ==> forall k | 0 <= k < |v.value| :: v.value[k].Row? && |v.value[k].values| == 4
  {
    if records == [] then Ok([])
    else
      var init :- Rows(task, records[..|records| - 1]);
      var row :- RowOf(task, records[|records| - 1]);
      NumbersLength(task, records[|records| - 1]);
      Ok(init + [row])
  }

  lemma NumbersLength(task: Task, r: Record)
    requires RowOf(task, r).Ok?
    ensures RowOf(task, r).value.Row? && |RowOf(task, r).value.values| == 4
  {
  }

  /** The score column of table rows. */
  function Scores(rows: seq<Block>): (xs: seq<real>)
    requires forall k | 0 <= k < |rows| :: rows[k].Row? && |rows[k].values| == 4
    ensures |xs| == |rows|
  {
    seq(|rows|, k requires 0 <= k < |rows| => rows[k].values[3])
  }

  /** Lines 98 and 109: `max(records, key=...)` scans left to right and
      replaces its candidate only by a strictly larger score, so it returns
      the first of the maximal scores. */
  function FirstArgMax(xs: seq<real>): (i: nat)
    requires |xs| > 0
    ensures i < |xs|
    ensures forall j | 0 <= j < |xs| :: xs[j] <= xs[i]
    ensures forall j | 0 <= j < i :: xs[j] < xs[i]
  {
    if |xs| == 1 then 0
    else
      var k := FirstArgMax(xs[..|xs| - 1]);
      assert forall j | 0 <= j < |xs| - 1 :: xs[..|xs| - 1][j] == xs[j];
      if xs[|xs| - 1] > xs[k] then |xs| - 1 else k
  }

  /** The best-model line of table rows. */
  function BestOf(rows: seq<Block>): Block
    requires |rows| > 0
    requires forall k | 0 <= k < |rows| :: rows[k].Row? && |rows[k].values| == 4
  {
    var b := rows[FirstArgMax(Scores(rows))];
    BestModel(b.model, b.values[3])
  }

  /** Lines 52-112: the report, or the exception that ends the function. */
  function Report(titanic: seq<Record>, house: seq<Record>): Result<seq<Block>, ReportError> {
    var trows :- Rows(Classification, titanic);
    var hrows :- Rows(Regression, house);
    if titanic == [] || house == [] then Err(EmptyMetrics)
    else
      Ok([Heading(TitanicResults)] + trows + [Heading(HouseResults)] + hrows
         + [Heading(TitanicAnalysis), BestOf(trows), Heading(HouseAnalysis), BestOf(hrows)])
  }

  /** Lines 52-112: the report grows by `+=`, a row per record in two loops,
      then the two best-model lines. */
  method GenerateReport(titanic: seq<Record>, house: seq<Record>) returns (r: Result<seq<Block>, ReportError>)
    requires forall k | 0 <= k < |titanic| :: titanic[k].Valid()
    requires forall k | 0 <= k < |house| :: house[k].Valid()
    ensures r == Report(titanic, house)
  {
    var report, trows := AppendRows([Heading(TitanicResults)], Classification, titanic);
    if report.Err? {
      return Err(report.error);
    }
    var hrows;
    report, hrows := AppendRows(report.value + [Heading(HouseResults)], Regression, house);
    if report.Err? {
      return Err(report.error);
    }
    if |titanic| == 0 || |house| == 0 {
      return Err(EmptyMetrics);
    }
    r := Ok(report.value + [Heading(TitanicAnalysis), BestOf(trows), Heading(HouseAnalysis), BestOf(hrows)]);
  }

  /** Lines 74-75 and 86-87: one `report +=` per record, left to right; the
      first record without a row raises. `rows` are the rows appended. */
  method AppendRows(report: seq<Block>, task: Task, records: seq<Record>) returns (r: Result<seq<Block>, ReportError>, rows: seq<Block>)
    ensures r.Ok? <==> Rows(task, records).Ok?
    ensures r.Ok? ==> rows == Rows(task, records).value && r.value == report + rows
    ensures r.Err? ==> r.error == Rows(task, records).error
  {
    rows := [];
    for k := 0 to |records|
      invariant Rows(task, records[..k]) == Ok(rows)
    {
      var row := RowOf(task, records[k]);
      if row.Err? {
        RowsStop(task, records, k);
        return Err(row.error), rows;
      }
      RowsStep(task, records, k);
      rows := rows + [row.value];
    }
    assert records[..|records|] == records;
    r := Ok(report + rows);
  }

  /** One more record that has a row extends the rows by it. */
  lemma RowsStep(task: Task, records: seq<Record>, k: nat)
    requires k < |records| && Rows(task, records[..k]).Ok? && RowOf(task, records[k]).Ok?
    ensures Rows(task, records[..k + 1]) == Ok(Rows(task, records[..k]).value + [RowOf(task, records[k]).value])
  {
    assert records[..k + 1][..k] == records[..k];
  }

  /** The first record without a row decides the exception. */
  lemma {:induction false} RowsStop(task: Task, records: seq<Record>, k: nat)
    requires k < |records| && Rows(task, records[..k]).Ok? && RowOf(task, records[k]).Err?
    ensures Rows(task, records) == Err(RowOf(task, records[k]).error)
    decreases |records|
  {
    var init := records[..|records| - 1];
    if k == |records| - 1 {
      assert init == records[..k];
    } else {
      assert init[..k] == records[..k] && init[k] == records[k];
      RowsStop(task, init, k);
    }
  }

  // ---------------------------------------------------------------------
  // Properties of the report

  /** A record carries what its table row needs: a model name and the four
      metrics as numbers. */
  predicate Accepts(task: Task, r: Record) {
    && "model_name" in r.fields
    && forall m | 0 <= m < 4 :: RowMetrics(task)[m] in r.fields && r.fields[RowMetrics(task)[m]].Num?
  }

  /** The four metrics of an accepted record, in row order. */
  function MetricValues(task: Task, r: Record): seq<real>
    requires Accepts(task, r)
  {
    seq(4, m requires 0 <= m < 4 => r.fields[RowMetrics(task)[m]].x)
  }

  /** The score the best model is chosen by: `f1` or `r2`. */
  function Score(task: Task, r: Record): real
    requires Accepts(task, r)
  {
    r.fields[RowMetrics(task)[3]].x
  }

  /** The numbers of a record: present exactly when every key is there and
      holds a number; otherwise the first key that is absent or not a number
      decides the exception. */
  lemma {:induction false} NumbersOk(r: Record, ks: seq<string>)
    ensures Numbers(r, ks).Ok? <==> forall m | 0 <= m < |ks| :: ks[m] in r.fields && r.fields[ks[m]].Num?
    ensures Numbers(r, ks).Ok? ==> forall m | 0 <= m < |ks| :: Numbers(r, ks).value[m] == r.fields[ks[m]].x
    ensures Numbers(r, ks).Err? ==> exists m | 0 <= m < |ks| ::
      && (forall l | 0 <= l < m :: ks[l] in r.fields && r.fields[ks[l]].Num?)
      && Numbers(r, ks).error == (if ks[m] in r.fields then FormatError(ks[m]) else KeyError(ks[m]))
  {
    if ks != [] {
      var init := ks[..|ks| - 1];
      NumbersOk(r, init);
      assert forall m | 0 <= m < |init| :: init[m] == ks[m];
      if Numbers(r, init).Err? {
        var m :| 0 <= m < |init|
          && (forall l | 0 <= l < m :: init[l] in r.fields && r.fields[init[l]].Num?)
          && Numbers(r, init).error == (if init[m] in r.fields then FormatError(init[m]) else KeyError(init[m]));
        assert Numbers(r, ks).error == (if ks[m] in r.fields then FormatError(ks[m]) else KeyError(ks[m]));
      }
    }
  }

  /** A record has a row exactly when it is accepted, and the row holds its
      model name and its metrics in column order. */
  lemma RowOfOk(task: Task, r: Record)
    ensures RowOf(task, r).Ok? <==> Accepts(task, r)
    ensures RowOf(task, r).Ok? ==> RowOf(task, r) == Ok(Row(r.fields["model_name"], MetricValues(task, r)))
  {
    var ks := RowMetrics(task);
    NumbersOk(r, ks);
    if Accepts(task, r) {
      assert forall m | 0 <= m < |ks| :: ks[m] in r.fields && r.fields[ks[m]].Num?;
      assert Numbers(r, ks).value == MetricValues(task, r);
    }
  }

  /** The rows the records of an accepted list make: one per record, with
      its model name and its metrics. */
  function Table(task: Task, records: seq<Record>): (rows: seq<Block>)
    requires forall k | 0 <= k < |records| :: Accepts(task, records[k])
    ensures |rows| == |records|
  {
    seq(|records|, k requires 0 <= k < |records| =>
      assert Accepts(task, records[k]);
      Row(records[k].fields["model_name"], MetricValues(task, records[k])))
  }

  /** The rows of a list of records, record by record. */
  lemma {:induction false} RowsEach(task: Task, records: seq<Record>)
    ensures Rows(task, records).Ok? <==> forall k | 0 <= k < |records| :: RowOf(task, records[k]).Ok?
    ensures Rows(task, records).Ok? ==>
      forall k | 0 <= k < |records| :: Rows(task, records).value[k] == RowOf(task, records[k]).value
  {
    if records != [] {
      var init := records[..|records| - 1];
      RowsEach(task, init);
      assert forall k | 0 <= k < |init| :: init[k] == records[k];
    }
  }

  /** Lines 74-75 and 86-87: there are rows exactly when every record is
      accepted, and then row `k` is record `k`'s. */
  lemma RowsOk(task: Task, records: seq<Record>)
    ensures Rows(task, records).Ok? <==> forall k | 0 <= k < |records| :: Accepts(task, records[k])
    ensures Rows(task, records).Ok? ==> Rows(task, records).value == Table(task, records)
  {
    RowsEach(task, records);
    forall k | 0 <= k < |records|
      ensures RowOf(task, records[k]).Ok? <==> Accepts(task, records[k])
      ensures RowOf(task, records[k]).Ok? ==>
        RowOf(task, records[k]).value == Row(records[k].fields["model_name"], MetricValues(task, records[k]))
    {
      RowOfOk(task, records[k]);
    }
    if Rows(task, records).Ok? {
      assert forall k | 0 <= k < |records| :: Rows(task, records).value[k] == Table(task, records)[k];
    }
  }

  /** Lines 74-75 and 86-87: when some record is not accepted, the first
      such record decides the exception. */
  lemma RowsFirstError(task: Task, records: seq<Record>)
    ensures Rows(task, records).Err? ==> exists k | 0 <= k < |records| ::
      && (forall j | 0 <= j < k :: Accepts(task, records[j]))
      && !Accepts(task, records[k])
      && RowOf(task, records[k]).Err?
      && Rows(task, records).error == RowOf(task, records[k]).error
  {
    RowsOk(task, records);
    if Rows(task, records).Err? {
      var k := FirstRejected(task, records);
      RowsOk(task, records[..k]);
      assert forall j | 0 <= j < k :: records[..k][j] == records[j];
      RowOfOk(task, records[k]);
      RowsStop(task, records, k);
    }
  }

  /** The position of the first record that is not accepted. */
  function FirstRejected(task: Task, records: seq<Record>): (k: nat)
    requires exists k | 0 <= k < |records| :: !Accepts(task, records[k])
    ensures k < |records| && !Accepts(task, records[k])
    ensures forall j | 0 <= j < k :: Accepts(task, records[j])
  {
    if !Accepts(task, records[0]) then 0
    else
      assert exists k | 0 <= k < |records[1..]| :: !Accepts(task, records[1..][k]) by {
        var k :| 0 <= k < |records| && !Accepts(task, records[k]);
        assert records[1..][k - 1] == records[k];
      }
      1 + FirstRejected(task, records[1..])
  }

  /** The report is produced exactly when both lists are non-empty and every
      record is accepted; `max` of an empty list raises (lines 98, 109). */
  lemma ReportOk(titanic: seq<Record>, house: seq<Record>)
    ensures Report(titanic, house).Ok? <==>
      && |titanic| > 0 && |house| > 0
      && (forall k | 0 <= k < |titanic| :: Accepts(Classification, titanic[k]))
      && (forall k | 0 <= k < |house| :: Accepts(Regression, house[k]))
  {
    RowsOk(Classification, titanic);
    RowsOk(Regression, house);
  }

  /** Record `i` is the first with the maximal score. */
  predicate FirstBest(task: Task, records: seq<Record>, i: nat)
    requires forall k | 0 <= k < |records| :: Accepts(task, records[k])
  {
    && i < |records|
    && (forall j | 0 <= j < |records| :: Score(task, records[j]) <= Score(task, records[i]))
    && (forall j | 0 <= j < i :: Score(task, records[j]) < Score(task, records[i]))
  }

  /** At most one record is the first with the maximal score. */
  lemma FirstBestUnique(task: Task, records: seq<Record>, i: nat, i': nat)
    requires forall k | 0 <= k < |records| :: Accepts(task, records[k])
    requires FirstBest(task, records, i) && FirstBest(task, records, i')
    ensures i == i'
  {
    var s, s' := Score(task, records[i]), Score(task, records[i']);
    assert i < i' ==> s < s';
    assert i' < i ==> s' < s;
  }

  /** Lines 64-112: the sections come in a fixed order: the Titanic table
      with one row per record in input order, the House table likewise, the
      Titanic best model, the House best model. */
  lemma ReportLayout(titanic: seq<Record>, house: seq<Record>)
    requires Report(titanic, house).Ok?
    ensures forall k | 0 <= k < |titanic| :: Accepts(Classification, titanic[k])
    ensures forall k | 0 <= k < |house| :: Accepts(Regression, house[k])
    ensures |Report(titanic, house).value| == |titanic| + |house| + 6
    ensures Report(titanic, house).value[..|titanic| + |house| + 2]
      == [Heading(TitanicResults)] + Table(Classification, titanic) + [Heading(HouseResults)] + Table(Regression, house)
    ensures Report(titanic, house).value[|titanic| + |house| + 2] == Heading(TitanicAnalysis)
    ensures Report(titanic, house).value[|titanic| + |house| + 4] == Heading(HouseAnalysis)
  {
    ReportOk(titanic, house);
    RowsOk(Classification, titanic);
    RowsOk(Regression, house);
    var trows, hrows := Rows(Classification, titanic).value, Rows(Regression, house).value;
    var head := [Heading(TitanicResults)] + trows + [Heading(HouseResults)] + hrows;
    assert Report(titanic, house).value
      == head + [Heading(TitanicAnalysis), BestOf(trows), Heading(HouseAnalysis), BestOf(hrows)];
  }

  /** Lines 98-99 and 109-110: each best-model line names the first record
      with the maximal `f1` (Titanic) or `r2` (House) and shows that score. */
  lemma ReportBest(titanic: seq<Record>, house: seq<Record>)
    requires Report(titanic, house).Ok?
    ensures forall k | 0 <= k < |titanic| :: Accepts(Classification, titanic[k])
    ensures forall k | 0 <= k < |house| :: Accepts(Regression, house[k])
    ensures exists i | 0 <= i < |titanic| ::
      (&& FirstBest(Classification, titanic, i)
       && Report(titanic, house).value[|titanic| + |house| + 3]
          == BestModel(titanic[i].fields["model_name"], Score(Classification, titanic[i])))
    ensures exists i | 0 <= i < |house| ::
      (&& FirstBest(Regression, house, i)
       && Report(titanic, house).value[|titanic| + |house| + 5]
          == BestModel(house[i].fields["model_name"], Score(Regression, house[i])))
  {
    ReportOk(titanic, house);
    BestLine(Classification, titanic);
    BestLine(Regression, house);
    var trows, hrows := Rows(Classification, titanic).value, Rows(Regression, house).value;
    var head := [Heading(TitanicResults)] + trows + [Heading(HouseResults)] + hrows;
    assert Report(titanic, house).value
      == head + [Heading(TitanicAnalysis), BestOf(trows), Heading(HouseAnalysis), BestOf(hrows)];
  }

  /** The best-model line of the rows of accepted records. */
  lemma BestLine(task: Task, records: seq<Record>)
    requires |records| > 0 && forall k | 0 <= k < |records| :: Accepts(task, records[k])
    ensures Rows(task, records).Ok?
    ensures var i := FirstArgMax(Scores(Rows(task, records).value));
      && FirstBest(task, records, i)
      && BestOf(Rows(task, records).value) == BestModel(records[i].fields["model_name"], Score(task, records[i]))
  {
    RowsOk(task, records);
    var rows := Rows(task, records).value;
    assert forall k | 0 <= k < |records| :: Scores(rows)[k] == Score(task, records[k]);
  }
}
