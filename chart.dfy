/** The chart handler (app/api/chart.py): for a numeric column, its values
    against dates or row positions; for any other column, how often each
    value occurs, most frequent first. */
module Chart {
  import opened Pandas
  import opened FileHandler

  /** The request body. The chart type is accepted and never looked at. */
  datatype ChartRequest = ChartRequest(metric: string, kind: string)

  /** An x-axis label: a row position, a formatted date, or a cell value. */
  datatype Label = Position(n: nat) | Formatted(s: string) | Cell(o: Obj) | Moment(t: Timestamp)

  /** Both success shapes are `{"status": "success", "labels", "values"}`. */
  datatype ChartResponse =
    | Series(labels: seq<Label>, values: seq<Num>)
    | Histogram(labels: seq<Label>, counts: seq<nat>)
    | Failed(status: nat, detail: string)

  const NoData := "No data available. Upload a file first."
  const ServerError := "Internal Server Error"

  function NotFound(metric: string): string {
    "Metric '" + metric + "' not found in data."
  }

  // ---------------------------------------------------------------------
  // The numeric branch

  /** The x-axis of a value series: the Date column formatted as
      `%Y-%m-%d`, or 1..n when there is no Date column. None where
      `pd.to_datetime` raises, which the framework turns into a 500. */
  function AxisLabels(t: Table, lib: Library): (r: Option<seq<Label>>)
    requires Sound(lib)
    ensures r.None? ==> Has(t, "Date")
    ensures !Has(t, "Date") ==> r.Some? && |r.value| == t.rows
  {
    if Has(t, "Date") then
      match ToDatetime(lib, Find(t.entries, "Date").value)
      case None => None
      case Some(ts) => Some(seq(|ts|, i requires 0 <= i < |ts| => Formatted(lib.strftime(ts[i]))))
    else
      Some(seq(t.rows, i requires 0 <= i < t.rows => Position(i + 1)))
  }

  // ---------------------------------------------------------------------
  // The histogram branch: `value_counts()`

  /** The cells of a non-numeric column as labels. */
  function CellLabels(c: Column): (r: seq<Label>)
    ensures |r| == Len(c)
  {
    match c
    case Numeric(ns) => seq(|ns|, i requires 0 <= i < |ns| => Cell(Flt(ns[i])))
    case Text(os) => seq(|os|, i requires 0 <= i < |os| => Cell(os[i]))
    case Dates(ts) => seq(|ts|, i requires 0 <= i < |ts| => Moment(ts[i]))
  }

  /** value_counts drops missing cells. */
  predicate Missing(l: Label) {
    l == Cell(Flt(NaN))
  }

  /** How many cells equal l. */
  function Count(xs: seq<Label>, l: Label): nat {
    if xs == [] then 0 else (if xs[0] == l then 1 else 0) + Count(xs[1..], l)
  }

  /** How many cells are not missing. */
  function Present(xs: seq<Label>): nat {
    if xs == [] then 0 else (if Missing(xs[0]) then 0 else 1) + Present(xs[1..])
  }

  ghost predicate Distinct(ls: seq<Label>) {
    forall i, j :: 0 <= i < j < |ls| ==> ls[i] != ls[j]
  }

  /** Counts do not increase from left to right. */
  ghost predicate Descending(xs: seq<Label>, ls: seq<Label>) {
    forall i, j :: 0 <= i < j < |ls| ==> Count(xs, ls[i]) >= Count(xs, ls[j])
  }

  /** The distinct values of the cells, missing ones left out, in the order
      they first occur. */
  function Tally(xs: seq<Label>): (r: seq<Label>)
    ensures Distinct(r)
    ensures forall l :: l in r <==> l in xs && !Missing(l)
    decreases |xs|
  {
    if xs == [] then []
    else
      var front := xs[..|xs| - 1];
      var x := xs[|xs| - 1];
      assert xs == front + [x];
      var ls := Tally(front);
      if Missing(x) || x in ls then ls else ls + [x]
  }

  /** What a non-empty list of labels says of its tail. */
  lemma TailFacts(xs: seq<Label>, ls: seq<Label>)
    requires ls != []
    ensures forall m :: m in ls <==> m == ls[0] || m in ls[1..]
    ensures Distinct(ls) ==> Distinct(ls[1..]) && ls[0] !in ls[1..]
    ensures Descending(xs, ls) ==>
      Descending(xs, ls[1..]) && forall m :: m in ls[1..] ==> Count(xs, ls[0]) >= Count(xs, m)
  {
    var tail := ls[1..];
    assert forall k :: 0 <= k < |tail| ==> tail[k] == ls[k + 1];
    assert forall m :: m in tail ==> exists k :: 0 <= k < |tail| && tail[k] == m;
  }

  /** What putting a label in front of a list keeps. */
  lemma ConsFacts(xs: seq<Label>, h: Label, rest: seq<Label>)
    ensures Distinct(rest) && h !in rest ==> Distinct([h] + rest)
    ensures Descending(xs, rest) && (forall m :: m in rest ==> Count(xs, h) >= Count(xs, m)) ==>
      Descending(xs, [h] + rest)
  {
    var r := [h] + rest;
    assert forall j :: 1 <= j < |r| ==> r[j] == rest[j - 1] && rest[j - 1] in rest;
  }

  /** Inserts l after every label whose count is at least its own. */
  function Insert(xs: seq<Label>, l: Label, ls: seq<Label>): (r: seq<Label>)
    ensures |r| == |ls| + 1
    ensures forall m :: m in r <==> m == l || m in ls
    ensures Descending(xs, ls) ==> Descending(xs, r)
    ensures Distinct(ls) && l !in ls ==> Distinct(r)
  {
    if ls == [] then [l]
    else if Count(xs, l) > Count(xs, ls[0]) then
      TailFacts(xs, ls);
      ConsFacts(xs, l, ls);
      [l] + ls
    else
      var rest := Insert(xs, l, ls[1..]);
      TailFacts(xs, ls);
      ConsFacts(xs, ls[0], rest);
      [ls[0]] + rest
  }

  /** A stable sort by count, largest first. */
  function SortByCount(xs: seq<Label>, ls: seq<Label>): (r: seq<Label>)
    ensures |r| == |ls|
    ensures forall m :: m in r <==> m in ls
    ensures Descending(xs, r)
    ensures Distinct(ls) ==> Distinct(r)
    decreases |ls|
  {
    if ls == [] then []
    else
      var front := ls[..|ls| - 1];
      var l := ls[|ls| - 1];
      LastFacts(ls);
      Insert(xs, l, SortByCount(xs, front))
  }

  /** What a non-empty list of labels says of all but its last label. */
  lemma LastFacts(ls: seq<Label>)
    requires ls != []
    ensures forall m :: m in ls <==> m in ls[..|ls| - 1] || m == ls[|ls| - 1]
    ensures Distinct(ls) ==> Distinct(ls[..|ls| - 1]) && ls[|ls| - 1] !in ls[..|ls| - 1]
  {
    assert ls == ls[..|ls| - 1] + [ls[|ls| - 1]];
  }

  function CountsOf(xs: seq<Label>, ls: seq<Label>): (r: seq<nat>)
    ensures |r| == |ls|
  {
    seq(|ls|, i requires 0 <= i < |ls| => Count(xs, ls[i]))
  }

  /** `df[metric].value_counts()`: its index and its values. */
  function ValueCounts(xs: seq<Label>): (r: (seq<Label>, seq<nat>))
    ensures |r.1| == |r.0|
    ensures forall l :: l in r.0 <==> l in xs && !Missing(l)
  {
    var ls := SortByCount(xs, Tally(xs));
    (ls, CountsOf(xs, ls))
  }

  // ---------------------------------------------------------------------
  // Rendering the response

  /** A float `json.dumps(..., allow_nan=False)` refuses; the response
      then fails to render and the framework answers 500. */
  predicate Infinite(x: Num) {
    x.PosInf? || x.NegInf?
  }

  /** A label the JSON encoder refuses: an infinite float cell. */
  predicate Unrenderable(l: Label) {
    l.Cell? && l.o.Flt? && Infinite(l.o.x)
  }

  // ---------------------------------------------------------------------
  // The handler

  /** The chart handler, given what get_dataframe returns. */
  function HandleChart(slot: Option<Table>, req: ChartRequest, lib: Library): (r: ChartResponse)
    requires Sound(lib)
    ensures r.Failed? ==> r.status == 400 || r == Failed(500, ServerError)
    ensures r.Series? ==> forall i :: 0 <= i < |r.values| ==> r.values[i].Fin?
    ensures r.Histogram? ==> |r.labels| == |r.counts| && forall i :: 0 <= i < |r.labels| ==> !Unrenderable(r.labels[i])
  {
    if slot.None? then Failed(400, NoData)
    else
      var t := slot.value;
      match Find(t.entries, req.metric)
      case None => Failed(400, NotFound(req.metric))
      case Some(c) =>
        if c.Numeric? then
          match AxisLabels(t, lib)
          case None => Failed(500, ServerError)
          case Some(labels) =>
            var values := Each(c.nums, FillNa);
            if exists i :: 0 <= i < |values| && Infinite(values[i]) then Failed(500, ServerError)
            else Series(labels, values)
        else
          var (ls, counts) := ValueCounts(CellLabels(c));
          if exists i :: 0 <= i < |ls| && Unrenderable(ls[i]) then Failed(500, ServerError)
          else Histogram(ls, counts)
  }

  // ---------------------------------------------------------------------
  // Properties

  /** Without a dataset the answer is a 400. */
  lemma NoDatasetIs400(req: ChartRequest, lib: Library)
    requires Sound(lib)
    ensures HandleChart(None, req, lib) == Failed(400, NoData)
  {
  }

  /** A metric that is not a column is a 400 naming it. */
  lemma UnknownMetricIs400(t: Table, req: ChartRequest, lib: Library)
    requires Sound(lib)
    ensures HandleChart(Some(t), req, lib) == Failed(400, NotFound(req.metric)) <==> !Has(t, req.metric)
  {
  }

  /** The chart type never changes the answer. */
  lemma KindIgnored(slot: Option<Table>, metric: string, k1: string, k2: string, lib: Library)
    requires Sound(lib)
    ensures HandleChart(slot, ChartRequest(metric, k1), lib) == HandleChart(slot, ChartRequest(metric, k2), lib)
  {
  }

  /** The x-axis has one label per row: positions 1..n without a Date
      column, the formatted dates with one. */
  lemma AxisShape(t: Table, lib: Library)
    requires Valid(t) && Sound(lib) && AxisLabels(t, lib).Some?
    ensures var labels := AxisLabels(t, lib).value;
      && |labels| == t.rows
      && (!Has(t, "Date") ==> forall i :: 0 <= i < t.rows ==> labels[i] == Position(i + 1))
      && (Has(t, "Date") ==>
            var ts := ToDatetime(lib, Find(t.entries, "Date").value).value;
            forall i :: 0 <= i < t.rows ==> labels[i] == Formatted(lib.strftime(ts[i])))
  {
    if Has(t, "Date") {
      assert Entry("Date", Find(t.entries, "Date").value) in t.entries;
    }
  }

  /** A numeric metric yields one label and one value per row: positions
      1..n without a Date column, the formatted dates with one; the values
      are the column with missing cells read as 0. */
  lemma SeriesShape(t: Table, req: ChartRequest, lib: Library)
    requires Valid(t) && Sound(lib)
    requires Find(t.entries, req.metric).Some? && Find(t.entries, req.metric).value.Numeric?
    requires HandleChart(Some(t), req, lib).Series?
    ensures var r := HandleChart(Some(t), req, lib);
      var ns := Find(t.entries, req.metric).value.nums;
      && |r.labels| == |r.values| == t.rows
      && (forall i :: 0 <= i < t.rows ==> r.values[i] == if ns[i].NaN? then Fin(0.0) else ns[i])
      && (!Has(t, "Date") ==> forall i :: 0 <= i < t.rows ==> r.labels[i] == Position(i + 1))
      && (Has(t, "Date") ==>
            var ts := ToDatetime(lib, Find(t.entries, "Date").value).value;
            forall i :: 0 <= i < t.rows ==> r.labels[i] == Formatted(lib.strftime(ts[i])))
  {
    var c := Find(t.entries, req.metric).value;
    assert Entry(req.metric, c) in t.entries;
    assert HandleChart(Some(t), req, lib) == Series(AxisLabels(t, lib).value, Each(c.nums, FillNa));
    AxisShape(t, lib);
  }

  /** A non-numeric metric gives value counts, a Date column that cannot
      be parsed notwithstanding (only the numeric branch reads the dates),
      unless a cell holds an infinite float, which fails to render. */
  lemma NonNumericIsHistogram(t: Table, req: ChartRequest, lib: Library)
    requires Sound(lib)
    requires Find(t.entries, req.metric).Some? && !Find(t.entries, req.metric).value.Numeric?
    ensures var r := HandleChart(Some(t), req, lib);
      var xs := CellLabels(Find(t.entries, req.metric).value);
      && (r.Histogram? || r == Failed(500, ServerError))
      && (r.Histogram? <==> forall i :: 0 <= i < |xs| ==> !Unrenderable(xs[i]))
  {
    var xs := CellLabels(Find(t.entries, req.metric).value);
    var (ls, counts) := ValueCounts(xs);
    RenderableCounts(xs);
    assert HandleChart(Some(t), req, lib) ==
      if exists i :: 0 <= i < |ls| && Unrenderable(ls[i]) then Failed(500, ServerError) else Histogram(ls, counts);
  }

  /** value_counts has an unrenderable label exactly when the column has
      an unrenderable cell. */
  lemma RenderableCounts(xs: seq<Label>)
    ensures var ls := ValueCounts(xs).0;
      (exists i :: 0 <= i < |ls| && Unrenderable(ls[i])) <==> (exists i :: 0 <= i < |xs| && Unrenderable(xs[i]))
  {
    var ls := ValueCounts(xs).0;
    if exists i :: 0 <= i < |xs| && Unrenderable(xs[i]) {
      var i :| 0 <= i < |xs| && Unrenderable(xs[i]);
      assert xs[i] in ls;
      var j :| 0 <= j < |ls| && ls[j] == xs[i];
    }
    if exists j :: 0 <= j < |ls| && Unrenderable(ls[j]) {
      var j :| 0 <= j < |ls| && Unrenderable(ls[j]);
      assert ls[j] in xs;
      var i :| 0 <= i < |xs| && xs[i] == ls[j];
    }
  }

  /** A numeric metric of a cleaned dataset charts whenever its x-axis can
      be built. */
  lemma CleanNumericIsSeries(t: Table, req: ChartRequest, lib: Library)
    requires Sound(lib) && Clean(t)
    requires Find(t.entries, req.metric).Some? && Find(t.entries, req.metric).value.Numeric?
    requires AxisLabels(t, lib).Some?
    ensures HandleChart(Some(t), req, lib).Series?
  {
    var c := Find(t.entries, req.metric).value;
    assert Entry(req.metric, c) in t.entries;
  }

  /** The labels of value_counts are distinct, are exactly the values that
      occur, come with their number of occurrences, most frequent first. */
  lemma ValueCountsShape(xs: seq<Label>)
    ensures var (ls, counts) := ValueCounts(xs);
      && Distinct(ls)
      && (forall l :: l in ls <==> l in xs && !Missing(l))
      && |counts| == |ls|
      && (forall i :: 0 <= i < |ls| ==> counts[i] == Count(xs, ls[i]) > 0)
      && (forall i, j :: 0 <= i < j < |counts| ==> counts[i] >= counts[j])
  {
    var (ls, counts) := ValueCounts(xs);
    forall i | 0 <= i < |ls| ensures Count(xs, ls[i]) > 0 {
      assert ls[i] in xs;
      CountPositive(xs, ls[i]);
    }
  }

  lemma {:induction false} CountPositive(xs: seq<Label>, l: Label)
    requires l in xs
    ensures Count(xs, l) > 0
  {
    if xs[0] != l {
      CountPositive(xs[1..], l);
    }
  }

  function SumOf(ns: seq<nat>): nat {
    if ns == [] then 0 else ns[0] + SumOf(ns[1..])
  }

  /** The cells of xs that are among ls. */
  function CountIn(xs: seq<Label>, ls: seq<Label>): nat {
    if xs == [] then 0 else (if xs[0] in ls then 1 else 0) + CountIn(xs[1..], ls)
  }

  lemma {:induction false} CountInSplit(xs: seq<Label>, ls: seq<Label>)
    requires ls != [] && ls[0] !in ls[1..]
    ensures CountIn(xs, ls) == Count(xs, ls[0]) + CountIn(xs, ls[1..])
  {
    if xs != [] {
      CountInSplit(xs[1..], ls);
      assert xs[0] in ls <==> xs[0] == ls[0] || xs[0] in ls[1..];
    }
  }

  /** Over distinct labels, the counts add up to the cells among them. */
  lemma {:induction false} SumOfCounts(xs: seq<Label>, ls: seq<Label>)
    requires Distinct(ls)
    ensures SumOf(CountsOf(xs, ls)) == CountIn(xs, ls)
  {
    if ls == [] {
      assert xs == [] || CountIn(xs, ls) == CountIn(xs[1..], ls);
      CountInNone(xs);
    } else {
      assert ls[0] !in ls[1..];
      assert CountsOf(xs, ls)[1..] == CountsOf(xs, ls[1..]);
      SumOfCounts(xs, ls[1..]);
      CountInSplit(xs, ls);
    }
  }

  lemma {:induction false} CountInNone(xs: seq<Label>)
    ensures CountIn(xs, []) == 0
  {
    if xs != [] {
      CountInNone(xs[1..]);
    }
  }

  /** Labels that are exactly the present values take in every present cell. */
  lemma {:induction false} CountInAll(xs: seq<Label>, ls: seq<Label>)
    requires forall l :: l in ls <==> l in xs && !Missing(l)
    ensures CountIn(xs, ls) == Present(xs)
  {
    if xs != [] {
      assert forall l :: l in xs[1..] ==> l in xs;
      if xs[1..] != [] {
        CountInAllTail(xs, ls);
      } else {
        assert CountIn(xs[1..], ls) == 0 && Present(xs[1..]) == 0;
      }
    }
  }

  lemma {:induction false} CountInAllTail(xs: seq<Label>, ls: seq<Label>)
    requires xs != []
    requires forall l :: l in xs ==> (l in ls <==> !Missing(l))
    ensures CountIn(xs, ls) == Present(xs)
    decreases |xs|
  {
    if xs[1..] != [] {
      assert forall l :: l in xs[1..] ==> l in xs;
      CountInAllTail(xs[1..], ls);
    }
  }

  /** The counts add up to the number of cells that are not missing. */
  lemma CountsAddUp(xs: seq<Label>)
    ensures SumOf(ValueCounts(xs).1) == Present(xs)
  {
    var ls := ValueCounts(xs).0;
    SumOfCounts(xs, ls);
    CountInAll(xs, ls);
  }

  /** In a cleaned table a non-numeric column has no missing cell, so a
      histogram's counts add up to the row count. */
  lemma HistogramCoversRows(t: Table, req: ChartRequest, lib: Library)
    requires Valid(t) && Clean(t) && Sound(lib)
    requires Find(t.entries, req.metric).Some? && !Find(t.entries, req.metric).value.Numeric?
    ensures HandleChart(Some(t), req, lib).Histogram?
    ensures SumOf(HandleChart(Some(t), req, lib).counts) == t.rows
  {
    var c := Find(t.entries, req.metric).value;
    assert Entry(req.metric, c) in t.entries;
    var xs := CellLabels(c);
    var (ls, counts) := ValueCounts(xs);
    RenderableCounts(xs);
    assert forall i :: 0 <= i < |xs| ==> !Unrenderable(xs[i]);
    assert HandleChart(Some(t), req, lib) == Histogram(ls, counts);
    CountsAddUp(xs);
    NoneMissing(xs);
  }

  lemma {:induction false} NoneMissing(xs: seq<Label>)
    requires forall i :: 0 <= i < |xs| ==> !Missing(xs[i])
    ensures Present(xs) == |xs|
  {
    if xs != [] {
      NoneMissing(xs[1..]);
    }
  }
}
