/** get_summary (app/main.py): sorts the columns of the current dataset into
    numeric and categorical ones and aggregates its Sales and Profit
    columns. */
module Summary {
  import opened Pandas
  import opened FileHandler

  datatype SummaryData = SummaryData(
    totalSales: real,
    avgProfit: real,
    maxProfit: real,
    minProfit: real,
    numericColumns: seq<string>,
    categoricalColumns: seq<string>)

  /** The JSON response: the summary, or an error status with its message. */
  datatype SummaryResponse = Summarized(data: SummaryData) | Failed(status: nat, error: string)

  const NoData := "No data available to summarize."
  const CalculationError := "An error occurred during summary calculation: "
  /** What `json.dumps(..., allow_nan=False)` raises for a non-finite float. */
  const NotJsonCompliant := "Out of range float values are not JSON compliant"

  // ---------------------------------------------------------------------
  // Column classification

  /** `select_dtypes(include='number')` */
  predicate IsNumber(c: Column) {
    c.Numeric?
  }

  /** The distinct values `nunique()` counts: every cell but the missing ones. */
  function DistinctValues(os: seq<Obj>): set<Obj> {
    set o | o in os && o != Flt(NaN)
  }

  /** An object column with fewer than 50 distinct values. */
  predicate IsCategorical(c: Column) {
    c.Text? && |DistinctValues(c.objs)| < 50
  }

  /** The names of the columns that pass keep, in table order. */
  function Select(es: seq<Entry>, keep: Column -> bool): (r: seq<string>)
    ensures |r| <= |es|
    ensures forall n :: n in r <==> exists i :: 0 <= i < |es| && es[i].name == n && keep(es[i].col)
    decreases |es|
  {
    if es == [] then []
    else
      var front := es[..|es| - 1];
      var last := es[|es| - 1];
      assert forall i :: 0 <= i < |front| ==> front[i] == es[i];
      Select(front, keep) + if keep(last.col) then [last.name] else []
  }

  /** Select keeps the table's order: its i-th name is that of an entry that
      passes keep, and those entries come in increasing position. */
  lemma {:induction false} SelectInOrder(es: seq<Entry>, keep: Column -> bool) returns (ix: seq<nat>)
    ensures |ix| == |Select(es, keep)|
    ensures forall j :: 0 <= j < |ix| ==> ix[j] < |es| && keep(es[ix[j]].col) && Select(es, keep)[j] == es[ix[j]].name
    ensures forall j, k :: 0 <= j < k < |ix| ==> ix[j] < ix[k]
    decreases |es|
  {
    if es == [] {
      ix := [];
    } else {
      var front := es[..|es| - 1];
      ix := SelectInOrder(front, keep);
      if keep(es[|es| - 1].col) {
        ix := ix + [|es| - 1];
      }
    }
  }

  /** The loop of get_summary that collects the categorical columns. */
  method CategoricalColumns(t: Table) returns (cs: seq<string>)
    ensures cs == Select(t.entries, IsCategorical)
  {
    cs := [];
    for i := 0 to |t.entries|
      invariant cs == Select(t.entries[..i], IsCategorical)
    {
      assert t.entries[..i + 1][..i] == t.entries[..i];
      var e := t.entries[i];
      if e.col.Text? && |DistinctValues(e.col.objs)| < 50 {
        cs := cs + [e.name];
      }
    }
    assert t.entries[..|t.entries|] == t.entries;
  }

  // ---------------------------------------------------------------------
  // Aggregates

  /** `pd.to_numeric(column, errors='coerce')`: numbers stay, strings are
      converted (NaN where they do not parse), dates become nanoseconds. */
  function Coerce(lib: Library, c: Column): (r: seq<Num>)
    ensures |r| == Len(c)
    ensures c.Numeric? ==> r == c.nums
    ensures c.Text? ==> forall i :: 0 <= i < |r| && c.objs[i].Flt? ==> r[i] == c.objs[i].x
    ensures c.Text? ==> forall i :: 0 <= i < |r| && c.objs[i].Str? ==> r[i] == lib.toNumeric(c.objs[i].s)
    ensures c.Dates? ==> forall i :: 0 <= i < |r| ==> r[i] == Fin(c.stamps[i].nanos as real)
  {
    match c
    case Numeric(ns) => ns
    case Text(os) => seq(|os|, i requires 0 <= i < |os| => if os[i].Str? then lib.toNumeric(os[i].s) else os[i].x)
    case Dates(ts) => seq(|ts|, i requires 0 <= i < |ts| => Fin(ts[i].nanos as real))
  }

  /** The cells an aggregate with `skipna=True` looks at. */
  function Observed(xs: seq<Num>): (r: seq<Num>)
    ensures |r| <= |xs|
    ensures forall y :: y in r <==> y in xs && !y.NaN?
    ensures forall y :: multiset(r)[y] == if y.NaN? then 0 else multiset(xs)[y]
  {
    if xs == [] then []
    else
      assert xs == [xs[0]] + xs[1..];
      (if xs[0].NaN? then [] else [xs[0]]) + Observed(xs[1..])
  }

  function Sum(ys: seq<Num>): Num {
    if ys == [] then Fin(0.0) else Add(ys[0], Sum(ys[1..]))
  }

  /** The order of non-missing floats. */
  function Rank(x: Num): nat {
    match x
    case NegInf => 0
    case Fin(_) => 1
    case _ => 2
  }

  predicate Below(a: Num, b: Num) {
    if a.Fin? && b.Fin? then a.v < b.v else Rank(a) < Rank(b)
  }

  function Greatest(ys: seq<Num>): (r: Num)
    requires ys != []
    ensures r in ys
    ensures forall i :: 0 <= i < |ys| ==> !Below(r, ys[i])
  {
    if |ys| == 1 then ys[0]
    else
      var m := Greatest(ys[1..]);
      if Below(ys[0], m) then m else ys[0]
  }

  function Least(ys: seq<Num>): (r: Num)
    requires ys != []
    ensures r in ys
    ensures forall i :: 0 <= i < |ys| ==> !Below(ys[i], r)
  {
    if |ys| == 1 then ys[0]
    else
      var m := Least(ys[1..]);
      if Below(m, ys[0]) then m else ys[0]
  }

  /** `.sum()`: 0 when nothing is observed, finite when no cell is
      infinite. */
  function Total(xs: seq<Num>): (r: Num)
    ensures Observed(xs) == [] ==> r == Fin(0.0)
    ensures (forall x :: x in xs ==> !x.PosInf? && !x.NegInf?) ==> r.Fin?
  {
    FiniteSum(Observed(xs));
    Sum(Observed(xs))
  }

  /** `.mean()`: NaN when nothing is observed, finite when something is
      and no cell is infinite. */
  function Mean(xs: seq<Num>): (r: Num)
    ensures Observed(xs) == [] ==> r.NaN?
    ensures Observed(xs) != [] && (forall x :: x in xs ==> !x.PosInf? && !x.NegInf?) ==> r.Fin?
  {
    var ys := Observed(xs);
    FiniteSum(ys);
    if ys == [] then NaN else Div(Sum(ys), Fin(|ys| as real))
  }

  /** `.max()`: NaN when nothing is observed; otherwise a non-missing
      cell that no non-missing cell exceeds. */
  function Max(xs: seq<Num>): (r: Num)
    ensures Observed(xs) == [] ==> r.NaN?
    ensures Observed(xs) != [] ==> r in xs && !r.NaN? && forall y :: y in xs && !y.NaN? ==> !Below(r, y)
  {
    var ys := Observed(xs);
    if ys == [] then NaN
    else
      var m := Greatest(ys);
      assert forall y :: y in ys ==> exists i :: 0 <= i < |ys| && ys[i] == y;
      m
  }

  /** `.min()`: NaN when nothing is observed; otherwise a non-missing
      cell that exceeds no non-missing cell. */
  function Min(xs: seq<Num>): (r: Num)
    ensures Observed(xs) == [] ==> r.NaN?
    ensures Observed(xs) != [] ==> r in xs && !r.NaN? && forall y :: y in xs && !y.NaN? ==> !Below(y, r)
  {
    var ys := Observed(xs);
    if ys == [] then NaN
    else
      var m := Least(ys);
      assert forall y :: y in ys ==> exists i :: 0 <= i < |ys| && ys[i] == y;
      m
  }

  /** A sum of cells none of which is NaN or infinite is finite. */
  lemma {:induction false} FiniteSum(ys: seq<Num>)
    ensures (forall y :: y in ys ==> y.Fin?) ==> Sum(ys).Fin?
  {
    if ys != [] {
      assert forall y :: y in ys[1..] ==> y in ys;
      FiniteSum(ys[1..]);
    }
  }

  /** An aggregate of the coerced column n, or 0 when there is no such column. */
  function Stat(t: Table, lib: Library, n: string, f: seq<Num> -> Num): Num {
    match Find(t.entries, n)
    case None => Fin(0.0)
    case Some(c) => f(Coerce(lib, c))
  }

  /** get_summary as a function of the slot. */
  function Summarize(slot: Option<Table>, lib: Library): (r: SummaryResponse)
    ensures r.Failed? ==> r == Failed(404, NoData) || r.status == 500
    ensures r.Summarized? ==> slot.Some? && !Empty(slot.value)
  {
    if slot.None? || Empty(slot.value) then Failed(404, NoData)
    else
      var t := slot.value;
      var total := Stat(t, lib, "Sales", Total);
      var avg := Stat(t, lib, "Profit", Mean);
      var hi := Stat(t, lib, "Profit", Max);
      var lo := Stat(t, lib, "Profit", Min);
      if total.Fin? && avg.Fin? && hi.Fin? && lo.Fin? then
        Summarized(SummaryData(total.v, avg.v, hi.v, lo.v,
          Select(t.entries, IsNumber), Select(t.entries, IsCategorical)))
      else
        Failed(500, CalculationError + NotJsonCompliant)
  }

  /** get_summary, reading the slot through get_dataframe. */
  method GetSummary(store: DatasetStore, lib: Library) returns (r: SummaryResponse)
    requires store.Invariant()
    ensures r == Summarize(store.GetDataframe(), lib)
  {
    var df := store.GetDataframe();
    if df.None? || Empty(df.value) {
      return Failed(404, NoData);
    }
    var t := df.value;
    var numeric := Select(t.entries, IsNumber);
    var categorical := CategoricalColumns(t);
    var total := Stat(t, lib, "Sales", Total);
    var avg := Stat(t, lib, "Profit", Mean);
    var hi := Stat(t, lib, "Profit", Max);
    var lo := Stat(t, lib, "Profit", Min);
    if total.Fin? && avg.Fin? && hi.Fin? && lo.Fin? {
      r := Summarized(SummaryData(total.v, avg.v, hi.v, lo.v, numeric, categorical));
    } else {
      r := Failed(500, CalculationError + NotJsonCompliant);
    }
  }

  // ---------------------------------------------------------------------
  // Properties

  /** The 404 is returned exactly when there is no dataset or it is empty. */
  lemma NotFoundIffNoData(slot: Option<Table>, lib: Library)
    ensures Summarize(slot, lib) == Failed(404, NoData) <==> slot.None? || Empty(slot.value)
  {
  }

  /** An absent Sales or Profit column reports 0. */
  lemma AbsentColumnsReportZero(t: Table, lib: Library)
    requires Summarize(Some(t), lib).Summarized?
    ensures !Has(t, "Sales") ==> Summarize(Some(t), lib).data.totalSales == 0.0
    ensures !Has(t, "Profit") ==> Summarize(Some(t), lib).data.avgProfit == 0.0
    ensures !Has(t, "Profit") ==> Summarize(Some(t), lib).data.maxProfit == 0.0
    ensures !Has(t, "Profit") ==> Summarize(Some(t), lib).data.minProfit == 0.0
  {
  }

  /** A missing Sales or Profit column never causes the 500: a non-empty
      table with neither column is summarized with all four figures 0. */
  lemma AbsentColumnsNeverFail(t: Table, lib: Library)
    requires !Empty(t) && !Has(t, "Sales") && !Has(t, "Profit")
    ensures Summarize(Some(t), lib) ==
      Summarized(SummaryData(0.0, 0.0, 0.0, 0.0, Select(t.entries, IsNumber), Select(t.entries, IsCategorical)))
  {
    assert Find(t.entries, "Sales").None?;
    assert Find(t.entries, "Profit").None?;
  }

  /** Without Sales, the total is 0 and the summary fails exactly when the
      Profit figures are not finite. */
  lemma AbsentSalesNeverFails(t: Table, lib: Library)
    requires !Empty(t) && !Has(t, "Sales")
    ensures Summarize(Some(t), lib).Summarized? <==>
      Stat(t, lib, "Profit", Mean).Fin? && Stat(t, lib, "Profit", Max).Fin? && Stat(t, lib, "Profit", Min).Fin?
  {
    assert Find(t.entries, "Sales").None?;
  }

  /** Two entries of a valid table with the same name are the same entry. */
  lemma SameNameSameEntry(t: Table, i: nat, j: nat)
    requires Valid(t) && i < |t.entries| && j < |t.entries|
    requires t.entries[i].name == t.entries[j].name
    ensures i == j
  {
    var ns := Names(t.entries);
    assert ns[i] == ns[j];
  }

  /** No column is both numeric and categorical. */
  lemma ClassesDisjoint(t: Table, lib: Library, n: string)
    requires Valid(t) && Summarize(Some(t), lib).Summarized?
    ensures var d := Summarize(Some(t), lib).data;
      !(n in d.numericColumns && n in d.categoricalColumns)
  {
    var d := Summarize(Some(t), lib).data;
    if n in d.numericColumns {
      var i :| 0 <= i < |t.entries| && t.entries[i].name == n && IsNumber(t.entries[i].col);
      forall j | 0 <= j < |t.entries| && t.entries[j].name == n
        ensures !IsCategorical(t.entries[j].col)
      {
        SameNameSameEntry(t, i, j);
      }
    }
  }

  lemma SummaryLists(t: Table, lib: Library)
    requires Summarize(Some(t), lib).Summarized?
    ensures Summarize(Some(t), lib).data.numericColumns == Select(t.entries, IsNumber)
    ensures Summarize(Some(t), lib).data.categoricalColumns == Select(t.entries, IsCategorical)
  {
  }

  lemma NotSelected(es: seq<Entry>, keep: Column -> bool, n: string)
    requires forall i :: 0 <= i < |es| && es[i].name == n ==> !keep(es[i].col)
    ensures n !in Select(es, keep)
  {
  }

  lemma DatesNotSelected(t: Table, n: string, ts: seq<Timestamp>)
    requires Valid(t) && Find(t.entries, n) == Some(Dates(ts))
    ensures n !in Select(t.entries, IsNumber) && n !in Select(t.entries, IsCategorical)
  {
    var k :| 0 <= k < |t.entries| && t.entries[k] == Entry(n, Dates(ts));
    forall j | 0 <= j < |t.entries| && t.entries[j].name == n
      ensures t.entries[j].col == Dates(ts)
    {
      SameNameSameEntry(t, k, j);
    }
    NotSelected(t.entries, IsNumber, n);
    NotSelected(t.entries, IsCategorical, n);
  }

  /** A datetime column, such as a parsed Date, is in neither list. */
  lemma DatesInNeither(t: Table, lib: Library, n: string, ts: seq<Timestamp>)
    requires Valid(t) && Summarize(Some(t), lib).Summarized?
    requires Find(t.entries, n) == Some(Dates(ts))
    ensures var d := Summarize(Some(t), lib).data;
      n !in d.numericColumns && n !in d.categoricalColumns
  {
    SummaryLists(t, lib);
    DatesNotSelected(t, n, ts);
  }

  /** k copies of a added up. */
  function Times(a: real, k: nat): real {
    if k == 0 then 0.0 else a + Times(a, k - 1)
  }

  lemma {:induction false} TimesIsProduct(a: real, k: nat)
    ensures Times(a, k) == a * k as real
  {
    if k > 0 {
      TimesIsProduct(a, k - 1);
      assert a * k as real == a * (k - 1) as real + a;
    }
  }

  /** Sum stays finite over finite cells, between n times the least and n
      times the greatest of them. */
  lemma {:induction false} SumBetween(ys: seq<Num>, lo: real, hi: real)
    requires forall i :: 0 <= i < |ys| ==> ys[i].Fin? && lo <= ys[i].v <= hi
    ensures Sum(ys).Fin?
    ensures Times(lo, |ys|) <= Sum(ys).v <= Times(hi, |ys|)
  {
    if ys != [] {
      var rest := ys[1..];
      assert forall i :: 0 <= i < |rest| ==> rest[i] == ys[i + 1];
      SumBetween(rest, lo, hi);
      assert Sum(ys) == Fin(ys[0].v + Sum(rest).v);
    }
  }

  lemma NonPositiveFactor(a: real, b: real)
    requires b > 0.0 && a * b <= 0.0
    ensures a <= 0.0
  {
  }

  lemma DivideBounds(lo: real, s: real, hi: real, k: nat)
    requires k > 0 && Times(lo, k) <= s <= Times(hi, k)
    ensures lo <= s / k as real <= hi
  {
    var n := k as real;
    var m := s / n;
    assert m * n == s;
    TimesIsProduct(lo, k);
    TimesIsProduct(hi, k);
    assert (lo - m) * n == lo * n - m * n;
    NonPositiveFactor(lo - m, n);
    assert (m - hi) * n == m * n - hi * n;
    NonPositiveFactor(m - hi, n);
  }

  /** With at least one observed cell and none infinite, the mean lies
      between the minimum and the maximum. */
  lemma MeanBetween(xs: seq<Num>)
    requires Observed(xs) != []
    requires forall x :: x in xs ==> !x.PosInf? && !x.NegInf?
    ensures Min(xs).Fin? && Mean(xs).Fin? && Max(xs).Fin?
    ensures Min(xs).v <= Mean(xs).v <= Max(xs).v
  {
    var ys := Observed(xs);
    var lo, hi := Least(ys), Greatest(ys);
    assert lo in xs && hi in xs;
    assert lo.Fin? && hi.Fin?;
    forall i | 0 <= i < |ys| ensures ys[i].Fin? && lo.v <= ys[i].v <= hi.v {
      assert ys[i] in xs;
      assert !Below(ys[i], lo) && !Below(hi, ys[i]);
    }
    SumBetween(ys, lo.v, hi.v);
    var s := Sum(ys).v;
    DivideBounds(lo.v, s, hi.v, |ys|);
    assert Mean(xs) == Fin(s / |ys| as real);
  }

  /** A summary that is returned has min_profit <= avg_profit <= max_profit. */
  lemma ProfitOrdered(t: Table, lib: Library)
    requires Summarize(Some(t), lib).Summarized?
    ensures var d := Summarize(Some(t), lib).data;
      d.minProfit <= d.avgProfit <= d.maxProfit
  {
    match Find(t.entries, "Profit")
    case None =>
    case Some(c) =>
      var xs := Coerce(lib, c);
      var ys := Observed(xs);
      assert ys != [];
      forall x | x in xs ensures !x.PosInf? && !x.NegInf? {
        if !x.NaN? {
          assert x in ys;
          var i :| 0 <= i < |ys| && ys[i] == x;
          assert !Below(Greatest(ys), ys[i]);
          assert !Below(ys[i], Least(ys));
        }
      }
      MeanBetween(xs);
  }
}
