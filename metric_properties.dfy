/** What calculate_all_metrics and save_file promise
    (app/services/file_handler.py), proved of the model: which columns are
    added, what they hold, what happens to the others, and what an upload
    does to the stored dataset. */
module MetricProperties {
  import opened Pandas
  import opened FileHandler
  import opened Derivation

  // ---------------------------------------------------------------------
  // The shape of the metric blocks

  /** The columns the blocks test for. */
  const Inputs: set<string> := {"Profit", "Sales", "Cost", "Conversions", "Customers",
    "Retained_Customers", "Resolution_Time_Hours", "Resolved_Tickets",
    "Employee_Worked_Hours", "Employee_Available_Hours", "Customer_Lifetime_Revenue",
    "Customer_Acquisition_Cost", "Revenue", "Marketing_Spend", "Net_Profit", "Operating_Income"}

  /** The columns the blocks assign, in order. */
  const Outputs: seq<string> := ["Profit_Margin_%", "Gross_Margin_%", "Conversion_Rate_%",
    "Retention_Rate_%", "Churn_Rate_%", "Avg_Resolution_Time", "Utilization_%",
    "CLV", "CAC", "ROI_%", "Net_Profit_%", "Operating_Margin_%"]

  /** Where block k's first target sits in Outputs. */
  function Slot(k: nat): nat {
    if k <= 3 then k else k + 1
  }

  lemma GuardsAreInputs(k: nat, n: string)
    requires k < |MetricBlocks| && n in MetricBlocks[k].guard
    ensures n in Inputs
  {
  }

  lemma InputsAreNotOutputs(n: string)
    requires n in Inputs
    ensures n !in Outputs && n != "Date"
  {
  }

  lemma OutputsDistinct()
    ensures UniqueNames(Outputs)
  {
  }

  /** Block k assigns the outputs from Slot(k) on: two of them for the
      retention block, one for every other. */
  lemma TargetsOf(k: nat)
    requires k < |MetricBlocks|
    ensures var ts := Targets(MetricBlocks[k].assignments);
      && |ts| == (if k == 3 then 2 else 1)
      && Slot(k) + |ts| <= |Outputs|
      && forall i :: 0 <= i < |ts| ==> ts[i] == Outputs[Slot(k) + i]
  {
  }

  /** Every formula reads input columns, except that the churn rate reads
      the retention rate assigned just before it. */
  lemma SourcesOf(k: nat, i: nat, n: string)
    requires k < |MetricBlocks| && i < |MetricBlocks[k].assignments|
    requires n in Sources(MetricBlocks[k].assignments[i].formula)
    ensures n in Inputs || (k == 3 && i == 1 && n == Outputs[3])
  {
  }

  lemma TargetInOutputs(k: nat, n: string) returns (p: nat)
    requires k < |MetricBlocks| && n in Targets(MetricBlocks[k].assignments)
    ensures Slot(k) <= p < |Outputs| && Outputs[p] == n
    ensures p < Slot(k) + (if k == 3 then 2 else 1)
  {
    TargetsOf(k);
    var ts := Targets(MetricBlocks[k].assignments);
    var i :| 0 <= i < |ts| && ts[i] == n;
    p := Slot(k) + i;
  }

  lemma MetricGuardsUntouched()
    ensures GuardsUntouched(MetricBlocks)
  {
    forall k1, k2, n | 0 <= k1 < |MetricBlocks| && 0 <= k2 < |MetricBlocks| && n in MetricBlocks[k1].guard
      ensures n !in Targets(MetricBlocks[k2].assignments)
    {
      GuardsAreInputs(k1, n);
      InputsAreNotOutputs(n);
      if n in Targets(MetricBlocks[k2].assignments) {
        var p := TargetInOutputs(k2, n);
      }
    }
  }

  lemma MetricTargetsDistinct()
    ensures TargetsDistinct(MetricBlocks)
  {
    OutputsDistinct();
    forall k | 0 <= k < |MetricBlocks| ensures UniqueNames(Targets(MetricBlocks[k].assignments)) {
      TargetsOf(k);
    }
    forall k1, k2, n | 0 <= k1 < k2 < |MetricBlocks| && n in Targets(MetricBlocks[k1].assignments)
      ensures n !in Targets(MetricBlocks[k2].assignments)
    {
      var p1 := TargetInOutputs(k1, n);
      if n in Targets(MetricBlocks[k2].assignments) {
        var p2 := TargetInOutputs(k2, n);
      }
    }
  }

  lemma MetricBlocksReadForward()
    ensures BlocksReadForward(MetricBlocks)
  {
    forall k | 0 <= k < |MetricBlocks| ensures NoForwardReads(MetricBlocks[k].assignments) {
      var steps := MetricBlocks[k].assignments;
      TargetsOf(k);
      OutputsDistinct();
      forall i, j | 0 <= i <= j < |steps| ensures steps[j].target !in Sources(steps[i].formula) {
        assert steps[j].target == Targets(steps)[j] == Outputs[Slot(k) + j];
        if steps[j].target in Sources(steps[i].formula) {
          SourcesOf(k, i, steps[j].target);
          if steps[j].target in Inputs {
            InputsAreNotOutputs(steps[j].target);
          }
        }
      }
    }
  }

  lemma MetricLaterBlocksKeepReads()
    ensures LaterBlocksKeepReads(MetricBlocks)
  {
    forall k1, k2, i, n | 0 <= k1 < k2 < |MetricBlocks| && 0 <= i < |MetricBlocks[k1].assignments| &&
        n in Sources(MetricBlocks[k1].assignments[i].formula)
      ensures n !in Targets(MetricBlocks[k2].assignments)
    {
      SourcesOf(k1, i, n);
      if n in Inputs {
        InputsAreNotOutputs(n);
      }
      if n in Targets(MetricBlocks[k2].assignments) {
        var p := TargetInOutputs(k2, n);
        OutputsDistinct();
      }
    }
  }

  /** The eleven blocks test only input columns, assign distinct columns,
      and read nothing that they or a later block assign. */
  lemma MetricBlocksWellFormed()
    ensures WellFormed(MetricBlocks)
  {
    MetricGuardsUntouched();
    MetricTargetsDistinct();
    MetricBlocksReadForward();
    MetricLaterBlocksKeepReads();
  }

  /** No block tests for or assigns the Date column. */
  lemma DateUntouched()
    ensures forall k :: 0 <= k < |MetricBlocks| ==>
      "Date" !in Targets(MetricBlocks[k].assignments) && "Date" !in MetricBlocks[k].guard
  {
    forall k | 0 <= k < |MetricBlocks|
      ensures "Date" !in Targets(MetricBlocks[k].assignments) && "Date" !in MetricBlocks[k].guard
    {
      TargetsOf(k);
      assert "Date" !in Inputs && "Date" !in Outputs;
    }
  }

  // ---------------------------------------------------------------------
  // The cleanup, cell by cell

  /** A column after `replace([inf, -inf], 0)` and `fillna(0)`. */
  function Cleaned(c: Column): Column {
    MapCells(MapCells(c, ReplaceInf), FillNa)
  }

  /** What the cleanup makes of one float. */
  function CleanCell(x: Num): Num {
    if x.Fin? then x else Fin(0.0)
  }

  /** Finite floats are kept, every infinite or missing one becomes 0,
      strings and datetimes are left alone. */
  lemma CleanedCells(c: Column)
    ensures Len(Cleaned(c)) == Len(c)
    ensures c.Numeric? ==> (Cleaned(c).Numeric? &&
      forall i :: 0 <= i < |c.nums| ==> Cleaned(c).nums[i] == CleanCell(c.nums[i]))
    ensures c.Text? ==> (Cleaned(c).Text? &&
      forall i :: 0 <= i < |c.objs| ==>
        Cleaned(c).objs[i] == if c.objs[i].Flt? then Flt(CleanCell(c.objs[i].x)) else c.objs[i])
    ensures c.Dates? ==> Cleaned(c) == c
  {
  }

  /** The column n after the cleanup of a whole table. */
  lemma FindCleaned(u: Table, n: string)
    ensures Find(FillNaTable(ReplaceInfTable(u)).entries, n) ==
      if Has(u, n) then Some(Cleaned(Find(u.entries, n).value)) else None
  {
    FindMapped(u.entries, ReplaceInf, n);
    FindMapped(ReplaceInfTable(u).entries, FillNa, n);
  }

  // ---------------------------------------------------------------------
  // What calculate_all_metrics yields

  /** The Date step renames nothing and touches no other column. */
  lemma ReparseKeeps(t: Table, lib: Library, n: string)
    requires Valid(t) && Sound(lib)
    ensures Names(ReparseDate(t, lib).entries) == Names(t.entries)
    ensures n != "Date" ==> Find(ReparseDate(t, lib).entries, n) == Find(t.entries, n)
  {
    if Has(t, "Date") {
      var parsed := ToDatetime(lib, Find(t.entries, "Date").value);
      if parsed.Some? {
        FindAssigned(t.entries, "Date", Dates(parsed.value), n);
      }
    }
  }

  /** A column that is neither Date nor one of the metric columns reaches
      the end of the metric blocks unchanged. */
  lemma BeforeCleanupKept(t: Table, lib: Library, n: string)
    requires Valid(t) && Sound(lib) && EvalBlocks(ReparseDate(t, lib), MetricBlocks).Ok?
    requires n !in Outputs && n != "Date"
    ensures Find(EvalBlocks(ReparseDate(t, lib), MetricBlocks).value.entries, n) == Find(t.entries, n)
  {
    forall k | 0 <= k < |MetricBlocks| ensures n !in Targets(MetricBlocks[k].assignments) {
      if n in Targets(MetricBlocks[k].assignments) {
        var p := TargetInOutputs(k, n);
      }
    }
    BlocksFrame(ReparseDate(t, lib), MetricBlocks, n);
    ReparseKeeps(t, lib, n);
  }

  /** Every column that is neither Date nor a metric column is kept, only
      cleaned; none is dropped. */
  lemma UntouchedColumns(t: Table, lib: Library, n: string)
    requires Valid(t) && Sound(lib) && Derive(t, lib).Ok?
    requires n !in Outputs && n != "Date"
    ensures Find(Derive(t, lib).value.entries, n) ==
      if Has(t, n) then Some(Cleaned(Find(t.entries, n).value)) else None
  {
    var u := EvalBlocks(ReparseDate(t, lib), MetricBlocks).value;
    BeforeCleanupKept(t, lib, n);
    FindCleaned(u, n);
  }

  lemma ReparsedDate(t: Table, lib: Library)
    requires Valid(t) && Sound(lib) && Has(t, "Date")
    ensures var original := Find(t.entries, "Date").value;
      Find(ReparseDate(t, lib).entries, "Date") ==
        match ToDatetime(lib, original)
        case Some(ts) => Some(Dates(ts))
        case None => Some(original)
  {
    var parsed := ToDatetime(lib, Find(t.entries, "Date").value);
    if parsed.Some? {
      FindAssigned(t.entries, "Date", Dates(parsed.value), "Date");
    }
  }

  /** The Date column holds the parsed timestamps when `pd.to_datetime`
      succeeds, and the cleaned original when it raises. */
  lemma DateColumn(t: Table, lib: Library)
    requires Valid(t) && Sound(lib) && Derive(t, lib).Ok? && Has(t, "Date")
    ensures var original := Find(t.entries, "Date").value;
      Find(Derive(t, lib).value.entries, "Date") ==
        match ToDatetime(lib, original)
        case Some(ts) => Some(Dates(ts))
        case None => Some(Cleaned(original))
  {
    var r := ReparseDate(t, lib);
    var u := EvalBlocks(r, MetricBlocks).value;
    DateUntouched();
    BlocksFrame(r, MetricBlocks, "Date");
    ReparsedDate(t, lib);
    FindCleaned(u, "Date");
    var parsed := ToDatetime(lib, Find(t.entries, "Date").value);
    if parsed.Some? {
      CleanedCells(Dates(parsed.value));
    }
  }

  /** Columns are never removed or reordered: the metric columns of the
      blocks whose columns are all present are appended, in block order,
      unless the upload already had them. */
  lemma DerivedNames(t: Table, lib: Library)
    requires Valid(t) && Sound(lib) && Derive(t, lib).Ok?
    ensures Names(Derive(t, lib).value.entries) == Appended(Names(t.entries), Fired(t, MetricBlocks))
  {
    var r := ReparseDate(t, lib);
    ReparseKeeps(t, lib, "Date");
    MetricBlocksWellFormed();
    NamesAfterBlocks(r, MetricBlocks);
    FiredAgree(r, t, MetricBlocks);
  }

  /** A metric column the upload did not have is present afterwards exactly
      when all the columns its block tests for were uploaded. */
  lemma GatedByGuard(t: Table, lib: Library, k: nat, j: nat)
    requires Valid(t) && Sound(lib) && Derive(t, lib).Ok?
    requires k < |MetricBlocks| && j < |MetricBlocks[k].assignments|
    ensures var target := MetricBlocks[k].assignments[j].target;
      Has(Derive(t, lib).value, target) <==> Has(t, target) || HasAll(t, MetricBlocks[k].guard)
  {
    var target := MetricBlocks[k].assignments[j].target;
    DerivedNames(t, lib);
    AppendedKeepsPrefix(Names(t.entries), Fired(t, MetricBlocks));
    FiredMembers(t, MetricBlocks, target);
    assert target in Targets(MetricBlocks[k].assignments);
    MetricBlocksWellFormed();
    if target in Fired(t, MetricBlocks) {
      var k' :| 0 <= k' < |MetricBlocks| && HasAll(t, MetricBlocks[k'].guard) &&
        target in Targets(MetricBlocks[k'].assignments);
      assert k' == k;
    }
  }

  /** Each assigned metric column holds its formula evaluated on the table
      the blocks end with. */
  lemma MetricFixpoint(t: Table, lib: Library, k: nat, j: nat)
    requires Valid(t) && Sound(lib) && EvalBlocks(ReparseDate(t, lib), MetricBlocks).Ok?
    requires k < |MetricBlocks| && j < |MetricBlocks[k].assignments|
    requires HasAll(t, MetricBlocks[k].guard)
    ensures var u := EvalBlocks(ReparseDate(t, lib), MetricBlocks).value;
      var a := MetricBlocks[k].assignments[j];
      && Evaluate(u, a.formula).Ok?
      && Find(u.entries, a.target) == Some(Evaluate(u, a.formula).value)
  {
    var r := ReparseDate(t, lib);
    ReparseKeeps(t, lib, "Date");
    assert HasAll(r, MetricBlocks[k].guard);
    MetricBlocksWellFormed();
    BlocksFixpoint(r, MetricBlocks, k, j);
  }

  /** The columns a metric other than the churn rate reads are still the
      uploaded ones when it is evaluated. */
  lemma SourcesKept(t: Table, lib: Library, k: nat, j: nat, n: string)
    requires Valid(t) && Sound(lib) && EvalBlocks(ReparseDate(t, lib), MetricBlocks).Ok?
    requires k < |MetricBlocks| && j < |MetricBlocks[k].assignments| && !(k == 3 && j == 1)
    requires n in Sources(MetricBlocks[k].assignments[j].formula)
    ensures Find(EvalBlocks(ReparseDate(t, lib), MetricBlocks).value.entries, n) == Find(t.entries, n)
  {
    SourcesOf(k, j, n);
    InputsAreNotOutputs(n);
    BeforeCleanupKept(t, lib, n);
  }

  /** Every metric column but the churn rate is its formula evaluated on
      the uploaded columns, before the cleanup. */
  lemma BeforeCleanupMetric(t: Table, lib: Library, k: nat, j: nat)
    requires Valid(t) && Sound(lib) && EvalBlocks(ReparseDate(t, lib), MetricBlocks).Ok?
    requires k < |MetricBlocks| && j < |MetricBlocks[k].assignments| && !(k == 3 && j == 1)
    requires HasAll(t, MetricBlocks[k].guard)
    ensures var a := MetricBlocks[k].assignments[j];
      && Evaluate(t, a.formula).Ok?
      && Find(EvalBlocks(ReparseDate(t, lib), MetricBlocks).value.entries, a.target) == Some(Evaluate(t, a.formula).value)
  {
    var u := EvalBlocks(ReparseDate(t, lib), MetricBlocks).value;
    var f := MetricBlocks[k].assignments[j].formula;
    MetricFixpoint(t, lib, k, j);
    forall n | n in Sources(f) ensures Find(u.entries, n) == Find(t.entries, n) {
      SourcesKept(t, lib, k, j, n);
    }
    EvaluateLocal(u, t, f);
  }

  /** Every metric column but the churn rate is its formula evaluated on
      the uploaded columns, then cleaned. */
  lemma MetricValue(t: Table, lib: Library, k: nat, j: nat)
    requires Valid(t) && Sound(lib) && Derive(t, lib).Ok?
    requires k < |MetricBlocks| && j < |MetricBlocks[k].assignments| && !(k == 3 && j == 1)
    requires HasAll(t, MetricBlocks[k].guard)
    ensures var a := MetricBlocks[k].assignments[j];
      && Evaluate(t, a.formula).Ok?
      && Find(Derive(t, lib).value.entries, a.target) == Some(Cleaned(Evaluate(t, a.formula).value))
  {
    var u := EvalBlocks(ReparseDate(t, lib), MetricBlocks).value;
    BeforeCleanupMetric(t, lib, k, j);
    FindCleaned(u, MetricBlocks[k].assignments[j].target);
  }

  /** One ratio cell after the cleanup: the finite quotient (times 100 for
      a percentage) when both operands are finite and the denominator is not
      zero, and 0 in every other case. */
  function RatioOutcome(x: Num, y: Num, percent: bool): Num {
    if x.Fin? && y.Fin? && y.v != 0.0 then Fin(if percent then x.v / y.v * 100.0 else x.v / y.v)
    else Fin(0.0)
  }

  lemma RatioCleaned(x: Num, y: Num, percent: bool)
    ensures CleanCell(if percent then Percent(Div(x, y)) else Div(x, y)) == RatioOutcome(x, y, percent)
  {
  }

  /** A ratio metric, row by row: a zero, missing or infinite operand gives
      0 instead of an infinite or missing value. */
  lemma RatioCell(t: Table, lib: Library, k: nat, j: nat, i: nat)
    requires Valid(t) && Sound(lib) && Derive(t, lib).Ok?
    requires k < |MetricBlocks| && j < |MetricBlocks[k].assignments| && !(k == 3 && j == 1)
    requires HasAll(t, MetricBlocks[k].guard) && MetricBlocks[k].assignments[j].formula.Ratio?
    requires i < t.rows
    ensures var a := MetricBlocks[k].assignments[j];
      var f := a.formula;
      && OperandFloats(t, f.numerator).Ok?
      && Has(t, f.denominator)
      && Floats(Find(t.entries, f.denominator).value).Ok?
      && var x := OperandFloats(t, f.numerator).value[i];
         var y := Floats(Find(t.entries, f.denominator).value).value[i];
         var c := Find(Derive(t, lib).value.entries, a.target);
         c.Some? && c.value.Numeric? && |c.value.nums| == t.rows &&
         c.value.nums[i] == RatioOutcome(x, y, f.percent)
  {
    var a := MetricBlocks[k].assignments[j];
    var f := a.formula;
    MetricValue(t, lib, k, j);
    var raw := Evaluate(t, f).value;
    var x := OperandFloats(t, f.numerator).value;
    var y := Floats(Lookup(t, f.denominator).value).value;
    var q := Elementwise(x, y, Div);
    assert raw == Numeric(if f.percent then Each(q, Percent) else q);
    CleanedCells(raw);
    RatioCleaned(x[i], y[i], f.percent);
  }

  /** One churn cell after the cleanup, from the retained-customers cell a
      and the customers cell b: 100 minus the retention rate while that rate
      is finite, and 0 where the rate was infinite or missing. */
  function ChurnOutcome(a: Num, b: Num): Num {
    if a.Fin? && b.Fin? && b.v != 0.0 then Fin(100.0 - a.v / b.v * 100.0)
    else if a.Fin? && (b.PosInf? || b.NegInf?) then Fin(100.0)
    else Fin(0.0)
  }

  lemma ChurnCleaned(a: Num, b: Num)
    ensures CleanCell(HundredMinus(Percent(Div(a, b)))) == ChurnOutcome(a, b)
  {
  }

  lemma RetentionBlock()
    ensures MetricBlocks[3] == RetentionAndChurn
    ensures RetentionAndChurn.assignments[1] == Assignment("Churn_Rate_%", Complement("Retention_Rate_%"))
    ensures RetentionAndChurn.assignments[0] ==
      Assignment("Retention_Rate_%", Ratio(Named("Retained_Customers"), "Customers", true))
  {
  }

  /** A complement of a column that holds a ratio's result is 100 minus
      each of its cells. */
  lemma ComplementOfRatio(u: Table, t: Table, a0: Assignment, a1: Assignment)
    requires Valid(u) && Valid(t)
    requires a1.formula.Complement? && a1.formula.source == a0.target && a0.formula.Ratio?
    requires Evaluate(t, a0.formula).Ok?
    requires Find(u.entries, a0.target) == Some(Evaluate(t, a0.formula).value)
    ensures var retention := Evaluate(t, a0.formula);
      && retention.value.Numeric?
      && Evaluate(u, a1.formula) == Ok(Numeric(Each(retention.value.nums, HundredMinus)))
  {
    var retention := Evaluate(t, a0.formula).value;
    assert Lookup(u, a0.target) == Ok(retention);
    assert Floats(retention) == Ok(retention.nums);
  }

  lemma ChurnReadsRetention()
    ensures var a0 := MetricBlocks[3].assignments[0];
      var a1 := MetricBlocks[3].assignments[1];
      a1.formula.Complement? && a1.formula.source == a0.target && a0.formula.Ratio?
  {
  }

  lemma ChurnFromRetention(t: Table, lib: Library)
    requires Valid(t) && Sound(lib) && EvalBlocks(ReparseDate(t, lib), MetricBlocks).Ok?
    requires HasAll(t, MetricBlocks[3].guard)
    ensures var retention := Evaluate(t, MetricBlocks[3].assignments[0].formula);
      && retention.Ok? && retention.value.Numeric?
      && Find(EvalBlocks(ReparseDate(t, lib), MetricBlocks).value.entries, MetricBlocks[3].assignments[1].target) ==
         Some(Numeric(Each(retention.value.nums, HundredMinus)))
  {
    var u := EvalBlocks(ReparseDate(t, lib), MetricBlocks).value;
    ChurnReadsRetention();
    MetricFixpoint(t, lib, 3, 1);
    BeforeCleanupMetric(t, lib, 3, 0);
    ComplementOfRatio(u, t, MetricBlocks[3].assignments[0], MetricBlocks[3].assignments[1]);
  }

  /** The churn rate is computed from the retention rate before the cleanup
      has replaced its infinite cells. */
  lemma ChurnBeforeCleanup(t: Table, lib: Library)
    requires Valid(t) && Sound(lib) && EvalBlocks(ReparseDate(t, lib), MetricBlocks).Ok?
    requires HasAll(t, RetentionAndChurn.guard)
    ensures var retention := Evaluate(t, RetentionAndChurn.assignments[0].formula);
      && retention.Ok? && retention.value.Numeric?
      && Find(EvalBlocks(ReparseDate(t, lib), MetricBlocks).value.entries, "Churn_Rate_%") ==
         Some(Numeric(Each(retention.value.nums, HundredMinus)))
  {
    RetentionBlock();
    ChurnFromRetention(t, lib);
  }

  /** The churn rate, row by row, from the uploaded columns. */
  lemma ChurnCell(t: Table, lib: Library, i: nat)
    requires Valid(t) && Sound(lib) && Derive(t, lib).Ok?
    requires HasAll(t, RetentionAndChurn.guard) && i < t.rows
    ensures && Has(t, "Retained_Customers") && Has(t, "Customers")
      && Floats(Find(t.entries, "Retained_Customers").value).Ok?
      && Floats(Find(t.entries, "Customers").value).Ok?
      && var a := Floats(Find(t.entries, "Retained_Customers").value).value[i];
         var b := Floats(Find(t.entries, "Customers").value).value[i];
         var c := Find(Derive(t, lib).value.entries, "Churn_Rate_%");
         c.Some? && c.value.Numeric? && |c.value.nums| == t.rows &&
         c.value.nums[i] == ChurnOutcome(a, b)
  {
    var u := EvalBlocks(ReparseDate(t, lib), MetricBlocks).value;
    ChurnBeforeCleanup(t, lib);
    FindCleaned(u, "Churn_Rate_%");
    var a := Floats(Find(t.entries, "Retained_Customers").value).value;
    var b := Floats(Find(t.entries, "Customers").value).value;
    var retention := Evaluate(t, RetentionAndChurn.assignments[0].formula).value;
    assert retention == Numeric(Each(Elementwise(a, b, Div), Percent));
    CleanedCells(Numeric(Each(retention.nums, HundredMinus)));
    ChurnCleaned(a[i], b[i]);
  }

  lemma OutcomesComplement(a: Num, b: Num)
    ensures a.Fin? && b.Fin? && b.v != 0.0 ==>
      RatioOutcome(a, b, true).v + ChurnOutcome(a, b).v == 100.0
    ensures b == Fin(0.0) ==> RatioOutcome(a, b, true) == Fin(0.0) && ChurnOutcome(a, b) == Fin(0.0)
  {
  }

  /** Where both customer counts are finite and there are customers, the
      retention and churn rates add up to 100; with zero customers both are
      reported as 0. */
  lemma ChurnComplementsRetention(t: Table, lib: Library, i: nat)
    requires Valid(t) && Sound(lib) && Derive(t, lib).Ok?
    requires HasAll(t, RetentionAndChurn.guard) && i < t.rows
    ensures && Has(t, "Retained_Customers") && Has(t, "Customers")
      && Floats(Find(t.entries, "Retained_Customers").value).Ok?
      && Floats(Find(t.entries, "Customers").value).Ok?
      && var a := Floats(Find(t.entries, "Retained_Customers").value).value[i];
         var b := Floats(Find(t.entries, "Customers").value).value[i];
         var retention := Find(Derive(t, lib).value.entries, "Retention_Rate_%");
         var churn := Find(Derive(t, lib).value.entries, "Churn_Rate_%");
         && retention.Some? && retention.value.Numeric? && |retention.value.nums| == t.rows
         && churn.Some? && churn.value.Numeric? && |churn.value.nums| == t.rows
         && (a.Fin? && b.Fin? && b.v != 0.0 ==>
               retention.value.nums[i].Fin? && churn.value.nums[i].Fin? &&
               retention.value.nums[i].v + churn.value.nums[i].v == 100.0)
         && (b == Fin(0.0) ==> retention.value.nums[i] == Fin(0.0) && churn.value.nums[i] == Fin(0.0))
  {
    RetentionBlock();
    RatioCell(t, lib, 3, 0, i);
    ChurnCell(t, lib, i);
    var a := Floats(Find(t.entries, "Retained_Customers").value).value;
    var b := Floats(Find(t.entries, "Customers").value).value;
    assert OperandFloats(t, Named("Retained_Customers")).value == a;
    OutcomesComplement(a[i], b[i]);
  }

  /** CLV and CAC are copies of the columns they come from, cleaned like
      them. */
  lemma CopiesMatchSource(t: Table, lib: Library, k: nat)
    requires Valid(t) && Sound(lib) && Derive(t, lib).Ok?
    requires k == 6 || k == 7
    requires HasAll(t, MetricBlocks[k].guard)
    ensures var a := MetricBlocks[k].assignments[0];
      && a.formula.Copy?
      && Find(Derive(t, lib).value.entries, a.target).Some?
      && Find(Derive(t, lib).value.entries, a.target) == Find(Derive(t, lib).value.entries, a.formula.source)
  {
    var s := MetricBlocks[k].assignments[0].formula.source;
    MetricValue(t, lib, k, 0);
    InputsAreNotOutputs(s);
    UntouchedColumns(t, lib, s);
  }

  lemma OperandNeedsFloats(t: Table, num: Operand, n: string, c: Column)
    requires Valid(t) && Lookup(t, n) == Ok(c) && Floats(c).Err?
    requires (num.Named? && n == num.name) || (num.Minus? && (n == num.minuend || n == num.subtrahend))
    ensures OperandFloats(t, num).Err?
  {
    match num
    case Named(m) =>
    case Minus(a, b) =>
      if Lookup(t, a).Ok? && Lookup(t, b).Ok? {
        var ca := Lookup(t, a).value;
        var cb := Lookup(t, b).value;
        assert Floats(ca).Err? || Floats(cb).Err?;
      }
  }

  /** A formula that does arithmetic fails when a column it reads holds a
      string or a datetime. */
  lemma EvaluateNeedsFloats(t: Table, f: Formula, n: string)
    requires Valid(t) && !f.Copy? && n in Sources(f) && Has(t, n)
    requires Floats(Find(t.entries, n).value).Err?
    ensures Evaluate(t, f).Err?
  {
    var c := Find(t.entries, n).value;
    assert Lookup(t, n) == Ok(c);
    match f
    case Ratio(num, den, p) =>
      if n == den {
        RatioNeedsFloats(t, num, den, p);
      } else {
        OperandNeedsFloats(t, num, n, c);
      }
    case Complement(_) =>
  }

  lemma RatioNeedsFloats(t: Table, num: Operand, den: string, percent: bool)
    requires Valid(t) && Lookup(t, den).Ok? && Floats(Lookup(t, den).value).Err?
    ensures Evaluate(t, Ratio(num, den, percent)).Err?
  {
  }

  /** An upload whose metric columns are present but not numbers is
      rejected: the arithmetic raises, and the exception ends the
      derivation. */
  lemma FailsOnNonNumeric(t: Table, lib: Library, k: nat, j: nat, n: string)
    requires Valid(t) && Sound(lib)
    requires k < |MetricBlocks| && j < |MetricBlocks[k].assignments| && !(k == 3 && j == 1)
    requires HasAll(t, MetricBlocks[k].guard)
    requires !MetricBlocks[k].assignments[j].formula.Copy?
    requires n in Sources(MetricBlocks[k].assignments[j].formula) && Has(t, n)
    requires Floats(Find(t.entries, n).value).Err?
    ensures Derive(t, lib).Err?
  {
    EvaluateNeedsFloats(t, MetricBlocks[k].assignments[j].formula, n);
    if Derive(t, lib).Ok? {
      MetricValue(t, lib, k, j);
    }
  }

  // ---------------------------------------------------------------------
  // When the derivation succeeds

  /** Every formula that does arithmetic, in a block whose columns are all
      present, reads uploaded columns that hold numbers only: numeric
      columns, or object columns of floats. */
  ghost predicate ArithmeticOnNumbers(t: Table) {
    forall k, j, n ::
      0 <= k < |MetricBlocks| && HasAll(t, MetricBlocks[k].guard) &&
      0 <= j < |MetricBlocks[k].assignments| && !MetricBlocks[k].assignments[j].formula.Copy? &&
      n in Sources(MetricBlocks[k].assignments[j].formula) && n in Inputs && Has(t, n) ==>
        Floats(Find(t.entries, n).value).Ok?
  }

  /** Every uploaded column a formula reads is one its block tests for. */
  lemma SourcesGuarded(k: nat, j: nat, n: string)
    requires k < |MetricBlocks| && j < |MetricBlocks[k].assignments|
    requires n in Sources(MetricBlocks[k].assignments[j].formula) && n in Inputs
    ensures n in MetricBlocks[k].guard
  {
  }

  /** A formula evaluates when the columns it reads are present and, where
      it does arithmetic, hold numbers only. */
  lemma EvaluateSucceeds(s: Table, f: Formula)
    requires Valid(s)
    requires forall n :: n in Sources(f) ==> Has(s, n) && (!f.Copy? ==> Floats(Find(s.entries, n).value).Ok?)
    ensures Evaluate(s, f).Ok?
  {
    forall n | n in Sources(f) ensures Lookup(s, n) == Ok(Find(s.entries, n).value) {
    }
    match f
    case Ratio(num, den, p) =>
      assert den in Sources(f);
      match num {
        case Named(a) =>
          assert a in Sources(f);
        case Minus(a, b) =>
          assert a in Sources(f) && b in Sources(f);
      }
    case Copy(a) =>
      assert a in Sources(f);
    case Complement(a) =>
      assert a in Sources(f);
  }

  /** A formula other than the churn rate evaluates against any table that
      holds the uploaded input columns, when its block's columns are
      present and hold numbers. */
  lemma FormulaSucceeds(s: Table, t: Table, k: nat, j: nat)
    requires Valid(s) && k < |MetricBlocks| && j < |MetricBlocks[k].assignments| && !(k == 3 && j == 1)
    requires ArithmeticOnNumbers(t) && HasAll(t, MetricBlocks[k].guard)
    requires forall n :: n in Inputs ==> Find(s.entries, n) == Find(t.entries, n)
    ensures Evaluate(s, MetricBlocks[k].assignments[j].formula).Ok?
  {
    var f := MetricBlocks[k].assignments[j].formula;
    forall n | n in Sources(f)
      ensures n in Inputs && Has(t, n) && Has(s, n) && Find(s.entries, n) == Find(t.entries, n)
    {
      SourcesOf(k, j, n);
      SourcesGuarded(k, j, n);
    }
    EvaluateSucceeds(s, f);
  }

  /** Block k makes one assignment, except the retention block, which
      makes two. */
  lemma StepCount(k: nat)
    requires k < |MetricBlocks|
    ensures |MetricBlocks[k].assignments| == if k == 3 then 2 else 1
  {
  }

  /** Running a list of assignments whose first formula evaluates is
      running the rest on the table with that first column assigned. */
  lemma FirstStep(s: Table, steps: seq<Assignment>) returns (s1: Table)
    requires Valid(s) && steps != [] && Evaluate(s, steps[0].formula).Ok?
    ensures Valid(s1) && s1.rows == s.rows
    ensures EvalAssignments(s, steps) == EvalAssignments(s1, steps[1..])
    ensures Find(s1.entries, steps[0].target) == Some(Evaluate(s, steps[0].formula).value)
  {
    var c := Evaluate(s, steps[0].formula).value;
    AssignKeepsValid(s, steps[0].target, c);
    s1 := Table(s.rows, Assign(s.entries, steps[0].target, c));
    FindAssigned(s.entries, steps[0].target, c, steps[0].target);
  }

  /** A ratio followed by the complement of its column succeeds when the
      ratio does: the complement reads the numeric column just assigned. */
  lemma ComplementStepSucceeds(s: Table, steps: seq<Assignment>)
    requires Valid(s) && |steps| == 2 && Evaluate(s, steps[0].formula).Ok?
    requires steps[0].formula.Ratio?
    requires steps[1].formula.Complement? && steps[1].formula.source == steps[0].target
    ensures EvalAssignments(s, steps).Ok?
  {
    var s1 := FirstStep(s, steps);
    var c := Evaluate(s, steps[0].formula).value;
    assert Lookup(s1, steps[1].formula.source) == Ok(c);
    assert Floats(c) == Ok(c.nums);
    var rest := steps[1..];
    assert rest[0] == steps[1];
    var s2 := FirstStep(s1, rest);
    assert rest[1..] == [];
  }

  /** The retention block succeeds on any table that holds the uploaded
      input columns, when they are present and hold numbers. */
  lemma RetentionSucceeds(s: Table, t: Table)
    requires Valid(s) && ArithmeticOnNumbers(t) && HasAll(t, MetricBlocks[3].guard)
    requires forall n :: n in Inputs ==> Find(s.entries, n) == Find(t.entries, n)
    ensures EvalAssignments(s, MetricBlocks[3].assignments).Ok?
  {
    StepCount(3);
    ChurnReadsRetention();
    FormulaSucceeds(s, t, 3, 0);
    ComplementStepSucceeds(s, MetricBlocks[3].assignments);
  }

  /** Block k succeeds on any table that holds the uploaded input columns. */
  lemma BlockSucceeds(s: Table, t: Table, k: nat)
    requires Valid(s) && k < |MetricBlocks| && ArithmeticOnNumbers(t)
    requires forall n :: n in Inputs ==> Find(s.entries, n) == Find(t.entries, n)
    ensures EvalBlock(s, MetricBlocks[k]).Ok?
  {
    if HasAll(s, MetricBlocks[k].guard) {
      forall n | n in MetricBlocks[k].guard ensures Has(t, n) {
        GuardsAreInputs(k, n);
      }
      if k == 3 {
        RetentionSucceeds(s, t);
      } else {
        var steps := MetricBlocks[k].assignments;
        StepCount(k);
        FormulaSucceeds(s, t, k, 0);
        var s1 := FirstStep(s, steps);
        assert steps[1..] == [];
      }
    }
  }

  /** Block k keeps the uploaded input columns. */
  lemma BlockKeepsInputs(s: Table, k: nat, n: string)
    requires Valid(s) && k < |MetricBlocks| && EvalBlock(s, MetricBlocks[k]).Ok? && n in Inputs
    ensures Find(EvalBlock(s, MetricBlocks[k]).value.entries, n) == Find(s.entries, n)
  {
    InputsAreNotOutputs(n);
    if n in Targets(MetricBlocks[k].assignments) {
      var p := TargetInOutputs(k, n);
    }
    BlockKeepsOthers(s, MetricBlocks[k], n);
  }

  /** The blocks from k on succeed on any table that holds the uploaded
      input columns. */
  lemma {:induction false} BlocksSucceed(s: Table, t: Table, k: nat)
    requires Valid(s) && k <= |MetricBlocks| && ArithmeticOnNumbers(t)
    requires forall n :: n in Inputs ==> Find(s.entries, n) == Find(t.entries, n)
    ensures EvalBlocks(s, MetricBlocks[k..]).Ok?
    decreases |MetricBlocks| - k
  {
    if k < |MetricBlocks| {
      StepBlocks(s, k);
      BlockSucceeds(s, t, k);
      var u := EvalBlock(s, MetricBlocks[k]).value;
      forall n | n in Inputs ensures Find(u.entries, n) == Find(t.entries, n) {
        BlockKeepsInputs(s, k, n);
      }
      BlocksSucceed(u, t, k + 1);
    }
  }

  /** A table whose metric arithmetic reads numbers only derives. */
  lemma DeriveSucceeds(t: Table, lib: Library)
    requires Valid(t) && Sound(lib) && ArithmeticOnNumbers(t)
    ensures Derive(t, lib).Ok?
  {
    var s := ReparseDate(t, lib);
    forall n | n in Inputs ensures Find(s.entries, n) == Find(t.entries, n) {
      InputsAreNotOutputs(n);
      ReparseKeeps(t, lib, n);
    }
    BlocksSucceed(s, t, 0);
    assert MetricBlocks[0..] == MetricBlocks;
  }

  /** The derivation succeeds exactly when every fired formula that does
      arithmetic reads uploaded columns holding numbers only. */
  lemma DeriveSucceedsIff(t: Table, lib: Library)
    requires Valid(t) && Sound(lib)
    ensures Derive(t, lib).Ok? <==> ArithmeticOnNumbers(t)
  {
    if ArithmeticOnNumbers(t) {
      DeriveSucceeds(t, lib);
    } else {
      var k, j, n :| 0 <= k < |MetricBlocks| && HasAll(t, MetricBlocks[k].guard) &&
        0 <= j < |MetricBlocks[k].assignments| && !MetricBlocks[k].assignments[j].formula.Copy? &&
        n in Sources(MetricBlocks[k].assignments[j].formula) && n in Inputs && Has(t, n) &&
        Floats(Find(t.entries, n).value).Err?;
      ChurnReadsNoInput(k, j, n);
      FailsOnNonNumeric(t, lib, k, j, n);
    }
  }

  /** The churn rate reads no uploaded column. */
  lemma ChurnReadsNoInput(k: nat, j: nat, n: string)
    requires k < |MetricBlocks| && j < |MetricBlocks[k].assignments|
    requires n in Sources(MetricBlocks[k].assignments[j].formula) && n in Inputs
    ensures !(k == 3 && j == 1)
  {
  }

  // ---------------------------------------------------------------------
  // What save_file does to the slot

  /** A file whose name has none of the three suffixes is refused and the
      dataset already loaded stays. */
  lemma UnsupportedKeepsSlot(slot: Option<Table>, filename: string, content: seq<byte>, lib: Library)
    requires Sound(lib)
    requires !EndsWith(filename, ".csv") && !EndsWith(filename, ".xls") && !EndsWith(filename, ".xlsx")
    ensures Ingest(slot, filename, content, lib) == (NotSaved("Unsupported file format"), slot)
  {
  }

  /** With a supported suffix the outcome does not depend on what was
      loaded before: a new upload replaces the old dataset, and a failed
      one leaves none. It succeeds exactly when the reader and the
      derivation do, reports the content's byte size, and stores the
      derived table. */
  lemma SupportedReplacesSlot(slot: Option<Table>, filename: string, content: seq<byte>, lib: Library)
    requires Sound(lib) && Reader(filename, lib).Some?
    ensures var (result, after) := Ingest(slot, filename, content, lib);
      var parsed := Reader(filename, lib).value(content);
      && Ingest(None, filename, content, lib) == (result, after)
      && (result.Saved? <==> parsed.Ok? && Derive(parsed.value, lib).Ok?)
      && (result.Saved? ==> result == Saved(filename, |content|) && after == Some(Derive(parsed.value, lib).value))
      && (result.NotSaved? ==> after == None)
  {
  }
}
