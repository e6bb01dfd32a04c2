/** The metric derivation run on every uploaded table, and the single-slot
    store that holds the current dataset (app/services/file_handler.py). */
module FileHandler {
  import opened Pandas

  /** The numerator of a ratio: one column, or the difference of two. */
  datatype Operand = Named(name: string) | Minus(minuend: string, subtrahend: string)

  /** The right-hand side of one `df[target] = ...` line. */
  datatype Formula =
    | Ratio(numerator: Operand, denominator: string, percent: bool)  // numerator / df[denominator], times 100 if percent
    | Copy(source: string)                                           // df[source]
    | Complement(source: string)                                     // 100 - df[source]

  datatype Assignment = Assignment(target: string, formula: Formula)

  /** One `if` of calculate_all_metrics: the columns it tests for, and the
      assignments it then makes, in order. */
  datatype Block = Block(guard: seq<string>, assignments: seq<Assignment>)

  const ProfitMargin := Block(["Profit", "Sales"],
    [Assignment("Profit_Margin_%", Ratio(Named("Profit"), "Sales", true))])
  const GrossMargin := Block(["Sales", "Cost"],
    [Assignment("Gross_Margin_%", Ratio(Minus("Sales", "Cost"), "Sales", true))])
  const ConversionRate := Block(["Conversions", "Customers"],
    [Assignment("Conversion_Rate_%", Ratio(Named("Conversions"), "Customers", true))])
  const RetentionAndChurn := Block(["Retained_Customers", "Customers"],
    [Assignment("Retention_Rate_%", Ratio(Named("Retained_Customers"), "Customers", true)),
     Assignment("Churn_Rate_%", Complement("Retention_Rate_%"))])
  const ResolutionTime := Block(["Resolution_Time_Hours", "Resolved_Tickets"],
    [Assignment("Avg_Resolution_Time", Ratio(Named("Resolution_Time_Hours"), "Resolved_Tickets", false))])
  const Utilization := Block(["Employee_Worked_Hours", "Employee_Available_Hours"],
    [Assignment("Utilization_%", Ratio(Named("Employee_Worked_Hours"), "Employee_Available_Hours", true))])
  const LifetimeValue := Block(["Customer_Lifetime_Revenue"],
    [Assignment("CLV", Copy("Customer_Lifetime_Revenue"))])
  const AcquisitionCost := Block(["Customer_Acquisition_Cost"],
    [Assignment("CAC", Copy("Customer_Acquisition_Cost"))])
  const ReturnOnInvestment := Block(["Revenue", "Marketing_Spend"],
    [Assignment("ROI_%", Ratio(Minus("Revenue", "Marketing_Spend"), "Marketing_Spend", true))])
  const NetProfitMargin := Block(["Net_Profit", "Revenue"],
    [Assignment("Net_Profit_%", Ratio(Named("Net_Profit"), "Revenue", true))])
  const OperatingMargin := Block(["Operating_Income", "Revenue"],
    [Assignment("Operating_Margin_%", Ratio(Named("Operating_Income"), "Revenue", true))])

  /** The metric blocks in the order calculate_all_metrics runs them. */
  const MetricBlocks: seq<Block> := [
    ProfitMargin, GrossMargin, ConversionRate, RetentionAndChurn,
    ResolutionTime, Utilization,
    LifetimeValue, AcquisitionCost, ReturnOnInvestment,
    NetProfitMargin, OperatingMargin]

  // ---------------------------------------------------------------------
  // Evaluation of one formula against the current table

  /** `df[n]`, raising KeyError when there is no such column. */
  function Lookup(t: Table, n: string): (r: Result<Column>)
    requires Valid(t)
    ensures r.Ok? <==> Has(t, n)
    ensures r.Ok? ==> Some(r.value) == Find(t.entries, n) && Len(r.value) == t.rows
  {
    match Find(t.entries, n)
    case None => Err("KeyError: " + n)
    case Some(c) => Ok(c)
  }

  function OperandFloats(t: Table, o: Operand): (r: Result<seq<Num>>)
    requires Valid(t)
    ensures r.Ok? ==> |r.value| == t.rows
  {
    match o
    case Named(n) =>
      var c :- Lookup(t, n);
      Floats(c)
    case Minus(a, b) =>
      var ca :- Lookup(t, a);
      var cb :- Lookup(t, b);
      Difference(ca, cb)
  }

  /** `df[a] - df[b]` for the columns a and b. */
  function Difference(ca: Column, cb: Column): (r: Result<seq<Num>>)
    requires Len(ca) == Len(cb)
    ensures r.Ok? ==> |r.value| == Len(ca)
  {
    var x :- Floats(ca);
    var y :- Floats(cb);
    Ok(Elementwise(x, y, Sub))
  }

  function HundredMinus(x: Num): Num {
    Sub(Fin(100.0), x)
  }

  /** `x / df[den]`, times 100 for a percentage. */
  function Quotient(x: seq<Num>, d: Column, percent: bool): (r: Result<Column>)
    requires |x| == Len(d)
    ensures r.Ok? ==> r.value.Numeric? && Len(r.value) == |x|
  {
    var y :- Floats(d);
    var q := Elementwise(x, y, Div);
    Ok(Numeric(if percent then Each(q, Percent) else q))
  }

  /** The column a formula yields, or the exception it raises. */
  function Evaluate(t: Table, f: Formula): (r: Result<Column>)
    requires Valid(t)
    ensures r.Ok? ==> Len(r.value) == t.rows
    ensures r.Ok? && !f.Copy? ==> r.value.Numeric?
  {
    match f
    case Ratio(num, den, percent) =>
      var x :- OperandFloats(t, num);
      var d :- Lookup(t, den);
      Quotient(x, d, percent)
    case Copy(s) =>
      Lookup(t, s)
    case Complement(s) =>
      var c :- Lookup(t, s);
      var x :- Floats(c);
      Ok(Numeric(Each(x, HundredMinus)))
  }

  // ---------------------------------------------------------------------
  // The derivation as a whole

  predicate HasAll(t: Table, guard: seq<string>) {
    forall n :: n in guard ==> Has(t, n)
  }

  /** Runs the assignments of a block in order; the first exception ends
      the run. */
  function EvalAssignments(t: Table, assignments: seq<Assignment>): (r: Result<Table>)
    requires Valid(t)
    ensures r.Ok? ==> Valid(r.value) && r.value.rows == t.rows
    decreases |assignments|
  {
    if assignments == [] then Ok(t)
    else
      var a := assignments[0];
      var c :- Evaluate(t, a.formula);
      AssignKeepsValid(t, a.target, c);
      EvalAssignments(Table(t.rows, Assign(t.entries, a.target, c)), assignments[1..])
  }

  /** One `if` block: skipped unless every guard column is present. */
  function EvalBlock(t: Table, b: Block): (r: Result<Table>)
    requires Valid(t)
    ensures r.Ok? ==> Valid(r.value) && r.value.rows == t.rows
  {
    if HasAll(t, b.guard) then EvalAssignments(t, b.assignments) else Ok(t)
  }

  function EvalBlocks(t: Table, bs: seq<Block>): (r: Result<Table>)
    requires Valid(t)
    ensures r.Ok? ==> Valid(r.value) && r.value.rows == t.rows
    decreases |bs|
  {
    if bs == [] then Ok(t)
    else
      var u :- EvalBlock(t, bs[0]);
      EvalBlocks(u, bs[1..])
  }

  /** The Date step: the column is replaced by its parsed form when
      `pd.to_datetime` succeeds, and kept as it is when it raises. */
  function ReparseDate(t: Table, lib: Library): (r: Table)
    requires Valid(t) && Sound(lib)
    ensures Valid(r) && r.rows == t.rows
  {
    if Has(t, "Date") then
      match ToDatetime(lib, Find(t.entries, "Date").value)
      case None => t
      case Some(ts) =>
        AssignKeepsValid(t, "Date", Dates(ts));
        Table(t.rows, Assign(t.entries, "Date", Dates(ts)))
    else t
  }

  lemma CleanupKeepsValid(t: Table)
    requires Valid(t)
    ensures Valid(ReplaceInfTable(t)) && Valid(FillNaTable(ReplaceInfTable(t)))
  {
    var u := ReplaceInfTable(t);
    assert Names(u.entries) == Names(t.entries);
    forall e | e in u.entries ensures Len(e.col) == u.rows {
      var i :| 0 <= i < |u.entries| && u.entries[i] == e;
      assert t.entries[i] in t.entries;
    }
    var w := FillNaTable(u);
    assert Names(w.entries) == Names(u.entries);
    forall e | e in w.entries ensures Len(e.col) == w.rows {
      var i :| 0 <= i < |w.entries| && w.entries[i] == e;
      assert u.entries[i] in u.entries;
    }
  }

  /** calculate_all_metrics as a function of the table it is given: the
      Date step, the metric blocks in order, then the cleanup of infinite
      and missing cells. */
  function Derive(t: Table, lib: Library): (r: Result<Table>)
    requires Valid(t) && Sound(lib)
    ensures r.Ok? ==> Valid(r.value) && r.value.rows == t.rows
  {
    var u :- EvalBlocks(ReparseDate(t, lib), MetricBlocks);
    CleanupKeepsValid(u);
    Ok(FillNaTable(ReplaceInfTable(u)))
  }

  // ---------------------------------------------------------------------
  // The in-place implementation

  /** Runs one `if` block on the data frame, assigning its columns in place. */
  method RunBlock(df: DataFrame, b: Block) returns (r: Result<Table>)
    requires Valid(df.Value())
    modifies df
    ensures r == EvalBlock(old(df.Value()), b)
    ensures r.Ok? ==> df.Value() == r.value
  {
    if forall n :: n in b.guard ==> df.Has(n) {
      ghost var t := df.Value();
      for j := 0 to |b.assignments|
        invariant Valid(df.Value())
        invariant EvalAssignments(t, b.assignments) == EvalAssignments(df.Value(), b.assignments[j..])
      {
        var a := b.assignments[j];
        assert b.assignments[j..][0] == a && b.assignments[j..][1..] == b.assignments[j + 1..];
        var c := Evaluate(df.Value(), a.formula);
        if c.Err? {
          return Err(c.msg);
        }
        df.SetItem(a.target, c.value);
      }
    }
    r := Ok(df.Value());
  }

  /** One step of the fold over the metric blocks. */
  lemma StepBlocks(t: Table, k: nat)
    requires Valid(t) && k < |MetricBlocks|
    ensures EvalBlocks(t, MetricBlocks[k..]) ==
      match EvalBlock(t, MetricBlocks[k])
      case Err(m) => Err(m)
      case Ok(u) => EvalBlocks(u, MetricBlocks[k + 1..])
  {
    assert MetricBlocks[k..][0] == MetricBlocks[k];
    assert MetricBlocks[k..][1..] == MetricBlocks[k + 1..];
  }

  lemma CleanupCleansColumn(c: Column)
    ensures CleanColumn(MapCells(MapCells(c, ReplaceInf), FillNa))
  {
  }

  /** After the two cleanup passes no cell is infinite or missing. */
  lemma CleanupCleans(t: Table)
    ensures Clean(FillNaTable(ReplaceInfTable(t)))
  {
    var u := ReplaceInfTable(t);
    var w := FillNaTable(u);
    forall e | e in w.entries ensures CleanColumn(e.col) {
      var i :| 0 <= i < |w.entries| && w.entries[i] == e;
      assert e.col == MapCells(u.entries[i].col, FillNa);
      assert u.entries[i].col == MapCells(t.entries[i].col, ReplaceInf);
      CleanupCleansColumn(t.entries[i].col);
    }
  }

  lemma DeriveIsClean(t: Table, lib: Library)
    requires Valid(t) && Sound(lib) && Derive(t, lib).Ok?
    ensures Clean(Derive(t, lib).value)
  {
    CleanupCleans(EvalBlocks(ReparseDate(t, lib), MetricBlocks).value);
  }

  lemma DeriveUnfolds(t: Table, lib: Library)
    requires Valid(t) && Sound(lib)
    ensures Derive(t, lib) ==
      match EvalBlocks(ReparseDate(t, lib), MetricBlocks)
      case Err(m) => Err(m)
      case Ok(u) => Ok(FillNaTable(ReplaceInfTable(u)))
  {
  }

  /** The Date handling of calculate_all_metrics, in place. */
  method ParseDateColumn(df: DataFrame, lib: Library)
    requires Valid(df.Value()) && Sound(lib)
    modifies df
    ensures df.Value() == ReparseDate(old(df.Value()), lib)
  {
    if df.Has("Date") {
      var parsed := ToDatetime(lib, Find(df.entries, "Date").value);
      if parsed.Some? {
        df.SetItem("Date", Dates(parsed.value));
      }
    }
  }

  /** calculate_all_metrics: updates the data frame in place and returns
      it, or the exception one of its steps raised. The metric `if` blocks
      are the entries of MetricBlocks, run in the source's order. */
  method CalculateAllMetrics(df: DataFrame, lib: Library) returns (r: Result<Table>)
    requires Valid(df.Value()) && Sound(lib)
    modifies df
    ensures r == Derive(old(df.Value()), lib)
    ensures r.Ok? ==> df.Value() == r.value
  {
    // Date handling
    ParseDateColumn(df, lib);
    DeriveUnfolds(old(df.Value()), lib);
    ghost var spec := EvalBlocks(df.Value(), MetricBlocks);
    // Ratios & Percentages, Operational, Customer & Marketing and
    // Financial Metrics
    for k := 0 to |MetricBlocks|
      invariant Valid(df.Value())
      invariant spec == EvalBlocks(df.Value(), MetricBlocks[k..])
    {
      StepBlocks(df.Value(), k);
      r := RunBlock(df, MetricBlocks[k]);
      if r.Err? {
        return;
      }
    }
    // Clean up infinite values from division by zero, then missing ones
    df.ReplaceInfinities();
    df.FillMissing();
    r := Ok(df.Value());
  }

  // ---------------------------------------------------------------------
  // The dataset store

  /** What save_file returns: success with the file's name and byte size,
      or failure with a message. */
  datatype SaveResult = Saved(filename: string, size: nat) | NotSaved(message: string)

  /** Python's `str.endswith`. */
  predicate EndsWith(s: string, suffix: string) {
    |suffix| <= |s| && s[|s| - |suffix|..] == suffix
  }

  /** The reader save_file picks from the file name: `.csv` first, then
      `.xls` or `.xlsx`; None for any other name. */
  function Reader(filename: string, lib: Library): (r: Option<seq<byte> -> Result<Table>>)
    ensures r.Some? <==> EndsWith(filename, ".csv") || EndsWith(filename, ".xls") || EndsWith(filename, ".xlsx")
    ensures EndsWith(filename, ".csv") ==> r == Some(lib.readCsv)
    ensures !EndsWith(filename, ".csv") && r.Some? ==> r == Some(lib.readExcel)
  {
    if EndsWith(filename, ".csv") then Some(lib.readCsv)
    else if EndsWith(filename, ".xls") || EndsWith(filename, ".xlsx") then Some(lib.readExcel)
    else None
  }

  /** save_file as a function of the slot before the call: its result and
      the slot after it. */
  function Ingest(slot: Option<Table>, filename: string, content: seq<byte>, lib: Library): (r: (SaveResult, Option<Table>))
    requires Sound(lib)
    ensures Reader(filename, lib).None? ==> r == (NotSaved("Unsupported file format"), slot)
    ensures Reader(filename, lib).Some? ==>
      (r.0 == Saved(filename, |content|) && r.1.Some? && Valid(r.1.value) && Clean(r.1.value)) ||
      (r.0.NotSaved? && r.1.None?)
  {
    match Reader(filename, lib)
    case None => (NotSaved("Unsupported file format"), slot)
    case Some(read) =>
      match read(content)
      case Err(e) => (NotSaved("Error parsing file: " + e), None)
      case Ok(raw) =>
        match Derive(raw, lib)
        case Err(e) => (NotSaved("Error parsing file: " + e), None)
        case Ok(t) => DeriveIsClean(raw, lib); (Saved(filename, |content|), Some(t))
  }

  /** The module-level DATAFRAME slot. */
  class DatasetStore {
    var current: Option<Table>

    /** Whatever the slot holds came out of the derivation. */
    ghost predicate Invariant()
      reads this
    {
      current.Some? ==> Valid(current.value) && Clean(current.value)
    }

    /** The slot is empty when the process starts. */
    constructor ()
      ensures current == None && Invariant()
    {
      current := None;
    }

    /** get_dataframe */
    function GetDataframe(): (r: Option<Table>)
      reads this
      requires Invariant()
      ensures r.Some? ==> Valid(r.value) && Clean(r.value)
    {
      current
    }

    /** save_file: picks the reader from the file name's suffix, derives the
        metrics and replaces the slot; an exception on the way empties it. */
    method SaveFile(filename: string, content: seq<byte>, lib: Library) returns (r: SaveResult)
      requires Invariant() && Sound(lib)
      modifies this
      ensures Invariant()
      ensures (r, current) == Ingest(old(current), filename, content, lib)
    {
      var parsed: Result<Table>;
      if EndsWith(filename, ".csv") {
        parsed := lib.readCsv(content);
      } else if EndsWith(filename, ".xls") || EndsWith(filename, ".xlsx") {
        parsed := lib.readExcel(content);
      } else {
        return NotSaved("Unsupported file format");
      }
      if parsed.Err? {
        current := None;
        return NotSaved("Error parsing file: " + parsed.msg);
      }
      var df := new DataFrame(parsed.value);
      var derived := CalculateAllMetrics(df, lib);
      if derived.Err? {
        current := None;
        return NotSaved("Error parsing file: " + derived.msg);
      }
      DeriveIsClean(parsed.value, lib);
      current := Some(derived.value);
      r := Saved(filename, |content|);
    }
  }
}
