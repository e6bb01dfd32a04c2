/** The part of pandas the dataset pipeline depends on: cells, columns and
    tables, float arithmetic with infinities and NaN, the `replace`/`fillna`
    cleanup, a data frame updated in place, and the foreign readers and
    converters, which enter the model as the fields of a `Library` value. */
module Pandas {

  datatype Option<+T> = None | Some(value: T)

  /** An exception is an `Err` carrying its message. */
  datatype Result<+T> = Ok(value: T) | Err(msg: string) {
    predicate IsFailure() { Err? }
    function PropagateFailure<U>(): Result<U> requires Err? { Err(msg) }
    function Extract(): T requires Ok? { value }
  }

  newtype byte = x: int | 0 <= x < 256

  /** A float64 cell. NaN is also how pandas marks a missing value. */
  datatype Num = Fin(v: real) | PosInf | NegInf | NaN

  /** A cell of an object-dtype column: a string, or a number (a missing
      value is the float NaN). */
  datatype Obj = Str(s: string) | Flt(x: Num)

  /** A datetime64 cell, as pandas stores it: nanoseconds since the epoch. */
  datatype Timestamp = Timestamp(nanos: int)

  /** A column and its dtype: numeric, object (text), or datetime64. */
  datatype Column =
    | Numeric(nums: seq<Num>)
    | Text(objs: seq<Obj>)
    | Dates(stamps: seq<Timestamp>)

  function Len(c: Column): nat {
    match c
    case Numeric(ns) => |ns|
    case Text(os) => |os|
    case Dates(ts) => |ts|
  }

  datatype Entry = Entry(name: string, col: Column)

  /** A DataFrame: its row count and its columns in order. */
  datatype Table = Table(rows: nat, entries: seq<Entry>)

  /** `df.columns` */
  function Names(es: seq<Entry>): (ns: seq<string>)
    ensures |ns| == |es|
    ensures forall i :: 0 <= i < |es| ==> ns[i] == es[i].name
  {
    if es == [] then [] else [es[0].name] + Names(es[1..])
  }

  ghost predicate UniqueNames(ns: seq<string>) {
    forall i, j :: 0 <= i < j < |ns| ==> ns[i] != ns[j]
  }

  /** Column names are unique and every column has one cell per row. */
  ghost predicate Valid(t: Table) {
    && UniqueNames(Names(t.entries))
    && forall e :: e in t.entries ==> Len(e.col) == t.rows
  }

  /** `df.empty`: no rows or no columns. */
  predicate Empty(t: Table) {
    t.rows == 0 || |t.entries| == 0
  }

  /** In a well-formed table, `df.empty` holds exactly when no column has
      a cell. */
  lemma EmptyMeansNoCells(t: Table)
    requires Valid(t)
    ensures Empty(t) <==> forall e :: e in t.entries ==> Len(e.col) == 0
  {
    if !Empty(t) {
      assert t.entries[0] in t.entries;
    }
  }

  /** `n in df.columns` */
  predicate Has(t: Table, n: string) {
    n in Names(t.entries)
  }

  /** The column `df[n]`, or None where pandas raises KeyError. */
  function Find(es: seq<Entry>, n: string): (r: Option<Column>)
    ensures r.Some? <==> n in Names(es)
    ensures r.Some? ==> Entry(n, r.value) in es
  {
    if es == [] then None
    else if es[0].name == n then Some(es[0].col)
    else Find(es[1..], n)
  }

  /** `df[n] = c`: an existing column n is overwritten where it stands,
      otherwise c is appended as the last column. */
  function Assign(es: seq<Entry>, n: string, c: Column): (r: seq<Entry>)
    ensures Names(r) == if n in Names(es) then Names(es) else Names(es) + [n]
    ensures forall e :: e in r ==> e in es || e == Entry(n, c)
  {
    if es == [] then [Entry(n, c)]
    else if es[0].name == n then [Entry(n, c)] + es[1..]
    else [es[0]] + Assign(es[1..], n, c)
  }

  lemma {:induction false} FindAssigned(es: seq<Entry>, n: string, c: Column, m: string)
    ensures Find(Assign(es, n, c), m) == if m == n then Some(c) else Find(es, m)
  {
    if es != [] && es[0].name != n {
      FindAssigned(es[1..], n, c, m);
    }
  }

  lemma AssignKeepsValid(t: Table, n: string, c: Column)
    requires Valid(t) && Len(c) == t.rows
    ensures Valid(Table(t.rows, Assign(t.entries, n, c)))
  {
    var ns := Names(t.entries);
    if n !in ns {
      var ns' := ns + [n];
      forall i, j | 0 <= i < j < |ns'| ensures ns'[i] != ns'[j] {
        if j == |ns| { assert ns[i] in ns; }
      }
    }
  }

  // ---------------------------------------------------------------------
  // float64 arithmetic, as numpy does it (signed zeros are not modelled)

  function Neg(a: Num): Num {
    match a
    case Fin(x) => Fin(-x)
    case PosInf => NegInf
    case NegInf => PosInf
    case NaN => NaN
  }

  /** a / b: real division on finite operands with a nonzero divisor; a
      zero divisor gives the infinity of the dividend's sign, or NaN for
      0 / 0; 0 for a finite number over an infinite one; NaN whenever an
      operand is. */
  function Div(a: Num, b: Num): (r: Num)
    ensures a.Fin? && b.Fin? && b.v != 0.0 ==> r == Fin(a.v / b.v)
    ensures b == Fin(0.0) ==> !r.Fin?
    ensures a.Fin? && b == Fin(0.0) ==>
      r == (if a.v > 0.0 then PosInf else if a.v < 0.0 then NegInf else NaN)
    ensures a.Fin? && (b.PosInf? || b.NegInf?) ==> r == Fin(0.0)
    ensures a.NaN? || b.NaN? ==> r.NaN?
  {
    match (a, b)
    case (NaN, _) => NaN
    case (_, NaN) => NaN
    case (Fin(x), Fin(y)) =>
      if y != 0.0 then Fin(x / y)
      else if x > 0.0 then PosInf
      else if x < 0.0 then NegInf
      else NaN
    case (Fin(_), _) => Fin(0.0)
    case (_, Fin(y)) => if y < 0.0 then Neg(a) else a
    case (_, _) => NaN
  }

  /** a - b: real subtraction on finite operands; an infinity minus
      itself is NaN; NaN whenever an operand is. */
  function Sub(a: Num, b: Num): (r: Num)
    ensures a.Fin? && b.Fin? ==> r == Fin(a.v - b.v)
    ensures a.Fin? && (b.PosInf? || b.NegInf?) ==> r == Neg(b)
    ensures (a.PosInf? || a.NegInf?) && a == b ==> r.NaN?
    ensures a.NaN? || b.NaN? ==> r.NaN?
  {
    match (a, b)
    case (NaN, _) => NaN
    case (_, NaN) => NaN
    case (Fin(x), Fin(y)) => Fin(x - y)
    case (Fin(_), _) => Neg(b)
    case (_, Fin(_)) => a
    case (PosInf, NegInf) => PosInf
    case (NegInf, PosInf) => NegInf
    case (_, _) => NaN
  }

  /** a + b */
  function Add(a: Num, b: Num): Num {
    Sub(a, Neg(b))
  }

  /** a * 100: scales a finite number and keeps infinities and NaN. */
  function Percent(a: Num): (r: Num)
    ensures a.Fin? ==> r == Fin(a.v * 100.0)
    ensures !a.Fin? ==> r == a
  {
    match a
    case Fin(x) => Fin(x * 100.0)
    case _ => a
  }

  function Elementwise(a: seq<Num>, b: seq<Num>, op: (Num, Num) -> Num): (r: seq<Num>)
    requires |a| == |b|
    ensures |r| == |a|
    ensures forall i :: 0 <= i < |a| ==> r[i] == op(a[i], b[i])
  {
    seq(|a|, i requires 0 <= i < |a| => op(a[i], b[i]))
  }

  function Each(a: seq<Num>, f: Num -> Num): (r: seq<Num>)
    ensures |r| == |a|
    ensures forall i :: 0 <= i < |a| ==> r[i] == f(a[i])
  {
    seq(|a|, i requires 0 <= i < |a| => f(a[i]))
  }

  /** The floats an arithmetic operator sees in a column. A string cell, or
      a datetime column, makes the operator raise TypeError. */
  function Floats(c: Column): (r: Result<seq<Num>>)
    ensures r.Ok? ==> |r.value| == Len(c)
    ensures r.Ok? <==> c.Numeric? || (c.Text? && forall i :: 0 <= i < |c.objs| ==> c.objs[i].Flt?)
    ensures c.Numeric? ==> r == Ok(c.nums)
  {
    match c
    case Numeric(ns) => Ok(ns)
    case Text(os) =>
      if forall i :: 0 <= i < |os| ==> os[i].Flt? then
        Ok(seq(|os|, i requires 0 <= i < |os| => os[i].x))
      else
        Err("unsupported operand type(s): 'str'")
    case Dates(_) => Err("unsupported operand type(s): 'datetime64'")
  }

  // ---------------------------------------------------------------------
  // Cleanup: df.replace([inf, -inf], 0) and df.fillna(0)

  function ReplaceInf(x: Num): Num {
    if x.PosInf? || x.NegInf? then Fin(0.0) else x
  }

  function FillNa(x: Num): Num {
    if x.NaN? then Fin(0.0) else x
  }

  function MapObjs(os: seq<Obj>, f: Num -> Num): (r: seq<Obj>)
    ensures |r| == |os|
    ensures forall i :: 0 <= i < |os| ==> r[i] == (if os[i].Flt? then Flt(f(os[i].x)) else os[i])
  {
    seq(|os|, i requires 0 <= i < |os| => if os[i].Flt? then Flt(f(os[i].x)) else os[i])
  }

  /** Applies a cell rewrite to every float cell of a column; datetime
      columns are left as they are. */
  function MapCells(c: Column, f: Num -> Num): (r: Column)
    ensures Len(r) == Len(c)
  {
    match c
    case Numeric(ns) => Numeric(Each(ns, f))
    case Text(os) => Text(MapObjs(os, f))
    case Dates(_) => c
  }

  function MapColumns(es: seq<Entry>, f: Num -> Num): (r: seq<Entry>)
    ensures Names(r) == Names(es)
    ensures |r| == |es|
    ensures forall i :: 0 <= i < |es| ==> r[i] == Entry(es[i].name, MapCells(es[i].col, f))
  {
    if es == [] then [] else [Entry(es[0].name, MapCells(es[0].col, f))] + MapColumns(es[1..], f)
  }

  lemma {:induction false} FindMapped(es: seq<Entry>, f: Num -> Num, n: string)
    ensures Find(MapColumns(es, f), n) == if n in Names(es) then Some(MapCells(Find(es, n).value, f)) else None
  {
    if es != [] && es[0].name != n {
      FindMapped(es[1..], f, n);
    }
  }

  /** `df.replace([float('inf'), float('-inf')], 0)` */
  function ReplaceInfTable(t: Table): Table {
    Table(t.rows, MapColumns(t.entries, ReplaceInf))
  }

  /** `df.fillna(0)` */
  function FillNaTable(t: Table): Table {
    Table(t.rows, MapColumns(t.entries, FillNa))
  }

  predicate CleanNum(x: Num) { x.Fin? }

  predicate CleanColumn(c: Column) {
    match c
    case Numeric(ns) => forall i :: 0 <= i < |ns| ==> ns[i].Fin?
    case Text(os) => forall i :: 0 <= i < |os| ==> os[i].Str? || os[i].x.Fin?
    case Dates(_) => true
  }

  /** No cell of the table is infinite or missing. */
  ghost predicate Clean(t: Table) {
    forall e :: e in t.entries ==> CleanColumn(e.col)
  }

  // ---------------------------------------------------------------------
  // Foreign calls

  /** The library calls the pipeline makes and this model does not
      reimplement: the file readers, date parsing and formatting, and the
      conversion of one string by `pd.to_numeric(errors='coerce')`. */
  datatype Library = Library(
    readCsv: seq<byte> -> Result<Table>,
    readExcel: seq<byte> -> Result<Table>,
    toDatetime: Column -> Option<seq<Timestamp>>,
    strftime: Timestamp -> string,
    toNumeric: string -> Num)

  /** What pandas guarantees of those calls: a reader yields a well-formed
      table, and a parsed date column keeps its length. */
  ghost predicate Sound(lib: Library) {
    && (forall b :: lib.readCsv(b).Ok? ==> Valid(lib.readCsv(b).value))
    && (forall b :: lib.readExcel(b).Ok? ==> Valid(lib.readExcel(b).value))
    && (forall c :: lib.toDatetime(c).Some? ==> |lib.toDatetime(c).value| == Len(c))
  }

  /** `pd.to_datetime(col)`: a datetime column is returned as it is; None
      where the conversion raises. */
  function ToDatetime(lib: Library, c: Column): (r: Option<seq<Timestamp>>)
    requires Sound(lib)
    ensures r.Some? ==> |r.value| == Len(c)
    ensures c.Dates? ==> r == Some(c.stamps)
  {
    if c.Dates? then Some(c.stamps) else lib.toDatetime(c)
  }

  // ---------------------------------------------------------------------
  // A DataFrame object, updated in place

  class DataFrame {
    var rows: nat
    var entries: seq<Entry>

    function Value(): Table
      reads this
    {
      Table(rows, entries)
    }

    constructor (t: Table)
      ensures Value() == t
    {
      rows := t.rows;
      entries := t.entries;
    }

    /** `n in df.columns` */
    predicate Has(n: string)
      reads this
    {
      n in Names(entries)
    }

    /** `df[n] = c` */
    method SetItem(n: string, c: Column)
      requires Valid(Value()) && Len(c) == rows
      modifies this
      ensures Valid(Value())
      ensures Value() == Table(old(rows), Assign(old(entries), n, c))
    {
      AssignKeepsValid(Value(), n, c);
      entries := Assign(entries, n, c);
    }

    /** `df.replace([float('inf'), float('-inf')], 0, inplace=True)` */
    method ReplaceInfinities()
      modifies this
      ensures Value() == ReplaceInfTable(old(Value()))
    {
      entries := MapColumns(entries, ReplaceInf);
    }

    /** `df.fillna(0, inplace=True)` */
    method FillMissing()
      modifies this
      ensures Value() == FillNaTable(old(Value()))
    {
      entries := MapColumns(entries, FillNa);
    }
  }
}
