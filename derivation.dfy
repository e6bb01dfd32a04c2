/** General facts about running blocks of guarded column assignments, the
    shape calculate_all_metrics (app/services/file_handler.py) is made of:
    how the column names evolve, which columns an assignment leaves alone,
    and what every assigned column holds once all blocks have run. */
module Derivation {
  import opened Pandas
  import opened FileHandler

  function Targets(steps: seq<Assignment>): (ts: seq<string>)
    ensures |ts| == |steps|
    ensures forall i :: 0 <= i < |steps| ==> ts[i] == steps[i].target
  {
    if steps == [] then [] else [steps[0].target] + Targets(steps[1..])
  }

  /** The columns a formula reads. */
  function Sources(f: Formula): seq<string> {
    match f
    case Ratio(Named(n), d, _) => [n, d]
    case Ratio(Minus(a, b), d, _) => [a, b, d]
    case Copy(s) => [s]
    case Complement(s) => [s]
  }

  /** The names of a table with names ns after the names ts are assigned in
      order: a new name goes to the end, an existing one keeps its place. */
  function Appended(ns: seq<string>, ts: seq<string>): seq<string>
    decreases |ts|
  {
    if ts == [] then ns
    else Appended(if ts[0] in ns then ns else ns + [ts[0]], ts[1..])
  }

  lemma {:induction false} AppendedKeepsPrefix(ns: seq<string>, ts: seq<string>)
    ensures |ns| <= |Appended(ns, ts)| && Appended(ns, ts)[..|ns|] == ns
    ensures forall n :: n in Appended(ns, ts) <==> n in ns || n in ts
    decreases |ts|
  {
    if ts != [] {
      var ns' := if ts[0] in ns then ns else ns + [ts[0]];
      AppendedKeepsPrefix(ns', ts[1..]);
      assert Appended(ns', ts[1..])[..|ns|] == ns'[..|ns|];
      assert forall n :: n in ts <==> n == ts[0] || n in ts[1..];
    }
  }

  lemma {:induction false} AppendedConcat(ns: seq<string>, ts1: seq<string>, ts2: seq<string>)
    ensures Appended(ns, ts1 + ts2) == Appended(Appended(ns, ts1), ts2)
    decreases |ts1|
  {
    if ts1 == [] {
      assert ts1 + ts2 == ts2;
    } else {
      var ns' := if ts1[0] in ns then ns else ns + [ts1[0]];
      var ts := ts1 + ts2;
      assert ts != [] && ts[0] == ts1[0] && ts[1..] == ts1[1..] + ts2;
      assert Appended(ns, ts) == Appended(ns', ts[1..]);
      assert Appended(ns, ts1) == Appended(ns', ts1[1..]);
      AppendedConcat(ns', ts1[1..], ts2);
    }
  }

  // ---------------------------------------------------------------------
  // One block's assignments

  /** Assigning the targets in order adds the new ones at the end. */
  lemma {:induction false} NamesAfterAssignments(t: Table, steps: seq<Assignment>)
    requires Valid(t) && EvalAssignments(t, steps).Ok?
    ensures Names(EvalAssignments(t, steps).value.entries) == Appended(Names(t.entries), Targets(steps))
    decreases |steps|
  {
    if steps != [] {
      var c := Evaluate(t, steps[0].formula).value;
      AssignKeepsValid(t, steps[0].target, c);
      var t1 := Table(t.rows, Assign(t.entries, steps[0].target, c));
      NamesAfterAssignments(t1, steps[1..]);
    }
  }

  /** A column no assignment targets is left as it was. */
  lemma {:induction false} AssignmentsFrame(t: Table, steps: seq<Assignment>, n: string)
    requires Valid(t) && EvalAssignments(t, steps).Ok?
    requires n !in Targets(steps)
    ensures Find(EvalAssignments(t, steps).value.entries, n) == Find(t.entries, n)
    decreases |steps|
  {
    if steps != [] {
      var c := Evaluate(t, steps[0].formula).value;
      AssignKeepsValid(t, steps[0].target, c);
      var t1 := Table(t.rows, Assign(t.entries, steps[0].target, c));
      assert n != steps[0].target && n !in Targets(steps[1..]);
      AssignmentsFrame(t1, steps[1..], n);
      FindAssigned(t.entries, steps[0].target, c, n);
    }
  }

  lemma OperandLocal(s1: Table, s2: Table, num: Operand)
    requires Valid(s1) && Valid(s2) && s1.rows == s2.rows
    requires num.Named? ==> Lookup(s1, num.name) == Lookup(s2, num.name)
    requires num.Minus? ==> Lookup(s1, num.minuend) == Lookup(s2, num.minuend)
    requires num.Minus? ==> Lookup(s1, num.subtrahend) == Lookup(s2, num.subtrahend)
    ensures OperandFloats(s1, num) == OperandFloats(s2, num)
  {
  }

  /** A formula's value depends only on the columns it reads. */
  lemma EvaluateLocal(s1: Table, s2: Table, f: Formula)
    requires Valid(s1) && Valid(s2) && s1.rows == s2.rows
    requires forall n :: n in Sources(f) ==> Find(s1.entries, n) == Find(s2.entries, n)
    ensures Evaluate(s1, f) == Evaluate(s2, f)
  {
    match f
    case Ratio(num, den, _) =>
      assert Lookup(s1, den) == Lookup(s2, den);
      match num {
        case Named(n) =>
          assert Lookup(s1, n) == Lookup(s2, n);
        case Minus(a, b) =>
          assert Lookup(s1, a) == Lookup(s2, a);
          assert Lookup(s1, b) == Lookup(s2, b);
      }
      OperandLocal(s1, s2, num);
    case Copy(n) =>
      assert Lookup(s1, n) == Lookup(s2, n);
    case Complement(n) =>
      assert Lookup(s1, n) == Lookup(s2, n);
  }

  /** No formula reads its own target or a target assigned after it. */
  ghost predicate NoForwardReads(steps: seq<Assignment>) {
    forall i, j :: 0 <= i <= j < |steps| ==> steps[j].target !in Sources(steps[i].formula)
  }

  lemma UniqueTail(ns: seq<string>)
    requires ns != [] && UniqueNames(ns)
    ensures UniqueNames(ns[1..]) && ns[0] !in ns[1..]
  {
    var rest := ns[1..];
    forall i, j | 0 <= i < j < |rest| ensures rest[i] != rest[j] {
      assert rest[i] == ns[i + 1] && rest[j] == ns[j + 1];
    }
  }

  /** The first assignment of a list holds its value to the end. */
  lemma FirstAssignmentHolds(t: Table, steps: seq<Assignment>)
    requires Valid(t) && EvalAssignments(t, steps).Ok? && steps != []
    requires UniqueNames(Targets(steps)) && NoForwardReads(steps)
    ensures var u := EvalAssignments(t, steps).value;
      && Evaluate(u, steps[0].formula).Ok?
      && Find(u.entries, steps[0].target) == Some(Evaluate(u, steps[0].formula).value)
  {
    var u := EvalAssignments(t, steps).value;
    var c := Evaluate(t, steps[0].formula).value;
    AssignKeepsValid(t, steps[0].target, c);
    var t1 := Table(t.rows, Assign(t.entries, steps[0].target, c));
    var rest := steps[1..];
    assert EvalAssignments(t1, rest) == EvalAssignments(t, steps);
    assert Targets(rest) == Targets(steps)[1..];
    UniqueTail(Targets(steps));
    AssignmentsFrame(t1, rest, steps[0].target);
    FindAssigned(t.entries, steps[0].target, c, steps[0].target);
    forall n | n in Sources(steps[0].formula)
      ensures Find(u.entries, n) == Find(t.entries, n)
    {
      assert n !in Targets(steps);
      assert n !in Targets(rest);
      AssignmentsFrame(t1, rest, n);
      FindAssigned(t.entries, steps[0].target, c, n);
    }
    EvaluateLocal(u, t, steps[0].formula);
  }

  /** After a list of assignments with distinct targets, none of which
      reads its own or a later target, every target holds its formula
      evaluated on the final table. */
  lemma {:induction false} AssignmentsFixpoint(t: Table, steps: seq<Assignment>, j: nat)
    requires Valid(t) && EvalAssignments(t, steps).Ok?
    requires UniqueNames(Targets(steps)) && NoForwardReads(steps)
    requires j < |steps|
    ensures var u := EvalAssignments(t, steps).value;
      && Evaluate(u, steps[j].formula).Ok?
      && Find(u.entries, steps[j].target) == Some(Evaluate(u, steps[j].formula).value)
    decreases |steps|
  {
    if j == 0 {
      FirstAssignmentHolds(t, steps);
    } else {
      var c := Evaluate(t, steps[0].formula).value;
      AssignKeepsValid(t, steps[0].target, c);
      var t1 := Table(t.rows, Assign(t.entries, steps[0].target, c));
      var rest := steps[1..];
      assert EvalAssignments(t1, rest) == EvalAssignments(t, steps);
      assert Targets(rest) == Targets(steps)[1..];
      UniqueTail(Targets(steps));
      assert forall i :: 0 <= i < |rest| ==> rest[i] == steps[i + 1];
      AssignmentsFixpoint(t1, rest, j - 1);
    }
  }

  // ---------------------------------------------------------------------
  // A list of blocks

  /** The targets of the blocks whose guard columns are all present in t,
      in block order. */
  function Fired(t: Table, bs: seq<Block>): seq<string> {
    if bs == [] then []
    else (if HasAll(t, bs[0].guard) then Targets(bs[0].assignments) else []) + Fired(t, bs[1..])
  }

  lemma {:induction false} FiredMembers(t: Table, bs: seq<Block>, n: string)
    ensures n in Fired(t, bs) <==>
      exists k :: 0 <= k < |bs| && HasAll(t, bs[k].guard) && n in Targets(bs[k].assignments)
  {
    if bs != [] {
      FiredMembers(t, bs[1..], n);
      if n in Fired(t, bs[1..]) {
        var k :| 0 <= k < |bs[1..]| && HasAll(t, bs[1..][k].guard) && n in Targets(bs[1..][k].assignments);
        assert bs[k + 1] == bs[1..][k];
      }
      if k :| 0 <= k < |bs| && HasAll(t, bs[k].guard) && n in Targets(bs[k].assignments) {
        if k > 0 {
          assert bs[1..][k - 1] == bs[k];
        }
      }
    }
  }

  /** Fired depends on t only through which guard columns are present. */
  lemma {:induction false} FiredAgree(t1: Table, t2: Table, bs: seq<Block>)
    requires forall k, n :: 0 <= k < |bs| && n in bs[k].guard ==> (Has(t1, n) <==> Has(t2, n))
    ensures Fired(t1, bs) == Fired(t2, bs)
  {
    if bs != [] {
      assert HasAll(t1, bs[0].guard) == HasAll(t2, bs[0].guard);
      forall k, n | 0 <= k < |bs[1..]| && n in bs[1..][k].guard ensures Has(t1, n) <==> Has(t2, n) {
        assert bs[1..][k] == bs[k + 1];
      }
      FiredAgree(t1, t2, bs[1..]);
    }
  }

  /** No guard column is a target of any block. */
  ghost predicate GuardsUntouched(bs: seq<Block>) {
    forall k1, k2, n :: 0 <= k1 < |bs| && 0 <= k2 < |bs| && n in bs[k1].guard ==> n !in Targets(bs[k2].assignments)
  }

  /** Targets are distinct within a block and across blocks. */
  ghost predicate TargetsDistinct(bs: seq<Block>) {
    && (forall k :: 0 <= k < |bs| ==> UniqueNames(Targets(bs[k].assignments)))
    && (forall k1, k2, n :: 0 <= k1 < k2 < |bs| && n in Targets(bs[k1].assignments) ==> n !in Targets(bs[k2].assignments))
  }

  /** Within a block, no formula reads its own or a later target. */
  ghost predicate BlocksReadForward(bs: seq<Block>) {
    forall k :: 0 <= k < |bs| ==> NoForwardReads(bs[k].assignments)
  }

  /** No formula reads a column a later block assigns. */
  ghost predicate LaterBlocksKeepReads(bs: seq<Block>) {
    forall k1, k2, i, n :: 0 <= k1 < k2 < |bs| && 0 <= i < |bs[k1].assignments| && n in Sources(bs[k1].assignments[i].formula) ==>
      n !in Targets(bs[k2].assignments)
  }

  ghost predicate WellFormed(bs: seq<Block>) {
    GuardsUntouched(bs) && TargetsDistinct(bs) && BlocksReadForward(bs) && LaterBlocksKeepReads(bs)
  }

  lemma WellFormedTail(bs: seq<Block>)
    requires bs != [] && WellFormed(bs)
    ensures WellFormed(bs[1..])
  {
    var rest := bs[1..];
    assert forall k :: 0 <= k < |rest| ==> rest[k] == bs[k + 1];
  }

  /** A column no block targets is left as it was. */
  lemma {:induction false} BlocksFrame(t: Table, bs: seq<Block>, n: string)
    requires Valid(t) && EvalBlocks(t, bs).Ok?
    requires forall k :: 0 <= k < |bs| ==> n !in Targets(bs[k].assignments)
    ensures Find(EvalBlocks(t, bs).value.entries, n) == Find(t.entries, n)
    decreases |bs|
  {
    if bs != [] {
      var t1 := EvalBlock(t, bs[0]).value;
      if HasAll(t, bs[0].guard) {
        AssignmentsFrame(t, bs[0].assignments, n);
      }
      assert forall k :: 0 <= k < |bs[1..]| ==> bs[1..][k] == bs[k + 1];
      BlocksFrame(t1, bs[1..], n);
    }
  }

  /** One block keeps the presence of every column it does not target. */
  lemma BlockKeepsOthers(t: Table, b: Block, n: string)
    requires Valid(t) && EvalBlock(t, b).Ok? && n !in Targets(b.assignments)
    ensures Find(EvalBlock(t, b).value.entries, n) == Find(t.entries, n)
    ensures Has(EvalBlock(t, b).value, n) <==> Has(t, n)
  {
    if HasAll(t, b.guard) {
      AssignmentsFrame(t, b.assignments, n);
    }
  }

  /** No column is removed or moved: the targets of the blocks that fire
      are added at the end, in block order, unless already present. */
  lemma {:induction false} NamesAfterBlocks(t: Table, bs: seq<Block>)
    requires Valid(t) && EvalBlocks(t, bs).Ok? && GuardsUntouched(bs)
    ensures Names(EvalBlocks(t, bs).value.entries) == Appended(Names(t.entries), Fired(t, bs))
    decreases |bs|
  {
    if bs != [] {
      var t1 := EvalBlock(t, bs[0]).value;
      var first := if HasAll(t, bs[0].guard) then Targets(bs[0].assignments) else [];
      if HasAll(t, bs[0].guard) {
        NamesAfterAssignments(t, bs[0].assignments);
      }
      assert Names(t1.entries) == Appended(Names(t.entries), first);
      var rest := bs[1..];
      assert forall k :: 0 <= k < |rest| ==> rest[k] == bs[k + 1];
      forall k, n | 0 <= k < |rest| && n in rest[k].guard ensures Has(t1, n) <==> Has(t, n) {
        assert n in bs[k + 1].guard;
        BlockKeepsOthers(t, bs[0], n);
      }
      FiredAgree(t1, t, rest);
      NamesAfterBlocks(t1, rest);
      AppendedConcat(Names(t.entries), first, Fired(t, rest));
    }
  }

  /** After a well-formed list of blocks has run, every column a fired
      block assigned holds its formula evaluated on the final table. */
  lemma {:induction false} BlocksFixpoint(t: Table, bs: seq<Block>, k: nat, j: nat)
    requires Valid(t) && EvalBlocks(t, bs).Ok? && WellFormed(bs)
    requires k < |bs| && j < |bs[k].assignments| && HasAll(t, bs[k].guard)
    ensures var u := EvalBlocks(t, bs).value;
      var a := bs[k].assignments[j];
      && Evaluate(u, a.formula).Ok?
      && Find(u.entries, a.target) == Some(Evaluate(u, a.formula).value)
    decreases |bs|
  {
    var u := EvalBlocks(t, bs).value;
    var t1 := EvalBlock(t, bs[0]).value;
    var rest := bs[1..];
    assert EvalBlocks(t1, rest) == EvalBlocks(t, bs);
    assert forall k' :: 0 <= k' < |rest| ==> rest[k'] == bs[k' + 1];
    if k == 0 {
      var steps := bs[0].assignments;
      var a := steps[j];
      AssignmentsFixpoint(t, steps, j);
      assert a.target in Targets(steps);
      BlocksFrame(t1, rest, a.target);
      forall n | n in Sources(a.formula)
        ensures Find(u.entries, n) == Find(t1.entries, n)
      {
        assert forall k' :: 0 <= k' < |rest| ==> n !in Targets(rest[k'].assignments);
        BlocksFrame(t1, rest, n);
      }
      EvaluateLocal(u, t1, a.formula);
    } else {
      forall n | n in bs[k].guard ensures Has(t1, n) {
        BlockKeepsOthers(t, bs[0], n);
      }
      WellFormedTail(bs);
      BlocksFixpoint(t1, rest, k - 1, j);
    }
  }
}
