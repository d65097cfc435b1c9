/**
  The two pass drivers, `copyPropagation` and `refPropagation`: which passes
  run on each function, in which order, under the command-line flags.  The
  passes themselves are the subject of the other modules (dead-variable and
  dead-expression elimination are not modelled); here each run is recorded as
  a call in a trace.
*/
module Driver {
  /** The flags the drivers consult. */
  datatype Flags = Flags(baseline: bool, noCopyPropagation: bool, noFlowAnalysis: bool)

  datatype Pass =
    | LocalCopyPropagation
    | GlobalCopyPropagation
    | DeadVariableElimination
    | DeadExpressionElimination
    | SingleAssignmentRefPropagation

  /** One run of `pass` on function number `fnIndex`. */
  datatype Call = Call(fnIndex: nat, pass: Pass)

  /** The passes `copyPropagation` runs on each function. */
  function CopySteps(flags: Flags): (r: seq<Pass>)
    ensures LocalCopyPropagation in r <==> !flags.noCopyPropagation
    ensures GlobalCopyPropagation in r <==> !flags.noCopyPropagation && !flags.noFlowAnalysis
    ensures forall j :: 0 <= j < |r| && r[j] == GlobalCopyPropagation ==>
      (forall j' :: 0 <= j' < |r| && r[j'] == LocalCopyPropagation ==> j' < j) &&
      j + 2 < |r| && r[j + 1] == DeadVariableElimination && r[j + 2] == DeadExpressionElimination
  {
    (if flags.noCopyPropagation then [] else [LocalCopyPropagation])
    + [DeadVariableElimination, DeadExpressionElimination]
    + (if !flags.noCopyPropagation && !flags.noFlowAnalysis
       then [GlobalCopyPropagation, DeadVariableElimination, DeadExpressionElimination] else [])
  }

  /** The passes `refPropagation` runs on each function. */
  const RefSteps := [SingleAssignmentRefPropagation, DeadVariableElimination, DeadExpressionElimination]

  /** The calls made on the first `n` functions, function by function. */
  function Trace(steps: seq<Pass>, n: nat): (r: seq<Call>)
    ensures |r| == n * |steps|
  {
    if n == 0 then [] else Trace(steps, n - 1) + seq(|steps|, j requires 0 <= j < |steps| => Call(n - 1, steps[j]))
  }

  /** The trace is laid out function by function: call `j` of function `f`
      is at position `f * |steps| + j`. */
  lemma {:induction false} TraceAt(steps: seq<Pass>, n: nat, f: nat, j: nat)
    requires f < n && j < |steps|
    ensures f * |steps| + j < |Trace(steps, n)|
    ensures Trace(steps, n)[f * |steps| + j] == Call(f, steps[j])
  {
    assert f * |steps| + j < n * |steps| by {
      MulStrict(f, n, |steps|);
    }
    if f < n - 1 {
      TraceAt(steps, n - 1, f, j);
    } else {
      assert |Trace(steps, n - 1)| == f * |steps|;
    }
  }

  lemma {:induction false} MulStrict(f: nat, n: nat, k: nat)
    requires f < n
    ensures f * k + k <= n * k
    decreases n - f
  {
    assert (f + 1) * k == f * k + k;
    if f + 1 < n {
      MulStrict(f + 1, n, k);
    }
  }

  /** The calls `copyPropagation` makes on `nFns` functions. */
  function CopyPropagationTrace(flags: Flags, nFns: nat): seq<Call> {
    if flags.baseline then [] else Trace(CopySteps(flags), nFns)
  }

  /** The calls `refPropagation` makes on `nFns` functions. */
  function RefPropagationTrace(flags: Flags, nFns: nat): seq<Call> {
    if flags.baseline then [] else Trace(RefSteps, nFns)
  }

  /** `copyPropagation`. */
  method CopyPropagation(flags: Flags, nFns: nat) returns (trace: seq<Call>)
    ensures trace == CopyPropagationTrace(flags, nFns)
  {
    trace := [];
    if flags.baseline {
      return;
    }
    var f := 0;
    while f < nFns
      invariant 0 <= f <= nFns
      invariant trace == Trace(CopySteps(flags), f)
    {
      var calls: seq<Call> := [];
      if !flags.noCopyPropagation {
        calls := calls + [Call(f, LocalCopyPropagation)];
      }
      calls := calls + [Call(f, DeadVariableElimination), Call(f, DeadExpressionElimination)];
      if !flags.noCopyPropagation && !flags.noFlowAnalysis {
        calls := calls + [Call(f, GlobalCopyPropagation), Call(f, DeadVariableElimination), Call(f, DeadExpressionElimination)];
      }
      assert calls == seq(|CopySteps(flags)|, j requires 0 <= j < |CopySteps(flags)| => Call(f, CopySteps(flags)[j]));
      trace := trace + calls;
      f := f + 1;
    }
  }

  /** `refPropagation`. */
  method RefPropagation(flags: Flags, nFns: nat) returns (trace: seq<Call>)
    ensures trace == RefPropagationTrace(flags, nFns)
  {
    trace := [];
    if flags.baseline {
      return;
    }
    var f := 0;
    while f < nFns
      invariant 0 <= f <= nFns
      invariant trace == Trace(RefSteps, f)
    {
      var calls := [Call(f, SingleAssignmentRefPropagation), Call(f, DeadVariableElimination), Call(f, DeadExpressionElimination)];
      assert calls == seq(|RefSteps|, j requires 0 <= j < |RefSteps| => Call(f, RefSteps[j]));
      trace := trace + calls;
      f := f + 1;
    }
  }

  /** Under the baseline flag neither driver runs anything. */
  lemma BaselineRunsNothing(flags: Flags, nFns: nat)
    requires flags.baseline
    ensures CopyPropagationTrace(flags, nFns) == [] && RefPropagationTrace(flags, nFns) == []
  {
  }

  /** Without the baseline flag every function gets the two eliminations
      right after its local copy propagation (or first, when that is
      disabled), and global propagation only when both flags allow it. */
  lemma CopyPropagationRuns(flags: Flags, nFns: nat, f: nat)
    requires !flags.baseline && f < nFns
    ensures var steps, t := CopySteps(flags), CopyPropagationTrace(flags, nFns);
      var base := f * |steps|;
      var first := if flags.noCopyPropagation then 0 else 1;
      && base + |steps| <= |t|
      && (!flags.noCopyPropagation ==> t[base] == Call(f, LocalCopyPropagation))
      && t[base + first] == Call(f, DeadVariableElimination)
      && t[base + first + 1] == Call(f, DeadExpressionElimination)
      && (Call(f, GlobalCopyPropagation) in t <==> !flags.noCopyPropagation && !flags.noFlowAnalysis)
  {
    var steps, t := CopySteps(flags), CopyPropagationTrace(flags, nFns);
    var first := if flags.noCopyPropagation then 0 else 1;
    MulStrict(f, nFns, |steps|);
    TraceAt(steps, nFns, f, 0);
    TraceAt(steps, nFns, f, first);
    TraceAt(steps, nFns, f, first + 1);
    if !flags.noCopyPropagation && !flags.noFlowAnalysis {
      TraceAt(steps, nFns, f, 3);
    }
    if Call(f, GlobalCopyPropagation) in t {
      var p :| 0 <= p < |t| && t[p] == Call(f, GlobalCopyPropagation);
      TraceSteps(steps, nFns, p);
    }
  }

  /** Every call in the trace runs one of the steps. */
  lemma {:induction false} TraceSteps(steps: seq<Pass>, n: nat, p: nat)
    requires p < |Trace(steps, n)|
    ensures Trace(steps, n)[p].pass in steps && Trace(steps, n)[p].fnIndex < n
  {
    if p < |Trace(steps, n - 1)| {
      TraceSteps(steps, n - 1, p);
    }
  }
}
