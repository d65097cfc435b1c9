/**
  The global pass is not idempotent: on a two-block chain a second run
  rewrites an occurrence the first run already rewrote.

      B0:  var a, x, y;  x := a;  y := x
      B1:  f(y)

  The statements and occurrences are those of `LocalProp.ChainFn`, with the
  call moved into a block of its own; occurrences 0..4 in this order,
  symbols 1 = a, 2 = x, 3 = y.  Both
  copies x := a and y := x are collected in B0 and reach B1, so B1 is re-run
  from x -> a, y -> x and `f(y)` becomes `f(x)`.  On that result the same
  analysis seeds B1 the same way again, and `f(x)` becomes `f(a)`.  Both the
  pass as written and the pass with the recorded symbols behave so.
*/
module GlobalRerun {
  import opened IR
  import opened Wrappers
  import opened CopyOracle
  import opened Available
  import opened LocalProp
  import opened Dataflow
  import opened GlobalProp

  const RerunFn := Fn(
    [Stmt(MoveKind(SymArg(0), SymArg(1)), [0, 1]),
     Stmt(MoveKind(SymArg(2), SymArg(3)), [2, 3]),
     Stmt(OtherKind, [4]),
     Stmt(DefKind(1), []), Stmt(DefKind(2), []), Stmt(DefKind(3), [])],
    [[3, 4, 5, 0, 1], [2]], [[], [0]],
    [Node(PrimCall(Move, 1), DefRole, 0), Node(PrimCall(Move, 2), UseRole, 0),
     Node(PrimCall(Move, 1), DefRole, 1), Node(PrimCall(Move, 2), UseRole, 1),
     Node(PlainCall, UseRole, 2)],
    ExampleSyms, 0)

  /** The arena with the call's argument bound to `s`: `s == 3` is the
      function as written, `s == 2` after one run, `s == 1` after two. */
  function Binding(s: Sym): seq<Sym> {
    [2, 1, 3, 2, s]
  }

  const SparsePairs: seq<Option<Pair>> := [Some(Pair(0, 1)), Some(Pair(2, 3))]
  const Pairs := [Pair(0, 1), Pair(2, 3)]
  const Gen: seq<Bits> := [[true, true], [false, false]]
  const NoKill: seq<Bits> := [[false, false], [false, false]]
  const Ins: seq<Bits> := [[false, false], [true, true]]
  /** The relation B1 is seeded with: x -> a and y -> x. */
  const B1Seed := map[2 := 1, 3 := 2]

  /** What re-running B1 from `B1Seed` makes of the call's argument. */
  function Back(s: Sym): Sym {
    if s in B1Seed then B1Seed[s] else s
  }

  lemma RerunStmtsOk()
    ensures StmtsOk(RerunFn)
  {
    var fn := RerunFn;
    forall s | 0 <= s < |fn.stmts|
      ensures StmtWellFormed(fn.stmts[s], |fn.nodes|)
    {
      if s == 0 {
        assert fn.stmts[0] == Stmt(MoveKind(SymArg(0), SymArg(1)), [0, 1]);
      } else if s == 1 {
        assert fn.stmts[1] == Stmt(MoveKind(SymArg(2), SymArg(3)), [2, 3]);
      } else if s == 2 {
        assert fn.stmts[2] == Stmt(OtherKind, [4]);
      } else {
        assert fn.stmts[s].occs == [] && fn.stmts[s].kind.DefKind?;
      }
    }
  }

  lemma RerunWellFormed()
    ensures WellFormed(RerunFn)
  {
    RerunStmtsOk();
    var fn := RerunFn;
    assert forall t :: 0 <= t < 5 ==> fn.blocks[0][t] < 6;
    assert fn.blocks[1] == [2];
    forall o | 0 <= o < |fn.nodes|
      ensures fn.nodes[o].stmt < |fn.stmts|
      ensures fn.nodes[o].parent == PrimCall(Move, 1) ==> fn.stmts[fn.nodes[o].stmt].kind.MoveKind?
    {
      assert o == 0 || o == 1 || o == 2 || o == 3 || o == 4;
    }
  }

  lemma RerunDecls()
    ensures LocalsIn(RerunFn, [3, 4, 5]) == [1, 2, 3]
  {
    var fn := RerunFn;
    assert [3, 4, 5][..2] == [3, 4] && [3, 4][..1] == [3] && [3][..0] == [];
    assert fn.stmts[3].kind == DefKind(1) && fn.stmts[4].kind == DefKind(2) && fn.stmts[5].kind == DefKind(3);
    assert Info(fn, 1) == Local && Info(fn, 2) == Local && Info(fn, 3) == Local;
    assert LocalsIn(fn, [3]) == [1];
    assert LocalsIn(fn, [3, 4]) == [1, 2];
  }

  /** The pass collects a, x and y, declared in B0. */
  lemma RerunLocals()
    ensures LocalsOf(RerunFn, RerunFn.blocks) == [1, 2, 3]
  {
    var fn := RerunFn;
    RerunDecls();
    LocalsInNoDecls(fn, [0, 1]);
    LocalsInNoDecls(fn, [2]);
    LocalsInAppend(fn, [3, 4, 5], [0, 1]);
    assert [3, 4, 5] + [0, 1] == fn.blocks[0];
    assert fn.blocks[..2][..1] == fn.blocks[..1] && fn.blocks[..1][..0] == [];
    assert LocalsOf(fn, fn.blocks[..1]) == [1, 2, 3];
    assert fn.blocks[..2] == fn.blocks;
  }

  /** Whichever of a, x and y the call reads, the sets are `ExampleSets`. */
  lemma RerunSets(s: Sym)
    requires 1 <= s <= 3
    ensures WellFormed(RerunFn)
    ensures EntrySets(RerunFn, Binding(s)) == ExampleSets
  {
    RerunWellFormed();
    RerunLocals();
    var fn, v := RerunFn, Binding(s);
    forall o | 0 <= o < 5
      ensures v[o] in {1, 2, 3}
      ensures fn.nodes[o].role == (if o == 0 || o == 2 then DefRole else UseRole)
    {
      assert o == 0 || o == 1 || o == 2 || o == 3 || o == 4;
    }
    SmallSets(fn, v, {1, 2, 3});
  }

  /** `x := a` after the declarations adds its pair. */
  lemma SparseUpToMove(s: Sym)
    requires 1 <= s <= 3
    ensures WellFormed(RerunFn)
    ensures SparseBlock(RerunFn, ExampleSets, Binding(s), [], 0, [3, 4, 5, 0]) == [Some(Pair(0, 1))]
  {
    var fn, sets, v := RerunFn, ExampleSets, Binding(s);
    RerunWellFormed();
    DeclsAddNoPair(fn, sets, v, [], 0, [3, 4, 5]);
    assert [3, 4, 5, 0][..3] == [3, 4, 5];
    assert fn.stmts[0] == Stmt(MoveKind(SymArg(0), SymArg(1)), [0, 1]);
    assert [0, 1][..1] == [0] && [0][..0] == [];
    assert KillPairs(fn, sets, v, [], 0, [0, 1]) == [];
    assert IsCopy(fn, sets, v, fn.stmts[0]);
  }

  /** `y := x` redefines y, which x := a does not mention. */
  lemma CopyKeepsFirstPair(s: Sym)
    requires 1 <= s <= 3
    ensures KillPairs(RerunFn, ExampleSets, Binding(s), [Some(Pair(0, 1))], 0, [2, 3]) == [Some(Pair(0, 1))]
  {
    var fn, sets, v, sp1 := RerunFn, ExampleSets, Binding(s), [Some(Pair(0, 1))];
    assert [2, 3][..1] == [2] && [2][..0] == [];
    assert Invalidates(fn, sets, 2, 3) && ClearPairs(v, sp1, 0, 3) == sp1;
    assert KillPairs(fn, sets, v, sp1, 0, [2]) == sp1;
    assert !Invalidates(fn, sets, 3, 2);
  }

  /** B0: `y := x` keeps x := a and adds its own pair. */
  lemma SparseB0(s: Sym)
    requires 1 <= s <= 3
    ensures WellFormed(RerunFn)
    ensures SparseBlock(RerunFn, ExampleSets, Binding(s), [], 0, RerunFn.blocks[0]) == SparsePairs
  {
    var fn, sets, v := RerunFn, ExampleSets, Binding(s);
    SparseUpToMove(s);
    CopyKeepsFirstPair(s);
    assert fn.blocks[0][..4] == [3, 4, 5, 0];
    assert fn.stmts[1] == Stmt(MoveKind(SymArg(2), SymArg(3)), [2, 3]);
    assert IsCopy(fn, sets, v, fn.stmts[1]);
  }

  /** B1: `f(y)` neither kills nor adds a pair. */
  lemma SparseB1(s: Sym)
    requires 1 <= s <= 3
    ensures WellFormed(RerunFn)
    ensures SparseBlock(RerunFn, ExampleSets, Binding(s), SparsePairs, 2, RerunFn.blocks[1]) == SparsePairs
  {
    var fn, sets, v := RerunFn, ExampleSets, Binding(s);
    RerunWellFormed();
    assert fn.stmts[2] == Stmt(OtherKind, [4]);
    assert [2][..0] == [] && [4][..0] == [];
    assert !Invalidates(fn, sets, 4, s);
    assert KillPairs(fn, sets, v, SparsePairs, 2, [4]) == SparsePairs;
    assert !IsCopy(fn, sets, v, fn.stmts[2]);
  }

  /** The sparse list: both pairs of B0 survive, and the block ends are 2, 2. */
  lemma RerunSparse(s: Sym)
    requires 1 <= s <= 3
    ensures WellFormed(RerunFn)
    ensures SparseAll(RerunFn, ExampleSets, Binding(s), RerunFn.blocks) == Sparse(SparsePairs, [2, 2])
  {
    SparseB0(s);
    SparseB1(s);
    var bs: seq<seq<StmtId>> := RerunFn.blocks;
    assert bs[..2] == bs && bs[..2][..1] == bs[..1] && bs[..1][..0] == [];
    assert SparseAll(RerunFn, ExampleSets, Binding(s), bs[..1]) == Sparse(SparsePairs, [2]);
  }

  /** The dense list is `Pairs`, with the same block ends. */
  lemma RerunDense()
    ensures Compact(SparsePairs) == Pairs
    ensures EndsOk([2, 2], 2) && DenseEnds(SparsePairs, [2, 2]) == [2, 2]
  {
    var sp := SparsePairs;
    assert sp[..1] == [Some(Pair(0, 1))] && sp[..1][..0] == [] && sp[..2] == sp;
    assert Compact(sp[..1]) == [Pair(0, 1)];
  }

  /** COPY: B0 generates both pairs, B1 none. */
  lemma RerunGen()
    ensures GenOf([2, 2], 2) == Gen
  {
    var g := GenOf([2, 2], 2);
    assert Lo([2, 2], 0) == 0 && Lo([2, 2], 1) == 2;
    assert forall i, j :: 0 <= i < 2 && 0 <= j < 2 ==> g[i][j] == Gen[i][j];
    assert forall i :: 0 <= i < 2 ==> g[i] == Gen[i];
  }

  /** `f(y)` redefines nothing. */
  lemma CallKillsNothing(s: Sym, p: Pair)
    requires 1 <= s <= 3
    requires p.lhs < 5 && p.rhs < 5
    ensures !AnyKills(RerunFn, ExampleSets, Binding(s), [4], p)
  {
    assert [4][..0] == [];
    assert !Invalidates(RerunFn, ExampleSets, 4, s);
  }

  lemma CallOccs()
    ensures OccsOf(RerunFn, RerunFn.blocks[1]) == [4]
  {
    assert RerunFn.blocks[1] == [2] && [2][..0] == [] && RerunFn.stmts[2].occs == [4];
  }

  /** KILL: B0's pairs lie in its own range and B1 kills nothing. */
  lemma RerunKill(s: Sym)
    requires 1 <= s <= 3
    ensures WellFormed(RerunFn)
    ensures KillOf(RerunFn, ExampleSets, Binding(s), Pairs, [2, 2]) == NoKill
  {
    RerunWellFormed();
    var fn := RerunFn;
    CallOccs();
    CallKillsNothing(s, Pairs[0]);
    CallKillsNothing(s, Pairs[1]);
    var k := KillOf(fn, ExampleSets, Binding(s), Pairs, [2, 2]);
    assert Lo([2, 2], 0) == 0 && Lo([2, 2], 1) == 2;
    assert |k[0]| == 2 && !k[0][0] && !k[0][1];
    assert |k[1]| == 2 && !k[1][0] && !k[1][1];
    assert k[0] == NoKill[0] && k[1] == NoKill[1];
  }

  /** Sets, pairs, COPY and KILL of the pass. */
  lemma RerunVectors(s: Sym)
    requires 1 <= s <= 3
    ensures WellFormed(RerunFn)
    ensures var a := Analyze(RerunFn, Binding(s));
      a.sets == ExampleSets && a.pairs == Pairs && a.gen == Gen && a.kill == NoKill
  {
    RerunSets(s);
    RerunSparse(s);
    RerunDense();
    RerunGen();
    RerunKill(s);
  }

  /** On B0 -> B1 with these COPY and KILL vectors, the forward equations
      fix IN to `Ins`. */
  lemma TwoBlockIns(preds: seq<seq<nat>>, a: Analysis)
    requires |preds| == 2 && preds[1] == [0]
    requires a.gen == Gen && a.kill == NoKill && Shaped(a.ins, 2, 2)
    requires forall j :: 0 <= j < 2 ==> !a.ins[0][j]
    requires a.ins[1] == Meet(preds[1], Outs(a.gen, a.kill, a.ins, 2, 2), 2)
    ensures a.ins == Ins
  {
    var outs := Outs(Gen, NoKill, a.ins, 2, 2);
    assert a.ins[0] == [false, false];
    MeetOne(0, outs, 2);
    assert a.ins[1] == Transfer(Gen[0], NoKill[0], a.ins[0]) == [true, true];
  }

  /** IN of the pass: both copies are available at the entry of B1. */
  lemma RerunIns(s: Sym)
    requires 1 <= s <= 3
    ensures WellFormed(RerunFn)
    ensures Analyze(RerunFn, Binding(s)).ins == Ins
  {
    RerunVectors(s);
    var a := Analyze(RerunFn, Binding(s));
    assert |RerunFn.blocks| == 2 && |a.pairs| == 2 && RerunFn.preds[1] == [0];
    TwoBlockIns(RerunFn.preds, a);
  }

  /** The whole analysis: the sets, the pairs, COPY, KILL and IN above. */
  lemma RerunAnalysis(s: Sym)
    requires 1 <= s <= 3
    ensures WellFormed(RerunFn)
    ensures Analyze(RerunFn, Binding(s)) == Analysis(ExampleSets, Pairs, Gen, NoKill, Ins)
  {
    RerunVectors(s);
    RerunIns(s);
  }

  /** Both loops seed B1 with x -> a, y -> x: the pairs' symbols do not
      depend on what the call reads. */
  lemma B1Seeded(s: Sym)
    ensures SymPairs(Binding(s), Pairs) == [(2, 1), (3, 2)]
    ensures SeedMap([(2, 1), (3, 2)], Ins[1]) == B1Seed
  {
    assert [(2, 1), (3, 2)][..1] == [(2, 1)] && [(2, 1)][..0] == [];
    assert [true, true][..1] == [true] && [true][..0] == [];
  }

  /** Re-running B1 from `B1Seed` rewrites the call's argument through it. */
  lemma B1Rerun(s: Sym)
    requires 1 <= s <= 3
    ensures WellFormed(RerunFn)
    ensures PropagateBlock(RerunFn, ExampleSets, State(Binding(s), B1Seed), RerunFn.blocks[1]).vars == Binding(Back(s))
  {
    var fn, sets, v := RerunFn, ExampleSets, Binding(s);
    RerunWellFormed();
    assert fn.blocks[1] == [2] && [2][..0] == [] && [4][..0] == [];
    assert fn.stmts[2] == Stmt(OtherKind, [4]);
    assert RewriteUses(fn, sets, B1Seed, v, [4]) == Binding(Back(s));
  }

  /** Both loops skip B0 and re-run B1 from x -> a, y -> x. */
  lemma RerunsAgree(s: Sym)
    requires 1 <= s <= 3
    ensures WellFormed(RerunFn)
    ensures FinalPhaseAsWritten(RerunFn, ExampleSets, Binding(s), Pairs, Ins, 2) == Binding(Back(s))
    ensures FinalPhase(RerunFn, ExampleSets, Binding(s), SymPairs(Binding(s), Pairs), Ins, 2) == Binding(Back(s))
  {
    B1Rerun(s);
    B1Seeded(s);
    assert !AnyBit(Ins[0]) && Ins[1][0];
  }

  /** One run of the pass as written rewrites the call's argument one copy
      back: `f(y)` becomes `f(x)`, `f(x)` becomes `f(a)`, and `f(a)` stays. */
  lemma PassRewritesCallOnce(s: Sym)
    requires 1 <= s <= 3
    ensures WellFormed(RerunFn)
    ensures GlobalPass(RerunFn, Binding(s)) == Binding(Back(s))
  {
    RerunAnalysis(s);
    RerunsAgree(s);
  }

  /** So does one run of the pass with the recorded symbols. */
  lemma RecordedPassRewritesCallOnce(s: Sym)
    requires 1 <= s <= 3
    ensures WellFormed(RerunFn)
    ensures GlobalPassRecorded(RerunFn, Binding(s)) == Binding(Back(s))
  {
    RerunAnalysis(s);
    RerunsAgree(s);
  }

  /** A second run changes what the first produced exactly when the two
      results differ. */
  lemma RunTwice(fn: Fn, v: seq<Sym>, w: seq<Sym>, u: seq<Sym>)
    requires WellFormed(fn) && |v| == |fn.nodes| && GlobalPass(fn, v) == w && GlobalPass(fn, w) == u
    ensures (GlobalPass(fn, GlobalPass(fn, v)) != GlobalPass(fn, v)) == (u != w)
  {
  }

  lemma RecordedRunTwice(fn: Fn, v: seq<Sym>, w: seq<Sym>, u: seq<Sym>)
    requires WellFormed(fn) && |v| == |fn.nodes| && GlobalPassRecorded(fn, v) == w && GlobalPassRecorded(fn, w) == u
    ensures (GlobalPassRecorded(fn, GlobalPassRecorded(fn, v)) != GlobalPassRecorded(fn, v)) == (u != w)
  {
  }

  /** Rewriting the call's argument twice changes it exactly when it starts
      at y: y goes to x and then to a, x to a, and a stays. */
  lemma BackTwice(s: Sym)
    requires 1 <= s <= 3
    ensures 1 <= Back(s) <= 3
    ensures Binding(Back(Back(s))) != Binding(Back(s)) <==> s == 3
  {
    assert Binding(1)[4] != Binding(2)[4];
  }

  /** The pass as written is not idempotent: a second run changes the
      function exactly when the call reads y, the function as written, where
      the second run rewrites `f(x)` to `f(a)`. */
  lemma SecondRunChanges(s: Sym)
    requires 1 <= s <= 3
    ensures WellFormed(RerunFn)
    ensures GlobalPass(RerunFn, GlobalPass(RerunFn, Binding(s))) != GlobalPass(RerunFn, Binding(s)) <==> s == 3
  {
    var t := Back(s);
    BackTwice(s);
    PassRewritesCallOnce(s);
    PassRewritesCallOnce(t);
    RunTwice(RerunFn, Binding(s), Binding(t), Binding(Back(t)));
  }

  /** Neither is the pass with the recorded symbols. */
  lemma SecondRecordedRunChanges(s: Sym)
    requires 1 <= s <= 3
    ensures WellFormed(RerunFn)
    ensures GlobalPassRecorded(RerunFn, GlobalPassRecorded(RerunFn, Binding(s))) != GlobalPassRecorded(RerunFn, Binding(s)) <==> s == 3
  {
    var t := Back(s);
    BackTwice(s);
    RecordedPassRewritesCallOnce(s);
    RecordedPassRewritesCallOnce(t);
    RecordedRunTwice(RerunFn, Binding(s), Binding(t), Binding(Back(t)));
  }
}
