/**
  A three-block function worked through the whole global pass, once as the
  source writes its final loop (the pairs' symbols read from their
  occurrences when each block is seeded) and once with the symbols recorded
  when the dense list is built.

      B0:  var a, x, y;  x := a
      B1:  y := x;  a := g()
      B2:  f(y)

  Occurrences 0..5 in this order; symbols 1 = a, 2 = x, 3 = y.  The pass
  collects the dense pairs x := a (from B0) and y := x (from B1), and the
  forward equations make x := a available at the entry of B1 only, and
  y := x at the entry of B2 only (B1 redefines a, which kills x := a).
*/
module GlobalExample {
  import opened IR
  import opened Wrappers
  import opened CopyOracle
  import opened Available
  import opened LocalProp
  import opened Dataflow
  import opened GlobalProp

  const Sets := OccSets({0, 2, 4}, {1, 3, 5})

  const LiveFn := Fn(
    [Stmt(MoveKind(SymArg(0), SymArg(1)), [0, 1]),
     Stmt(MoveKind(SymArg(2), SymArg(3)), [2, 3]),
     Stmt(MoveKind(SymArg(4), CallArg(OtherPrim, false)), [4]),
     Stmt(OtherKind, [5]),
     Stmt(DefKind(1), []), Stmt(DefKind(2), []), Stmt(DefKind(3), [])],
    [[4, 5, 6, 0], [1, 2], [3]], [[], [0], [1]],
    [Node(PrimCall(Move, 1), DefRole, 0), Node(PrimCall(Move, 2), UseRole, 0),
     Node(PrimCall(Move, 1), DefRole, 1), Node(PrimCall(Move, 2), UseRole, 1),
     Node(PrimCall(Move, 1), DefRole, 2), Node(PlainCall, UseRole, 3)],
    map[1 := Local, 2 := Local, 3 := Local], 0)

  const Start: seq<Sym> := [2, 1, 3, 2, 1, 3]
  /** The arena after B1 is re-run from x -> a: `y := x` has become `y := a`. */
  const AfterB1: seq<Sym> := [2, 1, 3, 1, 1, 3]
  const Pairs := [Pair(0, 1), Pair(2, 3)]
  const Gen: seq<Bits> := [[true, false], [false, true], [false, false]]
  const KillBits: seq<Bits> := [[false, true], [true, false], [false, false]]
  const Ins: seq<Bits> := [[false, false], [true, false], [false, true]]

  lemma LiveStmtsOk()
    ensures StmtsOk(LiveFn)
  {
    var fn := LiveFn;
    forall s | 0 <= s < |fn.stmts|
      ensures StmtWellFormed(fn.stmts[s], |fn.nodes|)
    {
      if s == 0 {
        assert fn.stmts[0] == Stmt(MoveKind(SymArg(0), SymArg(1)), [0, 1]);
      } else if s == 1 {
        assert fn.stmts[1] == Stmt(MoveKind(SymArg(2), SymArg(3)), [2, 3]);
      } else if s == 2 {
        assert fn.stmts[2].occs == [4];
      } else if s == 3 {
        assert fn.stmts[3] == Stmt(OtherKind, [5]);
      } else {
        assert fn.stmts[s].occs == [] && fn.stmts[s].kind.DefKind?;
      }
    }
  }

  lemma LiveWellFormed()
    ensures WellFormed(LiveFn)
  {
    LiveStmtsOk();
    var fn := LiveFn;
    assert forall t :: 0 <= t < 4 ==> fn.blocks[0][t] < 7;
    assert forall t :: 0 <= t < 2 ==> fn.blocks[1][t] < 7;
    assert forall t :: 0 <= t < 1 ==> fn.blocks[2][t] < 7;
    forall o | 0 <= o < |fn.nodes|
      ensures fn.nodes[o].stmt < |fn.stmts|
      ensures fn.nodes[o].parent == PrimCall(Move, 1) ==> fn.stmts[fn.nodes[o].stmt].kind.MoveKind?
    {
      assert o == 0 || o == 1 || o == 2 || o == 3 || o == 4 || o == 5;
    }
  }

  /** `y := x` seeded with x -> a becomes `y := a` and records y -> a. */
  lemma LiveStep1()
    ensures StepStmt(LiveFn, Sets, State(Start, map[2 := 1]), LiveFn.stmts[1]) == State(AfterB1, map[2 := 1, 3 := 1])
  {
    var fn, f1 := LiveFn, map[2 := 1];
    assert [2, 3][..1] == [2] && [2][..0] == [];
    assert RewriteUses(fn, Sets, f1, Start, [2]) == Start;
    assert !Invalidates(fn, Sets, 3, 2);
    assert RewriteUses(fn, Sets, f1, Start, [2, 3]) == AfterB1;
    assert Invalidates(fn, Sets, 2, 3) && !Invalidates(fn, Sets, 3, 1);
    assert Kill(f1, 3) == f1;
    assert InvalidateAll(fn, Sets, AfterB1, f1, [2]) == f1;
    assert InvalidateAll(fn, Sets, AfterB1, f1, [2, 3]) == f1;
    assert IsCopy(fn, Sets, AfterB1, fn.stmts[1]);
  }

  /** `a := g()` kills every copy that mentions a. */
  lemma LiveStep2()
    ensures StepStmt(LiveFn, Sets, State(AfterB1, map[2 := 1, 3 := 1]), LiveFn.stmts[2]) == State(AfterB1, map[])
  {
    var fn, f2 := LiveFn, map[2 := 1, 3 := 1];
    assert [4][..0] == [];
    assert RewriteUses(fn, Sets, f2, AfterB1, [4]) == AfterB1;
    assert Invalidates(fn, Sets, 4, 1);
    assert Kill(f2, 1) == map[];
    assert InvalidateAll(fn, Sets, AfterB1, f2, [4]) == map[];
  }

  /** B1 re-run from x -> a. */
  lemma LiveBlock1()
    ensures WellFormed(LiveFn)
    ensures PropagateBlock(LiveFn, Sets, State(Start, map[2 := 1]), [1, 2]).vars == AfterB1
  {
    LiveWellFormed();
    assert [1, 2][..1] == [1] && [1][..0] == [];
    LiveStep1();
    assert PropagateBlock(LiveFn, Sets, State(Start, map[2 := 1]), [1]) == State(AfterB1, map[2 := 1, 3 := 1]);
    LiveStep2();
  }

  /** B2 re-run from `seed`: `f(y)` becomes `f(seed[y])`. */
  lemma LiveBlock2(s: Sym)
    ensures WellFormed(LiveFn)
    ensures PropagateBlock(LiveFn, Sets, State(AfterB1, map[3 := s]), [3]).vars == AfterB1[5 := s]
  {
    LiveWellFormed();
    assert [3][..0] == [] && [5][..0] == [];
    assert !Invalidates(LiveFn, Sets, 5, 3);
    assert RewriteUses(LiveFn, Sets, map[3 := s], AfterB1, [5]) == AfterB1[5 := s];
  }

  /** The seeds of B1 and B2 from the pairs' symbols recorded at collection time. */
  lemma RecordedSeeds()
    ensures SymPairs(Start, Pairs) == [(2, 1), (3, 2)]
    ensures SeedMap([(2, 1), (3, 2)], Ins[1]) == map[2 := 1]
    ensures SeedMap([(2, 1), (3, 2)], Ins[2]) == map[3 := 2]
  {
    assert [(2, 1), (3, 2)][..1] == [(2, 1)] && [(2, 1)][..0] == [];
    assert [true, false][..1] == [true] && [false, true][..1] == [false] && [true][..0] == [] && [false][..0] == [];
  }

  /** The seed of B2 from the pairs' symbols read after B1 was re-run. */
  lemma LiveSeed()
    ensures SymPairs(AfterB1, Pairs) == [(2, 1), (3, 1)]
    ensures SeedMap([(2, 1), (3, 1)], Ins[2]) == map[3 := 1]
  {
    assert [(2, 1), (3, 1)][..1] == [(2, 1)] && [(2, 1)][..0] == [];
    assert [false, true][..1] == [false] && [false][..0] == [];
  }

  /** B0 has no set IN bit; B1 and B2 have one each. */
  lemma InsBits()
    ensures !AnyBit(Ins[0]) && AnyBit(Ins[1]) && AnyBit(Ins[2])
  {
    assert Ins[1][0] && Ins[2][1];
  }

  /** B0 is skipped by both loops. */
  lemma BothSkipB0()
    ensures WellFormed(LiveFn)
    ensures FinalPhaseAsWritten(LiveFn, Sets, Start, Pairs, Ins, 1) == Start
    ensures FinalPhase(LiveFn, Sets, Start, SymPairs(Start, Pairs), Ins, 1) == Start
  {
    LiveWellFormed();
    InsBits();
  }

  /** Up to B1 both loops agree: B1 is re-run from x -> a. */
  lemma BothUpToB1()
    ensures WellFormed(LiveFn)
    ensures FinalPhaseAsWritten(LiveFn, Sets, Start, Pairs, Ins, 2) == AfterB1
    ensures FinalPhase(LiveFn, Sets, Start, SymPairs(Start, Pairs), Ins, 2) == AfterB1
  {
    BothSkipB0();
    InsBits();
    RecordedSeeds();
    assert LiveFn.blocks[1] == [1, 2];
    LiveBlock1();
  }

  /** The final loop as written rewrites `f(y)` to `f(a)`. */
  lemma LiveFinalLoop()
    ensures WellFormed(LiveFn)
    ensures FinalPhaseAsWritten(LiveFn, Sets, Start, Pairs, Ins, 3) == [2, 1, 3, 1, 1, 1]
  {
    BothUpToB1();
    InsBits();
    LiveSeed();
    LiveBlock2(1);
  }

  /** With the recorded symbols the final loop rewrites `f(y)` to `f(x)`. */
  lemma RecordedFinalLoop()
    ensures WellFormed(LiveFn)
    ensures FinalPhase(LiveFn, Sets, Start, SymPairs(Start, Pairs), Ins, 3) == [2, 1, 3, 1, 1, 2]
  {
    BothUpToB1();
    InsBits();
    RecordedSeeds();
    LiveBlock2(2);
  }

  // ---------------------------------------------------------------------
  // What the pass computes before its final loop
  // ---------------------------------------------------------------------

  lemma LiveDecls()
    ensures LocalsIn(LiveFn, [4, 5, 6]) == [1, 2, 3]
  {
    var fn := LiveFn;
    assert [4, 5, 6][..2] == [4, 5] && [4, 5][..1] == [4] && [4][..0] == [];
    assert Info(fn, 1) == Local && Info(fn, 2) == Local && Info(fn, 3) == Local;
    assert LocalsIn(fn, [4]) == [1];
    assert LocalsIn(fn, [4, 5]) == [1, 2];
  }

  /** The pass collects a, x and y, declared in B0. */
  lemma LiveLocals()
    ensures LocalsOf(LiveFn, LiveFn.blocks) == [1, 2, 3]
  {
    var fn := LiveFn;
    LiveDecls();
    LocalsInNoDecls(fn, [0]);
    LocalsInNoDecls(fn, [1, 2]);
    LocalsInNoDecls(fn, [3]);
    LocalsInAppend(fn, [4, 5, 6], [0]);
    assert [4, 5, 6] + [0] == fn.blocks[0];
    assert fn.blocks[..2][..1] == fn.blocks[..1] && fn.blocks[..1][..0] == [];
    assert LocalsOf(fn, fn.blocks[..1]) == [1, 2, 3];
    assert LocalsOf(fn, fn.blocks[..2]) == [1, 2, 3];
    assert fn.blocks[..3] == fn.blocks;
  }

  /** On six occurrences, alternately defs and uses, all of candidates, the sets are `Sets`. */
  lemma AlternatingSets(fn: Fn, vars: seq<Sym>, locals: set<Sym>)
    requires |vars| == |fn.nodes| == 6
    requires forall o :: 0 <= o < 6 ==> vars[o] in locals
    requires forall o :: 0 <= o < 6 ==> fn.nodes[o].role == (if o % 2 == 0 then DefRole else UseRole)
    ensures OccSetsOf(fn, vars, locals) == Sets
  {
    var sets := OccSetsOf(fn, vars, locals);
    assert forall o :: o in sets.defSet <==> o in Sets.defSet;
    assert forall o :: o in sets.useSet <==> o in Sets.useSet;
  }

  /** The def and use sets of the pass are `Sets`. */
  lemma LiveSets()
    ensures WellFormed(LiveFn)
    ensures EntrySets(LiveFn, Start) == Sets
  {
    LiveWellFormed();
    LiveLocals();
    var fn := LiveFn;
    var locals := set v | v in [1, 2, 3];
    assert locals == {1, 2, 3};
    forall o | 0 <= o < 6
      ensures Start[o] in locals
      ensures fn.nodes[o].role == (if o % 2 == 0 then DefRole else UseRole)
    {
      assert o == 0 || o == 1 || o == 2 || o == 3 || o == 4 || o == 5;
    }
    AlternatingSets(fn, Start, locals);
  }

  /** B0: the declarations add nothing, then `x := a` adds its pair. */
  lemma SparseB0()
    ensures WellFormed(LiveFn)
    ensures SparseBlock(LiveFn, Sets, Start, [], 0, LiveFn.blocks[0]) == [Some(Pair(0, 1))]
  {
    var fn := LiveFn;
    LiveWellFormed();
    DeclsAddNoPair(fn, Sets, Start, [], 0, [4, 5, 6]);
    assert fn.blocks[0][..3] == [4, 5, 6];
    assert [0, 1][..1] == [0] && [0][..0] == [];
    assert KillPairs(fn, Sets, Start, [], 0, [0, 1]) == [];
    assert IsCopy(fn, Sets, Start, fn.stmts[0]);
  }

  /** B1: `y := x` adds its pair; `a := g()` nulls no pair of B1's own range. */
  lemma SparseB1()
    ensures WellFormed(LiveFn)
    ensures SparseBlock(LiveFn, Sets, Start, [Some(Pair(0, 1))], 1, LiveFn.blocks[1]) == [Some(Pair(0, 1)), Some(Pair(2, 3))]
  {
    var fn := LiveFn;
    LiveWellFormed();
    var sp1, sp2 := [Some(Pair(0, 1))], [Some(Pair(0, 1)), Some(Pair(2, 3))];
    assert [2, 3][..1] == [2] && [2][..0] == [] && [4][..0] == [] && [1, 2][..1] == [1] && [1][..0] == [];
    assert ClearPairs(Start, sp1, 1, 3) == sp1;
    assert KillPairs(fn, Sets, Start, sp1, 1, [2]) == sp1;
    assert !Invalidates(fn, Sets, 3, 2);
    assert KillPairs(fn, Sets, Start, sp1, 1, [2, 3]) == sp1;
    assert IsCopy(fn, Sets, Start, fn.stmts[1]);
    assert SparseBlock(fn, Sets, Start, sp1, 1, [1]) == sp2;
    assert ClearPairs(Start, sp2, 1, 1) == sp2;
    assert KillPairs(fn, Sets, Start, sp2, 1, [4]) == sp2;
  }

  /** B2: `f(y)` neither kills nor adds a pair. */
  lemma SparseB2()
    ensures WellFormed(LiveFn)
    ensures SparseBlock(LiveFn, Sets, Start, [Some(Pair(0, 1)), Some(Pair(2, 3))], 2, LiveFn.blocks[2])
         == [Some(Pair(0, 1)), Some(Pair(2, 3))]
  {
    var fn := LiveFn;
    LiveWellFormed();
    var sp := [Some(Pair(0, 1)), Some(Pair(2, 3))];
    assert [3][..0] == [] && [5][..0] == [];
    assert !Invalidates(fn, Sets, 5, 3);
    assert KillPairs(fn, Sets, Start, sp, 2, [5]) == sp;
    assert !IsCopy(fn, Sets, Start, fn.stmts[3]);
  }

  lemma SparseUpToB0()
    ensures WellFormed(LiveFn)
    ensures SparseAll(LiveFn, Sets, Start, LiveFn.blocks[..1]) == Sparse([Some(Pair(0, 1))], [1])
  {
    SparseB0();
    assert LiveFn.blocks[..1][..0] == [];
  }

  lemma SparseUpToB1()
    ensures WellFormed(LiveFn)
    ensures SparseAll(LiveFn, Sets, Start, LiveFn.blocks[..2]) == Sparse([Some(Pair(0, 1)), Some(Pair(2, 3))], [1, 2])
  {
    SparseUpToB0();
    SparseB1();
    assert LiveFn.blocks[..2][..1] == LiveFn.blocks[..1];
  }

  /** The sparse list: both pairs survive, and the block ends are 1, 2, 2. */
  lemma LiveSparse()
    ensures WellFormed(LiveFn)
    ensures SparseAll(LiveFn, Sets, Start, LiveFn.blocks) == Sparse([Some(Pair(0, 1)), Some(Pair(2, 3))], [1, 2, 2])
  {
    SparseUpToB1();
    SparseB2();
    assert LiveFn.blocks[..3] == LiveFn.blocks && LiveFn.blocks[..3][..2] == LiveFn.blocks[..2];
  }

  /** The dense list is `Pairs`, with the same block ends. */
  lemma LiveDense()
    ensures Compact([Some(Pair(0, 1)), Some(Pair(2, 3))]) == Pairs
    ensures EndsOk([1, 2, 2], 2) && DenseEnds([Some(Pair(0, 1)), Some(Pair(2, 3))], [1, 2, 2]) == [1, 2, 2]
  {
    var sp := [Some(Pair(0, 1)), Some(Pair(2, 3))];
    assert sp[..1] == [Some(Pair(0, 1))] && sp[..1][..0] == [] && sp[..2] == sp;
    assert Compact(sp[..1]) == [Pair(0, 1)];
  }

  /** COPY: each block generates its own range of the dense list. */
  lemma LiveGen()
    ensures GenOf([1, 2, 2], 2) == Gen
  {
    var g := GenOf([1, 2, 2], 2);
    assert Lo([1, 2, 2], 0) == 0 && Lo([1, 2, 2], 1) == 1 && Lo([1, 2, 2], 2) == 2;
    assert forall i, j :: 0 <= i < 3 && 0 <= j < 2 ==> g[i][j] == Gen[i][j];
    assert forall i :: 0 <= i < 3 ==> g[i] == Gen[i];
  }

  /** The occurrences of each block. */
  lemma LiveOccs()
    ensures OccsOf(LiveFn, LiveFn.blocks[0]) == [0, 1]
    ensures OccsOf(LiveFn, LiveFn.blocks[1]) == [2, 3, 4]
    ensures OccsOf(LiveFn, LiveFn.blocks[2]) == [5]
  {
    var fn := LiveFn;
    assert fn.blocks[0][..3] == [4, 5, 6] && [4, 5, 6][..2] == [4, 5] && [4, 5][..1] == [4] && [4][..0] == [];
    assert fn.stmts[4].occs == [] && fn.stmts[5].occs == [] && fn.stmts[6].occs == [];
    assert OccsOf(fn, [4]) == [];
    assert OccsOf(fn, [4, 5]) == [];
    assert OccsOf(fn, [4, 5, 6]) == [];
    assert [1, 2][..1] == [1] && [1][..0] == [] && [3][..0] == [];
    assert OccsOf(fn, [1]) == [2, 3];
  }

  /** `x := a` redefines x, which y := x mentions. */
  lemma DefOfXKillsYX()
    ensures AnyKills(LiveFn, Sets, Start, [0, 1], Pair(2, 3))
  {
    var fn := LiveFn;
    assert [0, 1][..1] == [0];
    assert Invalidates(fn, Sets, 0, Start[0]) && Start[0] == Start[3];
    assert AnyKills(fn, Sets, Start, [0], Pair(2, 3));
  }

  /** `a := g()` redefines a, which x := a mentions. */
  lemma DefOfAKillsXA()
    ensures AnyKills(LiveFn, Sets, Start, [2, 3, 4], Pair(0, 1))
  {
    var fn := LiveFn;
    assert [2, 3, 4][..2] == [2, 3];
    assert Invalidates(fn, Sets, 4, Start[4]) && Start[4] == Start[1];
  }

  /** `f(y)` redefines nothing. */
  lemma CallKillsNothing(p: Pair)
    requires p.lhs < 6 && p.rhs < 6
    ensures !AnyKills(LiveFn, Sets, Start, [5], p)
  {
    assert [5][..0] == [];
    assert !Invalidates(LiveFn, Sets, 5, Start[5]);
  }

  /** KILL: `x := a` kills y := x outside B1, and `a := g()` kills x := a outside B0. */
  lemma LiveKill()
    ensures WellFormed(LiveFn)
    ensures KillOf(LiveFn, Sets, Start, Pairs, [1, 2, 2]) == KillBits
  {
    LiveWellFormed();
    LiveOccs();
    DefOfXKillsYX();
    DefOfAKillsXA();
    CallKillsNothing(Pairs[0]);
    CallKillsNothing(Pairs[1]);
    var k := KillOf(LiveFn, Sets, Start, Pairs, [1, 2, 2]);
    assert Lo([1, 2, 2], 0) == 0 && Lo([1, 2, 2], 1) == 1 && Lo([1, 2, 2], 2) == 2;
    assert |k[0]| == 2 && !k[0][0] && k[0][1];
    assert |k[1]| == 2 && k[1][0] && !k[1][1];
    assert |k[2]| == 2 && !k[2][0] && !k[2][1];
    assert k[0] == KillBits[0] && k[1] == KillBits[1] && k[2] == KillBits[2];
  }

  /** The dense pairs of the pass are `Pairs`, one per block of B0 and B1. */
  lemma LiveDensePairs()
    ensures WellFormed(LiveFn)
    ensures DensePairs(LiveFn, Sets, Start) == (Pairs, [1, 2, 2])
  {
    LiveSparse();
    LiveDense();
  }

  /** Sets, pairs, COPY and KILL of the pass. */
  lemma LiveVectors()
    ensures WellFormed(LiveFn)
    ensures var a := Analyze(LiveFn, Start);
      a.sets == Sets && a.pairs == Pairs && a.gen == Gen && a.kill == KillBits
  {
    LiveSets();
    LiveDensePairs();
    LiveGen();
    LiveKill();
  }

  /** On a chain B0 -> B1 -> B2 with these COPY and KILL vectors, the forward
      equations fix IN to `Ins`. */
  lemma ChainIns(preds: seq<seq<nat>>, a: Analysis)
    requires |preds| == 3 && preds[1] == [0] && preds[2] == [1]
    requires a.gen == Gen && a.kill == KillBits && Shaped(a.ins, 3, 2)
    requires forall j :: 0 <= j < 2 ==> !a.ins[0][j]
    requires forall i :: 0 < i < 3 && preds[i] != [] ==> a.ins[i] == Meet(preds[i], Outs(a.gen, a.kill, a.ins, 3, 2), 2)
    ensures a.ins == Ins
  {
    var ins := a.ins;
    var outs := Outs(Gen, KillBits, ins, 3, 2);
    assert ins[0] == [false, false];
    assert ins[1] == Meet([0], outs, 2) && ins[2] == Meet([1], outs, 2);
    MeetOne(0, outs, 2);
    assert ins[1] == Transfer(Gen[0], KillBits[0], ins[0]) == [true, false];
    MeetOne(1, outs, 2);
    assert ins[2] == Transfer(Gen[1], KillBits[1], ins[1]) == [false, true];
  }

  /** IN of the pass, fixed by the forward equations since B1 and B2 have one
      predecessor each. */
  lemma LiveIns()
    ensures WellFormed(LiveFn)
    ensures Analyze(LiveFn, Start).ins == Ins
  {
    LiveVectors();
    var a := Analyze(LiveFn, Start);
    assert |LiveFn.blocks| == 3 && |a.pairs| == 2;
    assert LiveFn.preds[1] == [0] && LiveFn.preds[2] == [1];
    ChainIns(LiveFn.preds, a);
  }

  /** The whole analysis: the sets, the pairs, COPY, KILL and IN above. */
  lemma LiveAnalysis()
    ensures WellFormed(LiveFn)
    ensures Analyze(LiveFn, Start) == Analysis(Sets, Pairs, Gen, KillBits, Ins)
  {
    LiveVectors();
    LiveIns();
  }

  // ---------------------------------------------------------------------
  // The whole pass
  // ---------------------------------------------------------------------

  /** The global pass as the source writes it turns `f(y)` into `f(a)`,
      although B1 redefines a after y was copied: the seed y -> a of B2 is
      not one of the collected copies. */
  lemma LiveReadRebindsSeed()
    ensures WellFormed(LiveFn)
    ensures GlobalPass(LiveFn, Start) == [2, 1, 3, 1, 1, 1]
  {
    LiveAnalysis();
    LiveFinalLoop();
  }

  /** The global pass with the symbols recorded at collection time turns
      `f(y)` into `f(x)`, the copy y := x that reaches B2. */
  lemma RecordedSeedKeepsCopy()
    ensures WellFormed(LiveFn)
    ensures GlobalPassRecorded(LiveFn, Start) == [2, 1, 3, 1, 1, 2]
  {
    LiveAnalysis();
    RecordedFinalLoop();
  }
}
