/**
  The per-block propagator (`localCopyPropagationCore`) and the local pass
  (`localCopyPropagation`).  Each statement of a block goes through three
  ordered phases: (1) uses of mapped symbols are rewritten to their sources,
  unless the occurrence itself invalidates; (2) every invalidating occurrence
  kills the copies of its (possibly just rewritten) symbol; (3) a copy
  statement records its pair.  The functions below state the result of the
  phases on the values of the occurrence arena and the forward map; the
  methods perform them in place and are proved equal to them.
*/
module LocalProp {
  import opened IR
  import opened Wrappers
  import opened CopyOracle
  import opened Available

  predicate OccsBelow(occs: seq<OccId>, n: nat) {
    forall k :: 0 <= k < |occs| ==> occs[k] < n
  }

  predicate StmtsBelow(ss: seq<StmtId>, n: nat) {
    forall t :: 0 <= t < |ss| ==> ss[t] < n
  }

  /** The arena's symbols and the forward map, between two statements. */
  datatype State = State(vars: seq<Sym>, fwd: map<Sym, Sym>)

  /** Phase 1 on one occurrence. */
  function RewriteOcc(fn: Fn, sets: OccSets, fwd: map<Sym, Sym>, vars: seq<Sym>, o: OccId): seq<Sym>
    requires o < |vars| == |fn.nodes|
  {
    if o in sets.useSet && vars[o] in fwd && !Invalidates(fn, sets, o, vars[o])
    then vars[o := fwd[vars[o]]]
    else vars
  }

  /** Phase 1 on the occurrences `occs`, in order. */
  function RewriteUses(fn: Fn, sets: OccSets, fwd: map<Sym, Sym>, vars: seq<Sym>, occs: seq<OccId>): (r: seq<Sym>)
    requires |vars| == |fn.nodes| && OccsBelow(occs, |vars|)
    ensures |r| == |vars|
  {
    if occs == [] then vars
    else RewriteOcc(fn, sets, fwd, RewriteUses(fn, sets, fwd, vars, occs[..|occs| - 1]), occs[|occs| - 1])
  }

  /** Phase 2 on the occurrences `occs`, in order. */
  function InvalidateAll(fn: Fn, sets: OccSets, vars: seq<Sym>, fwd: map<Sym, Sym>, occs: seq<OccId>): map<Sym, Sym>
    requires |vars| == |fn.nodes| && OccsBelow(occs, |vars|)
  {
    if occs == [] then fwd
    else
      var f := InvalidateAll(fn, sets, vars, fwd, occs[..|occs| - 1]);
      var o := occs[|occs| - 1];
      if Invalidates(fn, sets, o, vars[o]) then Kill(f, vars[o]) else f
  }

  /** Phase 3: a copy statement adds its pair, replacing any pair of its destination. */
  function InsertCopy(fn: Fn, sets: OccSets, vars: seq<Sym>, fwd: map<Sym, Sym>, st: Stmt): map<Sym, Sym>
    requires StmtWellFormed(st, |vars|)
  {
    if IsCopy(fn, sets, vars, st) then fwd[vars[st.kind.lhs.occ] := vars[st.kind.rhs.occ]] else fwd
  }

  /** The three phases on one statement. */
  function StepStmt(fn: Fn, sets: OccSets, s: State, st: Stmt): State
    requires |s.vars| == |fn.nodes| && StmtWellFormed(st, |fn.nodes|)
  {
    var v1 := RewriteUses(fn, sets, s.fwd, s.vars, st.occs);
    State(v1, InsertCopy(fn, sets, v1, InvalidateAll(fn, sets, v1, s.fwd, st.occs), st))
  }

  /** The propagator over the statements `block`, in order. */
  function PropagateBlock(fn: Fn, sets: OccSets, s: State, block: seq<StmtId>): (r: State)
    requires WellFormed(fn) && |s.vars| == |fn.nodes| && StmtsBelow(block, |fn.stmts|)
    ensures |r.vars| == |s.vars|
  {
    if block == [] then s
    else StepStmt(fn, sets, PropagateBlock(fn, sets, s, block[..|block| - 1]), fn.stmts[block[|block| - 1]])
  }

  /** The local pass after the sets are built: every block starts from an empty relation. */
  function PropagateBlocks(fn: Fn, sets: OccSets, vars: seq<Sym>, bs: seq<seq<StmtId>>): (r: seq<Sym>)
    requires WellFormed(fn) && |vars| == |fn.nodes|
    requires forall b :: 0 <= b < |bs| ==> StmtsBelow(bs[b], |fn.stmts|)
    ensures |r| == |vars|
  {
    if bs == [] then vars
    else PropagateBlock(fn, sets, State(PropagateBlocks(fn, sets, vars, bs[..|bs| - 1]), map[]), bs[|bs| - 1]).vars
  }

  /** The def and use sets the passes compute at entry. */
  function EntrySets(fn: Fn, vars: seq<Sym>): OccSets
    requires WellFormed(fn) && |vars| == |fn.nodes|
  {
    var locals := LocalsOf(fn, fn.blocks);
    OccSetsOf(fn, vars, set v | v in locals)
  }

  /** What the whole local pass does to the arena. */
  function LocalPass(fn: Fn, vars: seq<Sym>): (r: seq<Sym>)
    requires WellFormed(fn) && |vars| == |fn.nodes|
    ensures |r| == |vars|
  {
    PropagateBlocks(fn, sets := EntrySets(fn, vars), vars := vars, bs := fn.blocks)
  }

  // ---------------------------------------------------------------------
  // Properties of one statement and of one block
  // ---------------------------------------------------------------------

  /** Phase 1 rewrites exactly the uses that are mapped and do not
      invalidate, each to the source the relation held BEFORE the statement's
      own invalidations. */
  lemma {:induction false} RewriteUsesAt(fn: Fn, sets: OccSets, fwd: map<Sym, Sym>, vars: seq<Sym>, occs: seq<OccId>, o: OccId)
    requires |vars| == |fn.nodes| && OccsBelow(occs, |vars|)
    requires forall k, k' :: 0 <= k < k' < |occs| ==> occs[k] != occs[k']
    requires o < |vars|
    ensures RewriteUses(fn, sets, fwd, vars, occs)[o] ==
      if o in occs && o in sets.useSet && vars[o] in fwd && !Invalidates(fn, sets, o, vars[o])
      then fwd[vars[o]] else vars[o]
  {
    if occs != [] {
      var pre := occs[..|occs| - 1];
      var last := occs[|occs| - 1];
      RewriteUsesAt(fn, sets, fwd, vars, pre, o);
      RewriteUsesAt(fn, sets, fwd, vars, pre, last);
      assert last !in pre;
      assert o in occs <==> o in pre || o == last;
    }
  }

  /** The statement-level consequence: an occurrence changes only if it is in
      the statement, in the use set, mapped, and not flagged by the oracle. */
  lemma StmtRewritesOnlyFlaggedFreeUses(fn: Fn, sets: OccSets, s: State, st: Stmt, o: OccId)
    requires |s.vars| == |fn.nodes| && StmtWellFormed(st, |fn.nodes|) && o < |s.vars|
    ensures StepStmt(fn, sets, s, st).vars[o] != s.vars[o] ==>
      o in st.occs && o in sets.useSet && s.vars[o] in s.fwd &&
      !Invalidates(fn, sets, o, s.vars[o]) && StepStmt(fn, sets, s, st).vars[o] == s.fwd[s.vars[o]]
  {
    RewriteUsesAt(fn, sets, s.fwd, s.vars, st.occs, o);
  }

  /** The copy a statement records survives the statement's own phase 2:
      after a copy `l := r` the relation maps l's symbol to r's. */
  lemma {:induction false} CopyRecordedAfterInvalidation(fn: Fn, sets: OccSets, s: State, st: Stmt)
    requires |s.vars| == |fn.nodes| && StmtWellFormed(st, |fn.nodes|)
    requires IsCopy(fn, sets, StepStmt(fn, sets, s, st).vars, st)
    ensures var r := StepStmt(fn, sets, s, st);
      r.vars[st.kind.lhs.occ] in r.fwd && r.fwd[r.vars[st.kind.lhs.occ]] == r.vars[st.kind.rhs.occ]
  {
  }

  lemma {:induction false} InvalidateAllKeepsNoSelfMap(fn: Fn, sets: OccSets, vars: seq<Sym>, fwd: map<Sym, Sym>, occs: seq<OccId>)
    requires |vars| == |fn.nodes| && OccsBelow(occs, |vars|)
    requires NoSelfMap(fwd)
    ensures NoSelfMap(InvalidateAll(fn, sets, vars, fwd, occs))
    ensures forall k :: k in InvalidateAll(fn, sets, vars, fwd, occs) ==>
      k in fwd && InvalidateAll(fn, sets, vars, fwd, occs)[k] == fwd[k]
  {
    if occs != [] {
      InvalidateAllKeepsNoSelfMap(fn, sets, vars, fwd, occs[..|occs| - 1]);
    }
  }

  /** The relation never holds a self-mapping: the block propagator keeps
      that property of its starting relation. */
  lemma {:induction false} PropagateBlockKeepsNoSelfMap(fn: Fn, sets: OccSets, s: State, block: seq<StmtId>)
    requires WellFormed(fn) && |s.vars| == |fn.nodes| && StmtsBelow(block, |fn.stmts|)
    requires NoSelfMap(s.fwd)
    ensures NoSelfMap(PropagateBlock(fn, sets, s, block).fwd)
  {
    if block != [] {
      var pre := PropagateBlock(fn, sets, s, block[..|block| - 1]);
      PropagateBlockKeepsNoSelfMap(fn, sets, s, block[..|block| - 1]);
      var st := fn.stmts[block[|block| - 1]];
      var v1 := RewriteUses(fn, sets, pre.fwd, pre.vars, st.occs);
      InvalidateAllKeepsNoSelfMap(fn, sets, v1, pre.fwd, st.occs);
    }
  }

  lemma {:induction false} NoSetsNoRewrite(fn: Fn, sets: OccSets, fwd: map<Sym, Sym>, vars: seq<Sym>, occs: seq<OccId>)
    requires |vars| == |fn.nodes| && OccsBelow(occs, |vars|)
    requires sets.useSet == {}
    ensures RewriteUses(fn, sets, fwd, vars, occs) == vars
  {
    if occs != [] {
      NoSetsNoRewrite(fn, sets, fwd, vars, occs[..|occs| - 1]);
    }
  }

  lemma {:induction false} EmptyStaysEmpty(fn: Fn, sets: OccSets, vars: seq<Sym>, occs: seq<OccId>)
    requires |vars| == |fn.nodes| && OccsBelow(occs, |vars|)
    ensures InvalidateAll(fn, sets, vars, map[], occs) == map[]
  {
    if occs != [] {
      EmptyStaysEmpty(fn, sets, vars, occs[..|occs| - 1]);
    }
  }

  /** With no candidate (empty def and use sets) a block starting from an
      empty relation is left exactly as it was. */
  lemma {:induction false} NoCandidatesNoChange(fn: Fn, sets: OccSets, vars: seq<Sym>, block: seq<StmtId>)
    requires WellFormed(fn) && |vars| == |fn.nodes| && StmtsBelow(block, |fn.stmts|)
    requires sets.defSet == {} && sets.useSet == {}
    ensures PropagateBlock(fn, sets, State(vars, map[]), block) == State(vars, map[])
  {
    if block != [] {
      NoCandidatesNoChange(fn, sets, vars, block[..|block| - 1]);
      var st := fn.stmts[block[|block| - 1]];
      NoSetsNoRewrite(fn, sets, map[], vars, st.occs);
      EmptyStaysEmpty(fn, sets, vars, st.occs);
    }
  }

  /** With no candidate, every block is left as it was. */
  lemma {:induction false} NoCandidatesNoChangeBlocks(fn: Fn, sets: OccSets, vars: seq<Sym>, bs: seq<seq<StmtId>>)
    requires WellFormed(fn) && |vars| == |fn.nodes|
    requires forall b :: 0 <= b < |bs| ==> StmtsBelow(bs[b], |fn.stmts|)
    requires sets.defSet == {} && sets.useSet == {}
    ensures PropagateBlocks(fn, sets, vars, bs) == vars
  {
    if bs != [] {
      NoCandidatesNoChangeBlocks(fn, sets, vars, bs[..|bs| - 1]);
      NoCandidatesNoChange(fn, sets, vars, bs[|bs| - 1]);
    }
  }

  /** A function that declares no candidate variable is left unchanged by the local pass. */
  lemma LocalPassWithoutCandidates(fn: Fn, vars: seq<Sym>)
    requires WellFormed(fn) && |vars| == |fn.nodes| && LocalsOf(fn, fn.blocks) == []
    ensures LocalPass(fn, vars) == vars
  {
    var sets := EntrySets(fn, vars);
    assert sets.defSet == {} && sets.useSet == {};
    NoCandidatesNoChangeBlocks(fn, sets, vars, fn.blocks);
  }

  /** Without uses to rewrite, a block rebinds no occurrence, whatever
      relation it starts from. */
  lemma {:induction false} NoUsesKeepVars(fn: Fn, sets: OccSets, s: State, block: seq<StmtId>)
    requires WellFormed(fn) && |s.vars| == |fn.nodes| && StmtsBelow(block, |fn.stmts|)
    requires sets.useSet == {}
    ensures PropagateBlock(fn, sets, s, block).vars == s.vars
  {
    if block != [] {
      var pre := PropagateBlock(fn, sets, s, block[..|block| - 1]);
      NoUsesKeepVars(fn, sets, s, block[..|block| - 1]);
      NoSetsNoRewrite(fn, sets, pre.fwd, pre.vars, fn.stmts[block[|block| - 1]].occs);
    }
  }

  /** A block rebinds only occurrences of its own statements. */
  lemma {:induction false} PropagateBlockFrame(fn: Fn, sets: OccSets, s: State, block: seq<StmtId>, o: OccId)
    requires WellFormed(fn) && |s.vars| == |fn.nodes| && StmtsBelow(block, |fn.stmts|) && o < |s.vars|
    requires o !in OccsOf(fn, block)
    ensures PropagateBlock(fn, sets, s, block).vars[o] == s.vars[o]
  {
    if block != [] {
      var m := |block| - 1;
      var pre := PropagateBlock(fn, sets, s, block[..m]);
      assert OccsOf(fn, block) == OccsOf(fn, block[..m]) + fn.stmts[block[m]].occs;
      PropagateBlockFrame(fn, sets, s, block[..m], o);
      RewriteUsesAt(fn, sets, pre.fwd, pre.vars, fn.stmts[block[m]].occs, o);
    }
  }

  /** Running the statements `a + b` is running `a`, then `b`. */
  lemma {:induction false} PropagateBlockAppend(fn: Fn, sets: OccSets, s: State, a: seq<StmtId>, b: seq<StmtId>)
    requires WellFormed(fn) && |s.vars| == |fn.nodes| && StmtsBelow(a, |fn.stmts|) && StmtsBelow(b, |fn.stmts|)
    ensures StmtsBelow(a + b, |fn.stmts|)
    ensures PropagateBlock(fn, sets, s, a + b) == PropagateBlock(fn, sets, PropagateBlock(fn, sets, s, a), b)
  {
    if b == [] {
      assert a + b == a;
    } else {
      assert (a + b)[..|a + b| - 1] == a + b[..|b| - 1];
      PropagateBlockAppend(fn, sets, s, a, b[..|b| - 1]);
    }
  }

  /** Declarations neither rebind an occurrence nor record a copy. */
  lemma {:induction false} DeclsKeepState(fn: Fn, sets: OccSets, s: State, decls: seq<StmtId>)
    requires WellFormed(fn) && |s.vars| == |fn.nodes| && StmtsBelow(decls, |fn.stmts|)
    requires forall t :: 0 <= t < |decls| ==> fn.stmts[decls[t]].kind.DefKind? && fn.stmts[decls[t]].occs == []
    ensures PropagateBlock(fn, sets, s, decls) == s
  {
    if decls != [] {
      DeclsKeepState(fn, sets, s, decls[..|decls| - 1]);
    }
  }

  // ---------------------------------------------------------------------
  // Two blocks worked through
  // ---------------------------------------------------------------------

  lemma SliceFacts()
    ensures [0, 1, 2][..2] == [0, 1] && [0, 1][..1] == [0] && [0][..0] == []
    ensures [2, 3][..1] == [2] && [4][..0] == [] && [2][..0] == []
  {
  }

  /** Symbols of the examples: 1 = a, 2 = x, 3 = y, 5 = p; 0 is the return symbol. */
  const Local := SymInfo(true, true, false, false, false, false, false, false)
  const ExampleSyms := map[1 := Local, 2 := Local, 3 := Local, 5 := Local]
  /** Occurrences 0 and 2 define candidates; 1, 3 and 4 use them. */
  const ExampleSets := OccSets({0, 2}, {1, 3, 4})

  /** On the five-occurrence examples, the occurrences 0 and 2 are defs and
      1, 3 and 4 uses; with all their symbols collected the sets are `ExampleSets`. */
  lemma SmallSets(fn: Fn, vars: seq<Sym>, locals: set<Sym>)
    requires |vars| == |fn.nodes| == 5
    requires forall o :: 0 <= o < 5 ==> vars[o] in locals
    requires forall o :: 0 <= o < 5 ==> fn.nodes[o].role == (if o == 0 || o == 2 then DefRole else UseRole)
    ensures OccSetsOf(fn, vars, set v | v in locals) == ExampleSets
  {
    var sets := OccSetsOf(fn, vars, set v | v in locals);
    assert forall o :: o in sets.defSet <==> o in ExampleSets.defSet;
    assert forall o :: o in sets.useSet <==> o in ExampleSets.useSet;
  }

  /** `var a, x, y; x := a; y := x; f(y)` in one block, the declarations
      first; occurrences 0..4 in this order. */
  const ChainFn := Fn(
    [Stmt(MoveKind(SymArg(0), SymArg(1)), [0, 1]),
     Stmt(MoveKind(SymArg(2), SymArg(3)), [2, 3]),
     Stmt(OtherKind, [4]),
     Stmt(DefKind(1), []), Stmt(DefKind(2), []), Stmt(DefKind(3), [])],
    [[3, 4, 5, 0, 1, 2]], [[]],
    [Node(PrimCall(Move, 1), DefRole, 0), Node(PrimCall(Move, 2), UseRole, 0),
     Node(PrimCall(Move, 1), DefRole, 1), Node(PrimCall(Move, 2), UseRole, 1),
     Node(PlainCall, UseRole, 2)],
    ExampleSyms, 0)

  lemma ChainStmtsOk()
    ensures StmtsOk(ChainFn)
  {
    var fn := ChainFn;
    forall s | 0 <= s < |fn.stmts|
      ensures StmtWellFormed(fn.stmts[s], |fn.nodes|)
    {
      if s == 0 {
        assert fn.stmts[0] == Stmt(MoveKind(SymArg(0), SymArg(1)), [0, 1]);
      } else if s == 1 {
        assert fn.stmts[1] == Stmt(MoveKind(SymArg(2), SymArg(3)), [2, 3]);
      } else if s == 2 {
        assert fn.stmts[2] == Stmt(OtherKind, [4]);
      } else {
        assert fn.stmts[s].occs == [] && fn.stmts[s].kind.DefKind?;
      }
    }
  }

  lemma ChainWellFormed()
    ensures WellFormed(ChainFn)
  {
    ChainStmtsOk();
    var fn := ChainFn;
    assert forall t :: 0 <= t < 6 ==> fn.blocks[0][t] < 6;
    forall o | 0 <= o < |fn.nodes|
      ensures fn.nodes[o].stmt < |fn.stmts|
      ensures fn.nodes[o].parent == PrimCall(Move, 1) ==> fn.stmts[fn.nodes[o].stmt].kind.MoveKind?
    {
      assert o == 0 || o == 1 || o == 2 || o == 3 || o == 4;
    }
  }

  /** The candidates collected from the block: a, x and y, declared first. */
  lemma ChainLocals()
    ensures LocalsOf(ChainFn, ChainFn.blocks) == [1, 2, 3]
  {
    var fn := ChainFn;
    ChainDecls();
    LocalsInNoDecls(fn, [0, 1, 2]);
    LocalsInAppend(fn, [3, 4, 5], [0, 1, 2]);
    assert [3, 4, 5] + [0, 1, 2] == fn.blocks[0] && fn.blocks[..0] == [];
  }

  lemma ChainDecls()
    ensures LocalsIn(ChainFn, [3, 4, 5]) == [1, 2, 3]
  {
    var fn := ChainFn;
    assert [3, 4, 5][..2] == [3, 4] && [3, 4][..1] == [3] && [3][..0] == [];
    assert Info(fn, 1) == Local && Info(fn, 2) == Local && Info(fn, 3) == Local;
    assert LocalsIn(fn, [3]) == [1];
    assert LocalsIn(fn, [3, 4]) == [1, 2];
  }

  /** The local pass's sets are `ExampleSets`. */
  lemma ChainSets()
    ensures WellFormed(ChainFn)
    ensures EntrySets(ChainFn, [2, 1, 3, 2, 3]) == ExampleSets
  {
    ChainWellFormed();
    ChainLocals();
    SmallSets(ChainFn, [2, 1, 3, 2, 3], {1, 2, 3});
  }

  /** The propagator of the block, after its declarations. */
  lemma ChainBody(sets: OccSets, s: State)
    requires |s.vars| == 5
    ensures WellFormed(ChainFn)
    ensures PropagateBlock(ChainFn, sets, s, ChainFn.blocks[0]) == PropagateBlock(ChainFn, sets, s, [0, 1, 2])
  {
    ChainWellFormed();
    assert ChainFn.blocks[0] == [3, 4, 5] + [0, 1, 2];
    PropagateBlockAppend(ChainFn, sets, s, [3, 4, 5], [0, 1, 2]);
    DeclsKeepState(ChainFn, sets, s, [3, 4, 5]);
  }

  lemma ChainStep0()
    ensures StepStmt(ChainFn, ExampleSets, State([2, 1, 3, 2, 3], map[]), ChainFn.stmts[0])
         == State([2, 1, 3, 2, 3], map[2 := 1])
  {
    var fn, sets, v0 := ChainFn, ExampleSets, [2, 1, 3, 2, 3];
    SliceFacts();
    assert RewriteUses(fn, sets, map[], v0, [0]) == v0;
    assert RewriteUses(fn, sets, map[], v0, [0, 1]) == v0;
    assert Kill(map[], 2) == map[];
    assert InvalidateAll(fn, sets, v0, map[], [0]) == map[];
    assert InvalidateAll(fn, sets, v0, map[], [0, 1]) == map[];
    assert IsCopy(fn, sets, v0, fn.stmts[0]);
  }

  /** `y := x` with x -> a available becomes `y := a` and records y -> a. */
  lemma ChainStep1()
    ensures StepStmt(ChainFn, ExampleSets, State([2, 1, 3, 2, 3], map[2 := 1]), ChainFn.stmts[1])
         == State([2, 1, 3, 1, 3], map[2 := 1, 3 := 1])
  {
    var fn, sets, v0, f1 := ChainFn, ExampleSets, [2, 1, 3, 2, 3], map[2 := 1];
    SliceFacts();
    assert RewriteUses(fn, sets, f1, v0, [2]) == v0;
    assert !Invalidates(fn, sets, 3, 2);
    var v2 := [2, 1, 3, 1, 3];
    assert RewriteUses(fn, sets, f1, v0, [2, 3]) == v2;
    assert Invalidates(fn, sets, 2, 3) && !Invalidates(fn, sets, 3, 1);
    assert Kill(f1, 3) == f1;
    assert InvalidateAll(fn, sets, v2, f1, [2]) == f1;
    assert InvalidateAll(fn, sets, v2, f1, [2, 3]) == f1;
    assert IsCopy(fn, sets, v2, fn.stmts[1]);
  }

  /** `f(y)` with y -> a available becomes `f(a)`. */
  lemma ChainStep2()
    ensures StepStmt(ChainFn, ExampleSets, State([2, 1, 3, 1, 3], map[2 := 1, 3 := 1]), ChainFn.stmts[2])
         == State([2, 1, 3, 1, 1], map[2 := 1, 3 := 1])
  {
    var fn, sets, f2 := ChainFn, ExampleSets, map[2 := 1, 3 := 1];
    SliceFacts();
    assert !Invalidates(fn, sets, 4, 3) && !Invalidates(fn, sets, 4, 1);
    assert RewriteUses(fn, sets, f2, [2, 1, 3, 1, 3], [4]) == [2, 1, 3, 1, 1];
    assert InvalidateAll(fn, sets, [2, 1, 3, 1, 1], f2, [4]) == f2;
  }

  /** Propagation goes through a chain: the use of y ends up referring to a,
      and y is recorded as a copy of a; the local pass computes exactly that. */
  lemma ChainExample()
    ensures WellFormed(ChainFn)
    ensures var r := PropagateBlock(ChainFn, ExampleSets, State([2, 1, 3, 2, 3], map[]), ChainFn.blocks[0]);
      r.vars == [2, 1, 3, 1, 1] && r.fwd == map[2 := 1, 3 := 1]
    ensures LocalPass(ChainFn, [2, 1, 3, 2, 3]) == [2, 1, 3, 1, 1]
  {
    var fn, v0 := ChainFn, [2, 1, 3, 2, 3];
    ChainSets();
    SliceFacts();
    ChainStep0();
    assert PropagateBlock(fn, ExampleSets, State(v0, map[]), [0]) == State(v0, map[2 := 1]);
    ChainStep1();
    assert PropagateBlock(fn, ExampleSets, State(v0, map[]), [0, 1]) == State([2, 1, 3, 1, 3], map[2 := 1, 3 := 1]);
    ChainStep2();
    ChainBody(ExampleSets, State(v0, map[]));
    assert fn.blocks[..0] == [];
  }

  /** `var a, x, p; x := a; p := &x; f(x)` in one block, the declarations
      first; occurrences 0..4 in this order. */
  const AliasFn := Fn(
    [Stmt(MoveKind(SymArg(0), SymArg(1)), [0, 1]),
     Stmt(MoveKind(SymArg(2), CallArg(SetRef, true)), [2, 3]),
     Stmt(OtherKind, [4]),
     Stmt(DefKind(1), []), Stmt(DefKind(2), []), Stmt(DefKind(5), [])],
    [[3, 4, 5, 0, 1, 2]], [[]],
    [Node(PrimCall(Move, 1), DefRole, 0), Node(PrimCall(Move, 2), UseRole, 0),
     Node(PrimCall(Move, 1), DefRole, 1), Node(PrimCall(SetRef, 1), UseRole, 1),
     Node(PlainCall, UseRole, 2)],
    ExampleSyms, 0)

  lemma AliasStmtsOk()
    ensures StmtsOk(AliasFn)
  {
    var fn := AliasFn;
    forall s | 0 <= s < |fn.stmts|
      ensures StmtWellFormed(fn.stmts[s], |fn.nodes|)
    {
      if s == 0 {
        assert fn.stmts[0] == Stmt(MoveKind(SymArg(0), SymArg(1)), [0, 1]);
      } else if s == 1 {
        assert fn.stmts[1] == Stmt(MoveKind(SymArg(2), CallArg(SetRef, true)), [2, 3]);
      } else if s == 2 {
        assert fn.stmts[2] == Stmt(OtherKind, [4]);
      } else {
        assert fn.stmts[s].occs == [] && fn.stmts[s].kind.DefKind?;
      }
    }
  }

  lemma AliasWellFormed()
    ensures WellFormed(AliasFn)
  {
    AliasStmtsOk();
    var fn := AliasFn;
    assert forall t :: 0 <= t < 6 ==> fn.blocks[0][t] < 6;
    forall o | 0 <= o < |fn.nodes|
      ensures fn.nodes[o].stmt < |fn.stmts|
      ensures fn.nodes[o].parent == PrimCall(Move, 1) ==> fn.stmts[fn.nodes[o].stmt].kind.MoveKind?
    {
      assert o == 0 || o == 1 || o == 2 || o == 3 || o == 4;
    }
  }

  /** The candidates collected from the block: a, x and p, declared first. */
  lemma AliasLocals()
    ensures LocalsOf(AliasFn, AliasFn.blocks) == [1, 2, 5]
  {
    var fn := AliasFn;
    AliasDecls();
    LocalsInNoDecls(fn, [0, 1, 2]);
    LocalsInAppend(fn, [3, 4, 5], [0, 1, 2]);
    assert [3, 4, 5] + [0, 1, 2] == fn.blocks[0] && fn.blocks[..0] == [];
  }

  lemma AliasDecls()
    ensures LocalsIn(AliasFn, [3, 4, 5]) == [1, 2, 5]
  {
    var fn := AliasFn;
    assert [3, 4, 5][..2] == [3, 4] && [3, 4][..1] == [3] && [3][..0] == [];
    assert Info(fn, 1) == Local && Info(fn, 2) == Local && Info(fn, 5) == Local;
    assert LocalsIn(fn, [3]) == [1];
    assert LocalsIn(fn, [3, 4]) == [1, 2];
  }

  /** The local pass's sets are `ExampleSets`. */
  lemma AliasSets()
    ensures WellFormed(AliasFn)
    ensures EntrySets(AliasFn, [2, 1, 5, 2, 2]) == ExampleSets
  {
    AliasWellFormed();
    AliasLocals();
    SmallSets(AliasFn, [2, 1, 5, 2, 2], {1, 2, 5});
  }

  lemma AliasStep0()
    ensures StepStmt(AliasFn, ExampleSets, State([2, 1, 5, 2, 2], map[]), AliasFn.stmts[0])
         == State([2, 1, 5, 2, 2], map[2 := 1])
  {
    var fn, sets, v0 := AliasFn, ExampleSets, [2, 1, 5, 2, 2];
    SliceFacts();
    assert RewriteUses(fn, sets, map[], v0, [0]) == v0;
    assert RewriteUses(fn, sets, map[], v0, [0, 1]) == v0;
    assert Kill(map[], 2) == map[];
    assert InvalidateAll(fn, sets, v0, map[], [0]) == map[];
    assert InvalidateAll(fn, sets, v0, map[], [0, 1]) == map[];
    assert IsCopy(fn, sets, v0, fn.stmts[0]);
  }

  /** `p := &x` leaves its occurrence of x alone and kills x -> a. */
  lemma AliasStep1()
    ensures StepStmt(AliasFn, ExampleSets, State([2, 1, 5, 2, 2], map[2 := 1]), AliasFn.stmts[1])
         == State([2, 1, 5, 2, 2], map[])
  {
    var fn, sets, v0, f1 := AliasFn, ExampleSets, [2, 1, 5, 2, 2], map[2 := 1];
    SliceFacts();
    assert Invalidates(fn, sets, 3, 2);
    assert RewriteUses(fn, sets, f1, v0, [2]) == v0;
    assert RewriteUses(fn, sets, f1, v0, [2, 3]) == v0;
    assert Kill(f1, 5) == f1;
    assert InvalidateAll(fn, sets, v0, f1, [2]) == f1;
    assert Kill(f1, 2) == map[];
    assert InvalidateAll(fn, sets, v0, f1, [2, 3]) == map[];
    assert !IsCopy(fn, sets, v0, fn.stmts[1]);
  }

  lemma AliasStep2()
    ensures StepStmt(AliasFn, ExampleSets, State([2, 1, 5, 2, 2], map[]), AliasFn.stmts[2])
         == State([2, 1, 5, 2, 2], map[])
  {
    var fn, sets, v0 := AliasFn, ExampleSets, [2, 1, 5, 2, 2];
    SliceFacts();
    assert RewriteUses(fn, sets, map[], v0, [4]) == v0;
    assert !Invalidates(fn, sets, 4, 2);
    assert InvalidateAll(fn, sets, v0, map[], [4]) == map[];
  }

  /** The propagator of the block, after its declarations. */
  lemma AliasBody(sets: OccSets, s: State)
    requires |s.vars| == 5
    ensures WellFormed(AliasFn)
    ensures PropagateBlock(AliasFn, sets, s, AliasFn.blocks[0]) == PropagateBlock(AliasFn, sets, s, [0, 1, 2])
  {
    AliasWellFormed();
    assert AliasFn.blocks[0] == [3, 4, 5] + [0, 1, 2];
    PropagateBlockAppend(AliasFn, sets, s, [3, 4, 5], [0, 1, 2]);
    DeclsKeepState(AliasFn, sets, s, [3, 4, 5]);
  }

  /** Taking a reference to x between the copy and the use kills the copy:
      the use of x is not rewritten, nothing is left available, and the local
      pass leaves the function unchanged. */
  lemma AliasExample()
    ensures WellFormed(AliasFn)
    ensures var r := PropagateBlock(AliasFn, ExampleSets, State([2, 1, 5, 2, 2], map[]), AliasFn.blocks[0]);
      r.vars == [2, 1, 5, 2, 2] && r.fwd == map[]
    ensures LocalPass(AliasFn, [2, 1, 5, 2, 2]) == [2, 1, 5, 2, 2]
  {
    var fn, v0 := AliasFn, [2, 1, 5, 2, 2];
    AliasSets();
    SliceFacts();
    AliasStep0();
    assert PropagateBlock(fn, ExampleSets, State(v0, map[]), [0]) == State(v0, map[2 := 1]);
    AliasStep1();
    assert PropagateBlock(fn, ExampleSets, State(v0, map[]), [0, 1]) == State(v0, map[]);
    AliasStep2();
    AliasBody(ExampleSets, State(v0, map[]));
    assert fn.blocks[..0] == [];
  }

  // ---------------------------------------------------------------------
  // The imperative propagator
  // ---------------------------------------------------------------------

  /** Phase 1 of one statement: every use of a mapped symbol that does not
      invalidate is rebound to the symbol's source. */
  method RewriteStmtUses(fn: Fn, sets: OccSets, occs: seq<OccId>, avail: AvailableCopies, vars: array<Sym>)
    requires vars.Length == |fn.nodes| && OccsBelow(occs, vars.Length)
    modifies vars
    ensures vars[..] == RewriteUses(fn, sets, avail.fwd, old(vars[..]), occs)
  {
    var k := 0;
    while k < |occs|
      invariant 0 <= k <= |occs|
      invariant vars[..] == RewriteUses(fn, sets, avail.fwd, old(vars[..]), occs[..k])
    {
      var o := occs[k];
      if o in sets.useSet {
        var sym := avail.Get(vars[o]);
        if sym.Some? && !Invalidates(fn, sets, o, vars[o]) {
          vars[o] := sym.value;
        }
      }
      assert occs[..k + 1][..k] == occs[..k];
      k := k + 1;
    }
    assert occs[..k] == occs;
  }

  /** Phase 2 of one statement: every invalidating occurrence kills the copies
      of the symbol it refers to. */
  method InvalidateStmt(fn: Fn, sets: OccSets, occs: seq<OccId>, avail: AvailableCopies, vars: array<Sym>)
    requires vars.Length == |fn.nodes| && OccsBelow(occs, vars.Length) && avail.Valid()
    modifies avail
    ensures avail.Valid()
    ensures avail.fwd == InvalidateAll(fn, sets, vars[..], old(avail.fwd), occs)
  {
    var k := 0;
    while k < |occs|
      invariant 0 <= k <= |occs| && avail.Valid()
      invariant avail.fwd == InvalidateAll(fn, sets, vars[..], old(avail.fwd), occs[..k])
    {
      var o := occs[k];
      if Invalidates(fn, sets, o, vars[o]) {
        avail.RemoveAvailable(vars[o]);
      }
      assert occs[..k + 1][..k] == occs[..k];
      k := k + 1;
    }
    assert occs[..k] == occs;
  }

  /** Phase 3 of one statement: a copy makes its destination available as a
      copy of its source. */
  method InsertStmtCopy(fn: Fn, sets: OccSets, st: Stmt, avail: AvailableCopies, vars: array<Sym>)
    requires StmtWellFormed(st, vars.Length) && avail.Valid()
    modifies avail
    ensures avail.Valid()
    ensures avail.fwd == InsertCopy(fn, sets, vars[..], old(avail.fwd), st)
  {
    if st.kind.MoveKind? && st.kind.rhs.SymArg? && st.kind.lhs.SymArg? {
      var lhs, rhs := st.kind.lhs.occ, st.kind.rhs.occ;
      if vars[lhs] != vars[rhs] && lhs in sets.defSet &&
         (rhs in sets.useSet || Info(fn, vars[rhs]).isConstant || Info(fn, vars[rhs]).isImmediate) {
        avail.MakeAvailable(vars[lhs], vars[rhs]);
      }
    }
  }

  /** `localCopyPropagationCore`: runs the three phases over every statement of
      `block`, rebinding occurrences in `vars` and updating `avail` in place. */
  method LocalCopyPropagationCore(fn: Fn, sets: OccSets, block: seq<StmtId>, avail: AvailableCopies, vars: array<Sym>)
    requires WellFormed(fn) && vars.Length == |fn.nodes| && StmtsBelow(block, |fn.stmts|)
    requires avail.Valid()
    modifies vars, avail
    ensures avail.Valid()
    ensures State(vars[..], avail.fwd) == PropagateBlock(fn, sets, State(old(vars[..]), old(avail.fwd)), block)
  {
    var t := 0;
    while t < |block|
      invariant 0 <= t <= |block|
      invariant avail.Valid()
      invariant State(vars[..], avail.fwd) == PropagateBlock(fn, sets, State(old(vars[..]), old(avail.fwd)), block[..t])
    {
      var st := fn.stmts[block[t]];
      assert StmtWellFormed(st, |fn.nodes|);
      ghost var before := State(vars[..], avail.fwd);

      // replace uses with available copies
      RewriteStmtUses(fn, sets, st.occs, avail, vars);
      // invalidate the copies of every invalidating occurrence's symbol
      InvalidateStmt(fn, sets, st.occs, avail, vars);

      // record the pair of a copy
      InsertStmtCopy(fn, sets, st, avail, vars);
      assert block[..t + 1][..t] == block[..t];
      t := t + 1;
    }
    assert block[..t] == block;
  }

  /** `localCopyPropagation`: collects the candidates and their def and use
      sets once, then runs the propagator on every block from an empty relation. */
  method LocalCopyPropagation(fn: Fn, vars: array<Sym>)
    requires WellFormed(fn) && vars.Length == |fn.nodes|
    modifies vars
    ensures vars[..] == LocalPass(fn, old(vars[..]))
  {
    var locals := CollectLocals(fn);
    var sets := BuildOccSets(fn, vars[..], locals);
    assert sets == EntrySets(fn, old(vars[..]));
    var b := 0;
    while b < |fn.blocks|
      invariant 0 <= b <= |fn.blocks|
      invariant vars[..] == PropagateBlocks(fn, sets, old(vars[..]), fn.blocks[..b])
    {
      var avail := new AvailableCopies();
      LocalCopyPropagationCore(fn, sets, fn.blocks[b], avail, vars);
      assert fn.blocks[..b + 1][..b] == fn.blocks[..b];
      b := b + 1;
    }
    assert fn.blocks[..b] == fn.blocks;
  }
}
