/**
  The global pass (`globalCopyPropagation`).  It collects the function-wide
  list of candidate copy pairs, first sparse (entries killed later in their
  own block are nulled) and then dense, builds per-block COPY (GEN) and KILL
  bit-vectors over the dense list, seeds IN, solves the forward equations,
  and re-runs the block propagator on every block whose IN has a set bit,
  seeded with the pairs available at the block's entry.
*/
module GlobalProp {
  import opened IR
  import opened Wrappers
  import opened CopyOracle
  import opened Available
  import opened LocalProp
  import opened Dataflow

  /** A candidate copy pair: the occurrences of its two sides. */
  datatype Pair = Pair(lhs: OccId, rhs: OccId)

  /** The sparse list and, per block, the list length at the block's end. */
  datatype Sparse = Sparse(pairs: seq<Option<Pair>>, ends: seq<nat>)

  /** Both sides lie in the arena and refer to two different symbols. */
  predicate CopyPairOk(vars: seq<Sym>, p: Pair) {
    p.lhs < |vars| && p.rhs < |vars| && vars[p.lhs] != vars[p.rhs]
  }

  predicate SparseOk(vars: seq<Sym>, sp: seq<Option<Pair>>) {
    forall i :: 0 <= i < |sp| && sp[i].Some? ==> CopyPairOk(vars, sp[i].value)
  }

  predicate PairsOk(vars: seq<Sym>, pairs: seq<Pair>) {
    forall j :: 0 <= j < |pairs| ==> CopyPairOk(vars, pairs[j])
  }

  /** Either side of `p` refers to `s`. */
  predicate Mentions(vars: seq<Sym>, p: Pair, s: Sym)
    requires p.lhs < |vars| && p.rhs < |vars|
  {
    vars[p.lhs] == s || vars[p.rhs] == s
  }

  /** The end positions are ordered and within the list. */
  predicate EndsOk(ends: seq<nat>, len: nat) {
    (forall i, i' :: 0 <= i <= i' < |ends| ==> ends[i] <= ends[i']) &&
    (forall i :: 0 <= i < |ends| ==> ends[i] <= len)
  }

  // ---------------------------------------------------------------------
  // The sparse list
  // ---------------------------------------------------------------------

  /** The kill loop: null the entries from `start` on that mention `s`. */
  function ClearPairs(vars: seq<Sym>, sp: seq<Option<Pair>>, start: nat, s: Sym): (r: seq<Option<Pair>>)
    requires SparseOk(vars, sp)
    ensures |r| == |sp| && SparseOk(vars, r)
  {
    seq(|sp|, i requires 0 <= i < |sp| =>
      if start <= i && sp[i].Some? && Mentions(vars, sp[i].value, s) then None else sp[i])
  }

  /** Does some occurrence of `occs` invalidate a symbol of `p`? */
  function AnyKills(fn: Fn, sets: OccSets, vars: seq<Sym>, occs: seq<OccId>, p: Pair): bool
    requires |vars| == |fn.nodes| && OccsBelow(occs, |vars|) && p.lhs < |vars| && p.rhs < |vars|
  {
    if occs == [] then false
    else
      var o := occs[|occs| - 1];
      AnyKills(fn, sets, vars, occs[..|occs| - 1], p) || (Invalidates(fn, sets, o, vars[o]) && Mentions(vars, p, vars[o]))
  }

  /** The kill loops of one statement's occurrences, in order. */
  function KillPairs(fn: Fn, sets: OccSets, vars: seq<Sym>, sp: seq<Option<Pair>>, start: nat, occs: seq<OccId>): (r: seq<Option<Pair>>)
    requires |vars| == |fn.nodes| && OccsBelow(occs, |vars|) && SparseOk(vars, sp)
    ensures |r| == |sp| && SparseOk(vars, r)
  {
    if occs == [] then sp
    else
      var acc := KillPairs(fn, sets, vars, sp, start, occs[..|occs| - 1]);
      var o := occs[|occs| - 1];
      if Invalidates(fn, sets, o, vars[o]) then ClearPairs(vars, acc, start, vars[o]) else acc
  }

  /** A copy statement appends its pair. */
  function AddPair(fn: Fn, sets: OccSets, vars: seq<Sym>, sp: seq<Option<Pair>>, st: Stmt): (r: seq<Option<Pair>>)
    requires StmtWellFormed(st, |vars|) && SparseOk(vars, sp)
    ensures SparseOk(vars, r) && |sp| <= |r| && r[..|sp|] == sp
  {
    if IsCopy(fn, sets, vars, st) then sp + [Some(Pair(st.kind.lhs.occ, st.kind.rhs.occ))] else sp
  }

  function SparseStmt(fn: Fn, sets: OccSets, vars: seq<Sym>, sp: seq<Option<Pair>>, start: nat, st: Stmt): (r: seq<Option<Pair>>)
    requires |vars| == |fn.nodes| && StmtWellFormed(st, |vars|) && SparseOk(vars, sp)
    ensures SparseOk(vars, r) && |sp| <= |r|
  {
    AddPair(fn, sets, vars, KillPairs(fn, sets, vars, sp, start, st.occs), st)
  }

  /** The sparse phase on the statements `block`, whose pairs start at `start`. */
  function SparseBlock(fn: Fn, sets: OccSets, vars: seq<Sym>, sp: seq<Option<Pair>>, start: nat, block: seq<StmtId>): (r: seq<Option<Pair>>)
    requires StmtsOk(fn) && |vars| == |fn.nodes| && StmtsBelow(block, |fn.stmts|) && SparseOk(vars, sp)
    ensures SparseOk(vars, r) && |sp| <= |r|
  {
    if block == [] then sp
    else SparseStmt(fn, sets, vars, SparseBlock(fn, sets, vars, sp, start, block[..|block| - 1]), start, fn.stmts[block[|block| - 1]])
  }

  /** Declarations neither kill nor add a pair. */
  lemma {:induction false} DeclsAddNoPair(fn: Fn, sets: OccSets, vars: seq<Sym>, sp: seq<Option<Pair>>, start: nat, decls: seq<StmtId>)
    requires StmtsOk(fn) && |vars| == |fn.nodes| && StmtsBelow(decls, |fn.stmts|) && SparseOk(vars, sp)
    requires forall t :: 0 <= t < |decls| ==> fn.stmts[decls[t]].kind.DefKind? && fn.stmts[decls[t]].occs == []
    ensures SparseBlock(fn, sets, vars, sp, start, decls) == sp
  {
    if decls != [] {
      DeclsAddNoPair(fn, sets, vars, sp, start, decls[..|decls| - 1]);
    }
  }

  /** The sparse phase on the blocks `bs`: each block kills only pairs from its
      own start on, and its end is recorded. */
  function SparseAll(fn: Fn, sets: OccSets, vars: seq<Sym>, bs: seq<seq<StmtId>>): (r: Sparse)
    requires WellFormed(fn) && |vars| == |fn.nodes|
    requires forall b :: 0 <= b < |bs| ==> StmtsBelow(bs[b], |fn.stmts|)
    ensures SparseOk(vars, r.pairs) && |r.ends| == |bs| && EndsOk(r.ends, |r.pairs|)
    ensures bs != [] ==> r.ends[|bs| - 1] == |r.pairs|
  {
    if bs == [] then Sparse([], [])
    else
      var prev := SparseAll(fn, sets, vars, bs[..|bs| - 1]);
      var sp := SparseBlock(fn, sets, vars, prev.pairs, |prev.pairs|, bs[|bs| - 1]);
      Sparse(sp, prev.ends + [|sp|])
  }

  lemma {:induction false} AnyKillsAppend(fn: Fn, sets: OccSets, vars: seq<Sym>, a: seq<OccId>, b: seq<OccId>, p: Pair)
    requires |vars| == |fn.nodes| && OccsBelow(a, |vars|) && OccsBelow(b, |vars|) && p.lhs < |vars| && p.rhs < |vars|
    ensures OccsBelow(a + b, |vars|)
    ensures AnyKills(fn, sets, vars, a + b, p) == (AnyKills(fn, sets, vars, a, p) || AnyKills(fn, sets, vars, b, p))
  {
    if b != [] {
      assert (a + b)[..|a + b| - 1] == a + b[..|b| - 1];
      AnyKillsAppend(fn, sets, vars, a, b[..|b| - 1], p);
    } else {
      assert a + b == a;
    }
  }

  /** AnyKills is the existential it abbreviates. */
  lemma {:induction false} AnyKillsExists(fn: Fn, sets: OccSets, vars: seq<Sym>, occs: seq<OccId>, p: Pair)
    requires |vars| == |fn.nodes| && OccsBelow(occs, |vars|) && p.lhs < |vars| && p.rhs < |vars|
    ensures AnyKills(fn, sets, vars, occs, p) <==>
      exists k :: 0 <= k < |occs| && Invalidates(fn, sets, occs[k], vars[occs[k]]) && Mentions(vars, p, vars[occs[k]])
  {
    if occs != [] {
      var pre := occs[..|occs| - 1];
      AnyKillsExists(fn, sets, vars, pre, p);
      assert forall k :: 0 <= k < |pre| ==> pre[k] == occs[k];
    }
  }

  lemma {:induction false} KillPairsAt(fn: Fn, sets: OccSets, vars: seq<Sym>, sp: seq<Option<Pair>>, start: nat, occs: seq<OccId>, i: nat)
    requires |vars| == |fn.nodes| && OccsBelow(occs, |vars|) && SparseOk(vars, sp) && i < |sp|
    ensures KillPairs(fn, sets, vars, sp, start, occs)[i] ==
      if start <= i && sp[i].Some? && AnyKills(fn, sets, vars, occs, sp[i].value) then None else sp[i]
  {
    if occs != [] {
      KillPairsAt(fn, sets, vars, sp, start, occs[..|occs| - 1], i);
    }
  }

  /** A pair present in the sparse list after statements `block[..t]` of its
      block survives the whole block exactly when no occurrence in the rest
      of the block invalidates one of its symbols. */
  lemma {:induction false} SparseSurvival(fn: Fn, sets: OccSets, vars: seq<Sym>, sp: seq<Option<Pair>>, start: nat,
                                          block: seq<StmtId>, t: nat, i: nat)
    requires StmtsOk(fn) && |vars| == |fn.nodes| && StmtsBelow(block, |fn.stmts|) && SparseOk(vars, sp)
    requires t <= |block| && start <= i < |SparseBlock(fn, sets, vars, sp, start, block[..t])|
    requires SparseBlock(fn, sets, vars, sp, start, block[..t])[i].Some?
    ensures i < |SparseBlock(fn, sets, vars, sp, start, block)|
    ensures var p := SparseBlock(fn, sets, vars, sp, start, block[..t])[i].value;
      SparseBlock(fn, sets, vars, sp, start, block)[i] ==
        if AnyKills(fn, sets, vars, OccsOf(fn, block[t..]), p) then None else Some(p)
  {
    var p := SparseBlock(fn, sets, vars, sp, start, block[..t])[i].value;
    if t == |block| {
      assert block[..t] == block;
      assert block[t..] == [];
    } else {
      var pre := block[..|block| - 1];
      assert pre[..t] == block[..t];
      SparseSurvival(fn, sets, vars, sp, start, pre, t, i);
      SurvivalSnoc(fn, sets, vars, sp, start, block, t, i, p);
    }
  }

  /** The survival argument extended by the last statement of `block`. */
  lemma SurvivalSnoc(fn: Fn, sets: OccSets, vars: seq<Sym>, sp: seq<Option<Pair>>, start: nat,
                     block: seq<StmtId>, t: nat, i: nat, p: Pair)
    requires StmtsOk(fn) && |vars| == |fn.nodes| && StmtsBelow(block, |fn.stmts|) && SparseOk(vars, sp)
    requires t < |block| && p.lhs < |vars| && p.rhs < |vars|
    requires var pre := block[..|block| - 1];
      && start <= i < |SparseBlock(fn, sets, vars, sp, start, pre)|
      && SparseBlock(fn, sets, vars, sp, start, pre)[i] ==
           if AnyKills(fn, sets, vars, OccsOf(fn, pre[t..]), p) then None else Some(p)
    ensures i < |SparseBlock(fn, sets, vars, sp, start, block)|
    ensures SparseBlock(fn, sets, vars, sp, start, block)[i] ==
      if AnyKills(fn, sets, vars, OccsOf(fn, block[t..]), p) then None else Some(p)
  {
    var m := |block| - 1;
    var pre := block[..m];
    var st := fn.stmts[block[m]];
    var acc := SparseBlock(fn, sets, vars, sp, start, pre);
    assert SparseBlock(fn, sets, vars, sp, start, block) == SparseStmt(fn, sets, vars, acc, start, st);
    SurvivalStep(fn, sets, vars, acc, start, st, OccsOf(fn, pre[t..]), i, p);
    OccsOfSuffix(fn, block, t);
  }

  /** One statement's step of the survival argument. */
  lemma SurvivalStep(fn: Fn, sets: OccSets, vars: seq<Sym>, acc: seq<Option<Pair>>, start: nat, st: Stmt,
                     before: seq<OccId>, i: nat, p: Pair)
    requires |vars| == |fn.nodes| && StmtWellFormed(st, |vars|) && SparseOk(vars, acc) && start <= i < |acc|
    requires OccsBelow(before, |vars|) && p.lhs < |vars| && p.rhs < |vars|
    requires acc[i] == if AnyKills(fn, sets, vars, before, p) then None else Some(p)
    ensures OccsBelow(before + st.occs, |vars|)
    ensures i < |SparseStmt(fn, sets, vars, acc, start, st)|
    ensures SparseStmt(fn, sets, vars, acc, start, st)[i] ==
      if AnyKills(fn, sets, vars, before + st.occs, p) then None else Some(p)
  {
    SparseStmtAt(fn, sets, vars, acc, start, st, i);
    AnyKillsAppend(fn, sets, vars, before, st.occs, p);
  }

  lemma SparseStmtAt(fn: Fn, sets: OccSets, vars: seq<Sym>, sp: seq<Option<Pair>>, start: nat, st: Stmt, i: nat)
    requires |vars| == |fn.nodes| && StmtWellFormed(st, |vars|) && SparseOk(vars, sp) && start <= i < |sp|
    ensures i < |SparseStmt(fn, sets, vars, sp, start, st)|
    ensures SparseStmt(fn, sets, vars, sp, start, st)[i] ==
      if sp[i].Some? && AnyKills(fn, sets, vars, st.occs, sp[i].value) then None else sp[i]
  {
    KillPairsAt(fn, sets, vars, sp, start, st.occs, i);
  }

  lemma OccsOfSuffix(fn: Fn, block: seq<StmtId>, t: nat)
    requires StmtsBelow(block, |fn.stmts|) && t < |block|
    ensures OccsOf(fn, block[t..]) == OccsOf(fn, block[..|block| - 1][t..]) + fn.stmts[block[|block| - 1]].occs
  {
    var m := |block| - 1;
    assert block[t..] == block[..m][t..] + [block[m]];
    OccsOfSnoc(fn, block[..m][t..], block[m]);
  }

  lemma OccsOfSnoc(fn: Fn, a: seq<StmtId>, x: StmtId)
    requires StmtsBelow(a, |fn.stmts|) && x < |fn.stmts|
    ensures OccsOf(fn, a + [x]) == OccsOf(fn, a) + fn.stmts[x].occs
  {
    assert (a + [x])[..|a|] == a;
  }

  // ---------------------------------------------------------------------
  // The dense list
  // ---------------------------------------------------------------------

  /** The non-null entries of a sparse list, in order. */
  function Compact(sp: seq<Option<Pair>>): seq<Pair> {
    if sp == [] then []
    else Compact(sp[..|sp| - 1]) + if sp[|sp| - 1].Some? then [sp[|sp| - 1].value] else []
  }

  /** The dense list holds exactly the pairs that were not nulled. */
  lemma {:induction false} CompactMembers(sp: seq<Option<Pair>>, p: Pair)
    ensures p in Compact(sp) <==> Some(p) in sp
  {
    if sp != [] {
      CompactMembers(sp[..|sp| - 1], p);
      assert sp == sp[..|sp| - 1] + [sp[|sp| - 1]];
    }
  }

  lemma {:induction false} CompactOk(vars: seq<Sym>, sp: seq<Option<Pair>>)
    requires SparseOk(vars, sp)
    ensures PairsOk(vars, Compact(sp))
  {
    if sp != [] {
      CompactOk(vars, sp[..|sp| - 1]);
    }
  }

  lemma {:induction false} CompactMonotone(sp: seq<Option<Pair>>, a: nat, b: nat)
    requires a <= b <= |sp|
    ensures |Compact(sp[..a])| <= |Compact(sp[..b])|
    decreases b
  {
    if a < b {
      CompactMonotone(sp, a, b - 1);
      assert sp[..b][..b - 1] == sp[..b - 1];
    }
  }

  /** The dense ends: the number of surviving pairs up to each block's end. */
  function DenseEnds(sp: seq<Option<Pair>>, ends: seq<nat>): (r: seq<nat>)
    requires EndsOk(ends, |sp|)
    ensures |r| == |ends|
  {
    seq(|ends|, i requires 0 <= i < |ends| => |Compact(sp[..ends[i]])|)
  }

  /** The conversion loop: copies the non-null entries block by block and
      records the dense position at each block's end. */
  method Densify(sp: seq<Option<Pair>>, ends: seq<nat>) returns (pairs: seq<Pair>, ns: seq<nat>)
    requires EndsOk(ends, |sp|) && ends != [] && ends[|ends| - 1] == |sp|
    ensures pairs == Compact(sp) && ns == DenseEnds(sp, ends)
  {
    pairs, ns := [], [];
    var j, i := 0, 0;
    while i < |ends|
      invariant 0 <= i <= |ends| && j == (if i == 0 then 0 else ends[i - 1])
      invariant pairs == Compact(sp[..j])
      invariant ns == DenseEnds(sp, ends)[..i]
    {
      while j < ends[i]
        invariant j <= ends[i] && pairs == Compact(sp[..j])
      {
        if sp[j].Some? {
          pairs := pairs + [sp[j].value];
        }
        assert sp[..j + 1][..j] == sp[..j];
        j := j + 1;
      }
      ns := ns + [|pairs|];
      i := i + 1;
    }
    assert sp[..j] == sp;
  }

  /** The dense ends are ordered and end at the dense list's length. */
  lemma DenseEndsOk(sp: seq<Option<Pair>>, ends: seq<nat>)
    requires EndsOk(ends, |sp|) && ends != [] && ends[|ends| - 1] == |sp|
    ensures EndsOk(DenseEnds(sp, ends), |Compact(sp)|)
    ensures DenseEnds(sp, ends)[|ends| - 1] == |Compact(sp)|
  {
    var ns := DenseEnds(sp, ends);
    forall i, i' | 0 <= i <= i' < |ends|
      ensures ns[i] <= ns[i']
    {
      CompactMonotone(sp, ends[i], ends[i']);
    }
    assert sp[..|sp|] == sp;
    forall i | 0 <= i < |ends|
      ensures ns[i] <= |Compact(sp)|
    {
      CompactMonotone(sp, ends[i], |sp|);
    }
  }

  // ---------------------------------------------------------------------
  // COPY (GEN), KILL and the IN seed
  // ---------------------------------------------------------------------

  /** The first dense position of block `i`. */
  function Lo(ns: seq<nat>, i: nat): nat
    requires i < |ns|
  {
    if i == 0 then 0 else ns[i - 1]
  }

  function GenOf(ns: seq<nat>, u: nat): (r: seq<Bits>)
    ensures Shaped(r, |ns|, u)
  {
    seq(|ns|, i requires 0 <= i < |ns| => seq(u, j requires 0 <= j < u => Lo(ns, i) <= j < ns[i]))
  }

  /** The COPY loop: block `i` generates exactly the pairs of its own range. */
  method BuildCopy(ns: seq<nat>, u: nat) returns (gen: seq<Bits>)
    requires EndsOk(ns, u)
    ensures gen == GenOf(ns, u)
    ensures Shaped(gen, |ns|, u)
    ensures forall i, j :: 0 <= i < |ns| && 0 <= j < u ==> (gen[i][j] <==> Lo(ns, i) <= j < ns[i])
  {
    gen := [];
    var j, i := 0, 0;
    while i < |ns|
      invariant 0 <= i <= |ns| && j == (if i == 0 then 0 else ns[i - 1])
      invariant gen == GenOf(ns, u)[..i]
    {
      var copy := seq(u, _ => false);
      while j < ns[i]
        invariant Lo(ns, i) <= j <= ns[i] && |copy| == u
        invariant forall j' :: 0 <= j' < u ==> copy[j'] == (Lo(ns, i) <= j' < j)
      {
        copy := copy[j := true];
        j := j + 1;
      }
      assert copy == GenOf(ns, u)[i];
      gen := gen + [copy];
      i := i + 1;
    }
  }

  function KillOf(fn: Fn, sets: OccSets, vars: seq<Sym>, pairs: seq<Pair>, ns: seq<nat>): (r: seq<Bits>)
    requires WellFormed(fn) && |vars| == |fn.nodes| && PairsOk(vars, pairs) && |ns| == |fn.blocks|
    ensures Shaped(r, |ns|, |pairs|)
  {
    seq(|ns|, i requires 0 <= i < |ns| =>
      seq(|pairs|, j requires 0 <= j < |pairs| =>
        !(Lo(ns, i) <= j < ns[i]) && AnyKills(fn, sets, vars, OccsOf(fn, fn.blocks[i]), pairs[j])))
  }

  /** The two inner j-loops: every pair outside `[start, stop)` that mentions `s` is killed. */
  method MarkKills(vars: seq<Sym>, pairs: seq<Pair>, row: Bits, s: Sym, start: nat, stop: nat) returns (r: Bits)
    requires PairsOk(vars, pairs) && |row| == |pairs| && start <= stop <= |pairs|
    ensures |r| == |row|
    ensures forall j :: 0 <= j < |r| ==> r[j] == (row[j] || (!(start <= j < stop) && Mentions(vars, pairs[j], s)))
  {
    r := row;
    var j := 0;
    while j < start
      invariant 0 <= j <= start && |r| == |row|
      invariant forall j' :: 0 <= j' < |r| ==> r[j'] == (row[j'] || (j' < j && Mentions(vars, pairs[j'], s)))
    {
      if Mentions(vars, pairs[j], s) {
        r := r[j := true];
      }
      j := j + 1;
    }
    j := stop;
    while j < |pairs|
      invariant stop <= j <= |pairs| && |r| == |row|
      invariant forall j' :: 0 <= j' < |r| ==>
        r[j'] == (row[j'] || ((j' < start || stop <= j' < j) && Mentions(vars, pairs[j'], s)))
    {
      if Mentions(vars, pairs[j], s) {
        r := r[j := true];
      }
      j := j + 1;
    }
  }

  /** The kill loops of one statement's occurrences. */
  method MarkStmtKills(fn: Fn, sets: OccSets, vars: seq<Sym>, pairs: seq<Pair>, row: Bits, occs: seq<OccId>, start: nat, stop: nat)
    returns (r: Bits)
    requires |vars| == |fn.nodes| && OccsBelow(occs, |vars|)
    requires PairsOk(vars, pairs) && |row| == |pairs| && start <= stop <= |pairs|
    ensures |r| == |pairs|
    ensures forall j :: 0 <= j < |pairs| ==>
      r[j] == (row[j] || (!(start <= j < stop) && AnyKills(fn, sets, vars, occs, pairs[j])))
  {
    r := row;
    var k := 0;
    while k < |occs|
      invariant 0 <= k <= |occs| && |r| == |pairs|
      invariant forall j :: 0 <= j < |pairs| ==>
        r[j] == (row[j] || (!(start <= j < stop) && AnyKills(fn, sets, vars, occs[..k], pairs[j])))
    {
      var o := occs[k];
      if Invalidates(fn, sets, o, vars[o]) {
        r := MarkKills(vars, pairs, r, vars[o], start, stop);
      }
      assert occs[..k + 1][..k] == occs[..k];
      k := k + 1;
    }
    assert occs[..k] == occs;
  }

  /** The KILL vector of one block. */
  method KillRow(fn: Fn, sets: OccSets, vars: seq<Sym>, pairs: seq<Pair>, block: seq<StmtId>, start: nat, stop: nat)
    returns (row: Bits)
    requires WellFormed(fn) && |vars| == |fn.nodes| && StmtsBelow(block, |fn.stmts|)
    requires PairsOk(vars, pairs) && start <= stop <= |pairs|
    ensures |row| == |pairs|
    ensures forall j :: 0 <= j < |pairs| ==>
      row[j] == (!(start <= j < stop) && AnyKills(fn, sets, vars, OccsOf(fn, block), pairs[j]))
  {
    row := seq(|pairs|, _ => false);
    var t := 0;
    while t < |block|
      invariant 0 <= t <= |block| && |row| == |pairs|
      invariant forall j :: 0 <= j < |pairs| ==>
        row[j] == (!(start <= j < stop) && AnyKills(fn, sets, vars, OccsOf(fn, block[..t]), pairs[j]))
    {
      var st := fn.stmts[block[t]];
      assert StmtWellFormed(st, |fn.nodes|);
      ghost var done := OccsOf(fn, block[..t]);
      row := MarkStmtKills(fn, sets, vars, pairs, row, st.occs, start, stop);
      assert block[..t + 1] == block[..t] + [block[t]];
      OccsOfSnoc(fn, block[..t], block[t]);
      forall j | 0 <= j < |pairs|
        ensures row[j] == (!(start <= j < stop) && AnyKills(fn, sets, vars, OccsOf(fn, block[..t + 1]), pairs[j]))
      {
        AnyKillsAppend(fn, sets, vars, done, st.occs, pairs[j]);
      }
      t := t + 1;
    }
    assert block[..t] == block;
  }

  /** The KILL loop over all blocks: block `i` kills exactly the pairs outside
      its own range that one of its invalidating occurrences mentions. */
  method BuildKill(fn: Fn, sets: OccSets, vars: seq<Sym>, pairs: seq<Pair>, ns: seq<nat>) returns (kill: seq<Bits>)
    requires WellFormed(fn) && |vars| == |fn.nodes| && PairsOk(vars, pairs)
    requires |ns| == |fn.blocks| && EndsOk(ns, |pairs|)
    ensures kill == KillOf(fn, sets, vars, pairs, ns)
    ensures Shaped(kill, |ns|, |pairs|)
    ensures forall i, j :: 0 <= i < |ns| && 0 <= j < |pairs| && Lo(ns, i) <= j < ns[i] ==> !kill[i][j]
  {
    kill := [];
    var start, i := 0, 0;
    while i < |fn.blocks|
      invariant 0 <= i <= |fn.blocks|
      invariant i < |ns| ==> start == Lo(ns, i)
      invariant kill == KillOf(fn, sets, vars, pairs, ns)[..i]
    {
      var stop := ns[i];
      var row := KillRow(fn, sets, vars, pairs, fn.blocks[i], start, stop);
      assert row == KillOf(fn, sets, vars, pairs, ns)[i];
      kill := kill + [row];
      start := stop;
      i := i + 1;
    }
  }

  function SeedOf(n: nat, u: nat): (r: seq<Bits>)
    ensures Shaped(r, n, u)
  {
    seq(n, i requires 0 <= i < n => seq(u, _ => i != 0))
  }

  /** The IN vectors start all false; every block but the entry is then set to all true. */
  method InitIn(n: nat, u: nat) returns (ins: seq<Bits>)
    ensures ins == SeedOf(n, u)
    ensures Shaped(ins, n, u)
    ensures forall i, j :: 0 <= i < n && 0 <= j < u ==> ins[i][j] == (i != 0)
  {
    ins := seq(n, _ => seq(u, _ => false));
    var i := 1;
    while i < n
      invariant Shaped(ins, n, u) && (n == 0 || 1 <= i <= n)
      invariant forall i', j :: 0 <= i' < n && 0 <= j < u ==> ins[i'][j] == (0 < i' < i)
    {
      var j := 0;
      while j < u
        invariant 0 <= j <= u && Shaped(ins, n, u)
        invariant forall i', j' :: 0 <= i' < n && 0 <= j' < u ==> ins[i'][j'] == (0 < i' < i || (i' == i && j' < j))
      {
        ins := ins[i := ins[i][j := true]];
        j := j + 1;
      }
      i := i + 1;
    }
    assert forall i' :: 0 <= i' < n ==> ins[i'] == SeedOf(n, u)[i'];
  }

  /** The seed is one the solver accepts: one round never adds a bit to it. */
  lemma SeedAboveStep(preds: seq<seq<nat>>, gen: seq<Bits>, kill: seq<Bits>, n: nat, u: nat)
    requires PredsOk(preds, n) && Shaped(gen, n, u) && Shaped(kill, n, u)
    ensures Le(Step(preds, gen, kill, SeedOf(n, u), n, u), SeedOf(n, u), n, u)
  {
  }

  // ---------------------------------------------------------------------
  // Seeding and re-running the block propagator
  // ---------------------------------------------------------------------

  /** The symbols of both sides of every pair under the binding `vars`. */
  function SymPairs(vars: seq<Sym>, pairs: seq<Pair>): (r: seq<(Sym, Sym)>)
    requires forall j :: 0 <= j < |pairs| ==> pairs[j].lhs < |vars| && pairs[j].rhs < |vars|
    ensures |r| == |pairs|
  {
    seq(|pairs|, j requires 0 <= j < |pairs| => (vars[pairs[j].lhs], vars[pairs[j].rhs]))
  }

  /** The relation made available from the pairs whose bit is set, in order. */
  function SeedMap(copies: seq<(Sym, Sym)>, row: Bits): map<Sym, Sym>
    requires |row| == |copies|
  {
    if copies == [] then map[]
    else
      var m := SeedMap(copies[..|copies| - 1], row[..|row| - 1]);
      var c := copies[|copies| - 1];
      if row[|row| - 1] then m[c.0 := c.1] else m
  }

  predicate AnyBit(row: Bits) {
    exists j :: 0 <= j < |row| && row[j]
  }

  /** Every copy the seed makes available is one of the pairs with a set bit. */
  lemma {:induction false} SeedMapSound(copies: seq<(Sym, Sym)>, row: Bits, k: Sym)
    requires |row| == |copies| && k in SeedMap(copies, row)
    ensures exists j :: 0 <= j < |copies| && row[j] && copies[j] == (k, SeedMap(copies, row)[k])
  {
    var m := |copies| - 1;
    var c := copies[m];
    if !(row[m] && c.0 == k) {
      SeedMapSound(copies[..m], row[..m], k);
      var j :| 0 <= j < m && row[..m][j] && copies[..m][j] == (k, SeedMap(copies[..m], row[..m])[k]);
      assert row[j] && copies[j] == copies[..m][j];
    }
  }

  /** A set bit whose pair is not overridden by a later set pair for the same
      destination ends up in the seeded relation. */
  lemma {:induction false} SeedMapComplete(copies: seq<(Sym, Sym)>, row: Bits, j: nat)
    requires |row| == |copies| && j < |copies| && row[j]
    requires forall j' :: j < j' < |copies| && row[j'] ==> copies[j'].0 != copies[j].0
    ensures copies[j].0 in SeedMap(copies, row) && SeedMap(copies, row)[copies[j].0] == copies[j].1
  {
    var m := |copies| - 1;
    if j < m {
      SeedMapComplete(copies[..m], row[..m], j);
    }
  }

  /** Pairs of two different symbols seed a relation without a self-mapping. */
  lemma SeedMapNoSelfMap(copies: seq<(Sym, Sym)>, row: Bits)
    requires |row| == |copies| && forall j :: 0 <= j < |copies| ==> copies[j].0 != copies[j].1
    ensures NoSelfMap(SeedMap(copies, row))
  {
    forall k | k in SeedMap(copies, row)
      ensures SeedMap(copies, row)[k] != k
    {
      SeedMapSound(copies, row, k);
    }
  }

  /** The final loop over blocks `0..k`: a block is re-run, from the relation
      seeded by its IN bits, only if one of its IN bits is set.  The pairs'
      symbols are those recorded when the dense list was built. */
  function FinalPhase(fn: Fn, sets: OccSets, vars: seq<Sym>, copies: seq<(Sym, Sym)>, ins: seq<Bits>, k: nat): (r: seq<Sym>)
    requires WellFormed(fn) && |vars| == |fn.nodes| && Shaped(ins, |fn.blocks|, |copies|) && k <= |fn.blocks|
    ensures |r| == |vars|
  {
    if k == 0 then vars
    else
      var v := FinalPhase(fn, sets, vars, copies, ins, k - 1);
      if AnyBit(ins[k - 1]) then PropagateBlock(fn, sets, State(v, SeedMap(copies, ins[k - 1])), fn.blocks[k - 1]).vars
      else v
  }

  /** The same loop as the source writes it: each pair's symbols are read from
      its occurrences at the time the block is seeded, after the earlier
      blocks have been re-run and may have rebound them. */
  function FinalPhaseAsWritten(fn: Fn, sets: OccSets, vars: seq<Sym>, pairs: seq<Pair>, ins: seq<Bits>, k: nat): (r: seq<Sym>)
    requires WellFormed(fn) && |vars| == |fn.nodes| && Shaped(ins, |fn.blocks|, |pairs|) && k <= |fn.blocks|
    requires forall j :: 0 <= j < |pairs| ==> pairs[j].lhs < |vars| && pairs[j].rhs < |vars|
    ensures |r| == |vars|
  {
    if k == 0 then vars
    else
      var v := FinalPhaseAsWritten(fn, sets, vars, pairs, ins, k - 1);
      if AnyBit(ins[k - 1]) then PropagateBlock(fn, sets, State(v, SeedMap(SymPairs(v, pairs), ins[k - 1])), fn.blocks[k - 1]).vars
      else v
  }

  /** Every relation the final loop seeds is made of collected copy pairs,
      and holds no self-mapping, so the block propagator starts from a
      relation its own invariant allows. */
  lemma FinalSeedSound(vars: seq<Sym>, pairs: seq<Pair>, row: Bits, k: Sym)
    requires PairsOk(vars, pairs) && |row| == |pairs|
    ensures NoSelfMap(SeedMap(SymPairs(vars, pairs), row))
    ensures k in SeedMap(SymPairs(vars, pairs), row) ==>
      exists j :: 0 <= j < |pairs| && row[j] && vars[pairs[j].lhs] == k && vars[pairs[j].rhs] == SeedMap(SymPairs(vars, pairs), row)[k]
  {
    var copies := SymPairs(vars, pairs);
    SeedMapNoSelfMap(copies, row);
    if k in SeedMap(copies, row) {
      SeedMapSound(copies, row, k);
    }
  }

  /** Only re-run blocks rebind anything: an occurrence that belongs to no
      block with a set IN bit keeps its binding through the final loop. */
  lemma {:induction false} FinalPhaseSkipsEmptyIn(fn: Fn, sets: OccSets, vars: seq<Sym>, pairs: seq<Pair>, ins: seq<Bits>, k: nat, o: OccId)
    requires WellFormed(fn) && |vars| == |fn.nodes| && Shaped(ins, |fn.blocks|, |pairs|) && k <= |fn.blocks| && o < |vars|
    requires forall j :: 0 <= j < |pairs| ==> pairs[j].lhs < |vars| && pairs[j].rhs < |vars|
    requires forall i :: 0 <= i < k && AnyBit(ins[i]) ==> o !in OccsOf(fn, fn.blocks[i])
    ensures FinalPhaseAsWritten(fn, sets, vars, pairs, ins, k)[o] == vars[o]
  {
    if k != 0 {
      FinalPhaseSkipsEmptyIn(fn, sets, vars, pairs, ins, k - 1, o);
      var v := FinalPhaseAsWritten(fn, sets, vars, pairs, ins, k - 1);
      if AnyBit(ins[k - 1]) {
        PropagateBlockFrame(fn, sets, State(v, SeedMap(SymPairs(v, pairs), ins[k - 1])), fn.blocks[k - 1], o);
      }
    }
  }

  /** Without uses to rewrite, the final loop changes nothing, whatever the
      IN vectors. */
  lemma {:induction false} FinalPhaseNoUses(fn: Fn, sets: OccSets, vars: seq<Sym>, pairs: seq<Pair>, ins: seq<Bits>, k: nat)
    requires WellFormed(fn) && |vars| == |fn.nodes| && Shaped(ins, |fn.blocks|, |pairs|) && k <= |fn.blocks|
    requires forall j :: 0 <= j < |pairs| ==> pairs[j].lhs < |vars| && pairs[j].rhs < |vars|
    requires sets.useSet == {}
    ensures FinalPhaseAsWritten(fn, sets, vars, pairs, ins, k) == vars
    ensures FinalPhase(fn, sets, vars, SymPairs(vars, pairs), ins, k) == vars
  {
    if k != 0 {
      FinalPhaseNoUses(fn, sets, vars, pairs, ins, k - 1);
      var b := fn.blocks[k - 1];
      NoUsesKeepVars(fn, sets, State(vars, SeedMap(SymPairs(vars, pairs), ins[k - 1])), b);
    }
  }

  /** The re-run of a block seeded with the copies `copies` whose bit is set
      in `row`: a set pair that no later set pair overrides on the same
      destination rebinds an unflagged use of its destination in the block's
      first statement to its source, when no later statement of the block
      holds that use. */
  lemma SeededRunRewritesUse(fn: Fn, sets: OccSets, v: seq<Sym>, copies: seq<(Sym, Sym)>, row: Bits, block: seq<StmtId>, j: nat, o: OccId)
    requires WellFormed(fn) && |v| == |fn.nodes| && StmtsBelow(block, |fn.stmts|) && block != [] && o < |v|
    requires |row| == |copies| && j < |copies| && row[j]
    requires forall j' :: j < j' < |copies| && row[j'] ==> copies[j'].0 != copies[j].0
    requires o in fn.stmts[block[0]].occs && o !in OccsOf(fn, block[1..])
    requires o in sets.useSet && v[o] == copies[j].0 && !Invalidates(fn, sets, o, v[o])
    ensures PropagateBlock(fn, sets, State(v, SeedMap(copies, row)), block).vars[o] == copies[j].1
  {
    var s := State(v, SeedMap(copies, row));
    SeedMapComplete(copies, row, j);
    assert block == block[..1] + block[1..];
    PropagateBlockAppend(fn, sets, s, block[..1], block[1..]);
    assert block[..1][..0] == [];
    var s1 := PropagateBlock(fn, sets, s, block[..1]);
    RewriteUsesAt(fn, sets, s.fwd, v, fn.stmts[block[0]].occs, o);
    PropagateBlockFrame(fn, sets, s1, block[1..], o);
  }

  /** Conversely, when no set pair has the symbol of a use in the block's first
      statement as its destination, the re-run leaves that use alone. */
  lemma SeededRunKeepsUse(fn: Fn, sets: OccSets, v: seq<Sym>, copies: seq<(Sym, Sym)>, row: Bits, block: seq<StmtId>, o: OccId)
    requires WellFormed(fn) && |v| == |fn.nodes| && StmtsBelow(block, |fn.stmts|) && block != [] && o < |v|
    requires |row| == |copies|
    requires forall j :: 0 <= j < |copies| && row[j] ==> copies[j].0 != v[o]
    requires o in fn.stmts[block[0]].occs && o !in OccsOf(fn, block[1..])
    ensures PropagateBlock(fn, sets, State(v, SeedMap(copies, row)), block).vars[o] == v[o]
  {
    var s := State(v, SeedMap(copies, row));
    if v[o] in s.fwd {
      SeedMapSound(copies, row, v[o]);
    }
    assert block == block[..1] + block[1..];
    PropagateBlockAppend(fn, sets, s, block[..1], block[1..]);
    assert block[..1][..0] == [];
    var s1 := PropagateBlock(fn, sets, s, block[..1]);
    RewriteUsesAt(fn, sets, s.fwd, v, fn.stmts[block[0]].occs, o);
    PropagateBlockFrame(fn, sets, s1, block[1..], o);
  }

  /** The final loop as written, at block `b`: a pair whose IN bit is set
      reaches an unflagged use of its destination in the block's first
      statement, with the symbols its occurrences hold when `b` is reached. */
  lemma FinalPhaseRewritesAvailableUse(fn: Fn, sets: OccSets, vars: seq<Sym>, pairs: seq<Pair>, ins: seq<Bits>, b: nat, j: nat, o: OccId)
    requires WellFormed(fn) && |vars| == |fn.nodes| && Shaped(ins, |fn.blocks|, |pairs|) && b < |fn.blocks| && o < |vars|
    requires forall j :: 0 <= j < |pairs| ==> pairs[j].lhs < |vars| && pairs[j].rhs < |vars|
    requires fn.blocks[b] != [] && j < |pairs| && ins[b][j]
    requires var v := FinalPhaseAsWritten(fn, sets, vars, pairs, ins, b);
      && (forall j' :: j < j' < |pairs| && ins[b][j'] ==> v[pairs[j'].lhs] != v[pairs[j].lhs])
      && o in fn.stmts[fn.blocks[b][0]].occs && o !in OccsOf(fn, fn.blocks[b][1..])
      && o in sets.useSet && v[o] == v[pairs[j].lhs] && !Invalidates(fn, sets, o, v[o])
    ensures FinalPhaseAsWritten(fn, sets, vars, pairs, ins, b + 1)[o] ==
            FinalPhaseAsWritten(fn, sets, vars, pairs, ins, b)[pairs[j].rhs]
  {
    var v := FinalPhaseAsWritten(fn, sets, vars, pairs, ins, b);
    assert AnyBit(ins[b]);
    SeededRunRewritesUse(fn, sets, v, SymPairs(v, pairs), ins[b], fn.blocks[b], j, o);
  }

  /** The final loop as written, at block `b`: a use in the block's first
      statement is left alone when no pair with its symbol as destination has
      its IN bit set. */
  lemma FinalPhaseKeepsUnavailableUse(fn: Fn, sets: OccSets, vars: seq<Sym>, pairs: seq<Pair>, ins: seq<Bits>, b: nat, o: OccId)
    requires WellFormed(fn) && |vars| == |fn.nodes| && Shaped(ins, |fn.blocks|, |pairs|) && b < |fn.blocks| && o < |vars|
    requires forall j :: 0 <= j < |pairs| ==> pairs[j].lhs < |vars| && pairs[j].rhs < |vars|
    requires fn.blocks[b] != []
    requires var v := FinalPhaseAsWritten(fn, sets, vars, pairs, ins, b);
      && (forall j :: 0 <= j < |pairs| && ins[b][j] ==> v[pairs[j].lhs] != v[o])
      && o in fn.stmts[fn.blocks[b][0]].occs && o !in OccsOf(fn, fn.blocks[b][1..])
    ensures FinalPhaseAsWritten(fn, sets, vars, pairs, ins, b + 1)[o] == FinalPhaseAsWritten(fn, sets, vars, pairs, ins, b)[o]
  {
    var v := FinalPhaseAsWritten(fn, sets, vars, pairs, ins, b);
    if AnyBit(ins[b]) {
      SeededRunKeepsUse(fn, sets, v, SymPairs(v, pairs), ins[b], fn.blocks[b], o);
    }
  }

  /** The final loop: every block with a set IN bit is re-run, seeded from
      the pairs' occurrences as they read when the block is reached. */
  method FinalPropagation(fn: Fn, sets: OccSets, pairs: seq<Pair>, ins: seq<Bits>, vars: array<Sym>)
    requires WellFormed(fn) && vars.Length == |fn.nodes| && Shaped(ins, |fn.blocks|, |pairs|)
    requires forall j :: 0 <= j < |pairs| ==> pairs[j].lhs < vars.Length && pairs[j].rhs < vars.Length
    modifies vars
    ensures vars[..] == FinalPhaseAsWritten(fn, sets, old(vars[..]), pairs, ins, |fn.blocks|)
  {
    var i := 0;
    while i < |fn.blocks|
      invariant 0 <= i <= |fn.blocks|
      invariant vars[..] == FinalPhaseAsWritten(fn, sets, old(vars[..]), pairs, ins, i)
    {
      ghost var before := vars[..];
      ghost var copies := SymPairs(before, pairs);
      var avail := new AvailableCopies();
      var proceed := false;
      var j := 0;
      while j < |pairs|
        invariant 0 <= j <= |pairs| && avail.Valid() && fresh(avail) && vars[..] == before
        invariant avail.fwd == SeedMap(copies[..j], ins[i][..j])
        invariant proceed <==> exists j' :: 0 <= j' < j && ins[i][j']
      {
        if ins[i][j] {
          avail.MakeAvailable(vars[pairs[j].lhs], vars[pairs[j].rhs]);
          proceed := true;
        }
        assert copies[..j + 1][..j] == copies[..j] && ins[i][..j + 1][..j] == ins[i][..j];
        j := j + 1;
      }
      assert copies[..j] == copies && ins[i][..j] == ins[i];
      assert proceed == AnyBit(ins[i]);
      if proceed {
        LocalCopyPropagationCore(fn, sets, fn.blocks[i], avail, vars);
        assert vars[..] == PropagateBlock(fn, sets, State(before, SeedMap(copies, ins[i])), fn.blocks[i]).vars;
      }
      i := i + 1;
    }
  }

  // ---------------------------------------------------------------------
  // The whole pass
  // ---------------------------------------------------------------------

  /** What the global pass computes before its final loop: the def and use
      sets, the dense pairs, COPY, KILL and the solved IN vectors. */
  datatype Analysis = Analysis(sets: OccSets, pairs: seq<Pair>, gen: seq<Bits>, kill: seq<Bits>, ins: seq<Bits>)

  /** The dense pairs of the function and each block's dense end. */
  function DensePairs(fn: Fn, sets: OccSets, vars: seq<Sym>): (r: (seq<Pair>, seq<nat>))
    requires WellFormed(fn) && |vars| == |fn.nodes| && fn.blocks != []
    ensures PairsOk(vars, r.0) && |r.1| == |fn.blocks| && EndsOk(r.1, |r.0|)
  {
    var sparse := SparseAll(fn, sets, vars, fn.blocks);
    CompactOk(vars, sparse.pairs);
    DenseEndsOk(sparse.pairs, sparse.ends);
    (Compact(sparse.pairs), DenseEnds(sparse.pairs, sparse.ends))
  }

  function Analyze(fn: Fn, vars: seq<Sym>): (a: Analysis)
    requires WellFormed(fn) && |vars| == |fn.nodes| && fn.blocks != []
    ensures var n, u := |fn.blocks|, |a.pairs|;
      && PairsOk(vars, a.pairs) && Shaped(a.gen, n, u) && Shaped(a.kill, n, u) && Shaped(a.ins, n, u)
      && (forall j :: 0 <= j < u ==> !a.ins[0][j])
      && (forall i, j :: 0 < i < n && fn.preds[i] == [] && 0 <= j < u ==> a.ins[i][j])
      && (forall i :: 0 < i < n && fn.preds[i] != [] ==> a.ins[i] == Meet(fn.preds[i], Outs(a.gen, a.kill, a.ins, n, u), u))
  {
    var n := |fn.blocks|;
    var sets := EntrySets(fn, vars);
    var dense := DensePairs(fn, sets, vars);
    var pairs, ns := dense.0, dense.1;
    var u := |pairs|;
    var gen, kill := GenOf(ns, u), KillOf(fn, sets, vars, pairs, ns);
    assert PredsOk(fn.preds, n);
    var seed := SeedOf(n, u);
    SeedAboveStep(fn.preds, gen, kill, n, u);
    var ins := ForwardFlow(fn.preds, gen, kill, seed, n, u);
    assert ins[0] == seed[0];
    assert forall i :: 0 < i < n && fn.preds[i] == [] ==> ins[i] == seed[i];
    Analysis(sets, pairs, gen, kill, ins)
  }

  /** What the global pass does to the arena, as the source writes it: the
      final loop reads the pairs' symbols when it reaches each block. */
  function GlobalPass(fn: Fn, vars: seq<Sym>): (r: seq<Sym>)
    requires WellFormed(fn) && |vars| == |fn.nodes|
    ensures |r| == |vars|
  {
    if |fn.blocks| <= 1 then vars
    else
      var a := Analyze(fn, vars);
      FinalPhaseAsWritten(fn, a.sets, vars, a.pairs, a.ins, |fn.blocks|)
  }

  /** The global pass as intended: the final loop seeds every block from the
      pairs' symbols as they were collected. */
  function GlobalPassRecorded(fn: Fn, vars: seq<Sym>): (r: seq<Sym>)
    requires WellFormed(fn) && |vars| == |fn.nodes|
    ensures |r| == |vars|
  {
    if |fn.blocks| <= 1 then vars
    else
      var a := Analyze(fn, vars);
      FinalPhase(fn, a.sets, vars, SymPairs(vars, a.pairs), a.ins, |fn.blocks|)
  }

  /** A function that declares no candidate variable is left unchanged by the
      global pass, in both forms. */
  lemma GlobalPassWithoutCandidates(fn: Fn, vars: seq<Sym>)
    requires WellFormed(fn) && |vars| == |fn.nodes| && LocalsOf(fn, fn.blocks) == []
    ensures GlobalPass(fn, vars) == vars && GlobalPassRecorded(fn, vars) == vars
  {
    if |fn.blocks| > 1 {
      var a := Analyze(fn, vars);
      assert a.sets.useSet == {};
      FinalPhaseNoUses(fn, a.sets, vars, a.pairs, a.ins, |fn.blocks|);
    }
  }

  /** The meet: a pair that is not available at the exit of one predecessor
      of block `b` is not available at `b`'s entry. */
  lemma GlobalInClearedByMeet(fn: Fn, vars: seq<Sym>, b: nat, p: nat, j: nat)
    requires WellFormed(fn) && |vars| == |fn.nodes| && 0 < b < |fn.blocks|
    requires var a := Analyze(fn, vars);
      && p in fn.preds[b] && j < |a.pairs|
      && !Transfer(a.gen[p], a.kill[p], a.ins[p])[j]
    ensures !Analyze(fn, vars).ins[b][j]
  {
    var a := Analyze(fn, vars);
    var n, u := |fn.blocks|, |a.pairs|;
    var k :| 0 <= k < |fn.preds[b]| && fn.preds[b][k] == p;
    assert Outs(a.gen, a.kill, a.ins, n, u)[p] == Transfer(a.gen[p], a.kill[p], a.ins[p]);
  }

  /** The global pass at block `b`: a use in the first statement of `b` is
      left alone when one predecessor of `b` passes on no pair that has the
      use's symbol as destination. */
  lemma GlobalPassKeepsUseKilledOnOnePath(fn: Fn, vars: seq<Sym>, b: nat, p: nat, o: OccId)
    requires WellFormed(fn) && |vars| == |fn.nodes| && 1 < |fn.blocks| && 0 < b < |fn.blocks| && o < |vars|
    requires fn.blocks[b] != [] && o in fn.stmts[fn.blocks[b][0]].occs && o !in OccsOf(fn, fn.blocks[b][1..])
    requires var a := Analyze(fn, vars);
      var v := FinalPhaseAsWritten(fn, a.sets, vars, a.pairs, a.ins, b);
      && p in fn.preds[b]
      && forall j :: 0 <= j < |a.pairs| && v[a.pairs[j].lhs] == v[o] ==> !Transfer(a.gen[p], a.kill[p], a.ins[p])[j]
    ensures var a := Analyze(fn, vars);
      FinalPhaseAsWritten(fn, a.sets, vars, a.pairs, a.ins, b + 1)[o] == FinalPhaseAsWritten(fn, a.sets, vars, a.pairs, a.ins, b)[o]
  {
    var a := Analyze(fn, vars);
    var v := FinalPhaseAsWritten(fn, a.sets, vars, a.pairs, a.ins, b);
    forall j | 0 <= j < |a.pairs| && v[a.pairs[j].lhs] == v[o]
      ensures !a.ins[b][j]
    {
      GlobalInClearedByMeet(fn, vars, b, p, j);
    }
    FinalPhaseKeepsUnavailableUse(fn, a.sets, vars, a.pairs, a.ins, b, o);
  }

  /** The kill loops of one statement. */
  method KillPairsOf(fn: Fn, sets: OccSets, vars: seq<Sym>, sp: seq<Option<Pair>>, start: nat, occs: seq<OccId>)
    returns (r: seq<Option<Pair>>)
    requires |vars| == |fn.nodes| && OccsBelow(occs, |vars|) && SparseOk(vars, sp)
    ensures r == KillPairs(fn, sets, vars, sp, start, occs)
  {
    r := sp;
    var k := 0;
    while k < |occs|
      invariant 0 <= k <= |occs|
      invariant r == KillPairs(fn, sets, vars, sp, start, occs[..k])
    {
      var o := occs[k];
      if Invalidates(fn, sets, o, vars[o]) {
        r := ClearPairsOf(vars, r, start, vars[o]);
      }
      assert occs[..k + 1][..k] == occs[..k];
      k := k + 1;
    }
    assert occs[..k] == occs;
  }

  /** The sparse phase on one block: kill, then insert, statement by statement. */
  method CollectBlockPairs(fn: Fn, sets: OccSets, vars: seq<Sym>, sp: seq<Option<Pair>>, start: nat, block: seq<StmtId>)
    returns (r: seq<Option<Pair>>)
    requires WellFormed(fn) && |vars| == |fn.nodes| && StmtsBelow(block, |fn.stmts|) && SparseOk(vars, sp)
    ensures r == SparseBlock(fn, sets, vars, sp, start, block)
  {
    r := sp;
    var t := 0;
    while t < |block|
      invariant 0 <= t <= |block|
      invariant r == SparseBlock(fn, sets, vars, sp, start, block[..t])
    {
      var st := fn.stmts[block[t]];
      assert StmtWellFormed(st, |fn.nodes|);
      // invalidate available copies based on defs
      r := KillPairsOf(fn, sets, vars, r, start, st.occs);
      // insert the pair of a copy
      if st.kind.MoveKind? && st.kind.lhs.SymArg? && st.kind.rhs.SymArg? {
        var lhs, rhs := st.kind.lhs.occ, st.kind.rhs.occ;
        if vars[lhs] != vars[rhs] && lhs in sets.defSet &&
           (rhs in sets.useSet || Info(fn, vars[rhs]).isConstant || Info(fn, vars[rhs]).isImmediate) {
          r := r + [Some(Pair(lhs, rhs))];
        }
      }
      assert block[..t + 1][..t] == block[..t];
      t := t + 1;
    }
    assert block[..t] == block;
  }

  /** The sparse phase over all blocks, recording each block's end. */
  method CollectSparsePairs(fn: Fn, sets: OccSets, vars: seq<Sym>) returns (sparse: Sparse)
    requires WellFormed(fn) && |vars| == |fn.nodes|
    ensures sparse == SparseAll(fn, sets, vars, fn.blocks)
  {
    var sp: seq<Option<Pair>> := [];
    var ends: seq<nat> := [];
    var start := 0;
    var b := 0;
    while b < |fn.blocks|
      invariant 0 <= b <= |fn.blocks| && start == |sp|
      invariant Sparse(sp, ends) == SparseAll(fn, sets, vars, fn.blocks[..b])
    {
      sp := CollectBlockPairs(fn, sets, vars, sp, start, fn.blocks[b]);
      ends := ends + [|sp|];
      start := |sp|;
      assert fn.blocks[..b + 1][..b] == fn.blocks[..b];
      b := b + 1;
    }
    assert fn.blocks[..b] == fn.blocks;
    sparse := Sparse(sp, ends);
  }

  /** The kill loop over the current block's part of the sparse list. */
  method ClearPairsOf(vars: seq<Sym>, sp: seq<Option<Pair>>, start: nat, s: Sym) returns (r: seq<Option<Pair>>)
    requires SparseOk(vars, sp)
    ensures r == ClearPairs(vars, sp, start, s)
  {
    r := sp;
    var i := start;
    while i < |r|
      invariant |r| == |sp| && start <= i
      invariant forall i' :: 0 <= i' < |r| ==>
        r[i'] == if start <= i' < i && sp[i'].Some? && Mentions(vars, sp[i'].value, s) then None else sp[i']
    {
      if r[i].Some? && Mentions(vars, r[i].value, s) {
        r := r[i := None];
      }
      i := i + 1;
    }
  }

  /** `globalCopyPropagation`. */
  method GlobalCopyPropagation(fn: Fn, vars: array<Sym>)
    requires WellFormed(fn) && vars.Length == |fn.nodes|
    modifies vars
    ensures vars[..] == GlobalPass(fn, old(vars[..]))
    ensures |fn.blocks| <= 1 ==> vars[..] == old(vars[..])
  {
    if |fn.blocks| <= 1 {
      return;
    }
    var n := |fn.blocks|;
    var locals := CollectLocals(fn);
    var sets := BuildOccSets(fn, vars[..], locals);
    assert sets == EntrySets(fn, vars[..]);
    var sparse := CollectSparsePairs(fn, sets, vars[..]);
    var pairs, ns := Densify(sparse.pairs, sparse.ends);
    CompactOk(vars[..], sparse.pairs);
    DenseEndsOk(sparse.pairs, sparse.ends);
    var u := |pairs|;
    var gen := BuildCopy(ns, u);
    var kill := BuildKill(fn, sets, vars[..], pairs, ns);
    var seed := InitIn(n, u);
    SeedAboveStep(fn.preds, gen, kill, n, u);
    var ins := ForwardFlow(fn.preds, gen, kill, seed, n, u);
    assert Analyze(fn, vars[..]) == Analysis(sets, pairs, gen, kill, ins);
    FinalPropagation(fn, sets, pairs, ins, vars);
  }
}
