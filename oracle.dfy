/**
  The two pure queries of the copy-propagation pass: which local variables are
  candidates, and whether one occurrence must invalidate the available copies
  of its symbol.  Also the candidate-collection loop shared by the local and
  the global pass, and the def/use occurrence sets built from it.
*/
module CopyOracle {
  import opened IR

  /** A variable can take part in copy propagation: it is not the return-value
      symbol, its type has a reference type, and it is not concurrent. */
  predicate IsCandidate(fn: Fn, v: Sym) {
    && v != fn.retSym
    && Info(fn, v).hasRefType
    && !Info(fn, v).isConcurrent
  }

  /** The def set and the use set: the occurrences that define or use a candidate. */
  datatype OccSets = OccSets(defSet: set<OccId>, useSet: set<OccId>)

  /** A use in one of these parent contexts may let its value be changed behind
      the pass's back: a reference is taken, a record's member is read or
      written, or a complex number's part is read. */
  predicate ExposingContext(p: Parent, info: SymInfo) {
    && p.PrimCall?
    && (|| p.prim == SetRef
        || (info.isRecord && (p.prim == GetMember || (p.prim == SetMember && p.argPos == 1)))
        || (info.isComplex && (p.prim == GetReal || p.prim == GetImag)))
  }

  /** Must occurrence `o`, which currently refers to `v`, kill the copies of `v`? */
  function Invalidates(fn: Fn, sets: OccSets, o: OccId, v: Sym): (r: bool)
    requires o < |fn.nodes|
    ensures o in sets.defSet ==> r
    ensures o !in sets.defSet && o !in sets.useSet ==> !r
    ensures o !in sets.defSet && o in sets.useSet ==> (r <==> ExposingContext(fn.nodes[o].parent, Info(fn, v)))
  {
    if o in sets.defSet then true
    else if o in sets.useSet then
      match fn.nodes[o].parent
      case PrimCall(prim, pos) =>
        if prim == SetRef then true
        else if Info(fn, v).isRecord && (prim == GetMember || (prim == SetMember && pos == 1)) then true
        else Info(fn, v).isComplex && (prim == GetReal || prim == GetImag)
      case _ => false
    else false
  }

  /** Statement `st` is a `move` whose two sides are plain occurrences of two
      different symbols, the left one a def of a candidate and the right one a
      use of a candidate, a constant or an immediate: a copy. */
  predicate IsCopy(fn: Fn, sets: OccSets, vars: seq<Sym>, st: Stmt)
    requires StmtWellFormed(st, |vars|)
  {
    && st.kind.MoveKind?
    && st.kind.lhs.SymArg?
    && st.kind.rhs.SymArg?
    && var l, r := st.kind.lhs.occ, st.kind.rhs.occ;
    && vars[l] != vars[r]
    && l in sets.defSet
    && (r in sets.useSet || Info(fn, vars[r]).isConstant || Info(fn, vars[r]).isImmediate)
  }

  /** Statement `st` declares a candidate variable. */
  predicate DeclaresCandidate(fn: Fn, st: Stmt) {
    st.kind.DefKind? && Info(fn, st.kind.sym).isVar && IsCandidate(fn, st.kind.sym)
  }

  /** The candidates declared in a sequence of statements, in order. */
  function LocalsIn(fn: Fn, ss: seq<StmtId>): seq<Sym>
    requires forall t :: 0 <= t < |ss| ==> ss[t] < |fn.stmts|
  {
    if ss == [] then []
    else
      var st := fn.stmts[ss[|ss| - 1]];
      LocalsIn(fn, ss[..|ss| - 1]) + if DeclaresCandidate(fn, st) then [st.kind.sym] else []
  }

  /** The candidates declared in a sequence of blocks, block by block. */
  function LocalsOf(fn: Fn, bs: seq<seq<StmtId>>): seq<Sym>
    requires forall b, t :: 0 <= b < |bs| && 0 <= t < |bs[b]| ==> bs[b][t] < |fn.stmts|
  {
    if bs == [] then [] else LocalsOf(fn, bs[..|bs| - 1]) + LocalsIn(fn, bs[|bs| - 1])
  }

  lemma {:induction false} LocalsInMembers(fn: Fn, ss: seq<StmtId>, v: Sym)
    requires forall t :: 0 <= t < |ss| ==> ss[t] < |fn.stmts|
    ensures v in LocalsIn(fn, ss) <==>
      exists t :: 0 <= t < |ss| && DeclaresCandidate(fn, fn.stmts[ss[t]]) && fn.stmts[ss[t]].kind.sym == v
  {
    if ss != [] {
      var last := |ss| - 1;
      LocalsInMembers(fn, ss[..last], v);
      if v in LocalsIn(fn, ss[..last]) {
        var t :| 0 <= t < last && DeclaresCandidate(fn, fn.stmts[ss[..last][t]]) && fn.stmts[ss[..last][t]].kind.sym == v;
        assert ss[..last][t] == ss[t];
      }
      if exists t :: 0 <= t < |ss| && DeclaresCandidate(fn, fn.stmts[ss[t]]) && fn.stmts[ss[t]].kind.sym == v {
        var t :| 0 <= t < |ss| && DeclaresCandidate(fn, fn.stmts[ss[t]]) && fn.stmts[ss[t]].kind.sym == v;
        if t < last {
          assert ss[..last][t] == ss[t];
        }
      }
    }
  }

  /** The candidates of `a + b` are those of `a`, then those of `b`. */
  lemma {:induction false} LocalsInAppend(fn: Fn, a: seq<StmtId>, b: seq<StmtId>)
    requires forall t :: 0 <= t < |a| ==> a[t] < |fn.stmts|
    requires forall t :: 0 <= t < |b| ==> b[t] < |fn.stmts|
    ensures forall t :: 0 <= t < |a + b| ==> (a + b)[t] < |fn.stmts|
    ensures LocalsIn(fn, a + b) == LocalsIn(fn, a) + LocalsIn(fn, b)
  {
    if b == [] {
      assert a + b == a;
    } else {
      assert (a + b)[..|a + b| - 1] == a + b[..|b| - 1];
      LocalsInAppend(fn, a, b[..|b| - 1]);
    }
  }

  /** Statements that declare nothing contribute no candidate. */
  lemma {:induction false} LocalsInNoDecls(fn: Fn, ss: seq<StmtId>)
    requires forall t :: 0 <= t < |ss| ==> ss[t] < |fn.stmts| && !fn.stmts[ss[t]].kind.DefKind?
    ensures LocalsIn(fn, ss) == []
  {
    if ss != [] {
      LocalsInNoDecls(fn, ss[..|ss| - 1]);
    }
  }

  /** A symbol is collected exactly when some block declares it as a candidate variable. */
  lemma {:induction false} LocalsOfMembers(fn: Fn, bs: seq<seq<StmtId>>, v: Sym)
    requires forall b, t :: 0 <= b < |bs| && 0 <= t < |bs[b]| ==> bs[b][t] < |fn.stmts|
    ensures v in LocalsOf(fn, bs) <==>
      exists b, t :: 0 <= b < |bs| && 0 <= t < |bs[b]| &&
        DeclaresCandidate(fn, fn.stmts[bs[b][t]]) && fn.stmts[bs[b][t]].kind.sym == v
  {
    if bs != [] {
      var last := |bs| - 1;
      LocalsOfMembers(fn, bs[..last], v);
      LocalsInMembers(fn, bs[last], v);
      if v in LocalsOf(fn, bs[..last]) {
        var b, t :| 0 <= b < last && 0 <= t < |bs[..last][b]| &&
          DeclaresCandidate(fn, fn.stmts[bs[..last][b][t]]) && fn.stmts[bs[..last][b][t]].kind.sym == v;
        assert bs[..last][b] == bs[b];
      }
      if exists b, t :: 0 <= b < |bs| && 0 <= t < |bs[b]| &&
          DeclaresCandidate(fn, fn.stmts[bs[b][t]]) && fn.stmts[bs[b][t]].kind.sym == v {
        var b, t :| 0 <= b < |bs| && 0 <= t < |bs[b]| &&
          DeclaresCandidate(fn, fn.stmts[bs[b][t]]) && fn.stmts[bs[b][t]].kind.sym == v;
        if b < last {
          assert bs[..last][b] == bs[b];
        }
      }
    }
  }

  /** The loop over the blocks' statements that collects the candidate locals. */
  method CollectLocals(fn: Fn) returns (locals: seq<Sym>)
    requires WellFormed(fn)
    ensures locals == LocalsOf(fn, fn.blocks)
    ensures forall v :: v in locals ==> IsCandidate(fn, v)
  {
    locals := [];
    var b := 0;
    while b < |fn.blocks|
      invariant 0 <= b <= |fn.blocks|
      invariant locals == LocalsOf(fn, fn.blocks[..b])
    {
      var block := fn.blocks[b];
      var t := 0;
      while t < |block|
        invariant 0 <= t <= |block|
        invariant locals == LocalsOf(fn, fn.blocks[..b]) + LocalsIn(fn, block[..t])
      {
        var st := fn.stmts[block[t]];
        if st.kind.DefKind? && Info(fn, st.kind.sym).isVar && IsCandidate(fn, st.kind.sym) {
          locals := locals + [st.kind.sym];
        }
        assert block[..t + 1][..t] == block[..t];
        t := t + 1;
      }
      assert block[..t] == block;
      assert fn.blocks[..b + 1][..b] == fn.blocks[..b];
      b := b + 1;
    }
    assert fn.blocks[..b] == fn.blocks;
    forall v | v in locals ensures IsCandidate(fn, v) {
      LocalsOfMembers(fn, fn.blocks, v);
    }
  }

  /** What the use/def analysis yields for the candidates `locals`: every
      occurrence classified as a def (use) whose symbol is a candidate. */
  function OccSetsOf(fn: Fn, vars: seq<Sym>, locals: set<Sym>): OccSets
    requires |vars| == |fn.nodes|
  {
    OccSets((set o | 0 <= o < |vars| && fn.nodes[o].role == DefRole && vars[o] in locals),
            (set o | 0 <= o < |vars| && fn.nodes[o].role == UseRole && vars[o] in locals))
  }

  /** The loop over the candidates that gathers their defs and uses into the two sets. */
  method BuildOccSets(fn: Fn, vars: seq<Sym>, locals: seq<Sym>) returns (sets: OccSets)
    requires |vars| == |fn.nodes|
    ensures sets == OccSetsOf(fn, vars, set v | v in locals)
    ensures forall o :: o in sets.defSet ==> o < |vars| && fn.nodes[o].role == DefRole
    ensures forall o :: o in sets.useSet ==> o < |vars| && fn.nodes[o].role == UseRole
  {
    var defSet: set<OccId> := {};
    var useSet: set<OccId> := {};
    var i := 0;
    while i < |locals|
      invariant 0 <= i <= |locals|
      invariant defSet == (set o | 0 <= o < |vars| && fn.nodes[o].role == DefRole && vars[o] in locals[..i])
      invariant useSet == (set o | 0 <= o < |vars| && fn.nodes[o].role == UseRole && vars[o] in locals[..i])
    {
      var local := locals[i];
      var o := 0;
      while o < |vars|
        invariant 0 <= o <= |vars|
        invariant defSet == (set o' | 0 <= o' < |vars| && fn.nodes[o'].role == DefRole && vars[o'] in locals[..i])
                          + (set o' | 0 <= o' < o && fn.nodes[o'].role == DefRole && vars[o'] == local)
        invariant useSet == (set o' | 0 <= o' < |vars| && fn.nodes[o'].role == UseRole && vars[o'] in locals[..i])
                          + (set o' | 0 <= o' < o && fn.nodes[o'].role == UseRole && vars[o'] == local)
      {
        if vars[o] == local && fn.nodes[o].role == DefRole {
          defSet := defSet + {o};
        }
        if vars[o] == local && fn.nodes[o].role == UseRole {
          useSet := useSet + {o};
        }
        o := o + 1;
      }
      assert locals[..i + 1] == locals[..i] + [local];
      i := i + 1;
    }
    assert locals[..i] == locals;
    sets := OccSets(defSet, useSet);
  }
}
