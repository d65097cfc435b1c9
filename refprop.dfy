/**
  Single-assignment reference propagation (`findRefDef`,
  `singleAssignmentRefPropagation`).  A reference-typed variable with exactly
  one defining `move` whose source has reference type is either folded into
  its source, when that source is another reference variable (phase 1), or,
  when the source takes an address or a member, rewritten out of every use
  and def it can be, and removed entirely when every one of them was
  rewritten (phase 2).
*/
module RefProp {
  import opened IR
  import opened Wrappers

  /** The type of a move's right-hand side is a reference type. */
  predicate ArgIsRef(fn: Fn, vars: seq<Sym>, a: Arg) {
    match a
    case SymArg(o) => o < |vars| && Info(fn, vars[o]).isReference
    case CallArg(_, isRef) => isRef
  }

  /** The parent of occurrence `o` is a `move` whose source has reference type. */
  predicate IsRefMoveDef(fn: Fn, vars: seq<Sym>, o: OccId)
    requires WellFormed(fn) && o < |fn.nodes|
  {
    && fn.nodes[o].parent.PrimCall?
    && fn.nodes[o].parent.prim == Move
    && fn.stmts[fn.nodes[o].stmt].kind.MoveKind?
    && ArgIsRef(fn, vars, fn.stmts[fn.nodes[o].stmt].kind.rhs)
  }

  /** The occurrences of `v` among the first `n` with role `role`, in arena order. */
  function OccsWith(fn: Fn, vars: seq<Sym>, v: Sym, role: Role, n: nat): (r: seq<OccId>)
    requires n <= |vars| == |fn.nodes|
    ensures forall k :: 0 <= k < |r| ==> r[k] < n && vars[r[k]] == v && fn.nodes[r[k]].role == role
    ensures forall o :: 0 <= o < n && vars[o] == v && fn.nodes[o].role == role ==> o in r
    ensures forall k, k' :: 0 <= k < k' < |r| ==> r[k] < r[k']
  {
    if n == 0 then []
    else OccsWith(fn, vars, v, role, n - 1) + if vars[n - 1] == v && fn.nodes[n - 1].role == role then [n - 1] else []
  }

  /** `var->defs` and `var->uses` as the use/def computation records them. */
  function DefsOf(fn: Fn, vars: seq<Sym>, v: Sym): seq<OccId>
    requires |vars| == |fn.nodes|
  {
    OccsWith(fn, vars, v, DefRole, |vars|)
  }

  function UsesOf(fn: Fn, vars: seq<Sym>, v: Sym): seq<OccId>
    requires |vars| == |fn.nodes|
  {
    OccsWith(fn, vars, v, UseRole, |vars|)
  }

  /** The defs among `defs` whose parent is a move of a reference-typed value. */
  function RefMoves(fn: Fn, vars: seq<Sym>, defs: seq<OccId>): (r: seq<OccId>)
    requires WellFormed(fn) && forall k :: 0 <= k < |defs| ==> defs[k] < |fn.nodes|
    ensures forall k :: 0 <= k < |r| ==> r[k] < |fn.nodes| && IsRefMoveDef(fn, vars, r[k])
  {
    if defs == [] then []
    else (if IsRefMoveDef(fn, vars, defs[0]) then [defs[0]] else []) + RefMoves(fn, vars, defs[1..])
  }

  /** The scan of `findRefDef`, with the move found so far. */
  function FindFrom(fn: Fn, vars: seq<Sym>, defs: seq<OccId>, ret: Option<StmtId>): Option<StmtId>
    requires WellFormed(fn) && forall k :: 0 <= k < |defs| ==> defs[k] < |fn.nodes|
  {
    if defs == [] then ret
    else if IsRefMoveDef(fn, vars, defs[0]) then
      if ret.Some? then None else FindFrom(fn, vars, defs[1..], Some(fn.nodes[defs[0]].stmt))
    else FindFrom(fn, vars, defs[1..], ret)
  }

  lemma {:induction false} FindFromCounts(fn: Fn, vars: seq<Sym>, defs: seq<OccId>, ret: Option<StmtId>)
    requires WellFormed(fn) && forall k :: 0 <= k < |defs| ==> defs[k] < |fn.nodes|
    ensures var rm := RefMoves(fn, vars, defs);
      FindFrom(fn, vars, defs, ret) ==
        if |rm| == 0 then ret
        else if |rm| == 1 && ret.None? then Some(fn.nodes[rm[0]].stmt)
        else None
  {
    if defs != [] {
      if IsRefMoveDef(fn, vars, defs[0]) {
        if ret.None? {
          FindFromCounts(fn, vars, defs[1..], Some(fn.nodes[defs[0]].stmt));
        }
      } else {
        FindFromCounts(fn, vars, defs[1..], ret);
      }
      if IsRefMoveDef(fn, vars, defs[0]) && ret.Some? {
        assert |RefMoves(fn, vars, defs)| >= 1;
      }
    }
  }

  /** `findRefDef`: the single move defining `v` from a reference-typed value,
      if there is exactly one. */
  function FindRefDef(fn: Fn, vars: seq<Sym>, v: Sym): (r: Option<StmtId>)
    requires WellFormed(fn) && |vars| == |fn.nodes|
    ensures var rm := RefMoves(fn, vars, DefsOf(fn, vars, v));
      && (r.Some? <==> |rm| == 1)
      && (r.Some? ==> r.value == fn.nodes[rm[0]].stmt)
  {
    FindFromCounts(fn, vars, DefsOf(fn, vars, v), None);
    FindFrom(fn, vars, DefsOf(fn, vars, v), None)
  }

  /** The move found defines `v`: the statement is a move of a reference-typed value. */
  lemma FindRefDefIsMove(fn: Fn, vars: seq<Sym>, v: Sym)
    requires WellFormed(fn) && |vars| == |fn.nodes| && FindRefDef(fn, vars, v).Some?
    ensures var m := FindRefDef(fn, vars, v).value;
      m < |fn.stmts| && fn.stmts[m].kind.MoveKind? && ArgIsRef(fn, vars, fn.stmts[m].kind.rhs)
  {
    var rm := RefMoves(fn, vars, DefsOf(fn, vars, v));
    assert IsRefMoveDef(fn, vars, rm[0]);
  }

  /** The parent of occurrence `o` is the defining move `m` itself. */
  predicate IsTheMove(fn: Fn, o: OccId, m: StmtId)
    requires o < |fn.nodes|
  {
    fn.nodes[o].parent.PrimCall? && fn.nodes[o].parent.prim == Move && fn.nodes[o].stmt == m
  }

  predicate HasCallParent(p: Parent) {
    p.PlainCall? || p.PrimCall?
  }

  // ---------------------------------------------------------------------
  // Phase 1: folding a reference into the reference it copies
  // ---------------------------------------------------------------------

  /** Occurrence `o` of `v` is replaced by a copy of the source: a use still
      in the tree, or a def under a call other than the defining move. */
  predicate Folded(fn: Fn, vars: seq<Sym>, v: Sym, m: StmtId, o: OccId)
    requires o < |vars| == |fn.nodes|
  {
    && vars[o] == v
    && (|| (fn.nodes[o].role == UseRole && fn.nodes[o].parent != NoParent)
        || (fn.nodes[o].role == DefRole && HasCallParent(fn.nodes[o].parent) && !IsTheMove(fn, o, m)))
  }

  /** A variable (not an argument or other symbol) of reference type. */
  predicate IsRefVar(fn: Fn, v: Sym) {
    Info(fn, v).isVar && Info(fn, v).isReference
  }

  /** The source symbol to fold `v` into, when phase 1 applies to it. */
  function AliasTarget(fn: Fn, vars: seq<Sym>, v: Sym): (r: Option<(StmtId, Sym)>)
    requires WellFormed(fn) && |vars| == |fn.nodes|
    ensures r.Some? ==> FindRefDef(fn, vars, v) == Some(r.value.0)
  {
    if !IsRefVar(fn, v) then None
    else match FindRefDef(fn, vars, v)
      case None => None
      case Some(m) =>
        FindRefDefIsMove(fn, vars, v);
        match fn.stmts[m].kind.rhs
        case SymArg(r) => if Info(fn, vars[r]).isReference then Some((m, vars[r])) else None
        case CallArg(_, _) => None
  }

  /** Phase 1 on one variable. */
  function FoldVar(fn: Fn, vars: seq<Sym>, v: Sym): (r: seq<Sym>)
    requires WellFormed(fn) && |vars| == |fn.nodes|
    ensures |r| == |vars|
  {
    match AliasTarget(fn, vars, v)
    case None => vars
    case Some((m, t)) => seq(|vars|, o requires 0 <= o < |vars| => if Folded(fn, vars, v, m, o) then t else vars[o])
  }

  /** Once `v` is folded into a different symbol, no use of `v` is left in
      the tree and no def of `v` is left except under the defining move or
      outside any call; every other occurrence keeps its symbol. */
  lemma FoldVarLeavesOnlyTheMove(fn: Fn, vars: seq<Sym>, v: Sym, o: OccId)
    requires WellFormed(fn) && |vars| == |fn.nodes| && o < |vars|
    requires AliasTarget(fn, vars, v).Some? && AliasTarget(fn, vars, v).value.1 != v
    ensures var r := FoldVar(fn, vars, v);
      && (vars[o] != v ==> r[o] == vars[o])
      && (r[o] == v ==> fn.nodes[o].role == Untracked || (fn.nodes[o].role == UseRole && fn.nodes[o].parent == NoParent)
                        || (fn.nodes[o].role == DefRole && (!HasCallParent(fn.nodes[o].parent) || IsTheMove(fn, o, AliasTarget(fn, vars, v).value.0))))
  {
  }

  /** The declared variables, in statement order. */
  function DeclaredVars(fn: Fn, n: nat): seq<Sym>
    requires n <= |fn.stmts|
  {
    if n == 0 then []
    else DeclaredVars(fn, n - 1) + if fn.stmts[n - 1].kind.DefKind? then [fn.stmts[n - 1].kind.sym] else []
  }

  /** Phase 1 over the variables `decls`, in order; each sees the folds before it. */
  function AliasFold(fn: Fn, vars: seq<Sym>, decls: seq<Sym>): (r: seq<Sym>)
    requires WellFormed(fn) && |vars| == |fn.nodes|
    ensures |r| == |vars|
  {
    if decls == [] then vars
    else FoldVar(fn, AliasFold(fn, vars, decls[..|decls| - 1]), decls[|decls| - 1])
  }

  /** Rebinds to `t` the uses in `uses` that are still in the tree. */
  method RebindUses(fn: Fn, uses: seq<OccId>, t: Sym, vars: array<Sym>)
    requires vars.Length == |fn.nodes| && forall k :: 0 <= k < |uses| ==> uses[k] < vars.Length
    modifies vars
    ensures forall o :: 0 <= o < vars.Length ==>
      vars[o] == if o in uses && fn.nodes[o].parent != NoParent then t else old(vars[o])
  {
    var k := 0;
    while k < |uses|
      invariant 0 <= k <= |uses|
      invariant forall o :: 0 <= o < vars.Length ==>
        vars[o] == if o in uses[..k] && fn.nodes[o].parent != NoParent then t else old(vars[o])
    {
      var se := uses[k];
      if fn.nodes[se].parent != NoParent {
        vars[se] := t;
      }
      assert uses[..k + 1] == uses[..k] + [se];
      k := k + 1;
    }
    assert uses[..k] == uses;
  }

  /** Rebinds to `t` the defs in `defs` that sit under a call other than move `m`. */
  method RebindDefs(fn: Fn, defs: seq<OccId>, m: StmtId, t: Sym, vars: array<Sym>)
    requires vars.Length == |fn.nodes| && forall k :: 0 <= k < |defs| ==> defs[k] < vars.Length
    modifies vars
    ensures forall o :: 0 <= o < vars.Length ==>
      vars[o] == if o in defs && HasCallParent(fn.nodes[o].parent) && !IsTheMove(fn, o, m) then t else old(vars[o])
  {
    var k := 0;
    while k < |defs|
      invariant 0 <= k <= |defs|
      invariant forall o :: 0 <= o < vars.Length ==>
        vars[o] == if o in defs[..k] && HasCallParent(fn.nodes[o].parent) && !IsTheMove(fn, o, m) then t else old(vars[o])
    {
      var se := defs[k];
      if !IsTheMove(fn, se, m) && HasCallParent(fn.nodes[se].parent) {
        vars[se] := t;
      }
      assert defs[..k + 1] == defs[..k] + [se];
      k := k + 1;
    }
    assert defs[..k] == defs;
  }

  /** Phase 1 on one variable, in place: its uses, then its defs. */
  method FoldVarInPlace(fn: Fn, v: Sym, vars: array<Sym>)
    requires WellFormed(fn) && vars.Length == |fn.nodes|
    modifies vars
    ensures vars[..] == FoldVar(fn, old(vars[..]), v)
  {
    ghost var v0 := vars[..];
    var target := AliasTarget(fn, vars[..], v);
    if target.None? {
      return;
    }
    var m, t := target.value.0, target.value.1;
    var uses, defs := UsesOf(fn, vars[..], v), DefsOf(fn, vars[..], v);
    RebindUses(fn, uses, t, vars);
    RebindDefs(fn, defs, m, t, vars);
    forall o | 0 <= o < |v0|
      ensures vars[o] == FoldVar(fn, v0, v)[o]
    {
      assert (o in uses) <==> v0[o] == v && fn.nodes[o].role == UseRole;
      assert (o in defs) <==> v0[o] == v && fn.nodes[o].role == DefRole;
    }
  }

  // ---------------------------------------------------------------------
  // Phase 2: eliminating a reference to an address or a member
  // ---------------------------------------------------------------------

  /** The two shapes of defining expression phase 2 handles. */
  datatype RefKind = AddressOf | MemberOf

  /** How an occurrence of the reference is rewritten. */
  datatype Action =
    | DerefToTarget     // `*v` becomes the addressed expression
    | RetargetMember    // `v.f` becomes a member access on the addressed expression
    | CopyDefinition    // `x := v` becomes `x := <the defining expression>`
    | StoreToTarget     // `v := y` becomes a store into the addressed expression
    | DerefToMemberRead // `*v` becomes a read of the member
    | StoreToMember     // `v := y` becomes a write of the member

  datatype Edit = Edit(occ: OccId, action: Action)

  function KindOf(a: Arg): Option<RefKind> {
    match a
    case CallArg(SetRef, _) => Some(AddressOf)
    case CallArg(GetMember, _) => Some(MemberOf)
    case _ => None
  }

  /** The rewrite of a use in parent context `p`, or None when the use keeps the variable alive. */
  function UseAction(kind: RefKind, p: Parent): Option<Action> {
    if !p.PrimCall? then None
    else match kind
      case AddressOf =>
        if p.prim == GetRef then Some(DerefToTarget)
        else if p.prim == GetMemberValue || p.prim == GetMember then Some(RetargetMember)
        else if p.prim == Move then Some(CopyDefinition)
        else None
      case MemberOf =>
        if p.prim == GetRef then Some(DerefToMemberRead)
        else if p.prim == Move then Some(CopyDefinition)
        else None
  }

  /** The rewrite of a def other than the defining move, or None when it keeps the variable alive. */
  function DefAction(kind: RefKind, p: Parent): Option<Action> {
    if p.PrimCall? && p.prim == Move then
      Some(match kind case AddressOf => StoreToTarget case MemberOf => StoreToMember)
    else None
  }

  /** The rewrites of the uses `occs`, in order. */
  function UseEdits(fn: Fn, kind: RefKind, occs: seq<OccId>): seq<Edit>
    requires forall k :: 0 <= k < |occs| ==> occs[k] < |fn.nodes|
  {
    if occs == [] then []
    else
      var o := occs[|occs| - 1];
      UseEdits(fn, kind, occs[..|occs| - 1]) +
        match UseAction(kind, fn.nodes[o].parent) case Some(a) => [Edit(o, a)] case None => []
  }

  /** The rewrites of the defs `occs` other than the defining move `m`, in order. */
  function DefEdits(fn: Fn, kind: RefKind, m: StmtId, occs: seq<OccId>): seq<Edit>
    requires forall k :: 0 <= k < |occs| ==> occs[k] < |fn.nodes|
  {
    if occs == [] then []
    else
      var o := occs[|occs| - 1];
      DefEdits(fn, kind, m, occs[..|occs| - 1]) +
        if IsTheMove(fn, o, m) then []
        else match DefAction(kind, fn.nodes[o].parent) case Some(a) => [Edit(o, a)] case None => []
  }

  /** Some use among `occs` cannot be rewritten. */
  predicate UseAlive(fn: Fn, kind: RefKind, occs: seq<OccId>)
    requires forall k :: 0 <= k < |occs| ==> occs[k] < |fn.nodes|
  {
    occs != [] && (UseAlive(fn, kind, occs[..|occs| - 1]) || UseAction(kind, fn.nodes[occs[|occs| - 1]].parent).None?)
  }

  /** Some def among `occs`, other than the defining move `m`, cannot be rewritten. */
  predicate DefAlive(fn: Fn, kind: RefKind, m: StmtId, occs: seq<OccId>)
    requires forall k :: 0 <= k < |occs| ==> occs[k] < |fn.nodes|
  {
    occs != [] &&
      (|| DefAlive(fn, kind, m, occs[..|occs| - 1])
       || (!IsTheMove(fn, occs[|occs| - 1], m) && DefAction(kind, fn.nodes[occs[|occs| - 1]].parent).None?))
  }

  lemma {:induction false} UseAliveExists(fn: Fn, kind: RefKind, occs: seq<OccId>)
    requires forall k :: 0 <= k < |occs| ==> occs[k] < |fn.nodes|
    ensures UseAlive(fn, kind, occs) <==> exists k :: 0 <= k < |occs| && UseAction(kind, fn.nodes[occs[k]].parent).None?
  {
    if occs != [] {
      var pre := occs[..|occs| - 1];
      UseAliveExists(fn, kind, pre);
      if exists k :: 0 <= k < |occs| && UseAction(kind, fn.nodes[occs[k]].parent).None? {
        var k :| 0 <= k < |occs| && UseAction(kind, fn.nodes[occs[k]].parent).None?;
        if k < |pre| {
          assert pre[k] == occs[k];
        }
      }
      if UseAlive(fn, kind, pre) {
        var k :| 0 <= k < |pre| && UseAction(kind, fn.nodes[pre[k]].parent).None?;
        assert pre[k] == occs[k];
      }
    }
  }

  lemma {:induction false} DefAliveExists(fn: Fn, kind: RefKind, m: StmtId, occs: seq<OccId>)
    requires forall k :: 0 <= k < |occs| ==> occs[k] < |fn.nodes|
    ensures DefAlive(fn, kind, m, occs) <==>
      exists k :: 0 <= k < |occs| && !IsTheMove(fn, occs[k], m) && DefAction(kind, fn.nodes[occs[k]].parent).None?
  {
    if occs != [] {
      var pre := occs[..|occs| - 1];
      DefAliveExists(fn, kind, m, pre);
      if exists k :: 0 <= k < |occs| && !IsTheMove(fn, occs[k], m) && DefAction(kind, fn.nodes[occs[k]].parent).None? {
        var k :| 0 <= k < |occs| && !IsTheMove(fn, occs[k], m) && DefAction(kind, fn.nodes[occs[k]].parent).None?;
        if k < |pre| {
          assert pre[k] == occs[k];
        }
      }
      if DefAlive(fn, kind, m, pre) {
        var k :| 0 <= k < |pre| && !IsTheMove(fn, pre[k], m) && DefAction(kind, fn.nodes[pre[k]].parent).None?;
        assert pre[k] == occs[k];
      }
    }
  }

  /** What phase 2 does to one variable: the rewrites it performs, and, only
      when nothing keeps the variable alive, the removal of its declaration
      and of the statement of its first def. */
  datatype Outcome = Outcome(v: Sym, edits: seq<Edit>, removedStmt: Option<StmtId>)

  /** Every rewritable use gets exactly its rewrite. */
  lemma {:induction false} UseEditsMembers(fn: Fn, kind: RefKind, occs: seq<OccId>, o: OccId, a: Action)
    requires forall k :: 0 <= k < |occs| ==> occs[k] < |fn.nodes|
    ensures Edit(o, a) in UseEdits(fn, kind, occs) <==> o in occs && UseAction(kind, fn.nodes[o].parent) == Some(a)
  {
    if occs != [] {
      UseEditsMembers(fn, kind, occs[..|occs| - 1], o, a);
      assert occs == occs[..|occs| - 1] + [occs[|occs| - 1]];
    }
  }

  /** A rewritten def is never the defining move itself. */
  lemma {:induction false} DefEditsMembers(fn: Fn, kind: RefKind, m: StmtId, occs: seq<OccId>, o: OccId, a: Action)
    requires forall k :: 0 <= k < |occs| ==> occs[k] < |fn.nodes|
    ensures Edit(o, a) in DefEdits(fn, kind, m, occs) <==>
      o in occs && !IsTheMove(fn, o, m) && DefAction(kind, fn.nodes[o].parent) == Some(a)
  {
    if occs != [] {
      DefEditsMembers(fn, kind, m, occs[..|occs| - 1], o, a);
      assert occs == occs[..|occs| - 1] + [occs[|occs| - 1]];
    }
  }

  /** The loop over the uses: their rewrites, and whether one keeps the variable alive. */
  method ScanUses(fn: Fn, kind: RefKind, uses: seq<OccId>) returns (edits: seq<Edit>, alive: bool)
    requires forall k :: 0 <= k < |uses| ==> uses[k] < |fn.nodes|
    ensures edits == UseEdits(fn, kind, uses) && alive == UseAlive(fn, kind, uses)
  {
    edits, alive := [], false;
    var k := 0;
    while k < |uses|
      invariant 0 <= k <= |uses|
      invariant edits == UseEdits(fn, kind, uses[..k]) && alive == UseAlive(fn, kind, uses[..k])
    {
      var se := uses[k];
      var action := UseAction(kind, fn.nodes[se].parent);
      if action.Some? {
        edits := edits + [Edit(se, action.value)];
      } else {
        alive := true;
      }
      assert uses[..k + 1][..k] == uses[..k];
      k := k + 1;
    }
    assert uses[..k] == uses;
  }

  /** The loop over the defs, skipping the defining move `m`. */
  method ScanDefs(fn: Fn, kind: RefKind, m: StmtId, defs: seq<OccId>) returns (edits: seq<Edit>, alive: bool)
    requires forall k :: 0 <= k < |defs| ==> defs[k] < |fn.nodes|
    ensures edits == DefEdits(fn, kind, m, defs) && alive == DefAlive(fn, kind, m, defs)
  {
    edits, alive := [], false;
    var k := 0;
    while k < |defs|
      invariant 0 <= k <= |defs|
      invariant edits == DefEdits(fn, kind, m, defs[..k]) && alive == DefAlive(fn, kind, m, defs[..k])
    {
      var se := defs[k];
      if !IsTheMove(fn, se, m) {
        var action := DefAction(kind, fn.nodes[se].parent);
        if action.Some? {
          edits := edits + [Edit(se, action.value)];
        } else {
          alive := true;
        }
      }
      assert defs[..k + 1][..k] == defs[..k];
      k := k + 1;
    }
    assert defs[..k] == defs;
  }

  /** What phase 2 does to `v`, defined by move `m` from an expression of shape `kind`. */
  function OutcomeOf(fn: Fn, vars: seq<Sym>, v: Sym, m: StmtId, kind: RefKind): Outcome
    requires WellFormed(fn) && |vars| == |fn.nodes|
  {
    var uses, defs := UsesOf(fn, vars, v), DefsOf(fn, vars, v);
    Outcome(v, UseEdits(fn, kind, uses) + DefEdits(fn, kind, m, defs),
            if defs != [] && !UseAlive(fn, kind, uses) && !DefAlive(fn, kind, m, defs)
            then Some(fn.nodes[defs[0]].stmt) else None)
  }

  /** All-or-nothing removal: the declaration and the statement of the first
      def go exactly when every use and every def other than the defining
      move was rewritten -- whatever else happens, each of those is. */
  lemma OutcomeRemovesOnlyDead(fn: Fn, vars: seq<Sym>, v: Sym, m: StmtId, kind: RefKind)
    requires WellFormed(fn) && |vars| == |fn.nodes| && FindRefDef(fn, vars, v) == Some(m)
    ensures var uses, defs, out := UsesOf(fn, vars, v), DefsOf(fn, vars, v), OutcomeOf(fn, vars, v, m, kind);
      && (out.removedStmt.Some? <==>
            && (forall k :: 0 <= k < |uses| ==> UseAction(kind, fn.nodes[uses[k]].parent).Some?)
            && (forall k :: 0 <= k < |defs| && !IsTheMove(fn, defs[k], m) ==> DefAction(kind, fn.nodes[defs[k]].parent).Some?))
      && (out.removedStmt.Some? ==> out.removedStmt.value == fn.nodes[defs[0]].stmt)
  {
    var uses, defs := UsesOf(fn, vars, v), DefsOf(fn, vars, v);
    UseAliveExists(fn, kind, uses);
    DefAliveExists(fn, kind, m, defs);
    // the defining move is one of the defs, so the list is not empty
    assert defs != [] by {
      assert |RefMoves(fn, vars, defs)| == 1;
    }
  }

  /** Phase 2 on one variable: every rewritable use and def is rewritten,
      and the variable is removed only when none of them keeps it alive. */
  method EliminateRef(fn: Fn, vars: seq<Sym>, v: Sym, m: StmtId, kind: RefKind) returns (out: Outcome)
    requires WellFormed(fn) && |vars| == |fn.nodes|
    ensures out == OutcomeOf(fn, vars, v, m, kind)
  {
    var uses, defs := UsesOf(fn, vars, v), DefsOf(fn, vars, v);
    var useEdits, useAlive := ScanUses(fn, kind, uses);
    var defEdits, defAlive := ScanDefs(fn, kind, m, defs);
    if !useAlive && !defAlive && defs != [] {
      out := Outcome(v, useEdits + defEdits, Some(fn.nodes[defs[0]].stmt));
    } else {
      out := Outcome(v, useEdits + defEdits, None);
    }
  }

  /** The move and shape phase 2 works from, when it applies to `v`. */
  function ElimTarget(fn: Fn, vars: seq<Sym>, v: Sym): (r: Option<(StmtId, RefKind)>)
    requires WellFormed(fn) && |vars| == |fn.nodes|
    ensures r.Some? ==> FindRefDef(fn, vars, v) == Some(r.value.0)
  {
    if !IsRefVar(fn, v) then None
    else match FindRefDef(fn, vars, v)
      case None => None
      case Some(m) =>
        FindRefDefIsMove(fn, vars, v);
        match KindOf(fn.stmts[m].kind.rhs)
        case None => None
        case Some(kind) => Some((m, kind))
  }

  /** Phase 2 over the variables `decls`, each judged on the same program. */
  function Eliminations(fn: Fn, vars: seq<Sym>, decls: seq<Sym>): seq<Outcome>
    requires WellFormed(fn) && |vars| == |fn.nodes|
  {
    if decls == [] then []
    else
      var v := decls[|decls| - 1];
      Eliminations(fn, vars, decls[..|decls| - 1]) +
        match ElimTarget(fn, vars, v)
        case None => []
        case Some((m, kind)) => [OutcomeOf(fn, vars, v, m, kind)]
  }

  /** `singleAssignmentRefPropagation`: phase 1 folds references into the
      references they copy, in place; phase 2, on the folded program, reports
      the rewrites and removals of references to addresses and members. */
  method SingleAssignmentRefPropagation(fn: Fn, vars: array<Sym>) returns (outs: seq<Outcome>)
    requires WellFormed(fn) && vars.Length == |fn.nodes|
    modifies vars
    ensures vars[..] == AliasFold(fn, old(vars[..]), DeclaredVars(fn, |fn.stmts|))
    ensures outs == Eliminations(fn, vars[..], DeclaredVars(fn, |fn.stmts|))
  {
    var decls := DeclaredVars(fn, |fn.stmts|);
    ghost var v0 := vars[..];
    var i := 0;
    while i < |decls|
      invariant 0 <= i <= |decls|
      invariant vars[..] == AliasFold(fn, v0, decls[..i])
    {
      FoldVarInPlace(fn, decls[i], vars);
      assert decls[..i + 1][..i] == decls[..i];
      i := i + 1;
    }
    assert decls[..i] == decls;
    var folded := vars[..];
    outs := [];
    i := 0;
    while i < |decls|
      invariant 0 <= i <= |decls|
      invariant outs == Eliminations(fn, folded, decls[..i]) && vars[..] == folded
    {
      var target := ElimTarget(fn, folded, decls[i]);
      if target.Some? {
        var out := EliminateRef(fn, folded, decls[i], target.value.0, target.value.1);
        outs := outs + [out];
      }
      assert decls[..i + 1][..i] == decls[..i];
      i := i + 1;
    }
    assert decls[..i] == decls;
  }

  /** Without a reference-typed variable the pass changes nothing and removes nothing. */
  lemma {:induction false} NoReferencesNoChange(fn: Fn, vars: seq<Sym>, decls: seq<Sym>)
    requires WellFormed(fn) && |vars| == |fn.nodes|
    requires forall k :: 0 <= k < |decls| ==> !IsRefVar(fn, decls[k])
    ensures AliasFold(fn, vars, decls) == vars
    ensures Eliminations(fn, vars, decls) == []
  {
    if decls != [] {
      NoReferencesNoChange(fn, vars, decls[..|decls| - 1]);
    }
  }
}
