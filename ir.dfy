/**
  An abstraction of the compiler's intermediate representation as the
  copy-propagation pass sees it.

  Every symbolic reference (a `SymExpr`: one occurrence of a symbol in an
  expression tree) is a slot of an arena, identified by an `OccId`.  The only
  thing the passes change about an occurrence is the symbol it refers to (its
  `var` field); that part lives in a separate mutable array indexed by
  `OccId`.  Everything else -- the parent expression of each occurrence, the
  def/use classification made by the use/def analysis, the statements, the
  basic blocks and their predecessors, and the symbol table -- is the
  immutable value `Fn` below.
*/
module IR {
  import opened Wrappers

  type Sym = nat
  type OccId = nat
  type StmtId = nat

  /** The primitives the passes look at; every other primitive is `OtherPrim`. */
  datatype Prim =
    | Move | SetRef | GetRef | GetMember | GetMemberValue | SetMember
    | GetReal | GetImag | OtherPrim

  /** The parent expression of an occurrence. */
  datatype Parent =
    | NoParent                          // the occurrence is not inside any expression
    | NotACall                          // the parent is some expression other than a call
    | PlainCall                         // a call of a user function (not a primitive)
    | PrimCall(prim: Prim, argPos: nat) // argument `argPos` (1-based) of a primitive

  /** How the use/def analysis classified an occurrence of a variable. */
  datatype Role = DefRole | UseRole | Untracked

  /** The immutable part of an occurrence: its parent, its role and its statement. */
  datatype Node = Node(parent: Parent, role: Role, stmt: StmtId)

  /** The attributes of a symbol the passes consult. */
  datatype SymInfo = SymInfo(
    isVar: bool,          // a variable (not a function, type or argument symbol)
    hasRefType: bool,     // its type has a reference type
    isConcurrent: bool,   // needs concurrency-safe access
    isRecord: bool,       // record-typed
    isComplex: bool,      // complex-typed
    isConstant: bool,     // a constant
    isImmediate: bool,    // an immediate literal
    isReference: bool)    // its own type is a reference type

  const NoInfo := SymInfo(false, false, false, false, false, false, false, false)

  /** The symbol table, total: an unknown symbol has no attribute. */
  function Info(fn: Fn, s: Sym): SymInfo {
    if s in fn.syms then fn.syms[s] else NoInfo
  }

  /** An actual argument of a `move`: a plain occurrence, or a call (a primitive). */
  datatype Arg = SymArg(occ: OccId) | CallArg(prim: Prim, isReference: bool)

  datatype Kind =
    | DefKind(sym: Sym)             // the declaration (DefExpr) of a symbol
    | MoveKind(lhs: Arg, rhs: Arg)  // the primitive move `lhs := rhs`
    | OtherKind

  /** A statement: its shape and its occurrences, in traversal order. */
  datatype Stmt = Stmt(kind: Kind, occs: seq<OccId>)

  /**
    A function body: the statements (in program order), the basic blocks
    (statement ids; block 0 is the entry block), each block's predecessors, the
    occurrence arena and the symbol table, and the symbol that holds the return
    value.
  */
  datatype Fn = Fn(
    stmts: seq<Stmt>,
    blocks: seq<seq<StmtId>>,
    preds: seq<seq<nat>>,
    nodes: seq<Node>,
    syms: map<Sym, SymInfo>,
    retSym: Sym)

  predicate ArgWellFormed(a: Arg, n: nat) {
    a.SymArg? ==> a.occ < n
  }

  predicate StmtWellFormed(st: Stmt, n: nat) {
    && (forall k :: 0 <= k < |st.occs| ==> st.occs[k] < n)
    && (forall k, k' :: 0 <= k < k' < |st.occs| ==> st.occs[k] != st.occs[k'])
    && (st.kind.MoveKind? ==> ArgWellFormed(st.kind.lhs, n) && ArgWellFormed(st.kind.rhs, n))
  }

  /** Every statement refers to occurrences of the arena only. */
  predicate StmtsOk(fn: Fn) {
    forall s :: 0 <= s < |fn.stmts| ==> StmtWellFormed(fn.stmts[s], |fn.nodes|)
  }

  /** The shape invariants the IR builder guarantees. */
  predicate WellFormed(fn: Fn) {
    && StmtsOk(fn)
    && (forall b, t :: 0 <= b < |fn.blocks| && 0 <= t < |fn.blocks[b]| ==> fn.blocks[b][t] < |fn.stmts|)
    && |fn.preds| == |fn.blocks|
    && (forall b, k :: 0 <= b < |fn.preds| && 0 <= k < |fn.preds[b]| ==> fn.preds[b][k] < |fn.blocks|)
    && (forall o :: 0 <= o < |fn.nodes| ==> fn.nodes[o].stmt < |fn.stmts|)
    && (forall o :: 0 <= o < |fn.nodes| && fn.nodes[o].parent == PrimCall(Move, 1) ==>
          fn.stmts[fn.nodes[o].stmt].kind.MoveKind?)
  }

  /** The occurrences of a sequence of statements, in traversal order. */
  function OccsOf(fn: Fn, ss: seq<StmtId>): (r: seq<OccId>)
    requires forall t :: 0 <= t < |ss| ==> ss[t] < |fn.stmts|
    ensures StmtsOk(fn) ==> forall k :: 0 <= k < |r| ==> r[k] < |fn.nodes|
  {
    if ss == [] then [] else OccsOf(fn, ss[..|ss| - 1]) + fn.stmts[ss[|ss| - 1]].occs
  }
}
