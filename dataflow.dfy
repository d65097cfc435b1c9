/**
  The forward available-copies analysis over per-block bit-vectors.  The pass
  hands the solver GEN (the COPY vectors), KILL and a seeded IN; the solver
  returns an IN that satisfies the standard equations
      OUT(b) = GEN(b) ∪ (IN(b) − KILL(b))
      IN(b)  = ∩ { OUT(p) | p a predecessor of b }
  for every block other than the entry block and blocks without
  predecessors, whose IN is left as seeded.  The solver iterates from the
  seed downwards, so from a seed above its first round it reaches the
  greatest such solution below the seed.
*/
module Dataflow {
  type Bits = seq<bool>

  /** `m` has `n` rows of `u` bits. */
  predicate Shaped(m: seq<Bits>, n: nat, u: nat) {
    |m| == n && forall i :: 0 <= i < n ==> |m[i]| == u
  }

  /** Every predecessor index names a block. */
  predicate PredsOk(preds: seq<seq<nat>>, n: nat) {
    |preds| == n && forall i, k :: 0 <= i < n && 0 <= k < |preds[i]| ==> preds[i][k] < n
  }

  /** OUT = GEN ∪ (IN − KILL) on one block. */
  function Transfer(gen: Bits, kill: Bits, inBits: Bits): (r: Bits)
    requires |gen| == |kill| == |inBits|
    ensures |r| == |inBits|
  {
    seq(|inBits|, j requires 0 <= j < |inBits| => gen[j] || (inBits[j] && !kill[j]))
  }

  function Outs(gen: seq<Bits>, kill: seq<Bits>, ins: seq<Bits>, n: nat, u: nat): (r: seq<Bits>)
    requires Shaped(gen, n, u) && Shaped(kill, n, u) && Shaped(ins, n, u)
    ensures Shaped(r, n, u)
  {
    seq(n, i requires 0 <= i < n => Transfer(gen[i], kill[i], ins[i]))
  }

  /** The intersection of the OUT vectors of the blocks `ps`. */
  function Meet(ps: seq<nat>, outs: seq<Bits>, u: nat): (r: Bits)
    requires forall k :: 0 <= k < |ps| ==> ps[k] < |outs| && |outs[ps[k]]| == u
    ensures |r| == u
  {
    seq(u, j requires 0 <= j < u => forall k :: 0 <= k < |ps| ==> outs[ps[k]][j])
  }

  /** A block with a single predecessor receives exactly that predecessor's OUT. */
  lemma MeetOne(p: nat, outs: seq<Bits>, u: nat)
    requires p < |outs| && |outs[p]| == u
    ensures Meet([p], outs, u) == outs[p]
  {
    var m := Meet([p], outs, u);
    forall j | 0 <= j < u
      ensures m[j] == outs[p][j]
    {
      assert [p][0] == p;
    }
  }

  /** One round of the equations over all blocks at once. */
  function Step(preds: seq<seq<nat>>, gen: seq<Bits>, kill: seq<Bits>, ins: seq<Bits>, n: nat, u: nat): (r: seq<Bits>)
    requires PredsOk(preds, n) && Shaped(gen, n, u) && Shaped(kill, n, u) && Shaped(ins, n, u)
    ensures Shaped(r, n, u)
  {
    var outs := Outs(gen, kill, ins, n, u);
    seq(n, i requires 0 <= i < n => if i == 0 || preds[i] == [] then ins[i] else Meet(preds[i], outs, u))
  }

  /** Bitwise inclusion of two matrices of the same shape. */
  predicate Le(a: seq<Bits>, b: seq<Bits>, n: nat, u: nat)
    requires Shaped(a, n, u) && Shaped(b, n, u)
  {
    forall i, j :: 0 <= i < n && 0 <= j < u && a[i][j] ==> b[i][j]
  }

  function CountBits(b: Bits): nat {
    if b == [] then 0 else CountBits(b[..|b| - 1]) + if b[|b| - 1] then 1 else 0
  }

  function Count(m: seq<Bits>): nat {
    if m == [] then 0 else Count(m[..|m| - 1]) + CountBits(m[|m| - 1])
  }

  lemma {:induction false} CountBitsLe(a: Bits, b: Bits)
    requires |a| == |b| && forall j :: 0 <= j < |a| && a[j] ==> b[j]
    ensures CountBits(a) <= CountBits(b)
    ensures a != b ==> CountBits(a) < CountBits(b)
  {
    if a != [] {
      var m := |a| - 1;
      CountBitsLe(a[..m], b[..m]);
      if a[..m] == b[..m] && a != b {
        assert a == a[..m] + [a[m]] && b == b[..m] + [b[m]];
      }
    }
  }

  lemma {:induction false} CountLe(a: seq<Bits>, b: seq<Bits>, n: nat, u: nat)
    requires Shaped(a, n, u) && Shaped(b, n, u) && Le(a, b, n, u)
    ensures Count(a) <= Count(b)
    ensures a != b ==> Count(a) < Count(b)
  {
    if n != 0 {
      var m := n - 1;
      CountLe(a[..m], b[..m], m, u);
      CountBitsLe(a[m], b[m]);
      if a[..m] == b[..m] && a != b {
        assert a == a[..m] + [a[m]] && b == b[..m] + [b[m]];
      }
    }
  }

  /** A round is monotone: more available copies in never means fewer out. */
  lemma StepMonotone(preds: seq<seq<nat>>, gen: seq<Bits>, kill: seq<Bits>, a: seq<Bits>, b: seq<Bits>, n: nat, u: nat)
    requires PredsOk(preds, n) && Shaped(gen, n, u) && Shaped(kill, n, u) && Shaped(a, n, u) && Shaped(b, n, u)
    requires Le(a, b, n, u)
    ensures Le(Step(preds, gen, kill, a, n, u), Step(preds, gen, kill, b, n, u), n, u)
  {
    var oa, ob := Outs(gen, kill, a, n, u), Outs(gen, kill, b, n, u);
    assert forall i, j :: 0 <= i < n && 0 <= j < u && oa[i][j] ==> ob[i][j];
  }

  /** The solver.  Its seed must not grow under one round (the seed of the
      global pass, all ones except the entry block, is such a seed). */
  function ForwardFlow(preds: seq<seq<nat>>, gen: seq<Bits>, kill: seq<Bits>, ins: seq<Bits>, n: nat, u: nat): (r: seq<Bits>)
    requires PredsOk(preds, n) && Shaped(gen, n, u) && Shaped(kill, n, u) && Shaped(ins, n, u)
    requires Le(Step(preds, gen, kill, ins, n, u), ins, n, u)
    ensures Shaped(r, n, u) && Le(r, ins, n, u)
    ensures forall i :: 0 <= i < n && (i == 0 || preds[i] == []) ==> r[i] == ins[i]
    ensures forall i :: 0 < i < n && preds[i] != [] ==> r[i] == Meet(preds[i], Outs(gen, kill, r, n, u), u)
    decreases Count(ins)
  {
    var next := Step(preds, gen, kill, ins, n, u);
    if next == ins then ins
    else
      CountLe(next, ins, n, u);
      StepMonotone(preds, gen, kill, next, ins, n, u);
      var r := ForwardFlow(preds, gen, kill, next, n, u);
      assert forall i :: 0 <= i < n && (i == 0 || preds[i] == []) ==> next[i] == ins[i];
      r
  }

  /** Every solution of the equations that agrees with the seed where the
      seed is kept, and lies below the seed, lies below the solver's result:
      the solver returns the greatest solution. */
  lemma {:induction false} ForwardFlowGreatest(preds: seq<seq<nat>>, gen: seq<Bits>, kill: seq<Bits>, ins: seq<Bits>, n: nat, u: nat, s: seq<Bits>)
    requires PredsOk(preds, n) && Shaped(gen, n, u) && Shaped(kill, n, u) && Shaped(ins, n, u)
    requires Le(Step(preds, gen, kill, ins, n, u), ins, n, u)
    requires Shaped(s, n, u) && Step(preds, gen, kill, s, n, u) == s && Le(s, ins, n, u)
    ensures Le(s, ForwardFlow(preds, gen, kill, ins, n, u), n, u)
    decreases Count(ins)
  {
    var next := Step(preds, gen, kill, ins, n, u);
    if next != ins {
      CountLe(next, ins, n, u);
      StepMonotone(preds, gen, kill, next, ins, n, u);
      StepMonotone(preds, gen, kill, s, ins, n, u);
      ForwardFlowGreatest(preds, gen, kill, next, n, u, s);
    }
  }
}
