/**
  The available-copies relation of the copy-propagation pass: a forward map
  from a destination symbol to the source symbol it currently copies, plus a
  reverse index from a source symbol to the destinations that were made to
  copy it.  A key absent from the forward map stands for the null entry the
  source stores on removal.
*/
module Available {
  import opened IR
  import opened Wrappers

  /** The relation `fwd` with every pair that has `s` as key or as value removed. */
  function Kill(fwd: map<Sym, Sym>, s: Sym): (r: map<Sym, Sym>)
    ensures s !in r
    ensures forall k :: k in r ==> r[k] != s
    ensures forall k :: k in r ==> k in fwd && r[k] == fwd[k]
    ensures forall k :: k in fwd && k != s && fwd[k] != s ==> k in r
  {
    map k | k in fwd && k != s && fwd[k] != s :: fwd[k]
  }

  /** No symbol is recorded as a copy of itself. */
  ghost predicate NoSelfMap(fwd: map<Sym, Sym>) {
    forall k :: k in fwd ==> fwd[k] != k
  }

  lemma KillKeepsNoSelfMap(fwd: map<Sym, Sym>, s: Sym)
    requires NoSelfMap(fwd)
    ensures NoSelfMap(Kill(fwd, s))
  {
  }

  class AvailableCopies {
    var fwd: map<Sym, Sym>        // destination -> source
    var rev: map<Sym, seq<Sym>>   // source -> destinations made to copy it (may be stale)

    /** Every pair of the forward map is recorded in the reverse index. */
    ghost predicate Valid()
      reads this
    {
      forall k :: k in fwd ==> fwd[k] in rev && k in rev[fwd[k]]
    }

    constructor ()
      ensures Valid()
      ensures fwd == map[] && rev == map[]
    {
      fwd := map[];
      rev := map[];
    }

    /** The source that `k` currently copies, if any. */
    function Get(k: Sym): (r: Option<Sym>)
      reads this
      ensures r.Some? <==> k in fwd
      ensures r.Some? ==> r.value == fwd[k]
    {
      if k in fwd then Some(fwd[k]) else None
    }

    /** The destinations recorded for source `v`; empty when there is no entry. */
    function KeysOf(v: Sym): seq<Sym>
      reads this
    {
      if v in rev then rev[v] else []
    }

    /** Records that `key` now copies `value`, in both indexes. */
    method MakeAvailable(key: Sym, value: Sym)
      requires Valid()
      modifies this
      ensures Valid()
      ensures fwd == old(fwd)[key := value]
      ensures rev == old(rev)[value := old(KeysOf(value)) + [key]]
    {
      var keys := KeysOf(value);
      keys := keys + [key];
      rev := rev[value := keys];
      fwd := fwd[key := value];
    }

    /** Forgets every copy that has `s` as its destination or its source,
        finding the destinations through the reverse index. */
    method RemoveAvailable(s: Sym)
      requires Valid()
      modifies this
      ensures Valid()
      ensures fwd == Kill(old(fwd), s)
      ensures rev == old(rev)
    {
      if s in rev {
        var keys := rev[s];
        var i := 0;
        while i < |keys|
          invariant 0 <= i <= |keys|
          invariant rev == old(rev)
          invariant forall k :: k in fwd ==> k in old(fwd) && fwd[k] == old(fwd)[k]
          invariant forall k :: k in old(fwd) && !(k in keys[..i] && old(fwd)[k] == s) ==> k in fwd
          invariant forall k :: k in keys[..i] && k in fwd ==> fwd[k] != s
        {
          var key := keys[i];
          if key in fwd && fwd[key] == s {
            fwd := fwd - {key};
          }
          assert keys[..i + 1] == keys[..i] + [key];
          i := i + 1;
        }
        assert keys[..i] == keys;
      }
      fwd := fwd - {s};
    }
  }
}
