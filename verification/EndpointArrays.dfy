/**
  Which arrays hold the endpoints that `internal/coord/store.go` hands out: `SetEndpoints` appends
  to the emptied slice, so it overwrites in place exactly as long as the new list fits.
 */
module EndpointArrays {
  import opened Basics
  import opened AddressPool
  import opened PeerRegistry
  import opened LongPoll

  // Every list of endpoints fits its array; no two peers share one, and none is named by a number yet to come.
  ghost predicate Housed(s: Store)
    requires s.Valid()
  {
    && (forall k | k in s.registry.entries ::
          |s.registry.entries[k].endpoints| <= s.backs[s.registry.entries[k].index].capacity)
    && (forall i | 0 <= i < |s.backs| :: s.backs[i].id < |s.issued|)
    && (forall i, j | 0 <= i < j < |s.backs| :: s.backs[i].id != s.backs[j].id)
  }

  lemma MutatedHoused(s: Store, x: Mutation)
    requires s.Valid() && Housed(s)
    ensures Housed(Mutated(s, x))
  {
    var t := Mutated(s, x);
    if t != s {
      if x.op.Register? { RegisterHoused(s, x); } else { SetHoused(s, x); }
    }
  }

  lemma RegisterHoused(s: Store, x: Mutation)
    requires s.Valid() && Housed(s) && x.op.Register? && Succeeds(PeerRegistry.Apply(s.registry, x.op).1)
    ensures Housed(Mutated(s, x))
  {
    var t := Mutated(s, x);
    forall k | k in t.registry.entries
      ensures |t.registry.entries[k].endpoints| <= t.backs[t.registry.entries[k].index].capacity
    {
      if k in s.registry.entries { assert t.registry.entries[k].index == s.registry.entries[k].index < |s.backs|; }
    }
  }

  lemma SetHoused(s: Store, x: Mutation)
    requires s.Valid() && Housed(s) && x.op.SetEndpoints? && Succeeds(PeerRegistry.Apply(s.registry, x.op).1)
    ensures Housed(Mutated(s, x))
  {
    var t, key := Mutated(s, x), x.op.key;
    forall k | k in t.registry.entries
      ensures |t.registry.entries[k].endpoints| <= t.backs[t.registry.entries[k].index].capacity
    {
      assert k != key ==> s.registry.entries[k].index != s.registry.entries[key].index;
    }
  }

  // In every history of the store.
  lemma {:induction false} HistoryHoused(pool: Pool, etag: Etag, path: seq<Store>, n: nat)
    requires pool.Valid() && IsHistory(path) && path[0] == NewStore(pool, etag) && n < |path|
    ensures path[n].Valid() && Housed(path[n])
    decreases n
  {
    if n == 0 {
      assert Empty(pool).Snapshot() == [];
    } else {
      HistoryHoused(pool, etag, path, n - 1);
      assert Follows(path, n);
      var x :| IsMutation(path[n - 1], x, path[n]);
      MutatedHoused(path[n - 1], x);
    }
  }

  // A peer's list moves to another array exactly if it was set to one that does not fit: registering again does
  // not move it, nor does a call for another peer.
  lemma MovesIff(s: Store, x: Mutation, key: NodeKey)
    requires s.Valid() && Housed(s) && key in s.registry.entries
    ensures var t, i := Mutated(s, x), s.registry.entries[key].index;
            && key in t.registry.entries && t.registry.entries[key].index == i < |t.backs|
            && (t.backs[i].id != s.backs[i].id <==>
                  x.op.SetEndpoints? && x.op.key == key && !x.op.cancelled && |x.op.eps| > s.backs[i].capacity)
            && (t.backs[i].id == s.backs[i].id ==> t.backs[i] == s.backs[i])
  {
    ApplyKeeps(s.registry, x.op);
    var i := s.registry.entries[key].index;
    if x.op.SetEndpoints? && x.op.key in s.registry.entries && x.op.key != key {
      assert s.registry.order[i] == key;
      assert s.registry.order[s.registry.entries[x.op.key].index] == x.op.key;
    }
  }
}
