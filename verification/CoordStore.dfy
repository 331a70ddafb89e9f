/**
  The registry half of `MemStore` in `internal/coord/store.go`: two maps that
  mirror each other, a scan for a free address, an etag and a broadcast channel.
 */
module CoordStore {
  import opened Basics
  import opened AddressPool
  import opened PeerRegistry
  import RegistryHistory

  // Both maps describe the same registry.
  ghost predicate Mirrors(peers: map<NodeKey, Peer>, byTunnel: map<Address, NodeKey>, abs: Registry) {
    && peers.Keys == abs.entries.Keys
    && (forall k | k in peers :: peers[k] == abs.PeerOf(k))
    && (forall a :: a in byTunnel <==> abs.pool.address < a <= abs.pool.address + |abs.order|)
    && (forall a | a in byTunnel :: byTunnel[a] == abs.order[a - abs.pool.address - 1])
  }

  lemma MapsAreInverse(peers: map<NodeKey, Peer>, byTunnel: map<Address, NodeKey>, abs: Registry)
    requires abs.Valid() && Mirrors(peers, byTunnel, abs)
    ensures forall k | k in peers :: peers[k].tunnelIp in byTunnel && byTunnel[peers[k].tunnelIp] == k
    ensures forall a | a in byTunnel :: byTunnel[a] in peers && peers[byTunnel[a]].tunnelIp == a
  {}

  lemma MirrorUpdate(peers: map<NodeKey, Peer>, byTunnel: map<Address, NodeKey>, abs: Registry, op: Op, p: Peer)
    requires abs.Valid() && Mirrors(peers, byTunnel, abs) && op.key in peers
    requires Succeeds(Apply(abs, op).1) && p == Apply(abs, op).0.PeerOf(op.key)
    ensures Mirrors(peers[op.key := p], byTunnel, Apply(abs, op).0)
  {}

  lemma MirrorInsert(peers: map<NodeKey, Peer>, byTunnel: map<Address, NodeKey>, abs: Registry, op: Op, p: Peer)
    requires abs.Valid() && Mirrors(peers, byTunnel, abs) && op.key !in peers
    requires Succeeds(Apply(abs, op).1) && p == Apply(abs, op).0.PeerOf(op.key)
    ensures Mirrors(peers[op.key := p], byTunnel[p.tunnelIp := op.key], Apply(abs, op).0)
  {}

  class MemStore {
    const pool: Pool
    var peers: map<NodeKey, Peer>
    var byTunnel: map<Address, NodeKey>
    var peersEtag: Etag
    var peersBroad: Chan
    var closed: set<Chan>
    ghost var ops: seq<Op>      // the calls so far
    ghost var abs: Registry

    ghost predicate Valid()
      reads this
    {
      && abs.Valid() && abs.pool == pool && abs == Exec(Empty(pool), ops)
      && Mirrors(peers, byTunnel, abs)
      && (forall c | c in closed :: c < peersBroad)
    }

    constructor (pool: Pool, etag: Etag)
      requires pool.Valid()
      ensures Valid() && ops == []
      ensures peersEtag == etag && peersBroad !in closed
    {
      this.pool := pool;
      peers, byTunnel := map[], map[];
      peersEtag, peersBroad, closed := etag, 0, {};
      ops, abs := [], Empty(pool);
    }

    // bumpEtagLocked: waiters on the old channel are released, nothing closes it twice.
    method BumpEtag(newTag: Etag)
      requires Valid()
      modifies this`peersEtag, this`peersBroad, this`closed
      ensures Valid()
      ensures peersEtag == newTag
      ensures old(peersBroad) !in old(closed) && closed == old(closed) + {old(peersBroad)}
      ensures peersBroad !in closed
    {
      peersEtag := newTag;
      var previous := peersBroad;
      peersBroad := peersBroad + 1;
      closed := closed + {previous};
    }

    // The scan: the first free address after the pool's, if it is not the last of the block.
    method AllocateIp() returns (found: bool, ip: Address)
      requires Valid()
      ensures found <==> |abs.order| < pool.Capacity()
      ensures found ==> ip == pool.address + 1 + |abs.order|
    {
      var next := pool.address + 1;
      LastInRange(pool);
      ContainsIff(pool, next);
      while pool.Contains(next)
        invariant pool.address < next <= pool.address + 1 + |abs.order|
        invariant pool.Contains(next) <==> next <= pool.Last()
        decreases pool.address + 1 + |abs.order| - next
      {
        ContainsIff(pool, next + 1);
        if next !in byTunnel {
          if !pool.Contains(next + 1) { break; }
          return true, next;
        }
        next := next + 1;
      }
      return false, 0;
    }

    twostate predicate Bumped(newTag: Etag)
      reads this
    {
      && peersEtag == newTag
      && old(peersBroad) !in old(closed) && closed == old(closed) + {old(peersBroad)}
      && peersBroad !in closed
    }

    twostate predicate Untouched()
      reads this
    {
      && peers == old(peers) && byTunnel == old(byTunnel)
      && peersEtag == old(peersEtag) && peersBroad == old(peersBroad) && closed == old(closed)
    }

    // The call is over: the registry is what the calls so far make of it.
    ghost method Note(op: Op)
      requires abs.Valid() && abs.pool == pool && abs == Exec(Empty(pool), ops)
      modifies this`ops, this`abs
      ensures abs.Valid() && abs.pool == pool && abs == Exec(Empty(pool), ops)
      ensures ops == old(ops) + [op] && abs == Apply(old(abs), op).0
    {
      ApplyKeeps(abs, op);
      RegistryHistory.ExecAppend(Empty(pool), ops, op);
      ops, abs := ops + [op], Apply(abs, op).0;
    }

    // Stores a peer and announces the change.
    method Commit(key: NodeKey, p: Peer, newTag: Etag, ghost op: Op)
      requires abs.Valid() && abs.pool == pool && abs == Exec(Empty(pool), ops)
      requires forall c | c in closed :: c < peersBroad
      requires Mirrors(peers[key := p], byTunnel, Apply(abs, op).0)
      modifies this`peers, this`ops, this`abs, this`peersEtag, this`peersBroad, this`closed
      ensures Valid() && ops == old(ops) + [op] && abs == Apply(old(abs), op).0
      ensures Bumped(newTag)
    {
      peers := peers[key := p];
      Note(op);
      BumpEtag(newTag);
    }

    method Register(key: NodeKey, discoKey: DiscoKey, name: string, endpoints: seq<Endpoint>,
                    cancelled: bool, now: Time, newTag: Etag) returns (reply: Reply)
      requires Valid()
      modifies this
      ensures Valid()
      ensures ops == old(ops) + [Op.Register(key, discoKey, name, endpoints, cancelled, now)]
      ensures (abs, reply) == Apply(old(abs), Op.Register(key, discoKey, name, endpoints, cancelled, now))
      ensures if Succeeds(reply) then Bumped(newTag) else Untouched()
    {
      ghost var op := Op.Register(key, discoKey, name, endpoints, cancelled, now);
      if cancelled { Note(op); return ContextError; }
      if |key| != NODE_KEY_SIZE { Note(op); return BadKeyLength; }
      if key in peers {
        reply := Refresh(key, discoKey, name, now, newTag, op);
      } else {
        reply := Insert(key, discoKey, name, endpoints, now, newTag, op);
      }
    }

    // A key that is known: its address and endpoints stay.
    method Refresh(key: NodeKey, discoKey: DiscoKey, name: string, now: Time, newTag: Etag, ghost op: Op)
        returns (reply: Reply)
      requires Valid() && key in peers && Attempts(op) && op.key == key
      requires op.discoKey == discoKey && op.name == name && op.now == now
      modifies this
      ensures Valid() && ops == old(ops) + [op]
      ensures (abs, reply) == Apply(old(abs), op) && Succeeds(reply) && Bumped(newTag)
    {
      var p := peers[key].(discoKey := discoKey, name := name, updatedAt := now);
      MirrorUpdate(peers, byTunnel, abs, op, p);
      Commit(key, p, newTag, op);
      return Assigned(p.tunnelIp);
    }

    // A new key: it gets the next free address, if there is one.
    method Insert(key: NodeKey, discoKey: DiscoKey, name: string, endpoints: seq<Endpoint>, now: Time,
                  newTag: Etag, ghost op: Op) returns (reply: Reply)
      requires Valid() && key !in peers && Attempts(op)
      requires op == Op.Register(key, discoKey, name, endpoints, false, now)
      modifies this
      ensures Valid() && ops == old(ops) + [op] && (abs, reply) == Apply(old(abs), op)
      ensures if Succeeds(reply) then Bumped(newTag) else Untouched()
    {
      var found, ip := AllocateIp();
      if !found { Note(op); return PoolExhausted; }
      reply := Assigned(ip);
      Store(Peer(key, discoKey, name, ip, endpoints, now), newTag, op);
    }

    // Both maps get the new peer.
    method Store(p: Peer, newTag: Etag, ghost op: Op)
      requires Valid() && p.nodeKey !in peers && op.key == p.nodeKey
      requires Apply(abs, op).1 == Assigned(p.tunnelIp) && p == Apply(abs, op).0.PeerOf(op.key)
      modifies this
      ensures Valid() && ops == old(ops) + [op] && abs == Apply(old(abs), op).0 && Bumped(newTag)
    {
      MirrorInsert(peers, byTunnel, abs, op, p);
      byTunnel := byTunnel[p.tunnelIp := p.nodeKey];
      Commit(p.nodeKey, p, newTag, op);
    }

    method SetEndpoints(key: NodeKey, eps: seq<Endpoint>, cancelled: bool, now: Time, newTag: Etag)
        returns (reply: Reply)
      requires Valid()
      modifies this
      ensures Valid()
      ensures ops == old(ops) + [Op.SetEndpoints(key, eps, cancelled, now)]
      ensures (abs, reply) == Apply(old(abs), Op.SetEndpoints(key, eps, cancelled, now))
      ensures if Succeeds(reply) then Bumped(newTag) else Untouched()
    {
      ghost var op := Op.SetEndpoints(key, eps, cancelled, now);
      if cancelled { Note(op); return ContextError; }
      if key !in peers { Note(op); return UnknownPeer; }
      var p := peers[key].(endpoints := eps, updatedAt := now);
      MirrorUpdate(peers, byTunnel, abs, op, p);
      Commit(key, p, newTag, op);
      return Stored;
    }

    // The map is iterated in an arbitrary order, then sorted.
    method Peers() returns (out: seq<Peer>, etag: Etag)
      requires Valid()
      ensures out == abs.Snapshot() && etag == peersEtag
      ensures RegistryHistory.IsListing(pool, ops, out)
    {
      out := Collect(peers);
      SnapshotCollected(abs, peers, byTunnel);
      CollectedOnce(out, abs.Snapshot(), peers, peers.Keys);
      out := SortByTunnelIp(out);
      PeersIsAFunction(abs, out);
      RegistryHistory.SnapshotFromHistory(pool, ops);
      etag := peersEtag;
    }

    // discoKeyForNodeKey: the answer is the disco key that the last attempt to register the key gave.
    method DiscoKeyForNodeKey(key: NodeKey) returns (found: bool, discoKey: DiscoKey)
      requires Valid()
      ensures found <==> key in peers
      ensures found <==> key in Take(FirstSeen(ops), pool.Capacity())
      ensures found ==> discoKey == peers[key].discoKey
      ensures found ==> forall i | RegistryHistory.LastAttempt(ops, i, key) :: discoKey == ops[i].discoKey
    {
      var all, _ := Peers();
      found, discoKey := FindDisco(all, key);
      LookupMeans(pool, ops, abs, key, found, discoKey);
    }
  }

  // The linear scan over the snapshot finds what a direct lookup would.
  method FindDisco(all: seq<Peer>, key: NodeKey) returns (found: bool, discoKey: DiscoKey)
    ensures IsLookup(all, key, found, discoKey)
  {
    for i := 0 to |all|
      invariant forall j | 0 <= j < i :: all[j].nodeKey != key
    {
      if all[i].nodeKey == key { return true, all[i].discoKey; }
    }
    return false, [];
  }

  ghost predicate IsLookup(all: seq<Peer>, key: NodeKey, found: bool, discoKey: DiscoKey) {
    if found then exists i :: 0 <= i < |all| && all[i].nodeKey == key && all[i].discoKey == discoKey
    else forall i | 0 <= i < |all| :: all[i].nodeKey != key
  }

  lemma LookupMeans(pool: Pool, ops: seq<Op>, abs: Registry, key: NodeKey, found: bool, discoKey: DiscoKey)
    requires pool.Valid() && abs == Exec(Empty(pool), ops) && abs.Valid()
    requires IsLookup(abs.Snapshot(), key, found, discoKey)
    ensures found <==> key in abs.entries
    ensures found <==> key in Take(FirstSeen(ops), pool.Capacity())
    ensures found ==> discoKey == abs.entries[key].discoKey
    ensures found ==> forall i | RegistryHistory.LastAttempt(ops, i, key) :: discoKey == ops[i].discoKey
  {
    RegistryHistory.AdmittedIff(pool, ops, key);
    var all := abs.Snapshot();
    if key in abs.entries {
      assert all[abs.entries[key].index].nodeKey == key;
      RegistryHistory.RecordFromHistory(pool, ops, key);
    }
  }

  // s lists the peers of the keys ks, each once.
  ghost predicate Collected(s: seq<Peer>, peers: map<NodeKey, Peer>, ks: set<NodeKey>) {
    && (forall i | 0 <= i < |s| :: s[i].nodeKey in ks && s[i].nodeKey in peers && s[i] == peers[s[i].nodeKey])
    && (forall i, j | 0 <= i < j < |s| :: s[i] != s[j])
    && (forall k | k in ks :: k in peers && peers[k] in s)
  }

  method Collect(peers: map<NodeKey, Peer>) returns (out: seq<Peer>)
    requires forall k | k in peers :: peers[k].nodeKey == k
    ensures Collected(out, peers, peers.Keys)
  {
    var rest := peers.Keys;
    ghost var done: set<NodeKey> := {};
    out := [];
    while rest != {}
      invariant rest !! done && rest + done == peers.Keys
      invariant Collected(out, peers, done)
    {
      var k :| k in rest;
      CollectedStep(out, peers, done, k);
      out := out + [peers[k]];
      rest := rest - {k};
      done := done + {k};
    }
  }

  lemma CollectedStep(s: seq<Peer>, peers: map<NodeKey, Peer>, ks: set<NodeKey>, k: NodeKey)
    requires Collected(s, peers, ks) && k !in ks && k in peers && peers[k].nodeKey == k
    ensures Collected(s + [peers[k]], peers, ks + {k})
  {
    var t := s + [peers[k]];
    assert t[|s|] == peers[k];
    forall x | x in ks ensures peers[x] in t {
      var i :| 0 <= i < |s| && s[i] == peers[x];
      assert t[i] == peers[x];
    }
  }

  lemma SnapshotCollected(r: Registry, peers: map<NodeKey, Peer>, byTunnel: map<Address, NodeKey>)
    requires r.Valid() && Mirrors(peers, byTunnel, r)
    ensures Collected(r.Snapshot(), peers, peers.Keys)
  {
    var s := r.Snapshot();
    forall k | k in peers ensures peers[k] in s {
      assert s[r.entries[k].index] == peers[k];
    }
    forall i, j | 0 <= i < j < |s| ensures s[i] != s[j] {
      assert s[i].nodeKey == r.order[i] && s[j].nodeKey == r.order[j];
    }
  }

  lemma CollectedOnce(s: seq<Peer>, t: seq<Peer>, peers: map<NodeKey, Peer>, ks: set<NodeKey>)
    requires Collected(s, peers, ks) && Collected(t, peers, ks)
    ensures multiset(s) == multiset(t)
  {
    Multiplicity(s);
    Multiplicity(t);
    forall x: Peer ensures multiset(s)[x] == multiset(t)[x] {
      assert x in s <==> x.nodeKey in ks && peers[x.nodeKey] == x;
      assert x in t <==> x.nodeKey in ks && peers[x.nodeKey] == x;
    }
  }

  lemma {:induction false} Multiplicity(s: seq<Peer>)
    requires forall i, j | 0 <= i < j < |s| :: s[i] != s[j]
    ensures forall x: Peer :: multiset(s)[x] == if x in s then 1 else 0
    decreases |s|
  {
    if s == [] {
    } else {
      Multiplicity(s[..|s| - 1]);
      DropLast(s);
    }
  }

  method SlotFor(s: seq<Peer>, p: Peer) returns (i: nat)
    requires Ascending(s)
    ensures i <= |s|
    ensures i > 0 ==> s[i - 1].tunnelIp <= p.tunnelIp
    ensures forall j | i <= j < |s| :: p.tunnelIp < s[j].tunnelIp
  {
    i := |s|;
    while i > 0 && p.tunnelIp < s[i - 1].tunnelIp
      invariant 0 <= i <= |s|
      invariant forall j | i <= j < |s| :: p.tunnelIp < s[j].tunnelIp
    {
      i := i - 1;
    }
  }

  // Stands for sort.Slice: any sort will do, see PeerRegistry.PeersIsAFunction.
  method SortByTunnelIp(s: seq<Peer>) returns (out: seq<Peer>)
    ensures Ascending(out) && multiset(out) == multiset(s)
  {
    out := [];
    for n := 0 to |s|
      invariant Ascending(out) && multiset(out) == multiset(s[..n])
    {
      var i := SlotFor(out, s[n]);
      InsertKeeps(out, i, s[n]);
      assert s[..n + 1] == s[..n] + [s[n]];
      out := out[..i] + [s[n]] + out[i..];
    }
    assert s[..|s|] == s;
  }

  lemma InsertKeeps(s: seq<Peer>, i: nat, p: Peer)
    requires i <= |s| && Ascending(s)
    requires i > 0 ==> s[i - 1].tunnelIp <= p.tunnelIp
    requires forall j | i <= j < |s| :: p.tunnelIp < s[j].tunnelIp
    ensures Ascending(s[..i] + [p] + s[i..])
    ensures multiset(s[..i] + [p] + s[i..]) == multiset(s) + multiset{p}
  {
    InsertOrder(s, i, p);
    InsertBag(s, i, p);
  }

  lemma InsertOrder(s: seq<Peer>, i: nat, p: Peer)
    requires i <= |s| && Ascending(s)
    requires i > 0 ==> s[i - 1].tunnelIp <= p.tunnelIp
    requires forall j | i <= j < |s| :: p.tunnelIp < s[j].tunnelIp
    ensures Ascending(s[..i] + [p] + s[i..])
  {
    JoinAscending(s[..i], [p]);
    JoinAscending(s[..i] + [p], s[i..]);
  }

  lemma InsertBag(s: seq<Peer>, i: nat, p: Peer)
    requires i <= |s|
    ensures multiset(s[..i] + [p] + s[i..]) == multiset(s) + multiset{p}
  {
    assert s == s[..i] + s[i..];
  }

  lemma JoinAscending(a: seq<Peer>, b: seq<Peer>)
    requires Ascending(a) && Ascending(b)
    requires a != [] && b != [] ==> a[|a| - 1].tunnelIp <= b[0].tunnelIp
    ensures Ascending(a + b)
  {
    var r := a + b;
    forall i, j | 0 <= i < j < |r| ensures r[i].tunnelIp <= r[j].tunnelIp {
      if i < |a| <= j {
        assert a[i].tunnelIp <= a[|a| - 1].tunnelIp;
        assert b[0].tunnelIp <= b[j - |a|].tunnelIp;
      }
    }
  }
}
