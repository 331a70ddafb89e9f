/**
  The peer registry in its simple form: keys in the order they first registered,
  the n-th of them owning the n-th address after the pool's address.
  `CoordStore` shows that the maps and the scan of `internal/coord/store.go` refine it.
 */
module PeerRegistry {
  import opened Basics
  import opened AddressPool

  type NodeKey = seq<Byte>
  type DiscoKey = seq<Byte>

  const NODE_KEY_SIZE: nat := 32

  datatype Endpoint = Endpoint(ip: Address, port: nat, source: string)

  datatype Peer = Peer(
    nodeKey: NodeKey, discoKey: DiscoKey, name: string, tunnelIp: Address, endpoints: seq<Endpoint>, updatedAt: Time)

  // index: position in the order of registration
  datatype Entry = Entry(index: nat, discoKey: DiscoKey, name: string, endpoints: seq<Endpoint>, updatedAt: Time)

  datatype Registry = Registry(pool: Pool, order: seq<NodeKey>, entries: map<NodeKey, Entry>) {
    ghost predicate Valid() {
      && pool.Valid()
      && |order| <= pool.Capacity()
      && (forall i | 0 <= i < |order| :: order[i] in entries && entries[order[i]].index == i)
      && (forall k | k in entries :: entries[k].index < |order| && order[entries[k].index] == k)
    }

    function AddressOf(key: NodeKey): Address
      requires key in entries
    {
      pool.address + 1 + entries[key].index
    }

    function PeerOf(key: NodeKey): Peer
      requires key in entries
    {
      var e := entries[key];
      Peer(key, e.discoKey, e.name, AddressOf(key), e.endpoints, e.updatedAt)
    }

    // All peers in registration order, which is ascending tunnel address.
    ghost function Snapshot(): (s: seq<Peer>)
      requires Valid()
      ensures |s| == |order|
    {
      seq(|order|, i requires 0 <= i < |order| => PeerOf(order[i]))
    }
  }

  function Empty(pool: Pool): Registry { Registry(pool, [], map[]) }

  datatype Op =
    | Register(key: NodeKey, discoKey: DiscoKey, name: string, endpoints: seq<Endpoint>, cancelled: bool, now: Time)
    | SetEndpoints(key: NodeKey, eps: seq<Endpoint>, cancelled: bool, now: Time)

  datatype Reply = Assigned(ip: Address) | Stored | ContextError | BadKeyLength | PoolExhausted | UnknownPeer

  predicate Succeeds(r: Reply) { r.Assigned? || r.Stored? }

  function Apply(r: Registry, op: Op): (Registry, Reply)
    requires r.pool.Valid()
  {
    match op
    case Register(key, discoKey, name, endpoints, cancelled, now) =>
      if cancelled then (r, ContextError)
      else if |key| != NODE_KEY_SIZE then (r, BadKeyLength)
      else if key in r.entries then
        (r.(entries := r.entries[key := r.entries[key].(discoKey := discoKey, name := name, updatedAt := now)]),
         Assigned(r.AddressOf(key)))
      else if |r.order| < r.pool.Capacity() then
        (r.(order := r.order + [key], entries := r.entries[key := Entry(|r.order|, discoKey, name, endpoints, now)]),
         Assigned(r.pool.address + 1 + |r.order|))
      else (r, PoolExhausted)
    case SetEndpoints(key, eps, cancelled, now) =>
      if cancelled then (r, ContextError)
      else if key !in r.entries then (r, UnknownPeer)
      else (r.(entries := r.entries[key := r.entries[key].(endpoints := eps, updatedAt := now)]), Stored)
  }

  function Exec(r: Registry, ops: seq<Op>): (q: Registry)
    requires r.pool.Valid()
    ensures q.pool == r.pool
    decreases |ops|
  {
    if ops == [] then r
    else Apply(Exec(r, ops[..|ops| - 1]), ops[|ops| - 1]).0
  }

  // --- What every operation keeps ---

  lemma ApplyKeeps(r: Registry, op: Op)
    requires r.Valid()
    ensures Apply(r, op).0.Valid()
    ensures !Succeeds(Apply(r, op).1) ==> Apply(r, op).0 == r
    ensures forall k | k in r.entries ::
              k in Apply(r, op).0.entries && Apply(r, op).0.entries[k].index == r.entries[k].index
  {
    if op.Register? && op.key !in r.entries { InsertKeeps(r, op); } else { RewriteKeeps(r, op); }
  }

  // A new key goes to the end of the order.
  lemma InsertKeeps(r: Registry, op: Op)
    requires r.Valid() && op.Register? && op.key !in r.entries
    ensures Apply(r, op).0.Valid()
    ensures !Succeeds(Apply(r, op).1) ==> Apply(r, op).0 == r
    ensures forall k | k in r.entries ::
              k in Apply(r, op).0.entries && Apply(r, op).0.entries[k].index == r.entries[k].index
  {}

  // Everything else rewrites an entry in place, or fails.
  lemma RewriteKeeps(r: Registry, op: Op)
    requires r.Valid() && (op.Register? ==> op.key in r.entries)
    ensures Apply(r, op).0.Valid()
    ensures !Succeeds(Apply(r, op).1) ==> Apply(r, op).0 == r
    ensures forall k | k in r.entries ::
              k in Apply(r, op).0.entries && Apply(r, op).0.entries[k].index == r.entries[k].index
  {}

  lemma {:induction false} ExecKeeps(r: Registry, ops: seq<Op>)
    requires r.Valid()
    ensures Exec(r, ops).Valid()
    ensures forall k | k in r.entries ::
              k in Exec(r, ops).entries && Exec(r, ops).entries[k].index == r.entries[k].index
    decreases |ops|
  {
    if ops == [] {
    } else {
      ExecKeeps(r, ops[..|ops| - 1]);
      ApplyKeeps(Exec(r, ops[..|ops| - 1]), ops[|ops| - 1]);
    }
  }

  predicate Attempts(op: Op) { op.Register? && !op.cancelled && |op.key| == NODE_KEY_SIZE }

  // What a registration is told stays true: after any operations whatever, registering
  // the same key again is told the same address, even when the pool is full by then.
  lemma AddressNeverChanges(r: Registry, first: Op, ops: seq<Op>, again: Op)
    requires r.Valid() && Attempts(first) && Attempts(again) && first.key == again.key
    requires Apply(r, first).1.Assigned?
    ensures Apply(Exec(Apply(r, first).0, ops), again).1 == Apply(r, first).1
  {
    ApplyKeeps(r, first);
    ExecKeeps(Apply(r, first).0, ops);
  }

  // --- Runs: the allocator is a counter over the distinct keys ---

  // The distinct keys that tried to register, by first attempt.
  function FirstSeen(ops: seq<Op>): seq<NodeKey> {
    if ops == [] then []
    else
      var rest, op := FirstSeen(ops[..|ops| - 1]), ops[|ops| - 1];
      if Attempts(op) && op.key !in rest then rest + [op.key] else rest
  }

  function Take<T>(s: seq<T>, n: nat): seq<T> { if n <= |s| then s[..n] else s }

  lemma {:induction false} OrderIsFirstSeen(pool: Pool, ops: seq<Op>)
    requires pool.Valid()
    ensures Exec(Empty(pool), ops).order == Take(FirstSeen(ops), pool.Capacity())
    decreases |ops|
  {
    if ops == [] {
    } else {
      var before := Exec(Empty(pool), ops[..|ops| - 1]);
      OrderIsFirstSeen(pool, ops[..|ops| - 1]);
      ExecKeeps(Empty(pool), ops[..|ops| - 1]);
      OrderStep(before, FirstSeen(ops[..|ops| - 1]), ops[|ops| - 1]);
    }
  }

  lemma OrderStep(r: Registry, seen: seq<NodeKey>, op: Op)
    requires r.Valid() && r.order == Take(seen, r.pool.Capacity())
    ensures Apply(r, op).0.order ==
            Take(if Attempts(op) && op.key !in seen then seen + [op.key] else seen, r.pool.Capacity())
  {
    if Attempts(op) {
      if op.key in r.entries {
        assert op.key == r.order[r.entries[op.key].index];
        assert op.key in seen;
      } else {
        assert op.key !in r.order;
      }
    }
  }

  lemma {:induction false} FirstSeenDistinct(ops: seq<Op>)
    ensures forall i, j | 0 <= i < j < |FirstSeen(ops)| :: FirstSeen(ops)[i] != FirstSeen(ops)[j]
    decreases |ops|
  {
    if ops == [] {
    } else {
      FirstSeenDistinct(ops[..|ops| - 1]);
    }
  }

  // The n-th distinct key owns address + n, unless that reaches the last address of the block.
  lemma AddressOfKey(pool: Pool, ops: seq<Op>, i: nat)
    requires pool.Valid() && i < |FirstSeen(ops)|
    ensures var q, key := Exec(Empty(pool), ops), FirstSeen(ops)[i];
            && (key in q.entries <==> pool.address + 1 + i < pool.Last())
            && (key in q.entries ==> q.AddressOf(key) == pool.address + 1 + i)
  {
    ExecKeeps(Empty(pool), ops);
    OrderIsFirstSeen(pool, ops);
    FirstSeenDistinct(ops);
    var q, key := Exec(Empty(pool), ops), FirstSeen(ops)[i];
    if i < |q.order| { assert q.order[i] == key; }
  }

  // --- The snapshot is determined by the registry ---

  ghost predicate Ascending(s: seq<Peer>) {
    forall i, j | 0 <= i < j < |s| :: s[i].tunnelIp <= s[j].tunnelIp
  }

  ghost predicate StrictlyAscending(s: seq<Peer>) {
    forall i, j | 0 <= i < j < |s| :: s[i].tunnelIp < s[j].tunnelIp
  }

  lemma {:induction false} SortedIsUnique(s: seq<Peer>, t: seq<Peer>)
    requires multiset(s) == multiset(t) && Ascending(s) && StrictlyAscending(t)
    ensures s == t
    decreases |s|
  {
    assert |multiset(s)| == |s| && |multiset(t)| == |t|;
    if s == [] {
    } else {
      var k := |s| - 1;
      SameLast(s, t);
      PrefixesAgree(s, t, k);
      SortedIsUnique(s[..k], t[..k]);
      assert s == s[..k] + [s[k]] && t == t[..k] + [t[k]];
    }
  }

  lemma PrefixesAgree(s: seq<Peer>, t: seq<Peer>, k: nat)
    requires |s| == |t| == k + 1 && multiset(s) == multiset(t) && s[k] == t[k]
    requires Ascending(s) && StrictlyAscending(t)
    ensures multiset(s[..k]) == multiset(t[..k]) && Ascending(s[..k]) && StrictlyAscending(t[..k])
  {
    PrefixBags(s, t, k);
    PrefixOrders(s, t, k);
  }

  lemma PrefixBags(s: seq<Peer>, t: seq<Peer>, k: nat)
    requires |s| == |t| == k + 1 && multiset(s) == multiset(t) && s[k] == t[k]
    ensures multiset(s[..k]) == multiset(t[..k])
  {
    DropLast(s);
    DropLast(t);
  }

  lemma PrefixOrders(s: seq<Peer>, t: seq<Peer>, k: nat)
    requires |s| == |t| == k + 1 && Ascending(s) && StrictlyAscending(t)
    ensures Ascending(s[..k]) && StrictlyAscending(t[..k])
  {}

  lemma DropLast(s: seq<Peer>)
    requires s != []
    ensures s == s[..|s| - 1] + [s[|s| - 1]]
    ensures multiset(s[..|s| - 1]) == multiset(s) - multiset{s[|s| - 1]}
  {
    assert s == s[..|s| - 1] + [s[|s| - 1]];
  }

  lemma SameLast(s: seq<Peer>, t: seq<Peer>)
    requires |s| == |t| > 0 && multiset(s) == multiset(t) && Ascending(s) && StrictlyAscending(t)
    ensures s[|s| - 1] == t[|t| - 1]
  {
    var k := |s| - 1;
    assert s[k] in multiset(t) && t[k] in multiset(s);
    var i :| 0 <= i < |s| && s[i] == t[k];
    var j :| 0 <= j < |t| && t[j] == s[k];
  }

  // However the map was iterated and whatever sort was used: a list of all peers that
  // is not descending anywhere is the snapshot, because tunnel addresses are distinct.
  lemma PeersIsAFunction(r: Registry, out: seq<Peer>)
    requires r.Valid() && Ascending(out) && multiset(out) == multiset(r.Snapshot())
    ensures out == r.Snapshot()
  {
    SortedIsUnique(out, r.Snapshot());
  }
}
