/**
  The long poll that keeps a daemon in step with the registry: `handlePeers` of
  `internal/coord/server.go`, `WaitForPeersChange` of `internal/coord/store.go` and
  `peersPollLoop` of `internal/daemon/daemon.go`, as interleaved steps.
 */
module LongPoll {
  import opened Basics
  import opened AddressPool
  import opened PeerRegistry
  import opened Daemon
  import opened Updates

  // --- The store: its registry and every etag it issued, with the snapshot it stood for ---

  // arrays: for each peer, which array its slice of endpoints lies in
  datatype Issue = Issue(tag: Etag, snap: seq<Peer>, arrays: seq<nat>)

  // Register or SetEndpoints, the clock's etag, and the spare capacity of an array that has to be allocated.
  datatype Mutation = Mutation(op: Op, newTag: Etag, spare: nat)

  // An array is named by the number of the etag at which it was allocated.
  datatype Backing = Backing(id: nat, capacity: nat)

  // The k-th broadcast channel is made with the k-th etag and closed with the next one.
  datatype Store = Store(registry: Registry, backs: seq<Backing>, issued: seq<Issue>) {
    ghost predicate Valid() {
      registry.Valid() && |backs| == |registry.order| && issued != [] && Latest() == registry.Snapshot()
    }

    function Latest(): seq<Peer>
      requires issued != []
    {
      issued[|issued| - 1].snap
    }

    function Etag(): Etag
      requires issued != []
    {
      issued[|issued| - 1].tag
    }

    function Channel(): Chan
      requires issued != []
    {
      |issued| - 1
    }
  }

  function NewStore(pool: Pool, etag: Etag): Store { Store(Empty(pool), [], [Issue(etag, [], [])]) }

  // Where the slices of endpoints lie after a successful mutation: SetEndpoints appends to the emptied slice,
  // which reuses its array if the new endpoints fit.
  function Backed(s: Store, x: Mutation): (bs: seq<Backing>)
    requires |s.backs| == |s.registry.order|
    requires forall k | k in s.registry.entries :: s.registry.entries[k].index < |s.registry.order|
    ensures |s.backs| <= |bs| <= |s.backs| + 1
  {
    match x.op
    case Register(key, _, _, endpoints, _, _) =>
      if key in s.registry.entries then s.backs else s.backs + [Backing(|s.issued|, |endpoints| + x.spare)]
    case SetEndpoints(key, eps, _, _) =>
      if key !in s.registry.entries then s.backs
      else
        var i := s.registry.entries[key].index;
        if |eps| <= s.backs[i].capacity then s.backs else s.backs[i := Backing(|s.issued|, |eps| + x.spare)]
  }

  function Arrays(bs: seq<Backing>): seq<nat> { seq(|bs|, i requires 0 <= i < |bs| => bs[i].id) }

  ghost function Mutated(s: Store, x: Mutation): (t: Store)
    requires s.Valid()
    ensures t.Valid() && s.issued <= t.issued && |t.issued| <= |s.issued| + 1
  {
    ApplyKeeps(s.registry, x.op);
    var (r, reply) := PeerRegistry.Apply(s.registry, x.op);
    var bs := Backed(s, x);
    if Succeeds(reply) then Store(r, bs, s.issued + [Issue(x.newTag, r.Snapshot(), Arrays(bs))]) else s
  }

  ghost predicate IsMutation(s: Store, x: Mutation, t: Store) { s.Valid() && t == Mutated(s, x) }

  // Stores one mutation apart, and stores that mutations lead to.
  ghost predicate OneMutation(s: Store, t: Store) { exists x :: IsMutation(s, x, t) }

  ghost predicate Follows(path: seq<Store>, i: nat)
    requires 0 < i < |path|
  {
    OneMutation(path[i - 1], path[i])
  }

  ghost predicate IsHistory(path: seq<Store>) { path != [] && forall i | 0 < i < |path| :: Follows(path, i) }

  ghost predicate LeadsTo(s: Store, t: Store) {
    exists path :: IsHistory(path) && path[0] == s && path[|path| - 1] == t
  }

  // --- Store, request handler and daemon together ---

  // One request at a time; the client asks again when it is answered or fails.
  // `at` is the number of the etag that came with a reply.
  datatype Poll =
    | Idle
    | Asked(since: Etag)                    // before the lock section of WaitForPeersChange
    | Parked(since: Etag, ch: Chan)
    | Reading                               // before the lock section of Peers
    | Marshalling(at: nat, snap: seq<Peer>) // the lock is released, the reply is being written
    | Replied(at: nat, snap: seq<Peer>)

  // What the daemon reconciled last.
  datatype Last = Never | Seen(at: nat, snap: seq<Peer>)

  datatype World = World(
    store: Store, poll: Poll, clientEtag: Etag, last: Last, fleet: Fleet, roster: Roster)

  function Init(pool: Pool, etag: Etag, self: DiscoKey, pattern: Pattern): World {
    World(NewStore(pool, etag), Idle, "", Never, NewFleet(self, pattern), map[])
  }

  datatype Step =
    | Mutate(x: Mutation, next: Store)
    | Ask
    | Check
    | Wake
    | Timeout
    | Read
    | Tear(p: nat, q: nat, m: nat)          // a reply being written shares the array that SetEndpoints overwrites
    | Reply
    | Fail
    | Receive(room: seq<bool>)              // reconcile, with or without room in the machines' channels
    | Absorb(k: DiscoKey, found: seq<Endpoint>)   // a machine handles a call_me_maybe

  predicate EndpointAt(snap: seq<Peer>, p: nat, q: nat) { p < |snap| && q < |snap[p].endpoints| }

  // Endpoint q of peer p lies in the same place at both issues.
  predicate Shared(a: Issue, b: Issue, p: nat, q: nat) {
    && EndpointAt(a.snap, p, q) && EndpointAt(b.snap, p, q)
    && p < |a.arrays| && p < |b.arrays| && a.arrays[p] == b.arrays[p]
  }

  function SetEndpoint(snap: seq<Peer>, p: nat, q: nat, e: Endpoint): seq<Peer>
    requires EndpointAt(snap, p, q)
  {
    snap[p := snap[p].(endpoints := snap[p].endpoints[q := e])]
  }

  ghost predicate Enabled(w: World, x: Step) {
    && w.store.issued != []
    && match x
       case Mutate(y, next) => IsMutation(w.store, y, next)
       case Ask => w.poll.Idle?
       case Check => w.poll.Asked?
       case Wake => w.poll.Parked? && w.poll.ch != w.store.Channel()
       case Timeout => w.poll.Parked?
       case Read => w.poll.Reading?
       case Tear(p, q, m) =>
         && w.poll.Marshalling? && w.poll.at < m < |w.store.issued|
         && EndpointAt(w.poll.snap, p, q) && Shared(w.store.issued[w.poll.at], w.store.issued[m], p, q)
       case Reply => w.poll.Marshalling?
       case Fail => !w.poll.Idle?
       case Receive(room) => w.poll.Replied? && w.poll.at < |w.store.issued| && |room| >= |w.poll.snap|
       case Absorb(k, _) => k in w.roster
  }

  function Apply(w: World, x: Step): World
    requires Enabled(w, x)
  {
    match x
    case Mutate(_, next) => w.(store := next)
    case Ask => w.(poll := if w.clientEtag == "" then Reading else Asked(w.clientEtag))
    case Check =>
      w.(poll := if w.store.Etag() != w.poll.since then Reading else Parked(w.poll.since, w.store.Channel()))
    case Wake => w.(poll := Reading)
    case Timeout => w.(poll := Reading)
    case Read => w.(poll := Marshalling(|w.store.issued| - 1, w.store.Latest()))
    case Tear(p, q, m) =>
      w.(poll := Marshalling(w.poll.at, SetEndpoint(w.poll.snap, p, q, w.store.issued[m].snap[p].endpoints[q])))
    case Reply => w.(poll := Replied(w.poll.at, w.poll.snap))
    case Fail => w.(poll := Idle)
    case Receive(room) =>
      w.(poll := Idle, clientEtag := w.store.issued[w.poll.at].tag, last := Seen(w.poll.at, w.poll.snap),
         fleet := Reconcile(w.fleet, w.poll.snap), roster := Sync(w.roster, w.fleet.self, w.poll.snap, room))
    case Absorb(k, found) => w.(roster := Learn(w.roster, k, found))
  }

  ghost predicate IsStep(w: World, x: Step, v: World) { Enabled(w, x) && v == Apply(w, x) }

  ghost predicate OneStep(w: World, v: World) { exists x :: IsStep(w, x, v) }

  // The world after the i-th step of a run comes from the one before.
  ghost predicate Steps(run: seq<World>, i: nat)
    requires 0 < i < |run|
  {
    OneStep(run[i - 1], run[i])
  }

  ghost predicate IsRun(run: seq<World>) { run != [] && forall i | 0 < i < |run| :: Steps(run, i) }

  ghost predicate Joins(run: seq<World>, w: World, v: World) {
    IsRun(run) && run[0] == w && run[|run| - 1] == v
  }

  ghost predicate Reaches(w: World, v: World) { exists run :: Joins(run, w, v) }

  // --- What every step keeps, whatever etags the clock gives ---

  // Some store after the i-th has e at position q of peer p, in the same array.
  ghost predicate WroteLater(issued: seq<Issue>, i: nat, p: nat, q: nat, e: Endpoint) {
    exists m :: 0 <= i < m < |issued| && Shared(issued[i], issued[m], p, q) && issued[m].snap[p].endpoints[q] == e
  }

  // A reply read at the i-th etag: its snapshot, but for endpoints overwritten since.
  ghost predicate CameFrom(issued: seq<Issue>, i: nat, snap: seq<Peer>) {
    && i < |issued| && |snap| == |issued[i].snap|
    && (forall p | 0 <= p < |snap| ::
          && snap[p].(endpoints := []) == issued[i].snap[p].(endpoints := [])
          && |snap[p].endpoints| == |issued[i].snap[p].endpoints|)
    && (forall p: nat, q: nat | EndpointAt(snap, p, q) && EndpointAt(issued[i].snap, p, q) ::
          || snap[p].endpoints[q] == issued[i].snap[p].endpoints[q]
          || WroteLater(issued, i, p, q, snap[p].endpoints[q]))
  }

  ghost predicate PollInv(w: World) {
    match w.poll
    case Asked(since) => since == w.clientEtag != ""
    case Parked(since, ch) =>
      since == w.clientEtag != "" && ch < |w.store.issued| && w.store.issued[ch].tag == since
    case Marshalling(at, snap) => CameFrom(w.store.issued, at, snap)
    case Replied(at, snap) => CameFrom(w.store.issued, at, snap)
    case _ => true
  }

  ghost predicate ClientInv(w: World) {
    && w.fleet.Valid() && w.fleet.self !in w.roster
    && (w.clientEtag != "" ==> w.last.Seen?)
    && (w.last.Seen? ==>
          && CameFrom(w.store.issued, w.last.at, w.last.snap)
          && w.clientEtag == w.store.issued[w.last.at].tag
          && w.fleet.peers.Keys == Wanted(w.fleet, w.last.snap)
          && Current(w.roster, w.fleet.self, w.last.snap))
  }

  ghost predicate Inv(w: World) { w.store.Valid() && PollInv(w) && ClientInv(w) }

  lemma CameFromGrows(old_: seq<Issue>, new_: seq<Issue>, i: nat, snap: seq<Peer>)
    requires old_ <= new_ && CameFrom(old_, i, snap)
    ensures CameFrom(new_, i, snap)
  {
    forall p: nat, q: nat | EndpointAt(snap, p, q) && EndpointAt(new_[i].snap, p, q)
      ensures snap[p].endpoints[q] == new_[i].snap[p].endpoints[q] || WroteLater(new_, i, p, q, snap[p].endpoints[q])
    {
      if snap[p].endpoints[q] != old_[i].snap[p].endpoints[q] {
        assert WroteLater(old_, i, p, q, snap[p].endpoints[q]);
        var m :| i < m < |old_| && Shared(old_[i], old_[m], p, q)
                 && old_[m].snap[p].endpoints[q] == snap[p].endpoints[q];
        assert new_[m] == old_[m];
      }
    }
  }

  lemma MutateKeepsInv(w: World, x: Step)
    requires Inv(w) && x.Mutate? && Enabled(w, x)
    ensures Inv(Apply(w, x))
  {
    var a, b := w.store.issued, x.next.issued;
    if w.poll.Marshalling? || w.poll.Replied? { CameFromGrows(a, b, w.poll.at, w.poll.snap); }
    if w.last.Seen? { CameFromGrows(a, b, w.last.at, w.last.snap); }
  }

  lemma TearKeepsInv(w: World, x: Step)
    requires Inv(w) && x.Tear? && Enabled(w, x)
    ensures Inv(Apply(w, x))
  {
    var issued, i, snap := w.store.issued, w.poll.at, w.poll.snap;
    var torn := Apply(w, x).poll.snap;
    assert WroteLater(issued, i, x.p, x.q, torn[x.p].endpoints[x.q]);
    forall p: nat, q: nat | EndpointAt(torn, p, q) && EndpointAt(issued[i].snap, p, q)
      ensures || torn[p].endpoints[q] == issued[i].snap[p].endpoints[q]
              || WroteLater(issued, i, p, q, torn[p].endpoints[q])
    {
      if p != x.p || q != x.q { assert EndpointAt(snap, p, q) && torn[p].endpoints[q] == snap[p].endpoints[q]; }
    }
  }

  lemma ReceiveKeepsInv(w: World, x: Step)
    requires Inv(w) && x.Receive? && Enabled(w, x)
    ensures Inv(Apply(w, x)) && Apply(w, x).fleet.self == w.fleet.self
  {
    var snap := w.poll.snap;
    ReconcileTracksRegistry(w.fleet, snap);
    SyncIsCurrent(w.roster, w.fleet.self, snap, x.room);
    assert Wanted(Apply(w, x).fleet, snap) == Wanted(w.fleet, snap);
  }

  lemma StepKeepsInv(w: World, x: Step)
    requires Inv(w) && Enabled(w, x)
    ensures Inv(Apply(w, x)) && Apply(w, x).fleet.self == w.fleet.self
  {
    match x {
      case Mutate(_, _) => MutateKeepsInv(w, x);
      case Tear(_, _, _) => TearKeepsInv(w, x);
      case Receive(_) => ReceiveKeepsInv(w, x);
      case Absorb(k, found) => if w.last.Seen? { LearnKeepsCurrent(w.roster, w.fleet.self, w.last.snap, k, found); }
      case _ =>
    }
  }

  lemma {:induction false} RunKeepsInv(run: seq<World>, i: nat, w: World, v: World)
    requires IsRun(run) && run[0] == w && Inv(w) && i < |run| && run[i] == v
    ensures Inv(v) && v.fleet.self == w.fleet.self
    decreases i
  {
    if i == 0 {
    } else {
      var u := run[i - 1];
      RunKeepsInv(run, i - 1, w, u);
      assert Steps(run, i);
      var x :| IsStep(u, x, v);
      StepKeepsInv(u, x);
    }
  }

  // --- Convergence ---

  // The disco keys registered, other than the daemon's own.
  function OtherKeys(r: Registry, self: DiscoKey): set<DiscoKey> {
    (set k | k in r.entries :: r.entries[k].discoKey) - {self}
  }

  lemma SnapshotKeys(r: Registry, f: Fleet)
    requires r.Valid()
    ensures Wanted(f, r.Snapshot()) == OtherKeys(r, f.self)
  {
    var s := r.Snapshot();
    forall d | d in OtherKeys(r, f.self) ensures d in Wanted(f, s) {
      var k :| k in r.entries && r.entries[k].discoKey == d;
      assert s[r.entries[k].index].discoKey == d;
    }
    forall d | d in Wanted(f, s) ensures d in OtherKeys(r, f.self) {
      var i :| 0 <= i < |s| && s[i].discoKey == d;
      assert r.order[i] in r.entries;
    }
  }

  predicate ParkedOpen(w: World) {
    w.store.issued != [] && w.poll.Parked? && w.poll.ch == w.store.Channel()
  }

  // The daemon's last snapshot is the registry as it stands, it runs machines for exactly the other
  // registered keys, and each of them whose last update was not refused holds the registry's record,
  // followed by endpoints it learnt since.
  ghost predicate Converged(w: World) {
    && w.store.Valid() && w.fleet.Valid()
    && w.last.Seen? && w.last.snap == w.store.registry.Snapshot()
    && w.fleet.peers.Keys == OtherKeys(w.store.registry, w.fleet.self)
    && Current(w.roster, w.fleet.self, w.store.registry.Snapshot())
  }

  // Where endpoints of both lie in the same place they are the same.
  ghost predicate AgreeOnEndpoints(a: Issue, b: Issue) {
    forall p: nat, q: nat | Shared(a, b, p, q) :: a.snap[p].endpoints[q] == b.snap[p].endpoints[q]
  }

  // An etag that comes back stands for the same snapshot as before, and nothing issued in between
  // overwrote one of its endpoints in place with another.
  ghost predicate EtagsTellApart(issued: seq<Issue>) {
    forall i, j | 0 <= i < j < |issued| && issued[i].tag == issued[j].tag != "" ::
      && issued[i].snap == issued[j].snap
      && forall m | i < m < j :: AgreeOnEndpoints(issued[i], issued[m])
  }

  // A reply whose etag is the current one carries the current snapshot.
  lemma ReplyIsCurrent(issued: seq<Issue>, i: nat, snap: seq<Peer>)
    requires EtagsTellApart(issued) && CameFrom(issued, i, snap)
    requires issued[i].tag == issued[|issued| - 1].tag != ""
    ensures snap == issued[|issued| - 1].snap
  {
    var j := |issued| - 1;
    assert issued[i].snap == issued[j].snap;
    forall p | 0 <= p < |snap| ensures snap[p] == issued[i].snap[p] {
      forall q | 0 <= q < |snap[p].endpoints| ensures snap[p].endpoints[q] == issued[i].snap[p].endpoints[q] {
        assert EndpointAt(snap, p, q) && EndpointAt(issued[i].snap, p, q);
        if snap[p].endpoints[q] != issued[i].snap[p].endpoints[q] {
          var m :| i < m <= j && Shared(issued[i], issued[m], p, q)
                   && issued[m].snap[p].endpoints[q] == snap[p].endpoints[q];
        }
      }
      assert snap[p].endpoints == issued[i].snap[p].endpoints;
    }
  }

  // Whenever the daemon's poll is parked on an open channel it has converged: for any interleaving of
  // registrations, endpoint updates, torn replies, timeouts, failures and polls with such etags.
  lemma ParkedMeansConverged(pool: Pool, etag: Etag, self: DiscoKey, pattern: Pattern, w: World)
    requires pool.Valid() && Reaches(Init(pool, etag, self, pattern), w) && EtagsTellApart(w.store.issued)
    ensures ParkedOpen(w) ==> Converged(w) && w.fleet.self == self
  {
    InitInv(pool, etag, self, pattern);
    ReachedKeepsInv(Init(pool, etag, self, pattern), w);
    if ParkedOpen(w) { Converges(w); }
  }

  lemma ReachedKeepsInv(w: World, v: World)
    requires Inv(w) && Reaches(w, v)
    ensures Inv(v) && v.fleet.self == w.fleet.self
  {
    var run :| Joins(run, w, v);
    RunKeepsInv(run, |run| - 1, w, v);
  }

  lemma Converges(w: World)
    requires Inv(w) && EtagsTellApart(w.store.issued) && ParkedOpen(w)
    ensures Converged(w)
  {
    ReplyIsCurrent(w.store.issued, w.last.at, w.last.snap);
    SnapshotKeys(w.store.registry, w.fleet);
  }

  lemma InitInv(pool: Pool, etag: Etag, self: DiscoKey, pattern: Pattern)
    requires pool.Valid()
    ensures Inv(Init(pool, etag, self, pattern))
  {
    assert Empty(pool).Snapshot() == [];
  }

  lemma PrefixTellsApart(a: seq<Issue>, b: seq<Issue>)
    requires a <= b && EtagsTellApart(b)
    ensures EtagsTellApart(a)
  {
    forall i, j | 0 <= i < j < |a| && a[i].tag == a[j].tag != ""
      ensures a[i].snap == a[j].snap && forall m | i < m < j :: AgreeOnEndpoints(a[i], a[m])
    {
      assert b[i] == a[i] && b[j] == a[j];
      forall m | i < m < j ensures AgreeOnEndpoints(a[i], a[m]) { assert b[m] == a[m]; }
    }
  }

  // Distinct etags, which is what hashing the clock is meant to give, do tell them apart.
  lemma DistinctEtagsSuffice(issued: seq<Issue>)
    requires forall i, j | 0 <= i < j < |issued| :: issued[i].tag != issued[j].tag
    ensures EtagsTellApart(issued)
  {}
}
