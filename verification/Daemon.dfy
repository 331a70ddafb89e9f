/**
  Reconciliation of `internal/daemon/daemon.go`: the map of per-peer machines follows
  the registry, and every machine ever started gets an interface name of its own.
 */
module Daemon {
  import opened PeerRegistry
  import opened Updates

  // --- Interface names: fmt.Sprintf of a pattern with one %d ---

  function Digit(n: nat): char
    requires n < 10
  {
    "0123456789"[n]
  }

  function Decimal(n: nat): (s: string)
    ensures s != []
  {
    if n < 10 then [Digit(n)] else Decimal(n / 10) + [Digit(n % 10)]
  }

  // Reading decimal text: the ASCII code of the digit 0 is 48.
  function ReadDecimal(s: string): int {
    if s == [] then 0 else 10 * ReadDecimal(s[..|s| - 1]) + (s[|s| - 1] as int - 48)
  }

  // The text is the number in decimal, without leading zeros.
  lemma {:induction false} DecimalReads(n: nat)
    ensures ReadDecimal(Decimal(n)) == n
    ensures forall i | 0 <= i < |Decimal(n)| :: 48 <= Decimal(n)[i] as int <= 57
    ensures n > 0 ==> Decimal(n)[0] as int != 48
    decreases n
  {
    var last := |Decimal(n)| - 1;
    assert Decimal(n)[last] as int == 48 + n % 10;
    if n < 10 {
      assert Decimal(n)[..last] == [];
    } else {
      DecimalReads(n / 10);
      assert Decimal(n)[..last] == Decimal(n / 10);
    }
  }

  datatype Pattern = Pattern(prefix: string, suffix: string) {
    function Name(n: nat): string { prefix + Decimal(n) + suffix }
  }

  // A name is the pattern with the number in place of %d.
  lemma NameParts(p: Pattern, n: nat)
    ensures var name, a, b := p.Name(n), |p.prefix|, |p.Name(n)| - |p.suffix|;
            && a < b && name[..a] == p.prefix && name[b..] == p.suffix
            && ReadDecimal(name[a..b]) == n
  {
    DecimalReads(n);
    assert p.Name(n)[|p.prefix|..|p.Name(n)| - |p.suffix|] == Decimal(n);
  }

  lemma NamesAreDistinct(p: Pattern, a: nat, b: nat)
    requires p.Name(a) == p.Name(b)
    ensures a == b
  {
    NameParts(p, a);
    NameParts(p, b);
  }

  // --- The fleet of machines ever started ---

  datatype Handle = Handle(key: DiscoKey, iface: string, stopped: bool)

  datatype Fleet = Fleet(self: DiscoKey, pattern: Pattern, peers: map<DiscoKey, nat>, machines: seq<Handle>) {
    ghost predicate Valid() {
      && self !in peers
      && (forall k | k in peers :: peers[k] < |machines| && machines[peers[k]].key == k && !machines[peers[k]].stopped)
      && (forall i | 0 <= i < |machines| && !machines[i].stopped ::
            machines[i].key in peers && peers[machines[i].key] == i)
      && (forall i | 0 <= i < |machines| :: machines[i].iface == pattern.Name(i))
    }
  }

  function NewFleet(self: DiscoKey, pattern: Pattern): Fleet { Fleet(self, pattern, map[], []) }

  function Admit(f: Fleet, key: DiscoKey): Fleet {
    if key == f.self || key in f.peers then f
    else f.(peers := f.peers[key := |f.machines|],
            machines := f.machines + [Handle(key, f.pattern.Name(|f.machines|), false)])
  }

  function AdmitAll(f: Fleet, snapshot: seq<Peer>): Fleet {
    if snapshot == [] then f
    else Admit(AdmitAll(f, snapshot[..|snapshot| - 1]), snapshot[|snapshot| - 1].discoKey)
  }

  // The registered disco keys other than our own.
  function Wanted(f: Fleet, snapshot: seq<Peer>): set<DiscoKey> {
    (set i | 0 <= i < |snapshot| :: snapshot[i].discoKey) - {f.self}
  }

  function Retire(f: Fleet, keep: set<DiscoKey>): Fleet {
    f.(peers := map k | k in f.peers && k in keep :: f.peers[k],
       machines := seq(|f.machines|, i requires 0 <= i < |f.machines| =>
                         f.machines[i].(stopped := f.machines[i].stopped || f.machines[i].key !in keep)))
  }

  function Reconcile(f: Fleet, snapshot: seq<Peer>): Fleet {
    Retire(AdmitAll(f, snapshot), Wanted(f, snapshot))
  }

  // --- What a reconciliation guarantees ---

  // g grew out of f by starting machines: what f has is still there.
  ghost predicate Grown(f: Fleet, g: Fleet) {
    && g.self == f.self && g.pattern == f.pattern
    && |f.machines| <= |g.machines| && g.machines[..|f.machines|] == f.machines
    && (forall k | k in f.peers :: k in g.peers && g.peers[k] == f.peers[k])
    && (forall k | k in g.peers && k !in f.peers :: g.peers[k] >= |f.machines|)
  }

  lemma {:induction false} AdmitAllGrows(f: Fleet, snapshot: seq<Peer>)
    requires f.Valid()
    ensures AdmitAll(f, snapshot).Valid() && Grown(f, AdmitAll(f, snapshot))
    ensures AdmitAll(f, snapshot).peers.Keys == f.peers.Keys + Wanted(f, snapshot)
    decreases |snapshot|
  {
    if snapshot == [] {
    } else {
      var n := |snapshot| - 1;
      AdmitAllGrows(f, snapshot[..n]);
      AdmitGrows(f, AdmitAll(f, snapshot[..n]), snapshot[n].discoKey);
      WantedStep(f, snapshot);
    }
  }

  lemma WantedStep(f: Fleet, snapshot: seq<Peer>)
    requires snapshot != []
    ensures var n := |snapshot| - 1;
            Wanted(f, snapshot) == Wanted(f, snapshot[..n]) + ({snapshot[n].discoKey} - {f.self})
  {
    var n := |snapshot| - 1;
    forall k | k in Wanted(f, snapshot[..n]) ensures k in Wanted(f, snapshot) {
      var i :| 0 <= i < n && snapshot[..n][i].discoKey == k;
      assert snapshot[i].discoKey == k;
    }
    forall k | k in Wanted(f, snapshot) && k != snapshot[n].discoKey ensures k in Wanted(f, snapshot[..n]) {
      var i :| 0 <= i < |snapshot| && snapshot[i].discoKey == k;
      assert snapshot[..n][i].discoKey == k;
    }
  }

  lemma AdmitGrows(f: Fleet, g: Fleet, key: DiscoKey)
    requires g.Valid() && Grown(f, g)
    ensures Admit(g, key).Valid() && Grown(f, Admit(g, key))
    ensures Admit(g, key).peers.Keys == g.peers.Keys + ({key} - {g.self})
  {
    AdmitValid(g, key);
    AdmitExtends(g, key);
    GrownOnward(f, g, Admit(g, key));
  }

  lemma AdmitExtends(g: Fleet, key: DiscoKey)
    requires g.Valid()
    ensures Grown(g, Admit(g, key))
    ensures Admit(g, key).peers.Keys == g.peers.Keys + ({key} - {g.self})
  {
    assert Admit(g, key).machines[..|g.machines|] == g.machines;
  }

  lemma GrownOnward(f: Fleet, g: Fleet, h: Fleet)
    requires Grown(f, g) && Grown(g, h)
    ensures Grown(f, h)
  {
    assert h.machines[..|f.machines|] == h.machines[..|g.machines|][..|f.machines|];
  }

  lemma AdmitValid(g: Fleet, key: DiscoKey)
    requires g.Valid()
    ensures Admit(g, key).Valid()
  {}

  lemma RetireKeeps(f: Fleet, keep: set<DiscoKey>)
    requires f.Valid()
    ensures Retire(f, keep).Valid()
  {}

  // After a reconciliation the machines' keys are exactly the registered keys minus our own;
  // surviving peers keep their machine, exactly the removed ones are stopped, new peers get
  // machines never seen before, and no machine changes its key or interface.
  lemma ReconcileTracksRegistry(f: Fleet, snapshot: seq<Peer>)
    requires f.Valid()
    ensures var g := Reconcile(f, snapshot);
            && g.Valid() && g.self == f.self && g.pattern == f.pattern
            && g.peers.Keys == Wanted(f, snapshot)
            && (forall k | k in f.peers && k in g.peers :: g.peers[k] == f.peers[k])
            && (forall k | k in g.peers && k !in f.peers :: g.peers[k] >= |f.machines|)
            && |f.machines| <= |g.machines|
            && (forall i | 0 <= i < |f.machines| ::
                  && g.machines[i].key == f.machines[i].key && g.machines[i].iface == f.machines[i].iface
                  && (g.machines[i].stopped <==> f.machines[i].stopped || f.machines[i].key !in Wanted(f, snapshot)))
  {
    var h := AdmitAll(f, snapshot);
    AdmitAllGrows(f, snapshot);
    RetireKeeps(h, Wanted(f, snapshot));
    forall i | 0 <= i < |f.machines| ensures h.machines[i] == f.machines[i] {
      assert h.machines[..|f.machines|][i] == h.machines[i];
    }
  }

  function Exec(f: Fleet, snapshots: seq<seq<Peer>>): Fleet
    decreases |snapshots|
  {
    if snapshots == [] then f else Reconcile(Exec(f, snapshots[..|snapshots| - 1]), snapshots[|snapshots| - 1])
  }

  // Over every sequence of reconciliations, no two machines ever started share an interface,
  // whether live, stopped or still tearing down.
  lemma {:induction false} InterfacesNeverReused(self: DiscoKey, pattern: Pattern, snapshots: seq<seq<Peer>>)
    ensures var f := Exec(NewFleet(self, pattern), snapshots);
            && f.Valid() && f.pattern == pattern
            && forall i, j | 0 <= i < |f.machines| && 0 <= j < |f.machines| ::
                 f.machines[i].iface == f.machines[j].iface ==> i == j
    decreases |snapshots|
  {
    if snapshots == [] {
    } else {
      var n := |snapshots| - 1;
      InterfacesNeverReused(self, pattern, snapshots[..n]);
      ReconcileTracksRegistry(Exec(NewFleet(self, pattern), snapshots[..n]), snapshots[n]);
    }
    var f := Exec(NewFleet(self, pattern), snapshots);
    forall i, j | 0 <= i < |f.machines| && 0 <= j < |f.machines| && f.machines[i].iface == f.machines[j].iface
      ensures i == j
    {
      NamesAreDistinct(pattern, i, j);
    }
  }

  // --- The code ---

  class Reconciler {
    const self: DiscoKey
    const pattern: Pattern
    var peers: map<DiscoKey, nat>     // index of the machine in `machines`
    var ifaceSeq: nat
    var machines: seq<Handle>         // every machine ever started
    var roster: Roster                // the record each machine was last handed

    function View(): Fleet
      reads this
    {
      Fleet(self, pattern, peers, machines)
    }

    ghost predicate Valid()
      reads this
    {
      View().Valid() && ifaceSeq == |machines| && roster.Keys == peers.Keys
    }

    constructor (self: DiscoKey, pattern: Pattern)
      ensures Valid() && View() == NewFleet(self, pattern) && roster == map[]
    {
      this.self, this.pattern := self, pattern;
      peers, ifaceSeq, machines, roster := map[], 0, [], map[];
    }

    // room: whether the machine of the i-th record has room in its channel when it is told.
    method ReconcilePeers(snapshot: seq<Peer>, room: seq<bool>)
      requires Valid() && |room| >= |snapshot|
      modifies this
      ensures Valid() && View() == Reconcile(old(View()), snapshot)
      ensures roster == Sync(old(roster), self, snapshot, room)
    {
      ghost var f, r := View(), roster;
      var seen: set<DiscoKey> := {};
      for i := 0 to |snapshot|
        invariant View() == AdmitAll(f, snapshot[..i]) && ifaceSeq == |machines|
        invariant seen == Wanted(f, snapshot[..i])
        invariant roster == OfferAll(r, self, snapshot[..i], room) && roster.Keys == peers.Keys
      {
        Prefix(f, snapshot, i);
        if snapshot[i].discoKey == self { continue; }
        seen := seen + {snapshot[i].discoKey};
        Tell(snapshot[i], room[i]);
      }
      assert snapshot[..|snapshot|] == snapshot;
      AdmitAllGrows(f, snapshot);
      SyncIsRestriction(f, r, snapshot, room);
      RetireUnseen(seen);
    }

    // One wanted record: a new machine, or `update`, which stores the record only if its event could be sent.
    method Tell(p: Peer, room: bool)
      requires p.discoKey != self && ifaceSeq == |machines| && roster.Keys == peers.Keys
      modifies this
      ensures View() == Admit(old(View()), p.discoKey) && roster == Offer(old(roster), self, p, room)
      ensures ifaceSeq == |machines| && roster.Keys == peers.Keys
    {
      var key := p.discoKey;
      if key !in peers {
        var iface := pattern.Name(ifaceSeq);
        ifaceSeq := ifaceSeq + 1;
        machines := machines + [Handle(key, iface, false)];
        peers := peers[key := |machines| - 1];
        roster := roster[key := Known(p, false)];
      } else if room {
        roster := roster[key := Known(p, false)];
      } else {
        roster := roster[key := roster[key].(refused := true)];
      }
    }

    // The second loop: machines whose peer is gone are stopped and forgotten.
    method RetireUnseen(seen: set<DiscoKey>)
      requires Valid()
      modifies this`peers, this`machines, this`roster
      ensures Valid() && View() == Retire(old(View()), seen)
      ensures roster == Keep(old(roster), seen)
    {
      ghost var f, r := View(), roster;
      var rest := peers.Keys;
      RetireNone(f, seen);
      KeepAll(r, peers.Keys + seen);
      while rest != {}
        invariant rest <= f.peers.Keys
        invariant View() == Retire(f, rest + seen) && roster == Keep(r, rest + seen)
      {
        var k :| k in rest;
        if k in seen {
          assert rest - {k} + seen == rest + seen;
        } else {
          assert rest - {k} + seen == rest + seen - {k};
          StopPeer(k, f, r, rest + seen);
        }
        rest := rest - {k};
      }
      assert {} + seen == seen;
      RetireKeeps(f, seen);
    }

    method StopPeer(k: DiscoKey, ghost f: Fleet, ghost r: Roster, ghost keep: set<DiscoKey>)
      requires f.Valid() && k in f.peers && k in keep && View() == Retire(f, keep) && roster == Keep(r, keep)
      modifies this`peers, this`machines, this`roster
      ensures View() == Retire(f, keep - {k}) && roster == Keep(r, keep - {k})
    {
      RetireOne(f, keep, k);
      KeepOne(r, keep, k);
      machines := machines[peers[k] := machines[peers[k]].(stopped := true)];
      peers, roster := peers - {k}, roster - {k};
    }
  }

  lemma Prefix(f: Fleet, snapshot: seq<Peer>, i: nat)
    requires i < |snapshot|
    ensures snapshot[..i + 1][..i] == snapshot[..i] && snapshot[..i + 1][i] == snapshot[i]
    ensures Wanted(f, snapshot[..i + 1]) == Wanted(f, snapshot[..i]) + ({snapshot[i].discoKey} - {f.self})
  {
    assert snapshot[..i + 1][..i] == snapshot[..i];
    WantedStep(f, snapshot[..i + 1]);
  }

  function Keep(r: Roster, keep: set<DiscoKey>): Roster { map k | k in r && k in keep :: r[k] }

  lemma KeepAll(r: Roster, keep: set<DiscoKey>)
    requires r.Keys <= keep
    ensures Keep(r, keep) == r
  {}

  lemma KeepOne(r: Roster, keep: set<DiscoKey>, k: DiscoKey)
    ensures Keep(r, keep - {k}) == Keep(r, keep) - {k}
  {}

  // Forgetting the unseen peers is keeping those that the snapshot mentions.
  lemma SyncIsRestriction(f: Fleet, r: Roster, snapshot: seq<Peer>, room: seq<bool>)
    requires |room| >= |snapshot| && f.self !in r
    ensures var all := OfferAll(r, f.self, snapshot, room);
            Sync(r, f.self, snapshot, room) == Keep(all, Wanted(f, snapshot))
  {
    NobodyIsSelf(r, f.self, snapshot, room);
    forall k | k != f.self ensures Mentions(snapshot, k) <==> k in Wanted(f, snapshot) {
      if Mentions(snapshot, k) {
        var i :| 0 <= i < |snapshot| && snapshot[i].discoKey == k;
      }
    }
  }

  lemma RetireNone(f: Fleet, seen: set<DiscoKey>)
    requires f.Valid()
    ensures Retire(f, f.peers.Keys + seen) == f
  {
    assert Retire(f, f.peers.Keys + seen).machines == f.machines;
  }

  lemma RetireOne(f: Fleet, keep: set<DiscoKey>, k: DiscoKey)
    requires f.Valid() && k in f.peers && k in keep
    ensures var g := Retire(f, keep);
            && k in g.peers && g.peers[k] == f.peers[k] < |g.machines|
            && Retire(f, keep - {k}) ==
               g.(peers := g.peers - {k},
                  machines := g.machines[f.peers[k] := g.machines[f.peers[k]].(stopped := true)])
  {
    var g, h, m := Retire(f, keep), Retire(f, keep - {k}), f.peers[k];
    assert h.peers == g.peers - {k};
    forall i | 0 <= i < |f.machines|
      ensures h.machines[i] == g.machines[m := g.machines[m].(stopped := true)][i]
    {
      if i != m && !f.machines[i].stopped { assert f.machines[i].key != k; }
    }
    assert h.machines == g.machines[m := g.machines[m].(stopped := true)];
  }
}
