/**
  What the machines are told by a reconciliation of `internal/daemon/daemon.go`: a new
  machine starts with the peer's record, and `update` of `internal/daemon/peer.go` hands
  an existing one the new record unless its incoming channel is full.
 */
module Updates {
  import opened PeerRegistry

  // The record a machine holds, with what it learnt from call_me_maybe messages; refused: the last
  // update met a full channel.
  datatype Known = Known(record: Peer, refused: bool)

  type Roster = map<DiscoKey, Known>

  // room: whether the channel had room. It depends on the machine's own goroutine.
  function Offer(ks: Roster, self: DiscoKey, p: Peer, room: bool): Roster {
    var k := p.discoKey;
    if k == self then ks
    else if k !in ks || room then ks[k := Known(p, false)]
    else ks[k := ks[k].(refused := true)]
  }

  function OfferAll(ks: Roster, self: DiscoKey, snapshot: seq<Peer>, room: seq<bool>): Roster
    requires |room| >= |snapshot|
    decreases |snapshot|
  {
    if snapshot == [] then ks
    else
      var n := |snapshot| - 1;
      Offer(OfferAll(ks, self, snapshot[..n], room), self, snapshot[n], room[n])
  }

  // The loop over the snapshot, then the loop that forgets unseen peers.
  function Sync(ks: Roster, self: DiscoKey, snapshot: seq<Peer>, room: seq<bool>): Roster
    requires |room| >= |snapshot|
  {
    var all := OfferAll(ks, self, snapshot, room);
    map k | k in all && Mentions(snapshot, k) :: all[k]
  }

  predicate Mentions(snapshot: seq<Peer>, k: DiscoKey) {
    exists i :: 0 <= i < |snapshot| && snapshot[i].discoKey == k
  }

  // The record of a key that a snapshot gives last.
  function LastIndex(snapshot: seq<Peer>, k: DiscoKey): (i: nat)
    requires Mentions(snapshot, k)
    ensures i < |snapshot| && snapshot[i].discoKey == k
    ensures forall j | i < j < |snapshot| :: snapshot[j].discoKey != k
  {
    var n := |snapshot| - 1;
    if snapshot[n].discoKey == k then n
    else
      assert Mentions(snapshot[..n], k) by {
        var i :| 0 <= i < |snapshot| && snapshot[i].discoKey == k;
        assert snapshot[..n][i].discoKey == k;
      }
      LastIndex(snapshot[..n], k)
  }

  // A later record of another key changes nothing for k.
  lemma {:induction false} OffersUpTo(ks: Roster, self: DiscoKey, snapshot: seq<Peer>, room: seq<bool>,
                                      k: DiscoKey, i: nat)
    requires |room| >= |snapshot| && i <= |snapshot|
    requires forall j | i <= j < |snapshot| :: snapshot[j].discoKey != k
    ensures var now, then_ := OfferAll(ks, self, snapshot, room), OfferAll(ks, self, snapshot[..i], room);
            (k in now <==> k in then_) && (k in now ==> now[k] == then_[k])
    decreases |snapshot|
  {
    if i == |snapshot| {
      assert snapshot[..i] == snapshot;
    } else {
      var n := |snapshot| - 1;
      OffersUpTo(ks, self, snapshot[..n], room, k, i);
      assert snapshot[..n][..i] == snapshot[..i];
    }
  }

  // After a reconciliation the machine of k holds the snapshot's record of k if that was handed over:
  // the machine was new, or its channel had room. Otherwise it holds exactly what it held before.
  lemma SyncedRecord(ks: Roster, self: DiscoKey, snapshot: seq<Peer>, room: seq<bool>, k: DiscoKey)
    requires |room| >= |snapshot| && Mentions(snapshot, k) && k != self
    ensures var i := LastIndex(snapshot, k);
            var before := OfferAll(ks, self, snapshot[..i], room);
            && k in Sync(ks, self, snapshot, room)
            && Sync(ks, self, snapshot, room)[k] ==
               if k !in before || room[i] then Known(snapshot[i], false) else before[k].(refused := true)
  {
    var i := LastIndex(snapshot, k);
    OffersUpTo(ks, self, snapshot, room, k, i + 1);
    assert snapshot[..i + 1][..i] == snapshot[..i];
  }

  lemma {:induction false} NobodyIsSelf(ks: Roster, self: DiscoKey, snapshot: seq<Peer>, room: seq<bool>)
    requires |room| >= |snapshot| && self !in ks
    ensures self !in OfferAll(ks, self, snapshot, room)
    decreases |snapshot|
  {
    if snapshot == [] {
    } else {
      NobodyIsSelf(ks, self, snapshot[..|snapshot| - 1], room);
    }
  }

  // --- Between reconciliations machines learn endpoints ---

  predicate Listed(eps: seq<Endpoint>, e: Endpoint) {
    exists i :: 0 <= i < |eps| && eps[i].ip == e.ip && eps[i].port == e.port
  }

  // absorbEndpoints: addresses not yet listed are appended, whatever their source.
  function Absorbed(eps: seq<Endpoint>, found: seq<Endpoint>): seq<Endpoint> {
    if found == [] then eps
    else
      var sofar, e := Absorbed(eps, found[..|found| - 1]), found[|found| - 1];
      if Listed(sofar, e) then sofar else sofar + [e]
  }

  function Learn(ks: Roster, k: DiscoKey, found: seq<Endpoint>): Roster
    requires k in ks
  {
    var r := ks[k].record;
    ks[k := ks[k].(record := r.(endpoints := Absorbed(r.endpoints, found)))]
  }

  // Exactly the addresses of both lists are listed afterwards.
  lemma {:induction false} AbsorbedUnion(eps: seq<Endpoint>, found: seq<Endpoint>, e: Endpoint)
    ensures Listed(Absorbed(eps, found), e) <==> Listed(eps, e) || Listed(found, e)
    decreases |found|
  {
    if found == [] {
    } else {
      var n := |found| - 1;
      AbsorbedUnion(eps, found[..n], e);
      ListedAppend(found[..n], found[n], e);
      assert found == found[..n] + [found[n]];
      ListedAppend(Absorbed(eps, found[..n]), found[n], e);
      if Listed(Absorbed(eps, found[..n]), found[n]) && SameAddress(found[n], e) {
        ListedSame(Absorbed(eps, found[..n]), found[n], e);
      }
    }
  }

  predicate SameAddress(a: Endpoint, b: Endpoint) { a.ip == b.ip && a.port == b.port }

  lemma ListedAppend(s: seq<Endpoint>, last: Endpoint, e: Endpoint)
    ensures Listed(s + [last], e) <==> Listed(s, e) || SameAddress(last, e)
  {
    var t := s + [last];
    assert t[|s|] == last && forall i | 0 <= i < |s| :: t[i] == s[i];
  }

  lemma ListedSame(s: seq<Endpoint>, a: Endpoint, e: Endpoint)
    requires Listed(s, a) && SameAddress(a, e)
    ensures Listed(s, e)
  {}

  lemma {:induction false} AbsorbedExtends(eps: seq<Endpoint>, found: seq<Endpoint>)
    ensures eps <= Absorbed(eps, found)
    decreases |found|
  {
    if found == [] {
    } else {
      AbsorbedExtends(eps, found[..|found| - 1]);
    }
  }

  // A machine that learns endpoints lists the old and the new ones; nothing else changes.
  lemma LearnMeans(ks: Roster, k: DiscoKey, found: seq<Endpoint>, e: Endpoint)
    requires k in ks
    ensures var after := Learn(ks, k, found);
            && after.Keys == ks.Keys && (forall j | j in ks && j != k :: after[j] == ks[j])
            && after[k].(record := after[k].record.(endpoints := ks[k].record.endpoints)) == ks[k]
            && (Listed(after[k].record.endpoints, e) <==> Listed(ks[k].record.endpoints, e) || Listed(found, e))
  {
    AbsorbedUnion(ks[k].record.endpoints, found, e);
  }

  // A record as the registry has it, but for endpoints learnt since, which come after the registry's.
  predicate GrownFrom(r: Peer, registered: Peer) {
    r.(endpoints := registered.endpoints) == registered && registered.endpoints <= r.endpoints
  }

  // Exactly the wanted machines, and each whose last update was not refused has the snapshot's record
  // with at most endpoints learnt since.
  ghost predicate Current(ks: Roster, self: DiscoKey, snapshot: seq<Peer>) {
    && (forall k :: k in ks <==> k != self && Mentions(snapshot, k))
    && (forall k | k in ks && Mentions(snapshot, k) && !ks[k].refused ::
          GrownFrom(ks[k].record, snapshot[LastIndex(snapshot, k)]))
  }

  lemma LearnKeepsCurrent(ks: Roster, self: DiscoKey, snapshot: seq<Peer>, k: DiscoKey, found: seq<Endpoint>)
    requires Current(ks, self, snapshot) && k in ks
    ensures Current(Learn(ks, k, found), self, snapshot)
  {
    AbsorbedExtends(ks[k].record.endpoints, found);
  }

  lemma SyncIsCurrent(ks: Roster, self: DiscoKey, snapshot: seq<Peer>, room: seq<bool>)
    requires |room| >= |snapshot| && self !in ks
    ensures Current(Sync(ks, self, snapshot, room), self, snapshot)
  {
    var s := Sync(ks, self, snapshot, room);
    NobodyIsSelf(ks, self, snapshot, room);
    forall k | k != self && Mentions(snapshot, k)
      ensures k in s && (!s[k].refused ==> GrownFrom(s[k].record, snapshot[LastIndex(snapshot, k)]))
    {
      SyncedRecord(ks, self, snapshot, room, k);
    }
  }

  // With room everywhere every machine has exactly the snapshot's record.
  ghost predicate Exact(ks: Roster, snapshot: seq<Peer>) {
    forall k | k in ks :: Mentions(snapshot, k) && ks[k] == Known(snapshot[LastIndex(snapshot, k)], false)
  }

  lemma SyncWithRoom(ks: Roster, self: DiscoKey, snapshot: seq<Peer>, room: seq<bool>)
    requires |room| >= |snapshot| && self !in ks && forall i | 0 <= i < |snapshot| :: room[i]
    ensures Exact(Sync(ks, self, snapshot, room), snapshot)
  {
    var s := Sync(ks, self, snapshot, room);
    NobodyIsSelf(ks, self, snapshot, room);
    forall k | k in s ensures Mentions(snapshot, k) && s[k] == Known(snapshot[LastIndex(snapshot, k)], false) {
      SyncedRecord(ks, self, snapshot, room, k);
    }
  }
}
