/**
  What a full channel costs: `update` of `internal/daemon/peer.go` then drops the new
  record, and the daemon can be parked with everything else in step.
 */
module UpdateLoss {
  import opened Basics
  import opened AddressPool
  import opened PeerRegistry
  import opened Daemon
  import opened Updates
  import opened LongPoll
  import opened EtagCondition

  // The daemon is about to receive the registry as it stands.
  predicate AboutToReceive(w: World) {
    && w.store.issued != [] && w.store.Etag() != ""
    && w.poll == Replied(|w.store.issued| - 1, w.store.Latest())
  }

  // Reconciled and parked again.
  function Settled(w: World, room: seq<bool>): World
    requires AboutToReceive(w) && |room| >= |w.poll.snap|
  {
    var snap := w.poll.snap;
    w.(poll := Parked(w.store.Etag(), w.store.Channel()), clientEtag := w.store.Etag(),
       last := Seen(w.poll.at, snap), fleet := Reconcile(w.fleet, snap),
       roster := Sync(w.roster, w.fleet.self, snap, room))
  }

  lemma Settle(w: World, room: seq<bool>)
    requires AboutToReceive(w) && |room| >= |w.poll.snap|
    ensures Reaches(w, Settled(w, room))
  {
    var w1 := LongPoll.Apply(w, Receive(room));
    TakeStep(w, Receive(room));
    Park(w1);
    Onward(w, w1, AtRest(w1));
  }

  lemma SettledConverged(w: World, room: seq<bool>)
    requires Inv(w) && AboutToReceive(w) && |room| >= |w.poll.snap|
    ensures ParkedOpen(Settled(w, room)) && Converged(Settled(w, room))
  {
    var snap, v := w.poll.snap, Settled(w, room);
    ReconcileTracksRegistry(w.fleet, snap);
    SyncIsCurrent(w.roster, w.fleet.self, snap, room);
    SnapshotKeys(w.store.registry, w.fleet);
  }

  // Whatever the machine of k held before the channel refused the update, it holds still: the daemon
  // is parked and converged, and that machine knows nothing of the registry's record.
  lemma RefusedUpdateIsLost(w: World, k: DiscoKey)
    requires Inv(w) && AboutToReceive(w) && k in w.roster && Mentions(w.poll.snap, k)
    ensures var v := Settled(w, All(|w.poll.snap|, false));
            && Reaches(w, v) && ParkedOpen(v) && Converged(v)
            && k in v.roster && v.roster[k] == Known(w.roster[k].record, true)
  {
    var room := All(|w.poll.snap|, false);
    Settle(w, room);
    SettledConverged(w, room);
    AllRefused(w.roster, w.fleet.self, w.poll.snap, room, k);
  }

  lemma {:induction false} AllRefused(ks: Roster, self: DiscoKey, snapshot: seq<Peer>, room: seq<bool>, k: DiscoKey)
    requires |room| >= |snapshot| && (forall i | 0 <= i < |snapshot| :: !room[i]) && k in ks && k != self
    ensures var all := OfferAll(ks, self, snapshot, room);
            k in all && all[k] == if Mentions(snapshot, k) then Known(ks[k].record, true) else ks[k]
    decreases |snapshot|
  {
    if snapshot == [] {
    } else {
      var n := |snapshot| - 1;
      AllRefused(ks, self, snapshot[..n], room, k);
      if Mentions(snapshot, k) && snapshot[n].discoKey != k {
        var i :| 0 <= i < |snapshot| && snapshot[i].discoKey == k;
        assert snapshot[..n][i].discoKey == k;
      }
      if Mentions(snapshot[..n], k) {
        var i :| 0 <= i < n && snapshot[..n][i].discoKey == k;
        assert snapshot[i].discoKey == k;
      }
    }
  }

  // A request that reads the registry, up to its reply.
  function Replying(w: World): World
    requires w.store.issued != []
  {
    w.(poll := Replied(|w.store.issued| - 1, w.store.Latest()))
  }

  lemma ReadAndReply(w: World)
    requires w.store.issued != [] && w.poll.Reading?
    ensures Reaches(w, Replying(w))
  {
    var w1 := w.(poll := Marshalling(|w.store.issued| - 1, w.store.Latest()));
    TakeStep(w, Read);
    TakeStep(w1, Reply);
    Onward(w, w1, Replying(w));
  }

  function All(n: nat, room: bool): (s: seq<bool>)
    ensures |s| == n && forall i | 0 <= i < n :: s[i] == room
  {
    seq(n, _ => room)
  }

  lemma ReplyingInv(w: World)
    requires Inv(w)
    ensures Inv(Replying(w))
  {}

  // The poll's timeout is the retry: if the channels have room then, every machine has the registry's record.
  function Retried(w: World): World
    requires w.store.issued != [] && w.store.Etag() != ""
  {
    Settled(Replying(w), All(|w.store.Latest()|, true))
  }

  lemma NextPollRepairs(w: World)
    requires Inv(w) && w.poll.Parked? && w.store.Etag() != ""
    ensures Reaches(w, Retried(w)) && ParkedOpen(Retried(w)) && Converged(Retried(w))
    ensures Exact(Retried(w).roster, w.store.Latest())
  {
    Retry(w);
    RetriedIsExact(w);
  }

  lemma RetriedIsExact(w: World)
    requires Inv(w) && w.store.Etag() != ""
    ensures ParkedOpen(Retried(w)) && Converged(Retried(w)) && Exact(Retried(w).roster, w.store.Latest())
  {
    ReplyingInv(w);
    SettledWithRoom(Replying(w), All(|w.store.Latest()|, true));
  }

  lemma Retry(w: World)
    requires w.store.issued != [] && w.store.Etag() != "" && w.poll.Parked?
    ensures Reaches(w, Retried(w))
  {
    TimeOut(w);
    Settle(Replying(w), All(|w.store.Latest()|, true));
    Onward(w, Replying(w), Retried(w));
  }

  lemma SettledWithRoom(w: World, room: seq<bool>)
    requires Inv(w) && AboutToReceive(w) && |room| >= |w.poll.snap| && forall i | 0 <= i < |room| :: room[i]
    ensures ParkedOpen(Settled(w, room)) && Converged(Settled(w, room))
    ensures Exact(Settled(w, room).roster, w.store.Latest())
  {
    SettledConverged(w, room);
    SyncWithRoom(w.roster, w.fleet.self, w.poll.snap, room);
  }

  lemma TimeOut(w: World)
    requires w.store.issued != [] && w.poll.Parked?
    ensures Reaches(w, Replying(w))
  {
    var w1 := w.(poll := Reading);
    TakeStep(w, Timeout);
    ReadAndReply(w1);
    Onward(w, w1, Replying(w));
  }

  // An idle daemon whose etag is not the store's gets an answer at once.
  lemma AskAgain(w: World)
    requires w.store.issued != [] && w.poll.Idle? && w.clientEtag != w.store.Etag()
    ensures Reaches(w, Replying(w))
  {
    var w1 := LongPoll.Apply(w, Ask);
    TakeStep(w, Ask);
    var w2 := w.(poll := Reading);
    if w1 != w2 {
      TakeStep(w1, Check);
      Onward(w, w1, w2);
    }
    ReadAndReply(w2);
    Onward(w, w2, Replying(w));
  }

  // The daemon has polled for the first time and reconciled store s.
  function Polled(w: World, s: Store): World
    requires s.issued != []
  {
    Answered(Answering(w, s, s.Latest()))
  }

  lemma FirstPoll(w: World, s: Store)
    requires LeadsTo(w.store, s) && w.store.issued != [] && s.issued != [] && w.poll.Idle? && w.clientEtag == ""
    ensures Reaches(w, Polled(w, s))
  {
    var w1 := Answering(w, s, s.Latest());
    FirstRead(w, s);
    Answer(w1);
    Onward(w, w1, Polled(w, s));
  }

  // Then the store moves on to t, and the daemon hears of it.
  lemma SecondPoll(w: World, t: Store)
    requires LeadsTo(w.store, t) && w.store.issued != [] && t.issued != [] && w.poll.Idle? && w.clientEtag != t.Etag()
    ensures Reaches(w, Replying(w.(store := t)))
  {
    var w1 := w.(store := t);
    Advance(w, t);
    AskAgain(w1);
    Onward(w, w1, Replying(w1));
  }

  // The daemon has reconciled store s and is about to receive store t.
  function Between(w: World, s: Store, t: Store): World
    requires s.issued != [] && t.issued != []
  {
    Replying(Polled(w, s).(store := t))
  }

  lemma BothPolls(w: World, s: Store, t: Store)
    requires LeadsTo(w.store, s) && LeadsTo(s, t) && w.store.issued != [] && s.issued != [] && t.issued != []
    requires w.poll.Idle? && w.clientEtag == "" && s.Etag() != t.Etag()
    ensures Reaches(w, Between(w, s, t))
  {
    FirstPoll(w, s);
    SecondPoll(Polled(w, s), t);
    Onward(w, Polled(w, s), Between(w, s, t));
  }

  lemma FirstRecord(w: World, s: Store, t: Store, k: DiscoKey)
    requires s.issued != [] && t.issued != [] && k != w.fleet.self && Mentions(s.Latest(), k)
    requires w.roster == map[]
    ensures var v := Between(w, s, t);
            k in v.roster && v.roster[k].record == s.Latest()[LastIndex(s.Latest(), k)]
  {
    SyncedRecord(w.roster, w.fleet.self, s.Latest(), seq(|s.Latest()|, _ => true), k);
  }

  lemma BetweenInv(w: World, s: Store, t: Store)
    requires Inv(w) && LeadsTo(w.store, s) && LeadsTo(s, t) && s.issued != [] && t.issued != []
    requires w.poll.Idle? && w.clientEtag == "" && s.Etag() != t.Etag()
    ensures Inv(Between(w, s, t)) && Reaches(w, Between(w, s, t))
  {
    BothPolls(w, s, t);
    ReachedKeepsInv(w, Between(w, s, t));
  }

  // The daemon has reconciled s, and the channels were full when it reconciled t.
  function Refused(w: World, s: Store, t: Store): World
    requires s.issued != [] && t.issued != [] && t.Etag() != ""
  {
    Settled(Between(w, s, t), All(|t.Latest()|, false))
  }

  lemma RefusedAfter(w: World, s: Store, t: Store, k: DiscoKey)
    requires s.issued != [] && t.issued != [] && t.Etag() != "" && Mentions(t.Latest(), k)
    requires Inv(Between(w, s, t)) && k in Between(w, s, t).roster
    ensures var v := Refused(w, s, t);
            && Reaches(Between(w, s, t), v) && v.store == t && ParkedOpen(v) && Converged(v)
            && k in v.roster && v.roster[k] == Known(Between(w, s, t).roster[k].record, true)
  {
    RefusedUpdateIsLost(Between(w, s, t), k);
  }

  // Any record the registry ever had for a key can be what its machine holds while the daemon is parked
  // on an open channel with the current snapshot: the update after it met a full channel.
  lemma StaleRecord(pool: Pool, etag: Etag, self: DiscoKey, pattern: Pattern, s: Store, t: Store, k: DiscoKey)
    requires pool.Valid() && LeadsTo(NewStore(pool, etag), s) && LeadsTo(s, t) && s.issued != [] && t.issued != []
    requires s.Etag() != t.Etag() && t.Etag() != ""
    requires k != self && Mentions(s.Latest(), k) && Mentions(t.Latest(), k)
    ensures var w0 := Init(pool, etag, self, pattern);
            var v := Refused(w0, s, t);
            && Reaches(w0, v) && v.store == t && ParkedOpen(v) && Converged(v)
            && k in v.roster && v.roster[k] == Known(s.Latest()[LastIndex(s.Latest(), k)], true)
  {
    var w0 := Init(pool, etag, self, pattern);
    InitInv(pool, etag, self, pattern);
    BetweenInv(w0, s, t);
    FirstRecord(w0, s, t, k);
    RefusedAfter(w0, s, t, k);
    Onward(w0, Between(w0, s, t), Refused(w0, s, t));
  }
}
