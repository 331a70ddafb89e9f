/**
  When a daemon on the long poll converges: exactly when the etags issued tell the
  snapshots apart. `internal/coord/store.go` takes its etags from the clock.
 */
module EtagCondition {
  import opened Basics
  import opened AddressPool
  import opened PeerRegistry
  import opened Daemon
  import opened Updates
  import opened LongPoll

  // --- Runs and histories compose ---

  lemma TakeStep(w: World, x: Step)
    requires Enabled(w, x)
    ensures Reaches(w, LongPoll.Apply(w, x))
  {
    var run := [w, LongPoll.Apply(w, x)];
    assert IsStep(run[0], x, run[1]);
    assert Steps(run, 1);
    assert Joins(run, w, LongPoll.Apply(w, x));
  }

  lemma Onward(u: World, v: World, w: World)
    requires Reaches(u, v) && Reaches(v, w)
    ensures Reaches(u, w)
  {
    var a :| Joins(a, u, v);
    var b :| Joins(b, v, w);
    var run := a + b[1..];
    forall i | 0 < i < |run| ensures Steps(run, i) {
      if i < |a| {
        assert Steps(a, i);
      } else {
        assert Steps(b, i - |a| + 1);
        assert run[i] == b[i - |a| + 1] && run[i - 1] == b[i - |a|];
      }
    }
    assert run[|run| - 1] == w;
    assert Joins(run, u, w);
  }

  lemma {:induction false} HistoryGrows(path: seq<Store>, i: nat, j: nat)
    requires IsHistory(path) && i <= j < |path|
    ensures path[i].issued <= path[j].issued
    decreases j
  {
    if i == j {
    } else {
      assert Follows(path, j);
      HistoryGrows(path, i, j - 1);
    }
  }

  // Where in a history the i-th etag is issued.
  lemma {:induction false} Place(path: seq<Store>, k: nat, i: nat) returns (m: nat)
    requires IsHistory(path) && k < |path| && |path[0].issued| <= i + 1 <= |path[k].issued|
    ensures m <= k && |path[m].issued| == i + 1
    decreases k
  {
    m := k;
    if |path[k].issued| > i + 1 {
      assert Follows(path, k);
      m := Place(path, k - 1, i);
    }
  }

  lemma Parts(path: seq<Store>, m: nat)
    requires IsHistory(path) && m < |path|
    ensures IsHistory(path[..m + 1]) && IsHistory(path[m..])
  {
    var a, b := path[..m + 1], path[m..];
    forall k | 0 < k < |a| ensures Follows(a, k) { assert Follows(path, k); }
    forall k | 0 < k < |b| ensures Follows(b, k) {
      assert Follows(path, m + k);
      assert b[k] == path[m + k] && b[k - 1] == path[m + k - 1];
    }
  }

  // The store that has just issued its i-th etag.
  lemma Stop(s: Store, t: Store, i: nat) returns (u: Store)
    requires LeadsTo(s, t) && |s.issued| <= i + 1 <= |t.issued|
    ensures LeadsTo(s, u) && LeadsTo(u, t) && s.issued <= u.issued == t.issued[..i + 1]
  {
    var path :| IsHistory(path) && path[0] == s && path[|path| - 1] == t;
    var m := Place(path, |path| - 1, i);
    u := path[m];
    HistoryGrows(path, m, |path| - 1);
    HistoryGrows(path, 0, m);
    Parts(path, m);
    assert path[..m + 1][0] == s && path[m..][|path[m..]| - 1] == t;
  }

  // Mutations while the daemon stands still.
  lemma Advance(w: World, t: Store)
    requires LeadsTo(w.store, t) && w.store.issued != []
    ensures Reaches(w, w.(store := t))
  {
    var path :| IsHistory(path) && path[0] == w.store && path[|path| - 1] == t;
    var run := seq(|path|, i requires 0 <= i < |path| => w.(store := path[i]));
    forall i | 0 < i < |run| ensures Steps(run, i) {
      assert Follows(path, i);
      var x :| IsMutation(path[i - 1], x, path[i]);
      HistoryGrows(path, 0, i - 1);
      assert IsStep(run[i - 1], Mutate(x, path[i]), run[i]);
    }
    assert Joins(run, w, w.(store := t));
  }

  // --- The witness runs ---

  // The poll is being answered with snap, read from store s.
  function Answering(w: World, s: Store, snap: seq<Peer>): World
    requires s.issued != []
  {
    w.(store := s, poll := Marshalling(|s.issued| - 1, snap))
  }

  lemma FirstRead(w: World, s: Store)
    requires LeadsTo(w.store, s) && w.store.issued != [] && s.issued != [] && w.poll.Idle? && w.clientEtag == ""
    ensures Reaches(w, Answering(w, s, s.Latest()))
  {
    var w1 := w.(store := s);
    Advance(w, s);
    var w2 := w1.(poll := Reading);
    TakeStep(w1, Ask);
    TakeStep(w2, Read);
    Onward(w, w1, w2);
    Onward(w, w2, Answering(w, s, s.Latest()));
  }

  // The reply being written is received and reconciled.
  function Answered(w: World): World
    requires w.poll.Marshalling? && w.poll.at < |w.store.issued|
  {
    w.(poll := Idle, clientEtag := w.store.issued[w.poll.at].tag, last := Seen(w.poll.at, w.poll.snap),
       fleet := Reconcile(w.fleet, w.poll.snap),
       roster := Sync(w.roster, w.fleet.self, w.poll.snap, seq(|w.poll.snap|, _ => true)))
  }

  lemma Answer(w: World)
    requires w.poll.Marshalling? && w.poll.at < |w.store.issued|
    ensures Reaches(w, Answered(w))
  {
    var w1 := LongPoll.Apply(w, Reply);
    TakeStep(w, Reply);
    TakeStep(w1, Receive(seq(|w.poll.snap|, _ => true)));
    Onward(w, w1, Answered(w));
  }

  function AtRest(w: World): World
    requires w.store.issued != []
  {
    w.(poll := Parked(w.clientEtag, w.store.Channel()))
  }

  lemma Park(w: World)
    requires w.store.issued != [] && w.poll.Idle? && w.clientEtag == w.store.Etag() != ""
    ensures Reaches(w, AtRest(w))
  {
    var w1 := LongPoll.Apply(w, Ask);
    TakeStep(w, Ask);
    TakeStep(w1, Check);
    Onward(w, w1, AtRest(w));
  }

  // A reply whose etag comes back for another snapshot leaves the daemon parked and not converged.
  lemma Stale(w: World, t: Store) returns (v: World)
    requires LeadsTo(w.store, t) && w.store.issued <= t.issued
    requires w.poll.Marshalling? && w.poll.at < |w.store.issued|
    requires t.issued[w.poll.at].tag == t.Etag() != "" && w.poll.snap != t.Latest()
    ensures Reaches(w, v) && v.store == t && ParkedOpen(v) && !Converged(v)
  {
    var w1 := Answered(w);
    Answer(w);
    var w2 := w1.(store := t);
    Advance(w1, t);
    Onward(w, w1, w2);
    v := AtRest(w2);
    Park(w2);
    Onward(w, w2, v);
  }

  // A reply still being written when the store has overwritten one of its endpoints.
  lemma TornRead(w: World, t: Store, p: nat, q: nat) returns (v: World)
    requires LeadsTo(w.store, t) && w.store.issued != [] && w.poll.Marshalling? && w.poll.at + 1 < |t.issued|
    requires EndpointAt(w.poll.snap, p, q) && Shared(t.issued[w.poll.at], t.issued[|t.issued| - 1], p, q)
    ensures Reaches(w, v)
    ensures var torn := SetEndpoint(w.poll.snap, p, q, t.Latest()[p].endpoints[q]);
            v == w.(store := t, poll := Marshalling(w.poll.at, torn))
  {
    var w1 := w.(store := t);
    Advance(w, t);
    var x := Tear(p, q, |t.issued| - 1);
    v := LongPoll.Apply(w1, x);
    TakeStep(w1, x);
    Onward(w, w1, v);
  }

  // A world reached over a prefix of what is issued, parked on an open channel and not converged.
  ghost predicate Hides(w: World, issued: seq<Issue>, v: World) {
    Reaches(w, v) && v.store.issued <= issued && ParkedOpen(v) && !Converged(v)
  }

  // An etag that comes back for another snapshot.
  lemma RepeatHidesChange(w: World, s: Store, t: Store) returns (v: World)
    requires LeadsTo(w.store, s) && LeadsTo(s, t) && [] != w.store.issued <= s.issued <= t.issued
    requires w.poll.Idle? && w.clientEtag == "" && s.Etag() == t.Etag() != "" && s.Latest() != t.Latest()
    ensures Hides(w, t.issued, v)
  {
    var w1 := Answering(w, s, s.Latest());
    FirstRead(w, s);
    v := Stale(w1, t);
    Onward(w, w1, v);
  }

  // An etag that comes back after an endpoint it stood for was overwritten.
  lemma RepeatHidesTear(w: World, s: Store, t: Store, u: Store, p: nat, q: nat) returns (v: World)
    requires LeadsTo(w.store, s) && LeadsTo(s, t) && LeadsTo(t, u)
    requires [] != w.store.issued <= s.issued < t.issued <= u.issued && w.poll.Idle? && w.clientEtag == ""
    requires s.Etag() == u.Etag() != "" && s.Latest() == u.Latest()
    requires Shared(s.issued[|s.issued| - 1], t.issued[|t.issued| - 1], p, q)
    requires s.Latest()[p].endpoints[q] != t.Latest()[p].endpoints[q]
    ensures Hides(w, u.issued, v)
  {
    var w1 := Answering(w, s, s.Latest());
    FirstRead(w, s);
    var w2 := TornRead(w1, t, p, q);
    assert w2.poll.snap[p].endpoints[q] != s.Latest()[p].endpoints[q];
    v := Stale(w2, u);
    Onward(w, w1, w2);
    Onward(w, w2, v);
  }

  ghost predicate Clash(issued: seq<Issue>, i: nat, j: nat) {
    && i < j < |issued| && issued[i].tag == issued[j].tag != ""
    && (issued[i].snap != issued[j].snap || exists m :: ClashBetween(issued, i, m, j))
  }

  ghost predicate ClashBetween(issued: seq<Issue>, i: nat, m: nat, j: nat) {
    i < m < j < |issued| && !AgreeOnEndpoints(issued[i], issued[m])
  }

  lemma ClashUnlessApart(issued: seq<Issue>) returns (i: nat, j: nat)
    requires !EtagsTellApart(issued)
    ensures Clash(issued, i, j)
  {
    i, j :| 0 <= i < j < |issued| && issued[i].tag == issued[j].tag != "" &&
            !(issued[i].snap == issued[j].snap && forall m | i < m < j :: AgreeOnEndpoints(issued[i], issued[m]));
    if issued[i].snap == issued[j].snap {
      var m :| i < m < j && !AgreeOnEndpoints(issued[i], issued[m]);
      assert ClashBetween(issued, i, m, j);
    }
  }

  lemma ClashHides(w: World, t: Store, i: nat, j: nat) returns (v: World)
    requires LeadsTo(w.store, t) && |w.store.issued| == 1 && w.poll.Idle? && w.clientEtag == ""
    requires Clash(t.issued, i, j)
    ensures Hides(w, t.issued, v)
  {
    var b := Stop(w.store, t, j);
    var a := Stop(w.store, b, i);
    assert a.issued[i] == t.issued[i] && b.issued[j] == t.issued[j];
    if t.issued[i].snap != t.issued[j].snap {
      v := RepeatHidesChange(w, a, b);
    } else {
      var m: nat :| ClashBetween(t.issued, i, m, j);
      assert b.issued[m] == t.issued[m];
      v := TearHides(w, a, b, m);
    }
  }

  lemma TearHides(w: World, a: Store, b: Store, m: nat) returns (v: World)
    requires LeadsTo(w.store, a) && LeadsTo(a, b) && [] != w.store.issued <= a.issued <= b.issued
    requires w.poll.Idle? && w.clientEtag == "" && |a.issued| <= m < |b.issued| - 1
    requires a.Etag() == b.Etag() != "" && a.Latest() == b.Latest()
    requires !AgreeOnEndpoints(a.issued[|a.issued| - 1], b.issued[m])
    ensures Hides(w, b.issued, v)
  {
    var c := Stop(a, b, m);
    var x, y := a.issued[|a.issued| - 1], c.issued[|c.issued| - 1];
    assert y == b.issued[m];
    var p: nat, q: nat :| Shared(x, y, p, q) && x.snap[p].endpoints[q] != y.snap[p].endpoints[q];
    v := RepeatHidesTear(w, a, c, b, p, q);
  }

  // For every store that mutations can lead to, with the etags the clock gave them: every interleaving of
  // these mutations with polls, failures and torn replies has converged whenever it is parked on an open
  // channel, if and only if the etags tell the snapshots apart.
  lemma ConvergesIff(pool: Pool, etag: Etag, self: DiscoKey, pattern: Pattern, t: Store)
    requires pool.Valid() && LeadsTo(NewStore(pool, etag), t)
    ensures EtagsTellApart(t.issued) <==>
            forall v | Reaches(Init(pool, etag, self, pattern), v) && v.store.issued <= t.issued ::
              ParkedOpen(v) ==> Converged(v)
  {
    var w0 := Init(pool, etag, self, pattern);
    if EtagsTellApart(t.issued) {
      forall v | Reaches(w0, v) && v.store.issued <= t.issued ensures ParkedOpen(v) ==> Converged(v) {
        PrefixTellsApart(v.store.issued, t.issued);
        ParkedMeansConverged(pool, etag, self, pattern, v);
      }
    } else {
      var i, j := ClashUnlessApart(t.issued);
      var v := ClashHides(w0, t, i, j);
    }
  }
}
