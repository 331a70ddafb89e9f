/**
  The relay queues of `internal/coord/store.go`: at most 64 envelopes per
  recipient, the oldest dropped first, stale ones dropped on pop.

  The history of lock sections decides the fate of every envelope; `Fate` says
  so without mentioning queues, and the code's queues are shown to agree with it.
 */
module SignalQueue {
  import opened Basics
  import opened PeerRegistry

  const DEPTH: nat := 64
  const MAX_AGE: Time := 30_000_000_000

  datatype Envelope = Envelope(from: DiscoKey, sealed: seq<Byte>, enqueued: Time)

  datatype Event = Enqueue(to: DiscoKey, env: Envelope) | Pop(to: DiscoKey, now: Time)

  // --- The fate of the envelope enqueued by event i, from the history alone ---

  datatype Fate = Queued | DeliveredAt(pop: nat) | ExpiredAt(pop: nat) | Dropped

  predicate Sends(h: seq<Event>, i: int, to: DiscoKey) { 0 <= i < |h| && h[i].Enqueue? && h[i].to == to }
  predicate Pops(h: seq<Event>, i: int, to: DiscoKey) { 0 <= i < |h| && h[i].Pop? && h[i].to == to }

  // The first pop for `to` at or after k, or the length of the history.
  function FirstPop(h: seq<Event>, to: DiscoKey, k: nat): (j: nat)
    requires k <= |h|
    ensures k <= j <= |h|
    ensures j < |h| ==> Pops(h, j, to)
    ensures forall m | k <= m < j :: !Pops(h, m, to)
    decreases |h| - k
  {
    if k == |h| || Pops(h, k, to) then k else FirstPop(h, to, k + 1)
  }

  // How many envelopes for `to` came after event i.
  function Later(h: seq<Event>, to: DiscoKey, i: nat): nat {
    if |h| <= i + 1 then 0
    else Later(h[..|h| - 1], to, i) + if Sends(h, |h| - 1, to) then 1 else 0
  }

  predicate Fresh(e: Envelope, now: Time) { e.enqueued > now - MAX_AGE }

  function FateOf(h: seq<Event>, i: nat): Fate
    requires i < |h| && h[i].Enqueue?
  {
    var to := h[i].to;
    var j := FirstPop(h, to, i + 1);
    if Later(h[..j], to, i) >= DEPTH then Dropped
    else if j == |h| then Queued
    else if Fresh(h[i].env, h[j].now) then DeliveredAt(j)
    else ExpiredAt(j)
  }

  // The fates in seconds and counts: an envelope meets the first pop for its recipient, if any, unless 64 later
  // ones came before that; the pop delivers it if it is younger than 30 s, and discards it otherwise.
  lemma FateMeans(h: seq<Event>, i: nat)
    requires i < |h| && h[i].Enqueue?
    ensures var to, j, fate := h[i].to, FirstPop(h, h[i].to, i + 1), FateOf(h, i);
            && (fate == Dropped <==> Later(h[..j], to, i) >= 64)
            && (fate == Queued <==> Later(h[..j], to, i) < 64 && forall m | i < m < |h| :: !Pops(h, m, to))
            && (fate.DeliveredAt? ==> Met(h, i, fate.pop) && h[fate.pop].now - h[i].env.enqueued < 30_000_000_000)
            && (fate.ExpiredAt? ==> Met(h, i, fate.pop) && h[fate.pop].now - h[i].env.enqueued >= 30_000_000_000)
  {
    var j := FirstPop(h, h[i].to, i + 1);
    if forall m | i < m < |h| :: !Pops(h, m, h[i].to) { assert j == |h|; }
  }

  // Pop j is the first for the recipient of envelope i after it.
  predicate Met(h: seq<Event>, i: nat, j: nat)
    requires i < |h| && h[i].Enqueue?
  {
    && i < j < |h| && Pops(h, j, h[i].to)
    && forall m | i < m < j :: !Pops(h, m, h[i].to)
  }

  // An envelope that a pop delivers would have been delivered by it at any earlier time, too.
  lemma DeliveredIfEarlier(h: seq<Event>, i: nat, j: nat, now: Time)
    requires i < |h| && h[i].Enqueue? && FateOf(h, i) == DeliveredAt(j) && now <= h[j].now
    ensures FateOf(h[j := Pop(h[j].to, now)], i) == DeliveredAt(j)
  {
    var to, g := h[i].to, h[j := Pop(h[j].to, now)];
    assert forall m | 0 <= m < |h| :: Pops(g, m, to) <==> Pops(h, m, to);
    var k := FirstPop(g, to, i + 1);
    assert k >= j;
    assert k == j;
    assert g[..j] == h[..j];
  }

  // --- The queues, holding the indices of the events that filled them ---

  function Push<T>(q: seq<T>, x: T): seq<T> { (if |q| >= DEPTH then q[1..] else q) + [x] }

  lemma PushAt<T>(q: seq<T>, x: T)
    ensures var r, d := Push(q, x), if |q| >= DEPTH then 1 else 0;
            && |r| == |q| - d + 1 && r[|r| - 1] == x
            && forall p | 0 <= p < |r| - 1 :: r[p] == q[p + d]
  {}

  function QueueOf(h: seq<Event>, to: DiscoKey): (q: seq<nat>)
    ensures |q| <= DEPTH
    ensures forall p | 0 <= p < |q| :: Sends(h, q[p], to)
  {
    if h == [] then []
    else
      var n := |h| - 1;
      if Sends(h, n, to) then Push(QueueOf(h[..n], to), n)
      else if Pops(h, n, to) then []
      else QueueOf(h[..n], to)
  }

  function KeepFresh(h: seq<Event>, q: seq<nat>, now: Time): (r: seq<nat>)
    requires forall p | 0 <= p < |q| :: q[p] < |h| && h[q[p]].Enqueue?
    ensures forall x :: x in r <==> x in q && Fresh(h[x].env, now)
    ensures forall p | 0 <= p < |r| :: r[p] < |h| && h[r[p]].Enqueue?
  {
    if q == [] then []
    else
      var rest, x := KeepFresh(h, q[..|q| - 1], now), q[|q| - 1];
      assert q == q[..|q| - 1] + [x];
      if Fresh(h[x].env, now) then rest + [x] else rest
  }

  // What the pop at event j returns.
  function Delivery(h: seq<Event>, j: nat): seq<nat>
    requires j < |h| && h[j].Pop?
  {
    KeepFresh(h[..j], QueueOf(h[..j], h[j].to), h[j].now)
  }

  // --- Queue contents ---

  // The envelopes for `to` since its last pop.
  function Since(h: seq<Event>, to: DiscoKey): seq<nat> {
    if h == [] then []
    else
      var n := |h| - 1;
      if Sends(h, n, to) then Since(h[..n], to) + [n]
      else if Pops(h, n, to) then []
      else Since(h[..n], to)
  }

  function LastN<T>(s: seq<T>, n: nat): seq<T> { if |s| <= n then s else s[|s| - n..] }

  lemma {:induction false} QueueIsLast64(h: seq<Event>, to: DiscoKey)
    ensures QueueOf(h, to) == LastN(Since(h, to), 64)
    decreases |h|
  {
    if h == [] {
    } else {
      QueueIsLast64(h[..|h| - 1], to);
    }
  }

  lemma {:induction false} FirstPopExtend(h: seq<Event>, to: DiscoKey, k: nat)
    requires h != [] && k < |h|
    ensures var n := |h| - 1;
            var j := FirstPop(h[..n], to, k);
            FirstPop(h, to, k) == if j < n then j else if Pops(h, n, to) then n else n + 1
    decreases |h| - k
  {
    var n := |h| - 1;
    if k < n && !Pops(h, k, to) { FirstPopExtend(h, to, k + 1); }
  }

  // The envelope of event i is still in the queue of `to`.
  predicate InQueue(h: seq<Event>, to: DiscoKey, i: int) {
    Sends(h, i, to) && FirstPop(h, to, i + 1) == |h| && Later(h, to, i) < DEPTH
  }

  // Position p of a queue of length m holds the envelope with m - 1 - p later ones.
  ghost predicate Positions(h: seq<Event>, to: DiscoKey) {
    var q := QueueOf(h, to);
    && Increasing(q)
    && forall p | 0 <= p < |q| :: InQueue(h, to, q[p]) && Later(h, to, q[p]) == |q| - 1 - p
  }

  ghost predicate Increasing(s: seq<nat>) { forall p, r | 0 <= p < r < |s| :: s[p] < s[r] }

  lemma InQueueExtend(h: seq<Event>, to: DiscoKey, i: nat)
    requires h != [] && i < |h| - 1
    ensures var n := |h| - 1;
            && Later(h, to, i) == Later(h[..n], to, i) + (if Sends(h, n, to) then 1 else 0)
            && (InQueue(h, to, i) <==> InQueue(h[..n], to, i) && !Pops(h, n, to) && Later(h, to, i) < DEPTH)
  {
    FirstPopExtend(h, to, i + 1);
  }

  lemma {:induction false} QueuePositions(h: seq<Event>, to: DiscoKey)
    ensures Positions(h, to)
    decreases |h|
  {
    if h == [] {
    } else {
      var n := |h| - 1;
      QueuePositions(h[..n], to);
      var q, q' := QueueOf(h, to), QueueOf(h[..n], to);
      forall p | 0 <= p < |q'| && q'[p] in q
        ensures Later(h, to, q'[p]) == |q'| - 1 - p + (if Sends(h, n, to) then 1 else 0)
        ensures !Pops(h, n, to) && Later(h, to, q'[p]) < DEPTH ==> InQueue(h, to, q'[p])
      {
        InQueueExtend(h, to, q'[p]);
      }
      if Sends(h, n, to) { PushedPositions(h, to); }
    }
  }

  lemma PushIncreasing(q: seq<nat>, x: nat)
    requires Increasing(q) && forall p | 0 <= p < |q| :: q[p] < x
    ensures Increasing(Push(q, x))
  {
    PushAt(q, x);
  }

  lemma PushedPosition(h: seq<Event>, to: DiscoKey, p: nat)
    requires h != [] && Sends(h, |h| - 1, to) && Positions(h[..|h| - 1], to) && p < |QueueOf(h, to)|
    ensures var q := QueueOf(h, to);
            InQueue(h, to, q[p]) && Later(h, to, q[p]) == |q| - 1 - p
  {
    var q' := QueueOf(h[..|h| - 1], to);
    PushAt(q', |h| - 1);
    if p < |QueueOf(h, to)| - 1 {
      var d := if |q'| >= DEPTH then 1 else 0;
      InQueueExtend(h, to, q'[p + d]);
    }
  }

  lemma PushedPositions(h: seq<Event>, to: DiscoKey)
    requires h != [] && Sends(h, |h| - 1, to) && Positions(h[..|h| - 1], to)
    ensures Positions(h, to)
  {
    PushIncreasing(QueueOf(h[..|h| - 1], to), |h| - 1);
    forall p | 0 <= p < |QueueOf(h, to)|
      ensures var q := QueueOf(h, to);
              InQueue(h, to, q[p]) && Later(h, to, q[p]) == |q| - 1 - p
    {
      PushedPosition(h, to, p);
    }
  }

  lemma {:induction false} QueueComplete(h: seq<Event>, to: DiscoKey, i: nat)
    requires InQueue(h, to, i)
    ensures i in QueueOf(h, to)
    decreases |h|
  {
    var n := |h| - 1;
    var q := QueueOf(h, to);
    if i == n {
      assert q[|q| - 1] == n;
    } else {
      InQueueExtend(h, to, i);
      QueueComplete(h[..n], to, i);
      if Sends(h, n, to) {
        QueuePositions(h[..n], to);
        var q' := QueueOf(h[..n], to);
        var p :| 0 <= p < |q'| && q'[p] == i;
        assert q[if |q'| >= DEPTH then p - 1 else p] == i;
      }
    }
  }

  // --- Main results ---

  // The code's queue and deliveries agree with the fates: an envelope is queued, or
  // returned by exactly the pop that its fate names, or expired there, or was
  // overtaken by at least 64 later ones for the same recipient.
  lemma QueueAgreesWithFate(h: seq<Event>, to: DiscoKey, i: nat)
    requires i < |h| && h[i].Enqueue?
    ensures i in QueueOf(h, to) <==> h[i].to == to && FateOf(h, i) == Queued
  {
    QueuePositions(h, to);
    assert h[..|h|] == h;
    if i in QueueOf(h, to) {
      var p :| 0 <= p < |QueueOf(h, to)| && QueueOf(h, to)[p] == i;
    }
    if InQueue(h, to, i) { QueueComplete(h, to, i); }
  }

  lemma DeliveryAgreesWithFate(h: seq<Event>, j: nat, i: nat)
    requires j < |h| && h[j].Pop? && i < |h| && h[i].Enqueue?
    ensures i in Delivery(h, j) <==> FateOf(h, i) == DeliveredAt(j)
  {
    var to, g := h[j].to, h[..j];
    QueuePositions(g, to);
    if i in QueueOf(g, to) {
      var p :| 0 <= p < |QueueOf(g, to)| && QueueOf(g, to)[p] == i;
      FirstPopPrefix(h, to, i + 1, j);
    }
    if FateOf(h, i) == DeliveredAt(j) {
      FirstPopPrefix(h, h[i].to, i + 1, j);
      QueueComplete(g, to, i);
    }
  }

  lemma {:induction false} FirstPopPrefix(h: seq<Event>, to: DiscoKey, k: nat, j: nat)
    requires k <= j < |h| && Pops(h, j, to)
    ensures FirstPop(h[..j], to, k) == j <==> FirstPop(h, to, k) == j
    decreases j - k
  {
    if k < j && !Pops(h, k, to) { FirstPopPrefix(h, to, k + 1, j); }
  }

  // Everything ever returned for `to`, in order of delivery.
  function AllDelivered(h: seq<Event>, to: DiscoKey): seq<nat> {
    if h == [] then []
    else
      var n := |h| - 1;
      AllDelivered(h[..n], to) + if Pops(h, n, to) then Delivery(h, n) else []
  }

  lemma {:induction false} KeepFreshIncreasing(h: seq<Event>, q: seq<nat>, now: Time)
    requires forall p | 0 <= p < |q| :: q[p] < |h| && h[q[p]].Enqueue?
    requires Increasing(q)
    ensures Increasing(KeepFresh(h, q, now))
  {
    if q == [] {
    } else {
      var rest := q[..|q| - 1];
      KeepFreshIncreasing(h, rest, now);
      JoinIncreasing(KeepFresh(h, rest, now), [q[|q| - 1]]);
    }
  }

  lemma DeliveryInOrder(h: seq<Event>, j: nat)
    requires j < |h| && h[j].Pop?
    ensures Increasing(Delivery(h, j))
    ensures forall x | x in Delivery(h, j) :: x in QueueOf(h[..j], h[j].to) && Sends(h, x, h[j].to)
  {
    var q := QueueOf(h[..j], h[j].to);
    QueuePositions(h[..j], h[j].to);
    KeepFreshIncreasing(h[..j], q, h[j].now);
    forall x | x in Delivery(h, j) ensures Sends(h, x, h[j].to) {
      var p :| 0 <= p < |q| && q[p] == x;
    }
  }

  // All deliveries, concatenated, are a subsequence of what was enqueued for the
  // recipient: each envelope at most once, in the order of arrival.
  lemma {:induction false} DeliveredInOrder(h: seq<Event>, to: DiscoKey)
    ensures Increasing(AllDelivered(h, to))
    ensures forall x | x in AllDelivered(h, to) :: Sends(h, x, to)
    ensures forall x, y | x in AllDelivered(h, to) && y in QueueOf(h, to) :: x < y
    decreases |h|
  {
    if h == [] {
    } else {
      var n := |h| - 1;
      var before := AllDelivered(h[..n], to);
      DeliveredInOrder(h[..n], to);
      assert forall x | x in before :: Sends(h, x, to) && x < n;
      if Pops(h, n, to) {
        DeliveryInOrder(h, n);
        JoinIncreasing(before, Delivery(h, n));
      } else {
        assert AllDelivered(h, to) == before;
        assert forall y | y in QueueOf(h, to) :: y == n || y in QueueOf(h[..n], to);
      }
    }
  }

  lemma JoinIncreasing(a: seq<nat>, b: seq<nat>)
    requires Increasing(a) && Increasing(b)
    requires forall x, y | x in a && y in b :: x < y
    ensures Increasing(a + b)
  {
    forall p, r | 0 <= p < r < |a + b| ensures (a + b)[p] < (a + b)[r] {
      if p < |a| <= r { assert a[p] in a && b[r - |a|] in b; }
    }
  }

  // --- The code ---

  ghost function Envelopes(h: seq<Event>, q: seq<nat>): (s: seq<Envelope>)
    requires forall p | 0 <= p < |q| :: q[p] < |h| && h[q[p]].Enqueue?
    ensures |s| == |q|
  {
    seq(|q|, p requires 0 <= p < |q| => h[q[p]].env)
  }

  class Queues {
    var signals: map<DiscoKey, seq<Envelope>>
    ghost var history: seq<Event>

    function Queue(to: DiscoKey): seq<Envelope>
      reads this
    {
      if to in signals then signals[to] else []
    }

    ghost predicate Valid()
      reads this
    {
      forall to :: Queue(to) == Envelopes(history, QueueOf(history, to))
    }

    constructor ()
      ensures Valid() && history == []
    {
      signals := map[];
      history := [];
    }

    method EnqueueSignal(to: DiscoKey, env: Envelope, cancelled: bool) returns (ok: bool)
      requires Valid()
      modifies this
      ensures Valid() && ok == !cancelled
      ensures history == if ok then old(history) + [Enqueue(to, env)] else old(history)
    {
      if cancelled { return false; }
      var q := Queue(to);
      if |q| >= DEPTH { q := q[1..]; }
      q := q + [env];
      signals := signals[to := q];
      history := history + [Enqueue(to, env)];
      Extend(old(history), Enqueue(to, env));
      return true;
    }

    // Drains the queue and returns what is not stale.
    method PopSignals(to: DiscoKey, now: Time, cancelled: bool) returns (ok: bool, out: seq<Envelope>)
      requires Valid()
      modifies this
      ensures Valid() && ok == !cancelled
      ensures !ok ==> history == old(history) && out == []
      ensures ok ==> history == old(history) + [Pop(to, now)]
      ensures ok ==> out == Envelopes(history, Delivery(history, |old(history)|))
      ensures ok ==> Queue(to) == []
      ensures ok ==> forall e :: e in out <==> e in old(Queue(to)) && now - e.enqueued < 30_000_000_000
    {
      if cancelled { return false, []; }
      var queue := Queue(to);
      ghost var h, q := history, QueueOf(history, to);
      signals := signals - {to};
      out := FreshOnly(queue, now, h, q);
      history := history + [Pop(to, now)];
      Extend(h, Pop(to, now));
      assert history[..|h|] == h;
      ok := true;
    }
  }

  method FreshOnly(queue: seq<Envelope>, now: Time, ghost h: seq<Event>, ghost q: seq<nat>) returns (out: seq<Envelope>)
    requires forall p | 0 <= p < |q| :: q[p] < |h| && h[q[p]].Enqueue?
    requires queue == Envelopes(h, q)
    ensures out == Envelopes(h, KeepFresh(h, q, now))
    ensures forall e :: e in out <==> e in queue && now - e.enqueued < 30_000_000_000
  {
    out := [];
    for i := 0 to |queue|
      invariant out == Envelopes(h, KeepFresh(h, q[..i], now))
      invariant forall e :: e in out <==> e in queue[..i] && now - e.enqueued < 30_000_000_000
    {
      assert queue[..i + 1] == queue[..i] + [queue[i]];
      assert q[..i + 1][..i] == q[..i];
      if queue[i].enqueued > now - MAX_AGE {
        out := out + [queue[i]];
      }
    }
    assert q[..|q|] == q && queue[..|queue|] == queue;
  }

  // One more event: the queue of its recipient is pushed or emptied, the others stay.
  lemma Extend(h: seq<Event>, e: Event)
    ensures var g := h + [e];
            && (forall to | to != e.to :: Envelopes(g, QueueOf(g, to)) == Envelopes(h, QueueOf(h, to)))
            && Envelopes(g, QueueOf(g, e.to)) == if e.Pop? then [] else Push(Envelopes(h, QueueOf(h, e.to)), e.env)
  {
    var g := h + [e];
    assert g[..|h|] == h;
    forall to | to != e.to ensures Envelopes(g, QueueOf(g, to)) == Envelopes(h, QueueOf(h, to)) {
      assert QueueOf(g, to) == QueueOf(h, to);
    }
    if e.Enqueue? {
      var q := QueueOf(h, e.to);
      PushAt(q, |h|);
      PushAt(Envelopes(h, q), e.env);
      assert Envelopes(g, QueueOf(g, e.to)) == Push(Envelopes(h, q), e.env);
    }
  }
}
