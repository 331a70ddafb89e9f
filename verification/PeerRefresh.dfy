/**
  What keeps a machine of `internal/daemon/peer.go` in direct: a pong's id is never compared
  with an outstanding ping, so each delivery of a pong counts, duplicates included.
 */
module PeerRefresh {
  import opened Basics
  import opened PeerMachine
  import opened PeerNetwork
  import opened PeerRelay
  import PeerRuns

  const KEEPALIVE_EVERY: Time := 25_000_000_000

  // --- With duplicates one round trip is enough for any length of time ---

  // A machine in direct with an empty channel and a pong for it in flight.
  predicate Fed(w: World, s: Side, msg: Message) {
    && Get(w, s).m.state == Direct && Get(w, s).queue == []
    && msg.to == s && msg.body.Pong? && msg in w.wire
  }

  // 25 s pass, the network delivers the pong once more, and the keepalive finds it in time.
  lemma OneRound(w: World, s: Side, msg: Message, from: Addr, tx: Tx) returns (run: seq<PeerNetwork.Step>)
    requires Fed(w, s, msg) && from != NoAddr
    ensures IsRun(w, run)
    ensures var v := Exec(w, run);
            Fed(v, s, msg) && v.now == w.now + KEEPALIVE_EVERY && Get(v, Other(s)) == Get(w, Other(s))
  {
    var env := Env(w.now + KEEPALIVE_EVERY, w.now + KEEPALIVE_EVERY, [tx], false);
    var a, b, c := PeerNetwork.Step.Udp(msg, from, true), Handle(s, env), Keepalive(s, env);
    var w1 := Apply(w, a);
    assert Get(w1, s).queue == [Event.Udp(from, msg.body)];
    var w2 := Apply(w1, b);
    var w3 := Apply(w2, c);
    Single(w, a);
    Single(w1, b);
    Single(w2, c);
    Concat(w1, [b], [c]);
    Concat(w, [a], [b] + [c]);
    run := [a] + ([b] + [c]);
  }

  lemma {:induction false} DuplicatesKeepDirect(w: World, s: Side, msg: Message, from: Addr, txs: seq<Tx>)
      returns (run: seq<PeerNetwork.Step>)
    requires Fed(w, s, msg) && from != NoAddr
    ensures IsRun(w, run)
    ensures var v := Exec(w, run);
            Fed(v, s, msg) && v.now == w.now + |txs| * KEEPALIVE_EVERY && Get(v, Other(s)) == Get(w, Other(s))
    decreases |txs|
  {
    if txs == [] {
      run := [];
    } else {
      run := OneRound(w, s, msg, from, txs[0]);
      var more := DuplicatesKeepDirect(Exec(w, run), s, msg, from, txs[1..]);
      Concat(w, run, more);
      run := run + more;
    }
  }

  // The left machine punches and its ping is handled by the right one: one pong is in flight.
  lemma FirstContact(w: World, tx: Tx, from: Addr) returns (run: seq<PeerNetwork.Step>)
    requires w.left.m.state == Unknown && w.left.m.endpoints != [] && w.left.queue == [] && w.left.pending.Nothing?
    requires w.right.queue == [] && w.right.answeredAt == map[] && from != NoAddr
    ensures IsRun(w, run)
    ensures var v := Exec(w, run);
            && v.left.m.state == Punching && v.left.queue == [] && v.now == w.now
            && v.right.answeredAt == map[tx := w.now] && Message(Left, Pong(tx, from)) in v.wire
  {
    var env := Env(w.now, w.now, seq(|w.left.m.endpoints|, _ => tx), false);
    var a, b, c := UpdateEvent(Left, w.left.m.endpoints), Handle(Left, env), Tick(Left, env);
    var w1 := Apply(w, a);
    var w2 := Apply(w1, b);
    var w3 := Apply(w2, c);
    var sent := PeerMachine.Step(w2.left.m, PunchTick, env).sent;
    assert sent[0].body == Ping(tx) && sent[0].body in Bodies(sent);
    var ping := Message(Right, Ping(tx));
    assert ping in w3.wire;
    Single(w, a);
    Single(w1, b);
    Single(w2, c);
    Concat(w1, [b], [c]);
    Concat(w, [a], [b] + [c]);
    run := [a] + ([b] + [c]);
    var more := Answer(w3, tx, from);
    Concat(w, run, more);
    run := run + more;
  }

  lemma Answer(w: World, tx: Tx, from: Addr) returns (run: seq<PeerNetwork.Step>)
    requires Message(Right, Ping(tx)) in w.wire && w.right.queue == [] && w.right.answeredAt == map[] && from != NoAddr
    ensures IsRun(w, run)
    ensures var v := Exec(w, run);
            && v.left == w.left && v.now == w.now && v.right.answeredAt == map[tx := w.now]
            && Message(Left, Pong(tx, from)) in v.wire
  {
    var a, b := PeerNetwork.Step.Udp(Message(Right, Ping(tx)), from, true), Handle(Right, Now(w));
    var w1 := Apply(w, a);
    assert w1.right.queue == [Event.Udp(from, Ping(tx))];
    var sent := PeerMachine.Step(w1.right.m, Receive(w1.right.queue[0]), Now(w)).sent;
    assert sent[0].body == Pong(tx, from) && sent[0].body in Bodies(sent);
    Single(w, a);
    Single(w1, b);
    Concat(w, [a], [b]);
    run := [a] + [b];
  }

  // The pong is delivered and the left machine is in direct.
  lemma FirstTrip(left: seq<Addr>, right: seq<Addr>, start: Time, tx: Tx, from: Addr)
      returns (run: seq<PeerNetwork.Step>)
    requires left != [] && from != NoAddr
    ensures IsRun(Init(left, right, start), run)
    ensures var v := Exec(Init(left, right, start), run);
            && Fed(v, Left, Message(Left, Pong(tx, from))) && v.now == v.left.m.lastPong == start
            && v.right.answeredAt == map[tx := start]
  {
    var w0 := Init(left, right, start);
    run := FirstContact(w0, tx, from);
    var w1 := Exec(w0, run);
    var msg := Message(Left, Pong(tx, from));
    var a, b := PeerNetwork.Step.Udp(msg, from, true), Handle(Left, Now(w1));
    var w2 := Apply(w1, a);
    assert w2.left.queue == [Event.Udp(from, msg.body)];
    Single(w1, a);
    Single(w2, b);
    Concat(w1, [a], [b]);
    Concat(w0, run, [a] + [b]);
    run := run + ([a] + [b]);
  }

  // For any two machines and any number of 25 s periods: after one single round trip the left machine is
  // still in direct at the end, though the other side never answered another ping.
  lemma OneRoundTripLastsForever(left: seq<Addr>, right: seq<Addr>, start: Time, tx: Tx, from: Addr, txs: seq<Tx>)
      returns (run: seq<PeerNetwork.Step>)
    requires left != [] && from != NoAddr
    ensures IsRun(Init(left, right, start), run)
    ensures var v := Exec(Init(left, right, start), run);
            && v.left.m.state == Direct && v.now == start + |txs| * KEEPALIVE_EVERY
            && v.right.answeredAt == map[tx := start]
  {
    var w0 := Init(left, right, start);
    run := FirstTrip(left, right, start, tx, from);
    var more := DuplicatesKeepDirect(Exec(w0, run), Left, Message(Left, Pong(tx, from)), from, txs);
    Concat(w0, run, more);
    run := run + more;
  }

  // After one round trip and a silence of more than 75 s the keepalive tick gives the path up: the loss that
  // `PeerRuns.NoPunchingAfterLoss` is about, between two honest peers.
  lemma LossIsReachable(left: seq<Addr>, right: seq<Addr>, start: Time, tx: Tx, from: Addr, wait: Time)
      returns (run: seq<PeerNetwork.Step>, last: PeerNetwork.Step)
    requires left != [] && from != NoAddr && wait > PONG_MISS
    ensures IsRun(Init(left, right, start), run) && last.Keepalive? && last.s == Left
    ensures var w := Exec(Init(left, right, start), run);
            && w.left.m.state == Direct && Enabled(w, last) && Apply(w, last).left.m.state == Punching
  {
    run := FirstTrip(left, right, start, tx, from);
    last := Keepalive(Left, Env(start + wait, start + wait, [], false));
  }

  // --- A refresh for each delivery, and no more ---

  // How often the pong with a given id waits in a channel, is handed over, and is handled.
  function IsPongOf(body: Body, tx: Tx): nat { if body.Pong? && body.tx == tx then 1 else 0 }

  function EventCount(ev: Event, tx: Tx): nat { if ev.Update? then 0 else IsPongOf(ev.body, tx) }

  function Waiting(q: seq<Event>, tx: Tx): nat {
    if q == [] then 0 else EventCount(q[0], tx) + Waiting(q[1..], tx)
  }

  function DeliveredBy(x: PeerNetwork.Step, s: Side, tx: Tx): nat {
    if (x.Udp? || x.Signal?) && x.msg.to == s then IsPongOf(x.msg.body, tx) else 0
  }

  function HandledBy(w: World, x: PeerNetwork.Step, s: Side, tx: Tx): nat {
    if x.Handle? && x.s == s && Get(w, s).queue != [] then EventCount(Get(w, s).queue[0], tx) else 0
  }

  function DeliveredCount(run: seq<PeerNetwork.Step>, s: Side, tx: Tx): nat {
    if run == [] then 0 else DeliveredBy(run[0], s, tx) + DeliveredCount(run[1..], s, tx)
  }

  function HandledCount(w: World, run: seq<PeerNetwork.Step>, s: Side, tx: Tx): nat
    requires IsRun(w, run)
    decreases |run|
  {
    if run == [] then 0 else HandledBy(w, run[0], s, tx) + HandledCount(Apply(w, run[0]), run[1..], s, tx)
  }

  lemma {:induction false} WaitingAppend(q: seq<Event>, ev: Event, tx: Tx)
    ensures Waiting(q + [ev], tx) == Waiting(q, tx) + EventCount(ev, tx)
    decreases |q|
  {
    if q == [] {
      assert q + [ev] == [ev] && [ev][1..] == [];
    } else {
      WaitingAppend(q[1..], ev, tx);
      assert (q + [ev])[1..] == q[1..] + [ev];
    }
  }

  lemma OfferCount(n: Node, ev: Event, tx: Tx)
    ensures Waiting(Offer(n, ev).queue, tx) <= Waiting(n.queue, tx) + EventCount(ev, tx)
  {
    WaitingAppend(n.queue, ev, tx);
  }

  // One step: what is handled and still waiting was waiting or is being delivered.
  lemma StepAccount(w: World, x: PeerNetwork.Step, s: Side, tx: Tx)
    requires Enabled(w, x)
    ensures HandledBy(w, x, s, tx) + Waiting(Get(Apply(w, x), s).queue, tx) <=
            Waiting(Get(w, s).queue, tx) + DeliveredBy(x, s, tx)
  {
    var n := Get(w, s);
    match x {
      case Udp(msg, from, _) =>
        if msg.to == s { OfferCount(n.(heard := n.heard + {from}), Event.Udp(from, msg.body), tx); }
      case Signal(msg, _) => if msg.to == s { OfferCount(n, Event.Signal(msg.body), tx); }
      case UpdateEvent(t, _) => if t == s { OfferCount(n, Update, tx); }
      case Handle(t, _) =>
      case _ =>
    }
  }

  lemma {:induction false} Account(w: World, run: seq<PeerNetwork.Step>, s: Side, tx: Tx)
    requires IsRun(w, run)
    ensures HandledCount(w, run, s, tx) <= Waiting(Get(w, s).queue, tx) + DeliveredCount(run, s, tx)
    decreases |run|
  {
    if run == [] {
    } else {
      StepAccount(w, run[0], s, tx);
      Account(Apply(w, run[0]), run[1..], s, tx);
    }
  }

  lemma StepExtends(w: World, x: PeerNetwork.Step)
    requires Enabled(w, x)
    ensures Extends(w, Apply(w, x))
  {
    match x {
      case Handle(s, env) =>
        assert Extends(w, Taken(w, s));
        TurnExtends(Taken(w, s), s, Receive(Get(w, s).queue[0]), env);
      case Tick(s, env) => TurnExtends(w, s, PunchTick, env);
      case Keepalive(s, env) => TurnExtends(w, s, KeepaliveTick, env);
      case _ => MailExtends(w, x);
    }
  }

  lemma MailExtends(w: World, x: PeerNetwork.Step)
    requires Enabled(w, x) && MovesMail(x)
    ensures Extends(w, Apply(w, x))
  {
    var v := Apply(w, x);
    MailKeepsBooks(w, x, Left);
    MailKeepsBooks(w, x, Right);
    assert v.now == w.now;
    forall s ensures SameBooks(w, v, s) { if s == Left {} else {} }
  }

  // The id of a handled pong is one that its receiver sent and the other side answered.
  ghost predicate Answered(w: World, s: Side, tx: Tx) {
    tx in Get(w, s).sentAt && tx in Get(w, Other(s)).answeredAt
  }

  lemma {:induction false} StaysAnswered(w: World, run: seq<PeerNetwork.Step>, s: Side, tx: Tx)
    requires IsRun(w, run) && Answered(w, s, tx)
    ensures Answered(Exec(w, run), s, tx)
    decreases |run|
  {
    if run == [] {
    } else {
      StepExtends(w, run[0]);
      StaysAnswered(Apply(w, run[0]), run[1..], s, tx);
    }
  }

  lemma HandledIsAnswered(w: World, x: PeerNetwork.Step, s: Side, tx: Tx)
    requires Inv(w) && Enabled(w, x) && HandledBy(w, x, s, tx) > 0
    ensures Answered(w, s, tx)
  {
    assert QueueOk(w, s) && Books(w, Other(s));
    assert GenuineEvent(w, s, Get(w, s).queue[0]);
  }

  lemma {:induction false} AllAnswered(w: World, run: seq<PeerNetwork.Step>, s: Side, tx: Tx)
    requires Inv(w) && IsRun(w, run) && HandledCount(w, run, s, tx) > 0
    ensures Answered(Exec(w, run), s, tx)
    decreases |run|
  {
    if HandledBy(w, run[0], s, tx) > 0 {
      HandledIsAnswered(w, run[0], s, tx);
      StaysAnswered(w, run, s, tx);
    } else {
      StepKeepsInv(w, run[0]);
      AllAnswered(Apply(w, run[0]), run[1..], s, tx);
    }
  }

  // Over every run of two machines: a pong is handled no more often than the network delivers it, and only
  // if it answers a ping of the receiver. So if no id is delivered twice, each refresh of a machine in
  // direct is the end of a different round trip.
  lemma RefreshesAreRoundTrips(left: seq<Addr>, right: seq<Addr>, start: Time, run: seq<PeerNetwork.Step>,
                               s: Side, tx: Tx)
    requires IsRun(Init(left, right, start), run)
    ensures var w, v := Init(left, right, start), Exec(Init(left, right, start), run);
            && HandledCount(w, run, s, tx) <= DeliveredCount(run, s, tx)
            && (HandledCount(w, run, s, tx) > 0 ==> Answered(v, s, tx))
  {
    var w := Init(left, right, start);
    Account(w, run, s, tx);
    if HandledCount(w, run, s, tx) > 0 { AllAnswered(w, run, s, tx); }
  }

  // And nothing but a handled pong refreshes a machine.
  lemma OnlyPongsRefresh(w: World, x: PeerNetwork.Step, s: Side)
    requires Enabled(w, x) && Get(Apply(w, x), s).m.lastPong != Get(w, s).m.lastPong
    ensures exists tx :: HandledBy(w, x, s, tx) == 1
  {
    var ev := Get(w, s).queue[0];
    assert HandledBy(w, x, s, ev.body.tx) == 1;
  }

  // --- Each side of the network is a machine of its own ---

  // The iteration of the run loop at s that a step is, if it is one.
  function Part(w: World, x: PeerNetwork.Step, s: Side): seq<PeerRuns.TimedInput>
    requires Enabled(w, x)
  {
    match x
    case Handle(t, env) => if t == s then [PeerRuns.TimedInput(Receive(Get(w, s).queue[0]), env)] else []
    case Tick(t, env) => if t == s then [PeerRuns.TimedInput(PunchTick, env)] else []
    case Keepalive(t, env) => if t == s then [PeerRuns.TimedInput(KeepaliveTick, env)] else []
    case UpdateStore(t) =>
      if t == s then [PeerRuns.TimedInput(StoreSnapshot(Get(w, s).pending.endpoints), Now(w))] else []
    case _ => []
  }

  function Lifetime(w: World, run: seq<PeerNetwork.Step>, s: Side): seq<PeerRuns.TimedInput>
    requires IsRun(w, run)
    decreases |run|
  {
    if run == [] then [] else Part(w, run[0], s) + Lifetime(Apply(w, run[0]), run[1..], s)
  }

  lemma {:induction false} AfterConcat(m: Machine, a: seq<PeerRuns.TimedInput>, b: seq<PeerRuns.TimedInput>)
    ensures PeerRuns.After(m, a + b) == PeerRuns.After(PeerRuns.After(m, a), b)
    decreases |b|
  {
    if b == [] {
      assert a + b == a;
    } else {
      var n := |b| - 1;
      AfterConcat(m, a, b[..n]);
      assert (a + b)[..|a + b| - 1] == a + b[..n];
    }
  }

  lemma {:induction false} TimedConcat(start: Time, mid: Time, a: seq<PeerRuns.TimedInput>, b: seq<PeerRuns.TimedInput>)
    requires PeerRuns.WellTimed(start, a) && PeerRuns.Clock(start, a) <= mid && PeerRuns.WellTimed(mid, b)
    ensures PeerRuns.WellTimed(start, a + b) && PeerRuns.Clock(start, a + b) <= PeerRuns.Clock(mid, b)
    decreases |b|
  {
    if b == [] {
      assert a + b == a;
    } else {
      var n := |b| - 1;
      TimedConcat(start, mid, a, b[..n]);
      assert (a + b)[..|a + b| - 1] == a + b[..n];
    }
  }

  lemma PartStep(w: World, x: PeerNetwork.Step, s: Side)
    requires Enabled(w, x)
    ensures var p, v := Part(w, x, s), Apply(w, x);
            && PeerRuns.After(Get(w, s).m, p) == Get(v, s).m
            && PeerRuns.WellTimed(w.now, p) && PeerRuns.Clock(w.now, p) <= v.now
  {
    var p := Part(w, x, s);
    if p != [] {
      assert p == [p[0]];
      SingleTimed(w.now, Get(w, s).m, p[0]);
    } else if MovesMail(x) && !x.UpdateStore? {
      MailKeepsMachine(w, x, s);
    }
  }

  lemma MailKeepsMachine(w: World, x: PeerNetwork.Step, s: Side)
    requires Enabled(w, x) && MovesMail(x) && !x.UpdateStore?
    ensures Get(Apply(w, x), s).m == Get(w, s).m
  {}

  lemma SingleTimed(start: Time, m: Machine, x: PeerRuns.TimedInput)
    requires start <= x.env.at <= x.env.end
    ensures PeerRuns.WellTimed(start, [x]) && PeerRuns.Clock(start, [x]) == x.env.end
    ensures PeerRuns.After(m, [x]) == PeerMachine.Step(m, x.input, x.env).m
  {
    assert [x][..0] == [];
    assert PeerRuns.WellTimed(start, []);
  }

  // What a side does in a run of the network is a well-timed lifetime of one machine, so everything that
  // holds of those holds here.
  lemma {:induction false} LifetimeIsARun(w: World, run: seq<PeerNetwork.Step>, s: Side)
    requires IsRun(w, run)
    ensures var l, v := Lifetime(w, run, s), Exec(w, run);
            && PeerRuns.After(Get(w, s).m, l) == Get(v, s).m
            && PeerRuns.WellTimed(w.now, l) && PeerRuns.Clock(w.now, l) <= v.now
    decreases |run|
  {
    if run == [] {
    } else {
      var v := Apply(w, run[0]);
      PartStep(w, run[0], s);
      LifetimeIsARun(v, run[1..], s);
      AfterConcat(Get(w, s).m, Part(w, run[0], s), Lifetime(v, run[1..], s));
      TimedConcat(w.now, v.now, Part(w, run[0], s), Lifetime(v, run[1..], s));
    }
  }

  // --- Without duplicates, direct lasts only as long as round trips are made ---

  // The ids of the pongs handled in a lifetime, in order.
  function PongIds(l: seq<PeerRuns.TimedInput>): seq<Tx> {
    if l == [] then []
    else
      var n := |l| - 1;
      PongIds(l[..n]) + if PeerRuns.HandlesPong(l[n].input) then [l[n].input.ev.body.tx] else []
  }

  lemma {:induction false} PhaseWithinLifetime(m: Machine, l: seq<PeerRuns.TimedInput>)
    ensures PeerRuns.PongsInPhase(m, l) <= |PongIds(l)|
    decreases |l|
  {
    if l == [] {
    } else {
      PhaseWithinLifetime(m, l[..|l| - 1]);
    }
  }

  function Occurrences(txs: seq<Tx>, tx: Tx): nat {
    if txs == [] then 0 else Occurrences(txs[..|txs| - 1], tx) + if txs[|txs| - 1] == tx then 1 else 0
  }

  lemma {:induction false} OccurrencesConcat(a: seq<Tx>, b: seq<Tx>, tx: Tx)
    ensures Occurrences(a + b, tx) == Occurrences(a, tx) + Occurrences(b, tx)
    decreases |b|
  {
    if b == [] {
      assert a + b == a;
    } else {
      OccurrencesConcat(a, b[..|b| - 1], tx);
      assert (a + b)[..|a + b| - 1] == a + b[..|b| - 1];
    }
  }

  lemma {:induction false} PongIdsConcat(a: seq<PeerRuns.TimedInput>, b: seq<PeerRuns.TimedInput>)
    ensures PongIds(a + b) == PongIds(a) + PongIds(b)
    decreases |b|
  {
    if b == [] {
      assert a + b == a;
    } else {
      PongIdsConcat(a, b[..|b| - 1]);
      assert (a + b)[..|a + b| - 1] == a + b[..|b| - 1];
    }
  }

  lemma PartIds(w: World, x: PeerNetwork.Step, s: Side, tx: Tx)
    requires Enabled(w, x)
    ensures Occurrences(PongIds(Part(w, x, s)), tx) == HandledBy(w, x, s, tx)
  {
    var p := Part(w, x, s);
    if p != [] {
      assert p[..0] == [] && PongIds([]) == [];
      var ids := PongIds(p);
      if ids != [] { assert ids[..0] == []; }
    }
  }

  lemma {:induction false} IdsAreHandled(w: World, run: seq<PeerNetwork.Step>, s: Side, tx: Tx)
    requires IsRun(w, run)
    ensures Occurrences(PongIds(Lifetime(w, run, s)), tx) == HandledCount(w, run, s, tx)
    decreases |run|
  {
    if run == [] {
    } else {
      var a, b := Part(w, run[0], s), Lifetime(Apply(w, run[0]), run[1..], s);
      PartIds(w, run[0], s, tx);
      IdsAreHandled(Apply(w, run[0]), run[1..], s, tx);
      PongIdsConcat(a, b);
      OccurrencesConcat(PongIds(a), PongIds(b), tx);
    }
  }

  // A list in which nothing occurs twice is no longer than a set that holds it.
  lemma {:induction false} NoLongerThan(txs: seq<Tx>, ids: set<Tx>)
    requires forall tx :: Occurrences(txs, tx) <= if tx in ids then 1 else 0
    ensures |txs| <= |ids|
    decreases |txs|
  {
    if txs == [] {
    } else {
      var n := |txs| - 1;
      assert Occurrences(txs, txs[n]) >= 1;
      forall tx ensures Occurrences(txs[..n], tx) <= if tx in ids - {txs[n]} then 1 else 0 {
        assert Occurrences(txs, tx) <= if tx in ids then 1 else 0;
      }
      NoLongerThan(txs[..n], ids - {txs[n]});
    }
  }

  // The pings of s that the other side has answered.
  function RoundTrips(w: World, s: Side): set<Tx> {
    set tx | tx in Get(w, s).sentAt && tx in Get(w, Other(s)).answeredAt
  }

  lemma IdsAreRoundTrips(left: seq<Addr>, right: seq<Addr>, start: Time, run: seq<PeerNetwork.Step>, s: Side)
    requires IsRun(Init(left, right, start), run) && forall tx :: DeliveredCount(run, s, tx) <= 1
    ensures var w := Init(left, right, start);
            |PongIds(Lifetime(w, run, s))| <= |RoundTrips(Exec(w, run), s)|
  {
    var w := Init(left, right, start);
    var ids := PongIds(Lifetime(w, run, s));
    forall tx ensures Occurrences(ids, tx) <= if tx in RoundTrips(Exec(w, run), s) then 1 else 0 {
      IdsAreHandled(w, run, s, tx);
      RefreshesAreRoundTrips(left, right, start, run, s, tx);
    }
    NoLongerThan(ids, RoundTrips(Exec(w, run), s));
  }

  // Over every run of two machines in which no two pongs of one id are delivered to s and its keepalive ticks come
  // at most k apart: a machine in direct has been so for at most 75 s + k for each of its pings that the other
  // side answered.
  lemma DirectNeedsRoundTrips(left: seq<Addr>, right: seq<Addr>, start: Time, run: seq<PeerNetwork.Step>, s: Side,
                              t: Time, k: Time)
    requires 0 < start && 0 <= k && IsRun(Init(left, right, start), run)
    requires forall tx :: DeliveredCount(run, s, tx) <= 1
    requires var w := Init(left, right, start);
             && Get(Exec(w, run), s).m.state == Direct && Exec(w, run).now <= t
             && PeerRuns.Regular(start, Lifetime(w, run, s), k)
             && t - PeerRuns.LastOf(start, Lifetime(w, run, s), KeepaliveTick) <= k
    ensures var w := Init(left, right, start);
            t - PeerRuns.DirectSince(start, Get(w, s).m, Lifetime(w, run, s)) <=
            |RoundTrips(Exec(w, run), s)| * (PONG_MISS + k)
  {
    var w := Init(left, right, start);
    LifetimeIsARun(w, run, s);
    IdsAreRoundTrips(left, right, start, run, s);
    LifetimeBound(start, if s == Left then left else right, Lifetime(w, run, s), |RoundTrips(Exec(w, run), s)|, t, k);
  }

  lemma LifetimeBound(start: Time, eps: seq<Addr>, l: seq<PeerRuns.TimedInput>, trips: nat, t: Time, k: Time)
    requires 0 < start && 0 <= k && PeerRuns.WellTimed(start, l) && PeerRuns.Regular(start, l, k)
    requires PeerRuns.Clock(start, l) <= t && t - PeerRuns.LastOf(start, l, KeepaliveTick) <= k
    requires PeerRuns.After(NewMachine(eps), l).state == Direct && |PongIds(l)| <= trips
    ensures t - PeerRuns.DirectSince(start, NewMachine(eps), l) <= trips * (PONG_MISS + k)
  {
    PeerRuns.DirectIsPaidFor(start, eps, l, t, k);
    PhaseWithinLifetime(NewMachine(eps), l);
    MoreIsMore(PeerRuns.PongsInPhase(NewMachine(eps), l), trips, PONG_MISS + k);
  }

  lemma MoreIsMore(a: nat, b: nat, d: Time)
    requires a <= b && d >= 0
    ensures a * d <= b * d
  {}
}
