/**
  Progress and its end for two machines of `internal/daemon/peer.go`: punching can
  succeed while its window is open; and once both have fallen back to relay, they
  stay there exactly when no ping or pong is left anywhere.
 */
module PeerRelay {
  import opened Basics
  import opened PeerMachine
  import opened PeerNetwork

  predicate Noisy(body: Body) { body.Ping? || body.Pong? }

  predicate NoisyEvent(ev: Event) { !ev.Update? && Noisy(ev.body) }

  predicate QuietQueue(q: seq<Event>) { forall i | 0 <= i < |q| :: !NoisyEvent(q[i]) }

  // No ping or pong in flight, relayed or queued.
  predicate Quiet(w: World) {
    && (forall msg | msg in w.wire :: !Noisy(msg.body))
    && (forall msg | msg in w.relay :: !Noisy(msg.body))
    && QuietQueue(w.left.queue) && QuietQueue(w.right.queue)
  }

  // --- Any ping or pong around is a way into direct ---

  // An iteration that takes no time.
  function Now(w: World): Env { Env(w.now, w.now, [], false) }

  lemma {:induction false} Concat(w: World, a: seq<PeerNetwork.Step>, b: seq<PeerNetwork.Step>)
    requires IsRun(w, a) && IsRun(Exec(w, a), b)
    ensures IsRun(w, a + b) && Exec(w, a + b) == Exec(Exec(w, a), b)
    decreases |a|
  {
    if a == [] {
      assert a + b == b;
    } else {
      Concat(Apply(w, a[0]), a[1..], b);
      assert (a + b)[1..] == a[1..] + b;
    }
  }

  lemma Single(w: World, x: PeerNetwork.Step)
    requires Enabled(w, x)
    ensures IsRun(w, [x]) && Exec(w, [x]) == Apply(w, x)
  {
    var rest := [x][1..];
    assert rest == [];
    assert IsRun(Apply(w, x), rest) && Exec(Apply(w, x), rest) == Apply(w, x);
  }

  ghost predicate PongWaiting(w: World, s: Side) { exists tx, src :: Message(s, Pong(tx, src)) in w.wire }

  // Neither side has sent a ping.
  predicate NoNewPings(w: World, v: World) { v.left.sentAt == w.left.sentAt && v.right.sentAt == w.right.sentAt }

  // v follows from w by handling events at s: mail is only added, the other side and time stand still.
  ghost predicate Handled(w: World, v: World, s: Side) {
    && w.wire <= v.wire && v.now == w.now && Get(v, Other(s)) == Get(w, Other(s)) && NoNewPings(w, v)
    && (Get(w, s).m.state == Direct ==> Get(v, s).m.state == Direct)
  }

  lemma HandleOne(w: World, s: Side)
    requires Get(w, s).queue != []
    ensures var v, ev := Apply(w, Handle(s, Now(w))), Get(w, s).queue[0];
            && Handled(w, v, s) && Get(v, s).queue == Get(w, s).queue[1..]
            && (NoisyEvent(ev) && ev.body.Pong? ==> Get(v, s).m.state == Direct)
            && (NoisyEvent(ev) && ev.body.Ping? ==> PongWaiting(v, Other(s)))
  {
    var v, ev := Apply(w, Handle(s, Now(w))), Get(w, s).queue[0];
    assert PingIds(PeerMachine.Step(Get(w, s).m, Receive(ev), Now(w)).sent) == {};
    assert Get(v, s).sentAt == Get(w, s).sentAt;
    if NoisyEvent(ev) && ev.body.Ping? {
      var from := if ev.Udp? then ev.from else NoAddr;
      var sent := PeerMachine.Step(Get(w, s).m, Receive(ev), Now(w)).sent;
      assert sent[0].body in Bodies(sent);
      assert Message(Other(s), Pong(ev.body.tx, from)) in v.wire;
    }
  }

  predicate HasPing(q: seq<Event>) { exists i :: 0 <= i < |q| && !q[i].Update? && q[i].body.Ping? }

  predicate HasPong(q: seq<Event>) { exists i :: 0 <= i < |q| && !q[i].Update? && q[i].body.Pong? }

  // Handling everything queued at s empties its channel; a pong among it makes s direct,
  // and for a ping among it the other side gets a pong.
  lemma {:induction false} Drain(w: World, s: Side) returns (run: seq<PeerNetwork.Step>)
    ensures IsRun(w, run)
    ensures var v := Exec(w, run);
            && Handled(w, v, s) && Get(v, s).queue == []
            && (HasPong(Get(w, s).queue) ==> Get(v, s).m.state == Direct)
            && (HasPing(Get(w, s).queue) ==> PongWaiting(v, Other(s)))
    decreases |Get(w, s).queue|
  {
    if Get(w, s).queue == [] {
      run := [];
    } else {
      var x := Handle(s, Now(w));
      var v := Apply(w, x);
      HandleOne(w, s);
      QueueTail(Get(w, s).queue);
      var rest := Drain(v, s);
      run := [x] + rest;
      assert run[1..] == rest;
      if PongWaiting(v, Other(s)) {
        var tx, src :| Message(Other(s), Pong(tx, src)) in v.wire;
        assert Message(Other(s), Pong(tx, src)) in Exec(v, rest).wire;
      }
    }
  }

  lemma QueueTail(q: seq<Event>)
    requires q != []
    ensures HasPing(q) ==> (NoisyEvent(q[0]) && q[0].body.Ping?) || HasPing(q[1..])
    ensures HasPong(q) ==> (NoisyEvent(q[0]) && q[0].body.Pong?) || HasPong(q[1..])
  {
    forall i | 0 < i < |q| ensures q[i] == q[1..][i - 1] {}
  }

  lemma Deliver(w: World, msg: Message, from: Addr) returns (run: seq<PeerNetwork.Step>)
    requires msg in w.wire && Noisy(msg.body) && from != NoAddr
    ensures IsRun(w, run)
    ensures var v := Exec(w, run);
            && NoNewPings(w, v)
            && if msg.body.Pong? then Get(v, msg.to).m.state == Direct else PongWaiting(v, Other(msg.to))
  {
    run := Drain(w, msg.to);
    var v := Exec(w, run);
    var deliver := PeerNetwork.Step.Udp(msg, from, true);
    var u := Apply(v, deliver);
    assert Get(u, msg.to).queue == [Event.Udp(from, msg.body)];
    var handle := Handle(msg.to, Now(u));
    HandleOne(u, msg.to);
    Single(v, deliver);
    Single(u, handle);
    Concat(v, [deliver], [handle]);
    Concat(w, run, [deliver] + [handle]);
    run := run + ([deliver] + [handle]);
  }

  lemma PongToDirect(w: World, s: Side, from: Addr) returns (run: seq<PeerNetwork.Step>)
    requires PongWaiting(w, s) && from != NoAddr
    ensures IsRun(w, run) && Get(Exec(w, run), s).m.state == Direct && NoNewPings(w, Exec(w, run))
  {
    var tx, src :| Message(s, Pong(tx, src)) in w.wire;
    run := Deliver(w, Message(s, Pong(tx, src)), from);
  }

  lemma PingToDirect(w: World, msg: Message, from: Addr) returns (run: seq<PeerNetwork.Step>)
    requires msg in w.wire && msg.body.Ping? && from != NoAddr
    ensures IsRun(w, run) && Get(Exec(w, run), Other(msg.to)).m.state == Direct && NoNewPings(w, Exec(w, run))
  {
    run := Deliver(w, msg, from);
    var more := PongToDirect(Exec(w, run), Other(msg.to), from);
    Concat(w, run, more);
    run := run + more;
  }

  lemma QueueToDirect(w: World, s: Side, from: Addr) returns (run: seq<PeerNetwork.Step>)
    requires !QuietQueue(Get(w, s).queue) && from != NoAddr
    ensures IsRun(w, run) && (w.left.m.state != Direct && w.right.m.state != Direct ==>
              Exec(w, run).left.m.state == Direct || Exec(w, run).right.m.state == Direct)
  {
    run := Drain(w, s);
    var v := Exec(w, run);
    if !HasPong(Get(w, s).queue) {
      assert HasPing(Get(w, s).queue);
      var more := PongToDirect(v, Other(s), from);
      Concat(w, run, more);
      run := run + more;
    }
  }

  // --- Punching can succeed ---

  // While the window is open and an endpoint is known, some run takes the machine into direct, whatever the
  // other side is doing and whatever ids are drawn: one tick, one ping and one pong that get through.
  // Delivery is a possibility only; which address a packet is sent to plays no part in it.
  lemma PunchCanSucceed(w: World, s: Side, txs: seq<Tx>, from: Addr) returns (run: seq<PeerNetwork.Step>)
    requires Get(w, s).m.state == Punching && Get(w, s).m.endpoints != [] && w.now <= Get(w, s).m.deadline
    requires |txs| >= |Get(w, s).m.endpoints| && from != NoAddr
    ensures IsRun(w, run) && run != [] && run[0] == Tick(s, Env(w.now, w.now, txs, false))
    ensures Get(Exec(w, run), s).m.state == Direct
  {
    var env := Env(w.now, w.now, txs, false);
    var tick := Tick(s, env);
    var v := Apply(w, tick);
    var sent := PeerMachine.Step(Get(w, s).m, PunchTick, env).sent;
    assert sent[0].body == Ping(txs[0]) && sent[0].body in Bodies(sent);
    assert Message(Other(s), Ping(txs[0])) in v.wire;
    Single(w, tick);
    var more := PingToDirect(v, Message(Other(s), Ping(txs[0])), from);
    assert Other(Other(s)) == s;
    Concat(w, [tick], more);
    run := [tick] + more;
  }

  // --- Quiet joint relay is absorbing ---

  predicate JointRelay(w: World) { w.left.m.state == Relay && w.right.m.state == Relay }

  lemma QuietTurn(w: World, s: Side, input: Input, env: Env)
    requires JointRelay(w) && Quiet(w) && !input.StoreSnapshot?
    requires input.Receive? ==> !NoisyEvent(input.ev)
    ensures var v := Turn(w, s, input, env);
            && JointRelay(v) && Quiet(v)
            && v.left.sentAt == w.left.sentAt && v.right.sentAt == w.right.sentAt
  {}

  lemma QuietMail(w: World, x: PeerNetwork.Step)
    requires JointRelay(w) && Quiet(w) && Enabled(w, x) && MovesMail(x)
    ensures JointRelay(Apply(w, x)) && Quiet(Apply(w, x))
    ensures Apply(w, x).left.sentAt == w.left.sentAt && Apply(w, x).right.sentAt == w.right.sentAt
  {
    MailKeepsBooks(w, x, Left);
    MailKeepsBooks(w, x, Right);
    QuietChannel(w, x, Left);
    QuietChannel(w, x, Right);
    QuietNet(w, x);
  }

  lemma QuietChannel(w: World, x: PeerNetwork.Step, s: Side)
    requires Quiet(w) && Enabled(w, x) && MovesMail(x)
    ensures QuietQueue(Get(Apply(w, x), s).queue)
  {
    var q, q' := Get(w, s).queue, Get(Apply(w, x), s).queue;
    assert QuietQueue(q);
    forall i | 0 <= i < |q'| ensures !NoisyEvent(q'[i]) {
      if i < |q| { assert q'[i] == q[i]; }
    }
  }

  lemma QuietNet(w: World, x: PeerNetwork.Step)
    requires Quiet(w) && Enabled(w, x) && MovesMail(x)
    ensures forall msg | msg in Apply(w, x).wire :: !Noisy(msg.body)
    ensures forall msg | msg in Apply(w, x).relay :: !Noisy(msg.body)
  {}

  lemma QuietTake(w: World, s: Side)
    requires JointRelay(w) && Quiet(w) && Get(w, s).queue != []
    ensures JointRelay(Taken(w, s)) && Quiet(Taken(w, s)) && !NoisyEvent(Get(w, s).queue[0])
  {
    assert QuietQueue(Get(w, s).queue);
  }

  lemma QuietStep(w: World, x: PeerNetwork.Step)
    requires JointRelay(w) && Quiet(w) && Enabled(w, x)
    ensures JointRelay(Apply(w, x)) && Quiet(Apply(w, x))
    ensures Apply(w, x).left.sentAt == w.left.sentAt && Apply(w, x).right.sentAt == w.right.sentAt
  {
    match x {
      case Handle(s, env) =>
        QuietTake(w, s);
        QuietTurn(Taken(w, s), s, Receive(Get(w, s).queue[0]), env);
      case Tick(s, env) => QuietTurn(w, s, PunchTick, env);
      case Keepalive(s, env) => QuietTurn(w, s, KeepaliveTick, env);
      case _ => QuietMail(w, x);
    }
  }

  // No ticks, keepalives, registry updates or call_me_maybe messages, in any order and number,
  // ever produce another ping or another state.
  lemma {:induction false} QuietRelayIsAbsorbing(w: World, run: seq<PeerNetwork.Step>)
    requires JointRelay(w) && Quiet(w) && IsRun(w, run)
    ensures JointRelay(Exec(w, run)) && Quiet(Exec(w, run))
    ensures Exec(w, run).left.sentAt == w.left.sentAt && Exec(w, run).right.sentAt == w.right.sentAt
    decreases |run|
  {
    if run == [] {
    } else {
      QuietStep(w, run[0]);
      QuietRelayIsAbsorbing(Apply(w, run[0]), run[1..]);
    }
  }

  // In every world that two peers can reach with both in relay: they are stuck there for good
  // if and only if no ping or pong is in flight or queued.
  lemma RelayIsFinalIff(w: World)
    requires Inv(w) && JointRelay(w)
    ensures Quiet(w) <==> forall run | IsRun(w, run) :: JointRelay(Exec(w, run))
  {
    if Quiet(w) {
      forall run | IsRun(w, run) ensures JointRelay(Exec(w, run)) { QuietRelayIsAbsorbing(w, run); }
    } else {
      var from := Addr(1, 1);
      var run: seq<PeerNetwork.Step>;
      if msg :| msg in w.wire && Noisy(msg.body) {
        if msg.body.Ping? { run := PingToDirect(w, msg, from); } else { run := Deliver(w, msg, from); }
      } else if !QuietQueue(w.left.queue) {
        run := QueueToDirect(w, Left, from);
      } else {
        run := QueueToDirect(w, Right, from);
      }
      assert IsRun(w, run) && !JointRelay(Exec(w, run));
    }
  }

  // --- It comes to that ---

  // A machine that learns of its endpoints and whose window passes without a pong.
  lemma GivesUp(w: World, s: Side, wait: Time) returns (run: seq<PeerNetwork.Step>)
    requires Get(w, s).m.state == Unknown && Get(w, s).m.endpoints != [] && wait > PUNCH_ATTEMPT
    requires Get(w, s).queue == [] && Get(w, s).pending.Nothing?
    ensures IsRun(w, run)
    ensures var v := Exec(w, run);
            && Get(v, s).m.state == Relay && Get(v, s).queue == []
            && Get(v, Other(s)) == Get(w, Other(s)) && v.wire == w.wire && v.relay == w.relay
  {
    var a := UpdateEvent(s, Get(w, s).m.endpoints);
    var w1 := Apply(w, a);
    var b := Handle(s, Now(w1));
    var w2 := Apply(w1, b);
    assert Get(w2, s).m.state == Punching && Get(w2, s).m.deadline == w.now + PUNCH_ATTEMPT;
    var c := Tick(s, Env(w.now + wait, w.now + wait, [], false));
    var w3 := Apply(w2, c);
    Single(w, a);
    Single(w1, b);
    Single(w2, c);
    Concat(w1, [b], [c]);
    Concat(w, [a], [b] + [c]);
    run := [a] + ([b] + [c]);
    assert w3.wire == w.wire;
  }

  // For any two non-empty endpoint lists there is a run from the start into joint relay with nothing left
  // in flight, which the results above show to be final.
  lemma QuietRelayIsReachable(left: seq<Addr>, right: seq<Addr>, start: Time) returns (run: seq<PeerNetwork.Step>)
    requires left != [] && right != []
    ensures IsRun(Init(left, right, start), run)
    ensures JointRelay(Exec(Init(left, right, start), run)) && Quiet(Exec(Init(left, right, start), run))
  {
    var w0 := Init(left, right, start);
    var a := GivesUp(w0, Left, PUNCH_ATTEMPT + 1);
    var w1 := Exec(w0, a);
    assert Get(w1, Right) == Get(w0, Right);
    var b := GivesUp(w1, Right, PUNCH_ATTEMPT + 1);
    Concat(w0, a, b);
    run := a + b;
    assert Get(Exec(w0, run), Left) == Get(w1, Left);
  }
}
