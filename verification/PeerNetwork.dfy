/**
  Two machines of `internal/daemon/peer.go` joined by a network that loses,
  duplicates and reorders authentic messages, a coordinator that relays, and a
  registry that updates them: any interleaving is a sequence of steps.
 */
module PeerNetwork {
  import opened Basics
  import opened PeerMachine

  const QUEUE_CAP: nat := 32      // capacity of the incoming channel

  datatype Side = Left | Right

  function Other(s: Side): Side { if s == Left then Right else Left }

  datatype Pending = Nothing | Pending(endpoints: seq<Addr>)

  // A machine with its incoming channel and a record of what happened to it.
  datatype Node = Node(
    m: Machine,
    queue: seq<Event>,
    pending: Pending,             // an update whose event is sent and whose snapshot is not yet stored
    sentAt: map<Tx, Time>,        // pings sent, with the time of the first of each id
    answeredAt: map<Tx, Time>,    // pings handled, with the time of the first of each id
    heard: set<Addr>,             // source addresses seen on the disco socket
    punched: bool)                // has been in punching

  datatype Message = Message(to: Side, body: Body)

  datatype World = World(left: Node, right: Node, wire: set<Message>, relay: set<Message>, now: Time)

  function Get(w: World, s: Side): Node { if s == Left then w.left else w.right }

  function Put(w: World, s: Side, n: Node): World { if s == Left then w.(left := n) else w.(right := n) }

  function NewNode(endpoints: seq<Addr>): Node { Node(NewMachine(endpoints), [], Nothing, map[], map[], {}, false) }

  function Init(left: seq<Addr>, right: seq<Addr>, start: Time): World {
    World(NewNode(left), NewNode(right), {}, {}, start)
  }

  datatype Step =
    | Udp(msg: Message, from: Addr, keep: bool)       // keep: the network holds a duplicate
    | Signal(msg: Message, keep: bool)
    | Lose(msg: Message)
    | Announce(s: Side, endpoints: seq<Addr>)         // sendCallMeMaybe, the only user of the relay
    | UpdateEvent(s: Side, endpoints: seq<Addr>)      // update: first the event, if there is room,
    | UpdateStore(s: Side)                            // then the snapshot
    | Handle(s: Side, env: Env)
    | Tick(s: Side, env: Env)
    | Keepalive(s: Side, env: Env)

  predicate Enabled(w: World, x: Step) {
    match x
    case Udp(msg, from, _) => msg in w.wire && from != NoAddr
    case Signal(msg, _) => msg in w.relay
    case Handle(s, env) => Get(w, s).queue != [] && w.now <= env.at <= env.end
    case Tick(_, env) => w.now <= env.at <= env.end
    case Keepalive(_, env) => w.now <= env.at <= env.end
    case UpdateEvent(s, _) => Get(w, s).pending.Nothing?
    case UpdateStore(s) => Get(w, s).pending.Pending?
    case _ => true
  }

  // A non-blocking send: a full channel drops the event.
  function Offer(n: Node, ev: Event): Node {
    if |n.queue| < QUEUE_CAP then n.(queue := n.queue + [ev]) else n
  }

  function PingIds(sent: seq<Packet>): set<Tx> {
    set i | 0 <= i < |sent| && sent[i].body.Ping? :: sent[i].body.tx
  }

  function Bodies(sent: seq<Packet>): set<Body> { set i | 0 <= i < |sent| :: sent[i].body }

  function Note(log: map<Tx, Time>, ids: set<Tx>, at: Time): map<Tx, Time> {
    map tx | tx in log.Keys + ids :: if tx in log then log[tx] else at
  }

  // The id of the ping that an input makes the machine answer.
  function Answers(input: Input): set<Tx> {
    match input
    case Receive(Udp(_, Ping(tx))) => {tx}
    case Receive(Signal(Ping(tx))) => {tx}
    case _ => {}
  }

  function Turn(w: World, s: Side, input: Input, env: Env): World {
    var n := Get(w, s);
    var out := PeerMachine.Step(n.m, input, env);
    var next := n.(
      m := out.m,
      sentAt := Note(n.sentAt, PingIds(out.sent), env.at),
      answeredAt := Note(n.answeredAt, Answers(input), env.at),
      punched := n.punched || out.m.state == Punching);
    Put(w.(wire := w.wire + (set b | b in Bodies(out.sent) :: Message(Other(s), b)), now := env.end), s, next)
  }

  function Apply(w: World, x: Step): World
    requires Enabled(w, x)
  {
    match x
    case Udp(msg, from, keep) =>
      var n := Get(w, msg.to);
      var v := if keep then w else w.(wire := w.wire - {msg});
      Put(v, msg.to, Offer(n.(heard := n.heard + {from}), Event.Udp(from, msg.body)))
    case Signal(msg, keep) =>
      var v := if keep then w else w.(relay := w.relay - {msg});
      Put(v, msg.to, Offer(Get(w, msg.to), Event.Signal(msg.body)))
    case Lose(msg) => w.(wire := w.wire - {msg}, relay := w.relay - {msg})
    case Announce(s, endpoints) => w.(relay := w.relay + {Message(Other(s), CallMeMaybe(endpoints))})
    case UpdateEvent(s, endpoints) =>
      var n := Get(w, s);
      if |n.queue| < QUEUE_CAP then Put(w, s, n.(queue := n.queue + [Update], pending := Pending(endpoints))) else w
    case UpdateStore(s) =>
      var n := Get(w, s);
      Put(w, s, n.(m := n.m.(endpoints := n.pending.endpoints), pending := Nothing))
    case Handle(s, env) =>
      Turn(Taken(w, s), s, Receive(Get(w, s).queue[0]), env)
    case Tick(s, env) => Turn(w, s, PunchTick, env)
    case Keepalive(s, env) => Turn(w, s, KeepaliveTick, env)
  }

  predicate IsRun(w: World, run: seq<Step>)
    decreases |run|
  {
    run == [] || (Enabled(w, run[0]) && IsRun(Apply(w, run[0]), run[1..]))
  }

  function Exec(w: World, run: seq<Step>): World
    requires IsRun(w, run)
    decreases |run|
  {
    if run == [] then w else Exec(Apply(w, run[0]), run[1..])
  }

  // --- Causality ---

  // A message that may travel to s: its ping was sent by the other side, its pong answers
  // a ping that the other side handled.
  predicate Genuine(w: World, s: Side, body: Body) {
    match body
    case Ping(tx) => tx in Get(w, Other(s)).sentAt
    case Pong(tx, _) => tx in Get(w, Other(s)).answeredAt
    case _ => true
  }

  predicate GenuineEvent(w: World, s: Side, ev: Event) {
    match ev
    case Update => true
    case Udp(from, body) => from != NoAddr && from in Get(w, s).heard && Genuine(w, s, body)
    case Signal(body) => body.CallMeMaybe?
  }

  predicate QueueOk(w: World, s: Side) {
    forall i | 0 <= i < |Get(w, s).queue| :: GenuineEvent(w, s, Get(w, s).queue[i])
  }

  ghost predicate Mail(w: World) {
    && (forall msg | msg in w.wire :: Genuine(w, msg.to, msg.body))
    && (forall msg | msg in w.relay :: msg.body.CallMeMaybe?)
    && (forall s :: QueueOk(w, s))
  }

  // What node s has recorded.
  ghost predicate Books(w: World, s: Side) {
    var n, o := Get(w, s), Get(w, Other(s));
    && (forall tx | tx in n.sentAt :: n.sentAt[tx] <= w.now)
    && (forall tx | tx in n.answeredAt ::
          tx in o.sentAt && o.sentAt[tx] <= n.answeredAt[tx] <= w.now)
    && (n.sentAt != map[] ==> n.punched)
  }

  // The round trip behind the current state: ping sent, handled by the other side, pong heard.
  ghost predicate RoundTrip(w: World, s: Side, tx: Tx) {
    var n, o := Get(w, s), Get(w, Other(s));
    tx in n.sentAt && tx in o.answeredAt && n.sentAt[tx] <= o.answeredAt[tx] <= n.m.lastPong <= w.now
  }

  ghost predicate Standing(w: World, s: Side) {
    var n := Get(w, s);
    && n.m.state != HaveEndpoints
    && (n.m.state != Unknown ==> n.punched)
    && (n.m.state == Direct ==> n.m.winning != NoAddr && n.m.winning in n.heard && exists tx :: RoundTrip(w, s, tx))
  }

  ghost predicate Inv(w: World) {
    Mail(w) && forall s :: Books(w, s) && Standing(w, s)
  }

  // Records only grow.
  ghost predicate Extends(w: World, v: World) {
    && w.now <= v.now
    && forall s ::
         && Get(w, s).heard <= Get(v, s).heard
         && (forall tx | tx in Get(w, s).sentAt ::
               tx in Get(v, s).sentAt && Get(v, s).sentAt[tx] == Get(w, s).sentAt[tx])
         && (forall tx | tx in Get(w, s).answeredAt ::
               tx in Get(v, s).answeredAt && Get(v, s).answeredAt[tx] == Get(w, s).answeredAt[tx])
  }

  lemma KeepStanding(w: World, v: World, s: Side)
    requires Standing(w, s) && Extends(w, v)
    requires Get(v, s).m.(endpoints := []) == Get(w, s).m.(endpoints := []) && Get(v, s).punched == Get(w, s).punched
    ensures Standing(v, s)
  {
    if Get(w, s).m.state == Direct {
      var tx :| RoundTrip(w, s, tx);
      assert RoundTrip(v, s, tx);
    }
  }

  lemma TurnExtends(w: World, s: Side, input: Input, env: Env)
    requires w.now <= env.at <= env.end
    ensures Extends(w, Turn(w, s, input, env))
  {}

  // The input of a turn: a genuine event, or one of the timers.
  predicate Proper(w: World, s: Side, input: Input) {
    match input
    case Receive(ev) => GenuineEvent(w, s, ev)
    case StoreSnapshot(_) => false
    case _ => true
  }

  lemma TurnQueues(w: World, s: Side, input: Input, env: Env)
    requires Mail(w) && w.now <= env.at <= env.end
    ensures forall t :: QueueOk(Turn(w, s, input, env), t)
  {
    var v := Turn(w, s, input, env);
    TurnExtends(w, s, input, env);
    forall t ensures QueueOk(v, t) { assert QueueOk(w, t); }
  }

  lemma TurnMail(w: World, s: Side, input: Input, env: Env)
    requires Inv(w) && w.now <= env.at <= env.end && Proper(w, s, input)
    ensures Mail(Turn(w, s, input, env))
  {
    var v := Turn(w, s, input, env);
    TurnExtends(w, s, input, env);
    var out := PeerMachine.Step(Get(w, s).m, input, env);
    TurnQueues(w, s, input, env);
    forall msg | msg in v.wire ensures Genuine(v, msg.to, msg.body) {
      if msg !in w.wire {
        var i :| 0 <= i < |out.sent| && out.sent[i].body == msg.body;
        if msg.body.Ping? { assert msg.body.tx in PingIds(out.sent); }
      }
    }
  }

  // The side that takes the turn.
  lemma OwnBooks(w: World, s: Side, input: Input, env: Env)
    requires Inv(w) && w.now <= env.at <= env.end && Proper(w, s, input)
    ensures Books(Turn(w, s, input, env), s)
  {
    var n, o, v := Get(w, s), Get(w, Other(s)), Turn(w, s, input, env);
    var q := Get(v, s);
    assert Books(w, s) && Standing(w, s);
    assert Get(v, Other(s)) == o && v.now == env.end;
    NoteTimes(n.sentAt, PingIds(PeerMachine.Step(n.m, input, env).sent), w.now, env);
    forall tx | tx in q.answeredAt ensures tx in o.sentAt && o.sentAt[tx] <= q.answeredAt[tx] <= v.now {
      if tx !in n.answeredAt { AnswersArePings(w, s, input, env, tx); }
    }
    if q.sentAt != map[] && n.sentAt == map[] { OnlyPunchersPing(n.m, input, env); }
  }

  lemma NoteTimes(log: map<Tx, Time>, ids: set<Tx>, now: Time, env: Env)
    requires now <= env.at <= env.end && forall tx | tx in log :: log[tx] <= now
    ensures forall tx | tx in Note(log, ids, env.at) :: Note(log, ids, env.at)[tx] <= env.end
  {}

  lemma AnswersArePings(w: World, s: Side, input: Input, env: Env, tx: Tx)
    requires Inv(w) && w.now <= env.at && Proper(w, s, input) && tx in Answers(input)
    ensures tx in Get(w, Other(s)).sentAt && Get(w, Other(s)).sentAt[tx] <= env.at
  {
    assert Books(w, Other(s));
  }

  lemma OnlyPunchersPing(m: Machine, input: Input, env: Env)
    requires PingIds(PeerMachine.Step(m, input, env).sent) != {}
    ensures m.state == Punching || m.state == Direct
  {}

  // The side that waits.
  lemma OtherBooks(w: World, s: Side, input: Input, env: Env)
    requires Inv(w) && w.now <= env.at <= env.end
    ensures Books(Turn(w, s, input, env), Other(s))
  {
    assert Books(w, Other(s));
  }

  predicate IsPong(input: Input) { input.Receive? && input.ev.Udp? && input.ev.body.Pong? }

  // How a machine gets into direct and stays there.
  lemma DirectStep(m: Machine, input: Input, env: Env)
    requires m.state != HaveEndpoints
    requires input.Receive? && input.ev.Signal? ==> input.ev.body.CallMeMaybe?
    ensures var q := PeerMachine.Step(m, input, env).m;
            && q.state != HaveEndpoints
            && (q.state != Unknown && q.state != Punching ==> m.state != Unknown || IsPong(input))
            && (IsPong(input) ==> q.state == Direct && q.lastPong == env.at)
            && (IsPong(input) ==> q.winning == if m.state == Direct then m.winning else input.ev.from)
            && (!IsPong(input) && q.state == Direct ==>
                  m.state == Direct && q.winning == m.winning && q.lastPong == m.lastPong)
  {}

  lemma TurnStanding(w: World, s: Side, input: Input, env: Env)
    requires Inv(w) && w.now <= env.at <= env.end && Proper(w, s, input)
    ensures Standing(Turn(w, s, input, env), s)
  {
    var v := Turn(w, s, input, env);
    assert Standing(w, s) && Books(w, s) && Books(w, Other(s));
    DirectStep(Get(w, s).m, input, env);
    TurnExtends(w, s, input, env);
    if IsPong(input) {
      assert RoundTrip(v, s, input.ev.body.tx);
    } else if Get(v, s).m.state == Direct {
      var tx :| RoundTrip(w, s, tx);
      assert RoundTrip(v, s, tx);
    }
  }

  lemma TurnKeepsInv(w: World, s: Side, input: Input, env: Env)
    requires Inv(w) && w.now <= env.at <= env.end && Proper(w, s, input)
    ensures Inv(Turn(w, s, input, env))
  {
    TurnMail(w, s, input, env);
    TurnExtends(w, s, input, env);
    forall t ensures Books(Turn(w, s, input, env), t) && Standing(Turn(w, s, input, env), t) {
      if t == s {
        OwnBooks(w, s, input, env);
        TurnStanding(w, s, input, env);
      } else {
        OtherBooks(w, s, input, env);
        assert Standing(w, t);
        KeepStanding(w, Turn(w, s, input, env), t);
      }
    }
  }

  predicate SameBooks(w: World, v: World, s: Side) {
    && Get(v, s).sentAt == Get(w, s).sentAt && Get(v, s).answeredAt == Get(w, s).answeredAt
    && Get(w, s).heard <= Get(v, s).heard && Get(v, s).punched == Get(w, s).punched
    && Get(v, s).m.(endpoints := []) == Get(w, s).m.(endpoints := [])
  }

  // Steps that only move mail or store endpoints.
  lemma QuietStepKeepsInv(w: World, v: World)
    requires Inv(w) && Mail(v) && v.now == w.now && forall s :: SameBooks(w, v, s)
    ensures Inv(v)
  {
    assert SameBooks(w, v, Left) && SameBooks(w, v, Right);
    forall s ensures Books(v, s) && Standing(v, s) {
      assert Books(w, s) && SameBooks(w, v, s) && SameBooks(w, v, Other(s));
      KeepStanding(w, v, s);
    }
  }

  predicate MovesMail(x: Step) { !x.Handle? && !x.Tick? && !x.Keepalive? }

  lemma QueueStep(w: World, x: Step, s: Side)
    requires Mail(w) && Enabled(w, x) && MovesMail(x)
    ensures QueueOk(Apply(w, x), s)
  {
    var v := Apply(w, x);
    var q, q' := Get(w, s).queue, Get(v, s).queue;
    assert QueueOk(w, s);
    forall i | 0 <= i < |q'| ensures GenuineEvent(v, s, q'[i]) {
      if i < |q| {
        assert q'[i] == q[i] && GenuineEvent(w, s, q[i]);
      } else if x.Udp? {
        assert Genuine(w, x.msg.to, x.msg.body);
      }
    }
  }

  lemma MailStep(w: World, x: Step)
    requires Mail(w) && Enabled(w, x) && MovesMail(x)
    ensures Mail(Apply(w, x))
  {
    var v := Apply(w, x);
    forall s ensures QueueOk(v, s) { QueueStep(w, x, s); }
    forall msg | msg in v.wire ensures Genuine(v, msg.to, msg.body) { assert msg in w.wire; }
  }

  // Taking the next event off the channel.
  function Taken(w: World, s: Side): World
    requires Get(w, s).queue != []
  {
    Put(w, s, Get(w, s).(queue := Get(w, s).queue[1..]))
  }

  lemma TakeKeepsInv(w: World, s: Side)
    requires Inv(w) && Get(w, s).queue != []
    ensures Inv(Taken(w, s)) && GenuineEvent(Taken(w, s), s, Get(w, s).queue[0])
  {
    var v := Taken(w, s);
    assert QueueOk(w, s);
    forall t ensures QueueOk(v, t) {
      assert QueueOk(w, t);
      forall i | 0 <= i < |Get(v, t).queue| ensures GenuineEvent(v, t, Get(v, t).queue[i]) {
        var j := if t == s then i + 1 else i;
        assert Get(v, t).queue[i] == Get(w, t).queue[j] && GenuineEvent(w, t, Get(w, t).queue[j]);
      }
    }
    forall msg | msg in v.wire ensures Genuine(v, msg.to, msg.body) { assert Genuine(w, msg.to, msg.body); }
    QuietStepKeepsInv(w, v);
  }

  lemma StepKeepsInv(w: World, x: Step)
    requires Inv(w) && Enabled(w, x)
    ensures Inv(Apply(w, x))
  {
    match x {
      case Handle(s, env) =>
        TakeKeepsInv(w, s);
        TurnKeepsInv(Taken(w, s), s, Receive(Get(w, s).queue[0]), env);
      case Tick(s, env) => TurnKeepsInv(w, s, PunchTick, env);
      case Keepalive(s, env) => TurnKeepsInv(w, s, KeepaliveTick, env);
      case _ => MailKeepsInv(w, x);
    }
  }

  lemma MailKeepsInv(w: World, x: Step)
    requires Inv(w) && Enabled(w, x) && MovesMail(x)
    ensures Inv(Apply(w, x))
  {
    MailStep(w, x);
    forall s ensures SameBooks(w, Apply(w, x), s) { MailKeepsBooks(w, x, s); }
    QuietStepKeepsInv(w, Apply(w, x));
  }

  lemma MailKeepsBooks(w: World, x: Step, s: Side)
    requires Enabled(w, x) && MovesMail(x)
    ensures SameBooks(w, Apply(w, x), s)
  {}

  lemma {:induction false} RunKeepsInv(w: World, run: seq<Step>)
    requires Inv(w) && IsRun(w, run)
    ensures Inv(Exec(w, run))
    decreases |run|
  {
    if run == [] {
    } else {
      StepKeepsInv(w, run[0]);
      RunKeepsInv(Apply(w, run[0]), run[1..]);
    }
  }

  // --- Main results on causality, for every run of two peers ---

  // Every pong in flight or waiting to be handled carries the id of a ping that its receiver
  // really sent and its sender really handled, in that order.
  lemma PongsAnswerPings(left: seq<Addr>, right: seq<Addr>, start: Time, run: seq<Step>, s: Side, tx: Tx, src: Addr)
    requires IsRun(Init(left, right, start), run)
    requires var w := Exec(Init(left, right, start), run);
             Message(s, Pong(tx, src)) in w.wire || exists from :: Event.Udp(from, Pong(tx, src)) in Get(w, s).queue
    ensures var w := Exec(Init(left, right, start), run);
            && tx in Get(w, s).sentAt && tx in Get(w, Other(s)).answeredAt
            && Get(w, s).sentAt[tx] <= Get(w, Other(s)).answeredAt[tx] <= w.now
  {
    RunKeepsInv(Init(left, right, start), run);
    var w := Exec(Init(left, right, start), run);
    assert Books(w, Other(s));
    if Message(s, Pong(tx, src)) !in w.wire {
      var from :| Event.Udp(from, Pong(tx, src)) in Get(w, s).queue;
      assert QueueOk(w, s);
      var i :| 0 <= i < |Get(w, s).queue| && Get(w, s).queue[i] == Event.Udp(from, Pong(tx, src));
      assert GenuineEvent(w, s, Get(w, s).queue[i]);
    }
  }

  // A machine in direct has been in punching, its winning address was a source address on its own
  // socket, and some ping of its own made the round trip no later than its last pong.
  lemma DirectMeansRoundTrip(left: seq<Addr>, right: seq<Addr>, start: Time, run: seq<Step>, s: Side)
    requires IsRun(Init(left, right, start), run)
    requires Get(Exec(Init(left, right, start), run), s).m.state == Direct
    ensures var w := Exec(Init(left, right, start), run);
            var n := Get(w, s);
            && n.punched && n.m.winning != NoAddr && n.m.winning in n.heard
            && exists tx :: RoundTrip(w, s, tx)
  {
    RunKeepsInv(Init(left, right, start), run);
    assert Standing(Exec(Init(left, right, start), run), s);
  }
}
