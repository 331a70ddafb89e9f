/**
  A machine of `internal/daemon/peer.go` that is stopped and started anew for a known key, as
  `internal/daemon/daemon.go` does when a peer leaves the registry and comes back: the new
  machine shares no state with its predecessor, but the network still holds its mail.
 */
module PeerRestart {
  import opened Basics
  import opened PeerMachine
  import opened PeerNetwork
  import opened PeerRelay

  // The node of s is replaced by a new one, and what either side notes of pings sent by s starts afresh.
  function Restarted(w: World, s: Side, endpoints: seq<Addr>): World {
    var n, o := Get(w, s), Get(w, Other(s));
    Put(Put(w, s, NewNode(endpoints).(answeredAt := n.answeredAt)), Other(s), o.(answeredAt := map[]))
  }

  // Nothing is left of the pings of s: no ping on its way or waiting to be answered, no pong on its way back.
  ghost predicate Clean(w: World, s: Side) {
    && (forall msg | msg in w.wire && msg.to == s :: !msg.body.Pong?)
    && (forall msg | msg in w.wire && msg.to == Other(s) :: !msg.body.Ping?)
    && !HasPing(Get(w, Other(s)).queue)
  }

  // --- A clean restart is as good as a first start ---

  lemma OtherQueue(w: World, s: Side, endpoints: seq<Addr>)
    requires Inv(w) && Clean(w, s)
    ensures QueueOk(Restarted(w, s, endpoints), Other(s))
  {
    var v, q := Restarted(w, s, endpoints), Get(w, Other(s)).queue;
    assert QueueOk(w, Other(s));
    forall i | 0 <= i < |q| ensures GenuineEvent(v, Other(s), q[i]) { assert GenuineEvent(w, Other(s), q[i]); }
  }

  lemma RestartMail(w: World, s: Side, endpoints: seq<Addr>)
    requires Inv(w) && Clean(w, s)
    ensures Mail(Restarted(w, s, endpoints))
  {
    var v := Restarted(w, s, endpoints);
    OtherQueue(w, s, endpoints);
    forall t ensures QueueOk(v, t) { if t == s { assert Get(v, t).queue == []; } else { assert t == Other(s); } }
    forall msg | msg in v.wire ensures Genuine(v, msg.to, msg.body) { assert Genuine(w, msg.to, msg.body); }
  }

  lemma RestartKeepsInv(w: World, s: Side, endpoints: seq<Addr>)
    requires Inv(w) && Clean(w, s)
    ensures Inv(Restarted(w, s, endpoints))
  {
    var v, o := Restarted(w, s, endpoints), Other(s);
    RestartMail(w, s, endpoints);
    assert Books(w, s) && Books(w, o) && Standing(w, o);
    if Get(w, o).m.state == Direct {
      var tx :| RoundTrip(w, o, tx);
      assert RoundTrip(v, o, tx);
    }
    forall t ensures Books(v, t) && Standing(v, t) { assert t == s || t == o; }
  }

  // Runs of two peers in which either side may be started anew.
  datatype Act = Do(x: PeerNetwork.Step) | Restart(s: Side, endpoints: seq<Addr>)

  ghost predicate Possible(w: World, a: Act) {
    match a
    case Do(x) => Enabled(w, x)
    case Restart(s, _) => Clean(w, s)
  }

  function Effect(w: World, a: Act): World
    requires a.Do? ==> Enabled(w, a.x)
  {
    match a
    case Do(x) => Apply(w, x)
    case Restart(s, endpoints) => Restarted(w, s, endpoints)
  }

  ghost predicate IsHistory(w: World, acts: seq<Act>)
    decreases |acts|
  {
    acts == [] || (Possible(w, acts[0]) && IsHistory(Effect(w, acts[0]), acts[1..]))
  }

  ghost function Outcome(w: World, acts: seq<Act>): World
    requires IsHistory(w, acts)
    decreases |acts|
  {
    if acts == [] then w else Outcome(Effect(w, acts[0]), acts[1..])
  }

  lemma {:induction false} HistoryKeepsInv(w: World, acts: seq<Act>)
    requires Inv(w) && IsHistory(w, acts)
    ensures Inv(Outcome(w, acts))
    decreases |acts|
  {
    if acts == [] {
    } else {
      match acts[0] {
        case Do(x) => StepKeepsInv(w, x);
        case Restart(s, endpoints) => RestartKeepsInv(w, s, endpoints);
      }
      HistoryKeepsInv(Effect(w, acts[0]), acts[1..]);
    }
  }

  // What `DirectMeansRoundTrip` concludes of a machine in direct.
  ghost predicate Earned(w: World, s: Side) {
    var n := Get(w, s);
    n.punched && n.m.winning != NoAddr && n.m.winning in n.heard && exists tx :: RoundTrip(w, s, tx)
  }

  // Over every history with any number of clean restarts of both sides, a machine in direct has made a round
  // trip in its own lifetime.
  lemma DirectMeansRoundTripAcrossRestarts(left: seq<Addr>, right: seq<Addr>, start: Time, acts: seq<Act>, s: Side)
    requires IsHistory(Init(left, right, start), acts)
    requires Get(Outcome(Init(left, right, start), acts), s).m.state == Direct
    ensures Earned(Outcome(Init(left, right, start), acts), s)
  {
    HistoryKeepsInv(Init(left, right, start), acts);
    assert Standing(Outcome(Init(left, right, start), acts), s);
  }

  // --- Otherwise the new machine can be made direct by its predecessor's mail ---

  lemma LeftoverMakesDirect(w: World, s: Side, endpoints: seq<Addr>, from: Addr) returns (run: seq<PeerNetwork.Step>)
    requires !Clean(w, s) && from != NoAddr
    ensures var v := Restarted(w, s, endpoints);
            IsRun(v, run) && Get(Exec(v, run), s).m.state == Direct && Get(Exec(v, run), s).sentAt == map[]
  {
    var v := Restarted(w, s, endpoints);
    assert Other(Other(s)) == s;
    if msg :| msg in w.wire && msg.to == s && msg.body.Pong? {
      run := Deliver(v, msg, from);
    } else if msg :| msg in w.wire && msg.to == Other(s) && msg.body.Ping? {
      run := PingToDirect(v, msg, from);
    } else {
      run := Drain(v, Other(s));
      var more := PongToDirect(Exec(v, run), s, from);
      Concat(v, run, more);
      run := run + more;
    }
  }

  // In every world that two peers can reach: after starting s anew, direct means a round trip of the new machine
  // in every run if and only if nothing is left of its predecessor's pings, on the wire in either direction or
  // waiting at the other side.
  lemma RestartIsSafeIff(w: World, s: Side, endpoints: seq<Addr>)
    requires Inv(w)
    ensures Clean(w, s) <==>
            forall run | IsRun(Restarted(w, s, endpoints), run) ::
              Get(Exec(Restarted(w, s, endpoints), run), s).m.state == Direct ==>
              Earned(Exec(Restarted(w, s, endpoints), run), s)
  {
    var v := Restarted(w, s, endpoints);
    if Clean(w, s) {
      forall run | IsRun(v, run) && Get(Exec(v, run), s).m.state == Direct ensures Earned(Exec(v, run), s) {
        RestartKeepsInv(w, s, endpoints);
        RunKeepsInv(v, run);
        assert Standing(Exec(v, run), s);
      }
    } else {
      var run := LeftoverMakesDirect(w, s, endpoints, Addr(1, 1));
      assert !Earned(Exec(v, run), s);
    }
  }
}
