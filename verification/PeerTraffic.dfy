/**
  What a machine of `internal/daemon/peer.go` sends, to whom, and how its state follows from
  what it received: over every run, from the inputs alone.
 */
module PeerTraffic {
  import opened Basics
  import opened PeerMachine
  import opened PeerRuns

  // --- Pongs ---

  // The input is a ping with this id that came from a; one relayed by the coordinator has the zero address.
  predicate IsPingFrom(x: Input, a: Addr, tx: Tx) {
    match x
    case Receive(Udp(from, Ping(t))) => from == a && t == tx
    case Receive(Signal(Ping(t))) => a == NoAddr && t == tx
    case _ => false
  }

  ghost predicate SendsPong(sent: seq<Packet>, a: Addr, tx: Tx) {
    exists p :: 0 <= p < |sent| && sent[p].to == a && sent[p].body.Pong? && sent[p].body.tx == tx
  }

  // An iteration sends a pong to an address exactly if it handles a ping that came from there, with the id of
  // that ping; the pong names the address, and nothing else is sent.
  lemma PongsSentIff(eps: seq<Addr>, run: seq<TimedInput>, i: nat, a: Addr, tx: Tx)
    requires i < |run|
    ensures var sent := SentAt(NewMachine(eps), run, i);
            && (SendsPong(sent, a, tx) <==> IsPingFrom(run[i].input, a, tx))
            && (IsPingFrom(run[i].input, a, tx) ==> sent == [Packet(a, Pong(tx, a))])
  {
    var sent := SentAt(NewMachine(eps), run, i);
    if IsPingFrom(run[i].input, a, tx) { assert sent[0] == Packet(a, Pong(tx, a)); }
  }

  // Apart from answers to pings, only the two timers send, and they send pings.
  lemma OnlyTimersPing(eps: seq<Addr>, run: seq<TimedInput>, i: nat, p: nat)
    requires i < |run| && p < |SentAt(NewMachine(eps), run, i)|
    ensures var body := SentAt(NewMachine(eps), run, i)[p].body;
            if Timer(run[i]) then body.Ping? else body.Pong? && IsPingFrom(run[i].input, body.src, body.tx)
  {}

  // --- Pings of a punch tick ---

  // Each ping of a tick has an id of its own, in the order they were drawn, if enough were.
  lemma TickIds(eps: seq<Addr>, run: seq<TimedInput>, i: nat, p: nat)
    requires i < |run| && run[i].input == PunchTick && p < |SentAt(NewMachine(eps), run, i)| <= |run[i].env.txs|
    ensures SentAt(NewMachine(eps), run, i)[p].body == Ping(run[i].env.txs[p])
  {}

  predicate DistinctStores(run: seq<TimedInput>) {
    forall i | 0 <= i < |run| :: Stores(run[i].input) ==> Distinct(run[i].input.endpoints)
  }

  lemma {:induction false} EndpointsStayDistinct(eps: seq<Addr>, run: seq<TimedInput>)
    requires Distinct(eps) && DistinctStores(run)
    ensures Distinct(After(NewMachine(eps), run).endpoints)
    decreases |run|
  {
    if run == [] {
    } else {
      var n := |run| - 1;
      EndpointsStayDistinct(eps, run[..n]);
      var m := After(NewMachine(eps), run[..n]);
      match run[n].input {
        case Receive(Udp(_, CallMeMaybe(addrs))) => AbsorbUnion(m.endpoints, addrs);
        case Receive(Signal(CallMeMaybe(addrs))) => AbsorbUnion(m.endpoints, addrs);
        case _ =>
      }
    }
  }

  // No tick pings an address twice, if no snapshot lists one twice.
  lemma TickPingsOnce(eps: seq<Addr>, run: seq<TimedInput>, i: nat, p: nat, q: nat)
    requires i < |run| && run[i].input == PunchTick && Distinct(eps) && DistinctStores(run)
    requires p < q < |SentAt(NewMachine(eps), run, i)|
    ensures SentAt(NewMachine(eps), run, i)[p].to != SentAt(NewMachine(eps), run, i)[q].to
  {
    assert forall j | 0 <= j < i :: run[..i][j] == run[j];
    EndpointsStayDistinct(eps, run[..i]);
  }

  // --- What the machine remembers ---

  // When the last pong was handled.
  function LastPongAt(run: seq<TimedInput>): Time {
    if run == [] then 0
    else
      var n := |run| - 1;
      if HandlesPong(run[n].input) then run[n].env.at else LastPongAt(run[..n])
  }

  // When the deadline armed by the machine runs out, and when punching began; zero if never.
  function ArmedUntil(m: Machine, run: seq<TimedInput>): Time {
    if run == [] then 0
    else
      var n := |run| - 1;
      if Arms(m, run, n) then run[n].env.end + 5_000_000_000 else ArmedUntil(m, run[..n])
  }

  function ArmedFrom(m: Machine, run: seq<TimedInput>): Time {
    if run == [] then 0
    else
      var n := |run| - 1;
      if Arms(m, run, n) then run[n].env.at else ArmedFrom(m, run[..n])
  }

  lemma {:induction false} LastPongFromHistory(eps: seq<Addr>, run: seq<TimedInput>)
    ensures After(NewMachine(eps), run).lastPong == LastPongAt(run)
    decreases |run|
  {
    if run == [] {
    } else {
      LastPongFromHistory(eps, run[..|run| - 1]);
    }
  }

  lemma DeadlineStep(m: Machine, run: seq<TimedInput>)
    requires run != []
    ensures var n := |run| - 1;
            var before, after := After(m, run[..n]), After(m, run);
            if Arms(m, run, n) then
              after.deadline == run[n].env.end + 5_000_000_000 && after.punchStart == run[n].env.at
            else after.deadline == before.deadline && after.punchStart == before.punchStart
  {
    Last(m, run);
  }

  lemma {:induction false} DeadlineFromHistory(eps: seq<Addr>, run: seq<TimedInput>)
    ensures var m := After(NewMachine(eps), run);
            m.deadline == ArmedUntil(NewMachine(eps), run) && m.punchStart == ArmedFrom(NewMachine(eps), run)
    decreases |run|
  {
    if run == [] {
    } else {
      DeadlineFromHistory(eps, run[..|run| - 1]);
      DeadlineStep(NewMachine(eps), run);
    }
  }

  lemma Last(m: Machine, run: seq<TimedInput>)
    requires run != []
    ensures var n := |run| - 1;
            run[..n + 1] == run && Before(m, run, n) == After(m, run[..n])
  {
    assert run[..|run|] == run;
  }

  predicate EntersDirect(m: Machine, run: seq<TimedInput>, i: nat)
    requires i < |run|
  {
    Before(m, run, i).state != Direct && After(m, run[..i + 1]).state == Direct
  }

  // Iteration i brings the tunnel up.
  predicate Raises(m: Machine, run: seq<TimedInput>, i: int) {
    0 <= i < |run| && run[i].env.linkOk && EntersDirect(m, run, i)
  }

  ghost predicate BroughtUp(m: Machine, run: seq<TimedInput>) { exists i :: Raises(m, run, i) }

  lemma UpStep(m: Machine, run: seq<TimedInput>)
    requires run != []
    ensures After(m, run).tunnelUp <==> After(m, run[..|run| - 1]).tunnelUp || Raises(m, run, |run| - 1)
  {
    Last(m, run);
  }

  lemma RaisesInPrefix(m: Machine, run: seq<TimedInput>, n: nat, i: int)
    requires 0 <= i < n <= |run|
    ensures Raises(m, run[..n], i) <==> Raises(m, run, i)
  {
    assert run[..n][..i] == run[..i] && run[..n][..i + 1] == run[..i + 1];
  }

  lemma BroughtUpStep(m: Machine, run: seq<TimedInput>)
    requires run != []
    ensures BroughtUp(m, run) <==> BroughtUp(m, run[..|run| - 1]) || Raises(m, run, |run| - 1)
  {
    var n := |run| - 1;
    if i :| Raises(m, run[..n], i) {
      RaisesInPrefix(m, run, n, i);
    }
    if i :| Raises(m, run, i) && i < n {
      RaisesInPrefix(m, run, n, i);
    }
  }

  // The tunnel is up exactly if some entry into direct could bring it up.
  lemma {:induction false} TunnelUpIff(eps: seq<Addr>, run: seq<TimedInput>)
    ensures After(NewMachine(eps), run).tunnelUp <==> BroughtUp(NewMachine(eps), run)
    decreases |run|
  {
    if run == [] {
    } else {
      TunnelUpIff(eps, run[..|run| - 1]);
      UpStep(NewMachine(eps), run);
      BroughtUpStep(NewMachine(eps), run);
    }
  }

  // --- Pings of a keepalive tick ---

  // Where a pong came from.
  function Source(x: Input): Addr
    requires HandlesPong(x)
  {
    if x.ev.Udp? then x.ev.from else NoAddr
  }

  lemma DirectStep(m: Machine, run: seq<TimedInput>, i: nat)
    requires i < |run| && After(m, run[..i + 1]).state == Direct
    ensures var before, after := Before(m, run, i), After(m, run[..i + 1]);
            if before.state == Direct then after.winning == before.winning
            else HandlesPong(run[i].input) && after.winning == Source(run[i].input)
  {
    Prefix(m, run, i);
  }

  // The pong that the current direct phase began with.
  lemma {:induction false} PhaseBegan(eps: seq<Addr>, run: seq<TimedInput>, i: nat) returns (j: nat)
    requires i <= |run| && After(NewMachine(eps), run[..i]).state == Direct
    ensures j < i && EntersDirect(NewMachine(eps), run, j) && HandlesPong(run[j].input)
    ensures After(NewMachine(eps), run[..i]).winning == Source(run[j].input)
    ensures forall l | j < l <= i :: After(NewMachine(eps), run[..l]).state == Direct
    decreases i
  {
    var m := NewMachine(eps);
    if i == 0 {
      assert false;
    } else {
      DirectStep(m, run, i - 1);
      j := i - 1;
      if Before(m, run, i - 1).state == Direct { j := PhaseBegan(eps, run, i - 1); }
    }
  }

  // A keepalive tick pings exactly if the machine is direct and heard a pong at most 75 s ago; it sends one ping,
  // to the address of the pong that the direct phase began with.
  lemma KeepaliveIff(eps: seq<Addr>, run: seq<TimedInput>, i: nat)
    requires i < |run| && run[i].input == KeepaliveTick
    ensures SentAt(NewMachine(eps), run, i) != [] <==>
            Before(NewMachine(eps), run, i).state == Direct && run[i].env.at - LastPongAt(run[..i]) <= 75_000_000_000
  {
    LastPongFromHistory(eps, run[..i]);
  }

  lemma KeepalivePingsWinner(eps: seq<Addr>, run: seq<TimedInput>, i: nat) returns (j: nat)
    requires i < |run| && run[i].input == KeepaliveTick && SentAt(NewMachine(eps), run, i) != []
    ensures j < i && EntersDirect(NewMachine(eps), run, j) && HandlesPong(run[j].input)
    ensures forall l | j < l <= i :: After(NewMachine(eps), run[..l]).state == Direct
    ensures var sent := SentAt(NewMachine(eps), run, i);
            && |sent| == 1 && sent[0].to == Source(run[j].input) && sent[0].body.Ping?
            && (run[i].env.txs != [] ==> sent[0].body.tx == run[i].env.txs[0])
  {
    j := PhaseBegan(eps, run, i);
  }

  // --- The state ---

  // Inputs at which an unknown machine looks at its endpoints: an update or a call_me_maybe.
  predicate LooksAtEndpoints(x: Input) { x.Receive? && (x.ev.Update? || x.ev.body.CallMeMaybe?) }

  // Some address is known.
  ghost predicate Knows(eps: seq<Addr>, run: seq<TimedInput>) { exists a :: StillKnown(eps, run, a) }

  lemma KnowsIff(eps: seq<Addr>, run: seq<TimedInput>)
    ensures Knows(eps, run) <==> After(NewMachine(eps), run).endpoints != []
  {
    var s := After(NewMachine(eps), run).endpoints;
    if s != [] {
      EndpointsFromHistory(eps, run, s[0]);
    } else if Knows(eps, run) {
      var a :| StillKnown(eps, run, a);
      EndpointsFromHistory(eps, run, a);
    }
  }

  // Iteration i of any run, from the state before it and the inputs so far: when the machine is direct, unknown
  // or in relay afterwards. Otherwise it is punching.
  lemma StateFollows(eps: seq<Addr>, run: seq<TimedInput>, i: nat)
    requires i < |run|
    ensures var m, x, at := NewMachine(eps), run[i].input, run[i].env.at;
            var before, after := Before(m, run, i).state, After(m, run[..i + 1]).state;
            && (after == Direct <==>
                  HandlesPong(x) ||
                  (before == Direct && !(x == KeepaliveTick && at - LastPongAt(run[..i]) > 75_000_000_000)))
            && (after == Unknown <==>
                  before == Unknown && !HandlesPong(x) && !(LooksAtEndpoints(x) && Knows(eps, run[..i + 1])))
            && (after == Relay <==>
                  !HandlesPong(x) && (before == Relay ||
                                      (before == Punching && x == PunchTick && at > ArmedUntil(m, run[..i]))))
            && (before != HaveEndpoints ==> after != HaveEndpoints)
  {
    var m := NewMachine(eps);
    Prefix(m, run, i);
    LastPongFromHistory(eps, run[..i]);
    DeadlineFromHistory(eps, run[..i]);
    KnowsIff(eps, run[..i + 1]);
  }
}
