/**
  The hole-punching state machine of `internal/daemon/peer.go`.

  `Step` is one iteration of the `run` loop on a machine value; the class `PeerFsm`
  is the code's object, each method proved to do what `Step` says.
 */
module PeerMachine {
  import opened Basics

  type Tx = string

  const PUNCH_ATTEMPT: Time := 5_000_000_000
  const PONG_MISS: Time := 75_000_000_000

  // NoAddr is the zero netip.AddrPort, and also an endpoint text that does not parse.
  datatype Addr = NoAddr | Addr(ip: nat, port: nat)

  datatype State = Unknown | HaveEndpoints | Punching | Direct | Relay

  datatype Body =
    | Ping(tx: Tx)
    | Pong(tx: Tx, src: Addr)
    | CallMeMaybe(endpoints: seq<Addr>)
    | OtherBody

  datatype Event = Update | Udp(from: Addr, body: Body) | Signal(body: Body)

  datatype Packet = Packet(to: Addr, body: Body)

  datatype Machine = Machine(
    state: State,
    endpoints: seq<Addr>,
    winning: Addr,
    tunnelUp: bool,
    lastPong: Time,
    punchStart: Time,
    deadline: Time)       // the run loop's punchDeadline

  function NewMachine(endpoints: seq<Addr>): Machine {
    Machine(Unknown, endpoints, NoAddr, false, 0, 0, 0)
  }

  // What the loop selects, plus the second half of `update`: the snapshot is stored
  // by the reconciler after the event was sent.
  datatype Input = Receive(ev: Event) | PunchTick | KeepaliveTick | StoreSnapshot(endpoints: seq<Addr>)

  // The surroundings of one iteration: first and last clock reading, the transaction
  // ids drawn, and whether bringing the tunnel up would succeed.
  datatype Env = Env(at: Time, end: Time, txs: seq<Tx>, linkOk: bool)

  datatype Out = Out(m: Machine, sent: seq<Packet>)

  function OnPeerUpdate(m: Machine, env: Env): Machine {
    if m.endpoints != [] && m.state == Unknown then
      m.(state := Punching, punchStart := env.at, deadline := env.end + PUNCH_ATTEMPT)
    else m
  }

  function OnPong(m: Machine, from: Addr, env: Env): Machine {
    if m.state != Direct then
      m.(state := Direct, winning := from, lastPong := env.at, tunnelUp := m.tunnelUp || env.linkOk)
    else m.(lastPong := env.at)
  }

  // Addresses that parse and are not known yet are appended, in order.
  function Absorb(known: seq<Addr>, addrs: seq<Addr>): seq<Addr> {
    if addrs == [] then known
    else
      var sofar, a := Absorb(known, addrs[..|addrs| - 1]), addrs[|addrs| - 1];
      if a == NoAddr || a in sofar then sofar else sofar + [a]
  }

  function OnDiscoUdp(m: Machine, from: Addr, body: Body, env: Env): Out {
    match body
    case Ping(tx) => Out(m, [Packet(from, Pong(tx, from))])
    case Pong(_, _) => Out(OnPong(m, from, env), [])
    case CallMeMaybe(addrs) => Out(OnPeerUpdate(m.(endpoints := Absorb(m.endpoints, addrs)), env), [])
    case OtherBody => Out(m, [])
  }

  function Draw(txs: seq<Tx>, i: nat): Tx { if i < |txs| then txs[i] else "" }

  function Pings(endpoints: seq<Addr>, txs: seq<Tx>): (s: seq<Packet>)
    ensures |s| == |endpoints|
  {
    seq(|endpoints|, i requires 0 <= i < |endpoints| => Packet(endpoints[i], Ping(Draw(txs, i))))
  }

  function Step(m: Machine, input: Input, env: Env): Out {
    match input
    case Receive(Update) => Out(OnPeerUpdate(m, env), [])
    case Receive(Udp(from, body)) => OnDiscoUdp(m, from, body, env)
    case Receive(Signal(body)) => OnDiscoUdp(m, NoAddr, body, env)
    case PunchTick =>
      if m.state != Punching then Out(m, [])
      else if env.at > m.deadline then Out(m.(state := Relay), [])
      else Out(m, Pings(m.endpoints, env.txs))
    case KeepaliveTick =>
      if m.state != Direct then Out(m, [])
      else if env.at - m.lastPong > PONG_MISS then Out(m.(state := Punching), [])
      else Out(m, [Packet(m.winning, Ping(Draw(env.txs, 0)))])
    case StoreSnapshot(endpoints) => Out(m.(endpoints := endpoints), [])
  }

  // --- What absorbing endpoints does ---

  predicate Distinct(s: seq<Addr>) { forall i, j | 0 <= i < j < |s| :: s[i] != s[j] }

  // Nothing known is lost or moved, exactly the parsing addresses are added, none twice.
  lemma {:induction false} AbsorbUnion(known: seq<Addr>, addrs: seq<Addr>)
    ensures known <= Absorb(known, addrs)
    ensures forall a :: a in Absorb(known, addrs) <==> a in known || (a in addrs && a != NoAddr)
    ensures Distinct(known) ==> Distinct(Absorb(known, addrs))
    decreases |addrs|
  {
    if addrs == [] {
    } else {
      AbsorbUnion(known, addrs[..|addrs| - 1]);
      assert addrs == addrs[..|addrs| - 1] + [addrs[|addrs| - 1]];
    }
  }

  // They are added in the order of the message: what a shorter message would give is how the result begins.
  lemma {:induction false} AbsorbInOrder(known: seq<Addr>, addrs: seq<Addr>, n: nat)
    requires n <= |addrs|
    ensures Absorb(known, addrs[..n]) <= Absorb(known, addrs)
    decreases |addrs|
  {
    if n == |addrs| {
      assert addrs[..n] == addrs;
    } else {
      AbsorbInOrder(known, addrs[..|addrs| - 1], n);
      assert addrs[..|addrs| - 1][..n] == addrs[..n];
    }
  }

  // --- The object ---

  class PeerFsm {
    var state: State
    var endpoints: seq<Addr>
    var winning: Addr
    var tunnelUp: bool
    var lastPong: Time
    var punchStart: Time
    var punchDeadline: Time

    function View(): Machine
      reads this
    {
      Machine(state, endpoints, winning, tunnelUp, lastPong, punchStart, punchDeadline)
    }

    constructor (endpoints: seq<Addr>)
      ensures View() == NewMachine(endpoints)
    {
      this.state, this.endpoints, winning, tunnelUp := Unknown, endpoints, NoAddr, false;
      lastPong, punchStart, punchDeadline := 0, 0, 0;
    }

    method PeerUpdate(env: Env)
      modifies this
      ensures View() == OnPeerUpdate(old(View()), env)
    {
      var has, cur := |endpoints| > 0, state;
      if has && cur == Unknown {
        state := HaveEndpoints;
        state := Punching;
        punchStart := env.at;
        punchDeadline := env.end + PUNCH_ATTEMPT;
      }
    }

    method BringUpTunnel(linkOk: bool)
      modifies this`tunnelUp
      ensures tunnelUp == (old(tunnelUp) || linkOk)
    {
      if tunnelUp { return; }
      if !linkOk { return; }
      tunnelUp := true;
    }

    method AbsorbEndpoints(addrs: seq<Addr>)
      modifies this`endpoints
      ensures endpoints == Absorb(old(endpoints), addrs)
    {
      var seen := set a | a in endpoints;
      for i := 0 to |addrs|
        invariant endpoints == Absorb(old(endpoints), addrs[..i])
        invariant forall a :: a in seen <==> a in endpoints
      {
        assert addrs[..i + 1][..i] == addrs[..i];
        var a := addrs[i];
        if a == NoAddr || a in seen { continue; }
        seen := seen + {a};
        endpoints := endpoints + [a];
      }
      assert addrs[..|addrs|] == addrs;
    }

    method DiscoUdp(from: Addr, body: Body, env: Env) returns (sent: seq<Packet>)
      modifies this
      ensures Out(View(), sent) == OnDiscoUdp(old(View()), from, body, env)
    {
      sent := [];
      match body {
        case Ping(tx) => sent := [Packet(from, Pong(tx, from))];
        case Pong(_, _) =>
          if state != Direct {
            winning := from;
            lastPong := env.at;
            state := Direct;
            BringUpTunnel(env.linkOk);
          } else {
            lastPong := env.at;
          }
        case CallMeMaybe(addrs) =>
          AbsorbEndpoints(addrs);
          PeerUpdate(env);
        case OtherBody =>
      }
    }

    method Handle(ev: Event, env: Env) returns (sent: seq<Packet>)
      modifies this
      ensures Out(View(), sent) == Step(old(View()), Receive(ev), env)
    {
      sent := [];
      match ev {
        case Update => PeerUpdate(env);
        case Udp(from, body) => sent := DiscoUdp(from, body, env);
        case Signal(body) => sent := DiscoUdp(NoAddr, body, env);
      }
    }

    method TickPunch(env: Env) returns (sent: seq<Packet>)
      modifies this
      ensures Out(View(), sent) == Step(old(View()), PunchTick, env)
    {
      sent := [];
      if state != Punching { return; }
      if env.at > punchDeadline {
        state := Relay;
        return;
      }
      for i := 0 to |endpoints|
        invariant sent == Pings(endpoints, env.txs)[..i]
        invariant unchanged(this)
      {
        sent := sent + [Packet(endpoints[i], Ping(Draw(env.txs, i)))];
      }
    }

    method Keepalive(env: Env) returns (sent: seq<Packet>)
      modifies this
      ensures Out(View(), sent) == Step(old(View()), KeepaliveTick, env)
    {
      sent := [];
      if state != Direct { return; }
      if env.at - lastPong > PONG_MISS {
        state := Punching;
        return;
      }
      sent := [Packet(winning, Ping(Draw(env.txs, 0)))];
    }
  }
}
