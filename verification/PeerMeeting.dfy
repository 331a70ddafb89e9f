/**
  How two machines of `internal/daemon/peer.go` that know nothing of each other get together
  through the coordinator: a call_me_maybe names endpoints, and punching starts from it.
 */
module PeerMeeting {
  import opened Basics
  import opened PeerMachine
  import opened PeerNetwork
  import opened PeerRelay

  // --- The incoming channel ---

  // A datagram or relayed message joins the channel exactly if fewer than 32 events are waiting.
  lemma DroppedIffFull(w: World, x: PeerNetwork.Step)
    requires Enabled(w, x) && (x.Udp? || x.Signal?)
    ensures var q := Get(w, x.msg.to).queue;
            var ev := if x.Udp? then Event.Udp(x.from, x.msg.body) else Event.Signal(x.msg.body);
            Get(Apply(w, x), x.msg.to).queue == if |q| < 32 then q + [ev] else q
  {}

  lemma {:induction false} ChannelBound(w: World, run: seq<PeerNetwork.Step>, s: Side)
    requires IsRun(w, run) && |Get(w, s).queue| <= 32
    ensures |Get(Exec(w, run), s).queue| <= 32
    decreases |run|
  {
    if run == [] {
    } else {
      ChannelBound(Apply(w, run[0]), run[1..], s);
    }
  }

  // --- Meeting ---

  // Some address in the list parses.
  predicate Usable(addrs: seq<Addr>) { exists i :: 0 <= i < |addrs| && addrs[i] != NoAddr }

  // The other side announces endpoints and the coordinator relays them.
  lemma Relayed(w: World, s: Side, addrs: seq<Addr>)
    requires Get(w, s).queue == []
    ensures var msg := Message(s, CallMeMaybe(addrs));
            var v := Apply(w, Announce(Other(s), addrs));
            && Enabled(v, PeerNetwork.Signal(msg, false))
            && var u := Apply(v, PeerNetwork.Signal(msg, false));
               && Get(u, s) == Get(w, s).(queue := [Event.Signal(msg.body)])
               && Get(u, Other(s)) == Get(w, Other(s)) && u.now == w.now
  {}

  // The machine that handles the call punches for 5 s, with what it knew and the addresses that parse.
  lemma Called(w: World, s: Side, addrs: seq<Addr>)
    requires Get(w, s).m.state == Unknown && Get(w, s).queue == [Event.Signal(CallMeMaybe(addrs))] && Usable(addrs)
    ensures var v := Apply(w, Handle(s, Now(w)));
            && Get(v, s).m.state == Punching && v.now == w.now && Get(v, s).m.deadline == w.now + 5_000_000_000
            && Get(v, s).m.endpoints == Absorb(Get(w, s).m.endpoints, addrs) != []
            && Get(v, Other(s)) == Get(w, Other(s))
  {
    AbsorbUnion(Get(w, s).m.endpoints, addrs);
    var i :| 0 <= i < |addrs| && addrs[i] != NoAddr;
    assert addrs[i] in Absorb(Get(w, s).m.endpoints, addrs);
  }

  lemma Introduced(w: World, s: Side, addrs: seq<Addr>) returns (run: seq<PeerNetwork.Step>)
    requires Get(w, s).m.state == Unknown && Get(w, s).queue == [] && Usable(addrs)
    ensures run == [Announce(Other(s), addrs), PeerNetwork.Signal(Message(s, CallMeMaybe(addrs)), false),
                    Handle(s, Now(w))]
    ensures IsRun(w, run)
    ensures var v := Exec(w, run);
            && Get(v, s).m.state == Punching && v.now == w.now && Get(v, s).m.deadline == w.now + 5_000_000_000
            && Get(v, s).m.endpoints == Absorb(Get(w, s).m.endpoints, addrs) != []
            && Get(v, Other(s)) == Get(w, Other(s))
  {
    var a, c := Announce(Other(s), addrs), Handle(s, Now(w));
    var b := PeerNetwork.Signal(Message(s, CallMeMaybe(addrs)), false);
    Relayed(w, s, addrs);
    var w1 := Apply(w, a);
    var w2 := Apply(w1, b);
    Called(w2, s, addrs);
    Single(w, a);
    Single(w1, b);
    Single(w2, c);
    Concat(w1, [b], [c]);
    Concat(w, [a], [b] + [c]);
    run := [a, b, c];
    assert run == [a] + ([b] + [c]);
  }

  // Two machines that start with no endpoints at all: whatever usable list one side announces, some run takes the
  // other into direct.
  lemma MeetThroughRelay(start: Time, s: Side, addrs: seq<Addr>, tx: Tx, from: Addr)
      returns (run: seq<PeerNetwork.Step>)
    requires Usable(addrs) && from != NoAddr
    ensures IsRun(Init([], [], start), run)
    ensures Get(Exec(Init([], [], start), run), s).m.state == Direct
  {
    var w := Init([], [], start);
    run := Introduced(w, s, addrs);
    var v := Exec(w, run);
    var more := PunchCanSucceed(v, s, seq(|Get(v, s).m.endpoints|, _ => tx), from);
    Concat(w, run, more);
    run := run + more;
  }
}
