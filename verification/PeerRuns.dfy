/**
  Whole lifetimes of one machine of `internal/daemon/peer.go`: the punch deadline,
  the timing bounds, and what happens after a keepalive loss.
 */
module PeerRuns {
  import opened Basics
  import opened PeerMachine

  datatype TimedInput = TimedInput(input: Input, env: Env)

  // Clock readings do not run backwards, within an iteration or between iterations.
  predicate WellTimed(start: Time, run: seq<TimedInput>) {
    run == [] ||
    (var s := run[|run| - 1];
     WellTimed(start, run[..|run| - 1]) && Clock(start, run[..|run| - 1]) <= s.env.at <= s.env.end)
  }

  // The latest clock reading.
  function Clock(start: Time, run: seq<TimedInput>): Time {
    if run == [] then start else run[|run| - 1].env.end
  }

  function After(m: Machine, run: seq<TimedInput>): Machine {
    if run == [] then m
    else Step(After(m, run[..|run| - 1]), run[|run| - 1].input, run[|run| - 1].env).m
  }

  function Before(m: Machine, run: seq<TimedInput>, i: nat): Machine
    requires i < |run|
  {
    After(m, run[..i])
  }

  function SentAt(m: Machine, run: seq<TimedInput>, i: nat): seq<Packet>
    requires i < |run|
  {
    Step(Before(m, run, i), run[i].input, run[i].env).sent
  }

  // Iteration i leaves unknown for punching, which is the only place the deadline is set.
  predicate Arms(m: Machine, run: seq<TimedInput>, i: nat)
    requires i < |run|
  {
    Before(m, run, i).state == Unknown && After(m, run[..i + 1]).state == Punching
  }

  // Iteration i is a keepalive that finds the last pong too old.
  predicate Loses(m: Machine, run: seq<TimedInput>, i: nat)
    requires i < |run|
  {
    Before(m, run, i).state == Direct && After(m, run[..i + 1]).state == Punching
  }

  lemma Prefix(m: Machine, run: seq<TimedInput>, i: nat)
    requires i < |run|
    ensures run[..i + 1][..i] == run[..i]
    ensures After(m, run[..i + 1]) == Step(Before(m, run, i), run[i].input, run[i].env).m
  {
    assert run[..i + 1][..i] == run[..i];
  }

  lemma {:induction false} WellTimedPrefix(start: Time, run: seq<TimedInput>, i: nat)
    requires WellTimed(start, run) && i <= |run|
    ensures WellTimed(start, run[..i]) && start <= Clock(start, run[..i]) <= Clock(start, run)
    ensures i < |run| ==> Clock(start, run[..i]) <= run[i].env.at <= run[i].env.end <= Clock(start, run)
    decreases |run|
  {
    var n := |run| - 1;
    if run == [] {
    } else if i == |run| {
      assert run[..i] == run;
      WellTimedPrefix(start, run[..n], n);
      assert run[..n][..n] == run[..n];
    } else {
      WellTimedPrefix(start, run[..n], i);
      assert run[..n][..i] == run[..i];
    }
  }

  // --- Facts about a machine and the clock that every iteration keeps ---

  predicate Inv(m: Machine, now: Time) {
    && m.state != HaveEndpoints
    && m.lastPong <= now
    && m.deadline <= now + PUNCH_ATTEMPT
    && (m.state == Unknown ==> m.deadline == 0)
    && (m.state == Direct ==> m.deadline <= m.lastPong + PUNCH_ATTEMPT)
  }

  lemma StepKeeps(m: Machine, now: Time, s: TimedInput)
    requires Inv(m, now) && 0 < now <= s.env.at <= s.env.end
    ensures var q := Step(m, s.input, s.env).m;
            && Inv(q, s.env.end)
            && (m.state != Unknown ==> q.state != Unknown && q.deadline == m.deadline)
            && (m.state == Unknown && q.state != Punching ==> q.deadline == m.deadline)
            && (m.state == Unknown && q.state == Punching ==> q.deadline == s.env.end + PUNCH_ATTEMPT)
            && (m.state == Direct && q.state == Punching ==> q.deadline < s.env.at)
  {}

  lemma {:induction false} RunKeeps(start: Time, m: Machine, run: seq<TimedInput>)
    requires WellTimed(start, run) && 0 < start && Inv(m, start)
    ensures Inv(After(m, run), Clock(start, run)) && start <= Clock(start, run)
    decreases |run|
  {
    if run == [] {
    } else {
      var n := |run| - 1;
      RunKeeps(start, m, run[..n]);
      StepKeeps(After(m, run[..n]), Clock(start, run[..n]), run[n]);
    }
  }

  lemma InvBefore(start: Time, eps: seq<Addr>, run: seq<TimedInput>, i: nat)
    requires WellTimed(start, run) && 0 < start && i < |run|
    ensures var m := NewMachine(eps);
            && Inv(Before(m, run, i), Clock(start, run[..i]))
            && 0 < Clock(start, run[..i]) <= run[i].env.at <= run[i].env.end
            && After(m, run[..i + 1]) == Step(Before(m, run, i), run[i].input, run[i].env).m
  {
    WellTimedPrefix(start, run, i);
    RunKeeps(start, NewMachine(eps), run[..i]);
    Prefix(NewMachine(eps), run, i);
  }

  // From iteration i on, a machine that left unknown keeps its deadline and never returns.
  lemma {:induction false} LeftUnknown(start: Time, eps: seq<Addr>, run: seq<TimedInput>, i: nat, j: nat)
    requires WellTimed(start, run) && 0 < start && i <= j <= |run|
    requires After(NewMachine(eps), run[..i]).state != Unknown
    ensures After(NewMachine(eps), run[..j]).state != Unknown
    ensures After(NewMachine(eps), run[..j]).deadline == After(NewMachine(eps), run[..i]).deadline
    decreases j
  {
    if i < j {
      LeftUnknown(start, eps, run, i, j - 1);
      InvBefore(start, eps, run, j - 1);
      StepKeeps(Before(NewMachine(eps), run, j - 1), Clock(start, run[..j - 1]), run[j - 1]);
    }
  }

  // --- The deadline is armed at most once in a lifetime ---

  lemma ArmedAtMostOnce(start: Time, eps: seq<Addr>, run: seq<TimedInput>, i: nat, j: nat)
    requires WellTimed(start, run) && 0 < start && i < |run| && j < |run|
    requires Arms(NewMachine(eps), run, i) && Arms(NewMachine(eps), run, j)
    ensures i == j
  {
    if i < j { LeftUnknown(start, eps, run, i + 1, j); }
    if j < i { LeftUnknown(start, eps, run, j + 1, i); }
  }

  // A tick that sends pings does so in the 5 s window of an earlier arming.
  lemma TickPingsInWindow(start: Time, eps: seq<Addr>, run: seq<TimedInput>, i: nat) returns (j: nat)
    requires WellTimed(start, run) && 0 < start && i < |run|
    requires run[i].input == PunchTick && SentAt(NewMachine(eps), run, i) != []
    ensures j < i && Arms(NewMachine(eps), run, j)
    ensures run[j].env.end <= run[i].env.at <= run[j].env.end + PUNCH_ATTEMPT
  {
    InvBefore(start, eps, run, i);
    j := ArmingOf(start, eps, run, i);
    WellTimedPrefix(start, run, i);
    WellTimedPrefix(start, run[..i], j);
    assert run[..i][j] == run[j];
  }

  // A deadline in the future was set by some iteration.
  lemma {:induction false} ArmingOf(start: Time, eps: seq<Addr>, run: seq<TimedInput>, i: nat) returns (j: nat)
    requires WellTimed(start, run) && 0 < start && i <= |run|
    requires After(NewMachine(eps), run[..i]).deadline != 0
    ensures j < i && Arms(NewMachine(eps), run, j)
    ensures After(NewMachine(eps), run[..i]).deadline == run[j].env.end + PUNCH_ATTEMPT
    decreases i
  {
    j := i - 1;
    InvBefore(start, eps, run, j);
    StepKeeps(Before(NewMachine(eps), run, j), Clock(start, run[..j]), run[j]);
    if !Arms(NewMachine(eps), run, j) { j := ArmingOf(start, eps, run, i - 1); }
  }

  // --- After a keepalive loss the machine never punches again ---

  // The documentation calls it re-punching; in fact the deadline has passed for good, so
  // no later tick sends a ping, and a tick that finds the machine punching gives it up.
  lemma NoPunchingAfterLoss(start: Time, eps: seq<Addr>, run: seq<TimedInput>, k: nat, i: nat)
    requires WellTimed(start, run) && 0 < start && k < i < |run|
    requires Loses(NewMachine(eps), run, k) && run[i].input == PunchTick
    ensures SentAt(NewMachine(eps), run, i) == []
    ensures Before(NewMachine(eps), run, i).state == Punching ==> After(NewMachine(eps), run[..i + 1]).state == Relay
  {
    DeadlinePassed(start, eps, run, k);
    LeftUnknown(start, eps, run, k + 1, i);
    Prefix(NewMachine(eps), run, i);
    WellTimedPrefix(start, run, i);
    WellTimedPrefix(start, run[..i], k);
    assert run[..i][k] == run[k];
  }

  // Such a loss does happen: for every non-empty endpoint list, an update, a pong and a keepalive tick
  // more than 75 s later.
  lemma LossIsReachable(start: Time, eps: seq<Addr>, from: Addr, tx: Tx, src: Addr, late: Time, linkOk: bool)
      returns (run: seq<TimedInput>)
    requires 0 < start && eps != [] && late > start + PONG_MISS
    ensures WellTimed(start, run) && |run| == 3 && Loses(NewMachine(eps), run, 2)
  {
    var now, later := Env(start, start, [], linkOk), Env(late, late, [], linkOk);
    var a := TimedInput(Receive(Update), now);
    var b := TimedInput(Receive(Udp(from, Pong(tx, src))), now);
    run := [a, b, TimedInput(KeepaliveTick, later)];
    assert run[..2] == [a, b];
    AfterTwo(NewMachine(eps), a, b);
    WellTimedThree(start, a, b, run[2]);
    Prefix(NewMachine(eps), run, 2);
  }

  lemma WellTimedThree(start: Time, a: TimedInput, b: TimedInput, c: TimedInput)
    requires start <= a.env.at <= a.env.end <= b.env.at <= b.env.end <= c.env.at <= c.env.end
    ensures WellTimed(start, [a, b, c])
  {
    var r1, r2, r3 := [a], [a, b], [a, b, c];
    assert r1[..0] == [] && r2[..1] == r1 && r3[..2] == r2;
    assert WellTimed(start, r1);
    assert WellTimed(start, r2);
  }

  lemma DeadlinePassed(start: Time, eps: seq<Addr>, run: seq<TimedInput>, k: nat)
    requires WellTimed(start, run) && 0 < start && k < |run| && Loses(NewMachine(eps), run, k)
    ensures After(NewMachine(eps), run[..k + 1]).deadline < run[k].env.at
  {
    InvBefore(start, eps, run, k);
    StepKeeps(Before(NewMachine(eps), run, k), Clock(start, run[..k]), run[k]);
  }

  // --- Timing bounds ---

  // When the last keepalive (punch tick) was handled, the start of the run if none was.
  function LastOf(start: Time, run: seq<TimedInput>, kind: Input): Time {
    if run == [] then start
    else if run[|run| - 1].input == kind then run[|run| - 1].env.at
    else LastOf(start, run[..|run| - 1], kind)
  }

  // When the current phase of punching was entered.
  function Entered(start: Time, m: Machine, run: seq<TimedInput>): Time {
    if run == [] then start
    else if After(m, run[..|run| - 1]).state != Punching && After(m, run).state == Punching then run[|run| - 1].env.end
    else Entered(start, m, run[..|run| - 1])
  }

  lemma {:induction false} TimingInv(start: Time, m: Machine, run: seq<TimedInput>)
    requires WellTimed(start, run) && 0 < start && Inv(m, start) && m.state == Unknown
    ensures var q := After(m, run);
            && LastOf(start, run, KeepaliveTick) <= Clock(start, run)
            && LastOf(start, run, PunchTick) <= Clock(start, run)
            && (q.state == Direct ==> LastOf(start, run, KeepaliveTick) - q.lastPong <= PONG_MISS)
            && (q.state == Punching ==> q.deadline <= Entered(start, m, run) + PUNCH_ATTEMPT)
            && (q.state == Punching ==>
                  || LastOf(start, run, PunchTick) <= Entered(start, m, run)
                  || LastOf(start, run, PunchTick) <= q.deadline)
    decreases |run|
  {
    if run == [] {
    } else {
      var n := |run| - 1;
      TimingInv(start, m, run[..n]);
      RunKeeps(start, m, run[..n]);
      StepKeeps(After(m, run[..n]), Clock(start, run[..n]), run[n]);
    }
  }

  // At any moment t, a machine in direct has heard a pong at most 75 s before its last keepalive:
  // if keepalives come at most k apart, the last pong is never older than 75 s + k.
  lemma DirectIsFresh(start: Time, eps: seq<Addr>, run: seq<TimedInput>, t: Time, k: Time)
    requires WellTimed(start, run) && 0 < start && Clock(start, run) <= t
    requires After(NewMachine(eps), run).state == Direct && t - LastOf(start, run, KeepaliveTick) <= k
    ensures t - After(NewMachine(eps), run).lastPong <= PONG_MISS + k
  {
    TimingInv(start, NewMachine(eps), run);
  }

  // If punch ticks come at most d apart, no phase of punching lasts longer than 5 s + d.
  lemma PunchingIsShort(start: Time, eps: seq<Addr>, run: seq<TimedInput>, t: Time, d: Time)
    requires WellTimed(start, run) && 0 < start && Clock(start, run) <= t
    requires After(NewMachine(eps), run).state == Punching && t - LastOf(start, run, PunchTick) <= d
    ensures t - Entered(start, NewMachine(eps), run) <= PUNCH_ATTEMPT + d
  {
    TimingInv(start, NewMachine(eps), run);
  }

  // --- The event of `update` overtakes its snapshot ---

  // `update` sends its event before it stores the snapshot. A machine that handles the event
  // first stays unknown with endpoints at hand, and no tick or keepalive ever gets it going.
  predicate Timer(s: TimedInput) { s.input == PunchTick || s.input == KeepaliveTick }

  lemma {:induction false} StuckUnknown(m: Machine, run: seq<TimedInput>)
    requires m.state == Unknown && forall i | 0 <= i < |run| :: Timer(run[i])
    ensures After(m, run) == m
    decreases |run|
  {
    if run == [] {
    } else {
      StuckUnknown(m, run[..|run| - 1]);
    }
  }

  // Handled and stored in either order, an update makes a fresh machine punch exactly when the
  // endpoints were there by the time its event was handled.
  lemma UpdateRace(oldEps: seq<Addr>, newEps: seq<Addr>, env: Env, handledFirst: bool, timers: seq<TimedInput>)
    requires forall i | 0 <= i < |timers| :: Timer(timers[i])
    ensures var handle, store := TimedInput(Receive(Update), env), TimedInput(StoreSnapshot(newEps), env);
            var m := After(NewMachine(oldEps), if handledFirst then [handle, store] else [store, handle]);
            && m.endpoints == newEps
            && (m.state == Punching <==> (if handledFirst then oldEps else newEps) != [])
            && (m.state != Punching ==> After(m, timers) == m)
  {
    var handle, store := TimedInput(Receive(Update), env), TimedInput(StoreSnapshot(newEps), env);
    AfterTwo(NewMachine(oldEps), handle, store);
    AfterTwo(NewMachine(oldEps), store, handle);
    var m := After(NewMachine(oldEps), if handledFirst then [handle, store] else [store, handle]);
    if m.state == Unknown { StuckUnknown(m, timers); }
  }

  lemma AfterTwo(m: Machine, a: TimedInput, b: TimedInput)
    ensures After(m, [a, b]) == Step(Step(m, a.input, a.env).m, b.input, b.env).m
  {
    assert [a, b][..1] == [a] && [a][..0] == [];
    assert After(m, [a]) == Step(After(m, []), a.input, a.env).m;
  }

  // --- How long direct lasts ---

  predicate HandlesPong(x: Input) { x.Receive? && !x.ev.Update? && x.ev.body.Pong? }

  // When the machine entered the direct phase it is in, and how many pongs it has handled in it.
  function DirectSince(start: Time, m: Machine, run: seq<TimedInput>): Time {
    if run == [] then start
    else
      var n := |run| - 1;
      if After(m, run[..n]).state != Direct then run[n].env.at else DirectSince(start, m, run[..n])
  }

  function PongsInPhase(m: Machine, run: seq<TimedInput>): nat {
    if run == [] || After(m, run).state != Direct then 0
    else
      var n := |run| - 1;
      PongsInPhase(m, run[..n]) + if HandlesPong(run[n].input) then 1 else 0
  }

  // No iteration starts more than k after the keepalive tick before it.
  predicate Regular(start: Time, run: seq<TimedInput>, k: Time) {
    run == [] ||
    (var n := |run| - 1;
     Regular(start, run[..n], k) && run[n].env.at - LastOf(start, run[..n], KeepaliveTick) <= k)
  }

  // Each pong buys at most 75 s + k.
  lemma {:induction false} PhaseGrows(start: Time, eps: seq<Addr>, run: seq<TimedInput>, k: Time)
    requires WellTimed(start, run) && 0 < start && 0 <= k && Regular(start, run, k)
    requires After(NewMachine(eps), run).state == Direct
    ensures var m := NewMachine(eps);
            && PongsInPhase(m, run) >= 1
            && After(m, run).lastPong - DirectSince(start, m, run) <= (PongsInPhase(m, run) - 1) * (PONG_MISS + k)
    decreases |run|
  {
    var m, n := NewMachine(eps), |run| - 1;
    var before := After(m, run[..n]);
    if before.state != Direct {
      assert HandlesPong(run[n].input) && PongsInPhase(m, run[..n]) == 0;
    } else {
      PhaseGrows(start, eps, run[..n], k);
      if HandlesPong(run[n].input) {
        DirectIsFresh(start, eps, run[..n], run[n].env.at, k);
        OneMore(PongsInPhase(m, run[..n]), PONG_MISS + k);
      }
    }
  }

  lemma OneMore(c: nat, d: Time)
    requires c >= 1
    ensures c * d == (c - 1) * d + d
  {}

  // A machine whose keepalive ticks come at most k apart has been in direct for at most 75 s + k for
  // each pong it handled in that phase.
  lemma DirectIsPaidFor(start: Time, eps: seq<Addr>, run: seq<TimedInput>, t: Time, k: Time)
    requires WellTimed(start, run) && 0 < start && 0 <= k && Regular(start, run, k) && Clock(start, run) <= t
    requires After(NewMachine(eps), run).state == Direct && t - LastOf(start, run, KeepaliveTick) <= k
    ensures t - DirectSince(start, NewMachine(eps), run) <= PongsInPhase(NewMachine(eps), run) * (PONG_MISS + k)
  {
    PhaseGrows(start, eps, run, k);
    DirectIsFresh(start, eps, run, t, k);
    OneMore(PongsInPhase(NewMachine(eps), run), PONG_MISS + k);
  }

  // --- Which endpoints a tick pings ---

  predicate Stores(x: Input) { x.StoreSnapshot? }

  // Iteration i brings a: a snapshot that lists it, or a call_me_maybe that names it.
  predicate Brings(run: seq<TimedInput>, i: nat, a: Addr)
    requires i < |run|
  {
    match run[i].input
    case StoreSnapshot(eps) => a in eps
    case Receive(Udp(_, CallMeMaybe(addrs))) => a in addrs && a != NoAddr
    case Receive(Signal(CallMeMaybe(addrs))) => a in addrs && a != NoAddr
    case _ => false
  }

  predicate NoStoreFrom(run: seq<TimedInput>, i: nat) {
    forall j | i <= j < |run| :: !Stores(run[j].input)
  }

  // a was there at the start or brought later, and no snapshot was stored since.
  ghost predicate StillKnown(eps: seq<Addr>, run: seq<TimedInput>, a: Addr) {
    (a in eps && NoStoreFrom(run, 0)) || exists i :: 0 <= i < |run| && Brings(run, i, a) && NoStoreFrom(run, i + 1)
  }

  lemma {:induction false} EndpointsFromHistory(eps: seq<Addr>, run: seq<TimedInput>, a: Addr)
    ensures a in After(NewMachine(eps), run).endpoints <==> StillKnown(eps, run, a)
    decreases |run|
  {
    if run == [] {
    } else {
      var n := |run| - 1;
      EndpointsFromHistory(eps, run[..n], a);
      StillKnownStep(eps, run, a);
      EndpointsStep(After(NewMachine(eps), run[..n]), run, a);
    }
  }

  lemma EndpointsStep(m: Machine, run: seq<TimedInput>, a: Addr)
    requires run != []
    ensures var n := |run| - 1;
            a in Step(m, run[n].input, run[n].env).m.endpoints <==>
            Brings(run, n, a) || (!Stores(run[n].input) && a in m.endpoints)
  {
    match run[|run| - 1].input {
      case Receive(Udp(_, CallMeMaybe(addrs))) => AbsorbUnion(m.endpoints, addrs);
      case Receive(Signal(CallMeMaybe(addrs))) => AbsorbUnion(m.endpoints, addrs);
      case _ =>
    }
  }

  lemma StillKnownStep(eps: seq<Addr>, run: seq<TimedInput>, a: Addr)
    requires run != []
    ensures var n := |run| - 1;
            StillKnown(eps, run, a) <==> Brings(run, n, a) || (!Stores(run[n].input) && StillKnown(eps, run[..n], a))
  {
    var n := |run| - 1;
    assert forall j | 0 <= j < n :: run[..n][j] == run[j];
    if Brings(run, n, a) { assert NoStoreFrom(run, n + 1); }
    if StillKnown(eps, run, a) && !Brings(run, n, a) {
      if a in eps && NoStoreFrom(run, 0) {
        assert !Stores(run[n].input) && NoStoreFrom(run[..n], 0);
      } else {
        var i :| 0 <= i < |run| && Brings(run, i, a) && NoStoreFrom(run, i + 1);
        assert i < n && !Stores(run[n].input);
        assert Brings(run[..n], i, a) && NoStoreFrom(run[..n], i + 1);
      }
    }
    if !Stores(run[n].input) && StillKnown(eps, run[..n], a) {
      if a in eps && NoStoreFrom(run[..n], 0) {
        assert NoStoreFrom(run, 0);
      } else {
        var i :| 0 <= i < n && Brings(run[..n], i, a) && NoStoreFrom(run[..n], i + 1);
        assert Brings(run, i, a) && NoStoreFrom(run, i + 1);
      }
    }
  }

  ghost predicate Pinged(sent: seq<Packet>, a: Addr) {
    exists p :: 0 <= p < |sent| && sent[p].to == a && sent[p].body.Ping?
  }

  // Over every run: a tick pings an address exactly if the machine is punching inside its window, and the
  // address was there at the start or brought by a snapshot or a call_me_maybe with no snapshot stored since.
  // So an accepted update forgets what call_me_maybe messages brought before it.
  lemma TickPingsIff(eps: seq<Addr>, run: seq<TimedInput>, i: nat, a: Addr)
    requires i < |run| && run[i].input == PunchTick
    ensures var m := Before(NewMachine(eps), run, i);
            Pinged(SentAt(NewMachine(eps), run, i), a) <==>
            m.state == Punching && run[i].env.at <= m.deadline && StillKnown(eps, run[..i], a)
  {
    EndpointsFromHistory(eps, run[..i], a);
    var m, sent := Before(NewMachine(eps), run, i), SentAt(NewMachine(eps), run, i);
    if m.state == Punching && run[i].env.at <= m.deadline && a in m.endpoints {
      var p :| 0 <= p < |m.endpoints| && m.endpoints[p] == a;
      assert sent[p].to == a && sent[p].body.Ping?;
    }
  }
}
