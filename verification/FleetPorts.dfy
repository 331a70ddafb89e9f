/**
  Whether the tunnels of a daemon keep their FOU ports: the machines of
  `internal/daemon/peer.go` create and tear down tunnels concurrently, each on the port
  of its peer's winning address, and `internal/tunnel/gre.go` closes a port only when the
  creation that opened it fails.
 */
module FleetPorts {
  import opened PeerRegistry
  import opened Daemon
  import opened Tunnel
  import opened TunnelRuns
  import opened TunnelRace
  import opened FleetOwnership

  // The configurations each machine may bring its tunnel up with: which one depends on the address of the pong
  // at hand, and after a failed creation a later pong may bring another.
  type Plan = nat -> iset<Config>

  ghost predicate Fits(pattern: Pattern, plan: Plan) {
    forall i: nat, c | c in plan(i) :: c.name == pattern.Name(i)
  }

  // Machine i can open a port that a link of machine j can lie on, and that is not open already.
  ghost predicate Shares(k0: Kernel, plan: Plan, i: nat, j: nat, c: Config, d: Config) {
    && i != j && c in plan(i) && d in plan(j) && Opens(c) && Links(k0, d)
    && c.dport == d.dport && d.dport !in k0.fous
  }

  ghost predicate PlanApart(k0: Kernel, plan: Plan) { forall i: nat, j: nat, c, d :: !Shares(k0, plan, i, j, c, d) }

  // Creations follow the plan, cleanup calls do not fail, and no other process interferes.
  ghost predicate Planned(w: FleetOwnership.World, x: FleetOwnership.Step, plan: Plan) {
    && FleetOwnership.Enabled(w, x) && !x.Foreign?
    && (x.BringUp? ==> x.cfg in plan(x.i))
    && (x.Netlink? && x.fails ==> !w.status[x.i].call.phase.Undoing? && !w.status[x.i].call.phase.Closing?)
  }

  ghost predicate PlannedRun(w: FleetOwnership.World, run: seq<FleetOwnership.Step>, plan: Plan)
    decreases |run|
  {
    run == [] || (Planned(w, run[0], plan) && PlannedRun(FleetOwnership.Apply(w, run[0]), run[1..], plan))
  }

  ghost function After(w: FleetOwnership.World, run: seq<FleetOwnership.Step>, plan: Plan): FleetOwnership.World
    requires PlannedRun(w, run, plan)
    decreases |run|
  {
    if run == [] then w else After(FleetOwnership.Apply(w, run[0]), run[1..], plan)
  }

  // --- The invariant ---

  // The call under way is one of the planned ones, and its port is open if its link can lie on it.
  ghost predicate CallOk(k0: Kernel, cs: iset<Config>, s: Status, k: Kernel) {
    s.call.Creating? ==>
      && s.call.cfg in cs && Checked(k0, s.call.cfg, s.call.phase)
      && (UsesPort(s.call.phase) && Links(k0, s.call.cfg) ==> s.call.cfg.dport in k.fous)
  }

  ghost predicate BuiltBy(k0: Kernel, cs: iset<Config>, l: Link) {
    exists d :: d in cs && Links(k0, d) && d.dport == l.dport
  }

  // A link of the machine's name that was not there before is its own, and has its port.
  ghost predicate LinkOk(k0: Kernel, name: string, cs: iset<Config>, s: Status, k: Kernel) {
    && (s.link.Some? ==> name !in k0.links)
    && (name in k.links && name !in k0.links ==>
          && (Has(s) || s.torn)
          && (Encapsulated(k.links[name]) ==> k.links[name].dport in k.fous && BuiltBy(k0, cs, k.links[name])))
  }

  ghost predicate Known(k0: Kernel, w: FleetOwnership.World, n: string) {
    n in k0.links || exists i :: 0 <= i < |w.fleet.machines| && w.fleet.machines[i].iface == n
  }

  ghost predicate StatusOk(k0: Kernel, plan: Plan, w: FleetOwnership.World, i: nat)
    requires i < |w.status| && i < |w.fleet.machines|
  {
    && CallOk(k0, plan(i), w.status[i], w.kernel)
    && LinkOk(k0, w.fleet.machines[i].iface, plan(i), w.status[i], w.kernel)
  }

  ghost predicate PortInv(k0: Kernel, plan: Plan, w: FleetOwnership.World) {
    && FleetOwnership.Inv(w) && Fits(w.fleet.pattern, plan) && Kept(k0, w.kernel)
    && (forall i | 0 <= i < |w.status| :: StatusOk(k0, plan, w, i))
    && (forall n | n in w.kernel.links :: Known(k0, w, n))
  }

  lemma PortInvBacked(k0: Kernel, plan: Plan, w: FleetOwnership.World)
    requires TunnelRuns.Backed(k0) && PortInv(k0, plan, w)
    ensures TunnelRuns.Backed(w.kernel)
  {
    forall n | n in w.kernel.links && Encapsulated(w.kernel.links[n]) ensures w.kernel.links[n].dport in w.kernel.fous {
      assert Known(k0, w, n);
      if n !in k0.links {
        var i :| 0 <= i < |w.fleet.machines| && w.fleet.machines[i].iface == n;
        assert StatusOk(k0, plan, w, i);
      }
    }
  }

  // --- Steps ---

  // Ports on which links of machines other than i can lie stay open.
  ghost predicate OthersKeepPorts(k0: Kernel, plan: Plan, i: nat, k: Kernel, l: Kernel) {
    forall j: nat, d | j != i && d in plan(j) && Links(k0, d) && d.dport in k.fous :: d.dport in l.fous
  }

  lemma OtherStatus(k0: Kernel, plan: Plan, w: FleetOwnership.World, v: FleetOwnership.World, i: nat, j: nat)
    requires PortInv(k0, plan, w) && v.fleet == w.fleet && i < |w.status| == |v.status|
    requires j < |w.status| && j != i && v.status[j] == w.status[j]
    requires SameLink(w.kernel, v.kernel, w.fleet.machines[j].iface) && OthersKeepPorts(k0, plan, i, w.kernel, v.kernel)
    ensures StatusOk(k0, plan, v, j)
  {
    assert StatusOk(k0, plan, w, j);
  }

  // A step of one machine that touches its own link only, and closes no port that another one needs.
  lemma OneMachineStep(k0: Kernel, plan: Plan, w: FleetOwnership.World, v: FleetOwnership.World, i: nat)
    requires PortInv(k0, plan, w) && FleetOwnership.Inv(v) && v.fleet == w.fleet && i < |w.status| == |v.status|
    requires forall j | 0 <= j < |w.status| && j != i :: v.status[j] == w.status[j]
    requires forall n | n != w.fleet.machines[i].iface :: SameLink(w.kernel, v.kernel, n)
    requires Kept(k0, v.kernel) && OthersKeepPorts(k0, plan, i, w.kernel, v.kernel) && StatusOk(k0, plan, v, i)
    ensures PortInv(k0, plan, v)
  {
    var name := w.fleet.machines[i].iface;
    forall j | 0 <= j < |v.status| ensures StatusOk(k0, plan, v, j) {
      if j != i {
        if w.fleet.machines[j].iface == name { NamesAreDistinct(w.fleet.pattern, i, j); }
        OtherStatus(k0, plan, w, v, i, j);
      }
    }
    forall n | n in v.kernel.links ensures Known(k0, v, n) {
      if n != name { assert SameLink(w.kernel, v.kernel, n) && Known(k0, w, n); }
    }
  }

  // One netlink call and the machine that makes it.
  lemma OwnNetlink(k0: Kernel, name: string, cs: iset<Config>, s: Status, k: Kernel, fails: bool)
    requires s.call.Creating? && !s.call.phase.Finished? && !s.torn && s.link == None && s.call.cfg.name == name
    requires CallOk(k0, cs, s, k) && LinkOk(k0, name, cs, s, k) && Kept(k0, k)
    requires fails ==> !s.call.phase.Undoing? && !s.call.phase.Closing?
    requires Has(s) ==> name in k.links
    ensures var (l, p) := Next(k, s.call.cfg, s.call.phase, fails);
            && Kept(k0, l) && CallOk(k0, cs, Progress(s, s.call.cfg, p), l)
            && LinkOk(k0, name, cs, Progress(s, s.call.cfg, p), l)
  {}

  lemma NetlinkKeeps(k0: Kernel, plan: Plan, w: FleetOwnership.World, x: FleetOwnership.Step)
    requires PlanApart(k0, plan) && PortInv(k0, plan, w) && Planned(w, x, plan) && x.Netlink?
    ensures PortInv(k0, plan, FleetOwnership.Apply(w, x))
  {
    var i, s, v := x.i, w.status[x.i], FleetOwnership.Apply(w, x);
    FleetOwnership.StepKeepsInv(w, x);
    assert MachineInv(w.fleet.machines[i].iface, s, w.kernel) && StatusOk(k0, plan, w, i);
    OwnNetlink(k0, w.fleet.machines[i].iface, plan(i), s, w.kernel, x.fails);
    NextOthersSame(w.kernel, s.call.cfg, s.call.phase, x.fails);
    OthersPorts(k0, plan, i, s.call.cfg, s.call.phase, w.kernel, x.fails);
    OneMachineStep(k0, plan, w, v, i);
  }

  // The port a call closes is one that it opened, so no other machine's link lies on it.
  lemma OthersPorts(k0: Kernel, plan: Plan, i: nat, c: Config, p: Phase, k: Kernel, fails: bool)
    requires PlanApart(k0, plan) && c in plan(i) && !p.Finished? && Checked(k0, c, p) && Kept(k0, k)
    ensures OthersKeepPorts(k0, plan, i, k, Next(k, c, p, fails).0)
  {
    forall j: nat, d | j != i && d in plan(j) && Links(k0, d) && d.dport in k.fous
      ensures d.dport in Next(k, c, p, fails).0.fous
    {
      assert !Shares(k0, plan, i, j, c, d);
    }
  }

  lemma TeardownKeeps(k0: Kernel, plan: Plan, w: FleetOwnership.World, x: FleetOwnership.Step)
    requires PortInv(k0, plan, w) && Planned(w, x, plan) && x.Teardown?
    ensures PortInv(k0, plan, FleetOwnership.Apply(w, x))
  {
    var i, v, name := x.i, FleetOwnership.Apply(w, x), w.fleet.machines[x.i].iface;
    FleetOwnership.StepKeepsInv(w, x);
    assert StatusOk(k0, plan, w, i) && MachineInv(name, w.status[i], w.kernel);
    OwnTeardown(k0, name, plan(i), w.status[i], w.kernel, x.f);
    OneMachineStep(k0, plan, w, v, i);
  }

  lemma OwnTeardown(k0: Kernel, name: string, cs: iset<Config>, s: Status, k: Kernel, f: Faults)
    requires LinkOk(k0, name, cs, s, k) && Kept(k0, k)
    ensures var l := Delete(k, name, false, f).0;
            s.link.Some? ==> LinkOk(k0, name, cs, s.(torn := true), l) && Kept(k0, l)
    ensures LinkOk(k0, name, cs, s.(torn := true), k)
  {}

  lemma BringUpKeeps(k0: Kernel, plan: Plan, w: FleetOwnership.World, x: FleetOwnership.Step)
    requires PortInv(k0, plan, w) && Planned(w, x, plan) && x.BringUp?
    ensures PortInv(k0, plan, FleetOwnership.Apply(w, x))
  {
    FleetOwnership.StepKeepsInv(w, x);
    assert StatusOk(k0, plan, w, x.i);
    OneMachineStep(k0, plan, w, FleetOwnership.Apply(w, x), x.i);
  }

  // A machine that is just started finds no link of its name, unless it was there before the daemon.
  lemma SyncKeeps(k0: Kernel, plan: Plan, w: FleetOwnership.World, x: FleetOwnership.Step)
    requires PortInv(k0, plan, w) && Planned(w, x, plan) && x.Sync?
    ensures PortInv(k0, plan, FleetOwnership.Apply(w, x))
  {
    var v := FleetOwnership.Apply(w, x);
    FleetOwnership.StepKeepsInv(w, x);
    ReconcileTracksRegistry(w.fleet, x.snapshot);
    forall i | 0 <= i < |v.status| ensures StatusOk(k0, plan, v, i) {
      var name := v.fleet.machines[i].iface;
      if i < |w.status| {
        assert StatusOk(k0, plan, w, i);
      } else if name in w.kernel.links && name !in k0.links {
        assert Known(k0, w, name);
        var j :| 0 <= j < |w.fleet.machines| && w.fleet.machines[j].iface == name;
        NamesAreDistinct(w.fleet.pattern, i, j);
      }
    }
    forall n | n in v.kernel.links ensures Known(k0, v, n) {
      assert Known(k0, w, n);
      if n !in k0.links {
        var i :| 0 <= i < |w.fleet.machines| && w.fleet.machines[i].iface == n;
        assert v.fleet.machines[i].iface == n;
      }
    }
  }

  lemma StepKeepsPorts(k0: Kernel, plan: Plan, w: FleetOwnership.World, x: FleetOwnership.Step)
    requires PlanApart(k0, plan) && PortInv(k0, plan, w) && Planned(w, x, plan)
    ensures PortInv(k0, plan, FleetOwnership.Apply(w, x))
  {
    match x {
      case Sync(_) => SyncKeeps(k0, plan, w, x);
      case BringUp(_, _) => BringUpKeeps(k0, plan, w, x);
      case Netlink(_, _) => NetlinkKeeps(k0, plan, w, x);
      case Teardown(_, _) => TeardownKeeps(k0, plan, w, x);
    }
  }

  lemma {:induction false} RunKeepsPorts(k0: Kernel, plan: Plan, w: FleetOwnership.World,
                                         run: seq<FleetOwnership.Step>)
    requires PlanApart(k0, plan) && PortInv(k0, plan, w) && PlannedRun(w, run, plan)
    ensures PortInv(k0, plan, After(w, run, plan))
    decreases |run|
  {
    if run == [] {
    } else {
      StepKeepsPorts(k0, plan, w, run[0]);
      RunKeepsPorts(k0, plan, FleetOwnership.Apply(w, run[0]), run[1..]);
    }
  }

  // --- A fleet of any size ---

  function Stranger(self: DiscoKey, i: nat): Peer {
    Peer([], seq(|self| + 1 + i, _ => 0), "", 0, [], 0)
  }

  function Strangers(self: DiscoKey, n: nat): (s: seq<Peer>)
    ensures |s| == n && forall i | 0 <= i < n :: s[i] == Stranger(self, i)
  {
    seq(n, i requires 0 <= i < n => Stranger(self, i))
  }

  lemma {:induction false} FleetGrows(self: DiscoKey, pattern: Pattern, n: nat)
    ensures |AdmitAll(NewFleet(self, pattern), Strangers(self, n)).machines| == n
  {
    var f, s := NewFleet(self, pattern), Strangers(self, n);
    if n == 0 {
    } else {
      FleetGrows(self, pattern, n - 1);
      assert s[..n - 1] == Strangers(self, n - 1);
      AdmitAllGrows(f, s[..n - 1]);
      NewStranger(f, self, n - 1);
    }
  }

  lemma NewStranger(f: Fleet, self: DiscoKey, n: nat)
    requires f.self == self
    ensures Stranger(self, n).discoKey !in Wanted(f, Strangers(self, n)) && Stranger(self, n).discoKey != self
  {
    var s, k := Strangers(self, n), Stranger(self, n).discoKey;
    forall i | 0 <= i < n ensures s[i].discoKey != k { assert |s[i].discoKey| == |self| + 1 + i; }
  }

  // --- Sharing a port that is not open, two machines can lose it ---

  function Machines(self: DiscoKey, pattern: Pattern, k: Kernel, n: nat): FleetOwnership.World {
    FleetOwnership.Apply(FleetOwnership.Init(self, pattern, k), Sync(Strangers(self, n)))
  }

  lemma FreshMachines(self: DiscoKey, pattern: Pattern, k: Kernel, n: nat)
    ensures var w := Machines(self, pattern, k, n);
            && |w.fleet.machines| == |w.status| == n && w.kernel == k && w.fleet.Valid() && w.fleet.pattern == pattern
            && forall i | 0 <= i < n :: w.status[i] == NewStatus
  {
    FleetGrows(self, pattern, n);
    ReconcileTracksRegistry(NewFleet(self, pattern), Strangers(self, n));
  }

  lemma Prepend(w: FleetOwnership.World, x: FleetOwnership.Step, rest: seq<FleetOwnership.Step>, plan: Plan)
      returns (run: seq<FleetOwnership.Step>)
    requires Planned(w, x, plan) && PlannedRun(FleetOwnership.Apply(w, x), rest, plan)
    ensures PlannedRun(w, run, plan) && After(w, run, plan) == After(FleetOwnership.Apply(w, x), rest, plan)
  {
    run := [x] + rest;
    assert run[1..] == rest;
  }

  // Machine i has a call at phase p.
  function At(w: FleetOwnership.World, i: nat, cfg: Config, p: Phase): FleetOwnership.World
    requires i < |w.status|
  {
    w.(status := w.status[i := w.status[i].(call := Creating(cfg, p))])
  }

  // A machine that has not called yet gets as far as having its port.
  lemma GetPort(w: FleetOwnership.World, i: nat, cfg: Config, plan: Plan, rest: seq<FleetOwnership.Step>)
      returns (run: seq<FleetOwnership.Step>)
    requires i < |w.status| == |w.fleet.machines| && w.status[i] == NewStatus
    requires cfg in plan(i) && cfg.name == w.fleet.machines[i].iface && Opens(cfg)
    requires PlannedRun(HavingPort(w, i, cfg), rest, plan)
    ensures PlannedRun(w, run, plan) && After(w, run, plan) == After(HavingPort(w, i, cfg), rest, plan)
  {
    var w1, w2 := At(w, i, cfg, Start), At(w, i, cfg, Looked);
    assert FleetOwnership.Apply(w, BringUp(i, cfg)) == w1;
    assert FleetOwnership.Apply(w1, Netlink(i, true)) == w2;
    assert FleetOwnership.Apply(w2, Netlink(i, false)) == HavingPort(w, i, cfg);
    run := Prepend(w2, Netlink(i, false), rest, plan);
    run := Prepend(w1, Netlink(i, true), run, plan);
    run := Prepend(w, BringUp(i, cfg), run, plan);
  }

  function HavingPort(w: FleetOwnership.World, i: nat, cfg: Config): FleetOwnership.World
    requires i < |w.status|
  {
    var made := cfg.dport !in w.kernel.fous;
    At(w, i, cfg, PortReady(made)).(
      kernel := if made then w.kernel.(fous := w.kernel.fous[cfg.dport := FouPort(cfg)]) else w.kernel)
  }

  // Machine j adds its link, then machine i fails and closes the port.
  lemma CloseUnder(w: FleetOwnership.World, i: nat, j: nat, c: Config, d: Config, plan: Plan)
      returns (run: seq<FleetOwnership.Step>)
    requires i < |w.status| == |w.fleet.machines| && j < |w.status| && i != j
    requires w.status[i].call == Creating(c, PortReady(true)) && w.status[j].call == Creating(d, PortReady(false))
    requires !w.status[i].torn && !w.status[j].torn && Opens(d) && d.name !in w.kernel.links && c.dport == d.dport
    ensures PlannedRun(w, run, plan) && !TunnelRuns.Backed(After(w, run, plan).kernel)
  {
    var w1 := FleetOwnership.Apply(w, Netlink(j, false));
    var w2 := FleetOwnership.Apply(w1, Netlink(i, true));
    var w3 := FleetOwnership.Apply(w2, Netlink(i, false));
    assert w3.kernel.links[d.name] == GreLink(d) && d.dport !in w3.kernel.fous;
    run := Prepend(w2, Netlink(i, false), [], plan);
    run := Prepend(w1, Netlink(i, true), run, plan);
    run := Prepend(w, Netlink(j, false), run, plan);
  }

  lemma SharedPlanIsUnsafe(self: DiscoKey, pattern: Pattern, k: Kernel, plan: Plan,
                           i: nat, j: nat, c: Config, d: Config) returns (run: seq<FleetOwnership.Step>)
    requires Fits(pattern, plan) && Shares(k, plan, i, j, c, d)
    ensures var w0 := FleetOwnership.Init(self, pattern, k);
            PlannedRun(w0, run, plan) && !TunnelRuns.Backed(After(w0, run, plan).kernel)
  {
    var n := i + j + 1;
    var w0, w1 := FleetOwnership.Init(self, pattern, k), Machines(self, pattern, k, n);
    FreshMachines(self, pattern, k, n);
    var w2 := HavingPort(w1, i, c);
    var w3 := HavingPort(w2, j, d);
    run := CloseUnder(w3, i, j, c, d, plan);
    run := GetPort(w2, j, d, plan, run);
    run := GetPort(w1, i, c, plan, run);
    run := Prepend(w0, Sync(Strangers(self, n)), run, plan);
  }

  // --- Main result ---

  // Whatever peers come and go, whatever addresses their pongs come from and however the netlink calls of
  // creations and teardowns interleave, if cleanup calls work: every encapsulated link keeps its port in every run
  // if and only if no machine can open a port that a link of another machine can lie on, unless it was open
  // before the daemon.
  lemma FleetKeepsPortsIff(self: DiscoKey, pattern: Pattern, k: Kernel, plan: Plan)
    requires TunnelRuns.Backed(k) && Fits(pattern, plan)
    ensures PlanApart(k, plan) <==>
            forall run | PlannedRun(FleetOwnership.Init(self, pattern, k), run, plan) ::
              TunnelRuns.Backed(After(FleetOwnership.Init(self, pattern, k), run, plan).kernel)
  {
    var w0 := FleetOwnership.Init(self, pattern, k);
    if PlanApart(k, plan) {
      forall run | PlannedRun(w0, run, plan) ensures TunnelRuns.Backed(After(w0, run, plan).kernel) {
        RunKeepsPorts(k, plan, w0, run);
        PortInvBacked(k, plan, After(w0, run, plan));
      }
    } else {
      var i: nat, j: nat, c, d :| Shares(k, plan, i, j, c, d);
      var run := SharedPlanIsUnsafe(self, pattern, k, plan, i, j, c, d);
    }
  }
}
