/**
  Who owns which interface: reconciliation (`internal/daemon/daemon.go`), bringing
  tunnels up and tearing them down (`internal/daemon/peer.go`) over the kernel of
  `internal/tunnel/gre.go`, one netlink call at a time, with other processes about.
 */
module FleetOwnership {
  import opened PeerRegistry
  import opened Daemon
  import opened Tunnel
  import opened TunnelRuns
  import TunnelRace

  datatype Option = None | Some(value: Link)

  // A call of Create under way.
  datatype Call = Idle | Creating(cfg: Config, phase: TunnelRace.Phase)

  // What became of a machine's tunnel.
  datatype Status = Status(
    call: Call,
    link: Option,        // tunnelUp, with the link its Create built
    creates: nat,        // successful calls of Create
    torn: bool)          // teardown has run

  const NewStatus := Status(Idle, None, 0, false)

  datatype World = World(fleet: Fleet, status: seq<Status>, kernel: Kernel)

  function Init(self: DiscoKey, pattern: Pattern, k: Kernel): World { World(NewFleet(self, pattern), [], k) }

  datatype Step =
    | Sync(snapshot: seq<Peer>)
    | BringUp(i: nat, cfg: Config)         // machine i heard a pong; a stopped machine may still get here
    | Netlink(i: nat, fails: bool)         // the next netlink call of its Create
    | Teardown(i: nat, f: Faults)          // machine i left its loop
    | Foreign(next: Kernel)                // another process changes links or ports

  // The machine has a link in the kernel that it added.
  predicate Has(s: Status) {
    (s.link.Some? && !s.torn) || (s.call.Creating? && TunnelRace.MustHaveLink(s.call.phase))
  }

  predicate SameLink(k: Kernel, l: Kernel, n: string) {
    (n in k.links <==> n in l.links) && (n in k.links ==> k.links[n] == l.links[n])
  }

  // A step of machine i: no step of a machine outlives its teardown.
  predicate Live(w: World, i: nat) { i < |w.fleet.machines| == |w.status| && !w.status[i].torn }

  predicate Enabled(w: World, x: Step) {
    match x
    case Sync(_) => true
    case BringUp(i, cfg) => Live(w, i) && w.status[i].call.Idle? && cfg.name == w.fleet.machines[i].iface
    case Netlink(i, _) => Live(w, i) && w.status[i].call.Creating? && !w.status[i].call.phase.Finished?
    case Teardown(i, _) => Live(w, i) && w.status[i].call.Idle? && w.fleet.machines[i].stopped
    case Foreign(next) =>
      && |w.fleet.machines| == |w.status|
      && forall i | 0 <= i < |w.status| && Has(w.status[i]) :: SameLink(w.kernel, next, w.fleet.machines[i].iface)
  }

  // What the machine notes when its Create has made one more call.
  function Progress(s: Status, cfg: Config, p: TunnelRace.Phase): Status {
    if !p.Finished? then s.(call := Creating(cfg, p))
    else if p.r == Ok then Status(Idle, Some(UpLink(cfg)), s.creates + 1, s.torn)
    else s.(call := Idle)
  }

  function Apply(w: World, x: Step): World
    requires Enabled(w, x)
  {
    match x
    case Sync(snapshot) =>
      var f := Reconcile(w.fleet, snapshot);
      w.(fleet := f,
         status := seq(|f.machines|, i requires 0 <= i => if i < |w.status| then w.status[i] else NewStatus))
    case BringUp(i, cfg) =>
      if w.status[i].link.Some? then w
      else w.(status := w.status[i := w.status[i].(call := Creating(cfg, TunnelRace.Start))])
    case Netlink(i, fails) =>
      var s := w.status[i];
      var (k, p) := TunnelRace.Next(w.kernel, s.call.cfg, s.call.phase, fails);
      w.(kernel := k, status := w.status[i := Progress(s, s.call.cfg, p)])
    case Teardown(i, f) =>
      var v := w.(status := w.status[i := w.status[i].(torn := true)]);
      if w.status[i].link == None then v
      else v.(kernel := Delete(w.kernel, w.fleet.machines[i].iface, false, f).0)
    case Foreign(next) => w.(kernel := next)
  }

  predicate IsRun(w: World, run: seq<Step>)
    decreases |run|
  {
    run == [] || (Enabled(w, run[0]) && IsRun(Apply(w, run[0]), run[1..]))
  }

  function Exec(w: World, run: seq<Step>): World
    requires IsRun(w, run)
    decreases |run|
  {
    if run == [] then w else Exec(Apply(w, run[0]), run[1..])
  }

  // --- The invariant ---

  ghost predicate MachineInv(name: string, s: Status, k: Kernel) {
    && s.creates == (if s.link.Some? then 1 else 0)
    && (s.call.Creating? ==> s.link == None && !s.torn && s.call.cfg.name == name && !s.call.phase.Finished?)
    && (Has(s) ==> name in k.links)
    && (s.link.Some? && !s.torn ==> k.links[name] == s.link.value)
  }

  ghost predicate Inv(w: World) {
    && w.fleet.Valid() && |w.status| == |w.fleet.machines|
    && forall i | 0 <= i < |w.status| :: MachineInv(w.fleet.machines[i].iface, w.status[i], w.kernel)
  }

  // A step that changes at most the link of machine i, and leaves that machine in order, keeps the invariant.
  lemma OneMachine(w: World, v: World, i: nat)
    requires Inv(w) && i < |w.status| == |v.status| && v.fleet == w.fleet
    requires forall j | 0 <= j < |w.status| && j != i :: v.status[j] == w.status[j]
    requires forall n | n != w.fleet.machines[i].iface :: SameLink(w.kernel, v.kernel, n)
    requires MachineInv(w.fleet.machines[i].iface, v.status[i], v.kernel)
    ensures Inv(v)
  {
    forall j | 0 <= j < |v.status| ensures MachineInv(v.fleet.machines[j].iface, v.status[j], v.kernel) {
      assert MachineInv(w.fleet.machines[j].iface, w.status[j], w.kernel);
      if j != i {
        var n := w.fleet.machines[j].iface;
        if n == w.fleet.machines[i].iface { NamesAreDistinct(w.fleet.pattern, i, j); }
        assert SameLink(w.kernel, v.kernel, n);
      }
    }
  }

  // A netlink call of Create changes at most the link of that name, and one that is there only if the call added it.
  lemma NextOthersSame(k: Kernel, cfg: Config, p: TunnelRace.Phase, fails: bool)
    requires !p.Finished?
    ensures var (l, q) := TunnelRace.Next(k, cfg, p, fails);
            && (forall n | n != cfg.name :: SameLink(k, l, n))
            && (cfg.name in k.links && !TunnelRace.MustHaveLink(p) ==> SameLink(k, l, cfg.name))
            && (TunnelRace.MustHaveLink(q) && (TunnelRace.MustHaveLink(p) ==> cfg.name in k.links) ==>
                  cfg.name in l.links)
            && (q == TunnelRace.Finished(Ok) ==> cfg.name in l.links && l.links[cfg.name] == UpLink(cfg))
  {}

  lemma NetlinkKeepsInv(w: World, x: Step)
    requires Inv(w) && x.Netlink? && Enabled(w, x)
    ensures Inv(Apply(w, x)) && MachineStep(w, Apply(w, x), x.i)
  {
    var s := w.status[x.i];
    assert MachineInv(w.fleet.machines[x.i].iface, s, w.kernel);
    NextOthersSame(w.kernel, s.call.cfg, s.call.phase, x.fails);
    OneMachine(w, Apply(w, x), x.i);
  }

  lemma TeardownKeepsInv(w: World, x: Step)
    requires Inv(w) && x.Teardown? && Enabled(w, x)
    ensures Inv(Apply(w, x)) && MachineStep(w, Apply(w, x), x.i)
  {
    assert MachineInv(w.fleet.machines[x.i].iface, w.status[x.i], w.kernel);
    OneMachine(w, Apply(w, x), x.i);
  }

  lemma BringUpKeepsInv(w: World, x: Step)
    requires Inv(w) && x.BringUp? && Enabled(w, x)
    ensures Inv(Apply(w, x)) && MachineStep(w, Apply(w, x), x.i)
  {
    assert MachineInv(w.fleet.machines[x.i].iface, w.status[x.i], w.kernel);
    OneMachine(w, Apply(w, x), x.i);
  }

  lemma SyncKeepsInv(w: World, x: Step)
    requires Inv(w) && x.Sync?
    ensures Inv(Apply(w, x))
  {
    ReconcileTracksRegistry(w.fleet, x.snapshot);
    forall i | 0 <= i < |w.status| ensures MachineInv(w.fleet.machines[i].iface, w.status[i], w.kernel) {}
  }

  lemma ForeignKeepsInv(w: World, x: Step)
    requires Inv(w) && x.Foreign? && Enabled(w, x)
    ensures Inv(Apply(w, x))
  {
    forall i | 0 <= i < |w.status| ensures MachineInv(w.fleet.machines[i].iface, w.status[i], x.next) {
      assert MachineInv(w.fleet.machines[i].iface, w.status[i], w.kernel);
    }
  }

  // What a step of machine i may do to the links.
  ghost predicate MachineStep(w: World, v: World, i: nat)
    requires i < |w.fleet.machines| && i < |w.status|
  {
    var name := w.fleet.machines[i].iface;
    && (forall n | n != name :: SameLink(w.kernel, v.kernel, n))
    && (name in w.kernel.links && !Has(w.status[i]) ==> SameLink(w.kernel, v.kernel, name))
  }

  predicate ByMachine(x: Step) { x.BringUp? || x.Netlink? || x.Teardown? }

  lemma StepKeepsInv(w: World, x: Step)
    requires Inv(w) && Enabled(w, x)
    ensures Inv(Apply(w, x))
    ensures ByMachine(x) ==> MachineStep(w, Apply(w, x), x.i)
  {
    match x {
      case Sync(_) => SyncKeepsInv(w, x);
      case BringUp(_, _) => BringUpKeepsInv(w, x);
      case Netlink(_, _) => NetlinkKeepsInv(w, x);
      case Teardown(_, _) => TeardownKeepsInv(w, x);
      case Foreign(_) => ForeignKeepsInv(w, x);
    }
  }

  lemma {:induction false} RunKeepsInv(w: World, run: seq<Step>)
    requires Inv(w) && IsRun(w, run)
    ensures Inv(Exec(w, run))
    decreases |run|
  {
    if run == [] {
    } else {
      StepKeepsInv(w, run[0]);
      RunKeepsInv(Apply(w, run[0]), run[1..]);
    }
  }

  // --- Main result ---

  // In every run, from any kernel and with other processes changing whatever no machine has added: each
  // machine creates at most one tunnel; a step of machine i changes no link but the one of its name, and that
  // only if the machine added it itself; and when it tears down a tunnel, what it deletes is the very link it
  // created, still in place.
  lemma MachinesOwnTheirLinks(self: DiscoKey, pattern: Pattern, k0: Kernel, run: seq<Step>, x: Step)
    requires IsRun(Init(self, pattern, k0), run) && Enabled(Exec(Init(self, pattern, k0), run), x)
    ensures var w := Exec(Init(self, pattern, k0), run);
            && |w.status| == |w.fleet.machines|
            && (forall i | 0 <= i < |w.status| :: w.status[i].creates <= 1)
            && (ByMachine(x) ==> MachineStep(w, Apply(w, x), x.i))
            && (x.Teardown? && w.status[x.i].link.Some? ==>
                  var n := w.fleet.machines[x.i].iface;
                  n in w.kernel.links && w.kernel.links[n] == w.status[x.i].link.value)
  {
    RunKeepsInv(Init(self, pattern, k0), run);
    var w := Exec(Init(self, pattern, k0), run);
    StepKeepsInv(w, x);
    if x.Teardown? { assert MachineInv(w.fleet.machines[x.i].iface, w.status[x.i], w.kernel); }
  }
}
