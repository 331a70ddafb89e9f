/**
  That tearing down works: when a machine of `internal/daemon/peer.go` leaves its loop, the link it
  created is gone from the kernel, unless netlink itself fails.
 */
module FleetTeardown {
  import opened PeerRegistry
  import opened Daemon
  import opened Tunnel
  import opened TunnelRuns
  import opened FleetOwnership
  import TunnelRace
  import opened TunnelResults

  // A creation past its first call has a valid configuration, and a tunnel that is up is a GRE link with a
  // valid name: Delete will accept it.
  predicate Deletable(name: string, s: Status) {
    && (s.call.Creating? && !s.call.phase.Start? ==> ValidConfig(s.call.cfg) && s.call.cfg.name == name)
    && (s.link.Some? ==> ValidName(name) && s.link.value.kind == "gre")
  }

  ghost predicate AllDeletable(w: World) {
    && |w.status| == |w.fleet.machines|
    && forall i | 0 <= i < |w.status| :: Deletable(w.fleet.machines[i].iface, w.status[i])
  }

  lemma NetlinkKeepsDeletable(w: World, x: FleetOwnership.Step)
    requires FleetOwnership.Inv(w) && AllDeletable(w) && x.Netlink? && FleetOwnership.Enabled(w, x)
    ensures AllDeletable(FleetOwnership.Apply(w, x))
  {
    var name, s := w.fleet.machines[x.i].iface, w.status[x.i];
    assert Deletable(name, s) && MachineInv(name, s, w.kernel);
    assert Deletable(name, FleetOwnership.Apply(w, x).status[x.i]);
  }

  lemma StepKeepsDeletable(w: World, x: FleetOwnership.Step)
    requires FleetOwnership.Inv(w) && AllDeletable(w) && FleetOwnership.Enabled(w, x)
    ensures AllDeletable(FleetOwnership.Apply(w, x))
  {
    match x {
      case Sync(snapshot) => ReconcileTracksRegistry(w.fleet, snapshot);
      case Netlink(_, _) => NetlinkKeepsDeletable(w, x);
      case BringUp(i, _) => assert Deletable(w.fleet.machines[i].iface, w.status[i]);
      case Teardown(i, _) => assert Deletable(w.fleet.machines[i].iface, w.status[i]);
      case Foreign(_) =>
    }
  }

  // A machine whose creation succeeds notes the link, which is as configured and in the kernel; one whose
  // creation fails notes none.
  lemma SuccessIsNoted(w: World, x: FleetOwnership.Step)
    requires FleetOwnership.Inv(w) && x.Netlink? && FleetOwnership.Enabled(w, x)
    ensures var s := w.status[x.i];
            var done := TunnelRace.Next(w.kernel, s.call.cfg, s.call.phase, x.fails).1;
            var v := FleetOwnership.Apply(w, x);
            var name, t := w.fleet.machines[x.i].iface, v.status[x.i];
            && (t.link.Some? <==> done == TunnelRace.Finished(Ok))
            && (t.link.Some? ==>
                  && t.call == Idle && BuiltFrom(t.link.value, s.call.cfg)
                  && name in v.kernel.links && v.kernel.links[name] == t.link.value)
  {
    assert MachineInv(w.fleet.machines[x.i].iface, w.status[x.i], w.kernel);
  }

  lemma {:induction false} RunKeepsDeletable(w: World, run: seq<FleetOwnership.Step>)
    requires FleetOwnership.Inv(w) && AllDeletable(w) && FleetOwnership.IsRun(w, run)
    ensures AllDeletable(FleetOwnership.Exec(w, run))
    decreases |run|
  {
    if run == [] {
    } else {
      FleetOwnership.StepKeepsInv(w, run[0]);
      StepKeepsDeletable(w, run[0]);
      RunKeepsDeletable(FleetOwnership.Apply(w, run[0]), run[1..]);
    }
  }

  // In every run, a teardown leaves the machine's link in the kernel if and only if the machine had none of its
  // own, and there is one by that name, or netlink fails to look it up or to delete it.
  lemma TeardownRemovesIff(self: DiscoKey, pattern: Pattern, k0: Kernel, run: seq<FleetOwnership.Step>, i: nat,
                           f: Faults)
    requires FleetOwnership.IsRun(FleetOwnership.Init(self, pattern, k0), run)
    requires FleetOwnership.Enabled(FleetOwnership.Exec(FleetOwnership.Init(self, pattern, k0), run), Teardown(i, f))
    ensures var w := FleetOwnership.Exec(FleetOwnership.Init(self, pattern, k0), run);
            var name := w.fleet.machines[i].iface;
            name in FleetOwnership.Apply(w, Teardown(i, f)).kernel.links <==>
            name in w.kernel.links && (w.status[i].link == None || f.lookup || f.linkDel)
  {
    var w0 := FleetOwnership.Init(self, pattern, k0);
    FleetOwnership.RunKeepsInv(w0, run);
    RunKeepsDeletable(w0, run);
    var w := FleetOwnership.Exec(w0, run);
    var name := w.fleet.machines[i].iface;
    assert Deletable(name, w.status[i]) && MachineInv(name, w.status[i], w.kernel);
  }
}
