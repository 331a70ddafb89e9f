/**
  Any number of tunnel creations of `internal/tunnel/gre.go` running at once, as the per-peer
  goroutines of the daemon do: every netlink call is a step, interleaved in any order, and
  any of them may fail.
 */
module TunnelRace {
  import opened Tunnel
  import opened TunnelRuns

  // Where a call to Create stands; `made` says whether it opened the port.
  datatype Phase =
    | Start                        // before LinkByName
    | Looked                       // before FouAdd
    | PortReady(made: bool)        // before LinkAdd
    | LinkAdded(made: bool)        // before LinkSetMTU
    | Sized(made: bool)            // before LinkSetUp
    | Undoing(made: bool)          // a later call failed, before LinkDel
    | Closing                      // before FouDel
    | Finished(r: Result)

  // owner: which call added a link
  datatype World = World(k: Kernel, phase: seq<Phase>, owner: map<string, nat>)

  // Call i makes its next netlink call, which fails or not.
  datatype Step = Step(i: nat, fails: bool)

  // sound: the cleanup calls LinkDel and FouDel do not fail.
  predicate Enabled(cfgs: seq<Config>, w: World, s: Step, sound: bool) {
    && s.i < |cfgs| == |w.phase| && !w.phase[s.i].Finished?
    && (sound && s.fails ==> !w.phase[s.i].Undoing? && !w.phase[s.i].Closing?)
  }

  function AfterUndo(made: bool): Phase { if made then Closing else Finished(NetlinkError) }

  // The next netlink call of one creation.
  function Next(k: Kernel, cfg: Config, p: Phase, fails: bool): (Kernel, Phase)
    requires !p.Finished?
  {
    match p
    case Start =>
      if !ValidConfig(cfg) then (k, Finished(Invalid))
      else if cfg.name in k.links && !fails then (k, Finished(AlreadyExists))
      else (k, if cfg.encap == EncapNone then PortReady(false) else Looked)
    case Looked =>
      if fails then (k, Finished(NetlinkError))
      else if cfg.dport in k.fous then (k, PortReady(false))
      else (k.(fous := k.fous[cfg.dport := FouPort(cfg)]), PortReady(true))
    case PortReady(made) =>
      if fails || cfg.name in k.links then (k, AfterUndo(made))
      else (k.(links := k.links[cfg.name := GreLink(cfg)]),
            if MtuOrDefault(cfg) > 0 then LinkAdded(made) else Sized(made))
    case LinkAdded(made) =>
      if fails then (k, Undoing(made))
      else (k.(links := k.links[cfg.name := GreLink(cfg).(mtu := MtuOrDefault(cfg))]), Sized(made))
    case Sized(made) =>
      if fails then (k, Undoing(made))
      else (k.(links := k.links[cfg.name := UpLink(cfg)]), Finished(Ok))
    case Undoing(made) => (if fails then k else k.(links := k.links - {cfg.name}), AfterUndo(made))
    case Closing => (if fails then k else k.(fous := k.fous - {cfg.dport}), Finished(NetlinkError))
  }

  function Apply(cfgs: seq<Config>, w: World, s: Step, sound: bool): World
    requires Enabled(cfgs, w, s, sound)
  {
    var cfg, p := cfgs[s.i], w.phase[s.i];
    var (k, q) := Next(w.k, cfg, p, s.fails);
    World(k, w.phase[s.i := q], if p.PortReady? && MustHaveLink(q) then w.owner[cfg.name := s.i] else w.owner)
  }

  predicate IsRun(cfgs: seq<Config>, w: World, run: seq<Step>, sound: bool)
    decreases |run|
  {
    run == [] || (Enabled(cfgs, w, run[0], sound) && IsRun(cfgs, Apply(cfgs, w, run[0], sound), run[1..], sound))
  }

  function Exec(cfgs: seq<Config>, w: World, run: seq<Step>, sound: bool): World
    requires IsRun(cfgs, w, run, sound)
    decreases |run|
  {
    if run == [] then w else Exec(cfgs, Apply(cfgs, w, run[0], sound), run[1..], sound)
  }

  function Begin(k: Kernel, n: nat): World { World(k, seq(n, _ => Start), map[]) }

  // --- The conditions ---

  // A call that can open a port: lookups may fail, so its name does not matter.
  predicate Opens(cfg: Config) { ValidConfig(cfg) && cfg.encap != EncapNone }

  // A call that can add an encapsulated link.
  predicate Links(k: Kernel, cfg: Config) { Opens(cfg) && cfg.name !in k.links }

  // No call that can open a port shares it with another that can add a link, unless it is open already.
  ghost predicate PortsApart(k: Kernel, cfgs: seq<Config>) {
    forall i, j | 0 <= i < |cfgs| && 0 <= j < |cfgs| && i != j && Opens(cfgs[i]) && Links(k, cfgs[j]) ::
      cfgs[i].dport != cfgs[j].dport || cfgs[j].dport in k.fous
  }

  // Every link that can be added has its port open already.
  ghost predicate PortsOpen(k: Kernel, cfgs: seq<Config>) {
    forall j | 0 <= j < |cfgs| && Links(k, cfgs[j]) :: cfgs[j].dport in k.fous
  }

  predicate Owns(p: Phase) {
    p.Closing? || ((p.PortReady? || p.LinkAdded? || p.Sized? || p.Undoing?) && p.made)
  }

  predicate UsesPort(p: Phase) { p.PortReady? || p.LinkAdded? || p.Sized? || p.Undoing? || p.Closing? }

  predicate MayHaveLink(p: Phase) { p.LinkAdded? || p.Sized? || p.Undoing? || p == Finished(Ok) }

  predicate MustHaveLink(p: Phase) { p.LinkAdded? || p.Sized? || p.Undoing? }

  // What was there before is untouched.
  ghost predicate Kept(k0: Kernel, k: Kernel) {
    && (forall p | p in k0.fous :: p in k.fous)
    && (forall n | n in k0.links :: n in k.links && k.links[n] == k0.links[n])
  }

  ghost predicate Checked(k0: Kernel, cfg: Config, p: Phase) {
    && (!p.Start? && !p.Finished? ==> ValidConfig(cfg))
    && (p.Looked? || Owns(p) ==> cfg.encap != EncapNone)
    && (Owns(p) ==> cfg.dport !in k0.fous)
    && (MustHaveLink(p) ==> cfg.name !in k0.links)
  }

  // --- Apart and with working cleanup, any number of concurrent calls is safe ---

  ghost predicate CallInv(k0: Kernel, cfgs: seq<Config>, w: World, i: nat)
    requires i < |cfgs| == |w.phase|
  {
    var cfg, p := cfgs[i], w.phase[i];
    && Checked(k0, cfg, p)
    && (MustHaveLink(p) ==> cfg.name in w.k.links && cfg.name in w.owner && w.owner[cfg.name] == i)
    && (UsesPort(p) && Links(k0, cfg) ==> cfg.dport in w.k.fous)
  }

  ghost predicate LinkInv(k0: Kernel, cfgs: seq<Config>, w: World, n: string)
    requires |cfgs| == |w.phase| && n in w.k.links
  {
    n in k0.links ||
    (&& n in w.owner && w.owner[n] < |cfgs|
     && var i := w.owner[n];
        && cfgs[i].name == n && ValidConfig(cfgs[i]) && MayHaveLink(w.phase[i])
        && w.k.links[n].encap == cfgs[i].encap
        && (Encapsulated(w.k.links[n]) ==> w.k.links[n].dport == cfgs[i].dport && cfgs[i].dport in w.k.fous))
  }

  ghost predicate Inv(k0: Kernel, cfgs: seq<Config>, w: World) {
    && |w.phase| == |cfgs| && Kept(k0, w.k)
    && (forall i | 0 <= i < |cfgs| :: CallInv(k0, cfgs, w, i))
    && (forall n | n in w.k.links :: LinkInv(k0, cfgs, w, n))
  }

  lemma InvBacked(k0: Kernel, cfgs: seq<Config>, w: World)
    requires Backed(k0) && Inv(k0, cfgs, w)
    ensures Backed(w.k)
  {
    forall n | n in w.k.links && Encapsulated(w.k.links[n]) ensures w.k.links[n].dport in w.k.fous {
      assert LinkInv(k0, cfgs, w, n);
    }
  }

  lemma StepKeepsKept(k0: Kernel, cfgs: seq<Config>, w: World, s: Step)
    requires Inv(k0, cfgs, w) && Enabled(cfgs, w, s, true)
    ensures Kept(k0, Apply(cfgs, w, s, true).k)
  {
    assert CallInv(k0, cfgs, w, s.i);
  }

  lemma OwnCall(k0: Kernel, cfgs: seq<Config>, w: World, s: Step)
    requires Inv(k0, cfgs, w) && Enabled(cfgs, w, s, true)
    ensures CallInv(k0, cfgs, Apply(cfgs, w, s, true), s.i)
  {
    assert CallInv(k0, cfgs, w, s.i);
  }

  // Closing its own port, a call takes it from nobody else.
  lemma OtherCall(k0: Kernel, cfgs: seq<Config>, w: World, s: Step, i: nat)
    requires PortsApart(k0, cfgs) && Inv(k0, cfgs, w) && Enabled(cfgs, w, s, true) && i < |cfgs| && i != s.i
    ensures CallInv(k0, cfgs, Apply(cfgs, w, s, true), i)
  {
    assert CallInv(k0, cfgs, w, s.i) && CallInv(k0, cfgs, w, i);
    assert Apply(cfgs, w, s, true).phase[i] == w.phase[i];
  }

  lemma NewLink(k0: Kernel, cfgs: seq<Config>, w: World, s: Step, n: string)
    requires Inv(k0, cfgs, w) && Enabled(cfgs, w, s, true)
    requires n in Apply(cfgs, w, s, true).k.links && n !in w.k.links
    ensures LinkInv(k0, cfgs, Apply(cfgs, w, s, true), n)
  {
    assert CallInv(k0, cfgs, w, s.i);
    assert w.phase[s.i].PortReady? && n == cfgs[s.i].name;
  }

  lemma ClosedPort(k0: Kernel, cfgs: seq<Config>, w: World, s: Step, n: string)
    requires PortsApart(k0, cfgs) && Inv(k0, cfgs, w) && Enabled(cfgs, w, s, true)
    requires n in w.k.links && w.phase[s.i].Closing?
    ensures LinkInv(k0, cfgs, Apply(cfgs, w, s, true), n)
  {
    assert CallInv(k0, cfgs, w, s.i) && LinkInv(k0, cfgs, w, n);
  }

  lemma OldLink(k0: Kernel, cfgs: seq<Config>, w: World, s: Step, n: string)
    requires Inv(k0, cfgs, w) && Enabled(cfgs, w, s, true) && !w.phase[s.i].Closing?
    requires n in w.k.links && n in Apply(cfgs, w, s, true).k.links
    ensures LinkInv(k0, cfgs, Apply(cfgs, w, s, true), n)
  {
    assert CallInv(k0, cfgs, w, s.i) && LinkInv(k0, cfgs, w, n);
  }

  lemma StepKeepsInv(k0: Kernel, cfgs: seq<Config>, w: World, s: Step)
    requires PortsApart(k0, cfgs) && Inv(k0, cfgs, w) && Enabled(cfgs, w, s, true)
    ensures Inv(k0, cfgs, Apply(cfgs, w, s, true))
  {
    var v := Apply(cfgs, w, s, true);
    StepKeepsKept(k0, cfgs, w, s);
    forall i | 0 <= i < |cfgs| ensures CallInv(k0, cfgs, v, i) {
      if i == s.i { OwnCall(k0, cfgs, w, s); } else { OtherCall(k0, cfgs, w, s, i); }
    }
    forall n | n in v.k.links ensures LinkInv(k0, cfgs, v, n) {
      if n !in w.k.links {
        NewLink(k0, cfgs, w, s, n);
      } else if w.phase[s.i].Closing? {
        ClosedPort(k0, cfgs, w, s, n);
      } else {
        OldLink(k0, cfgs, w, s, n);
      }
    }
  }

  lemma {:induction false} RunKeepsInv(k0: Kernel, cfgs: seq<Config>, w: World, run: seq<Step>)
    requires PortsApart(k0, cfgs) && Inv(k0, cfgs, w) && IsRun(cfgs, w, run, true)
    ensures Inv(k0, cfgs, Exec(cfgs, w, run, true))
    decreases |run|
  {
    if run == [] {
    } else {
      StepKeepsInv(k0, cfgs, w, run[0]);
      RunKeepsInv(k0, cfgs, Apply(cfgs, w, run[0], true), run[1..]);
    }
  }

  lemma SafeWhenApart(k: Kernel, cfgs: seq<Config>, run: seq<Step>)
    requires Backed(k) && PortsApart(k, cfgs) && IsRun(cfgs, Begin(k, |cfgs|), run, true)
    ensures Backed(Exec(cfgs, Begin(k, |cfgs|), run, true).k)
  {
    RunKeepsInv(k, cfgs, Begin(k, |cfgs|), run);
    InvBacked(k, cfgs, Exec(cfgs, Begin(k, |cfgs|), run, true));
  }

  // --- With ports open beforehand it is safe whatever fails ---

  ghost predicate OpenInv(k0: Kernel, cfgs: seq<Config>, w: World) {
    && |w.phase| == |cfgs| && Kept(k0, w.k)
    && (forall i | 0 <= i < |cfgs| :: Checked(k0, cfgs[i], w.phase[i]))
    && (forall n | n in w.k.links && n !in k0.links && Encapsulated(w.k.links[n]) :: w.k.links[n].dport in k0.fous)
  }

  lemma StepKeepsOpenInv(k0: Kernel, cfgs: seq<Config>, w: World, s: Step)
    requires PortsOpen(k0, cfgs) && OpenInv(k0, cfgs, w) && Enabled(cfgs, w, s, false)
    ensures OpenInv(k0, cfgs, Apply(cfgs, w, s, false))
  {
    assert Checked(k0, cfgs[s.i], w.phase[s.i]);
  }

  lemma {:induction false} RunKeepsOpenInv(k0: Kernel, cfgs: seq<Config>, w: World, run: seq<Step>)
    requires PortsOpen(k0, cfgs) && OpenInv(k0, cfgs, w) && IsRun(cfgs, w, run, false)
    ensures OpenInv(k0, cfgs, Exec(cfgs, w, run, false))
    decreases |run|
  {
    if run == [] {
    } else {
      StepKeepsOpenInv(k0, cfgs, w, run[0]);
      RunKeepsOpenInv(k0, cfgs, Apply(cfgs, w, run[0], false), run[1..]);
    }
  }

  // --- Otherwise a link can lose its port ---

  // Call i opens the port, call j finds it and adds its link, then i fails and closes it.
  lemma SharedPortIsLost(k: Kernel, cfgs: seq<Config>, i: nat, j: nat) returns (run: seq<Step>)
    requires i < |cfgs| && j < |cfgs| && i != j && Opens(cfgs[i]) && Links(k, cfgs[j])
    requires cfgs[i].dport == cfgs[j].dport && cfgs[j].dport !in k.fous
    ensures IsRun(cfgs, Begin(k, |cfgs|), run, true)
    ensures !Backed(Exec(cfgs, Begin(k, |cfgs|), run, true).k)
  {
    var w0 := Begin(k, |cfgs|);
    var w2 := World(k.(fous := k.fous[cfgs[i].dport := FouPort(cfgs[i])]), w0.phase[i := PortReady(true)], map[]);
    var w4 := w2.(phase := w2.phase[j := PortReady(false)]);
    run := CloseUnder(cfgs, w4, i, j);
    var x, y := Step(j, true), Step(j, false);
    assert Apply(cfgs, Apply(cfgs, w2, x, true), y, true) == w4;
    run := Prepend(cfgs, Apply(cfgs, w2, x, true), y, run, true);
    run := Prepend(cfgs, w2, x, run, true);
    x, y := Step(i, true), Step(i, false);
    assert Apply(cfgs, Apply(cfgs, w0, x, true), y, true) == w2;
    run := Prepend(cfgs, Apply(cfgs, w0, x, true), y, run, true);
    run := Prepend(cfgs, w0, x, run, true);
  }

  lemma CloseUnder(cfgs: seq<Config>, w: World, i: nat, j: nat) returns (run: seq<Step>)
    requires |cfgs| == |w.phase| && i < |cfgs| && j < |cfgs| && i != j
    requires w.phase[i] == PortReady(true) && w.phase[j] == PortReady(false)
    requires Opens(cfgs[j]) && cfgs[j].name !in w.k.links && cfgs[i].dport == cfgs[j].dport
    ensures IsRun(cfgs, w, run, true) && !Backed(Exec(cfgs, w, run, true).k)
  {
    var w1 := Apply(cfgs, w, Step(j, false), true);
    var w2 := Apply(cfgs, w1, Step(i, true), true);
    var w3 := Apply(cfgs, w2, Step(i, false), true);
    assert w3.k.links[cfgs[j].name] == GreLink(cfgs[j]) && cfgs[j].dport !in w3.k.fous;
    run := Prepend(cfgs, w2, Step(i, false), [], true);
    run := Prepend(cfgs, w1, Step(i, true), run, true);
    run := Prepend(cfgs, w, Step(j, false), run, true);
  }

  // A single call that opens its port, fails after adding the link, and cannot delete the link again.
  lemma FailedCleanupLosesPort(k: Kernel, cfgs: seq<Config>, j: nat) returns (run: seq<Step>)
    requires j < |cfgs| && Links(k, cfgs[j]) && cfgs[j].dport !in k.fous
    ensures IsRun(cfgs, Begin(k, |cfgs|), run, false)
    ensures !Backed(Exec(cfgs, Begin(k, |cfgs|), run, false).k)
  {
    var w0, x, y := Begin(k, |cfgs|), Step(j, true), Step(j, false);
    var w1 := Apply(cfgs, w0, y, false);
    var w2 := Apply(cfgs, w1, y, false);
    var w3 := Apply(cfgs, w2, y, false);
    var w4 := Apply(cfgs, w3, x, false);
    var w5 := Apply(cfgs, w4, x, false);
    var w6 := Apply(cfgs, w5, y, false);
    assert w6.k.links[cfgs[j].name] == GreLink(cfgs[j]) && cfgs[j].dport !in w6.k.fous;
    run := Prepend(cfgs, w5, y, [], false);
    run := Prepend(cfgs, w4, x, run, false);
    run := Prepend(cfgs, w3, x, run, false);
    run := Prepend(cfgs, w2, y, run, false);
    run := Prepend(cfgs, w1, y, run, false);
    run := Prepend(cfgs, w0, y, run, false);
  }

  lemma Prepend(cfgs: seq<Config>, w: World, s: Step, rest: seq<Step>, sound: bool) returns (run: seq<Step>)
    requires Enabled(cfgs, w, s, sound) && IsRun(cfgs, Apply(cfgs, w, s, sound), rest, sound)
    ensures IsRun(cfgs, w, run, sound)
    ensures Exec(cfgs, w, run, sound) == Exec(cfgs, Apply(cfgs, w, s, sound), rest, sound)
  {
    run := [s] + rest;
    assert run[1..] == rest;
  }

  // --- Main results, for any configurations and any number of calls ---

  // If cleanup calls do not fail, every encapsulated link keeps its port in every interleaving if and only
  // if no call that can open a port shares it with another that can add a link, unless it was open before.
  lemma ConcurrentCreatesSafeIff(k: Kernel, cfgs: seq<Config>)
    requires Backed(k)
    ensures PortsApart(k, cfgs) <==>
            forall run | IsRun(cfgs, Begin(k, |cfgs|), run, true) :: Backed(Exec(cfgs, Begin(k, |cfgs|), run, true).k)
  {
    var w0 := Begin(k, |cfgs|);
    if PortsApart(k, cfgs) {
      forall run | IsRun(cfgs, w0, run, true) ensures Backed(Exec(cfgs, w0, run, true).k) {
        SafeWhenApart(k, cfgs, run);
      }
    } else {
      var i, j :| 0 <= i < |cfgs| && 0 <= j < |cfgs| && i != j && Opens(cfgs[i]) && Links(k, cfgs[j])
                  && cfgs[i].dport == cfgs[j].dport && cfgs[j].dport !in k.fous;
      var run := SharedPortIsLost(k, cfgs, i, j);
    }
  }

  // If any netlink call may fail, they do if and only if every link that can be added has its port open before.
  lemma ConcurrentCreatesSafeUnderFaultsIff(k: Kernel, cfgs: seq<Config>)
    requires Backed(k)
    ensures PortsOpen(k, cfgs) <==>
            forall run | IsRun(cfgs, Begin(k, |cfgs|), run, false) :: Backed(Exec(cfgs, Begin(k, |cfgs|), run, false).k)
  {
    var w0 := Begin(k, |cfgs|);
    if PortsOpen(k, cfgs) {
      forall run | IsRun(cfgs, w0, run, false) ensures Backed(Exec(cfgs, w0, run, false).k) {
        RunKeepsOpenInv(k, cfgs, w0, run);
      }
    } else {
      var j :| 0 <= j < |cfgs| && Links(k, cfgs[j]) && cfgs[j].dport !in k.fous;
      var run := FailedCleanupLosesPort(k, cfgs, j);
    }
  }

  // --- A call on its own does what Create says ---

  // Whether the next netlink call of a lone creation fails.
  predicate Fails(f: Faults, p: Phase) {
    match p
    case Start => f.lookup
    case Looked => f.fouAdd
    case PortReady(_) => f.linkAdd
    case LinkAdded(_) => f.setMtu
    case Sized(_) => f.setUp
    case Undoing(_) => f.linkDel
    case Closing => f.fouDel
    case Finished(_) => false
  }

  function Remaining(p: Phase): nat {
    match p
    case Start => 7 case Looked => 6 case PortReady(_) => 5 case LinkAdded(_) => 4
    case Sized(_) => 3 case Undoing(_) => 2 case Closing => 1 case Finished(_) => 0
  }

  // All netlink calls of a creation with nobody else around.
  function Lone(k: Kernel, cfg: Config, p: Phase, f: Faults): (Kernel, Result)
    decreases Remaining(p)
  {
    if p.Finished? then (k, p.r)
    else
      var (l, q) := Next(k, cfg, p, Fails(f, p));
      Lone(l, cfg, q, f)
  }

  // Undisturbed, the steps have exactly the effect and the result of Create, under every pattern of failures.
  lemma LoneCallIsCreate(k: Kernel, cfg: Config, f: Faults)
    ensures Lone(k, cfg, Start, f) == Create(k, cfg, false, f)
  {
    if ValidConfig(cfg) && !(cfg.name in k.links && !f.lookup) {
      if cfg.encap == EncapNone {
        LoneFromPort(k, cfg, false, f);
      } else if !f.fouAdd {
        var made := cfg.dport !in k.fous;
        LoneFromPort(if made then k.(fous := k.fous[cfg.dport := FouPort(cfg)]) else k, cfg, made, f);
      }
    }
  }

  lemma LoneFromPort(k: Kernel, cfg: Config, made: bool, f: Faults)
    ensures Lone(k, cfg, PortReady(made), f) ==
            if f.linkAdd || cfg.name in k.links then (Undo(k, cfg, false, made, f), NetlinkError)
            else
              var mtu := MtuOrDefault(cfg);
              var k2 := k.(links := k.links[cfg.name := GreLink(cfg)]);
              if mtu > 0 && f.setMtu then (Undo(k2, cfg, true, made, f), NetlinkError)
              else
                var k3 := if mtu > 0 then k2.(links := k2.links[cfg.name := GreLink(cfg).(mtu := mtu)]) else k2;
                if f.setUp then (Undo(k3, cfg, true, made, f), NetlinkError)
                else (k3.(links := k3.links[cfg.name := UpLink(cfg)]), Ok)
  {
    if f.linkAdd || cfg.name in k.links {
      LoneUndo(k, cfg, made, f);
    } else {
      var mtu := MtuOrDefault(cfg);
      var k2 := k.(links := k.links[cfg.name := GreLink(cfg)]);
      if mtu > 0 && f.setMtu {
        LoneUndo(k2, cfg, made, f);
      } else {
        var k3 := if mtu > 0 then k2.(links := k2.links[cfg.name := GreLink(cfg).(mtu := mtu)]) else k2;
        if f.setUp { LoneUndo(k3, cfg, made, f); }
        assert Lone(k2, cfg, if mtu > 0 then LinkAdded(made) else Sized(made), f) == Lone(k3, cfg, Sized(made), f);
      }
    }
  }

  lemma LoneUndo(k: Kernel, cfg: Config, made: bool, f: Faults)
    ensures Lone(k, cfg, Undoing(made), f) == (Undo(k, cfg, true, made, f), NetlinkError)
    ensures Lone(k, cfg, AfterUndo(made), f) == (Undo(k, cfg, false, made, f), NetlinkError)
  {
    var k1 := DropLink(k, cfg.name, f);
    assert Lone(k, cfg, Undoing(made), f) == Lone(k1, cfg, AfterUndo(made), f);
    forall l: Kernel ensures Lone(l, cfg, AfterUndo(made), f) == (Undo(l, cfg, false, made, f), NetlinkError) {
      if made { assert Lone(l, cfg, Closing, f) == (RollbackFou(l, cfg, f), NetlinkError); }
    }
  }
}
