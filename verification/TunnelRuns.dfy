/**
  What tunnel creation in `internal/tunnel/gre.go` guarantees under failures: each
  call is a transaction, and over any sequence of calls every encapsulated link
  keeps its FOU port.
 */
module TunnelRuns {
  import opened Tunnel

  // --- One call ---

  function UpLink(cfg: Config): Link { GreLink(cfg).(mtu := MtuOrDefault(cfg), up := true) }

  predicate Encapsulated(l: Link) { l.encap != EncapNone }

  // A call fails after adding its link.
  predicate LateFailure(cfg: Config, f: Faults) { (MtuOrDefault(cfg) > 0 && f.setMtu) || f.setUp }

  // The failures under which the call gets to add its link, fails later, and cannot delete it again.
  predicate LeavesLink(k: Kernel, cfg: Config, cancelled: bool, f: Faults) {
    && !cancelled && ValidConfig(cfg) && cfg.name !in k.links
    && !(cfg.encap != EncapNone && f.fouAdd) && !f.linkAdd
    && LateFailure(cfg, f) && f.linkDel
  }

  lemma LeavesLinkIff(k: Kernel, cfg: Config, cancelled: bool, f: Faults)
    ensures LeavesLink(k, cfg, cancelled, f) <==>
            var (k', r) := Create(k, cfg, cancelled, f);
            r != Ok && cfg.name !in k.links && cfg.name in k'.links
  {
    assert (if cfg.encap != EncapNone && cfg.dport !in k.fous
            then k.(fous := k.fous[cfg.dport := FouPort(cfg)]) else k).links == k.links;
  }

  // For every pattern of failures: success adds exactly the configured link, up with the chosen MTU,
  // and its port if it was not open; failure restores links and ports exactly if the cleanup deletes
  // succeed; and in no case is a link or port touched that this call did not add.
  lemma CreateIsATransaction(k: Kernel, cfg: Config, cancelled: bool, f: Faults)
    ensures var (k', r) := Create(k, cfg, cancelled, f);
            && (r == Ok ==>
                  && cfg.name !in k.links && k'.links == k.links[cfg.name := UpLink(cfg)]
                  && k'.fous == if cfg.encap == EncapNone || cfg.dport in k.fous then k.fous
                                else k.fous[cfg.dport := FouPort(cfg)])
            && (r != Ok && !f.linkDel && !f.fouDel ==> k' == k)
            && k'.links - {cfg.name} == k.links - {cfg.name}
            && k'.fous - {cfg.dport} == k.fous - {cfg.dport}
            && (cfg.name in k.links ==> cfg.name in k'.links && k'.links[cfg.name] == k.links[cfg.name])
            && (cfg.dport in k.fous ==> cfg.dport in k'.fous && k'.fous[cfg.dport] == k.fous[cfg.dport])
  {
    var (k', r) := Create(k, cfg, cancelled, f);
    if r == Ok {
      assert k'.links == k.links[cfg.name := UpLink(cfg)];
    } else if !f.linkDel && !f.fouDel {
      assert k'.links == k.links;
      assert k'.fous == k.fous;
    }
  }

  // When a call succeeds: nothing fails on the way, and the name was free.
  lemma CreateSucceedsIff(k: Kernel, cfg: Config, cancelled: bool, f: Faults)
    ensures Create(k, cfg, cancelled, f).1 == Ok <==>
            && !cancelled && ValidConfig(cfg) && cfg.name !in k.links
            && !(cfg.encap != EncapNone && f.fouAdd) && !f.linkAdd
            && !(MtuOrDefault(cfg) > 0 && f.setMtu) && !f.setUp
  {
    assert (if cfg.encap != EncapNone && cfg.dport !in k.fous
            then k.(fous := k.fous[cfg.dport := FouPort(cfg)]) else k).links == k.links;
  }

  // --- Ports stay open under encapsulated links ---

  ghost predicate Backed(k: Kernel) {
    forall n | n in k.links && Encapsulated(k.links[n]) :: k.links[n].dport in k.fous
  }

  // Other links and every port that was open stay as they are.
  lemma CreateFrame(k: Kernel, cfg: Config, cancelled: bool, f: Faults)
    ensures var k' := Create(k, cfg, cancelled, f).0;
            && (forall n | n in k.links :: n in k'.links && k'.links[n] == k.links[n])
            && (forall n | n in k'.links && n != cfg.name :: n in k.links)
            && (forall p | p in k.fous :: p in k'.fous && k'.fous[p] == k.fous[p])
  {
    var k' := Create(k, cfg, cancelled, f).0;
    CreateIsATransaction(k, cfg, cancelled, f);
    forall n | n in k.links ensures n in k'.links && k'.links[n] == k.links[n] {
      if n != cfg.name { assert n in (k.links - {cfg.name}) && n in (k'.links - {cfg.name}); }
    }
    forall n | n in k'.links && n != cfg.name ensures n in k.links {
      assert n in (k'.links - {cfg.name}) && n in (k.links - {cfg.name});
    }
    forall p | p in k.fous ensures p in k'.fous && k'.fous[p] == k.fous[p] {
      if p != cfg.dport { assert p in (k.fous - {cfg.dport}) && p in (k'.fous - {cfg.dport}); }
    }
  }

  // Exactly one pattern breaks it: the call opened the port, failed after adding the link,
  // could not delete the link, but could delete the port.
  lemma CreateKeepsBackedIff(k: Kernel, cfg: Config, cancelled: bool, f: Faults)
    requires Backed(k)
    ensures Backed(Create(k, cfg, cancelled, f).0) <==>
            !(LeavesLink(k, cfg, cancelled, f) && cfg.encap != EncapNone && cfg.dport !in k.fous && !f.fouDel)
  {
    var k' := Create(k, cfg, cancelled, f).0;
    CreateFrame(k, cfg, cancelled, f);
    LeavesLinkIff(k, cfg, cancelled, f);
    if LeavesLink(k, cfg, cancelled, f) && cfg.encap != EncapNone && cfg.dport !in k.fous && !f.fouDel {
      assert Encapsulated(k'.links[cfg.name]) && k'.links[cfg.name].dport == cfg.dport;
      assert cfg.dport !in k'.fous;
    }
  }

  lemma DeleteKeepsBacked(k: Kernel, name: string, cancelled: bool, f: Faults)
    requires Backed(k)
    ensures Backed(Delete(k, name, cancelled, f).0)
    ensures Delete(k, name, cancelled, f).0.links - {name} == k.links - {name}
    ensures Delete(k, name, cancelled, f).0.fous == k.fous
  {}

  datatype Op =
    | CreateOp(cfg: Config, cancelled: bool, f: Faults)
    | DeleteOp(name: string, cancelled: bool, f: Faults)

  function Do(k: Kernel, op: Op): (Kernel, Result) {
    match op
    case CreateOp(cfg, cancelled, f) => Create(k, cfg, cancelled, f)
    case DeleteOp(name, cancelled, f) => Delete(k, name, cancelled, f)
  }

  function Exec(k: Kernel, ops: seq<Op>): Kernel
    decreases |ops|
  {
    if ops == [] then k else Do(Exec(k, ops[..|ops| - 1]), ops[|ops| - 1]).0
  }

  // Over any sequence of calls with any failures, provided no cleanup deletes the port after failing
  // to delete the link: every encapsulated link has its port open, whatever shares it.
  lemma {:induction false} PortsStayOpen(k: Kernel, ops: seq<Op>)
    requires Backed(k)
    requires forall i | 0 <= i < |ops| && ops[i].CreateOp? :: ops[i].f.linkDel ==> ops[i].f.fouDel
    ensures Backed(Exec(k, ops))
    decreases |ops|
  {
    if ops == [] {
    } else {
      var before, op := Exec(k, ops[..|ops| - 1]), ops[|ops| - 1];
      PortsStayOpen(k, ops[..|ops| - 1]);
      match op {
        case CreateOp(cfg, cancelled, f) =>
          assert ops[|ops| - 1].f.linkDel ==> ops[|ops| - 1].f.fouDel;
          CreateKeepsBackedIff(before, cfg, cancelled, f);
        case DeleteOp(name, cancelled, f) => DeleteKeepsBacked(before, name, cancelled, f);
      }
    }
  }

  // --- But the open port may be of the other kind ---

  // The port of every encapsulated link receives that encapsulation.
  ghost predicate Matched(k: Kernel) {
    forall n | n in k.links && Encapsulated(k.links[n]) ::
      k.links[n].dport in k.fous && k.fous[k.links[n].dport].encap == k.links[n].encap
  }

  // The inputs under which a call ends with its link in place, whether it succeeds or not.
  predicate EndsWithLink(k: Kernel, cfg: Config, cancelled: bool, f: Faults) {
    && !cancelled && ValidConfig(cfg) && cfg.name !in k.links
    && !(cfg.encap != EncapNone && f.fouAdd) && !f.linkAdd
    && (LateFailure(cfg, f) ==> f.linkDel)
  }

  // What the call ends with: its link, and its port unless the call opened it and then closed it again.
  lemma EndsWithLinkIff(k: Kernel, cfg: Config, cancelled: bool, f: Faults)
    ensures var k' := Create(k, cfg, cancelled, f).0;
            && (EndsWithLink(k, cfg, cancelled, f) <==> cfg.name !in k.links && cfg.name in k'.links)
            && (EndsWithLink(k, cfg, cancelled, f) ==>
                  && k'.links[cfg.name].encap == cfg.encap
                  && (cfg.encap != EncapNone ==> k'.links[cfg.name].dport == cfg.dport)
                  && (cfg.encap != EncapNone && cfg.dport !in k.fous ==>
                        if LateFailure(cfg, f) && !f.fouDel then cfg.dport !in k'.fous
                        else cfg.dport in k'.fous && k'.fous[cfg.dport] == FouPort(cfg)))
  {
    CreateSucceedsIff(k, cfg, cancelled, f);
    LeavesLinkIff(k, cfg, cancelled, f);
  }

  // The port is open for the other encapsulation.
  predicate OpenForOther(k: Kernel, cfg: Config) {
    cfg.encap != EncapNone && cfg.dport in k.fous && k.fous[cfg.dport].encap != cfg.encap
  }

  // A port already open is accepted whatever it was opened for. Under every pattern of failures a call breaks
  // the match if and only if it ends with an encapsulated link on a port that is open for the other
  // encapsulation, or that the call opened and closed again.
  lemma CreateKeepsMatchedIff(k: Kernel, cfg: Config, cancelled: bool, f: Faults)
    requires Matched(k)
    ensures Matched(Create(k, cfg, cancelled, f).0) <==>
            !(&& EndsWithLink(k, cfg, cancelled, f) && cfg.encap != EncapNone
              && (OpenForOther(k, cfg) || (cfg.dport !in k.fous && LateFailure(cfg, f) && !f.fouDel)))
  {
    CreateFrame(k, cfg, cancelled, f);
    EndsWithLinkIff(k, cfg, cancelled, f);
  }

  predicate CleanupWorks(f: Faults) { !f.linkDel && !f.fouDel }

  // With working cleanup, a call keeps the match whatever else fails if and only if it is not one that can
  // add a link on a port open for the other encapsulation.
  lemma CreateAlwaysKeepsMatchedIff(k: Kernel, cfg: Config, cancelled: bool)
    requires Matched(k)
    ensures (forall f: Faults | CleanupWorks(f) :: Matched(Create(k, cfg, cancelled, f).0)) <==>
            !(!cancelled && ValidConfig(cfg) && cfg.name !in k.links && OpenForOther(k, cfg))
  {
    forall f: Faults | CleanupWorks(f)
      ensures Matched(Create(k, cfg, cancelled, f).0) <==> !(EndsWithLink(k, cfg, cancelled, f) && OpenForOther(k, cfg))
    {
      CreateKeepsMatchedIff(k, cfg, cancelled, f);
    }
    var none := Faults(false, false, false, false, false, false, false);
    assert CleanupWorks(none);
  }

  // It comes to that: from the empty kernel, a FOU and then a GUE tunnel on the same port both succeed.
  lemma MismatchIsReachable(fou: Config, gue: Config)
    requires ValidConfig(fou) && ValidConfig(gue) && fou.encap == EncapFou && gue.encap == EncapGue
    requires fou.name != gue.name && fou.dport == gue.dport
    ensures var none := Faults(false, false, false, false, false, false, false);
            var (k, r) := Create(Kernel(map[], map[]), fou, false, none);
            var (l, q) := Create(k, gue, false, none);
            r == Ok && q == Ok && Matched(k) && !Matched(l)
  {
    var none := Faults(false, false, false, false, false, false, false);
    var k0 := Kernel(map[], map[]);
    var k := Create(k0, fou, false, none).0;
    CreateIsATransaction(k0, fou, false, none);
    CreateKeepsMatchedIff(k0, fou, false, none);
    CreateKeepsMatchedIff(k, gue, false, none);
  }
}
