/**
  Tunnel creation and deletion of `internal/tunnel/gre.go` over a small kernel model:
  links by name, FOU receive ports, and netlink calls any of which may fail.
 */
module Tunnel {

  // --- Configuration, as in types.go ---

  datatype Encap = EncapNone | EncapFou | EncapGue | EncapOther(n: int)

  datatype Ip = NoIp | V4(value: nat) | V6(value: nat)

  datatype Config = Config(
    name: string, localIp: Ip, remoteIp: Ip, key: nat, ttl: nat, mtu: int,
    encap: Encap, sport: nat, dport: nat, checksum: bool)

  const DEFAULT_TTL: nat := 64
  const DEFAULT_FOU_MTU: nat := 1468
  const MAX_NAME_LENGTH: nat := 15
  const ENCAP_CSUM: nat := 1

  const RESERVED: seq<string> := ["lo", "eth", "wlan", "docker", "veth", "br-", "virbr"]

  predicate NameChar(c: char) { 'a' <= c <= 'z' || 'A' <= c <= 'Z' || '0' <= c <= '9' || c == '_' || c == '-' }

  predicate ValidName(name: string) {
    0 < |name| <= MAX_NAME_LENGTH && forall i | 0 <= i < |name| :: NameChar(name[i])
  }

  // A usable IPv4 address: not unspecified, loopback or multicast.
  predicate ValidIp(ip: Ip) {
    ip.V4? && ip.value != 0 && ip.value / 0x100_0000 != 127 && !(224 <= ip.value / 0x100_0000 <= 239)
  }

  predicate ValidEncap(cfg: Config) {
    && !cfg.encap.EncapOther?
    && (cfg.encap != EncapNone ==> cfg.dport != 0)
    && (cfg.mtu == 0 || 576 <= cfg.mtu <= 9000)
  }

  predicate ValidConfig(cfg: Config) {
    && ValidName(cfg.name)
    && (forall p | p in RESERVED :: !(p <= cfg.name))
    && ValidIp(cfg.localIp) && ValidIp(cfg.remoteIp) && cfg.localIp != cfg.remoteIp
    && ValidEncap(cfg)
  }

  method ValidateConfig(cfg: Config) returns (ok: bool)
    ensures ok <==> ValidConfig(cfg)
  {
    if !ValidName(cfg.name) { return false; }
    for i := 0 to |RESERVED|
      invariant forall j | 0 <= j < i :: !(RESERVED[j] <= cfg.name)
    {
      assert RESERVED[i] in RESERVED;
      if RESERVED[i] <= cfg.name { return false; }
    }
    return ValidIp(cfg.localIp) && ValidIp(cfg.remoteIp) && cfg.localIp != cfg.remoteIp && ValidEncap(cfg);
  }

  // --- The kernel ---

  datatype Link = Link(
    kind: string, up: bool, mtu: nat, localIp: Ip, remoteIp: Ip, key: nat, ttl: nat,
    encap: Encap, sport: nat, dport: nat, flags: nat)

  datatype Fou = Fou(protocol: nat, encap: Encap)

  datatype Kernel = Kernel(links: map<string, Link>, fous: map<nat, Fou>)

  // Which netlink calls of one operation fail for reasons of their own.
  datatype Faults = Faults(
    lookup: bool, fouAdd: bool, linkAdd: bool, setMtu: bool, setUp: bool, linkDel: bool, fouDel: bool)

  datatype Result = Ok | Cancelled | Invalid | AlreadyExists | NotFound | WrongType | NetlinkError

  // --- What Create builds ---

  function GreLink(cfg: Config): Link {
    var e := cfg.encap != EncapNone;
    Link("gre", false, 0, cfg.localIp, cfg.remoteIp, cfg.key, if cfg.ttl == 0 then DEFAULT_TTL else cfg.ttl,
         cfg.encap, if e then cfg.sport else 0, if e then cfg.dport else 0, if e && cfg.checksum then ENCAP_CSUM else 0)
  }

  function FouPort(cfg: Config): Fou {
    if cfg.encap == EncapGue then Fou(0, EncapGue) else Fou(47, EncapFou)
  }

  function MtuOrDefault(cfg: Config): nat {
    if cfg.mtu > 0 then cfg.mtu else if cfg.encap != EncapNone then DEFAULT_FOU_MTU else 0
  }

  // --- Create and Delete, on a kernel value and a pattern of failures ---

  function RollbackFou(k: Kernel, cfg: Config, f: Faults): Kernel {
    if f.fouDel then k else k.(fous := k.fous - {cfg.dport})
  }

  function DropLink(k: Kernel, name: string, f: Faults): Kernel {
    if f.linkDel then k else k.(links := k.links - {name})
  }

  // Undo after a failure: the link if it was added, then the port if this call opened it.
  function Undo(k: Kernel, cfg: Config, linked: bool, made: bool, f: Faults): Kernel {
    var k1 := if linked then DropLink(k, cfg.name, f) else k;
    if made then RollbackFou(k1, cfg, f) else k1
  }

  function Create(k: Kernel, cfg: Config, cancelled: bool, f: Faults): (Kernel, Result) {
    if cancelled then (k, Cancelled)
    else if !ValidConfig(cfg) then (k, Invalid)
    else if cfg.name in k.links && !f.lookup then (k, AlreadyExists)
    else if cfg.encap != EncapNone && f.fouAdd then (k, NetlinkError)
    else
      var made := cfg.encap != EncapNone && cfg.dport !in k.fous;
      var k1 := if made then k.(fous := k.fous[cfg.dport := FouPort(cfg)]) else k;
      if f.linkAdd || cfg.name in k1.links then (Undo(k1, cfg, false, made, f), NetlinkError)
      else
        var mtu := MtuOrDefault(cfg);
        var k2 := k1.(links := k1.links[cfg.name := GreLink(cfg)]);
        if mtu > 0 && f.setMtu then (Undo(k2, cfg, true, made, f), NetlinkError)
        else
          var k3 := if mtu > 0 then k2.(links := k2.links[cfg.name := GreLink(cfg).(mtu := mtu)]) else k2;
          if f.setUp then (Undo(k3, cfg, true, made, f), NetlinkError)
          else (k3.(links := k3.links[cfg.name := GreLink(cfg).(mtu := mtu, up := true)]), Ok)
  }

  function Delete(k: Kernel, name: string, cancelled: bool, f: Faults): (Kernel, Result) {
    if cancelled then (k, Cancelled)
    else if !ValidName(name) then (k, Invalid)
    else if name !in k.links || f.lookup then (k, NotFound)
    else if k.links[name].kind != "gre" then (k, WrongType)
    else if f.linkDel then (k, NetlinkError)
    else (k.(links := k.links - {name}), Ok)
  }

  // --- The code, one netlink call at a time ---

  datatype FouReply = FouAdded | FouExists | FouFailed

  class Netlink {
    var links: map<string, Link>
    var fous: map<nat, Fou>

    function State(): Kernel
      reads this
    {
      Kernel(links, fous)
    }

    method LinkByName(name: string, fault: bool) returns (found: bool)
      ensures found <==> name in links && !fault
    {
      found := !fault && name in links;
    }

    method FouAdd(port: nat, fou: Fou, fault: bool) returns (reply: FouReply)
      modifies this`fous
      ensures reply == if fault then FouFailed else if port in old(fous) then FouExists else FouAdded
      ensures fous == if reply == FouAdded then old(fous)[port := fou] else old(fous)
    {
      if fault { return FouFailed; }
      if port in fous { return FouExists; }
      fous := fous[port := fou];
      return FouAdded;
    }

    method FouDel(port: nat, fault: bool)
      modifies this`fous
      ensures fous == if fault then old(fous) else old(fous) - {port}
    {
      if !fault { fous := fous - {port}; }
    }

    method LinkAdd(name: string, link: Link, fault: bool) returns (ok: bool)
      modifies this`links
      ensures ok <==> !fault && name !in old(links)
      ensures links == if ok then old(links)[name := link] else old(links)
    {
      if fault || name in links { return false; }
      links := links[name := link];
      return true;
    }

    method LinkChange(name: string, link: Link, fault: bool) returns (ok: bool)
      requires name in links
      modifies this`links
      ensures ok == !fault
      ensures links == if ok then old(links)[name := link] else old(links)
    {
      if fault { return false; }
      links := links[name := link];
      return true;
    }

    method LinkDel(name: string, fault: bool) returns (ok: bool)
      modifies this`links
      ensures ok == !fault
      ensures links == if ok then old(links) - {name} else old(links)
    {
      if fault { return false; }
      links := links - {name};
      return true;
    }
  }

  method EnsureFou(nl: Netlink, port: nat, fou: Fou, fault: bool) returns (created: bool, ok: bool)
    modifies nl`fous
    ensures ok == !fault && created == (ok && port !in old(nl.fous))
    ensures nl.fous == if created then old(nl.fous)[port := fou] else old(nl.fous)
  {
    var reply := nl.FouAdd(port, fou, fault);
    match reply {
      case FouAdded => return true, true;
      case FouExists => return false, true;
      case FouFailed => return false, false;
    }
  }

  method CreateTunnel(nl: Netlink, cfg: Config, cancelled: bool, f: Faults) returns (result: Result)
    modifies nl
    ensures (nl.State(), result) == Create(old(nl.State()), cfg, cancelled, f)
  {
    if cancelled { return Cancelled; }
    var valid := ValidateConfig(cfg);
    if !valid { return Invalid; }
    var found := nl.LinkByName(cfg.name, f.lookup);
    if found { return AlreadyExists; }
    var createdFou := false;
    if cfg.encap != EncapNone {
      var created, ok := EnsureFou(nl, cfg.dport, FouPort(cfg), f.fouAdd);
      if !ok { return NetlinkError; }
      createdFou := created;
    }
    var gre := GreLink(cfg);
    var added := nl.LinkAdd(cfg.name, gre, f.linkAdd);
    if !added {
      if createdFou { nl.FouDel(cfg.dport, f.fouDel); }
      return NetlinkError;
    }
    var mtu := MtuOrDefault(cfg);
    if mtu > 0 {
      var sized := nl.LinkChange(cfg.name, gre.(mtu := mtu), f.setMtu);
      if !sized {
        var _ := nl.LinkDel(cfg.name, f.linkDel);
        if createdFou { nl.FouDel(cfg.dport, f.fouDel); }
        return NetlinkError;
      }
    }
    var raised := nl.LinkChange(cfg.name, gre.(mtu := mtu, up := true), f.setUp);
    if !raised {
      var _ := nl.LinkDel(cfg.name, f.linkDel);
      if createdFou { nl.FouDel(cfg.dport, f.fouDel); }
      return NetlinkError;
    }
    return Ok;
  }

  method DeleteTunnel(nl: Netlink, name: string, cancelled: bool, f: Faults) returns (result: Result)
    modifies nl
    ensures (nl.State(), result) == Delete(old(nl.State()), name, cancelled, f)
    ensures result == Ok ==> name in old(nl.links) && name !in nl.links
  {
    if cancelled { return Cancelled; }
    if !ValidName(name) { return Invalid; }
    var found := nl.LinkByName(name, f.lookup);
    if !found { return NotFound; }
    if nl.links[name].kind != "gre" { return WrongType; }
    var ok := nl.LinkDel(name, f.linkDel);
    if !ok { return NetlinkError; }
    return Ok;
  }
}
