/**
  What callers of `internal/tunnel/gre.go` see: which configurations are valid, which result
  each call gets, and what a successful one leaves in the kernel.
 */
module TunnelResults {
  import opened Tunnel

  // --- Validation ---

  // Digits, upper and lower case letters, hyphen and underscore, by their ASCII codes.
  predicate NameCode(n: int) { 48 <= n <= 57 || 65 <= n <= 90 || 97 <= n <= 122 || n == 45 || n == 95 }

  predicate Named(name: string) { 1 <= |name| <= 15 && forall i | 0 <= i < |name| :: NameCode(name[i] as int) }

  predicate Prefixed(name: string) {
    || "lo" <= name || "eth" <= name || "wlan" <= name || "docker" <= name || "veth" <= name
    || "br-" <= name || "virbr" <= name
  }

  // 0.0.0.0, 127.0.0.0/8 and 224.0.0.0/4 are not usable.
  predicate Usable(ip: Ip) {
    ip.V4? && ip.value != 0 && !(0x7f00_0000 <= ip.value < 0x8000_0000) && !(0xe000_0000 <= ip.value < 0xf000_0000)
  }

  lemma NameCharIff(c: char)
    ensures NameChar(c) <==> NameCode(c as int)
  {}

  lemma ValidNameIff(name: string)
    ensures ValidName(name) <==> Named(name)
  {
    forall i | 0 <= i < |name| ensures NameChar(name[i]) <==> NameCode(name[i] as int) { NameCharIff(name[i]); }
  }

  lemma ReservedIff(name: string)
    ensures (forall p | p in RESERVED :: !(p <= name)) <==> !Prefixed(name)
  {
    var all := ["lo", "eth", "wlan", "docker", "veth", "br-", "virbr"];
    assert RESERVED == all;
    forall i | 0 <= i < |all| ensures all[i] in RESERVED {}
    assert all[0] == "lo" && all[1] == "eth" && all[2] == "wlan" && all[3] == "docker";
    assert all[4] == "veth" && all[5] == "br-" && all[6] == "virbr";
  }

  lemma ValidIpIff(ip: Ip)
    ensures ValidIp(ip) <==> Usable(ip)
  {}

  // Exactly these configurations pass.
  lemma ValidConfigIff(cfg: Config)
    ensures ValidConfig(cfg) <==>
            && Named(cfg.name) && !Prefixed(cfg.name)
            && Usable(cfg.localIp) && Usable(cfg.remoteIp) && cfg.localIp != cfg.remoteIp
            && (cfg.encap == EncapNone || (cfg.encap in {EncapFou, EncapGue} && cfg.dport > 0))
            && (cfg.mtu == 0 || 576 <= cfg.mtu <= 9000)
  {
    ValidNameIff(cfg.name);
    ReservedIff(cfg.name);
    ValidIpIff(cfg.localIp);
    ValidIpIff(cfg.remoteIp);
  }

  // --- Create ---

  // A netlink call that Create needs fails: opening the port, adding the link, setting the MTU, raising the link.
  predicate NetlinkFails(k: Kernel, cfg: Config, f: Faults) {
    || (cfg.encap != EncapNone && f.fouAdd)
    || f.linkAdd || cfg.name in k.links
    || ((cfg.mtu > 0 || cfg.encap != EncapNone) && f.setMtu)
    || f.setUp
  }

  lemma CreateResultIff(k: Kernel, cfg: Config, cancelled: bool, f: Faults)
    ensures var result := Create(k, cfg, cancelled, f).1;
            var tried := !cancelled && ValidConfig(cfg) && (cfg.name !in k.links || f.lookup);
            && (result == Cancelled <==> cancelled)
            && (result == Invalid <==> !cancelled && !ValidConfig(cfg))
            && (result == AlreadyExists <==> !cancelled && ValidConfig(cfg) && cfg.name in k.links && !f.lookup)
            && (result == NetlinkError <==> tried && NetlinkFails(k, cfg, f))
            && (result == Ok <==> tried && !NetlinkFails(k, cfg, f))
  {}

  // The link that a configuration asks for, field by field.
  predicate BuiltFrom(link: Link, cfg: Config) {
    && link.kind == "gre" && link.up
    && link.localIp == cfg.localIp && link.remoteIp == cfg.remoteIp && link.key == cfg.key && link.encap == cfg.encap
    && link.ttl == (if cfg.ttl == 0 then 64 else cfg.ttl)
    && link.mtu == (if cfg.mtu > 0 then cfg.mtu else if cfg.encap == EncapNone then 0 else 1468)
    && (cfg.encap == EncapNone ==> link.sport == 0 && link.dport == 0 && link.flags == 0)
    && (cfg.encap != EncapNone ==> link.sport == cfg.sport && link.dport == cfg.dport)
    && (cfg.encap != EncapNone ==> link.flags == if cfg.checksum then 1 else 0)
  }

  // The port of an encapsulated link: protocol 47, GRE, for FOU, and 0 for GUE.
  predicate OpenedFor(fou: Fou, cfg: Config) {
    && (cfg.encap == EncapFou ==> fou == Fou(47, EncapFou))
    && (cfg.encap == EncapGue ==> fou == Fou(0, EncapGue))
  }

  // A successful call leaves the configured link and its port, and nothing else is different.
  lemma CreatedAsConfigured(k: Kernel, cfg: Config, cancelled: bool, f: Faults)
    requires Create(k, cfg, cancelled, f).1 == Ok
    ensures var after := Create(k, cfg, cancelled, f).0;
            && after.links.Keys == k.links.Keys + {cfg.name} && cfg.name !in k.links
            && BuiltFrom(after.links[cfg.name], cfg)
            && (forall n | n in k.links :: after.links[n] == k.links[n])
            && (cfg.encap == EncapNone ==> after.fous == k.fous)
            && (cfg.encap != EncapNone ==> after.fous.Keys == k.fous.Keys + {cfg.dport})
            && (cfg.encap != EncapNone && cfg.dport !in k.fous ==> OpenedFor(after.fous[cfg.dport], cfg))
            && (forall port | port in k.fous :: after.fous[port] == k.fous[port])
  {}

  // --- Delete ---

  lemma DeleteResultIff(k: Kernel, name: string, cancelled: bool, f: Faults)
    ensures var result := Delete(k, name, cancelled, f).1;
            var found := !cancelled && Named(name) && name in k.links && !f.lookup;
            && (result == Cancelled <==> cancelled)
            && (result == Invalid <==> !cancelled && !Named(name))
            && (result == NotFound <==> !cancelled && Named(name) && (name !in k.links || f.lookup))
            && (result == WrongType <==> found && k.links[name].kind != "gre")
            && (result == NetlinkError <==> found && k.links[name].kind == "gre" && f.linkDel)
            && (result == Ok <==> found && k.links[name].kind == "gre" && !f.linkDel)
  {
    ValidNameIff(name);
  }

  // A successful call removes the link and touches nothing else, the port included; any other changes nothing.
  lemma DeleteRemoves(k: Kernel, name: string, cancelled: bool, f: Faults)
    ensures var (after, result) := Delete(k, name, cancelled, f);
            && after.fous == k.fous
            && (forall n :: n in after.links <==> n in k.links && !(result == Ok && n == name))
            && (forall n | n in after.links :: after.links[n] == k.links[n])
            && (result == Ok ==> name in k.links && k.links[name].kind == "gre")
  {}

  // Creating a tunnel and deleting it again restores the links; the port it opened stays open.
  lemma DeleteUndoesCreate(k: Kernel, cfg: Config, f: Faults, g: Faults)
    requires Create(k, cfg, false, f).1 == Ok && !g.lookup && !g.linkDel
    ensures var made := Create(k, cfg, false, f).0;
            var (after, result) := Delete(made, cfg.name, false, g);
            && result == Ok && after.links == k.links
            && after.fous.Keys == k.fous.Keys + if cfg.encap == EncapNone then {} else {cfg.dport}
  {
    CreatedAsConfigured(k, cfg, false, f);
    var made := Create(k, cfg, false, f).0;
    assert made.links - {cfg.name} == k.links;
  }
}
