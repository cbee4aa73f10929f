/** The desired wireless state and its compiler to UCI: the sections a push owns, as commands. */
module Wireless {
  import opened Text
  import opened Uci

  datatype Reservation = Reservation(mac: string, ipaddr: string, hostname: string)

  datatype Target = Target(zone: string, cidr: string)

  datatype PeerAllow = PeerAllow(from: string, to: string)

  datatype Ssid = Ssid(
    slug: string, ssid: string, radios: seq<string>, encryption: string, key: string, hidden: bool, isolate: bool,
    gated: bool, bridge: string, ipaddr: string, netmask: string, dhcpStart: string, dhcpLimit: string,
    leasetime: string, dhcpDisabled: bool, reservations: seq<Reservation>, egressZone: string, targets: seq<Target>,
    maxClients: nat, macPolicy: string, macList: seq<string>, rateDown: nat, rateUp: nat, mode: string,
    fastTransition: bool, pmf: string)

  datatype State = State(version: string, ssids: seq<Ssid>, timeoutSecs: nat, peers: seq<PeerAllow>)

  const DEFAULT_RADIO := "radio0"
  const WAN_ZONE := "wan"
  const OWNER := "portcullis-wireless"

  function EffectiveRadios(s: Ssid): seq<string> {
    if s.radios == [] then [DEFAULT_RADIO] else s.radios
  }

  function Encryption(s: Ssid): string {
    if s.encryption == "" then "none" else s.encryption
  }

  function Egress(s: Ssid): string {
    if s.egressZone == "" then WAN_ZONE else s.egressZone
  }

  function Mode(s: Ssid): string {
    if s.mode == "" then "ap" else s.mode
  }

  /** ASCII lower case; a MAC that validates has no other letters. */
  function Lower(s: string): string {
    if s == "" then ""
    else [if 'A' <= s[0] <= 'Z' then (s[0] as int + 32) as char else s[0]] + Lower(s[1..])
  }

  // --- a section and its options -------------------------------------------

  datatype Field = One(name: string, value: string) | Many(name: string, values: seq<string>)

  datatype Piece = Piece(sec: Section, kind: string, fields: seq<Field>)

  function AddLists(k: Key, vs: seq<string>): seq<Cmd> {
    if vs == [] then [] else [AddList(k, vs[0])] + AddLists(k, vs[1..])
  }

  function FieldCmds(sec: Section, fs: seq<Field>): seq<Cmd> {
    if fs == [] then []
    else
      (match fs[0]
       case One(n, v) => [Set(Opt(sec, n), v)]
       case Many(n, vs) => AddLists(Opt(sec, n), vs)) + FieldCmds(sec, fs[1..])
  }

  /** The declaration of a section, then its options in order. */
  function PieceCmds(p: Piece): seq<Cmd> {
    [Set(Decl(p.sec), p.kind)] + FieldCmds(p.sec, p.fields)
  }

  function Cmds(ps: seq<Piece>): seq<Cmd> {
    if ps == [] then [] else PieceCmds(ps[0]) + Cmds(ps[1..])
  }

  // --- the sections of one SSID --------------------------------------------

  const OWNER_FIELD := One("owner", OWNER)

  function Net(s: string, suffix: string): Section { Section("network", PREFIX + s + suffix) }

  function Fw(s: string, suffix: string): Section { Section("firewall", PREFIX + s + suffix) }

  function IfName(s: string): string { PREFIX + s + "_if" }

  function DevPiece(s: Ssid): Piece {
    Piece(Net(s.slug, "_dev"), "device", [One("name", s.bridge), One("type", "bridge"), OWNER_FIELD])
  }

  function IfPiece(s: Ssid): Piece {
    Piece(Net(s.slug, "_if"), "interface",
          [One("device", s.bridge), One("proto", "static"), One("ipaddr", s.ipaddr), One("netmask", s.netmask),
           OWNER_FIELD])
  }

  function ApSection(s: string, i: nat): Section {
    Section("wireless", PREFIX + s + "_ap" + PrintNat(i))
  }

  function PmfFields(s: Ssid): seq<Field> {
    (if Encryption(s) == "sae" then [One("ieee80211w", "2")]
     else if Encryption(s) == "sae-mixed" then [One("ieee80211w", "1")] else [])
    + (if s.pmf != "" then [One("ieee80211w", s.pmf)] else [])
  }

  function LowerAll(ms: seq<string>): seq<string> {
    if ms == [] then [] else [Lower(ms[0])] + LowerAll(ms[1..])
  }

  function MacFields(s: Ssid): seq<Field> {
    if s.macList != [] && (s.macPolicy == "allow" || s.macPolicy == "deny") then
      [One("macfilter", s.macPolicy), Many(MACLIST, LowerAll(s.macList))]
    else []
  }

  function ApFields(s: Ssid, radio: string): seq<Field> {
    [One("device", radio), One("mode", Mode(s)), One("network", IfName(s.slug)), One("ssid", s.ssid),
     One("encryption", Encryption(s))]
    + (if Encryption(s) != "none" then [One("key", s.key)] else [])
    + [One("isolate", if s.isolate then "1" else "0")]
    + (if s.hidden then [One("hidden", "1")] else [])
    + PmfFields(s)
    + (if s.fastTransition then [One("ieee80211r", "1")] else [])
    + (if s.maxClients > 0 then [One("maxassoc", PrintNat(s.maxClients))] else [])
    + MacFields(s)
    + [OWNER_FIELD]
  }

  function ApPiece(s: Ssid, i: nat): Piece
    requires i < |EffectiveRadios(s)|
  {
    Piece(ApSection(s.slug, i), "wifi-iface", ApFields(s, EffectiveRadios(s)[i]))
  }

  function ApPieces(s: Ssid, n: nat): seq<Piece>
    requires n <= |EffectiveRadios(s)|
  {
    if n == 0 then [] else ApPieces(s, n - 1) + [ApPiece(s, n - 1)]
  }

  function DhcpPiece(s: Ssid): Piece {
    Piece(Section("dhcp", PREFIX + s.slug), "dhcp",
          [One("interface", IfName(s.slug)), One("start", s.dhcpStart), One("limit", s.dhcpLimit),
           One("leasetime", s.leasetime), One("dhcpv6", "disabled"), OWNER_FIELD])
  }

  function HostPiece(s: Ssid, i: nat): Piece
    requires i < |s.reservations|
  {
    var r := s.reservations[i];
    Piece(Section("dhcp", PREFIX + s.slug + "_host" + PrintNat(i)), "host",
          [One("mac", Lower(r.mac)), One("ip", r.ipaddr)]
          + (if r.hostname != "" then [One("name", r.hostname)] else []) + [OWNER_FIELD])
  }

  function HostPieces(s: Ssid, n: nat): seq<Piece>
    requires n <= |s.reservations|
  {
    if n == 0 then [] else HostPieces(s, n - 1) + [HostPiece(s, n - 1)]
  }

  function DhcpPieces(s: Ssid): seq<Piece> {
    if s.dhcpDisabled then [] else [DhcpPiece(s)] + HostPieces(s, |s.reservations|)
  }

  function ZonePiece(s: Ssid): Piece {
    Piece(Fw(s.slug, "_zone"), "zone",
          [One("name", s.slug), One("network", IfName(s.slug)), One("input", "REJECT"), One("output", "ACCEPT"),
           One("forward", "REJECT"), OWNER_FIELD])
  }

  function FwdPiece(s: Ssid): Piece {
    Piece(Fw(s.slug, "_fwd"), "forwarding", [One("src", s.slug), One("dest", Egress(s)), OWNER_FIELD])
  }

  function RulePiece(s: Ssid, suffix: string, tag: string, proto: string, port: string): Piece {
    Piece(Fw(s.slug, suffix), "rule",
          [One("name", "Allow-" + s.slug + tag), One("src", s.slug), One("proto", proto), One("dest_port", port),
           One("target", "ACCEPT"), OWNER_FIELD])
  }

  function PortalPieces(s: Ssid, port: nat): seq<Piece> {
    if s.gated then [PortalRule(s, port)] else []
  }

  function AllowPiece(s: Ssid, i: nat): Piece
    requires i < |s.targets|
  {
    Piece(Fw(s.slug, "_allow" + PrintNat(i)), "rule",
          [One("name", "Allow-" + s.slug + "-int" + PrintNat(i)), One("src", s.slug), One("dest", s.targets[i].zone),
           One("dest_ip", s.targets[i].cidr), One("target", "ACCEPT"), OWNER_FIELD])
  }

  function AllowPieces(s: Ssid, n: nat): seq<Piece>
    requires n <= |s.targets|
  {
    if n == 0 then [] else AllowPieces(s, n - 1) + [AllowPiece(s, n - 1)]
  }

  function SqmPieces(s: Ssid): seq<Piece> {
    if s.rateDown > 0 || s.rateUp > 0 then
      [Piece(Section("sqm", PREFIX + s.slug), "queue",
             [One("interface", s.bridge), One("enabled", "1"), One("download", PrintNat(s.rateDown)),
              One("upload", PrintNat(s.rateUp)), One("qdisc", "cake"), One("script", "piece_of_cake.qos"),
              OWNER_FIELD])]
    else []
  }

  function DhcpRule(s: Ssid): Piece { RulePiece(s, "_dhcp", "-DHCP", "udp", "67") }

  function DnsRule(s: Ssid): Piece { RulePiece(s, "_dns", "-DNS", "tcp udp", "53") }

  function PortalRule(s: Ssid, port: nat): Piece { RulePiece(s, "_portal", "-portal", "tcp", PrintNat(port)) }

  function ZonePieces(s: Ssid): seq<Piece> { [ZonePiece(s), FwdPiece(s), DhcpRule(s), DnsRule(s)] }

  function FirewallPieces(s: Ssid, port: nat): seq<Piece> {
    ZonePieces(s) + PortalPieces(s, port) + AllowPieces(s, |s.targets|)
  }

  function SsidPieces(s: Ssid, port: nat): seq<Piece> {
    [DevPiece(s), IfPiece(s)] + ApPieces(s, |EffectiveRadios(s)|) + DhcpPieces(s) + FirewallPieces(s, port)
    + SqmPieces(s)
  }

  function PeerPiece(p: PeerAllow): Piece {
    Piece(Section("firewall", PREFIX + "peer_" + p.from + "_" + p.to), "forwarding",
          [One("src", p.from), One("dest", p.to), OWNER_FIELD])
  }

  function SsidsPieces(ssids: seq<Ssid>, port: nat): seq<Piece> {
    if ssids == [] then []
    else SsidsPieces(ssids[..|ssids| - 1], port) + SsidPieces(ssids[|ssids| - 1], port)
  }

  function PeersPieces(peers: seq<PeerAllow>): seq<Piece> {
    if peers == [] then [] else PeersPieces(peers[..|peers| - 1]) + [PeerPiece(peers[|peers| - 1])]
  }

  /** Every SSID's sections, then every inter-SSID forwarding. */
  function StatePieces(st: State, port: nat): seq<Piece> {
    SsidsPieces(st.ssids, port) + PeersPieces(st.peers)
  }

  function RenderDeletes(secs: seq<Section>): seq<Cmd> {
    if secs == [] then [] else [Delete(Decl(secs[0]))] + RenderDeletes(secs[1..])
  }

  /** The sections a batch declares, in order. */
  function SectionDecls(cmds: seq<Cmd>): seq<Section> {
    if cmds == [] then []
    else (if cmds[0].Set? && cmds[0].key.Decl? then [cmds[0].key.sec] else []) + SectionDecls(cmds[1..])
  }

  function SectionsOf(ps: seq<Piece>): seq<Section> {
    if ps == [] then [] else [ps[0].sec] + SectionsOf(ps[1..])
  }

  lemma {:induction false} CmdsAppend(a: seq<Piece>, b: seq<Piece>)
    ensures Cmds(a + b) == Cmds(a) + Cmds(b)
  {
    hide PieceCmds;
    if a == [] {
      assert a + b == b;
    } else {
      CmdsAppend(a[1..], b);
      assert (a + b)[1..] == a[1..] + b;
    }
  }

  lemma CmdsOne(p: Piece)
    ensures Cmds([p]) == PieceCmds(p)
  {
    assert [p][1..] == [];
  }

  /** The renderer: SSID by SSID, and within one SSID radio by radio, reservation by reservation, target by
      target, pushing onto one batch. */
  method RenderSsid(s: Ssid, port: nat) returns (c: seq<Cmd>)
    ensures c == Cmds(SsidPieces(s, port))
  {
    hide Cmds, PieceCmds, ApPieces, HostPieces, AllowPieces, FirewallPieces, DevPiece, IfPiece, DhcpPiece;
    c := PieceCmds(DevPiece(s)) + PieceCmds(IfPiece(s));
    ghost var ps := [DevPiece(s), IfPiece(s)];
    CmdsAppend([DevPiece(s)], [IfPiece(s)]);
    CmdsOne(DevPiece(s));
    CmdsOne(IfPiece(s));
    assert [DevPiece(s)] + [IfPiece(s)] == ps;
    c := PushAps(s, ps, c);
    ps := ps + ApPieces(s, |EffectiveRadios(s)|);
    if !s.dhcpDisabled {
      c := Push(DhcpPiece(s), ps, c);
      c := PushHosts(s, ps + [DhcpPiece(s)], c);
      assert ps + [DhcpPiece(s)] + HostPieces(s, |s.reservations|) == ps + DhcpPieces(s);
    } else {
      assert ps + DhcpPieces(s) == ps;
    }
    ps := ps + DhcpPieces(s);
    c := PushFirewall(s, port, ps, c);
    ps := ps + FirewallPieces(s, port);
    if s.rateDown > 0 || s.rateUp > 0 {
      c := Push(SqmPieces(s)[0], ps, c);
      assert ps + [SqmPieces(s)[0]] == ps + SqmPieces(s);
    } else {
      assert ps + SqmPieces(s) == ps;
    }
  }

  method Push(p: Piece, ghost ps: seq<Piece>, c0: seq<Cmd>) returns (c: seq<Cmd>)
    requires c0 == Cmds(ps)
    ensures c == Cmds(ps + [p])
  {
    c := c0 + PieceCmds(p);
    CmdsAppend(ps, [p]);
    CmdsOne(p);
  }

  method PushAps(s: Ssid, ghost ps: seq<Piece>, c0: seq<Cmd>) returns (c: seq<Cmd>)
    requires c0 == Cmds(ps)
    ensures c == Cmds(ps + ApPieces(s, |EffectiveRadios(s)|))
  {
    hide Cmds, ApPiece, EffectiveRadios;
    c := c0;
    assert ps + ApPieces(s, 0) == ps;
    for i := 0 to |EffectiveRadios(s)|
      invariant c == Cmds(ps + ApPieces(s, i))
    {
      c := Push(ApPiece(s, i), ps + ApPieces(s, i), c);
      assert ps + ApPieces(s, i) + [ApPiece(s, i)] == ps + ApPieces(s, i + 1);
    }
  }

  method PushHosts(s: Ssid, ghost ps: seq<Piece>, c0: seq<Cmd>) returns (c: seq<Cmd>)
    requires c0 == Cmds(ps)
    ensures c == Cmds(ps + HostPieces(s, |s.reservations|))
  {
    hide Cmds, HostPiece;
    c := c0;
    assert ps + HostPieces(s, 0) == ps;
    for i := 0 to |s.reservations|
      invariant c == Cmds(ps + HostPieces(s, i))
    {
      c := Push(HostPiece(s, i), ps + HostPieces(s, i), c);
      assert ps + HostPieces(s, i) + [HostPiece(s, i)] == ps + HostPieces(s, i + 1);
    }
  }

  method PushZone(s: Ssid, ghost ps: seq<Piece>, c0: seq<Cmd>) returns (c: seq<Cmd>)
    requires c0 == Cmds(ps)
    ensures c == Cmds(ps + ZonePieces(s))
  {
    hide Cmds, ZonePiece, FwdPiece, DhcpRule, DnsRule;
    var zone, fwd, dhcp, dns := ZonePiece(s), FwdPiece(s), DhcpRule(s), DnsRule(s);
    c := Push(zone, ps, c0);
    c := Push(fwd, ps + [zone], c);
    c := Push(dhcp, ps + [zone] + [fwd], c);
    c := Push(dns, ps + [zone] + [fwd] + [dhcp], c);
    assert ps + [zone] + [fwd] + [dhcp] + [dns] == ps + [zone, fwd, dhcp, dns];
  }

  method PushAllows(s: Ssid, ghost ps: seq<Piece>, c0: seq<Cmd>) returns (c: seq<Cmd>)
    requires c0 == Cmds(ps)
    ensures c == Cmds(ps + AllowPieces(s, |s.targets|))
  {
    hide Cmds, AllowPiece;
    c := c0;
    assert ps + AllowPieces(s, 0) == ps;
    for i := 0 to |s.targets|
      invariant c == Cmds(ps + AllowPieces(s, i))
    {
      c := Push(AllowPiece(s, i), ps + AllowPieces(s, i), c);
      assert ps + AllowPieces(s, i) + [AllowPiece(s, i)] == ps + AllowPieces(s, i + 1);
    }
  }

  method PushFirewall(s: Ssid, port: nat, ghost ps: seq<Piece>, c0: seq<Cmd>) returns (c: seq<Cmd>)
    requires c0 == Cmds(ps)
    ensures c == Cmds(ps + FirewallPieces(s, port))
  {
    hide Cmds, ZonePieces, AllowPieces, PortalRule;
    c := PushZone(s, ps, c0);
    ghost var ps1 := ps + ZonePieces(s);
    if s.gated {
      c := Push(PortalRule(s, port), ps1, c);
    } else {
      assert ps1 + PortalPieces(s, port) == ps1;
    }
    c := PushAllows(s, ps1 + PortalPieces(s, port), c);
    assert ps1 + PortalPieces(s, port) + AllowPieces(s, |s.targets|) == ps + FirewallPieces(s, port);
  }

  method RenderSsids(ssids: seq<Ssid>, port: nat) returns (c: seq<Cmd>)
    ensures c == Cmds(SsidsPieces(ssids, port))
  {
    hide PieceCmds, SsidPieces;
    c := [];
    for i := 0 to |ssids|
      invariant c == Cmds(SsidsPieces(ssids[..i], port))
    {
      var one := RenderSsid(ssids[i], port);
      c := c + one;
      CmdsAppend(SsidsPieces(ssids[..i], port), SsidPieces(ssids[i], port));
      assert ssids[..i + 1][..i] == ssids[..i];
    }
    assert ssids[..|ssids|] == ssids;
  }

  method RenderWireless(st: State, port: nat) returns (c: seq<Cmd>)
    ensures c == Cmds(StatePieces(st, port))
  {
    hide Cmds, SsidsPieces, PeerPiece;
    c := RenderSsids(st.ssids, port);
    ghost var ps := SsidsPieces(st.ssids, port);
    assert ps + PeersPieces(st.peers[..0]) == ps;
    for i := 0 to |st.peers|
      invariant c == Cmds(ps + PeersPieces(st.peers[..i]))
    {
      c := Push(PeerPiece(st.peers[i]), ps + PeersPieces(st.peers[..i]), c);
      assert st.peers[..i + 1][..i] == st.peers[..i];
      assert ps + PeersPieces(st.peers[..i]) + [PeerPiece(st.peers[i])] == ps + PeersPieces(st.peers[..i + 1]);
    }
    assert st.peers[..|st.peers|] == st.peers;
  }
}
