/** Which rendered values the text forms carry: what validation discharges, and exactly what it leaves open. */
module RenderSafe {
  import opened Text
  import opened Uci
  import opened Wireless
  import opened Validate
  import opened Converge

  // --- the fields validation does not make safe ----------------------------

  /** Free text (SSID, key), addresses let through with white space around them, and two fields that validation
      does not look into at all: a reservation's hostname and an internal target's zone. */
  predicate WireSafeSsid(s: Ssid) {
    && ValueOk(s.ssid) && (Encryption(s) != "none" ==> ValueOk(s.key))
    && ValueOk(s.ipaddr) && ValueOk(s.netmask)
    && (!s.dhcpDisabled ==> forall r :: r in s.reservations ==> ValueOk(r.ipaddr) && ValueOk(r.hostname))
    && forall t :: t in s.targets ==> ValueOk(t.zone)
  }

  predicate NameText(s: string) {
    forall c :: c in s ==> NameChar(c)
  }

  /** When there are no SSIDs the peer pairs are not looked at either, and their texts end up in section names. */
  predicate WireSafe(st: State) {
    && (forall s :: s in st.ssids ==> WireSafeSsid(s))
    && (st.ssids == [] ==> forall q :: q in st.peers ==> NameText(q.from) && NameText(q.to))
  }

  predicate ValuesSafe(cmds: seq<Cmd>) {
    forall c :: c in cmds ==> c.Delete? || ValueOk(c.value)
  }

  // --- characters ----------------------------------------------------------

  lemma PlainName(c: char)
    requires IsAlphaNum(c) || c == '_' || c == '-' || c == ':'
    ensures NameChar(c)
  {
  }

  predicate Plain(s: string) {
    forall c :: c in s ==> IsAlphaNum(c) || c == '_' || c == '-' || c == ':'
  }

  lemma PlainOk(s: string)
    requires Plain(s)
    ensures (s != "" ==> NameOk(s)) && ValueOk(s)
  {
    forall c | c in s ensures NameChar(c) {
      PlainName(c);
    }
  }

  lemma PlainJoin(a: string, b: string)
    requires Plain(a) && Plain(b)
    ensures Plain(a + b)
  {
  }

  lemma {:induction false} LowerPlain(s: string)
    ensures Plain(s) <==> Plain(Lower(s))
    ensures Lower(s) == "" <==> s == ""
  {
    if s != "" {
      LowerPlain(s[1..]);
      assert forall c :: c in s <==> c == s[0] || c in s[1..];
      assert forall c :: c in Lower(s) <==> c == Lower(s)[0] || c in Lower(s[1..]);
    }
  }

  lemma {:induction false} SplitChars(s: string, sep: char, c: char)
    requires c in s
    ensures c == sep || exists p :: p in Split(s, sep) && c in p
    decreases |s|
  {
    var i := Find(s, sep);
    if i < |s| && c !in s[..i] && c != sep {
      assert s == s[..i] + [sep] + s[i + 1..];
      SplitChars(s[i + 1..], sep, c);
      assert forall p :: p in Split(s[i + 1..], sep) ==> p in Split(s, sep);
    } else if c != sep {
      assert (if i < |s| then s[..i] else s) in Split(s, sep);
    }
  }

  lemma MacPlain(m: string)
    requires IsMac(m)
    ensures Plain(m) && m != ""
  {
    forall c | c in m ensures IsAlphaNum(c) || c == ':' {
      SplitChars(m, ':', c);
    }
    assert m == "" ==> Split(m, ':') == [""];
  }

  lemma {:induction false} OctetParts(parts: seq<string>)
    requires Octets(parts).Some?
    ensures forall p :: p in parts ==> AllDigits(p)
  {
    if parts != [] {
      OctetParts(parts[..|parts| - 1]);
      assert forall p :: p in parts ==> p in parts[..|parts| - 1] || p == parts[|parts| - 1];
    }
  }

  lemma Ipv4Chars(s: string)
    requires ParseIpv4(s).Some?
    ensures forall c :: c in Trim(s) ==> IsDigit(c) || c == '.'
  {
    OctetParts(Split(Trim(s), '.'));
    forall c | c in Trim(s) ensures IsDigit(c) || c == '.' {
      SplitChars(Trim(s), '.', c);
    }
  }

  lemma {:induction false} NoWhiteTrim(s: string)
    requires !HasWhite(s)
    ensures Trim(s) == s
  {
    if s != "" {
      assert s[0] in s && s[|s| - 1] in s;
    }
  }

  lemma CidrOk(s: string)
    requires IsIpv4OrCidr(s)
    ensures ValueOk(s)
  {
    assert '\n' !in s && '\r' !in s by {
      assert IsControl('\n') && IsControl('\r');
    }
    if '\'' in s {
      match SplitOnce(s, '/') {
        case None =>
          NoWhiteTrim(s);
          Ipv4Chars(s);
        case Some((ip, prefix)) =>
          assert !HasWhite(ip) by {
            assert forall c :: c in ip ==> c in s;
          }
          NoWhiteTrim(ip);
          Ipv4Chars(ip);
      }
    }
  }

  lemma LeasetimeOk(s: string)
    requires !HasWhite(s) && !HasControl(s) && IsLeasetime(s)
    ensures ValueOk(s)
  {
    NoWhiteTrim(s);
    if Lower(s) == "infinite" {
      assert Plain("infinite");
      LowerPlain(s);
      PlainOk(s);
    } else {
      var num := if s[|s| - 1] in "smhd" then s[..|s| - 1] else s;
      assert Plain(s) by {
        assert forall c :: c in s ==> c in num || c == s[|s| - 1];
      }
      PlainOk(s);
    }
  }

  lemma DigitsPlain(s: string)
    requires AllDigits(s)
    ensures Plain(s)
  {
  }

  lemma NatPlain(n: nat)
    ensures Plain(PrintNat(n)) && PrintNat(n) != ""
  {
  }

  lemma SlugPlain(s: string)
    requires IsSlug(s)
    ensures Plain(s) && s != ""
  {
  }

  lemma IdentPlain(s: string)
    requires IsIdent(s)
    ensures Plain(s) && s != ""
  {
  }

  // --- pieces --------------------------------------------------------------

  predicate OptionName(n: string) {
    Plain(n) && n != "" && n != MACLIST
  }

  predicate FieldOk(sec: Section, f: Field) {
    match f
    case One(n, v) => OptionName(n) && ScalarOk(Opt(sec, n), v)
    case Many(n, vs) => n == MACLIST && forall v :: v in vs ==> NameOk(v)
  }

  predicate PieceOk(p: Piece) {
    && NameOk(p.sec.name) && Plain(p.kind) && p.kind != ""
    && forall f :: f in p.fields ==> FieldOk(p.sec, f)
  }

  lemma {:induction false} AddListsOk(k: Key, vs: seq<string>, secs: set<Section>)
    requires Owned(k.sec) && IsMaclist(k) && KeyOk(k) && forall v :: v in vs ==> NameOk(v)
    ensures CmdsOk(AddLists(k, vs), secs)
  {
    if vs != [] {
      assert vs[0] in vs;
      AddListsOk(k, vs[1..], secs);
    }
  }

  lemma {:induction false} FieldsOk(sec: Section, fs: seq<Field>, secs: set<Section>)
    requires Owned(sec) && KeyOk(Decl(sec)) && forall f :: f in fs ==> FieldOk(sec, f)
    ensures CmdsOk(FieldCmds(sec, fs), secs)
  {
    hide NameOk, ScalarOk, Owned, Plain;
    if fs != [] {
      assert fs[0] in fs;
      match fs[0] {
        case One(n, v) => PlainOk(n);
        case Many(n, vs) =>
          MaclistName();
          AddListsOk(Opt(sec, n), vs, secs);
      }
      FieldsOk(sec, fs[1..], secs);
    }
  }

  lemma MaclistName()
    ensures NameOk(MACLIST)
  {
    PlainOk(MACLIST);
  }

  lemma OwnedKeyOk(sec: Section)
    requires Owned(sec) && NameOk(sec.name)
    ensures KeyOk(Decl(sec))
  {
    ConfigsNamed();
  }

  lemma ConfigsNamed()
    ensures forall c :: IsOwnedConfig(c) ==> NameOk(c)
  {
    PlainOk(OWNED_CONFIGS[0]);
    PlainOk(OWNED_CONFIGS[1]);
    PlainOk(OWNED_CONFIGS[2]);
    PlainOk(OWNED_CONFIGS[3]);
    PlainOk(OWNED_CONFIGS[4]);
  }

  /** Good pieces render to commands that keep every layer good. */
  lemma {:induction false} PiecesOk(ps: seq<Piece>, secs: set<Section>)
    requires AllOwned(ps) && (forall p :: p in ps ==> PieceOk(p)) && (forall s :: s in SectionsOf(ps) ==> s in secs)
    ensures CmdsOk(Cmds(ps), secs)
  {
    hide NameOk, Owned, Plain, FieldOk;
    if ps != [] {
      var p := ps[0];
      assert p in ps && p.sec in SectionsOf(ps);
      OwnedKeyOk(p.sec);
      PlainOk(p.kind);
      FieldsOk(p.sec, p.fields, secs);
      assert forall s :: s in SectionsOf(ps[1..]) ==> s in SectionsOf(ps);
      PiecesOk(ps[1..], secs);
    }
  }

  lemma {:induction false} CmdsMember(ps: seq<Piece>, p: Piece, c: Cmd)
    requires p in ps && c in PieceCmds(p)
    ensures c in Cmds(ps)
  {
    if p != ps[0] {
      CmdsMember(ps[1..], p, c);
    }
  }

  lemma {:induction false} FieldMember(sec: Section, fs: seq<Field>, n: string, v: string)
    requires One(n, v) in fs
    ensures Set(Opt(sec, n), v) in FieldCmds(sec, fs)
  {
    if One(n, v) != fs[0] {
      FieldMember(sec, fs[1..], n, v);
    }
  }

  /** A value rendered into some section is a value of the batch. */
  lemma RenderedValue(ps: seq<Piece>, p: Piece, n: string, v: string)
    requires p in ps && One(n, v) in p.fields && ValuesSafe(Cmds(ps))
    ensures ValueOk(v)
  {
    FieldMember(p.sec, p.fields, n, v);
    CmdsMember(ps, p, Set(Opt(p.sec, n), v));
  }

  // --- the sections of a valid push ----------------------------------------

  lemma NamedOk(s: string, suffix: string)
    requires Plain(s) && Plain(suffix)
    ensures Plain(PREFIX + s + suffix) && NameOk(PREFIX + s + suffix)
  {
    PlainOk(PREFIX + s + suffix);
  }

  lemma NumberedOk(s: string, suffix: string, i: nat)
    requires Plain(s) && Plain(suffix)
    ensures NameOk(PREFIX + s + suffix + PrintNat(i))
  {
    NatPlain(i);
    NamedOk(s, suffix);
    PlainJoin(PREFIX + s + suffix, PrintNat(i));
    PlainOk(PREFIX + s + suffix + PrintNat(i));
  }

  lemma IfNameOk(s: string)
    requires Plain(s)
    ensures ValueOk(IfName(s))
  {
    NamedOk(s, "_if");
    PlainOk(IfName(s));
  }

  // The fixed words of the renderer.

  lemma NamesDev()
    ensures OptionName("name") && OptionName("type") && OptionName("device")
  {
  }

  lemma NamesIf()
    ensures OptionName("proto") && OptionName("ipaddr") && OptionName("netmask") && OptionName("mode")
  {
  }

  lemma NamesAp()
    ensures OptionName("network") && OptionName("ssid") && OptionName("encryption") && OptionName("key")
  {
  }

  lemma NamesAp2()
    ensures OptionName("isolate") && OptionName("hidden") && OptionName("ieee80211w") && OptionName("ieee80211r")
  {
  }

  lemma NamesAp3()
    ensures OptionName("maxassoc") && OptionName("macfilter")
  {
  }

  lemma NamesDhcp()
    ensures OptionName("interface") && OptionName("start") && OptionName("limit") && OptionName("leasetime")
  {
  }

  lemma NamesHost()
    ensures OptionName("dhcpv6") && OptionName("mac") && OptionName("ip")
  {
  }

  lemma NamesZone()
    ensures OptionName("input") && OptionName("output") && OptionName("forward")
  {
  }

  lemma NamesFw()
    ensures OptionName("src") && OptionName("dest") && OptionName("dest_port") && OptionName("target")
  {
  }

  lemma NamesSqm()
    ensures OptionName("dest_ip") && OptionName("enabled") && OptionName("download")
  {
  }

  lemma NamesSqm2()
    ensures OptionName("upload") && OptionName("qdisc") && OptionName("script")
  {
  }

  lemma ValuesNet()
    ensures ValueOk("bridge") && ValueOk("static") && ValueOk("ap") && ValueOk("none")
  {
  }

  lemma ValuesEnc()
    ensures ValueOk("psk2") && ValueOk("psk2+ccmp") && ValueOk("sae") && ValueOk("sae-mixed")
  {
  }

  lemma ValuesFlag()
    ensures ValueOk("0") && ValueOk("1") && ValueOk("2") && ValueOk("disabled")
  {
  }

  lemma ValuesPolicy()
    ensures ValueOk("allow") && ValueOk("deny") && ValueOk("REJECT") && ValueOk("ACCEPT")
  {
  }

  lemma ValuesPort()
    ensures ValueOk("udp") && ValueOk("67") && ValueOk("tcp udp") && ValueOk("53")
  {
  }

  lemma ValuesSqm()
    ensures ValueOk("tcp") && ValueOk("cake") && ValueOk("piece_of_cake.qos")
  {
  }

  lemma Kinds()
    ensures Plain("device") && Plain("interface") && Plain("wifi-iface") && Plain("dhcp")
    ensures Plain("host")
  {
  }

  lemma Kinds2()
    ensures Plain("zone") && Plain("forwarding") && Plain("rule") && Plain("queue")
  {
  }

  lemma Suffixes()
    ensures Plain("_dev") && Plain("_if") && Plain("_ap") && Plain("_host")
    ensures Plain("_zone") && Plain("_fwd")
  {
  }

  lemma Suffixes2()
    ensures Plain("_dhcp") && Plain("_dns") && Plain("_portal") && Plain("_allow")
    ensures Plain("peer_") && Plain("_") && Plain("")
  {
  }

  lemma OwnerOk(sec: Section)
    ensures FieldOk(sec, OWNER_FIELD)
  {
    PlainOk(OWNER);
    assert OptionName("owner");
  }

  /** A field whose name is plain and whose value is safe, outside the two special keys. */
  lemma OneOk(sec: Section, n: string, v: string)
    requires OptionName(n) && ValueOk(v) && !IsRadioKey(Opt(sec, n))
    ensures FieldOk(sec, One(n, v))
  {
  }

  lemma NotRadio(sec: Section, n: string)
    requires sec.config != "wireless" || n != "device"
    ensures !IsRadioKey(Opt(sec, n))
  {
  }

  lemma SsidNames(s: Ssid)
    requires SsidOk(s)
    ensures Plain(s.slug) && Plain(s.bridge) && Plain(Egress(s))
    ensures s.slug != "" && s.bridge != "" && Egress(s) != ""
    ensures ValueOk(s.slug) && ValueOk(s.bridge) && ValueOk(Egress(s))
  {
    hide SubnetOk, TargetsOk, PoolOk, ReservationsOk, Plain, ValueOk;
    SlugPlain(s.slug);
    IdentPlain(s.bridge);
    IdentPlain(Egress(s));
    PlainOk(s.slug);
    PlainOk(s.bridge);
    PlainOk(Egress(s));
  }

  lemma AllowName(s: string, tag: string)
    requires ValueOk(s) && ValueOk(tag)
    ensures ValueOk("Allow-" + s + tag)
  {
    assert ValueOk("Allow-");
  }

  lemma NatValue(n: nat)
    ensures ValueOk(PrintNat(n))
  {
    NatPlain(n);
    PlainOk(PrintNat(n));
  }

  lemma AllowNumbered(s: string, i: nat)
    requires ValueOk(s)
    ensures ValueOk("Allow-" + s + "-int" + PrintNat(i))
  {
    NatValue(i);
    assert ValueOk("-int");
    AllowName(s, "-int" + PrintNat(i));
    assert "Allow-" + s + ("-int" + PrintNat(i)) == "Allow-" + s + "-int" + PrintNat(i);
  }

  lemma AllowSection(s: string, i: nat)
    requires Plain(s)
    ensures NameOk(PREFIX + s + ("_allow" + PrintNat(i)))
  {
    Suffixes2();
    NatPlain(i);
    PlainJoin("_allow", PrintNat(i));
    NamedOk(s, "_allow" + PrintNat(i));
  }

  lemma TargetSafe(s: Ssid, i: nat)
    requires SsidOk(s) && WireSafeSsid(s) && i < |s.targets|
    ensures ValueOk(s.targets[i].zone) && ValueOk(s.targets[i].cidr)
  {
    hide SubnetOk, IsIpv4OrCidr, ValueOk, ReservationsOk;
    assert s.targets[i] in s.targets;
    CidrOk(s.targets[i].cidr);
  }

  lemma PoolSafe(s: Ssid)
    requires SsidOk(s) && !s.dhcpDisabled
    ensures ValueOk(s.dhcpStart) && ValueOk(s.dhcpLimit) && ValueOk(s.leasetime)
  {
    hide SubnetOk, ReservationsOk, ValueOk, TargetsOk, IsLeasetime;
    DigitsPlain(s.dhcpStart);
    DigitsPlain(s.dhcpLimit);
    PlainOk(s.dhcpStart);
    PlainOk(s.dhcpLimit);
    LeasetimeOk(s.leasetime);
  }

  lemma ReservationMac(s: Ssid, r: Reservation)
    requires SubnetOk(s) && ReservationOk(s, r)
    ensures IsMac(Lower(r.mac))
  {
  }

  lemma ReservationSafe(s: Ssid, i: nat)
    requires SsidOk(s) && WireSafeSsid(s) && !s.dhcpDisabled && i < |s.reservations|
    ensures ValueOk(Lower(s.reservations[i].mac))
    ensures ValueOk(s.reservations[i].ipaddr) && ValueOk(s.reservations[i].hostname)
  {
    hide SubnetOk, ReservationOk, IsMac, ValueOk, TargetsOk;
    var r := s.reservations[i];
    assert r in s.reservations;
    ReservationMac(s, r);
    MacPlain(Lower(r.mac));
    PlainOk(Lower(r.mac));
  }

  lemma DevOk(s: Ssid)
    requires SsidOk(s)
    ensures PieceOk(DevPiece(s))
  {
    hide SsidOk, ValueOk, NameOk, Plain, OptionName, FieldOk, IsRadioKey;
    SsidNames(s);
    NamesDev();
    ValuesNet();
    Kinds();
    Suffixes();
    var sec := Net(s.slug, "_dev");
    NamedOk(s.slug, "_dev");
    NotRadio(sec, "name");
    OneOk(sec, "name", s.bridge);
    NotRadio(sec, "type");
    OneOk(sec, "type", "bridge");
    OwnerOk(sec);
  }

  lemma IfOk(s: Ssid)
    requires SsidOk(s) && WireSafeSsid(s)
    ensures PieceOk(IfPiece(s))
  {
    hide SsidOk, ValueOk, NameOk, Plain, OptionName, FieldOk, IsRadioKey;
    SsidNames(s);
    NamesDev();
    NamesIf();
    ValuesNet();
    Kinds();
    Suffixes();
    var sec := Net(s.slug, "_if");
    NamedOk(s.slug, "_if");
    NotRadio(sec, "device");
    OneOk(sec, "device", s.bridge);
    NotRadio(sec, "proto");
    OneOk(sec, "proto", "static");
    NotRadio(sec, "ipaddr");
    OneOk(sec, "ipaddr", s.ipaddr);
    NotRadio(sec, "netmask");
    OneOk(sec, "netmask", s.netmask);
    OwnerOk(sec);
  }

  lemma ZoneOk(s: Ssid)
    requires SsidOk(s)
    ensures PieceOk(ZonePiece(s))
  {
    hide SsidOk, ValueOk, NameOk, Plain, OptionName, FieldOk, IsRadioKey;
    SsidNames(s);
    NamesDev();
    NamesAp();
    NamesZone();
    ValuesPolicy();
    Kinds2();
    Suffixes();
    IfNameOk(s.slug);
    var sec := Fw(s.slug, "_zone");
    NamedOk(s.slug, "_zone");
    NotRadio(sec, "name");
    OneOk(sec, "name", s.slug);
    NotRadio(sec, "network");
    OneOk(sec, "network", IfName(s.slug));
    NotRadio(sec, "input");
    OneOk(sec, "input", "REJECT");
    NotRadio(sec, "output");
    OneOk(sec, "output", "ACCEPT");
    NotRadio(sec, "forward");
    OneOk(sec, "forward", "REJECT");
    OwnerOk(sec);
  }

  lemma FwdOk(s: Ssid)
    requires SsidOk(s)
    ensures PieceOk(FwdPiece(s))
  {
    hide SsidOk, ValueOk, NameOk, Plain, OptionName, FieldOk, IsRadioKey;
    SsidNames(s);
    NamesFw();
    Kinds2();
    Suffixes();
    var sec := Fw(s.slug, "_fwd");
    NamedOk(s.slug, "_fwd");
    NotRadio(sec, "src");
    OneOk(sec, "src", s.slug);
    NotRadio(sec, "dest");
    OneOk(sec, "dest", Egress(s));
    OwnerOk(sec);
  }

  lemma RuleOk(s: Ssid, suffix: string, tag: string, proto: string, port: string)
    requires SsidOk(s) && Plain(suffix) && ValueOk(tag) && ValueOk(proto) && ValueOk(port)
    ensures PieceOk(RulePiece(s, suffix, tag, proto, port))
  {
    hide SsidOk, ValueOk, NameOk, Plain, OptionName, FieldOk, IsRadioKey;
    SsidNames(s);
    NamesDev();
    NamesIf();
    NamesFw();
    ValuesPolicy();
    Kinds2();
    AllowName(s.slug, tag);
    var sec := Fw(s.slug, suffix);
    NamedOk(s.slug, suffix);
    NotRadio(sec, "name");
    OneOk(sec, "name", "Allow-" + s.slug + tag);
    NotRadio(sec, "src");
    OneOk(sec, "src", s.slug);
    NotRadio(sec, "proto");
    OneOk(sec, "proto", proto);
    NotRadio(sec, "dest_port");
    OneOk(sec, "dest_port", port);
    NotRadio(sec, "target");
    OneOk(sec, "target", "ACCEPT");
    OwnerOk(sec);
  }

  lemma AllowOk(s: Ssid, i: nat)
    requires SsidOk(s) && WireSafeSsid(s) && i < |s.targets|
    ensures PieceOk(AllowPiece(s, i))
  {
    hide SsidOk, ValueOk, NameOk, Plain, OptionName, FieldOk, IsRadioKey;
    SsidNames(s);
    NamesDev();
    NamesFw();
    NamesSqm();
    ValuesPolicy();
    Kinds2();
    Suffixes2();
    AllowNumbered(s.slug, i);
    TargetSafe(s, i);
    var sec := Fw(s.slug, "_allow" + PrintNat(i));
    AllowSection(s.slug, i);
    NotRadio(sec, "name");
    OneOk(sec, "name", "Allow-" + s.slug + "-int" + PrintNat(i));
    NotRadio(sec, "src");
    OneOk(sec, "src", s.slug);
    NotRadio(sec, "dest");
    OneOk(sec, "dest", s.targets[i].zone);
    NotRadio(sec, "dest_ip");
    OneOk(sec, "dest_ip", s.targets[i].cidr);
    NotRadio(sec, "target");
    OneOk(sec, "target", "ACCEPT");
    OwnerOk(sec);
  }

  lemma DhcpOk(s: Ssid)
    requires SsidOk(s) && !s.dhcpDisabled
    ensures PieceOk(DhcpPiece(s))
  {
    hide SsidOk, ValueOk, NameOk, Plain, OptionName, FieldOk, IsRadioKey;
    SsidNames(s);
    NamesDhcp();
    NamesHost();
    ValuesFlag();
    Kinds();
    Suffixes2();
    IfNameOk(s.slug);
    PoolSafe(s);
    var sec := Section("dhcp", PREFIX + s.slug);
    NamedOk(s.slug, "");
    assert PREFIX + s.slug + "" == PREFIX + s.slug;
    NotRadio(sec, "interface");
    OneOk(sec, "interface", IfName(s.slug));
    NotRadio(sec, "start");
    OneOk(sec, "start", s.dhcpStart);
    NotRadio(sec, "limit");
    OneOk(sec, "limit", s.dhcpLimit);
    NotRadio(sec, "leasetime");
    OneOk(sec, "leasetime", s.leasetime);
    NotRadio(sec, "dhcpv6");
    OneOk(sec, "dhcpv6", "disabled");
    OwnerOk(sec);
  }

  lemma HostOk(s: Ssid, i: nat)
    requires SsidOk(s) && WireSafeSsid(s) && !s.dhcpDisabled && i < |s.reservations|
    ensures PieceOk(HostPiece(s, i))
  {
    hide SsidOk, ValueOk, NameOk, Plain, OptionName, FieldOk, IsRadioKey;
    SsidNames(s);
    NamesDev();
    NamesHost();
    Kinds();
    Suffixes();
    ReservationSafe(s, i);
    var sec := Section("dhcp", PREFIX + s.slug + "_host" + PrintNat(i));
    NumberedOk(s.slug, "_host", i);
    NotRadio(sec, "mac");
    OneOk(sec, "mac", Lower(s.reservations[i].mac));
    NotRadio(sec, "ip");
    OneOk(sec, "ip", s.reservations[i].ipaddr);
    NotRadio(sec, "name");
    OneOk(sec, "name", s.reservations[i].hostname);
    OwnerOk(sec);
  }

  lemma SqmOk(s: Ssid)
    requires SsidOk(s)
    ensures forall p :: p in SqmPieces(s) ==> PieceOk(p)
  {
    hide SsidOk, ValueOk, NameOk, Plain, OptionName, FieldOk, IsRadioKey;
    SsidNames(s);
    NamesDhcp();
    NamesSqm();
    NamesSqm2();
    ValuesFlag();
    ValuesSqm();
    Kinds2();
    Suffixes2();
    NatValue(s.rateDown);
    NatValue(s.rateUp);
    var sec := Section("sqm", PREFIX + s.slug);
    NamedOk(s.slug, "");
    assert PREFIX + s.slug + "" == PREFIX + s.slug;
    NotRadio(sec, "interface");
    OneOk(sec, "interface", s.bridge);
    NotRadio(sec, "enabled");
    OneOk(sec, "enabled", "1");
    NotRadio(sec, "download");
    OneOk(sec, "download", PrintNat(s.rateDown));
    NotRadio(sec, "upload");
    OneOk(sec, "upload", PrintNat(s.rateUp));
    NotRadio(sec, "qdisc");
    OneOk(sec, "qdisc", "cake");
    NotRadio(sec, "script");
    OneOk(sec, "script", "piece_of_cake.qos");
    OwnerOk(sec);
  }

  lemma RadioOk(s: Ssid, i: nat)
    requires SsidOk(s) && i < |EffectiveRadios(s)|
    ensures NameOk(EffectiveRadios(s)[i])
  {
    hide SubnetOk, ReservationsOk, TargetsOk, PoolOk, NameOk, EffectiveRadios;
    var r := EffectiveRadios(s)[i];
    assert r in EffectiveRadios(s);
    IdentPlain(r);
    PlainOk(r);
  }

  lemma SecurityValues(s: Ssid)
    requires SsidOk(s)
    ensures ValueOk(Encryption(s)) && Mode(s) == "ap" && ValueOk(Mode(s)) && ValueOk(s.pmf)
  {
    hide SubnetOk, ReservationsOk, TargetsOk, PoolOk, ValueOk;
    ValuesNet();
    ValuesEnc();
    ValuesFlag();
    EmptyOk();
  }

  lemma EmptyOk()
    ensures ValueOk("")
  {
  }

  lemma PmfOk(s: Ssid, sec: Section)
    requires SsidOk(s)
    ensures forall f :: f in PmfFields(s) ==> FieldOk(sec, f)
  {
    hide SsidOk, ValueOk, NameOk, Plain, OptionName, FieldOk, IsRadioKey, Encryption;
    NamesAp2();
    ValuesFlag();
    SecurityValues(s);
    NotRadio(sec, "ieee80211w");
    OneOk(sec, "ieee80211w", "1");
    OneOk(sec, "ieee80211w", "2");
    OneOk(sec, "ieee80211w", s.pmf);
  }

  lemma {:induction false} MacsOk(ms: seq<string>)
    requires forall m :: m in ms ==> IsMac(m)
    ensures forall x :: x in LowerAll(ms) ==> NameOk(x)
  {
    hide IsMac, NameOk, Plain;
    if ms != [] {
      assert ms[0] in ms;
      MacPlain(ms[0]);
      LowerPlain(ms[0]);
      PlainOk(Lower(ms[0]));
      MacsOk(ms[1..]);
    }
  }

  lemma PolicyMacs(s: Ssid)
    requires SsidOk(s) && (s.macPolicy == "allow" || s.macPolicy == "deny")
    ensures forall m :: m in s.macList ==> IsMac(m)
  {
    hide SubnetOk, ReservationsOk, TargetsOk, PoolOk, IsMac;
    assert s.macPolicy !in {"", "disable"};
  }

  lemma MacFieldsOk(s: Ssid, sec: Section)
    requires SsidOk(s)
    ensures forall f :: f in MacFields(s) ==> FieldOk(sec, f)
  {
    hide SsidOk, ValueOk, NameOk, Plain, OptionName, LowerAll, IsMac;
    if s.macList != [] && (s.macPolicy == "allow" || s.macPolicy == "deny") {
      PolicyMacs(s);
      MacsOk(s.macList);
      NamesAp3();
      ValuesPolicy();
      OneOk(sec, "macfilter", s.macPolicy);
    }
  }

  lemma ApCoreOk(s: Ssid, i: nat, sec: Section)
    requires SsidOk(s) && WireSafeSsid(s) && i < |EffectiveRadios(s)| && sec == ApSection(s.slug, i)
    ensures FieldOk(sec, One("device", EffectiveRadios(s)[i])) && FieldOk(sec, One("mode", Mode(s)))
    ensures FieldOk(sec, One("network", IfName(s.slug))) && FieldOk(sec, One("ssid", s.ssid))
    ensures FieldOk(sec, One("encryption", Encryption(s)))
    ensures Encryption(s) != "none" ==> FieldOk(sec, One("key", s.key))
  {
    hide SsidOk, ValueOk, NameOk, Plain, OptionName, Encryption, EffectiveRadios;
    SsidNames(s);
    SecurityValues(s);
    IfNameOk(s.slug);
    NamesDev();
    NamesIf();
    NamesAp();
    RadioOk(s, i);
    assert IsRadioKey(Opt(sec, "device"));
    OneOk(sec, "mode", Mode(s));
    OneOk(sec, "network", IfName(s.slug));
    OneOk(sec, "ssid", s.ssid);
    OneOk(sec, "encryption", Encryption(s));
    if Encryption(s) != "none" {
      OneOk(sec, "key", s.key);
    }
  }

  lemma ApFlagsOk(s: Ssid, sec: Section)
    ensures FieldOk(sec, One("isolate", "0")) && FieldOk(sec, One("isolate", "1")) && FieldOk(sec, One("hidden", "1"))
    ensures FieldOk(sec, One("ieee80211r", "1")) && FieldOk(sec, One("maxassoc", PrintNat(s.maxClients)))
  {
    hide ValueOk, NameOk, Plain, OptionName, FieldOk;
    NamesAp2();
    NamesAp3();
    ValuesFlag();
    NatValue(s.maxClients);
    OneOk(sec, "isolate", "0");
    OneOk(sec, "isolate", "1");
    OneOk(sec, "hidden", "1");
    OneOk(sec, "ieee80211r", "1");
    OneOk(sec, "maxassoc", PrintNat(s.maxClients));
  }

  lemma ApOk(s: Ssid, i: nat)
    requires SsidOk(s) && WireSafeSsid(s) && i < |EffectiveRadios(s)|
    ensures PieceOk(ApPiece(s, i))
  {
    hide SsidOk, ValueOk, NameOk, Plain, FieldOk, Encryption, EffectiveRadios, MacFields, PmfFields, WireSafeSsid;
    var sec := ApSection(s.slug, i);
    SsidNames(s);
    Kinds();
    Suffixes();
    NumberedOk(s.slug, "_ap", i);
    ApCoreOk(s, i, sec);
    ApFlagsOk(s, sec);
    PmfOk(s, sec);
    MacFieldsOk(s, sec);
    OwnerOk(sec);
  }

  lemma NameTextOk(s: string)
    requires NameText(s)
    ensures ValueOk(s)
  {
  }

  lemma SlugNamed(s: string)
    requires IsSlug(s)
    ensures NameText(s)
  {
    SlugPlain(s);
    PlainOk(s);
  }

  /** The section name of a pair is a name exactly when both texts are made of name characters. */
  lemma PeerSectionNamed(q: PeerAllow)
    ensures NameOk(PeerPiece(q).sec.name) <==> NameText(q.from) && NameText(q.to)
  {
    hide NameChar;
    var name := PeerPiece(q).sec.name;
    assert NameText(PREFIX + "peer_") && NameText("_") by {
      PlainOk(PREFIX + "peer_");
      PlainOk("_");
    }
    assert name == (PREFIX + "peer_") + q.from + "_" + q.to;
    assert forall c :: c in name <==> c in PREFIX + "peer_" || c in q.from || c in "_" || c in q.to;
  }

  lemma PeerOkPiece(q: PeerAllow)
    requires NameText(q.from) && NameText(q.to)
    ensures PieceOk(PeerPiece(q))
  {
    hide ValueOk, NameOk, NameText, Plain, OptionName, FieldOk, IsRadioKey;
    NameTextOk(q.from);
    NameTextOk(q.to);
    PeerSectionNamed(q);
    NamesFw();
    Kinds2();
    var sec := PeerPiece(q).sec;
    NotRadio(sec, "src");
    NotRadio(sec, "dest");
    OneOk(sec, "src", q.from);
    OneOk(sec, "dest", q.to);
    OwnerOk(sec);
  }

  // --- a whole push --------------------------------------------------------

  lemma {:induction false} ApsOk(s: Ssid, n: nat)
    requires SsidOk(s) && WireSafeSsid(s) && n <= |EffectiveRadios(s)|
    ensures forall p :: p in ApPieces(s, n) ==> PieceOk(p)
  {
    hide SsidOk, WireSafeSsid, EffectiveRadios, PieceOk;
    if n > 0 {
      ApsOk(s, n - 1);
      ApOk(s, n - 1);
    }
  }

  lemma {:induction false} HostsOk(s: Ssid, n: nat)
    requires SsidOk(s) && WireSafeSsid(s) && !s.dhcpDisabled && n <= |s.reservations|
    ensures forall p :: p in HostPieces(s, n) ==> PieceOk(p)
  {
    hide SsidOk, WireSafeSsid, PieceOk;
    if n > 0 {
      HostsOk(s, n - 1);
      HostOk(s, n - 1);
    }
  }

  lemma {:induction false} AllowsOk(s: Ssid, n: nat)
    requires SsidOk(s) && WireSafeSsid(s) && n <= |s.targets|
    ensures forall p :: p in AllowPieces(s, n) ==> PieceOk(p)
  {
    hide SsidOk, WireSafeSsid, PieceOk;
    if n > 0 {
      AllowsOk(s, n - 1);
      AllowOk(s, n - 1);
    }
  }

  lemma SsidPiecesOk(s: Ssid, port: nat)
    requires SsidOk(s) && WireSafeSsid(s)
    ensures forall p :: p in SsidPieces(s, port) ==> PieceOk(p)
  {
    hide SsidOk, WireSafeSsid, PieceOk, EffectiveRadios, ApPieces, HostPieces, AllowPieces, DevPiece, IfPiece,
         ZonePiece, FwdPiece, RulePiece, DhcpPiece, SqmPieces, Plain, ValueOk;
    DevOk(s);
    IfOk(s);
    ApsOk(s, |EffectiveRadios(s)|);
    ZoneOk(s);
    FwdOk(s);
    RulesOk(s, port);
    AllowsOk(s, |s.targets|);
    SqmOk(s);
    if !s.dhcpDisabled {
      DhcpOk(s);
      HostsOk(s, |s.reservations|);
    }
  }

  lemma RulesOk(s: Ssid, port: nat)
    requires SsidOk(s)
    ensures PieceOk(DhcpRule(s)) && PieceOk(DnsRule(s)) && PieceOk(PortalRule(s, port))
  {
    hide SsidOk, PieceOk, RulePiece, Plain, ValueOk;
    Suffixes2();
    ValuesPort();
    ValuesSqm();
    NatValue(port);
    Tags();
    RuleOk(s, "_dhcp", "-DHCP", "udp", "67");
    RuleOk(s, "_dns", "-DNS", "tcp udp", "53");
    RuleOk(s, "_portal", "-portal", "tcp", PrintNat(port));
  }

  lemma Tags()
    ensures ValueOk("-DHCP") && ValueOk("-DNS") && ValueOk("-portal")
  {
  }

  lemma {:induction false} SsidsPiecesOk(ssids: seq<Ssid>, port: nat)
    requires forall s :: s in ssids ==> SsidOk(s) && WireSafeSsid(s)
    ensures forall p :: p in SsidsPieces(ssids, port) ==> PieceOk(p)
  {
    hide SsidOk, WireSafeSsid, PieceOk, SsidPieces;
    if ssids != [] {
      SsidsPiecesOk(ssids[..|ssids| - 1], port);
      assert ssids[|ssids| - 1] in ssids;
      SsidPiecesOk(ssids[|ssids| - 1], port);
    }
  }

  lemma {:induction false} PeersPiecesOk(peers: seq<PeerAllow>)
    requires forall q :: q in peers ==> NameText(q.from) && NameText(q.to)
    ensures forall p :: p in PeersPieces(peers) ==> PieceOk(p)
  {
    hide NameText, PieceOk, PeerPiece;
    if peers != [] {
      PeersPiecesOk(peers[..|peers| - 1]);
      assert peers[|peers| - 1] in peers;
      PeerOkPiece(peers[|peers| - 1]);
    }
  }

  /** The parts of validity the renderer relies on. */
  lemma ValidParts(st: State)
    requires Valid(st)
    ensures forall s :: s in st.ssids ==> SsidOk(s)
    ensures st.ssids != [] ==> forall p :: p in st.peers ==> PeerOk(st.ssids, p)
  {
    hide SsidOk, Apart, PeerOk;
  }

  /** The pairs of a push beside SSIDs are pairs of slugs. */
  lemma PeerTexts(st: State)
    requires Valid(st) && st.ssids != []
    ensures forall q :: q in st.peers ==> NameText(q.from) && NameText(q.to)
  {
    hide IsSlug, NameText, Valid, SsidOk, HasSlug;
    ValidParts(st);
    forall q | q in st.peers ensures NameText(q.from) && NameText(q.to) {
      assert PeerOk(st.ssids, q);
      SlugNamed(q.from);
      SlugNamed(q.to);
    }
  }

  lemma StatePiecesOk(st: State, port: nat)
    requires Valid(st) && WireSafe(st)
    ensures forall p :: p in StatePieces(st, port) ==> PieceOk(p)
  {
    hide SsidOk, WireSafeSsid, PieceOk, Valid, NameText, SsidsPieces, PeersPieces;
    ValidParts(st);
    SsidsPiecesOk(st.ssids, port);
    if st.ssids != [] {
      PeerTexts(st);
    }
    PeersPiecesOk(st.peers);
  }

  /** Every command of a valid push with safe free text keeps every layer good. */
  lemma PushCmdsOk(st: State, port: nat, secs: set<Section>)
    requires Valid(st) && WireSafe(st)
    requires forall s :: s in SectionDecls(Cmds(StatePieces(st, port))) ==> s in secs
    ensures CmdsOk(Cmds(StatePieces(st, port)), secs)
  {
    hide Valid, WireSafe, PieceOk, StatePieces;
    StatePiecesOk(st, port);
    RenderOwned(st, port);
    DeclsAreSections(StatePieces(st, port));
    PiecesOk(StatePieces(st, port), secs);
  }

  // --- exactly what validation leaves open ---------------------------------

  lemma {:induction false} SsidMember(ssids: seq<Ssid>, s: Ssid, port: nat, p: Piece)
    requires s in ssids && p in SsidPieces(s, port)
    ensures p in SsidsPieces(ssids, port)
  {
    hide SsidPieces;
    var n := |ssids| - 1;
    if s != ssids[n] {
      assert ssids == ssids[..n] + [ssids[n]];
      SsidMember(ssids[..n], s, port, p);
    }
  }

  lemma {:induction false} ApMember(s: Ssid, n: nat, i: nat)
    requires i < n <= |EffectiveRadios(s)|
    ensures ApPiece(s, i) in ApPieces(s, n)
  {
    hide ApPiece, EffectiveRadios;
    if i < n - 1 {
      ApMember(s, n - 1, i);
    }
  }

  lemma {:induction false} HostMember(s: Ssid, n: nat, i: nat)
    requires i < n <= |s.reservations|
    ensures HostPiece(s, i) in HostPieces(s, n)
  {
    hide HostPiece;
    if i < n - 1 {
      HostMember(s, n - 1, i);
    }
  }

  lemma {:induction false} AllowMember(s: Ssid, n: nat, i: nat)
    requires i < n <= |s.targets|
    ensures AllowPiece(s, i) in AllowPieces(s, n)
  {
    hide AllowPiece;
    if i < n - 1 {
      AllowMember(s, n - 1, i);
    }
  }

  lemma SsidPiecesParts(s: Ssid, port: nat)
    ensures IfPiece(s) in SsidPieces(s, port)
    ensures forall p :: p in ApPieces(s, |EffectiveRadios(s)|) ==> p in SsidPieces(s, port)
    ensures forall p :: p in DhcpPieces(s) ==> p in SsidPieces(s, port)
    ensures forall p :: p in AllowPieces(s, |s.targets|) ==> p in SsidPieces(s, port)
  {
    hide DevPiece, IfPiece, ApPieces, DhcpPieces, ZonePieces, PortalPieces, AllowPieces, SqmPieces, EffectiveRadios;
  }

  lemma HasRadio(s: Ssid)
    ensures |EffectiveRadios(s)| > 0
  {
  }

  lemma ApFieldsSsid(s: Ssid, radio: string)
    ensures One("ssid", s.ssid) in ApFields(s, radio)
    ensures Encryption(s) != "none" ==> One("key", s.key) in ApFields(s, radio)
  {
    hide Encryption, PmfFields, MacFields;
    var core := [One("device", radio), One("mode", Mode(s)), One("network", IfName(s.slug)), One("ssid", s.ssid),
                 One("encryption", Encryption(s))];
    assert core[3] == One("ssid", s.ssid);
  }

  lemma RenderedSafe(s: Ssid, port: nat, ps: seq<Piece>)
    requires (forall p :: p in SsidPieces(s, port) ==> p in ps) && ValuesSafe(Cmds(ps))
    ensures WireSafeSsid(s)
  {
    hide ValueOk, ValuesSafe, Cmds, Encryption, EffectiveRadios, SsidPieces;
    SsidPiecesParts(s, port);
    RenderedValue(ps, IfPiece(s), "ipaddr", s.ipaddr);
    RenderedValue(ps, IfPiece(s), "netmask", s.netmask);
    HasRadio(s);
    ApMember(s, |EffectiveRadios(s)|, 0);
    ApFieldsSsid(s, EffectiveRadios(s)[0]);
    RenderedValue(ps, ApPiece(s, 0), "ssid", s.ssid);
    if Encryption(s) != "none" {
      RenderedValue(ps, ApPiece(s, 0), "key", s.key);
    }
    forall r | !s.dhcpDisabled && r in s.reservations ensures ValueOk(r.ipaddr) && ValueOk(r.hostname) {
      RenderedHost(s, ps, r);
    }
    forall t | t in s.targets ensures ValueOk(t.zone) {
      RenderedTarget(s, ps, t);
    }
  }

  lemma RenderedHost(s: Ssid, ps: seq<Piece>, r: Reservation)
    requires (forall p :: p in DhcpPieces(s) ==> p in ps) && ValuesSafe(Cmds(ps))
    requires !s.dhcpDisabled && r in s.reservations
    ensures ValueOk(r.ipaddr) && ValueOk(r.hostname)
  {
    hide ValueOk, ValuesSafe, Cmds, DhcpPiece;
    var i :| 0 <= i < |s.reservations| && s.reservations[i] == r;
    HostMember(s, |s.reservations|, i);
    assert HostPiece(s, i).fields[1] == One("ip", r.ipaddr);
    RenderedValue(ps, HostPiece(s, i), "ip", r.ipaddr);
    if r.hostname != "" {
      assert HostPiece(s, i).fields[2] == One("name", r.hostname);
      RenderedValue(ps, HostPiece(s, i), "name", r.hostname);
    } else {
      EmptyOk();
    }
  }

  lemma RenderedTarget(s: Ssid, ps: seq<Piece>, t: Target)
    requires (forall p :: p in AllowPieces(s, |s.targets|) ==> p in ps) && ValuesSafe(Cmds(ps)) && t in s.targets
    ensures ValueOk(t.zone)
  {
    hide ValueOk, ValuesSafe, Cmds;
    var i :| 0 <= i < |s.targets| && s.targets[i] == t;
    AllowMember(s, |s.targets|, i);
    assert AllowPiece(s, i).fields[2] == One("dest", t.zone);
    RenderedValue(ps, AllowPiece(s, i), "dest", t.zone);
  }

  lemma OkIsSafe(cmds: seq<Cmd>, secs: set<Section>)
    requires CmdsOk(cmds, secs)
    ensures ValuesSafe(cmds)
  {
    hide NameOk, ValueOk, Owned, IsRadioKey;
    forall c | c in cmds ensures c.Delete? || ValueOk(c.value) {
      assert CmdOk(c, secs);
      if !c.Delete? && NameOk(c.value) {
        NameIsValue(c.value);
      }
    }
  }

  lemma {:induction false} PeerMember(peers: seq<PeerAllow>, q: PeerAllow)
    requires q in peers
    ensures PeerPiece(q) in PeersPieces(peers)
  {
    hide PeerPiece;
    if q != peers[|peers| - 1] {
      assert peers == peers[..|peers| - 1] + [peers[|peers| - 1]];
      PeerMember(peers[..|peers| - 1], q);
    }
  }

  lemma RenderedPeer(st: State, port: nat, q: PeerAllow, secs: set<Section>)
    requires q in st.peers && CmdsOk(Cmds(StatePieces(st, port)), secs)
    ensures NameText(q.from) && NameText(q.to)
  {
    hide NameText, NameOk, CmdOk, Cmds, PeerPiece, SsidsPieces, PeersPieces, ScalarOk;
    var p := PeerPiece(q);
    PeerMember(st.peers, q);
    CmdsMember(StatePieces(st, port), p, Set(Decl(p.sec), p.kind));
    DeclNamed(Set(Decl(p.sec), p.kind), secs);
    PeerSectionNamed(q);
  }

  lemma DeclNamed(c: Cmd, secs: set<Section>)
    requires CmdOk(c, secs) && c.Set?
    ensures NameOk(c.key.sec.name)
  {
    hide NameOk, ScalarOk, Owned;
  }

  lemma RenderedSsids(st: State, port: nat)
    requires ValuesSafe(Cmds(StatePieces(st, port)))
    ensures forall s :: s in st.ssids ==> WireSafeSsid(s)
  {
    hide ValuesSafe, WireSafeSsid, Cmds, SsidPieces;
    var ps := StatePieces(st, port);
    forall s | s in st.ssids ensures WireSafeSsid(s) {
      forall p | p in SsidPieces(s, port) ensures p in ps {
        SsidMember(st.ssids, s, port, p);
      }
      RenderedSafe(s, port, ps);
    }
  }

  /** Validation alone does not make every rendered name and value survive the text forms: for a valid push it does so
      exactly when the free text, the addresses as written, the hostnames and the target zones fit on a line between
      quotes and, in a push without SSIDs, the pairs are made of name characters. */
  lemma ValidPushSafeIff(st: State, port: nat, secs: set<Section>)
    requires Valid(st) && forall s :: s in SectionDecls(Cmds(StatePieces(st, port))) ==> s in secs
    ensures CmdsOk(Cmds(StatePieces(st, port)), secs) <==> WireSafe(st)
  {
    hide Valid, ValuesSafe, WireSafeSsid, NameText, CmdsOk, Cmds, StatePieces;
    if WireSafe(st) {
      PushCmdsOk(st, port, secs);
    }
    if CmdsOk(Cmds(StatePieces(st, port)), secs) {
      OkIsSafe(Cmds(StatePieces(st, port)), secs);
      RenderedSsids(st, port);
      forall q | q in st.peers ensures NameText(q.from) && NameText(q.to) {
        RenderedPeer(st, port, q, secs);
      }
    }
  }

  // --- a push that is accepted and does not fit on a line ------------------

  /** An otherwise ordinary SSID whose gateway address ends in a newline. */
  function Trailing(): Ssid {
    Ssid("shop", "Shop", [], "", "", false, true, true, "br-shop", "10.0.0.1\n", "255.255.255.0", "10", "50", "2h",
         true, [], "", [], 0, "", [], 0, 0, "", false, "")
  }

  function TrailingPush(): State {
    State("v1", [Trailing()], 0, [])
  }

  lemma QuadParts(a: string, b: string, c: string, d: string)
    requires '.' !in a && '.' !in b && '.' !in c && '.' !in d
    ensures Split(a + "." + (b + "." + (c + "." + d)), '.') == [a, b, c, d]
  {
    FindNone(d, '.');
    SplitFirst(c, '.', d);
    SplitFirst(b, '.', c + "." + d);
    SplitFirst(a, '.', b + "." + (c + "." + d));
  }

  lemma OctetsSnoc(parts: seq<string>, p: string, hi: nat)
    requires Octets(parts) == Some(hi) && AllDigits(p) && 1 <= |p| <= 3 && DigitsVal(p) <= 255
    ensures Octets(parts + [p]) == Some(hi * 256 + DigitsVal(p))
  {
    hide DigitsVal, AllDigits;
    var all := parts + [p];
    assert all[|all| - 1] == p && all[..|all| - 1] == parts;
  }

  lemma QuadOctets(a: string, b: string, c: string, d: string, n2: nat, n3: nat, n4: nat)
    requires AllDigits(a) && AllDigits(b) && AllDigits(c) && AllDigits(d)
    requires 1 <= |a| <= 3 && 1 <= |b| <= 3 && 1 <= |c| <= 3 && 1 <= |d| <= 3
    requires DigitsVal(a) <= 255 && DigitsVal(b) <= 255 && DigitsVal(c) <= 255 && DigitsVal(d) <= 255
    requires n2 == DigitsVal(a) * 256 + DigitsVal(b) && n3 == n2 * 256 + DigitsVal(c) && n4 == n3 * 256 + DigitsVal(d)
    ensures Octets([a, b, c, d]) == Some(n4)
  {
    hide *;
    NoOctets();
    OctetsSnoc([], a, 0);
    assert [] + [a] == [a] && 0 * 256 + DigitsVal(a) == DigitsVal(a);
    OctetsSnoc([a], b, DigitsVal(a));
    assert [a] + [b] == [a, b];
    OctetsSnoc([a, b], c, n2);
    assert [a, b] + [c] == [a, b, c];
    OctetsSnoc([a, b, c], d, n3);
    assert [a, b, c] + [d] == [a, b, c, d];
  }

  lemma NoOctets()
    ensures Octets([]) == Some(0)
  {
  }

  lemma Numerals()
    ensures AllDigits("0") && AllDigits("1") && AllDigits("10") && AllDigits("255")
    ensures DigitsVal("0") == 0 && DigitsVal("1") == 1 && DigitsVal("10") == 10 && DigitsVal("255") == 255
  {
    assert "0"[..0] == "" && "1"[..0] == "" && "2"[..0] == "";
    assert "10"[..1] == "1" && "25"[..1] == "2" && "255"[..2] == "25";
    assert DigitsVal("2") == 2 && DigitsVal("25") == 25;
  }

  lemma AddressTexts()
    ensures Trim("10.0.0.1\n") == "10" + "." + ("0" + "." + ("0" + "." + "1"))
    ensures Trim("255.255.255.0") == "255" + "." + ("255" + "." + ("255" + "." + "0"))
  {
    assert "10.0.0.1\n"[..8] == "10.0.0.1";
    assert "10.0.0.1" == "10" + "." + ("0" + "." + ("0" + "." + "1"));
    assert "255.255.255.0" == "255" + "." + ("255" + "." + ("255" + "." + "0"));
  }

  lemma NoDots()
    ensures '.' !in "0" && '.' !in "1" && '.' !in "10" && '.' !in "255"
  {
  }

  lemma AddressesParse()
    ensures ParseIpv4("10.0.0.1\n") == Some(0x0A00_0001)
    ensures ParseIpv4("255.255.255.0") == Some(0xFFFF_FF00)
  {
    hide *;
    GatewayParses();
    MaskParses();
  }

  lemma GatewayParses()
    ensures ParseIpv4("10.0.0.1\n") == Some(0x0A00_0001)
  {
    hide *;
    AddressTexts();
    GatewayOctets();
    var n := 0x0A00_0001;
    GatewayBits(n);
    ParseQuad("10.0.0.1\n", ["10", "0", "0", "1"], n, 0x0A00_0001);
  }

  lemma MaskParses()
    ensures ParseIpv4("255.255.255.0") == Some(0xFFFF_FF00)
  {
    hide *;
    AddressTexts();
    MaskOctets();
    var n := 0xFFFF_FF00;
    MaskBits(n);
    ParseQuad("255.255.255.0", ["255", "255", "255", "0"], n, 0xFFFF_FF00);
  }

  lemma GatewayBits(n: nat)
    requires n == 0x0A00_0001
    ensures n as bv32 == 0x0A00_0001
  {
    hide *;
    assert n as bv32 == (0xA * 0x100_0000 + 1) as bv32;
  }

  lemma MaskBits(n: nat)
    requires n == 0xFFFF_FF00
    ensures n as bv32 == 0xFFFF_FF00
  {
    hide *;
    assert n as bv32 == (0xFFFF_FF * 0x100) as bv32;
  }

  lemma GatewayOctets()
    ensures Split("10" + "." + ("0" + "." + ("0" + "." + "1")), '.') == ["10", "0", "0", "1"]
    ensures Octets(["10", "0", "0", "1"]) == Some(0x0A00_0001)
  {
    hide *;
    Numerals();
    NoDots();
    QuadParts("10", "0", "0", "1");
    QuadOctets("10", "0", "0", "1", 0x0A00, 0x0A_0000, 0x0A00_0001);
  }

  lemma MaskOctets()
    ensures Split("255" + "." + ("255" + "." + ("255" + "." + "0")), '.') == ["255", "255", "255", "0"]
    ensures Octets(["255", "255", "255", "0"]) == Some(0xFFFF_FF00)
  {
    hide *;
    Numerals();
    NoDots();
    QuadParts("255", "255", "255", "0");
    QuadOctets("255", "255", "255", "0", 0xFFFF, 0xFF_FFFF, 0xFFFF_FF00);
  }

  lemma ParseQuad(s: string, parts: seq<string>, n: nat, ip: bv32)
    requires Split(Trim(s), '.') == parts && |parts| == 4 && Octets(parts) == Some(n)
    requires n < 0x1_0000_0000 && ip == n as bv32
    ensures ParseIpv4(s) == Some(ip)
  {
    hide Trim, Split, Octets;
  }

  lemma TrailingOk()
    ensures SsidOk(Trailing())
  {
    AddressesParse();
    hide ParseIpv4;
    var s := Trailing();
    assert IsSlug(s.slug) && s.slug !in RESERVED_SLUGS;
    assert SsidNameOk(s) by { assert Trim("Shop") == "Shop"; }
    assert RadiosOk(s) && SecurityOk(s) && MacPolicyOk(s);
    assert ZonesOk(s) && TargetsOk(s);
    assert SubnetOk(s);
  }

  lemma TrailingCount(r: string)
    ensures VifCount([Trailing()], r) <= 1
  {
    assert [Trailing()][..0] == [] && [DEFAULT_RADIO][..0] == [];
    assert EffectiveRadios(Trailing()) == [DEFAULT_RADIO];
    assert CountOf([DEFAULT_RADIO], r) == CountOf([], r) + (if DEFAULT_RADIO == r then 1 else 0);
    assert VifCount([Trailing()], r) == VifCount([], r) + CountOf(EffectiveRadios(Trailing()), r);
  }

  /** The address is trimmed when it is checked and rendered as it was written, so a push with a newline after an
      address is accepted and its rendered values do not all fit on one line. */
  lemma TrimmedAddressEscapes(port: nat)
    ensures Valid(TrailingPush()) && !ValuesSafe(Cmds(StatePieces(TrailingPush(), port)))
  {
    hide SsidOk, ValuesSafe, Cmds, StatePieces, VifCount;
    TrailingOk();
    forall r ensures VifCount([Trailing()], r) <= MAX_SSIDS_PER_RADIO {
      TrailingCount(r);
    }
    assert Valid(TrailingPush());
    assert "10.0.0.1\n"[8] == '\n';
    assert !WireSafeSsid(TrailingPush().ssids[0]);
    if ValuesSafe(Cmds(StatePieces(TrailingPush(), port))) {
      RenderedSsids(TrailingPush(), port);
    }
  }

  /** An empty list of SSIDs is accepted before its pairs are looked at, so a push of nothing but a pair with a newline
      is accepted too. */
  lemma UncheckedPairEscapes(port: nat)
    ensures var st := State("v1", [], 0, [PeerAllow("a\nb", "c")]);
            Valid(st) && !ValuesSafe(Cmds(StatePieces(st, port)))
  {
    hide ValuesSafe, Cmds, PeerPiece, ValueOk;
    var q := PeerAllow("a\nb", "c");
    var st := State("v1", [], 0, [q]);
    PeerMember(st.peers, q);
    assert "a\nb"[1] == '\n';
    assert !ValueOk(q.from) by { NewlineUnfit(q.from); }
    if ValuesSafe(Cmds(StatePieces(st, port))) {
      SrcField(q);
      RenderedValue(StatePieces(st, port), PeerPiece(q), "src", q.from);
    }
  }

  lemma SrcField(q: PeerAllow)
    ensures One("src", q.from) in PeerPiece(q).fields
  {
    assert PeerPiece(q).fields[0] == One("src", q.from);
  }

  lemma NewlineUnfit(s: string)
    requires '\n' in s
    ensures !ValueOk(s)
  {
  }
}
