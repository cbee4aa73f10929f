/** What a push builds for each of its SSIDs, section by section and option by option. */
module Served {
  import opened Text
  import opened Uci
  import opened Wireless
  import opened Validate
  import opened Converge
  import opened RenderSafe
  import opened Built
  import opened Heal
  import opened Parts

  // --- the options of a section --------------------------------------------

  function Options(d: Store, sec: Section): map<string, Value> {
    map k | k in d && k.Opt? && k.sec == sec :: k.option := d[k]
  }

  predicate IsKind(d: Store, sec: Section, kind: string) {
    Decl(sec) in d && d[Decl(sec)] == Scalar(kind)
  }

  /** The section is declared with this type and has these options and no other. */
  predicate Is(d: Store, sec: Section, kind: string, options: map<string, Value>) {
    IsKind(d, sec, kind) && Options(d, sec) == options
  }

  function Elems(m: map<string, Value>, n: string): seq<string> {
    if n in m then (match m[n] case Scalar(t) => [t] case List(es) => es) else []
  }

  function LayOpt(m: map<string, Value>, f: Field): map<string, Value> {
    match f
    case One(n, v) => m[n := Scalar(v)]
    case Many(n, vs) => if vs == [] then m else m[n := List(Elems(m, n) + vs)]
  }

  function LayOpts(m: map<string, Value>, fs: seq<Field>): map<string, Value>
    decreases fs
  {
    if fs == [] then m else LayOpts(LayOpt(m, fs[0]), fs[1..])
  }

  lemma SetOption(st: Store, sec: Section, n: string, v: Value)
    ensures Options(st[Opt(sec, n) := v], sec) == Options(st, sec)[n := v]
  {
    var m, r := Options(st, sec), Options(st[Opt(sec, n) := v], sec);
    assert forall o :: o in m <==> Opt(sec, o) in st;
    assert forall o :: o in r <==> Opt(sec, o) in st[Opt(sec, n) := v];
  }

  lemma OptionElems(st: Store, sec: Section, n: string)
    ensures ListAt(st, Opt(sec, n)) == Elems(Options(st, sec), n)
  {
    assert n in Options(st, sec) <==> Opt(sec, n) in st;
  }

  lemma FieldOptions(st: Store, sec: Section, f: Field)
    ensures Options(LayField(st, sec, f), sec) == LayOpt(Options(st, sec), f)
  {
    hide Options, ListAt, Elems;
    OptionElems(st, sec, f.name);
    match f {
      case One(n, v) => SetOption(st, sec, n, Scalar(v));
      case Many(n, vs) => SetOption(st, sec, n, List(ListAt(st, Opt(sec, n)) + vs));
    }
  }

  lemma {:induction false} FieldsOptions(st: Store, sec: Section, fs: seq<Field>)
    ensures Options(LayFields(st, sec, fs), sec) == LayOpts(Options(st, sec), fs)
    decreases fs
  {
    hide Options, LayField, LayOpt;
    if fs != [] {
      FieldOptions(st, sec, fs[0]);
      FieldsOptions(LayField(st, sec, fs[0]), sec, fs[1..]);
    }
  }

  lemma SameOptions(a: Store, b: Store, sec: Section)
    requires forall k: Key :: k.sec == sec ==> SameAt(a, b, k)
    ensures Options(a, sec) == Options(b, sec)
  {
    var m, n := Options(a, sec), Options(b, sec);
    assert forall o :: SameAt(a, b, Opt(sec, o));
    assert forall o :: o in m <==> Opt(sec, o) in a;
    assert forall o :: o in n <==> Opt(sec, o) in b;
    assert forall o :: o in m ==> m[o] == a[Opt(sec, o)];
    assert forall o :: o in n ==> n[o] == b[Opt(sec, o)];
  }

  lemma OthersKeep(st: Store, ps: seq<Piece>, sec: Section)
    requires forall p :: p in ps ==> p.sec != sec
    ensures forall k: Key :: k.sec == sec ==> SameAt(LayAll(st, ps), st, k)
  {
    hide LayAll;
    SectionsOfAll(ps);
    forall k: Key | k.sec == sec ensures SameAt(LayAll(st, ps), st, k) {
      LayAllKeeps(st, ps, k);
    }
  }

  lemma {:induction false} LayAllAppend(st: Store, a: seq<Piece>, b: seq<Piece>)
    ensures LayAll(st, a + b) == LayAll(LayAll(st, a), b)
    decreases a
  {
    hide LayPiece;
    if a == [] {
      assert a + b == b;
    } else {
      assert (a + b)[1..] == a[1..] + b;
      LayAllAppend(LayPiece(st, a[0]), a[1..], b);
    }
  }

  /** A section that one piece of the batch renders has what that piece sets. */
  lemma LaidOnce(ps: seq<Piece>, k: nat)
    requires k < |ps| && forall j :: 0 <= j < |ps| && j != k ==> ps[j].sec != ps[k].sec
    ensures Is(LayAll(map[], ps), ps[k].sec, ps[k].kind, LayOpts(map[], ps[k].fields))
  {
    hide Options, LayAll, LayFields;
    var p, before, after := ps[k], ps[..k], ps[k + 1..];
    assert ps == before + ([p] + after);
    LayAllAppend(map[], before, [p] + after);
    var st0 := LayAll(map[], before);
    OthersKeep(map[], before, p.sec);
    SameOptions(st0, map[], p.sec);
    LayFirst(st0, p, after);
    var st1 := st0[Decl(p.sec) := Scalar(p.kind)];
    assert Options(st1, p.sec) == map[] by {
      NothingSet(p.sec, p.kind, st0);
    }
    FieldsOptions(st1, p.sec, p.fields);
    LayFieldsKeys(st1, p.sec, p.fields);
    OthersKeep(LayPiece(st0, p), after, p.sec);
    SameOptions(LayAll(LayPiece(st0, p), after), LayPiece(st0, p), p.sec);
    assert SameAt(LayAll(LayPiece(st0, p), after), LayPiece(st0, p), Decl(p.sec));
  }

  lemma NothingSet(sec: Section, kind: string, st: Store)
    requires Options(st, sec) == Options(map[], sec)
    ensures Options(st[Decl(sec) := Scalar(kind)], sec) == map[]
  {
    var m := Options(st, sec);
    assert m == map[];
    forall n ensures Opt(sec, n) !in st {
      assert n !in m;
    }
  }

  lemma LayFirst(st: Store, p: Piece, after: seq<Piece>)
    ensures LayAll(st, [p] + after) == LayAll(LayPiece(st, p), after)
  {
    hide LayPiece;
    assert ([p] + after)[1..] == after;
  }

  /** Every part an SSID needs is in the built store as its piece says. */
  lemma PartBuilt(st: State, port: nat, s: Ssid, x: Part)
    requires Valid(st) && PartKept(st, s, x) && s in st.ssids && Wanted(s, x)
    ensures Is(BuiltStore(st, port), SectionOf(s.slug, x), KindOf(x), LayOpts(map[], PartPiece(s, port, x).fields))
  {
    hide Valid, PartKept, Wanted, SectionOf, KindOf, PartPiece, StatePieces, LayOpts, Is;
    var k := PlaceOf(st, port, s, x);
    PartSec(s, port, x);
    LaidOnce(StatePieces(st, port), k);
  }

  lemma KindsDiffer(x: Part, y: Part)
    ensures (x.Host? && y.Pool?) || (x.Pool? && y.Host?) ==> KindOf(x) != KindOf(y)
    ensures !x.Way? ==> KindOf(x) != "forwarding"
  {
    KindsApart();
  }

  /** A part an SSID does not need is not in the built store. */
  lemma PartAbsent(st: State, port: nat, s: Ssid, x: Part)
    requires Valid(st) && s in st.ssids && IsKind(BuiltStore(st, port), SectionOf(s.slug, x), KindOf(x))
    ensures Wanted(s, x)
  {
    hide Valid, SectionOf, KindOf, PartPiece, StatePieces, SsidsPieces, PeersPieces, PeerPiece, SetTo, EffectiveRadios;
    var ps, sec := StatePieces(st, port), SectionOf(s.slug, x);
    if !x.Way? {
      LayAllSections(map[], ps);
      var i := LastWins(map[], ps, sec);
      KindsDiffer(x, x);
      StatePiecesAt(st, port, i);
      if i < |SsidsPieces(st.ssids, port)| {
        var t, y := PartOrigin(st.ssids, port, ps[i]);
        KindsDiffer(x, y);
        SectionsApart(s.slug, x, t.slug, y);
        ApartSlugs(st);
      } else {
        PeerSec(st.peers[i - |SsidsPieces(st.ssids, port)|]);
      }
    }
  }

  // --- what an SSID's sections say -----------------------------------------

  const MARK := Scalar("portcullis-wireless")

  /** Option `n` is there, with value `v`, exactly under condition `c`. */
  predicate When(m: map<string, Value>, n: string, c: bool, v: string) {
    (n in m <==> c) && (c ==> m[n] == Scalar(v))
  }

  function DeviceOptions(s: Ssid): map<string, Value> {
    map["name" := Scalar(s.bridge), "type" := Scalar("bridge"), "owner" := MARK]
  }

  function InterfaceOptions(s: Ssid): map<string, Value> {
    map["device" := Scalar(s.bridge), "proto" := Scalar("static"), "ipaddr" := Scalar(s.ipaddr),
        "netmask" := Scalar(s.netmask), "owner" := MARK]
  }

  function PoolOptions(s: Ssid): map<string, Value> {
    map["interface" := Scalar("pc_" + s.slug + "_if"), "start" := Scalar(s.dhcpStart),
        "limit" := Scalar(s.dhcpLimit), "leasetime" := Scalar(s.leasetime), "dhcpv6" := Scalar("disabled"),
        "owner" := MARK]
  }

  function LeaseOptions(r: Reservation): map<string, Value> {
    (if r.hostname == "" then map["mac" := Scalar(Lower(r.mac)), "ip" := Scalar(r.ipaddr)]
     else map["mac" := Scalar(Lower(r.mac)), "ip" := Scalar(r.ipaddr), "name" := Scalar(r.hostname)])["owner" := MARK]
  }

  /** A zone that lets nothing in or through. */
  function ZoneOptions(s: Ssid): map<string, Value> {
    map["name" := Scalar(s.slug), "network" := Scalar("pc_" + s.slug + "_if"), "input" := Scalar("REJECT"),
        "output" := Scalar("ACCEPT"), "forward" := Scalar("REJECT"), "owner" := MARK]
  }

  function WayOptions(s: Ssid): map<string, Value> {
    map["src" := Scalar(s.slug), "dest" := Scalar(if s.egressZone == "" then "wan" else s.egressZone),
        "owner" := MARK]
  }

  function PortOptions(s: Ssid, tag: string, proto: string, port: string): map<string, Value> {
    map["name" := Scalar("Allow-" + s.slug + tag), "src" := Scalar(s.slug), "proto" := Scalar(proto),
        "dest_port" := Scalar(port), "target" := Scalar("ACCEPT"), "owner" := MARK]
  }

  function AllowOptions(s: Ssid, i: nat): map<string, Value>
    requires i < |s.targets|
  {
    map["name" := Scalar("Allow-" + s.slug + "-int" + PrintNat(i)), "src" := Scalar(s.slug),
        "dest" := Scalar(s.targets[i].zone), "dest_ip" := Scalar(s.targets[i].cidr), "target" := Scalar("ACCEPT"),
        "owner" := MARK]
  }

  function QueueOptions(s: Ssid): map<string, Value> {
    map["interface" := Scalar(s.bridge), "enabled" := Scalar("1"), "download" := Scalar(PrintNat(s.rateDown)),
        "upload" := Scalar(PrintNat(s.rateUp)), "qdisc" := Scalar("cake"), "script" := Scalar("piece_of_cake.qos"),
        "owner" := MARK]
  }

  /** The SSID's own bridge, and its own address on it. */
  predicate NetServed(d: Store, s: Ssid) {
    && Is(d, Section("network", "pc_" + s.slug + "_dev"), "device", DeviceOptions(s))
    && Is(d, Section("network", "pc_" + s.slug + "_if"), "interface", InterfaceOptions(s))
  }

  function RadiosOf(s: Ssid): seq<string> {
    if s.radios == [] then ["radio0"] else s.radios
  }

  lemma SomeRadio(s: Ssid)
    ensures |RadiosOf(s)| > 0
  {
  }

  predicate IsOpen(s: Ssid) {
    s.encryption == "" || s.encryption == "none"
  }

  /** Management frame protection: what the push says, or else what the cipher asks for. */
  function Protection(s: Ssid): string {
    if s.pmf != "" then s.pmf
    else if s.encryption == "sae" then "2" else if s.encryption == "sae-mixed" then "1" else ""
  }

  predicate Filters(s: Ssid) {
    s.macList != [] && (s.macPolicy == "allow" || s.macPolicy == "deny")
  }

  const AP_OPTIONS := {"device", "mode", "network", "ssid", "encryption", "key", "isolate", "hidden", "ieee80211w",
                       "ieee80211r", "maxassoc", "macfilter", "maclist", "owner"}

  /** The options of an access point, its address filter and its owner excepted. */
  predicate CoreIs(s: Ssid, radio: string, m: map<string, Value>) {
    && When(m, "device", true, radio) && When(m, "mode", true, "ap")
    && When(m, "network", true, "pc_" + s.slug + "_if") && When(m, "ssid", true, s.ssid)
    && When(m, "encryption", true, if IsOpen(s) then "none" else s.encryption)
    && When(m, "key", !IsOpen(s), s.key)
    && When(m, "isolate", true, if s.isolate then "1" else "0") && When(m, "hidden", s.hidden, "1")
    && When(m, "ieee80211w", Protection(s) != "", Protection(s)) && When(m, "ieee80211r", s.fastTransition, "1")
    && When(m, "maxassoc", s.maxClients > 0, PrintNat(s.maxClients))
  }

  /** The options of the SSID's access point on one radio. */
  predicate ApOptions(s: Ssid, radio: string, m: map<string, Value>) {
    && m.Keys <= AP_OPTIONS && CoreIs(s, radio, m) && When(m, "macfilter", Filters(s), s.macPolicy)
    && ("maclist" in m <==> Filters(s))
    && (Filters(s) ==> m["maclist"] == List(seq(|s.macList|, i requires 0 <= i < |s.macList| => Lower(s.macList[i]))))
    && When(m, "owner", true, "portcullis-wireless")
  }

  /** One access point on each of its radios, and none beyond. */
  ghost predicate ApsServed(d: Store, s: Ssid) {
    forall i: nat ::
      var ap := Section("wireless", "pc_" + s.slug + "_ap" + PrintNat(i));
      && (IsKind(d, ap, "wifi-iface") <==> i < |RadiosOf(s)|)
      && (i < |RadiosOf(s)| ==> ApOptions(s, RadiosOf(s)[i], Options(d, ap)))
  }

  /** The address pool and the static leases, unless the SSID has none. */
  ghost predicate PoolServed(d: Store, s: Ssid) {
    var pool := Section("dhcp", "pc_" + s.slug);
    && (IsKind(d, pool, "dhcp") <==> !s.dhcpDisabled)
    && (!s.dhcpDisabled ==> Options(d, pool) == PoolOptions(s))
    && forall i: nat ::
         var lease := Section("dhcp", "pc_" + s.slug + "_host" + PrintNat(i));
         && (IsKind(d, lease, "host") <==> !s.dhcpDisabled && i < |s.reservations|)
         && (!s.dhcpDisabled && i < |s.reservations| ==> Options(d, lease) == LeaseOptions(s.reservations[i]))
  }

  /** A zone of its own, and one way out of it. */
  predicate ZoneServed(d: Store, s: Ssid) {
    && Is(d, Section("firewall", "pc_" + s.slug + "_zone"), "zone", ZoneOptions(s))
    && Is(d, Section("firewall", "pc_" + s.slug + "_fwd"), "forwarding", WayOptions(s))
  }

  /** What the zone lets in: DHCP, DNS and, for a gated SSID, the portal; and the targets it lets out to. */
  ghost predicate RulesServed(d: Store, s: Ssid, port: nat) {
    && Is(d, Section("firewall", "pc_" + s.slug + "_dhcp"), "rule", PortOptions(s, "-DHCP", "udp", "67"))
    && Is(d, Section("firewall", "pc_" + s.slug + "_dns"), "rule", PortOptions(s, "-DNS", "tcp udp", "53"))
    && (var portal := Section("firewall", "pc_" + s.slug + "_portal");
        && (IsKind(d, portal, "rule") <==> s.gated)
        && (s.gated ==> Options(d, portal) == PortOptions(s, "-portal", "tcp", PrintNat(port))))
    && forall i: nat ::
         var allow := Section("firewall", "pc_" + s.slug + "_allow" + PrintNat(i));
         && (IsKind(d, allow, "rule") <==> i < |s.targets|)
         && (i < |s.targets| ==> Options(d, allow) == AllowOptions(s, i))
  }

  /** A shaper on the SSID's bridge, when either direction has a limit. */
  predicate QueueServed(d: Store, s: Ssid) {
    var queue, shaped := Section("sqm", "pc_" + s.slug), s.rateDown > 0 || s.rateUp > 0;
    && (IsKind(d, queue, "queue") <==> shaped)
    && (shaped ==> Options(d, queue) == QueueOptions(s))
  }

  ghost predicate Serves(d: Store, s: Ssid, port: nat) {
    && NetServed(d, s) && ApsServed(d, s) && PoolServed(d, s) && ZoneServed(d, s) && RulesServed(d, s, port)
    && QueueServed(d, s)
  }

  // --- the pieces, as options ----------------------------------------------

  lemma {:induction false} LayOptsAppend(m: map<string, Value>, a: seq<Field>, b: seq<Field>)
    ensures LayOpts(m, a + b) == LayOpts(LayOpts(m, a), b)
    decreases a
  {
    hide LayOpt;
    if a == [] {
      assert a + b == b;
    } else {
      assert (a + b)[1..] == a[1..] + b;
      LayOptsAppend(LayOpt(m, a[0]), a[1..], b);
    }
  }

  lemma LayOne(m: map<string, Value>, f: Field)
    ensures LayOpts(m, [f]) == LayOpt(m, f)
  {
    hide LayOpt;
    assert [f][1..] == [];
  }

  lemma LayIf(m: map<string, Value>, a: seq<Field>, c: bool, f: Field)
    ensures LayOpts(m, a + (if c then [f] else [])) == if c then LayOpt(LayOpts(m, a), f) else LayOpts(m, a)
  {
    hide LayOpt, LayOpts;
    if c {
      LayOptsAppend(m, a, [f]);
      LayOne(LayOpts(m, a), f);
    } else {
      assert a + [] == a;
    }
  }

  lemma LayThree(m: map<string, Value>, f: Field, g: Field, h: Field)
    ensures LayOpts(m, [f, g, h]) == LayOpt(LayOpt(LayOpt(m, f), g), h)
  {
    hide LayOpt, LayOpts;
    assert [f, g, h] == [f] + [g] + [h];
    LayOne(m, f);
    LayOptsAppend(m, [f], [g]);
    LayOne(LayOpts(m, [f]), g);
    LayOptsAppend(m, [f] + [g], [h]);
    LayOne(LayOpts(m, [f] + [g]), h);
  }

  lemma LayFive(f: Field, g: Field, h: Field, i: Field, j: Field)
    ensures LayOpts(map[], [f, g, h, i, j]) == LayOpt(LayOpt(LayOpt(LayOpt(LayOpt(map[], f), g), h), i), j)
  {
    hide LayOpt, LayOpts;
    assert [f, g, h, i, j] == [f, g, h] + [i] + [j];
    LayThree(map[], f, g, h);
    LayOptsAppend(map[], [f, g, h], [i]);
    LayOne(LayOpts(map[], [f, g, h]), i);
    LayOptsAppend(map[], [f, g, h] + [i], [j]);
    LayOne(LayOpts(map[], [f, g, h] + [i]), j);
  }

  lemma LaySix(f: Field, g: Field, h: Field, i: Field, j: Field, k: Field)
    ensures LayOpts(map[], [f, g, h, i, j, k])
         == LayOpt(LayOpt(LayOpt(LayOpt(LayOpt(LayOpt(map[], f), g), h), i), j), k)
  {
    hide LayOpt, LayOpts;
    assert [f, g, h, i, j, k] == [f, g, h, i, j] + [k];
    LayFive(f, g, h, i, j);
    LayOptsAppend(map[], [f, g, h, i, j], [k]);
    LayOne(LayOpts(map[], [f, g, h, i, j]), k);
  }

  lemma NetLaid(s: Ssid)
    ensures LayOpts(map[], DevPiece(s).fields) == DeviceOptions(s)
    ensures LayOpts(map[], IfPiece(s).fields) == InterfaceOptions(s)
  {
    hide LayOpts;
    LayThree(map[], One("name", s.bridge), One("type", "bridge"), OWNER_FIELD);
    LayFive(One("device", s.bridge), One("proto", "static"), One("ipaddr", s.ipaddr), One("netmask", s.netmask),
            OWNER_FIELD);
  }

  lemma PoolLaid(s: Ssid)
    ensures LayOpts(map[], DhcpPiece(s).fields) == PoolOptions(s)
  {
    hide LayOpts;
    LaySix(One("interface", IfName(s.slug)), One("start", s.dhcpStart), One("limit", s.dhcpLimit),
           One("leasetime", s.leasetime), One("dhcpv6", "disabled"), OWNER_FIELD);
  }

  lemma LeaseLaid(s: Ssid, i: nat)
    requires i < |s.reservations|
    ensures LayOpts(map[], HostPiece(s, i).fields) == LeaseOptions(s.reservations[i])
  {
    hide LayOpts, Lower;
    var r := s.reservations[i];
    var a, b := One("mac", Lower(r.mac)), One("ip", r.ipaddr);
    LayOne(map[], a);
    LayOptsAppend(map[], [a], [b]);
    LayOne(LayOpts(map[], [a]), b);
    assert [a] + [b] == [a, b];
    LayIf(map[], [a, b], r.hostname != "", One("name", r.hostname));
    var named := [a, b] + (if r.hostname != "" then [One("name", r.hostname)] else []);
    LayOptsAppend(map[], named, [OWNER_FIELD]);
    LayOne(LayOpts(map[], named), OWNER_FIELD);
  }

  lemma ZoneLaid(s: Ssid)
    ensures LayOpts(map[], ZonePiece(s).fields) == ZoneOptions(s)
    ensures LayOpts(map[], FwdPiece(s).fields) == WayOptions(s)
  {
    hide LayOpts;
    LaySix(One("name", s.slug), One("network", IfName(s.slug)), One("input", "REJECT"), One("output", "ACCEPT"),
           One("forward", "REJECT"), OWNER_FIELD);
    LayThree(map[], One("src", s.slug), One("dest", Egress(s)), OWNER_FIELD);
  }

  lemma RuleLaid(s: Ssid, suffix: string, tag: string, proto: string, port: string)
    ensures LayOpts(map[], RulePiece(s, suffix, tag, proto, port).fields) == PortOptions(s, tag, proto, port)
  {
    hide LayOpts;
    LaySix(One("name", "Allow-" + s.slug + tag), One("src", s.slug), One("proto", proto), One("dest_port", port),
           One("target", "ACCEPT"), OWNER_FIELD);
  }

  lemma AllowLaid(s: Ssid, i: nat)
    requires i < |s.targets|
    ensures LayOpts(map[], AllowPiece(s, i).fields) == AllowOptions(s, i)
  {
    hide LayOpts, PrintNat;
    LaySix(One("name", "Allow-" + s.slug + "-int" + PrintNat(i)), One("src", s.slug), One("dest", s.targets[i].zone),
           One("dest_ip", s.targets[i].cidr), One("target", "ACCEPT"), OWNER_FIELD);
  }

  lemma QueueLaid(s: Ssid)
    requires s.rateDown > 0 || s.rateUp > 0
    ensures LayOpts(map[], SqmPieces(s)[0].fields) == QueueOptions(s)
  {
    hide LayOpts, PrintNat;
    var a := [One("interface", s.bridge), One("enabled", "1"), One("download", PrintNat(s.rateDown)),
              One("upload", PrintNat(s.rateUp)), One("qdisc", "cake"), One("script", "piece_of_cake.qos")];
    LaySix(a[0], a[1], a[2], a[3], a[4], a[5]);
    assert SqmPieces(s)[0].fields == a + [OWNER_FIELD];
    LayOptsAppend(map[], a, [OWNER_FIELD]);
    LayOne(LayOpts(map[], a), OWNER_FIELD);
  }

  // --- an access point -----------------------------------------------------

  /** Tells the option names of an access point apart. */
  function Code(n: string): int {
    if |n| < 4 then |n| else |n| * 65536 + n[0] as int * 256 + n[|n| - 1] as int
  }

  lemma NamesDiffer()
    ensures var ns := ["device", "mode", "network", "ssid", "encryption", "key", "isolate", "hidden", "ieee80211w",
                       "ieee80211r", "maxassoc", "macfilter", "maclist", "owner"];
            forall i, j :: 0 <= i < j < 14 ==> ns[i] != ns[j]
  {
    var ns := ["device", "mode", "network", "ssid", "encryption", "key", "isolate", "hidden", "ieee80211w",
               "ieee80211r", "maxassoc", "macfilter", "maclist", "owner"];
    assert forall i, j :: 0 <= i < j < 14 ==> Code(ns[i]) != Code(ns[j]);
  }

  lemma PmfLaid(m: map<string, Value>, a: seq<Field>, s: Ssid)
    ensures LayOpts(m, a + PmfFields(s))
         == if Protection(s) == "" then LayOpts(m, a) else LayOpts(m, a)["ieee80211w" := Scalar(Protection(s))]
  {
    hide LayOpts;
    var own := if Encryption(s) == "sae" then "2" else "1";
    var first := if Encryption(s) == "sae" || Encryption(s) == "sae-mixed" then [One("ieee80211w", own)] else [];
    var more := if s.pmf != "" then [One("ieee80211w", s.pmf)] else [];
    assert PmfFields(s) == first + more && a + PmfFields(s) == a + first + more;
    LayIf(m, a, Encryption(s) == "sae" || Encryption(s) == "sae-mixed", One("ieee80211w", own));
    LayIf(m, a + first, s.pmf != "", One("ieee80211w", s.pmf));
  }

  lemma {:induction false} LowerAllAt(ms: seq<string>)
    ensures |LowerAll(ms)| == |ms| && forall i :: 0 <= i < |ms| ==> LowerAll(ms)[i] == Lower(ms[i])
  {
    hide Lower;
    if ms != [] {
      LowerAllAt(ms[1..]);
    }
  }

  lemma MacLaid(m: map<string, Value>, a: seq<Field>, s: Ssid)
    requires "maclist" !in LayOpts(m, a)
    ensures LayOpts(m, a + MacFields(s))
         == if !Filters(s) then LayOpts(m, a)
            else LayOpts(m, a)["macfilter" := Scalar(s.macPolicy)]["maclist" := List(LowerAll(s.macList))]
  {
    hide LayOpts, LowerAll;
    if Filters(s) {
      var f, g := One("macfilter", s.macPolicy), Many(MACLIST, LowerAll(s.macList));
      assert a + MacFields(s) == a + [f] + [g];
      LayOptsAppend(m, a, [f]);
      LayOne(LayOpts(m, a), f);
      LayOptsAppend(m, a + [f], [g]);
      LayOne(LayOpts(m, a + [f]), g);
      LowerAllAt(s.macList);
      NamesDiffer();
      assert [] + LowerAll(s.macList) == LowerAll(s.macList);
    } else {
      assert a + [] == a;
    }
  }

  /** The options every access point has, its owner excepted. */
  function ApBase(s: Ssid, radio: string): map<string, Value> {
    var m := map["device" := Scalar(radio), "mode" := Scalar(Mode(s)), "network" := Scalar("pc_" + s.slug + "_if"),
                 "ssid" := Scalar(s.ssid), "encryption" := Scalar(Encryption(s))];
    (if Encryption(s) != "none" then m["key" := Scalar(s.key)] else m)
    ["isolate" := Scalar(if s.isolate then "1" else "0")]
  }

  /** Those that depend on a setting, the address filter excepted. */
  function ApExtras(m: map<string, Value>, s: Ssid): map<string, Value> {
    var m1 := if s.hidden then m["hidden" := Scalar("1")] else m;
    var m2 := if Protection(s) == "" then m1 else m1["ieee80211w" := Scalar(Protection(s))];
    var m3 := if s.fastTransition then m2["ieee80211r" := Scalar("1")] else m2;
    if s.maxClients > 0 then m3["maxassoc" := Scalar(PrintNat(s.maxClients))] else m3
  }

  lemma CoreLaid(s: Ssid, radio: string) returns (fs: seq<Field>)
    ensures ApFields(s, radio) == fs + MacFields(s) + [OWNER_FIELD]
    ensures LayOpts(map[], fs) == ApExtras(ApBase(s, radio), s)
  {
    hide LayOpts, PrintNat, PmfFields, MacFields, Protection, Encryption, Mode;
    var a := [One("device", radio), One("mode", Mode(s)), One("network", IfName(s.slug)), One("ssid", s.ssid),
              One("encryption", Encryption(s))];
    LayFive(a[0], a[1], a[2], a[3], a[4]);
    LayIf(map[], a, Encryption(s) != "none", One("key", s.key));
    var b := a + (if Encryption(s) != "none" then [One("key", s.key)] else []);
    var isolate := One("isolate", if s.isolate then "1" else "0");
    LayOptsAppend(map[], b, [isolate]);
    LayOne(LayOpts(map[], b), isolate);
    var c := b + [isolate];
    LayIf(map[], c, s.hidden, One("hidden", "1"));
    var d := c + (if s.hidden then [One("hidden", "1")] else []);
    PmfLaid(map[], d, s);
    var f := d + PmfFields(s);
    LayIf(map[], f, s.fastTransition, One("ieee80211r", "1"));
    var g := f + (if s.fastTransition then [One("ieee80211r", "1")] else []);
    LayIf(map[], g, s.maxClients > 0, One("maxassoc", PrintNat(s.maxClients)));
    fs := g + (if s.maxClients > 0 then [One("maxassoc", PrintNat(s.maxClients))] else []);
  }

  const BASE_OPTIONS := {"device", "mode", "network", "ssid", "encryption", "key", "isolate"}

  lemma BaseOptions(s: Ssid, radio: string)
    requires Mode(s) == "ap"
    ensures var m := ApBase(s, radio);
            && m.Keys <= BASE_OPTIONS
            && When(m, "device", true, radio) && When(m, "mode", true, "ap")
            && When(m, "network", true, "pc_" + s.slug + "_if") && When(m, "ssid", true, s.ssid)
            && When(m, "encryption", true, Encryption(s)) && When(m, "key", Encryption(s) != "none", s.key)
            && When(m, "isolate", true, if s.isolate then "1" else "0")
  {
    hide Mode, Encryption;
    NamesDiffer();
  }

  predicate IsExtra(n: string) {
    n == "hidden" || n == "ieee80211w" || n == "ieee80211r" || n == "maxassoc"
  }

  lemma ExtraOptions(m: map<string, Value>, s: Ssid)
    requires forall n :: n in m ==> !IsExtra(n)
    ensures var r := ApExtras(m, s);
            && When(r, "hidden", s.hidden, "1") && When(r, "ieee80211w", Protection(s) != "", Protection(s))
            && When(r, "ieee80211r", s.fastTransition, "1")
            && When(r, "maxassoc", s.maxClients > 0, PrintNat(s.maxClients))
            && (forall n :: n in r ==> n in m || IsExtra(n))
            && forall n :: n in m ==> n in r && r[n] == m[n]
  {
    hide PrintNat, Protection;
    assert "hidden"[0] == 'h' && "ieee80211w"[0] == 'i' && "ieee80211r"[0] == 'i' && "maxassoc"[0] == 'm';
    assert "ieee80211w"[9] != "ieee80211r"[9];
  }

  predicate IsLast(n: string) {
    n == "macfilter" || n == "maclist" || n == "owner"
  }

  lemma CoreNames(n: string)
    ensures n in BASE_OPTIONS ==> !IsExtra(n) && !IsLast(n) && n in AP_OPTIONS
    ensures IsExtra(n) ==> !IsLast(n) && n in AP_OPTIONS
  {
    NamesDiffer();
  }

  lemma CoreOptions(s: Ssid, radio: string)
    requires Mode(s) == "ap"
    ensures var m := ApExtras(ApBase(s, radio), s);
            CoreIs(s, radio, m) && m.Keys <= AP_OPTIONS && forall n :: n in m ==> !IsLast(n)
  {
    hide PrintNat, Protection, Mode, ApBase, ApExtras, IsExtra, IsLast;
    var m := ApBase(s, radio);
    var r := ApExtras(m, s);
    BaseOptions(s, radio);
    forall n ensures n in m ==> !IsExtra(n) && !IsLast(n) && n in AP_OPTIONS {
      CoreNames(n);
      assert n in m ==> n in m.Keys;
    }
    ExtraOptions(m, s);
    forall n | n in BASE_OPTIONS ensures !IsExtra(n) {
      CoreNames(n);
    }
    forall n | n in r ensures n in AP_OPTIONS && !IsLast(n) {
      CoreNames(n);
    }
  }

  /** The address filter and the owner leave the other options alone. */
  lemma CoreKept(s: Ssid, radio: string, m: map<string, Value>, r: map<string, Value>)
    requires CoreIs(s, radio, m)
    requires forall n :: !IsLast(n) ==> (n in r <==> n in m) && (n in m ==> r[n] == m[n])
    ensures CoreIs(s, radio, r)
  {
    hide PrintNat, Protection, IsLast;
    forall n | n in BASE_OPTIONS || IsExtra(n) ensures !IsLast(n) {
      CoreNames(n);
    }
  }

  lemma ApLaid(s: Ssid, radio: string)
    requires Mode(s) == "ap"
    ensures ApOptions(s, radio, LayOpts(map[], ApFields(s, radio)))
  {
    hide LayOpts, PrintNat, Mode, Lower, LowerAll, ApFields, MacFields, ApExtras, CoreIs, Filters, AP_OPTIONS;
    var fs := CoreLaid(s, radio);
    var m, r := LayOpts(map[], fs), LayOpts(map[], ApFields(s, radio));
    CoreOptions(s, radio);
    assert IsLast("macfilter") && IsLast("maclist") && IsLast("owner");
    MacLaid(map[], fs, s);
    LayOptsAppend(map[], fs + MacFields(s), [OWNER_FIELD]);
    LayOne(LayOpts(map[], fs + MacFields(s)), OWNER_FIELD);
    CoreKept(s, radio, m, r);
    LowerAllAt(s.macList);
    LastDiffer();
    assert LowerAll(s.macList) == seq(|s.macList|, i requires 0 <= i < |s.macList| => Lower(s.macList[i]));
  }

  lemma LastDiffer()
    ensures "macfilter" != "maclist" && "macfilter" != "owner" && "maclist" != "owner"
    ensures {"macfilter", "maclist", "owner"} <= AP_OPTIONS
  {
    NamesDiffer();
  }

  // --- every SSID is served, or a name is taken ----------------------------

  lemma SectionsAre(slug: string)
    ensures SectionOf(slug, Device) == Section("network", "pc_" + slug + "_dev")
    ensures SectionOf(slug, Interface) == Section("network", "pc_" + slug + "_if")
    ensures SectionOf(slug, Pool) == Section("dhcp", "pc_" + slug)
    ensures SectionOf(slug, Queue) == Section("sqm", "pc_" + slug)
    ensures SectionOf(slug, Zone) == Section("firewall", "pc_" + slug + "_zone")
    ensures SectionOf(slug, Way) == Section("firewall", "pc_" + slug + "_fwd")
    ensures SectionOf(slug, Dhcp) == Section("firewall", "pc_" + slug + "_dhcp")
    ensures SectionOf(slug, Dns) == Section("firewall", "pc_" + slug + "_dns")
    ensures SectionOf(slug, Portal) == Section("firewall", "pc_" + slug + "_portal")
  {
    hide SectionOf;
    NetSections(slug);
    WallSections(slug);
  }

  lemma NetSections(slug: string)
    ensures SectionOf(slug, Device) == Section("network", "pc_" + slug + "_dev")
    ensures SectionOf(slug, Interface) == Section("network", "pc_" + slug + "_if")
    ensures SectionOf(slug, Pool) == Section("dhcp", "pc_" + slug)
    ensures SectionOf(slug, Queue) == Section("sqm", "pc_" + slug)
  {
  }

  lemma WallSections(slug: string)
    ensures SectionOf(slug, Zone) == Section("firewall", "pc_" + slug + "_zone")
    ensures SectionOf(slug, Way) == Section("firewall", "pc_" + slug + "_fwd")
    ensures SectionOf(slug, Dhcp) == Section("firewall", "pc_" + slug + "_dhcp")
    ensures SectionOf(slug, Dns) == Section("firewall", "pc_" + slug + "_dns")
    ensures SectionOf(slug, Portal) == Section("firewall", "pc_" + slug + "_portal")
  {
  }

  lemma NumberedSections(slug: string, i: nat)
    ensures SectionOf(slug, Ap(i)) == Section("wireless", "pc_" + slug + "_ap" + PrintNat(i))
    ensures SectionOf(slug, Host(i)) == Section("dhcp", "pc_" + slug + "_host" + PrintNat(i))
    ensures SectionOf(slug, Allow(i)) == Section("firewall", "pc_" + slug + "_allow" + PrintNat(i))
  {
    hide PrintNat;
    var pre, n := "pc_" + slug, PrintNat(i);
    assert pre + ("_" + ("ap" + n)) == pre + "_ap" + n;
    assert pre + ("_" + ("host" + n)) == pre + "_host" + n;
    assert pre + ("_" + ("allow" + n)) == pre + "_allow" + n;
  }

  lemma PlainMode(st: State, s: Ssid)
    requires Valid(st) && s in st.ssids
    ensures Mode(s) == "ap"
  {
    hide SubnetOk, MacPolicyOk, TargetsOk, PoolOk, ReservationsOk, RadiosOk, Valid, Mode;
    ValidParts(st);
    assert SsidOk(s);
  }

  lemma NetPart(st: State, port: nat, s: Ssid)
    requires Valid(st) && s in st.ssids
    ensures NetServed(BuiltStore(st, port), s)
  {
    hide Valid, PartKept, Is, BuiltStore, LayOpts, DevPiece, IfPiece, DeviceOptions, InterfaceOptions;
    SectionsAre(s.slug);
    ConfigsApart();
    PlainKept(st, s, Device);
    PlainKept(st, s, Interface);
    PartBuilt(st, port, s, Device);
    PartBuilt(st, port, s, Interface);
    NetLaid(s);
  }

  lemma ApPart(st: State, port: nat, s: Ssid, i: nat)
    requires Valid(st) && s in st.ssids
    ensures var d, ap := BuiltStore(st, port), Section("wireless", "pc_" + s.slug + "_ap" + PrintNat(i));
            && (IsKind(d, ap, "wifi-iface") <==> i < |RadiosOf(s)|)
            && (i < |RadiosOf(s)| ==> ApOptions(s, RadiosOf(s)[i], Options(d, ap)))
  {
    hide Valid, PartKept, IsKind, BuiltStore, LayOpts, ApFields, ApOptions, PrintNat, Options, SectionOf, Mode;
    NumberedSections(s.slug, i);
    assert EffectiveRadios(s) == RadiosOf(s);
    if i < |RadiosOf(s)| {
      ConfigsApart();
      PlainKept(st, s, Ap(i));
      PartBuilt(st, port, s, Ap(i));
      PlainMode(st, s);
      ApLaid(s, RadiosOf(s)[i]);
    } else if IsKind(BuiltStore(st, port), SectionOf(s.slug, Ap(i)), "wifi-iface") {
      PartAbsent(st, port, s, Ap(i));
    }
  }

  lemma LeasePart(st: State, port: nat, s: Ssid, i: nat)
    requires Valid(st) && NamesKept(st) && s in st.ssids
    ensures var d, lease := BuiltStore(st, port), Section("dhcp", "pc_" + s.slug + "_host" + PrintNat(i));
            && (IsKind(d, lease, "host") <==> !s.dhcpDisabled && i < |s.reservations|)
            && (!s.dhcpDisabled && i < |s.reservations| ==> Options(d, lease) == LeaseOptions(s.reservations[i]))
  {
    hide Valid, PartKept, IsKind, BuiltStore, LayOpts, PrintNat, Options, SectionOf, LeaseOptions, HostPiece,
         EffectiveRadios;
    NumberedSections(s.slug, i);
    if !s.dhcpDisabled && i < |s.reservations| {
      PartBuilt(st, port, s, Host(i));
      LeaseLaid(s, i);
    } else if IsKind(BuiltStore(st, port), SectionOf(s.slug, Host(i)), "host") {
      PartAbsent(st, port, s, Host(i));
    }
  }

  lemma PoolPart(st: State, port: nat, s: Ssid)
    requires Valid(st) && NamesKept(st) && s in st.ssids
    ensures PoolServed(BuiltStore(st, port), s)
  {
    hide Valid, PartKept, IsKind, BuiltStore, LayOpts, PrintNat, Options, SectionOf, LeaseOptions, PoolOptions,
         DhcpPiece, EffectiveRadios;
    SectionsAre(s.slug);
    if !s.dhcpDisabled {
      PartBuilt(st, port, s, Pool);
      PoolLaid(s);
    } else if IsKind(BuiltStore(st, port), SectionOf(s.slug, Pool), "dhcp") {
      PartAbsent(st, port, s, Pool);
    }
    forall i: nat
      ensures var lease := Section("dhcp", "pc_" + s.slug + "_host" + PrintNat(i));
              && (IsKind(BuiltStore(st, port), lease, "host") <==> !s.dhcpDisabled && i < |s.reservations|)
              && (!s.dhcpDisabled && i < |s.reservations| ==>
                    Options(BuiltStore(st, port), lease) == LeaseOptions(s.reservations[i]))
    {
      LeasePart(st, port, s, i);
    }
  }

  lemma ZonePart(st: State, port: nat, s: Ssid)
    requires Valid(st) && NamesKept(st) && s in st.ssids
    ensures ZoneServed(BuiltStore(st, port), s)
  {
    hide Valid, PartKept, Is, BuiltStore, LayOpts, ZonePiece, FwdPiece, ZoneOptions, WayOptions;
    SectionsAre(s.slug);
    PartBuilt(st, port, s, Zone);
    PartBuilt(st, port, s, Way);
    ZoneLaid(s);
  }

  lemma AllowPart(st: State, port: nat, s: Ssid, i: nat)
    requires Valid(st) && NamesKept(st) && s in st.ssids
    ensures var d, allow := BuiltStore(st, port), Section("firewall", "pc_" + s.slug + "_allow" + PrintNat(i));
            && (IsKind(d, allow, "rule") <==> i < |s.targets|)
            && (i < |s.targets| ==> Options(d, allow) == AllowOptions(s, i))
  {
    hide Valid, PartKept, IsKind, BuiltStore, LayOpts, PrintNat, Options, SectionOf, AllowOptions, AllowPiece,
         EffectiveRadios;
    NumberedSections(s.slug, i);
    if i < |s.targets| {
      PartBuilt(st, port, s, Allow(i));
      AllowLaid(s, i);
    } else if IsKind(BuiltStore(st, port), SectionOf(s.slug, Allow(i)), "rule") {
      PartAbsent(st, port, s, Allow(i));
    }
  }

  lemma PortsPart(st: State, port: nat, s: Ssid)
    requires Valid(st) && NamesKept(st) && s in st.ssids
    ensures var d, portal := BuiltStore(st, port), Section("firewall", "pc_" + s.slug + "_portal");
            && Is(d, Section("firewall", "pc_" + s.slug + "_dhcp"), "rule", PortOptions(s, "-DHCP", "udp", "67"))
            && Is(d, Section("firewall", "pc_" + s.slug + "_dns"), "rule", PortOptions(s, "-DNS", "tcp udp", "53"))
            && (IsKind(d, portal, "rule") <==> s.gated)
            && (s.gated ==> Options(d, portal) == PortOptions(s, "-portal", "tcp", PrintNat(port)))
  {
    hide Valid, PartKept, IsKind, BuiltStore, LayOpts, PrintNat, Options, SectionOf, RulePiece, PortOptions,
         EffectiveRadios;
    SectionsAre(s.slug);
    PartBuilt(st, port, s, Dhcp);
    PartBuilt(st, port, s, Dns);
    RuleLaid(s, "_dhcp", "-DHCP", "udp", "67");
    RuleLaid(s, "_dns", "-DNS", "tcp udp", "53");
    if s.gated {
      PartBuilt(st, port, s, Portal);
      RuleLaid(s, "_portal", "-portal", "tcp", PrintNat(port));
    } else if IsKind(BuiltStore(st, port), SectionOf(s.slug, Portal), "rule") {
      PartAbsent(st, port, s, Portal);
    }
  }

  lemma QueuePart(st: State, port: nat, s: Ssid)
    requires Valid(st) && NamesKept(st) && s in st.ssids
    ensures QueueServed(BuiltStore(st, port), s)
  {
    hide Valid, PartKept, IsKind, BuiltStore, LayOpts, SqmPieces, Options, SectionOf, QueueOptions, EffectiveRadios;
    SectionsAre(s.slug);
    if s.rateDown > 0 || s.rateUp > 0 {
      PartBuilt(st, port, s, Queue);
      QueueLaid(s);
    } else if IsKind(BuiltStore(st, port), SectionOf(s.slug, Queue), "queue") {
      PartAbsent(st, port, s, Queue);
    }
  }

  lemma SsidServed(st: State, port: nat, s: Ssid)
    requires Valid(st) && NamesKept(st) && s in st.ssids
    ensures Serves(BuiltStore(st, port), s, port)
  {
    hide Valid, PartKept, IsKind, BuiltStore, PrintNat, Options, NetServed, PoolServed, ZoneServed, QueueServed,
         PortOptions, AllowOptions, ApOptions, Is;
    NetPart(st, port, s);
    forall i: nat
      ensures var d, ap := BuiltStore(st, port), Section("wireless", "pc_" + s.slug + "_ap" + PrintNat(i));
              && (IsKind(d, ap, "wifi-iface") <==> i < |RadiosOf(s)|)
              && (i < |RadiosOf(s)| ==> ApOptions(s, RadiosOf(s)[i], Options(d, ap)))
    {
      ApPart(st, port, s, i);
    }
    PoolPart(st, port, s);
    ZonePart(st, port, s);
    PortsPart(st, port, s);
    forall i: nat
      ensures var d, allow := BuiltStore(st, port), Section("firewall", "pc_" + s.slug + "_allow" + PrintNat(i));
              && (IsKind(d, allow, "rule") <==> i < |s.targets|)
              && (i < |s.targets| ==> Options(d, allow) == AllowOptions(s, i))
    {
      AllowPart(st, port, s, i);
    }
    QueuePart(st, port, s);
  }

  lemma ServesKind(d: Store, s: Ssid, port: nat, x: Part)
    requires Serves(d, s, port) && Wanted(s, x)
    ensures IsKind(d, SectionOf(s.slug, x), KindOf(x))
  {
    hide PrintNat, IsKind, SectionOf, Options, ApOptions;
    SectionsAre(s.slug);
    assert EffectiveRadios(s) == RadiosOf(s);
    match x {
      case Ap(i) => NumberedSections(s.slug, i);
      case Host(i) => NumberedSections(s.slug, i);
      case Allow(i) => NumberedSections(s.slug, i);
      case _ =>
    }
  }

  lemma KindOnce(d: Store, sec: Section, a: string, b: string)
    requires IsKind(d, sec, a) && IsKind(d, sec, b)
    ensures a == b
  {
  }

  lemma PairWay(q: PeerAllow, slug: string)
    ensures Section("firewall", "pc_peer_" + q.from + "_" + q.to) == SectionOf(slug, Way) ==> q.from != slug
  {
    SectionsAre(slug);
    assert |"pc_peer_" + q.from + "_" + q.to| == |q.from| + |q.to| + 9 && |"pc_" + slug + "_fwd"| == |slug| + 7;
  }

  /** A pair that takes a name an SSID needs leaves that SSID without the section. */
  lemma PairSpoils(st: State, port: nat, s: Ssid, q: PeerAllow, x: Part)
    requires s in st.ssids && q in st.peers && Wanted(s, x)
    requires Section("firewall", "pc_peer_" + q.from + "_" + q.to) == SectionOf(s.slug, x)
    ensures !Serves(BuiltStore(st, port), s, port)
  {
    hide BuiltStore, PeerPiece, SectionOf, KindOf, Wanted, StatePieces, SsidsPieces, LastNamed, Decided, Serves,
         IsKind;
    var d, sec := BuiltStore(st, port), SectionOf(s.slug, x);
    PeerSec(q);
    InStatePieces(st, port, q);
    SectionsOfAll(StatePieces(st, port));
    var p := Decider(st, port, sec);
    var k :| 0 <= k < |st.peers| && p == PeerPiece(st.peers[k]) && LastNamed(st, k);
    PeerSec(st.peers[k]);
    PeerDecides(d, st.peers[k]);
    KindsDiffer(x, x);
    if Serves(d, s, port) {
      ServesKind(d, s, port, x);
      KindOnce(d, sec, KindOf(x), "forwarding");
      PairWay(st.peers[k], s.slug);
      WayFrom(d, s, port);
    }
  }

  lemma PeerDecides(d: Store, q: PeerAllow)
    requires Decided(d, PeerPiece(q))
    ensures IsKind(d, PeerPiece(q).sec, "forwarding")
    ensures Opt(PeerPiece(q).sec, "src") in d && d[Opt(PeerPiece(q).sec, "src")] == Scalar(q.from)
  {
    hide LastOne;
    PeerEnds(q);
    assert SetTo(d, PeerPiece(q), "src");
  }

  lemma WayFrom(d: Store, s: Ssid, port: nat)
    requires Serves(d, s, port)
    ensures Opt(SectionOf(s.slug, Way), "src") in d ==> d[Opt(SectionOf(s.slug, Way), "src")] == Scalar(s.slug)
  {
    hide ApsServed, PoolServed, RulesServed, QueueServed, NetServed;
    SectionsAre(s.slug);
    var sec := SectionOf(s.slug, Way);
    assert "owner"[0] != "src"[0] && "dest"[0] != "src"[0];
    assert Opt(sec, "src") in d ==> Options(d, sec)["src"] == d[Opt(sec, "src")];
  }

  lemma NoLeaseSpoils(d: Store, port: nat, s: Ssid, t: Ssid, i: nat)
    requires Serves(d, s, port) && Serves(d, t, port)
    ensures !LeaseTakes(s, i, t)
  {
    hide Serves, Wanted, SectionOf, PrintNat, IsKind;
    if LeaseTakes(s, i, t) {
      LeaseSection(s, i, t);
      ServesKind(d, s, port, Host(i));
      ServesKind(d, t, port, Pool);
      KindsDiffer(Host(i), Pool);
      KindOnce(d, SectionOf(t.slug, Pool), KindOf(Host(i)), KindOf(Pool));
    }
  }

  /** A valid push is built as its SSIDs ask - every section of every SSID there, of its kind, with exactly its options,
      and none it does not ask for - exactly when no pair takes the name of a section an SSID needs and no static lease
      that of an address pool. */
  lemma ServedIff(st: State, port: nat)
    requires Valid(st)
    ensures (forall s :: s in st.ssids ==> Serves(BuiltStore(st, port), s, port)) <==> NamesKept(st)
  {
    hide Valid, BuiltStore, Serves, Wanted, SectionOf, PrintNat, IsKind;
    var d := BuiltStore(st, port);
    if NamesKept(st) {
      forall s | s in st.ssids ensures Serves(d, s, port) {
        SsidServed(st, port, s);
      }
    }
    if forall s :: s in st.ssids ==> Serves(d, s, port) {
      forall s, x | s in st.ssids && Wanted(s, x) ensures PartKept(st, s, x) {
        forall q | q in st.peers
          ensures Section("firewall", "pc_peer_" + q.from + "_" + q.to) != SectionOf(s.slug, x)
        {
          if Section("firewall", "pc_peer_" + q.from + "_" + q.to) == SectionOf(s.slug, x) {
            PairSpoils(st, port, s, q, x);
          }
        }
        forall t, i: nat | t in st.ssids ensures !LeaseTakes(s, i, t) && !LeaseTakes(t, i, s) {
          NoLeaseSpoils(d, port, s, t, i);
          NoLeaseSpoils(d, port, t, s, i);
        }
      }
    }
  }

  // --- nothing else --------------------------------------------------------

  predicate HasField(p: Piece, k: Key) {
    p.sec == k.sec && (k.Opt? ==> exists f :: f in p.fields && f.name == k.option)
  }

  lemma {:induction false} LayFieldsSource(st: Store, sec: Section, fs: seq<Field>, k: Key)
    requires k in LayFields(st, sec, fs)
    ensures k in st || (k.Opt? && k.sec == sec && exists f :: f in fs && f.name == k.option)
    decreases fs
  {
    if fs != [] {
      LayFieldsSource(LayField(st, sec, fs[0]), sec, fs[1..], k);
      assert forall f :: f in fs[1..] ==> f in fs;
      assert fs[0] in fs;
    }
  }

  /** Whatever is built was rendered. */
  lemma {:induction false} LayAllSource(st: Store, ps: seq<Piece>, k: Key)
    requires k in LayAll(st, ps)
    ensures k in st || exists p :: p in ps && HasField(p, k)
    decreases ps
  {
    if ps != [] {
      var p := ps[0];
      LayAllSource(LayPiece(st, p), ps[1..], k);
      assert forall q :: q in ps[1..] ==> q in ps;
      if k in LayPiece(st, p) {
        LayFieldsSource(st[Decl(p.sec) := Scalar(p.kind)], p.sec, p.fields, k);
        assert p in ps && (k in st || HasField(p, k));
      }
    }
  }

  /** Every section of the built store is one an SSID needs or that of a pair. */
  lemma NothingElse(st: State, port: nat, sec: Section)
    requires Decl(sec) in BuiltStore(st, port)
    ensures || (exists s, x :: s in st.ssids && Wanted(s, x) && sec == SectionOf(s.slug, x))
            || exists q :: q in st.peers && sec == Section("firewall", "pc_peer_" + q.from + "_" + q.to)
  {
    hide SsidsPieces, PeersPieces, PeerPiece, Wanted, SectionOf, LayAll;
    LayAllSource(map[], StatePieces(st, port), Decl(sec));
    var p :| p in StatePieces(st, port) && HasField(p, Decl(sec));
    if p in SsidsPieces(st.ssids, port) {
      var s, x := PartOrigin(st.ssids, port, p);
    } else {
      var q := PeersOrigin(st.peers, p);
      PeerSec(q);
    }
  }
}
