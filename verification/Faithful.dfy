/** The compiler loses nothing: the store a valid push builds tells its SSIDs' settings back. */
module Faithful {
  import opened Text
  import opened Uci
  import opened Wireless
  import opened Validate
  import opened Built
  import opened Heal
  import opened Parts
  import opened Served

  predicate SameLease(r: Reservation, q: Reservation) {
    Lower(r.mac) == Lower(q.mac) && r.ipaddr == q.ipaddr && r.hostname == q.hostname
  }

  predicate SamePool(s: Ssid, t: Ssid) {
    && s.dhcpDisabled == t.dhcpDisabled
    && (!s.dhcpDisabled ==>
          && s.dhcpStart == t.dhcpStart && s.dhcpLimit == t.dhcpLimit && s.leasetime == t.leasetime
          && |s.reservations| == |t.reservations|
          && forall i :: 0 <= i < |s.reservations| ==> SameLease(s.reservations[i], t.reservations[i]))
  }

  predicate SameFilter(s: Ssid, t: Ssid) {
    && (Filters(s) <==> Filters(t))
    && (Filters(s) ==>
          && s.macPolicy == t.macPolicy && |s.macList| == |t.macList|
          && forall i :: 0 <= i < |s.macList| ==> Lower(s.macList[i]) == Lower(t.macList[i]))
  }

  predicate SameRadio(s: Ssid, t: Ssid) {
    && s.ssid == t.ssid && IsOpen(s) == IsOpen(t) && (!IsOpen(s) ==> s.encryption == t.encryption && s.key == t.key)
    && s.isolate == t.isolate && s.hidden == t.hidden && Protection(s) == Protection(t)
    && s.fastTransition == t.fastTransition && s.maxClients == t.maxClients && SameFilter(s, t)
  }

  /** The settings that reach the router: all of an SSID's, up to defaults and the case of MACs. */
  predicate SameSettings(s: Ssid, t: Ssid) {
    && s.slug == t.slug && s.bridge == t.bridge && s.ipaddr == t.ipaddr && s.netmask == t.netmask
    && RadiosOf(s) == RadiosOf(t) && SameRadio(s, t) && SamePool(s, t)
    && Egress(s) == Egress(t) && s.gated == t.gated && s.targets == t.targets
    && s.rateDown == t.rateDown && s.rateUp == t.rateUp
  }

  lemma OptionNames()
    ensures "name" != "type" && "name" != "owner" && "ipaddr" != "netmask" && "ipaddr" != "owner"
    ensures "netmask" != "owner" && "mac" != "ip" && "mac" != "name" && "mac" != "owner" && "ip" != "name"
    ensures "ip" != "owner" && "start" != "limit" && "start" != "leasetime" && "start" != "dhcpv6"
    ensures "start" != "owner" && "limit" != "leasetime" && "limit" != "dhcpv6" && "limit" != "owner"
    ensures "leasetime" != "dhcpv6" && "leasetime" != "owner" && "dest" != "owner" && "dest" != "dest_ip"
    ensures "dest" != "target" && "dest_ip" != "target" && "dest_ip" != "owner" && "download" != "upload"
    ensures "download" != "qdisc" && "download" != "script" && "download" != "owner" && "upload" != "qdisc"
    ensures "upload" != "script" && "upload" != "owner"
  {
    assert "name"[0] != "type"[0] && "start"[0] != "limit"[0] && "start"[0] != "owner"[0] && "limit"[0] != "owner"[0];
    assert "upload"[0] != "script"[0];
  }

  lemma NetSame(d: Store, s: Ssid, t: Ssid)
    requires NetServed(d, s) && NetServed(d, t) && s.slug == t.slug
    ensures s.bridge == t.bridge && s.ipaddr == t.ipaddr && s.netmask == t.netmask
  {
    hide Options, IsKind;
    OptionNames();
    assert DeviceOptions(s)["name"] == DeviceOptions(t)["name"];
    assert InterfaceOptions(s)["ipaddr"] == InterfaceOptions(t)["ipaddr"];
    assert InterfaceOptions(s)["netmask"] == InterfaceOptions(t)["netmask"];
  }

  lemma RadioAt(d: Store, s: Ssid, i: nat)
    requires ApsServed(d, s)
    ensures var ap := Section("wireless", "pc_" + s.slug + "_ap" + PrintNat(i));
            && (IsKind(d, ap, "wifi-iface") <==> i < |RadiosOf(s)|)
            && (i < |RadiosOf(s)| ==> ApOptions(s, RadiosOf(s)[i], Options(d, ap)))
  {
    hide ApOptions, Options, PrintNat, IsKind;
  }

  lemma ApSame(s: Ssid, t: Ssid, a: string, b: string, m: map<string, Value>)
    requires ApOptions(s, a, m) && ApOptions(t, b, m)
    ensures a == b && SameRadio(s, t)
  {
    hide PrintNat, Lower, Protection, Filters, SameFilter;
    if s.maxClients > 0 {
      PrintNatInjective(s.maxClients, t.maxClients);
    }
    assert "1"[0] != "0"[0];
    FilterSame(s, t, a, b, m);
  }

  lemma FilterSame(s: Ssid, t: Ssid, a: string, b: string, m: map<string, Value>)
    requires ApOptions(s, a, m) && ApOptions(t, b, m)
    ensures SameFilter(s, t)
  {
    hide PrintNat, Lower, CoreIs, Filters;
    if Filters(s) {
      var xs := seq(|s.macList|, i requires 0 <= i < |s.macList| => Lower(s.macList[i]));
      var ys := seq(|t.macList|, i requires 0 <= i < |t.macList| => Lower(t.macList[i]));
      assert xs == ys;
      assert forall i :: 0 <= i < |s.macList| ==> xs[i] == Lower(s.macList[i]) && ys[i] == Lower(t.macList[i]);
    }
  }

  lemma ApsSame(d: Store, s: Ssid, t: Ssid)
    requires ApsServed(d, s) && ApsServed(d, t) && s.slug == t.slug
    ensures RadiosOf(s) == RadiosOf(t) && SameRadio(s, t)
  {
    hide ApsServed, ApOptions, Options, PrintNat, IsKind, SameRadio, RadiosOf;
    var m, n := |RadiosOf(s)|, |RadiosOf(t)|;
    RadioAt(d, s, m);
    RadioAt(d, t, m);
    RadioAt(d, s, n);
    RadioAt(d, t, n);
    assert m == n;
    forall i | 0 <= i < m ensures RadiosOf(s)[i] == RadiosOf(t)[i] && SameRadio(s, t) {
      RadioAt(d, s, i);
      RadioAt(d, t, i);
      ApSame(s, t, RadiosOf(s)[i], RadiosOf(t)[i],
             Options(d, Section("wireless", "pc_" + s.slug + "_ap" + PrintNat(i))));
    }
    SomeRadio(s);
    assert RadiosOf(s)[0] == RadiosOf(t)[0];
  }

  lemma LeaseAt(d: Store, s: Ssid, i: nat)
    requires PoolServed(d, s)
    ensures var lease := Section("dhcp", "pc_" + s.slug + "_host" + PrintNat(i));
            && (IsKind(d, lease, "host") <==> !s.dhcpDisabled && i < |s.reservations|)
            && (!s.dhcpDisabled && i < |s.reservations| ==> Options(d, lease) == LeaseOptions(s.reservations[i]))
  {
    hide LeaseOptions, PoolOptions, Options, PrintNat, IsKind;
  }

  lemma LeaseSame(r: Reservation, q: Reservation)
    requires LeaseOptions(r) == LeaseOptions(q)
    ensures SameLease(r, q)
  {
    hide Lower;
    OptionNames();
    var m, n := LeaseOptions(r), LeaseOptions(q);
    assert m["mac"] == Scalar(Lower(r.mac)) && n["mac"] == Scalar(Lower(q.mac));
    assert m["ip"] == Scalar(r.ipaddr) && n["ip"] == Scalar(q.ipaddr);
    assert "name" in m <==> r.hostname != "";
    assert "name" in n <==> q.hostname != "";
    assert r.hostname != "" ==> m["name"] == Scalar(r.hostname);
    assert q.hostname != "" ==> n["name"] == Scalar(q.hostname);
  }

  lemma PoolSame(d: Store, s: Ssid, t: Ssid)
    requires PoolServed(d, s) && PoolServed(d, t) && s.slug == t.slug
    ensures SamePool(s, t)
  {
    hide LeaseOptions, Options, PrintNat, IsKind, SameLease;
    if !s.dhcpDisabled {
      OptionNames();
      assert PoolOptions(s)["start"] == PoolOptions(t)["start"];
      assert PoolOptions(s)["limit"] == PoolOptions(t)["limit"];
      assert PoolOptions(s)["leasetime"] == PoolOptions(t)["leasetime"];
      LeasesSame(d, s, t);
    }
  }

  lemma LeasesSame(d: Store, s: Ssid, t: Ssid)
    requires PoolServed(d, s) && PoolServed(d, t) && s.slug == t.slug && !s.dhcpDisabled && !t.dhcpDisabled
    ensures |s.reservations| == |t.reservations|
    ensures forall i :: 0 <= i < |s.reservations| ==> SameLease(s.reservations[i], t.reservations[i])
  {
    hide PoolServed, LeaseOptions, Options, PrintNat, IsKind, SameLease;
    var m, n := |s.reservations|, |t.reservations|;
    LeaseAt(d, s, m);
    LeaseAt(d, t, m);
    LeaseAt(d, s, n);
    LeaseAt(d, t, n);
    forall i | 0 <= i < m ensures SameLease(s.reservations[i], t.reservations[i]) {
      LeaseAt(d, s, i);
      LeaseAt(d, t, i);
      LeaseSame(s.reservations[i], t.reservations[i]);
    }
  }

  lemma WaySame(d: Store, s: Ssid, t: Ssid)
    requires ZoneServed(d, s) && ZoneServed(d, t) && s.slug == t.slug
    ensures Egress(s) == Egress(t)
  {
    hide Options, IsKind, ZoneOptions;
    OptionNames();
    assert WayOptions(s)["dest"] == Scalar(Egress(s)) && WayOptions(t)["dest"] == Scalar(Egress(t));
  }

  lemma TargetAt(d: Store, s: Ssid, port: nat, i: nat)
    requires RulesServed(d, s, port)
    ensures var allow := Section("firewall", "pc_" + s.slug + "_allow" + PrintNat(i));
            && (IsKind(d, allow, "rule") <==> i < |s.targets|)
            && (i < |s.targets| ==> Options(d, allow) == AllowOptions(s, i))
  {
    hide AllowOptions, PortOptions, Options, PrintNat, IsKind;
  }

  lemma TargetSame(s: Ssid, t: Ssid, i: nat)
    requires i < |s.targets| && i < |t.targets| && AllowOptions(s, i) == AllowOptions(t, i)
    ensures s.targets[i] == t.targets[i]
  {
    hide PrintNat;
    OptionNames();
    assert AllowOptions(s, i)["dest"] == Scalar(s.targets[i].zone);
    assert AllowOptions(t, i)["dest"] == Scalar(t.targets[i].zone);
    assert AllowOptions(s, i)["dest_ip"] == Scalar(s.targets[i].cidr);
    assert AllowOptions(t, i)["dest_ip"] == Scalar(t.targets[i].cidr);
  }

  lemma RulesSame(d: Store, s: Ssid, t: Ssid, port: nat)
    requires RulesServed(d, s, port) && RulesServed(d, t, port) && s.slug == t.slug
    ensures s.gated == t.gated && s.targets == t.targets
  {
    hide AllowOptions, PortOptions, Options, PrintNat, IsKind;
    var m, n := |s.targets|, |t.targets|;
    TargetAt(d, s, port, m);
    TargetAt(d, t, port, m);
    TargetAt(d, s, port, n);
    TargetAt(d, t, port, n);
    forall i | 0 <= i < m ensures s.targets[i] == t.targets[i] {
      TargetAt(d, s, port, i);
      TargetAt(d, t, port, i);
      TargetSame(s, t, i);
    }
  }

  lemma QueueSame(d: Store, s: Ssid, t: Ssid)
    requires QueueServed(d, s) && QueueServed(d, t) && s.slug == t.slug
    ensures s.rateDown == t.rateDown && s.rateUp == t.rateUp
  {
    hide PrintNat, Options, IsKind;
    if s.rateDown > 0 || s.rateUp > 0 {
      OptionNames();
      assert QueueOptions(s)["download"] == QueueOptions(t)["download"];
      assert QueueOptions(s)["upload"] == QueueOptions(t)["upload"];
      PrintNatInjective(s.rateDown, t.rateDown);
      PrintNatInjective(s.rateUp, t.rateUp);
    }
  }

  /** The SSID of the other push with the same slug: its bridge device is in the store. */
  lemma Counterpart(a: State, b: State, port: nat, s: Ssid) returns (t: Ssid)
    requires Valid(a) && s in a.ssids && BuiltStore(a, port) == BuiltStore(b, port)
    ensures t in b.ssids && t.slug == s.slug
  {
    hide Valid, BuiltStore, SectionOf, Wanted;
    var sec := SectionOf(s.slug, Device);
    assert Decl(sec) in BuiltStore(b, port) by {
      NetPart(a, port, s);
      SectionsAre(s.slug);
    }
    NothingElse(b, port, sec);
    NotFirewall(s.slug);
    var u, x :| u in b.ssids && Wanted(u, x) && sec == SectionOf(u.slug, x);
    SectionsApart(s.slug, Device, u.slug, x);
    t := u;
  }

  lemma NotFirewall(slug: string)
    ensures SectionOf(slug, Device).config != "firewall"
  {
    ConfigsApart();
  }

  /** Two valid pushes that build the same store have the same SSIDs, with the same settings: no SSID's section hides
      another's, and no setting is lost on the way. */
  lemma CompilerFaithful(a: State, b: State, port: nat, s: Ssid) returns (t: Ssid)
    requires Valid(a) && Valid(b) && NamesKept(a) && NamesKept(b) && BuiltStore(a, port) == BuiltStore(b, port)
    requires s in a.ssids
    ensures t in b.ssids && SameSettings(s, t)
  {
    hide Valid, NamesKept, BuiltStore, NetServed, ApsServed, PoolServed, ZoneServed, RulesServed, QueueServed,
         SameRadio, SamePool, Egress, RadiosOf;
    t := Counterpart(a, b, port, s);
    var d := BuiltStore(a, port);
    SsidServed(a, port, s);
    SsidServed(b, port, t);
    NetSame(d, s, t);
    ApsSame(d, s, t);
    PoolSame(d, s, t);
    WaySame(d, s, t);
    RulesSame(d, s, t, port);
    QueueSame(d, s, t);
  }
}
