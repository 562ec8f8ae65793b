/** Where the engine's promises end: for each thing a run must respect, exactly when it matters, and an input that shows
    it. */
module Limits {
  import opened Types
  import opened Kernel
  import opened Propagation
  import opened Refinement
  import opened VserverConfig
  import opened Reconfiguration
  import opened Overrides
  import Iptables

  // ---- Overrides of a disabled vserver ----

  /** Enabling a destination brings its service up exactly if the counts with the destination reach the watermark and,
      for an anycast address, every other service of the address is healthy; whether the vserver is enabled does not
      enter. */
  lemma EnableActivatesIff(svcs: Services, active: set<IP>, svcs': Services, active': set<IP>, anycast: set<IP>,
                           k: ServiceKey, ip: IP)
    requires Settled(svcs, active) && VipsExact(svcs, active, anycast)
    requires k in svcs && ip in svcs[k].dests && Stable(svcs[k]) && !svcs[k].dests[ip].healthy
    requires OneOverridden(svcs, active, svcs', active', anycast, DestRef(k, ip), OverrideEnable)
    ensures k in svcs'
    ensures var s := svcs[k];
            svcs'[k].active <==>
              && MeetsWatermark(NumHealthy(s.dests) + 1, NumBackends(s.dests),
                                if s.healthy then s.entry.low else s.entry.high)
              && (s.vip.ip in anycast ==>
                  forall j | j in svcs && j != k && svcs[j].vip.ip == s.vip.ip :: svcs[j].healthy)
  {
    hide NumHealthy, NumBackends, MeetsWatermark, VipHealth;
    assert svcs[k] == Settle(svcs[k], active);
    CountsAfterDest(svcs[k].dests, ip, true);
    JudgedActive(svcs, active, svcs', active', anycast, k, ip);
  }

  lemma JudgedActive(svcs: Services, active: set<IP>, svcs': Services, active': set<IP>, anycast: set<IP>,
                     k: ServiceKey, ip: IP)
    requires VipsExact(svcs, active, anycast) && DestJudged(svcs, active, svcs', active', anycast, k, ip, true)
    ensures svcs'[k].active <==>
              && svcs'[k].healthy
              && (svcs[k].vip.ip in anycast ==>
                  forall j | j in svcs && j != k && svcs[j].vip.ip == svcs[k].vip.ip :: svcs[j].healthy)
  {
    hide Stable, ServiceHealth;
    var marked := SetDest(svcs, k, ip, svcs[k].dests[ip].(healthy := true));
    var judged := marked[k := marked[k].(healthy := svcs'[k].healthy)];
    assert svcs'[k] == Settle(judged[k], active');
    assert k in judged && judged[k].vip.ip == svcs[k].vip.ip;
    assert forall j | j in svcs && j != k :: j in judged && judged[j] == svcs[j];
    assert svcs'[k].healthy == svcs[k].healthy ==>
        (svcs[k].vip.ip in active <==> VipHealth(svcs, svcs[k].vip.ip, anycast));
  }

  const VIP_ADDR := IP(IPv4, 1)
  const BACKEND_ADDR := IP(IPv4, 2)
  const WEB := ServiceKey(IPv4, 0, 6, 80)
  const WEB_ENTRY := Entry(80, 6, RR, LBDSR, 0, false, 0.0, 0.0, 0, 0, map[])
  const HOST := Backend("b", Some(BACKEND_ADDR), None, 1, true, true)

  function VIPsOf(kind: VIPType, v4: IP, v6: Option<IP>): set<VIP> {
    {VIP(v4, kind)} + if v6.Some? then {VIP(v6.value, kind)} else {}
  }

  /** A vserver with one entry and one backend, which has an IPv4 address. */
  function Sample(kind: VIPType, enabled: bool, useFWM: bool, v4: IP, v6: Option<IP>): Config {
    Config("v", Some(v4), v6, map[EntryKey(80, 6) := WEB_ENTRY], map["b" := HOST], map[], VIPsOf(kind, v4, v6), enabled,
           useFWM)
  }

  function Simple(kind: VIPType, enabled: bool): Config {
    Sample(kind, enabled, false, VIP_ADDR, None)
  }

  lemma SampleOK(kind: VIPType, enabled: bool, useFWM: bool, v4: IP, v6: Option<IP>)
    requires !kind.AnycastVIP? && v4.af.IPv4? && (v6.Some? ==> v6.value.af.IPv6?)
    ensures ConfigOK(Sample(kind, enabled, useFWM, v4, v6), {})
  {
    var cfg := Sample(kind, enabled, useFWM, v4, v6);
    assert VIP(v4, kind) in cfg.vips;
    forall af | cfg.Addr(af).Some?
      ensures exists vip :: vip in cfg.vips && vip.ip == cfg.Addr(af).value
    {
      assert VIP(cfg.Addr(af).value, kind) in cfg.vips;
    }
  }

  /** Its records after initialisation. */
  function SimpleRecords(): Services {
    map[WEB := NewService(Simple(UnicastVIP, false), WEB, VIP_ADDR, WEB_ENTRY, {}).(
          dests := map[BACKEND_ADDR := NewDest(WEB, WEB_ENTRY, BACKEND_ADDR, HOST)])]
  }

  /** Disabled though it is, enabling its backend brings its service up; and no records made afresh agree with the table
      then. */
  lemma DisabledOverrideLeaks(svcs': Services, active': set<IP>, fresh_: Services, st: State)
    requires OneOverridden(SimpleRecords(), {}, svcs', active', {}, DestRef(WEB, BACKEND_ADDR), OverrideEnable)
    requires ServicesOK(svcs') && TableFits(st.ipvs, svcs', {}) && ServicesOK(fresh_) && AllDown(fresh_)
    ensures ConfigOK(Simple(UnicastVIP, false), {}) && !VserverEnabled(Some(Simple(UnicastVIP, false)), OverrideDefault)
    ensures WEB in svcs' && svcs'[WEB].active && !TableFits(st.ipvs, fresh_, {})
  {
    hide TableFits, ServicesOK, AllDown, OneOverridden, ConfigOK;
    SampleOK(UnicastVIP, false, false, VIP_ADDR, None);
    var svcs := SimpleRecords();
    SimpleQuiet();
    EnableActivatesIff(svcs, {}, svcs', active', {}, WEB, BACKEND_ADDR);
    FreshAgreesIff(st, svcs', fresh_);
  }

  lemma SimpleQuiet()
    ensures var svcs := SimpleRecords();
            && Settled(svcs, {}) && VipsExact(svcs, {}, {}) && Stable(svcs[WEB])
            && NumHealthy(svcs[WEB].dests) == 0 && NumBackends(svcs[WEB].dests) == 1 &&
               !svcs[WEB].dests[BACKEND_ADDR].healthy
  {
    hide IpvsServiceOf, IpvsDestOf, FindVIP;
    var svcs := SimpleRecords();
    var dests := svcs[WEB].dests;
    SimpleCounts(dests, dests[BACKEND_ADDR]);
    assert Settle(svcs[WEB], {}).dests == dests;
  }

  lemma SimpleCounts(dests: map<IP, Dest>, d: Dest)
    requires dests == map[BACKEND_ADDR := d] && !d.healthy && d.backend.inService
    ensures NumHealthy(dests) == 0 && NumBackends(dests) == 1
  {
    assert (set i | i in dests && dests[i].healthy) == {};
    assert (set i | i in dests && dests[i].backend.inService) == {BACKEND_ADDR};
  }

  // ---- The type of a VIP ----

  /** A configured VIP can be put on the interface exactly if no VIP of its address is there. */
  lemma ConfigureVIPIff(st: State, active: set<IP>, vips: set<VIP>, lb: map<IP, Snapshot>, anycast: set<IP>,
                        enabled: bool,
                        vip: VIP, snap: Snapshot)
    requires InterfaceFits(st, active, vips, lb, anycast, enabled)
    requires !vip.kind.AnycastVIP? && vip.ip !in anycast && snap.Addr(vip.ip.af) == Some(vip.ip)
    ensures var s1 := Exec(st, AddVserver(snap, vip.ip.af));
            s1.Some? && Exec(s1.value, AddVIP(vip)).Some? <==> forall w | w in vips :: w.ip != vip.ip
  {
    if w :| w in vips && w.ip == vip.ip {
      assert w == VIP(vip.ip, UnicastVIP) || w == VIP(vip.ip, DedicatedVIP);
    }
  }

  /** Two configurations that differ in the type of their VIP alone: each is sound, the second follows in place, its
      service keeps the first VIP on the interface, and the command for the second fails. */
  lemma RetypedVIPFails(st: State, active: set<IP>, lb: map<IP, Snapshot>, enabled: bool, snap: Snapshot,
                        fwm: map<AF, nat>, svcs: Services)
    requires InterfaceFits(st, active, FixedVIPs(Simple(UnicastVIP, true)), lb, {}, enabled)
    requires snap.Addr(IPv4) == Some(VIP_ADDR) && Reflects(Simple(DedicatedVIP, true), fwm, {}, svcs)
    ensures var a, b := Simple(UnicastVIP, true), Simple(DedicatedVIP, true);
            && ConfigOK(a, {}) && ConfigOK(b, {}) && SameLayout(a, b) && b == a.(vips := b.vips) && !UpdateOK(a, b, {})
    ensures VIP_ADDR in ServiceIPs(svcs) && Exec(st, AddVserver(snap, IPv4)).None?
  {
    hide ConfigOK, Reflects, InterfaceFits;
    var a, b := Simple(UnicastVIP, true), Simple(DedicatedVIP, true);
    SampleOK(UnicastVIP, true, false, VIP_ADDR, None);
    SampleOK(DedicatedVIP, true, false, VIP_ADDR, None);
    assert VIP(VIP_ADDR, UnicastVIP) in FixedVIPs(a) && VIP(VIP_ADDR, DedicatedVIP) in b.vips;
    assert EntryKey(80, 6) in b.entries;
    StaysServed(fwm, svcs);
    AlreadyThere(st, active, lb, enabled, snap);
  }

  lemma AlreadyThere(st: State, active: set<IP>, lb: map<IP, Snapshot>, enabled: bool, snap: Snapshot)
    requires InterfaceFits(st, active, FixedVIPs(Simple(UnicastVIP, true)), lb, {}, enabled) &&
             snap.Addr(IPv4) == Some(VIP_ADDR)
    ensures Exec(st, AddVserver(snap, IPv4)).None?
  {
    assert VIP(VIP_ADDR, UnicastVIP) in FixedVIPs(Simple(UnicastVIP, true));
  }

  lemma StaysServed(fwm: map<AF, nat>, svcs: Services)
    requires Reflects(Simple(DedicatedVIP, true), fwm, {}, svcs)
    ensures VIP_ADDR in ServiceIPs(svcs)
  {
    hide DestsReflect;
    var b := Simple(DedicatedVIP, true);
    assert EntryKey(80, 6) in b.entries && WEB == KeyFor(b, fwm, IPv4, EntryKey(80, 6));
    assert Wanted(b, fwm, WEB);
    assert ServiceReflects(b, fwm, {}, WEB, svcs[WEB]);
  }

  // ---- The families of the cluster ----

  /** For a vserver without anycast addresses that is on the interface, and whose commands were all for families of its
      configuration: each iptables command succeeded exactly if the cluster has an address in each of its families. */
  lemma ClusterFamiliesIff(cfg: Config, cs: seq<Command>, st: State, active: set<IP>, lb: map<IP, Snapshot>,
                           anycast: set<IP>, enabled: bool, cluster: Iptables.Host)
    requires ConfigOK(cfg, anycast) && (forall vip | vip in cfg.vips :: !vip.kind.AnycastVIP?)
    requires Replay(cs) == Some(st) && AddsIn(cs, Families(cfg))
    requires InterfaceFits(st, active, FixedVIPs(cfg), lb, anycast, enabled)
    ensures Iptables.ReplayRules(cs, cluster).Some? <==> Families(cfg) <= cluster.Families()
    ensures Families(cfg) <= cluster.Families() ==> Iptables.Followed(cs, st, cluster)
  {
    hide Iptables.ReplayRules, Iptables.Followed, Replay;
    Iptables.RulesFollow(cs, st, cluster);
    if AddsIn(cs, cluster.Families()) {
      Iptables.StillAdded(cs, st, cluster);
      forall af | af in Families(cfg)
        ensures af in cluster.Families()
      {
        var vip :| vip in cfg.vips && vip.ip == cfg.Addr(af).value;
        assert vip in FixedVIPs(cfg);
        assert vip == VIP(vip.ip, UnicastVIP) || vip == VIP(vip.ip, DedicatedVIP);
        assert vip.ip in st.vservers;
      }
    }
  }

  /** A cluster with an IPv4 address only, as the engine allows, and a sound vserver with an address of each family: the
      commands that put the vserver on the interface are legal, and the rules for IPv6 cannot be made. */
  lemma OneFamilyClusterFails(snap: Snapshot) returns (cfg: Config, cluster: Iptables.Host, cs: seq<Command>)
    requires snap.Addr(IPv4) == Some(VIP_ADDR) && snap.Addr(IPv6) == Some(IP(IPv6, 9))
    ensures ConfigOK(cfg, {}) && cfg.enabled && (forall af :: snap.Addr(af) == cfg.Addr(af)) &&
            cluster.Families() == {IPv4}
    ensures cs == [AddVserver(snap, IPv4), AddVIP(VIP(VIP_ADDR, UnicastVIP)), AddVserver(snap, IPv6)]
    ensures forall vip | vip in cfg.vips :: vip.ip == VIP_ADDR || vip.ip == IP(IPv6, 9)
    ensures Replay(cs).Some? && Iptables.ReplayRules(cs[..2], cluster).Some? && Iptables.ReplayRules(cs, cluster).None?
  {
    hide ConfigOK, Iptables.ReplayRules, Iptables.Followed;
    cfg := Sample(UnicastVIP, true, false, VIP_ADDR, Some(IP(IPv6, 9)));
    SampleOK(UnicastVIP, true, false, VIP_ADDR, Some(IP(IPv6, 9)));
    cluster := Iptables.Host(Some(IP(IPv4, 7)), None);
    cs := [AddVserver(snap, IPv4), AddVIP(VIP(VIP_ADDR, UnicastVIP)), AddVserver(snap, IPv6)];
    assert cs[..3] == cs && cs[..3][..2] == cs[..2] && cs[..2][..1] == cs[..1] && cs[..1][..0] == [];
    var first := EMPTY.(vservers := map[VIP_ADDR := snap]);
    assert Replay(cs[..1]) == Some(first);
    assert cs[..2][1] == cs[1] && Replay(cs[..2]) == Exec(first, cs[1]);
    assert cs[2] in cs && cs[2].af !in cluster.Families();
    Iptables.RulesFollow(cs, Replay(cs).value, cluster);
    Iptables.RulesFollow(cs[..2], Replay(cs[..2]).value, cluster);
  }

  // ---- Firewall-mark services made in place ----

  /** The update in place has a destination to put in a service without a map exactly where the condition on updates
      fails. */
  lemma NilWriteIff(old_: Config, cfg: Config, fwm: map<AF, nat>, anycast: set<IP>, was: Services, new_: Services,
                    before: set<ServiceKey>, merged: set<ServiceKey>, bare: set<AF>)
    requires SameLayout(old_, cfg) && ConfigOK(cfg, anycast) && Reflects(old_, fwm, anycast, was)
    requires Expansion(cfg, fwm, anycast, new_) && MapsTell(was, before, bare) && (!cfg.useFWM ==> bare == {})
    requires MapsMerged(was, new_, cfg.useFWM, before, merged, {})
    ensures (exists k :: k in new_ && k in merged && !NoBackends(cfg, k.af)) <==>
              exists af :: af in BareAfter(old_, cfg, bare) && !NoBackends(cfg, af)
  {
    hide NoBackends, SameLayout, MapsMerged, Reflects;
    forall k | k in new_
      ensures k in merged <==> k.af in BareAfter(old_, cfg, bare)
    {
      NewMapAfter(old_, cfg, fwm, anycast, was, new_, before, merged, bare, k);
    }
    if af :| af in BareAfter(old_, cfg, bare) && !NoBackends(cfg, af) {
      var e :| e in cfg.entries;
      var k := KeyFor(cfg, fwm, af, e);
      assert Wanted(cfg, fwm, k);
      assert k in new_;
    }
  }

  /** What is put in a service's map: nothing, exactly if no backend has an address of its family. */
  lemma NoDestsIff(cfg: Config, k: ServiceKey, entry: Entry, dests: map<IP, Dest>)
    requires DestsReflect(cfg, k, entry, dests)
    ensures dests == map[] <==> NoBackends(cfg, k.af)
  {
    if NoBackends(cfg, k.af) {
      NoDests(cfg, k, entry, dests);
    }
  }

  /** A firewall-mark vserver that moves to another address with a backend of that family breaks the condition. */
  lemma MarkedVserverMoves()
    ensures var a, b := Sample(UnicastVIP, true, true, VIP_ADDR, None),
            Sample(UnicastVIP, true, true, IP(IPv4, 9), None);
            && ConfigOK(a, {}) && ConfigOK(b, {}) && SameLayout(a, b) && IPv4 in BareAfter(a, b, {}) &&
               !UpdateOK(a, b, {})
  {
    hide ConfigOK;
    var a, b := Sample(UnicastVIP, true, true, VIP_ADDR, None), Sample(UnicastVIP, true, true, IP(IPv4, 9), None);
    SampleOK(UnicastVIP, true, true, VIP_ADDR, None);
    SampleOK(UnicastVIP, true, true, IP(IPv4, 9), None);
    assert IPv4 in BareAfter(a, b, {}) && b.backends["b"].Addr(IPv4).Some?;
  }

  /** One that gains a family in which no backend has an address keeps it. */
  lemma MarkedVserverGains()
    ensures var a, b := Sample(UnicastVIP, true, true, VIP_ADDR, None),
            Sample(UnicastVIP, true, true, VIP_ADDR, Some(IP(IPv6, 9)));
            && ConfigOK(a, {}) && ConfigOK(b, {}) && SameLayout(a, b) && IPv6 in BareAfter(a, b, {}) &&
               UpdateOK(a, b, {})
  {
    hide ConfigOK;
    var a, b := Sample(UnicastVIP, true, true, VIP_ADDR, None),
        Sample(UnicastVIP, true, true, VIP_ADDR, Some(IP(IPv6, 9)));
    SampleOK(UnicastVIP, true, true, VIP_ADDR, None);
    SampleOK(UnicastVIP, true, true, VIP_ADDR, Some(IP(IPv6, 9)));
    assert IPv6 in BareAfter(a, b, {}) && IPv4 !in BareAfter(a, b, {});
  }
}
