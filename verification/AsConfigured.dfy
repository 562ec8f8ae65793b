/**
What the configuration of a vserver comes to, field by field: which services, destinations and checks there are, what
stands of them in the IPVS table, and what is on the interface.
*/
module AsConfigured {
  import opened Types
  import opened Kernel
  import opened Propagation
  import opened Refinement
  import opened VserverConfig
  import opened CheckExpansion
  import opened HealthFlags
  import Iptables

  // ---- Checks ----

  /** One of these healthchecks has the name, mode, type and port of the key. */
  predicate Names(healthchecks: map<string, Healthcheck>, c: CheckKey) {
    c.name in healthchecks &&
    var hc := healthchecks[c.name];
    c.mode == hc.mode && c.kind == hc.kind && c.hcPort == hc.port
  }

  /** The configuration asks for check c of destination ip of service k: a healthcheck of the vserver, under port and
      protocol 0, or one of the service's own entry, under its port and protocol; a firewall-mark service has those of
      every entry. */
  predicate CheckFor(cfg: Config, k: ServiceKey, ip: IP, c: CheckKey) {
    && cfg.Addr(k.af) == Some(c.vserverIP) && c.backendIP == ip
    && if c.serviceProto == 0 then c.servicePort == 0 && Names(cfg.healthchecks, c)
       else
         && EntryKey(c.servicePort, c.serviceProto) in cfg.entries
         && (!cfg.useFWM ==> c.servicePort == k.port && c.serviceProto == k.proto)
         && Names(cfg.entries[EntryKey(c.servicePort, c.serviceProto)].healthchecks, c)
  }

  lemma SharedCheck(cfg: Config, anycast: set<IP>, vip: IP, ip: IP, c: CheckKey)
    requires ConfigOK(cfg, anycast)
    ensures (exists n :: n in cfg.healthchecks && c == CheckKeyOf(vip, ip, 0, 0, cfg.healthchecks[n])) <==>
              && c.vserverIP == vip && c.backendIP == ip && c.servicePort == 0 && c.serviceProto == 0
              && Names(cfg.healthchecks, c)
  {
    if Names(cfg.healthchecks, c) {
      assert cfg.healthchecks[c.name].name == c.name;
    }
  }

  lemma EntryCheck(cfg: Config, fwm: map<AF, nat>, anycast: set<IP>, k: ServiceKey, s: Service, ip: IP, c: CheckKey)
    requires ConfigOK(cfg, anycast) && ServiceReflects(cfg, fwm, anycast, k, s)
    ensures (exists p ::
               p in EntryChecks(cfg, k, s.entry) && c == CheckKeyOf(s.vip.ip, ip, p.0.port, p.0.proto, p.1)) <==>
              && c.vserverIP == s.vip.ip && c.backendIP == ip
              && EntryKey(c.servicePort, c.serviceProto) in cfg.entries
              && (!cfg.useFWM ==> c.servicePort == k.port && c.serviceProto == k.proto)
              && Names(cfg.entries[EntryKey(c.servicePort, c.serviceProto)].healthchecks, c)
  {
    var e :| e in cfg.entries && k == KeyFor(cfg, fwm, k.af, e) && s.entry == cfg.entries[e];
    var key := EntryKey(c.servicePort, c.serviceProto);
    if key in cfg.entries && Names(cfg.entries[key].healthchecks, c) {
      var hc := cfg.entries[key].healthchecks[c.name];
      assert hc.name == c.name;
      if cfg.useFWM || key == e {
        assert (key, hc) in EntryChecks(cfg, k, s.entry);
      }
    }
    if p :| p in EntryChecks(cfg, k, s.entry) && c == CheckKeyOf(s.vip.ip, ip, p.0.port, p.0.proto, p.1) {
      assert p.0 == key && key in cfg.entries;
      var n :| n in cfg.entries[key].healthchecks && p.1 == cfg.entries[key].healthchecks[n];
      assert cfg.entries[key].healthchecks[n].name == n;
    }
  }

  /** A destination has exactly the checks the configuration asks for, and none if its backend is disabled. */
  lemma WantedIff(cfg: Config, fwm: map<AF, nat>, anycast: set<IP>, k: ServiceKey, s: Service, ip: IP, d: Dest,
                  c: CheckKey)
    requires ConfigOK(cfg, anycast) && ServiceReflects(cfg, fwm, anycast, k, s)
    ensures WantedCheck(cfg, k, s, ip, d, c) <==> d.backend.enabled && CheckFor(cfg, k, ip, c)
  {
    SharedCheck(cfg, anycast, s.vip.ip, ip, c);
    EntryCheck(cfg, fwm, anycast, k, s, ip, c);
    hide EntryChecks, CheckKeyOf, Names;
  }

  // ---- Records ----

  /** The configuration has a service under this key: one for each address and entry, or, with firewall marks, one for
      each address. */
  predicate ServiceFor(cfg: Config, fwm: map<AF, nat>, k: ServiceKey) {
    && cfg.Addr(k.af).Some?
    && if cfg.useFWM then k.af in fwm && k == ServiceKey(k.af, fwm[k.af], 0, 0)
       else k.fwm == 0 && EntryKey(k.port, k.proto) in cfg.entries
  }

  predicate BackendFor(cfg: Config, af: AF, ip: IP, name: string) {
    name in cfg.backends && cfg.backends[name].Addr(af) == Some(ip)
  }

  /** A destination is that of a backend, and goes into the table with the address and weight of the backend, the port
      of its service, and the mode and thresholds of the entry. */
  ghost predicate DestAsConfigured(cfg: Config, k: ServiceKey, entry: Entry, ip: IP, d: Dest) {
    && (exists b :: BackendFor(cfg, k.af, ip, b) && d.backend == cfg.backends[b])
    && d.ipvsDst.address == ip && d.ipvsDst.port == k.port && d.ipvsDst.weight == d.backend.weight
    && d.ipvsDst.forward == entry.mode
    && d.ipvsDst.lowerThreshold == entry.lowerThreshold % 0x1_0000_0000
    && d.ipvsDst.upperThreshold == entry.upperThreshold % 0x1_0000_0000
  }

  lemma DestsFor(cfg: Config, k: ServiceKey, entry: Entry, dests: map<IP, Dest>)
    requires DestsReflect(cfg, k, entry, dests)
    ensures forall ip :: ip in dests <==> exists b :: BackendFor(cfg, k.af, ip, b)
    ensures forall ip | ip in dests :: DestAsConfigured(cfg, k, entry, ip, dests[ip])
  {
    forall ip | ip in dests
      ensures DestAsConfigured(cfg, k, entry, ip, dests[ip])
    {
      assert DestReflects(cfg, k, entry, ip, dests[ip]);
      var b :| b in cfg.backends && cfg.backends[b] == dests[ip].backend;
      assert BackendFor(cfg, k.af, ip, b);
    }
  }

  /** A service is on its address, with its own entry or, for a firewall mark, one of the entries; it has a destination
      for each address of a backend in its family, and each destination its checks. */
  ghost predicate ServiceAsConfigured(cfg: Config, k: ServiceKey, s: Service) {
    && s.vip in cfg.vips && cfg.Addr(k.af) == Some(s.vip.ip)
    && (cfg.useFWM ==> s.entry in cfg.entries.Values)
    && (!cfg.useFWM ==> EntryKey(k.port, k.proto) in cfg.entries && s.entry == cfg.entries[EntryKey(k.port, k.proto)])
    && (forall ip :: ip in s.dests <==> exists b :: BackendFor(cfg, k.af, ip, b))
    && (forall ip | ip in s.dests :: exists b :: BackendFor(cfg, k.af, ip, b) && s.dests[ip].backend == cfg.backends[b])
    && (forall ip, c | ip in s.dests ::
          c in s.dests[ip].checks <==> s.dests[ip].backend.enabled && CheckFor(cfg, k, ip, c))
  }

  ghost predicate RecordsAsConfigured(cfg: Config, fwm: map<AF, nat>, svcs: Services) {
    && (forall k :: k in svcs <==> ServiceFor(cfg, fwm, k))
    && (forall k | k in svcs :: ServiceAsConfigured(cfg, k, svcs[k]))
  }

  lemma WantedFor(cfg: Config, fwm: map<AF, nat>, anycast: set<IP>, k: ServiceKey)
    requires ConfigOK(cfg, anycast) && MarksOK(cfg, fwm)
    ensures Wanted(cfg, fwm, k) <==> ServiceFor(cfg, fwm, k)
  {
    if ServiceFor(cfg, fwm, k) {
      if cfg.useFWM {
        var e :| e in cfg.entries;
        assert k == KeyFor(cfg, fwm, k.af, e);
      } else {
        assert k == KeyFor(cfg, fwm, k.af, EntryKey(k.port, k.proto));
      }
    }
  }

  lemma VIPConfigured(cfg: Config, anycast: set<IP>, ip: IP)
    requires ConfigOK(cfg, anycast) && cfg.Addr(ip.af) == Some(ip)
    ensures FindVIP(cfg, ip, anycast) in cfg.vips && FindVIP(cfg, ip, anycast).ip == ip
  {
    var vip :| vip in cfg.vips && vip.ip == cfg.Addr(ip.af).value;
    assert vip == VIP(ip, vip.kind);
  }

  lemma ReflectsAsConfigured(cfg: Config, fwm: map<AF, nat>, anycast: set<IP>, k: ServiceKey, s: Service)
    requires ConfigOK(cfg, anycast) && ServiceReflects(cfg, fwm, anycast, k, s)
    requires DestsReflect(cfg, k, s.entry, s.dests)
    requires forall ip, c | ip in s.dests :: c in s.dests[ip].checks <==> WantedCheck(cfg, k, s, ip, s.dests[ip], c)
    ensures ServiceAsConfigured(cfg, k, s)
  {
    hide WantedCheck, CheckFor, IpvsServiceOf, IpvsDestOf;
    var e :| e in cfg.entries && k == KeyFor(cfg, fwm, k.af, e) && s.entry == cfg.entries[e];
    VIPConfigured(cfg, anycast, s.vip.ip);
    forall ip | ip in s.dests
      ensures exists b :: BackendFor(cfg, k.af, ip, b) && s.dests[ip].backend == cfg.backends[b]
    {
      assert DestReflects(cfg, k, s.entry, ip, s.dests[ip]);
      var b :| b in cfg.backends && cfg.backends[b] == s.dests[ip].backend;
      assert BackendFor(cfg, k.af, ip, b);
    }
    forall ip, c | ip in s.dests
      ensures c in s.dests[ip].checks <==> s.dests[ip].backend.enabled && CheckFor(cfg, k, ip, c)
    {
      WantedIff(cfg, fwm, anycast, k, s, ip, s.dests[ip], c);
    }
  }

  /** Records made from a configuration are what it says, field by field. */
  lemma RecordsAre(cfg: Config, fwm: map<AF, nat>, anycast: set<IP>, svcs: Services)
    requires ConfigOK(cfg, anycast) && MarksOK(cfg, fwm) && Reflects(cfg, fwm, anycast, svcs) && Checked(cfg, svcs, {})
    ensures RecordsAsConfigured(cfg, fwm, svcs)
  {
    hide ConfigOK, MarksOK, Wanted, ServiceFor, ServiceReflects, DestsReflect, WantedCheck, ServiceAsConfigured;
    forall k
      ensures k in svcs <==> ServiceFor(cfg, fwm, k)
    {
      WantedFor(cfg, fwm, anycast, k);
    }
    forall k | k in svcs
      ensures ServiceAsConfigured(cfg, k, svcs[k])
    {
      assert forall ip, c | ip in svcs[k].dests && DestRef(k, ip) !in {} ::
        c in svcs[k].dests[ip].checks <==> WantedCheck(cfg, k, svcs[k], ip, svcs[k].dests[ip], c);
      ReflectsAsConfigured(cfg, fwm, anycast, k, svcs[k]);
    }
  }

  // ---- The IPVS table ----

  function IdFamily(id: SvcId): AF {
    if id.AddrId? then id.ip.af else id.af
  }

  /** A service in the table is one of the configuration, with the settings of entry e. */
  predicate InstalledService(cfg: Config, fwm: map<AF, nat>, id: SvcId, e: EntryKey, svc: IpvsService) {
    e in cfg.entries && cfg.Addr(IdFamily(id)).Some? &&
    var entry := cfg.entries[e];
    && (match id
        case AddrId(ip, proto, port) =>
          && !cfg.useFWM && cfg.Addr(ip.af) == Some(ip) && e == EntryKey(port, proto)
          && svc.address == ip && svc.proto == proto && svc.port == port && svc.fwm == 0
        case FwmId(af, mark) =>
          && cfg.useFWM && af in fwm && mark == fwm[af]
          && svc.address == IP(af, 0) && svc.proto == 0 && svc.port == 0 && svc.fwm == mark)
    && svc.scheduler == entry.scheduler
    && svc.persistent == (entry.persistence > 0) && svc.timeout == entry.persistence % 0x1_0000_0000
    && svc.onePacket == entry.onePacket
    && svc.shFallbackPort == entry.scheduler.SH? && svc.mhFallbackPort == entry.scheduler.MH?
  }

  /** A destination in the table is that of a backend: it has its address and weight, the port of its service, and the
      mode and thresholds of entry e. */
  ghost predicate InstalledDest(cfg: Config, id: SvcId, e: EntryKey, ip: IP, dst: IpvsDest)
    requires e in cfg.entries
  {
    && dst.address == ip && dst.port == (if id.AddrId? then id.port else 0)
    && (exists b :: BackendFor(cfg, IdFamily(id), ip, b) && dst.weight == cfg.backends[b].weight)
    && dst.forward == cfg.entries[e].mode
    && dst.lowerThreshold == cfg.entries[e].lowerThreshold % 0x1_0000_0000
    && dst.upperThreshold == cfg.entries[e].upperThreshold % 0x1_0000_0000
  }

  ghost predicate EntryInstalled(cfg: Config, fwm: map<AF, nat>, id: SvcId, e: EntryKey, entry: IpvsEntry) {
    && InstalledService(cfg, fwm, id, e, entry.svc)
    && forall ip | ip in entry.dests :: InstalledDest(cfg, id, e, ip, entry.dests[ip])
  }

  ghost predicate TableAsConfigured(cfg: Config, fwm: map<AF, nat>, ipvs: map<SvcId, IpvsEntry>) {
    forall id | id in ipvs :: exists e :: EntryInstalled(cfg, fwm, id, e, ipvs[id])
  }

  lemma TableEntryIs(cfg: Config, fwm: map<AF, nat>, anycast: set<IP>, k: ServiceKey, s: Service, entry: IpvsEntry)
    returns (e: EntryKey)
    requires ConfigOK(cfg, anycast) && MarksOK(cfg, fwm) && ServiceReflects(cfg, fwm, anycast, k, s)
    requires DestsReflect(cfg, k, s.entry, s.dests) && entry.svc == s.ipvsSvc
    requires forall ip | ip in entry.dests :: ip in s.dests && entry.dests[ip] == s.dests[ip].ipvsDst
    ensures EntryInstalled(cfg, fwm, IdOf(s.ipvsSvc), e, entry)
  {
    e :| e in cfg.entries && k == KeyFor(cfg, fwm, k.af, e) && s.entry == cfg.entries[e];
    var id := IdOf(s.ipvsSvc);
    assert InstalledService(cfg, fwm, id, e, s.ipvsSvc);
    forall ip | ip in entry.dests
      ensures InstalledDest(cfg, id, e, ip, entry.dests[ip])
    {
      assert DestReflects(cfg, k, s.entry, ip, s.dests[ip]);
      var b :| b in cfg.backends && cfg.backends[b] == s.dests[ip].backend;
      assert BackendFor(cfg, IdFamily(id), ip, b);
    }
  }

  /** A service stands in the table exactly if it is healthy on an active address, with exactly its healthy
      destinations. An address is active exactly if a service of it is healthy and, for anycast, each is. The routed
      addresses are the active anycast ones. */
  ghost predicate UpExactly(st: State, svcs: Services, active: set<IP>, anycast: set<IP>, routed: bool) {
    && (forall k | k in svcs ::
          IdFor(k, svcs[k].vip.ip) in st.ipvs <==> svcs[k].healthy && svcs[k].vip.ip in active)
    && (forall k, ip | k in svcs && IdFor(k, svcs[k].vip.ip) in st.ipvs ::
          ip in st.ipvs[IdFor(k, svcs[k].vip.ip)].dests <==> ip in svcs[k].dests && svcs[k].dests[ip].healthy)
    && (forall ip :: ip in active <==>
          && (exists k :: k in svcs && svcs[k].vip.ip == ip && svcs[k].healthy)
          && (ip in anycast ==> forall k | k in svcs && svcs[k].vip.ip == ip :: svcs[k].healthy))
    && (forall ip :: ip in st.routes <==> routed && ip in anycast && ip in active)
  }

  lemma WhatIsUp(st: State, svcs: Services, active: set<IP>, vips: set<VIP>, lb: map<IP, Snapshot>, anycast: set<IP>,
                 routed: bool)
    requires ServicesOK(svcs) && st.ipvs == TableOf(svcs) && Settled(svcs, active) && VipsExact(svcs, active, anycast)
    requires InterfaceFits(st, active, vips, lb, anycast, routed)
    ensures UpExactly(st, svcs, active, anycast, routed)
  {
    forall k | k in svcs
      ensures var id := IdFor(k, svcs[k].vip.ip);
              && (id in st.ipvs <==> svcs[k].healthy && svcs[k].vip.ip in active)
              && (id in st.ipvs ==> forall ip ::
                    ip in st.ipvs[id].dests <==> ip in svcs[k].dests && svcs[k].dests[ip].healthy)
    {
      assert ServiceOK(k, svcs[k]) && svcs[k] == Settle(svcs[k], active);
    }
  }

  /** The exact table of such records is what the configuration says. */
  lemma TableIs(cfg: Config, fwm: map<AF, nat>, anycast: set<IP>, svcs: Services)
    requires ConfigOK(cfg, anycast) && MarksOK(cfg, fwm) && Reflects(cfg, fwm, anycast, svcs) && ServicesOK(svcs)
    ensures TableAsConfigured(cfg, fwm, TableOf(svcs))
  {
    hide ConfigOK, MarksOK, Wanted, ServiceReflects, DestsReflect, EntryInstalled;
    forall id | id in TableOf(svcs)
      ensures exists e :: EntryInstalled(cfg, fwm, id, e, TableOf(svcs)[id])
    {
      var e := TableEntryIs(cfg, fwm, anycast, KeyOf(id), svcs[KeyOf(id)], TableOf(svcs)[id]);
    }
  }

  /** A backend that alone has its address has its own weight in the table, wherever it is a destination. */
  lemma WeightInstalled(cfg: Config, fwm: map<AF, nat>, ipvs: map<SvcId, IpvsEntry>, id: SvcId, ip: IP, b: string)
    requires TableAsConfigured(cfg, fwm, ipvs) && id in ipvs && ip in ipvs[id].dests
    requires BackendFor(cfg, IdFamily(id), ip, b) && forall b' | BackendFor(cfg, IdFamily(id), ip, b') :: b' == b
    ensures ipvs[id].dests[ip].weight == cfg.backends[b].weight
  {
    var e :| EntryInstalled(cfg, fwm, id, e, ipvs[id]);
    assert InstalledDest(cfg, id, e, ip, ipvs[id].dests[ip]);
  }

  // ---- The interface ----

  function KeyOfEntry(e: Entry): EntryKey {
    EntryKey(e.port, e.proto)
  }

  /** Entries are filed under their own port and protocol. */
  predicate EntriesFiled(cfg: Config) {
    forall e | e in cfg.entries :: KeyOfEntry(cfg.entries[e]) == e
  }

  lemma Filed(cfg: Config, anycast: set<IP>)
    requires ConfigOK(cfg, anycast)
    ensures EntriesFiled(cfg)
  {
  }

  /** A vserver description has each port and protocol of the configuration once, in the mode it has there, and the mark
      in force for the family. */
  ghost predicate SnapFits(snap: Snapshot, af: AF, cfg: Config, fwm: map<AF, nat>) {
    && (forall i | 0 <= i < |snap.entries| ::
          KeyOfEntry(snap.entries[i]) in cfg.entries &&
          snap.entries[i].mode == cfg.entries[KeyOfEntry(snap.entries[i])].mode)
    && (forall e | e in cfg.entries :: exists i :: 0 <= i < |snap.entries| && KeyOfEntry(snap.entries[i]) == e)
    && (forall i, j | 0 <= i < j < |snap.entries| :: KeyOfEntry(snap.entries[i]) != KeyOfEntry(snap.entries[j]))
    && (af in snap.fwm <==> af in fwm) && (af in fwm ==> snap.fwm[af] == fwm[af])
  }

  /** Each vserver on the interface has the ports, protocols, modes and marks of the configuration in force. */
  ghost predicate SnapsFit(lb: map<IP, Snapshot>, config: Option<Config>, fwm: map<AF, nat>) {
    config.Some? && EntriesFiled(config.value) ==> forall ip | ip in lb :: SnapFits(lb[ip], ip.af, config.value, fwm)
  }

  lemma SnapsMore(lb: map<IP, Snapshot>, config: Option<Config>, fwm: map<AF, nat>, ip: IP, snap: Snapshot)
    requires SnapsFit(lb, config, fwm)
    requires config.Some? && EntriesFiled(config.value) ==> SnapFits(snap, ip.af, config.value, fwm)
    ensures SnapsFit(lb[ip := snap], config, fwm)
  {
    hide SnapFits, EntriesFiled;
  }

  lemma SnapsLess(lb: map<IP, Snapshot>, config: Option<Config>, fwm: map<AF, nat>, ip: IP)
    requires SnapsFit(lb, config, fwm)
    ensures SnapsFit(lb - {ip}, config, fwm)
  {
    hide SnapFits, EntriesFiled;
  }

  lemma NoSnaps(config: Option<Config>, fwm: map<AF, nat>)
    ensures SnapsFit(map[], config, fwm)
  {
  }

  /** A configuration that keeps ports, protocols and modes keeps the descriptions right, and so do marks drawn for
      families that had none. */
  lemma SnapsCarry(lb: map<IP, Snapshot>, old_: Config, cfg: Config, anycast: set<IP>, fwm: map<AF, nat>,
                   fwm': map<AF, nat>)
    requires SnapsFit(lb, Some(old_), fwm) && ConfigOK(old_, anycast) && ConfigOK(cfg, anycast) && SameLayout(old_, cfg)
    requires MarksOK(old_, fwm) && forall ip | ip in lb :: old_.Addr(ip.af) == Some(ip)
    requires forall af | af in fwm :: af in fwm' && fwm'[af] == fwm[af]
    requires forall af | af in fwm' && af !in fwm :: cfg.useFWM
    ensures SnapsFit(lb, Some(cfg), fwm')
  {
    assert EntriesFiled(old_);
    forall ip | ip in lb
      ensures SnapFits(lb[ip], ip.af, cfg, fwm')
    {
      assert SnapFits(lb[ip], ip.af, old_, fwm);
    }
  }

  /** Only configured addresses are on the interface. */
  lemma InterfaceAddresses(st: State, active: set<IP>, vips: set<VIP>, lb: map<IP, Snapshot>, anycast: set<IP>,
                           enabled: bool, cfg: Config, svcs: Services)
    requires InterfaceFits(st, active, vips, lb, anycast, enabled) && ConfigOK(cfg, anycast) && vips <= cfg.vips
    requires VipsExact(svcs, active, anycast)
    requires forall k | k in svcs :: cfg.Addr(svcs[k].vip.ip.af) == Some(svcs[k].vip.ip)
    ensures forall ip | ip in lb :: cfg.Addr(ip.af) == Some(ip) && lb[ip].Addr(ip.af) == Some(ip)
    ensures st.vservers == lb && forall vip | vip in vips :: vip.ip in lb
  {
    forall vip | vip in vips
      ensures vip.ip in lb
    {
      assert vip == VIP(vip.ip, UnicastVIP) || vip == VIP(vip.ip, DedicatedVIP);
    }
  }

  /** The entries outside `todo`, each once. */
  ghost predicate EntriesListed(cfg: Config, es: seq<Entry>, todo: set<EntryKey>) {
    && (forall i | 0 <= i < |es| ::
          var e := KeyOfEntry(es[i]); e in cfg.entries && e !in todo && es[i] == cfg.entries[e])
    && (forall e | e in cfg.entries && e !in todo :: exists i :: 0 <= i < |es| && KeyOfEntry(es[i]) == e)
    && (forall i, j | 0 <= i < j < |es| :: KeyOfEntry(es[i]) != KeyOfEntry(es[j]))
  }

  lemma ListedMore(cfg: Config, es: seq<Entry>, todo: set<EntryKey>, e: EntryKey)
    requires e in todo && e in cfg.entries
    ensures EntriesFiled(cfg) && EntriesListed(cfg, es, todo) ==>
              EntriesListed(cfg, es + [cfg.entries[e]], todo - {e})
  {
    if EntriesFiled(cfg) && EntriesListed(cfg, es, todo) {
      var es' := es + [cfg.entries[e]];
      assert KeyOfEntry(es'[|es|]) == e;
      forall d | d in cfg.entries && d !in todo - {e}
        ensures exists i :: 0 <= i < |es'| && KeyOfEntry(es'[i]) == d
      {
        if d != e {
          var i :| 0 <= i < |es| && KeyOfEntry(es[i]) == d;
          assert KeyOfEntry(es'[i]) == d;
        }
      }
    }
  }

  lemma ListedFits(cfg: Config, snap: Snapshot)
    requires EntriesListed(cfg, snap.entries, {})
    ensures forall af :: SnapFits(snap, af, cfg, snap.fwm)
  {
  }

  lemma BareInterface(st: State, lb: map<IP, Snapshot>, anycast: set<IP>, enabled: bool)
    requires InterfaceFits(st, {}, {}, lb, anycast, enabled)
    ensures lb == map[]
  {
    assert lb.Keys == {};
  }

  // ---- The iptables rules ----

  /** How many entries there are of a protocol and port, or of those in NAT mode. */
  function EntryCount(cfg: Config, proto: nat, port: nat, natOnly: bool): nat {
    var e := EntryKey(port, proto);
    if e in cfg.entries && (natOnly ==> cfg.entries[e].mode.LBNAT?) then 1 else 0
  }

  /** The rules for an address: in the INPUT chain its services are accepted, each once, then ICMP, and the rest is
      rejected; the packets of each service are marked once if a mark is in force for the family; and those of the
      services in NAT mode are tracked, and rewritten to the address of the cluster, once. */
  ghost predicate RulesAsConfigured(t: Iptables.Tables, cfg: Config, fwm: map<AF, nat>, cluster: Iptables.Host,
                                    ip: IP)
  {
    var input := Iptables.InputOf(t.input, ip);
    && |input| >= 3 && (forall i | 0 <= i < |input| - 3 :: input[i].Accept?)
    && input[|input| - 3..] == [Iptables.AcceptICMP(ip), Iptables.AcceptICMPv6(ip), Iptables.Reject(ip)]
    && (forall p, q :: multiset(input)[Iptables.Accept(ip, p, q)] == EntryCount(cfg, p, q, false))
    && (forall p, q, m :: t.others[Iptables.Mark(ip, p, q, m)] ==
          if ip.af in fwm && m == fwm[ip.af] && m > 0 then EntryCount(cfg, p, q, false) else 0)
    && (forall p, q :: t.others[Iptables.Track(ip, p, q)] == EntryCount(cfg, p, q, true))
    && (forall p, q, source :: t.others[Iptables.Rewrite(ip, p, q, source)] ==
          if Some(source) == cluster.Addr(ip.af) then EntryCount(cfg, p, q, true) else 0)
  }

  /** The tables have the rules of the configuration for the addresses on the interface, and none for others. */
  ghost predicate TablesAsConfigured(t: Iptables.Tables, cfg: Config, fwm: map<AF, nat>, cluster: Iptables.Host,
                                     lb: map<IP, Snapshot>)
  {
    forall ip: IP :: if ip in lb then RulesAsConfigured(t, cfg, fwm, cluster, ip) else NoRules(t, ip)
  }

  /** No rule for an address. */
  ghost predicate NoRules(t: Iptables.Tables, ip: IP) {
    Iptables.InputOf(t.input, ip) == [] && forall r: Iptables.Rule | r.vip == ip :: t.others[r] == 0
  }

  lemma CountOf(snap: Snapshot, af: AF, cfg: Config, fwm: map<AF, nat>, proto: nat, port: nat, natOnly: bool)
    requires SnapFits(snap, af, cfg, fwm)
    ensures |Iptables.Entries(snap.entries, proto, port, natOnly)| == EntryCount(cfg, proto, port, natOnly)
  {
    var hits, e := Iptables.Entries(snap.entries, proto, port, natOnly), EntryKey(port, proto);
    forall i | i in hits
      ensures KeyOfEntry(snap.entries[i]) == e
    {
    }
    if e in cfg.entries {
      var i :| 0 <= i < |snap.entries| && KeyOfEntry(snap.entries[i]) == e;
      assert snap.entries[i].mode == cfg.entries[e].mode;
      assert forall j | j in hits :: j == i;
      assert hits == if natOnly ==> cfg.entries[e].mode.LBNAT? then {i} else {};
    } else {
      assert hits == {};
    }
  }

  lemma RuleCountOf(snap: Snapshot, cluster: Iptables.Host, cfg: Config, fwm: map<AF, nat>, ip: IP, p: nat, q: nat,
                    m: nat, source: IP)
    requires snap.Addr(ip.af) == Some(ip) && cluster.Addr(ip.af).Some? && SnapFits(snap, ip.af, cfg, fwm)
    ensures Iptables.RuleCount(snap, cluster, ip.af, Iptables.Accept(ip, p, q)) == EntryCount(cfg, p, q, false)
    ensures Iptables.RuleCount(snap, cluster, ip.af, Iptables.Mark(ip, p, q, m)) ==
            if ip.af in fwm && m == fwm[ip.af] && m > 0 then EntryCount(cfg, p, q, false) else 0
    ensures Iptables.RuleCount(snap, cluster, ip.af, Iptables.Track(ip, p, q)) == EntryCount(cfg, p, q, true)
    ensures Iptables.RuleCount(snap, cluster, ip.af, Iptables.Rewrite(ip, p, q, source)) ==
            if Some(source) == cluster.Addr(ip.af) then EntryCount(cfg, p, q, true) else 0
  {
    CountOf(snap, ip.af, cfg, fwm, p, q, false);
    CountOf(snap, ip.af, cfg, fwm, p, q, true);
    hide Iptables.Entries, EntryCount;
  }

  /** In the tables a run leads to, an address on the interface whose description fits the configuration has the rules
      of that configuration. */
  lemma RulesAreConfigured(cs: seq<Command>, st: State, cluster: Iptables.Host, cfg: Config, fwm: map<AF, nat>, ip: IP)
    requires Replay(cs) == Some(st) && Iptables.ReplayRules(cs, cluster).Some? && ip in st.vservers
    requires st.vservers[ip].Addr(ip.af) == Some(ip) && SnapFits(st.vservers[ip], ip.af, cfg, fwm)
    ensures RulesAsConfigured(Iptables.ReplayRules(cs, cluster).value, cfg, fwm, cluster, ip)
  {
    hide Replay, Iptables.ReplayRules, SnapFits, EntryCount, Iptables.Rules, Iptables.InputOf, Iptables.RuleCount;
    var t, snap := Iptables.ReplayRules(cs, cluster).value, st.vservers[ip];
    Iptables.RulesFollow(cs, st, cluster);
    Iptables.StillAdded(cs, st, cluster);
    InputConfigured(cs, st, cluster, cfg, fwm, ip);
    forall p, q, m
      ensures t.others[Iptables.Mark(ip, p, q, m)] ==
          if ip.af in fwm && m == fwm[ip.af] && m > 0 then EntryCount(cfg, p, q, false) else 0
    {
      Iptables.TablesAre(cs, st, cluster, Iptables.Mark(ip, p, q, m));
      RuleCountOf(snap, cluster, cfg, fwm, ip, p, q, m, ip);
    }
    forall p, q
      ensures t.others[Iptables.Track(ip, p, q)] == EntryCount(cfg, p, q, true)
    {
      Iptables.TablesAre(cs, st, cluster, Iptables.Track(ip, p, q));
      RuleCountOf(snap, cluster, cfg, fwm, ip, p, q, 0, ip);
    }
    forall p, q, source
      ensures t.others[Iptables.Rewrite(ip, p, q, source)] ==
          if Some(source) == cluster.Addr(ip.af) then EntryCount(cfg, p, q, true) else 0
    {
      Iptables.TablesAre(cs, st, cluster, Iptables.Rewrite(ip, p, q, source));
      RuleCountOf(snap, cluster, cfg, fwm, ip, p, q, 0, source);
    }
  }

  lemma InputConfigured(cs: seq<Command>, st: State, cluster: Iptables.Host, cfg: Config, fwm: map<AF, nat>, ip: IP)
    requires Replay(cs) == Some(st) && Iptables.ReplayRules(cs, cluster).Some? && ip in st.vservers
    requires st.vservers[ip].Addr(ip.af) == Some(ip) && SnapFits(st.vservers[ip], ip.af, cfg, fwm)
    ensures var input := Iptables.InputOf(Iptables.ReplayRules(cs, cluster).value.input, ip);
            && |input| >= 3 && (forall i | 0 <= i < |input| - 3 :: input[i].Accept?)
            && input[|input| - 3..] == [Iptables.AcceptICMP(ip), Iptables.AcceptICMPv6(ip), Iptables.Reject(ip)]
            && (forall p, q :: multiset(input)[Iptables.Accept(ip, p, q)] == EntryCount(cfg, p, q, false))
  {
    hide Replay, Iptables.ReplayRules, SnapFits, EntryCount, Iptables.Rules, Iptables.InputOf, Iptables.RuleCount;
    var t, snap := Iptables.ReplayRules(cs, cluster).value, st.vservers[ip];
    Iptables.RulesFollow(cs, st, cluster);
    Iptables.StillAdded(cs, st, cluster);
    Iptables.RulesWhen(snap, cluster, ip.af);
    assert Iptables.Holds(t, ip, Iptables.InputWanted(st.vservers, cluster, ip),
                          Iptables.OthersWanted(st.vservers, cluster, ip));
    var rules := Iptables.Rules(snap, cluster, ip.af).value;
    assert Iptables.InputOf(t.input, ip) == Iptables.InputOf(rules, ip);
    Iptables.RejectLast(snap, cluster, ip.af);
    forall p, q
      ensures multiset(Iptables.InputOf(rules, ip))[Iptables.Accept(ip, p, q)] == EntryCount(cfg, p, q, false)
    {
      Iptables.InputAre(rules, ip, Iptables.Accept(ip, p, q));
      Iptables.RulesAre(snap, cluster, ip.af, Iptables.Accept(ip, p, q));
      RuleCountOf(snap, cluster, cfg, fwm, ip, p, q, 0, ip);
    }
  }

  lemma TablesAreConfigured(cs: seq<Command>, st: State, cluster: Iptables.Host, cfg: Config, fwm: map<AF, nat>)
    requires Replay(cs) == Some(st) && Iptables.ReplayRules(cs, cluster).Some?
    requires EntriesFiled(cfg) && SnapsFit(st.vservers, Some(cfg), fwm)
    requires forall ip | ip in st.vservers :: st.vservers[ip].Addr(ip.af) == Some(ip)
    ensures TablesAsConfigured(Iptables.ReplayRules(cs, cluster).value, cfg, fwm, cluster, st.vservers)
  {
    hide Replay, Iptables.ReplayRules, SnapFits, RulesAsConfigured, NoRules;
    var t := Iptables.ReplayRules(cs, cluster).value;
    forall ip: IP
      ensures if ip in st.vservers then RulesAsConfigured(t, cfg, fwm, cluster, ip) else NoRules(t, ip)
    {
      if ip in st.vservers {
        RulesAreConfigured(cs, st, cluster, cfg, fwm, ip);
      } else {
        ElsewhereNone(cs, st, cluster, ip);
      }
    }
  }

  lemma ElsewhereNone(cs: seq<Command>, st: State, cluster: Iptables.Host, ip: IP)
    requires Replay(cs) == Some(st) && Iptables.ReplayRules(cs, cluster).Some? && ip !in st.vservers
    ensures NoRules(Iptables.ReplayRules(cs, cluster).value, ip)
  {
    hide Replay, Iptables.ReplayRules, Iptables.InputOf;
    Iptables.RulesFollow(cs, st, cluster);
    assert Iptables.Holds(Iptables.ReplayRules(cs, cluster).value, ip, Iptables.InputWanted(st.vservers, cluster, ip),
                          Iptables.OthersWanted(st.vservers, cluster, ip));
  }

  // ---- Updates that disturb nothing ----

  /** The configuration has backends at this address, all of them enabled. */
  ghost predicate EnabledBackend(cfg: Config, af: AF, ip: IP) {
    (exists b :: BackendFor(cfg, af, ip, b)) && forall b | BackendFor(cfg, af, ip, b) :: cfg.backends[b].enabled
  }

  /** If the vserver keeps its addresses, and every healthy destination a backend that is enabled, then what was up
      stays up: the same addresses, and every service and destination in the table. */
  ghost predicate ServesOn(old_: Config, cfg: Config, svcs: Services, active: set<IP>, st: State, active': set<IP>,
                           st': State)
  {
    (forall af :: cfg.Addr(af) == old_.Addr(af)) &&
    (forall k, ip | k in svcs && ip in svcs[k].dests && svcs[k].dests[ip].healthy :: EnabledBackend(cfg, k.af, ip)) ==>
      active' == active &&
      forall id | id in st.ipvs :: id in st'.ipvs && st.ipvs[id].dests.Keys <= st'.ipvs[id].dests.Keys
  }

  lemma UpdateServesOn(old_: Config, cfg: Config, fwm: map<AF, nat>, anycast: set<IP>, was: Services, svcs: Services,
                       active: set<IP>, st: State, active': set<IP>, st': State)
    requires SameLayout(old_, cfg) && Reflects(old_, fwm, anycast, was) && Reflects(cfg, fwm, anycast, svcs)
    requires ServicesOK(was) && Settled(was, active) && VipsExact(was, active, anycast) && st.ipvs == TableOf(was)
    requires ServicesOK(svcs) && Settled(svcs, active') && VipsExact(svcs, active', anycast)
    requires st'.ipvs == TableOf(svcs) && Carried(was, svcs)
    ensures ServesOn(old_, cfg, was, active, st, active', st')
  {
    hide Reflects, ServicesOK, Settled, VipsExact, TableOf, Carried, SameLayout, EnabledBackend;
    if (forall af :: cfg.Addr(af) == old_.Addr(af)) &&
      (forall k, ip | k in was && ip in was[k].dests && was[k].dests[ip].healthy :: EnabledBackend(cfg, k.af, ip)) {
      LayoutServices(old_, cfg, fwm, anycast, was, svcs);
      forall k | k in was
        ensures Spared(was, svcs, k)
      {
        forall i | i in was[k].dests && was[k].dests[i].healthy
          ensures EnabledAt(svcs, k, i)
        {
          BackendEnabled(cfg, fwm, anycast, svcs, k, i);
        }
      }
      StaysUp(was, svcs, active, active', anycast);
      TableStays(was, svcs);
    }
  }

  lemma WantedAlike(old_: Config, cfg: Config, fwm: map<AF, nat>, k: ServiceKey)
    requires SameLayout(old_, cfg) && forall af :: cfg.Addr(af) == old_.Addr(af)
    ensures Wanted(old_, fwm, k) <==> Wanted(cfg, fwm, k)
  {
    if Wanted(old_, fwm, k) {
      var e :| e in old_.entries && k == KeyFor(old_, fwm, k.af, e);
      assert e in cfg.entries && k == KeyFor(cfg, fwm, k.af, e);
    }
    if Wanted(cfg, fwm, k) {
      var e :| e in cfg.entries && k == KeyFor(cfg, fwm, k.af, e);
      assert e in old_.entries && k == KeyFor(old_, fwm, k.af, e);
    }
  }

  lemma LayoutServices(old_: Config, cfg: Config, fwm: map<AF, nat>, anycast: set<IP>, was: Services, svcs: Services)
    requires SameLayout(old_, cfg) && Reflects(old_, fwm, anycast, was) && Reflects(cfg, fwm, anycast, svcs)
    requires forall af :: cfg.Addr(af) == old_.Addr(af)
    ensures was.Keys == svcs.Keys && forall k | k in was :: svcs[k].vip.ip == was[k].vip.ip
  {
    hide DestsReflect, EntryFor, Wanted, SameLayout;
    forall k
      ensures Wanted(old_, fwm, k) <==> Wanted(cfg, fwm, k)
    {
      WantedAlike(old_, cfg, fwm, k);
    }
    forall k | k in was
      ensures k in svcs && svcs[k].vip.ip == was[k].vip.ip
    {
    }
  }

  lemma BackendEnabled(cfg: Config, fwm: map<AF, nat>, anycast: set<IP>, svcs: Services, k: ServiceKey, ip: IP)
    requires Reflects(cfg, fwm, anycast, svcs) && k in svcs && EnabledBackend(cfg, k.af, ip)
    ensures EnabledAt(svcs, k, ip)
  {
    hide Wanted, ServiceReflects;
    var b :| BackendFor(cfg, k.af, ip, b);
    assert cfg.backends[b].Addr(k.af).value in svcs[k].dests;
    assert DestReflects(cfg, k, svcs[k].entry, ip, svcs[k].dests[ip]);
    var b' :| b' in cfg.backends && cfg.backends[b'] == svcs[k].dests[ip].backend;
    assert BackendFor(cfg, k.af, ip, b');
  }

  lemma StaysUp(was: Services, svcs: Services, active: set<IP>, active': set<IP>, anycast: set<IP>)
    requires Settled(was, active) && VipsExact(was, active, anycast)
    requires Settled(svcs, active') && VipsExact(svcs, active', anycast) && Carried(was, svcs)
    requires was.Keys == svcs.Keys && forall k | k in was :: svcs[k].vip.ip == was[k].vip.ip && Spared(was, svcs, k)
    ensures active' == active
    ensures forall k | k in was :: svcs[k].active == was[k].active
    ensures forall k, ip | k in was && ip in was[k].dests && was[k].dests[ip].active ::
              ip in svcs[k].dests && svcs[k].dests[ip].active
  {
    assert forall k | k in was :: svcs[k].healthy == was[k].healthy;
    forall ip
      ensures VipHealth(svcs, ip, anycast) == VipHealth(was, ip, anycast)
    {
      VipHealthSame(was, svcs, ip, anycast);
    }
    assert active' == active;
    forall k | k in was
      ensures svcs[k].active == was[k].active
      ensures forall ip | ip in was[k].dests && was[k].dests[ip].active ::
                ip in svcs[k].dests && svcs[k].dests[ip].active
    {
      SettledUp(was, svcs, active, k);
    }
  }

  lemma SettledUp(was: Services, svcs: Services, active: set<IP>, k: ServiceKey)
    requires Settled(was, active) && Settled(svcs, active) && Carried(was, svcs) && k in was && k in svcs
    requires svcs[k].vip.ip == was[k].vip.ip && svcs[k].healthy == was[k].healthy && Spared(was, svcs, k)
    ensures svcs[k].active == was[k].active
    ensures forall ip | ip in was[k].dests && was[k].dests[ip].active :: ip in svcs[k].dests && svcs[k].dests[ip].active
  {
    assert was[k] == Settle(was[k], active) && svcs[k] == Settle(svcs[k], active);
    forall ip | ip in was[k].dests && was[k].dests[ip].active
      ensures ip in svcs[k].dests && svcs[k].dests[ip].active
    {
      assert was[k].dests[ip].healthy && EnabledAt(svcs, k, ip);
      assert HealthOf(was, k, ip) && HealthOf(svcs, k, ip);
    }
  }

  lemma TableStays(was: Services, svcs: Services)
    requires ServicesOK(was) && ServicesOK(svcs) && was.Keys == svcs.Keys
    requires forall k | k in was :: svcs[k].vip.ip == was[k].vip.ip && svcs[k].active == was[k].active
    requires forall k, ip | k in was && ip in was[k].dests && was[k].dests[ip].active ::
               ip in svcs[k].dests && svcs[k].dests[ip].active
    ensures forall id | id in TableOf(was) ::
              id in TableOf(svcs) && TableOf(was)[id].dests.Keys <= TableOf(svcs)[id].dests.Keys
  {
    forall id | id in TableOf(was)
      ensures id in TableOf(svcs) && TableOf(was)[id].dests.Keys <= TableOf(svcs)[id].dests.Keys
    {
      var k := KeyOf(id);
      assert k in was && IdOf(was[k].ipvsSvc) == id && IdOf(svcs[k].ipvsSvc) == id;
    }
  }

  function Reweighed(cfg: Config, b: string, w: nat): Config
    requires b in cfg.backends
  {
    cfg.(backends := cfg.backends[b := cfg.backends[b].(weight := w)])
  }

  /** An update that changes the weight of a backend alone puts the new weight into every destination of that backend in
      the table, and takes none out, where the backends of healthy destinations are enabled. */
  lemma NewWeight(cfg: Config, fwm: map<AF, nat>, b: string, w: nat, svcs: Services, active: set<IP>, st: State,
                  active': set<IP>, st': State, id: SvcId, ip: IP)
    requires b in cfg.backends && ServesOn(cfg, Reweighed(cfg, b, w), svcs, active, st, active', st')
    requires TableAsConfigured(Reweighed(cfg, b, w), fwm, st'.ipvs)
    requires forall k, i | k in svcs && i in svcs[k].dests && svcs[k].dests[i].healthy :: EnabledBackend(cfg, k.af, i)
    requires id in st.ipvs && ip in st.ipvs[id].dests && BackendFor(cfg, IdFamily(id), ip, b)
    requires forall n | BackendFor(cfg, IdFamily(id), ip, n) :: n == b
    ensures SameLayout(cfg, Reweighed(cfg, b, w))
    ensures id in st'.ipvs && ip in st'.ipvs[id].dests && st'.ipvs[id].dests[ip].weight == w
  {
    hide TableAsConfigured;
    var cfg' := Reweighed(cfg, b, w);
    assert forall af, i, n :: BackendFor(cfg', af, i, n) <==> BackendFor(cfg, af, i, n);
    forall k, i | k in svcs && i in svcs[k].dests && svcs[k].dests[i].healthy
      ensures EnabledBackend(cfg', k.af, i)
    {
      var n :| BackendFor(cfg, k.af, i, n);
      assert BackendFor(cfg', k.af, i, n);
    }
    WeightInstalled(cfg', fwm, st'.ipvs, id, ip, b);
  }
}
