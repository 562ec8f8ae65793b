/** From the cluster's protobuf to the configuration the engine works on: node priorities and vservers. */
module ClusterConfig {
  import opened Types
  import opened VserverConfig

  // Node priorities.

  /** The priority of the i-th of n nodes in the order of their IPv4 addresses, cut to 8 bits. */
  function Priority(n: nat, i: nat): nat
    requires i < n
  {
    if i == 0 then 255 else (n - i) % 256
  }

  method AssignPriorities(n: nat) returns (ps: seq<nat>)
    ensures |ps| == n && forall i | 0 <= i < n :: ps[i] == Priority(n, i)
  {
    ps := [];
    for i := 0 to n
      invariant |ps| == i && forall j | 0 <= j < i :: ps[j] == Priority(n, j)
    {
      if i == 0 {
        ps := ps + [255];
        continue;
      }
      ps := ps + [(n - i) % 256];
    }
  }

  predicate InRange(n: nat, i: nat)
    requires i < n
  {
    1 <= Priority(n, i) <= 255
  }

  predicate Outranks(n: nat, i: nat, j: nat)
    requires i < n && j < n
  {
    Priority(n, i) > Priority(n, j)
  }

  /** All priorities lie in 1..255 and fall strictly with the address order, so that no two are equal and none means
      shutdown, exactly for up to 255 nodes. */
  lemma PrioritiesDistinctIff(n: nat)
    ensures (forall i | 0 <= i < n :: InRange(n, i)) && (forall i, j | 0 <= i < j < n :: Outranks(n, i, j)) <==>
            n <= 255
  {
    if n == 256 {
      assert !Outranks(n, 0, 1);
    } else if n > 256 {
      assert !InRange(n, n - 256);
    }
  }

  /** Beyond 255 nodes two of them share a priority. */
  lemma PrioritiesCollide(n: nat)
    requires n > 255
    ensures exists i, j :: 0 <= i < j < n && Priority(n, i) == Priority(n, j)
  {
    assert Priority(n, n - 255) == 255 && Priority(n, 0) == 255;
  }

  // Vservers.

  datatype Status = PRODUCTION | TESTING | BUILDING | STANDBY | FAILURE | DISABLED | PROPOSED

  datatype ProtoHost = ProtoHost(fqdn: string, ipv4: Option<IP>, ipv6: Option<IP>, status: Status)

  /** An entry of the protobuf; an unsupported protocol is 0, an unsupported scheduler SchedNone, an unsupported mode
      LBNone. */
  datatype ProtoEntry = ProtoEntry(
    port: nat,
    proto: nat,
    scheduler: Scheduler,
    mode: LBMode,
    persistence: int,
    onePacket: bool,
    high: real,
    low: real,
    lowerThreshold: int,
    upperThreshold: int,
    healthchecks: seq<Healthcheck>)

  datatype ProtoBackend = ProtoBackend(host: ProtoHost, weight: int)

  datatype ProtoVserver = ProtoVserver(
    name: string,
    address: ProtoHost,
    useFWM: bool,
    entries: seq<ProtoEntry>,
    backends: seq<ProtoBackend>,
    healthchecks: seq<Healthcheck>)

  predicate Serves(s: Status) {
    s.PRODUCTION? || s.TESTING?
  }

  /** The first check of each name. */
  function FirstChecks(hs: seq<Healthcheck>): (r: map<string, Healthcheck>)
    ensures forall n | n in r :: r[n].name == n
  {
    if hs == [] then map[]
    else
      var r, h := FirstChecks(hs[..|hs| - 1]), hs[|hs| - 1];
      if h.name in r then r else r[h.name := h]
  }

  /** A name is kept exactly if some check has it, with the first such check. */
  lemma {:induction false} FirstChecksAre(hs: seq<Healthcheck>, n: string)
    ensures n in FirstChecks(hs) <==> exists i :: 0 <= i < |hs| && hs[i].name == n
    ensures n in FirstChecks(hs) ==>
            exists i :: 0 <= i < |hs| && hs[i].name == n && FirstChecks(hs)[n] == hs[i] &&
                        forall j | 0 <= j < i :: hs[j].name != n
  {
    if hs != [] {
      var last := |hs| - 1;
      FirstChecksAre(hs[..last], n);
      var r := FirstChecks(hs[..last]);
      if n in r {
        var i :| 0 <= i < last && hs[..last][i].name == n && r[n] == hs[..last][i] &&
                 forall j | 0 <= j < i :: hs[..last][j].name != n;
        assert hs[i].name == n && FirstChecks(hs)[n] == hs[i];
        assert forall j | 0 <= j < i :: hs[..last][j] == hs[j];
      } else {
        assert forall j | 0 <= j < last :: hs[..last][j] == hs[j];
        if hs[last].name == n {
          assert FirstChecks(hs)[n] == hs[last];
        }
      }
    }
  }

  predicate Supported(e: ProtoEntry) {
    e.proto != 0 && !e.scheduler.SchedNone? && !e.mode.LBNone?
  }

  function KeyOf(e: ProtoEntry): EntryKey {
    EntryKey(e.port % WORD, e.proto)
  }

  function Loaded(e: ProtoEntry): Entry {
    Entry(e.port % WORD, e.proto, e.scheduler, e.mode, e.persistence, e.onePacket,
      if e.high < e.low then e.low else e.high, e.low,
      e.lowerThreshold, e.upperThreshold, FirstChecks(e.healthchecks))
  }

  /** The i-th entry is the first supported one with its key. */
  predicate First(es: seq<ProtoEntry>, i: nat)
    requires i < |es|
  {
    Supported(es[i]) && forall j | 0 <= j < i :: Supported(es[j]) ==> KeyOf(es[j]) != KeyOf(es[i])
  }

  /** Of the first n entries, the first supported one of each key is loaded, and nothing else. */
  ghost predicate EntriesLoaded(es: seq<ProtoEntry>, n: nat, r: map<EntryKey, Entry>)
    requires n <= |es|
  {
    && (forall i | 0 <= i < n && First(es, i) :: KeyOf(es[i]) in r && r[KeyOf(es[i])] == Loaded(es[i]))
    && (forall k | k in r :: exists i :: 0 <= i < n && First(es, i) && KeyOf(es[i]) == k)
  }

  method LoadChecks(hs: seq<Healthcheck>) returns (r: map<string, Healthcheck>)
    ensures r == FirstChecks(hs)
  {
    r := map[];
    assert hs[..|hs|] == hs;
    for i := 0 to |hs|
      invariant r == FirstChecks(hs[..i])
    {
      assert hs[..i + 1][..i] == hs[..i];
      if hs[i].name !in r {
        r := r[hs[i].name := hs[i]];
      }
    }
  }

  lemma LoadNew(es: seq<ProtoEntry>, n: nat, r: map<EntryKey, Entry>)
    requires n < |es| && EntriesLoaded(es, n, r) && Supported(es[n]) && KeyOf(es[n]) !in r
    ensures EntriesLoaded(es, n + 1, r[KeyOf(es[n]) := Loaded(es[n])])
  {
    hide Loaded, Supported;
    SeenIsLoaded(es, n, r);
    assert First(es, n);
  }

  lemma LoadOld(es: seq<ProtoEntry>, n: nat, r: map<EntryKey, Entry>)
    requires n < |es| && EntriesLoaded(es, n, r) && (Supported(es[n]) ==> KeyOf(es[n]) in r)
    ensures EntriesLoaded(es, n + 1, r)
  {
    hide Loaded, Supported;
    assert !First(es, n);
  }

  /** The key of every supported entry is loaded. */
  lemma SeenIsLoaded(es: seq<ProtoEntry>, n: nat, r: map<EntryKey, Entry>)
    requires n <= |es| && EntriesLoaded(es, n, r)
    ensures forall j | 0 <= j < n && Supported(es[j]) :: KeyOf(es[j]) in r
  {
    forall j | 0 <= j < n && Supported(es[j])
      ensures KeyOf(es[j]) in r
    {
      var i := FirstLike(es, j);
    }
  }

  lemma {:induction false} FirstLike(es: seq<ProtoEntry>, j: nat) returns (i: nat)
    requires j < |es| && Supported(es[j])
    ensures i <= j && First(es, i) && KeyOf(es[i]) == KeyOf(es[j])
  {
    if First(es, j) {
      i := j;
    } else {
      var k :| 0 <= k < j && Supported(es[k]) && KeyOf(es[k]) == KeyOf(es[j]);
      i := FirstLike(es, k);
    }
  }

  /** What is loaded of a supported entry: its port cut to 16 bits, its high watermark raised to the low one, and its
      other fields as they are. */
  lemma LoadedIs(es: seq<ProtoEntry>, i: nat, r: map<EntryKey, Entry>)
    requires EntriesLoaded(es, |es|, r) && i < |es|
    requires es[i].proto != 0 && es[i].scheduler != SchedNone && es[i].mode != LBNone
    requires forall j | 0 <= j < i && es[j].scheduler != SchedNone && es[j].mode != LBNone ::
             es[j].port % 0x1_0000 != es[i].port % 0x1_0000 || es[j].proto != es[i].proto
    ensures var e, k := es[i], EntryKey(es[i].port % 0x1_0000, es[i].proto);
            && k in r && r[k].port == e.port % 0x1_0000 && r[k].proto == e.proto
            && r[k].scheduler == e.scheduler && r[k].mode == e.mode
            && r[k].persistence == e.persistence && r[k].onePacket == e.onePacket
            && r[k].low == e.low && r[k].high == (if e.high < e.low then e.low else e.high)
            && r[k].lowerThreshold == e.lowerThreshold && r[k].upperThreshold == e.upperThreshold
            && r[k].healthchecks == FirstChecks(e.healthchecks)
  {
    assert First(es, i);
  }

  method LoadEntries(es: seq<ProtoEntry>) returns (r: map<EntryKey, Entry>)
    ensures EntriesLoaded(es, |es|, r)
  {
    r := map[];
    for i := 0 to |es|
      invariant EntriesLoaded(es, i, r)
    {
      hide EntriesLoaded;
      var e := es[i];
      if e.proto == 0 || e.scheduler.SchedNone? || e.mode.LBNone? {
        LoadOld(es, i, r);
        continue;
      }
      var high := e.high;
      if high < e.low {
        high := e.low;
      }
      var checks := LoadChecks(e.healthchecks);
      var loaded := Entry(e.port % WORD, e.proto, e.scheduler, e.mode, e.persistence, e.onePacket, high, e.low,
        e.lowerThreshold, e.upperThreshold, checks);
      if KeyOf(e) !in r {
        LoadNew(es, i, r);
        r := r[KeyOf(e) := loaded];
      } else {
        LoadOld(es, i, r);
      }
    }
  }

  function LoadedBackend(b: ProtoBackend): (r: Backend)
    ensures r.enabled ==> r.inService
  {
    Backend(b.host.fqdn, b.host.ipv4, b.host.ipv6, b.weight % 0x1_0000_0000, Serves(b.host.status),
            !b.host.status.PROPOSED? && !b.host.status.BUILDING?)
  }

  predicate FirstHost(bs: seq<ProtoBackend>, i: nat)
    requires i < |bs|
  {
    forall j | 0 <= j < i :: bs[j].host.fqdn != bs[i].host.fqdn
  }

  /** Of the first n backends, the first of each name is loaded, and nothing else. */
  ghost predicate BackendsLoaded(bs: seq<ProtoBackend>, n: nat, r: map<string, Backend>)
    requires n <= |bs|
  {
    && (forall i | 0 <= i < n && FirstHost(bs, i) :: bs[i].host.fqdn in r && r[bs[i].host.fqdn] == LoadedBackend(bs[i]))
    && (forall h | h in r :: exists i :: 0 <= i < n && FirstHost(bs, i) && bs[i].host.fqdn == h)
    && (forall i | 0 <= i < n :: bs[i].host.fqdn in r)
  }

  /** What is loaded of a backend: its weight cut to 32 bits; it is enabled in production and under test, and in service
      unless proposed or being built. */
  lemma LoadedBackendIs(bs: seq<ProtoBackend>, i: nat, r: map<string, Backend>)
    requires BackendsLoaded(bs, |bs|, r) && i < |bs|
    requires forall j | 0 <= j < i :: bs[j].host.fqdn != bs[i].host.fqdn
    ensures var h := bs[i].host;
            && h.fqdn in r && r[h.fqdn].hostname == h.fqdn
            && r[h.fqdn].ipv4 == h.ipv4 && r[h.fqdn].ipv6 == h.ipv6
            && r[h.fqdn].weight == bs[i].weight % 0x1_0000_0000
            && (r[h.fqdn].enabled <==> h.status in {PRODUCTION, TESTING})
            && (r[h.fqdn].inService <==> h.status !in {PROPOSED, BUILDING})
  {
    assert FirstHost(bs, i);
  }

  method LoadBackends(bs: seq<ProtoBackend>) returns (r: map<string, Backend>)
    ensures BackendsLoaded(bs, |bs|, r)
    ensures forall h | h in r :: r[h].enabled ==> r[h].inService
  {
    r := map[];
    for i := 0 to |bs|
      invariant BackendsLoaded(bs, i, r)
    {
      if bs[i].host.fqdn !in r {
        assert FirstHost(bs, i);
        r := r[bs[i].host.fqdn := LoadedBackend(bs[i])];
      } else {
        assert !FirstHost(bs, i);
      }
    }
  }

  function NewVIP(ip: IP, anycast: set<IP>, dedicated: set<IP>): VIP {
    VIP(ip, if ip in anycast then AnycastVIP else if ip in dedicated then DedicatedVIP else UnicastVIP)
  }

  /** Addresses stand under their own family. */
  predicate FamilyOK(h: ProtoHost) {
    (h.ipv4.Some? ==> h.ipv4.value.af.IPv4?) && (h.ipv6.Some? ==> h.ipv6.value.af.IPv6?)
  }

  predicate ProtoOK(vs: ProtoVserver) {
    FamilyOK(vs.address) && forall b | b in vs.backends :: FamilyOK(b.host)
  }

  function NewVIPs(ip: Option<IP>, anycast: set<IP>, dedicated: set<IP>): set<VIP> {
    if ip.None? then {} else {NewVIP(ip.value, anycast, dedicated)}
  }

  /** A vserver as the engine gets it. It meets what the engine relies on exactly if a firewall-mark vserver has an
      entry. */
  method LoadVserver(vs: ProtoVserver, anycast: set<IP>, dedicated: set<IP>) returns (cfg: Config)
    requires ProtoOK(vs)
    ensures ConfigOK(cfg, anycast) <==> (vs.useFWM ==> exists i :: 0 <= i < |vs.entries| && Supported(vs.entries[i]))
    ensures EntriesLoaded(vs.entries, |vs.entries|, cfg.entries) &&
            BackendsLoaded(vs.backends, |vs.backends|, cfg.backends)
    ensures cfg.healthchecks == FirstChecks(vs.healthchecks)
    ensures cfg.ipv4 == vs.address.ipv4 && cfg.ipv6 == vs.address.ipv6
    ensures forall vip :: vip in cfg.vips <==>
              && Some(vip.ip) in {vs.address.ipv4, vs.address.ipv6}
              && vip.kind == if vip.ip in anycast then AnycastVIP
                             else if vip.ip in dedicated then DedicatedVIP else UnicastVIP
    ensures cfg.enabled <==> vs.address.status in {PRODUCTION, TESTING}
    ensures cfg.useFWM == vs.useFWM && cfg.name == vs.name
    ensures forall b | b in cfg.backends :: cfg.backends[b].enabled ==> cfg.backends[b].inService
  {
    hide EntriesLoaded, BackendsLoaded, FirstChecks, Supported;
    var vips: set<VIP> := {};
    if vs.address.ipv4.Some? {
      vips := vips + {NewVIP(vs.address.ipv4.value, anycast, dedicated)};
    }
    if vs.address.ipv6.Some? {
      vips := vips + {NewVIP(vs.address.ipv6.value, anycast, dedicated)};
    }
    var entries := LoadEntries(vs.entries);
    var backends := LoadBackends(vs.backends);
    var checks := LoadChecks(vs.healthchecks);
    cfg := Config(vs.name, vs.address.ipv4, vs.address.ipv6, entries, backends, checks, vips, Serves(vs.address.status),
                  vs.useFWM);
    EntriesProper(vs.entries, entries);
    BackendsProper(vs.backends, backends);
    ConfigProper(cfg, anycast, dedicated);
  }

  lemma EntriesProper(es: seq<ProtoEntry>, r: map<EntryKey, Entry>)
    requires EntriesLoaded(es, |es|, r)
    ensures forall k | k in r :: r[k].port == k.port && r[k].proto == k.proto && k.proto != 0 && r[k].low <= r[k].high
    ensures forall k, n | k in r && n in r[k].healthchecks :: r[k].healthchecks[n].name == n
    ensures r != map[] <==> exists i :: 0 <= i < |es| && Supported(es[i])
  {
    hide KeyOf;
    forall k | k in r
      ensures exists i :: 0 <= i < |es| && Supported(es[i]) && KeyOf(es[i]) == k && r[k] == Loaded(es[i])
    {
      var i :| 0 <= i < |es| && First(es, i) && KeyOf(es[i]) == k;
      assert r[KeyOf(es[i])] == Loaded(es[i]);
    }
    LoadedProper(es, r);
    SeenIsLoaded(es, |es|, r);
    if i :| 0 <= i < |es| && Supported(es[i]) {
      assert KeyOf(es[i]) in r;
    }
    if r != map[] {
      var k :| k in r;
    }
  }

  lemma LoadedProper(es: seq<ProtoEntry>, r: map<EntryKey, Entry>)
    requires forall k | k in r :: exists i ::
             0 <= i < |es| && Supported(es[i]) && KeyOf(es[i]) == k && r[k] == Loaded(es[i])
    ensures forall k | k in r :: r[k].port == k.port && r[k].proto == k.proto && k.proto != 0 && r[k].low <= r[k].high
    ensures forall k, n | k in r && n in r[k].healthchecks :: r[k].healthchecks[n].name == n
  {
  }

  lemma BackendsProper(bs: seq<ProtoBackend>, r: map<string, Backend>)
    requires BackendsLoaded(bs, |bs|, r) && forall b | b in bs :: FamilyOK(b.host)
    ensures forall h | h in r :: BackendFamilyOK(r[h])
  {
    forall h | h in r
      ensures BackendFamilyOK(r[h])
    {
      var i :| 0 <= i < |bs| && FirstHost(bs, i) && bs[i].host.fqdn == h;
      assert r[bs[i].host.fqdn] == LoadedBackend(bs[i]) && bs[i] in bs;
    }
  }

  predicate BackendFamilyOK(b: Backend) {
    (b.ipv4.Some? ==> b.ipv4.value.af.IPv4?) && (b.ipv6.Some? ==> b.ipv6.value.af.IPv6?)
  }

  lemma ConfigProper(cfg: Config, anycast: set<IP>, dedicated: set<IP>)
    requires (cfg.ipv4.Some? ==> cfg.ipv4.value.af.IPv4?) && (cfg.ipv6.Some? ==> cfg.ipv6.value.af.IPv6?)
    requires cfg.vips == NewVIPs(cfg.ipv4, anycast, dedicated) + NewVIPs(cfg.ipv6, anycast, dedicated)
    requires forall k | k in cfg.entries :: var e := cfg.entries[k];
             e.port == k.port && e.proto == k.proto && k.proto != 0 && e.low <= e.high
    requires forall k, n | k in cfg.entries && n in cfg.entries[k].healthchecks ::
             cfg.entries[k].healthchecks[n].name == n
    requires forall n | n in cfg.healthchecks :: cfg.healthchecks[n].name == n
    requires forall b | b in cfg.backends :: BackendFamilyOK(cfg.backends[b])
    ensures ConfigOK(cfg, anycast) <==> (cfg.useFWM ==> cfg.entries != map[])
  {
    forall af | cfg.Addr(af).Some?
      ensures exists vip :: vip in cfg.vips && vip.ip == cfg.Addr(af).value
    {
      assert NewVIP(cfg.Addr(af).value, anycast, dedicated) in cfg.vips;
    }
  }
}
