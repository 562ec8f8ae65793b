/** What a vserver's configuration asks for: its services, destinations, checks and addresses. */
module VserverConfig {
  import opened Types
  import opened Kernel
  import opened Propagation
  import opened Sets

  function Wrap32(n: int): nat {
    n % 0x1_0000_0000
  }

  /** What the configuration loader guarantees: families and keys are consistent, protocols are real ones, every
      address of the vserver is a VIP of the right type, and the high watermark is not below the low one. */
  ghost predicate ConfigOK(cfg: Config, anycast: set<IP>) {
    && (forall af :: cfg.Addr(af).Some? ==> cfg.Addr(af).value.af == af)
    && (forall e | e in cfg.entries :: cfg.entries[e].port == e.port && cfg.entries[e].proto == e.proto && e.proto != 0
          && cfg.entries[e].low <= cfg.entries[e].high)
    && (forall e, n | e in cfg.entries && n in cfg.entries[e].healthchecks :: cfg.entries[e].healthchecks[n].name == n)
    && (forall n | n in cfg.healthchecks :: cfg.healthchecks[n].name == n)
    && (cfg.useFWM ==> cfg.entries != map[])
    && (forall vip | vip in cfg.vips ::
        cfg.Addr(vip.ip.af) == Some(vip.ip) && (vip.kind.AnycastVIP? <==> vip.ip in anycast))
    && (forall af :: cfg.Addr(af).Some? ==> exists vip :: vip in cfg.vips && vip.ip == cfg.Addr(af).value)
    && (forall vip, vip' | vip in cfg.vips && vip' in cfg.vips && vip.ip == vip'.ip :: vip == vip')
    && (forall b, af | b in cfg.backends && cfg.backends[b].Addr(af).Some? :: cfg.backends[b].Addr(af).value.af == af)
  }

  /** The families in which a vserver has an address. */
  function Families(cfg: Config): set<AF> {
    set af: AF | cfg.Addr(af).Some?
  }

  /** The VIP configured for an address, or one typed by the address itself. */
  function FindVIP(cfg: Config, ip: IP, anycast: set<IP>): VIP {
    if VIP(ip, AnycastVIP) in cfg.vips then VIP(ip, AnycastVIP)
    else if VIP(ip, DedicatedVIP) in cfg.vips then VIP(ip, DedicatedVIP)
    else if VIP(ip, UnicastVIP) in cfg.vips then VIP(ip, UnicastVIP)
    else VIP(ip, if ip in anycast then AnycastVIP else UnicastVIP)
  }

  function IpvsServiceOf(k: ServiceKey, vip: VIP, entry: Entry): IpvsService {
    IpvsService(
      if k.fwm > 0 then IP(k.af, 0) else vip.ip,
      k.proto,
      k.port,
      entry.scheduler,
      k.fwm,
      entry.persistence > 0,
      entry.onePacket,
      entry.scheduler.SH?,
      entry.scheduler.MH?,
      Wrap32(entry.persistence))
  }

  function IpvsDestOf(k: ServiceKey, entry: Entry, ip: IP, backend: Backend): IpvsDest {
    IpvsDest(ip, k.port, backend.weight, entry.mode, Wrap32(entry.lowerThreshold), Wrap32(entry.upperThreshold))
  }

  function NewService(cfg: Config, k: ServiceKey, ip: IP, entry: Entry, anycast: set<IP>): Service {
    var vip := FindVIP(cfg, ip, anycast);
    Service(vip, entry, IpvsServiceOf(k, vip, entry), map[], false, false)
  }

  function NewDest(k: ServiceKey, entry: Entry, ip: IP, backend: Backend): Dest {
    Dest(backend, IpvsDestOf(k, entry, ip, backend), [], false, false)
  }

  function Mark(fwm: map<AF, nat>, af: AF): nat {
    if af in fwm then fwm[af] else 0
  }

  /** The key of the service an entry has in a family. */
  function KeyFor(cfg: Config, fwm: map<AF, nat>, af: AF, e: EntryKey): ServiceKey {
    if cfg.useFWM then ServiceKey(af, Mark(fwm, af), 0, 0) else ServiceKey(af, 0, e.proto, e.port)
  }

  /** Whether a configuration has a service under a key. */
  ghost predicate Wanted(cfg: Config, fwm: map<AF, nat>, k: ServiceKey) {
    cfg.Addr(k.af).Some? && exists e :: e in cfg.entries && k == KeyFor(cfg, fwm, k.af, e)
  }

  /** The entry a service takes its settings from: its own, or any one of them for a firewall-mark service. */
  ghost predicate EntryFor(cfg: Config, fwm: map<AF, nat>, k: ServiceKey, entry: Entry) {
    exists e :: e in cfg.entries && k == KeyFor(cfg, fwm, k.af, e) && entry == cfg.entries[e]
  }

  /** A service record carries the settings of the configuration. */
  ghost predicate ServiceReflects(cfg: Config, fwm: map<AF, nat>, anycast: set<IP>, k: ServiceKey, s: Service) {
    && cfg.Addr(k.af) == Some(s.vip.ip)
    && s.vip == FindVIP(cfg, s.vip.ip, anycast)
    && EntryFor(cfg, fwm, k, s.entry)
    && s.ipvsSvc == IpvsServiceOf(k, s.vip, s.entry)
  }

  ghost predicate DestReflects(cfg: Config, k: ServiceKey, entry: Entry, ip: IP, d: Dest) {
    && (exists b :: b in cfg.backends && cfg.backends[b] == d.backend)
    && d.backend.Addr(k.af) == Some(ip)
    && d.ipvsDst == IpvsDestOf(k, entry, ip, d.backend)
  }

  /** The destinations are those of the configured backends that have an address in the family. */
  ghost predicate DestsReflect(cfg: Config, k: ServiceKey, entry: Entry, dests: map<IP, Dest>) {
    && (forall ip | ip in dests :: DestReflects(cfg, k, entry, ip, dests[ip]))
    && (forall b | b in cfg.backends && cfg.backends[b].Addr(k.af).Some? :: cfg.backends[b].Addr(k.af).value in dests)
  }

  /** The records are those of the configuration: every service and destination it asks for, with its settings, and no
      other. */
  ghost predicate Reflects(cfg: Config, fwm: map<AF, nat>, anycast: set<IP>, svcs: Services) {
    && (forall k :: k in svcs <==> Wanted(cfg, fwm, k))
    && (forall k | k in svcs ::
        ServiceReflects(cfg, fwm, anycast, k, svcs[k]) && DestsReflect(cfg, k, svcs[k].entry, svcs[k].dests))
  }

  /** Firewall marks are nonzero, and present wherever they are needed. */
  ghost predicate MarksOK(cfg: Config, fwm: map<AF, nat>) {
    && (forall af | af in fwm :: fwm[af] > 0)
    && (cfg.useFWM ==> forall af :: cfg.Addr(af).Some? ==> af in fwm)
  }

  /** A record with the settings of the configuration is filed under its own kernel identity. */
  lemma ReflectsOK(cfg: Config, fwm: map<AF, nat>, anycast: set<IP>, k: ServiceKey, s: Service)
    requires ConfigOK(cfg, anycast) && MarksOK(cfg, fwm) && ServiceReflects(cfg, fwm, anycast, k, s)
    requires forall ip | ip in s.dests :: s.dests[ip].ipvsDst.address == ip
    ensures ServiceOK(k, s)
    ensures s.entry.low <= s.entry.high
  {
    var e :| e in cfg.entries && k == KeyFor(cfg, fwm, k.af, e) && s.entry == cfg.entries[e];
  }

  // ---- Checks ----

  function CheckKeyOf(vip: IP, backend: IP, port: nat, proto: nat, hc: Healthcheck): CheckKey {
    CheckKey(vip, backend, port, proto, hc.mode, hc.kind, hc.port, hc.name)
  }

  /** The healthchecks of a service's own entry; a firewall-mark service has those of every entry. */
  function EntryChecks(cfg: Config, k: ServiceKey, entry: Entry): set<(EntryKey, Healthcheck)> {
    if cfg.useFWM then set e, n | e in cfg.entries && n in cfg.entries[e].healthchecks ::
        (e, cfg.entries[e].healthchecks[n])
    else set n | n in entry.healthchecks :: (EntryKey(k.port, k.proto), entry.healthchecks[n])
  }

  /** Whether a destination is to pass a check. */
  ghost predicate WantedCheck(cfg: Config, k: ServiceKey, s: Service, ip: IP, d: Dest, c: CheckKey) {
    d.backend.enabled &&
    ((exists n :: n in cfg.healthchecks && c == CheckKeyOf(s.vip.ip, ip, 0, 0, cfg.healthchecks[n])) ||
     (exists p :: p in EntryChecks(cfg, k, s.entry) && c == CheckKeyOf(s.vip.ip, ip, p.0.port, p.0.proto, p.1)))
  }

  /** The service that alone can have a check of an entry. */
  function Owner(cfg: Config, fwm: map<AF, nat>, c: CheckKey): ServiceKey {
    KeyFor(cfg, fwm, c.vserverIP.af, EntryKey(c.servicePort, c.serviceProto))
  }

  /** The healthcheck a check runs is the configured one of its name: of its entry, or of the vserver where its key has
      no protocol. */
  predicate MadeFrom(cfg: Config, c: CheckKey, hc: Healthcheck) {
    if c.serviceProto == 0 then c.name in cfg.healthchecks && hc == cfg.healthchecks[c.name]
    else
      && EntryKey(c.servicePort, c.serviceProto) in cfg.entries
      && c.name in cfg.entries[EntryKey(c.servicePort, c.serviceProto)].healthchecks
      && hc == cfg.entries[EntryKey(c.servicePort, c.serviceProto)].healthchecks[c.name]
  }

  /** Every check has destinations, and runs the healthcheck its key says. */
  predicate ChecksMade(cfg: Config, checks: map<CheckKey, Check>) {
    forall c | c in checks :: checks[c].dests != [] && MadeFrom(cfg, c, checks[c].healthcheck)
  }

  lemma MadeAlike(cfg: Config, checks: map<CheckKey, Check>, checks': map<CheckKey, Check>)
    requires ChecksMade(cfg, checks) && checks'.Keys == checks.Keys
    requires forall c | c in checks :: checks'[c] == checks[c].(state := checks'[c].state)
    ensures ChecksMade(cfg, checks')
  {
    hide MadeFrom;
  }

  /** A check of an entry has only the one destination its key says. */
  predicate Owned(cfg: Config, fwm: map<AF, nat>, checks: map<CheckKey, Check>) {
    && ChecksMade(cfg, checks)
    && forall c | c in checks && c.serviceProto != 0 ::
       forall r | r in checks[c].dests :: r == DestRef(Owner(cfg, fwm, c), c.backendIP)
  }

  lemma OwnedMade(cfg: Config, fwm: map<AF, nat>, checks: map<CheckKey, Check>)
    requires Owned(cfg, fwm, checks)
    ensures ChecksMade(cfg, checks)
  {
  }

  predicate AllUnknown(checks: map<CheckKey, Check>) {
    forall c | c in checks :: checks[c].state == Unknown
  }

  /** One destination has been entered under some checks; nothing else has changed. */
  ghost predicate Entered(was: map<CheckKey, Check>, checks: map<CheckKey, Check>, keys: seq<CheckKey>, ref: DestRef) {
    && (forall c | c in checks :: c in was || c in keys)
    && (forall c | c in keys :: c in checks)
    && (forall c | c in was :: c in checks)
    && (forall c, r | c in checks :: r in checks[c].dests <==>
        (c in was && r in was[c].dests) || (c in keys && r == ref))
  }

  lemma EnteredMore(was: map<CheckKey, Check>, checks: map<CheckKey, Check>, keys: seq<CheckKey>, ref: DestRef,
                    c: CheckKey, check: Check)
    requires Entered(was, checks, keys, ref)
    requires forall r :: r in check.dests <==> (c in checks && r in checks[c].dests) || r == ref
    ensures Entered(was, checks[c := check], keys + [c], ref)
  {
    var checks', keys' := checks[c := check], keys + [c];
    assert forall x :: x in keys' <==> x in keys || x == c;
    forall x, r | x in checks'
      ensures r in checks'[x].dests <==> (x in was && r in was[x].dests) || (x in keys' && r == ref)
    {
      if x == c {
        assert r in checks'[x].dests <==> (c in checks && r in checks[c].dests) || r == ref;
      }
    }
  }

  lemma EntryCheckOwner(cfg: Config, fwm: map<AF, nat>, anycast: set<IP>, k: ServiceKey, s: Service, ip: IP,
                        p: (EntryKey, Healthcheck))
    requires ConfigOK(cfg, anycast) && ServiceReflects(cfg, fwm, anycast, k, s) && p in EntryChecks(cfg, k, s.entry)
    ensures p.0.proto != 0
    ensures Owner(cfg, fwm, CheckKeyOf(s.vip.ip, ip, p.0.port, p.0.proto, p.1)) == k
    ensures MadeFrom(cfg, CheckKeyOf(s.vip.ip, ip, p.0.port, p.0.proto, p.1), p.1)
  {
    var e :| e in cfg.entries && k == KeyFor(cfg, fwm, k.af, e) && s.entry == cfg.entries[e];
    assert p.0 in cfg.entries;
    var n :| n in cfg.entries[p.0].healthchecks && p.1 == cfg.entries[p.0].healthchecks[n];
    assert p.1.name == n;
  }

  lemma EntryChecksApart(cfg: Config, fwm: map<AF, nat>, anycast: set<IP>, k: ServiceKey, s: Service, ip: IP,
                         p: (EntryKey, Healthcheck), q: (EntryKey, Healthcheck))
    requires ConfigOK(cfg, anycast) && ServiceReflects(cfg, fwm, anycast, k, s)
    requires p in EntryChecks(cfg, k, s.entry) && q in EntryChecks(cfg, k, s.entry) && p != q
    ensures CheckKeyOf(s.vip.ip, ip, p.0.port, p.0.proto, p.1) != CheckKeyOf(s.vip.ip, ip, q.0.port, q.0.proto, q.1)
  {
    var e :| e in cfg.entries && k == KeyFor(cfg, fwm, k.af, e) && s.entry == cfg.entries[e];
    if p.0 == q.0 {
      var n :| n in cfg.entries[p.0].healthchecks && p.1 == cfg.entries[p.0].healthchecks[n];
      var m :| m in cfg.entries[p.0].healthchecks && q.1 == cfg.entries[p.0].healthchecks[m];
      assert p.1.name == n && q.1.name == m;
    }
  }

  /** A check of an entry is new when its destination is. */
  lemma EntryCheckNew(cfg: Config, fwm: map<AF, nat>, anycast: set<IP>, k: ServiceKey, s: Service, ip: IP,
                      was: map<CheckKey, Check>, p: (EntryKey, Healthcheck))
    requires ConfigOK(cfg, anycast) && ServiceReflects(cfg, fwm, anycast, k, s) && p in EntryChecks(cfg, k, s.entry)
    requires Owned(cfg, fwm, was) && forall c | c in was :: DestRef(k, ip) !in was[c].dests
    ensures CheckKeyOf(s.vip.ip, ip, p.0.port, p.0.proto, p.1) !in was
  {
    EntryCheckOwner(cfg, fwm, anycast, k, s, ip, p);
    var c := CheckKeyOf(s.vip.ip, ip, p.0.port, p.0.proto, p.1);
    assert forall x | x in was :: was[x].dests[0] in was[x].dests;
  }

  /** Entering a destination under checks of its own keeps the ownership of checks. */
  lemma OwnedMore(cfg: Config, fwm: map<AF, nat>, was: map<CheckKey, Check>, c: CheckKey, check: Check, ref: DestRef)
    requires Owned(cfg, fwm, was) && AllUnknown(was) && check.state == Unknown && check.dests != []
    requires MadeFrom(cfg, c, check.healthcheck)
    requires c.serviceProto != 0 ==> check.dests == [ref] && ref == DestRef(Owner(cfg, fwm, c), c.backendIP)
    ensures Owned(cfg, fwm, was[c := check]) && AllUnknown(was[c := check])
  {
  }

  /** The keys that cover the checks of the vserver, and those of the entries outside `todo`. */
  ghost predicate KeysFor(cfg: Config, k: ServiceKey, s: Service, ip: IP, keys: seq<CheckKey>,
                          names: set<string>, todo: set<(EntryKey, Healthcheck)>)
  {
    forall c :: c in keys <==>
      (exists n :: n in cfg.healthchecks && n !in names && c == CheckKeyOf(s.vip.ip, ip, 0, 0, cfg.healthchecks[n])) ||
      (exists p ::
         p in EntryChecks(cfg, k, s.entry) && p !in todo && c == CheckKeyOf(s.vip.ip, ip, p.0.port, p.0.proto, p.1))
  }

  lemma EnteredNone(was: map<CheckKey, Check>, ref: DestRef)
    ensures Entered(was, was, [], ref)
  {
  }

  /** A check of the vserver is made anew, or is there as made. */
  lemma SharedAt(cfg: Config, fwm: map<AF, nat>, anycast: set<IP>, checks: map<CheckKey, Check>, c: CheckKey, n: string)
    requires ConfigOK(cfg, anycast) && n in cfg.healthchecks && Owned(cfg, fwm, checks) && AllUnknown(checks)
    requires c.serviceProto == 0 && c.name == cfg.healthchecks[n].name
    ensures MadeFrom(cfg, c, cfg.healthchecks[n])
    ensures c in checks ==> checks[c].state == Unknown && MadeFrom(cfg, c, checks[c].healthcheck)
  {
  }

  lemma KeysForName(cfg: Config, k: ServiceKey, s: Service, ip: IP, keys: seq<CheckKey>, names: set<string>,
                    todo: set<(EntryKey, Healthcheck)>, n: string)
    requires KeysFor(cfg, k, s, ip, keys, names, todo) && n in names && n in cfg.healthchecks
    ensures KeysFor(cfg, k, s, ip, keys + [CheckKeyOf(s.vip.ip, ip, 0, 0, cfg.healthchecks[n])], names - {n}, todo)
  {
    hide EntryChecks;
    var keys' := keys + [CheckKeyOf(s.vip.ip, ip, 0, 0, cfg.healthchecks[n])];
    forall c
      ensures c in keys' <==>
        (exists m ::
           m in cfg.healthchecks && m !in names - {n} && c == CheckKeyOf(s.vip.ip, ip, 0, 0, cfg.healthchecks[m])) ||
        (exists p ::
           p in EntryChecks(cfg, k, s.entry) && p !in todo && c == CheckKeyOf(s.vip.ip, ip, p.0.port, p.0.proto, p.1))
    {
      assert c in keys' <==> c in keys || c == keys'[|keys|];
    }
  }

  lemma KeysForPair(cfg: Config, k: ServiceKey, s: Service, ip: IP, keys: seq<CheckKey>,
                    todo: set<(EntryKey, Healthcheck)>, p: (EntryKey, Healthcheck))
    requires KeysFor(cfg, k, s, ip, keys, {}, todo) && p in todo && p in EntryChecks(cfg, k, s.entry)
    ensures KeysFor(cfg, k, s, ip, keys + [CheckKeyOf(s.vip.ip, ip, p.0.port, p.0.proto, p.1)], {}, todo - {p})
  {
    hide EntryChecks;
    var keys' := keys + [CheckKeyOf(s.vip.ip, ip, p.0.port, p.0.proto, p.1)];
    forall c
      ensures c in keys' <==>
        (exists m :: m in cfg.healthchecks && m !in {} && c == CheckKeyOf(s.vip.ip, ip, 0, 0, cfg.healthchecks[m])) ||
        (exists q ::
           && q in EntryChecks(cfg, k, s.entry) && q !in todo - {p}
           && c == CheckKeyOf(s.vip.ip, ip, q.0.port, q.0.proto, q.1))
    {
      assert c in keys' <==> c in keys || c == keys'[|keys|];
    }
  }

  /** The next check of an entry is not among the keys yet. */
  lemma PairNew(cfg: Config, fwm: map<AF, nat>, anycast: set<IP>, k: ServiceKey, s: Service, ip: IP,
                keys: seq<CheckKey>,
                todo: set<(EntryKey, Healthcheck)>, p: (EntryKey, Healthcheck))
    requires ConfigOK(cfg, anycast) && ServiceReflects(cfg, fwm, anycast, k, s)
    requires KeysFor(cfg, k, s, ip, keys, {}, todo) && p in todo && p in EntryChecks(cfg, k, s.entry)
    ensures CheckKeyOf(s.vip.ip, ip, p.0.port, p.0.proto, p.1) !in keys
  {
    hide EntryChecks, ConfigOK, ServiceReflects;
    EntryCheckOwner(cfg, fwm, anycast, k, s, ip, p);
    var c := CheckKeyOf(s.vip.ip, ip, p.0.port, p.0.proto, p.1);
    if c in keys {
      if q :|
        q in EntryChecks(cfg, k, s.entry) && q !in todo && c == CheckKeyOf(s.vip.ip, ip, q.0.port, q.0.proto, q.1) {
        EntryChecksApart(cfg, fwm, anycast, k, s, ip, p, q);
      }
    }
  }

  lemma EnteredKey(was: map<CheckKey, Check>, checks: map<CheckKey, Check>, keys: seq<CheckKey>, ref: DestRef,
                   c: CheckKey)
    requires Entered(was, checks, keys, ref) && c !in was && c !in keys
    ensures c !in checks
  {
  }

  /** Whether a vserver is to run: an override decides, else the configuration. */
  function VserverEnabled(cfg: Option<Config>, os: OverrideState): (enabled: bool)
    ensures enabled <==> cfg.Some? && !os.OverrideDisable? && (os.OverrideEnable? || cfg.value.enabled)
  {
    if cfg.None? then false
    else if os.OverrideDisable? then false
    else if os.OverrideEnable? then true
    else cfg.value.enabled
  }

  /** Whether a mark has yet to be drawn for a family. */
  predicate NeedsMark(cfg: Config, fwm: map<AF, nat>, af: AF) {
    cfg.useFWM && cfg.Addr(af).Some? && af !in fwm
  }

  function MarksNeeded(cfg: Config, fwm: map<AF, nat>): nat {
    (if NeedsMark(cfg, fwm, IPv4) then 1 else 0) + (if NeedsMark(cfg, fwm, IPv6) then 1 else 0)
  }

  /** Marks are drawn from an allocator, a different one for each family. */
  predicate MarksHeld(fwm: map<AF, nat>, held: set<nat>) {
    && (forall af | af in fwm :: fwm[af] in held)
    && (forall af, af' | af in fwm && af' in fwm && af != af' :: fwm[af] != fwm[af'])
  }

  /** Two configurations with the same ports, protocols and modes: one can follow the other without a fresh start. */
  predicate SameLayout(old_: Config, cfg: Config) {
    && old_.useFWM == cfg.useFWM
    && old_.entries.Keys == cfg.entries.Keys
    && forall e | e in cfg.entries :: old_.entries[e].mode == cfg.entries[e].mode
  }

  /** Every address of a backend is still the address of a backend. */
  ghost predicate KeepsBackends(old_: Config, cfg: Config) {
    forall b, af | b in old_.backends && old_.backends[b].Addr(af).Some? ::
      exists b' :: b' in cfg.backends && cfg.backends[b'].Addr(af) == old_.backends[b].Addr(af)
  }

  /** No backend has an address in the family. */
  predicate NoBackends(cfg: Config, af: AF) {
    forall b | b in cfg.backends :: cfg.backends[b].Addr(af).None?
  }

  /** The firewall-mark service of the family has no destination map after an update in place: it is new, or at a new
      address, or had none (`bare`) before. */
  predicate Mapless(old_: Config, cfg: Config, bare: set<AF>, af: AF) {
    old_.Addr(af) != cfg.Addr(af) || af in bare
  }

  function BareAfter(old_: Config, cfg: Config, bare: set<AF>): set<AF> {
    set af: AF | cfg.useFWM && cfg.Addr(af).Some? && Mapless(old_, cfg, bare, af)
  }

  /** What an update in place demands: no address that has services changes its VIP type, and a firewall-mark service
      without a destination map gets no destination. */
  ghost predicate UpdateOK(old_: Config, cfg: Config, bare: set<AF>) {
    && (cfg.entries != map[] ==> forall w, u | w in old_.vips && u in cfg.vips && w.ip == u.ip :: w == u)
    && (forall af | af in BareAfter(old_, cfg, bare) :: NoBackends(cfg, af))
  }

  /** The layout changes with the use of marks, a new or another mode of an entry, and an entry that goes. */
  lemma LayoutIff(old_: Config, cfg: Config)
    ensures !SameLayout(old_, cfg) <==>
              || cfg.useFWM != old_.useFWM
              || (exists e ::
                    e in cfg.entries && (e in old_.entries ==> cfg.entries[e].mode != old_.entries[e].mode))
              || (exists e :: e in old_.entries && e !in cfg.entries)
  {
    assert old_.entries.Keys == cfg.entries.Keys <==> forall e :: e in old_.entries <==> e in cfg.entries;
  }

  lemma LayoutKeys(old_: Config, cfg: Config)
    requires |old_.entries| == |cfg.entries| && cfg.entries.Keys <= old_.entries.Keys
    ensures old_.entries.Keys == cfg.entries.Keys
  {
    if e :| e in old_.entries && e !in cfg.entries {
      assert cfg.entries.Keys <= old_.entries.Keys - {e};
      SubsetSize(cfg.entries.Keys, old_.entries.Keys - {e});
    }
  }

  lemma MarksBound(cfg: Config, fwm: map<AF, nat>)
    ensures MarksNeeded(cfg, fwm) + |fwm| <= 2
  {
    forall af | af in fwm
      ensures af == IPv4 || af == IPv6
    {
    }
    assert fwm.Keys == (if IPv4 in fwm then {IPv4} else {}) + (if IPv6 in fwm then {IPv6} else {});
    assert |fwm| == |fwm.Keys|;
  }

  lemma HeldMore(fwm: map<AF, nat>, held: set<nat>, af: AF, mark: nat)
    requires MarksHeld(fwm, held) && af !in fwm && mark !in held
    ensures MarksHeld(fwm[af := mark], held + {mark}) && |fwm[af := mark]| == |fwm| + 1
  {
    assert fwm[af := mark].Keys == fwm.Keys + {af};
    assert |fwm[af := mark]| == |fwm[af := mark].Keys|;
  }

  lemma MarksDrawn(cfg: Config, fwm: map<AF, nat>)
    requires !NeedsMark(cfg, fwm, IPv4) && !NeedsMark(cfg, fwm, IPv6)
    requires forall af | af in fwm :: fwm[af] > 0
    ensures MarksOK(cfg, fwm)
  {
    forall af | cfg.useFWM && cfg.Addr(af).Some?
      ensures af in fwm
    {
      assert af == IPv4 || af == IPv6;
    }
  }
}
