/**
The running state of one vserver. Services, destinations and checks are records held in the
vserver's maps; every command to the network control component goes through Issue, which records it
and requires it to succeed.
*/
module Vservers {
  import opened Types
  import opened Kernel
  import opened Propagation
  import opened Refinement
  import opened VserverConfig
  import opened Reconfiguration
  import opened CheckExpansion
  import opened AsConfigured
  import opened HealthFlags
  import opened Overrides
  import opened Marks
  import opened Events
  import opened Sets
  import Iptables

  class Vserver {
    const anycast: set<IP>         // the addresses in the anycast networks
    const anycastEnabled: bool
    const cluster: Iptables.Host   // the addresses of the cluster itself
    const fwmAlloc: MarkAllocator

    var config: Option<Config>
    var enabled: bool
    var fwm: map<AF, nat>
    var services: Services
    var checks: map<CheckKey, Check>
    var active: set<IP>
    var lbVservers: map<IP, Snapshot>
    var vips: set<VIP>
    var vserverOverride: OverrideState
    var mapless: set<ServiceKey>   // firewall-mark services made by an update in place, whose destination map is nil

    ghost var forced: bool         // a backend was enabled by an override while the vserver was disabled
    ghost var kernel: State        // where the commands issued so far have led
    ghost var trace: seq<Command>
    ghost var views: seq<View>     // the records in force when each command was issued
    ghost var families: set<AF>    // the families in which the configurations so far have had an address
    ghost var begun: History       // trace and views when the event at hand began
    ghost var served: bool         // since then every healthy service has had a healthy destination

    /** Records, table and routes agree; `extra` names a service being taken down. */
    ghost predicate Sound(extra: set<ServiceKey>)
      reads `kernel, `services, `served, `trace, `views, `begun, `config, `families
    {
      && Agrees(kernel, services, served, extra)
      && Logged()
    }

    /** The commands so far have led to the state, and vservers were put on the interface in known families only. */
    ghost predicate Logged()
      reads `kernel, `served, `trace, `views, `begun, `config, `families
    {
      && TraceOK(trace, views, kernel, served, begun)
      && AddsIn(trace, families)
      && (config.Some? ==> Families(config.value) <= families)
    }

    ghost predicate OnInterface()
      reads `kernel, `active, `vips, `lbVservers, `config, `fwm
    {
      && InterfaceFits(kernel, active, vips, lbVservers, anycast, anycastEnabled)
      && SnapsFit(lbVservers, config, fwm)
    }

    /** Every service sits on the address its configuration gives its family. */
    ghost predicate AddressesOK()
      reads `services, `config
    {
      forall k | k in services :: config.Some? && config.value.Addr(services[k].vip.ip.af) == Some(services[k].vip.ip)
    }

    lemma AddressOf(k: ServiceKey)
      requires AddressesOK() && VipsExact(services, active, anycast) && k in services
      ensures config.Some? && config.value.Addr(services[k].vip.ip.af) == Some(services[k].vip.ip)
      ensures services[k].vip.ip in active <==> VipHealth(services, services[k].vip.ip, anycast)
    {
      hide VipHealth;
    }

    /** What holds between any two events. */
    ghost predicate Valid()
      reads this
    {
      && Sound({})
      && OnInterface()
      && Settled(services, active)
      && VipsExact(services, active, anycast)
      && ChecksLinked(services, checks)
      && AddressesOK()
      && (served ==> AllPopulated(services))
    }

    /** The records are those of the configuration, with the checks it asks for. */
    ghost predicate Configured()
      reads `config, `services, `fwm, `checks
    {
      && (config.None? ==> services == map[] && checks == map[])
      && (config.Some? ==>
            && ConfigOK(config.value, anycast) && MarksOK(config.value, fwm)
            && Reflects(config.value, fwm, anycast, services) && Checked(config.value, services, {})
            && ChecksMade(config.value, checks))
    }

    ghost predicate MarksInOrder()
      reads `fwm, fwmAlloc
    {
      && fwmAlloc.Valid() && fwmAlloc.base > 0 && MarksHeld(fwm, fwmAlloc.held)
      && forall af | af in fwm :: fwm[af] > 0
    }

    /** The families whose service has no destination map. */
    ghost function BareFamilies(): set<AF>
      reads `mapless
    {
      set k | k in mapless :: k.af
    }

    ghost predicate MapsInOrder()
      reads `mapless, `services, `config
    {
      && MapsTell(services, mapless, BareFamilies())
      && (forall k | k in mapless :: services[k].dests == map[])
      && (config.Some? && !config.value.useFWM ==> mapless == {})
    }

    /** What holds between two events, configuration included. A vserver that is not enabled has nothing up, unless an
        override forced it. */
    ghost predicate Ready()
      reads this, fwmAlloc
    {
      && Valid()
      && Configured()
      && MarksInOrder()
      && MapsInOrder()
      && (if enabled then config.Some? && vips == FixedVIPs(config.value) && !forced
          else vips == {} && (!forced ==> active == {}))
    }

    constructor (anycast: set<IP>, anycastEnabled: bool, cluster: Iptables.Host, fwmAlloc: MarkAllocator)
      requires fwmAlloc.Valid() && fwmAlloc.base > 0
      ensures Ready() && this.anycast == anycast && this.anycastEnabled == anycastEnabled
      ensures this.cluster == cluster && this.fwmAlloc == fwmAlloc
      ensures config.None? && !enabled && vserverOverride == OverrideDefault && !forced
      ensures kernel == EMPTY && trace == [] && served && families == {}
    {
      this.anycast, this.anycastEnabled, this.cluster, this.fwmAlloc := anycast, anycastEnabled, cluster, fwmAlloc;
      config, enabled, vserverOverride, mapless, forced := None, false, OverrideDefault, {}, false;
      fwm, services, checks, active, lbVservers, vips := map[], map[], map[], {}, map[], {};
      kernel, trace, views, families, begun, served := EMPTY, [], [], {}, History([], []), true;
    }

    /** What holds between two steps of a configuration update that is moving to the addresses `current`. */
    ghost predicate Steady(current: set<IP>)
      reads this
    {
      && Sound({})
      && OnInterface()
      && Settled(services, active)
      && VipsOn(services, active, anycast, current)
      && (served ==> AllPopulated(services))
      && config.Some?
    }

    method Issue(c: Command)
      requires Logged() && (c.AddVserver? ==> config.Some? && config.value.Addr(c.af).Some?)
      requires Exec(kernel, c).Some? && RoutesSafe(Exec(kernel, c).value, services, served)
      modifies `kernel, `trace, `views
      ensures kernel == Exec(old(kernel), c).value
      ensures Logged() && RoutesSafe(kernel, services, served)
      ensures trace == old(trace) + [c]
    {
      ExtendTrace(trace, views, kernel, served, begun, c, services);
      kernel, trace, views := Exec(kernel, c).value, trace + [c], views + [View(services, served)];
    }

    /** What the record of commands says. */
    lemma Log()
      requires Logged()
      ensures Replay(trace) == Some(kernel) && PrefixesSafe(trace, views) && AddsIn(trace, families)
      ensures config.Some? ==> Families(config.value) <= families
      ensures begun.trace <= trace && begun.views <= views && (served ==> ServedFrom(views, |begun.views|))
    {
      TraceSays(trace, views, kernel, served, begun);
    }

    ghost method BeginEvent()
      requires Sound({}) && Settled(services, active)
      modifies `begun, `served
      ensures Sound({}) && begun == History(trace, views) && served == AllPopulated(services)
    {
      hide Agrees, TraceOK, AddsIn, AllPopulated, Settled;
      Begin(kernel, services, served, trace, views, begun, active);
      begun, served := History(trace, views), AllPopulated(services);
    }

    ghost method LoseServed()
      requires Sound({})
      modifies `served
      ensures Sound({}) && !served
    {
      hide Agrees, TraceOK, AddsIn;
      Unserved(kernel, services, served, trace, views, begun);
      served := false;
    }

    // ---- Destinations ----

    method DestUp(k: ServiceKey, ip: IP)
      requires Sound({})
      requires k in services && ip in services[k].dests && services[k].active
      requires services[k].dests[ip].healthy && !services[k].dests[ip].active
      modifies `services, `kernel, `trace, `views
      ensures Sound({}) && SameInterface(old(kernel), kernel)
      ensures services == SetDest(old(services), k, ip, old(services)[k].dests[ip].(active := true))
    {
      hide Logged, Exec, RoutesSafe, TableFits, ServicesOK;
      DestUpStep(kernel, services, served, k, ip);
      services := SetDest(services, k, ip, services[k].dests[ip].(active := true));
      Issue(AddDest(services[k].ipvsSvc, services[k].dests[ip].ipvsDst));
    }

    method DestDown(k: ServiceKey, ip: IP, ghost extra: set<ServiceKey>)
      requires Sound(extra) && extra <= {k}
      requires k in services && ip in services[k].dests && (services[k].active || k in extra)
      requires services[k].dests[ip].active
      requires services[k].vip.ip in kernel.routes && served ==>
                 exists ip' :: ip' in services[k].dests && ip' != ip && services[k].dests[ip'].active
      modifies `services, `kernel, `trace, `views
      ensures Sound(extra) && SameInterface(old(kernel), kernel)
      ensures services == SetDest(old(services), k, ip, old(services)[k].dests[ip].(active := false))
    {
      hide Logged, Exec, RoutesSafe, TableFits, ServicesOK;
      DestDownStep(kernel, services, served, k, ip, extra);
      services := SetDest(services, k, ip, services[k].dests[ip].(active := false));
      Issue(DeleteDest(services[k].ipvsSvc, services[k].dests[ip].ipvsDst));
    }

    // ---- Services ----

    /** Takes one destination up or down to match its service. */
    method AlignDest(k: ServiceKey, ip: IP, ghost extra: set<ServiceKey>)
      requires Sound(extra) && extra <= {k}
      requires k in services && ip in services[k].dests && (services[k].active ==> extra == {})
      requires !services[k].active && extra == {} ==> !services[k].dests[ip].active
      requires services[k].vip.ip in kernel.routes && served && !services[k].dests[ip].healthy ==>
                 exists ip' :: ip' in services[k].dests && ip' != ip && services[k].dests[ip'].active
      requires services[k].vip.ip in kernel.routes ==> services[k].active
      modifies `services, `kernel, `trace, `views
      ensures Sound(extra) && SameInterface(old(kernel), kernel)
      ensures services == SetDest(old(services), k, ip, SettleDest(old(services)[k].dests[ip], old(services)[k].active))
    {
      hide Agrees, Logged, Exec, RoutesSafe;
      SetDestSame(services, k, ip);
      var s, d := services[k], services[k].dests[ip];
      if !s.active {
        if d.active {
          DestDown(k, ip, extra);
        }
      } else if !d.healthy && d.active {
        DestDown(k, ip, extra);
      } else if d.healthy && !d.active {
        DestUp(k, ip);
      }
    }

    /** Takes destinations up or down to match the service. */
    method UpdateDests(k: ServiceKey, ghost extra: set<ServiceKey>)
      requires Sound(extra) && extra <= {k}
      requires k in services && (services[k].active ==> extra == {})
      requires !services[k].active && extra == {} ==>
                 forall ip | ip in services[k].dests :: !services[k].dests[ip].active
      requires services[k].vip.ip in kernel.routes ==> services[k].active
      requires services[k].vip.ip in kernel.routes && served ==>
                 exists ip :: ip in services[k].dests && services[k].dests[ip].active && services[k].dests[ip].healthy
      modifies `services, `kernel, `trace, `views
      ensures Sound(extra) && SameInterface(old(kernel), kernel)
      ensures services == old(services)[k := SettleDests(old(services)[k])]
    {
      hide Agrees, Logged, Exec, RoutesSafe, SetDest;
      ghost var svcs := services;
      ghost var s := services[k];
      PartlySettledEnds(s);
      var todo := services[k].dests.Keys;
      while todo != {}
        invariant todo <= s.dests.Keys
        invariant Sound(extra) && SameInterface(old(kernel), kernel)
        invariant services == svcs[k := PartlySettled(s, todo)]
      {
        var ip :| ip in todo;
        PartlySettledStep(svcs, k, s, todo, ip);
        if s.vip.ip in kernel.routes && served {
          ghost var keep :| keep in s.dests && s.dests[keep].active && s.dests[keep].healthy;
          assert services[k].dests[keep].active;
        }
        AlignDest(k, ip, extra);
        todo := todo - {ip};
      }
    }

    method ServiceUp(k: ServiceKey)
      requires Sound({})
      requires k in services && !services[k].active
      requires forall ip | ip in services[k].dests :: !services[k].dests[ip].active
      modifies `services, `kernel, `trace, `views
      ensures Sound({}) && SameInterface(old(kernel), kernel)
      ensures services == old(services)[k := SettleDests(old(services)[k].(active := true))]
    {
      hide Logged, Exec, RoutesSafe, TableFits, ServicesOK;
      ServiceUpStep(kernel, services, served, k);
      services := services[k := services[k].(active := true)];
      Issue(AddService(services[k].ipvsSvc));
      UpdateDests(k, {});
    }

    method ServiceDown(k: ServiceKey)
      requires Sound({})
      requires k in services && services[k].active && services[k].vip.ip !in kernel.routes
      modifies `services, `kernel, `trace, `views
      ensures Sound({}) && SameInterface(old(kernel), kernel)
      ensures services == old(services)[k := SettleDests(old(services)[k].(active := false))]
    {
      hide Logged, Exec, RoutesSafe, TableFits, ServicesOK;
      ServiceClosing(kernel, services, served, k);
      services := services[k := services[k].(active := false)];
      UpdateDests(k, {k});
      ServiceDownStep(kernel, services, served, k);
      Issue(DeleteService(services[k].ipvsSvc));
    }

    // ---- Addresses ----

    /** Takes one service up or down to match its address. */
    method AlignService(k: ServiceKey)
      requires Sound({}) && k in services && Loose(services[k])
      requires services[k].vip.ip in kernel.routes ==> services[k].vip.ip in active && services[k].healthy
      modifies `services, `kernel, `trace, `views
      ensures Sound({}) && SameInterface(old(kernel), kernel)
      ensures services == old(services)[k := Settle(old(services)[k], active)]
    {
      hide Agrees, Logged, Exec, RoutesSafe, SettleDests;
      var s := services[k];
      if s.active == (s.healthy && s.vip.ip in active) {
        LooseSettled(s, active);
      }
      if s.vip.ip !in active {
        if s.active {
          ServiceDown(k);
        }
      } else if !s.healthy && s.active {
        ServiceDown(k);
      } else if s.healthy && !s.active {
        ServiceUp(k);
      }
    }

    /** Takes the services of an address up or down to match it. */
    method UpdateServices(ip: IP)
      requires Sound({}) && MayUpdate(kernel, services, active, ip)
      modifies `services, `kernel, `trace, `views
      ensures Sound({}) && SameInterface(old(kernel), kernel)
      ensures services == SettleIP(old(services), ip, active)
    {
      hide Agrees, Logged, Exec, RoutesSafe, Settle, Loose;
      ghost var svcs := services;
      PartlySettledIPEnds(svcs, ip, active);
      var todo := services.Keys;
      while todo != {}
        invariant todo <= svcs.Keys
        invariant Sound({}) && SameInterface(old(kernel), kernel)
        invariant services == PartlySettledIP(svcs, ip, active, todo)
      {
        var k :| k in todo;
        PartlySettledIPStep(svcs, ip, active, todo, k);
        if services[k].vip.ip == ip {
          AlignService(k);
        }
        todo := todo - {k};
      }
    }

    method TakeSnapshot() returns (snap: Snapshot)
      requires config.Some?
      ensures snap.name == config.value.name && snap.fwm == fwm
      ensures forall af :: snap.Addr(af) == config.value.Addr(af)
      ensures |snap.entries| == |config.value.entries|
      ensures forall e :: e in snap.entries <==> e in config.value.entries.Values
      ensures EntriesFiled(config.value) ==> forall af :: SnapFits(snap, af, config.value, fwm)
    {
      var cfg := config.value;
      var todo, entries := cfg.entries.Keys, [];
      while todo != {}
        invariant todo <= cfg.entries.Keys && |entries| + |todo| == |cfg.entries|
        invariant forall e | e in entries :: e in cfg.entries.Values
        invariant forall k | k in cfg.entries && k !in todo :: cfg.entries[k] in entries
        invariant EntriesFiled(cfg) ==> EntriesListed(cfg, entries, todo)
      {
        var k :| k in todo;
        ListedMore(cfg, entries, todo, k);
        entries := entries + [cfg.entries[k]];
        todo := todo - {k};
      }
      snap := Snapshot(cfg.name, cfg.ipv4, cfg.ipv6, entries, fwm);
      if EntriesFiled(cfg) {
        ListedFits(cfg, snap);
      }
    }

    /** Whether an address should be up, by a scan of its services that stops as soon as the answer is known. */
    method ScanServices(ip: IP) returns (healthy: bool)
      ensures healthy == VipHealth(services, ip, anycast)
    {
      healthy := false;
      var todo := services.Keys;
      while todo != {}
        invariant todo <= services.Keys
        invariant ip in anycast ==>
                  forall k | k in services && k !in todo && services[k].vip.ip == ip :: services[k].healthy
        invariant ip in anycast ==> (healthy <==> exists k :: k in services && k !in todo && services[k].vip.ip == ip)
        invariant ip !in anycast ==> !healthy
        invariant ip !in anycast ==>
                  forall k | k in services && k !in todo && services[k].vip.ip == ip :: !services[k].healthy
      {
        var k :| k in todo;
        todo := todo - {k};
        if services[k].vip.ip != ip {
          continue;
        }
        healthy := services[k].healthy;
        if !healthy && ip in anycast {
          return;
        }
        if healthy && ip !in anycast {
          return;
        }
      }
    }

    /** Puts an anycast address on the interface and advertises it. */
    method AnnounceVip(ip: IP)
      requires Sound({}) && ip in active && ip in anycast
      requires InterfaceFits(kernel, active - {ip}, vips, lbVservers, anycast, anycastEnabled)
      requires SnapsFit(lbVservers, config, fwm)
      requires forall k | k in services && services[k].vip.ip == ip ::
                 && IdOf(services[k].ipvsSvc) in kernel.ipvs
                 && (served ==> kernel.ipvs[IdOf(services[k].ipvsSvc)].dests != map[])
      requires config.Some? && config.value.Addr(ip.af) == Some(ip)
      modifies `lbVservers, `kernel, `trace, `views
      ensures Sound({}) && OnInterface()
    {
      hide Agrees, Logged, Exec, RoutesSafe, InterfaceFits, SnapsFit;
      var snap := TakeSnapshot();
      Announce(kernel, services, served, active - {ip}, vips, lbVservers, anycast, anycastEnabled, ip, snap);
      assert active - {ip} + {ip} == active;
      Issue(AddVserver(snap, ip.af));
      SnapsMore(lbVservers, config, fwm, ip, snap);
      lbVservers := lbVservers[ip := snap];
      Issue(AddVIP(VIP(ip, AnycastVIP)));
      if anycastEnabled {
        Issue(Advertise(ip));
      }
    }

    method VipUp(ip: IP)
      requires Sound({}) && OnInterface() && ip !in active
      requires VipHealth(services, ip, anycast)
      requires forall k | k in services && services[k].vip.ip == ip :: Loose(services[k])
      requires served ==> forall k | k in services && services[k].vip.ip == ip :: Populated(services[k])
      requires config.Some? && (ip in anycast ==> config.value.Addr(ip.af) == Some(ip))
      modifies `services, `active, `lbVservers, `kernel, `trace, `views
      ensures Sound({}) && OnInterface()
      ensures active == old(active) + {ip}
      ensures services == SettleIP(old(services), ip, active)
    {
      hide Agrees, Logged, Exec, RoutesSafe, Settle, SettleIP, Loose, Populated, InterfaceFits, SnapsFit, VipHealth;
      FitsElsewhere(kernel, active, vips, lbVservers, anycast, anycastEnabled, ip);
      active := active + {ip};
      assert active - {ip} == old(active);
      UpdateServices(ip);
      InterfaceSame(old(kernel), kernel, active, vips, lbVservers, anycast, anycastEnabled, ip);
      if ip in anycast {
        AddressServed(kernel, old(services), served, active, anycast, ip);
        AnnounceVip(ip);
      }
    }

    /** Withdraws an anycast address and takes it off the interface. */
    method RetireVip(ip: IP)
      requires AgreesBut(kernel, services, served, ip) && Logged()
      requires OnInterface() && ip in active && ip in anycast
      modifies `lbVservers, `kernel, `trace, `views
      ensures Sound({}) && InterfaceFits(kernel, active - {ip}, vips, lbVservers, anycast, anycastEnabled)
      ensures SnapsFit(lbVservers, config, fwm)
    {
      hide Logged, Exec, AgreesBut, InterfaceFits, SnapsFit, RoutesSafe, Agrees;
      Retire(kernel, services, served, active, vips, lbVservers, anycast, anycastEnabled, ip);
      if anycastEnabled {
        Issue(Withdraw(ip));
      }
      Issue(DeleteVIP(VIP(ip, AnycastVIP)));
      Issue(DeleteVserver(lbVservers[ip], ip.af));
      SnapsLess(lbVservers, config, fwm, ip);
      lbVservers := lbVservers - {ip};
    }

    method VipDown(ip: IP)
      requires AgreesBut(kernel, services, served, ip) && Logged()
      requires OnInterface() && ip in active
      requires forall k | k in services && services[k].vip.ip == ip :: Loose(services[k])
      modifies `services, `active, `lbVservers, `kernel, `trace, `views
      ensures Sound({}) && OnInterface()
      ensures active == old(active) - {ip}
      ensures services == SettleIP(old(services), ip, active)
    {
      hide Logged, AgreesBut, Agrees, InterfaceFits, SnapsFit, Loose, SettleIP, RouteSafe;
      if ip in anycast {
        RetireVip(ip);
      } else {
        FitsElsewhere(kernel, active, vips, lbVservers, anycast, anycastEnabled, ip);
        AgreesWhole(kernel, services, served, ip);
      }
      active := active - {ip};
      ghost var st := kernel;
      FitsElsewhere(kernel, active, vips, lbVservers, anycast, anycastEnabled, ip);
      UpdateServices(ip);
      InterfaceSame(st, kernel, active, vips, lbVservers, anycast, anycastEnabled, ip);
    }

    /** Brings an address up or down by the health of its services. */
    method VipUpdateState(ip: IP)
      requires AgreesBut(kernel, services, served, ip) && Logged() && OnInterface()
      requires ip in kernel.routes && VipHealth(services, ip, anycast) ==> RouteSafe(kernel, services, served, ip)
      requires forall k | k in services && services[k].vip.ip == ip :: Loose(services[k])
      requires served ==> forall k | k in services && services[k].vip.ip == ip :: Populated(services[k])
      requires config.Some?
      requires ip in anycast && ip !in active && VipHealth(services, ip, anycast) ==>
               config.value.Addr(ip.af) == Some(ip)
      modifies `services, `active, `lbVservers, `kernel, `trace, `views
      ensures Sound({}) && OnInterface()
      ensures active == NewActive(old(services), old(active), ip, anycast)
      ensures services == SettleIP(old(services), ip, active)
    {
      hide AgreesBut, Agrees, Logged, RouteSafe, Loose, Populated, InterfaceFits, SnapsFit, SettleIP;
      FitsElsewhere(kernel, active, vips, lbVservers, anycast, anycastEnabled, ip);
      var healthy := ScanServices(ip);
      if ip !in active || healthy {
        AgreesWhole(kernel, services, served, ip);
      }
      if (ip in active) == healthy {
        assert active == NewActive(services, active, ip, anycast);
        UpdateServices(ip);
        InterfaceSame(old(kernel), kernel, active, vips, lbVservers, anycast, anycastEnabled, ip);
      } else if !healthy && ip in active {
        VipDown(ip);
      } else if healthy && ip !in active {
        VipUp(ip);
      }
    }

    // ---- Health ----

    method CountDests(k: ServiceKey) returns (backends: nat, healthy: nat)
      requires k in services
      ensures var dests := services[k].dests;
              && backends == |set ip | ip in dests && dests[ip].backend.inService|
              && healthy == |set ip | ip in dests && dests[ip].healthy|
      ensures backends == NumBackends(services[k].dests) && healthy == NumHealthy(services[k].dests)
    {
      hide DestsInService, HealthyDests;
      var dests := services[k].dests;
      ghost var inService, up := DestsInService(dests), HealthyDests(dests);
      backends, healthy := 0, 0;
      var todo := dests.Keys;
      assert inService - todo == {} && up - todo == {} by { Listed(dests); }
      while todo != {}
        invariant todo <= dests.Keys && backends == |inService - todo| && healthy == |up - todo|
      {
        var ip :| ip in todo;
        Listed(dests);
        OneMore(inService, todo, ip);
        OneMore(up, todo, ip);
        todo := todo - {ip};
        if dests[ip].backend.inService {
          backends := backends + 1;
        }
        if dests[ip].healthy {
          healthy := healthy + 1;
        }
      }
      assert inService - todo == inService && up - todo == up;
      Listed(dests);
      assert inService == set ip | ip in dests && dests[ip].backend.inService;
      assert up == set ip | ip in dests && dests[ip].healthy;
    }

    /** Judges a service by its watermarks. */
    method JudgeService(k: ServiceKey) returns (healthy: bool)
      requires k in services
      ensures var s := services[k];
              var backends := |set ip | ip in s.dests && s.dests[ip].backend.inService|;
              var up := |set ip | ip in s.dests && s.dests[ip].healthy|;
              healthy <==>
                && up > 0 && backends > 0
                && up as real / backends as real >= if s.healthy then s.entry.low else s.entry.high
      ensures healthy == ServiceHealth(services[k])
      ensures healthy ==> NumHealthy(services[k].dests) > 0
    {
      hide NumHealthy, NumBackends;
      var s := services[k];
      var numBackends, numHealthy := CountDests(k);
      var threshold := s.entry.low;
      if !s.healthy {
        threshold := s.entry.high;
      }
      if numBackends > 0 {
        WatermarkQuotient(numHealthy, numBackends, threshold);
      }
      if numBackends == 0 || numHealthy == 0 {
        healthy := false;
      } else if threshold == 0.0 {
        healthy := numHealthy >= 1;
      } else {
        healthy := numHealthy as real / numBackends as real >= threshold;
      }
    }

    /** Records a change in the health of a service and propagates it to the address where that can matter. */
    method ServiceTurn(k: ServiceKey, healthy: bool, ghost flip: IP)
      requires Sound({}) && OnInterface() && k in services && healthy != services[k].healthy
      requires SettledBut(services, active, k) && Disturbed(services[k], active, flip)
      requires services[k].vip.ip in active <==> VipHealth(services, services[k].vip.ip, anycast)
      requires served ==> PopulatedBut(services, k)
      requires healthy ==> NumHealthy(services[k].dests) > 0
      requires config.Some? && config.value.Addr(services[k].vip.ip.af) == Some(services[k].vip.ip)
      modifies `services, `active, `lbVservers, `kernel, `trace, `views
      ensures Sound({}) && OnInterface()
      ensures var judged := old(services)[k := old(services)[k].(healthy := healthy)];
              && active == NewActive(judged, old(active), old(services)[k].vip.ip, anycast)
              && services == SettleAll(judged, active)
    {
      hide Agrees, Logged, RouteSafe, Populated, InterfaceFits, SnapsFit, SettleIP, Settle, SettleDests, SettleAll,
           VipHealth, NumHealthy, PopulatedBut;
      var ip := services[k].vip.ip;
      HealthFlag(kernel, services, served, k, healthy);
      VipHealthAfter(services, k, healthy, active, anycast);
      if served {
        HealthPopulates(services, k, healthy, active);
      }
      services := services[k := services[k].(healthy := healthy)];
      ghost var judged := services;
      if ip in active && healthy {
        SettleUp(judged, active, k);
        assert active + {ip} == active;
        ServiceUp(k);
        InterfaceSame(old(kernel), kernel, active, vips, lbVservers, anycast, anycastEnabled, ip);
      } else if (ip in active) != healthy {
        SettledLoose(judged, active, k);
        AgreesFor(kernel, judged, served, ip);
        SettleAddress(judged, active, NewActive(judged, active, ip, anycast), k, ip);
        VipUpdateState(ip);
      } else {
        SettleIdle(judged, active, k);
        assert active - {ip} == active;
      }
    }

    /** Re-evaluates a service after the health of its destination `flip` has changed, and propagates the outcome. */
    method ServiceUpdateState(k: ServiceKey, ghost flip: IP)
      requires Sound({}) && OnInterface() && k in services
      requires SettledBut(services, active, k) && Disturbed(services[k], active, flip)
      requires services[k].vip.ip in active <==> VipHealth(services, services[k].vip.ip, anycast)
      requires served ==> PopulatedBut(services, k)
      requires config.Some? && config.value.Addr(services[k].vip.ip.af) == Some(services[k].vip.ip)
      modifies `services, `active, `lbVservers, `kernel, `trace, `views
      ensures Sound({}) && OnInterface()
      ensures ServiceJudged(old(services), old(active), services, active, anycast, k)
      ensures served ==> AllPopulated(services)
    {
      hide Agrees, Logged, RouteSafe, Populated, InterfaceFits, SnapsFit, Settle, SettleDests, SettleAll,
           ServiceHealth, VipHealth, SettledBut, NumHealthy, PopulatedBut, AllPopulated;
      var s := services[k];
      var healthy := JudgeService(k);
      if served {
        HealthPopulates(services, k, healthy, active);
      }
      if s.healthy == healthy {
        assert services[k := s.(healthy := healthy)] == services;
        if s.vip.ip in kernel.routes {
          RoutedServiceKeepsOne(kernel, services, served, k, active, flip);
        }
        SettleInPlace(services, active, k, flip);
        UpdateDests(k, {});
        InterfaceSame(old(kernel), kernel, active, vips, lbVservers, anycast, anycastEnabled, flip);
      } else {
        ServiceTurn(k, healthy, flip);
      }
      if served {
        HealthPopulates(old(services), k, healthy, active);
      }
    }

    method ScanChecks(k: ServiceKey, ip: IP) returns (healthy: bool)
      requires k in services && ip in services[k].dests
      requires forall c | c in services[k].dests[ip].checks :: c in checks
      ensures healthy == ChecksPass(services[k].dests[ip], checks)
    {
      var d := services[k].dests[ip];
      healthy := d.backend.enabled;
      if healthy {
        for i := 0 to |d.checks|
          invariant forall j | 0 <= j < i :: checks[d.checks[j]].state == Healthy
        {
          if checks[d.checks[i]].state != Healthy {
            return false;
          }
        }
      }
    }

    /** Re-evaluates a destination from its checks, and its service where that may matter. */
    method DestUpdateState(k: ServiceKey, ip: IP)
      requires Sound({}) && OnInterface() && Settled(services, active)
      requires k in services && ip in services[k].dests
      requires forall c | c in services[k].dests[ip].checks :: c in checks
      requires services[k].vip.ip in active <==> VipHealth(services, services[k].vip.ip, anycast)
      requires served ==> AllPopulated(services)
      requires config.Some? && config.value.Addr(services[k].vip.ip.af) == Some(services[k].vip.ip)
      modifies `services, `active, `lbVservers, `kernel, `trace, `views
      ensures Sound({}) && OnInterface()
      ensures DestJudged(old(services), old(active), services, active, anycast,
                         k, ip, ChecksPass(old(services)[k].dests[ip], checks))
      ensures served ==> AllPopulated(services)
    {
      hide Agrees, Logged, RouteSafe, InterfaceFits, SnapsFit, SettleAll, ServiceHealth, VipHealth, SettledBut,
           Disturbed, PopulatedBut, AllPopulated, DestJudged, ChecksPass, ServiceJudged;
      var healthy := ScanChecks(k, ip);
      var s, d := services[k], services[k].dests[ip];
      if d.healthy == healthy {
        DestUnchangedJudged(services, active, anycast, k, ip);
        return;
      }
      SettledService(services, active, k);
      SwapDest(kernel, services, served, k, ip, d.(healthy := healthy));
      DisturbedByDest(services, active, k, ip, healthy);
      MarkedDest(services, k, ip, healthy, anycast);
      services := SetDest(services, k, ip, d.(healthy := healthy));
      ghost var marked := services;
      if s.active && healthy {
        DestUpJudged(old(services), active, anycast, k, ip);
        SetDestTwice(old(services), k, ip, d.(healthy := true), d.(healthy := true, active := true));
        DestUp(k, ip);
        InterfaceSame(old(kernel), kernel, active, vips, lbVservers, anycast, anycastEnabled, ip);
      } else if s.active != healthy || s.healthy != healthy {
        ServiceUpdateState(k, ip);
        DestJudgedByService(old(services), old(active), services, active, anycast, k, ip, healthy);
      } else {
        DestIdleJudged(old(services), active, anycast, k, ip);
      }
    }

    /** The same, between two states in which everything is in order. */
    method RecheckDest(k: ServiceKey, ip: IP)
      requires Valid() && k in services && ip in services[k].dests
      modifies `services, `active, `lbVservers, `kernel, `trace, `views
      ensures Valid() && SameShapes(old(services), services)
      ensures forall c | c in old(services)[k].dests[ip].checks :: c in checks
      ensures DestJudged(old(services), old(active), services, active, anycast,
                         k, ip, ChecksPass(old(services)[k].dests[ip], checks))
    {
      hide Agrees, Logged, InterfaceFits, SnapsFit, VipHealth, AllPopulated, DestJudged, ChecksPass, Shape, Settled,
           SameShapes;
      ghost var svcs, on, healthy := services, active, ChecksPass(services[k].dests[ip], checks);
      DestUpdateState(k, ip);
      JudgedStands(svcs, on, services, active, anycast, k, ip, healthy, checks);
    }

    // ---- Events ----

    method HandleCheckNotification(c: CheckKey, state: CheckState)
      requires Valid()
      modifies `services, `checks, `active, `lbVservers, `kernel, `trace, `views
      ensures Valid()
      ensures checks == if enabled && c in old(checks) then old(checks)[c := old(checks)[c].(state := state)]
                        else old(checks)
      ensures old(Exact(services, checks)) ==>
              services == Recompute(old(services), checks, anycast) && Exact(services, checks)
      ensures SameShapes(old(services), services)
      ensures if enabled && c in old(checks) && old(checks)[c].state != state
              then FlagsAfter(old(services), services, checks, checks[c].dests)
              else services == old(services) && active == old(active)
    {
      hide Agrees, Logged, InterfaceFits, SnapsFit, VipHealth, AllPopulated, Settled, VipsExact, Exact, Recompute,
           ChecksLinked, FlagsAfter;
      if Exact(services, checks) {
        ExactFixed(services, checks, active, anycast);
      }
      if !enabled || c !in checks {
        return;
      }
      LinkedAfter(services, checks, c, state);
      var transition := checks[c].state != state;
      checks := checks[c := checks[c].(state := state)];
      if transition {
        if Exact(services, old(checks)) {
          ExactRecompute(services, old(checks), checks, anycast);
        }
        NotifyDests(c, services, old(checks), state);
      } else {
        assert checks == old(checks);
      }
    }

    /** Re-evaluates the destinations of a check whose state has changed. */
    method NotifyDests(c: CheckKey, ghost svcs: Services, ghost was: map<CheckKey, Check>, ghost state: CheckState)
      requires Valid()
      requires c in was && checks == was[c := was[c].(state := state)] && services == svcs && ChecksLinked(svcs, was)
      modifies `services, `active, `lbVservers, `kernel, `trace, `views
      ensures Valid() && SameShapes(svcs, services)
      ensures Exact(svcs, was) ==> services == Recompute(svcs, checks, anycast)
      ensures FlagsAfter(svcs, services, checks, checks[c].dests)
    {
      hide Agrees, Logged, InterfaceFits, SnapsFit, VipHealth, AllPopulated, DestJudged, ChecksPass, DestHealth,
           Exact, Bare, Judge, Shape, Settled, Recompute, VipsExact, FlagsAfter;
      var refs := checks[c].dests;
      FlagsNone(svcs, checks);
      for i := 0 to |refs|
        invariant Valid() && SameShapes(svcs, services) && FlagsAfter(svcs, services, checks, refs[..i])
        invariant Exact(svcs, was) ==> Notified(svcs, was, c, state, services, i)
      {
        ghost var cur, on := services, active;
        var r := refs[i];
        RecheckDest(r.svc, r.ip);
        PassIsHealth(cur, checks, c, r.svc, r.ip);
        FlagsOne(svcs, cur, on, services, active, anycast, checks, refs, i);
        if Exact(svcs, was) {
          NotifiedStep(svcs, was, c, state, cur, on, services, active, anycast, i);
        }
      }
      assert refs[..|refs|] == refs;
      if Exact(svcs, was) {
        NotifiedAll(svcs, was, c, state, services, active, anycast);
      }
    }

    // ---- Configuration update ----

    /** Gives a service new settings, in IPVS too where they show there. */
    method UpdateSettings(k: ServiceKey, new_: Service, ghost current: set<IP>)
      requires Steady(current) && k in services && ServiceOK(k, new_) && new_.vip.ip == services[k].vip.ip
      modifies `services, `kernel, `trace, `views
      ensures Steady(current)
      ensures services == old(services)[k := Resettle(old(services)[k], new_)]
    {
      hide TableFits, ServicesOK, Logged, InterfaceFits, SnapsFit, VipHealth, AllPopulated, Settled, RoutesSafe,
           ServiceOK, VipsOn, Exec;
      var s := services[k];
      var update := s.active
        && !(s.ipvsSvc == new_.ipvsSvc && s.entry.mode == new_.entry.mode
             && s.entry.lowerThreshold == new_.entry.lowerThreshold &&
                s.entry.upperThreshold == new_.entry.upperThreshold);
      ResettleSettled(services, active, anycast, current, k, new_);
      if update {
        UpdateServiceStep(kernel, services, served, k, new_);
      } else {
        ResettleQuiet(kernel, services, served, k, new_);
      }
      services := services[k := Resettle(s, new_)];
      if update {
        Issue(UpdateService(new_.ipvsSvc));
        InterfaceSame(old(kernel), kernel, active, vips, lbVservers, anycast, anycastEnabled, s.vip.ip);
      }
    }

    /** Takes a service down and forgets it. Its address is not among the current ones. */
    method DropService(k: ServiceKey, ghost current: set<IP>)
      requires Steady(current) && k in services && services[k].vip.ip !in current
      modifies `services, `mapless, `active, `lbVservers, `kernel, `trace, `views
      ensures Steady(current) && mapless == old(mapless) - {k}
      ensures services.Keys == old(services).Keys - {k}
      ensures forall j | j in services :: Bare(services[j]) == Bare(old(services)[j])
    {
      hide Agrees, Logged, InterfaceFits, SnapsFit, VipHealth, AllPopulated, Settled, VipsOn, Bare;
      SettledService(services, active, k);
      if services[k].active {
        TakeDown(k, current);
      }
      DropSettled(services, active, anycast, current, k);
      RemoveService(kernel, services, served, k);
      services, mapless := services - {k}, mapless - {k};
    }

    /** Declares a service unhealthy, which takes it down. */
    method TakeDown(k: ServiceKey, ghost current: set<IP>)
      requires Steady(current) && k in services && services[k].active && services[k].vip.ip !in current
      modifies `services, `active, `lbVservers, `kernel, `trace, `views
      ensures Steady(current) && k in services && !services[k].active && !services[k].healthy
      ensures services.Keys == old(services).Keys
      ensures services[k].vip == old(services)[k].vip
      ensures forall j | j in services && j != k :: Bare(services[j]) == Bare(old(services)[j])
    {
      hide Agrees, AgreesBut, Logged, InterfaceFits, SnapsFit, VipHealth, AllPopulated, VipsOn, Bare, SettleIP,
           SettleAll, Loose, RouteSafe, Settled, SettledBut, Populated;
      var ip := services[k].vip.ip;
      SettledService(services, active, k);
      HealthFlag(kernel, services, served, k, false);
      ClosedReady(services, active, k);
      services := services[k := services[k].(healthy := false)];
      ghost var marked := services;
      AgreesFor(kernel, marked, served, ip);
      VipsOnAfter(old(services), marked, active, anycast, current, ip);
      VipUpdateState(ip);
      SettleAddress(marked, old(active), active, k, ip);
      ClosedSettled(marked, active, anycast, current, k);
    }

    /** Files a new service, unhealthy as yet, and reconsiders its address. A firewall-mark service comes without a map
        to put destinations in. */
    method AddNewService(k: ServiceKey, new_: Service, ghost current: set<IP>)
      requires Steady(current) && k !in services && ServiceOK(k, new_)
      requires !new_.healthy && !new_.active && new_.dests == map[]
      requires config.value.Addr(new_.vip.ip.af) == Some(new_.vip.ip)
      modifies `services, `mapless, `active, `lbVservers, `kernel, `trace, `views
      ensures Steady(current) && mapless == old(mapless) + if config.value.useFWM then {k} else {}
      ensures services.Keys == old(services).Keys + {k}
      ensures forall j | j in services :: Bare(services[j]) == Bare(if j == k then new_ else old(services)[j])
    {
      hide Agrees, AgreesBut, Logged, InterfaceFits, SnapsFit, AllPopulated, VipsOn, Bare, SettleIP, SettleAll, Loose,
           RouteSafe, ServiceOK, Settled, SettledBut, VipHealth, Populated;
      var ip := new_.vip.ip;
      InsertService(kernel, services, served, k, new_);
      AddedReady(services, active, k, new_);
      FitsElsewhere(kernel, active, vips, lbVservers, anycast, anycastEnabled, ip);
      services := services[k := new_];
      mapless := mapless + if config.value.useFWM then {k} else {};
      ghost var marked := services;
      UnhealthyVip(marked, k, anycast);
      VipsOnAfter(old(services), marked, active, anycast, current, ip);
      VipUpdateState(ip);
      SettleAddress(marked, old(active), active, k, ip);
      ClosedSettled(marked, active, anycast, current, k);
    }

    /** Re-evaluates a service of a current address during an update. */
    method Rejudge(k: ServiceKey, ghost flip: IP, ghost current: set<IP>)
      requires Sound({}) && OnInterface() && k in services
      requires SettledBut(services, active, k) && Disturbed(services[k], active, flip)
      requires VipsOn(services, active, anycast, current) && services[k].vip.ip in current
      requires served ==> PopulatedBut(services, k)
      requires config.Some? && config.value.Addr(services[k].vip.ip.af) == Some(services[k].vip.ip)
      modifies `services, `active, `lbVservers, `kernel, `trace, `views
      ensures Steady(current)
      ensures services.Keys == old(services).Keys
      ensures forall j | j in services :: Shape(services[j]) == Shape(old(services)[j])
      ensures forall ip | ip in services[k].dests ::
                ip in old(services)[k].dests && services[k].dests[ip].healthy == old(services)[k].dests[ip].healthy
      ensures FlagsKept(old(services), services, k, {})
    {
      hide Agrees, Logged, InterfaceFits, SnapsFit, VipHealth, AllPopulated, Shape, SettledBut, Disturbed,
           PopulatedBut, Settled, FlagsKept;
      ServiceUpdateState(k, flip);
      JudgedKept(old(services), old(active), services, active, anycast, k);
      JudgedSettled(old(services), old(active), services, active, anycast, k, current);
    }

    /** Gives a destination new settings; one whose backend has been disabled goes down. */
    method UpdateDestSettings(k: ServiceKey, ip: IP, new_: Dest, ghost current: set<IP>)
      requires Steady(current) && k in services && ip in services[k].dests
      requires new_.ipvsDst.address == ip && services[k].vip.ip in current
      requires config.value.Addr(services[k].vip.ip.af) == Some(services[k].vip.ip)
      modifies `services, `active, `lbVservers, `kernel, `trace, `views
      ensures Steady(current)
      ensures ShapesBut(old(services), services, k, SetDest(old(services), k, ip, new_)[k])
      ensures Kept(old(services), services, k, if new_.backend.enabled then {} else {ip})
    {
      hide TableFits, ServicesOK, RoutesSafe, Exec, Logged, InterfaceFits, SnapsFit, VipHealth, AllPopulated, Shape,
           Settled, VipsOn, Kept;
      var d := services[k].dests[ip];
      var update := d.active && d.ipvsDst != new_.ipvsDst;
      var next := new_.(active := d.active, healthy := d.healthy);
      SetDestShape(services[k], ip, next, new_);
      SettledService(services, active, k);
      if next.healthy && !next.backend.enabled {
        DisableDest(k, ip, next, current);
        return;
      }
      SetDestKept(services, k, ip, next);
      SettingsKept(services, SetDest(services, k, ip, next), k, ip, next);
      SwapSettled(services, active, anycast, current, k, ip, next);
      if next.healthy && update {
        UpdateDestStep(kernel, services, served, k, ip, next);
      } else {
        SwapDest(kernel, services, served, k, ip, next);
      }
      services := SetDest(services, k, ip, next);
      if next.healthy && update {
        Issue(UpdateDest(services[k].ipvsSvc, next.ipvsDst));
        InterfaceSame(old(kernel), kernel, active, vips, lbVservers, anycast, anycastEnabled, ip);
      }
    }

    /** Gives a destination the settings of one whose backend is disabled, and judges its service again. */
    method DisableDest(k: ServiceKey, ip: IP, next: Dest, ghost current: set<IP>)
      requires Steady(current) && k in services && ip in services[k].dests
      requires next.ipvsDst.address == ip && services[k].vip.ip in current &&
               next.active == services[k].dests[ip].active && services[k].dests[ip].healthy
      requires config.value.Addr(services[k].vip.ip.af) == Some(services[k].vip.ip)
      modifies `services, `active, `lbVservers, `kernel, `trace, `views
      ensures Steady(current)
      ensures ShapesBut(old(services), services, k, SetDest(old(services), k, ip, next)[k])
      ensures Kept(old(services), services, k, {ip})
    {
      hide Agrees, Logged, InterfaceFits, SnapsFit, VipHealth, AllPopulated, Shape, SettledBut, Disturbed,
           PopulatedBut, Settled, VipsOn, Kept, FlagsKept, Populated;
      ghost var off := next.(healthy := false);
      SettledService(services, active, k);
      SetDestShape(services[k], ip, off, next);
      SwapDest(kernel, services, served, k, ip, off);
      SwapDisturbs(services, active, anycast, current, k, ip, off);
      SetDestKept(services, k, ip, off);
      services := SetDest(services, k, ip, next);
      services := SetDest(services, k, ip, next.(healthy := false));
      SetDestOver(old(services), k, ip, next, off);
      ghost var marked := services;
      Rejudge(k, ip, current);
      JudgedAfter(old(services), marked, services, k, ip);
    }

    /** Puts a destination in its service's map, which must exist: a write to a nil map ends the engine. */
    method AddNewDest(k: ServiceKey, ip: IP, new_: Dest, ghost current: set<IP>)
      requires Steady(current) && k in services && ip !in services[k].dests && k !in mapless
      requires new_.ipvsDst.address == ip && !new_.healthy && !new_.active
      modifies `services
      ensures Steady(current)
      ensures ShapesBut(old(services), services, k, SetDest(old(services), k, ip, new_)[k])
      ensures Kept(old(services), services, k, {})
    {
      hide TableFits, ServicesOK, RoutesSafe, Logged, InterfaceFits, SnapsFit, VipHealth, AllPopulated, Shape,
           Settled, VipsOn, Kept;
      SetDestKept(services, k, ip, new_);
      KeptSame(services, SetDest(services, k, ip, new_), k, {ip}, {});
      InsertDest(kernel, services, served, k, ip, new_);
      AddDestSettled(services, active, anycast, current, k, ip, new_);
      services := SetDest(services, k, ip, new_);
    }

    /** Marks a destination that is up as unhealthy, and judges its service again. */
    method FailDest(k: ServiceKey, ip: IP, ghost current: set<IP>)
      requires Steady(current) && k in services && ip in services[k].dests && services[k].vip.ip in current
      requires config.value.Addr(services[k].vip.ip.af) == Some(services[k].vip.ip) && services[k].dests[ip].active
      modifies `services, `active, `lbVservers, `kernel, `trace, `views
      ensures Steady(current) && ShapesBut(old(services), services, k, old(services)[k])
      ensures k in services && ip in services[k].dests && !services[k].dests[ip].active &&
              !services[k].dests[ip].healthy
      ensures Kept(old(services), services, k, {ip})
    {
      hide TableFits, ServicesOK, RoutesSafe, Logged, InterfaceFits, SnapsFit, VipHealth, AllPopulated, Shape,
           SettledBut, Disturbed, PopulatedBut, Settled, VipsOn, Kept, FlagsKept;
      var d := services[k].dests[ip];
      SettledService(services, active, k);
      SwapDest(kernel, services, served, k, ip, d.(healthy := false));
      SwapDisturbs(services, active, anycast, current, k, ip, d.(healthy := false));
      SetDestShape(services[k], ip, d, d.(healthy := false));
      SetDestSame(services, k, ip);
      SetDestKept(services, k, ip, d.(healthy := false));
      services := SetDest(services, k, ip, d.(healthy := false));
      ghost var marked := services;
      Rejudge(k, ip, current);
      JudgedAfter(old(services), marked, services, k, ip);
      ShapeKeys(services[k], old(services)[k]);
      SettledService(services, active, k);
    }

    /** Takes a destination down and forgets it. Where it is healthy but its service is down, the service is not
        re-evaluated. */
    method DropOldDest(k: ServiceKey, ip: IP, ghost current: set<IP>)
      requires Steady(current) && k in services && ip in services[k].dests && services[k].vip.ip in current
      requires config.value.Addr(services[k].vip.ip.af) == Some(services[k].vip.ip)
      modifies `services, `active, `lbVservers, `kernel, `trace, `views, `served
      ensures Steady(current)
      ensures ShapesBut(old(services), services, k, DropDest(old(services), k, ip)[k])
      ensures (served ==> old(served)) && (old(served) && !served ==> !Populated(services[k]))
      ensures !Populated(old(services)[k]) ==> !Populated(services[k])
      ensures Kept(old(services), services, k, {ip})
    {
      hide Agrees, Logged, InterfaceFits, SnapsFit, VipHealth, AllPopulated, Shape, Settled, VipsOn, Kept, HealthOf;
      var d := services[k].dests[ip];
      KeptRefl(services, k);
      ShapeRefl(services, k);
      SettledService(services, active, k);
      if d.active {
        FailDest(k, ip, current);
      } else if !Populated(DropDest(services, k, ip)[k]) {
        LoseServed();
      }
      ghost var cur := services;
      ForgetDest(k, ip, current);
      DropShape(cur[k], old(services)[k], ip);
      DropDestKept(cur, k, ip);
      ShapeKeys(cur[k], old(services)[k]);
      KeptMore(old(services), cur, services, k, if d.active then {ip} else {}, {ip});
      assert {ip} + {ip} == {ip} && {} + {ip} == {ip};
    }

    method ForgetDest(k: ServiceKey, ip: IP, ghost current: set<IP>)
      requires Steady(current) && k in services && ip in services[k].dests && !services[k].dests[ip].active
      requires served && services[k].dests[ip].healthy ==> Populated(DropDest(services, k, ip)[k])
      modifies `services
      ensures Steady(current) && services == DropDest(old(services), k, ip)
      ensures !Populated(old(services)[k]) ==> !Populated(services[k])
    {
      hide Agrees, Logged, InterfaceFits, SnapsFit, AllPopulated, Settled, VipsOn, Populated;
      RemoveDest(kernel, services, served, k, ip);
      DropDestSettled(services, active, anycast, current, k, ip);
      services := DropDest(services, k, ip);
    }

    /** The destinations the configuration gives a service, one for each address its backends have in the family. */
    method ExpandDests(k: ServiceKey, entry: Entry) returns (dests: map<IP, Dest>)
      requires config.Some?
      ensures DestsReflect(config.value, k, entry, dests)
      ensures forall ip :: ip in dests <==> exists b :: BackendFor(config.value, k.af, ip, b)
      ensures forall ip | ip in dests :: DestAsConfigured(config.value, k, entry, ip, dests[ip])
      ensures forall ip | ip in dests ::
              !dests[ip].healthy && !dests[ip].active && dests[ip].checks == [] && dests[ip].ipvsDst.address == ip
    {
      var cfg := config.value;
      dests := map[];
      var todo := cfg.backends.Keys;
      while todo != {}
        invariant todo <= cfg.backends.Keys
        invariant forall ip | ip in dests :: DestReflects(cfg, k, entry, ip, dests[ip])
        invariant forall ip | ip in dests ::
                  !dests[ip].healthy && !dests[ip].active && dests[ip].checks == [] && dests[ip].ipvsDst.address == ip
        invariant forall b | b in cfg.backends && b !in todo && cfg.backends[b].Addr(k.af).Some? ::
                  cfg.backends[b].Addr(k.af).value in dests
      {
        var b :| b in todo;
        todo := todo - {b};
        var backend := cfg.backends[b];
        if backend.Addr(k.af).Some? {
          var ip := backend.Addr(k.af).value;
          dests := dests[ip := NewDest(k, entry, ip, backend)];
        }
      }
      DestsFor(cfg, k, entry, dests);
    }

    /** Brings in the destinations of a service that the configuration asks for. */
    method MergeDests(k: ServiceKey, new_: map<IP, Dest>, ghost current: set<IP>)
      requires Steady(current) && k in services && services[k].vip.ip in current
      requires config.value.Addr(services[k].vip.ip.af) == Some(services[k].vip.ip)
      requires forall ip | ip in new_ :: !new_[ip].healthy && !new_[ip].active && new_[ip].ipvsDst.address == ip
      requires k in mapless ==> new_ == map[]
      modifies `services, `active, `lbVservers, `kernel, `trace, `views
      ensures Steady(current)
      ensures ShapesBut(old(services), services, k, old(services)[k].(dests := old(services)[k].dests + new_))
      ensures Kept(old(services), services, k, DisabledIn(new_, new_.Keys))
    {
      hide Sound, OnInterface, Settled, VipsOn, AllPopulated, Shape, Merged, Kept;
      ghost var svcs := services;
      KeptRefl(services, k);
      ghost var s := services[k];
      MergedEnds(s.dests, new_);
      var todo := new_.Keys;
      assert new_.Keys - todo == {} && DisabledIn(new_, {}) == {};
      while todo != {}
        invariant todo <= new_.Keys && Kept(svcs, services, k, DisabledIn(new_, new_.Keys - todo))
        invariant Steady(current) && ShapesBut(svcs, services, k, s.(dests := Merged(s.dests, new_, new_.Keys - todo)))
      {
        ghost var cur := services;
        ghost var t := s.(dests := Merged(s.dests, new_, new_.Keys - todo));
        var ip :| ip in todo;
        ShapeKeys(services[k], t);
        if ip in services[k].dests {
          UpdateDestSettings(k, ip, new_[ip], current);
        } else {
          AddNewDest(k, ip, new_[ip], current);
          KeptSame(cur, services, k, {}, if new_[ip].backend.enabled then {} else {ip});
        }
        DisabledStep(svcs, cur, services, k, new_, new_.Keys - todo, ip);
        SetShape(cur[k], t, ip, new_[ip]);
        MergedStep(s.dests, new_, new_.Keys - todo, ip);
        assert new_.Keys - todo + {ip} == new_.Keys - (todo - {ip});
        todo := todo - {ip};
      }
      assert new_.Keys - todo == new_.Keys;
    }

    /** Drops the destinations of a service that the configuration no longer has. */
    method DropOldDests(k: ServiceKey, new_: map<IP, Dest>, ghost current: set<IP>)
      requires Steady(current) && k in services && services[k].vip.ip in current
      requires config.value.Addr(services[k].vip.ip.af) == Some(services[k].vip.ip)
      modifies `services, `active, `lbVservers, `kernel, `trace, `views, `served
      ensures Steady(current)
      ensures ShapesBut(old(services), services, k,
                        old(services)[k].(dests := old(services)[k].dests - (old(services)[k].dests.Keys - new_.Keys)))
      ensures (served ==> old(served)) && (old(served) && !served ==> !Populated(services[k]))
      ensures old(services)[k].dests.Keys <= new_.Keys ==> served == old(served)
      ensures Kept(old(services), services, k, old(services)[k].dests.Keys - new_.Keys)
    {
      hide Sound, OnInterface, Settled, VipsOn, AllPopulated, ShapesBut, Kept, Dropping, Populated;
      ghost var svcs, was := services, served;
      var todo := services[k].dests.Keys;
      DroppingStarts(services, k, new_.Keys, served);
      while todo != {}
        invariant Steady(current) && Dropping(svcs, services, k, new_.Keys, todo, was, served) && k in services
      {
        ghost var cur, before := services, served;
        var ip :| ip in todo;
        DroppingPending(svcs, services, k, new_.Keys, todo, was, served, ip);
        if ip !in new_ {
          DropOldDest(k, ip, current);
          DroppingStep(svcs, cur, services, k, new_.Keys, todo, was, before, served, ip);
        }
        todo := todo - {ip};
      }
      DroppingEnds(svcs, services, k, new_.Keys, was, served);
    }

    /** Makes the destinations of a service those of the configuration. */
    method ReconcileDests(k: ServiceKey, ghost current: set<IP>)
      requires Steady(current) && k in services && services[k].vip.ip in current
      requires k in mapless ==> NoBackends(config.value, k.af)
      requires config.value.Addr(services[k].vip.ip.af) == Some(services[k].vip.ip)
      modifies `services, `active, `lbVservers, `kernel, `trace, `views, `served
      ensures Steady(current)
      ensures services.Keys == old(services).Keys
      ensures forall j | j in services && j != k :: Shape(services[j]) == Shape(old(services)[j])
      ensures services[k].vip == old(services)[k].vip && services[k].entry == old(services)[k].entry
           && services[k].ipvsSvc == old(services)[k].ipvsSvc
      ensures DestsReflect(config.value, k, services[k].entry, services[k].dests)
      ensures (served ==> old(served)) && (old(served) && !served ==> !Populated(services[k]))
      ensures old(services)[k].dests.Keys <= services[k].dests.Keys ==> served == old(served)
      ensures ReviewedOne(old(services), services, k)
    {
      hide Sound, OnInterface, Settled, VipsOn, AllPopulated, Shape, DestsReflect, Kept, ReviewedOne, Populated;
      ghost var was := services;
      var new_ := ExpandDests(k, services[k].entry);
      if k in mapless {
        NoDests(config.value, k, services[k].entry, new_);
      }
      MergeDests(k, new_, current);
      ghost var merged := services;
      ShapeKeys(merged[k], was[k].(dests := was[k].dests + new_));
      DropOldDests(k, new_, current);
      DestsReplaced(config.value, was, merged, services, k, new_);
      ShapeKeys(services[k], was[k].(dests := new_));
    }

    method ExpandFamily(af: AF) returns (svcs: Services)
      requires config.Some? && ConfigOK(config.value, anycast) && MarksOK(config.value, fwm)
      ensures forall k :: k in svcs <==> k.af == af && Wanted(config.value, fwm, k)
      ensures forall k | k in svcs :: Fresh(config.value, fwm, anycast, k, svcs[k])
    {
      hide Fresh, NewService;
      var cfg := config.value;
      svcs := map[];
      if cfg.Addr(af).None? {
        return;
      }
      var ip := cfg.Addr(af).value;
      var todo := cfg.entries.Keys;
      if cfg.useFWM {
        var e :| e in todo;
        var k := KeyFor(cfg, fwm, af, e);
        NewFresh(cfg, fwm, anycast, af, e);
        svcs := map[k := NewService(cfg, k, ip, cfg.entries[e], anycast)];
        return;
      }
      while todo != {}
        invariant todo <= cfg.entries.Keys
        invariant forall k :: k in svcs <==>
                  k.af == af && exists e :: e in cfg.entries && e !in todo && k == KeyFor(cfg, fwm, af, e)
        invariant forall k | k in svcs :: Fresh(cfg, fwm, anycast, k, svcs[k])
      {
        var e :| e in todo;
        todo := todo - {e};
        var k := KeyFor(cfg, fwm, af, e);
        NewFresh(cfg, fwm, anycast, af, e);
        svcs := svcs[k := NewService(cfg, k, ip, cfg.entries[e], anycast)];
      }
    }

    /** The services of the configuration, in both address families. */
    method ExpandServices() returns (svcs: Services)
      requires config.Some? && ConfigOK(config.value, anycast) && MarksOK(config.value, fwm)
      ensures Expansion(config.value, fwm, anycast, svcs)
    {
      hide Fresh, Wanted, ConfigOK, MarksOK;
      svcs := map[];
      var afs := [IPv4, IPv6];
      for i := 0 to |afs|
        invariant forall k :: k in svcs <==> k.af in afs[..i] && Wanted(config.value, fwm, k)
        invariant forall k | k in svcs :: Fresh(config.value, fwm, anycast, k, svcs[k])
      {
        var family := ExpandFamily(afs[i]);
        svcs := svcs + family;
      }
      assert afs[0] == IPv4 && afs[1] == IPv6 && afs[..|afs|] == afs;
      assert forall k: ServiceKey :: k.af == IPv4 || k.af == IPv6;
    }

    /** Files the new services: settings replaced where the address is the same, a new start where it is not. */
    method MergeServices(new_: Services, ghost current: set<IP>)
      requires Steady(current) && ConfigOK(config.value, anycast) && MarksOK(config.value, fwm)
      requires Expansion(config.value, fwm, anycast, new_) && current == Addresses(config.value) &&
               mapless <= services.Keys
      modifies `services, `mapless, `active, `lbVservers, `kernel, `trace, `views
      ensures Steady(current)
      ensures ServicesMerged(config.value, fwm, anycast, old(services), services, new_, {})
      ensures DestsWithin(old(services), services)
      ensures MovedOff(old(services), services, new_, {})
      ensures MapsMerged(old(services), new_, config.value.useFWM, old(mapless), mapless, {})
    {
      hide Sound, OnInterface, Settled, VipsOn, AllPopulated, ServiceReflects, Fresh, ConfigOK, MarksOK, Wanted, Shape,
           Addresses, ServicesMerged, MovedOff, Kept, MapsMerged;
      MovedNone(services, new_);
      MapsStart(services, new_, config.value.useFWM, mapless);
      ghost var svcs := services;
      var todo := new_.Keys;
      MergeStarts(config.value, fwm, anycast, svcs, new_);
      while todo != {}
        invariant todo <= new_.Keys && Steady(current)
        invariant ServicesMerged(config.value, fwm, anycast, svcs, services, new_, todo) && DestsWithin(svcs, services)
        invariant MovedOff(svcs, services, new_, todo)
        invariant MapsMerged(svcs, new_, config.value.useFWM, old(mapless), mapless, todo)
      {
        ghost var cur, maps := services, mapless;
        var k :| k in todo;
        MergePending(config.value, fwm, anycast, svcs, services, new_, todo, k);
        MergeService(k, new_[k], current);
        DestsWithinStep(svcs, cur, services, k);
        MergeStep(config.value, fwm, anycast, svcs, cur, services, new_, todo, k);
        MergedAddresses(config.value, fwm, anycast, cur, services, k, new_[k]);
        MovedStep(svcs, cur, services, new_, todo, k);
        MapsStep(svcs, new_, config.value.useFWM, old(mapless), maps, mapless, todo, k);
        todo := todo - {k};
      }
    }

    method MergeService(k: ServiceKey, new_: Service, ghost current: set<IP>)
      requires Steady(current) && ConfigOK(config.value, anycast) && MarksOK(config.value, fwm)
      requires Fresh(config.value, fwm, anycast, k, new_) && current == Addresses(config.value)
      modifies `services, `mapless, `active, `lbVservers, `kernel, `trace, `views
      ensures Steady(current) && MergedOne(config.value, fwm, anycast, old(services), services, k, new_)
      ensures mapless == if k in old(services) && old(services)[k].vip.ip == new_.vip.ip then old(mapless)
                         else ((if k in old(services) then old(mapless) - {k} else old(mapless)) +
                               (if config.value.useFWM then {k} else {}))
    {
      hide OnInterface, Logged, Agrees, Settled, VipsOn, AllPopulated, ConfigOK, MarksOK, ServiceReflects, Bare,
           ServiceOK, Shape, Addresses, Kept;
      KeptRefl(services, k);
      FreshOK(config.value, fwm, anycast, k, new_);
      if k in services {
        if services[k].vip.ip == new_.vip.ip {
          ResettleKept(services, k, new_);
          UpdateSettings(k, new_, current);
          ResettleReflects(config.value, fwm, anycast, k, old(services)[k], new_);
          return;
        }
        FamilyOf(kernel, services, served, k);
        OldAddress(config.value, anycast, services[k].vip.ip);
        DropService(k, current);
        BareKept(old(services), services, k);
      }
      ghost var cur := services;
      AddNewService(k, new_, current);
      AddedKept(cur, services, k, new_);
      ghost var off := if k in old(services) then old(services)[k].dests.Keys else {};
      BareVip(services[k], new_);
      KeptMore(old(services), cur, services, k, off, {});
      assert off + {} == off;
      AddedShapes(config.value, fwm, anycast, old(services), cur, services, k, new_);
    }

    /** Drops the services the configuration no longer has, and gives the others their destinations. */
    method ReconcileServices(new_: Services, ghost current: set<IP>)
      requires Steady(current) && current == Addresses(config.value)
      requires ConfigOK(config.value, anycast) && MarksOK(config.value, fwm) &&
               Expansion(config.value, fwm, anycast, new_)
      requires ServicesReconciled(config.value, fwm, anycast, services, new_, services.Keys)
      requires forall k | k in mapless && k in new_ :: NoBackends(config.value, k.af)
      modifies `services, `mapless, `active, `lbVservers, `kernel, `trace, `views, `served
      ensures Steady(current)
      ensures ServicesReconciled(config.value, fwm, anycast, services, new_, {})
      ensures KeepsDests(old(services), services) ==> served == old(served)
      ensures Lapsed(old(served), served, services, old(services).Keys)
      ensures mapless == old(mapless) - (old(services).Keys - new_.Keys)
      ensures Reviewed(old(services), services, {})
    {
      hide Sound, OnInterface, Settled, VipsOn, AllPopulated, ServicesReconciled, Expansion, ServiceReflects, ConfigOK,
           MarksOK, Addresses, KeepsDests, Reviewed, Lapsed, NoBackends, Reconciling, ReconciledOne;
      ghost var svcs, was := services, served;
      var todo := services.Keys;
      ReconcilingStarts(config.value, fwm, anycast, services, new_, served, mapless);
      while todo != {}
        invariant todo <= svcs.Keys && Steady(current)
        invariant Reconciling(config.value, fwm, anycast, svcs, services, new_, todo, was, served, old(mapless),
                              mapless)
      {
        ghost var cur, before, left := services, served, mapless;
        var k :| k in todo;
        ReconcilePending(config.value, fwm, anycast, svcs, cur, new_, todo, k, was, served, old(mapless), left);
        ReconcileService(k, new_, current);
        ReconcilingStep(config.value, fwm, anycast, svcs, cur, services, new_, todo, k, was, before, served,
                        old(mapless), left, mapless);
        todo := todo - {k};
      }
      ReconcilingEnds(config.value, fwm, anycast, svcs, services, new_, was, served, old(mapless), mapless);
    }

    /** Drops one service or gives it its destinations. */
    method ReconcileService(k: ServiceKey, new_: Services, ghost current: set<IP>)
      requires Steady(current) && current == Addresses(config.value) && k in services
      requires ConfigOK(config.value, anycast) && MarksOK(config.value, fwm) &&
               Expansion(config.value, fwm, anycast, new_)
      requires if k in new_ then ServiceReflects(config.value, fwm, anycast, k, services[k])
               else services[k].vip.ip !in current
      requires k in mapless && k in new_ ==> NoBackends(config.value, k.af)
      modifies `services, `mapless, `active, `lbVservers, `kernel, `trace, `views, `served
      ensures Steady(current) && mapless == old(mapless) - if k in new_ then {} else {k}
      ensures ReconciledOne(config.value, fwm, anycast, old(services), services, new_, k, old(served), served)
    {
      hide Sound, OnInterface, Settled, VipsOn, AllPopulated, ServiceReflects, DestsReflect, Fresh, ConfigOK, MarksOK,
           Wanted, Shape, Bare, Addresses, ReviewedOne, Populated;
      if k !in new_ {
        DropService(k, current);
        BareShapes(old(services), services);
        DroppedReviewed(old(services), services, k);
      } else {
        WantedAddress(config.value, fwm, anycast, k, services[k]);
        ReconcileDests(k, current);
        SameSettings(config.value, fwm, anycast, k, old(services)[k], services[k]);
      }
    }

    // ---- The interface ----

    method ConfigureVIP(vip: VIP)
      requires Sound({}) && OnInterface() && !vip.kind.AnycastVIP? && vip.ip !in anycast
      requires forall w | w in vips :: w.ip != vip.ip
      requires config.Some? && config.value.Addr(vip.ip.af) == Some(vip.ip)
      modifies `vips, `lbVservers, `kernel, `trace, `views
      ensures Sound({}) && OnInterface() && vips == old(vips) + {vip} && kernel.ipvs == old(kernel).ipvs
    {
      hide Agrees, Logged, InterfaceFits, SnapsFit, SnapFits;
      var snap := TakeSnapshot();
      SnapsMore(lbVservers, config, fwm, vip.ip, snap);
      PutOn(vip, snap);
    }

    method PutOn(vip: VIP, snap: Snapshot)
      requires Sound({}) && InterfaceFits(kernel, active, vips, lbVservers, anycast, anycastEnabled)
      requires !vip.kind.AnycastVIP? && vip.ip !in anycast && forall w | w in vips :: w.ip != vip.ip
      requires config.Some? && config.value.Addr(vip.ip.af) == Some(vip.ip) == snap.Addr(vip.ip.af)
      modifies `vips, `lbVservers, `kernel, `trace, `views
      ensures Sound({}) && InterfaceFits(kernel, active, vips, lbVservers, anycast, anycastEnabled)
      ensures vips == old(vips) + {vip} && lbVservers == old(lbVservers)[vip.ip := snap]
      ensures kernel.ipvs == old(kernel).ipvs
    {
      hide Agrees, RoutesSafe, Logged, InterfaceFits, Exec;
      ConfigureVIPStep(kernel, services, served, active, vips, lbVservers, anycast, anycastEnabled, vip, snap);
      Issue(AddVserver(snap, vip.ip.af));
      lbVservers := lbVservers[vip.ip := snap];
      Issue(AddVIP(vip));
      vips := vips + {vip};
    }

    /** Puts the configured VIPs on the interface, except the anycast ones, which come with their services. */
    method ConfigureVIPs()
      requires Sound({}) && OnInterface() && config.Some? && ConfigOK(config.value, anycast)
      requires TypesStable(vips, config.value)
      modifies `vips, `lbVservers, `kernel, `trace, `views
      ensures Sound({}) && OnInterface() && kernel.ipvs == old(kernel).ipvs
      ensures vips == old(vips) + FixedVIPs(config.value)
    {
      hide Sound, OnInterface;
      var todo := config.value.vips;
      while todo != {}
        invariant todo <= config.value.vips && Sound({}) && OnInterface() && kernel.ipvs == old(kernel).ipvs
        invariant TypesStable(vips, config.value)
        invariant vips == old(vips) + (FixedVIPs(config.value) - todo)
      {
        var vip :| vip in todo;
        todo := todo - {vip};
        if vip in vips || vip.kind.AnycastVIP? {
          continue;
        }
        assert forall w | w in vips :: w.ip != vip.ip;
        ConfigureVIP(vip);
      }
      assert FixedVIPs(config.value) - todo == FixedVIPs(config.value);
    }

    method UnconfigureVIP(vip: VIP)
      requires Sound({}) && OnInterface()
      modifies `vips, `lbVservers, `kernel, `trace, `views
      ensures Sound({}) && OnInterface() && vips == old(vips) - {vip} && kernel.ipvs == old(kernel).ipvs
    {
      hide TableFits, ServicesOK, RoutesSafe, Logged, InterfaceFits, SnapsFit;
      if vip !in vips {
        return;
      }
      UnconfigureVIPStep(kernel, services, served, active, vips, lbVservers, anycast, anycastEnabled, vip);
      Issue(DeleteVIP(vip));
      Issue(DeleteVserver(lbVservers[vip.ip], vip.ip.af));
      SnapsLess(lbVservers, config, fwm, vip.ip);
      lbVservers := lbVservers - {vip.ip};
      vips := vips - {vip};
    }

    method UnconfigureVIPs()
      requires Sound({}) && OnInterface()
      modifies `vips, `lbVservers, `kernel, `trace, `views
      ensures Sound({}) && OnInterface() && vips == {} && kernel.ipvs == old(kernel).ipvs
    {
      hide Sound, OnInterface;
      var todo := vips;
      while todo != {}
        invariant Sound({}) && OnInterface() && vips == todo && kernel.ipvs == old(kernel).ipvs
      {
        var vip :| vip in todo;
        UnconfigureVIP(vip);
        todo := todo - {vip};
      }
    }

    /** Takes off the interface the VIPs that no service needs any more. */
    method DropOldVIPs()
      requires Sound({}) && OnInterface()
      modifies `vips, `lbVservers, `kernel, `trace, `views
      ensures Sound({}) && OnInterface() && kernel.ipvs == old(kernel).ipvs
      ensures forall vip :: vip in vips <==> vip in old(vips) && vip.ip in ServiceIPs(services)
    {
      hide Sound, OnInterface;
      var needed := ServiceIPs(services);
      var todo := vips;
      while todo != {}
        invariant todo <= old(vips) && Sound({}) && OnInterface() && kernel.ipvs == old(kernel).ipvs
        invariant forall vip :: vip in vips <==> vip in old(vips) && (vip in todo || vip.ip in needed)
      {
        var vip :| vip in todo;
        if vip.ip !in needed {
          UnconfigureVIP(vip);
        }
        todo := todo - {vip};
      }
    }

    // ---- Checks ----

    /** Enters a destination under the checks of the vserver. */
    method SharedChecks(k: ServiceKey, ip: IP, was: map<CheckKey, Check>)
      returns (checks': map<CheckKey, Check>, keys: seq<CheckKey>)
      requires config.Some? && ConfigOK(config.value, anycast) && k in services
      requires Owned(config.value, fwm, was) && AllUnknown(was)
      ensures Entered(was, checks', keys, DestRef(k, ip)) && Owned(config.value, fwm, checks') && AllUnknown(checks')
      ensures KeysFor(config.value, k, services[k], ip, keys, {}, EntryChecks(config.value, k, services[k].entry))
    {
      hide Entered, Owned, AllUnknown, EntryChecks, ConfigOK, MadeFrom;
      var cfg, s := config.value, services[k];
      checks', keys := was, [];
      EnteredNone(was, DestRef(k, ip));
      var todo := cfg.healthchecks.Keys;
      while todo != {}
        invariant todo <= cfg.healthchecks.Keys
        invariant Entered(was, checks', keys, DestRef(k, ip)) && Owned(cfg, fwm, checks') && AllUnknown(checks')
        invariant KeysFor(cfg, k, s, ip, keys, todo, EntryChecks(cfg, k, s.entry))
      {
        var n :| n in todo;
        var hc := cfg.healthchecks[n];
        var c := CheckKeyOf(s.vip.ip, ip, 0, 0, hc);
        var check := if c in checks' then checks'[c].(dests := checks'[c].dests + [DestRef(k, ip)])
                     else Check(hc, [DestRef(k, ip)], Unknown);
        EnteredMore(was, checks', keys, DestRef(k, ip), c, check);
        SharedAt(cfg, fwm, anycast, checks', c, n);
        OwnedMore(cfg, fwm, checks', c, check, DestRef(k, ip));
        KeysForName(cfg, k, s, ip, keys, todo, EntryChecks(cfg, k, s.entry), n);
        checks' := checks'[c := check];
        keys := keys + [c];
        todo := todo - {n};
      }
    }

    /** Enters a destination under all its checks: those of the vserver, and new ones for the entries. */
    method DestChecks(k: ServiceKey, ip: IP, was: map<CheckKey, Check>)
      returns (checks': map<CheckKey, Check>, keys: seq<CheckKey>)
      requires config.Some? && ConfigOK(config.value, anycast) && k in services && ip in services[k].dests
      requires ServiceReflects(config.value, fwm, anycast, k, services[k])
      requires Owned(config.value, fwm, was) && AllUnknown(was) && forall c | c in was ::
               DestRef(k, ip) !in was[c].dests
      ensures Entered(was, checks', keys, DestRef(k, ip)) && Owned(config.value, fwm, checks') && AllUnknown(checks')
      ensures forall c :: c in keys <==> WantedCheck(config.value, k, services[k], ip, services[k].dests[ip], c)
      ensures forall c | c in keys :: c.backendIP == ip
    {
      hide Entered, Owned, AllUnknown, EntryChecks, ConfigOK, ServiceReflects, MadeFrom;
      var cfg, s := config.value, services[k];
      if !s.dests[ip].backend.enabled {
        checks', keys := was, [];
        EnteredNone(was, DestRef(k, ip));
        return;
      }
      checks', keys := SharedChecks(k, ip, was);
      var todo := EntryChecks(cfg, k, s.entry);
      while todo != {}
        invariant todo <= EntryChecks(cfg, k, s.entry)
        invariant Entered(was, checks', keys, DestRef(k, ip)) && Owned(cfg, fwm, checks') && AllUnknown(checks')
        invariant KeysFor(cfg, k, s, ip, keys, {}, todo)
      {
        var p :| p in todo;
        var c := CheckKeyOf(s.vip.ip, ip, p.0.port, p.0.proto, p.1);
        var check := Check(p.1, [DestRef(k, ip)], Unknown);
        EntryCheckNew(cfg, fwm, anycast, k, s, ip, was, p);
        PairNew(cfg, fwm, anycast, k, s, ip, keys, todo, p);
        EnteredKey(was, checks', keys, DestRef(k, ip), c);
        EnteredMore(was, checks', keys, DestRef(k, ip), c, check);
        EntryCheckOwner(cfg, fwm, anycast, k, s, ip, p);
        OwnedMore(cfg, fwm, checks', c, check, DestRef(k, ip));
        KeysForPair(cfg, k, s, ip, keys, todo, p);
        checks' := checks'[c := check];
        keys := keys + [c];
        todo := todo - {p};
      }
    }

    /** Gives one destination its checks. */
    method ExpandDestChecks(r: DestRef, was: map<CheckKey, Check>, ghost todo: set<DestRef>, ghost current: set<IP>)
      returns (checks': map<CheckKey, Check>)
      requires Steady(current) && ConfigOK(config.value, anycast) && Reflects(config.value, fwm, anycast, services)
      requires r in todo && todo <= AllRefs(services) && LinkedBut(services, was, todo) &&
               Checked(config.value, services, todo)
      requires Owned(config.value, fwm, was) && AllUnknown(was)
      modifies `services
      ensures Steady(current) && Reflects(config.value, fwm, anycast, services) &&
              AllRefs(services) == AllRefs(old(services))
      ensures LinkedBut(services, checks', todo - {r}) && Checked(config.value, services, todo - {r})
      ensures Owned(config.value, fwm, checks') && AllUnknown(checks')
      ensures VipsExact(old(services), active, anycast) ==> VipsExact(services, active, anycast)
      ensures AllDown(old(services)) ==> AllDown(services)
      ensures SameButChecks(old(services), services)
    {
      hide TableFits, ServicesOK, RoutesSafe, Logged, InterfaceFits, SnapsFit, Settled, VipsOn, AllPopulated,
           ConfigOK, Reflects, Checked, ChecksMade, LinkedBut, Owned, AllUnknown, Entered, WantedCheck, VipsExact,
           AllDown, SameButChecks;
      var cfg, k, ip, keys := config.value, r.svc, r.ip, [];
      RefOpen(cfg, fwm, anycast, services, was, todo, r);
      checks', keys := DestChecks(k, ip, was);
      var d := services[k].dests[ip].(checks := keys);
      SwapDest(kernel, services, served, k, ip, d);
      SwapSettled(services, active, anycast, current, k, ip, d);
      LinkedStep(services, was, checks', todo, k, ip, keys);
      CheckedStep(cfg, services, todo, k, ip, keys);
      RecheckReflects(cfg, fwm, anycast, services, k, ip, keys);
      RecheckRefs(services, k, ip, keys);
      RecheckFlags(services, k, ip, keys, active, anycast);
      RecheckSame(services, k, ip, keys);
      services := SetDest(services, k, ip, d);
    }

    /** Rebuilds the checks of all destinations; none has reported yet. */
    method ExpandChecks(ghost current: set<IP>) returns (checks': map<CheckKey, Check>)
      requires Steady(current) && ConfigOK(config.value, anycast) && MarksOK(config.value, fwm)
      requires Reflects(config.value, fwm, anycast, services)
      modifies `services
      ensures Steady(current) && Reflects(config.value, fwm, anycast, services)
      ensures ChecksLinked(services, checks') && AllUnknown(checks') && Checked(config.value, services, {})
      ensures ChecksMade(config.value, checks')
      ensures RecordsAsConfigured(config.value, fwm, services)
      ensures VipsExact(old(services), active, anycast) ==> VipsExact(services, active, anycast)
      ensures AllDown(old(services)) ==> AllDown(services)
      ensures SameButChecks(old(services), services)
    {
      hide TableFits, ServicesOK, RoutesSafe, Logged, InterfaceFits, SnapsFit, Settled, VipsOn, AllPopulated,
           ConfigOK, Reflects, Checked, ChecksMade, LinkedBut, Owned, AllUnknown, Entered, WantedCheck, VipsExact,
           AllDown, SameButChecks, RecordsAsConfigured, MarksOK;
      var cfg := config.value;
      checks' := map[];
      var todo := AllRefs(services);
      ChecksStart(cfg, fwm, services);
      assert SameButChecks(services, services) by { SameRefl(services); }
      while todo != {}
        invariant todo <= AllRefs(services) && Steady(current) && Reflects(cfg, fwm, anycast, services)
        invariant LinkedBut(services, checks', todo) && Checked(cfg, services, todo)
        invariant Owned(cfg, fwm, checks') && AllUnknown(checks')
        invariant VipsExact(old(services), active, anycast) ==> VipsExact(services, active, anycast)
        invariant AllDown(old(services)) ==> AllDown(services)
        invariant SameButChecks(old(services), services)
      {
        var r :| r in todo;
        ghost var before := services;
        checks' := ExpandDestChecks(r, checks', todo, current);
        SameThrough(old(services), before, services);
        todo := todo - {r};
      }
      LinkedWhole(services, checks');
      OwnedMade(cfg, fwm, checks');
      RecordsAre(cfg, fwm, anycast, services);
    }

    // ---- Firewall marks ----

    method AssignMark(af: AF)
      requires MarksInOrder() && af !in fwm && |fwmAlloc.marks| > 0
      modifies `fwm, fwmAlloc
      ensures MarksInOrder() && fwm.Keys == old(fwm).Keys + {af} && fwm == old(fwm)[af := fwm[af]]
      ensures fwmAlloc.held == old(fwmAlloc.held) + {fwm[af]} && fwm[af] !in old(fwmAlloc.held)
      ensures |fwm| == |old(fwm)| + 1 && |fwmAlloc.marks| == |old(fwmAlloc.marks)| - 1
    {
      hide Partition;
      FreeCount(fwmAlloc.base, fwmAlloc.size, fwmAlloc.marks, fwmAlloc.held);
      var mark := fwmAlloc.Get();
      PositiveMark(fwmAlloc.base, fwmAlloc.size, mark.value);
      HeldMore(fwm, old(fwmAlloc.held), af, mark.value);
      fwm := fwm[af := mark.value];
    }

    method EnsureMark(af: AF)
      requires config.Some? && MarksInOrder() && (NeedsMark(config.value, fwm, af) ==> |fwmAlloc.marks| > 0)
      modifies `fwm, fwmAlloc
      ensures MarksInOrder() && !NeedsMark(config.value, fwm, af)
      ensures |fwm| + |fwmAlloc.marks| == |old(fwm)| + |old(fwmAlloc.marks)|
      ensures |fwm| == |old(fwm)| + if NeedsMark(config.value, old(fwm), af) then 1 else 0
      ensures forall b | b != af :: b in fwm <==> b in old(fwm)
      ensures af in fwm && af !in old(fwm) ==> config.value.useFWM
      ensures forall b | b in old(fwm) :: b in fwm && fwm[b] == old(fwm)[b]
      ensures old(fwmAlloc.held) <= fwmAlloc.held
    {
      hide MarksHeld, Partition;
      if NeedsMark(config.value, fwm, af) {
        AssignMark(af);
      }
    }

    /** Draws the marks a firewall-mark vserver needs and does not have, and keeps the others. */
    method AssignMarks()
      requires config.Some? && MarksInOrder() && MarksNeeded(config.value, fwm) <= |fwmAlloc.marks|
      modifies `fwm, fwmAlloc
      ensures MarksInOrder() && MarksOK(config.value, fwm)
      ensures forall af | af in old(fwm) :: af in fwm && fwm[af] == old(fwm)[af]
      ensures forall af | af in fwm && af !in old(fwm) :: config.value.useFWM
      ensures |fwm| + |fwmAlloc.marks| == |old(fwm)| + |old(fwmAlloc.marks)|
      ensures old(fwmAlloc.held) <= fwmAlloc.held
    {
      hide MarksHeld, Partition, MarksOK;
      EnsureMark(IPv4);
      EnsureMark(IPv6);
      MarksDrawn(config.value, fwm);
    }

    // ---- Configuration ----

    method NoteConfig(cfg: Config)
      requires Sound({})
      modifies `config, `families
      ensures Sound({}) && config == Some(cfg) && families == old(families) + Families(cfg)
    {
      hide Agrees, TraceOK;
      config := Some(cfg);
      families := families + Families(cfg);
    }

    /** All services of the configuration with their destinations, nothing up yet. */
    method ExpandAll() returns (svcs: Services)
      requires config.Some? && ConfigOK(config.value, anycast) && MarksOK(config.value, fwm)
      ensures Reflects(config.value, fwm, anycast, svcs) && AllDown(svcs)
    {
      hide ServiceReflects, DestsReflect, Wanted, ConfigOK, MarksOK;
      var new_ := ExpandServices();
      svcs := new_;
      var todo := svcs.Keys;
      while todo != {}
        invariant todo <= new_.Keys && svcs.Keys == new_.Keys
        invariant AllDown(svcs)
        invariant forall k | k in svcs :: ServiceReflects(config.value, fwm, anycast, k, svcs[k])
        invariant forall k | k in svcs && k !in todo :: DestsReflect(config.value, k, svcs[k].entry, svcs[k].dests)
      {
        var k :| k in todo;
        todo := todo - {k};
        var dests := ExpandDests(k, svcs[k].entry);
        SameSettings(config.value, fwm, anycast, k, svcs[k], svcs[k].(dests := dests));
        svcs := svcs[k := svcs[k].(dests := dests)];
      }
    }

    /** Starts the vserver over from a configuration. Nothing may be up, or its entries would be lost track of. */
    method ConfigInit(cfg: Config)
      requires Sound({}) && OnInterface() && Settled(services, active) && active == {} && vips == {}
      requires MarksInOrder() && ConfigOK(cfg, anycast)
      requires MarksNeeded(cfg, fwm) <= |fwmAlloc.marks|
      modifies `config, `families, `enabled, `fwm, `services, `mapless, `forced, `checks, `lbVservers, `vips, `kernel,
               `trace, `views, fwmAlloc
      ensures Valid() && Configured() && MarksInOrder() && MapsInOrder() && active == {}
      ensures config == Some(cfg) && enabled == VserverEnabled(config, vserverOverride) &&
              vips == if enabled then FixedVIPs(cfg) else {}
      ensures kernel.ipvs == map[] && AllDown(services) && AllUnknown(checks)
      ensures Exact(services, checks) && AllPopulated(services) && mapless == {} && !forced
      ensures families == old(families) + Families(cfg)
      ensures |fwm| + |fwmAlloc.marks| == |old(fwm)| + |old(fwmAlloc.marks)|
    {
      hide Agrees, Logged, InterfaceFits, SnapsFit, Settled, VipsExact, VipsOn, ChecksLinked, AllPopulated, ConfigOK,
           MarksOK, Reflects, AllDown, Checked, ChecksMade, AllUnknown, Exact, TypesStable, MarksHeld, MarksNeeded,
           FixedVIPs, MapsTell, Sound, OnInterface, AddressesOK, Configured, MarksInOrder, Valid, Families;
      Adopt(cfg);
      Rebuild();
      DownPopulated(services);
      NoMaps(services);
      assert BareFamilies() == {};
    }

    /** Notes a configuration to start over from, and draws the marks it needs. */
    method Adopt(cfg: Config)
      requires Sound({}) && OnInterface() && active == {} && vips == {}
      requires MarksInOrder() && MarksNeeded(cfg, fwm) <= |fwmAlloc.marks|
      modifies `config, `families, `enabled, `fwm, `mapless, `forced, fwmAlloc
      ensures Sound({}) && OnInterface() && MarksInOrder() && MarksOK(cfg, fwm) && mapless == {} && !forced
      ensures config == Some(cfg) && enabled == VserverEnabled(config, vserverOverride)
      ensures families == old(families) + Families(cfg)
      ensures |fwm| + |fwmAlloc.marks| == |old(fwm)| + |old(fwmAlloc.marks)|
    {
      hide Sound, MarksInOrder, MarksOK, MarksNeeded, Families, InterfaceFits, SnapsFit;
      BareInterface(kernel, lbVservers, anycast, anycastEnabled);
      NoteConfig(cfg);
      enabled := VserverEnabled(config, vserverOverride);
      AssignMarks();
      mapless, forced := {}, false;
      NoSnaps(config, fwm);
    }

    /** Replaces the records by new ones for the configuration. */
    method Rebuild()
      requires Sound({}) && OnInterface() && Settled(services, active) && active == {} && vips == {} && config.Some?
      requires ConfigOK(config.value, anycast) && MarksOK(config.value, fwm)
      modifies `services, `checks, `lbVservers, `vips, `kernel, `trace, `views
      ensures Valid() && Configured() && kernel.ipvs == map[]
      ensures vips == if enabled then FixedVIPs(config.value) else {}
      ensures AllDown(services) && AllUnknown(checks) && Exact(services, checks)
    {
      hide Agrees, Logged, InterfaceFits, SnapsFit, Settled, VipsExact, VipsOn, ChecksLinked, AllPopulated, ConfigOK,
           MarksOK, Reflects, AllDown, Checked, ChecksMade, AllUnknown, Exact, TypesStable, FixedVIPs;
      var svcs := ExpandAll();
      StartOver(svcs);
      checks := ExpandChecks(Addresses(config.value));
      DownInOrder(config.value, fwm, anycast, services, checks);
      if enabled {
        NoTypes(config.value);
        ConfigureVIPs();
      }
    }

    method StartOver(svcs: Services)
      requires Sound({}) && OnInterface() && Settled(services, active) && active == {} && config.Some?
      requires ConfigOK(config.value, anycast) && MarksOK(config.value, fwm)
      requires Reflects(config.value, fwm, anycast, svcs) && AllDown(svcs)
      modifies `services
      ensures Steady(Addresses(config.value)) && services == svcs && kernel.ipvs == map[]
    {
      hide Logged, ConfigOK, MarksOK, Reflects, AllDown, Settled, VipsOn, Agrees, AllPopulated;
      IdleTable(kernel, services, served);
      FreshStart(config.value, fwm, anycast, kernel, svcs, served, Addresses(config.value));
      services := svcs;
    }

    /** Brings the records in line with a changed configuration, keeping what still runs. */
    method ConfigUpdate() returns (ghost merged: set<ServiceKey>)
      requires Sound({}) && OnInterface() && Settled(services, active) && VipsExact(services, active, anycast)
      requires served ==> AllPopulated(services)
      requires config.Some? && ConfigOK(config.value, anycast) && MarksOK(config.value, fwm)
      requires enabled && UnwantedElsewhere(config.value, fwm, services)
      requires config.value.entries != map[] ==> TypesStable(vips, config.value)
      requires MapsAllow(config.value, fwm, services, mapless) && mapless <= services.Keys &&
               (!config.value.useFWM ==> mapless == {})
      modifies `services, `mapless, `checks, `active, `lbVservers, `vips, `kernel, `trace, `views, `served
      ensures Valid() && Configured() && vips == FixedVIPs(config.value)
      ensures Reflects(config.value, fwm, anycast, services)
      ensures KeepsDests(old(services), services) ==> served == old(served)
      ensures served == (old(served) && AllPopulated(services))
      ensures StatesCarried(old(checks), checks)
      ensures Carried(old(services), services)
      ensures MapsMerged(old(services), services, config.value.useFWM, old(mapless), merged, {})
      ensures mapless == merged * services.Keys && forall k | k in mapless :: services[k].dests == map[]
    {
      hide Agrees, Logged, InterfaceFits, SnapsFit, Settled, VipsExact, VipsOn, ChecksLinked, AllPopulated, ConfigOK,
           MarksOK, Reflects, Checked, ChecksMade, TypesStable, FixedVIPs, UnwantedElsewhere, KeepsDests, Addresses,
           Carried, SameButChecks, MapsAllow, MapsMerged, StatesCarried;
      merged := ReplaceServices();
      ghost var done := services;
      FinishUpdate();
      PopulatedSame(done, services);
      SameKeys(done, services);
      KeepsSame(old(services), done, services);
      SameAddresses(done, services);
      MapsAlike(old(services), done, services, config.value.useFWM, old(mapless), merged);
      CarriedSame(old(services), done, services);
    }

    /** Makes services and destinations those of the configuration. */
    method ReplaceServices() returns (ghost merged: set<ServiceKey>)
      requires Sound({}) && OnInterface() && Settled(services, active) && VipsExact(services, active, anycast)
      requires served ==> AllPopulated(services)
      requires config.Some? && ConfigOK(config.value, anycast) && MarksOK(config.value, fwm)
      requires UnwantedElsewhere(config.value, fwm, services)
      requires MapsAllow(config.value, fwm, services, mapless) && mapless <= services.Keys &&
               (!config.value.useFWM ==> mapless == {})
      modifies `services, `mapless, `active, `lbVservers, `kernel, `trace, `views, `served
      ensures Steady(Addresses(config.value)) && VipsExact(services, active, anycast) &&
              Reflects(config.value, fwm, anycast, services)
      ensures KeepsDests(old(services), services) ==> served == old(served)
      ensures served == (old(served) && AllPopulated(services))
      ensures Carried(old(services), services)
      ensures MapsMerged(old(services), services, config.value.useFWM, old(mapless), merged, {})
      ensures mapless == merged * services.Keys && forall k | k in mapless :: services[k].dests == map[]
    {
      hide Agrees, Logged, InterfaceFits, SnapsFit, Settled, VipsExact, VipsOn, ChecksLinked, AllPopulated, ConfigOK,
           MarksOK, Reflects, Wanted, UnwantedElsewhere, KeepsDests, ServicesReconciled, ServicesMerged, DestsWithin,
           Addresses, Expansion, MovedOff, Reviewed, Carried, Lapsed, MapsAllow, MapsMerged, NoBackends;
      ghost var svcs, maps, current := services, mapless, Addresses(config.value);
      VipsOnFrom(services, active, anycast, current);
      var new_ := ExpandServices();
      MergeServices(new_, current);
      merged := mapless;
      MapsSpare(config.value, fwm, anycast, svcs, new_, maps, merged);
      ghost var mid := services;
      MergedReconciled(config.value, fwm, anycast, svcs, services, new_);
      ReconcileServices(new_, current);
      ReconciledReflects(config.value, fwm, anycast, services, new_);
      VipsOnExact(config.value, fwm, anycast, services, active);
      if KeepsDests(svcs, services) {
        KeepsThrough(svcs, mid, services);
      }
      AddressesAlike(config.value, fwm, anycast, services, new_);
      ReconciledAddresses(config.value, fwm, anycast, mid, services, new_, mid.Keys);
      CarriedThrough(svcs, mid, services, new_);
      LapseEnds(old(served), served, services, mid.Keys);
      MapsDone(config.value, fwm, anycast, svcs, mid, services, new_, maps, merged, mapless);
    }

    /** The addresses on the interface and the checks, once the services are right. */
    method FinishUpdate()
      requires config.Some? && Steady(Addresses(config.value)) && VipsExact(services, active, anycast)
      requires ConfigOK(config.value, anycast) && MarksOK(config.value, fwm) &&
               Reflects(config.value, fwm, anycast, services)
      requires enabled && (config.value.entries != map[] ==> TypesStable(vips, config.value))
      modifies `services, `checks, `lbVservers, `vips, `kernel, `trace, `views
      ensures Valid() && Configured() && vips == FixedVIPs(config.value)
      ensures SameButChecks(old(services), services)
      ensures StatesCarried(old(checks), checks)
    {
      hide Agrees, Logged, InterfaceFits, SnapsFit, Settled, VipsExact, VipsOn, ChecksLinked, AllPopulated, ConfigOK,
           MarksOK, Reflects, Checked, ChecksMade, AllUnknown, TypesStable, FixedVIPs, Addresses, ServiceIPs,
           SameButChecks;
      InterfaceVIPs(kernel, active, vips, lbVservers, anycast, anycastEnabled);
      DropOldVIPs();
      FixedAfter(config.value, fwm, anycast, services, old(vips), vips);
      var new_ := ExpandChecks(Addresses(config.value));
      checks := CarryStates(new_);
      CarriedLinked(services, new_, checks);
      MadeAlike(config.value, new_, checks);
      VipsOnExact(config.value, fwm, anycast, services, active);
      ConfigureVIPs();
    }

    /** The new checks with the states the old ones last reported. */
    method CarryStates(new_: map<CheckKey, Check>) returns (carried: map<CheckKey, Check>)
      requires AllUnknown(new_)
      ensures carried.Keys == new_.Keys
      ensures forall c | c in new_ :: carried[c] == new_[c].(state := if c in checks then checks[c].state else Unknown)
    {
      carried := new_;
      var todo := checks.Keys;
      while todo != {}
        invariant todo <= checks.Keys && carried.Keys == new_.Keys
        invariant forall c | c in new_ ::
                    carried[c] == new_[c].(state := if c in checks && c !in todo then checks[c].state else Unknown)
      {
        var c :| c in todo;
        if c in carried {
          carried := carried[c := carried[c].(state := checks[c].state)];
        }
        todo := todo - {c};
      }
    }

    /** Takes down every address and every service. */
    method DownAll()
      requires Sound({}) && OnInterface() && Settled(services, active) && active <= ServiceIPs(services)
      modifies `services, `active, `lbVservers, `kernel, `trace, `views
      ensures Sound({}) && OnInterface() && Settled(services, active)
      ensures active == {} && kernel.ipvs == map[]
    {
      hide Agrees, Logged, InterfaceFits, SnapsFit, Settled;
      var todo := services.Keys;
      while todo != {}
        invariant todo <= services.Keys && Sound({}) && OnInterface() && Settled(services, active)
        invariant active <= set k | k in todo :: services[k].vip.ip
      {
        var k :| k in todo;
        DownOne(k);
        assert !services[k].active;  // so the service needs no taking down of its own
        todo := todo - {k};
      }
      assert active == {};
      IdleTable(kernel, services, served);
    }

    /** Takes down the address of a service if it is up. */
    method DownOne(k: ServiceKey)
      requires Sound({}) && OnInterface() && Settled(services, active) && k in services
      modifies `services, `active, `lbVservers, `kernel, `trace, `views
      ensures Sound({}) && OnInterface() && Settled(services, active)
      ensures services.Keys == old(services).Keys && forall j | j in services :: services[j].vip == old(services)[j].vip
      ensures active == old(active) - {services[k].vip.ip} && !services[k].active
    {
      hide Agrees, AgreesBut, Logged, InterfaceFits, SnapsFit, Settled, Settle, SettleIP, SettleAll, Loose, RouteSafe;
      ghost var svcs := services;
      var ip := services[k].vip.ip;
      if ip in active {
        AllLoose(services, active);
        AgreesFor(kernel, services, served, ip);
        VipDown(ip);
        SettleLess(svcs, old(active), active, k, ip);
      }
      SettledService(services, active, k);
    }

    /** Whether a configuration calls for a fresh start: a port, protocol or mode has changed, or the use of marks
        has. */
    method NeedsReinit(cfg: Config) returns (reinit: bool)
      requires config.Some?
      ensures reinit <==>
                || cfg.useFWM != config.value.useFWM
                || (exists e ::
                      e in cfg.entries && (e in config.value.entries ==>
                        cfg.entries[e].mode != config.value.entries[e].mode))
                || (exists e :: e in config.value.entries && e !in cfg.entries)
      ensures reinit <==> !SameLayout(config.value, cfg)
    {
      LayoutIff(config.value, cfg);
      var old_ := config.value;
      if cfg.useFWM != old_.useFWM {
        return true;
      }
      if |cfg.entries| != |old_.entries| {
        return true;
      }
      var todo := cfg.entries.Keys;
      while todo != {}
        invariant todo <= cfg.entries.Keys
        invariant forall e | e in cfg.entries && e !in todo ::
                  e in old_.entries && old_.entries[e].mode == cfg.entries[e].mode
      {
        var e :| e in todo;
        if e !in old_.entries {
          return true;
        }
        if old_.entries[e].mode != cfg.entries[e].mode {
          return true;
        }
        todo := todo - {e};
      }
      LayoutKeys(old_, cfg);
      return false;
    }

    /** Takes everything down, off the interface too. */
    method Shutdown()
      requires Ready()
      modifies `services, `active, `lbVservers, `vips, `kernel, `trace, `views
      ensures Sound({}) && OnInterface() && Settled(services, active)
      ensures active == {} && vips == {} && kernel == EMPTY
    {
      hide Agrees, Logged, Settled, InterfaceFits, SnapsFit, VipsExact, ChecksLinked, AllPopulated, Configured,
           MarksInOrder, FixedVIPs;
      ActiveServed(services, active, anycast);
      DownAll();
      UnconfigureVIPs();
      EmptyInterface(kernel, lbVservers, anycast, anycastEnabled);
    }

    /** An update in place carries health and check states over; anything else starts over. A disabled vserver can start
        over only with nothing up (see FreshAgreesIff). */
    method HandleConfigUpdate(cfg: Option<Config>)
      requires Ready() && |fwm| + |fwmAlloc.marks| >= 2
      requires cfg.Some? ==> ConfigOK(cfg.value, anycast) && (!enabled ==> active == {})
      requires cfg.Some? && enabled && VserverEnabled(cfg, vserverOverride) && SameLayout(config.value, cfg.value) ==>
                 UpdateOK(config.value, cfg.value, BareFamilies())
      modifies this, fwmAlloc
      ensures Ready() && |fwm| + |fwmAlloc.marks| >= 2
      ensures vserverOverride == old(vserverOverride) && begun == old(begun)
      ensures cfg.None? ==> unchanged(this)
      ensures cfg.Some? ==> config == cfg && enabled == VserverEnabled(cfg, vserverOverride)
      ensures cfg.Some? ==> families == old(families) + Families(cfg.value)
      ensures cfg.Some? && old(config).Some? && (
                || cfg.value.useFWM != old(config).value.useFWM
                || (exists e ::
                      e in cfg.value.entries && (e in old(config).value.entries ==>
                        cfg.value.entries[e].mode != old(config).value.entries[e].mode))
                || (exists e :: e in old(config).value.entries && e !in cfg.value.entries)) ==>
                AllDown(services) && AllUnknown(checks)
      ensures cfg.Some? ==>
                if old(enabled) && enabled && SameLayout(old(config).value, cfg.value) then
                  && Carried(old(services), services)
                  && StatesCarried(old(checks), checks)
                  && BareFamilies() == BareAfter(old(config).value, cfg.value, old(BareFamilies())) &&
                     forced == old(forced)
                  && served == (old(served) && AllPopulated(services))
                  && (KeepsBackends(old(config).value, cfg.value) ==> served == old(served))
                  && ServesOn(old(config).value, cfg.value, old(services), old(active), old(kernel), active, kernel)
                else
                  && AllDown(services) && AllUnknown(checks) && Exact(services, checks) && AllPopulated(services)
                  && mapless == {} && !forced && served == old(served)
    {
      hide Agrees, Logged, Settled, InterfaceFits, SnapsFit, VipsExact, ChecksLinked, AllPopulated, ConfigOK, MarksOK,
           SameLayout, UpdateOK, Reflects, Checked, ChecksMade, FixedVIPs, MarksHeld, MarksNeeded, Carried, AllDown,
           AllUnknown, Exact, MapsInOrder, BareAfter, KeepsBackends, KeepsDests, StatesCarried, Sound, OnInterface,
           AddressesOK, Configured, MarksInOrder, Families, ServesOn;
      if cfg.None? {
        return;
      }
      if config.Some? {
        LayoutIff(config.value, cfg.value);
      }
      MarksBound(cfg.value, fwm);
      var willRun := VserverEnabled(cfg, vserverOverride);
      if config.None? || !enabled {
        ConfigInit(cfg.value);
        return;
      }
      if !willRun {
        Reinit(cfg.value);
        return;
      }
      var reinit := NeedsReinit(cfg.value);
      if reinit {
        Reinit(cfg.value);
        return;
      }
      UpdateTo(cfg.value);
    }

    method Reinit(cfg: Config)
      requires Ready() && ConfigOK(cfg, anycast) && MarksNeeded(cfg, fwm) <= |fwmAlloc.marks|
      modifies `config, `families, `enabled, `fwm, `services, `mapless, `forced, `checks, `active, `lbVservers, `vips,
               `kernel, `trace, `views, fwmAlloc
      ensures Valid() && Configured() && MarksInOrder() && MapsInOrder() && active == {}
      ensures config == Some(cfg) && enabled == VserverEnabled(config, vserverOverride) &&
              vips == if enabled then FixedVIPs(cfg) else {}
      ensures AllDown(services) && AllUnknown(checks) && Exact(services, checks) && AllPopulated(services)
      ensures mapless == {} && !forced && families == old(families) + Families(cfg)
      ensures |fwm| + |fwmAlloc.marks| == |old(fwm)| + |old(fwmAlloc.marks)|
    {
      hide Sound, OnInterface, Settled, Valid, Configured, MarksInOrder, MapsInOrder, ConfigOK, MarksNeeded, FixedVIPs,
           AllDown, AllUnknown, Exact, AllPopulated, Families;
      Shutdown();
      ConfigInit(cfg);
    }

    lemma HasConfig()
      requires Ready() && enabled
      ensures config.Some?
    {
      hide Valid, Configured, MarksInOrder, MapsInOrder;
    }

    method UpdateTo(cfg: Config)
      requires Ready() && enabled && ConfigOK(cfg, anycast) && SameLayout(config.value, cfg)
      requires UpdateOK(config.value, cfg, BareFamilies()) && MarksNeeded(cfg, fwm) <= |fwmAlloc.marks|
      modifies `config, `families, `fwm, `services, `mapless, `checks, `active, `lbVservers, `vips, `kernel, `trace,
               `views, `served, fwmAlloc
      ensures Valid() && Configured() && MarksInOrder() && MapsInOrder() && vips == FixedVIPs(cfg)
      ensures config == Some(cfg) && BareFamilies() == BareAfter(old(config).value, cfg, old(BareFamilies()))
      ensures families == old(families) + Families(cfg)
      ensures |fwm| + |fwmAlloc.marks| == |old(fwm)| + |old(fwmAlloc.marks)|
      ensures KeepsDests(old(services), services) ==> served == old(served)
      ensures served == (old(served) && AllPopulated(services))
      ensures KeepsBackends(old(config).value, cfg) ==> KeepsDests(old(services), services)
      ensures Carried(old(services), services)
      ensures StatesCarried(old(checks), checks)
      ensures ServesOn(old(config).value, cfg, old(services), old(active), old(kernel), active, kernel)
    {
      hide Agrees, Logged, Settled, InterfaceFits, SnapsFit, VipsExact, ChecksLinked, AllPopulated, ConfigOK, MarksOK,
           SameLayout, UpdateOK, Reflects, Checked, ChecksMade, UnwantedElsewhere, TypesStable, FixedVIPs, KeepsDests,
           Carried, MapsTell, MapsAllow, MapsMerged, BareAfter, KeepsBackends, MarksNeeded, MarksInOrder, Sound,
           OnInterface, StatesCarried, Valid, AddressesOK, Configured, Families, MapsInOrder, ServesOn, ServicesOK,
           TableOf;
      HasConfig();
      Settling();
      hide Ready;
      ghost var was, svcs, bare, maps := config.value, services, BareFamilies(), mapless;
      TakeOver(cfg);
      ghost var merged := ConfigUpdate();
      MapsAfterUpdate(was, svcs, maps, merged, bare);
      Settling();
      UpdateServesOn(was, cfg, fwm, anycast, svcs, services, old(active), old(kernel), active, kernel);
    }

    /** The records are settled, and the table is theirs. */
    lemma Settling()
      requires Valid()
      ensures ServicesOK(services) && kernel.ipvs == TableOf(services)
      ensures Settled(services, active) && VipsExact(services, active, anycast)
    {
      hide Agrees, Logged, OnInterface, Settled, VipsExact, ChecksLinked, AddressesOK, AllPopulated, ServicesOK,
           TableOf;
      AgreesTable(kernel, services, served, active);
    }

    lemma MapsAfterUpdate(was: Config, svcs: Services, maps: set<ServiceKey>, merged: set<ServiceKey>, bare: set<AF>)
      requires config.Some? && SameLayout(was, config.value) && ConfigOK(config.value, anycast)
      requires Reflects(was, fwm, anycast, svcs) && Reflects(config.value, fwm, anycast, services)
      requires mapless == merged * services.Keys && forall k | k in mapless :: services[k].dests == map[]
      requires MapsTell(svcs, maps, bare) && MapsMerged(svcs, services, config.value.useFWM, maps, merged, {})
      requires !config.value.useFWM ==> maps == {}
      ensures MapsInOrder() && BareFamilies() == BareAfter(was, config.value, bare)
      ensures KeepsBackends(was, config.value) ==> KeepsDests(svcs, services)
    {
      hide SameLayout, ConfigOK, Reflects, MapsTell, MapsMerged, KeepsBackends, KeepsDests, BareAfter;
      UpdateEnds(was, config.value, fwm, anycast, svcs, services, maps, merged, mapless, bare);
      assert BareFamilies() == BareAfter(was, config.value, bare);
    }

    /** Only addresses of the configuration are on the interface. */
    lemma KnownOnInterface()
      requires Ready() && config.Some?
      ensures ConfigOK(config.value, anycast) && MarksOK(config.value, fwm)
      ensures InterfaceFits(kernel, active, vips, lbVservers, anycast, anycastEnabled)
      ensures SnapsFit(lbVservers, config, fwm) && kernel.vservers == lbVservers
      ensures forall ip | ip in lbVservers ::
                config.value.Addr(ip.af) == Some(ip) && lbVservers[ip].Addr(ip.af) == Some(ip)
      ensures enabled ==> forall vip | vip in config.value.vips && !vip.kind.AnycastVIP? :: vip.ip in lbVservers
    {
      hide Sound, Settled, ChecksLinked, AllPopulated, Reflects, Checked, ChecksMade, ConfigOK, MarksOK,
           InterfaceFits, SnapsFit, MarksInOrder, MapsInOrder, VipsExact;
      InterfaceAddresses(kernel, active, vips, lbVservers, anycast, anycastEnabled, config.value, services);
    }

    lemma CarryInterface(was: Config, marks: map<AF, nat>)
      requires InterfaceFits(kernel, active, vips, lbVservers, anycast, anycastEnabled)
      requires SnapsFit(lbVservers, Some(was), marks) && config.Some?
      requires ConfigOK(was, anycast) && ConfigOK(config.value, anycast) && SameLayout(was, config.value)
      requires MarksOK(was, marks) && forall ip | ip in lbVservers :: was.Addr(ip.af) == Some(ip)
      requires forall af | af in marks :: af in fwm && fwm[af] == marks[af]
      requires forall af | af in fwm && af !in marks :: config.value.useFWM
      ensures OnInterface()
    {
      hide InterfaceFits, SnapsFit, ConfigOK, MarksOK, SameLayout;
      SnapsCarry(lbVservers, was, config.value, anycast, marks, fwm);
    }

    /** Notes a configuration that follows in place, and draws the marks it needs. */
    method TakeOver(cfg: Config)
      requires Ready() && enabled && ConfigOK(cfg, anycast) && SameLayout(config.value, cfg)
      requires UpdateOK(config.value, cfg, BareFamilies()) && MarksNeeded(cfg, fwm) <= |fwmAlloc.marks|
      modifies `config, `families, `fwm, fwmAlloc
      ensures Sound({}) && OnInterface() && Settled(services, active) && VipsExact(services, active, anycast)
      ensures served ==> AllPopulated(services)
      ensures config == Some(cfg) && families == old(families) + Families(cfg) && MarksInOrder() && MarksOK(cfg, fwm)
      ensures |fwm| + |fwmAlloc.marks| == |old(fwm)| + |old(fwmAlloc.marks)|
      ensures Reflects(old(config).value, fwm, anycast, services) && UnwantedElsewhere(cfg, fwm, services)
      ensures MapsAllow(cfg, fwm, services, mapless) && mapless <= services.Keys &&
              old(config).value.useFWM == cfg.useFWM
      ensures cfg.entries != map[] ==> TypesStable(vips, cfg)
      ensures MapsTell(services, mapless, BareFamilies()) && (!cfg.useFWM ==> mapless == {})
    {
      hide Sound, OnInterface, Settled, VipsExact, ChecksLinked, AllPopulated, ConfigOK, MarksOK, SameLayout,
           UpdateOK, Reflects, Checked, ChecksMade, UnwantedElsewhere, TypesStable, FixedVIPs, MarksHeld, MapsTell,
           MapsAllow, MarksNeeded, MarksInOrder, InterfaceFits, SnapsFit;
      KnownOnInterface();
      NoteConfig(cfg);
      AssignMarks();
      CarryInterface(old(config).value, old(fwm));
      UpdateBegins(old(config).value, cfg, old(fwm), fwm, anycast, services, mapless, BareFamilies());
    }

    /** A check has reported. */
    method OnCheck(c: CheckKey, state: CheckState)
      requires Ready()
      modifies `services, `checks, `active, `lbVservers, `kernel, `trace, `views
      ensures Ready()
      ensures checks == if enabled && c in old(checks) then old(checks)[c := old(checks)[c].(state := state)]
                        else old(checks)
      ensures old(Exact(services, checks)) ==>
              services == Recompute(old(services), checks, anycast) && Exact(services, checks)
      ensures if enabled && c in old(checks) && old(checks)[c].state != state
              then FlagsAfter(old(services), services, checks, checks[c].dests)
              else services == old(services) && active == old(active)
    {
      hide Agrees, Logged, Settled, InterfaceFits, SnapsFit, VipsExact, ChecksLinked, AllPopulated, ConfigOK, MarksOK,
           SameShapes, Reflects, Checked, ChecksMade, FixedVIPs, MarksHeld, Exact, Recompute, FlagsAfter, MapsTell;
      ghost var svcs := services;
      HandleCheckNotification(c, state);
      ShapesMaps(svcs, services, mapless, BareFamilies());
      if config.Some? {
        ShapesConfigured(config.value, fwm, anycast, svcs, services);
        MadeAlike(config.value, old(checks), checks);
      }
    }

    // ---- Overrides ----

    /** Forces the health of a destination and re-evaluates its service. */
    method ForceDest(k: ServiceKey, ip: IP, healthy: bool)
      requires Valid() && k in services && ip in services[k].dests
      requires healthy ==> !services[k].dests[ip].active
      modifies `services, `active, `lbVservers, `kernel, `trace, `views
      ensures Valid() && SameShapes(old(services), services)
      ensures DestJudged(old(services), old(active), services, active, anycast, k, ip, healthy)
    {
      hide Agrees, Logged, InterfaceFits, SnapsFit, VipHealth, AllPopulated, DestJudged, Shape, Settled, SameShapes,
           ServiceJudged, SettledBut, Disturbed, PopulatedBut, ChecksLinked, VipsExact;
      ghost var svcs, on := services, active;
      var d := services[k].dests[ip];
      AddressOf(k);
      SwapDest(kernel, services, served, k, ip, d.(healthy := healthy));
      DisturbedByDest(services, active, k, ip, healthy);
      MarkedDest(services, k, ip, healthy, anycast);
      services := SetDest(services, k, ip, d.(healthy := healthy));
      ServiceUpdateState(k, ip);
      DestJudgedByService(svcs, on, services, active, anycast, k, ip, healthy);
      JudgedStands(svcs, on, services, active, anycast, k, ip, healthy, checks);
    }

    /** Applies a backend or destination override to one destination. */
    method OverrideDest(k: ServiceKey, ip: IP, state: OverrideState)
      requires Valid() && k in services && ip in services[k].dests
      modifies `services, `active, `lbVservers, `kernel, `trace, `views
      ensures Valid() && SameShapes(old(services), services)
      ensures OneOverridden(old(services), old(active), services, active, anycast, DestRef(k, ip), state)
    {
      hide Agrees, Logged, InterfaceFits, SnapsFit, AllPopulated, DestJudged, Shape, Settled, ChecksLinked, VipsExact;
      var d := services[k].dests[ip];
      match state
      case OverrideDisable =>
        if d.active {
          ForceDest(k, ip, false);
        }
      case OverrideEnable =>
        if !d.active && !d.healthy {
          ForceDest(k, ip, true);
        }
      case OverrideDefault =>
    }

    /** An override of a backend, or of a destination by the name of its backend. In whatever order the destinations are
        visited, a disabled backend ends with none of its destinations up and an enabled one with all of them healthy,
        and the health of other backends is left alone. It is not held back while the vserver is disabled. */
    method HandleBackendOverride(hostname: string, state: OverrideState)
      requires Ready()
      modifies `services, `active, `lbVservers, `kernel, `trace, `views, `forced
      ensures Ready() && SameShapes(old(services), services) && Overridden(old(services), services, hostname, state, {})
      ensures forced == (old(forced) || (state.OverrideEnable? && config.Some? && !enabled))
    {
      hide Agrees, Logged, InterfaceFits, SnapsFit, AllPopulated, Settled, ChecksLinked, VipsExact, ConfigOK, MarksOK,
           Reflects, Checked, ChecksMade, FixedVIPs, MarksInOrder, Shape, Overridden, MapsTell, Sound, OnInterface,
           AddressesOK;
      ghost var svcs := services;
      forced := forced || (state.OverrideEnable? && config.Some? && !enabled);
      OverrideDests(hostname, state);
      if config.Some? {
        ShapesConfigured(config.value, fwm, anycast, svcs, services);
      }
      ShapesMaps(svcs, services, mapless, BareFamilies());
    }

    /** Applies the override to every destination of the backend, in any order. With nothing up, and no service to force
        up, nothing changes. */
    method OverrideDests(hostname: string, state: OverrideState)
      requires Valid()
      modifies `services, `active, `lbVservers, `kernel, `trace, `views
      ensures Valid() && SameShapes(old(services), services) && Overridden(old(services), services, hostname, state, {})
      ensures old(active) == {} && (state.OverrideEnable? ==> old(services) == map[]) ==>
              services == old(services) && active == {}
    {
      hide Agrees, Logged, InterfaceFits, SnapsFit, AllPopulated, Settled, ChecksLinked, VipsExact, DestJudged, Shape,
           Overridden, AddressesOK, OnInterface;
      ghost var svcs := services;
      ghost var idle := active == {} && (state.OverrideEnable? ==> services == map[]);
      NoneOverridden(services, hostname, state);
      if idle {
        IdleDests(kernel, services, served);
      }
      var todo := AllRefs(services);
      while todo != {}
        invariant Valid() && SameShapes(svcs, services) && todo <= AllRefs(svcs) &&
                  Overridden(svcs, services, hostname, state, todo)
        invariant idle ==> services == svcs && active == {}
      {
        var r :| r in todo;
        ShapeKeys(services[r.svc], svcs[r.svc]);
        ghost var before, on := services, active;
        if services[r.svc].dests[r.ip].backend.hostname == hostname {
          OverrideDest(r.svc, r.ip, state);
        }
        OverrideStep(svcs, before, on, services, active, anycast, hostname, state, todo, r);
        todo := todo - {r};
      }
    }

    /** An override of the whole vserver: one that enables or disables it starts it over, another is only noted. */
    method HandleVserverOverride(os: OverrideState)
      requires Ready() && |fwm| + |fwmAlloc.marks| >= 2 && enabled == VserverEnabled(config, vserverOverride)
      requires VserverEnabled(config, os) && !enabled ==> active == {}
      modifies this, fwmAlloc
      ensures Ready() && |fwm| + |fwmAlloc.marks| >= 2
      ensures vserverOverride == os && config == old(config) && enabled == VserverEnabled(config, os)
      ensures served == old(served) && begun == old(begun) && families == old(families)
      ensures if enabled != old(enabled) then
                && AllDown(services) && AllUnknown(checks) && Exact(services, checks) && AllPopulated(services)
                && mapless == {} && !forced
              else
                && services == old(services) && checks == old(checks) && active == old(active) && kernel == old(kernel)
                && mapless == old(mapless) && forced == old(forced) && trace == old(trace) && views == old(views)
    {
      hide Agrees, Logged, InterfaceFits, SnapsFit, AllPopulated, Settled, ChecksLinked, VipsExact, ConfigOK, MarksOK,
           Reflects, Checked, ChecksMade, FixedVIPs, MarksHeld, MapsInOrder, AllDown, AllUnknown, Exact;
      if vserverOverride == os {
        return;
      }
      vserverOverride := os;
      if VserverEnabled(config, os) == enabled {
        return;
      }
      assert config.Some? ==> families + Families(config.value) == families by { Log(); }
      HandleConfigUpdate(config);
    }

    // ---- Runs ----

    ghost function Mode(): Events.Mode
      reads `config, `vserverOverride, `mapless, `forced
    {
      Events.Mode(config, vserverOverride, BareFamilies(), forced)
    }

    /** Any event. If every healthy service had a healthy destination before and has one after, then so it was at every
        command in between; and it has one after if the event starts over, or if it had one before and no backend
        address is dropped in place. */
    method Handle(e: Event)
      requires Ready() && |fwm| + |fwmAlloc.marks| >= 2 && enabled == Mode().Enabled()
      requires Admissible(Mode(), e, anycast)
      modifies this, fwmAlloc
      ensures Ready() && |fwm| + |fwmAlloc.marks| >= 2 && enabled == Mode().Enabled()
      ensures Mode() == old(Mode()).After(e) && families == old(families) + FamiliesOf(e)
      ensures old(trace) <= trace && old(views) <= views && |trace| == |views|
      ensures old(AllPopulated(services)) && AllPopulated(services) ==> ServedFrom(views, |old(views)|)
      ensures old(Mode()).StartsOver(e) || (old(AllPopulated(services)) && old(Mode()).Gentle(e)) ==>
              AllPopulated(services)
    {
      hide Agrees, Logged, InterfaceFits, SnapsFit, AllPopulated, Settled, ChecksLinked, VipsExact, ConfigOK, MarksOK,
           Reflects, Checked, ChecksMade, FixedVIPs, MarksHeld, MapsInOrder, ServedFrom, Admissible;
      Log();
      BeginEvent();
      Dispatch(e);
      Log();
    }

    method Dispatch(e: Event)
      requires Ready() && |fwm| + |fwmAlloc.marks| >= 2 && enabled == Mode().Enabled()
      requires Admissible(Mode(), e, anycast) && served == AllPopulated(services)
      modifies this, fwmAlloc
      ensures Ready() && |fwm| + |fwmAlloc.marks| >= 2 && enabled == Mode().Enabled()
      ensures Mode() == old(Mode()).After(e) && families == old(families) + FamiliesOf(e) && begun == old(begun)
      ensures served == (old(served) && AllPopulated(services))
      ensures old(Mode()).StartsOver(e) || (old(served) && old(Mode()).Gentle(e)) ==> AllPopulated(services)
    {
      hide Agrees, Logged, InterfaceFits, SnapsFit, AllPopulated, Settled, ChecksLinked, VipsExact, ConfigOK, MarksOK,
           Reflects, Checked, ChecksMade, FixedVIPs, MarksHeld, SameLayout, UpdateOK, MapsInOrder, BareAfter,
           KeepsBackends, AllDown, AllUnknown, Exact, Carried, FlagsAfter, Overridden, SameShapes, Configured,
           MarksInOrder, Families, StatesCarried, Sound, OnInterface, AddressesOK;
      match e
      case NewConfig(cfg) => HandleConfigUpdate(cfg);
      case CheckReport(c, state) => OnCheck(c, state);
      case OverrideVserver(os) => HandleVserverOverride(os);
      case OverrideBackend(hostname, os) => HandleBackendOverride(hostname, os);
    }

    /** Any run of events: every command issued succeeds, the table is exactly that of the active services and
        destinations, the interface carries exactly the VIPs it should, and no prefix of the commands leaves a route
        without its services. Between ends[i] and ends[i + 1] stand the commands of event i: each service of a route
        then has a destination too, wherever every healthy service is sure to have a healthy destination before the
        event and the event is gentle. The iptables rules follow if the cluster has an address in every family that a
        configuration of the vserver has had; and if they do, it has one for every VIP now on the interface. */
    method Run(events: seq<Event>) returns (ghost ends: seq<nat>)
      requires Ready() && |fwm| + |fwmAlloc.marks| >= 2 && enabled == Mode().Enabled()
      requires RunOK(Mode(), events, anycast)
      modifies this, fwmAlloc
      ensures Ready() && Mode() == ModeAfter(old(Mode()), events) && enabled == Mode().Enabled()
      ensures Replay(trace) == Some(kernel)
      ensures ServicesOK(services) && kernel.ipvs == TableOf(services)
      ensures UpExactly(kernel, services, active, anycast, anycastEnabled)
      ensures old(trace) <= trace && old(views) <= views && PrefixesSafe(trace, views)
      ensures SureAfter(old(AllPopulated(services)), old(Mode()), events) ==> AllPopulated(services)
      ensures EventsServed(old(AllPopulated(services)), old(Mode()), events, views, ends) && ends[0] == |old(trace)| &&
              ends[|events|] == |trace|
      ensures families == old(families) + FamiliesOfAll(events)
      ensures cluster.Families() >= families ==> Iptables.Followed(trace, kernel, cluster)
      ensures Iptables.ReplayRules(trace, cluster).Some? ==> forall vip | vip in vips :: vip.ip.af in cluster.Families()
      ensures InForce()
    {
      hide InForce, UpExactly, Ready, AllPopulated, Admissible, EventsServed, SureAfter, PrefixesSafe, SoFar,
           ServedFrom, FamiliesOf, Events.Mode.Gentle, Events.Mode.StartsOver;
      ghost var start, sure := Mode(), AllPopulated(services);
      ends := [|trace|];
      Standing();
      SoFarNone(start, views, families, sure);
      assert events[..0] == [];
      for i := 0 to |events|
        invariant Ready() && |fwm| + |fwmAlloc.marks| >= 2
        invariant Mode() == ModeAfter(start, events[..i]) && enabled == Mode().Enabled()
        invariant old(trace) <= trace && |trace| == |views|
        invariant SoFar(sure, start, events[..i], old(views), views, ends, old(families), families,
                        AllPopulated(services))
      {
        assert events[..i + 1][..i] == events[..i];
        ghost var before, were, populated := views, families, AllPopulated(services);
        Handle(events[i]);
        SoFarStep(sure, start, events, i, old(views), before, views, ends, old(families), were, families, populated,
                  AllPopulated(services));
        ends := ends + [|trace|];
      }
      assert events[..|events|] == events;
      SoFarSays(sure, start, events, old(views), views, ends, old(families), families, AllPopulated(services));
      Standing();
    }

    /** What is known between two events. */
    lemma Standing()
      requires Ready()
      ensures Replay(trace) == Some(kernel) && PrefixesSafe(trace, views) && |trace| == |views|
      ensures ServicesOK(services) && kernel.ipvs == TableOf(services)
      ensures UpExactly(kernel, services, active, anycast, anycastEnabled)
      ensures cluster.Families() >= families ==> Iptables.Followed(trace, kernel, cluster)
      ensures Iptables.ReplayRules(trace, cluster).Some? ==> forall vip | vip in vips :: vip.ip.af in cluster.Families()
      ensures InForce()
    {
      hide Agrees, Logged, Configured, MarksInOrder, MapsInOrder, AddressesOK, ChecksLinked, VipsExact, AllPopulated,
           Settled, OnInterface, ServicesOK, TableOf, UpExactly, Iptables.Followed, Iptables.ReplayRules;
      Log();
      AgreesTable(kernel, services, served, active);
      InterfaceRules();
      UpNow();
      if config.Some? {
        AllInForce();
      }
    }

    lemma UpNow()
      requires Valid() && ServicesOK(services) && kernel.ipvs == TableOf(services)
      ensures UpExactly(kernel, services, active, anycast, anycastEnabled)
    {
      hide Sound, AddressesOK, ChecksLinked, AllPopulated, ServicesOK, TableOf, Settled, VipsExact, InterfaceFits,
           SnapsFit, UpExactly;
      WhatIsUp(kernel, services, active, vips, lbVservers, anycast, anycastEnabled);
    }

    /** Records, table, checks, interface and iptables rules are those of the configuration in force, field by field. */
    ghost predicate InForce()
      reads this
    {
      config.Some? ==>
        && RecordsAsConfigured(config.value, fwm, services)
        && TableAsConfigured(config.value, fwm, kernel.ipvs)
        && ChecksMade(config.value, checks) && ChecksLinked(services, checks)
        && (forall ip | ip in lbVservers :: config.value.Addr(ip.af) == Some(ip))
        && (enabled ==> forall vip | vip in config.value.vips && !vip.kind.AnycastVIP? :: vip.ip in lbVservers)
        && (Iptables.ReplayRules(trace, cluster).Some? ==>
              TablesAsConfigured(Iptables.ReplayRules(trace, cluster).value, config.value, fwm, cluster, lbVservers))
    }

    lemma AllInForce()
      requires Ready() && config.Some? && Replay(trace) == Some(kernel)
      requires ServicesOK(services) && kernel.ipvs == TableOf(services)
      ensures InForce()
    {
      KnownOnInterface();
      hide Sound, OnInterface, Settled, VipsExact, AllPopulated, AddressesOK, MarksInOrder, MapsInOrder, ConfigOK,
           MarksOK, Reflects, Checked, ChecksMade, ChecksLinked, InterfaceFits, SnapsFit, RecordsAsConfigured,
           TableAsConfigured, TablesAsConfigured, ServicesOK, TableOf, Iptables.ReplayRules, Replay;
      RecordsAre(config.value, fwm, anycast, services);
      TableIs(config.value, fwm, anycast, services);
      if Iptables.ReplayRules(trace, cluster).Some? {
        assert EntriesFiled(config.value) by { Filed(config.value, anycast); }
        TablesAreConfigured(trace, kernel, cluster, config.value, fwm);
      }
    }

    /** How the iptables rules fare that the commands so far ask for. */
    lemma InterfaceRules()
      requires Sound({}) && OnInterface()
      ensures cluster.Families() >= families ==> Iptables.Followed(trace, kernel, cluster)
      ensures Iptables.ReplayRules(trace, cluster).Some? ==> forall vip | vip in vips :: vip.ip.af in cluster.Families()
    {
      hide Agrees, Logged;
      Log();
      Iptables.RulesFollow(trace, kernel, cluster);
      if Iptables.ReplayRules(trace, cluster).Some? {
        Iptables.StillAdded(trace, kernel, cluster);
        forall vip | vip in vips
          ensures vip.ip.af in cluster.Families()
        {
          assert vip == VIP(vip.ip, UnicastVIP) || vip == VIP(vip.ip, DedicatedVIP);
          assert vip.ip in kernel.vservers;
        }
      }
    }

    /** A run of healthcheck reports is a run of whole recomputations. */
    method RunReports(reports: seq<Report>)
      requires Ready() && enabled && Exact(services, checks)
      modifies `services, `checks, `active, `lbVservers, `kernel, `trace, `views
      ensures Ready() && Exact(services, checks)
      ensures (services, checks) == ReplayReports(old(services), old(checks), reports, anycast)
    {
      hide Agrees, Logged, InterfaceFits, SnapsFit, AllPopulated, Settled, ChecksLinked, VipsExact, ConfigOK, MarksOK,
           Reflects, Checked, ChecksMade, FixedVIPs, MarksHeld, Exact, Recompute;
      for i := 0 to |reports|
        invariant Ready() && Exact(services, checks)
        invariant (services, checks) == ReplayReports(old(services), old(checks), reports[..i], anycast)
      {
        assert reports[..i + 1][..i] == reports[..i];
        OnCheck(reports[i].c, reports[i].state);
      }
      assert reports[..|reports|] == reports;
    }

    /** Gives a mark back. No service may stand in the table under it any more. */
    method ReturnMark(af: AF)
      requires fwmAlloc.Valid() && af in fwm && fwm[af] in fwmAlloc.held
      requires forall id | id in kernel.ipvs :: id.FwmId? ==> id.mark != fwm[af]
      modifies fwmAlloc
      ensures fwmAlloc.Valid() && fwmAlloc.held == old(fwmAlloc.held) - {fwm[af]}
    {
      fwmAlloc.Put(fwm[af]);
    }

    /** Stops the vserver: everything is taken down, and only then do its marks go back to the pool. */
    method Quit()
      requires Ready()
      modifies this, fwmAlloc
      ensures kernel == EMPTY && Replay(trace) == Some(EMPTY) && PrefixesSafe(trace, views)
      ensures active == {} && vips == {} && fwmAlloc.Valid()
      ensures fwmAlloc.held == old(fwmAlloc.held) - old(fwm).Values
    {
      hide Agrees, Logged, InterfaceFits, SnapsFit, AllPopulated, Settled, ChecksLinked, VipsExact, ConfigOK, MarksOK,
           Reflects, Checked, ChecksMade, FixedVIPs, Partition;
      Shutdown();
      Log();
      var todo := fwm.Keys;
      while todo != {}
        invariant todo <= fwm.Keys && fwmAlloc.Valid() && fwm == old(fwm)
        invariant forall af | af in todo :: fwm[af] in fwmAlloc.held
        invariant fwmAlloc.held == old(fwmAlloc.held) - (set af | af in fwm && af !in todo :: fwm[af])
        modifies fwmAlloc
      {
        var af :| af in todo;
        ReturnMark(af);
        todo := todo - {af};
      }
    }
  }
}
