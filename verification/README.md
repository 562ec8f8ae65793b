# Seesaw control plane, verified

A Dafny model of the control plane of Seesaw v2, an LVS load balancer, with proofs that the state it keeps stays equal
to what it stands for: the kernel's IPVS table, the load balancing interface and its iptables rules, the advertised BGP
routes, the healthcheckers of the healthcheck component, and the peer node.

- **Vservers** (`Types`, `Kernel`, `Propagation`, `Refinement`, `VserverConfig`, `Reconfiguration`, `CheckExpansion`,
  `HealthFlags`, `AsConfigured`, `Overrides`, `Events`, `Vservers`, `Limits`). Healthchecks feed destinations, destinations feed
  services through watermarks, services feed addresses. Class `Vserver` has the engine's fields and methods. Beside them
  stand a ghost kernel, the trace of commands issued, and for each command the records then in force and whether each
  healthy service then had a healthy destination (`views`). The engine dies on the first command that fails, so each
  command is proved to succeed, and the iptables rules behind it to follow if the cluster has addresses of the vserver's
  families. For every run of configuration updates, reports and overrides the table is exactly the one the records call
  for, records, table and rules are, field by field, those of the configuration in force, and no prefix of the trace has a route without its services; nor without a destination for each of them, except
  from an update in place that drops a backend address until the vserver starts over. For runs of reports the
  step-by-step propagation, with its shortcuts, equals a recomputation from scratch.
- **Healthcheck manager and marks** (`Marks`, `Healthchecks`). The maps of checkers are coherent after every rebuild,
  ids are never rebound, marks are neither lost nor shared, and deduplication converges in two rebuilds.
- **Peer synchronisation** (`SyncSession`, `HaManager`). A bounded queue with a desync flag under every interleaving of
  senders and polls; the HA manager and the channels on which it and the sync client wait for each other.
- **VRRP** (`Vrrp`, `VrrpNode`, `VrrpPacket`, `Checksum`). Two nodes under arbitrary delay, loss and repetition of
  adverts and arbitrary timing: who leads, who steps down, who preempts; timer arithmetic; packets and checksums.
- **Configuration** (`RateLimit`, `ClusterConfig`, `Iptables`). The rate limiter converges; node priorities are distinct
  up to 255 nodes; loaded vservers meet what the engine relies on; iptables rules come and go with their vservers.
- **Healthcheck formats** (`Icmp`, `Radius`, `RadiusPassword`). The ICMP checksum, RADIUS packets and password hiding.

Go map iteration is a loop that picks any remaining key. Code that updates fields or loops is a class or a method with
loops, proved against a specification; pure code is functions. Handlers are atomic, except where interleaving is the
subject.

## What the source needs to hold

All but the last stand as conditions on a run (`Events.Admissible`); the last is a premise of what `Vserver.Run` says of
the iptables rules. For each, a lemma in `Limits` or beside it says exactly when it matters, and another shows an input.

- A configuration is one that the loader makes of a sound protobuf: addresses under their own family, and an entry for a
  firewall-mark vserver. `ClusterConfig.LoadVserver` proves this exact.
- Overrides of backends and destinations are taken while the vserver is disabled, too. `Limits.EnableActivatesIff` says
  exactly when one brings a service up. The next configuration of a disabled vserver then replaces the records while the
  table keeps its entries: `Reconfiguration.FreshAgreesIff` says that new records agree with the table if and only if no
  service was up, and `Limits.DisabledOverrideLeaks` shows a vserver where they do not. So a disabled vserver may start
  over only if no backend has been enabled since it was disabled; the runs up to there are covered.
- An address with services keeps its VIP type through an update in place. `Limits.ConfigureVIPIff` says that a
  configured VIP can be put on the interface if and only if no VIP of its address is there, and `Limits.RetypedVIPFails`
  shows two configurations that differ in nothing else.
- A firewall-mark service that an update in place makes, or moves to another address, has no destination map, and keeps
  none until the vserver starts over. `Limits.NilWriteIff` says that an update writes to such a map if and only if some
  backend has an address of that family; `Limits.MarkedVserverMoves` shows it, and `Limits.MarkedVserverGains` a
  harmless one.
- The cluster VIP has an address of each family in which the vserver has one: the rules of a vserver name it.
  `Iptables.RulesFollow` says that the iptables commands of a run succeed if and only if the cluster has an address in
  every family for which a vserver is put on the interface, `Vserver.Run` derives that from the configurations,
  `Limits.ClusterFamiliesIff` says exactly when a vserver without anycast addresses meets it, and
  `Limits.OneFamilyClusterFails` shows a vserver of both families under an IPv4 cluster VIP.

Three more properties fail in part, and are proved as far as they hold.

- An inactive destination is dropped without judging its service again: `Reconfiguration.DropJudgedIff` says exactly
  when the service's health is then still right, and `Reconfiguration.DropLastHealthy` shows it wrong. `Vserver.Handle`
  promises a destination behind each route for every event before and after which each healthy service has a healthy
  destination.
- The tie-break between equal VRRP priorities needs each node to have the other's address: `Vrrp.NobodyPrevailsIff` says
  exactly when both nodes give way, and `Vrrp.GroupAddressBothYield` is a run in which they do, with the default group
  address.
- The sync client hands overrides from its peer to the manager, and takes no quit signal meanwhile. `HaManager.MeetsIff`
  says that a manager blocked on start or quit can still meet the client if and only if the client is not handing one
  over, and that else nothing moves any more; `HaManager.LostIff` says exactly which steps lead there, and
  `HaManager.OverrideBlocksLeader` is a run that does.

## Model

| member | source | states |
|---|---|---|
| Vservers.Vserver.Run | engine/vserver.go:489-532 | Over every admissible run: each command succeeds; the table holds exactly the healthy services on active addresses with their healthy destinations; records, table, checks and iptables rules are field by field those of the configuration in force; after every prefix a route has its services, and destinations as Handle says |
| Vservers.Vserver.Standing | engine/vserver.go:489-532 | The same of every state between two events |
| AsConfigured.WhatIsUp | engine/vserver.go:1073-1277 | In the table exactly the healthy services on active addresses, with exactly their healthy destinations; active exactly if a service is healthy and, for anycast, each is; routed exactly the active anycast addresses |
| AsConfigured.RecordsAre | engine/vserver.go:317-475 | Services, destinations and checks field by field: a service for each entry and family or one for each mark; a destination for each backend address, with its backend; a key among its checks exactly if a vserver-level, own-entry or, with marks, any-entry healthcheck has those fields |
| AsConfigured.WantedIff | engine/vserver.go:432-475 | A destination is to pass a check exactly if its backend is enabled and the key has the addresses, and the mode, type, port and name of a configured healthcheck: of the vserver with port and protocol 0, of its own entry, or with marks of any entry |
| AsConfigured.TableIs | engine/vserver.go:111-145 | Each service in the table has the scheduler, persistence, one-packet and hashing flags of its entry, and each destination the port of its service, the mode and thresholds modulo 2^32 of its entry and the weight of a configured backend with its address |
| AsConfigured.WeightInstalled | engine/vserver.go:185-208 | A backend that alone has its address has its own weight wherever it is in the table |
| AsConfigured.NewWeight | engine/vserver.go:952-987 | An update of a weight alone is in place, puts the new weight into every destination of that backend in the table, and takes none out |
| AsConfigured.UpdateServesOn | engine/vserver.go:673-745 | An update in place that keeps the addresses, and an enabled backend under each healthy destination, keeps every address, service and destination up |
| AsConfigured.SnapsCarry | engine/vserver.go:600-631 | What was handed to the interface still has the ports, protocols, modes and marks of the configuration after an update that keeps the layout: why other updates start over |
| AsConfigured.RulesAreConfigured | ncc/iptables.go:260-344 | After any run an address on the interface has the rules of the configuration now in force: ACCEPT and mark rules for its entries, conntrack and SNAT rules for its NAT entries, each as often as there are such entries; marks are those held |
| AsConfigured.TablesAreConfigured | ncc/iptables.go:260-344 | So for every address on the interface, and for any other there is no rule |
| Vservers.Vserver.RunReports | engine/vserver.go:761-782 | A run of reports ends in the services and checks of a whole recomputation after each report, so neither map order nor the skipped recomputations show |
| Vservers.Vserver.Quit | engine/vserver.go:493-510 | Leaves nothing in the table, on the interface or in the routes; exactly the vserver's own marks go back, after its services are deleted |
| Vservers.Vserver.Handle | engine/vserver.go:489-532 | Keeps the invariant and moves the mode as the event says; if each healthy service had a healthy destination before and has after, so it was at every command between; starting over makes it so, and only an update in place that drops a backend address can undo it |
| Vservers.Vserver.HandleConfigUpdate | engine/vserver.go:575-643 | Records, checks, marks and VIPs become those of the new configuration. A change of marks, of a mode, or of the set of entries ends all down and unknown; else health and check states are carried over exactly, and what was up on kept addresses and enabled backends stays up |
| Vservers.Vserver.ConfigInit | engine/vserver.go:647-669 | Fresh records that reflect the configuration, linked to exactly its checks, all down and exact, and in agreement with the table |
| Vservers.Vserver.ConfigUpdate | engine/vserver.go:673-745 | Records that reflect the new configuration; a destination is healthy exactly if it was, its service is at the same address and its backend is enabled; a service that loses no healthy destination keeps its health; checks keep their states; the guarantee on destinations lapses only if some service lost its last |
| Vservers.Vserver.UpdateTo | engine/vserver.go:640-641 | The same, with the configuration taken over, marks drawn, the families without a destination map as they follow, and what was up on kept addresses and enabled backends still up |
| Vservers.Vserver.ReplaceServices | engine/vserver.go:674-718 | Services and destinations become those of the configuration, with health, guarantee and destination maps as for ConfigUpdate |
| Vservers.Vserver.AddNewDest | engine/vserver.go:703-704 | A new destination goes, down, into a map that exists; nothing else of the records changes |
| Vservers.Vserver.AddNewService | engine/vserver.go:687-690 | A new service is filed, down, and its address reconsidered; a firewall-mark one has no destination map |
| Vservers.Vserver.DropOldDest | engine/vserver.go:707-716 | The destination goes, all others keep their health, and the guarantee lapses only if the service is left healthy without a healthy destination |
| Vservers.Vserver.NeedsReinit | engine/vserver.go:614-631 | True exactly if the use of marks differs, an entry is new or has another mode, or an entry is gone |
| VserverConfig.LayoutIff | engine/vserver.go:614-631 | The layout differs in exactly those cases |
| Vservers.Vserver.DropService | engine/vserver.go:748-757 | A service no longer wanted leaves table and records; all other services keep health and settings |
| Vservers.Vserver.HandleCheckNotification | engine/vserver.go:761-782 | A report that changes a check gives the destinations under it the health their checks now give them and leaves the health of all others; from exact records it has the effect of one whole recomputation; a report that changes nothing, to an unknown check or to a disabled vserver has none |
| Vservers.Vserver.OnCheck | engine/vserver.go:761-782 | The same, with the configuration kept |
| Vservers.Vserver.HandleBackendOverride | engine/vserver.go:797-840 | In any order of visiting, enabled or not: a disabled backend ends with no destination up, an enabled one with all destinations healthy, other backends keep their health, and a default override changes nothing |
| Vservers.Vserver.HandleVserverOverride | engine/vserver.go:785-847 | The override is on record and enabled is what configuration and override make of it; a toggle starts over with all down and unknown, another override changes nothing else |
| Vservers.Vserver.OverrideDest | engine/vserver.go:797-840 | Only a destination that is up is disabled, and only one that is down and unhealthy enabled; its service is then judged |
| Vservers.Vserver.DestUpdateState | engine/vserver.go:899-927 | With its shortcuts, the outcome of giving the destination its checks' health and judging its service |
| Vservers.Vserver.DestUp | engine/vserver.go:930-938 | Adds the destination to the table, where it is absent and its service present |
| Vservers.Vserver.DestDown | engine/vserver.go:941-949 | Deletes the destination from the table, where it is present |
| Vservers.Vserver.UpdateDestSettings | engine/vserver.go:952-987 | Takes over the settings, in the table too; the destination keeps its health exactly if its backend is enabled, and every other keeps its own |
| Vservers.Vserver.CountDests | engine/vserver.go:1014-1023 | The number of destinations with a backend in service, and the number of healthy ones |
| Vservers.Vserver.JudgeService | engine/vserver.go:1014-1038 | Healthy exactly if some destination is healthy, some backend is in service, and their quotient reaches the low watermark of a healthy service or the high one of another |
| Vservers.Vserver.ServiceUpdateState | engine/vserver.go:1005-1069 | Service, address and destinations end as judging the service by its watermarks makes them |
| Vservers.Vserver.UpdateDests | engine/vserver.go:1073-1089 | Destinations end up exactly where the service is up and they are healthy |
| Vservers.Vserver.ServiceUp | engine/vserver.go:1092-1105 | The service and its healthy destinations are in the table |
| Vservers.Vserver.ServiceDown | engine/vserver.go:1109-1122 | Neither the service nor a destination of it is in the table; allowed only without a route |
| Vservers.Vserver.UpdateSettings | engine/vserver.go:1125-1149 | New service settings reach the record, and the table if the service is up |
| Vservers.Vserver.VipUpdateState | engine/vserver.go:1228-1255 | The address becomes active exactly if all (anycast) or any (other) of its services are healthy, and its services are settled |
| Vservers.Vserver.UpdateServices | engine/vserver.go:1259-1277 | All services of the address end up exactly where healthy on an active address |
| Vservers.Vserver.VipUp | engine/vserver.go:1281-1315 | The address is active and its services settled; every command succeeds and keeps table, interface and routes in agreement, so that services come before the route |
| Vservers.Vserver.VipDown | engine/vserver.go:1331-1358 | The address is not active and its services settled; the same agreement after every command, so that the route goes before the services |
| Vservers.Vserver.DownAll | engine/vserver.go:1318-1327 | No address is active and no service up |
| Vservers.Vserver.ConfigureVIPs | engine/vserver.go:1368-1392 | Exactly the configured VIPs other than anycast are on the interface, none added twice |
| Vservers.Vserver.UnconfigureVIP | engine/vserver.go:1395-1410 | The VIP and its rules go, the rules with the snapshot they were added with |
| Vservers.Vserver.UnconfigureVIPs | engine/vserver.go:1413-1417 | No configured VIP is left |
| Vservers.Vserver.Shutdown | engine/vserver.go:584-589 | The kernel state is empty |
| Vservers.Vserver.TakeSnapshot | engine/vserver.go:864-895 | The snapshot has the addresses of the configuration, exactly its entries by port, protocol and mode, and the marks held |
| Vservers.Vserver.ExpandServices | engine/vserver.go:317-352 | New services for exactly the entries and families of the configuration |
| Vservers.Vserver.ExpandFamily | engine/vserver.go:356-400 | The same for one family, a firewall-mark vserver having one service |
| Vservers.Vserver.ExpandDests | engine/vserver.go:404-428 | A destination exactly for each backend address of the family, with that backend and, for the table, its weight, the port of the service, and the mode and thresholds modulo 2^32 of the entry; all down |
| Vservers.Vserver.ExpandChecks | engine/vserver.go:432-475 | Records and checks are field by field those of the configuration; checks and destinations refer to each other, each check is made from its configured healthcheck, and nothing else of the records changes |
| Vservers.Vserver.AssignMarks | engine/vserver.go:379-385 | Marks for the families that need one, drawn from the pool and not held by others; marks already held stay |
| Vservers.Vserver.ReturnMark | engine/vserver.go:503-507 | A mark goes back only once no service in the table stands under it |
| Kernel.PrefixReplays | engine/vserver.go:899-1149 | A trace that replays has no failing prefix |
| Propagation.SettledTable | engine/vserver.go:1073-1122 | A table that fits settled records is exactly the table of the active services and destinations |
| Propagation.ShortcutSound | engine/vserver.go:899-927 | A destination that turns healthy under a healthy service, or unhealthy under an unhealthy one, cannot change the service's health: the skipped judgement is sound where low is at most high |
| Propagation.WatermarkQuotient | engine/vserver.go:1030-1038 | The quotient the engine compares is the product the model compares |
| Propagation.Announce | engine/vserver.go:1281-1315 | The three commands that bring an address up succeed and keep table, interface and routes in agreement |
| Propagation.Retire | engine/vserver.go:1331-1358 | The three commands that take an address down succeed and keep them in agreement |
| Refinement.StepExact | engine/vserver.go:899-1069 | Judging one destination after a report is a recomputation restricted to it |
| Refinement.RecomputeReached | engine/vserver.go:761-782 | Once all destinations of a check are judged, the records are those of a whole recomputation |
| Refinement.RecomputeExact | engine/vserver.go:1005-1069 | A recomputation gives each destination, service and address the health its definition calls for |
| Refinement.ExactFixed | engine/vserver.go:1005-1069 | Exact records are left alone by a recomputation |
| Events.ReportsLast | engine/vserver.go:761-782 | After any reports each check has the last state reported for it |
| Events.HealthByLastReports | engine/vserver.go:899-927 | After any reports a destination is healthy exactly if its backend is enabled, some configured healthcheck applies to it, and each that does was last reported healthy |
| Events.SureWithoutConfigs | engine/vserver.go:489-532 | Over any events without new configurations every healthy service is sure to keep a healthy destination |
| HealthFlags.CarriedThrough | engine/vserver.go:673-745 | Moving services to new addresses and then reviewing destinations carries health over exactly as an update in place promises |
| HealthFlags.FlagsStep | engine/vserver.go:761-782 | Judging one destination changes its own health and no other |
| Overrides.OverrideStep | engine/vserver.go:797-840 | Overriding one destination leaves what was done to the others |
| Overrides.DisableShrinks | engine/vserver.go:803-807 | Failing a destination that is up brings nothing else up |
| VserverConfig.ReflectsOK | engine/vserver.go:111-210 | A record made from a sound configuration has the kernel identity its key stands for, destinations under their own addresses, and a low watermark at most the high one |
| VserverConfig.EntryChecksApart | engine/vserver.go:246-257 | Different checks of one destination never share a key |
| Reconfiguration.FreshAgreesIff | engine/vserver.go:647-669 | New records agree with the table exactly if no service was up |
| Reconfiguration.DropJudgedIff | engine/vserver.go:707-717 | A service is still rightly judged after an inactive destination is dropped exactly if the counts without it are on the same side of the watermark |
| Reconfiguration.DropLastHealthy | engine/vserver.go:707-717 | A service keeps its health when its last healthy destination goes while it is down |
| Reconfiguration.Begin | engine/vserver.go:1073-1122 | Records in order agree with the table as far as they are populated: each installed service with a healthy destination on record has one in the table |
| Reconfiguration.MapsAfter | engine/vserver.go:674-692 | Which families are without a destination map after an update in place |
| Limits.EnableActivatesIff | engine/vserver.go:808-812 | An enable override brings the service up exactly if the counts with the destination reach the watermark and, for anycast, every other service of the address is healthy |
| Limits.DisabledOverrideLeaks | engine/vserver.go:592-600 | A disabled vserver whose service an override brings up, after which no fresh records agree with the table |
| Limits.ConfigureVIPIff | engine/vserver.go:1368-1392 | A configured VIP can be put on the interface exactly if no VIP of its address is there |
| Limits.RetypedVIPFails | engine/vserver.go:722-731 | Two configurations that differ in the VIP type alone, and the command that fails |
| Limits.NilWriteIff | engine/vserver.go:703-704 | An update in place writes to a missing destination map exactly if a family without one has a backend |
| Limits.NoDestsIff | engine/vserver.go:404-428 | A service gets no destination exactly if no backend has an address of its family |
| Limits.ClusterFamiliesIff | ncc/iptables.go:270-272 | For a vserver without anycast addresses on the interface, the iptables commands succeeded exactly if the cluster has an address in each family of its configuration |
| Limits.OneFamilyClusterFails | engine/vserver.go:1382-1384 | A sound vserver of both families under an IPv4 cluster VIP: legal commands whose rules for IPv6 cannot be made |
| Limits.MarkedVserverMoves | engine/vserver.go:386-395 | A firewall-mark vserver that moves with its backends breaks the condition |
| Limits.MarkedVserverGains | engine/vserver.go:386-395 | One that gains a family without backends does not |
| Reconfiguration.ConfigureVIPStep | engine/vserver.go:1368-1392 | Putting a VIP on the interface succeeds and keeps the interface in agreement |
| Reconfiguration.UnconfigureVIPStep | engine/vserver.go:1395-1410 | Taking it off does too |
| Reconfiguration.EmptyInterface | engine/vserver.go:1318-1358 | With nothing active and no VIP the kernel state is empty |
| Iptables.IptablesRules | ncc/iptables.go:260-314 | Each rule as often as asked for: ACCEPT for each entry, MARK if the vserver has a mark, conntrack and SNAT to the cluster address for each NAT entry, ICMP and REJECT once; an error exactly where the cluster or the vserver has no address of the family |
| Iptables.RulesAre | ncc/iptables.go:260-314 | The same count for every rule |
| Iptables.RulesIff | ncc/iptables.go:276-312 | Exactly when each ACCEPT, mark, conntrack, SNAT, ICMP and REJECT rule is among the rules, by the entries, marks and modes of the vserver |
| Iptables.Netfilter.AddRules | ncc/iptables.go:318-329 | Adds them one after the other |
| Iptables.Netfilter.DeleteRules | ncc/iptables.go:333-344 | Deletes them one after the other, failing where one is absent |
| Iptables.RulesFollow | ncc/iptables.go:260-344 | Over every legal trace: each iptables command succeeds exactly if the cluster has an address in every family added, and then the tables hold exactly the rules of the vservers now on the interface, in order in the INPUT chain |
| Iptables.TablesAre | ncc/iptables.go:318-344 | After any run each mangle, raw and nat rule stands as often as the vserver now on its address asks for it, and not at all for other addresses |
| Iptables.RulesReturn | ncc/iptables.go:318-344 | Where the commands succeed: points with the same vservers have the same rules, and with none no rule is left |
| Iptables.RejectLast | ncc/iptables.go:132-162 | The REJECT of an address comes after the ACCEPTs of its services |
| Marks.MarkAllocator.constructor | engine/core.go:765-773 | All marks of the range are free |
| Marks.MarkAllocator.Get | engine/core.go:776-785 | Fails exactly if no mark is free; else a free mark becomes held, and free and held marks remain a partition of the range without repetition |
| Marks.MarkAllocator.Put | engine/core.go:788-792 | A held mark becomes free, with the partition kept |
| Marks.RangesApart | engine/core.go:45-48 | The two mark ranges never meet, and no mark is 0 |
| Marks.FreeCount | engine/core.go:758-792 | Free and held marks together number the size of the range |
| Healthchecks.SharedCheckerIff | engine/healthcheck.go:194-202 | Two checks share a checker exactly if they agree in configuration, backend, mode, type and port and, unless plain, in the vserver address and service |
| Healthchecks.HealthcheckManager.BuildMaps | engine/healthcheck.go:138-190 | A rebuild gives coherent maps over the merged checks, old ids and checkers kept, marks exactly those in use, and each live checker's mark the one on record |
| Healthchecks.HealthcheckManager.BuildCheck | engine/healthcheck.go:152-182 | One check is entered under its old or a new id, or passed over if its checker cannot be made |
| Healthchecks.HealthcheckManager.PickChecker | engine/healthcheck.go:155-176 | The old id and checker, or the next id and a new checker |
| Healthchecks.HealthcheckManager.NewChecker | engine/healthcheck.go:247-358 | Marks the backend first where the mode needs it, then makes the checker or fails |
| Healthchecks.HealthcheckManager.MergeChecks | engine/healthcheck.go:139-147 | Every check of every vserver is there under its key, one of them where keys clash |
| Healthchecks.HealthcheckManager.MarkBackend | engine/healthcheck.go:387-431 | A backend and mode gets one mark, with an IPVS service standing for it |
| Healthchecks.HealthcheckManager.UnmarkBackend | engine/healthcheck.go:435-474 | The backend's mark and its IPVS service go, all others stay |
| Healthchecks.HealthcheckManager.ReleaseMark | engine/healthcheck.go:468-473 | A mark goes back only once its IPVS service is gone |
| Healthchecks.HealthcheckManager.PruneMarks | engine/healthcheck.go:477-501 | Exactly the marks in use remain |
| Healthchecks.HealthcheckManager.UnmarkAllBackends | engine/healthcheck.go:504-508 | No mark is held and all are free |
| Healthchecks.HealthcheckManager.Update | engine/healthcheck.go:108-115 | Takes over or drops one vserver's checks and rebuilds |
| Healthchecks.HealthcheckManager.QueueHealthState | engine/healthcheck.go:205-234 | Each check under the id is notified once, and none while disabled or for an unknown id |
| Healthchecks.IdsInjective | engine/healthcheck.go:138-190 | No two checkers share an id, and ids are below the next one |
| Healthchecks.RebuiltIds | engine/healthcheck.go:150-187 | A rebuild leaves ids for exactly the checkers that can be made |
| Healthchecks.NeverRebound | engine/healthcheck.go:150-187 | An id never names another checker than before |
| Healthchecks.NewCheckersSplit | engine/healthcheck.go:155-176 | In the first rebuild checks that share a new checker have different ids |
| Healthchecks.SecondRebuild | engine/healthcheck.go:150-187 | After the second rebuild each checker has one id |
| Healthchecks.LaterRebuild | engine/healthcheck.go:150-187 | Later rebuilds keep ids and checkers, and the lists up to order |
| Healthchecks.DedupConverges | engine/healthcheck.go:150-187 | From any coherent maps: one id for each checker after two rebuilds, and nothing but the order of lists changes after |
| Healthchecks.HealthcheckManager.Converge | engine/healthcheck.go:138-190 | Two rebuilds of unshared checks leave one id for each checker, and any number more change nothing but the order of lists |
| Healthchecks.MergeUnique | engine/healthcheck.go:139-147 | Where no key is shared between vservers the merged checks do not depend on the order |
| SyncSession.EveryRun | engine/sync.go:142-245 | After any interleaving: the queue holds at most 100 notes; notes are received in the order offered, each once; a reply is what its call took, 1 to 101 notes; every lost note is covered by a later Desync, the flag, a sender about to set it or a draining poll; the first reply is a Desync |
| SyncSession.FlagHolds | engine/sync.go:155-172 | Once the flag is set no call that tests it afterwards returns anything but a Desync until one is returned |
| SyncSession.DeliveredInOrder | engine/sync.go:174-189 | With one call at a time the replies list the received notes in the order offered |
| SyncSession.KeepsCovered | engine/sync.go:142-245 | Every step keeps each lost note covered |
| SyncSession.KeepsInv | engine/sync.go:142-245 | Every step keeps the whole invariant |
| SyncSession.Server.AddNote | engine/sync.go:234-245 | A note is queued, or the session is marked; a run of the steps |
| SyncSession.Server.Poll | engine/sync.go:142-194 | Drains and returns a Desync, or returns the queued notes, or times out; a run of the steps with one reply |
| SyncSession.Server.constructor | engine/sync.go:269-284 | A new session is marked and empty |
| HaManager.Manager.SetState | engine/ha.go:111-136 | The state asked for, unless DISABLED keeps it; the interface is up on the leader only, and the client follows the state |
| HaManager.Manager.Enable | engine/ha.go:69-73 | Only DISABLED is left, for UNKNOWN |
| HaManager.Manager.Disable | engine/ha.go:76-78 | DISABLED with the interface down |
| HaManager.Manager.RequestFailover | engine/ha.go:90-107 | Granted to a leader without one pending; another node refuses its peer, and passes its own request on |
| HaManager.Manager.Failover | engine/ha.go:81-87 | A granted failover is handed over once |
| HaManager.Manager.RunStates | engine/ha.go:111-148 | Any requests lead to the role they determine |
| HaManager.RolesProper | engine/ha.go:111-148 | After any requests: interface up exactly on the leader; the client of a leader is off, that of a backup on if it has a peer; any request is met, but only UNKNOWN leaves DISABLED |
| HaManager.EveryRun | engine/sync.go:585-636 | In every interleaving: one stopped token at most, and leaving it never blocks; a manager blocked on quit never faces a client waiting for start, nor the reverse; the interface is up only while the client is parked, but for a leader stepping down |
| HaManager.MeetsIff | engine/sync.go:496-636 | In every reachable state a blocked manager can still meet the client exactly if the client is not handing over an override, else nothing moves; where it can, they meet now, or the client can move and each move brings the meeting nearer |
| HaManager.LostIff | engine/sync.go:499-518 | The meeting is lost exactly when the manager begins to stop a client that is handing over an override, or a poll returns one while it waits |
| HaManager.NoOverridesMeets | engine/sync.go:585-636 | In runs without overrides from the peer the meeting is never lost |
| HaManager.OverrideBlocksLeader | engine/sync.go:570-582 | A run in which a backup told to lead and its client wait for each other for ever |
| HaManager.RequestsAtomic | engine/core.go:737-755 | However client steps interleave, a request has the effect it has all at once |
| Vrrp.EveryRun | ha/core.go:220-428 | In every run: an advert is sent at a tick of the one sender of a node that leads, or as the priority 0 of one shut down as leader; a backup takes over exactly on a timeout with no advert queued, on priority 0 or, preempting, on a lower one; a leader steps down only if its peer prevails |
| Vrrp.LeaderPrevails | ha/core.go:293-327 | A leader that prevails leads on over every run without its own shutdown or error |
| Vrrp.WhoPrevails | ha/core.go:293-327 | With distinct priorities the higher prevails and the lower does not; with equal ones and each other's addresses, the higher address |
| Vrrp.AboveIff | ha/core.go:296-310 | The address comparison: the first octet that differs is greater, or the other address is a proper prefix |
| Vrrp.NobodyPrevailsIff | ha/core.go:296-310 | Exactly when both nodes give way |
| Vrrp.GroupAddressBothYield | ha/core.go:300-301 | A run in which two nodes that send to the group address both lead and both step down |
| Vrrp.LowerGivesWay | ha/core.go:293-327 | A leader of the lower priority steps down on whatever it hears from a peer not shut down |
| Vrrp.LowerWaits | ha/core.go:329-382 | Over any run a node of the lower priority begins to lead only by its own timeout, unless its peer was shut down as leader |
| Vrrp.NoPreemption | ha/core.go:365-382 | Over any run a node that must not preempt, whatever its priority, begins to lead only by its own timeout, unless its peer was shut down as leader |
| Vrrp.PreemptsLower | ha/core.go:365-382 | A preempting backup takes over on whatever it hears from a peer of lower priority |
| Vrrp.AdvertOrigin | ha/core.go:395-428 | Every advert of nonzero priority in a run was sent at a tick of its node's sender, while that node led |
| Vrrp.KeepsInv | ha/core.go:220-428 | Every step keeps one sender for each node that leads, and true adverts |
| VrrpNode.Node.RunOnce | ha/core.go:220-254 | One turn of the main loop is the node's own step for what is ready, completed |
| VrrpNode.CompletedRuns | ha/core.go:256-291 | Completing a decision is a run of the node's own steps |
| VrrpNode.Node.DoBackupTasks | ha/core.go:329-363 | Leads on a timeout with no advert queued; a queued advert defeats the timeout, and leads exactly with priority 0 or, preempting, a lower one; else the timer restarts from its interval |
| VrrpNode.Node.DoMasterTasks | ha/core.go:293-327 | Steps down on a higher priority, or an equal one with a higher address |
| VrrpNode.Node.BackupHandleAdvertisement | ha/core.go:365-382 | LEADER exactly if the priority is 0, or preempt is set and the priority is below its own; else BACKUP with the timer restarted from the interval of the advert |
| VrrpNode.Node.Remaining | ha/core.go:329-340 | The time to the master-down moment, 0 exactly once it has passed |
| VrrpNode.Node.ResetMasterDownInterval | ha/core.go:114-122 | The master-down interval of the node's priority |
| VrrpNode.Node.BecomeShutdown | ha/core.go:278-291 | A leader's sender stops and owes a last advert; a backup owes nothing |
| VrrpNode.Node.constructor | ha/core.go:97-111 | A backup with its own interval |
| VrrpNode.MasterDownBounds | ha/core.go:114-122 | Between 3 and 4 intervals for priorities 1 to 255: 3 intervals and the skew (256 - priority)/256 of one, rounded down |
| VrrpNode.MasterDownMonotone | ha/core.go:114-122 | A higher priority never waits longer |
| VrrpNode.StrictIff | ha/core.go:114-122 | Different priorities wait for different times exactly from an interval of 255 ns on |
| VrrpNode.IntervalSurvivesIff | ha/core.go:153-160 | The peer learns the interval, rounded down to 10 ms, exactly below 65.54 s |
| VrrpPacket.Send | ha/net.go:417-441 | The payload with its checksum filled in; one given is sent as it is; fails exactly for addresses without a pseudo-header |
| VrrpPacket.Receive | ha/net.go:258-309 | Taken exactly if it has 8 octets, is not from the node itself, has hop limit 255, and the sum over pseudo-header and payload verifies; then it is the advert of the payload |
| VrrpPacket.ComputeChecksum | ha/net.go:443-477 | The checksum over pseudo-header and advert, or an error for unusable addresses |
| VrrpPacket.CoveredSum | ha/net.go:443-477 | The sum covers both addresses in 4 or 16 octets, protocol 112, size 8 and every field of the advert |
| VrrpPacket.SentIsAccepted | ha/net.go:423-429 | What is sent is accepted by any other node for the same addresses |
| VrrpPacket.DamageNoticed | ha/net.go:297-306 | A change of one aligned word is accepted exactly if it exchanges 0x0000 and 0xffff |
| VrrpPacket.AdvertRoundTrip | ha/net.go:278-282 | Encoding and decoding an advert are inverse |
| VrrpPacket.LayoutIs | ha/net.go:278-282 | The fields stand in the order and widths of section 5.1 of RFC 5798 |
| Checksum.IpChecksum | ha/net.go:480-492 | Terminates with the complement of the one's complement sum of big-endian words |
| Checksum.Rfc1071Example | ha/ha_test.go:188-204 | The example of RFC 1071, and the same with an odd octet |
| Checksum.FoldAll | ha/net.go:488-491 | Folding until no carry is left ends at the one's complement value |
| Checksum.IcmpChecksum | healthcheck/ping.go:119-131 | The complement of the one's complement sum of little-endian words |
| Checksum.FoldTwice | healthcheck/ping.go:128-130 | Two folds are enough for a 32-bit sum |
| Checksum.ByteOrderIndependent | healthcheck/ping.go:119-131 | Up to 2^17 octets one checksum is the byte swap of the other |
| Checksum.ZerosAppended | healthcheck/ping.go:119-131 | Zero octets at the end change neither |
| Checksum.FilledIn | ha/net.go:423-429 | Filling in the checksum makes the checksum 0 |
| Checksum.OneWordChanged | ha/net.go:303-306 | A change of one word passes exactly if it exchanges 0 and 65535 |
| Checksum.LittleJoin | healthcheck/ping.go:119-131 | What a tail adds to the sum, its octets changing places after an odd length |
| Icmp.NewInfoMessage | healthcheck/ping.go:140-152 | Identifier and sequence number can be parsed back, the checksum is 0, and the filler follows |
| Icmp.PayloadIs | healthcheck/ping.go:140-152 | Octet by octet: the filler as often as counted to fit, then zeros |
| Icmp.NewEchoRequest | healthcheck/ping.go:108-117 | An echo request verifies under both checksums |
| Icmp.ReplyInBufferIff | healthcheck/ping.go:171-196 | A good reply read over older octets verifies exactly if the tail adds a multiple of 65535 |
| Icmp.ReplyInZeros | healthcheck/ping.go:171-196 | In a zeroed buffer a reply verifies exactly if it does alone |
| Icmp.StaleOctetRejects | healthcheck/ping.go:171-196 | A good reply that one octet left over makes fail |
| Radius.DecodeAttribute | healthcheck/radius.go:157-183 | The attribute at the front, if whole, and no more is read |
| Radius.DecodeAttributes | healthcheck/radius.go:211-223 | The attributes while the 16-bit counter, which wraps, is at least 2 |
| Radius.AttributesAre | healthcheck/radius.go:157-223 | Each attribute decoded stands in the octets right behind those before it, with its kind, length and value |
| Radius.Decode | healthcheck/radius.go:203-224 | Terminates with the parsed packet or an error; code, identifier, length and authenticator stand at their places, and the length is 20 to 4096 |
| Radius.Encode | healthcheck/radius.go:226-237 | The packet's octets, with its lengths filled in |
| Radius.PacketRoundTripIff | healthcheck/radius.go:157-237 | Below 64 KiB decoding undoes encoding exactly for values up to 253 and packets up to 4096 octets |
| Radius.DecodesIff | healthcheck/radius.go:203-224 | Up to 65554 octets decoding succeeds exactly if attributes fill the stated length but for at most one octet: an overrun always ends in an error |
| Radius.DecodedEncodes | healthcheck/radius.go:203-237 | Attribute lengths make up the stated length or fall one short; encoding again gives the octets up to there |
| Radius.Overrun | healthcheck/radius.go:213-222 | A counter that has wrapped does not come down again |
| RadiusPassword.HidePassword | healthcheck/radius.go:241-263 | Each octet of block n is masked with the hash of the secret and hidden block n - 1, or the authenticator for the first; showing the array gives the padded password |
| RadiusPassword.HiddenMasked | healthcheck/radius.go:250-262 | The same of the specification, for any hash |
| RadiusPassword.ShownHidden | healthcheck/radius.go:241-263 | Showing undoes hiding, for any hash |
| RadiusPassword.HiddenShown | healthcheck/radius.go:241-263 | And the other way round |
| RadiusPassword.PaddedIs | healthcheck/radius.go:243-248 | The padded password is the password and fewer than 16 zeros, or its first 128 octets |
| RateLimit.RateLimitVS | engine/config/notifier.go:214-260 | In any order: up to ten surplus vservers deleted and nothing else changed, or else the target but for missing vservers beyond ten |
| RateLimit.Converges | engine/config/notifier.go:189-260 | The target is reached within ceil(surplus/10) + max(1, ceil(missing/10)) rounds, and kept |
| RateLimit.SmallSteps | engine/config/notifier.go:211-260 | No round both adds and deletes, and none changes more than ten names |
| RateLimit.FixpointIff | engine/config/notifier.go:214-260 | A round changes nothing exactly if the target is reached |
| ClusterConfig.PrioritiesDistinctIff | engine/config/config.go:361-373 | All in 1 to 255 and strictly falling exactly up to 255 nodes |
| ClusterConfig.PrioritiesCollide | engine/config/config.go:361-373 | Beyond 255 nodes two share a priority |
| ClusterConfig.LoadVserver | engine/config/config.go:446-566 | Entries, backends and checks of the protobuf, exactly its addresses as VIPs typed by the networks, enabled in production and under test; meets what the engine relies on exactly if a firewall-mark vserver has a supported entry |
| ClusterConfig.LoadEntries | engine/config/config.go:463-533 | The first supported entry of each port and protocol, with high raised to low |
| ClusterConfig.LoadedIs | engine/config/config.go:463-533 | Field by field what is loaded of an entry: port cut to 16 bits, high raised to low, all else as it is |
| ClusterConfig.FirstChecksAre | engine/config/config.go:485-532 | A check name is kept exactly if some check has it, with the first such check |
| ClusterConfig.LoadBackends | engine/config/config.go:534-545 | The first backend of each name, and an enabled one is in service |
| ClusterConfig.LoadedBackendIs | engine/config/config.go:534-545 | Weight cut to 32 bits; enabled exactly in production and under test, in service exactly unless proposed or being built |

## Left out

- Services, destinations and checks are values in the maps of their vserver, updated in place there; references between them are keys, so sharing of one object under two keys is not captured.
- Only one vserver's share of the kernel state is modelled: two vservers on one address, and `updateVLANs` calling into a vserver from the manager, are not.
- Vservers.Vserver.Run: events of one vserver are taken one at a time; a configuration that starts a disabled vserver over with something forced up, and the failing updates in place above, end the runs covered.
- A mark once drawn is held until the vserver quits, as in the source: one that gives up marks keeps its mark rules, and `AsConfigured.RulesAreConfigured` states marks by those held.
- Statistics, logging, status times, warnings and access lists.
- Data races and queues between goroutines other than the sync session and the sync client; handlers are atomic.
- Watermarks are exact reals, not 32-bit floats.
- 64-bit wrap-around of healthcheck and session ids, and overflow of time.Duration for intervals beyond a year.
- Healthchecks.HealthcheckManager.NewChecker: which checkers can be made is a predicate of the key; the settings of each type are not modelled.
- Vrrp.EveryRun: timing is not modelled, so nothing is said about how soon a node leads; adverts of other versions or router ids are not modelled.
- VrrpNode.Node.RunOnce: the main loop and its sender meet at once; their interleaving is in `Vrrp`.
- SyncSession.Server.Poll: runs undisturbed here; its interleaving is in the steps of `SyncSession`. Expiry and removal of sessions, and replies lost on the wire, are not modelled.
- Rules of iptables outside the service addresses; order in the tables other than filter.
- ClusterConfig.AssignPriorities: the sort by IPv4 address is taken as done.
- ClusterConfig.LoadVserver: names of healthchecks are taken as given, not made from type and port.
- RateLimit.RateLimitVS: pulling, comparing and saving configurations, and a full notification channel, are not modelled.
- The command line, IPC and RPC plumbing, netlink, ipvs and the rest of the NCC, quagga, the watchdog, and the other healthcheckers.
