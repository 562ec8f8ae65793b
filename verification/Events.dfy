/** The events a vserver reacts to, and what a run of them must respect. */
module Events {
  import opened Types
  import opened Propagation
  import opened Refinement
  import opened VserverConfig
  import opened CheckExpansion
  import opened AsConfigured

  datatype Event =
    | NewConfig(cfg: Option<Config>)
    | CheckReport(c: CheckKey, state: CheckState)
    | OverrideVserver(os: OverrideState)
    | OverrideBackend(hostname: string, os: OverrideState)

  /** The families in which the configurations of events have addresses. */
  function FamiliesOf(e: Event): set<AF> {
    if e.NewConfig? && e.cfg.Some? then Families(e.cfg.value) else {}
  }

  function FamiliesOfAll(es: seq<Event>): set<AF> {
    if es == [] then {} else FamiliesOfAll(es[..|es| - 1]) + FamiliesOf(es[|es| - 1])
  }

  /** What decides how an event is taken: the configuration and vserver override in force, the families whose
      firewall-mark service has no destination map (`bare`), and whether a backend has been enabled by an override while
      the vserver was disabled (`forced`). */
  datatype Mode = Mode(config: Option<Config>, os: OverrideState, bare: set<AF>, forced: bool) {
    predicate Enabled() {
      VserverEnabled(config, os)
    }

    /** A configuration that updates what runs, rather than starting over. */
    predicate InPlace(cfg: Config) {
      Enabled() && VserverEnabled(Some(cfg), os) && SameLayout(config.value, cfg)
    }

    /** A vserver override that enables or disables the vserver. */
    predicate Toggles(os': OverrideState) {
      VserverEnabled(config, os') != Enabled()
    }

    /** An event that initialises the vserver again. */
    predicate StartsOver(e: Event) {
      match e
      case NewConfig(cfg) => cfg.Some? && !InPlace(cfg.value)
      case OverrideVserver(os) => Toggles(os)
      case _ => false
    }

    function After(e: Event): Mode {
      match e
      case NewConfig(cfg) =>
        if cfg.None? then this
        else if InPlace(cfg.value) then Mode(cfg, os, BareAfter(config.value, cfg.value, bare), forced)
        else Mode(cfg, os, {}, false)
      case OverrideVserver(os') => if Toggles(os') then Mode(config, os', {}, false) else this.(os := os')
      case OverrideBackend(_, os') => this.(forced := forced || (os'.OverrideEnable? && config.Some? && !Enabled()))
      case CheckReport(_, _) => this
    }

    /** An update in place drops no address of a backend. */
    ghost predicate Gentle(e: Event) {
      e.NewConfig? && e.cfg.Some? && InPlace(e.cfg.value) ==> KeepsBackends(config.value, e.cfg.value)
    }
  }

  function ModeAfter(mode: Mode, es: seq<Event>): Mode {
    if es == [] then mode else ModeAfter(mode, es[..|es| - 1]).After(es[|es| - 1])
  }

  /** What an event must respect: configurations come from the loader, an update in place neither retypes the VIP of an
      address with services nor gives a destination to a service without a map for it, and a disabled vserver starts
      over only with nothing forced up. */
  ghost predicate Admissible(mode: Mode, e: Event, anycast: set<IP>) {
    && (mode.StartsOver(e) && !mode.Enabled() ==> !mode.forced)
    && (e.NewConfig? && e.cfg.Some? ==> ConfigOK(e.cfg.value, anycast))
    && (e.NewConfig? && e.cfg.Some? && mode.InPlace(e.cfg.value) ==>
        UpdateOK(mode.config.value, e.cfg.value, mode.bare))
  }

  ghost predicate RunOK(mode: Mode, es: seq<Event>, anycast: set<IP>) {
    forall i | 0 <= i < |es| :: Admissible(ModeAfter(mode, es[..i]), es[i], anycast)
  }

  /** Whether every healthy service is sure to have a healthy destination after a run of events, given whether it had
      before: starting over makes it so, and only an update in place that drops a backend address can undo it. */
  ghost function SureAfter(sure: bool, mode: Mode, es: seq<Event>): bool {
    if es == [] then sure
    else
      var m, e := ModeAfter(mode, es[..|es| - 1]), es[|es| - 1];
      m.StartsOver(e) || (SureAfter(sure, mode, es[..|es| - 1]) && m.Gentle(e))
  }

  /** In particular, without new configurations it stays so. */
  lemma {:induction false} SureWithoutConfigs(mode: Mode, es: seq<Event>)
    requires forall e | e in es :: !e.NewConfig?
    ensures SureAfter(true, mode, es)
  {
    if es != [] {
      assert es[|es| - 1] in es;
      SureWithoutConfigs(mode, es[..|es| - 1]);
    }
  }

  // ---- Runs of notifications ----

  datatype Report = Report(c: CheckKey, state: CheckState)

  function Reported(checks: map<CheckKey, Check>, r: Report): map<CheckKey, Check> {
    if r.c in checks then checks[r.c := checks[r.c].(state := r.state)] else checks
  }

  /** The checks and the recomputed services after a sequence of reports. */
  function ReplayReports(svcs: Services, checks: map<CheckKey, Check>, rs: seq<Report>, anycast: set<IP>)
    : (Services, map<CheckKey, Check>)
  {
    if rs == [] then (svcs, checks)
    else
      var before := ReplayReports(svcs, checks, rs[..|rs| - 1], anycast);
      var now := Reported(before.1, rs[|rs| - 1]);
      (Recompute(before.0, now, anycast), now)
  }

  /** The last state reported for a check, or the one it started with. */
  function LastState(checks: map<CheckKey, Check>, rs: seq<Report>, c: CheckKey): CheckState
    requires c in checks
  {
    if rs == [] then checks[c].state
    else if rs[|rs| - 1].c == c then rs[|rs| - 1].state
    else LastState(checks, rs[..|rs| - 1], c)
  }

  /** The checks after a sequence of reports are the same checks with the last states reported. */
  lemma {:induction false} ReportsLast(svcs: Services, checks: map<CheckKey, Check>, rs: seq<Report>, anycast: set<IP>)
    ensures var now := ReplayReports(svcs, checks, rs, anycast).1;
            && now.Keys == checks.Keys
            && forall c | c in checks :: now[c] == checks[c].(state := LastState(checks, rs, c))
  {
    hide Recompute;
    if rs != [] {
      ReportsLast(svcs, checks, rs[..|rs| - 1], anycast);
    }
  }

  lemma {:induction false} ReplayExact(svcs: Services, checks: map<CheckKey, Check>, rs: seq<Report>, anycast: set<IP>)
    requires Exact(svcs, checks)
    ensures var end := ReplayReports(svcs, checks, rs, anycast); Exact(end.0, end.1)
  {
    hide Exact, Recompute;
    if rs != [] {
      ReplayExact(svcs, checks, rs[..|rs| - 1], anycast);
      var before := ReplayReports(svcs, checks, rs[..|rs| - 1], anycast);
      ExactRecompute(before.0, before.1, Reported(before.1, rs[|rs| - 1]), anycast);
    }
  }

  lemma {:induction false} ReplayShapes(svcs: Services, checks: map<CheckKey, Check>, rs: seq<Report>, anycast: set<IP>)
    ensures SameShapes(svcs, ReplayReports(svcs, checks, rs, anycast).0)
  {
    hide Recompute, Shape;
    if rs != [] {
      ReplayShapes(svcs, checks, rs[..|rs| - 1], anycast);
      var before := ReplayReports(svcs, checks, rs[..|rs| - 1], anycast);
      RecomputeShapes(before.0, Reported(before.1, rs[|rs| - 1]), anycast);
    }
  }

  lemma ReportedHealth(svcs: Services, checks: map<CheckKey, Check>, rs: seq<Report>, anycast: set<IP>,
                       k: ServiceKey, ip: IP)
    requires Exact(svcs, checks)
    requires var end := ReplayReports(svcs, checks, rs, anycast).0; k in end && ip in end[k].dests
    ensures var d := ReplayReports(svcs, checks, rs, anycast).0[k].dests[ip];
            d.healthy <==>
              d.backend.enabled && d.checks != [] && forall c | c in d.checks ::
                  c in checks && LastState(checks, rs, c) == Healthy
  {
    hide Recompute, ServiceHealth;
    ReplayExact(svcs, checks, rs, anycast);
    ReportsLast(svcs, checks, rs, anycast);
    var end := ReplayReports(svcs, checks, rs, anycast);
    assert MarkDests(end.0[k], end.1) == end.0[k];
    assert end.0[k].dests[ip] == MarkDest(end.0[k].dests[ip], end.1);
  }

  /** After any sequence of reports a destination is healthy exactly when its backend is enabled, the configuration asks
      for checks of it, and each of those last reported healthy. */
  lemma HealthByLastReports(cfg: Config, fwm: map<AF, nat>, anycast: set<IP>, svcs: Services,
                            checks: map<CheckKey, Check>, rs: seq<Report>, k: ServiceKey, ip: IP)
    requires ConfigOK(cfg, anycast) && MarksOK(cfg, fwm) && Reflects(cfg, fwm, anycast, svcs) && Checked(cfg, svcs, {})
    requires Exact(svcs, checks) && k in svcs && ip in svcs[k].dests
    ensures var end := ReplayReports(svcs, checks, rs, anycast).0;
            && k in end && ip in end[k].dests
            && var d := end[k].dests[ip];
            && (exists b :: BackendFor(cfg, k.af, ip, b) && d.backend == cfg.backends[b])
            && (d.healthy <==>
                  && d.backend.enabled && (exists c :: CheckFor(cfg, k, ip, c))
                  && forall c | CheckFor(cfg, k, ip, c) :: c in checks && LastState(checks, rs, c) == Healthy)
  {
    hide ConfigOK, MarksOK, Reflects, Checked, Exact, CheckFor, BackendFor, SameShapes, ReplayReports;
    var end := ReplayReports(svcs, checks, rs, anycast).0;
    ReplayShapes(svcs, checks, rs, anycast);
    ShapesConfigured(cfg, fwm, anycast, svcs, end);
    RecordsAre(cfg, fwm, anycast, end);
    assert k in end && ip in end[k].dests by { ShapesDests(svcs, end, k); }
    ReportedHealth(svcs, checks, rs, anycast, k, ip);
    assert ServiceAsConfigured(cfg, k, end[k]);
    var d := end[k].dests[ip];
    assert d.checks != [] ==> d.checks[0] in d.checks;
  }

  // ---- Destinations behind the routes ----

  /** If event i is gentle, with every healthy service sure to have a healthy destination before it, then that was still
      so at each of its commands. */
  ghost predicate EventServed(sure: bool, mode: Mode, es: seq<Event>, views: seq<View>, ends: seq<nat>, i: nat)
    requires i < |es| && |ends| == |es| + 1
  {
    && ends[i] <= ends[i + 1] <= |views|
    && (SureAfter(sure, mode, es[..i]) && ModeAfter(mode, es[..i]).Gentle(es[i]) ==>
          forall n | ends[i] <= n < ends[i + 1] :: views[n].served)
  }

  ghost predicate EventsServed(sure: bool, mode: Mode, es: seq<Event>, views: seq<View>, ends: seq<nat>) {
    |ends| == |es| + 1 && forall i | 0 <= i < |es| :: EventServed(sure, mode, es, views, ends, i)
  }

  lemma NoEvents(sure: bool, mode: Mode, views: seq<View>, ends: seq<nat>)
    requires |ends| == 1
    ensures EventsServed(sure, mode, [], views, ends) && SureAfter(sure, mode, []) == sure
  {
  }

  lemma SureStep(sure: bool, mode: Mode, es: seq<Event>, i: nat)
    requires i < |es|
    ensures var m := ModeAfter(mode, es[..i]);
            SureAfter(sure, mode, es[..i + 1]) ==
                (m.StartsOver(es[i]) || (SureAfter(sure, mode, es[..i]) && m.Gentle(es[i])))
  {
    assert es[..i + 1][..i] == es[..i];
  }

  lemma ServedStep(sure: bool, mode: Mode, es: seq<Event>, i: nat, before: seq<View>, views: seq<View>, ends: seq<nat>,
                   populated: bool, populated': bool)
    requires i < |es| && |ends| == i + 1 && ends[i] == |before| && before <= views
    requires EventsServed(sure, mode, es[..i], before, ends)
    requires SureAfter(sure, mode, es[..i]) ==> populated
    requires populated && populated' ==> ServedFrom(views, |before|)
    requires ModeAfter(mode, es[..i]).Gentle(es[i]) && populated ==> populated'
    ensures EventsServed(sure, mode, es[..i + 1], views, ends + [|views|])
  {
    hide SureAfter, ModeAfter, Mode.Gentle;
    var es', ends' := es[..i + 1], ends + [|views|];
    forall j | 0 <= j < |es'|
      ensures EventServed(sure, mode, es', views, ends', j)
    {
      assert es'[..j] == es[..j];
      if j < i {
        assert es[..i][..j] == es[..j] && EventServed(sure, mode, es[..i], before, ends, j);
      }
    }
  }

  /** What is known after the events so far: where the commands of each end, that destinations stand behind routes where
      they are sure to, and the families of the configurations. */
  ghost predicate SoFar(sure: bool, mode: Mode, es: seq<Event>, views: seq<View>, views': seq<View>, ends: seq<nat>,
                        families: set<AF>, families': set<AF>, populated: bool)
  {
    && views <= views' && |ends| == |es| + 1 && ends[0] == |views| && ends[|es|] == |views'|
    && (SureAfter(sure, mode, es) ==> populated)
    && EventsServed(sure, mode, es, views', ends)
    && families' == families + FamiliesOfAll(es)
  }

  lemma SoFarNone(mode: Mode, views: seq<View>, families: set<AF>, populated: bool)
    ensures SoFar(populated, mode, [], views, views, [|views|], families, families, populated)
  {
    NoEvents(populated, mode, views, [|views|]);
  }

  lemma SoFarStep(sure: bool, mode: Mode, es: seq<Event>, i: nat, views: seq<View>, before: seq<View>,
                  views': seq<View>, ends: seq<nat>, families: set<AF>, were: set<AF>, families': set<AF>,
                  populated: bool, populated': bool)
    requires i < |es| && SoFar(sure, mode, es[..i], views, before, ends, families, were, populated)
    requires before <= views' && families' == were + FamiliesOf(es[i])
    requires populated && populated' ==> ServedFrom(views', |before|)
    requires ModeAfter(mode, es[..i]).StartsOver(es[i]) || (populated && ModeAfter(mode, es[..i]).Gentle(es[i])) ==>
               populated'
    ensures SoFar(sure, mode, es[..i + 1], views, views', ends + [|views'|], families, families', populated')
  {
    hide SureAfter, EventsServed, ServedFrom, Mode.Gentle, Mode.StartsOver, FamiliesOf;
    assert es[..i + 1][..i] == es[..i];
    SureStep(sure, mode, es, i);
    ServedStep(sure, mode, es, i, before, views', ends, populated, populated');
  }

  lemma SoFarSays(sure: bool, mode: Mode, es: seq<Event>, views: seq<View>, views': seq<View>, ends: seq<nat>,
                  families: set<AF>, families': set<AF>, populated: bool)
    requires SoFar(sure, mode, es, views, views', ends, families, families', populated)
    ensures views <= views' && |ends| == |es| + 1 && ends[0] == |views| && ends[|es|] == |views'|
    ensures EventsServed(sure, mode, es, views', ends) && (SureAfter(sure, mode, es) ==> populated)
    ensures families' == families + FamiliesOfAll(es)
  {
  }
}
