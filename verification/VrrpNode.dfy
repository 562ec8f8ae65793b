/** The timers of a VRRP node (sections 5.2.7 and 6.1 of RFC 5798), and its main loop. Times are in nanoseconds. */
module VrrpNode {
  import opened Types
  import opened Vrrp

  const MILLISECOND := 1_000_000

  /** How long a backup waits for an advert before it takes over. */
  function MasterDown(priority: nat, interval: nat): nat
    requires priority <= 255
  {
    3 * interval + (256 - priority) * interval / 256
  }

  /** An interval in centiseconds, cut to 16 bits. */
  function AdvertInt(interval: nat): nat {
    interval / MILLISECOND / 10 % 0x1_0000
  }

  /** The interval an advert states; the product is cut to 16 bits. */
  function IntervalOf(advertInt: nat): nat {
    MILLISECOND * (10 * advertInt % 0x1_0000)
  }

  lemma {:induction false} MulUp(a: nat, b: nat, c: nat)
    requires a <= b
    ensures a * c <= b * c
  {
  }

  lemma MasterDownBounds(priority: nat, interval: nat)
    requires 1 <= priority <= 255
    ensures 3 * interval <= MasterDown(priority, interval) <= 4 * interval
    ensures interval > 0 ==> MasterDown(priority, interval) < 4 * interval
    ensures var skew := MasterDown(priority, interval) - 3 * interval;
            256 * skew <= (256 - priority) * interval < 256 * skew + 256
  {
    MulUp(256 - priority, 255, interval);
  }

  /** A higher priority never waits longer. */
  lemma MasterDownMonotone(p: nat, q: nat, interval: nat)
    requires p <= q <= 255
    ensures MasterDown(q, interval) <= MasterDown(p, interval)
    ensures p < q && interval >= 255 && p > 0 ==> MasterDown(q, interval) < MasterDown(p, interval)
  {
    MulUp(256 - q, 256 - p, interval);
    if 0 < p < q && interval >= 255 {
      SkewGrows(256 - q, interval);
      MulUp(256 - q + 1, 256 - p, interval);
    }
  }

  lemma SkewGrows(k: nat, interval: nat)
    requires 1 <= k < 255 && interval >= 255
    ensures k * interval / 256 < (k + 1) * interval / 256
  {
    var w, r := interval / 256, interval % 256;
    assert k * interval == 256 * (k * w) + k * r by {
      assert interval == 256 * w + r;
    }
    assert (k + 1) * interval == k * interval + interval;
    if w == 0 {
      assert r == 255 && k * r == 256 * (k - 1) + (256 - k);
      assert k * interval / 256 == k - 1;
    }
  }

  /** Backups of different priorities wait for different times exactly from 255 ns on. */
  lemma StrictIff(interval: nat)
    ensures (forall p, q :: 1 <= p < q <= 255 ==> MasterDown(q, interval) < MasterDown(p, interval)) <==>
            interval >= 255
  {
    if interval >= 255 {
      forall p, q | 1 <= p < q <= 255
        ensures MasterDown(q, interval) < MasterDown(p, interval)
      {
        MasterDownMonotone(p, q, interval);
      }
    }
    if forall p, q :: 1 <= p < q <= 255 ==> MasterDown(q, interval) < MasterDown(p, interval) {
      Climb(interval, 1);
      assert 255 * interval / 256 >= 254;
    }
  }

  lemma {:induction false} Climb(interval: nat, p: nat)
    requires forall p, q :: 1 <= p < q <= 255 ==> MasterDown(q, interval) < MasterDown(p, interval)
    requires 1 <= p <= 255
    ensures (256 - p) * interval / 256 >= 255 - p
    decreases 255 - p
  {
    if p < 255 {
      Climb(interval, p + 1);
      assert MasterDown(p + 1, interval) < MasterDown(p, interval);
    }
  }

  /** The peer learns the interval, rounded down to 10 ms, exactly below 65.54 s. */
  lemma IntervalSurvivesIff(interval: nat)
    ensures IntervalOf(AdvertInt(interval)) == interval - interval % (10 * MILLISECOND) <==>
            interval < 65_540 * MILLISECOND
  {
    var cs := interval / (10 * MILLISECOND);
    assert AdvertInt(interval) == cs % 0x1_0000;
    assert interval == 10 * MILLISECOND * cs + interval % (10 * MILLISECOND);
    CentisecondsWrap(cs);
  }

  lemma CentisecondsWrap(cs: nat)
    ensures IntervalOf(cs % 0x1_0000) == MILLISECOND * (10 * cs % 0x1_0000)
    ensures 10 * cs % 0x1_0000 == 10 * cs <==> cs < 6554
  {
    var q, r := cs / 0x1_0000, cs % 0x1_0000;
    assert 10 * cs == 0x1_0000 * (10 * q) + 10 * r;
    ModShift(10 * r, 10 * q);
  }

  lemma ModShift(x: nat, k: nat)
    ensures (0x1_0000 * k + x) % 0x1_0000 == x % 0x1_0000
  {
  }

  // The main loop.

  datatype Packet = Packet(priority: nat, advertInt: nat)

  /** What the select of the main loop finds ready. */
  datatype Input = Received | TimerFired | ShutdownAsked | ErrorTaken

  function QueueOf(x: Side, ps: seq<Packet>): seq<Advert> {
    seq(|ps|, i requires 0 <= i < |ps| => Advert(x.Other(), ps[i].priority))
  }

  lemma QueueRest(x: Side, ps: seq<Packet>)
    ensures QueueOf(x, ps) == [] <==> ps == []
    ensures ps != [] ==>
              QueueOf(x, ps)[0] == Advert(x.Other(), ps[0].priority) && QueueOf(x, ps)[1..] == QueueOf(x, ps[1..])
  {
  }

  /** Runs what the main loop has decided to its end, with the sender taking its signal. */
  function Completed(n: Vrrp.Node): Vrrp.Node {
    match n.phase
    case Rising => n.(phase := Leader)
    case Yielding => n.(phase := Backup, senders := if n.senders > 0 then n.senders - 1 else 0)
    case Closing => n.(phase := Down, senders := if n.senders > 0 then n.senders - 1 else 0, farewell := true)
    case _ => n
  }

  /** Completing is a run of the node's own steps. */
  lemma CompletedRuns(cfg: NodeConfig, n: Vrrp.Node, x: Side)
    requires n.senders > 0
    ensures n.phase.Rising? ==> Move(cfg, n, Lead(x)) == Some(Completed(n))
    ensures n.phase.Yielding? || n.phase.Closing? ==>
              var stopped := Move(cfg, n, StopSender(x));
              stopped.Some? && Move(cfg, stopped.value, Settle(x)) == Some(Completed(n))
  {
  }

  function StepFor(x: Side, input: Input, queued: bool): Step {
    match input
    case Received => Handle(x)
    case TimerFired => if queued then Handle(x) else TimeOut(x)
    case ShutdownAsked => Vrrp.Shutdown(x)
    case ErrorTaken => Fail(x)
  }

  class Node {
    const side: Side
    const cfg: NodeConfig
    const interval: nat
    var state: HaState
    var recv: seq<Packet>
    var senders: nat
    var farewell: bool
    var masterDown: nat
    var lastMasterAdvert: Option<nat>
    ghost var phase: Phase
    ghost var closed: bool

    ghost predicate Valid()
      reads this
    {
      && cfg.priority <= 255
      && (state.BACKUP? <==> phase.Backup? || phase == Failed(false)) &&
         (state.LEADER? <==> phase.Leader? || phase == Failed(true))
      && (state.SHUTDOWN? <==> phase.Down?)
      && (phase.Leader? ==> senders == 1) && (phase.Backup? ==> senders == 0)
    }

    ghost function View(): Vrrp.Node
      reads this
    {
      Vrrp.Node(phase, QueueOf(side, recv), senders, farewell, closed)
    }

    constructor (side: Side, cfg: NodeConfig, interval: nat)
      requires cfg.priority <= 255
      ensures Valid() && View() == Vrrp.FRESH && masterDown == MasterDown(cfg.priority, interval) &&
              lastMasterAdvert.None?
      ensures this.side == side && this.cfg == cfg && this.interval == interval
    {
      this.side, this.cfg, this.interval := side, cfg, interval;
      state, recv, senders, farewell := BACKUP, [], 0, false;
      masterDown, lastMasterAdvert := MasterDown(cfg.priority, interval), None;
      phase, closed := Backup, false;
    }

    method ResetMasterDownInterval(advertInterval: nat)
      requires cfg.priority <= 255
      modifies `masterDown
      ensures masterDown == MasterDown(cfg.priority, advertInterval)
    {
      var skew := (256 - cfg.priority) * advertInterval / 256;
      var down := 3 * advertInterval + skew;
      if down != masterDown {
        masterDown := down;
      }
    }

    /** The time left until the master is taken for dead, at the moment now. */
    method Remaining(now: nat) returns (remaining: nat)
      requires lastMasterAdvert.Some? ==> lastMasterAdvert.value <= now
      ensures lastMasterAdvert.None? ==> remaining == masterDown
      ensures lastMasterAdvert.Some? ==>
                && (remaining > 0 ==> now + remaining == lastMasterAdvert.value + masterDown)
                && (remaining == 0 <==> now >= lastMasterAdvert.value + masterDown)
    {
      remaining := masterDown;
      if lastMasterAdvert.Some? {
        var elapsed := now - lastMasterAdvert.value;
        remaining := if masterDown < elapsed then 0 else masterDown - elapsed;
      }
    }

    /** An advert either makes the backup lead, and its timer stands, or restarts the timer from the stated interval. */
    method BackupHandleAdvertisement(p: Packet, now: nat) returns (s: HaState)
      requires cfg.priority <= 255
      modifies `masterDown, `lastMasterAdvert
      ensures s == if p.priority == 0 || (cfg.preempt && p.priority < cfg.priority) then LEADER else BACKUP
      ensures s.LEADER? ==> masterDown == old(masterDown) && lastMasterAdvert == old(lastMasterAdvert)
      ensures s.BACKUP? ==>
              masterDown == MasterDown(cfg.priority, IntervalOf(p.advertInt)) && lastMasterAdvert == Some(now)
    {
      if p.priority == 0 {
        return LEADER;
      }
      if cfg.preempt && p.priority < cfg.priority {
        return LEADER;
      }
      ResetMasterDownInterval(MILLISECOND * (10 * p.advertInt % 0x1_0000));
      lastMasterAdvert := Some(now);
      return BACKUP;
    }

    method DoBackupTasks(input: Input, now: nat) returns (s: HaState)
      requires cfg.priority <= 255 && (input.Received? ==> recv != [])
      modifies `recv, `masterDown, `lastMasterAdvert
      ensures recv == if StepFor(side, input, old(recv) != []).Handle? then old(recv)[1..] else old(recv)
      ensures s == if input.ShutdownAsked? then SHUTDOWN
                   else if input.ErrorTaken? then ERROR
                   else if old(recv) == [] || old(recv)[0].priority == 0 ||
                       (cfg.preempt && old(recv)[0].priority < cfg.priority) then LEADER
                   else BACKUP
      ensures s.BACKUP? ==>
                lastMasterAdvert == Some(now) &&
                    masterDown == MasterDown(cfg.priority, IntervalOf(old(recv)[0].advertInt))
    {
      match input
      case Received =>
        var p := recv[0];
        recv := recv[1..];
        s := BackupHandleAdvertisement(p, now);
      case ShutdownAsked => s := SHUTDOWN;
      case ErrorTaken => s := ERROR;
      case TimerFired =>
        if recv != [] {
          var p := recv[0];
          recv := recv[1..];
          s := BackupHandleAdvertisement(p, now);
        } else {
          s := LEADER;
        }
    }

    method DoMasterTasks(input: Input, now: nat) returns (s: HaState)
      requires (input.Received? ==> recv != []) && !input.TimerFired?
      modifies `recv, `lastMasterAdvert
      ensures recv == if input.Received? then old(recv)[1..] else old(recv)
      ensures s == if input.ShutdownAsked? then SHUTDOWN
                   else if input.ErrorTaken? then ERROR
                   else if old(recv)[0].priority > cfg.priority || (old(recv)[0].priority == cfg.priority &&
                       cfg.local.Some? && cfg.remote.Some? && Above(cfg.remote.value, cfg.local.value)) then BACKUP
                   else LEADER
      ensures lastMasterAdvert == if s.BACKUP? then Some(now) else old(lastMasterAdvert)
    {
      match input
      case Received =>
        var p := recv[0];
        recv := recv[1..];
        if p.priority == cfg.priority {
          if cfg.local.Some? && cfg.remote.Some? && Above(cfg.remote.value, cfg.local.value) {
            lastMasterAdvert := Some(now);
            return BACKUP;
          }
          return LEADER;
        }
        if p.priority > cfg.priority {
          lastMasterAdvert := Some(now);
          return BACKUP;
        }
        s := LEADER;
      case ShutdownAsked => s := SHUTDOWN;
      case ErrorTaken => s := ERROR;
    }

    method BecomeMaster()
      modifies `senders, `state, `phase
      ensures senders == old(senders) + 1 && state.LEADER? && phase.Leader?
    {
      senders := senders + 1;
      state, phase := LEADER, Leader;
    }

    method BecomeBackup()
      requires senders > 0
      modifies `senders, `state, `phase
      ensures senders == old(senders) - 1 && state.BACKUP? && phase.Backup?
    {
      senders := senders - 1;
      state, phase := BACKUP, Backup;
    }

    method BecomeShutdown()
      requires state.LEADER? ==> senders > 0
      modifies `senders, `state, `phase, `farewell, `closed
      ensures state.SHUTDOWN? && phase.Down?
      ensures if old(state).LEADER? then senders == old(senders) - 1 && farewell && closed
              else senders == old(senders) && farewell == old(farewell) && closed == old(closed)
    {
      if state.LEADER? {
        senders, farewell, closed := senders - 1, true, true;
      }
      state, phase := SHUTDOWN, Down;
    }

    /** One turn of the main loop takes the node's own step for what is ready, and completes it. */
    method RunOnce(input: Input, now: nat) returns (ok: bool)
      requires Valid() && (phase.Backup? || phase.Leader?)
      requires (input.Received? ==> recv != []) && (input.TimerFired? ==> phase.Backup?)
      modifies this
      ensures Valid() && (ok <==> !input.ErrorTaken?)
      ensures var moved := Move(cfg, old(View()), StepFor(side, input, old(recv) != []));
              moved.Some? && View() == Completed(moved.value)
      ensures ok && state.BACKUP? ==> lastMasterAdvert == Some(now)
    {
      hide MasterDown, QueueOf, Above;
      QueueRest(side, recv);
      var s: HaState;
      ok := true;
      if state.BACKUP? {
        s := DoBackupTasks(input, now);
        if s.LEADER? {
          BecomeMaster();
        } else if s.SHUTDOWN? {
          BecomeShutdown();
        } else if !s.BACKUP? {
          phase, ok := Failed(false), false;
        }
      } else {
        s := DoMasterTasks(input, now);
        if s.BACKUP? {
          BecomeBackup();
        } else if s.SHUTDOWN? {
          BecomeShutdown();
        } else if !s.LEADER? {
          phase, ok := Failed(true), false;
        }
      }
    }
  }
}
