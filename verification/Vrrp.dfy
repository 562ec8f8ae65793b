/** Two nodes that settle between them who leads, after VRRP version 3 (RFC 5798). Adverts may be delayed, lost,
    repeated and reordered at will, and the master-down timer may fire at any moment; what holds here holds whatever the
    timing. */
module Vrrp {
  import opened Types

  const RECV_QUEUE := 20

  type Octets = seq<bv8>

  datatype NodeConfig = NodeConfig(priority: nat, preempt: bool, local: Option<Octets>, remote: Option<Octets>)

  /** Byte-wise comparison: the first difference decides, then the length. */
  predicate Above(x: Octets, y: Octets)
    decreases |x|
  {
    if x == [] then false
    else if y == [] then true
    else x[0] > y[0] || (x[0] == y[0] && Above(x[1..], y[1..]))
  }

  lemma {:induction false} AboveOneWay(x: Octets, y: Octets)
    ensures !(Above(x, y) && Above(y, x))
    ensures Above(x, y) || Above(y, x) || x == y
    decreases |x|
  {
    if x != [] && y != [] && x[0] == y[0] {
      AboveOneWay(x[1..], y[1..]);
      assert x == [x[0]] + x[1..] && y == [y[0]] + y[1..];
    }
  }

  /** The comparison in other words: one address runs out first, or they first differ in an octet that is greater. */
  lemma {:induction false} AboveIff(x: Octets, y: Octets)
    ensures Above(x, y) <==>
              || y < x
              || exists i :: 0 <= i < |x| && i < |y| && x[..i] == y[..i] && x[i] > y[i]
    decreases |x|
  {
    if x != [] && y != [] {
      AboveIff(x[1..], y[1..]);
      assert x[..0] == y[..0];
      forall i | 0 < i < |x| && i < |y| && x[..i] == y[..i]
        ensures x[0] == y[0]
      {
        assert x[..i][0] == y[..i][0];
      }
      if x[0] == y[0] {
        AboveTail(x, y);
      }
    }
  }

  lemma AboveTail(x: Octets, y: Octets)
    requires x != [] && y != [] && x[0] == y[0]
    ensures y < x <==> y[1..] < x[1..]
    ensures (exists i :: 0 <= i < |x| && i < |y| && x[..i] == y[..i] && x[i] > y[i]) <==>
              exists i :: 0 <= i < |x[1..]| && i < |y[1..]| && x[1..][..i] == y[1..][..i] && x[1..][i] > y[1..][i]
  {
    assert x == [x[0]] + x[1..] && y == [y[0]] + y[1..];
    if i :| 0 <= i < |x| && i < |y| && x[..i] == y[..i] && x[i] > y[i] {
      assert x[1..][..i - 1] == x[..i][1..] && y[1..][..i - 1] == y[..i][1..];
      assert x[1..][i - 1] > y[1..][i - 1];
    }
    if i :| 0 <= i < |x[1..]| && i < |y[1..]| && x[1..][..i] == y[1..][..i] && x[1..][i] > y[1..][i] {
      assert x[..i + 1] == [x[0]] + x[1..][..i] && y[..i + 1] == [y[0]] + y[1..][..i];
      assert x[i + 1] > y[i + 1];
    }
  }

  /** A leader steps down on an advert of this priority. */
  predicate Yields(cfg: NodeConfig, priority: nat) {
    if priority == cfg.priority then cfg.local.Some? && cfg.remote.Some? && Above(cfg.remote.value, cfg.local.value)
    else priority > cfg.priority
  }

  /** A backup takes over on an advert of this priority. */
  predicate Rises(cfg: NodeConfig, priority: nat) {
    priority == 0 || (cfg.preempt && priority < cfg.priority)
  }

  datatype Side = A | B {
    function Other(): Side { if A? then B else A }
  }

  datatype Advert = Advert(from: Side, priority: nat)

  datatype Phase =
    | Backup
    | Rising                            // has started a sender, has not yet noted that it leads
    | Leader
    | Yielding                          // waits for its sender to take the stop signal
    | Yielded
    | Closing                           // as Yielding, on the way to shutdown
    | Closed
    | Down                              // shut down
    | Failed(led: bool)                 // the main loop has returned an error, the process is about to exit
    | Gone
  {
    /** The phases with a running sender. */
    predicate Leads() { Rising? || Leader? || Yielding? || Closing? || (Failed? && led) }
  }

  datatype Node = Node(
    phase: Phase,
    queue: seq<Advert>,
    senders: nat,                       // senders that send an advert at every tick
    farewell: bool,                     // a stopped sender is about to send its last advert, of priority 0
    closed: bool)                       // history: has been asked to shut down while it led

  /** Both nodes, and every advert sent so far, in order. */
  datatype System = System(a: Node, b: Node, sent: seq<Advert>) {
    function At(x: Side): Node { if x.A? then a else b }

    function Put(x: Side, n: Node): System { if x.A? then this.(a := n) else this.(b := n) }
  }

  datatype Pair = Pair(a: NodeConfig, b: NodeConfig) {
    function Of(x: Side): NodeConfig { if x.A? then a else b }
  }

  const FRESH := Node(Backup, [], 0, false, false)

  datatype Step =
    | Deliver(x: Side, m: Advert)       // an advert of the peer reaches the queue
    | Handle(x: Side)                   // the main loop takes the next advert
    | TimeOut(x: Side)                  // the master-down timer fires, and no advert is queued
    | Shutdown(x: Side)
    | Fail(x: Side)                     // the main loop takes an error
    | Lead(x: Side)
    | StopSender(x: Side)               // the main loop and the sender meet
    | Settle(x: Side)                   // the node notes that it no longer leads
    | Tick(x: Side)                     // the sender sends an advert
    | Farewell(x: Side)                 // a stopped sender sends its last advert
    | Exit(x: Side)
    | Crash(x: Side)                    // sending or receiving fails while the main loop takes no error
    | Restart(x: Side)

  function Rise(n: Node): Node {
    n.(phase := Rising, senders := n.senders + 1)
  }

  function HandleHead(cfg: NodeConfig, n: Node): Node
    requires n.queue != []
  {
    var m, rest := n.queue[0].priority, n.(queue := n.queue[1..]);
    if n.phase.Backup? && Rises(cfg, m) then Rise(rest)
    else if n.phase.Leader? && Yields(cfg, m) then rest.(phase := Yielding)
    else rest
  }

  /** A step of one node's own; None where it is not possible. */
  function Move(cfg: NodeConfig, n: Node, a: Step): Option<Node> {
    match a
    case Deliver(_, m) => if |n.queue| < RECV_QUEUE then Some(n.(queue := n.queue + [m])) else None
    case Handle(_) => if (n.phase.Backup? || n.phase.Leader?) && n.queue != [] then Some(HandleHead(cfg, n)) else None
    case TimeOut(_) => if n.phase.Backup? && n.queue == [] then Some(Rise(n)) else None
    case Shutdown(_) =>
      if n.phase.Backup? then Some(n.(phase := Down))
      else if n.phase.Leader? then Some(n.(phase := Closing, closed := true))
      else None
    case Fail(_) => if n.phase.Backup? || n.phase.Leader? then Some(n.(phase := Failed(n.phase.Leader?))) else None
    case Lead(_) => if n.phase.Rising? then Some(n.(phase := Leader)) else None
    case StopSender(_) =>
      if n.senders == 0 then None
      else if n.phase.Yielding? then Some(n.(phase := Yielded, senders := n.senders - 1))
      else if n.phase.Closing? then Some(n.(phase := Closed, senders := n.senders - 1, farewell := true))
      else None
    case Settle(_) =>
      if n.phase.Yielded? then Some(n.(phase := Backup)) else if n.phase.Closed? then Some(n.(phase := Down)) else None
    case Tick(_) => if n.senders > 0 then Some(n) else None
    case Farewell(_) => if n.farewell then Some(n.(farewell := false)) else None
    case Exit(_) =>
      if n.phase.Failed? || n.phase.Down? then Some(n.(phase := Gone, senders := 0, farewell := false)) else None
    case Crash(_) => if n.phase.Gone? then None else Some(n.(phase := Gone, senders := 0, farewell := false))
    case Restart(_) => if n.phase.Gone? then Some(FRESH.(closed := n.closed)) else None
  }

  function Next(cs: Pair, y: System, a: Step): Option<System> {
    if a.Deliver? && (a.m !in y.sent || a.m.from == a.x) then None
    else
      var n := Move(cs.Of(a.x), y.At(a.x), a);
      if n.None? then None
      else
        var z := y.Put(a.x, n.value);
        if a.Tick? then Some(z.(sent := z.sent + [Advert(a.x, cs.Of(a.x).priority)]))
        else if a.Farewell? then Some(z.(sent := z.sent + [Advert(a.x, 0)]))
        else Some(z)
  }

  function Execute(cs: Pair, y: System, steps: seq<Step>): Option<System> {
    if steps == [] then Some(y)
    else
      var before := Execute(cs, y, steps[..|steps| - 1]);
      if before.None? then None else Next(cs, before.value, steps[|steps| - 1])
  }

  const BOOT := System(FRESH, FRESH, [])

  // What every step keeps.

  /** One sender while the node leads, none otherwise; queued adverts were sent by the peer. */
  predicate NodeOK(y: System, x: Side) {
    var n := y.At(x);
    && n.senders == (if n.phase.Leads() then 1 else 0)
    && (n.farewell || n.phase.Closing? || n.phase.Closed? ==> n.closed)
    && |n.queue| <= RECV_QUEUE
    && (forall m | m in n.queue :: m in y.sent && m.from == x.Other())
  }

  /** An advert carries its sender's priority, or 0 from a sender that has been asked to shut down. */
  predicate AdvertOK(cs: Pair, y: System, m: Advert) {
    m.priority == cs.Of(m.from).priority || (m.priority == 0 && y.At(m.from).closed)
  }

  predicate Inv(cs: Pair, y: System) {
    && NodeOK(y, A) && NodeOK(y, B)
    && (forall m | m in y.sent :: AdvertOK(cs, y, m))
  }

  /** What a step does to a node, and to the adverts sent. */
  lemma NextAt(cs: Pair, y: System, a: Step, x: Side)
    requires Next(cs, y, a).Some?
    ensures var z := Next(cs, y, a).value;
            && (a.x != x ==> z.At(x) == y.At(x))
            && (a.x == x ==> Move(cs.Of(x), y.At(x), a) == Some(z.At(x)))
            && (forall m | m in y.sent :: m in z.sent)
            && (a.Deliver? ==> a.m in y.sent && a.m.from != a.x)
  {
    hide Move;
  }

  lemma KeepsNode(cs: Pair, y: System, a: Step, x: Side)
    requires NodeOK(y, x) && Next(cs, y, a).Some?
    ensures NodeOK(Next(cs, y, a).value, x)
  {
    hide Next, Move;
    NextAt(cs, y, a, x);
    if a.x == x {
      MoveKeeps(cs.Of(x), y.At(x), a);
    }
  }

  /** A node's own step keeps its sender count, and queues nothing but what is delivered. */
  lemma MoveKeeps(cfg: NodeConfig, n: Node, a: Step)
    requires Move(cfg, n, a).Some? && n.senders == (if n.phase.Leads() then 1 else 0) && |n.queue| <= RECV_QUEUE
    requires n.farewell || n.phase.Closing? || n.phase.Closed? ==> n.closed
    ensures var m := Move(cfg, n, a).value;
            && m.senders == (if m.phase.Leads() then 1 else 0) && |m.queue| <= RECV_QUEUE
            && (m.farewell || m.phase.Closing? || m.phase.Closed? ==> m.closed)
            && (forall q | q in m.queue :: q in n.queue || (a.Deliver? && q == a.m))
            && (n.closed ==> m.closed)
  {
    hide Rises, Yields;
  }

  lemma KeepsInv(cs: Pair, y: System, a: Step)
    requires Inv(cs, y) && Next(cs, y, a).Some?
    ensures Inv(cs, Next(cs, y, a).value)
  {
    hide NodeOK, Next, AdvertOK;
    KeepsNode(cs, y, a, A);
    KeepsNode(cs, y, a, B);
    forall m | m in Next(cs, y, a).value.sent
      ensures AdvertOK(cs, Next(cs, y, a).value, m)
    {
      KeepsAdvert(cs, y, a, m);
    }
  }

  lemma KeepsAdvert(cs: Pair, y: System, a: Step, m: Advert)
    requires Inv(cs, y) && Next(cs, y, a).Some? && m in Next(cs, y, a).value.sent
    ensures AdvertOK(cs, Next(cs, y, a).value, m)
  {
    hide Rises, Yields;
    if m in y.sent {
      assert AdvertOK(cs, y, m);
    }
  }

  lemma {:induction false} RunKeepsInv(cs: Pair, y: System, steps: seq<Step>)
    requires Inv(cs, y) && Execute(cs, y, steps).Some?
    ensures Inv(cs, Execute(cs, y, steps).value)
  {
    hide Inv, Next;
    if steps != [] {
      RunKeepsInv(cs, y, steps[..|steps| - 1]);
      KeepsInv(cs, Execute(cs, y, steps[..|steps| - 1]).value, steps[|steps| - 1]);
    }
  }

  // Who gives way.

  /** No advert its peer may send makes this node step down. */
  predicate Prevails(cs: Pair, x: Side) {
    !Yields(cs.Of(x), cs.Of(x.Other()).priority) && !Yields(cs.Of(x), 0)
  }

  predicate Reciprocal(cs: Pair) {
    cs.a.local.Some? && cs.b.local.Some? && cs.a.remote == cs.b.local && cs.b.remote == cs.a.local
  }

  /** With distinct priorities the higher one prevails and the lower one does not; with equal priorities and each
      other's addresses, the node with the higher address prevails. */
  lemma WhoPrevails(cs: Pair, x: Side)
    requires cs.a.priority > 0 && cs.b.priority > 0
    ensures cs.Of(x).priority > cs.Of(x.Other()).priority ==> Prevails(cs, x) && !Prevails(cs, x.Other())
    ensures cs.a.priority == cs.b.priority && Reciprocal(cs) ==>
              (Prevails(cs, x) <==> !Above(cs.Of(x.Other()).local.value, cs.Of(x).local.value))
    ensures cs.a.priority == cs.b.priority && Reciprocal(cs) ==> Prevails(cs, A) || Prevails(cs, B)
  {
    if Reciprocal(cs) {
      AboveOneWay(cs.a.local.value, cs.b.local.value);
    }
  }

  /** Exactly when neither node prevails: equal priorities, and each takes its peer's address for the higher one. */
  lemma NobodyPrevailsIff(cs: Pair)
    requires cs.a.priority > 0 && cs.b.priority > 0
    ensures !Prevails(cs, A) && !Prevails(cs, B) <==>
              && cs.a.priority == cs.b.priority
              && cs.a.local.Some? && cs.a.remote.Some? && Above(cs.a.remote.value, cs.a.local.value)
              && cs.b.local.Some? && cs.b.remote.Some? && Above(cs.b.remote.value, cs.b.local.value)
  {
  }

  lemma ExecuteMore(cs: Pair, y: System, steps: seq<Step>, a: Step)
    ensures Execute(cs, y, steps + [a]) == if Execute(cs, y, steps).None? then None
            else Next(cs, Execute(cs, y, steps).value, a)
  {
    assert (steps + [a])[..|steps|] == steps;
  }

  /** Two nodes at 10.0.0.1 and 10.0.0.2 of equal priority that send to the group 224.0.0.18. */
  function GroupPair(): Pair {
    var group := Some([224 as bv8, 0, 0, 18]);
    Pair(NodeConfig(100, false, Some([10 as bv8, 0, 0, 1]), group),
         NodeConfig(100, false, Some([10 as bv8, 0, 0, 2]), group))
  }

  /** Both take over on a timeout. */
  const BOTH_LEAD := [TimeOut(A), Lead(A), TimeOut(B), Lead(B)]

  lemma BothLead(cs: Pair)
    ensures Execute(cs, BOOT, BOTH_LEAD) ==
            Some(System(FRESH.(phase := Leader, senders := 1), FRESH.(phase := Leader, senders := 1), []))
  {
    ExecuteMore(cs, BOOT, [], TimeOut(A));
    ExecuteMore(cs, BOOT, [TimeOut(A)], Lead(A));
    ExecuteMore(cs, BOOT, [TimeOut(A), Lead(A)], TimeOut(B));
    ExecuteMore(cs, BOOT, [TimeOut(A), Lead(A), TimeOut(B)], Lead(B));
    assert [] + [TimeOut(A)] == [TimeOut(A)];
    assert [TimeOut(A)] + [Lead(A)] == [TimeOut(A), Lead(A)];
    assert [TimeOut(A), Lead(A)] + [TimeOut(B)] == [TimeOut(A), Lead(A), TimeOut(B)];
    assert [TimeOut(A), Lead(A), TimeOut(B)] + [Lead(B)] == BOTH_LEAD;
  }

  function Leading(queue: seq<Advert>): Node {
    FRESH.(phase := Leader, senders := 1, queue := queue)
  }

  /** Each sends an advert, and the other receives it. */
  lemma EachHears(cs: Pair)
    requires cs.a.priority == cs.b.priority == 100
    ensures var m, n := Advert(A, 100), Advert(B, 100);
            && Next(cs, System(Leading([]), Leading([]), []), Tick(A)) == Some(System(Leading([]), Leading([]), [m]))
            && Next(cs, System(Leading([]), Leading([]), [m]), Tick(B)) ==
               Some(System(Leading([]), Leading([]), [m, n]))
            && Next(cs, System(Leading([]), Leading([]), [m, n]), Deliver(A, n)) ==
               Some(System(Leading([n]), Leading([]), [m, n]))
            && Next(cs, System(Leading([n]), Leading([]), [m, n]), Deliver(B, m)) ==
               Some(System(Leading([n]), Leading([m]), [m, n]))
  {
    var m, n := Advert(A, 100), Advert(B, 100);
    assert [] + [m] == [m] && [m] + [n] == [m, n] && [] + [n] == [n];
  }

  /** There is a run in which both lead, each hears of the other, and both step down. */
  lemma GroupAddressBothYield() returns (steps: seq<Step>)
    ensures Execute(GroupPair(), BOOT, steps).Some?
    ensures forall x :: Execute(GroupPair(), BOOT, steps).value.At(x).phase.Yielding?
  {
    var cs, m, n := GroupPair(), Advert(A, 100), Advert(B, 100);
    BothLead(cs);
    EachHears(cs);
    assert forall x :: Execute(cs, BOOT, BOTH_LEAD).value.At(x) == Leading([]);
    steps := BOTH_LEAD;
    hide Execute, Next;
    ExecuteMore(cs, BOOT, steps, Tick(A));
    steps := steps + [Tick(A)];
    ExecuteMore(cs, BOOT, steps, Tick(B));
    steps := steps + [Tick(B)];
    ExecuteMore(cs, BOOT, steps, Deliver(A, n));
    steps := steps + [Deliver(A, n)];
    ExecuteMore(cs, BOOT, steps, Deliver(B, m));
    steps := steps + [Deliver(B, m)];
    GroupYields();
    BothHandle(cs, System(Leading([n]), Leading([m]), [m, n]));
    ExecuteMore(cs, BOOT, steps, Handle(A));
    steps := steps + [Handle(A)];
    ExecuteMore(cs, BOOT, steps, Handle(B));
    steps := steps + [Handle(B)];
  }

  lemma BothHandle(cs: Pair, y: System)
    requires y.a.phase.Leader? && y.b.phase.Leader? && y.a.queue != [] && y.b.queue != []
    requires Yields(cs.a, y.a.queue[0].priority) && Yields(cs.b, y.b.queue[0].priority)
    ensures var y1 := Next(cs, y, Handle(A));
            y1.Some? && var y2 := Next(cs, y1.value, Handle(B));
                y2.Some? && y2.value.a.phase.Yielding? && y2.value.b.phase.Yielding?
  {
  }

  lemma GroupYields()
    ensures Yields(GroupPair().a, 100) && Yields(GroupPair().b, 100)
  {
  }

  /** In any run a leader that prevails leads on, unless it is asked to shut down or meets an error itself. */
  lemma {:induction false} LeaderPrevails(cs: Pair, x: Side, y: System, steps: seq<Step>, z: System)
    requires Prevails(cs, x) && Inv(cs, y) && y.At(x).phase.Leader? && Execute(cs, y, steps) == Some(z)
    requires forall i | 0 <= i < |steps| :: steps[i] != Shutdown(x) && steps[i] != Fail(x) && steps[i] != Crash(x)
    ensures z.At(x).phase.Leader?
  {
    hide Inv, Yields;
    if steps != [] {
      var m := Execute(cs, y, steps[..|steps| - 1]).value;
      LeaderPrevails(cs, x, y, steps[..|steps| - 1], m);
      RunKeepsInv(cs, y, steps[..|steps| - 1]);
      LeaderStays(cs, x, m, steps[|steps| - 1]);
    }
  }

  lemma LeaderStays(cs: Pair, x: Side, y: System, a: Step)
    requires Prevails(cs, x) && Inv(cs, y) && y.At(x).phase.Leader? && Next(cs, y, a).Some?
    requires a != Shutdown(x) && a != Fail(x) && a != Crash(x)
    ensures Next(cs, y, a).value.At(x).phase.Leader?
  {
    hide Yields;
    if a == Handle(x) {
      var m := y.At(x).queue[0];
      assert m in y.At(x).queue;
      assert AdvertOK(cs, y, m);
    }
  }

  /** What every step a of every run from the start does. */
  lemma EveryRun(cs: Pair, steps: seq<Step>, y: System, a: Step, x: Side)
    requires cs.a.priority > 0 && cs.b.priority > 0
    requires Execute(cs, BOOT, steps) == Some(y) && Next(cs, y, a).Some?
    // An advert is sent by the one sender of a node that leads, with its priority, or as the last word, of priority
    // 0, of a sender stopped by a shutdown; nothing else sends one, and a leader has its sender.
    ensures a.Tick? ==>
              && y.At(a.x).phase.Leads() && y.At(a.x).senders == 1
              && Next(cs, y, a).value.sent == y.sent + [Advert(a.x, cs.Of(a.x).priority)]
    ensures a.Farewell? ==> y.At(a.x).closed && Next(cs, y, a).value.sent == y.sent + [Advert(a.x, 0)]
    ensures !a.Tick? && !a.Farewell? ==> Next(cs, y, a).value.sent == y.sent
    ensures y.At(x).phase.Leader? ==> y.At(x).senders == 1
    // An advert of priority 0 means that its sender was asked to shut down while it led.
    ensures forall m | m in y.sent && m.priority == 0 :: y.At(m.from).closed
    // A backup starts to lead exactly on a timeout with no advert queued, and on taking an advert of priority 0 or, if
    // it preempts, of a lower priority than its own.
    ensures y.At(x).phase.Backup? && a.x == x && (a.Handle? || a.TimeOut?) ==>
              (Next(cs, y, a).value.At(x).phase.Rising? <==>
                 || (a.TimeOut? && y.At(x).queue == [])
                 || (a.Handle? && y.At(x).queue[0].priority == 0)
                 || (a.Handle? && cs.Of(x).preempt && y.At(x).queue[0].priority < cs.Of(x).priority))
    ensures y.At(x).phase.Backup? && !(a.x == x && (a.Handle? || a.TimeOut?)) ==>
              !Next(cs, y, a).value.At(x).phase.Rising?
    // A leader steps down only on its peer's own advert, and then its peer prevails.
    ensures y.At(x).phase.Leader? && Next(cs, y, a).value.At(x).phase.Yielding? ==>
              && y.At(x).queue[0] == Advert(x.Other(), cs.Of(x.Other()).priority)
              && (cs.a.priority != cs.b.priority || Reciprocal(cs) ==> Prevails(cs, x.Other()))
  {
    hide Rises, Yields, Prevails, Execute;
    RunKeepsInv(cs, BOOT, steps);
    Sends(cs, y, a, x);
    if y.At(x).phase.Backup? {
      RisesOn(cs, y, a, x);
    }
    hide Inv, NodeOK, AdvertOK;
    if a == Handle(x) && y.At(x).phase.Leader? && Yields(cs.Of(x), y.At(x).queue[0].priority) {
      YieldsTo(cs, y, x);
    }
  }

  lemma RisesOn(cs: Pair, y: System, a: Step, x: Side)
    requires y.At(x).phase.Backup? && Next(cs, y, a).Some?
    ensures a.x == x && (a.Handle? || a.TimeOut?) ==>
              (Next(cs, y, a).value.At(x).phase.Rising? <==>
                 || (a.TimeOut? && y.At(x).queue == [])
                 || (a.Handle? && y.At(x).queue[0].priority == 0)
                 || (a.Handle? && cs.Of(x).preempt && y.At(x).queue[0].priority < cs.Of(x).priority))
    ensures !(a.x == x && (a.Handle? || a.TimeOut?)) ==> !Next(cs, y, a).value.At(x).phase.Rising?
  {
    hide Yields;
  }

  lemma Sends(cs: Pair, y: System, a: Step, x: Side)
    requires Inv(cs, y) && cs.a.priority > 0 && cs.b.priority > 0 && Next(cs, y, a).Some?
    ensures a.Tick? ==>
              && y.At(a.x).phase.Leads() && y.At(a.x).senders == 1
              && Next(cs, y, a).value.sent == y.sent + [Advert(a.x, cs.Of(a.x).priority)]
    ensures a.Farewell? ==> y.At(a.x).closed && Next(cs, y, a).value.sent == y.sent + [Advert(a.x, 0)]
    ensures !a.Tick? && !a.Farewell? ==> Next(cs, y, a).value.sent == y.sent
    ensures y.At(x).phase.Leader? ==> y.At(x).senders == 1
    ensures forall m | m in y.sent && m.priority == 0 :: y.At(m.from).closed
  {
    hide Rises, Yields;
  }

  lemma YieldsTo(cs: Pair, y: System, x: Side)
    requires Inv(cs, y) && cs.a.priority > 0 && cs.b.priority > 0
    requires y.At(x).queue != [] && Yields(cs.Of(x), y.At(x).queue[0].priority)
    ensures y.At(x).queue[0] == Advert(x.Other(), cs.Of(x.Other()).priority)
    ensures cs.a.priority != cs.b.priority || Reciprocal(cs) ==> Prevails(cs, x.Other())
  {
    var m := y.At(x).queue[0];
    assert m in y.At(x).queue;
    assert AdvertOK(cs, y, m);
    WhoPrevails(cs, x);
    WhoPrevails(cs, x.Other());
  }

  /** Every advert of nonzero priority sent in a run was sent at a tick of its node's sender, while that node led. */
  lemma {:induction false} AdvertOrigin(cs: Pair, steps: seq<Step>, y: System, n: nat) returns (i: nat)
    requires cs.a.priority > 0 && cs.b.priority > 0
    requires Execute(cs, BOOT, steps) == Some(y) && n < |y.sent| && y.sent[n].priority > 0
    ensures i < |steps| && steps[i] == Tick(y.sent[n].from) && Execute(cs, BOOT, steps[..i]).Some?
    ensures var before := Execute(cs, BOOT, steps[..i]).value;
            before.At(y.sent[n].from).phase.Leads() && |before.sent| == n
  {
    hide Next;
    var front, a := steps[..|steps| - 1], steps[|steps| - 1];
    var before := Execute(cs, BOOT, front).value;
    EveryRun(cs, front, before, a, A);
    if n < |before.sent| {
      i := AdvertOrigin(cs, front, before, n);
      assert front[..i] == steps[..i];
    } else {
      i := |steps| - 1;
    }
  }

  // The lower of two priorities.

  /** As a leader it steps down on whatever it hears from a peer that has not been shut down. */
  lemma LowerGivesWay(cs: Pair, x: Side, y: System)
    requires Inv(cs, y) && 0 < cs.Of(x).priority < cs.Of(x.Other()).priority && !y.At(x.Other()).closed
    requires y.At(x).phase.Leader? && y.At(x).queue != []
    ensures Next(cs, y, Handle(x)).Some? && Next(cs, y, Handle(x)).value.At(x).phase.Yielding?
  {
    var m := y.At(x).queue[0];
    assert m in y.At(x).queue;
    assert AdvertOK(cs, y, m);
  }

  predicate Waits(p: Phase) {
    p.Backup? || p.Down? || p == Failed(false) || p.Gone?
  }

  lemma WaitsOn(cs: Pair, x: Side, y: System, a: Step)
    requires Inv(cs, y) && 0 < cs.Of(x).priority < cs.Of(x.Other()).priority && !y.At(x.Other()).closed
    requires Waits(y.At(x).phase) && Next(cs, y, a).Some? && a != TimeOut(x)
    ensures Waits(Next(cs, y, a).value.At(x).phase)
  {
    if a == Handle(x) {
      var m := y.At(x).queue[0];
      assert m in y.At(x).queue;
      assert AdvertOK(cs, y, m);
    }
  }

  lemma ClosedStays(cs: Pair, y: System, a: Step, x: Side)
    requires Next(cs, y, a).Some? && y.At(x).closed
    ensures Next(cs, y, a).value.At(x).closed
  {
    hide Rises, Yields;
  }

  /** Over any run a node of the lower priority that does not lead begins to lead only by its own timeout, unless its
      peer has been shut down as leader. */
  lemma {:induction false} LowerWaits(cs: Pair, x: Side, y: System, steps: seq<Step>, z: System)
    requires Inv(cs, y) && 0 < cs.Of(x).priority < cs.Of(x.Other()).priority && Waits(y.At(x).phase)
    requires Execute(cs, y, steps) == Some(z) && !z.At(x.Other()).closed
    requires forall i | 0 <= i < |steps| :: steps[i] != TimeOut(x)
    ensures Waits(z.At(x).phase)
  {
    hide Inv, Next, Waits;
    if steps != [] {
      var m, a := Execute(cs, y, steps[..|steps| - 1]).value, steps[|steps| - 1];
      if m.At(x.Other()).closed {
        ClosedStays(cs, m, a, x.Other());
      }
      LowerWaits(cs, x, y, steps[..|steps| - 1], m);
      RunKeepsInv(cs, y, steps[..|steps| - 1]);
      WaitsOn(cs, x, m, a);
    }
  }

  /** A node that must not preempt, whatever its priority, begins to lead only by its own timeout, unless its peer has
      been shut down as leader. */
  lemma {:induction false} NoPreemption(cs: Pair, x: Side, y: System, steps: seq<Step>, z: System)
    requires Inv(cs, y) && cs.Of(x.Other()).priority > 0 && !cs.Of(x).preempt && Waits(y.At(x).phase)
    requires Execute(cs, y, steps) == Some(z) && !z.At(x.Other()).closed
    requires forall i | 0 <= i < |steps| :: steps[i] != TimeOut(x)
    ensures Waits(z.At(x).phase)
  {
    hide Inv, Next, Waits;
    if steps != [] {
      var m, a := Execute(cs, y, steps[..|steps| - 1]).value, steps[|steps| - 1];
      if m.At(x.Other()).closed {
        ClosedStays(cs, m, a, x.Other());
      }
      NoPreemption(cs, x, y, steps[..|steps| - 1], m);
      RunKeepsInv(cs, y, steps[..|steps| - 1]);
      PatientOn(cs, x, m, a);
    }
  }

  lemma PatientOn(cs: Pair, x: Side, y: System, a: Step)
    requires Inv(cs, y) && cs.Of(x.Other()).priority > 0 && !cs.Of(x).preempt && !y.At(x.Other()).closed
    requires Waits(y.At(x).phase) && Next(cs, y, a).Some? && a != TimeOut(x)
    ensures Waits(Next(cs, y, a).value.At(x).phase)
  {
    if a == Handle(x) {
      var m := y.At(x).queue[0];
      assert m in y.At(x).queue;
      assert AdvertOK(cs, y, m);
    }
  }

  /** A preempting backup takes over on whatever it hears from a peer of lower priority. */
  lemma PreemptsLower(cs: Pair, x: Side, y: System)
    requires Inv(cs, y) && cs.Of(x).preempt && cs.Of(x.Other()).priority < cs.Of(x).priority
    requires y.At(x).phase.Backup? && y.At(x).queue != []
    ensures Next(cs, y, Handle(x)).Some? && Next(cs, y, Handle(x)).value.At(x).phase.Rising?
  {
    var m := y.At(x).queue[0];
    assert m in y.At(x).queue;
    assert AdvertOK(cs, y, m);
  }
}
