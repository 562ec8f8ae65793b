/**
One synchronisation session of the leader: notes for the peer go through a bounded queue, and a note that does
not fit marks the session as desynchronised. Senders and polls interleave step by step; a channel operation and a
critical section are one step each, except that a poll holds the session's lock for its whole drain loop.
*/
module SyncSession {
  import opened Types

  const QUEUE_SIZE := 100
  const POLL_LIMIT := 100

  /** A note is named by its place in the order in which the senders offered notes to the session. */
  type NoteId = nat

  /** A call of Poll is named by its place in the order of the calls. */
  type CallId = nat

  /** Where a call of Poll stands. */
  datatype Poll =
    | Entering                          // has found the session, wants its lock
    | Draining                          // holds the lock and throws away queued notes
    | Drained                           // holds the lock and has seen the queue empty
    | Waiting                           // waits for a first note
    | Collecting(got: seq<NoteId>)      // takes further notes while there are any
  {
    predicate HoldsLock() { Draining? || Drained? }

    /** Past the test of the desync flag, which it found unset. */
    predicate Admitted() { Waiting? || Collecting? }

    function Got(): seq<NoteId> { if Collecting? then got else [] }

    predicate SizeOK() { Collecting? ==> 1 <= |got| <= POLL_LIMIT + 1 }
  }

  datatype Outcome = Desync | Notes(got: seq<NoteId>) | TimedOut {
    function Got(): seq<NoteId> { if Notes? then got else [] }

    predicate SizeOK() { Notes? ==> 1 <= |got| <= POLL_LIMIT + 1 }
  }

  datatype Reply = Reply(call: CallId, outcome: Outcome)

  datatype Taken = Taken(note: NoteId, call: CallId)

  datatype Session = Session(
    desync: bool,
    queue: seq<NoteId>,
    polls: map<CallId, Poll>,
    flagging: set<NoteId>,              // notes refused by the full queue whose sender has not yet set the flag
    // History.
    offered: nat,                       // how many notes were offered
    calls: nat,                         // how many calls of Poll were made
    received: seq<Taken>,               // notes taken off the queue for a reply, in order
    lost: map<NoteId, nat>,             // notes refused or drained, with the number of replies given before the loss
    replies: seq<Reply>)
  {
    predicate LockFree() { forall c | c in polls :: !polls[c].HoldsLock() }
  }

  const FRESH := Session(true, [], map[], {}, 0, 0, [], map[], [])

  datatype Step =
    | Offer                             // a sender's attempt to queue the next note
    | Flag(n: NoteId)                   // the sender of a refused note sets the flag
    | Enter                             // a call of Poll finds the session
    | Check(c: CallId)                  // the call takes the lock and tests the flag
    | Drain(c: CallId)                  // a turn of the drain loop
    | Announce(c: CallId)               // clears the flag, gives up the lock, returns the desync note
    | Receive(c: CallId)                // the first note arrives
    | GiveUp(c: CallId)                 // the poll timeout expires
    | Collect(c: CallId)                // a turn of the poll loop, or the return after it

  function At(s: Session, c: CallId, p: Poll): Session {
    s.(polls := s.polls[c := p])
  }

  function Return(s: Session, c: CallId, o: Outcome): Session {
    s.(polls := s.polls - {c}, replies := s.replies + [Reply(c, o)])
  }

  function Lose(s: Session, n: NoteId): Session {
    s.(lost := s.lost[n := |s.replies|])
  }

  function Take(s: Session, c: CallId, got: seq<NoteId>): Session
    requires s.queue != []
  {
    At(s, c, Collecting(got + [s.queue[0]])).(queue := s.queue[1..], received := s.received + [Taken(s.queue[0], c)])
  }

  /** The session after a step; None where the step is not possible. */
  function Next(s: Session, a: Step): Option<Session> {
    match a
    case Offer =>
      if |s.queue| < QUEUE_SIZE then Some(s.(queue := s.queue + [s.offered], offered := s.offered + 1))
      else Some(Lose(s, s.offered).(flagging := s.flagging + {s.offered}, offered := s.offered + 1))
    case Flag(n) =>
      if n !in s.flagging || !s.LockFree() then None
      else Some(s.(desync := true, flagging := s.flagging - {n}))
    case Enter => Some(At(s, s.calls, Entering).(calls := s.calls + 1))
    case Check(c) =>
      if c !in s.polls || !s.polls[c].Entering? || !s.LockFree() then None
      else Some(At(s, c, if s.desync then Draining else Waiting))
    case Drain(c) =>
      if c !in s.polls || !s.polls[c].Draining? then None
      else if s.queue == [] then Some(At(s, c, Drained))
      else Some(Lose(s, s.queue[0]).(queue := s.queue[1..]))
    case Announce(c) =>
      if c !in s.polls || !s.polls[c].Drained? then None
      else Some(Return(s, c, Desync).(desync := false))
    case Receive(c) =>
      if c !in s.polls || !s.polls[c].Waiting? || s.queue == [] then None
      else Some(Take(s, c, []))
    case GiveUp(c) =>
      if c !in s.polls || !s.polls[c].Waiting? then None
      else Some(Return(s, c, TimedOut))
    case Collect(c) =>
      if c !in s.polls || !s.polls[c].Collecting? then None
      else if |s.polls[c].got| <= POLL_LIMIT && s.queue != [] then Some(Take(s, c, s.polls[c].got))
      else Some(Return(s, c, Notes(s.polls[c].got)))
  }

  /** The session after a list of steps; None once any of them is not possible. */
  function Execute(s: Session, steps: seq<Step>): Option<Session> {
    if steps == [] then Some(s)
    else
      var before := Execute(s, steps[..|steps| - 1]);
      if before.None? then None else Next(before.value, steps[|steps| - 1])
  }

  // What every step keeps.

  /** The notes of a list of takings. */
  function NotesOf(ts: seq<Taken>): (ns: seq<NoteId>)
    ensures |ns| == |ts| && forall i | 0 <= i < |ts| :: ns[i] == ts[i].note
  {
    seq(|ts|, i requires 0 <= i < |ts| => ts[i].note)
  }

  /** The notes one call has taken, in order. */
  function TakenBy(ts: seq<Taken>, c: CallId): seq<NoteId> {
    if ts == [] then []
    else
      var before := TakenBy(ts[..|ts| - 1], c);
      if ts[|ts| - 1].call == c then before + [ts[|ts| - 1].note] else before
  }

  predicate Increasing(ns: seq<NoteId>) {
    forall i, j | 0 <= i < j < |ns| :: ns[i] < ns[j]
  }

  /** The notes received so far, then those still queued. */
  function Line(s: Session): seq<NoteId> {
    NotesOf(s.received) + s.queue
  }

  /** Notes stand in the order in which they were offered, and each note offered is either in line or lost. */
  ghost predicate Sorted(line: seq<NoteId>, lost: set<NoteId>, offered: nat) {
    && Increasing(line)
    && (forall n: NoteId :: n in line || n in lost <==> n < offered)
    && (forall n: NoteId :: n in line ==> n !in lost)
  }

  ghost predicate Accounted(s: Session) {
    Sorted(Line(s), s.lost.Keys, s.offered) && |s.queue| <= QUEUE_SIZE && s.flagging <= s.lost.Keys
  }

  predicate DesyncSince(s: Session, from: nat) {
    exists i :: from <= i < |s.replies| && s.replies[i].outcome.Desync?
  }

  predicate SomeoneDrains(s: Session) {
    exists c :: c in s.polls && s.polls[c].HoldsLock()
  }

  /** The peer has been told, or will be: a Desync was returned after the loss, the flag is set, a sender is about to
      set it, or a poll is draining. */
  predicate Covered(s: Session, n: NoteId)
    requires n in s.lost
  {
    DesyncSince(s, s.lost[n]) || s.desync || s.flagging != {} || SomeoneDrains(s)
  }

  predicate AllCovered(s: Session) {
    forall n | n in s.lost :: s.lost[n] <= |s.replies| && Covered(s, n)
  }

  predicate OneLock(s: Session) {
    && (forall c | c in s.polls :: c < s.calls)
    && (forall c, d | c in s.polls && d in s.polls && s.polls[c].HoldsLock() && s.polls[d].HoldsLock() :: c == d)
    && (SomeoneDrains(s) ==> s.desync)
  }

  /** What a call holds, or returned, is what it took, and no more than the poll limit allows. */
  predicate CallExact(s: Session, c: CallId) {
    && (c >= s.calls ==> c !in s.polls && TakenBy(s.received, c) == [])
    && (c in s.polls ==> TakenBy(s.received, c) == s.polls[c].Got() && s.polls[c].SizeOK())
    && (forall r | r in s.replies && r.call == c ::
          c < s.calls && c !in s.polls && TakenBy(s.received, c) == r.outcome.Got() && r.outcome.SizeOK())
  }

  ghost predicate CallsExact(s: Session) {
    forall c: CallId :: CallExact(s, c)
  }

  /** Until the first Desync is returned the flag stays set and no call gets past it. */
  predicate DesyncFirst(s: Session) {
    if s.replies == [] then s.desync && forall c | c in s.polls :: !s.polls[c].Admitted()
    else s.replies[0].outcome.Desync?
  }

  ghost predicate Inv(s: Session) {
    Accounted(s) && AllCovered(s) && OneLock(s) && CallsExact(s) && DesyncFirst(s)
  }

  lemma JoinLine(line: seq<NoteId>, lost: set<NoteId>, offered: nat)
    requires Sorted(line, lost, offered)
    ensures Sorted(line + [offered], lost, offered + 1) && Sorted(line, lost + {offered}, offered + 1)
  {
    assert forall i | 0 <= i < |line| :: line[i] in line;
  }

  lemma LeaveIncreasing(line: seq<NoteId>, k: nat)
    requires Increasing(line) && k < |line|
    ensures Increasing(line[..k] + line[k + 1..])
    ensures line[k] !in line[..k] + line[k + 1..]
  {
    var rest := line[..k] + line[k + 1..];
    assert forall i | 0 <= i < |rest| :: rest[i] == if i < k then line[i] else line[i + 1];
  }

  lemma LeaveLine(line: seq<NoteId>, lost: set<NoteId>, offered: nat, k: nat)
    requires Sorted(line, lost, offered) && k < |line|
    ensures Sorted(line[..k] + line[k + 1..], lost + {line[k]}, offered)
  {
    hide Increasing;
    LeaveIncreasing(line, k);
    var rest := line[..k] + line[k + 1..];
    assert line == line[..k] + [line[k]] + line[k + 1..];
    forall n: NoteId
      ensures n in line <==> n in rest || n == line[k]
    {
    }
  }

  /** Only an offer and a drain change who stands in line. */
  lemma LineAfter(s: Session, a: Step)
    requires Next(s, a).Some?
    ensures a.Offer? && |s.queue| < QUEUE_SIZE ==> Line(Next(s, a).value) == Line(s) + [s.offered]
    ensures a.Drain? && s.queue != [] ==>
              var k := |s.received|;
                  Line(s)[k] == s.queue[0] && Line(Next(s, a).value) == Line(s)[..k] + Line(s)[k + 1..]
    ensures !(a.Offer? && |s.queue| < QUEUE_SIZE) && !(a.Drain? && s.queue != []) ==> Line(Next(s, a).value) == Line(s)
  {
    if (a.Receive? || a.Collect?) && s.queue != [] {
      assert s.queue == [s.queue[0]] + s.queue[1..];
    }
  }

  lemma OfferAccounted(s: Session)
    requires Accounted(s)
    ensures Accounted(Next(s, Offer).value)
  {
    hide Sorted;
    LineAfter(s, Offer);
    JoinLine(Line(s), s.lost.Keys, s.offered);
    if |s.queue| >= QUEUE_SIZE {
      assert Next(s, Offer).value.lost.Keys == s.lost.Keys + {s.offered};
    }
  }

  lemma DrainAccounted(s: Session, c: CallId)
    requires Accounted(s) && Next(s, Drain(c)).Some? && s.queue != []
    ensures Accounted(Next(s, Drain(c)).value)
  {
    hide Sorted;
    LineAfter(s, Drain(c));
    LeaveLine(Line(s), s.lost.Keys, s.offered, |s.received|);
    assert Next(s, Drain(c)).value.lost.Keys == s.lost.Keys + {s.queue[0]};
  }

  lemma KeepsAccounted(s: Session, a: Step)
    requires Accounted(s) && Next(s, a).Some?
    ensures Accounted(Next(s, a).value)
  {
    hide Sorted, Line, Session.LockFree;
    if a.Offer? {
      OfferAccounted(s);
    } else if a.Drain? && s.queue != [] {
      DrainAccounted(s, a.c);
    } else {
      var t := Next(s, a).value;
      LineAfter(s, a);
      assert t.lost == s.lost && t.offered == s.offered && t.flagging <= s.flagging && |t.queue| <= |s.queue|;
    }
  }

  lemma KeepsOneLock(s: Session, a: Step)
    requires OneLock(s) && Next(s, a).Some?
    ensures OneLock(Next(s, a).value)
  {
  }

  /** A loss stays covered: the flag is cleared only together with the return of a Desync. */
  lemma KeepsCovered(s: Session, a: Step)
    requires AllCovered(s) && OneLock(s) && Next(s, a).Some?
    ensures AllCovered(Next(s, a).value)
  {
    var t := Next(s, a).value;
    forall n | n in t.lost
      ensures t.lost[n] <= |t.replies| && Covered(t, n)
    {
      if n in s.lost && t.lost[n] == s.lost[n] {
        if DesyncSince(s, s.lost[n]) {
          var i :| s.lost[n] <= i < |s.replies| && s.replies[i].outcome.Desync?;
          assert t.replies[i] == s.replies[i];
        } else if a.Announce? {
          assert t.replies[|s.replies|].outcome.Desync?;
        } else if SomeoneDrains(s) {
          var c :| c in s.polls && s.polls[c].HoldsLock();
          assert c in t.polls && t.polls[c].HoldsLock();
        }
      } else if a.Drain? {
        assert t.polls[a.c].HoldsLock();
      }
    }
  }

  lemma TakenByMore(ts: seq<Taken>, t: Taken, c: CallId)
    ensures TakenBy(ts + [t], c) == if t.call == c then TakenBy(ts, c) + [t.note] else TakenBy(ts, c)
  {
    assert (ts + [t])[..|ts|] == ts;
  }

  lemma KeepsCall(s: Session, a: Step, c: CallId)
    requires CallExact(s, c) && Next(s, a).Some?
    ensures CallExact(Next(s, a).value, c)
  {
    hide TakenBy, Session.LockFree;
    if (a.Receive? || a.Collect?) && s.queue != [] {
      TakenByMore(s.received, Taken(s.queue[0], a.c), c);
    }
  }

  lemma KeepsCalls(s: Session, a: Step)
    requires CallsExact(s) && Next(s, a).Some?
    ensures CallsExact(Next(s, a).value)
  {
    hide CallExact, Next;
    forall c: CallId {
      KeepsCall(s, a, c);
    }
  }

  lemma KeepsDesyncFirst(s: Session, a: Step)
    requires DesyncFirst(s) && OneLock(s) && Next(s, a).Some?
    ensures DesyncFirst(Next(s, a).value)
  {
  }

  lemma KeepsInv(s: Session, a: Step)
    requires Inv(s) && Next(s, a).Some?
    ensures Inv(Next(s, a).value)
  {
    hide Accounted, AllCovered, OneLock, CallsExact, DesyncFirst, Next;
    KeepsAccounted(s, a);
    KeepsOneLock(s, a);
    KeepsCovered(s, a);
    KeepsCalls(s, a);
    KeepsDesyncFirst(s, a);
  }

  // Whole runs.

  lemma {:induction false} RunKeepsInv(steps: seq<Step>)
    requires Execute(FRESH, steps).Some?
    ensures Inv(Execute(FRESH, steps).value)
  {
    hide Inv, Next;
    if steps == [] {
      FreshInv();
    } else {
      RunKeepsInv(steps[..|steps| - 1]);
      KeepsInv(Execute(FRESH, steps[..|steps| - 1]).value, steps[|steps| - 1]);
    }
  }

  lemma FreshInv()
    ensures Inv(FRESH)
  {
    assert Line(FRESH) == [];
  }

  /** After any interleaving of senders and polls: the queue is bounded; notes are received in the order offered, each
      at most once, and a reply is exactly what its call received, never more than the poll limit and one; each note not
      received is queued or lost, and each lost one is covered; and the first reply of the session is a Desync. */
  lemma EveryRun(steps: seq<Step>, s: Session)
    requires Execute(FRESH, steps) == Some(s)
    ensures |s.queue| <= QUEUE_SIZE
    ensures Increasing(NotesOf(s.received) + s.queue)
    ensures forall r | r in s.replies && r.outcome.Notes? ::
              1 <= |r.outcome.got| <= POLL_LIMIT + 1 && r.outcome.got == TakenBy(s.received, r.call)
    ensures forall n | 0 <= n < s.offered :: n in NotesOf(s.received) || n in s.queue || n in s.lost
    ensures forall n | n in s.lost :: n !in NotesOf(s.received) && n !in s.queue && Covered(s, n)
    ensures !s.desync && s.flagging == {} && !SomeoneDrains(s) ==> forall n | n in s.lost :: DesyncSince(s, s.lost[n])
    ensures s.replies != [] ==> s.replies[0].outcome.Desync?
  {
    RunKeepsInv(steps);
    forall r | r in s.replies && r.outcome.Notes?
      ensures 1 <= |r.outcome.got| <= POLL_LIMIT + 1 && r.outcome.got == TakenBy(s.received, r.call)
    {
      assert CallExact(s, r.call);
    }
    assert forall n: NoteId :: n in Line(s) <==> n in NotesOf(s.received) || n in s.queue;
  }

  /** The calls that had got past the flag in s. */
  predicate Before(s: Session, c: CallId) {
    c in s.polls && s.polls[c].Admitted()
  }

  /** A set flag is not overlooked: until a Desync is returned the flag stays set, and no call other than those already
      past it waits for notes or returns anything else. */
  lemma {:induction false} FlagHolds(s: Session, steps: seq<Step>, t: Session)
    requires Execute(s, steps) == Some(t) && s.desync
    ensures s.replies <= t.replies
    ensures DesyncSince(t, |s.replies|) || (
              && t.desync
              && (forall c | c in t.polls && t.polls[c].Admitted() :: Before(s, c))
              && (forall i | |s.replies| <= i < |t.replies| :: Before(s, t.replies[i].call)))
  {
    if steps != [] {
      var m := Execute(s, steps[..|steps| - 1]).value;
      FlagHolds(s, steps[..|steps| - 1], m);
      FlagStep(s, m, steps[|steps| - 1]);
    }
  }

  lemma FlagStep(s: Session, m: Session, a: Step)
    requires Next(m, a).Some? && s.replies <= m.replies
    requires DesyncSince(m, |s.replies|) || (
               && m.desync
               && (forall c | c in m.polls && m.polls[c].Admitted() :: Before(s, c))
               && (forall i | |s.replies| <= i < |m.replies| :: Before(s, m.replies[i].call)))
    ensures var t := Next(m, a).value;
            s.replies <= t.replies && (DesyncSince(t, |s.replies|) || (
              && t.desync
              && (forall c | c in t.polls && t.polls[c].Admitted() :: Before(s, c))
              && (forall i | |s.replies| <= i < |t.replies| :: Before(s, t.replies[i].call))))
  {
    var t := Next(m, a).value;
    if DesyncSince(m, |s.replies|) {
      var i :| |s.replies| <= i < |m.replies| && m.replies[i].outcome.Desync?;
      assert t.replies[i] == m.replies[i];
    } else if a.Announce? {
      assert t.replies[|m.replies|].outcome.Desync?;
    }
  }

  // A peer that polls one call at a time.

  predicate OneCall(s: Session) {
    forall c, d | c in s.polls && d in s.polls :: c == d
  }

  ghost predicate OneCallAtATime(steps: seq<Step>) {
    && Execute(FRESH, steps).Some?
    && OneCall(Execute(FRESH, steps).value)
    && (steps != [] ==> OneCallAtATime(steps[..|steps| - 1]))
  }

  /** The notes the peer was given, reply after reply. */
  function Delivered(rs: seq<Reply>): seq<NoteId> {
    if rs == [] then [] else Delivered(rs[..|rs| - 1]) + rs[|rs| - 1].outcome.Got()
  }

  /** What was received is what was delivered, then what the call in progress holds. */
  predicate Handed(s: Session) {
    && (s.polls == map[] ==> Delivered(s.replies) == NotesOf(s.received))
    && (forall c | c in s.polls :: Delivered(s.replies) + s.polls[c].Got() == NotesOf(s.received))
  }

  lemma HandedTake(s: Session, c: CallId)
    requires Handed(s) && OneCall(s) && c in s.polls && s.queue != []
    ensures Handed(Take(s, c, s.polls[c].Got()))
  {
    var t := Take(s, c, s.polls[c].Got());
    assert NotesOf(t.received) == NotesOf(s.received) + [s.queue[0]];
    assert c in t.polls;
  }

  lemma HandedReturn(s: Session, c: CallId, o: Outcome)
    requires Handed(s) && OneCall(s) && c in s.polls && o.Got() == s.polls[c].Got()
    ensures Handed(Return(s, c, o))
  {
    var t := Return(s, c, o);
    assert t.replies[..|s.replies|] == s.replies;
    assert t.polls == map[];
  }

  lemma HandedEnter(s: Session)
    requires Handed(s) && OneLock(s) && OneCall(At(s, s.calls, Entering))
    ensures Handed(At(s, s.calls, Entering))
  {
    var t := At(s, s.calls, Entering);
    assert s.calls in t.polls;
    assert s.polls == map[] by {
      assert forall c | c in s.polls :: c in t.polls;
    }
  }

  lemma HandedAt(s: Session, c: CallId, p: Poll)
    requires Handed(s) && c in s.polls && p.Got() == s.polls[c].Got()
    ensures Handed(At(s, c, p))
  {
    assert c in At(s, c, p).polls;
  }

  lemma HandedSame(s: Session, t: Session)
    requires Handed(s) && t.polls == s.polls && t.replies == s.replies && t.received == s.received
    ensures Handed(t)
  {
  }

  lemma KeepsHanded(s: Session, a: Step)
    requires Handed(s) && OneLock(s) && OneCall(s) && Next(s, a).Some? && OneCall(Next(s, a).value)
    ensures Handed(Next(s, a).value)
  {
    hide Handed, OneLock, Session.LockFree, Delivered, NotesOf;
    var t := Next(s, a).value;
    match a
    case Offer => HandedSame(s, t);
    case Flag(_) => HandedSame(s, t);
    case Enter =>
      HandedEnter(s);
      HandedSame(At(s, s.calls, Entering), t);
    case Check(c) => HandedAt(s, c, t.polls[c]);
    case Drain(c) =>
      if s.queue == [] {
        HandedAt(s, c, Drained);
      } else {
        HandedSame(s, t);
      }
    case Announce(c) =>
      HandedReturn(s, c, Desync);
      HandedSame(Return(s, c, Desync), t);
    case Receive(c) => HandedTake(s, c);
    case GiveUp(c) => HandedReturn(s, c, TimedOut);
    case Collect(c) =>
      if |s.polls[c].got| <= POLL_LIMIT && s.queue != [] {
        HandedTake(s, c);
      } else {
        HandedReturn(s, c, Notes(s.polls[c].got));
      }
  }

  /** The replies, put together, list the received notes in the order in which they were offered. */
  lemma {:induction false} DeliveredInOrder(steps: seq<Step>, s: Session)
    requires OneCallAtATime(steps) && Execute(FRESH, steps) == Some(s)
    ensures Handed(s) && Increasing(Delivered(s.replies))
  {
    hide Next;
    if steps != [] {
      var m := Execute(FRESH, steps[..|steps| - 1]).value;
      DeliveredInOrder(steps[..|steps| - 1], m);
      RunKeepsInv(steps[..|steps| - 1]);
      KeepsHanded(m, steps[|steps| - 1]);
    }
    EveryRun(steps, s);
    DeliveredPrefix(s);
  }

  lemma DeliveredPrefix(s: Session)
    requires Handed(s) && Increasing(NotesOf(s.received) + s.queue)
    ensures Increasing(Delivered(s.replies))
  {
    var line := NotesOf(s.received) + s.queue;
    if c :| c in s.polls {
      assert NotesOf(s.received) == Delivered(s.replies) + s.polls[c].Got();
    }
    assert forall i | 0 <= i < |Delivered(s.replies)| :: line[i] == Delivered(s.replies)[i];
  }

  lemma ExecuteMore(s: Session, steps: seq<Step>, a: Step)
    ensures Execute(s, steps + [a]) == if Execute(s, steps).None? then None else Next(Execute(s, steps).value, a)
  {
    assert (steps + [a])[..|steps|] == steps;
  }

  /** The session as the leader's code holds it. Each call below runs undisturbed, as one run of the steps above. */
  class Server {
    var desync: bool
    var notes: seq<NoteId>
    ghost var model: Session

    /** No call and no sender is in the middle of a step. */
    ghost predicate Rests()
      reads this
    {
      desync == model.desync && notes == model.queue && model.polls == map[] && model.flagging == {}
    }

    constructor ()
      ensures Rests() && model == FRESH
    {
      desync, notes, model := true, [], FRESH;
    }

    ghost method Move(s: Session, steps: seq<Step>, a: Step) returns (more: seq<Step>)
      requires Execute(s, steps) == Some(model) && Next(model, a).Some?
      modifies `model
      ensures model == Next(old(model), a).value && more == steps + [a] && Execute(s, more) == Some(model)
    {
      ExecuteMore(s, steps, a);
      more := steps + [a];
      model := Next(model, a).value;
    }

    method AddNote(note: NoteId) returns (ghost steps: seq<Step>)
      requires Rests() && note == model.offered
      modifies this
      ensures Rests() && Execute(old(model), steps) == Some(model)
      ensures if |old(notes)| < QUEUE_SIZE then notes == old(notes) + [note] && desync == old(desync)
              else notes == old(notes) && desync
    {
      steps := [];
      ghost var s := model;
      steps := Move(s, steps, Offer);
      if |notes| < QUEUE_SIZE {
        notes := notes + [note];
      } else {
        if !desync {
          desync := true;
        }
        steps := Move(s, steps, Flag(note));
      }
    }

    method Poll() returns (reply: Outcome, ghost steps: seq<Step>)
      requires Rests() && |notes| <= QUEUE_SIZE
      modifies this
      ensures Rests() && Execute(old(model), steps) == Some(model) && !desync && notes == []
      ensures reply == if old(desync) then Desync else if old(notes) == [] then TimedOut else Notes(old(notes))
      ensures model.replies == old(model.replies) + [Reply(old(model.calls), reply)]
    {
      hide Execute;
      ghost var s, c := model, model.calls;
      assert Execute(s, []) == Some(s) by { ExecuteNone(s); }
      steps := Move(s, [], Enter);
      steps := Move(s, steps, Check(c));
      if desync {
        steps := DrainNotes(s, steps, c);
        steps := Move(s, steps, Announce(c));
        desync := false;
        return Desync, steps;
      }
      reply, steps := AwaitNotes(s, steps, c);
    }

    method AwaitNotes(ghost s: Session, ghost steps0: seq<Step>, ghost c: CallId)
      returns (reply: Outcome, ghost steps: seq<Step>)
      requires Execute(s, steps0) == Some(model) && model.polls == map[c := Waiting]
      requires notes == model.queue && desync == model.desync && model.flagging == {} && |notes| <= QUEUE_SIZE
      modifies `notes, `model
      ensures Rests() && Execute(s, steps) == Some(model) && notes == []
      ensures reply == if old(notes) == [] then TimedOut else Notes(old(notes))
      ensures model.replies == old(model.replies) + [Reply(c, reply)]
    {
      hide Execute, Session.LockFree;
      if notes == [] {
        steps := Move(s, steps0, GiveUp(c));
        return TimedOut, steps;
      }
      var got := [notes[0]];
      steps := Move(s, steps0, Receive(c));
      notes := notes[1..];
      assert model.polls[c].got == got;
      got, steps := CollectNotes(s, steps, c, got);
      steps := Move(s, steps, Collect(c));
      reply := Notes(got);
    }

    method DrainNotes(ghost s: Session, ghost steps0: seq<Step>, ghost c: CallId) returns (ghost steps: seq<Step>)
      requires Execute(s, steps0) == Some(model) && model.polls == map[c := Draining] && notes == model.queue
      modifies `notes, `model
      ensures Execute(s, steps) == Some(model) && notes == model.queue == [] && model.polls == map[c := Drained]
      ensures model.flagging == old(model.flagging) && model.replies == old(model.replies) &&
              model.desync == old(model.desync)
    {
      hide Execute;
      steps := steps0;
      while notes != []
        invariant Execute(s, steps) == Some(model) && notes == model.queue && model.polls == map[c := Draining]
        invariant model.flagging == old(model.flagging) && model.replies == old(model.replies) &&
                  model.desync == old(model.desync)
        decreases |notes|
      {
        steps := Move(s, steps, Drain(c));
        notes := notes[1..];
      }
      steps := Move(s, steps, Drain(c));
    }

    method CollectNotes(ghost s: Session, ghost steps0: seq<Step>, ghost c: CallId, first: seq<NoteId>)
      returns (got: seq<NoteId>, ghost steps: seq<Step>)
      requires Execute(s, steps0) == Some(model) && notes == model.queue && |first| == 1 && |notes| <= POLL_LIMIT
      requires model.polls == map[c := Collecting(first)]
      modifies `notes, `model
      ensures Execute(s, steps) == Some(model) && notes == model.queue == []
      ensures got == first + old(notes) && model.polls == map[c := Collecting(got)]
      ensures model.flagging == old(model.flagging) && model.replies == old(model.replies) &&
              model.desync == old(model.desync)
    {
      hide Execute;
      steps, got := steps0, first;
      for i := 0 to POLL_LIMIT
        invariant Execute(s, steps) == Some(model) && notes == model.queue && model.polls == map[c := Collecting(got)]
        invariant |got| == i + 1 && got + notes == first + old(notes)
        invariant model.flagging == old(model.flagging) && model.replies == old(model.replies) &&
                  model.desync == old(model.desync)
      {
        if notes == [] {
          break;
        }
        steps := Move(s, steps, Collect(c));
        got, notes := got + [notes[0]], notes[1..];
      }
    }
  }

  lemma ExecuteNone(s: Session)
    ensures Execute(s, []) == Some(s)
  {
  }
}
