/**
The engine's HA manager and the peer synchronisation client it starts and stops. The manager's goroutine and the
client's meet on three unbuffered channels: start, quit, and the one on which the client hands over the overrides its
peer sent. The client parks itself with a token in the buffered channel stopped. A meeting on an unbuffered channel is
one step of both.
*/
module HaManager {
  import opened Types

  /** What a change of HA state decides: the state, the load balancing interface, and whether the client is wanted. */
  datatype Role = Role(ha: HaState, lbUp: bool, enabled: bool)

  /** The role after a request for state s, all of it at once. */
  function Settled(r: Role, peer: bool, s: HaState): Role {
    if (r.ha.DISABLED? && !s.UNKNOWN?) || r.ha == s then r
    else if s.LEADER? then Role(s, true, r.enabled && !peer)
    else if r.ha.LEADER? || s.BACKUP? then Role(s, false, r.enabled || peer)
    else r.(ha := s)
  }

  /** The interface is up on the leader only, which takes nothing from its peer; a backup follows its peer if it has
      one. */
  predicate RoleOK(r: Role, peer: bool) {
    && (r.lbUp <==> r.ha.LEADER?)
    && (r.ha.LEADER? ==> !r.enabled)
    && (r.ha.BACKUP? && peer ==> r.enabled)
    && (!peer ==> !r.enabled)
  }

  const INITIAL := Role(UNKNOWN, false, false)

  function SettledAll(peer: bool, ss: seq<HaState>): Role {
    if ss == [] then INITIAL else Settled(SettledAll(peer, ss[..|ss| - 1]), peer, ss[|ss| - 1])
  }

  /** After any requests the role is proper, and any request is met; but from DISABLED only UNKNOWN leads elsewhere. */
  lemma {:induction false} RolesProper(peer: bool, ss: seq<HaState>)
    ensures RoleOK(SettledAll(peer, ss), peer)
    ensures forall s :: SettledAll(peer, ss).ha.DISABLED? ==>
              Settled(SettledAll(peer, ss), peer, s).ha == if s.UNKNOWN? then UNKNOWN else DISABLED
    ensures forall s :: !SettledAll(peer, ss).ha.DISABLED? ==> Settled(SettledAll(peer, ss), peer, s).ha == s
  {
    if ss != [] {
      RolesProper(peer, ss[..|ss| - 1]);
    }
  }

  /** The manager as the engine's code holds it; a call to the client returns once the client has taken the signal. */
  class Manager {
    const peer: bool
    var state: HaState
    var lbUp: bool
    var enabled: bool
    var failoverPending: bool

    function View(): Role
      reads this
    {
      Role(state, lbUp, enabled)
    }

    constructor (peer: bool)
      ensures this.peer == peer && View() == INITIAL && !failoverPending
    {
      this.peer := peer;
      state, lbUp, enabled, failoverPending := UNKNOWN, false, false, false;
    }

    method EnableClient()
      modifies `enabled
      ensures enabled == (old(enabled) || peer)
    {
      if !peer {
        return;
      }
      enabled := true;
    }

    method DisableClient()
      modifies `enabled
      ensures enabled == (old(enabled) && !peer)
    {
      if !peer {
        return;
      }
      enabled := false;
    }

    method BecomeMaster()
      modifies `enabled, `lbUp
      ensures lbUp && enabled == (old(enabled) && !peer)
    {
      DisableClient();
      lbUp := true;
    }

    method BecomeBackup()
      modifies `enabled, `lbUp
      ensures !lbUp && enabled == (old(enabled) || peer)
    {
      EnableClient();
      lbUp := false;
    }

    method SetState(s: HaState)
      requires RoleOK(View(), peer)
      modifies `state, `lbUp, `enabled
      ensures View() == Settled(old(View()), peer, s) && RoleOK(View(), peer)
    {
      if state.DISABLED? && !s.UNKNOWN? {
        return;
      }
      if state != s {
        if s.LEADER? {
          BecomeMaster();
        } else if state.LEADER? || s.BACKUP? {
          BecomeBackup();
        }
      }
      state := s;
    }

    method Enable()
      requires RoleOK(View(), peer)
      modifies `state, `lbUp, `enabled
      ensures RoleOK(View(), peer) &&
              View() == if old(state).DISABLED? then old(View()).(ha := UNKNOWN) else old(View())
    {
      if state.DISABLED? {
        SetState(UNKNOWN);
      }
    }

    /** Whatever the node was, it ends DISABLED with the interface down; a leader that is disabled starts following. */
    method Disable()
      requires RoleOK(View(), peer)
      modifies `state, `lbUp, `enabled
      ensures RoleOK(View(), peer) && state.DISABLED? && !lbUp
      ensures enabled == if old(state).LEADER? then peer else old(enabled)
    {
      SetState(DISABLED);
    }

    /** A failover is granted to a leader that has none pending. Another node refuses its peer's request, and passes its
        own on to its peer, whose answer it gives. */
    method RequestFailover(byPeer: bool, peersAnswer: bool) returns (ok: bool, passedOn: bool)
      modifies `failoverPending
      ensures state.LEADER? ==> !passedOn && ok == !old(failoverPending) && failoverPending
      ensures !state.LEADER? ==>
              passedOn == !byPeer && ok == (passedOn && peersAnswer) && failoverPending == old(failoverPending)
    {
      if state.LEADER? {
        if failoverPending {
          return false, false;
        }
        failoverPending := true;
        return true, false;
      }
      if byPeer {
        return false, false;
      }
      return peersAnswer, true;
    }

    /** Each granted failover is handed over once. */
    method Failover() returns (pending: bool)
      modifies `failoverPending
      ensures pending == old(failoverPending) && !failoverPending
    {
      pending := failoverPending;
      failoverPending := false;
    }

    method RunStates(ss: seq<HaState>)
      requires View() == INITIAL
      modifies `state, `lbUp, `enabled
      ensures View() == SettledAll(peer, ss) && RoleOK(View(), peer)
    {
      assert ss[..|ss|] == ss;
      for i := 0 to |ss|
        invariant View() == SettledAll(peer, ss[..i]) && RoleOK(View(), peer)
      {
        assert ss[..i + 1][..i] == ss[..i];
        SetState(ss[i]);
      }
    }
  }

  // The manager and the client, step by step.

  datatype Phase =
    | Ready
    | Starting(to: HaState)             // blocked until the client takes the start signal
    | Quitting(to: HaState)             // blocked until the client takes the quit signal
    | Switching(to: HaState)            // the client has been dealt with; the interface and the state are next
    | Exiting                           // the engine shuts down; blocked until the client takes the quit signal
    | Gone
  {
    predicate Blocked() { Starting? || Quitting? || Exiting? }
  }

  datatype Client =
    | Top                               // about to look for a stopped token
    | AwaitStart                        // has taken the token, waits for the start signal
    | Connecting                        // dials and registers
    | Polling                           // polls its peer; a quit signal ends this
    | Handing(more: nat)                // hands an override to the manager, with more to follow; deaf to quit signals
    | Cooling                           // waits before the next attempt; a quit signal ends this
    | Leaving                           // has taken a quit signal, about to leave a token

  datatype System = System(peer: bool, role: Role, token: bool, manager: Phase, client: Client)

  datatype Step =
    | Set(s: HaState)                   // the manager handles a request for an HA state
    | Switch
    | Shutdown                          // the manager handles the engine's shutdown
    | Look                              // the client tests for a stopped token
    | Start                             // the two meet on start
    | Quit                              // the two meet on quit
    | Connect(ok: bool)
    | PollFails
    | Notes(overrides: nat)             // a poll returns notes, with this many overrides among them
    | Hand                              // the two meet on an override
    | Cool
    | Stop                              // the client leaves its token
  {
    predicate ByManager() { Set? || Shutdown? }
  }

  function Boot(peer: bool): System {
    System(peer, INITIAL, true, Ready, Top)
  }

  function Begin(y: System, s: HaState): System {
    var r := y.role;
    if (r.ha.DISABLED? && !s.UNKNOWN?) || r.ha == s then y
    else if s.LEADER? then
      if y.peer && r.enabled then y.(role := r.(enabled := false), manager := Quitting(s))
          else y.(manager := Switching(s))
    else if r.ha.LEADER? || s.BACKUP? then
      if y.peer && !r.enabled then y.(role := r.(enabled := true), manager := Starting(s))
          else y.(manager := Switching(s))
    else y.(role := r.(ha := s))
  }

  /** The client with this many overrides still to hand over. */
  function Handed(left: nat): Client {
    if left == 0 then Polling else Handing(left - 1)
  }

  function Next(y: System, a: Step): Option<System> {
    match a
    case Set(s) => if y.manager.Ready? then Some(Begin(y, s)) else None
    case Switch =>
      if !y.manager.Switching? then None
      else Some(y.(role := Role(y.manager.to, y.manager.to.LEADER?, y.role.enabled), manager := Ready))
    case Shutdown =>
      if !y.manager.Ready? then None
      else if y.peer && y.role.enabled then Some(y.(role := y.role.(enabled := false), manager := Exiting))
      else Some(y.(manager := Gone))
    case Look =>
      if !y.client.Top? then None
      else if y.token then Some(y.(token := false, client := AwaitStart))
      else Some(y.(client := Connecting))
    case Start =>
      if !(y.manager.Starting? && y.client.AwaitStart?) then None
      else Some(y.(manager := Switching(y.manager.to), client := Top))
    case Quit =>
      if !(y.client.Polling? || y.client.Cooling?) then None
      else if y.manager.Quitting? then Some(y.(manager := Switching(y.manager.to), client := Leaving))
      else if y.manager.Exiting? then Some(y.(manager := Gone, client := Leaving))
      else None
    case Connect(ok) =>
      if !y.client.Connecting? then None else Some(y.(client := if ok then Polling else Cooling))
    case PollFails => if !y.client.Polling? then None else Some(y.(client := Cooling))
    case Notes(n) => if !y.client.Polling? then None else Some(y.(client := Handed(n)))
    case Hand => if !(y.client.Handing? && y.manager.Ready?) then None else Some(y.(client := Handed(y.client.more)))
    case Cool => if !y.client.Cooling? then None else Some(y.(client := Top))
    case Stop => if !y.client.Leaving? || y.token then None else Some(y.(token := true, client := Top))
  }

  function Execute(y: System, steps: seq<Step>): Option<System> {
    if steps == [] then Some(y)
    else
      var before := Execute(y, steps[..|steps| - 1]);
      if before.None? then None else Next(before.value, steps[|steps| - 1])
  }

  /** The client is parked, or on its way there; one token exists, or the client holds it or is about to leave it. */
  predicate Parked(y: System) {
    if y.client.Top? then y.token else !y.token && (y.client.AwaitStart? || y.client.Leaving?)
  }

  /** The client is at work, and there is no token. */
  predicate AtWork(y: System) {
    !y.token && !y.client.AwaitStart? && !y.client.Leaving?
  }

  /** Until the signal is taken the client is in the state before it. */
  predicate HandshakeOK(y: System) {
    match y.manager
    case Starting(to) => y.peer && y.role.enabled && Parked(y) && !to.LEADER?
    case Quitting(to) => y.peer && !y.role.enabled && AtWork(y) && to.LEADER? && !y.role.ha.LEADER?
    case Exiting => y.peer && !y.role.enabled && AtWork(y) && !y.role.ha.LEADER?
    case Gone => !y.role.enabled && Parked(y)
    case Switching(to) => (if y.role.enabled then AtWork(y) else Parked(y)) && y.role.enabled == (y.peer && !to.LEADER?)
    case Ready => if y.role.enabled then AtWork(y) else Parked(y)
  }

  predicate Inv(y: System) {
    && HandshakeOK(y)
    && (y.role.lbUp <==> y.role.ha.LEADER?)
    && (!y.peer ==> !y.role.enabled)
    && (y.manager.Ready? ==> RoleOK(y.role, y.peer))
  }

  lemma {:induction false} RunKeepsInv(peer: bool, steps: seq<Step>, y: System)
    requires Execute(Boot(peer), steps) == Some(y)
    ensures Inv(y) && y.peer == peer
  {
    hide Inv, Next;
    if steps == [] {
      BootInv(peer);
    } else {
      var x := Execute(Boot(peer), steps[..|steps| - 1]).value;
      RunKeepsInv(peer, steps[..|steps| - 1], x);
      KeepsInv(x, steps[|steps| - 1]);
    }
  }

  lemma BootInv(peer: bool)
    ensures Inv(Boot(peer))
  {
  }

  lemma KeepsInv(y: System, a: Step)
    requires Inv(y) && Next(y, a).Some?
    ensures Inv(Next(y, a).value) && Next(y, a).value.peer == y.peer
    ensures !a.ByManager() ==> Intended(Next(y, a).value) == Intended(y)
  {
  }

  /** Client steps to the point where the signal the manager waits for is taken. */
  function Distance(y: System): nat {
    match y.client
    case Top => if y.manager.Starting? then 1 else 2
    case Connecting => 1
    case Leaving => 2
    case _ => 0
  }

  predicate ByClient(a: Step) {
    a.Look? || a.Connect? || a.PollFails? || a.Notes? || a.Cool? || a.Stop?
  }

  /** Some run from here leads to where the manager's signal is taken. */
  ghost predicate CanMeet(y: System) {
    exists steps, z :: Execute(y, steps) == Some(z) && !z.manager.Blocked()
  }

  /** Nothing can move. */
  ghost predicate Stuck(y: System) {
    forall a :: Next(y, a).None?
  }

  /** In every run: no second token can be left while one exists; a manager blocked on quit never faces a client waiting
      for start, nor one blocked on start a client at work; and the interface is up only while the client is parked,
      except in the moment when a leader steps down. */
  lemma EveryRun(peer: bool, steps: seq<Step>, y: System)
    requires Execute(Boot(peer), steps) == Some(y)
    ensures y.client.Leaving? ==> !y.token && Next(y, Stop).Some?
    ensures y.client.AwaitStart? ==> !y.token && !y.manager.Quitting? && !y.manager.Exiting?
    ensures y.manager.Starting? ==> y.client.Top? || y.client.AwaitStart? || y.client.Leaving?
    ensures y.manager.Ready? ==> RoleOK(y.role, peer)
    ensures y.role.lbUp <==> y.role.ha.LEADER?
    ensures y.role.lbUp && !y.manager.Starting? && !y.manager.Switching? ==> Parked(y)
  {
    RunKeepsInv(peer, steps, y);
  }

  /** In every run a blocked manager can still come to its meeting if and only if the client is not handing over an
      override; else nothing moves any more. Where it can, the two can meet now, or else the client can move and every
      move of it brings the meeting nearer. */
  lemma MeetsIff(peer: bool, steps: seq<Step>, y: System)
    requires Execute(Boot(peer), steps) == Some(y) && y.manager.Blocked()
    ensures CanMeet(y) <==> !y.client.Handing?
    ensures Stuck(y) <==> y.client.Handing?
    ensures !y.client.Handing? && Distance(y) == 0 ==> Next(y, if y.manager.Starting? then Start else Quit).Some?
    ensures !y.client.Handing? && Distance(y) > 0 ==>
              && (Next(y, Look).Some? || Next(y, Connect(true)).Some? || Next(y, Stop).Some?)
              && (forall a | ByClient(a) && Next(y, a).Some? ::
                    !Next(y, a).value.client.Handing? && Distance(Next(y, a).value) < Distance(y))
  {
    RunKeepsInv(peer, steps, y);
    Nearer(y);
    hide Next, Inv, Distance;
    if y.client.Handing? {
      forall more, z | Execute(y, more) == Some(z)
        ensures z == y
      {
        StuckStays(y, more);
      }
    } else {
      Approach(y);
      var more, z :| Execute(y, more) == Some(z) && !z.manager.Blocked();
      if Stuck(y) {
        StuckStays(y, more);
      }
    }
  }

  lemma Nearer(y: System)
    requires Inv(y) && y.manager.Blocked()
    ensures y.client.Handing? ==> Stuck(y)
    ensures !y.client.Handing? && Distance(y) == 0 ==> Next(y, if y.manager.Starting? then Start else Quit).Some?
    ensures !y.client.Handing? && Distance(y) > 0 ==>
              && (Next(y, Look).Some? || Next(y, Connect(true)).Some? || Next(y, Stop).Some?)
              && (forall a | ByClient(a) && Next(y, a).Some? ::
                    !Next(y, a).value.client.Handing? && Distance(Next(y, a).value) < Distance(y))
  {
  }

  lemma {:induction false} StuckStays(y: System, steps: seq<Step>)
    requires Stuck(y)
    ensures Execute(y, steps) == if steps == [] then Some(y) else None
  {
    if steps != [] {
      StuckStays(y, steps[..|steps| - 1]);
    }
  }

  lemma {:induction false} Approach(y: System)
    requires Inv(y) && y.manager.Blocked() && !y.client.Handing?
    ensures CanMeet(y)
    decreases Distance(y)
  {
    if Distance(y) == 0 {
      Leads(y, if y.manager.Starting? then Start else Quit);
    } else {
      var a := if y.client.Top? then Look else if y.client.Leaving? then Stop else Connect(true);
      KeepsInv(y, a);
      Approach(Next(y, a).value);
      Leads(y, a);
    }
  }

  lemma Leads(y: System, a: Step)
    requires Next(y, a).Some? && (!Next(y, a).value.manager.Blocked() || CanMeet(Next(y, a).value))
    ensures CanMeet(y)
  {
    var x := Next(y, a).value;
    if !x.manager.Blocked() {
      assert [a][..0] == [];
      assert Execute(y, [a]) == Some(x);
    } else {
      var steps, z :| Execute(x, steps) == Some(z) && !z.manager.Blocked();
      After(y, a, steps);
      assert Execute(y, [a] + steps) == Some(z);
    }
  }

  lemma {:induction false} After(y: System, a: Step, steps: seq<Step>)
    requires Next(y, a).Some?
    ensures Execute(y, [a] + steps) == Execute(Next(y, a).value, steps)
  {
    if steps == [] {
      assert [a] + steps == [a] && [a][..0] == [];
      assert Execute(y, []) == Some(y);
    } else {
      After(y, a, steps[..|steps| - 1]);
      assert ([a] + steps)[..|steps|] == [a] + steps[..|steps| - 1];
    }
  }

  /** The meeting is lost in exactly two ways: the manager begins to stop a client that is handing over an override, or
      a poll returns one while the manager waits. */
  lemma LostIff(peer: bool, steps: seq<Step>, y: System, a: Step)
    requires Execute(Boot(peer), steps) == Some(y) && Next(y, a).Some?
    ensures var z := Next(y, a).value;
            (z.manager.Blocked() && z.client.Handing?) <==>
                || (y.client.Handing? && a.Shutdown?)
                || (y.client.Handing? && a == Set(LEADER) && !y.role.ha.DISABLED?)
                || (y.manager.Blocked() && a.Notes? && a.overrides > 0)
  {
    RunKeepsInv(peer, steps, y);
  }

  /** Without overrides from the peer the meeting is never lost. */
  lemma {:induction false} NoOverridesMeets(peer: bool, steps: seq<Step>, y: System)
    requires Execute(Boot(peer), steps) == Some(y)
    requires forall i | 0 <= i < |steps| :: steps[i].Notes? ==> steps[i].overrides == 0
    ensures !y.client.Handing? && (y.manager.Blocked() ==> CanMeet(y))
  {
    if steps != [] {
      NoOverridesMeets(peer, steps[..|steps| - 1], Execute(Boot(peer), steps[..|steps| - 1]).value);
    }
    if y.manager.Blocked() {
      MeetsIff(peer, steps, y);
    }
  }

  /** A backup that is handing over an override when it is told to lead. */
  lemma OverrideBlocksLeader() returns (steps: seq<Step>, y: System)
    ensures Execute(Boot(true), steps) == Some(y) && y.manager == Quitting(LEADER) && Stuck(y)
  {
    steps := [Set(BACKUP), Look, Start, Switch, Look, Connect(true), Notes(1), Set(LEADER)];
    var role := Role(BACKUP, false, true);
    y := System(true, role.(enabled := false), false, Quitting(LEADER), Handing(0));
    var met := System(true, INITIAL.(enabled := true), false, Switching(BACKUP), Top);
    assert Execute(Boot(true), steps[..3]) == Some(met) by {
      assert steps[..3][..2] == steps[..2] && steps[..2][..1] == steps[..1] && steps[..1][..0] == [];
      assert Execute(Boot(true), []) == Some(Boot(true));
      assert Execute(Boot(true), steps[..1]).value.manager == Starting(BACKUP);
    }
    assert Execute(Boot(true), steps[..6]) == Some(System(true, role, false, Ready, Polling)) by {
      assert steps[..6][..5] == steps[..5] && steps[..5][..4] == steps[..4] && steps[..4][..3] == steps[..3];
      assert Execute(Boot(true), steps[..4]) == Some(System(true, role, false, Ready, Top));
    }
    assert steps[..8] == steps && steps[..8][..7] == steps[..7] && steps[..7][..6] == steps[..6];
  }

  /** What the role will be once the manager is done. */
  function Intended(y: System): Role {
    match y.manager
    case Starting(to) => Role(to, false, y.role.enabled)
    case Quitting(to) => Role(to, true, y.role.enabled)
    case Switching(to) => Role(to, to.LEADER?, y.role.enabled)
    case _ => y.role
  }

  lemma {:induction false} IntendedStays(y: System, steps: seq<Step>, z: System)
    requires Inv(y) && Execute(y, steps) == Some(z)
    requires forall i | 0 <= i < |steps| :: !steps[i].ByManager()
    ensures Inv(z) && Intended(z) == Intended(y)
  {
    hide Inv, Next, Intended;
    if steps != [] {
      var x := Execute(y, steps[..|steps| - 1]).value;
      IntendedStays(y, steps[..|steps| - 1], x);
      KeepsInv(x, steps[|steps| - 1]);
    }
  }

  /** However the client's steps fall between the manager's, a request has the effect it has all at once. */
  lemma RequestsAtomic(y: System, s: HaState, steps: seq<Step>, z: System)
    requires Inv(y) && y.manager.Ready?
    requires Execute(Begin(y, s), steps) == Some(z) && z.manager.Ready?
    requires forall i | 0 <= i < |steps| :: !steps[i].ByManager()
    ensures z.role == Settled(y.role, y.peer, s)
  {
    IntendedStays(Begin(y, s), steps, z);
  }
}
