/**
  Active sessions and graceful shutdown, as steps of goroutines that may interleave in any order. Each step is one
  critical section, one atomic operation, or one goroutine start of the server; what happens between two steps of
  one goroutine is any number of steps of the others.
*/
module Shutdown {

  type Id = nat   // a port, a connection and its session, or a caller of Shutdown

  const PORTS: nat := 23   // how many listeners the server opens

  // ---------- The session registry ----------

  /** A list of a set: every element, once. */
  ghost predicate Lists(xs: seq<Id>, s: set<Id>) {
    && (forall i :: 0 <= i < |xs| ==> xs[i] in s)
    && (forall x :: x in s ==> x in xs)
    && (forall i, j :: 0 <= i < j < |xs| ==> xs[i] != xs[j])
  }

  class Registry {
    var sessions: set<Id>
    var waiting: int   // the wait group's counter

    ghost predicate Valid()
      reads this
    {
      waiting == |sessions|
    }

    /** The registry is where the protocol has it. */
    ghost predicate Matches(s: Server)
      reads this
    {
      sessions == s.sessions && waiting == s.waiting
    }

    constructor ()
      ensures Valid() && sessions == {} && Matches(INITIAL)
    {
      sessions, waiting := {}, 0;
    }

    method RegisterSession(id: Id)
      requires Valid() && id !in sessions
      modifies this
      ensures Valid() && sessions == old(sessions) + {id}
      ensures forall s: Server :: old(Matches(s)) && Can(s, Register(id)) ==> Matches(Do(s, Register(id)))
    {
      sessions := sessions + {id};
      waiting := waiting + 1;
    }

    method UnregisterSession(id: Id)
      requires Valid() && id in sessions
      modifies this
      ensures Valid() && sessions == old(sessions) - {id}
      ensures forall s: Server :: old(Matches(s)) && Can(s, Unregister(id)) ==> Matches(Do(s, Unregister(id)))
    {
      sessions := sessions - {id};
      waiting := waiting - 1;
    }

    method ActiveSessionSnapshot() returns (out: seq<Id>)
      requires Valid()
      ensures Lists(out, sessions) && |out| == waiting
      ensures forall s: Server, c: Id ::
        Matches(s) && c in s.calls && s.calls[c].Counted? ==> Can(s, Snapshot(c, out))
    {
      out := [];
      var rest := sessions;
      while rest != {}
        invariant rest <= sessions && Lists(out, sessions - rest) && |out| + |rest| == |sessions|
        decreases rest
      {
        var k :| k in rest;
        out := out + [k];
        rest := rest - {k};
      }
      assert sessions - rest == sessions;
    }
  }

  // ---------- The protocol ----------

  /** Why a call of Shutdown returned, with the sessions it had listed and those ever registered by then. */
  datatype Outcome =
    | Already                                          // nil: another call is at it
    | NoneActive(seen: set<Id>)                        // nil: no session was active when it counted
    | AllDone(snapshot: seq<Id>, seen: set<Id>)        // nil: the wait group had come down to zero
    | TimedOut(snapshot: seq<Id>)                      // the context's error

  datatype Phase =
    | Won                                              // this call swapped the flag
    | Closing(todo: set<Id>)                           // it closes the listeners it found registered
    | Counted                                          // it found active sessions
    | Notifying(snapshot: seq<Id>, next: nat)          // it starts a 421 close for each listed session
    | Waiting(snapshot: seq<Id>)                       // it waits for the wait group or the context
    | Woken(snapshot: seq<Id>, seen: set<Id>)          // its waiter saw the wait group at zero
    | Returned(outcome: Outcome)

  /**
    The server: ports with a listener so far, listeners still open, accepted connections with the port each came in on;
    registered sessions and their count; sessions ever registered and ever unregistered; and the shutdown itself.
  */
  datatype Server = Server(
    listened: set<Id>, open: set<Id>, accepted: map<Id, Id>,
    sessions: set<Id>, waiting: int, started: set<Id>, gone: set<Id>,
    shuttingDown: bool, calls: map<Id, Phase>, scheduled: multiset<Id>, closed: multiset<Id>)

  const INITIAL := Server({}, {}, map[], {}, 0, {}, {}, false, map[], multiset{}, multiset{})

  datatype Step =
    | Listen(port: Id)                   // a listener is opened and recorded
    | Accept(port: Id, id: Id)           // a connection comes in; its goroutine has yet to register a session
    | Register(id: Id)
    | Unregister(id: Id)
    | Call(c: Id)                        // the compare-and-swap
    | ListListeners(c: Id)               // copy the list of listeners
    | CloseListener(c: Id, port: Id)     // close one of them
    | Count(c: Id)
    | Snapshot(c: Id, order: seq<Id>)
    | Schedule(c: Id)                    // start the goroutine that closes the next listed session
    | StartWaiter(c: Id)
    | WaiterSeesZero(c: Id)
    | ReturnDone(c: Id)
    | ReturnTimedOut(c: Id)
    | Close421(id: Id)                   // a scheduled goroutine sends its 421 and closes

  ghost predicate Can(s: Server, a: Step) {
    match a
    case Listen(port) => port < PORTS && port !in s.listened
    case Accept(port, id) => port in s.open && id !in s.accepted
    case Register(id) => id in s.accepted && id !in s.started
    case Unregister(id) => id in s.sessions
    case Call(c) => c !in s.calls
    case ListListeners(c) => c in s.calls && s.calls[c].Won?
    case CloseListener(c, port) => c in s.calls && s.calls[c].Closing? && port in s.calls[c].todo
    case Count(c) => c in s.calls && s.calls[c] == Closing({})
    case Snapshot(c, order) => c in s.calls && s.calls[c].Counted? && Lists(order, s.sessions)
    case Schedule(c) => c in s.calls && s.calls[c].Notifying? && s.calls[c].next < |s.calls[c].snapshot|
    case StartWaiter(c) => c in s.calls && s.calls[c].Notifying? && s.calls[c].next == |s.calls[c].snapshot|
    case WaiterSeesZero(c) => c in s.calls && s.calls[c].Waiting? && s.waiting == 0
    case ReturnDone(c) => c in s.calls && s.calls[c].Woken?
    case ReturnTimedOut(c) => c in s.calls && (s.calls[c].Waiting? || s.calls[c].Woken?)
    case Close421(id) => s.closed[id] < s.scheduled[id]
  }

  ghost function Do(s: Server, a: Step): Server
    requires Can(s, a)
  {
    match a
    case Listen(port) => s.(listened := s.listened + {port}, open := s.open + {port})
    case Accept(port, id) => s.(accepted := s.accepted[id := port])
    case Register(id) =>
      s.(sessions := s.sessions + {id}, waiting := s.waiting + 1, started := s.started + {id})
    case Unregister(id) => s.(sessions := s.sessions - {id}, waiting := s.waiting - 1, gone := s.gone + {id})
    case Call(c) =>
      if s.shuttingDown then s.(calls := s.calls[c := Returned(Already)])
      else s.(shuttingDown := true, calls := s.calls[c := Won])
    case ListListeners(c) => s.(calls := s.calls[c := Closing(s.open)])
    case CloseListener(c, port) =>
      s.(open := s.open - {port}, calls := s.calls[c := Closing(s.calls[c].todo - {port})])
    case Count(c) => s.(calls := s.calls[c := if s.sessions == {} then Returned(NoneActive(s.started)) else Counted])
    case Snapshot(c, order) => s.(calls := s.calls[c := Notifying(order, 0)])
    case Schedule(c) =>
      var p := s.calls[c];
      s.(calls := s.calls[c := Notifying(p.snapshot, p.next + 1)],
         scheduled := s.scheduled + multiset{p.snapshot[p.next]})
    case StartWaiter(c) => s.(calls := s.calls[c := Waiting(s.calls[c].snapshot)])
    case WaiterSeesZero(c) => s.(calls := s.calls[c := Woken(s.calls[c].snapshot, s.started)])
    case ReturnDone(c) => s.(calls := s.calls[c := Returned(AllDone(s.calls[c].snapshot, s.calls[c].seen))])
    case ReturnTimedOut(c) => s.(calls := s.calls[c := Returned(TimedOut(s.calls[c].snapshot))])
    case Close421(id) => s.(closed := s.closed + multiset{id})
  }

  /** A schedule all of whose steps are possible when they are taken. */
  ghost predicate Possible(steps: seq<Step>)
    decreases |steps|, 0
  {
    steps == [] || (Possible(steps[..|steps| - 1]) && Can(After(steps[..|steps| - 1]), steps[|steps| - 1]))
  }

  ghost function After(steps: seq<Step>): Server
    requires Possible(steps)
    decreases |steps|, 1
  {
    if steps == [] then INITIAL else Do(After(steps[..|steps| - 1]), steps[|steps| - 1])
  }

  // ---------- The invariant ----------

  /** The call that won the swap; all others have returned at once. */
  predicate Winner(p: Phase) {
    p != Returned(Already)
  }

  function First(xs: seq<Id>, k: nat): multiset<Id>
    requires k <= |xs|
  {
    multiset(xs[..k])
  }

  /** What a call has scheduled so far: the sessions it listed, up to where it is. */
  function ScheduledBy(p: Phase): multiset<Id>
    requires p.Notifying? ==> p.next <= |p.snapshot|
  {
    if p.Notifying? then First(p.snapshot, p.next) else First(SnapshotOf(p), |SnapshotOf(p)|)
  }

  function SnapshotOf(p: Phase): seq<Id> {
    match p
    case Notifying(snapshot, _) => snapshot
    case Waiting(snapshot) => snapshot
    case Woken(snapshot, _) => snapshot
    case Returned(AllDone(snapshot, _)) => snapshot
    case Returned(TimedOut(snapshot)) => snapshot
    case _ => []
  }

  predicate Distinct(xs: seq<Id>) {
    forall i, j :: 0 <= i < j < |xs| ==> xs[i] != xs[j]
  }

  /** The sessions a nil return vouches for. */
  function Vouched(p: Phase): set<Id> {
    match p
    case Woken(_, seen) => seen
    case Returned(NoneActive(seen)) => seen
    case Returned(AllDone(_, seen)) => seen
    case _ => {}
  }

  predicate Among(xs: seq<Id>, s: set<Id>) {
    forall x :: x in xs ==> x in s
  }

  ghost predicate CallOk(s: Server, p: Phase) {
    && (p.Notifying? ==> p.next <= |p.snapshot|)
    && Distinct(SnapshotOf(p)) && Among(SnapshotOf(p), s.started)
    && s.scheduled == ScheduledBy(p)
    && Vouched(p) <= s.started && Vouched(p) !! s.sessions
    && (p.Woken? || (p.Returned? && p.outcome.AllDone?) ==> Among(SnapshotOf(p), Vouched(p)))
  }

  /** Where connections and sessions stand: accepted, registered, unregistered. */
  ghost predicate WorldOk(s: Server) {
    && s.waiting == |s.sessions| && s.sessions == s.started - s.gone && s.gone <= s.started
    && s.started <= s.accepted.Keys
    && s.open <= s.listened && (forall p :: p in s.listened ==> p < PORTS)
    && (forall id :: id in s.accepted ==> s.accepted[id] in s.listened)
  }

  ghost predicate Inv(s: Server) {
    && WorldOk(s)
    && (forall c :: c in s.calls ==> s.shuttingDown)
    && (forall c, d :: c in s.calls && d in s.calls && Winner(s.calls[c]) && Winner(s.calls[d]) ==> c == d)
    && (forall c :: c in s.calls && Winner(s.calls[c]) ==> CallOk(s, s.calls[c]))
    && ((forall c :: c in s.calls ==> !Winner(s.calls[c])) ==> s.scheduled == multiset{})
    && (forall id :: s.closed[id] <= s.scheduled[id])
    && (s.shuttingDown ==> exists c :: c in s.calls && Winner(s.calls[c]))
  }

  // ---------- Every step keeps it ----------

  /** The winning call moves on. */
  lemma CallMoves(s: Server, c: Id, p: Phase, scheduled: multiset<Id>, open: set<Id>)
    requires Inv(s) && c in s.calls && Winner(s.calls[c]) && Winner(p) && open <= s.open
    requires var t := s.(calls := s.calls[c := p], scheduled := scheduled, open := open); CallOk(t, p)
    requires forall id :: s.closed[id] <= scheduled[id]
    ensures Inv(s.(calls := s.calls[c := p], scheduled := scheduled, open := open))
  {
    hide CallOk;
    var t := s.(calls := s.calls[c := p], scheduled := scheduled, open := open);
    assert c in t.calls && Winner(t.calls[c]);
    assert forall d :: d in t.calls && d != c ==> d in s.calls && t.calls[d] == s.calls[d];
  }

  /** Connections and sessions come and go. */
  lemma SessionsMove(s: Server, t: Server)
    requires Inv(s) && WorldOk(t) && s.started <= t.started
    requires t.calls == s.calls && t.shuttingDown == s.shuttingDown && t.scheduled == s.scheduled && t.closed == s.closed
    requires forall id :: id in s.started && id in t.sessions ==> id in s.sessions
    ensures Inv(t)
  {
    hide WorldOk;
    forall c | c in t.calls && Winner(t.calls[c])
      ensures CallOk(t, t.calls[c])
    {
      assert CallOk(s, s.calls[c]);
    }
  }

  /** A call that comes too late returns at once. */
  lemma LateCallStep(s: Server, c: Id)
    requires Inv(s) && Can(s, Call(c)) && s.shuttingDown
    ensures Inv(Do(s, Call(c)))
  {
    hide WorldOk, CallOk, Lists;
    var t := Do(s, Call(c));
    CallsAreNoWorld(s, t);
    assert forall d :: d in t.calls && d != c ==> d in s.calls && t.calls[d] == s.calls[d];
    forall d | d in s.calls && Winner(s.calls[d])
      ensures CallOk(t, t.calls[d])
    {
      SameWorld(s, t, s.calls[d]);
    }
    var w :| w in s.calls && Winner(s.calls[w]);
    assert w in t.calls && t.calls[w] == s.calls[w];
  }

  lemma FirstCallStep(s: Server, c: Id)
    requires Inv(s) && Can(s, Call(c)) && !s.shuttingDown
    ensures Inv(Do(s, Call(c)))
  {
    hide WorldOk, CallOk, Lists;
    var t := Do(s, Call(c));
    CallsAreNoWorld(s, t);
    FirstCallOk(t);
    assert c in t.calls && t.calls[c] == Won && s.calls == map[];
    assert forall d :: d in t.calls ==> d == c;
  }

  lemma SameWorld(s: Server, t: Server, p: Phase)
    requires CallOk(s, p) && t.scheduled == s.scheduled && t.started == s.started && t.sessions == s.sessions
    ensures CallOk(t, p)
  {
  }

  lemma CallsAreNoWorld(s: Server, t: Server)
    requires WorldOk(s) && t == s.(calls := t.calls, shuttingDown := t.shuttingDown, closed := t.closed)
    ensures WorldOk(t)
  {
  }

  lemma FirstCallOk(t: Server)
    requires t.scheduled == multiset{}
    ensures CallOk(t, Won)
  {
    assert SnapshotOf(Won) == [] && First([], 0) == multiset{};
  }

  lemma WinnerOk(s: Server, c: Id)
    requires Inv(s) && c in s.calls && Winner(s.calls[c])
    ensures CallOk(s, s.calls[c]) && s.waiting == |s.sessions| && s.sessions <= s.started
    ensures forall id :: s.closed[id] <= s.scheduled[id]
  {
    hide CallOk;
  }

  lemma ScheduleStep(s: Server, c: Id)
    requires Inv(s) && Can(s, Schedule(c))
    ensures Inv(Do(s, Schedule(c)))
  {
    hide Inv, First, Distinct, Among;
    WinnerOk(s, c);
    var p := s.calls[c];
    var q := Notifying(p.snapshot, p.next + 1);
    ScheduledOneMore(p.snapshot, p.next);
    assert CallOk(Do(s, Schedule(c)), q);
    CallMoves(s, c, q, s.scheduled + multiset{p.snapshot[p.next]}, s.open);
  }

  lemma ScheduledOneMore(xs: seq<Id>, k: nat)
    requires k < |xs|
    ensures First(xs, k + 1) == First(xs, k) + multiset{xs[k]}
  {
    assert xs[..k + 1] == xs[..k] + [xs[k]];
  }

  predicate IsPhaseStep(a: Step) {
    a.ListListeners? || a.CloseListener? || a.Count? || a.Snapshot? || a.StartWaiter? || a.WaiterSeesZero? || a.ReturnDone?
    || a.ReturnTimedOut?
  }

  lemma SnapshotOk(s: Server, c: Id, order: seq<Id>)
    requires Can(s, Snapshot(c, order)) && CallOk(s, s.calls[c]) && s.sessions <= s.started
    ensures CallOk(Do(s, Snapshot(c, order)), Notifying(order, 0))
  {
    assert order[..0] == [];
  }

  lemma ZeroOk(s: Server, c: Id)
    requires Can(s, WaiterSeesZero(c)) && CallOk(s, s.calls[c]) && s.waiting == |s.sessions|
    ensures CallOk(Do(s, WaiterSeesZero(c)), Woken(s.calls[c].snapshot, s.started))
  {
    hide Distinct, First;
    assert s.sessions == {};
  }

  lemma PhaseOk(s: Server, a: Step)
    requires IsPhaseStep(a) && Can(s, a) && CallOk(s, s.calls[a.c])
    requires s.waiting == |s.sessions| && s.sessions <= s.started
    ensures Winner(Do(s, a).calls[a.c]) && CallOk(Do(s, a), Do(s, a).calls[a.c])
  {
    match a
    case Snapshot(c, order) => SnapshotOk(s, c, order);
    case WaiterSeesZero(c) => ZeroOk(s, c);
    case _ => OtherPhaseOk(s, a);
  }

  lemma OtherPhaseOk(s: Server, a: Step)
    requires IsPhaseStep(a) && !a.Snapshot? && !a.WaiterSeesZero? && Can(s, a) && CallOk(s, s.calls[a.c])
    ensures Winner(Do(s, a).calls[a.c]) && CallOk(Do(s, a), Do(s, a).calls[a.c])
  {
    hide Among, Lists, First, Distinct;
    NothingListed(s.started);
  }

  lemma NothingListed(s: set<Id>)
    ensures Among([], s)
  {
  }

  lemma PhaseStep(s: Server, a: Step)
    requires Inv(s) && Can(s, a) && IsPhaseStep(a)
    ensures Inv(Do(s, a))
  {
    hide Inv, CallOk;
    WinnerOk(s, a.c);
    PhaseOk(s, a);
    var q := Do(s, a).calls[a.c];
    var open := Do(s, a).open;
    assert Do(s, a) == s.(calls := s.calls[a.c := q], scheduled := s.scheduled, open := open);
    CallMoves(s, a.c, q, s.scheduled, open);
  }

  lemma ConnectionStep(s: Server, a: Step)
    requires WorldOk(s) && Can(s, a) && (a.Listen? || a.Accept?)
    ensures WorldOk(Do(s, a))
  {
  }

  lemma RegisterStep(s: Server, id: Id)
    requires WorldOk(s) && Can(s, Register(id))
    ensures WorldOk(Do(s, Register(id)))
  {
    hide Lists;
    assert id !in s.gone && id !in s.sessions;
    assert (s.started + {id}) - s.gone == s.sessions + {id};
  }

  lemma UnregisterStep(s: Server, id: Id)
    requires WorldOk(s) && Can(s, Unregister(id))
    ensures WorldOk(Do(s, Unregister(id)))
  {
    hide Lists;
    assert s.started - (s.gone + {id}) == s.sessions - {id};
  }

  lemma StepKeeps(s: Server, a: Step)
    requires Inv(s) && Can(s, a)
    ensures Inv(Do(s, a))
  {
    hide WorldOk, CallOk;
    if a.Listen? || a.Accept? {
      ConnectionStep(s, a);
      SessionsMove(s, Do(s, a));
    } else if a.Register? {
      RegisterStep(s, a.id);
      SessionsMove(s, Do(s, a));
    } else if a.Unregister? {
      UnregisterStep(s, a.id);
      SessionsMove(s, Do(s, a));
    } else if a.Call? {
      if s.shuttingDown { LateCallStep(s, a.c); } else { FirstCallStep(s, a.c); }
    } else if a.Schedule? {
      ScheduleStep(s, a.c);
    } else if a.Close421? {
      var t := Do(s, a);
      CallsAreNoWorld(s, t);
      forall c | c in s.calls && Winner(s.calls[c])
        ensures CallOk(t, s.calls[c])
      {
        SameWorld(s, t, s.calls[c]);
      }
    } else {
      PhaseStep(s, a);
    }
  }

  lemma {:induction false} InvAlways(steps: seq<Step>)
    requires Possible(steps)
    ensures Inv(After(steps))
  {
    hide Inv, Can, Do;
    if steps == [] {
      InitialInv();
    } else {
      InvAlways(steps[..|steps| - 1]);
      StepKeeps(After(steps[..|steps| - 1]), steps[|steps| - 1]);
    }
  }

  lemma InitialInv()
    ensures Inv(INITIAL)
  {
  }

  // ---------- Theorems ----------

  /** In every interleaving the wait group counts exactly the registered sessions. */
  lemma WaitGroupCountsSessions(steps: seq<Step>)
    requires Possible(steps)
    ensures After(steps).waiting == |After(steps).sessions|
  {
    hide Possible, After;
    InvAlways(steps);
  }

  /** Only one call ever gets past the swap; every other one returns nil at once and never notifies. */
  lemma OnlyOneNotifies(steps: seq<Step>, c: Id, d: Id)
    requires Possible(steps)
    requires c in After(steps).calls && d in After(steps).calls && c != d
    ensures After(steps).calls[c] == Returned(Already) || After(steps).calls[d] == Returned(Already)
  {
    hide Possible, After;
    InvAlways(steps);
  }

  lemma {:induction false} DistinctOnce(xs: seq<Id>, id: Id)
    requires Distinct(xs)
    ensures multiset(xs)[id] == if id in xs then 1 else 0
  {
    if xs != [] {
      var n := |xs| - 1;
      assert xs == xs[..n] + [xs[n]];
      DistinctOnce(xs[..n], id);
    }
  }

  /**
    While a call waits and after it returned, every session it had listed has been scheduled exactly one 421 close
    and no other session any; a session is never closed more often than scheduled.
  */
  lemma EachListedOnce(steps: seq<Step>, c: Id, id: Id)
    requires Possible(steps) && c in After(steps).calls
    requires var p := After(steps).calls[c];
      p.Waiting? || p.Woken? || (p.Returned? && (p.outcome.AllDone? || p.outcome.TimedOut?))
    ensures var s := After(steps);
      s.scheduled[id] == (if id in SnapshotOf(s.calls[c]) then 1 else 0) && s.closed[id] <= s.scheduled[id]
  {
    hide Possible, After;
    InvAlways(steps);
    var s := After(steps);
    assert CallOk(s, s.calls[c]);
    var listed := SnapshotOf(s.calls[c]);
    assert listed[..|listed|] == listed;
    DistinctOnce(listed, id);
  }

  /** At no time is any session scheduled twice. */
  lemma NeverScheduledTwice(steps: seq<Step>, id: Id)
    requires Possible(steps)
    ensures After(steps).scheduled[id] <= 1
  {
    hide Possible, After;
    InvAlways(steps);
    var s := After(steps);
    if c :| c in s.calls && Winner(s.calls[c]) {
      var p := s.calls[c];
      assert CallOk(s, p);
      var listed := SnapshotOf(p);
      assert listed[..|listed|] == listed;
      DistinctOnce(listed, id);
      if p.Notifying? {
        DistinctOnce(p.snapshot[..p.next], id);
      }
    }
  }

  /**
    A nil return through the wait path vouches for every listed session, and for every session registered before
    the wait group was seen at zero: all of them have unregistered, then and for good.
  */
  lemma NilMeansListedAreGone(steps: seq<Step>, c: Id, id: Id)
    requires Possible(steps) && c in After(steps).calls
    requires var p := After(steps).calls[c]; p.Returned? && p.outcome.AllDone?
    ensures var s := After(steps);
      var o := s.calls[c].outcome;
      (id in o.snapshot ==> id in o.seen) && (id in o.seen ==> id in s.started && id !in s.sessions)
  {
    hide Possible, After;
    InvAlways(steps);
    assert CallOk(After(steps), After(steps).calls[c]);
  }

  // ---------- What a nil return leaves ----------

  lemma {:induction false} OneAfterTheOther(steps: seq<Step>, more: seq<Step>)
    requires Possible(steps + more)
    ensures Possible(steps)
    ensures more != [] ==> Possible(steps + more[..|more| - 1])
    ensures more != [] ==> Can(After(steps + more[..|more| - 1]), more[|more| - 1])
    ensures more != [] ==> After(steps + more) == Do(After(steps + more[..|more| - 1]), more[|more| - 1])
  {
    hide Can, Do;
    if more == [] {
      assert steps + more == steps;
    } else {
      assert (steps + more)[..|steps + more| - 1] == steps + more[..|more| - 1];
      OneAfterTheOther(steps, more[..|more| - 1]);
    }
  }

  predicate IsClosed(s: Server, port: Id) {
    port in s.listened && port !in s.open
  }

  predicate CameIn(s: Server, port: Id, id: Id) {
    id in s.accepted && s.accepted[id] == port
  }

  lemma ClosedStep(s: Server, a: Step, port: Id, id: Id)
    requires Can(s, a) && IsClosed(s, port)
    ensures IsClosed(Do(s, a), port) && (CameIn(Do(s, a), port, id) ==> CameIn(s, port, id))
  {
    hide Lists;
  }

  /** A closed listener stays closed and accepts nothing more. */
  lemma {:induction false} ClosedAcceptsNothing(steps: seq<Step>, more: seq<Step>, port: Id, id: Id)
    requires Possible(steps) && Possible(steps + more) && IsClosed(After(steps), port)
    ensures IsClosed(After(steps + more), port)
    ensures CameIn(After(steps + more), port, id) ==> CameIn(After(steps), port, id)
  {
    hide Possible, After, Can, Do, IsClosed, CameIn;
    if more == [] {
      assert steps + more == steps;
    } else {
      OneAfterTheOther(steps, more);
      ClosedAcceptsNothing(steps, more[..|more| - 1], port, id);
      ClosedStep(After(steps + more[..|more| - 1]), more[|more| - 1], port, id);
    }
  }

  lemma NilVouches(s: Server, c: Id)
    requires Inv(s) && c in s.calls && s.calls[c].Returned?
    requires var o := s.calls[c].outcome; o.AllDone? || o.NoneActive?
    ensures var seen := s.calls[c].outcome.seen; s.sessions == s.started - seen - s.gone && seen <= s.gone
    ensures s.sessions <= s.accepted.Keys
  {
    hide Distinct, Among, First;
    assert CallOk(s, s.calls[c]);
  }

  /** The winning call has returned nil. */
  predicate ReturnedNil(s: Server, c: Id) {
    c in s.calls && s.calls[c].Returned? && (s.calls[c].outcome.AllDone? || s.calls[c].outcome.NoneActive?)
  }

  /**
    A session that is active after a nil return was not seen by the call: it was accepted before the listeners were
    closed and registered too late, or it came in through a listener that was not among the closed ones.
  */
  lemma LeftBehind(steps: seq<Step>, more: seq<Step>, c: Id, id: Id)
    requires Possible(steps) && Possible(steps + more)
    requires c in After(steps).calls && After(steps).calls[c] == Closing({})
    requires ReturnedNil(After(steps + more), c) && id in After(steps + more).sessions
    ensures var s, t := After(steps), After(steps + more);
      && id !in t.calls[c].outcome.seen && id in t.accepted
      && (id in s.accepted || t.accepted[id] in s.open || t.accepted[id] !in s.listened)
  {
    hide Possible, After, Inv;
    InvAlways(steps + more);
    var t := After(steps + more);
    NilVouches(t, c);
    if IsClosed(After(steps), t.accepted[id]) {
      ClosedAcceptsNothing(steps, more, t.accepted[id], id);
    }
  }

  /** Every listener has been opened and closed, and every connection accepted has had its session and ended it. */
  ghost predicate Quiet(s: Server) {
    s.open == {} && (forall p: nat :: p < PORTS ==> p in s.listened) && s.accepted.Keys == s.gone
  }

  lemma {:induction false} QuietStays(steps: seq<Step>, more: seq<Step>)
    requires Possible(steps) && Possible(steps + more) && Quiet(After(steps))
    ensures Quiet(After(steps + more))
  {
    hide Possible, After;
    if more == [] {
      assert steps + more == steps;
    } else {
      OneAfterTheOther(steps, more);
      QuietStays(steps, more[..|more| - 1]);
      InvAlways(steps + more[..|more| - 1]);
      QuietStep(After(steps + more[..|more| - 1]), more[|more| - 1]);
    }
  }

  lemma QuietStep(s: Server, a: Step)
    requires WorldOk(s) && Quiet(s) && Can(s, a)
    ensures Quiet(Do(s, a))
  {
  }

  /** Some session is active at some time from here on. */
  ghost predicate SomeoneLater(steps: seq<Step>) {
    exists more: seq<Step> :: Possible(steps + more) && After(steps + more).sessions != {}
  }

  lemma Extends(steps: seq<Step>, a: Step)
    requires Possible(steps) && Can(After(steps), a)
    ensures Possible(steps + [a]) && After(steps + [a]) == Do(After(steps), a)
  {
    assert (steps + [a])[..|steps|] == steps;
  }

  lemma CanRegister(steps: seq<Step>, id: Id)
    requires Possible(steps) && id in After(steps).accepted && id !in After(steps).started
    ensures SomeoneLater(steps)
  {
    hide Possible, After;
    Extends(steps, Register(id));
    assert id in After(steps + [Register(id)]).sessions;
  }

  lemma Sooner(steps: seq<Step>, a: Step)
    requires SomeoneLater(steps + [a])
    ensures SomeoneLater(steps)
  {
    hide Possible, After;
    var more: seq<Step> :| Possible(steps + [a] + more) && After(steps + [a] + more).sessions != {};
    assert steps + [a] + more == steps + ([a] + more);
  }

  lemma CanAccept(steps: seq<Step>, port: Id)
    requires Possible(steps) && port in After(steps).open
    ensures SomeoneLater(steps)
  {
    hide Possible, After;
    InvAlways(steps);
    var id := NewId(After(steps).accepted.Keys);
    Extends(steps, Accept(port, id));
    CanRegister(steps + [Accept(port, id)], id);
    Sooner(steps, Accept(port, id));
  }

  lemma {:induction false} NewId(used: set<Id>) returns (id: Id)
    ensures id !in used
    ensures forall x :: x in used ==> x < id
  {
    if used == {} {
      id := 0;
    } else {
      var x :| x in used;
      id := NewId(used - {x});
      assert forall y :: y in used ==> y == x || y in used - {x};
      if id <= x {
        id := x + 1;
      }
    }
  }

  /**
    Whatever Shutdown has returned, nobody is active now or later exactly when every listener has been opened and
    closed and every accepted connection has had its session and ended it.
  */
  lemma NobodyLaterExactly(steps: seq<Step>)
    requires Possible(steps)
    ensures !SomeoneLater(steps) <==> Quiet(After(steps))
  {
    hide Possible, After;
    var s := After(steps);
    InvAlways(steps);
    if Quiet(s) {
      forall more: seq<Step> | Possible(steps + more)
        ensures After(steps + more).sessions == {}
      {
        QuietStays(steps, more);
        InvAlways(steps + more);
      }
    } else {
      NotQuiet(steps);
    }
  }

  lemma NotQuiet(steps: seq<Step>)
    requires Possible(steps) && !Quiet(After(steps)) && Inv(After(steps))
    ensures SomeoneLater(steps)
  {
    hide Possible, After;
    var s := After(steps);
    if s.sessions != {} {
      assert steps + [] == steps;
      var none: seq<Step> := [];
      assert Possible(steps + none) && After(steps + none).sessions != {};
    } else if port :| port in s.open {
      CanAccept(steps, port);
    } else if port: nat :| port < PORTS && port !in s.listened {
      Extends(steps, Listen(port));
      CanAccept(steps + [Listen(port)], port);
      Sooner(steps, Listen(port));
    } else {
      var id :| id in s.accepted && id !in s.gone;
      CanRegister(steps, id);
    }
  }

  // ---------- When a nil return is true ----------

  /** Every listener has been opened and closed, and every accepted connection has registered its session. */
  ghost predicate Sealed(s: Server) {
    s.open == {} && (forall p: nat :: p < PORTS ==> p in s.listened) && s.accepted.Keys == s.started
  }

  /** Whatever happens from here on, if the call returns nil then nobody is active. */
  ghost predicate NilIsTrue(steps: seq<Step>, c: Id) {
    forall more: seq<Step> ::
      Possible(steps + more) && ReturnedNil(After(steps + more), c) ==> After(steps + more).sessions == {}
  }

  /** A call that has seen zero has seen every session there ever was. */
  predicate SawAll(s: Server, c: Id) {
    c in s.calls && (s.calls[c].Woken? ==> s.calls[c].seen == s.started)
    && (ReturnedNil(s, c) ==> s.calls[c].outcome.seen == s.started)
  }

  lemma SealedStep(s: Server, a: Step)
    requires WorldOk(s) && Sealed(s) && Can(s, a)
    ensures Sealed(Do(s, a)) && Do(s, a).started == s.started
  {
    hide Lists;
  }

  lemma SawAllStep(s: Server, a: Step, c: Id)
    requires SawAll(s, c) && Can(s, a) && Do(s, a).started == s.started
    ensures SawAll(Do(s, a), c)
  {
    hide Lists;
  }

  lemma {:induction false} SealedStays(steps: seq<Step>, more: seq<Step>, c: Id)
    requires Possible(steps) && Possible(steps + more) && Sealed(After(steps)) && SawAll(After(steps), c)
    ensures Sealed(After(steps + more)) && SawAll(After(steps + more), c)
  {
    hide Possible, After, Sealed, SawAll, Can, Do;
    if more == [] {
      assert steps + more == steps;
    } else {
      OneAfterTheOther(steps, more);
      SealedStays(steps, more[..|more| - 1], c);
      InvAlways(steps + more[..|more| - 1]);
      SealedStep(After(steps + more[..|more| - 1]), more[|more| - 1]);
      SawAllStep(After(steps + more[..|more| - 1]), more[|more| - 1], c);
    }
  }

  /** All sessions may end before anything else happens. */
  lemma {:induction false} Drain(steps: seq<Step>) returns (more: seq<Step>)
    requires Possible(steps)
    ensures Possible(steps + more) && After(steps + more).sessions == {}
    ensures var s, t := After(steps), After(steps + more);
      t.calls == s.calls && t.open == s.open && t.listened == s.listened && t.accepted == s.accepted
      && t.started == s.started
    decreases |After(steps).sessions|
  {
    hide Possible, After;
    var s := After(steps);
    if s.sessions == {} {
      more := [];
      assert steps + more == steps;
    } else {
      var id :| id in s.sessions;
      Extends(steps, Unregister(id));
      var rest := Drain(steps + [Unregister(id)]);
      more := [Unregister(id)] + rest;
      assert steps + [Unregister(id)] + rest == steps + more;
    }
  }

  lemma ReturnStep(s: Server, a: Step, c: Id)
    requires ReturnedNil(s, c) && Can(s, a)
    ensures ReturnedNil(Do(s, a), c)
  {
    hide Lists;
  }

  lemma {:induction false} ReturnIsFinal(steps: seq<Step>, more: seq<Step>, c: Id)
    requires Possible(steps) && Possible(steps + more) && ReturnedNil(After(steps), c)
    ensures ReturnedNil(After(steps + more), c)
  {
    hide Possible, After, Can, Do, ReturnedNil;
    if more == [] {
      assert steps + more == steps;
    } else {
      OneAfterTheOther(steps, more);
      ReturnIsFinal(steps, more[..|more| - 1], c);
      ReturnStep(After(steps + more[..|more| - 1]), more[|more| - 1], c);
    }
  }

  /** Where something is left open, the call may return nil at once and somebody be active later. */
  lemma UnsealedMisleads(steps: seq<Step>, c: Id) returns (more: seq<Step>)
    requires Possible(steps) && c in After(steps).calls && After(steps).calls[c] == Closing({})
    requires !Sealed(After(steps))
    ensures Possible(steps + more) && ReturnedNil(After(steps + more), c) && After(steps + more).sessions != {}
  {
    hide Possible, After;
    var drained := Drain(steps);
    Extends(steps + drained, Count(c));
    var returned := steps + drained + [Count(c)];
    InvAlways(returned);
    assert ReturnedNil(After(returned), c);
    NotQuiet(returned);
    var later: seq<Step> :| Possible(returned + later) && After(returned + later).sessions != {};
    ReturnIsFinal(returned, later, c);
    more := drained + [Count(c)] + later;
    assert returned + later == steps + more;
  }

  /**
    At the moment a call has closed the listeners it listed, its nil return will be true in every continuation exactly
    when every listener has been opened and closed and every accepted connection has registered its session.
  */
  lemma NilIsTrueExactly(steps: seq<Step>, c: Id)
    requires Possible(steps) && c in After(steps).calls && After(steps).calls[c] == Closing({})
    ensures NilIsTrue(steps, c) <==> Sealed(After(steps))
  {
    hide Possible, After, Sealed;
    if Sealed(After(steps)) {
      forall more: seq<Step> | Possible(steps + more) && ReturnedNil(After(steps + more), c)
        ensures After(steps + more).sessions == {}
      {
        SealedStays(steps, more, c);
        InvAlways(steps + more);
        NilVouches(After(steps + more), c);
      }
    } else {
      var more := UnsealedMisleads(steps, c);
    }
  }

  /** A connection accepted before the close whose goroutine registers it too late is never notified. */
  lemma NilWithALiveSession()
    ensures var steps := [Listen(1), Accept(1, 7), Call(0), ListListeners(0), CloseListener(0, 1), Count(0), Register(7)];
      Possible(steps) && After(steps).calls[0] == Returned(NoneActive({})) && After(steps).sessions == {7}
      && After(steps).scheduled == multiset{} && After(steps).open == {}
  {
    hide Possible, After;
    EmptySchedule();
    Extends([], Listen(1));
    assert [] + [Listen(1)] == [Listen(1)];
    var two := [Listen(1), Accept(1, 7)];
    Extends([Listen(1)], Accept(1, 7));
    assert [Listen(1)] + [Accept(1, 7)] == two;
    Extends(two, Call(0));
    Extends(two + [Call(0)], ListListeners(0));
    var four := [Listen(1), Accept(1, 7), Call(0), ListListeners(0)];
    assert two + [Call(0)] + [ListListeners(0)] == four;
    Extends(four, CloseListener(0, 1));
    Extends(four + [CloseListener(0, 1)], Count(0));
    var six := [Listen(1), Accept(1, 7), Call(0), ListListeners(0), CloseListener(0, 1), Count(0)];
    assert four + [CloseListener(0, 1)] + [Count(0)] == six;
    Extends(six, Register(7));
    assert six + [Register(7)]
        == [Listen(1), Accept(1, 7), Call(0), ListListeners(0), CloseListener(0, 1), Count(0), Register(7)];
  }

  /** A listener recorded after the list was copied is never closed and goes on accepting. */
  lemma NilWithAnOpenListener()
    ensures var steps := [Call(0), ListListeners(0), Listen(1), Count(0)];
      Possible(steps) && After(steps).calls[0] == Returned(NoneActive({})) && After(steps).open == {1}
      && SomeoneLater(steps)
  {
    hide Possible, After;
    EmptySchedule();
    Extends([], Call(0));
    assert [] + [Call(0)] == [Call(0)];
    var two := [Call(0), ListListeners(0)];
    Extends([Call(0)], ListListeners(0));
    assert [Call(0)] + [ListListeners(0)] == two;
    Extends(two, Listen(1));
    Extends(two + [Listen(1)], Count(0));
    var four := [Call(0), ListListeners(0), Listen(1), Count(0)];
    assert two + [Listen(1)] + [Count(0)] == four;
    CanAccept(four, 1);
  }

  lemma EmptySchedule()
    ensures Possible([]) && After([]) == INITIAL
  {
  }
}
