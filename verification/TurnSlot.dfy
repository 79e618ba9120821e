/** One conversation's turns: many handlers, one slot, a bounded queue behind it, and a
    release each handler may call twice. Every step below is one atomic action of one
    handler, and a run is any interleaving of them. */
module TurnSlot {

  datatype Ending = Ran | Dropped | Cancelled

  /** Where a handler is in admit and Handle.
      Arrived: about to try the slot without waiting.  Gate: found it full, about to take the
      lock on the waiter count.  Waiting: counted, in the select loop.  Acquired: got the slot
      there, not yet uncounted.  Leaving: its context ended there, not yet uncounted.
      Running: the turn.  Following: the turn over, the slot given up early, the capture
      question out. */
  datatype Place =
    | Arrived | Gate | Waiting(noticed: bool) | Acquired | Leaving | Running | Following
    | Finished(how: Ending)

  /** `fired` is the sync.Once of the handler's release; `turns` counts the times it has held
      the slot. */
  datatype Handler = Handler(place: Place, fired: bool, turns: nat)

  datatype Unit = Unit(full: bool, waiters: int, limit: nat, handlers: map<nat, Handler>)

  datatype Action =
    | Arrive(id: nat) | Try(id: nat) | Join(id: nat) | Grab(id: nat) | Notice(id: nat)
    | Cancel(id: nat) | Uncount(id: nat) | Early(id: nat) | Finish(id: nat)

  predicate At(u: Unit, id: nat, p: Place) {
    id in u.handlers && u.handlers[id].place == p
  }

  predicate IsWaiting(u: Unit, id: nat) {
    id in u.handlers && u.handlers[id].place.Waiting?
  }

  function Put(u: Unit, id: nat, p: Place): Unit
    requires id in u.handlers
  {
    u.(handlers := u.handlers[id := u.handlers[id].(place := p)])
  }

  function Take(u: Unit, id: nat, p: Place): Unit
    requires id in u.handlers
  {
    u.(full := true, handlers := u.handlers[id := Handler(p, false, u.handlers[id].turns + 1)])
  }

  /** Receiving from an empty slot would block, so a release that has not fired needs it full. */
  predicate CanRelease(u: Unit, id: nat) {
    id in u.handlers && (u.handlers[id].fired || u.full)
  }

  /** The first call empties the slot, whoever filled it; every later one does nothing. */
  function Release(u: Unit, id: nat): Unit
    requires CanRelease(u, id)
  {
    if u.handlers[id].fired then u
    else u.(full := false, handlers := u.handlers[id := u.handlers[id].(fired := true)])
  }

  predicate Enabled(u: Unit, a: Action) {
    match a
    case Arrive(id) => id !in u.handlers
    case Try(id) => At(u, id, Arrived)
    case Join(id) => At(u, id, Gate)
    case Grab(id) => IsWaiting(u, id) && !u.full
    case Notice(id) => At(u, id, Waiting(false))
    case Cancel(id) => IsWaiting(u, id)
    case Uncount(id) => At(u, id, Acquired) || At(u, id, Leaving)
    case Early(id) => At(u, id, Running) && CanRelease(u, id)
    case Finish(id) => (At(u, id, Running) || At(u, id, Following)) && CanRelease(u, id)
  }

  function Step(u: Unit, a: Action): Unit
    requires Enabled(u, a)
  {
    match a
    case Arrive(id) => u.(handlers := u.handlers[id := Handler(Arrived, false, 0)])
    case Try(id) => if u.full then Put(u, id, Gate) else Take(u, id, Running)
    case Join(id) =>
      if u.waiters >= u.limit then Put(u, id, Finished(Dropped))
      else Put(u.(waiters := u.waiters + 1), id, Waiting(false))
    case Grab(id) => Take(u, id, Acquired)
    case Notice(id) => Put(u, id, Waiting(true))
    case Cancel(id) => Put(u, id, Leaving)
    case Uncount(id) =>
      Put(u.(waiters := u.waiters - 1), id, if At(u, id, Acquired) then Running else Finished(Cancelled))
    case Early(id) => Put(Release(u, id), id, Following)
    case Finish(id) => Put(Release(u, id), id, Finished(Ran))
  }

  ghost predicate Runs(u: Unit, actions: seq<Action>, v: Unit)
    decreases |actions|
  {
    if actions == [] then u == v
    else Enabled(u, actions[0]) && Runs(Step(u, actions[0]), actions[1..], v)
  }

  // ---- the invariant ----

  predicate Holds(h: Handler) { h.place.Acquired? || h.place.Running? }

  predicate Counted(h: Handler) { h.place.Waiting? || h.place.Acquired? || h.place.Leaving? }

  predicate HadItsTurn(h: Handler) { Holds(h) || h.place.Following? || h.place == Finished(Ran) }

  function Holders(u: Unit): set<nat> {
    set id | id in u.handlers && Holds(u.handlers[id])
  }

  function Registered(u: Unit): set<nat> {
    set id | id in u.handlers && Counted(u.handlers[id])
  }

  ghost predicate Inv(u: Unit) {
    && |Holders(u)| == (if u.full then 1 else 0)
    && u.waiters == |Registered(u)| <= u.limit
    && (forall id :: id in u.handlers ==>
          var h := u.handlers[id];
          h.turns == (if HadItsTurn(h) then 1 else 0) && h.fired == (h.place.Following? || h.place == Finished(Ran)))
  }

  lemma SetPlus(s: set<nat>, x: nat)
    ensures x !in s ==> |s + {x}| == |s| + 1
    ensures x in s ==> |s - {x}| == |s| - 1
  {
  }

  /** What moving one handler does to the two counts. */
  lemma MoveOne(u: Unit, v: Unit, id: nat, h: Handler)
    requires v.handlers == u.handlers[id := h]
    ensures |Holders(v)| == |Holders(u)| - (if id in u.handlers && Holds(u.handlers[id]) then 1 else 0) + (if Holds(h) then 1 else 0)
    ensures |Registered(v)| == |Registered(u)| - (if id in u.handlers && Counted(u.handlers[id]) then 1 else 0) + (if Counted(h) then 1 else 0)
  {
    SetPlus(Holders(u), id);
    SetPlus(Registered(u), id);
    assert Holders(v) == if Holds(h) then Holders(u) + {id} else Holders(u) - {id};
    assert Registered(v) == if Counted(h) then Registered(u) + {id} else Registered(u) - {id};
  }

  lemma HolderMeansFull(u: Unit, id: nat)
    requires Inv(u) && id in Holders(u)
    ensures u.full && Holders(u) == {id}
  {
    SetPlus(Holders(u), id);
    assert Holders(u) - {id} == {};
  }

  lemma StepKeeps(u: Unit, a: Action)
    requires Inv(u) && Enabled(u, a)
    ensures Inv(Step(u, a))
  {
    var v := Step(u, a);
    if (a.Early? || a.Finish?) && At(u, a.id, Running) {
      assert a.id in Holders(u);
      HolderMeansFull(u, a.id);
    }
    MoveOne(u, v, a.id, v.handlers[a.id]);
  }

  lemma {:induction false} RunsKeep(u: Unit, actions: seq<Action>, v: Unit)
    requires Inv(u) && Runs(u, actions, v)
    ensures Inv(v)
    decreases |actions|
  {
    if actions != [] {
      StepKeeps(u, actions[0]);
      RunsKeep(Step(u, actions[0]), actions[1..], v);
    }
  }

  ghost predicate Reachable(u: Unit) {
    exists limit: nat, actions :: Runs(Unit(false, 0, limit, map[]), actions, u)
  }

  lemma ReachableKeeps(u: Unit)
    requires Reachable(u)
    ensures Inv(u)
  {
    var limit: nat, actions :| Runs(Unit(false, 0, limit, map[]), actions, u);
    var start := Unit(false, 0, limit, map[]);
    assert Holders(start) == {} && Registered(start) == {};
    RunsKeep(start, actions, u);
  }

  // ---- what follows ----

  /** At most one turn runs; the slot is full exactly while one handler holds it; the waiter
      count is the handlers waiting, and never more than the limit. */
  lemma OneTurnAtATime(u: Unit, a: nat, b: nat)
    requires Reachable(u)
    ensures At(u, a, Running) && At(u, b, Running) ==> a == b
    ensures u.full <==> exists id :: id in Holders(u)
    ensures u.waiters == |Registered(u)| <= u.limit
  {
    ReachableKeeps(u);
    if At(u, a, Running) && At(u, b, Running) {
      assert a in Holders(u) && b in Holders(u);
      HolderMeansFull(u, a);
    }
    if u.full {
      assert |Holders(u)| == 1;
      var id :| id in Holders(u);
    } else {
      assert Holders(u) == {};
    }
  }

  /** No release ever blocks; the one that ends a turn empties that turn's own slot; and the
      second call, by then, leaves whatever turn holds the slot holding it. */
  lemma ReleasesAreSafe(u: Unit, id: nat)
    requires Reachable(u) && (At(u, id, Running) || At(u, id, Following))
    ensures CanRelease(u, id)
    ensures At(u, id, Running) ==> Holders(u) == {id} && !Release(u, id).full && Holders(Step(u, Early(id))) == {}
    ensures At(u, id, Following) ==> Step(u, Finish(id)).full == u.full && Holders(Step(u, Finish(id))) == Holders(u)
  {
    ReachableKeeps(u);
    if At(u, id, Running) {
      assert id in Holders(u);
      HolderMeansFull(u, id);
      assert forall other :: other in Step(u, Early(id)).handlers && other != id ==> other !in Holders(u);
    }
  }

  /** A message ends once: having had the slot exactly once, or never. */
  lemma EndsOneWay(u: Unit, id: nat, a: Action)
    requires Reachable(u) && id in u.handlers && u.handlers[id].place.Finished?
    ensures u.handlers[id].turns == (if u.handlers[id].place.how.Ran? then 1 else 0)
    ensures Enabled(u, a) ==> id in Step(u, a).handlers && Step(u, a).handlers[id] == u.handlers[id]
  {
    ReachableKeeps(u);
  }

  /** A message that finds the slot taken waits exactly where the queue has room for it, and is
      turned away exactly where as many as may wait are waiting. */
  lemma DroppedIffQueueIsFull(u: Unit, id: nat)
    requires Reachable(u) && At(u, id, Gate)
    ensures At(Step(u, Join(id)), id, Waiting(false)) <==> |Registered(u)| < u.limit
    ensures At(Step(u, Join(id)), id, Finished(Dropped)) <==> |Registered(u)| == u.limit
  {
    hide Reachable, Registered, Holders;
    ReachableKeeps(u);
  }

  /** How every message that ends came to its end, over every step: run by its own turn's end,
      dropped at a full queue, cancelled out of the queue; and the slot is had at once only
      where it was free, and from the queue only by one who waited. */
  lemma EndingsAreEarned(u: Unit, a: Action, id: nat)
    requires Reachable(u) && Enabled(u, a) && id in Step(u, a).handlers
    requires id !in u.handlers || Step(u, a).handlers[id].place != u.handlers[id].place
    ensures a.id == id && Step(u, a).limit == u.limit
    ensures match Step(u, a).handlers[id].place
            case Arrived => id !in u.handlers
            case Gate => At(u, id, Arrived) && Holders(u) != {}
            case Waiting(noticed) =>
              if noticed then At(u, id, Waiting(false)) else At(u, id, Gate) && |Registered(u)| < u.limit
            case Acquired => IsWaiting(u, id) && Holders(u) == {}
            case Leaving => IsWaiting(u, id) && a == Cancel(id)
            case Running => At(u, id, Acquired) || (At(u, id, Arrived) && Holders(u) == {})
            case Following => At(u, id, Running)
            case Finished(Ran) => At(u, id, Running) || At(u, id, Following)
            case Finished(Dropped) => At(u, id, Gate) && a == Join(id) && |Registered(u)| == u.limit
            case Finished(Cancelled) => At(u, id, Leaving) && a == Uncount(id)
  {
    ReachableKeeps(u);
  }

  /** The actions that wait on nobody outside: a turn that returns, and the node's own. */
  predicate Internal(a: Action) {
    a.Try? || a.Join? || a.Grab? || a.Uncount? || a.Finish?
  }

  /** Nothing gets stuck: while any message is unfinished, some handler can move. */
  lemma NeverStuck(u: Unit, id: nat)
    requires Reachable(u) && id in u.handlers && !u.handlers[id].place.Finished?
    ensures exists a :: Internal(a) && Enabled(u, a)
  {
    ReachableKeeps(u);
    if At(u, id, Arrived) {
      assert Enabled(u, Try(id));
    } else if At(u, id, Gate) {
      assert Enabled(u, Join(id));
    } else if At(u, id, Acquired) || At(u, id, Leaving) {
      assert Enabled(u, Uncount(id));
    } else if IsWaiting(u, id) && !u.full {
      assert Enabled(u, Grab(id));
    } else if IsWaiting(u, id) {
      assert Holders(u) != {};
      var holder :| holder in Holders(u);
      assert if At(u, holder, Acquired) then Enabled(u, Uncount(holder)) else Enabled(u, Finish(holder));
    } else {
      ReleasesAreSafe(u, id);
      assert Enabled(u, Finish(id));
    }
  }

  // ---- and everything comes to an end ----

  function Rank(p: Place): nat {
    match p
    case Arrived => 7
    case Gate => 6
    case Waiting(noticed) => if noticed then 4 else 5
    case Acquired => 3
    case Running => 2
    case Leaving => 1
    case Following => 1
    case Finished(_) => 0
  }

  /** How many more steps everybody here can take at most. */
  ghost function Left(handlers: map<nat, Handler>): nat
    decreases |handlers|
  {
    if handlers == map[] then 0
    else
      var id :| id in handlers;
      assert (handlers - {id}).Keys == handlers.Keys - {id};
      Rank(handlers[id].place) + Left(handlers - {id})
  }

  lemma {:induction false} LeftWithout(handlers: map<nat, Handler>, id: nat)
    requires id in handlers
    ensures Left(handlers) == Rank(handlers[id].place) + Left(handlers - {id})
    decreases |handlers|
  {
    var k :| k in handlers && Left(handlers) == Rank(handlers[k].place) + Left(handlers - {k});
    if k != id {
      assert (handlers - {k}).Keys == handlers.Keys - {k} && (handlers - {id}).Keys == handlers.Keys - {id};
      LeftWithout(handlers - {k}, id);
      LeftWithout(handlers - {id}, k);
      assert handlers - {k} - {id} == handlers - {id} - {k};
    }
  }

  /** Every step but a new arrival brings the end nearer, so however the handlers are
      interleaved each message is run, dropped or cancelled after finitely many. */
  lemma EveryStepIsProgress(u: Unit, a: Action)
    requires Enabled(u, a) && !a.Arrive?
    ensures Left(Step(u, a).handlers) < Left(u.handlers)
  {
    var v := Step(u, a);
    LeftWithout(u.handlers, a.id);
    LeftWithout(v.handlers, a.id);
    assert v.handlers - {a.id} == u.handlers - {a.id};
  }

  lemma {:induction false} RunsAreBounded(u: Unit, actions: seq<Action>, v: Unit)
    requires Runs(u, actions, v) && forall a :: a in actions ==> !a.Arrive?
    ensures |actions| + Left(v.handlers) <= Left(u.handlers)
    decreases |actions|
  {
    if actions != [] {
      EveryStepIsProgress(u, actions[0]);
      RunsAreBounded(Step(u, actions[0]), actions[1..], v);
    }
  }
}
