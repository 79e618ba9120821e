/** Why what is proved about budgets is about conversations that were never forgotten: how many
    an engine can be talked to in before its budgets fail, exactly. */
module Crowding {
  import opened Optionals
  import opened Text
  import opened Capture
  import opened Offers
  import opened Recency
  import opened CaptureRuns
  import opened CaptureTheorems

  function Room(i: nat): Scope { Scope(Group, "shared", [], i) }

  const FACT := Proposal("gate", "4417", [], Target.Shared)

  /** A call waiting on its question in room 0, charged to turn 0. */
  function Waiting(o: Options): Flight {
    Flight(Room(0), Target.Shared, "gate", StoredBody(o, FACT), 7, 0, true, Asking,
           [Asked("gate", StoredBody(o, FACT), [ChoiceShared, ChoiceDecline], 7)])
  }

  lemma FactReaches(o: Options)
    ensures TrimSpace(FACT.title) == "gate" && Reaches(Room(0), FACT)
    ensures Launch(o, Room(0), FACT, 7, 0) == Waiting(o)
  {
    assert TrimLeft("gate") == "gate" && TrimRight("gate") == "gate";
  }

  /** Room 0 in turn 0, with nothing refused and `n` offers to one member counted. */
  predicate AtZero(st: ScopeState, n: nat) {
    st.turn == 0 && Offered(st, 7) == n && st.declines == []
  }

  /** There the next offer is granted, in turn 0, as long as the budget lasts. */
  lemma GrantedAtZero(o: Options, s: System, id: nat, n: nat)
    requires id !in s.flights && n < o.maxProposals && AtZero(Touched(s.book, Room(0).Key()).states[Room(0).Key()], n)
    ensures var t := Step(o, s, Open(id, Room(0), FACT, 7));
            && t.flights == s.flights[id := Waiting(o)] && t.touches == s.touches + [Room(0).Key()]
            && t.evicted == s.evicted + Lost(s.book, Room(0).Key())
            && Room(0).Key() in t.book.states && AtZero(t.book.states[Room(0).Key()], n + 1)
  {
    hide TrimSpace, Launch, Waiting, Touched, Lost, Reaches;
    FactReaches(o);
    assert Reaches(Room(0), FACT);
  }

  /** The refund of an offer made in turn 0 credits whatever turn is now numbered 0. */
  lemma RefundedAtZero(o: Options, s: System, id: nat)
    requires id in s.flights && s.flights[id] == Waiting(o)
    requires Room(0).Key() in s.book.states && AtZero(s.book.states[Room(0).Key()], 1)
    ensures var t := Step(o, s, Deliver(id, AskFailed));
            && id in t.flights && t.flights == s.flights[id := t.flights[id]] && !t.flights[id].charged
            && t.touches == s.touches + [Room(0).Key()]
            && Room(0).Key() in t.book.states && AtZero(t.book.states[Room(0).Key()], 0)
  {
  }

  // ---- a crowd ----

  /** Somebody speaks in each of the first `n` other rooms. */
  ghost function Crowd(n: nat): seq<Event> {
    if n == 0 then [Open(0, Room(0), FACT, 7)] else Crowd(n - 1) + [Begin(Room(n), "turn")]
  }

  function Others(n: nat): set<ScopeKey> {
    if n == 0 then {} else Others(n - 1) + {Room(n).Key()}
  }

  lemma {:induction false} OthersAre(n: nat)
    ensures |Others(n)| == n && forall k :: k in Others(n) ==> 1 <= k.chatId <= n
  {
    if n > 0 {
      OthersAre(n - 1);
      assert Room(n).Key() !in Others(n - 1);
    }
  }

  lemma FirstCallWaits(o: Options)
    requires o.Normal()
    ensures PushedBack(o, Run(o, START, Crowd(0)), 0)
  {
    assert Crowd(0)[..0] == [];
    GrantedAtZero(o, START, 0, 0);
  }

  lemma SpokenElsewhere(o: Options, s: System, i: nat)
    ensures var t := Step(o, s, Begin(Room(i), "turn")); t.flights == s.flights && t.touches == s.touches + [Room(i).Key()]
  {
  }

  lemma OnePlaceMore(h: Touches, k: ScopeKey)
    ensures Places(h + [k]) == Places(h) + {k}
  {
  }

  /** Room 0's question waits, and since it was put there have been `n` other rooms. */
  ghost predicate PushedBack(o: Options, s: System, n: nat) {
    && s.flights == map[0 := Waiting(o)]
    && Places(s.touches) == Others(n) + {Room(0).Key()} && Since(s.touches, Room(0).Key()) == Others(n)
  }

  lemma OneRoomMore(o: Options, s: System, n: nat)
    requires n > 0 && PushedBack(o, s, n - 1)
    ensures PushedBack(o, Step(o, s, Begin(Room(n), "turn")), n)
  {
    hide Step, Places, Since, Waiting;
    var k := Room(n).Key();
    SpokenElsewhere(o, s, n);
    OnePlaceMore(s.touches, k);
    SinceOneMore(s.touches, k, Room(0).Key());
    assert k != Room(0).Key();
  }

  lemma {:induction false} CrowdPushesOut(o: Options, n: nat)
    requires o.Normal()
    ensures PushedBack(o, Run(o, START, Crowd(n)), n)
  {
    hide Step, Run, PushedBack;
    if n == 0 {
      FirstCallWaits(o);
    } else {
      CrowdPushesOut(o, n - 1);
      RunOneMore(o, Crowd(n - 1), Begin(Room(n), "turn"));
      OneRoomMore(o, Run(o, START, Crowd(n - 1)), n);
    }
  }

  lemma CrowdForgets(o: Options, s: System, n: nat)
    requires o.Normal() && n >= MAX_SCOPES && Reachable(o, s) && PushedBack(o, s, n)
    ensures Room(0).Key() !in s.book.states && Room(0).Key() in Places(s.touches) && |Places(s.touches)| == n + 1
  {
    hide Reachable, Others, Since, Waiting;
    OthersAre(n);
    assert Room(0).Key() !in Others(n);
    RemembersTheMostRecent(o, s, Room(0).Key());
  }

  // ---- and then too many offers in one turn ----

  /** Of the calls so far the first has been handed back and `n` wait, all in room 0 and in the
      second of its turns to be numbered 0. */
  ghost predicate Filled(o: Options, s: System, n: nat, crowd: nat) {
    && (forall id: nat :: id in s.flights <==> id <= n)
    && !s.flights[0].charged && (forall id: nat :: 1 <= id <= n ==> s.flights[id] == Waiting(o))
    && |Places(s.touches)| == crowd + 1 && Room(0).Key() in Places(s.touches)
    && Room(0).Key() in s.book.states && n > 0 && AtZero(s.book.states[Room(0).Key()], n - 1)
  }

  lemma SamePlaces(h: Touches, k: ScopeKey)
    requires k in Places(h)
    ensures Places(h + [k]) == Places(h)
  {
  }

  lemma FreshIsZero(b: Book)
    requires Room(0).Key() !in b.states
    ensures AtZero(Touched(b, Room(0).Key()).states[Room(0).Key()], 0)
  {
  }

  lemma ForgottenThenFilled(o: Options, s0: System, crowd: nat) returns (s: System)
    requires o.Normal() && Reachable(o, s0) && s0.flights == map[0 := Waiting(o)]
    requires Room(0).Key() !in s0.book.states && Room(0).Key() in Places(s0.touches) && |Places(s0.touches)| == crowd + 1
    ensures Reachable(o, s) && Filled(o, s, 1, crowd)
  {
    hide Step, Reachable, Places, Waiting, Lost, AtZero, Touched;
    FreshIsZero(s0.book);
    GrantedAtZero(o, s0, 1, 0);
    ReachStep(o, s0, Open(1, Room(0), FACT, 7));
    SamePlaces(s0.touches, Room(0).Key());
    var s1 := Step(o, s0, Open(1, Room(0), FACT, 7));
    RefundedAtZero(o, s1, 0);
    ReachStep(o, s1, Deliver(0, AskFailed));
    SamePlaces(s1.touches, Room(0).Key());
    s := Step(o, s1, Deliver(0, AskFailed));
  }

  lemma OneMoreFills(o: Options, s: System, n: nat, crowd: nat)
    requires Reachable(o, s) && Filled(o, s, n, crowd) && n <= o.maxProposals
    ensures Reachable(o, Step(o, s, Open(n + 1, Room(0), FACT, 7)))
    ensures Filled(o, Step(o, s, Open(n + 1, Room(0), FACT, 7)), n + 1, crowd)
  {
    hide Step;
    ReachStep(o, s, Open(n + 1, Room(0), FACT, 7));
    GrantedAtZero(o, s, n + 1, n - 1);
    SamePlaces(s.touches, Room(0).Key());
  }

  lemma {:induction false} FilledUp(o: Options, n: nat, crowd: nat) returns (s: System)
    requires o.Normal() && 1 <= n <= o.maxProposals + 1 && crowd >= MAX_SCOPES
    ensures Reachable(o, s) && Filled(o, s, n, crowd)
  {
    if n == 1 {
      hide Run, Crowd, Others, Since;
      var s0 := Run(o, START, Crowd(crowd));
      CrowdPushesOut(o, crowd);
      assert Reachable(o, s0);
      CrowdForgets(o, s0, crowd);
      s := ForgottenThenFilled(o, s0, crowd);
    } else {
      var before := FilledUp(o, n - 1, crowd);
      OneMoreFills(o, before, n - 1, crowd);
      s := Step(o, before, Open(n, Room(0), FACT, 7));
    }
  }

  function UpTo(n: nat): (r: set<nat>)
    ensures |r| == n && forall id: nat :: id in r <==> 1 <= id <= n
  {
    if n == 0 then {} else UpTo(n - 1) + {n}
  }

  lemma FilledIsCharged(o: Options, s: System, n: nat, crowd: nat)
    requires Filled(o, s, n, crowd)
    ensures |Charged(s.flights, Room(0).Key(), 7, 0)| == n
  {
    forall id: nat ensures id in Charged(s.flights, Room(0).Key(), 7, 0) <==> id in UpTo(n) {
      if 1 <= id <= n { assert s.flights[id] == Waiting(o); }
    }
    assert Charged(s.flights, Room(0).Key(), 7, 0) == UpTo(n);
  }

  /** With whatever number of proposals allowed in a turn, a conversation pushed out by 32 others
      can have one more than that waiting on one member in one turn: the refund of the offer made
      before it was forgotten lands on the turn number the engine has begun to use again. */
  lemma RecycledTurnOverspends(o: Options) returns (s: System)
    requires o.Normal()
    ensures Reachable(o, s) && |Places(s.touches)| == MAX_SCOPES + 1
    ensures |Charged(s.flights, Room(0).Key(), 7, 0)| == o.maxProposals + 1
  {
    s := FilledUp(o, o.maxProposals + 1, MAX_SCOPES);
    FilledIsCharged(o, s, o.maxProposals + 1, MAX_SCOPES);
  }

  ghost predicate WithinBudget(o: Options, s: System) {
    forall k, speaker, turn: nat :: |Charged(s.flights, k, speaker, turn)| <= o.maxProposals
  }

  /** Whatever is said in no more than `n` conversations, every budget holds. */
  ghost predicate BudgetsHold(o: Options, n: nat) {
    forall events :: |Places(Run(o, START, events).touches)| <= n ==> WithinBudget(o, Run(o, START, events))
  }

  lemma FewKeepTheirBudgets(o: Options, events: seq<Event>)
    requires o.Normal() && |Places(Run(o, START, events).touches)| <= MAX_SCOPES
    ensures WithinBudget(o, Run(o, START, events))
  {
    var s := Run(o, START, events);
    FewScopesForgetNone(o, events);
    forall k, speaker, turn: nat ensures |Charged(s.flights, k, speaker, turn)| <= o.maxProposals {
      BudgetIsExact(o, s, k, speaker);
    }
  }

  /** 32 is exactly how many conversations the budgets can be relied on in. */
  lemma ThirtyTwoIsExact(o: Options, n: nat)
    requires o.Normal()
    ensures BudgetsHold(o, n) <==> n <= MAX_SCOPES
  {
    if n <= MAX_SCOPES {
      forall events | |Places(Run(o, START, events).touches)| <= n ensures WithinBudget(o, Run(o, START, events)) {
        FewKeepTheirBudgets(o, events);
      }
    } else {
      var s := RecycledTurnOverspends(o);
      var events :| s == Run(o, START, events);
      assert !WithinBudget(o, s);
    }
  }
}
