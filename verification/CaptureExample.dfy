/** The smallest run the theorems about refusals say anything about: a question, a no, and the
    same fact offered again. */
module CaptureExample {
  import opened Optionals
  import opened Text
  import opened Capture
  import opened Offers
  import opened CaptureRuns
  import opened CaptureTheorems
  import opened Crowding
  import opened Remember

  const ONE := Options(1, 10, SaveFirst, "", true, (t: string, b: string, a: seq<string>) => b)
  const NO := Answer(7, ChoiceDecline, false)

  /** Room 0 with its first question waiting, in turn 0. */
  ghost predicate Waits(s: System) {
    && s.flights == map[0 := Waiting(ONE)] && s.evicted == {}
    && Room(0).Key() in s.book.states && s.book.states[Room(0).Key()].turn == 0
  }

  lemma QuestionAsked() returns (s: System)
    ensures Reachable(ONE, s) && Waits(s)
  {
    assert START == Run(ONE, START, []);
    ReachStep(ONE, START, Open(0, Room(0), FACT, 7));
    GrantedAtZero(ONE, START, 0, 0);
    s := Step(ONE, START, Open(0, Room(0), FACT, 7));
  }

  lemma NoIsTurningDown(s: System)
    requires Waits(s)
    ensures TurnsDown(s.flights[0], NO)
    ensures var t := Step(ONE, s, Deliver(0, NO)); t.evicted == {} && t.flights.Keys == {0}
    ensures TurnIn(Step(ONE, s, Deliver(0, NO)), Room(0).Key()) == 0
  {
  }

  predicate EndsAs(s: System, id: nat, f: Flight) {
    id in s.flights && s.flights[id] == f
  }

  /** Nothing in between, and the second offer comes to nothing, because of the first. */
  lemma OneNoIsEnough() returns (s: System)
    ensures Reachable(ONE, s) && Waits(s)
    ensures var t := Step(ONE, s, Deliver(0, NO));
            && 0 in t.flights && CameToNothing(t.flights[0])
            && EndsAs(Step(ONE, t, Open(1, Room(0), FACT, 7)), 1, Refused(Room(0), FACT, 7, Duplicate))
  {
    hide Step, Inv, NormalizeTitle, TrimSpace, Reaches, TurnsDown, CameToNothing;
    s := QuestionAsked();
    var t := Step(ONE, s, Deliver(0, NO));
    NoIsTurningDown(s);
    FactReaches(ONE);
    ReachStep(ONE, s, Deliver(0, NO));
    TurningDownIsRecorded(ONE, s, 0, NO);
    assert Run(ONE, t, []) == t;
    DeclinedIsNotPutAgain(ONE, s, 0, NO, [], 1, Room(0), FACT);
    ReachableOk(ONE, t);
    OpenedWithTarget(ONE, t, 1, Room(0), FACT, 7);
    SuppressedWasRefused(ONE, t, 1, Room(0), FACT, 7);
    NoSilenceWithoutRefusal(ONE, t, 1, Room(0), FACT, 7);
  }

  const OWN := Scope(Direct, "mine", ["mine", "home"], 7)
  const CALL := RememberCall("gate", "4417", [], "personal")

  lemma WrittenAtOnce(turn: nat)
    ensures Launch(ONE, OWN, Proposed(CALL), 7, turn).trace == [Put("mine", "gate", "4417")]
    ensures Reaches(OWN, Proposed(CALL))
  {
    FactReaches(ONE);
  }

  lemma LaunchedInFreshTurn(s: System)
    requires 0 !in s.flights && OWN.Key() !in s.book.states
    ensures 0 in Step(ONE, s, Open(0, OWN, Proposed(CALL), 7)).flights
    ensures Step(ONE, s, Open(0, OWN, Proposed(CALL), 7)).flights[0] == Launch(ONE, OWN, Proposed(CALL), 7, 0)
  {
    hide Launch, TrimSpace, NormalizeTitle;
    WrittenAtOnce(0);
  }

  /** A fact the model called personal, in a member's own chat: written at once. */
  lemma SavedFirst() returns (s: System)
    ensures Reachable(ONE, s) && 0 in s.flights
    ensures s.flights[0].trace == [Put("mine", "gate", "4417")]
  {
    hide Step, Launch;
    assert START == Run(ONE, START, []);
    ReachStep(ONE, START, Open(0, OWN, Proposed(CALL), 7));
    LaunchedInFreshTurn(START);
    WrittenAtOnce(0);
    s := Step(ONE, START, Open(0, OWN, Proposed(CALL), 7));
    assert Run(ONE, s, []) == s;
    UnaskedWritesWereCalledPersonal(ONE, START, 0, OWN, CALL, 7, [], 0);
  }
}
