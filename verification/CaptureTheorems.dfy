/** What every run of the capture engine guarantees a member. */
module CaptureTheorems {
  import opened Optionals
  import opened Text
  import opened Capture
  import opened Offers
  import opened OfferProofs
  import opened Declines
  import opened Recency
  import opened CaptureRuns
  import opened Titles

  ghost predicate Reachable(o: Options, s: System) {
    exists events :: s == Run(o, START, events)
  }

  lemma ReachableOk(o: Options, s: System)
    requires o.Normal() && Reachable(o, s)
    ensures Inv(o, s)
  {
    var events :| s == Run(o, START, events);
    StartOk(o);
    RunKeeps(o, START, events);
  }

  // ---- consent ----

  ghost predicate HeardBefore(trace: seq<Effect>, i: nat, speaker: int, choice: Choice)
    requires i <= |trace|
  {
    exists j :: 0 <= j < i && trace[j] == Heard(speaker, choice, false)
  }

  lemma NoEarlierPut(o: Options, f: Flight, i: nat)
    requires AllJustified(o, f) && i < |f.trace| && f.trace[i].Put?
    ensures forall j :: 0 <= j < i ==> !f.trace[j].Put?
  {
    assert Justified(o, f, f.trace[..i], f.trace[i]);
    forall j | 0 <= j < i ensures !f.trace[j].Put? {
      assert f.trace[..i][j] in f.trace[..i];
    }
  }

  /** Nothing is written twice, nothing is written that was not shown, and every write but
      one shape follows the asked member's own answer naming where it goes. */
  lemma ConsentBeforeEveryWrite(o: Options, s: System, id: nat, i: nat)
    requires o.Normal() && Reachable(o, s) && id in s.flights
    requires i < |s.flights[id].trace| && s.flights[id].trace[i].Put?
    ensures var f := s.flights[id]; var put := f.trace[i];
            && (forall j :: 0 <= j < |f.trace| && f.trace[j].Put? ==> j == i)
            && put.title == f.title && put.body == f.body
            && (if forall j :: 0 <= j < i ==> !f.trace[j].Asked? then
                  WritesPrivateDirectly(o, f.scope, f.target) && put.space == f.scope.write
                else
                  || (f.scope.AllowsPrivateCapture() && put.space == f.scope.write && HeardBefore(f.trace, i, f.speaker, ChoicePersonal))
                  || (SharedSpace(o, f.scope) == Some(put.space) && HeardBefore(f.trace, i, f.speaker, ChoiceShared)))
  {
    ReachableOk(o, s);
    var f := s.flights[id];
    assert Justified(o, f, f.trace[..i], f.trace[i]);
    NoEarlierPut(o, f, i);
    forall j | 0 <= j < |f.trace| && f.trace[j].Put? ensures j <= i {
      NoEarlierPut(o, f, j);
    }
    if forall j :: 0 <= j < i ==> !f.trace[j].Asked? {
      forall j | 0 <= j < i ensures !f.trace[j].Heard? {
        assert Justified(o, f, f.trace[..j], f.trace[j]);
      }
    } else {
      var j :| 0 <= j < i && f.trace[j].Asked?;
      assert f.trace[..i][j] == f.trace[j];
    }
  }

  /** Outside a member's own chat nothing is written but to the conversation's own space,
      and nothing without the asked member's tap on that destination. */
  lemma SharedChatsAlwaysAsk(o: Options, s: System, id: nat, i: nat)
    requires o.Normal() && Reachable(o, s) && id in s.flights
    requires !s.flights[id].scope.AllowsPrivateCapture()
    requires i < |s.flights[id].trace|
    ensures var f := s.flights[id];
            && (f.trace[i].Put? ==> f.trace[i].space == f.scope.write && HeardBefore(f.trace, i, f.speaker, ChoiceShared))
            && !f.trace[i].Share?
  {
    var f := s.flights[id];
    ReachableOk(o, s);
    assert Justified(o, f, f.trace[..i], f.trace[i]);
    if f.trace[i].Put? {
      ConsentBeforeEveryWrite(o, s, id, i);
    }
  }

  lemma {:induction false} OtherIsOther(read: seq<SpaceId>, write: SpaceId)
    ensures FirstOther(read, write).Some? ==> FirstOther(read, write).value != write
  {
    if read != [] {
      OtherIsOther(read[1..], write);
    }
  }

  /** Where a member's own chat publishes to: a readable space other than its own, or the one the
      engine was built with. It is the chat's own space only where it was built with that one. */
  lemma SharedIsElsewhere(o: Options, sc: Scope)
    requires sc.AllowsPrivateCapture()
    ensures SharedSpace(o, sc) == Some(sc.write) <==>
            FirstOther(sc.read, sc.write).None? && o.shared == sc.write && sc.write != ""
  {
    OtherIsOther(sc.read, sc.write);
  }

  /** A private entry is published only from the member's own space, only to the shared one,
      and only after that member's tap on Publish. Only an engine built with a member's own
      space for the shared one could publish it to where it is. */
  lemma ConsentBeforeEveryPublication(o: Options, s: System, id: nat, i: nat)
    requires o.Normal() && Reachable(o, s) && id in s.flights
    requires i < |s.flights[id].trace| && s.flights[id].trace[i].Share?
    ensures var f := s.flights[id];
            && f.scope.AllowsPrivateCapture() && f.trace[i].from == f.scope.write
            && SharedSpace(o, f.scope) == Some(f.trace[i].to)
            && HeardBefore(f.trace, i, f.speaker, ChoicePublish)
            && (f.trace[i].to == f.trace[i].from ==> o.shared == f.scope.write && FirstOther(f.scope.read, f.scope.write).None?)
  {
    ReachableOk(o, s);
    var f := s.flights[id];
    assert Justified(o, f, f.trace[..i], f.trace[i]);
    var j :| 0 <= j < i && f.trace[..i][j] == Heard(f.speaker, ChoicePublish, false);
    assert f.trace[j] == f.trace[..i][j];
    SharedIsElsewhere(o, f.scope);
  }

  /** Nothing a member answered Shared to, in their own chat, is written to their own space,
      unless the engine was built with that space for the shared one. */
  lemma SharedMeansShared(o: Options, s: System, id: nat, i: nat)
    requires o.Normal() && Reachable(o, s) && id in s.flights && s.flights[id].scope.AllowsPrivateCapture()
    requires i < |s.flights[id].trace| && s.flights[id].trace[i].Put?
    requires o.shared != s.flights[id].scope.write || FirstOther(s.flights[id].scope.read, s.flights[id].scope.write).Some?
    ensures var f := s.flights[id];
            if f.trace[i].space == f.scope.write
            then WritesPrivateDirectly(o, f.scope, f.target) || HeardBefore(f.trace, i, f.speaker, ChoicePersonal)
            else SharedSpace(o, f.scope) == Some(f.trace[i].space) && HeardBefore(f.trace, i, f.speaker, ChoiceShared)
  {
    ConsentBeforeEveryWrite(o, s, id, i);
    SharedIsElsewhere(o, s.flights[id].scope);
  }

  /** Only the entry this call itself stored is ever deleted, and only on its member's Undo. */
  lemma OnlyUndoDeletes(o: Options, s: System, id: nat, i: nat)
    requires o.Normal() && Reachable(o, s) && id in s.flights
    requires i < |s.flights[id].trace| && s.flights[id].trace[i].Delete?
    ensures var f := s.flights[id];
            && (exists j :: 0 <= j < i && f.trace[j] == Stored(f.trace[i].space, f.trace[i].id))
            && HeardBefore(f.trace, i, f.speaker, ChoiceUndo)
  {
    ReachableOk(o, s);
    var f := s.flights[id];
    assert Justified(o, f, f.trace[..i], f.trace[i]);
    var j :| 0 <= j < i && f.trace[..i][j] == Stored(f.trace[i].space, f.trace[i].id);
    var h :| 0 <= h < i && f.trace[..i][h] == Heard(f.speaker, ChoiceUndo, false);
    assert f.trace[j] == f.trace[..i][j] && f.trace[h] == f.trace[..i][h];
  }

  /** What a finished call reports is what it left in the store, and nothing was stored in
      silence. The one outcome that is not "saved" and yet leaves an entry is the store
      reporting another space than the one agreed to, which the member is told. */
  lemma OutcomesAreTruthful(o: Options, s: System, id: nat)
    requires o.Normal() && Reachable(o, s) && id in s.flights && s.flights[id].stage.Done?
    ensures var f := s.flights[id];
            && AllAnnounced(f.trace)
            && match f.stage.outcome
               case Saved(space, entry) => Left(f.trace) == {(space, entry)}
               case Failed(WrongSpace) => |Left(f.trace)| == 1
               case _ => Left(f.trace) == {}
  {
    ReachableOk(o, s);
    assert FlightOk(o, s.flights[id]);
  }

  // ---- budgets ----

  /** In any one turn a member has at most the allowed number of offers not handed back, and
      the counter the engine keeps is exactly how many there are in the current turn. */
  lemma BudgetIsExact(o: Options, s: System, k: ScopeKey, speaker: int)
    requires o.Normal() && Reachable(o, s) && k !in s.evicted
    ensures forall turn: nat :: |Charged(s.flights, k, speaker, turn)| <= o.maxProposals
    ensures k in s.book.states ==>
      Offered(s.book.states[k], speaker) == |Charged(s.flights, k, speaker, s.book.states[k].turn)| <= o.maxProposals
  {
    ReachableOk(o, s);
    assert BudgetOk(o, s, k);
  }

  /** A call that got as far as a question or a write stays charged, unless the question
      could not be asked; so the budget bounds what the member is actually bothered with. */
  lemma AskedIsCharged(o: Options, f: Flight, r: Reply)
    requires StageFits(o, f) && f.charged && !Advance(o, f, r).0.charged
    ensures NothingPut(Advance(o, f, r).0.trace)
    ensures Advance(o, f, r).0.stage == Done(Failed(NoSharedSpace)) || Advance(o, f, r).0.stage == Done(Failed(AskingFailed))
  {
  }

  /** One member's offer leaves every other member's count alone, and a suppressed or
      over-budget one leaves everybody's. */
  lemma OffersSpendOnlyTheirOwn(o: Options, s: System, id: nat, sc: Scope, p: Proposal, speaker: int, other: int)
    requires o.Normal() && Reachable(o, s) && id !in s.flights && Reaches(sc, p)
    requires sc.Key() in s.book.states
    ensures var t := Step(o, s, Open(id, sc, p, speaker));
            var before, after := s.book.states[sc.Key()], t.book.states[sc.Key()];
            && Offered(after, other) == Offered(before, other) + (if other == speaker && t.flights[id].charged then 1 else 0)
            && (t.flights[id].charged || t.flights[id].trace == [])
  {
  }

  // ---- refusals ----

  lemma {:induction false} LogGrows(o: Options, s: System, events: seq<Event>, k: ScopeKey)
    ensures LogOf(s, k) <= LogOf(Run(o, s, events), k)
  {
    if events != [] {
      LogGrows(o, s, events[..|events| - 1], k);
      StepLogGrows(o, Run(o, s, events[..|events| - 1]), events[|events| - 1], k);
    }
  }

  lemma StepLogGrows(o: Options, s: System, e: Event, k: ScopeKey)
    ensures LogOf(s, k) <= LogOf(Step(o, s, e), k)
  {
  }

  /** A title the speaker was refused on in date, and no 32 refusals ago, is not put again:
      the offer ends as a duplicate having asked nothing, written nothing and spent nothing. */
  lemma RefusedIsSuppressed(o: Options, s: System, j: nat, id: nat, sc: Scope, p: Proposal, speaker: int)
    requires o.Normal() && Inv(o, s) && id !in s.flights && Reaches(sc, p)
    requires sc.Key() !in s.evicted && j < |LogOf(s, sc.Key())| && |LogOf(s, sc.Key())| - j <= MAX_DECLINES
    requires var d := LogOf(s, sc.Key())[j];
             d.title == NormalizeTitle(TrimSpace(p.title)) && d.speaker == speaker && Live(d, TurnIn(s, sc.Key()), o.window)
    ensures Step(o, s, Open(id, sc, p, speaker)).flights[id] == Refused(sc, p, speaker, Duplicate)
  {
    var k := sc.Key();
    assert LogOk(o, s, k);
    var st := s.book.states[k];
    NothingLost(st.declines, LogOf(s, k), st.turn, o.window, j);
    assert LogOf(s, k)[j] in Touched(s.book, k).states[k].declines;
  }

  /** Conversely, an offer is suppressed as a duplicate only over a recorded refusal of that
      title by that speaker in that conversation, still in date. */
  lemma SuppressedWasRefused(o: Options, s: System, id: nat, sc: Scope, p: Proposal, speaker: int)
    requires o.Normal() && Inv(o, s) && id !in s.flights && Reaches(sc, p) && sc.Key() !in s.evicted
    requires Step(o, s, Open(id, sc, p, speaker)).flights[id].stage == Done(Duplicate)
    ensures exists d :: d in LogOf(s, sc.Key()) && d.title == NormalizeTitle(TrimSpace(p.title)) &&
                        d.speaker == speaker && Live(d, TurnIn(s, sc.Key()), o.window)
  {
    var k := sc.Key();
    assert LogOk(o, s, k);
    var st := Touched(s.book, k).states[k];
    DuplicateMeansDeclined(o, s, id, sc, p, speaker);
    var d :| d in st.declines && d.title == NormalizeTitle(TrimSpace(p.title)) && d.speaker == speaker && Live(d, st.turn, o.window);
    NothingInvented(st.declines, LogOf(s, k), st.turn, o.window, d);
  }

  lemma DuplicateMeansDeclined(o: Options, s: System, id: nat, sc: Scope, p: Proposal, speaker: int)
    requires id !in s.flights && Reaches(sc, p)
    requires Step(o, s, Open(id, sc, p, speaker)).flights[id].stage == Done(Duplicate)
    ensures RecentlyDeclined(Touched(s.book, sc.Key()).states[sc.Key()], NormalizeTitle(TrimSpace(p.title)), speaker, o.window)
  {
  }

  /** The question was answered no by the member it was for, or lapsed. Promotions reserve
      nothing, so `charged` says that the question was an offer's. */
  predicate AnsweredNo(f: Flight) {
    && f.charged && (f.stage == Done(Declined) || f.stage == Done(TimedOut))
    && f.trace != []
    && var last := f.trace[|f.trace| - 1];
       last.Heard? && (last.timedOut || last.user == f.speaker)
  }

  /** The member asked for what was written to be taken back, whether or not it then was:
      `OnlyUndoDeletes` says that it takes their Undo. */
  predicate TookBack(f: Flight) {
    exists e :: e in f.trace && e.Delete?
  }

  /** The store refused the write, or reported it in another space than the one agreed to. */
  predicate FailedToLand(f: Flight) {
    f.charged && (f.stage == Done(Failed(StoreFailed)) || f.stage == Done(Failed(WrongSpace)))
  }

  /** The calls the engine records a refusal for: the member turned them down, or their write
      failed, which is kept from coming up again next turn in the same way. */
  predicate CameToNothing(f: Flight) {
    AnsweredNo(f) || TookBack(f) || FailedToLand(f)
  }

  ghost predicate IsAuthor(f: Flight, k: ScopeKey, d: Decline) {
    f.scope.Key() == k && Refusal(f) == d && CameToNothing(f)
  }

  /** Every refusal recorded is that of a call that came to nothing. */
  ghost predicate Authored(s: System) {
    forall k, d :: d in LogOf(s, k) ==> exists id :: id in s.flights && IsAuthor(s.flights[id], k, d)
  }

  /** And every call that came to nothing has its refusal recorded. */
  ghost predicate Recorded(s: System) {
    forall id :: id in s.flights && CameToNothing(s.flights[id]) ==>
      Refusal(s.flights[id]) in LogOf(s, s.flights[id].scope.Key())
  }

  /** An offer under way is charged for, a promotion never is. */
  predicate Reserves(f: Flight) {
    match f.stage
    case Reading(_, _, _) => !f.charged
    case Confirming(_, _, _) => !f.charged
    case Sharing(_, _) => !f.charged
    case Done(_) => true
    case _ => f.charged
  }

  ghost predicate AllReserve(s: System) {
    forall id :: id in s.flights ==> Reserves(s.flights[id])
  }

  lemma TracesGrow(o: Options, f: Flight, r: Reply)
    ensures var (g, op) := Advance(o, f, r);
            && f.trace <= g.trace
            && (op.Refusing? && r.Answer? ==> Heard(r.user, r.choice, r.timedOut) in g.trace)
            && (f.stage.Done? ==> g == f)
            && (!f.stage.Reading? ==> g.title == f.title)
            && g.turn == f.turn && g.speaker == f.speaker && g.scope == f.scope
  {
    var (g, op) := Advance(o, f, r);
    if op.Refusing? && r.Answer? {
      assert g.trace[|f.trace|] == Heard(r.user, r.choice, r.timedOut);
    }
  }

  lemma ReservesStill(o: Options, f: Flight, r: Reply)
    requires Reserves(f)
    ensures Reserves(Advance(o, f, r).0)
  {
  }

  lemma DeletesOnUndo(o: Options, f: Flight, r: Reply)
    requires !TookBack(f)
    ensures TookBack(Advance(o, f, r).0) <==> f.stage.Announced? && Advance(o, f, r).1.Refusing?
  {
    TracesGrow(o, f, r);
    var g := Advance(o, f, r).0;
    assert f.stage.Announced? && Advance(o, f, r).1.Refusing? ==> g.trace[|g.trace| - 1].Delete?;
    forall i | 0 <= i < |f.trace| ensures !g.trace[i].Delete? { assert g.trace[i] == f.trace[i] && f.trace[i] in f.trace; }
  }

  /** A step makes a call come to nothing exactly when it is one a refusal is recorded over. */
  lemma NothingComesOfRefusals(o: Options, f: Flight, r: Reply)
    requires Reserves(f) && !TookBack(f) && !f.stage.Done?
    ensures CameToNothing(Advance(o, f, r).0) <==> Advance(o, f, r).1.Refusing?
  {
    hide TookBack;
    DeletesOnUndo(o, f, r);
  }

  lemma TakenBackForGood(o: Options, f: Flight, r: Reply)
    requires TookBack(f)
    ensures CameToNothing(Advance(o, f, r).0)
  {
    TracesGrow(o, f, r);
    var e :| e in f.trace && e.Delete?;
    assert e in Advance(o, f, r).0.trace;
  }

  lemma AdvanceAuthors(o: Options, f: Flight, r: Reply)
    requires Reserves(f) && (f.stage.Reading? ==> f.trace == [])
    ensures CameToNothing(f) ==> CameToNothing(Advance(o, f, r).0)
    ensures Advance(o, f, r).1.Refusing? ==> CameToNothing(Advance(o, f, r).0)
    ensures CameToNothing(Advance(o, f, r).0) ==> CameToNothing(f) || Advance(o, f, r).1.Refusing?
    ensures CameToNothing(Advance(o, f, r).0) ==> Refusal(Advance(o, f, r).0) == Refusal(f)
  {
    TracesGrow(o, f, r);
    if f.stage.Done? {
    } else if TookBack(f) {
      TakenBackForGood(o, f, r);
    } else {
      NothingComesOfRefusals(o, f, r);
    }
  }

  lemma StepFlights(o: Options, s: System, e: Event, id: nat)
    requires id in s.flights
    ensures var t := Step(o, s, e);
            && id in t.flights
            && (t.flights[id] == s.flights[id] ||
                (e.Deliver? && e.id == id && t.flights[id] == Advance(o, s.flights[id], e.reply).0))
  {
  }

  lemma StepLog(o: Options, s: System, e: Event, k: ScopeKey)
    ensures var t := Step(o, s, e);
            || LogOf(t, k) == LogOf(s, k)
            || (e.Deliver? && e.id in s.flights
                && var f := s.flights[e.id];
                   && Advance(o, f, e.reply).1.Refusing? && f.scope.Key() == k
                   && e.id in t.flights && t.flights[e.id] == Advance(o, f, e.reply).0
                   && LogOf(t, k) == LogOf(s, k) + [Refusal(f)])
  {
  }

  lemma LaunchIsOpen(o: Options, sc: Scope, p: Proposal, speaker: int, turn: nat)
    ensures Reserves(Launch(o, sc, p, speaker, turn)) && !CameToNothing(Launch(o, sc, p, speaker, turn))
  {
  }

  lemma PromotionIsOpen(o: Options, sc: Scope, entry: string, speaker: int)
    ensures Reserves(LaunchPromotion(o, sc, entry, speaker)) && !CameToNothing(LaunchPromotion(o, sc, entry, speaker))
  {
  }

  /** A call that has just been opened has come to nothing yet. */
  lemma NewFlights(o: Options, s: System, e: Event, id: nat)
    requires id !in s.flights && id in Step(o, s, e).flights
    ensures Reserves(Step(o, s, e).flights[id]) && !CameToNothing(Step(o, s, e).flights[id])
  {
    hide Launch, LaunchPromotion, CameToNothing, Reserve;
    match e
    case Begin(_, _) =>
    case Open(_, sc, p, speaker) =>
      var v := Reserve(s.book, sc.Key(), NormalizeTitle(TrimSpace(p.title)), speaker, o).1;
      if v.Granted? { LaunchIsOpen(o, sc, p, speaker, v.turn); }
      RefusedIsOpen(sc, p, speaker, Step(o, s, e).flights[id].stage);
    case Promote(_, sc, entry, speaker) => PromotionIsOpen(o, sc, entry, speaker);
    case Deliver(_, _) =>
  }

  lemma RefusedIsOpen(sc: Scope, p: Proposal, speaker: int, stage: Stage)
    ensures stage.Done? ==>
              Reserves(Refused(sc, p, speaker, stage.outcome)) && !CameToNothing(Refused(sc, p, speaker, stage.outcome))
  {
  }

  /** Refusals and the calls that came to nothing are the same thing, counted twice. */
  ghost predicate Exact(s: System) {
    AllReserve(s) && Authored(s) && Recorded(s)
  }

  lemma ReadingIsEarly(o: Options, s: System, id: nat)
    requires Inv(o, s) && id in s.flights
    ensures s.flights[id].stage.Reading? ==> s.flights[id].trace == []
  {
    assert FlightOk(o, s.flights[id]);
  }

  lemma StepReserves(o: Options, s: System, e: Event)
    requires AllReserve(s)
    ensures AllReserve(Step(o, s, e))
  {
    hide Step, Reserves, Advance;
    forall id | id in Step(o, s, e).flights ensures Reserves(Step(o, s, e).flights[id]) {
      if id in s.flights {
        StepFlights(o, s, e, id);
        if e.Deliver? { ReservesStill(o, s.flights[id], e.reply); }
      } else {
        NewFlights(o, s, e, id);
      }
    }
  }

  lemma StepKeepsAuthored(o: Options, s: System, e: Event)
    requires Inv(o, s) && AllReserve(s) && Authored(s)
    ensures Authored(Step(o, s, e))
  {
    hide Step, Reserves, Advance, Inv, CameToNothing, Refusal;
    var t := Step(o, s, e);
    forall k, d | d in LogOf(t, k) ensures exists id :: id in t.flights && IsAuthor(t.flights[id], k, d) {
      StepLog(o, s, e, k);
      var id: nat;
      if d in LogOf(s, k) {
        id :| id in s.flights && IsAuthor(s.flights[id], k, d);
      } else {
        id := e.id;
      }
      StepFlights(o, s, e, id);
      if e.Deliver? {
        ReadingIsEarly(o, s, id);
        AdvanceAuthors(o, s.flights[id], e.reply);
        TracesGrow(o, s.flights[id], e.reply);
      }
      assert IsAuthor(t.flights[id], k, d);
    }
  }

  lemma StepKeepsRecorded(o: Options, s: System, e: Event)
    requires Inv(o, s) && AllReserve(s) && Recorded(s)
    ensures Recorded(Step(o, s, e))
  {
    hide Step, Reserves, Advance, Inv, CameToNothing, Refusal;
    var t := Step(o, s, e);
    forall id | id in t.flights && CameToNothing(t.flights[id])
      ensures Refusal(t.flights[id]) in LogOf(t, t.flights[id].scope.Key())
    {
      if id !in s.flights {
        NewFlights(o, s, e, id);
        assert false;
      }
      StepFlights(o, s, e, id);
      StepLog(o, s, e, s.flights[id].scope.Key());
      if e.Deliver? && e.id == id {
        ReadingIsEarly(o, s, id);
        AdvanceAuthors(o, s.flights[id], e.reply);
        TracesGrow(o, s.flights[id], e.reply);
        RefusingIsLogged(o, s, id, e.reply);
      }
    }
  }

  lemma RefusingIsLogged(o: Options, s: System, id: nat, r: Reply)
    requires id in s.flights
    ensures Advance(o, s.flights[id], r).1.Refusing? ==>
              Refusal(s.flights[id]) in LogOf(Step(o, s, Deliver(id, r)), s.flights[id].scope.Key())
    ensures id in Step(o, s, Deliver(id, r)).flights
    ensures Step(o, s, Deliver(id, r)).flights[id] == Advance(o, s.flights[id], r).0
  {
  }

  lemma {:induction false} RunExact(o: Options, events: seq<Event>)
    requires o.Normal()
    ensures Exact(Run(o, START, events)) && Inv(o, Run(o, START, events))
  {
    StartOk(o);
    RunKeeps(o, START, events);
    if events != [] {
      RunExact(o, events[..|events| - 1]);
      var s, e := Run(o, START, events[..|events| - 1]), events[|events| - 1];
      StepReserves(o, s, e);
      StepKeepsAuthored(o, s, e);
      StepKeepsRecorded(o, s, e);
    }
  }

  /** Over every run the refusals recorded for a conversation are exactly those of the calls in
      it that came to nothing: none for a call that was saved and stands, published, answered
      only by somebody else, or never put. */
  lemma RefusalsAreExact(o: Options, s: System, k: ScopeKey, d: Decline)
    requires o.Normal() && Reachable(o, s)
    ensures d in LogOf(s, k) <==> exists id :: id in s.flights && IsAuthor(s.flights[id], k, d)
  {
    var events :| s == Run(o, START, events);
    RunExact(o, events);
  }

  /** Of the calls that came to nothing, the ones whose entry may still stand: its member asked,
      with their own tap, for it to be taken back. */
  lemma SavedAndNothing(o: Options, s: System, id: nat)
    requires o.Normal() && Reachable(o, s) && id in s.flights && CameToNothing(s.flights[id])
    requires s.flights[id].stage.Done? && s.flights[id].stage.outcome.Saved?
    ensures exists i :: 0 <= i < |s.flights[id].trace| && HeardBefore(s.flights[id].trace, i, s.flights[id].speaker, ChoiceUndo)
  {
    hide Reachable;
    var f := s.flights[id];
    var e :| e in f.trace && e.Delete?;
    var i: nat :| i < |f.trace| && f.trace[i] == e;
    OnlyUndoDeletes(o, s, id, i);
  }

  /** The engine never goes quiet on a member over a title but where a call of theirs about it
      came to nothing, in that conversation and within the window: they turned it down, or its
      write failed. */
  lemma NoSilenceWithoutRefusal(o: Options, s: System, id: nat, sc: Scope, p: Proposal, speaker: int)
    requires o.Normal() && Reachable(o, s) && id !in s.flights && Reaches(sc, p) && sc.Key() !in s.evicted
    requires Step(o, s, Open(id, sc, p, speaker)).flights[id].stage == Done(Duplicate)
    ensures exists earlier :: earlier in s.flights && CameToNothing(s.flights[earlier])
              && s.flights[earlier].scope.Key() == sc.Key() && s.flights[earlier].speaker == speaker
              && NormalizeTitle(s.flights[earlier].title) == NormalizeTitle(TrimSpace(p.title))
              && TurnIn(s, sc.Key()) - s.flights[earlier].turn < o.window
  {
    var events :| s == Run(o, START, events);
    RunExact(o, events);
    SuppressedWasRefused(o, s, id, sc, p, speaker);
    var d :| d in LogOf(s, sc.Key()) && d.title == NormalizeTitle(TrimSpace(p.title)) &&
             d.speaker == speaker && Live(d, TurnIn(s, sc.Key()), o.window);
    var earlier :| earlier in s.flights && IsAuthor(s.flights[earlier], sc.Key(), d);
  }

  /** The answers by which a member turns a proposal down. */
  predicate TurnsDown(f: Flight, r: Reply) {
    r.Answer? &&
    if f.stage.Announced? then !r.timedOut && r.user == f.speaker && r.choice == ChoiceUndo
    else f.stage.Asking? && (r.timedOut || (r.user == f.speaker && !r.choice.ChoicePersonal? && !r.choice.ChoiceShared?))
  }

  /** Of all the answers there can be, those are the ones recorded, and at the turn of the offer. */
  lemma TurningDownIsRecorded(o: Options, s: System, id: nat, r: Reply)
    requires id in s.flights && r.Answer?
    ensures var f := s.flights[id];
            LogOf(Step(o, s, Deliver(id, r)), f.scope.Key()) ==
            LogOf(s, f.scope.Key()) + if TurnsDown(f, r) then [Refusal(f)] else []
  {
    hide Refusal;
  }

  /** The whole-run statement: whatever happens between, a proposal a member declined, let
      time out or undid is not put to them again while it is in date, unless more than 31
      other refusals have been recorded in that conversation since. */
  lemma DeclinedIsNotPutAgain(o: Options, s: System, id: nat, r: Reply, between: seq<Event>,
                              id': nat, sc: Scope, p: Proposal)
    requires o.Normal() && Reachable(o, s)
    requires id in s.flights && TurnsDown(s.flights[id], r) && sc.Key() == s.flights[id].scope.Key()
    requires var t := Run(o, Step(o, s, Deliver(id, r)), between);
             var f, k := s.flights[id], sc.Key();
             && k !in t.evicted && id' !in t.flights && Reaches(sc, p)
             && NormalizeTitle(p.title) == NormalizeTitle(f.title)
             && TurnIn(t, k) - f.turn < o.window
             && |LogOf(t, k)| - |LogOf(s, k)| <= MAX_DECLINES
    ensures var t := Run(o, Step(o, s, Deliver(id, r)), between);
            var f := s.flights[id];
            Step(o, t, Open(id', sc, p, f.speaker)).flights[id'] == Refused(sc, p, f.speaker, Duplicate)
  {
    hide Inv, NormalizeTitle, TrimSpace, Reaches, Step;
    ComparedOnce(p.title);
    var s' := Step(o, s, Deliver(id, r));
    ReachableOk(o, s);
    StepKeeps(o, s, Deliver(id, r));
    TurningDownIsRecorded(o, s, id, r);
    RunKeeps(o, s', between);
    LogGrows(o, s', between, sc.Key());
    RefusedIsSuppressed(o, Run(o, s', between), |LogOf(s, sc.Key())|, id', sc, p, s.flights[id].speaker);
  }

  // ---- what is remembered ----

  /** At most 32 conversations are remembered, and they are those fewer than 32 others have
      been touched since. */
  lemma RemembersTheMostRecent(o: Options, s: System, k: ScopeKey)
    requires o.Normal() && Reachable(o, s)
    ensures |s.book.states| <= MAX_SCOPES
    ensures k in s.book.states <==> k in s.touches && |Since(s.touches, k)| < MAX_SCOPES
  {
    ReachableOk(o, s);
    RememberedIff(s.book, s.touches, k);
  }

  function Places(h: Touches): set<ScopeKey> {
    set k | k in h
  }

  /** A step looks at most one conversation up, and forgets only to make room for it. */
  lemma StepTouches(o: Options, s: System, e: Event)
    ensures var t := Step(o, s, e);
            || (t.touches == s.touches && t.evicted == s.evicted)
            || exists k :: t.touches == s.touches + [k] && t.evicted == s.evicted + Lost(s.book, k)
  {
  }

  lemma ForgettingTakesCrowding(b: Book, h: Touches, k: ScopeKey)
    requires Remembers(b, h) && Lost(b, k) != {}
    ensures |Places(h + [k])| > MAX_SCOPES
  {
    SubsetSize(b.states.Keys + {k}, Places(h + [k]));
  }

  /** An engine that has seen no more than 32 conversations has forgotten none, so the
      budgets and refusals above hold of every one of them. */
  lemma {:induction false} FewScopesForgetNone(o: Options, events: seq<Event>)
    requires o.Normal() && |Places(Run(o, START, events).touches)| <= MAX_SCOPES
    ensures Run(o, START, events).evicted == {}
  {
    if events != [] {
      var s, e := Run(o, START, events[..|events| - 1]), events[|events| - 1];
      var t := Step(o, s, e);
      StartOk(o);
      RunKeeps(o, START, events[..|events| - 1]);
      StepTouches(o, s, e);
      SubsetSize(Places(s.touches), Places(t.touches));
      FewScopesForgetNone(o, events[..|events| - 1]);
      if t.touches != s.touches {
        var k :| t.touches == s.touches + [k] && t.evicted == s.evicted + Lost(s.book, k);
        if Lost(s.book, k) != {} { ForgettingTakesCrowding(s.book, s.touches, k); }
      }
    }
  }

  lemma RunOneMore(o: Options, events: seq<Event>, e: Event)
    ensures Run(o, START, events + [e]) == Step(o, Run(o, START, events), e)
  {
    assert (events + [e])[..|events|] == events;
  }

  lemma ReachStep(o: Options, s: System, e: Event)
    requires Reachable(o, s)
    ensures Reachable(o, Step(o, s, e))
  {
    var events :| s == Run(o, START, events);
    RunOneMore(o, events, e);
  }

  lemma {:induction false} ReachRun(o: Options, s: System, events: seq<Event>)
    requires Reachable(o, s)
    ensures Reachable(o, Run(o, s, events))
  {
    if events != [] {
      ReachRun(o, s, events[..|events| - 1]);
      ReachStep(o, Run(o, s, events[..|events| - 1]), events[|events| - 1]);
    }
  }
}
