/** Turns and what one may still spend in them. */
module CaptureTurns {
  import opened Optionals
  import opened Text
  import opened Capture
  import opened Offers
  import opened Declines
  import opened CaptureRuns
  import opened CaptureTheorems

  /** Beginning a turn twice, at however many points, begins it once: the second time only
      says that the conversation was touched. */
  lemma BegunOnce(b: Book, k: ScopeKey, token: string, window: int)
    ensures var once := BeginTurn(b, k, token, window);
            var twice := BeginTurn(once, k, token, window);
            twice.states == once.states[k := once.states[k].(touched := twice.clock)]
  {
  }

  /** A turn that has just begun has every speaker's whole budget in it. */
  lemma FreshTurnIsUnspent(o: Options, s: System, sc: Scope, token: string, speaker: int)
    requires o.Normal() && Inv(o, s) && sc.Key() !in s.evicted
    requires sc.Key() in s.book.states ==> s.book.states[sc.Key()].turn == 0 || s.book.states[sc.Key()].token != token
    ensures var t := Step(o, s, Begin(sc, token));
            Charged(t.flights, sc.Key(), speaker, TurnIn(t, sc.Key())) == {}
  {
    var k, t := sc.Key(), Step(o, s, Begin(sc, token));
    StepKeeps(o, s, Begin(sc, token));
    assert BudgetOk(o, t, k);
    assert Offered(t.book.states[k], speaker) == 0;
  }

  ghost predicate RefusedInDate(o: Options, s: System, k: ScopeKey, title: string, speaker: int) {
    exists d :: d in LogOf(s, k) && d.title == title && d.speaker == speaker && Live(d, TurnIn(s, k), o.window)
  }

  /** An offer nobody refused in date goes ahead exactly when fewer than the allowed number of
      its speaker's offers this turn have not been handed back. */
  lemma GoesAheadIff(o: Options, s: System, id: nat, sc: Scope, p: Proposal, speaker: int)
    requires o.Normal() && Inv(o, s) && id !in s.flights && Reaches(sc, p)
    requires sc.Key() in s.book.states && sc.Key() !in s.evicted
    requires !RefusedInDate(o, s, sc.Key(), NormalizeTitle(TrimSpace(p.title)), speaker)
    ensures var f := Step(o, s, Open(id, sc, p, speaker)).flights[id];
            if |Charged(s.flights, sc.Key(), speaker, TurnIn(s, sc.Key()))| < o.maxProposals
            then f == Launch(o, sc, p, speaker, TurnIn(s, sc.Key()))
            else f == Refused(sc, p, speaker, Limited)
  {
    var k, title := sc.Key(), NormalizeTitle(TrimSpace(p.title));
    var st := Touched(s.book, k).states[k];
    assert BudgetOk(o, s, k) && LogOk(o, s, k);
    forall d | d in st.declines ensures !(d.title == title && d.speaker == speaker && Live(d, st.turn, o.window)) {
      if Live(d, st.turn, o.window) { NothingInvented(st.declines, LogOf(s, k), st.turn, o.window, d); }
    }
  }

  // ---- counting turns ----

  lemma OwnTurn(b: Book, k: ScopeKey, token: string, o: Options, title: string, speaker: int, turn: nat, d: Decline)
    ensures var now := if k in b.states then b.states[k].turn else 0;
            && BeginTurn(b, k, token, o.window).states[k].turn ==
               (if now == 0 || b.states[k].token != token then now + 1 else now)
            && Reserve(b, k, title, speaker, o).0.states[k].turn == now
            && Refund(b, k, speaker, turn).states[k].turn == now
            && Refuse(b, k, d).states[k].turn == now
  {
    hide VerdictOn, LiveOnly, LastOf;
  }

  lemma OtherTurns(s: System, k: ScopeKey, b: Book, t: System, j: ScopeKey)
    requires Section(s.book, k, b) && t.book == b && t.evicted == s.evicted + Lost(s.book, k) && t.log == s.log
    ensures j != k && j !in t.evicted ==> TurnIn(t, j) == TurnIn(s, j)
  {
    hide Section, Lost;
    SectionOnly(s, k, b, t);
  }

  /** A conversation's turn moves on when one begins in it under a new token, by one, and never
      otherwise. */
  lemma TurnsCount(o: Options, s: System, e: Event, k: ScopeKey)
    requires k !in Step(o, s, e).evicted
    ensures TurnIn(Step(o, s, e), k) == TurnIn(s, k) +
              if e.Begin? && e.sc.Key() == k && (TurnIn(s, k) == 0 || s.book.states[k].token != e.token) then 1 else 0
  {
    hide BeginTurn, Reserve, Refund, Refuse, Touched, Section, Lost, Advance, Launch, LaunchPromotion, Refusal,
      NormalizeTitle, TrimSpace;
    match e
    case Begin(sc, token) =>
      SectionsAre(s.book, sc.Key(), token, o.window, "", 0, o, 0, Decline("", 0, 0));
      OwnTurn(s.book, sc.Key(), token, o, "", 0, 0, Decline("", 0, 0));
      OtherTurns(s, sc.Key(), BeginTurn(s.book, sc.Key(), token, o.window), Step(o, s, e), k);
    case Open(id, sc, p, speaker) =>
      var title := NormalizeTitle(TrimSpace(p.title));
      SectionsAre(s.book, sc.Key(), "", o.window, title, speaker, o, 0, Decline("", 0, 0));
      OwnTurn(s.book, sc.Key(), "", o, title, speaker, 0, Decline("", 0, 0));
      var b := Reserve(s.book, sc.Key(), title, speaker, o).0;
      OtherTurns(s, sc.Key(), b, Locked(s, sc.Key(), b), k);
    case Promote(_, _, _, _) =>
    case Deliver(id, r) =>
      if id in s.flights {
        var f := s.flights[id];
        SectionsAre(s.book, f.scope.Key(), "", o.window, "", f.speaker, o, f.turn, Refusal(f));
        OwnTurn(s.book, f.scope.Key(), "", o, "", f.speaker, f.turn, Refusal(f));
        var credited, refused := Refund(s.book, f.scope.Key(), f.speaker, f.turn), Refuse(s.book, f.scope.Key(), Refusal(f));
        OtherTurns(s, f.scope.Key(), credited, Locked(s, f.scope.Key(), credited), k);
        OtherTurns(s, f.scope.Key(), refused, Locked(s, f.scope.Key(), refused), k);
      }
  }

  predicate BeginsIn(e: Event, k: ScopeKey) { e.Begin? && e.sc.Key() == k }

  function Begun(events: seq<Event>, k: ScopeKey): nat {
    if events == [] then 0
    else Begun(events[..|events| - 1], k) + if BeginsIn(events[|events| - 1], k) then 1 else 0
  }

  lemma EvictedForGood(o: Options, s: System, e: Event)
    ensures s.evicted <= Step(o, s, e).evicted
  {
  }

  lemma {:induction false} TurnsSince(o: Options, s: System, events: seq<Event>, k: ScopeKey)
    requires k !in Run(o, s, events).evicted
    ensures TurnIn(s, k) <= TurnIn(Run(o, s, events), k) <= TurnIn(s, k) + Begun(events, k)
  {
    hide Step;
    if events != [] {
      var before, e := events[..|events| - 1], events[|events| - 1];
      EvictedForGood(o, Run(o, s, before), e);
      TurnsSince(o, s, before, k);
      TurnsCount(o, Run(o, s, before), e, k);
    }
  }

  /** What a member turned down in the turn it was offered in is not put to them again before as
      many turns have begun there as the window says, and no 32 refusals are newer. */
  lemma DeclinedForTheWindow(o: Options, s: System, id: nat, r: Reply, between: seq<Event>,
                             id': nat, sc: Scope, p: Proposal)
    requires o.Normal() && Reachable(o, s)
    requires id in s.flights && TurnsDown(s.flights[id], r) && sc.Key() == s.flights[id].scope.Key()
    requires s.flights[id].turn == TurnIn(s, sc.Key()) && Begun(between, sc.Key()) < o.window
    requires NormalizeTitle(p.title) == NormalizeTitle(s.flights[id].title) && Reaches(sc, p)
    requires var t := Run(o, Step(o, s, Deliver(id, r)), between);
             sc.Key() !in t.evicted && id' !in t.flights && |LogOf(t, sc.Key())| - |LogOf(s, sc.Key())| <= MAX_DECLINES
    ensures var t := Run(o, Step(o, s, Deliver(id, r)), between);
            Step(o, t, Open(id', sc, p, s.flights[id].speaker)).flights[id'] ==
            Refused(sc, p, s.flights[id].speaker, Duplicate)
  {
    hide Step, Reachable, TurnsDown, NormalizeTitle, TrimSpace, Reaches;
    var s' := Step(o, s, Deliver(id, r));
    EvictedAlong(o, s', between);
    TurnsCount(o, s, Deliver(id, r), sc.Key());
    TurnsSince(o, s', between, sc.Key());
    DeclinedIsNotPutAgain(o, s, id, r, between, id', sc, p);
  }

  lemma {:induction false} EvictedAlong(o: Options, s: System, events: seq<Event>)
    ensures s.evicted <= Run(o, s, events).evicted
  {
    hide Step;
    if events != [] {
      EvictedAlong(o, s, events[..|events| - 1]);
      EvictedForGood(o, Run(o, s, events[..|events| - 1]), events[|events| - 1]);
    }
  }
}
