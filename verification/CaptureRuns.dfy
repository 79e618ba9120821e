/** Whole runs of the capture engine: any number of calls in flight, their critical sections
    interleaved in any order, every outside reply arbitrary.

    `log` and `touches` are what no implementation keeps: every refusal ever recorded for a
    conversation, and every time one was looked up. `evicted` is the conversations the engine
    has ever forgotten; a forgotten conversation starts its turn counter again at zero, so
    what follows about budgets and refusals is about the others. */
module CaptureRuns {
  import opened Optionals
  import opened Text
  import opened Capture
  import opened Offers
  import opened OfferProofs
  import opened Declines
  import opened Recency

  datatype System = System(
    book: Book, flights: map<nat, Flight>,
    log: map<ScopeKey, seq<Decline>>, touches: Touches, evicted: set<ScopeKey>)

  datatype Event =
    | Begin(sc: Scope, token: string)
    | Open(id: nat, sc: Scope, p: Proposal, speaker: int)
    | Promote(id: nat, sc: Scope, entry: string, speaker: int)
    | Deliver(id: nat, reply: Reply)

  const START := System(Book(map[], 0), map[], map[], [], {})

  function LogOf(s: System, k: ScopeKey): seq<Decline> {
    if k in s.log then s.log[k] else []
  }

  ghost function Lost(b: Book, k: ScopeKey): set<ScopeKey> {
    if k !in b.states && |b.states| >= MAX_SCOPES then {Oldest(b.states)} else {}
  }

  ghost function Locked(s: System, k: ScopeKey, b: Book): System {
    s.(book := b, touches := s.touches + [k], evicted := s.evicted + Lost(s.book, k))
  }

  function Refusal(f: Flight): Decline {
    Decline(NormalizeTitle(f.title), f.turn, f.speaker)
  }

  // ---- the steps ----

  ghost function StepBegin(o: Options, s: System, sc: Scope, token: string): System {
    Locked(s, sc.Key(), BeginTurn(s.book, sc.Key(), token, o.window))
  }

  ghost function StepOpen(o: Options, s: System, id: nat, sc: Scope, p: Proposal, speaker: int): System {
    var title := TrimSpace(p.title);
    if id in s.flights then s
    else if sc.kind.Unresolved? then
      s.(flights := s.flights[id := Refused(sc, p, speaker, Failed(UnresolvedScope))])
    else if title == "" then
      s.(flights := s.flights[id := Refused(sc, p, speaker, Failed(EmptyDraft))])
    else
      var (b, v) := Reserve(s.book, sc.Key(), NormalizeTitle(title), speaker, o);
      var f := match v
               case Suppressed => Refused(sc, p, speaker, Duplicate)
               case Spent => Refused(sc, p, speaker, Limited)
               case Granted(turn) => Launch(o, sc, p, speaker, turn);
      Locked(s, sc.Key(), b).(flights := s.flights[id := f])
  }

  ghost function StepDeliver(o: Options, s: System, id: nat, r: Reply): System {
    if id !in s.flights then s
    else
      var f := s.flights[id];
      var (g, op) := Advance(o, f, r);
      var k := f.scope.Key();
      var s' := s.(flights := s.flights[id := g]);
      match op
      case NoOp => s'
      case Refunding => Locked(s', k, Refund(s.book, k, f.speaker, f.turn))
      case Refusing =>
        Locked(s', k, Refuse(s.book, k, Refusal(f))).(log := s.log[k := LogOf(s, k) + [Refusal(f)]])
  }

  ghost function Step(o: Options, s: System, e: Event): System {
    match e
    case Begin(sc, token) => StepBegin(o, s, sc, token)
    case Open(id, sc, p, speaker) => StepOpen(o, s, id, sc, p, speaker)
    case Promote(id, sc, entry, speaker) =>
      if id in s.flights then s
      else s.(flights := s.flights[id := LaunchPromotion(o, sc, entry, speaker)])
    case Deliver(id, r) => StepDeliver(o, s, id, r)
  }

  ghost function Run(o: Options, s: System, events: seq<Event>): System {
    if events == [] then s else Step(o, Run(o, s, events[..|events| - 1]), events[|events| - 1])
  }

  // ---- the invariant ----

  /** A call that may still hand something back to the engine. */
  predicate Engaged(f: Flight) {
    f.charged || f.stage.Unbuilt? || f.stage.Asking? || f.stage.Storing? || f.stage.Announced? || f.stage.Deleting?
  }

  predicate Counts(f: Flight, k: ScopeKey, speaker: int, turn: nat) {
    f.charged && f.scope.Key() == k && f.speaker == speaker && f.turn == turn
  }

  /** The reservations not handed back: which calls a member's budget for a turn went on. */
  function Charged(flights: map<nat, Flight>, k: ScopeKey, speaker: int, turn: nat): set<nat> {
    set id | id in flights && Counts(flights[id], k, speaker, turn)
  }

  predicate Anchored(s: System, f: Flight) {
    Engaged(f) && f.scope.Key() !in s.evicted ==>
      f.scope.Key() in s.book.states && f.turn <= s.book.states[f.scope.Key()].turn
  }

  ghost predicate LogOk(o: Options, s: System, k: ScopeKey) {
    if k in s.book.states then
      var st := s.book.states[k];
      Tracks(st.declines, LogOf(s, k), st.turn, o.window) &&
      forall d :: d in LogOf(s, k) ==> d.turn <= st.turn
    else LogOf(s, k) == []
  }

  ghost predicate BudgetOk(o: Options, s: System, k: ScopeKey) {
    && (forall speaker, turn: nat :: |Charged(s.flights, k, speaker, turn)| <= o.maxProposals)
    && (k in s.book.states ==> forall speaker ::
          Offered(s.book.states[k], speaker) == |Charged(s.flights, k, speaker, s.book.states[k].turn)|)
  }

  ghost predicate Inv(o: Options, s: System) {
    && Remembers(s.book, s.touches)
    && (forall id :: id in s.flights ==> FlightOk(o, s.flights[id]))
    && (forall id :: id in s.flights ==> Anchored(s, s.flights[id]))
    && (forall k :: k !in s.evicted ==> LogOk(o, s, k))
    && (forall k :: k !in s.evicted ==> BudgetOk(o, s, k))
  }

  // ---- what a critical section leaves alone ----

  /** Nothing is different but conversation `k`, and whichever one made room for it. */
  ghost predicate Only(s: System, t: System, k: ScopeKey) {
    && s.evicted <= t.evicted
    && (forall j :: j != k && j !in t.evicted ==> (j in s.book.states <==> j in t.book.states))
    && (forall j :: j != k && j !in t.evicted && j in t.book.states && j in s.book.states ==>
          t.book.states[j] == s.book.states[j])
    && (forall j :: j != k ==> LogOf(t, j) == LogOf(s, j))
  }

  /** A critical section: look `k` up, then rewrite what is known of it. */
  ghost predicate Section(b: Book, k: ScopeKey, r: Book) {
    k in r.states && r.clock == Touched(b, k).clock &&
    r.states == Touched(b, k).states[k := r.states[k]] &&
    r.states[k].touched == Touched(b, k).states[k].touched
  }

  lemma SectionOnly(s: System, k: ScopeKey, b: Book, t: System)
    requires Section(s.book, k, b) && t.book == b && t.evicted == s.evicted + Lost(s.book, k)
    requires forall j :: j != k ==> LogOf(t, j) == LogOf(s, j)
    ensures Only(s, t, k)
  {
  }

  lemma SectionRemembers(b: Book, h: Touches, k: ScopeKey, r: Book)
    requires Section(b, k, r) && Remembers(b, h)
    ensures Remembers(r, h + [k])
  {
    TouchRemembers(b, h, k);
    RewriteRemembers(Touched(b, k), h + [k], r);
  }

  lemma SectionsAre(b: Book, k: ScopeKey, token: string, window: int, title: string, speaker: int, o: Options, turn: nat, d: Decline)
    ensures Section(b, k, BeginTurn(b, k, token, window))
    ensures Section(b, k, Reserve(b, k, title, speaker, o).0)
    ensures Section(b, k, Refund(b, k, speaker, turn))
    ensures Section(b, k, Refuse(b, k, d))
  {
  }

  lemma OthersKeepLog(o: Options, s: System, t: System, k: ScopeKey)
    requires Only(s, t, k)
    requires forall j :: j !in s.evicted ==> LogOk(o, s, j)
    ensures forall j :: j !in t.evicted && j != k ==> LogOk(o, t, j)
  {
    forall j | j !in t.evicted && j != k ensures LogOk(o, t, j) {
      assert LogOk(o, s, j);
    }
  }

  lemma OthersKeepBudget(o: Options, s: System, t: System, k: ScopeKey)
    requires Only(s, t, k)
    requires forall j, speaker, turn: nat :: j != k ==>
               Charged(t.flights, j, speaker, turn) == Charged(s.flights, j, speaker, turn)
    requires forall j :: j !in s.evicted ==> BudgetOk(o, s, j)
    ensures forall j :: j !in t.evicted && j != k ==> BudgetOk(o, t, j)
  {
    forall j | j !in t.evicted && j != k ensures BudgetOk(o, t, j) {
      assert BudgetOk(o, s, j);
    }
  }

  // ---- what each kind of step keeps ----

  /** The turn counter a section finds, zero in a conversation it has to create. */
  ghost function TurnIn(s: System, k: ScopeKey): nat {
    if k in s.book.states then s.book.states[k].turn else 0
  }

  lemma FlightsStayAnchored(s: System, t: System, k: ScopeKey, f: Flight)
    requires Only(s, t, k) && k in t.book.states && TurnIn(s, k) <= TurnIn(t, k)
    requires Anchored(s, f)
    ensures Anchored(t, f)
  {
  }

  /** A conversation nothing engaged belongs to has spent nothing. */
  lemma NothingCharged(s: System, k: ScopeKey, speaker: int, turn: nat)
    requires forall id :: id in s.flights ==> Anchored(s, s.flights[id])
    requires k !in s.evicted && (k in s.book.states ==> turn > s.book.states[k].turn)
    ensures Charged(s.flights, k, speaker, turn) == {}
  {
    forall id | id in s.flights ensures !Counts(s.flights[id], k, speaker, turn) {
      assert Anchored(s, s.flights[id]);
    }
  }

  lemma BeginKeepsBudget(o: Options, s: System, sc: Scope, token: string)
    requires o.Normal() && Inv(o, s)
    ensures forall k :: k !in StepBegin(o, s, sc, token).evicted ==> BudgetOk(o, StepBegin(o, s, sc, token), k)
  {
    var k, t := sc.Key(), StepBegin(o, s, sc, token);
    SectionsAre(s.book, k, token, o.window, "", 0, o, 0, Decline("", 0, 0));
    SectionOnly(s, k, t.book, t);
    OthersKeepBudget(o, s, t, k);
    if k !in s.evicted {
      assert BudgetOk(o, s, k);
      forall speaker ensures
        Offered(t.book.states[k], speaker) == |Charged(t.flights, k, speaker, t.book.states[k].turn)|
      {
        if k !in s.book.states || t.book.states[k].turn > s.book.states[k].turn {
          NothingCharged(s, k, speaker, t.book.states[k].turn);
        }
      }
    }
  }

  lemma EmptyTracks(turn: int, window: int)
    ensures Tracks([], [], turn, window)
  {
    assert Indexes([], [], turn, window, []);
  }

  /** What a section finds on looking `k` up: an empty log where it had to create one. */
  lemma FoundLog(o: Options, s: System, k: ScopeKey)
    requires LogOk(o, s, k)
    ensures var u := Touched(s.book, k).states[k];
            Tracks(u.declines, LogOf(s, k), u.turn, o.window) && u.turn == TurnIn(s, k)
  {
    EmptyTracks(0, o.window);
  }

  lemma BeginLogs(o: Options, s: System, sc: Scope, token: string)
    requires LogOk(o, s, sc.Key())
    ensures LogOk(o, StepBegin(o, s, sc, token), sc.Key())
  {
    var k := sc.Key();
    FoundLog(o, s, k);
    var u := Touched(s.book, k).states[k];
    PruneTracks(u.declines, LogOf(s, k), u.turn, o.window);
    assert LogOf(StepBegin(o, s, sc, token), k) == LogOf(s, k);
  }

  lemma BeginKeepsLog(o: Options, s: System, sc: Scope, token: string)
    requires forall j :: j !in s.evicted ==> LogOk(o, s, j)
    ensures forall k :: k !in StepBegin(o, s, sc, token).evicted ==> LogOk(o, StepBegin(o, s, sc, token), k)
  {
    var k, t := sc.Key(), StepBegin(o, s, sc, token);
    SectionsAre(s.book, k, token, o.window, "", 0, o, 0, Decline("", 0, 0));
    SectionOnly(s, k, t.book, t);
    OthersKeepLog(o, s, t, k);
    if k !in s.evicted {
      BeginLogs(o, s, sc, token);
    }
  }

  lemma BeginKeeps(o: Options, s: System, sc: Scope, token: string)
    requires o.Normal() && Inv(o, s)
    ensures Inv(o, StepBegin(o, s, sc, token))
  {
    var k, t := sc.Key(), StepBegin(o, s, sc, token);
    SectionsAre(s.book, k, token, o.window, "", 0, o, 0, Decline("", 0, 0));
    SectionOnly(s, k, t.book, t);
    SectionRemembers(s.book, s.touches, k, t.book);
    forall id | id in t.flights ensures Anchored(t, t.flights[id]) {
      FlightsStayAnchored(s, t, k, t.flights[id]);
    }
    BeginKeepsBudget(o, s, sc, token);
    BeginKeepsLog(o, s, sc, token);
  }

  // ---- opening a call ----

  /** A call that never reached the engine's books, or never will. */
  lemma IdleCallKeeps(o: Options, s: System, id: nat, f: Flight)
    requires Inv(o, s) && id !in s.flights
    requires !Engaged(f) && FlightOk(o, f)
    ensures Inv(o, s.(flights := s.flights[id := f]))
  {
    var t := s.(flights := s.flights[id := f]);
    ChargedWithout(s.flights, id, f);
    SameBooksSameClaims(o, s, t);
    forall j | j in t.flights ensures Anchored(t, t.flights[j]) {
      if j != id { assert Anchored(s, s.flights[j]); }
    }
  }

  /** What is claimed of the books depends on the books and on who is charged. */
  lemma SameBooksSameClaims(o: Options, s: System, t: System)
    requires t.book == s.book && t.log == s.log && t.evicted == s.evicted
    requires forall k, speaker, turn: nat :: Charged(t.flights, k, speaker, turn) == Charged(s.flights, k, speaker, turn)
    requires forall k :: k !in s.evicted ==> LogOk(o, s, k) && BudgetOk(o, s, k)
    ensures forall k :: k !in t.evicted ==> LogOk(o, t, k) && BudgetOk(o, t, k)
  {
    forall k | k !in t.evicted ensures LogOk(o, t, k) && BudgetOk(o, t, k) {
      assert LogOk(o, s, k) && BudgetOk(o, s, k);
      LogOkSame(o, s, t, k);
    }
  }

  lemma LogOkSame(o: Options, s: System, t: System, k: ScopeKey)
    requires t.book == s.book && LogOf(t, k) == LogOf(s, k) && LogOk(o, s, k)
    ensures LogOk(o, t, k)
  {
  }

  /** Rewriting a call that is not charged, into one that is not, charges nobody. */
  lemma ChargedWithout(flights: map<nat, Flight>, id: nat, f: Flight)
    requires !f.charged && (id in flights ==> !flights[id].charged)
    ensures forall k, speaker, turn: nat ::
      Charged(flights[id := f], k, speaker, turn) == Charged(flights, k, speaker, turn)
  {
  }

  /** Only a call of one conversation's own can change what that conversation has spent. */
  lemma ChargedElsewhere(flights: map<nat, Flight>, id: nat, g: Flight)
    requires id in flights ==> g.scope == flights[id].scope
    ensures forall k, speaker, turn: nat :: k != g.scope.Key() ==>
      Charged(flights[id := g], k, speaker, turn) == Charged(flights, k, speaker, turn)
  {
  }

  lemma ChargedMore(flights: map<nat, Flight>, id: nat, f: Flight)
    requires id !in flights && f.charged
    ensures forall k, speaker, turn: nat ::
      Charged(flights[id := f], k, speaker, turn) ==
      Charged(flights, k, speaker, turn) + if Counts(f, k, speaker, turn) then {id} else {}
    ensures forall k, speaker, turn: nat :: id !in Charged(flights, k, speaker, turn)
  {
  }

  lemma ChargedLess(flights: map<nat, Flight>, id: nat, f: Flight)
    requires id in flights && flights[id].charged && !f.charged
    ensures forall k, speaker, turn: nat ::
      Charged(flights[id := f], k, speaker, turn) == Charged(flights, k, speaker, turn) - {id}
    ensures forall k, speaker, turn: nat ::
      id in Charged(flights, k, speaker, turn) <==> Counts(flights[id], k, speaker, turn)
  {
  }

  lemma ChargedSame(flights: map<nat, Flight>, id: nat, f: Flight)
    requires id in flights && f.charged == flights[id].charged
    requires f.scope == flights[id].scope && f.speaker == flights[id].speaker && f.turn == flights[id].turn
    ensures forall k, speaker, turn: nat ::
      Charged(flights[id := f], k, speaker, turn) == Charged(flights, k, speaker, turn)
  {
  }

  /** A section for one conversation's call leaves every other conversation's spending alone. */
  lemma ElsewhereKeepsBudget(o: Options, s: System, t: System, k: ScopeKey, id: nat, g: Flight)
    requires Only(s, t, k) && t.flights == s.flights[id := g]
    requires g.scope.Key() == k && (id in s.flights ==> s.flights[id].scope == g.scope)
    requires forall j :: j !in s.evicted ==> BudgetOk(o, s, j)
    ensures forall j :: j !in t.evicted && j != k ==> BudgetOk(o, t, j)
  {
    ChargedElsewhere(s.flights, id, g);
    OthersKeepBudget(o, s, t, k);
  }

  // ---- opening a call that reaches the books ----

  lemma AnchorsKept(s: System, t: System, k: ScopeKey)
    requires Only(s, t, k) && k in t.book.states && TurnIn(s, k) <= TurnIn(t, k)
    requires forall id :: id in s.flights ==> Anchored(s, s.flights[id])
    ensures forall id :: id in s.flights ==> Anchored(t, s.flights[id])
  {
    forall id | id in s.flights ensures Anchored(t, s.flights[id]) {
      FlightsStayAnchored(s, t, k, s.flights[id]);
    }
  }

  lemma TouchSpendsNothing(o: Options, s: System, k: ScopeKey)
    requires k !in s.evicted && BudgetOk(o, s, k)
    requires forall id :: id in s.flights ==> Anchored(s, s.flights[id])
    ensures BudgetOk(o, Locked(s, k, Touched(s.book, k)), k)
  {
    if k !in s.book.states {
      forall speaker ensures |Charged(s.flights, k, speaker, 0)| == 0 {
        NothingCharged(s, k, speaker, 0);
      }
    }
  }

  lemma TouchKeepsBudget(o: Options, s: System, k: ScopeKey)
    requires o.Normal() && Inv(o, s)
    ensures var t := Locked(s, k, Touched(s.book, k)); forall j :: j !in t.evicted ==> BudgetOk(o, t, j)
  {
    var t := Locked(s, k, Touched(s.book, k));
    SectionOnly(s, k, t.book, t);
    OthersKeepBudget(o, s, t, k);
    if k !in s.evicted {
      TouchSpendsNothing(o, s, k);
    }
  }

  lemma UnchangedLog(o: Options, s: System, k: ScopeKey, b: Book, t: System)
    requires forall j :: j !in s.evicted ==> LogOk(o, s, j)
    requires Section(s.book, k, b) && t.book == b && t.evicted == s.evicted + Lost(s.book, k) && t.log == s.log
    requires b.states[k].declines == Touched(s.book, k).states[k].declines
    requires b.states[k].turn == Touched(s.book, k).states[k].turn
    ensures forall j :: j !in t.evicted ==> LogOk(o, t, j)
  {
    SectionOnly(s, k, b, t);
    OthersKeepLog(o, s, t, k);
    if k !in s.evicted {
      FoundLog(o, s, k);
    }
  }

  lemma TouchKeeps(o: Options, s: System, k: ScopeKey)
    requires o.Normal() && Inv(o, s)
    ensures Inv(o, Locked(s, k, Touched(s.book, k)))
  {
    var t := Locked(s, k, Touched(s.book, k));
    SectionOnly(s, k, t.book, t);
    SectionRemembers(s.book, s.touches, k, t.book);
    AnchorsKept(s, t, k);
    TouchKeepsBudget(o, s, k);
    UnchangedLog(o, s, k, t.book, t);
  }

  /** One more charged call is one more offer spent. */
  lemma OneMoreSpent(o: Options, m: System, t: System, k: ScopeKey, id: nat, f: Flight)
    requires BudgetOk(o, m, k) && k in m.book.states && k in t.book.states && id !in m.flights
    requires Counts(f, k, f.speaker, m.book.states[k].turn) && Offered(m.book.states[k], f.speaker) < o.maxProposals
    requires t.flights == m.flights[id := f]
    requires var st := m.book.states[k];
             t.book.states[k] == st.(offered := st.offered[f.speaker := Offered(st, f.speaker) + 1])
    ensures BudgetOk(o, t, k)
  {
    ChargedMore(m.flights, id, f);
    var now := m.book.states[k].turn;
    forall speaker, turn: nat ensures |Charged(t.flights, k, speaker, turn)| <= o.maxProposals {
      if Counts(f, k, speaker, turn) {
        assert Offered(m.book.states[k], speaker) == |Charged(m.flights, k, speaker, now)|;
      } else {
        assert Charged(t.flights, k, speaker, turn) == Charged(m.flights, k, speaker, turn);
      }
    }
    forall speaker ensures Offered(t.book.states[k], speaker) == |Charged(t.flights, k, speaker, now)| {
      assert Offered(m.book.states[k], speaker) == |Charged(m.flights, k, speaker, now)|;
    }
  }

  predicate Reaches(sc: Scope, p: Proposal) {
    !sc.kind.Unresolved? && TrimSpace(p.title) != ""
  }

  /** What a granted reservation does: one more offer spent, one more call charged for it. */
  ghost predicate IsGrant(o: Options, s: System, t: System, k: ScopeKey, id: nat, f: Flight) {
    var st := Touched(s.book, k).states[k];
    && id !in s.flights && t.flights == s.flights[id := f] && Counts(f, k, f.speaker, st.turn)
    && t.log == s.log && t.touches == s.touches + [k] && t.evicted == s.evicted + Lost(s.book, k)
    && Section(s.book, k, t.book) && Offered(st, f.speaker) < o.maxProposals
    && t.book.states[k] == st.(offered := st.offered[f.speaker := Offered(st, f.speaker) + 1])
  }

  lemma GrantSpends(o: Options, s: System, t: System, k: ScopeKey, id: nat, f: Flight)
    requires IsGrant(o, s, t, k, id, f)
    requires BudgetOk(o, Locked(s, k, Touched(s.book, k)), k)
    ensures BudgetOk(o, t, k)
  {
    OneMoreSpent(o, Locked(s, k, Touched(s.book, k)), t, k, id, f);
  }

  lemma GrantKeepsBudget(o: Options, s: System, t: System, k: ScopeKey, id: nat, f: Flight)
    requires o.Normal() && Inv(o, s) && IsGrant(o, s, t, k, id, f)
    ensures forall j :: j !in t.evicted ==> BudgetOk(o, t, j)
  {
    SectionOnly(s, k, t.book, t);
    ElsewhereKeepsBudget(o, s, t, k, id, f);
    if k !in t.evicted {
      TouchKeepsBudget(o, s, k);
      GrantSpends(o, s, t, k, id, f);
    }
  }

  lemma GrantKeeps(o: Options, s: System, t: System, k: ScopeKey, id: nat, f: Flight)
    requires o.Normal() && Inv(o, s) && IsGrant(o, s, t, k, id, f) && FlightOk(o, f)
    ensures Inv(o, t)
  {
    SectionOnly(s, k, t.book, t);
    SectionRemembers(s.book, s.touches, k, t.book);
    GrantKeepsBudget(o, s, t, k, id, f);
    UnchangedLog(o, s, k, t.book, t);
    AnchorsKept(s, t, k);
  }

  lemma OpenIsGrant(o: Options, s: System, id: nat, sc: Scope, p: Proposal, speaker: int)
    requires id !in s.flights && Reaches(sc, p)
    requires VerdictOn(Touched(s.book, sc.Key()).states[sc.Key()], NormalizeTitle(TrimSpace(p.title)), speaker, o).Granted?
    ensures var k, t := sc.Key(), StepOpen(o, s, id, sc, p, speaker);
            var f := Launch(o, sc, p, speaker, Touched(s.book, k).states[k].turn);
            f.speaker == speaker && IsGrant(o, s, t, k, id, f)
  {
    SectionsAre(s.book, sc.Key(), "", 0, NormalizeTitle(TrimSpace(p.title)), speaker, o, 0, Decline("", 0, 0));
  }

  /** A suppressed or over-budget offer looks the conversation up, and that is all. */
  lemma OpenIsTouch(o: Options, s: System, id: nat, sc: Scope, p: Proposal, speaker: int)
    requires id !in s.flights && Reaches(sc, p)
    requires !VerdictOn(Touched(s.book, sc.Key()).states[sc.Key()], NormalizeTitle(TrimSpace(p.title)), speaker, o).Granted?
    ensures var k, t := sc.Key(), StepOpen(o, s, id, sc, p, speaker);
            var v := VerdictOn(Touched(s.book, k).states[k], NormalizeTitle(TrimSpace(p.title)), speaker, o);
            var f := Refused(sc, p, speaker, if v.Suppressed? then Duplicate else Limited);
            var m := Locked(s, k, Touched(s.book, k));
            t == m.(flights := m.flights[id := f])
  {
  }

  lemma RefusedOk(o: Options, sc: Scope, p: Proposal, speaker: int, outcome: Outcome)
    requires !outcome.Saved? && outcome != Failed(WrongSpace)
    ensures FlightOk(o, Refused(sc, p, speaker, outcome)) && !Engaged(Refused(sc, p, speaker, outcome))
  {
  }

  lemma OpenUnreachedKeeps(o: Options, s: System, id: nat, sc: Scope, p: Proposal, speaker: int)
    requires Inv(o, s) && id !in s.flights && !Reaches(sc, p)
    ensures Inv(o, StepOpen(o, s, id, sc, p, speaker))
  {
    var outcome := Failed(if sc.kind.Unresolved? then UnresolvedScope else EmptyDraft);
    RefusedOk(o, sc, p, speaker, outcome);
    IdleCallKeeps(o, s, id, Refused(sc, p, speaker, outcome));
  }

  lemma OpenRefusedKeeps(o: Options, s: System, id: nat, sc: Scope, p: Proposal, speaker: int, outcome: Outcome)
    requires o.Normal() && Inv(o, s) && id !in s.flights && (outcome.Duplicate? || outcome.Limited?)
    ensures var m := Locked(s, sc.Key(), Touched(s.book, sc.Key()));
            Inv(o, m.(flights := m.flights[id := Refused(sc, p, speaker, outcome)]))
  {
    TouchKeeps(o, s, sc.Key());
    RefusedOk(o, sc, p, speaker, outcome);
    IdleCallKeeps(o, Locked(s, sc.Key(), Touched(s.book, sc.Key())), id, Refused(sc, p, speaker, outcome));
  }

  lemma OpenKeeps(o: Options, s: System, id: nat, sc: Scope, p: Proposal, speaker: int)
    requires o.Normal() && Inv(o, s)
    ensures Inv(o, StepOpen(o, s, id, sc, p, speaker))
  {
    hide Inv, NormalizeTitle, TrimSpace, Launch, FlightOk, Touched;
    if id in s.flights {
    } else if !Reaches(sc, p) {
      OpenUnreachedKeeps(o, s, id, sc, p, speaker);
    } else {
      var v := VerdictOn(Touched(s.book, sc.Key()).states[sc.Key()], NormalizeTitle(TrimSpace(p.title)), speaker, o);
      if v.Granted? {
        OpenIsGrant(o, s, id, sc, p, speaker);
        LaunchOk(o, sc, p, speaker, v.turn);
        GrantKeeps(o, s, StepOpen(o, s, id, sc, p, speaker), sc.Key(), id, Launch(o, sc, p, speaker, v.turn));
      } else {
        OpenIsTouch(o, s, id, sc, p, speaker);
        OpenRefusedKeeps(o, s, id, sc, p, speaker, if v.Suppressed? then Duplicate else Limited);
      }
    }
  }

  // ---- delivering a reply ----

  lemma AdvanceFacts(o: Options, f: Flight, r: Reply)
    requires StageFits(o, f)
    ensures var (g, op) := Advance(o, f, r);
            && g.scope == f.scope && g.speaker == f.speaker && g.turn == f.turn
            && (Engaged(g) || !op.NoOp? ==> Engaged(f))
            && (if op.Refunding? then f.charged && !g.charged else g.charged == f.charged)
  {
  }

  /** One call fewer charged is one offer handed back, if it was made this turn. */
  lemma OneFewerSpent(o: Options, s: System, t: System, id: nat, g: Flight)
    requires id in s.flights
    requires var f := s.flights[id]; var k := f.scope.Key();
             && f.charged && !g.charged && t.flights == s.flights[id := g]
             && BudgetOk(o, s, k) && k in s.book.states && k in t.book.states
             && t.book.states[k].turn == s.book.states[k].turn
             && t.book.states[k].offered ==
                if s.book.states[k].turn == f.turn && Offered(s.book.states[k], f.speaker) > 0
                then s.book.states[k].offered[f.speaker := Offered(s.book.states[k], f.speaker) - 1]
                else s.book.states[k].offered
    ensures BudgetOk(o, t, s.flights[id].scope.Key())
  {
    var f := s.flights[id];
    var k, now := f.scope.Key(), s.book.states[f.scope.Key()].turn;
    ChargedLess(s.flights, id, g);
    forall speaker, turn: nat ensures |Charged(t.flights, k, speaker, turn)| <= o.maxProposals {
      SubsetSize(Charged(t.flights, k, speaker, turn), Charged(s.flights, k, speaker, turn));
    }
    forall speaker ensures Offered(t.book.states[k], speaker) == |Charged(t.flights, k, speaker, now)| {
      assert Offered(s.book.states[k], speaker) == |Charged(s.flights, k, speaker, now)|;
    }
  }

  /** A call that moves on without coming back to the books. */
  lemma QuietReplyKeeps(o: Options, s: System, id: nat, g: Flight)
    requires Inv(o, s) && id in s.flights && FlightOk(o, g)
    requires var f := s.flights[id];
             g.scope == f.scope && g.speaker == f.speaker && g.turn == f.turn && g.charged == f.charged &&
             (Engaged(g) ==> Engaged(f))
    ensures Inv(o, s.(flights := s.flights[id := g]))
  {
    var t := s.(flights := s.flights[id := g]);
    ChargedSame(s.flights, id, g);
    SameBooksSameClaims(o, s, t);
    forall j | j in t.flights ensures Anchored(t, t.flights[j]) {
      assert Anchored(s, s.flights[j]);
    }
  }

  /** A call that hands its reservation back. */
  ghost predicate IsRefund(s: System, t: System, id: nat, g: Flight) {
    && id in s.flights
    && var f := s.flights[id];
       var k := f.scope.Key();
       && f.charged && !g.charged && g.scope == f.scope && g.speaker == f.speaker && g.turn == f.turn
       && t.flights == s.flights[id := g] && t.log == s.log
       && t.touches == s.touches + [k] && t.evicted == s.evicted + Lost(s.book, k)
       && t.book == Refund(s.book, k, f.speaker, f.turn)
  }

  lemma RefundSpendsLess(o: Options, s: System, t: System, id: nat, g: Flight)
    requires IsRefund(s, t, id, g) && Anchored(s, s.flights[id])
    requires s.flights[id].scope.Key() !in s.evicted && BudgetOk(o, s, s.flights[id].scope.Key())
    ensures BudgetOk(o, t, s.flights[id].scope.Key())
  {
    OneFewerSpent(o, s, t, id, g);
  }

  lemma RefundIsSection(o: Options, s: System, t: System, id: nat, g: Flight)
    requires IsRefund(s, t, id, g)
    ensures var k := g.scope.Key();
            && Only(s, t, k) && Section(s.book, k, t.book) && TurnIn(s, k) <= TurnIn(t, k)
            && t.book.states[k].declines == Touched(s.book, k).states[k].declines
            && t.book.states[k].turn == Touched(s.book, k).states[k].turn
  {
    var f := s.flights[id];
    SectionsAre(s.book, f.scope.Key(), "", 0, "", f.speaker, o, f.turn, Refusal(f));
    SectionOnly(s, f.scope.Key(), t.book, t);
  }

  lemma RefundKeepsBudget(o: Options, s: System, t: System, id: nat, g: Flight)
    requires o.Normal() && Inv(o, s) && IsRefund(s, t, id, g)
    ensures forall j :: j !in t.evicted ==> BudgetOk(o, t, j)
  {
    RefundIsSection(o, s, t, id, g);
    ElsewhereKeepsBudget(o, s, t, g.scope.Key(), id, g);
    if g.scope.Key() !in t.evicted {
      RefundSpendsLess(o, s, t, id, g);
    }
  }

  /** Moving one call on, within its own section, keeps every call anchored. */
  lemma SectionKeepsAnchors(s: System, t: System, id: nat, g: Flight)
    requires Only(s, t, g.scope.Key()) && g.scope.Key() in t.book.states && TurnIn(s, g.scope.Key()) <= TurnIn(t, g.scope.Key())
    requires id in s.flights && t.flights == s.flights[id := g]
    requires g.scope == s.flights[id].scope && g.turn == s.flights[id].turn && (Engaged(g) ==> Engaged(s.flights[id]))
    requires forall j :: j in s.flights ==> Anchored(s, s.flights[j])
    ensures forall j :: j in t.flights ==> Anchored(t, t.flights[j])
  {
    AnchorsKept(s, t, g.scope.Key());
    forall j | j in t.flights ensures Anchored(t, t.flights[j]) {
      assert Anchored(t, s.flights[j]);
    }
  }

  lemma RefundKeeps(o: Options, s: System, t: System, id: nat, g: Flight)
    requires o.Normal() && Inv(o, s) && IsRefund(s, t, id, g) && FlightOk(o, g)
    ensures Inv(o, t)
  {
    RefundIsSection(o, s, t, id, g);
    SectionRemembers(s.book, s.touches, g.scope.Key(), t.book);
    RefundKeepsBudget(o, s, t, id, g);
    UnchangedLog(o, s, g.scope.Key(), t.book, t);
    SectionKeepsAnchors(s, t, id, g);
  }

  /** A call that records a refusal. */
  ghost predicate IsRefusal(s: System, t: System, id: nat, g: Flight) {
    && id in s.flights
    && var f := s.flights[id];
       var k := f.scope.Key();
       && Engaged(f) && g.charged == f.charged
       && g.scope == f.scope && g.speaker == f.speaker && g.turn == f.turn
       && t.flights == s.flights[id := g] && t.log == s.log[k := LogOf(s, k) + [Refusal(f)]]
       && t.touches == s.touches + [k] && t.evicted == s.evicted + Lost(s.book, k)
       && t.book == Refuse(s.book, k, Refusal(f))
  }

  lemma RefusalLogged(o: Options, s: System, t: System, id: nat, g: Flight)
    requires IsRefusal(s, t, id, g)
    requires Anchored(s, s.flights[id]) && LogOk(o, s, s.flights[id].scope.Key())
    requires s.flights[id].scope.Key() !in s.evicted
    ensures LogOk(o, t, s.flights[id].scope.Key())
  {
    var f := s.flights[id];
    var k := f.scope.Key();
    var st := s.book.states[k];
    RefuseTracks(st.declines, LogOf(s, k), st.turn, o.window, Refusal(f));
  }

  lemma RefusalSpendsNothing(o: Options, s: System, t: System, id: nat, g: Flight)
    requires IsRefusal(s, t, id, g) && Anchored(s, s.flights[id])
    requires s.flights[id].scope.Key() !in s.evicted && BudgetOk(o, s, s.flights[id].scope.Key())
    ensures BudgetOk(o, t, s.flights[id].scope.Key())
  {
    var k := s.flights[id].scope.Key();
    ChargedSame(s.flights, id, g);
    forall speaker, turn: nat ensures Charged(t.flights, k, speaker, turn) == Charged(s.flights, k, speaker, turn) {
    }
    assert t.book.states[k].offered == s.book.states[k].offered && t.book.states[k].turn == s.book.states[k].turn;
  }

  lemma RefusalIsSection(o: Options, s: System, t: System, id: nat, g: Flight)
    requires IsRefusal(s, t, id, g)
    ensures var k := g.scope.Key();
            Only(s, t, k) && Section(s.book, k, t.book) && TurnIn(s, k) <= TurnIn(t, k)
  {
    var f := s.flights[id];
    SectionsAre(s.book, f.scope.Key(), "", 0, "", f.speaker, o, f.turn, Refusal(f));
    SectionOnly(s, f.scope.Key(), t.book, t);
  }

  lemma RefusalKeepsBudget(o: Options, s: System, t: System, id: nat, g: Flight)
    requires o.Normal() && Inv(o, s) && IsRefusal(s, t, id, g)
    ensures forall j :: j !in t.evicted ==> BudgetOk(o, t, j)
  {
    RefusalIsSection(o, s, t, id, g);
    ElsewhereKeepsBudget(o, s, t, g.scope.Key(), id, g);
    if g.scope.Key() !in t.evicted {
      RefusalSpendsNothing(o, s, t, id, g);
    }
  }

  lemma RefusalKeepsLog(o: Options, s: System, t: System, id: nat, g: Flight)
    requires Inv(o, s) && IsRefusal(s, t, id, g)
    ensures forall j :: j !in t.evicted ==> LogOk(o, t, j)
  {
    RefusalIsSection(o, s, t, id, g);
    OthersKeepLog(o, s, t, g.scope.Key());
    if g.scope.Key() !in t.evicted {
      RefusalLogged(o, s, t, id, g);
    }
  }

  lemma RefusalKeeps(o: Options, s: System, t: System, id: nat, g: Flight)
    requires o.Normal() && Inv(o, s) && IsRefusal(s, t, id, g) && FlightOk(o, g)
    ensures Inv(o, t)
  {
    RefusalIsSection(o, s, t, id, g);
    SectionRemembers(s.book, s.touches, g.scope.Key(), t.book);
    RefusalKeepsBudget(o, s, t, id, g);
    RefusalKeepsLog(o, s, t, id, g);
    SectionKeepsAnchors(s, t, id, g);
  }

  lemma DeliverKeeps(o: Options, s: System, id: nat, r: Reply)
    requires o.Normal() && Inv(o, s)
    ensures Inv(o, StepDeliver(o, s, id, r))
  {
    if id in s.flights {
      var f := s.flights[id];
      var (g, op) := Advance(o, f, r);
      AdvanceOk(o, f, r);
      AdvanceFacts(o, f, r);
      match op
      case NoOp => QuietReplyKeeps(o, s, id, g);
      case Refunding => RefundKeeps(o, s, StepDeliver(o, s, id, r), id, g);
      case Refusing => RefusalKeeps(o, s, StepDeliver(o, s, id, r), id, g);
    }
  }

  lemma PromoteKeeps(o: Options, s: System, id: nat, sc: Scope, entry: string, speaker: int)
    requires Inv(o, s) && id !in s.flights
    ensures Inv(o, s.(flights := s.flights[id := LaunchPromotion(o, sc, entry, speaker)]))
  {
    LaunchPromotionOk(o, sc, entry, speaker);
    IdleCallKeeps(o, s, id, LaunchPromotion(o, sc, entry, speaker));
  }

  lemma StepKeeps(o: Options, s: System, e: Event)
    requires o.Normal() && Inv(o, s)
    ensures Inv(o, Step(o, s, e))
  {
    match e
    case Begin(sc, token) => BeginKeeps(o, s, sc, token);
    case Open(id, sc, p, speaker) => OpenKeeps(o, s, id, sc, p, speaker);
    case Promote(id, sc, entry, speaker) =>
      if id !in s.flights { PromoteKeeps(o, s, id, sc, entry, speaker); }
    case Deliver(id, r) => DeliverKeeps(o, s, id, r);
  }

  lemma StartOk(o: Options)
    requires o.Normal()
    ensures Inv(o, START)
  {
  }

  /** Every state a run can reach satisfies the invariant. */
  lemma {:induction false} RunKeeps(o: Options, s: System, events: seq<Event>)
    requires o.Normal() && Inv(o, s)
    ensures Inv(o, Run(o, s, events))
  {
    if events != [] {
      RunKeeps(o, s, events[..|events| - 1]);
      StepKeeps(o, Run(o, s, events[..|events| - 1]), events[|events| - 1]);
    }
  }
}
