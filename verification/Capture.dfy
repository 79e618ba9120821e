/** The capture engine's own state: turn counters, per-speaker budgets and the decline
    log of every conversation it remembers.

    `Book` is the whole of that state as a value; each function below is one of the
    engine's critical sections, that is, what happens while its mutex is held once. */
module Capture {
  import opened Optionals
  import opened Text

  type SpaceId = string

  datatype ScopeKind = Unresolved | Direct | Group | Household

  /** The authorization decision of one turn. */
  datatype Scope = Scope(kind: ScopeKind, write: SpaceId, read: seq<SpaceId>, chatId: int)
  {
    predicate AllowsPrivateCapture() { kind.Direct? }

    function Key(): ScopeKey { ScopeKey(kind, chatId, write) }
  }

  /** The engine prints these three into one string; the two leading numbers keep that
      printing injective, so the triple itself is the key here. */
  datatype ScopeKey = ScopeKey(kind: ScopeKind, chatId: int, write: SpaceId)

  datatype PrivateWrites = SaveFirst | AskFirst

  /** `fold` is the alias line: it turns title, body and aliases into the body to store. */
  datatype Options = Options(
    maxProposals: int, window: int, privateWrites: PrivateWrites, shared: SpaceId,
    english: bool, fold: (string, string, seq<string>) -> string)
  {
    function Normalized(): Options {
      this.(maxProposals := if maxProposals < 1 then 1 else maxProposals,
            window := if window < 1 then 10 else window)
    }

    predicate Normal() { maxProposals >= 1 && window >= 1 }
  }

  const MAX_DECLINES: nat := 32
  const MAX_SCOPES: nat := 32

  datatype Decline = Decline(title: string, turn: nat, speaker: int)

  datatype ScopeState = ScopeState(
    token: string, turn: nat, offered: map<int, nat>, declines: seq<Decline>, touched: nat)

  const FRESH := ScopeState("", 0, map[], [], 0)

  datatype Book = Book(states: map<ScopeKey, ScopeState>, clock: nat)

  function Offered(st: ScopeState, speaker: int): nat {
    if speaker in st.offered then st.offered[speaker] else 0
  }

  /** A refusal counts for `window` turns, the one it was made in included. */
  predicate Live(d: Decline, turn: int, window: int) { turn - d.turn < window }

  predicate RecentlyDeclined(st: ScopeState, title: string, speaker: int, window: int) {
    exists d :: d in st.declines && d.title == title && d.speaker == speaker && Live(d, st.turn, window)
  }

  function LiveOnly(ds: seq<Decline>, turn: int, window: int): seq<Decline> {
    if ds == [] then []
    else LiveOnly(ds[..|ds| - 1], turn, window) +
         if Live(ds[|ds| - 1], turn, window) then [ds[|ds| - 1]] else []
  }

  function LastOf<T>(s: seq<T>, n: nat): seq<T> {
    if |s| <= n then s else s[|s| - n..]
  }

  // ---- which conversation is forgotten when there is no room for another ----

  ghost predicate IsOldest(states: map<ScopeKey, ScopeState>, k: ScopeKey) {
    k in states && forall other :: other in states ==> states[k].touched <= states[other].touched
  }

  lemma {:induction false} OldestExists(states: map<ScopeKey, ScopeState>)
    requires states != map[]
    ensures exists k :: IsOldest(states, k)
    decreases |states|
  {
    var k :| k in states;
    var rest := states - {k};
    if rest == map[] {
      assert forall other :: other in states && other != k ==> other in rest;
      assert IsOldest(states, k);
    } else {
      assert |rest.Keys| < |states.Keys| by { assert rest.Keys == states.Keys - {k}; }
      OldestExists(rest);
      var r :| IsOldest(rest, r);
      var best := if states[k].touched <= states[r].touched then k else r;
      forall other | other in states ensures states[best].touched <= states[other].touched {
        if other != k { assert other in rest; }
      }
      assert IsOldest(states, best);
    }
  }

  ghost function Oldest(states: map<ScopeKey, ScopeState>): (k: ScopeKey)
    requires states != map[]
    ensures IsOldest(states, k)
  {
    OldestExists(states);
    var k :| IsOldest(states, k); k
  }

  /** Looking a conversation up: it becomes the most recently touched one, and is created
      if need be, at the price of the least recently touched one. */
  ghost function Touched(b: Book, k: ScopeKey): (r: Book)
    ensures k in r.states
  {
    var clock := b.clock + 1;
    if k in b.states then Book(b.states[k := b.states[k].(touched := clock)], clock)
    else
      var kept := if |b.states| >= MAX_SCOPES then b.states - {Oldest(b.states)} else b.states;
      Book(kept[k := FRESH.(touched := clock)], clock)
  }

  ghost function BeginTurn(b: Book, k: ScopeKey, token: string, window: int): (r: Book)
    ensures k in r.states
  {
    var t := Touched(b, k);
    var st := t.states[k];
    if st.turn != 0 && st.token == token then t
    else
      t.(states := t.states[k := st.(token := token, turn := st.turn + 1, offered := map[],
                                     declines := LiveOnly(st.declines, st.turn + 1, window))])
  }

  datatype Verdict = Suppressed | Spent | Granted(turn: nat)

  function VerdictOn(st: ScopeState, title: string, speaker: int, o: Options): Verdict {
    if RecentlyDeclined(st, title, speaker, o.window) then Suppressed
    else if Offered(st, speaker) >= o.maxProposals then Spent
    else Granted(st.turn)
  }

  /** The locked part of Offer. `title` is already normalised. */
  ghost function Reserve(b: Book, k: ScopeKey, title: string, speaker: int, o: Options): (r: (Book, Verdict))
    ensures k in r.0.states
  {
    var t := Touched(b, k);
    var st := t.states[k];
    var v := VerdictOn(st, title, speaker, o);
    (if v.Granted? then
       t.(states := t.states[k := st.(offered := st.offered[speaker := Offered(st, speaker) + 1])])
     else t, v)
  }

  ghost function Refund(b: Book, k: ScopeKey, speaker: int, turn: nat): (r: Book)
    ensures k in r.states
  {
    var t := Touched(b, k);
    var st := t.states[k];
    if st.turn == turn && Offered(st, speaker) > 0 then
      t.(states := t.states[k := st.(offered := st.offered[speaker := Offered(st, speaker) - 1])])
    else t
  }

  ghost function Refuse(b: Book, k: ScopeKey, d: Decline): (r: Book)
    ensures k in r.states
  {
    var t := Touched(b, k);
    var st := t.states[k];
    t.(states := t.states[k := st.(declines := LastOf(st.declines + [d], MAX_DECLINES))])
  }
}
