/** The engine object: the two fields its mutex guards, and its critical sections as methods,
    each against the function of `Capture` that says what the section does. */
module EngineObject {
  import opened Optionals
  import opened Text
  import opened Capture
  import opened Recency

  /** The loop of `recentlyDeclined`. */
  method Matches(declines: seq<Decline>, turn: int, title: string, speaker: int, window: int) returns (found: bool)
    ensures found <==> exists d :: d in declines && d.title == title && d.speaker == speaker && Live(d, turn, window)
  {
    var i := 0;
    while i < |declines|
      invariant 0 <= i <= |declines|
      invariant forall d :: d in declines[..i] ==> !(d.title == title && d.speaker == speaker && Live(d, turn, window))
    {
      var d := declines[i];
      if d.title == title && d.speaker == speaker && turn - d.turn < window {
        return true;
      }
      assert declines[..i + 1] == declines[..i] + [d];
      i := i + 1;
    }
    assert declines[..i] == declines;
    found := false;
  }

  /** The loop of `pruneDeclines`. */
  method Prune(declines: seq<Decline>, turn: int, window: int) returns (kept: seq<Decline>)
    ensures kept == LiveOnly(declines, turn, window)
  {
    kept := [];
    var i := 0;
    while i < |declines|
      invariant 0 <= i <= |declines|
      invariant kept == LiveOnly(declines[..i], turn, window)
    {
      assert declines[..i + 1][..i] == declines[..i];
      if turn - declines[i].turn < window {
        kept := kept + [declines[i]];
      }
      i := i + 1;
    }
    assert declines[..i] == declines;
  }

  /** The loop of `evictOldestLocked`, over the conversations in whatever order they come. */
  method FindOldest(states: map<ScopeKey, ScopeState>) returns (oldest: ScopeKey)
    requires states != map[]
    ensures IsOldest(states, oldest)
  {
    var left := states.Keys;
    oldest :| oldest in left;
    left := left - {oldest};
    while left != {}
      invariant left <= states.Keys && oldest in states
      invariant forall k :: k in states && k !in left ==> states[oldest].touched <= states[k].touched
      decreases |left|
    {
      var k :| k in left;
      if states[k].touched < states[oldest].touched {
        oldest := k;
      }
      left := left - {k};
    }
  }

  class Engine {
    const opts: Options
    var states: map<ScopeKey, ScopeState>
    var clock: nat

    ghost function Now(): Book
      reads this
    {
      Book(states, clock)
    }

    ghost predicate Valid()
      reads this
    {
      opts.Normal() && Stamped(Now())
    }

    constructor (o: Options)
      ensures Valid() && Now() == Book(map[], 0) && opts == o.Normalized()
    {
      opts := o.Normalized();
      states := map[];
      clock := 0;
    }

    /** stateLocked, with the eviction it may need. */
    method Touch(k: ScopeKey)
      requires Valid()
      modifies this
      ensures Valid() && Now() == Touched(old(Now()), k)
    {
      TouchStamped(Now(), k);
      clock := clock + 1;
      if k in states {
        states := states[k := states[k].(touched := clock)];
      } else {
        if |states| >= MAX_SCOPES {
          var oldest := FindOldest(states);
          assert oldest == Oldest(states);
          states := states - {oldest};
        }
        states := states[k := FRESH.(touched := clock)];
      }
    }

    /** Writing back what looking a conversation up returned. */
    method Rewrite(k: ScopeKey, st: ScopeState)
      requires Valid() && k in states && st.touched == states[k].touched
      modifies this
      ensures Valid() && Now() == old(Now()).(states := old(states)[k := st])
    {
      ghost var before := Now();
      states := states[k := st];
      SameStampsStamped(before, Now());
    }

    method BeginTurn(sc: Scope, token: string)
      requires Valid()
      modifies this
      ensures Valid() && Now() == Capture.BeginTurn(old(Now()), sc.Key(), token, opts.window)
    {
      var k := sc.Key();
      Touch(k);
      var st := states[k];
      if st.turn != 0 && st.token == token {
        return;
      }
      var kept := Prune(st.declines, st.turn + 1, opts.window);
      Rewrite(k, st.(token := token, turn := st.turn + 1, offered := map[], declines := kept));
    }

    /** The locked part of Offer: a duplicate is turned away before the budget is looked at. */
    method Reserve(sc: Scope, title: string, speaker: int) returns (v: Verdict)
      requires Valid()
      modifies this
      ensures Valid() && (Now(), v) == Capture.Reserve(old(Now()), sc.Key(), NormalizeTitle(title), speaker, opts)
    {
      var k := sc.Key();
      Touch(k);
      var st := states[k];
      var declined := Matches(st.declines, st.turn, NormalizeTitle(title), speaker, opts.window);
      if declined {
        return Suppressed;
      }
      if Offered(st, speaker) >= opts.maxProposals {
        return Spent;
      }
      Rewrite(k, st.(offered := st.offered[speaker := Offered(st, speaker) + 1]));
      v := Granted(st.turn);
    }

    method RefundOffer(sc: Scope, speaker: int, turn: nat)
      requires Valid()
      modifies this
      ensures Valid() && Now() == Refund(old(Now()), sc.Key(), speaker, turn)
    {
      var k := sc.Key();
      Touch(k);
      var st := states[k];
      if st.turn == turn && Offered(st, speaker) > 0 {
        Rewrite(k, st.(offered := st.offered[speaker := Offered(st, speaker) - 1]));
      }
    }

    method RecordDecline(sc: Scope, speaker: int, title: string, turn: nat)
      requires Valid()
      modifies this
      ensures Valid() && Now() == Refuse(old(Now()), sc.Key(), Decline(NormalizeTitle(title), turn, speaker))
    {
      var k := sc.Key();
      Touch(k);
      var st := states[k];
      var declines := st.declines + [Decline(NormalizeTitle(title), turn, speaker)];
      if |declines| > MAX_DECLINES {
        declines := declines[|declines| - MAX_DECLINES..];
      }
      Rewrite(k, st.(declines := declines));
    }
  }
}
