/** Which conversations the engine still remembers, in terms of who spoke since. */
module Recency {
  import opened Optionals
  import opened Capture

  type Touches = seq<ScopeKey>

  /** The other conversations touched after the last touch of `k`. */
  function Since(h: Touches, k: ScopeKey): set<ScopeKey> {
    if h == [] || h[|h| - 1] == k then {}
    else Since(h[..|h| - 1], k) + {h[|h| - 1]}
  }

  ghost function Newer(states: map<ScopeKey, ScopeState>, k: ScopeKey): set<ScopeKey>
    requires k in states
  {
    set other | other in states && states[k].touched < states[other].touched
  }

  ghost predicate Stamped(b: Book) {
    && |b.states| <= MAX_SCOPES
    && (forall k :: k in b.states ==> b.states[k].touched <= b.clock)
    && (forall k, j :: k in b.states && j in b.states && k != j ==> b.states[k].touched != b.states[j].touched)
  }

  ghost predicate Remembers(b: Book, h: Touches) {
    && Stamped(b)
    && (forall k :: k in b.states ==> k in h && Since(h, k) == Newer(b.states, k))
    && (forall k :: k in h && k !in b.states ==> |Since(h, k)| >= MAX_SCOPES)
  }

  lemma SinceOneMore(h: Touches, x: ScopeKey, k: ScopeKey)
    ensures Since(h + [x], k) == if x == k then {} else Since(h, k) + {x}
  {
    assert (h + [x])[..|h|] == h;
  }

  lemma SubsetSize<T>(a: set<T>, b: set<T>)
    requires a <= b
    ensures |a| <= |b|
  {
    assert |b| == |a| + |b - a| by { assert b == a + (b - a); }
  }

  lemma NewerSize(b: Book, k: ScopeKey)
    requires Stamped(b) && k in b.states
    ensures |Newer(b.states, k)| < |b.states|
    ensures IsOldest(b.states, k) ==> |Newer(b.states, k)| == |b.states| - 1
  {
    SubsetSize(Newer(b.states, k), b.states.Keys - {k});
    if IsOldest(b.states, k) {
      assert Newer(b.states, k) == b.states.Keys - {k};
    }
  }

  lemma NewerAfterTouch(b: Book, x: ScopeKey, k: ScopeKey)
    requires Stamped(b) && k in b.states && k in Touched(b, x).states && k != x
    ensures Newer(Touched(b, x).states, k) == Newer(b.states, k) + {x}
  {
    var r := Touched(b, x);
    assert r.states[k] == b.states[k] && r.states[x].touched == b.clock + 1;
    forall j | j in Newer(b.states, k) && j != x ensures j in Newer(r.states, k) {
    }
  }

  /** The conversation that made room: every one of the 32 was touched after it. */
  lemma ForgottenIsOld(b: Book, h: Touches, x: ScopeKey, k: ScopeKey)
    requires Remembers(b, h) && k in b.states && k !in Touched(b, x).states
    ensures |Since(h + [x], k)| >= MAX_SCOPES
  {
    assert x !in b.states && k == Oldest(b.states);
    SinceOneMore(h, x, k);
    NewerSize(b, k);
  }

  /** Looking `x` up is the one thing that changes what is remembered. */
  lemma TouchRemembers(b: Book, h: Touches, x: ScopeKey)
    requires Remembers(b, h)
    ensures Remembers(Touched(b, x), h + [x])
  {
    var r := Touched(b, x);
    TouchStamped(b, x);
    forall k | k in r.states ensures k in h + [x] && Since(h + [x], k) == Newer(r.states, k) {
      SinceOneMore(h, x, k);
      if k != x {
        NewerAfterTouch(b, x, k);
      } else {
        NothingNewer(b, x);
      }
    }
    forall k | k in h + [x] && k !in r.states ensures |Since(h + [x], k)| >= MAX_SCOPES {
      SinceOneMore(h, x, k);
      if k in b.states {
        ForgottenIsOld(b, h, x, k);
      } else {
        SubsetSize(Since(h, k), Since(h + [x], k));
      }
    }
  }

  lemma NothingNewer(b: Book, x: ScopeKey)
    requires Stamped(b)
    ensures Newer(Touched(b, x).states, x) == {}
  {
  }

  lemma TouchedSize(b: Book, x: ScopeKey)
    requires |b.states| <= MAX_SCOPES
    ensures |Touched(b, x).states| <= MAX_SCOPES
  {
    var r := Touched(b, x);
    if x in b.states {
      assert r.states.Keys == b.states.Keys;
    } else if |b.states| >= MAX_SCOPES {
      assert r.states.Keys == b.states.Keys - {Oldest(b.states)} + {x};
    } else {
      assert r.states.Keys == b.states.Keys + {x};
    }
  }

  lemma TouchStamped(b: Book, x: ScopeKey)
    requires Stamped(b)
    ensures Stamped(Touched(b, x))
  {
    TouchedSize(b, x);
    var r := Touched(b, x);
    assert r.states[x].touched == b.clock + 1;
    forall k | k in r.states && k != x
      ensures k in b.states && r.states[k] == b.states[k] && r.states[k].touched <= b.clock
    {
    }
  }

  /** The engine remembers a conversation exactly when fewer than 32 others have been
      touched since it last was. */
  lemma RememberedIff(b: Book, h: Touches, k: ScopeKey)
    requires Remembers(b, h)
    ensures k in b.states <==> k in h && |Since(h, k)| < MAX_SCOPES
  {
    if k in b.states {
      NewerSize(b, k);
    }
  }

  ghost predicate SameStamps(states: map<ScopeKey, ScopeState>, others: map<ScopeKey, ScopeState>) {
    && (forall k :: k in states <==> k in others)
    && (forall k :: k in states ==> states[k].touched == others[k].touched)
  }

  lemma SameStampsSameNewer(states: map<ScopeKey, ScopeState>, others: map<ScopeKey, ScopeState>, k: ScopeKey)
    requires SameStamps(states, others) && k in states
    ensures Newer(states, k) == Newer(others, k)
  {
  }

  lemma SameStampsStamped(b: Book, r: Book)
    requires SameStamps(b.states, r.states) && r.clock == b.clock && Stamped(b)
    ensures Stamped(r)
  {
    assert r.states.Keys == b.states.Keys;
  }

  /** Rewriting what is known of conversations does not change which are remembered. */
  lemma RewriteRemembers(b: Book, h: Touches, r: Book)
    requires Remembers(b, h) && SameStamps(b.states, r.states) && r.clock == b.clock
    ensures Remembers(r, h)
  {
    SameStampsStamped(b, r);
    forall k | k in r.states ensures k in h && Since(h, k) == Newer(r.states, k) {
      SameStampsSameNewer(b.states, r.states, k);
    }
  }
}
