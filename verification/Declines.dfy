/** The decline list, which is pruned by age and cut to 32, against the unbounded record of
    every refusal it stands for. */
module Declines {
  import opened Optionals
  import opened Capture

  ghost predicate Increasing(at: seq<nat>) {
    forall i, j :: 0 <= i < j < |at| ==> at[i] < at[j]
  }

  ghost predicate PointsTo(at: seq<nat>, all: seq<Decline>, ds: seq<Decline>) {
    |at| == |ds| && forall i :: 0 <= i < |at| ==> at[i] < |all| && all[at[i]] == ds[i]
  }

  /** Of the last 32 refusals recorded, no position in date is missing. */
  ghost predicate Complete(at: seq<nat>, all: seq<Decline>, turn: int, window: int) {
    forall j :: 0 <= j < |all| && |all| - MAX_DECLINES <= j && Live(all[j], turn, window) ==> j in at
  }

  /** `at[i]` is where in the whole record the list's i-th refusal was made. The list is in
      the record's order, and of the last 32 refusals it is missing only those out of date. */
  ghost predicate Indexes(ds: seq<Decline>, all: seq<Decline>, turn: int, window: int, at: seq<nat>) {
    |ds| <= MAX_DECLINES && Increasing(at) && PointsTo(at, all, ds) && Complete(at, all, turn, window)
  }

  ghost predicate Tracks(ds: seq<Decline>, all: seq<Decline>, turn: int, window: int) {
    exists at :: Indexes(ds, all, turn, window, at)
  }

  /** The list never holds a refusal nobody made. */
  lemma NothingInvented(ds: seq<Decline>, all: seq<Decline>, turn: int, window: int, d: Decline)
    requires Tracks(ds, all, turn, window) && d in ds
    ensures d in all
  {
    var at :| Indexes(ds, all, turn, window, at);
    var i :| 0 <= i < |ds| && ds[i] == d;
    assert all[at[i]] == d;
  }

  /** A refusal still in date is missing only once 32 newer ones have been recorded. */
  lemma NothingLost(ds: seq<Decline>, all: seq<Decline>, turn: int, window: int, j: nat)
    requires Tracks(ds, all, turn, window)
    requires j < |all| && |all| - j <= MAX_DECLINES && Live(all[j], turn, window)
    ensures all[j] in ds
  {
    var at :| Indexes(ds, all, turn, window, at);
    var i :| 0 <= i < |at| && at[i] == j;
    assert ds[i] == all[j];
  }

  // ---- pruning ----

  /** The positions pruning keeps. */
  ghost function LiveAt(ds: seq<Decline>, at: seq<nat>, turn: int, window: int): (r: seq<nat>)
    requires |at| == |ds|
    ensures |r| == |LiveOnly(ds, turn, window)| <= |ds|
  {
    if ds == [] then []
    else LiveAt(ds[..|ds| - 1], at[..|ds| - 1], turn, window) +
         if Live(ds[|ds| - 1], turn, window) then [at[|ds| - 1]] else []
  }

  lemma {:induction false} LiveAtIsPart(ds: seq<Decline>, at: seq<nat>, turn: int, window: int)
    requires |at| == |ds|
    ensures forall x :: x in LiveAt(ds, at, turn, window) ==> x in at
  {
    if ds != [] {
      LiveAtIsPart(ds[..|ds| - 1], at[..|ds| - 1], turn, window);
    }
  }

  lemma {:induction false} LiveAtIncreases(ds: seq<Decline>, at: seq<nat>, turn: int, window: int)
    requires |at| == |ds| && Increasing(at)
    ensures Increasing(LiveAt(ds, at, turn, window))
  {
    if ds != [] {
      var n := |ds| - 1;
      LiveAtIncreases(ds[..n], at[..n], turn, window);
      LiveAtIsPart(ds[..n], at[..n], turn, window);
      var before := LiveAt(ds[..n], at[..n], turn, window);
      forall i | 0 <= i < |before| ensures before[i] < at[n] {
        assert before[i] in before;
        var j :| 0 <= j < n && at[..n][j] == before[i];
        assert at[j] == before[i];
      }
    }
  }

  lemma {:induction false} LiveAtPoints(ds: seq<Decline>, all: seq<Decline>, at: seq<nat>, turn: int, window: int)
    requires PointsTo(at, all, ds)
    ensures PointsTo(LiveAt(ds, at, turn, window), all, LiveOnly(ds, turn, window))
  {
    if ds != [] {
      LiveAtPoints(ds[..|ds| - 1], all, at[..|ds| - 1], turn, window);
    }
  }

  lemma {:induction false} LiveAtMissesNone(ds: seq<Decline>, at: seq<nat>, turn: int, window: int, i: nat)
    requires |at| == |ds| && i < |ds| && Live(ds[i], turn, window)
    ensures at[i] in LiveAt(ds, at, turn, window)
  {
    if i < |ds| - 1 {
      LiveAtMissesNone(ds[..|ds| - 1], at[..|ds| - 1], turn, window, i);
    }
  }

  lemma PruneTracks(ds: seq<Decline>, all: seq<Decline>, turn: int, window: int)
    requires Tracks(ds, all, turn, window)
    ensures Tracks(LiveOnly(ds, turn + 1, window), all, turn + 1, window)
  {
    var at :| Indexes(ds, all, turn, window, at);
    var r := LiveAt(ds, at, turn + 1, window);
    LiveAtIncreases(ds, at, turn + 1, window);
    LiveAtPoints(ds, all, at, turn + 1, window);
    forall j | 0 <= j < |all| && |all| - MAX_DECLINES <= j && Live(all[j], turn + 1, window) ensures j in r {
      var i :| 0 <= i < |at| && at[i] == j;
      LiveAtMissesNone(ds, at, turn + 1, window, i);
    }
    assert Indexes(LiveOnly(ds, turn + 1, window), all, turn + 1, window, r);
  }

  // ---- recording ----

  lemma {:induction false} RoomAbove(at: seq<nat>, n: nat, i: nat)
    requires i < |at| && (forall j :: 0 <= j < |at| ==> at[j] < n) && Increasing(at)
    ensures at[i] <= n - (|at| - i)
    decreases |at| - i
  {
    if i + 1 < |at| {
      RoomAbove(at, n, i + 1);
    }
  }

  /** Cutting an increasing list of positions to its last 32 loses none of the last 32. */
  lemma CutIsComplete(at: seq<nat>, all: seq<Decline>, turn: int, window: int)
    requires Increasing(at) && (forall j :: 0 <= j < |at| ==> at[j] < |all|) && Complete(at, all, turn, window)
    ensures Complete(LastOf(at, MAX_DECLINES), all, turn, window)
  {
    var r := LastOf(at, MAX_DECLINES);
    forall j | 0 <= j < |all| && |all| - MAX_DECLINES <= j && Live(all[j], turn, window) ensures j in r {
      var i :| 0 <= i < |at| && at[i] == j;
      RoomAbove(at, |all|, i);
      assert r[i - (|at| - |r|)] == j;
    }
  }

  lemma CutPoints(at: seq<nat>, all: seq<Decline>, ds: seq<Decline>)
    requires PointsTo(at, all, ds) && Increasing(at)
    ensures PointsTo(LastOf(at, MAX_DECLINES), all, LastOf(ds, MAX_DECLINES)) && Increasing(LastOf(at, MAX_DECLINES))
  {
  }

  lemma RefuseTracks(ds: seq<Decline>, all: seq<Decline>, turn: int, window: int, d: Decline)
    requires Tracks(ds, all, turn, window)
    ensures Tracks(LastOf(ds + [d], MAX_DECLINES), all + [d], turn, window)
  {
    var at :| Indexes(ds, all, turn, window, at);
    var here: nat := |all|;
    var more, whole := at + [here], all + [d];
    assert PointsTo(more, whole, ds + [d]) && Increasing(more);
    forall j | 0 <= j < |whole| && |whole| - MAX_DECLINES <= j && Live(whole[j], turn, window) ensures j in more {
      if j < |all| {
        assert whole[j] == all[j] && j in at;
      } else {
        assert more[|at|] == j;
      }
    }
    CutIsComplete(more, whole, turn, window);
    CutPoints(more, whole, ds + [d]);
    assert Indexes(LastOf(ds + [d], MAX_DECLINES), whole, turn, window, LastOf(more, MAX_DECLINES));
  }
}
