/** What the ranking of one space's hits prefers: the rarer term's find, and among equals the
    one that came up first. */
module Rarity {
  import opened Ranking

  // ---- what a find is worth ----

  /** Scores add: what came of some terms and what came of more. */
  lemma {:induction false} ScoresAdd(hits: Hits, more: Hits, key: string)
    ensures Score(hits + more, key) == Score(hits, key) + Score(more, key)
  {
    if more == [] {
      assert hits + more == hits;
    } else {
      var n := |more| - 1;
      ScoresAdd(hits, more[..n], key);
      assert (hits + more)[..|hits + more| - 1] == hits + more[..n];
    }
  }

  /** One term's finds share one point equally: a term that found it alone gives an entry all
      of it, and one that found everything next to nothing. */
  lemma OneTermsPoint(group: seq<Entry>, key: string)
    ensures Score([group], key) * (|group| as real) == if Found(group, key) then 1.0 else 0.0
  {
    assert [group][..0] == [];
    if group != [] {
      assert (1.0 / (|group| as real)) * (|group| as real) == 1.0;
    }
  }

  ghost predicate FoundOnlyIn(hits: Hits, key: string, g: int) {
    0 <= g < |hits| && Found(hits[g], key) && forall h :: 0 <= h < |hits| && h != g ==> !Found(hits[h], key)
  }

  lemma OneFindScores(hits: Hits, key: string, g: int)
    requires FoundOnlyIn(hits, key, g)
    ensures Score(hits, key) * (|hits[g]| as real) == 1.0
  {
    hide Found, Score;
    var before, after := hits[..g], hits[g + 1..];
    assert hits == before + [hits[g]] + after;
    ScoresAdd(before + [hits[g]], after, key);
    ScoresAdd(before, [hits[g]], key);
    UnfoundScoresNothing(before, key);
    UnfoundScoresNothing(after, key);
    OneTermsPoint(hits[g], key);
  }

  lemma Inverses(a: real, x: nat, b: real, y: nat)
    requires a * (x as real) == 1.0 && b * (y as real) == 1.0
    ensures x < y ==> a > b
    ensures x == y ==> a == b
  {
    assert x > 0 && y > 0;
    assert a == 1.0 / (x as real) && b == 1.0 / (y as real);
  }

  // ---- who came up first ----

  /** The first hit with this key, group by group. */
  ghost predicate FirstAt(hits: Hits, key: string, g: int, i: int) {
    && 0 <= g < |hits| && 0 <= i < |hits[g]| && KeyOf(hits[g][i]) == key
    && (forall h :: 0 <= h < g ==> !Found(hits[h], key))
    && forall j :: 0 <= j < i ==> KeyOf(hits[g][j]) != key
  }

  predicate Earlier(g: int, i: int, h: int, j: int) {
    g < h || (g == h && i < j)
  }

  /** What had come up before hit `i` of group `g`. */
  function UpTo(hits: Hits, g: nat, i: nat): seq<Entry>
    requires g < |hits| && i <= |hits[g]|
  {
    Arrivals(AllArrivals(hits[..g]), hits[g][..i])
  }

  lemma {:induction false} ArrivalsGrow(known: seq<Entry>, group: seq<Entry>, i: nat)
    requires i <= |group|
    ensures Arrivals(known, group[..i]) <= Arrivals(known, group)
    decreases |group| - i
  {
    if i == |group| {
      assert group[..i] == group;
    } else {
      ArrivalsGrow(known, group, i + 1);
      assert group[..i + 1][..i] == group[..i];
    }
  }

  lemma {:induction false} AllArrivalsGrow(hits: Hits, g: nat)
    requires g <= |hits|
    ensures AllArrivals(hits[..g]) <= AllArrivals(hits)
    decreases |hits| - g
  {
    if g == |hits| {
      assert hits[..g] == hits;
    } else {
      AllArrivalsGrow(hits, g + 1);
      assert hits[..g + 1][..g] == hits[..g];
      ArrivalsGrow(AllArrivals(hits[..g]), hits[g], 0);
    }
  }

  lemma UpToGrows(hits: Hits, g: nat, i: nat, h: nat, j: nat)
    requires g < |hits| && i <= |hits[g]| && h < |hits| && j <= |hits[h]|
    requires Earlier(g, i, h, j) || (g == h && i == j)
    ensures UpTo(hits, g, i) <= UpTo(hits, h, j) <= AllArrivals(hits)
  {
    Within(hits, h, j);
    if g == h {
      assert hits[h][..j][..i] == hits[g][..i];
      ArrivalsGrow(AllArrivals(hits[..g]), hits[g][..j], i);
    } else {
      Within(hits[..h], g, i);
      assert hits[..h][..g] == hits[..g];
      ArrivalsGrow(AllArrivals(hits[..h]), hits[h][..j], 0);
      assert hits[h][..j][..0] == [];
    }
  }

  lemma Within(hits: Hits, g: nat, i: nat)
    requires g < |hits| && i <= |hits[g]|
    ensures UpTo(hits, g, i) <= AllArrivals(hits)
  {
    ArrivalsGrow(AllArrivals(hits[..g]), hits[g], i);
    assert hits[..g + 1][..g] == hits[..g];
    AllArrivalsGrow(hits, g + 1);
  }

  /** A key's first hit is the entry it is known by, and comes right behind what came up before. */
  lemma FirstArrives(hits: Hits, key: string, g: nat, i: nat)
    requires FirstAt(hits, key, g, i)
    ensures UpTo(hits, g, i + 1) == UpTo(hits, g, i) + [hits[g][i]]
    ensures |UpTo(hits, g, i)| < |AllArrivals(hits)| && AllArrivals(hits)[|UpTo(hits, g, i)|] == hits[g][i]
  {
    var known, part := AllArrivals(hits[..g]), hits[g][..i];
    AllArrivalsAre(hits[..g]);
    ArrivalsAre(known, part);
    assert hits[g][..i + 1][..i] == part;
    assert !Found(part, key);
    forall h | 0 <= h < g ensures !Found(hits[..g][h], key) {
      assert hits[..g][h] == hits[h];
    }
    Within(hits, g, i + 1);
  }

  lemma ArrivalOrder(hits: Hits, k: string, l: string, g: nat, i: nat, h: nat, j: nat)
    requires FirstAt(hits, k, g, i) && FirstAt(hits, l, h, j) && Earlier(g, i, h, j)
    ensures exists p, q :: 0 <= p < q < |AllArrivals(hits)| &&
                           AllArrivals(hits)[p] == hits[g][i] && AllArrivals(hits)[q] == hits[h][j]
  {
    FirstArrives(hits, k, g, i);
    FirstArrives(hits, l, h, j);
    UpToGrows(hits, g, i + 1, h, j);
    var p, q := |UpTo(hits, g, i)|, |UpTo(hits, h, j)|;
    assert p < q;
  }

  /** Each key is shown as the first entry that came up with it. */
  lemma KnownByItsFirst(hits: Hits, e: Entry, g: nat, i: nat)
    requires e in Ranked(hits) && FirstAt(hits, KeyOf(e), g, i)
    ensures e == hits[g][i]
  {
    RankedHolds(hits, e);
    AllArrivalsAre(hits);
    FirstArrives(hits, KeyOf(e), g, i);
  }

  // ---- the order of the result ----

  /** Of two entries worth as much, the one that came up first comes first. */
  lemma TiesKeepArrival(hits: Hits, p: nat, q: nat, g: nat, i: nat, h: nat, j: nat)
    requires p < |Ranked(hits)| && q < |Ranked(hits)|
    requires FirstAt(hits, KeyOf(Ranked(hits)[p]), g, i) && FirstAt(hits, KeyOf(Ranked(hits)[q]), h, j)
    requires Score(hits, KeyOf(Ranked(hits)[p])) == Score(hits, KeyOf(Ranked(hits)[q])) && Earlier(g, i, h, j)
    ensures p < q
  {
    hide Ranked, Score, FirstAt;
    var a, b := Ranked(hits)[p], Ranked(hits)[q];
    KnownByItsFirst(hits, a, g, i);
    KnownByItsFirst(hits, b, h, j);
    ArrivalOrder(hits, KeyOf(a), KeyOf(b), g, i, h, j);
    AllArrivalsAre(hits);
    if q < p {
      RankedPair(hits, q, p);
    }
  }

  lemma RarerScoresMore(hits: Hits, k: string, l: string, g: nat, h: nat)
    requires FoundOnlyIn(hits, k, g) && FoundOnlyIn(hits, l, h)
    ensures |hits[g]| < |hits[h]| ==> Score(hits, k) > Score(hits, l)
    ensures |hits[g]| == |hits[h]| ==> Score(hits, k) == Score(hits, l)
  {
    hide Score, Found;
    OneFindScores(hits, k, g);
    OneFindScores(hits, l, h);
    Inverses(Score(hits, k), |hits[g]|, Score(hits, l), |hits[h]|);
  }

  /** Of two entries that one term each found, the one whose term found fewer comes first; where
      both found as many, the one that came up first. */
  lemma RarerTermIsFirst(hits: Hits, p: nat, q: nat, g: nat, i: nat, h: nat, j: nat)
    requires p < |Ranked(hits)| && q < |Ranked(hits)|
    requires FoundOnlyIn(hits, KeyOf(Ranked(hits)[p]), g) && FirstAt(hits, KeyOf(Ranked(hits)[p]), g, i)
    requires FoundOnlyIn(hits, KeyOf(Ranked(hits)[q]), h) && FirstAt(hits, KeyOf(Ranked(hits)[q]), h, j)
    requires |hits[g]| < |hits[h]| || (|hits[g]| == |hits[h]| && Earlier(g, i, h, j))
    ensures p < q
  {
    hide Ranked, Score, FirstAt, Found, KeyOf;
    RarerScoresMore(hits, KeyOf(Ranked(hits)[p]), KeyOf(Ranked(hits)[q]), g, h);
    if |hits[g]| < |hits[h]| {
      HigherScoreIsFirst(hits, p, q);
    } else {
      TiesKeepArrival(hits, p, q, g, i, h, j);
    }
  }

  /** Every key that was found has such a first hit, so the order above is that of any two. */
  lemma FirstHitExists(hits: Hits, key: string)
    requires FoundAnywhere(hits, key)
    ensures exists g: nat, i: nat :: FirstAt(hits, key, g, i)
  {
    var h: nat :| h < |hits| && Found(hits[h], key);
    var g := FirstGroup(hits, key, h);
    var e :| e in hits[g] && KeyOf(e) == key;
    var j: nat :| j < |hits[g]| && hits[g][j] == e;
    var i := FirstIn(hits[g], key, j);
    assert FirstAt(hits, key, g, i);
  }

  lemma {:induction false} FirstGroup(hits: Hits, key: string, h: nat) returns (g: nat)
    requires h < |hits| && Found(hits[h], key)
    ensures g <= h && Found(hits[g], key) && forall x :: 0 <= x < g ==> !Found(hits[x], key)
  {
    g := h;
    if x: nat :| x < h && Found(hits[x], key) {
      g := FirstGroup(hits, key, x);
    }
  }

  lemma {:induction false} FirstIn(group: seq<Entry>, key: string, j: nat) returns (i: nat)
    requires j < |group| && KeyOf(group[j]) == key
    ensures i <= j && KeyOf(group[i]) == key && forall x :: 0 <= x < i ==> KeyOf(group[x]) != key
  {
    i := j;
    if x: nat :| x < j && KeyOf(group[x]) == key {
      i := FirstIn(group, key, x);
    }
  }
}
