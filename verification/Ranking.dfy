/** Retrieval: which words are searched for, how one space's hits are merged and cut, and
    which entry a publish request means. */
module Ranking {
  import opened Text

  datatype Entry = Entry(id: string, title: string, body: string, confidence: string, markers: seq<string>)

  // ---- a stable sort, largest first ----

  /** `a` comes before `b`: it weighs more, or as much and came earlier. */
  predicate Before(weights: seq<real>, a: nat, b: nat)
    requires a < |weights| && b < |weights|
  {
    weights[a] > weights[b] || (weights[a] == weights[b] && a < b)
  }

  ghost predicate InOrder(weights: seq<real>, order: seq<nat>) {
    && (forall i :: 0 <= i < |order| ==> order[i] < |weights|)
    && (forall i, j :: 0 <= i < j < |order| ==> Before(weights, order[i], order[j]))
  }

  /** Where a newcomer that ties last with its equals goes. */
  function Slot(weights: seq<real>, order: seq<nat>, x: nat): (at: nat)
    requires x < |weights| && forall i :: 0 <= i < |order| ==> order[i] < |weights|
    ensures at <= |order|
  {
    if order == [] || weights[order[0]] < weights[x] then 0
    else 1 + Slot(weights, order[1..], x)
  }

  function Sorted(weights: seq<real>, n: nat): (order: seq<nat>)
    requires n <= |weights|
    ensures |order| == n && forall i :: 0 <= i < |order| ==> order[i] < n
  {
    if n == 0 then []
    else
      var before := Sorted(weights, n - 1);
      Inserted(before, Slot(weights, before, n - 1), n - 1)
  }

  lemma {:induction false} SlotSplits(weights: seq<real>, order: seq<nat>, x: nat)
    requires InOrder(weights, order) && x < |weights| && forall i :: 0 <= i < |order| ==> order[i] < x
    ensures var at := Slot(weights, order, x);
            && (forall i :: 0 <= i < at ==> Before(weights, order[i], x))
            && (forall i :: at <= i < |order| ==> Before(weights, x, order[i]))
  {
    if order != [] && weights[order[0]] >= weights[x] {
      assert InOrder(weights, order[1..]);
      SlotSplits(weights, order[1..], x);
      var at := Slot(weights, order[1..], x);
      forall i | 1 + at <= i < |order| ensures Before(weights, x, order[i]) {
        assert order[1..][i - 1] == order[i];
      }
      forall i | 0 <= i < 1 + at ensures Before(weights, order[i], x) {
        if i > 0 { assert order[1..][i - 1] == order[i]; }
      }
    }
  }

  function Inserted(order: seq<nat>, at: nat, x: nat): seq<nat>
    requires at <= |order|
  {
    order[..at] + [x] + order[at..]
  }

  lemma InsertedInOrder(weights: seq<real>, before: seq<nat>, at: nat, x: nat)
    requires InOrder(weights, before) && x < |weights| && at <= |before|
    requires forall i :: 0 <= i < at ==> Before(weights, before[i], x)
    requires forall i :: at <= i < |before| ==> Before(weights, x, before[i])
    ensures InOrder(weights, Inserted(before, at, x))
  {
    var after := Inserted(before, at, x);
    forall i | 0 <= i < |after| ensures after[i] == if i < at then before[i] else if i == at then x else before[i - 1] {
      InsertedAt(before, at, x, i);
    }
  }

  lemma InsertedHolds(before: seq<nat>, at: nat, x: nat)
    requires at <= |before|
    ensures x in Inserted(before, at, x) && forall y :: y in before ==> y in Inserted(before, at, x)
  {
    assert Inserted(before, at, x)[at] == x;
    forall y | y in before ensures y in Inserted(before, at, x) {
      var i :| 0 <= i < |before| && before[i] == y;
      assert Inserted(before, at, x)[if i < at then i else i + 1] == y;
    }
  }

  /** The result is in order and is all of the first `n`, each once. */
  lemma {:induction false} SortedIs(weights: seq<real>, n: nat)
    requires n <= |weights|
    ensures InOrder(weights, Sorted(weights, n))
    ensures forall x: nat :: x < n ==> x in Sorted(weights, n)
  {
    if n > 0 {
      hide Inserted, InOrder, Slot;
      var before := Sorted(weights, n - 1);
      SortedIs(weights, n - 1);
      SlotSplits(weights, before, n - 1);
      InsertedInOrder(weights, before, Slot(weights, before, n - 1), n - 1);
      InsertedHolds(before, Slot(weights, before, n - 1), n - 1);
    }
  }

  lemma InsertedAt(before: seq<nat>, at: nat, x: nat, i: nat)
    requires at <= |before| && i <= |before|
    ensures (before[..at] + [x] + before[at..])[i] == if i < at then before[i] else if i == at then x else before[i - 1]
  {
  }

  // ---- merging one space's hits ----

  type Hits = seq<seq<Entry>>

  function KeyOf(e: Entry): string {
    if e.id != "" then e.id else "\0" + e.title + "\0" + e.body
  }

  /** The store's text has no null character in it. */
  predicate NullFree(e: Entry) { '\0' !in e.id && '\0' !in e.title }

  /** Two entries are one where they have one id, or neither has any and both say the same. */
  lemma KeysTellEntries(a: Entry, b: Entry)
    requires NullFree(a) && NullFree(b)
    ensures KeyOf(a) == KeyOf(b) <==> a.id == b.id && (a.id == "" ==> a.title == b.title && a.body == b.body)
  {
    if KeyOf(a) == KeyOf(b) {
      assert KeyOf(a)[0] == KeyOf(b)[0];
      assert a.id != "" ==> a.id[0] in a.id;
      assert b.id != "" ==> b.id[0] in b.id;
      if a.id == "" && b.id == "" {
        SplitAtNull(a.title, a.body, b.title, b.body);
      }
    }
  }

  /** Where a title does have one they need not be. */
  lemma NullsConfuse(a: Entry, b: Entry)
    requires a.id == b.id == "" && a.title == "x\0y" && a.body == "z" && b.title == "x" && b.body == "y\0z"
    ensures KeyOf(a) == KeyOf(b) && a.title != b.title
  {
    assert "\0" + "x\0y" + "\0" + "z" == "\0" + "x" + "\0" + "y\0z";
    assert |a.title| != |b.title|;
  }

  lemma SplitAtNull(a: string, x: string, b: string, y: string)
    requires '\0' !in a && '\0' !in b && "\0" + a + "\0" + x == "\0" + b + "\0" + y
    ensures a == b && x == y
  {
    var p, q := "\0" + a + "\0" + x, "\0" + b + "\0" + y;
    assert p[1..1 + |a|] == a && q[1..1 + |b|] == b && p[1 + |a|] == '\0' && q[1 + |b|] == '\0';
    assert p[2 + |a|..] == x && q[2 + |b|..] == y;
  }

  predicate Found(group: seq<Entry>, key: string) {
    exists e :: e in group && KeyOf(e) == key
  }

  function Weight(group: seq<Entry>): real
    requires group != []
  {
    1.0 / (|group| as real)
  }

  function Share(group: seq<Entry>, key: string): real {
    if group != [] && Found(group, key) then Weight(group) else 0.0
  }

  /** What an entry is worth: for each term that found it, one over how many that term found. */
  function Score(hits: Hits, key: string): real {
    if hits == [] then 0.0 else Score(hits[..|hits| - 1], key) + Share(hits[|hits| - 1], key)
  }

  /** The entries in the order they first came up, one to a key. */
  function Arrivals(known: seq<Entry>, group: seq<Entry>): seq<Entry> {
    if group == [] then known
    else
      var before, e := Arrivals(known, group[..|group| - 1]), group[|group| - 1];
      if Found(before, KeyOf(e)) then before else before + [e]
  }

  function AllArrivals(hits: Hits): seq<Entry> {
    if hits == [] then [] else Arrivals(AllArrivals(hits[..|hits| - 1]), hits[|hits| - 1])
  }

  function Scores(hits: Hits, entries: seq<Entry>): seq<real> {
    seq(|entries|, i requires 0 <= i < |entries| => Score(hits, KeyOf(entries[i])))
  }

  function Cut<T>(s: seq<T>, limit: int): seq<T> {
    if limit > 0 && |s| > limit then s[..limit] else s
  }

  function Ranked(hits: Hits): seq<Entry> {
    var all := AllArrivals(hits);
    var order := Sorted(Scores(hits, all), |all|);
    seq(|order|, i requires 0 <= i < |order| => all[order[i]])
  }

  ghost predicate OneEach(entries: seq<Entry>) {
    forall i, j :: 0 <= i < j < |entries| ==> KeyOf(entries[i]) != KeyOf(entries[j])
  }

  lemma {:induction false} ArrivalsAre(known: seq<Entry>, group: seq<Entry>)
    requires OneEach(known)
    ensures OneEach(Arrivals(known, group))
    ensures forall k :: Found(Arrivals(known, group), k) <==> Found(known, k) || Found(group, k)
    ensures forall e :: e in Arrivals(known, group) ==> e in known || e in group
  {
    if group != [] {
      var n := |group| - 1;
      ArrivalsAre(known, group[..n]);
      var before, e := Arrivals(known, group[..n]), group[n];
      assert group == group[..n] + [e];
      forall i | 0 <= i < |before| && !Found(before, KeyOf(e)) ensures KeyOf(before[i]) != KeyOf(e) {
        assert before[i] in before;
      }
    }
  }

  predicate FoundAnywhere(hits: Hits, key: string) {
    exists g :: 0 <= g < |hits| && Found(hits[g], key)
  }

  lemma {:induction false} AllArrivalsAre(hits: Hits)
    ensures OneEach(AllArrivals(hits))
    ensures forall k :: Found(AllArrivals(hits), k) <==> FoundAnywhere(hits, k)
    ensures forall e :: e in AllArrivals(hits) ==> exists g :: 0 <= g < |hits| && e in hits[g]
  {
    if hits != [] {
      var n := |hits| - 1;
      AllArrivalsAre(hits[..n]);
      ArrivalsAre(AllArrivals(hits[..n]), hits[n]);
      forall k ensures Found(AllArrivals(hits), k) <==> FoundAnywhere(hits, k) {
        if g :| 0 <= g < n && Found(hits[..n][g], k) { assert Found(hits[g], k); }
        if g :| 0 <= g < n && Found(hits[g], k) { assert Found(hits[..n][g], k); }
      }
      forall e | e in AllArrivals(hits) ensures exists g :: 0 <= g < |hits| && e in hits[g] {
        if g :| 0 <= g < n && e in hits[..n][g] { assert e in hits[g]; } else { assert e in hits[n]; }
      }
    }
  }

  datatype Tally = Tally(entry: Entry, score: real)

  /** One tally for each entry that has come up in these groups and `part` of another. */
  ghost predicate Arrived(out: seq<Tally>, index: map<string, nat>, hits: Hits, part: seq<Entry>) {
    && |out| == |Arrivals(AllArrivals(hits), part)|
    && (forall i :: 0 <= i < |out| ==> out[i].entry == Arrivals(AllArrivals(hits), part)[i])
    && (forall k :: k in index <==> Found(Arrivals(AllArrivals(hits), part), k))
    && (forall k :: k in index ==> index[k] < |out| && KeyOf(out[index[k]].entry) == k)
  }

  ghost predicate Credited(out: seq<Tally>, hits: Hits, part: seq<Entry>, weight: real) {
    forall i :: 0 <= i < |out| ==>
      out[i].score == Score(hits, KeyOf(out[i].entry)) + if Found(part, KeyOf(out[i].entry)) then weight else 0.0
  }

  /** What the tally holds after the groups before this one and `part` of this one. */
  ghost predicate Tallied(out: seq<Tally>, index: map<string, nat>, hits: Hits, part: seq<Entry>, weight: real) {
    Arrived(out, index, hits, part) && Credited(out, hits, part, weight)
  }

  lemma FoundOneMore(part: seq<Entry>, e: Entry, k: string)
    ensures Found(part + [e], k) <==> Found(part, k) || KeyOf(e) == k
  {
    assert e in part + [e];
    if Found(part, k) {
      var x :| x in part && KeyOf(x) == k;
      assert x in part + [e];
    }
  }

  lemma {:induction false} UnfoundScoresNothing(hits: Hits, k: string)
    requires !FoundAnywhere(hits, k)
    ensures Score(hits, k) == 0.0
  {
    if hits != [] {
      var n := |hits| - 1;
      assert !Found(hits[n], k);
      forall g | 0 <= g < n ensures !Found(hits[..n][g], k) {
        assert !Found(hits[g], k);
      }
      UnfoundScoresNothing(hits[..n], k);
    }
  }

  lemma NotYetFound(out: seq<Tally>, index: map<string, nat>, hits: Hits, part: seq<Entry>, k: string)
    requires Arrived(out, index, hits, part) && k !in index
    ensures !Found(part, k) && Score(hits, k) == 0.0
  {
    AllArrivalsAre(hits);
    ArrivalsAre(AllArrivals(hits), part);
    UnfoundScoresNothing(hits, k);
  }

  /** An entry no term has found before enters the tally with nothing to its name. */
  lemma NewcomerArrived(out: seq<Tally>, index: map<string, nat>, hits: Hits, part: seq<Entry>, e: Entry)
    requires Arrived(out, index, hits, part) && KeyOf(e) !in index
    ensures Arrived(out + [Tally(e, 0.0)], index[KeyOf(e) := |out|], hits, part + [e])
  {
    var known := Arrivals(AllArrivals(hits), part);
    assert (part + [e])[..|part|] == part;
    forall k ensures Found(known + [e], k) <==> Found(known, k) || KeyOf(e) == k { FoundOneMore(known, e, k); }
  }

  lemma KnownArrived(out: seq<Tally>, index: map<string, nat>, hits: Hits, part: seq<Entry>, e: Entry)
    requires Arrived(out, index, hits, part) && KeyOf(e) in index
    ensures Arrived(out, index, hits, part + [e])
  {
    assert (part + [e])[..|part|] == part;
  }

  lemma ArrivedOneEach(out: seq<Tally>, index: map<string, nat>, hits: Hits, part: seq<Entry>)
    requires Arrived(out, index, hits, part)
    ensures forall i, j :: 0 <= i < j < |out| ==> KeyOf(out[i].entry) != KeyOf(out[j].entry)
  {
    AllArrivalsAre(hits);
    ArrivalsAre(AllArrivals(hits), part);
  }

  lemma IndexOf(out: seq<Tally>, index: map<string, nat>, hits: Hits, part: seq<Entry>, k: string)
    requires Arrived(out, index, hits, part) && Found(part, k)
    ensures k in index && index[k] < |out| && KeyOf(out[index[k]].entry) == k
  {
    AllArrivalsAre(hits);
    ArrivalsAre(AllArrivals(hits), part);
  }

  lemma ScoreArrived(out: seq<Tally>, index: map<string, nat>, hits: Hits, part: seq<Entry>, i: nat, score: real)
    requires Arrived(out, index, hits, part) && i < |out|
    ensures Arrived(out[i := out[i].(score := score)], index, hits, part)
  {
  }

  /** One entry of a group into the tally. */
  method Count(out: seq<Tally>, index: map<string, nat>, counted: set<string>, e: Entry, weight: real,
               ghost hits: Hits, ghost part: seq<Entry>)
    returns (out': seq<Tally>, index': map<string, nat>, counted': set<string>)
    requires Tallied(out, index, hits, part, weight)
    requires forall k :: k in counted <==> Found(part, k)
    ensures Tallied(out', index', hits, part + [e], weight)
    ensures forall k :: k in counted' <==> Found(part + [e], k)
  {
    hide Arrived, Score, Arrivals, AllArrivals;
    var key := KeyOf(e);
    out', index', counted' := out, index, counted;
    forall k ensures Found(part + [e], k) <==> Found(part, k) || key == k { FoundOneMore(part, e, k); }
    if key !in index {
      NotYetFound(out, index, hits, part, key);
      NewcomerArrived(out, index, hits, part, e);
      index' := index'[key := |out'|];
      out' := out' + [Tally(e, 0.0)];
    } else {
      KnownArrived(out, index, hits, part, e);
    }
    ArrivedOneEach(out', index', hits, part + [e]);
    if key !in counted {
      counted' := counted' + {key};
      IndexOf(out', index', hits, part + [e], key);
      var i := index'[key];
      ScoreArrived(out', index', hits, part + [e], i, out'[i].score + weight);
      out' := out'[i := out'[i].(score := out'[i].score + weight)];
    }
  }

  /** A group counted to its end is one more group. */
  lemma GroupDone(out: seq<Tally>, index: map<string, nat>, hits: Hits, group: seq<Entry>, weight: real)
    requires Tallied(out, index, hits, group, weight)
    requires group == [] || weight == Weight(group)
    ensures Tallied(out, index, hits + [group], [], 0.0)
  {
    assert (hits + [group])[..|hits|] == hits;
  }

  lemma NothingTallied()
    ensures Tallied([], map[], [], [], 0.0)
  {
  }

  lemma GroupBegins(out: seq<Tally>, index: map<string, nat>, hits: Hits, weight: real)
    requires Tallied(out, index, hits, [], 0.0)
    ensures Tallied(out, index, hits, [], weight) && forall k :: !Found([], k)
  {
    hide Arrived;
  }

  function ByScore(out: seq<Tally>): seq<Entry> {
    var scores := seq(|out|, i requires 0 <= i < |out| => out[i].score);
    var order := Sorted(scores, |scores|);
    seq(|order|, i requires 0 <= i < |order| => out[order[i]].entry)
  }

  lemma TalliesRank(out: seq<Tally>, index: map<string, nat>, hits: Hits)
    requires Tallied(out, index, hits, [], 0.0)
    ensures ByScore(out) == Ranked(hits)
  {
    var scores := seq(|out|, i requires 0 <= i < |out| => out[i].score);
    assert scores == Scores(hits, AllArrivals(hits));
  }

  method RankUnion(hits: Hits, limit: int) returns (entries: seq<Entry>)
    ensures entries == Cut(Ranked(hits), limit)
  {
    hide Tallied, Found, Ranked, ByScore;
    NothingTallied();
    var out: seq<Tally> := [];
    var index: map<string, nat> := map[];
    var g := 0;
    while g < |hits|
      invariant 0 <= g <= |hits|
      invariant Tallied(out, index, hits[..g], [], 0.0)
    {
      var group := hits[g];
      assert hits[..g + 1] == hits[..g] + [group];
      if |group| > 0 {
        var weight := 1.0 / (|group| as real);
        var counted: set<string> := {};
        GroupBegins(out, index, hits[..g], weight);
        var i := 0;
        while i < |group|
          invariant 0 <= i <= |group|
          invariant Tallied(out, index, hits[..g], group[..i], weight)
          invariant forall k :: k in counted <==> Found(group[..i], k)
        {
          assert group[..i + 1] == group[..i] + [group[i]];
          out, index, counted := Count(out, index, counted, group[i], weight, hits[..g], group[..i]);
          i := i + 1;
        }
        assert group[..i] == group;
        GroupDone(out, index, hits[..g], group, weight);
      } else {
        GroupDone(out, index, hits[..g], group, 0.0);
      }
      g := g + 1;
    }
    assert hits[..g] == hits;
    TalliesRank(out, index, hits);
    var ranked := ByScore(out);
    entries := Cut(ranked, limit);
  }

  /** Before, on entries: a higher score, or the same and an earlier arrival. */
  ghost predicate Outranks(hits: Hits, a: Entry, b: Entry) {
    var sa, sb := Score(hits, KeyOf(a)), Score(hits, KeyOf(b));
    sa > sb || (sa == sb && exists i, j :: 0 <= i < j < |AllArrivals(hits)| && AllArrivals(hits)[i] == a && AllArrivals(hits)[j] == b)
  }

  lemma RankedPair(hits: Hits, i: nat, j: nat)
    requires i < j < |Ranked(hits)|
    ensures Outranks(hits, Ranked(hits)[i], Ranked(hits)[j]) && KeyOf(Ranked(hits)[i]) != KeyOf(Ranked(hits)[j])
  {
    var all := AllArrivals(hits);
    var weights := Scores(hits, all);
    var order := Sorted(weights, |all|);
    SortedIs(weights, |all|);
    AllArrivalsAre(hits);
    assert Before(weights, order[i], order[j]);
    assert order[i] != order[j];
  }

  lemma RankedHolds(hits: Hits, e: Entry)
    ensures e in Ranked(hits) <==> e in AllArrivals(hits)
  {
    var all := AllArrivals(hits);
    var order := Sorted(Scores(hits, all), |all|);
    SortedIs(Scores(hits, all), |all|);
    if e in all {
      var x: nat :| x < |all| && all[x] == e;
      assert x in order;
      var j :| 0 <= j < |order| && order[j] == x;
      assert Ranked(hits)[j] == e;
    }
    if e in Ranked(hits) {
      var j :| 0 <= j < |order| && Ranked(hits)[j] == e;
      assert all[order[j]] == e;
    }
  }

  /** Ranked is the found entries, one to a key, each from a group that found it, in order of
      score and then of arrival. */
  lemma RankedIs(hits: Hits)
    ensures var r := Ranked(hits);
            && OneEach(r)
            && (forall k :: Found(r, k) <==> FoundAnywhere(hits, k))
            && (forall e :: e in r ==> exists g :: 0 <= g < |hits| && e in hits[g])
            && (forall i, j :: 0 <= i < j < |r| ==> Outranks(hits, r[i], r[j]))
  {
    var r := Ranked(hits);
    AllArrivalsAre(hits);
    forall i, j | 0 <= i < j < |r| ensures Outranks(hits, r[i], r[j]) && KeyOf(r[i]) != KeyOf(r[j]) {
      RankedPair(hits, i, j);
    }
    forall e ensures e in r <==> e in AllArrivals(hits) { RankedHolds(hits, e); }
    forall k ensures Found(r, k) <==> Found(AllArrivals(hits), k) {
      if Found(r, k) { var e :| e in r && KeyOf(e) == k; assert e in AllArrivals(hits); }
      if Found(AllArrivals(hits), k) { var e :| e in AllArrivals(hits) && KeyOf(e) == k; assert e in r; }
    }
  }

  /** Truncation keeps the best: whatever is cut, the limit was full and every entry kept
      outranks it. */
  lemma CutKeepsTheBest(hits: Hits, limit: int, e: Entry)
    requires e in Ranked(hits) && e !in Cut(Ranked(hits), limit)
    ensures var r := Cut(Ranked(hits), limit);
            limit > 0 && |r| == limit && forall i :: 0 <= i < |r| ==> Outranks(hits, r[i], e)
  {
    var whole, r := Ranked(hits), Cut(Ranked(hits), limit);
    var j :| 0 <= j < |whole| && whole[j] == e;
    forall i | 0 <= i < |r| ensures whole[i] != e {
      assert r[i] in r;
    }
    forall i | 0 <= i < |r| ensures Outranks(hits, r[i], e) {
      RankedPair(hits, i, j);
    }
  }

  /** Every term that found `b` found `a`. */
  ghost predicate FoundWherever(hits: Hits, a: string, b: string) {
    forall g :: 0 <= g < |hits| && Found(hits[g], b) ==> Found(hits[g], a)
  }

  lemma {:induction false} MoreTermsMoreScore(hits: Hits, a: string, b: string)
    requires FoundWherever(hits, a, b)
    ensures Score(hits, a) >= Score(hits, b)
    ensures (exists g :: 0 <= g < |hits| && Found(hits[g], a) && !Found(hits[g], b)) ==> Score(hits, a) > Score(hits, b)
  {
    if hits != [] {
      var n := |hits| - 1;
      MoreTermsMoreScore(hits[..n], a, b);
      if hits[n] != [] { assert Weight(hits[n]) > 0.0; }
      if g :| 0 <= g < |hits| && Found(hits[g], a) && !Found(hits[g], b) {
        if g < n {
          assert Found(hits[..n][g], a) && !Found(hits[..n][g], b);
        } else {
          assert hits[n] != [];
        }
      }
    }
  }

  lemma HigherScoreIsFirst(hits: Hits, i: nat, j: nat)
    requires i < |Ranked(hits)| && j < |Ranked(hits)|
    requires Score(hits, KeyOf(Ranked(hits)[i])) > Score(hits, KeyOf(Ranked(hits)[j]))
    ensures i < j
  {
    hide Ranked, Score, KeyOf;
    if j < i {
      RankedPair(hits, j, i);
    }
  }

  /** An entry found by every term another was found by, and by one more, comes first, and is
      never cut while the other is kept. */
  lemma StrictlyMoreTermsWins(hits: Hits, limit: int, a: Entry, b: Entry)
    requires FoundWherever(hits, KeyOf(a), KeyOf(b))
    requires exists g :: 0 <= g < |hits| && Found(hits[g], KeyOf(a)) && !Found(hits[g], KeyOf(b))
    requires b in Cut(Ranked(hits), limit)
    ensures var r := Cut(Ranked(hits), limit);
            exists i, j :: 0 <= i < j < |r| && KeyOf(r[i]) == KeyOf(a) && r[j] == b
  {
    hide Ranked, Score;
    var whole, r := Ranked(hits), Cut(Ranked(hits), limit);
    RankedIs(hits);
    MoreTermsMoreScore(hits, KeyOf(a), KeyOf(b));
    assert FoundAnywhere(hits, KeyOf(a));
    var x :| x in whole && KeyOf(x) == KeyOf(a);
    var i: nat :| i < |whole| && whole[i] == x;
    var j: nat :| j < |r| && r[j] == b;
    HigherScoreIsFirst(hits, i, j);
    assert r[i] == x;
  }

  // ---- which words are searched for ----

  const MAX_TERMS := 6

  /** How many bytes a word takes in UTF-8. */
  function ByteLength(w: string): nat {
    if w == "" then 0
    else ByteLength(w[1..]) + Utf8Length(w[0])
  }

  predicate Worth(w: string, stop: set<string>) {
    ByteLength(w) >= 2 && w !in stop
  }

  /** The words worth searching for, each once, in the order they were said. */
  function Content(words: seq<string>, stop: set<string>): seq<string> {
    if words == [] then []
    else
      var before, w := Content(words[..|words| - 1], stop), words[|words| - 1];
      if Worth(w, stop) && w !in before then before + [w] else before
  }

  function Lengths(words: seq<string>): seq<real> {
    seq(|words|, i requires 0 <= i < |words| => |words[i]| as real)
  }

  function Longest(words: seq<string>): seq<string> {
    var order := Sorted(Lengths(words), |words|);
    seq(|order|, i requires 0 <= i < |order| => words[order[i]])
  }

  function Terms(words: seq<string>, stop: set<string>): seq<string> {
    var out := Content(words, stop);
    if |out| > MAX_TERMS then Longest(out)[..MAX_TERMS] else out
  }

  /** `words` is the message, the bot's own handle taken out, cut into the store's tokens. */
  method SearchTerms(words: seq<string>, stop: set<string>) returns (out: seq<string>)
    ensures out == Terms(words, stop)
  {
    var seen: set<string> := {};
    out := [];
    var i := 0;
    while i < |words|
      invariant 0 <= i <= |words|
      invariant out == Content(words[..i], stop) && forall w :: w in seen <==> w in out
    {
      var w := words[i];
      assert words[..i + 1][..i] == words[..i];
      if ByteLength(w) >= 2 && w !in stop && w !in seen {
        seen := seen + {w};
        out := out + [w];
      }
      i := i + 1;
    }
    assert words[..i] == words;
    if |out| > MAX_TERMS {
      out := Longest(out)[..MAX_TERMS];
    }
  }

  /** A word of the message that is no stop word and takes more than one byte. */
  predicate Telling(words: seq<string>, stop: set<string>, w: string) {
    w in words && w !in stop && (|w| >= 2 || (|w| == 1 && w[0] >= '\U{80}'))
  }

  lemma {:induction false} BytesAreCharacters(w: string)
    ensures ByteLength(w) >= |w| && (ByteLength(w) > |w| <==> exists i :: 0 <= i < |w| && w[i] >= '\U{80}')
  {
    if w != "" {
      BytesAreCharacters(w[1..]);
      assert forall i :: 1 <= i < |w| ==> w[i] == w[1..][i - 1];
      if i :| 0 <= i < |w[1..]| && w[1..][i] >= '\U{80}' {
        assert w[i + 1] >= '\U{80}';
      }
    }
  }

  lemma {:induction false} ContentIs(words: seq<string>, stop: set<string>)
    ensures forall w :: w in Content(words, stop) <==> Telling(words, stop, w)
    ensures forall i, j :: 0 <= i < j < |Content(words, stop)| ==> Content(words, stop)[i] != Content(words, stop)[j]
  {
    if words != [] {
      ContentIs(words[..|words| - 1], stop);
      assert words == words[..|words| - 1] + [words[|words| - 1]];
      BytesAreCharacters(words[|words| - 1]);
    }
  }

  /** What is searched for is the message's content words, at most six and no two alike; and
      a word left out is no longer than any that was kept. */
  lemma TermsAre(words: seq<string>, stop: set<string>)
    ensures var r := Terms(words, stop);
            && |r| <= MAX_TERMS && (forall w :: w in r ==> Telling(words, stop, w))
            && (forall i, j :: 0 <= i < j < |r| ==> r[i] != r[j])
            && (forall w :: Telling(words, stop, w) && w !in r ==>
                  |r| == MAX_TERMS && forall k :: k in r ==> |k| >= |w|)
  {
    var out, r := Content(words, stop), Terms(words, stop);
    ContentIs(words, stop);
    if |out| > MAX_TERMS {
      var lengths := Lengths(out);
      var order := Sorted(lengths, |out|);
      SortedIs(lengths, |out|);
      forall i, j | 0 <= i < j < |r| ensures r[i] != r[j] {
        assert Before(lengths, order[i], order[j]);
      }
      forall w | w in r ensures w in out {
        var i :| 0 <= i < |r| && r[i] == w;
        assert w == out[order[i]];
      }
      forall w, k | w in out && w !in r && k in r ensures |k| >= |w| {
        var x: nat :| x < |out| && out[x] == w;
        assert x in order;
        var j :| 0 <= j < |order| && order[j] == x;
        var i :| 0 <= i < |r| && r[i] == k;
        forall n | 0 <= n < MAX_TERMS ensures out[order[n]] != w {
          assert r[n] in r;
        }
        assert Before(lengths, order[i], order[j]);
      }
    }
  }

  ghost predicate FirstSaid(words: seq<string>, w: string, p: int) {
    0 <= p < |words| && words[p] == w && forall q :: 0 <= q < p ==> words[q] != w
  }

  lemma {:induction false} ContentInOrder(words: seq<string>, stop: set<string>, i: nat, j: nat, p: int, q: int)
    requires i < j < |Content(words, stop)|
    requires FirstSaid(words, Content(words, stop)[i], p) && FirstSaid(words, Content(words, stop)[j], q)
    ensures p < q
  {
    var n := |words| - 1;
    var before := Content(words[..n], stop);
    ContentIs(words[..n], stop);
    ContentIs(words, stop);
    if j < |before| {
      forall k | k == i || k == j ensures before[k] in words[..n] {
        assert before[k] in before;
      }
      ContentInOrder(words[..n], stop, i, j, p, q);
    } else {
      assert before[i] in before && before[i] in words[..n];
      assert words[n] in Content(words, stop) && words[n] !in words[..n];
    }
  }

  /** Where nothing is left out the words are searched for in the order they were said, and
      otherwise the longest first, those as long as each other in that order. */
  lemma TermsInOrder(words: seq<string>, stop: set<string>, i: nat, j: nat, p: int, q: int)
    requires i < j < |Terms(words, stop)|
    requires FirstSaid(words, Terms(words, stop)[i], p) && FirstSaid(words, Terms(words, stop)[j], q)
    ensures var r := Terms(words, stop);
            if forall w :: Telling(words, stop, w) ==> w in r then p < q
            else |r[i]| > |r[j]| || (|r[i]| == |r[j]| && p < q)
  {
    hide Telling, Content;
    var out, r := Content(words, stop), Terms(words, stop);
    ContentIs(words, stop);
    if |out| <= MAX_TERMS {
      ContentInOrder(words, stop, i, j, p, q);
    } else {
      var order := Sorted(Lengths(out), |out|);
      SortedIs(Lengths(out), |out|);
      assert Before(Lengths(out), order[i], order[j]);
      if |r[i]| == |r[j]| {
        ContentInOrder(words, stop, order[i], order[j], p, q);
      }
      var left := out[order[MAX_TERMS]];
      assert left in out;
      forall k | 0 <= k < MAX_TERMS ensures r[k] != left {
        assert Before(Lengths(out), order[k], order[MAX_TERMS]);
      }
    }
  }

  // ---- which entry a publish request means ----

  datatype Group = Group(space: string, entries: seq<Entry>)

  function Matching(entries: seq<Entry>, want: string): seq<string> {
    if entries == [] then []
    else
      var e := entries[|entries| - 1];
      Matching(entries[..|entries| - 1], want) +
      if NormalizeTitle(e.title) == want && e.id != "" then [e.id] else []
  }

  /** The ids, in the searched groups of one space, whose titles match. */
  function Candidates(groups: seq<Group>, space: string, want: string): seq<string> {
    if groups == [] then []
    else
      Candidates(groups[..|groups| - 1], space, want) +
      if groups[|groups| - 1].space == space then Matching(groups[|groups| - 1].entries, want) else []
  }

  lemma {:induction false} CandidatesGrow(groups: seq<Group>, space: string, want: string, n: nat)
    requires n <= |groups|
    ensures Candidates(groups[..n], space, want) <= Candidates(groups, space, want)
    decreases |groups| - n
  {
    if n < |groups| {
      CandidatesGrow(groups, space, want, n + 1);
      assert groups[..n + 1][..n] == groups[..n];
    } else {
      assert groups[..n] == groups;
    }
  }

  lemma {:induction false} MatchingGrows(entries: seq<Entry>, want: string, n: nat)
    requires n <= |entries|
    ensures Matching(entries[..n], want) <= Matching(entries, want)
    decreases |entries| - n
  {
    if n < |entries| {
      MatchingGrows(entries, want, n + 1);
      assert entries[..n + 1][..n] == entries[..n];
    } else {
      assert entries[..n] == entries;
    }
  }

  /** Entry `i` carries the title, and an id to be published by. */
  ghost predicate Hit(entries: seq<Entry>, want: string, i: int) {
    0 <= i < |entries| && NormalizeTitle(entries[i].title) == want && entries[i].id != ""
  }

  ghost predicate Named(groups: seq<Group>, space: string, want: string, g: int, i: int) {
    0 <= g < |groups| && groups[g].space == space && 0 <= i < |groups[g].entries| && Hit(groups[g].entries, want, i)
  }

  ghost predicate OnlyHit(entries: seq<Entry>, want: string, i: int) {
    Hit(entries, want, i) && forall j :: Hit(entries, want, j) ==> j == i
  }

  /** One entry of that space is meant, and no second one could be. */
  ghost predicate OnlyNamed(groups: seq<Group>, space: string, want: string, g: int, i: int) {
    Named(groups, space, want, g, i) && forall h, j :: Named(groups, space, want, h, j) ==> h == g && j == i
  }

  lemma {:induction false} MatchingIs(entries: seq<Entry>, want: string)
    ensures Matching(entries, want) == [] <==> forall i :: !Hit(entries, want, i)
    ensures forall i :: OnlyHit(entries, want, i) ==> Matching(entries, want) == [entries[i].id]
    ensures |Matching(entries, want)| == 1 ==> exists i :: OnlyHit(entries, want, i)
  {
    hide NormalizeTitle;
    if entries != [] {
      var n := |entries| - 1;
      var before := entries[..n];
      MatchingIs(before, want);
      forall i ensures Hit(entries, want, i) <==> Hit(before, want, i) || (i == n && Hit(entries, want, n)) {
      }
      if |Matching(entries, want)| == 1 {
        if i :| OnlyHit(before, want, i) {
          assert OnlyHit(entries, want, i);
        } else {
          assert OnlyHit(entries, want, n);
        }
      }
      forall i | OnlyHit(entries, want, i) ensures Matching(entries, want) == [entries[i].id] {
        if i < n {
          assert OnlyHit(before, want, i) && !Hit(entries, want, n);
        } else {
          assert forall j :: !Hit(before, want, j);
        }
      }
    }
  }

  lemma HitsAreInside(entries: seq<Entry>, want: string)
    ensures forall i :: Hit(entries, want, i) ==> 0 <= i < |entries|
  {
  }

  lemma {:induction false} CandidatesIs(groups: seq<Group>, space: string, want: string)
    ensures Candidates(groups, space, want) == [] <==> forall g, i :: !Named(groups, space, want, g, i)
    ensures forall g, i :: OnlyNamed(groups, space, want, g, i) ==>
              Candidates(groups, space, want) == [groups[g].entries[i].id]
    ensures |Candidates(groups, space, want)| == 1 ==> exists g, i :: OnlyNamed(groups, space, want, g, i)
  {
    hide Hit, Matching;
    if groups != [] {
      var n := |groups| - 1;
      var before, last := groups[..n], groups[n];
      CandidatesIs(before, space, want);
      MatchingIs(last.entries, want);
      forall g, i
        ensures Named(groups, space, want, g, i) <==>
                Named(before, space, want, g, i) || (g == n && last.space == space && 0 <= i < |last.entries| && Hit(last.entries, want, i))
      {
      }
      HitsAreInside(last.entries, want);
      if i :| Hit(last.entries, want, i) {
        assert last.space == space ==> Named(groups, space, want, n, i);
      }
      forall g, i | OnlyNamed(groups, space, want, g, i)
        ensures Candidates(groups, space, want) == [groups[g].entries[i].id]
      {
        if g < n {
          assert OnlyNamed(before, space, want, g, i);
          forall j | last.space == space ensures !Hit(last.entries, want, j) {
            assert !Named(groups, space, want, n, j);
          }
        } else {
          forall j ensures Hit(last.entries, want, j) ==> j == i {
            assert Named(groups, space, want, n, j) ==> j == i;
          }
          assert OnlyHit(last.entries, want, i);
        }
      }
      if |Candidates(groups, space, want)| == 1 {
        if |Candidates(before, space, want)| == 1 {
          var g, i :| OnlyNamed(before, space, want, g, i);
          assert OnlyNamed(groups, space, want, g, i);
        } else {
          var i :| OnlyHit(last.entries, want, i);
          assert OnlyNamed(groups, space, want, n, i);
        }
      }
    }
  }

  lemma OneCandidate(groups: seq<Group>, space: string, want: string)
    ensures |Candidates(groups, space, want)| == 1 <==> exists g, i :: OnlyNamed(groups, space, want, g, i)
    ensures |Candidates(groups, space, want)| == 1 ==>
              forall g, i :: Named(groups, space, want, g, i) ==> Candidates(groups, space, want)[0] == groups[g].entries[i].id
  {
    hide Hit, Candidates;
    CandidatesIs(groups, space, want);
  }

  lemma NoneMatching(entries: seq<Entry>, want: string)
    ensures Matching(entries[..0], want) == []
  {
  }

  lemma MatchingOneMore(entries: seq<Entry>, want: string, i: nat, n: nat)
    requires n == i + 1 <= |entries|
    ensures Matching(entries[..n], want) == Matching(entries[..i], want) +
              if NormalizeTitle(entries[i].title) == want && entries[i].id != "" then [entries[i].id] else []
  {
    assert entries[..n][..i] == entries[..i];
  }

  function Listed(id: string): seq<string> {
    if id == "" then [] else [id]
  }

  /** One group's entries, given the id found in the groups before. */
  method Scan(entries: seq<Entry>, want: string, before: string) returns (id: string, many: bool)
    ensures many <==> |Listed(before) + Matching(entries, want)| > 1
    ensures !many ==> Listed(id) == Listed(before) + Matching(entries, want)
  {
    hide Matching, NormalizeTitle;
    id := before;
    NoneMatching(entries, want);
    var i := 0;
    while i < |entries|
      invariant 0 <= i <= |entries|
      invariant Listed(id) == Listed(before) + Matching(entries[..i], want)
    {
      MatchingOneMore(entries, want, i, i + 1);
      if NormalizeTitle(entries[i].title) == want && entries[i].id != "" {
        if id != "" {
          MatchingGrows(entries, want, i + 1);
          return id, true;
        }
        id := entries[i].id;
      }
      i := i + 1;
    }
    assert entries[..i] == entries;
    many := false;
  }

  /** An id is named exactly when one searched entry of the scope's own space, and no second
      one, carries the title; a scope without private memory publishes nothing. */
  method PublishTarget(direct: bool, write: string, groups: seq<Group>, title: string) returns (id: string, ok: bool)
    ensures ok <==> direct && exists g, i :: OnlyNamed(groups, write, NormalizeTitle(title), g, i)
    ensures ok ==> forall g, i :: Named(groups, write, NormalizeTitle(title), g, i) ==> id == groups[g].entries[i].id
  {
    hide Hit, Matching, Named, OnlyNamed, NormalizeTitle;
    if !direct { return "", false; }
    var want := NormalizeTitle(title);
    OneCandidate(groups, write, want);
    id := "";
    var g := 0;
    while g < |groups|
      invariant 0 <= g <= |groups|
      invariant Candidates(groups[..g], write, want) == Listed(id)
    {
      assert groups[..g + 1][..g] == groups[..g];
      if groups[g].space == write {
        var many;
        id, many := Scan(groups[g].entries, want, id);
        if many {
          CandidatesGrow(groups, write, want, g + 1);
          return "", false;
        }
      }
      g := g + 1;
    }
    assert groups[..g] == groups;
    ok := id != "";
  }
}
