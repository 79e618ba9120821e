/** Breaking a report's long lines at spaces, into as few lines as there can be. */
module Wrapping {
  import opened Text

  /** Where the lines begin, and where the last of them ends. */
  ghost predicate IsSplit(cuts: seq<nat>, n: nat) {
    && |cuts| >= 1 && cuts[0] == 0 && cuts[|cuts| - 1] == n
    && forall i :: 0 < i < |cuts| ==> cuts[i - 1] < cuts[i]
  }

  lemma {:induction false} SplitIsOrdered(cuts: seq<nat>, n: nat, i: nat, j: nat)
    requires IsSplit(cuts, n) && i <= j < |cuts|
    ensures cuts[i] <= cuts[j]
    decreases j - i
  {
    if i < j {
      SplitIsOrdered(cuts, n, i, j - 1);
      assert cuts[j - 1] < cuts[j];
    }
  }

  function Line(words: seq<string>, a: nat, b: nat): string
    requires a <= b <= |words|
  {
    Join(words[a..b], " ")
  }

  ghost predicate InBounds(cuts: seq<nat>, n: nat) {
    forall i :: 0 < i < |cuts| ==> cuts[i - 1] <= cuts[i] <= n
  }

  /** A line fits, or it is one word that cannot be broken. */
  predicate Fits(words: seq<string>, a: nat, b: nat, width: int)
    requires a <= b <= |words|
  {
    b == a + 1 || |Line(words, a, b)| <= width
  }

  ghost predicate AllFit(words: seq<string>, cuts: seq<nat>, width: int)
    requires InBounds(cuts, |words|)
  {
    forall i :: 0 < i < |cuts| ==> Fits(words, cuts[i - 1], cuts[i], width)
  }

  /** No line has room for the word after it. */
  ghost predicate Greedy(words: seq<string>, cuts: seq<nat>, width: int)
    requires InBounds(cuts, |words|)
  {
    forall i :: 0 < i < |cuts| && cuts[i] < |words| ==> |Line(words, cuts[i - 1], cuts[i] + 1)| > width
  }

  lemma SplitInBounds(cuts: seq<nat>, n: nat)
    requires IsSplit(cuts, n)
    ensures InBounds(cuts, n)
  {
    forall i | 0 < i < |cuts| ensures cuts[i] <= n {
      SplitIsOrdered(cuts, n, i, |cuts| - 1);
    }
  }

  ghost function LinesOf(words: seq<string>, cuts: seq<nat>): seq<string>
    requires InBounds(cuts, |words|) && cuts != []
  {
    seq(|cuts| - 1, i requires 0 <= i < |cuts| - 1 => assert cuts[i] <= cuts[i + 1]; Line(words, cuts[i], cuts[i + 1]))
  }

  // ---- how long a line is ----

  lemma {:induction false} JoinOneMore(words: seq<string>, w: string)
    ensures Join(words + [w], " ") == if words == [] then w else Join(words, " ") + " " + w
  {
    if |words| > 1 {
      JoinOneMore(words[1..], w);
      assert (words + [w])[1..] == words[1..] + [w];
    } else if |words| == 1 {
      assert (words + [w])[1..] == [w];
    }
  }

  lemma LineOneMore(words: seq<string>, a: nat, b: nat)
    requires a < b < |words|
    ensures Line(words, a, b + 1) == Line(words, a, b) + " " + words[b]
  {
    JoinOneMore(words[a..b], words[b]);
    assert words[a..b + 1] == words[a..b] + [words[b]];
  }

  lemma LineOneEarlier(words: seq<string>, a: nat, b: nat)
    requires a + 1 < b <= |words|
    ensures Line(words, a, b) == words[a] + " " + Line(words, a + 1, b)
  {
    assert words[a..b][1..] == words[a + 1..b];
  }

  /** A line with more words on it, on either side, is no shorter. */
  lemma {:induction false} WiderIsLonger(words: seq<string>, a: nat, b: nat, c: nat, d: nat)
    requires a <= b < c <= d <= |words|
    ensures |Line(words, b, c)| <= |Line(words, a, d)|
    decreases d - a
  {
    hide Line;
    if c < d {
      LineOneMore(words, a, d - 1);
      WiderIsLonger(words, a, b, c, d - 1);
    } else if a < b {
      LineOneEarlier(words, a, d);
      WiderIsLonger(words, a + 1, b, c, d);
    }
  }

  // ---- greedy is best ----

  /** Line for line, the greedy split is never behind another whose lines fit. */
  lemma {:induction false} NeverBehind(words: seq<string>, greedy: seq<nat>, other: seq<nat>, width: int, k: nat)
    requires IsSplit(greedy, |words|) && IsSplit(other, |words|)
    requires InBounds(greedy, |words|) && InBounds(other, |words|)
    requires Greedy(words, greedy, width) && AllFit(words, other, width)
    requires k < |greedy| && k < |other|
    ensures other[k] <= greedy[k]
  {
    hide Line;
    if k > 0 {
      NeverBehind(words, greedy, other, width, k - 1);
      if greedy[k] < other[k] {
        assert |Line(words, greedy[k - 1], greedy[k] + 1)| > width;
        WiderIsLonger(words, other[k - 1], greedy[k - 1], greedy[k] + 1, other[k]);
        assert false;
      }
    }
  }

  lemma OnlyTheLastIsLast(cuts: seq<nat>, n: nat, k: nat)
    requires IsSplit(cuts, n) && k + 1 < |cuts|
    ensures cuts[k] < n
  {
    assert cuts[k] < cuts[k + 1];
    SplitIsOrdered(cuts, n, k + 1, |cuts| - 1);
  }

  lemma GreedyIsBest(words: seq<string>, greedy: seq<nat>, other: seq<nat>, width: int)
    requires IsSplit(greedy, |words|) && IsSplit(other, |words|)
    requires InBounds(greedy, |words|) && InBounds(other, |words|)
    requires Greedy(words, greedy, width) && AllFit(words, other, width)
    ensures |greedy| <= |other|
  {
    if |other| < |greedy| {
      OnlyTheLastIsLast(greedy, |words|, |other| - 1);
      NeverBehind(words, greedy, other, width, |other| - 1);
      assert false;
    }
  }

  /** Whether `cuts` is a way of breaking the words into lines that fit. */
  ghost predicate Breaks(words: seq<string>, cuts: seq<nat>, width: int) {
    IsSplit(cuts, |words|) && InBounds(cuts, |words|) && AllFit(words, cuts, width)
  }

  /** The words up to `n` broken as they come. */
  ghost predicate Broken(words: seq<string>, cuts: seq<nat>, n: nat, width: int) {
    && n <= |words| && IsSplit(cuts, n) && InBounds(cuts, |words|)
    && AllFit(words, cuts, width) && Greedy(words, cuts, width)
  }

  lemma OneMoreLine(words: seq<string>, cuts: seq<nat>, a: nat, b: nat, width: int)
    requires Broken(words, cuts, a, width) && a < b <= |words| && Fits(words, a, b, width)
    requires b < |words| ==> |Line(words, a, b + 1)| > width
    ensures Broken(words, cuts + [b], b, width)
  {
    hide Line;
  }

  /** Every word, in order, on lines that fit or hold one word; and no other such way of
      breaking them takes fewer lines. */
  method Wrap(s: string, width: int) returns (lines: seq<string>, ghost cuts: seq<nat>)
    ensures Fields(s) == [] ==> lines == [""]
    ensures Fields(s) != [] ==>
              && Breaks(Fields(s), cuts, width)
              && lines == LinesOf(Fields(s), cuts)
              && forall other :: Breaks(Fields(s), other, width) ==> |cuts| <= |other|
  {
    hide Fields, Line, Join, LinesOf, AllFit, Greedy;
    var words := Fields(s);
    cuts := [0];
    if |words| == 0 {
      return [""], cuts;
    }
    lines := [];
    var line := words[0];
    LineOfOne(words, 0);
    NoLines(words, width);
    ghost var start: nat := 0;
    for i := 1 to |words|
      invariant start < i <= |words| && line == Line(words, start, i)
      invariant Broken(words, cuts, start, width) && Fits(words, start, i, width)
      invariant lines == LinesOf(words, cuts)
    {
      LineOneMore(words, start, i);
      if |line| + 1 + |words[i]| > width {
        LinesOneMore(words, cuts, start, i);
        OneMoreLine(words, cuts, start, i, width);
        lines := lines + [line];
        line := words[i];
        LineOfOne(words, i);
        cuts := cuts + [i];
        start := i;
        continue;
      }
      line := line + " " + words[i];
    }
    LinesOneMore(words, cuts, start, |words|);
    OneMoreLine(words, cuts, start, |words|, width);
    cuts := cuts + [|words|];
    lines := lines + [line];
    forall other | Breaks(words, other, width) ensures |cuts| <= |other| {
      GreedyIsBest(words, cuts, other, width);
    }
  }

  lemma NoLines(words: seq<string>, width: int)
    ensures Broken(words, [0], 0, width) && LinesOf(words, [0]) == []
  {
  }

  lemma LineOfOne(words: seq<string>, i: nat)
    requires i < |words|
    ensures Line(words, i, i + 1) == words[i]
  {
    assert words[i..i + 1] == [words[i]];
  }

  lemma LinesOneMore(words: seq<string>, cuts: seq<nat>, a: nat, b: nat)
    requires a < b <= |words| && IsSplit(cuts, a) && InBounds(cuts, |words|)
    ensures IsSplit(cuts + [b], b) && InBounds(cuts + [b], |words|)
    ensures LinesOf(words, cuts + [b]) == LinesOf(words, cuts) + [Line(words, a, b)]
  {
  }

  lemma OneMoreSaysTheRest(words: seq<string>, cuts: seq<nat>, a: nat, n: nat)
    requires a < n <= |words| && IsSplit(cuts, a) && InBounds(cuts, |words|)
    requires a == 0 <==> |cuts| == 1
    requires Join(LinesOf(words, cuts), " ") == Join(words[..a], " ")
    ensures InBounds(cuts + [n], |words|)
    ensures Join(LinesOf(words, cuts + [n]), " ") == Join(words[..n], " ")
  {
    hide Join, Line, LinesOf;
    LinesOneMore(words, cuts, a, n);
    JoinOneMore(LinesOf(words, cuts), Line(words, a, n));
    LinesCount(words, cuts);
    JoinRuns(words, a, n);
  }

  /** Put back together with spaces, the lines say what the words do. */
  lemma {:induction false} LinesSayTheSame(words: seq<string>, cuts: seq<nat>, n: nat)
    requires n <= |words| && IsSplit(cuts, n) && InBounds(cuts, |words|)
    ensures Join(LinesOf(words, cuts), " ") == Join(words[..n], " ")
    decreases |cuts|
  {
    hide Join, Line, LinesOf;
    SplitInBounds(cuts, n);
    if |cuts| == 1 {
      NoLines(words, 0);
      assert cuts == [0] && words[..n] == [];
    } else {
      var before, a := cuts[..|cuts| - 1], cuts[|cuts| - 2];
      SplitBefore(cuts, n);
      LinesSayTheSame(words, before, a);
      OneMoreSaysTheRest(words, before, a, n);
    }
  }

  lemma SplitBefore(cuts: seq<nat>, n: nat)
    requires IsSplit(cuts, n) && |cuts| > 1
    ensures IsSplit(cuts[..|cuts| - 1], cuts[|cuts| - 2]) && cuts[|cuts| - 2] < n
    ensures cuts == cuts[..|cuts| - 1] + [n]
    ensures cuts[|cuts| - 2] == 0 <==> |cuts| == 2
  {
    assert cuts[|cuts| - 2] < cuts[|cuts| - 1];
    if |cuts| > 2 { assert cuts[|cuts| - 3] < cuts[|cuts| - 2]; }
  }

  lemma LinesCount(words: seq<string>, cuts: seq<nat>)
    requires InBounds(cuts, |words|) && cuts != []
    ensures LinesOf(words, cuts) == [] <==> |cuts| == 1
  {
  }

  lemma {:induction false} JoinRuns(words: seq<string>, a: nat, n: nat)
    requires a < n <= |words|
    ensures Join(words[..n], " ") == if a == 0 then Line(words, a, n) else Join(words[..a], " ") + " " + Line(words, a, n)
    decreases n
  {
    hide Join, Line;
    assert words[..n] == words[..n - 1] + [words[n - 1]];
    JoinOneMore(words[..n - 1], words[n - 1]);
    if a == n - 1 {
      LineOfOne(words, a);
    } else {
      JoinRuns(words, a, n - 1);
      LineOneMore(words, a, n - 1);
    }
  }
}
