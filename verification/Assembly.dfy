/** Fitting a prompt into its budget: history goes first, oldest first, then shared entries
    from the end of the ranking, then private ones. */
module Assembly {
  import opened Messages
  import opened Ranking

  datatype SpaceGroup = SpaceGroup(space: string, entries: seq<Entry>, failed: bool)

  /** The elastic part of what the system prompt is rendered from. */
  datatype PromptInput = PromptInput(
    hasPrivate: bool, privateEntries: seq<Entry>, privateFailed: bool, privateDropped: nat,
    hasShared: bool, sharedEntries: seq<Entry>, sharedFailed: bool, sharedDropped: nat)

  const BLANK := PromptInput(false, [], false, 0, false, [], false, 0)

  /** A scope that touches its member's private memory reads it first and the shared space
      second; every other scope has the shared space alone. */
  function InputFor(personal: bool, groups: seq<SpaceGroup>): PromptInput {
    if personal then
      var own := if |groups| > 0
        then BLANK.(hasPrivate := true, privateEntries := groups[0].entries, privateFailed := groups[0].failed)
        else BLANK;
      if |groups| > 1
      then own.(hasShared := true, sharedEntries := groups[1].entries, sharedFailed := groups[1].failed)
      else own
    else if |groups| > 0
    then BLANK.(hasShared := true, sharedEntries := groups[0].entries, sharedFailed := groups[0].failed)
    else BLANK
  }

  datatype Prompt = Prompt(hist: seq<TurnRecord>, inp: PromptInput)

  function Elastic(p: Prompt): nat {
    |p.hist| + |p.inp.sharedEntries| + |p.inp.privateEntries|
  }

  function Least(a: nat, b: nat): nat { if a < b then a else b }

  /** The prompt with `k` things gone from it, in the order they go. */
  function After(p: Prompt, k: nat): Prompt
    requires k <= Elastic(p)
  {
    var h := Least(k, |p.hist|);
    var s := Least(k - h, |p.inp.sharedEntries|);
    var v := k - h - s;
    Prompt(p.hist[h..], p.inp.(
      sharedEntries := p.inp.sharedEntries[..|p.inp.sharedEntries| - s], sharedDropped := p.inp.sharedDropped + s,
      privateEntries := p.inp.privateEntries[..|p.inp.privateEntries| - v], privateDropped := p.inp.privateDropped + v))
  }

  /** A turn's fixed parts: how a system prompt is rendered, what the member said, and what
      the endpoint leaves for the prompt. */
  datatype Turn = Turn(render: PromptInput -> string, text: string, budget: int)

  function Estimate(t: Turn, p: Prompt): nat {
    Cost(t.render(p.inp), p.hist, t.text)
  }

  function Request(t: Turn, p: Prompt): seq<Message> {
    Told(Runs(AllPieces(t.render(p.inp), p.hist, t.text)))
  }

  /** The first prompt along the way that fits, or the last one there is. */
  ghost predicate Settles(t: Turn, p: Prompt, k: nat) {
    && k <= Elastic(p)
    && (Estimate(t, After(p, k)) <= t.budget || k == Elastic(p))
    && forall j: nat :: j < k ==> Estimate(t, After(p, j)) > t.budget
  }

  lemma SettlesOnce(t: Turn, p: Prompt, j: nat, k: nat)
    requires Settles(t, p, j) && Settles(t, p, k)
    ensures j == k
  {
  }

  lemma NothingGone(p: Prompt)
    ensures After(p, 0) == p
  {
  }

  lemma StillLeft(p: Prompt, k: nat)
    requires k <= Elastic(p)
    ensures Elastic(After(p, k)) == Elastic(p) - k
  {
  }

  function WithoutOldestTurn(p: Prompt): Prompt
    requires p.hist != []
  {
    p.(hist := p.hist[1..])
  }

  function WithoutLastShared(p: Prompt): Prompt
    requires p.inp.sharedEntries != []
  {
    p.(inp := p.inp.(sharedEntries := p.inp.sharedEntries[..|p.inp.sharedEntries| - 1],
                     sharedDropped := p.inp.sharedDropped + 1))
  }

  function WithoutLastPrivate(p: Prompt): Prompt
    requires p.inp.privateEntries != []
  {
    p.(inp := p.inp.(privateEntries := p.inp.privateEntries[..|p.inp.privateEntries| - 1],
                     privateDropped := p.inp.privateDropped + 1))
  }

  lemma HistoryGoes(p: Prompt, k: nat)
    requires k < |p.hist|
    ensures After(p, k).hist != [] && After(p, k + 1) == WithoutOldestTurn(After(p, k))
  {
    assert p.hist[k..][1..] == p.hist[k + 1..];
  }

  lemma SharedGoes(p: Prompt, k: nat)
    requires |p.hist| <= k < |p.hist| + |p.inp.sharedEntries|
    ensures After(p, k).hist == [] && After(p, k).inp.sharedEntries != []
    ensures After(p, k + 1) == WithoutLastShared(After(p, k))
  {
    var shared := After(p, k).inp.sharedEntries;
    assert After(p, k + 1).inp.sharedEntries == shared[..|shared| - 1];
  }

  lemma PrivateGoes(p: Prompt, k: nat)
    requires |p.hist| + |p.inp.sharedEntries| <= k < Elastic(p)
    ensures After(p, k).hist == [] && After(p, k).inp.sharedEntries == [] && After(p, k).inp.privateEntries != []
    ensures After(p, k + 1) == WithoutLastPrivate(After(p, k))
  {
    var own := After(p, k).inp.privateEntries;
    assert After(p, k + 1).inp.privateEntries == own[..|own| - 1];
  }

  lemma OneMoreGone(p: Prompt, k: nat)
    requires k < Elastic(p)
    ensures var now := After(p, k);
            && Elastic(now) > 0
            && After(p, k + 1) ==
               if now.hist != [] then WithoutOldestTurn(now)
               else if now.inp.sharedEntries != [] then WithoutLastShared(now)
               else WithoutLastPrivate(now)
  {
    hide After;
    StillLeft(p, k);
    if k < |p.hist| {
      HistoryGoes(p, k);
    } else if k < |p.hist| + |p.inp.sharedEntries| {
      SharedGoes(p, k);
    } else {
      PrivateGoes(p, k);
    }
  }

  /** A section shows the best of one group's entries and counts the rest, and says whether the
      group's search failed. */
  predicate ShowsGroup(shown: seq<Entry>, dropped: nat, failed: bool, g: SpaceGroup) {
    shown <= g.entries && |shown| + dropped == |g.entries| && failed == g.failed
  }

  /** Where each section comes from: in a conversation that touches its member's memory the
      first group is theirs and the second the household's; elsewhere the first is the
      household's; a section with no group is absent. */
  predicate FromItsGroup(personal: bool, groups: seq<SpaceGroup>, inp: PromptInput) {
    && inp.hasPrivate == (personal && |groups| > 0)
    && inp.hasShared == (if personal then |groups| > 1 else |groups| > 0)
    && (if inp.hasPrivate then ShowsGroup(inp.privateEntries, inp.privateDropped, inp.privateFailed, groups[0])
        else inp.privateEntries == [] && inp.privateDropped == 0 && !inp.privateFailed)
    && (if inp.hasShared
        then ShowsGroup(inp.sharedEntries, inp.sharedDropped, inp.sharedFailed, groups[if personal then 1 else 0])
        else inp.sharedEntries == [] && inp.sharedDropped == 0 && !inp.sharedFailed)
  }

  /** However the prompt is trimmed, no section ever shows another's entries. */
  lemma SectionsKeepTheirGroups(personal: bool, groups: seq<SpaceGroup>, history: seq<TurnRecord>, k: nat)
    requires k <= Elastic(Prompt(history, InputFor(personal, groups)))
    ensures FromItsGroup(personal, groups, After(Prompt(history, InputFor(personal, groups)), k).inp)
  {
    hide After;
    TrimmingKeeps(Prompt(history, InputFor(personal, groups)), k);
  }

  /** The request, and with it the input the request was rendered from. */
  method Assemble(t: Turn, personal: bool, groups: seq<SpaceGroup>, history: seq<TurnRecord>)
    returns (msgs: seq<Message>, inp: PromptInput)
    ensures var start := Prompt(history, InputFor(personal, groups));
            exists k :: Settles(t, start, k) && inp == After(start, k).inp && msgs == Request(t, After(start, k))
    ensures FromItsGroup(personal, groups, inp)
  {
    hide After, AllPieces, Told, Runs, Total, InputFor, FromItsGroup;
    inp := InputFor(personal, groups);
    var hist := history;
    ghost var start := Prompt(history, inp);
    ghost var k := 0;
    NothingGone(start);
    while true
      invariant k <= Elastic(start) && Prompt(hist, inp) == After(start, k)
      invariant forall j: nat :: j < k ==> Estimate(t, After(start, j)) > t.budget
      decreases Elastic(start) - k
    {
      msgs := BuildMessages(t.render(inp), hist, t.text);
      var estimate := EstimateRequestTokens(msgs);
      SectionsKeepTheirGroups(personal, groups, history, k);
      if estimate <= t.budget {
        return;
      }
      StillLeft(start, k);
      if k < Elastic(start) { OneMoreGone(start, k); }
      if |hist| > 0 {
        hist := hist[1..];
      } else if |inp.sharedEntries| > 0 {
        inp := inp.(sharedEntries := inp.sharedEntries[..|inp.sharedEntries| - 1], sharedDropped := inp.sharedDropped + 1);
      } else if |inp.privateEntries| > 0 {
        inp := inp.(privateEntries := inp.privateEntries[..|inp.privateEntries| - 1], privateDropped := inp.privateDropped + 1);
      } else {
        return;
      }
      k := k + 1;
    }
  }

  // ---- what trimming keeps ----

  predicate Suffix<T(==)>(s: seq<T>, whole: seq<T>) {
    |s| <= |whole| && s == whole[|whole| - |s|..]
  }

  /** However much is gone, what is left of the history is its newest turns and what is left
      of each list its best entries; nothing shared goes while there is history, nothing
      private while there is anything shared; and what is gone is counted. */
  lemma TrimmingKeeps(p: Prompt, k: nat)
    requires k <= Elastic(p)
    ensures var q := After(p, k);
            && Suffix(q.hist, p.hist)
            && q.inp.sharedEntries <= p.inp.sharedEntries
            && q.inp.privateEntries <= p.inp.privateEntries
            && (q.inp.sharedEntries != p.inp.sharedEntries ==> q.hist == [])
            && (q.inp.privateEntries != p.inp.privateEntries ==> q.hist == [] && q.inp.sharedEntries == [])
            && |q.inp.sharedEntries| + q.inp.sharedDropped == |p.inp.sharedEntries| + p.inp.sharedDropped
            && |q.inp.privateEntries| + q.inp.privateDropped == |p.inp.privateEntries| + p.inp.privateDropped
            && q.inp == p.inp.(sharedEntries := q.inp.sharedEntries, sharedDropped := q.inp.sharedDropped,
                               privateEntries := q.inp.privateEntries, privateDropped := q.inp.privateDropped)
            && Elastic(q) == Elastic(p) - k
  {
  }

  /** Any prompt that keeps newest history, best entries and the order things go in, with
      what is gone counted, is one along the way: these laws say everything there is to say. */
  lemma TrimmingIs(p: Prompt, q: Prompt)
    requires Suffix(q.hist, p.hist)
    requires q.inp.sharedEntries <= p.inp.sharedEntries && q.inp.privateEntries <= p.inp.privateEntries
    requires q.inp.sharedEntries != p.inp.sharedEntries ==> q.hist == []
    requires q.inp.privateEntries != p.inp.privateEntries ==> q.hist == [] && q.inp.sharedEntries == []
    requires |q.inp.sharedEntries| + q.inp.sharedDropped == |p.inp.sharedEntries| + p.inp.sharedDropped
    requires |q.inp.privateEntries| + q.inp.privateDropped == |p.inp.privateEntries| + p.inp.privateDropped
    requires q.inp == p.inp.(sharedEntries := q.inp.sharedEntries, sharedDropped := q.inp.sharedDropped,
                             privateEntries := q.inp.privateEntries, privateDropped := q.inp.privateDropped)
    ensures Elastic(q) <= Elastic(p) && q == After(p, Elastic(p) - Elastic(q))
  {
    assert p.inp.sharedEntries[..|q.inp.sharedEntries|] == q.inp.sharedEntries;
    assert p.inp.privateEntries[..|q.inp.privateEntries|] == q.inp.privateEntries;
  }

  /** Along the history the estimate only falls, so the first fit there is also the largest:
      what is kept is the longest run of newest turns that fits, and every shorter one would. */
  lemma {:induction false} HistoryFitIsLargest(t: Turn, p: Prompt, j: nat, k: nat)
    requires j <= k <= |p.hist|
    ensures Estimate(t, After(p, k)) <= Estimate(t, After(p, j))
    decreases k - j
  {
    hide Cost;
    if j < k {
      HistoryFitIsLargest(t, p, j + 1, k);
      OneMoreGone(p, j);
      OldestTurnCosts(t.render(p.inp), After(p, j).hist, t.text);
      assert After(p, j).inp == After(p, j + 1).inp == p.inp;
    }
  }

  lemma LongestHistoryKept(t: Turn, p: Prompt, k: nat, turns: nat)
    requires Settles(t, p, k) && k < |p.hist| && turns <= |p.hist|
    ensures After(p, k).inp == p.inp
    ensures Cost(t.render(p.inp), p.hist[|p.hist| - turns..], t.text) <= t.budget <==> turns <= |After(p, k).hist|
  {
    var gone := |p.hist| - turns;
    assert After(p, gone) == Prompt(p.hist[gone..], p.inp);
    if k <= gone {
      HistoryFitIsLargest(t, p, k, gone);
    }
  }
}
