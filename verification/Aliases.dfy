/** The member's own words for an entry, cut down to those a search could find it by. */
module Aliases {
  import opened Text

  const MAX_ALIASES: nat := 6
  const MAX_ALIAS: nat := 64

  function Tidy(alias: string): string { Join(Fields(alias), " ") }

  predicate Usable(alias: string) {
    Tidy(alias) != "" && |Tidy(alias)| <= MAX_ALIAS
  }

  /** `terms` is how the store splits a text into what can be searched for. */
  datatype Draft = Draft(entry: string, aliases: seq<string>, terms: string -> seq<string>)

  predicate Chosen(d: Draft, from: seq<nat>) {
    && |from| <= MAX_ALIASES
    && (forall k :: 0 <= k < |from| ==> from[k] < |d.aliases|)
    && (forall j, k :: 0 <= j < k < |from| ==> from[j] < from[k])
  }

  /** A term the entry says, or an alias chosen before this one. */
  predicate Said(d: Draft, from: seq<nat>, i: nat, t: string)
    requires Chosen(d, from)
  {
    t in d.terms(d.entry) || exists k :: 0 <= k < |from| && from[k] < i && t in d.terms(Tidy(d.aliases[from[k]]))
  }

  predicate Adds(d: Draft, from: seq<nat>, i: nat)
    requires Chosen(d, from) && i < |d.aliases|
  {
    exists t :: t in d.terms(Tidy(d.aliases[i])) && !Said(d, from, i, t)
  }

  /** The line is not yet full when this alias comes up. */
  predicate Room(from: seq<nat>, i: nat) {
    |from| < MAX_ALIASES || i <= from[MAX_ALIASES - 1]
  }

  /** An alias is chosen exactly when there is room, it is short enough to be a name, and a
      term of it is said neither by the entry nor by an alias chosen before it. */
  ghost predicate ChosenWell(d: Draft, from: seq<nat>, n: nat)
    requires Chosen(d, from) && n <= |d.aliases|
  {
    forall i: nat :: i < n ==> (i in from <==> Room(from, i) && Usable(d.aliases[i]) && Adds(d, from, i))
  }

  function Texts(d: Draft, from: seq<nat>): seq<string>
    requires Chosen(d, from)
  {
    seq(|from|, k requires 0 <= k < |from| => Tidy(d.aliases[from[k]]))
  }

  method UsefulAliases(d: Draft) returns (kept: seq<string>)
    ensures exists from :: Chosen(d, from) && ChosenWell(d, from, |d.aliases|) && kept == Texts(d, from)
  {
    hide Tidy, Adds, Said, ChosenWell, Texts;
    NothingChosen(d);
    var have := set t | t in d.terms(d.entry);
    ghost var from: seq<nat> := [];
    kept := [];
    for i := 0 to |d.aliases|
      invariant Chosen(d, from) && kept == Texts(d, from)
      invariant |kept| == |from| < MAX_ALIASES && forall k :: 0 <= k < |from| ==> from[k] < i
      invariant forall t :: t in have <==> Said(d, from, i, t)
      invariant ChosenWell(d, from, i)
    {
      var a := Tidy(d.aliases[i]);
      var terms := d.terms(a);
      SaidLater(d, from, i, i + 1);
      assert Adds(d, from, i) <==> exists t :: t in terms && t !in have by { AddsIs(d, from, i); }
      if a == "" || |a| > MAX_ALIAS {
        PassedOver(d, from, i, i + 1);
        continue;
      }
      if forall t :: t in terms ==> t in have {
        PassedOver(d, from, i, i + 1);
        continue;
      }
      OneMoreChosen(d, from, i);
      Taken(d, from, i, i + 1);
      have := have + set t | t in terms;
      kept := kept + [a];
      from := from + [i];
      if |kept| == MAX_ALIASES {
        LineIsFull(d, from, i + 1);
        break;
      }
    }
  }

  lemma NothingChosen(d: Draft)
    ensures Chosen(d, []) && Texts(d, []) == [] && ChosenWell(d, [], 0)
    ensures forall t :: Said(d, [], 0, t) <==> t in d.terms(d.entry)
  {
  }

  lemma AddsIs(d: Draft, from: seq<nat>, i: nat)
    requires Chosen(d, from) && i < |d.aliases|
    ensures Adds(d, from, i) <==> exists t :: t in d.terms(Tidy(d.aliases[i])) && !Said(d, from, i, t)
  {
  }

  lemma PassedOver(d: Draft, from: seq<nat>, i: nat, n: nat)
    requires n == i + 1 <= |d.aliases| && Chosen(d, from) && ChosenWell(d, from, i)
    requires forall k :: 0 <= k < |from| ==> from[k] < i
    requires !(Usable(d.aliases[i]) && Adds(d, from, i))
    ensures ChosenWell(d, from, n)
  {
    hide Adds, Usable;
  }

  /** An alias that adds something is chosen, and changes nothing about those before it. */
  lemma Taken(d: Draft, from: seq<nat>, i: nat, n: nat)
    requires n == i + 1 <= |d.aliases| && Chosen(d, from) && ChosenWell(d, from, i) && |from| < MAX_ALIASES
    requires forall k :: 0 <= k < |from| ==> from[k] < i
    requires Usable(d.aliases[i]) && Adds(d, from, i)
    ensures Chosen(d, from + [i]) && ChosenWell(d, from + [i], n)
  {
    hide Said, Usable;
    OneMoreChosen(d, from, i);
    var all := from + [i];
    forall j: nat | j < n ensures j in all <==> Room(all, j) && Usable(d.aliases[j]) && Adds(d, all, j) {
      assert Adds(d, all, j) <==> Adds(d, from, j);
      assert Room(from, j);
      assert Room(all, j);
    }
  }

  lemma LineIsFull(d: Draft, from: seq<nat>, n: nat)
    requires n <= |d.aliases| && Chosen(d, from) && ChosenWell(d, from, n)
    requires |from| == MAX_ALIASES && forall k :: 0 <= k < |from| ==> from[k] < n
    ensures ChosenWell(d, from, |d.aliases|)
  {
    hide Said, Usable, Adds;
  }

  /** What has been said does not depend on aliases that were passed over. */
  lemma SaidLater(d: Draft, from: seq<nat>, i: nat, n: nat)
    requires Chosen(d, from) && n == i + 1 <= |d.aliases|
    requires forall k :: 0 <= k < |from| ==> from[k] < i
    ensures forall t :: Said(d, from, n, t) <==> Said(d, from, i, t)
  {
  }

  lemma OneMoreChosen(d: Draft, from: seq<nat>, i: nat)
    requires Chosen(d, from) && i < |d.aliases| && |from| < MAX_ALIASES
    requires forall k :: 0 <= k < |from| ==> from[k] < i
    ensures Chosen(d, from + [i])
    ensures Texts(d, from + [i]) == Texts(d, from) + [Tidy(d.aliases[i])]
    ensures forall t :: Said(d, from + [i], i + 1, t) <==> Said(d, from, i, t) || t in d.terms(Tidy(d.aliases[i]))
    ensures forall j: nat, t :: j <= i ==> (Said(d, from + [i], j, t) <==> Said(d, from, j, t))
  {
    hide Tidy;
    var all := from + [i];
    assert all[|from|] == i;
    forall j: nat, t | j <= i + 1
      ensures Said(d, all, j, t) <==> Said(d, from, j, t) || (j == i + 1 && t in d.terms(Tidy(d.aliases[i])))
    {
      forall k | 0 <= k < |from| ensures all[k] == from[k] {
      }
    }
  }

  // ---- what that comes to ----

  /** The choices have been the same so far: the second has made the first's next one too, or
      an earlier one. */
  lemma NextIsNoLater(d: Draft, a: seq<nat>, b: seq<nat>, k: nat)
    requires Chosen(d, a) && Chosen(d, b)
    requires ChosenWell(d, a, |d.aliases|) && ChosenWell(d, b, |d.aliases|)
    requires k < |a| && k <= |b| && a[..k] == b[..k]
    ensures k < |b| && b[k] <= a[k]
  {
    hide Tidy;
    var x := a[k];
    assert x in a;
    if k == |b| || x < b[k] {
      forall j | 0 <= j < |b| && b[j] <= x ensures j < k && b[j] == a[j] {
        assert j < k ==> a[..k][j] == b[..k][j];
      }
      assert false;
    }
  }

  /** There is one such choice: the conditions above settle which words are kept. */
  lemma {:induction false} ChoiceIsUnique(d: Draft, a: seq<nat>, b: seq<nat>, k: nat)
    requires Chosen(d, a) && Chosen(d, b)
    requires ChosenWell(d, a, |d.aliases|) && ChosenWell(d, b, |d.aliases|)
    requires k <= |a| && k <= |b| && a[..k] == b[..k]
    ensures a == b
    decreases |a| - k
  {
    if k < |a| {
      NextIsNoLater(d, a, b, k);
      NextIsNoLater(d, b, a, k);
      assert a[..k + 1] == a[..k] + [a[k]] && b[..k + 1] == b[..k] + [b[k]];
      ChoiceIsUnique(d, a, b, k + 1);
    } else if k < |b| {
      NextIsNoLater(d, b, a, k);
      assert false;
    } else {
      assert a[..k] == a && b[..k] == b;
    }
  }
}
