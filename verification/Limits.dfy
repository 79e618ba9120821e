/** From an endpoint's own limits to the budget every prompt on a tier chain is fitted into. */
module Limits {
  import opened Text
  import opened Configuration

  const DEFAULT_CONTEXT_WINDOW := 16384
  const DEFAULT_MAX_TOKENS := 4096

  // ---- defaults ----

  function DefaultedEndpoint(e: EndpointConfig): EndpointConfig {
    e.(contextWindow := if e.contextWindow == 0 then DEFAULT_CONTEXT_WINDOW else e.contextWindow,
       maxTokens := if e.maxTokens == 0 then DEFAULT_MAX_TOKENS else e.maxTokens)
  }

  function Defaulted(endpoints: seq<EndpointConfig>): seq<EndpointConfig> {
    seq(|endpoints|, i requires 0 <= i < |endpoints| => DefaultedEndpoint(endpoints[i]))
  }

  /** What is stated is kept, and what is not becomes the default, so an endpoint that states
      one limit has to have left room for the other's default. */
  lemma DefaultsAgreeIff(e: EndpointConfig)
    ensures var d := DefaultedEndpoint(e);
            && (e.contextWindow != 0 ==> d.contextWindow == e.contextWindow) && (e.maxTokens != 0 ==> d.maxTokens == e.maxTokens)
            && d == e.(contextWindow := d.contextWindow, maxTokens := d.maxTokens)
            && d.contextWindow != 0 && d.maxTokens != 0
            && (BudgetClean(d) <==>
                  if e.contextWindow == 0 then 0 <= e.maxTokens < 16384
                  else if e.maxTokens == 0 then e.contextWindow > 4096
                  else 0 < e.maxTokens < e.contextWindow)
  {
  }

  method ApplyDefaults(endpoints: array<EndpointConfig>)
    modifies endpoints
    ensures endpoints[..] == Defaulted(old(endpoints[..]))
  {
    var i := 0;
    while i < endpoints.Length
      invariant 0 <= i <= endpoints.Length
      invariant forall j :: 0 <= j < i ==> endpoints[j] == DefaultedEndpoint(old(endpoints[j]))
      invariant forall j :: i <= j < endpoints.Length ==> endpoints[j] == old(endpoints[j])
    {
      if endpoints[i].contextWindow == 0 {
        endpoints[i] := endpoints[i].(contextWindow := DEFAULT_CONTEXT_WINDOW);
      }
      if endpoints[i].maxTokens == 0 {
        endpoints[i] := endpoints[i].(maxTokens := DEFAULT_MAX_TOKENS);
      }
      i := i + 1;
    }
  }

  // ---- validation ----

  datatype Fault =
    | NameMissing(row: nat)
    | NameTaken(row: nat, first: nat)
    | ModelMissing(row: nat)
    | BadUrl(row: nat)
    | NegativeWindow(row: nat)
    | NegativeCap(row: nat)
    | CapFillsWindow(row: nat)
    | EmptyTag(row: nat)

  predicate BudgetClean(e: EndpointConfig) {
    e.contextWindow >= 0 && e.maxTokens >= 0 &&
    (e.contextWindow > 0 && e.maxTokens > 0 ==> e.maxTokens < e.contextWindow)
  }

  method ValidateEndpointBudget(e: EndpointConfig, row: nat) returns (faults: seq<Fault>)
    ensures faults == [] <==> BudgetClean(e)
    ensures forall f :: f in faults <==>
              || (f == NegativeWindow(row) && e.contextWindow < 0)
              || (f == NegativeCap(row) && e.maxTokens < 0)
              || (f == CapFillsWindow(row) && 0 < e.contextWindow <= e.maxTokens)
  {
    faults := [];
    if e.contextWindow < 0 {
      faults := faults + [NegativeWindow(row)];
    }
    if e.maxTokens < 0 {
      faults := faults + [NegativeCap(row)];
    }
    if e.contextWindow > 0 && e.maxTokens > 0 && e.maxTokens >= e.contextWindow {
      faults := faults + [CapFillsWindow(row)];
    }
  }

  predicate HasTag(endpoints: seq<EndpointConfig>, t: string) {
    exists e :: e in endpoints && t in e.tags
  }

  /** The first endpoint of a name. */
  predicate FirstOf(endpoints: seq<EndpointConfig>, name: string, i: nat) {
    i < |endpoints| && endpoints[i].name == name && forall j :: 0 <= j < i ==> endpoints[j].name != name
  }

  /** What each fault says of the file. */
  predicate IsEndpointFault(endpoints: seq<EndpointConfig>, f: Fault) {
    && f.row < |endpoints|
    && var e := endpoints[f.row];
       match f
       case NameMissing(_) => Blank(e.name)
       case NameTaken(row, first) => !Blank(e.name) && first < row && FirstOf(endpoints, e.name, first)
       case ModelMissing(_) => Blank(e.model)
       case BadUrl(_) => !e.goodUrl
       case NegativeWindow(_) => e.contextWindow < 0
       case NegativeCap(_) => e.maxTokens < 0
       case CapFillsWindow(_) => 0 < e.contextWindow <= e.maxTokens
       case EmptyTag(_) => exists t :: t in e.tags && Blank(t)
  }

  ghost predicate EndpointClean(endpoints: seq<EndpointConfig>, i: nat)
    requires i < |endpoints|
  {
    var e := endpoints[i];
    && !Blank(e.name) && (forall j :: 0 <= j < i ==> endpoints[j].name != e.name)
    && !Blank(e.model) && e.goodUrl && BudgetClean(e)
    && forall t :: t in e.tags ==> !Blank(t)
  }

  ghost predicate EndpointsClean(endpoints: seq<EndpointConfig>) {
    forall i :: 0 <= i < |endpoints| ==> EndpointClean(endpoints, i)
  }

  lemma FirstExists(endpoints: seq<EndpointConfig>, name: string, j: nat) returns (i: nat)
    requires j < |endpoints| && endpoints[j].name == name
    ensures i <= j && FirstOf(endpoints, name, i)
  {
    i := j;
    if k: nat :| k < j && endpoints[k].name == name {
      i := FirstExists(endpoints, name, k);
    }
  }

  lemma LaterNameIsTaken(endpoints: seq<EndpointConfig>, i: nat, j: nat)
    requires j < i < |endpoints| && endpoints[j].name == endpoints[i].name && !Blank(endpoints[i].name)
    ensures exists first :: IsEndpointFault(endpoints, NameTaken(i, first))
  {
    hide Blank;
    var first := FirstExists(endpoints, endpoints[i].name, j);
    assert IsEndpointFault(endpoints, NameTaken(i, first));
  }

  /** A file has no fault exactly where every row is clean, its name no earlier row's. */
  lemma FaultlessIsClean(endpoints: seq<EndpointConfig>)
    ensures (forall f :: !IsEndpointFault(endpoints, f)) <==> EndpointsClean(endpoints)
  {
    hide Blank;
    if forall f :: !IsEndpointFault(endpoints, f) {
      forall i: nat | i < |endpoints| ensures EndpointClean(endpoints, i) {
        assert !IsEndpointFault(endpoints, NameMissing(i)) && !IsEndpointFault(endpoints, ModelMissing(i)) && !IsEndpointFault(endpoints, BadUrl(i));
        assert !IsEndpointFault(endpoints, NegativeWindow(i)) && !IsEndpointFault(endpoints, NegativeCap(i));
        assert !IsEndpointFault(endpoints, CapFillsWindow(i)) && !IsEndpointFault(endpoints, EmptyTag(i));
        if j: nat :| j < i && endpoints[j].name == endpoints[i].name {
          LaterNameIsTaken(endpoints, i, j);
        }
      }
    }
    if EndpointsClean(endpoints) {
      forall f ensures !IsEndpointFault(endpoints, f) {
        if f.row < |endpoints| { assert EndpointClean(endpoints, f.row); }
      }
    }
  }

  method TagsOf(e: EndpointConfig, row: nat, known: set<string>) returns (tags: set<string>, faults: seq<Fault>)
    ensures forall t :: t in tags <==> t in known || (t in e.tags && !Blank(t))
    ensures forall f :: f in faults <==> f == EmptyTag(row) && exists t :: t in e.tags && Blank(t)
  {
    tags, faults := known, [];
    for k := 0 to |e.tags|
      invariant forall t :: t in tags <==> t in known || (t in e.tags[..k] && !Blank(t))
      invariant forall f :: f in faults <==> f == EmptyTag(row) && exists t :: t in e.tags[..k] && Blank(t)
    {
      assert e.tags[..k + 1] == e.tags[..k] + [e.tags[k]];
      if Blank(e.tags[k]) {
        faults := faults + [EmptyTag(row)];
        continue;
      }
      tags := tags + {e.tags[k]};
    }
    assert e.tags[..|e.tags|] == e.tags;
  }

  /** Each name belongs to the first endpoint that claimed it. */
  predicate FirstNames(seen: map<string, nat>, endpoints: seq<EndpointConfig>) {
    && (forall n :: n in seen ==> FirstOf(endpoints, n, seen[n]))
    && (forall i :: 0 <= i < |endpoints| && !Blank(endpoints[i].name) ==> endpoints[i].name in seen)
  }

  lemma NoNamesYet()
    ensures FirstNames(map[], [])
  {
  }

  /** What the record says of one more endpoint's name, and what it is once that is on it. */
  lemma NameKnown(seen: map<string, nat>, endpoints: seq<EndpointConfig>, i: nat, n: nat)
    requires n == i + 1 <= |endpoints| && FirstNames(seen, endpoints[..i])
    ensures var name := endpoints[i].name;
            && (forall first: nat :: IsEndpointFault(endpoints, NameTaken(i, first)) <==>
                  !Blank(name) && name in seen && seen[name] == first)
            && FirstNames(if Blank(name) || name in seen then seen else seen[name := i], endpoints[..n])
  {
    hide Blank;
    var name := endpoints[i].name;
    forall j | 0 <= j < n ensures endpoints[..n][j] == if j < i then endpoints[..i][j] else endpoints[i] {
    }
    forall m, k: nat | k < i ensures FirstOf(endpoints[..i], m, k) <==> FirstOf(endpoints, m, k) {
      assert endpoints[..i][k] == endpoints[k];
    }
    forall first: nat | IsEndpointFault(endpoints, NameTaken(i, first)) ensures name in seen && seen[name] == first {
      assert endpoints[..i][first].name == name;
    }
    forall m | m in seen ensures FirstOf(endpoints[..n], m, seen[m]) {
      assert FirstOf(endpoints[..i], m, seen[m]);
    }
  }

  /** One row but for its tags. */
  method ValidateEndpoint(endpoints: seq<EndpointConfig>, i: nat, was: map<string, nat>)
    returns (seen: map<string, nat>, faults: seq<Fault>)
    requires i < |endpoints| && FirstNames(was, endpoints[..i])
    ensures FirstNames(seen, endpoints[..i + 1])
    ensures forall f :: f in faults <==> f.row == i && !f.EmptyTag? && IsEndpointFault(endpoints, f)
  {
    hide Blank, FirstNames, FirstOf;
    var e := endpoints[i];
    NameKnown(was, endpoints, i, i + 1);
    seen, faults := was, [];
    if Blank(e.name) {
      faults := faults + [NameMissing(i)];
    } else if e.name in seen {
      faults := faults + [NameTaken(i, seen[e.name])];
    } else {
      seen := seen[e.name := i];
    }
    if Blank(e.model) {
      faults := faults + [ModelMissing(i)];
    }
    if !e.goodUrl {
      faults := faults + [BadUrl(i)];
    }
    var budget := ValidateEndpointBudget(e, i);
    faults := faults + budget;
  }

  method ValidateEndpoints(endpoints: seq<EndpointConfig>) returns (tags: set<string>, faults: seq<Fault>)
    ensures forall t :: t in tags <==> HasTag(endpoints, t) && !Blank(t)
    ensures forall f :: f in faults <==> IsEndpointFault(endpoints, f)
    ensures faults == [] <==> EndpointsClean(endpoints)
  {
    hide Blank, FirstNames;
    NoNamesYet();
    tags, faults := {}, [];
    var seen: map<string, nat> := map[];
    for i := 0 to |endpoints|
      invariant forall t :: t in tags <==> HasTag(endpoints[..i], t) && !Blank(t)
      invariant FirstNames(seen, endpoints[..i])
      invariant forall f :: f in faults <==> f.row < i && IsEndpointFault(endpoints, f)
    {
      var e := endpoints[i];
      HasTagOneMore(endpoints[..i], e);
      assert endpoints[..i + 1] == endpoints[..i] + [e];
      var row, empty: seq<Fault>;
      seen, row := ValidateEndpoint(endpoints, i, seen);
      tags, empty := TagsOf(e, i, tags);
      faults := faults + row + empty;
    }
    assert endpoints[..|endpoints|] == endpoints;
    FaultlessIsClean(endpoints);
    assert faults == [] <==> forall f :: f !in faults by {
      if faults != [] { assert faults[0] in faults; }
    }
  }

  lemma HasTagOneMore(endpoints: seq<EndpointConfig>, e: EndpointConfig)
    ensures forall t :: HasTag(endpoints + [e], t) <==> HasTag(endpoints, t) || t in e.tags
  {
    forall t ensures HasTag(endpoints + [e], t) <==> HasTag(endpoints, t) || t in e.tags {
      if HasTag(endpoints, t) {
        var x :| x in endpoints && t in x.tags;
        assert x in endpoints + [e];
      }
      assert e in endpoints + [e];
    }
  }

  datatype ChainFault = ChainMissing | EmptyTier(index: nat) | NoSuchTier(index: nat)

  predicate ChainClean(chain: seq<string>, tags: set<string>) {
    chain != [] && forall t :: t in chain ==> !Blank(t) && t in tags
  }

  predicate IsChainFault(chain: seq<string>, tags: set<string>, f: ChainFault) {
    match f
    case ChainMissing => chain == []
    case EmptyTier(k) => k < |chain| && Blank(chain[k])
    case NoSuchTier(k) => k < |chain| && !Blank(chain[k]) && chain[k] !in tags
  }

  method ValidateTiers(chain: seq<string>, tags: set<string>) returns (faults: seq<ChainFault>)
    ensures forall f :: f in faults <==> IsChainFault(chain, tags, f)
    ensures faults == [] <==> ChainClean(chain, tags)
  {
    hide Blank;
    if |chain| == 0 {
      assert ChainMissing in [ChainMissing];
      return [ChainMissing];
    }
    faults := [];
    for i := 0 to |chain|
      invariant forall f :: f in faults <==> !f.ChainMissing? && f.index < i && IsChainFault(chain, tags, f)
      invariant faults == [] <==> forall j :: 0 <= j < i ==> !Blank(chain[j]) && chain[j] in tags
    {
      if Blank(chain[i]) {
        faults := faults + [EmptyTier(i)];
        continue;
      }
      if chain[i] !in tags {
        faults := faults + [NoSuchTier(i)];
      }
    }
  }

  // ---- what a chain has to fit inside ----

  predicate Reached(endpoints: seq<EndpointConfig>, chain: seq<string>, e: EndpointConfig) {
    e in endpoints && ChainReaches(chain, e.tags)
  }

  /** The smallest of the positive values, zero where there are none. */
  ghost predicate IsLeast(least: int, values: iset<int>) {
    if least == 0 then forall v :: v in values ==> v <= 0
    else least > 0 && least in values && forall v :: v in values && v > 0 ==> least <= v
  }

  ghost function Windows(endpoints: seq<EndpointConfig>, chain: seq<string>): iset<int> {
    iset e | Reached(endpoints, chain, e) :: e.contextWindow
  }

  ghost function Caps(endpoints: seq<EndpointConfig>, chain: seq<string>): iset<int> {
    iset e | Reached(endpoints, chain, e) :: e.maxTokens
  }

  lemma NoneReached(chain: seq<string>)
    ensures Windows([], chain) == iset{} && Caps([], chain) == iset{}
  {
  }

  method ChainLimits(endpoints: seq<EndpointConfig>, chain: seq<string>) returns (contextWindow: int, maxTokens: int)
    ensures IsLeast(contextWindow, Windows(endpoints, chain))
    ensures IsLeast(maxTokens, Caps(endpoints, chain))
  {
    hide Windows, Caps, ChainReaches;
    contextWindow, maxTokens := 0, 0;
    NoneReached(chain);
    for i := 0 to |endpoints|
      invariant IsLeast(contextWindow, Windows(endpoints[..i], chain))
      invariant IsLeast(maxTokens, Caps(endpoints[..i], chain))
    {
      var e := endpoints[i];
      ReachedOneMore(endpoints[..i], chain, e);
      assert endpoints[..i + 1] == endpoints[..i] + [e];
      if !ChainReaches(chain, e.tags) {
        continue;
      }
      if e.contextWindow > 0 && (contextWindow == 0 || e.contextWindow < contextWindow) {
        contextWindow := e.contextWindow;
      }
      if e.maxTokens > 0 && (maxTokens == 0 || e.maxTokens < maxTokens) {
        maxTokens := e.maxTokens;
      }
    }
    assert endpoints[..|endpoints|] == endpoints;
  }

  lemma ReachedOneMore(endpoints: seq<EndpointConfig>, chain: seq<string>, e: EndpointConfig)
    ensures Windows(endpoints + [e], chain) ==
            Windows(endpoints, chain) + if ChainReaches(chain, e.tags) then iset{e.contextWindow} else iset{}
    ensures Caps(endpoints + [e], chain) ==
            Caps(endpoints, chain) + if ChainReaches(chain, e.tags) then iset{e.maxTokens} else iset{}
  {
    forall x ensures Reached(endpoints + [e], chain, x) <==>
                     Reached(endpoints, chain, x) || (x == e && ChainReaches(chain, e.tags)) {
    }
    if ChainReaches(chain, e.tags) { assert Reached(endpoints + [e], chain, e); }
  }

  // ---- the unit those limits are handed to ----

  datatype Budget = Budget(contextBudget: int, maxTokens: int)

  /** The unit's own defaults stand in for what its options do not say. */
  function Normalized(b: Budget): Budget {
    Budget(if b.contextBudget < 1 then DEFAULT_CONTEXT_WINDOW else b.contextBudget,
           if b.maxTokens < 1 then DEFAULT_MAX_TOKENS else b.maxTokens)
  }

  /** A completion as large as the window is refused at construction. */
  predicate UnitBuilds(b: Budget) { Normalized(b).maxTokens < Normalized(b).contextBudget }

  lemma DefaultsAreIdempotent(endpoints: seq<EndpointConfig>)
    ensures Defaulted(Defaulted(endpoints)) == Defaulted(endpoints)
  {
  }

  /** After defaults a clean endpoint has a window, and a smaller cap. */
  lemma CleanEndpointsHaveRoom(stated: seq<EndpointConfig>, e: EndpointConfig)
    requires EndpointsClean(Defaulted(stated)) && e in Defaulted(stated)
    ensures 0 < e.maxTokens < e.contextWindow
  {
    var i :| 0 <= i < |stated| && Defaulted(stated)[i] == e;
    assert EndpointClean(Defaulted(stated), i);
  }

  /** A chain whose every tier somebody answers for reaches somebody. */
  lemma CleanChainReaches(endpoints: seq<EndpointConfig>, chain: seq<string>, tags: set<string>)
    requires forall t :: t in tags <==> HasTag(endpoints, t) && !Blank(t)
    requires ChainClean(chain, tags)
    ensures exists e :: Reached(endpoints, chain, e)
  {
    assert chain[0] in chain && HasTag(endpoints, chain[0]);
    var e :| e in endpoints && chain[0] in e.tags;
    assert Reached(endpoints, chain, e);
  }

  /** The two minima never contradict each other, whichever endpoints they come from, and the
      unit built on them never refuses, whatever its chain: a chain that reaches nobody leaves
      both at zero, and the unit's own defaults agree too. */
  lemma LimitsAreUsable(stated: seq<EndpointConfig>, chain: seq<string>, window: int, cap: int)
    requires EndpointsClean(Defaulted(stated))
    requires IsLeast(window, Windows(Defaulted(stated), chain)) && IsLeast(cap, Caps(Defaulted(stated), chain))
    ensures (exists e :: Reached(Defaulted(stated), chain, e)) <==> window > 0
    ensures window > 0 <==> cap > 0
    ensures window > 0 ==> cap < window
    ensures UnitBuilds(Budget(window, cap))
    ensures 0 < Normalized(Budget(window, cap)).contextBudget - Normalized(Budget(window, cap)).maxTokens
  {
    var endpoints := Defaulted(stated);
    forall e | Reached(endpoints, chain, e)
      ensures 0 < e.maxTokens < e.contextWindow && window > 0 && cap > 0 && cap <= e.maxTokens
    {
      CleanEndpointsHaveRoom(stated, e);
      assert e.contextWindow in Windows(endpoints, chain) && e.maxTokens in Caps(endpoints, chain);
    }
    if window > 0 {
      var e :| Reached(endpoints, chain, e) && e.contextWindow == window;
    }
    if cap > 0 {
      var e :| Reached(endpoints, chain, e) && e.maxTokens == cap;
    }
  }

  /** From the file as it is written to the unit: defaults, validation, limits, construction. */
  method UnitBudget(endpoints: array<EndpointConfig>, chain: seq<string>) returns (valid: bool, window: int, cap: int)
    modifies endpoints
    ensures endpoints[..] == Defaulted(old(endpoints[..]))
    ensures valid ==> (exists e :: Reached(endpoints[..], chain, e)) && 0 < cap < window && UnitBuilds(Budget(window, cap))
    ensures valid ==> IsLeast(window, Windows(endpoints[..], chain)) && IsLeast(cap, Caps(endpoints[..], chain))
  {
    ghost var stated := endpoints[..];
    ApplyDefaults(endpoints);
    var tags, faults := ValidateEndpoints(endpoints[..]);
    var missing := ValidateTiers(chain, tags);
    window, cap := ChainLimits(endpoints[..], chain);
    valid := faults == [] && missing == [];
    if valid {
      CleanChainReaches(endpoints[..], chain, tags);
      LimitsAreUsable(stated, chain, window, cap);
    }
  }

  /** The minima can come from two endpoints: the smallest window need not have the smallest cap. */
  lemma MinimaFromDifferentEndpoints(narrow: EndpointConfig, wide: EndpointConfig, chain: seq<string>)
    requires ChainReaches(chain, narrow.tags) && ChainReaches(chain, wide.tags)
    requires 0 < wide.maxTokens < narrow.maxTokens < narrow.contextWindow < wide.contextWindow
    ensures IsLeast(narrow.contextWindow, Windows([narrow, wide], chain))
    ensures IsLeast(wide.maxTokens, Caps([narrow, wide], chain))
  {
    assert Reached([narrow, wide], chain, narrow) && Reached([narrow, wide], chain, wide);
  }
}
