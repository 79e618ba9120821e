/** Which secrets one process is to be given, each named once. */
module Secrets {
  import opened Optionals
  import opened Text
  import opened Configuration
  import opened Limits
  import opened Validation
  import opened Separation
  import opened Pods

  /** Whose secret it is. */
  datatype Where = HouseholdBot | SessionPassphrase | LinkKey | MemberBot(row: nat) | MemberPassphrase(row: nat) | ApiKey(row: nat)

  /** A secret and where the file says it comes from; an empty string says nothing. */
  datatype Ref = Ref(where: Where, env: string, file: string)

  function RefOf(where: Where, s: Source): Ref {
    Ref(where, TrimSpace(s.env), TrimSpace(s.file))
  }

  // ---- naming each once ----

  predicate StatesEnv(refs: seq<Ref>, env: string) {
    env != "" && exists r :: r in refs && r.env == env
  }

  predicate StatesFile(refs: seq<Ref>, file: string) {
    file != "" && exists r :: r in refs && r.file == file
  }

  /** A reference is dropped where either of its sources has been named already. */
  function Deduped(refs: seq<Ref>): seq<Ref> {
    if refs == [] then []
    else
      var kept, r := Deduped(refs[..|refs| - 1]), refs[|refs| - 1];
      if StatesEnv(kept, r.env) || StatesFile(kept, r.file) then kept else kept + [r]
  }

  /** Nothing the file says a secret comes from has gone. */
  ghost predicate NothingLost(refs: seq<Ref>) {
    && (forall env :: StatesEnv(refs, env) ==> StatesEnv(Deduped(refs), env))
    && (forall file :: StatesFile(refs, file) ==> StatesFile(Deduped(refs), file))
  }

  /** A reference with both sources has them both named before it, or neither. */
  predicate BothOrNeither(refs: seq<Ref>, i: nat)
    requires i < |refs|
  {
    refs[i].env != "" && refs[i].file != "" ==>
      (StatesEnv(refs[..i], refs[i].env) <==> StatesFile(refs[..i], refs[i].file))
  }

  lemma StatesOneMore(refs: seq<Ref>, r: Ref)
    ensures forall env :: StatesEnv(refs + [r], env) <==> StatesEnv(refs, env) || (env != "" && env == r.env)
    ensures forall file :: StatesFile(refs + [r], file) <==> StatesFile(refs, file) || (file != "" && file == r.file)
  {
    forall env ensures StatesEnv(refs + [r], env) <==> StatesEnv(refs, env) || (env != "" && env == r.env) {
      if StatesEnv(refs, env) {
        var x :| x in refs && x.env == env;
        assert x in refs + [r];
      }
      assert r in refs + [r];
    }
    forall file ensures StatesFile(refs + [r], file) <==> StatesFile(refs, file) || (file != "" && file == r.file) {
      if StatesFile(refs, file) {
        var x :| x in refs && x.file == file;
        assert x in refs + [r];
      }
      assert r in refs + [r];
    }
  }

  lemma {:induction false} KeptIsStated(refs: seq<Ref>)
    ensures forall r :: r in Deduped(refs) ==> r in refs
  {
    if refs != [] {
      KeptIsStated(refs[..|refs| - 1]);
    }
  }

  lemma KeptStatesNoMore(refs: seq<Ref>)
    ensures forall env :: StatesEnv(Deduped(refs), env) ==> StatesEnv(refs, env)
    ensures forall file :: StatesFile(Deduped(refs), file) ==> StatesFile(refs, file)
  {
    KeptIsStated(refs);
  }

  /** One more reference loses nothing exactly when it has at most one source, or has both
      named before it or neither. */
  lemma OneMoreLosesNothing(refs: seq<Ref>, r: Ref)
    requires NothingLost(refs)
    ensures NothingLost(refs + [r]) <==> BothOrNeither(refs + [r], |refs|)
  {
    hide Deduped, StatesEnv, StatesFile;
    KeptStatesNoMore(refs);
    StatesOneMore(refs, r);
    StatesOneMore(Deduped(refs), r);
    assert (refs + [r])[..|refs|] == refs;
    DedupedOneMore(refs, r);
  }

  lemma DedupedOneMore(refs: seq<Ref>, r: Ref)
    ensures Deduped(refs + [r]) ==
            if StatesEnv(Deduped(refs), r.env) || StatesFile(Deduped(refs), r.file) then Deduped(refs) else Deduped(refs) + [r]
    ensures StatesEnv(Deduped(refs), r.env) ==> r.env != ""
    ensures StatesFile(Deduped(refs), r.file) ==> r.file != ""
  {
    assert (refs + [r])[..|refs|] == refs;
  }

  /** However far the list has got, nothing is lost: that is so exactly when every reference
      with both sources has them both named before it, or neither. */
  lemma {:induction false} NothingEverLost(refs: seq<Ref>)
    ensures (forall n: nat :: n <= |refs| ==> NothingLost(refs[..n])) <==>
            (forall i: nat :: i < |refs| ==> BothOrNeither(refs, i))
  {
    if refs == [] {
      assert refs[..0] == [];
    } else {
      var before, last := refs[..|refs| - 1], refs[|refs| - 1];
      NothingEverLost(before);
      assert refs == before + [last] && refs[..|refs|] == refs;
      forall i: nat | i < |before| ensures BothOrNeither(before, i) <==> BothOrNeither(refs, i) {
        assert before[..i] == refs[..i];
      }
      forall n: nat | n <= |before| ensures before[..n] == refs[..n] {
      }
      assert before[..|before|] == before;
      if NothingLost(before) { OneMoreLosesNothing(before, last); }
    }
  }

  predicate OneSourceEach(refs: seq<Ref>) {
    forall r :: r in refs ==> r.env == "" || r.file == ""
  }

  /** A file that names no secret two ways, which validation sees to, loses nothing. */
  lemma OneSourceLosesNothing(refs: seq<Ref>)
    requires OneSourceEach(refs)
    ensures NothingLost(refs)
  {
    forall i: nat | i < |refs| ensures BothOrNeither(refs, i) { assert refs[i] in refs; }
    NothingEverLost(refs);
    assert refs[..|refs|] == refs;
  }

  /** A second source that is named nowhere else goes with its reference. */
  lemma SecondSourceLost(a: Ref, b: Ref)
    requires a.env != "" && a.env == b.env && b.file != "" && a.file != b.file
    ensures Deduped([a, b]) == [a] && !StatesFile(Deduped([a, b]), b.file) && StatesFile([a, b], b.file)
  {
    assert [a, b] == [] + [a] + [b];
    DedupedOneMore([], a);
    DedupedOneMore([] + [a], b);
    assert b in [a, b];
    assert a in [a];
  }

  // ---- the list itself ----

  /** The chain this scope's conversations use; nothing for a process that uses every chain. */
  function ChainOf(c: Config, u: UnitScope): Option<seq<string>> {
    if u.group then Some(c.tiers)
    else if Blank(u.member) then None
    else Some(MemberChain(c.members, u.member))
  }

  function MemberChain(members: seq<MemberConfig>, id: string): seq<string> {
    if members == [] then []
    else if TrimSpace(members[0].id) == TrimSpace(id) then members[0].tiers
    else MemberChain(members[1..], id)
  }

  method UnitTiers(c: Config, u: UnitScope) returns (chain: Option<seq<string>>)
    ensures chain == ChainOf(c, u)
  {
    if u.group {
      return Some(c.tiers);
    }
    if !Blank(u.member) {
      for i := 0 to |c.members|
        invariant MemberChain(c.members[i..], u.member) == MemberChain(c.members, u.member)
      {
        assert c.members[i..][1..] == c.members[i + 1..];
        if TrimSpace(c.members[i].id) == TrimSpace(u.member) {
          return Some(c.members[i].tiers);
        }
      }
      return Some([]);
    }
    return None;
  }

  function MemberRefs(c: Config, u: UnitScope, n: nat): seq<Ref>
    requires n <= |c.members|
  {
    if n == 0 then []
    else
      var m := c.members[n - 1];
      MemberRefs(c, u, n - 1) +
      if u.Serves(m.id) && !m.sharedOnly
      then [RefOf(MemberBot(n - 1), m.botToken), RefOf(MemberPassphrase(n - 1), m.passphrase)]
      else []
  }

  function EndpointRefs(c: Config, chain: Option<seq<string>>, n: nat): seq<Ref>
    requires n <= |c.endpoints|
  {
    if n == 0 then []
    else
      var e := c.endpoints[n - 1];
      EndpointRefs(c, chain, n - 1) +
      if chain.Some? && !ChainReaches(chain.value, e.tags) then [] else [RefOf(ApiKey(n - 1), e.apiKey)]
  }

  function ModeRefs(c: Config, u: UnitScope): seq<Ref> {
    (if c.mode.Simple? then [RefOf(HouseholdBot, c.botToken), RefOf(SessionPassphrase, c.sessionPassphrase)] else []) +
    (if c.mode.Isolated? && c.groupChatId != 0 && u.ServesGroup() then [RefOf(HouseholdBot, c.botToken)] else []) +
    (if c.mode.Isolated? then [RefOf(LinkKey, c.linkKey)] + MemberRefs(c, u, |c.members|) else [])
  }

  /** Every secret this process depends on, as often as the file names it. */
  function Needed(c: Config, u: UnitScope): seq<Ref> {
    if u.noSecrets then []
    else ModeRefs(c, u) + EndpointRefs(c, ChainOf(c, u), |c.endpoints|)
  }

  class RefList {
    var refs: seq<Ref>
    var seenEnv: set<string>
    var seenFile: set<string>
    ghost var added: seq<Ref>

    ghost predicate Valid()
      reads this
    {
      && refs == Deduped(added)
      && (forall env :: env in seenEnv <==> StatesEnv(refs, env))
      && (forall file :: file in seenFile <==> StatesFile(refs, file))
    }

    constructor ()
      ensures Valid() && added == []
    {
      refs, seenEnv, seenFile, added := [], {}, {}, [];
    }

    method Add(r: Ref)
      requires Valid()
      modifies this
      ensures Valid() && added == old(added) + [r]
    {
      hide Deduped, StatesEnv, StatesFile;
      DedupedOneMore(added, r);
      StatesOneMore(refs, r);
      added := added + [r];
      if (r.env != "" && r.env in seenEnv) || (r.file != "" && r.file in seenFile) {
        return;
      }
      if r.env != "" {
        seenEnv := seenEnv + {r.env};
      }
      if r.file != "" {
        seenFile := seenFile + {r.file};
      }
      refs := refs + [r];
    }
  }

  method SecretRefs(c: Config, u: UnitScope) returns (refs: seq<Ref>)
    ensures refs == Deduped(Needed(c, u))
  {
    if u.noSecrets {
      return [];
    }
    var list := new RefList();
    if c.mode.Simple? {
      list.Add(RefOf(HouseholdBot, c.botToken));
      list.Add(RefOf(SessionPassphrase, c.sessionPassphrase));
    }
    if c.mode.Isolated? && c.groupChatId != 0 && u.ServesGroup() {
      list.Add(RefOf(HouseholdBot, c.botToken));
    }
    if c.mode.Isolated? {
      list.Add(RefOf(LinkKey, c.linkKey));
      AddMembers(c, u, list);
    }
    assert list.added == ModeRefs(c, u);
    AddEndpoints(c, u, list);
    refs := list.refs;
  }

  method AddMembers(c: Config, u: UnitScope, list: RefList)
    requires list.Valid()
    modifies list
    ensures list.Valid() && list.added == old(list.added) + MemberRefs(c, u, |c.members|)
  {
    hide Deduped, StatesEnv, StatesFile, TrimSpace;
    for i := 0 to |c.members|
      invariant list.Valid() && list.added == old(list.added) + MemberRefs(c, u, i)
    {
      var m := c.members[i];
      if !u.Serves(m.id) {
        continue;
      }
      if m.sharedOnly {
        continue;
      }
      list.Add(RefOf(MemberBot(i), m.botToken));
      list.Add(RefOf(MemberPassphrase(i), m.passphrase));
    }
  }

  method AddEndpoints(c: Config, u: UnitScope, list: RefList)
    requires list.Valid()
    modifies list
    ensures list.Valid() && list.added == old(list.added) + EndpointRefs(c, ChainOf(c, u), |c.endpoints|)
  {
    hide Deduped, StatesEnv, StatesFile, TrimSpace, ChainReaches;
    var chain := UnitTiers(c, u);
    for i := 0 to |c.endpoints|
      invariant list.Valid() && list.added == old(list.added) + EndpointRefs(c, chain, i)
    {
      var e := c.endpoints[i];
      if chain.Some? && !ChainReaches(chain.value, e.tags) {
        continue;
      }
      list.Add(RefOf(ApiKey(i), e.apiKey));
    }
  }

  // ---- what a member's pod is handed ----

  lemma {:induction false} MemberRefsAre(c: Config, u: UnitScope, n: nat)
    requires n <= |c.members|
    ensures forall r :: r in MemberRefs(c, u, n) <==>
              exists i: nat :: i < n && u.Serves(c.members[i].id) && !c.members[i].sharedOnly &&
                (r == RefOf(MemberBot(i), c.members[i].botToken) || r == RefOf(MemberPassphrase(i), c.members[i].passphrase))
  {
    hide TrimSpace;
    if n > 0 {
      MemberRefsAre(c, u, n - 1);
    }
  }

  lemma {:induction false} EndpointRefsAre(c: Config, chain: Option<seq<string>>, n: nat)
    requires n <= |c.endpoints|
    ensures forall r :: r in EndpointRefs(c, chain, n) <==>
              exists i: nat :: i < n && (chain.None? || ChainReaches(chain.value, c.endpoints[i].tags)) &&
                r == RefOf(ApiKey(i), c.endpoints[i].apiKey)
  {
    hide TrimSpace, ChainReaches;
    if n > 0 {
      EndpointRefsAre(c, chain, n - 1);
    }
  }

  lemma {:induction false} MemberChainIs(members: seq<MemberConfig>, i: nat)
    requires i < |members|
    requires forall j :: 0 <= j < |members| && TrimSpace(members[j].id) == TrimSpace(members[i].id) ==> j == i
    ensures MemberChain(members, members[i].id) == members[i].tiers
  {
    hide TrimSpace;
    if i > 0 {
      assert forall j :: 0 <= j < |members| - 1 ==> members[1..][j] == members[j + 1];
      MemberChainIs(members[1..], i - 1);
    }
  }

  /** What each kind of process needs, secret by secret: who runs the household's bot needs its
      token, who holds everybody's session its passphrase, each isolated process the link key,
      and so on for the members it serves and the endpoints its chains reach. */
  lemma Needs(c: Config, u: UnitScope, r: Ref)
    ensures r in Needed(c, u) <==>
            && !u.noSecrets
            && match r.where
               case HouseholdBot =>
                 r == RefOf(HouseholdBot, c.botToken)
                 && (c.mode.Simple? || (c.mode.Isolated? && c.groupChatId != 0 && u.ServesGroup()))
               case SessionPassphrase => r == RefOf(SessionPassphrase, c.sessionPassphrase) && c.mode.Simple?
               case LinkKey => r == RefOf(LinkKey, c.linkKey) && c.mode.Isolated?
               case MemberBot(i) =>
                 c.mode.Isolated? && i < |c.members| && r == RefOf(MemberBot(i), c.members[i].botToken)
                 && u.Serves(c.members[i].id) && !c.members[i].sharedOnly
               case MemberPassphrase(i) =>
                 c.mode.Isolated? && i < |c.members| && r == RefOf(MemberPassphrase(i), c.members[i].passphrase)
                 && u.Serves(c.members[i].id) && !c.members[i].sharedOnly
               case ApiKey(i) =>
                 i < |c.endpoints| && r == RefOf(ApiKey(i), c.endpoints[i].apiKey)
                 && (ChainOf(c, u).None? || ChainReaches(ChainOf(c, u).value, c.endpoints[i].tags))
  {
    hide TrimSpace, ChainReaches, MemberRefs, EndpointRefs, ChainOf;
    MemberRefsAre(c, u, |c.members|);
    EndpointRefsAre(c, ChainOf(c, u), |c.endpoints|);
  }

  predicate ShareASource(a: Ref, b: Ref) {
    (a.env != "" && a.env == b.env) || (a.file != "" && a.file == b.file)
  }

  /** What has been kept names each source once. */
  lemma {:induction false} EachSourceOnce(refs: seq<Ref>, i: nat, j: nat)
    requires i < j < |Deduped(refs)|
    ensures !ShareASource(Deduped(refs)[i], Deduped(refs)[j])
  {
    var before, r := Deduped(refs[..|refs| - 1]), refs[|refs| - 1];
    if j < |before| {
      EachSourceOnce(refs[..|refs| - 1], i, j);
    } else {
      assert before[i] in before;
    }
  }

  /** A member's pod needs its own token, its own passphrase, the household's link key and the
      keys of the endpoints its own chain reaches; not the household's bot, and nothing of
      another member's. */
  lemma MemberPodNeeds(c: Config, tags: set<string>, k: nat)
    requires c.mode.Isolated? && Faultless(c, tags) && k < |c.members| && !c.members[k].sharedOnly
    ensures forall r :: r in Needed(c, PodOf(c.members[k])) <==>
              || r == RefOf(LinkKey, c.linkKey)
              || r == RefOf(MemberBot(k), c.members[k].botToken)
              || r == RefOf(MemberPassphrase(k), c.members[k].passphrase)
              || exists i: nat :: i < |c.endpoints| && ChainReaches(c.members[k].tiers, c.endpoints[i].tags) &&
                   r == RefOf(ApiKey(i), c.endpoints[i].apiKey)
  {
    hide Faultless, TrimSpace, ChainReaches, MemberRefs, EndpointRefs;
    var m, u := c.members[k], PodOf(c.members[k]);
    NotBlank(c, tags, k);
    forall i: nat | i < |c.members| ensures u.Serves(c.members[i].id) <==> i == k {
      if TrimSpace(c.members[i].id) == TrimSpace(m.id) { IdsApart(c, tags, i, k); }
    }
    forall j | 0 <= j < |c.members| && TrimSpace(c.members[j].id) == TrimSpace(m.id) ensures j == k {
      IdsApart(c, tags, j, k);
    }
    MemberChainIs(c.members, k);
    MemberRefsAre(c, u, |c.members|);
    EndpointRefsAre(c, ChainOf(c, u), |c.endpoints|);
  }

  lemma NotBlank(c: Config, tags: set<string>, k: nat)
    requires Faultless(c, tags) && k < |c.members|
    ensures !Blank(c.members[k].id)
  {
    FaultlessIsSeparate(c, tags);
    assert c.members[k] in c.members;
  }

  predicate OneWay(s: Source) { Blank(s.env) || Blank(s.file) }

  /** What validation asks of every source in the file: that no secret is stated two ways. */
  predicate SourcesClean(c: Config) {
    && OneWay(c.botToken) && OneWay(c.sessionPassphrase) && OneWay(c.linkKey)
    && (forall m :: m in c.members ==> OneWay(m.botToken) && OneWay(m.passphrase))
    && (forall e :: e in c.endpoints ==> OneWay(e.apiKey))
  }

  method CheckSource(where: Where, s: Source, faults: seq<Where>) returns (more: seq<Where>)
    ensures more == if OneWay(s) then faults else faults + [where]
  {
    var r := RefOf(where, s);
    if r.file == "" || r.env == "" {
      return faults;
    }
    more := faults + [r.where];
  }

  /** Of one of these rows' secrets, that it is stated two ways. */
  predicate RowBothWays(members: seq<MemberConfig>, n: nat, w: Where)
    requires n <= |members|
  {
    || (w.MemberBot? && w.row < n && !OneWay(members[w.row].botToken))
    || (w.MemberPassphrase? && w.row < n && !OneWay(members[w.row].passphrase))
  }

  predicate KeyBothWays(endpoints: seq<EndpointConfig>, n: nat, w: Where)
    requires n <= |endpoints|
  {
    w.ApiKey? && w.row < n && !OneWay(endpoints[w.row].apiKey)
  }

  predicate BothWays(c: Config, w: Where) {
    || (w.HouseholdBot? && !OneWay(c.botToken))
    || (w.SessionPassphrase? && !OneWay(c.sessionPassphrase))
    || (w.LinkKey? && !OneWay(c.linkKey))
    || RowBothWays(c.members, |c.members|, w)
    || KeyBothWays(c.endpoints, |c.endpoints|, w)
  }

  method CheckMemberSources(members: seq<MemberConfig>, was: seq<Where>) returns (faults: seq<Where>)
    ensures forall w :: w in faults <==> w in was || RowBothWays(members, |members|, w)
  {
    hide OneWay;
    faults := was;
    for i := 0 to |members|
      invariant forall w :: w in faults <==> w in was || RowBothWays(members, i, w)
    {
      faults := CheckSource(MemberBot(i), members[i].botToken, faults);
      faults := CheckSource(MemberPassphrase(i), members[i].passphrase, faults);
    }
  }

  method CheckEndpointSources(endpoints: seq<EndpointConfig>, was: seq<Where>) returns (faults: seq<Where>)
    ensures forall w :: w in faults <==> w in was || KeyBothWays(endpoints, |endpoints|, w)
  {
    hide OneWay;
    faults := was;
    for i := 0 to |endpoints|
      invariant forall w :: w in faults <==> w in was || KeyBothWays(endpoints, i, w)
    {
      faults := CheckSource(ApiKey(i), endpoints[i].apiKey, faults);
    }
  }

  /** Validation's pass over every source in the file, whoever reads it: what it reports is what
      is stated two ways. */
  method ValidateSecretSources(c: Config) returns (faults: seq<Where>)
    ensures forall w :: w in faults <==> BothWays(c, w)
    ensures faults == [] <==> SourcesClean(c)
  {
    hide OneWay;
    faults := CheckSource(HouseholdBot, c.botToken, []);
    faults := CheckSource(SessionPassphrase, c.sessionPassphrase, faults);
    faults := CheckSource(LinkKey, c.linkKey, faults);
    faults := CheckMemberSources(c.members, faults);
    faults := CheckEndpointSources(c.endpoints, faults);
    NothingBothWays(c);
    assert faults != [] ==> faults[0] in faults;
  }

  lemma NothingBothWays(c: Config)
    ensures (forall w :: !BothWays(c, w)) <==> SourcesClean(c)
  {
    hide OneWay;
    if forall w :: !BothWays(c, w) {
      assert !BothWays(c, HouseholdBot) && !BothWays(c, SessionPassphrase) && !BothWays(c, LinkKey);
      forall m | m in c.members ensures OneWay(m.botToken) && OneWay(m.passphrase) {
        var i: nat :| i < |c.members| && c.members[i] == m;
        assert !BothWays(c, MemberBot(i)) && !BothWays(c, MemberPassphrase(i));
      }
      forall e | e in c.endpoints ensures OneWay(e.apiKey) {
        var i: nat :| i < |c.endpoints| && c.endpoints[i] == e;
        assert !BothWays(c, ApiKey(i));
      }
    }
  }

  /** In a file that passes, naming each secret once loses no source, whichever process asks. */
  lemma CleanSourcesLoseNothing(c: Config, u: UnitScope)
    requires SourcesClean(c)
    ensures NothingLost(Needed(c, u))
  {
    hide NothingLost, ChainReaches, TrimSpace, Needed, ChainOf;
    forall r | r in Needed(c, u) ensures r.env == "" || r.file == "" {
      Needs(c, u, r);
      if r.where.MemberBot? || r.where.MemberPassphrase? {
        assert r.where.row < |c.members| ==> c.members[r.where.row] in c.members;
      } else if r.where.ApiKey? {
        assert r.where.row < |c.endpoints| ==> c.endpoints[r.where.row] in c.endpoints;
      }
    }
    OneSourceLosesNothing(Needed(c, u));
  }
}
