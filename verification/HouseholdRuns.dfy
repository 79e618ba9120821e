/** Whole runs of the binder: claims, revocations and persona answers in any order, with saves
    failing wherever they like. */
module HouseholdRuns {
  import opened Optionals
  import opened Text
  import opened HouseholdState

  datatype Event =
    | Claim(id: MemberId, name: string, telegramId: int, at: int, works: bool)
    | Revoke(id: MemberId, works: bool)
    | Answer(id: MemberId, p: MemberPersona, works: bool)

  ghost function Step(h: Household, e: Event): Household {
    match e
    case Claim(id, name, telegramId, at, works) => Bind(h, id, name, telegramId, at, works).0
    case Revoke(id, works) => Unbind(h, id, works).0
    case Answer(id, p, works) => SetPersona(h, id, p, works).0
  }

  ghost function Run(h: Household, events: seq<Event>): Household {
    if events == [] then h else Step(Run(h, events[..|events| - 1]), events[|events| - 1])
  }

  // ---- the invariant ----

  ghost predicate Listed(h: Household) {
    && (forall i, j :: 0 <= i < j < |h.order| ==> h.order[i] != h.order[j])
    && (forall id :: id in h.order <==> id in h.members)
    && (forall id :: id in h.members ==> h.members[id].id == id)
  }

  ghost predicate OneHolder(h: Household) {
    forall a, b :: a in h.members && b in h.members && h.members[a].telegramId == h.members[b].telegramId != 0 ==> a == b
  }

  ghost predicate OneRow(s: State) {
    forall a, b :: a in s.bindings && b in s.bindings && s.bindings[a].telegramId == s.bindings[b].telegramId != 0 ==> a == b
  }

  ghost predicate Agrees(h: Household) {
    forall id :: id in h.members && id in h.state.bindings ==>
      h.members[id].telegramId == h.state.bindings[id].telegramId && h.members[id].enrolledAt == h.state.bindings[id].enrolledAt
  }

  /** Somebody a claim created has a space nobody else has, and not the shared one. */
  ghost predicate OwnSpaces(h: Household, declared: set<MemberId>) {
    forall id :: id in h.members && id !in declared ==>
      h.members[id].private != h.shared &&
      forall other :: other in h.members && other != id ==> h.members[other].private != h.members[id].private
  }

  ghost predicate Sound(h: Household, declared: set<MemberId>) {
    && Listed(h) && Agrees(h) && OwnSpaces(h, declared) && h.state == h.disk
    && OneHolder(h) && OneRow(h.state)
  }

  // ---- lookups ----

  lemma {:induction false} HolderIsHolder(members: map<MemberId, Member>, order: seq<MemberId>, telegramId: int)
    ensures var r := HolderAmong(members, order, telegramId);
            if r.Some? then r.value in order && r.value in members && members[r.value].telegramId == telegramId
            else forall id :: id in order && id in members ==> members[id].telegramId != telegramId
  {
    if order != [] {
      HolderIsHolder(members, order[1..], telegramId);
    }
  }

  lemma {:induction false} FirstRowExists(bindings: map<MemberId, Binding>, telegramId: int, candidate: MemberId)
    requires candidate in bindings && bindings[candidate].telegramId == telegramId
    ensures exists id :: IsFirstRow(bindings, telegramId, id)
    decreases |bindings|
  {
    var rest := bindings - {candidate};
    assert rest.Keys == bindings.Keys - {candidate};
    if c :| c in rest && rest[c].telegramId == telegramId {
      FirstRowExists(rest, telegramId, c);
      var r :| IsFirstRow(rest, telegramId, r);
      LexTotal(candidate, r);
      var first := if LexLeq(candidate, r) then candidate else r;
      forall other | other in bindings && bindings[other].telegramId == telegramId ensures LexLeq(first, other) {
        LexTotal(first, first);
        if other != candidate && first == candidate { LexTransitive(candidate, r, other); }
      }
      assert IsFirstRow(bindings, telegramId, first);
    } else {
      LexTotal(candidate, candidate);
      assert forall other :: other in bindings && other != candidate ==> other in rest;
      assert IsFirstRow(bindings, telegramId, candidate);
    }
  }

  /** The lookup finds a row exactly when some row records the account. */
  lemma RowForFinds(s: State, telegramId: int)
    ensures RowFor(s, telegramId).Some? <==>
            telegramId != 0 && exists id :: id in s.bindings && s.bindings[id].telegramId == telegramId
  {
    if id :| id in s.bindings && s.bindings[id].telegramId == telegramId {
      FirstRowExists(s.bindings, telegramId, id);
    }
  }

  lemma FirstRowIsUnique(s: State, telegramId: int, a: MemberId, b: MemberId)
    requires IsFirstRow(s.bindings, telegramId, a) && IsFirstRow(s.bindings, telegramId, b)
    ensures a == b
  {
    LexTotal(a, b);
  }

  // ---- a claim ----

  /** The claims that change anything. */
  ghost predicate Binds(h: Household, id: MemberId, name: string, telegramId: int, works: bool) {
    && id != "" && telegramId != 0 && works
    && (HolderOf(h, telegramId).Some? ==> HolderOf(h, telegramId).value == id)
    && (id in h.members ==> !Recorded(h, id, telegramId))
    && (id !in h.members ==> Provision(h, id, name).Ok?)
  }

  lemma BindIsNothingElse(h: Household, id: MemberId, name: string, telegramId: int, at: int, works: bool)
    ensures !Binds(h, id, name, telegramId, works) ==> Bind(h, id, name, telegramId, at, works).0 == h
  {
  }

  /** The row a claim drops is never a member's: whoever it names has left the household. */
  lemma StaleRowIsNobodys(h: Household, id: MemberId, name: string, telegramId: int, works: bool)
    requires Listed(h) && Agrees(h) && OneHolder(h) && Binds(h, id, name, telegramId, works)
    requires RowFor(h.state, telegramId).Some? && RowFor(h.state, telegramId).value != id
    ensures RowFor(h.state, telegramId).value !in h.members
  {
    if RowFor(h.state, telegramId).value in h.members {
      NobodyElseHolds(h, id, name, telegramId, works, RowFor(h.state, telegramId).value);
    }
  }

  lemma NobodyElseHolds(h: Household, id: MemberId, name: string, telegramId: int, works: bool, other: MemberId)
    requires Listed(h) && OneHolder(h) && Binds(h, id, name, telegramId, works)
    requires other in h.members && other != id
    ensures h.members[other].telegramId != telegramId
  {
    HolderIsHolder(h.members, h.order, telegramId);
  }

  lemma ReboundRows(h: Household, id: MemberId, telegramId: int, at: int)
    requires OneRow(h.state) && telegramId != 0
    ensures OneRow(Rebound(h.state, id, telegramId, at))
  {
    var t := Rebound(h.state, id, telegramId, at);
    RowForFinds(h.state, telegramId);
    forall other | other in t.bindings && other != id ensures t.bindings[other].telegramId != telegramId {
      assert other in h.state.bindings && t.bindings[other] == h.state.bindings[other];
    }
  }

  lemma BindAgrees(h: Household, id: MemberId, name: string, telegramId: int, at: int, works: bool)
    requires Agrees(h) && Binds(h, id, name, telegramId, works)
    ensures Agrees(Bind(h, id, name, telegramId, at, works).0)
  {
    var t := Bind(h, id, name, telegramId, at, works).0;
    forall other | other in t.members && other in t.state.bindings && other != id
      ensures t.members[other].telegramId == t.state.bindings[other].telegramId
      ensures t.members[other].enrolledAt == t.state.bindings[other].enrolledAt
    {
      assert other in h.state.bindings;
    }
  }

  lemma BindListed(h: Household, id: MemberId, name: string, telegramId: int, at: int, works: bool)
    requires Listed(h) && Binds(h, id, name, telegramId, works)
    ensures Listed(Bind(h, id, name, telegramId, at, works).0)
  {
  }

  lemma BindOneHolder(h: Household, id: MemberId, name: string, telegramId: int, at: int, works: bool)
    requires Listed(h) && OneHolder(h) && Binds(h, id, name, telegramId, works)
    ensures OneHolder(Bind(h, id, name, telegramId, at, works).0)
  {
    var t := Bind(h, id, name, telegramId, at, works).0;
    forall other | other in t.members && other != id ensures t.members[other].telegramId != telegramId {
      NobodyElseHolds(h, id, name, telegramId, works, other);
    }
  }

  lemma BindOwnSpaces(h: Household, id: MemberId, name: string, telegramId: int, at: int, works: bool, declared: set<MemberId>)
    requires Listed(h) && OwnSpaces(h, declared) && Binds(h, id, name, telegramId, works)
    ensures OwnSpaces(Bind(h, id, name, telegramId, at, works).0, declared)
  {
    var t := Bind(h, id, name, telegramId, at, works).0;
    if id !in h.members {
      assert |OwnSpace(h, id)| > |id| && !SpaceTaken(h, OwnSpace(h, id));
      assert OwnSpace(h, id) != h.shared;
      forall other | other in h.members ensures h.members[other].private != OwnSpace(h, id) {
        assert other in h.order;
      }
    } else {
      assert forall other :: other in t.members ==> t.members[other].private == h.members[other].private;
    }
  }

  lemma StepSound(h: Household, e: Event, declared: set<MemberId>)
    requires Sound(h, declared)
    ensures Sound(Step(h, e), declared)
  {
    match e
    case Claim(id, name, telegramId, at, works) =>
      if Binds(h, id, name, telegramId, works) {
        BindListed(h, id, name, telegramId, at, works);
        BindAgrees(h, id, name, telegramId, at, works);
        BindOneHolder(h, id, name, telegramId, at, works);
        BindOwnSpaces(h, id, name, telegramId, at, works, declared);
        ReboundRows(h, id, telegramId, at);
      } else {
        BindIsNothingElse(h, id, name, telegramId, at, works);
      }
    case Revoke(id, works) =>
    case Answer(id, p, works) =>
  }

  /** Every claim, revocation and answer, whatever becomes of its save, keeps one account to
      one member, in memory and in the file, and memory saying what the file says. */
  lemma {:induction false} RunSound(h: Household, events: seq<Event>, declared: set<MemberId>)
    requires Sound(h, declared)
    ensures Sound(Run(h, events), declared)
  {
    if events != [] {
      RunSound(h, events[..|events| - 1], declared);
      StepSound(Run(h, events[..|events| - 1]), events[|events| - 1], declared);
    }
  }

  // ---- restarts ----

  /** What a member's file entry says before any claim: when they enrolled is never declared. */
  ghost predicate Declared(cfg: seq<Member>) {
    forall i :: 0 <= i < |cfg| ==> cfg[i].enrolledAt == 0
  }

  ghost predicate IsMember(cfg: seq<Member>, id: MemberId) {
    exists i :: 0 <= i < |cfg| && cfg[i].id == id
  }

  /** Members the file does not record stand as declared, or have been revoked. */
  ghost predicate Unrecorded(h: Household, cfg: seq<Member>) {
    forall i :: 0 <= i < |cfg| && cfg[i].id in h.members && cfg[i].id !in h.state.bindings ==>
      var m := h.members[cfg[i].id];
      (m.telegramId == 0 || m.telegramId == cfg[i].telegramId) && m.enrolledAt == 0
  }

  ghost predicate HoldsAll(h: Household, cfg: seq<Member>) {
    forall i :: 0 <= i < |cfg| ==> cfg[i].id in h.members
  }

  lemma IsMemberOneMore(cfg: seq<Member>, id: MemberId)
    requires cfg != []
    ensures IsMember(cfg, id) <==> IsMember(cfg[..|cfg| - 1], id) || cfg[|cfg| - 1].id == id
  {
    var n := |cfg| - 1;
    if i :| 0 <= i < n && cfg[..n][i].id == id {
      assert cfg[i].id == id;
    }
    if i :| 0 <= i < n && cfg[i].id == id {
      assert cfg[..n][i].id == id;
    }
  }

  lemma {:induction false} FoldAllIs(cfg: seq<Member>, s: State)
    requires forall i, j :: 0 <= i < j < |cfg| ==> cfg[i].id != cfg[j].id
    ensures forall id :: id in FoldAll(cfg, s) <==> IsMember(cfg, id)
    ensures forall i :: 0 <= i < |cfg| ==> cfg[i].id in FoldAll(cfg, s) && FoldAll(cfg, s)[cfg[i].id] == Folded(cfg[i], s)
  {
    if cfg != [] {
      var n := |cfg| - 1;
      FoldAllIs(cfg[..n], s);
      forall id ensures id in FoldAll(cfg, s) <==> IsMember(cfg, id) {
        IsMemberOneMore(cfg, id);
      }
      forall i | 0 <= i < n ensures FoldAll(cfg, s)[cfg[i].id] == Folded(cfg[i], s) {
        assert cfg[..n][i] == cfg[i];
      }
    }
  }

  lemma OpensSound(cfg: seq<Member>, shared: string, tiers: seq<string>, file: State, declared: set<MemberId>)
    requires Opens(cfg, tiers, file)
    requires forall i :: 0 <= i < |cfg| ==> cfg[i].id in declared
    requires OneHolder(Opened(cfg, shared, tiers, file)) && OneRow(file)
    ensures Sound(Opened(cfg, shared, tiers, file), declared)
  {
    FoldAllIs(cfg, file);
    var h := Opened(cfg, shared, tiers, file);
    forall id | id in h.order ensures id in h.members {
      var i :| 0 <= i < |cfg| && h.order[i] == id;
      assert IsMember(cfg, id);
    }
    forall id | id in h.members ensures id in h.order && h.members[id].id == id && id in declared {
      var i :| 0 <= i < |cfg| && cfg[i].id == id;
      assert h.order[i] == id;
    }
    forall id | id in h.members && id in h.state.bindings
      ensures h.members[id].telegramId == h.state.bindings[id].telegramId
      ensures h.members[id].enrolledAt == h.state.bindings[id].enrolledAt
    {
      var i :| 0 <= i < |cfg| && cfg[i].id == id;
    }
  }

  lemma OpensUnrecorded(cfg: seq<Member>, shared: string, tiers: seq<string>, file: State)
    requires Opens(cfg, tiers, file) && Declared(cfg)
    ensures var h := Opened(cfg, shared, tiers, file); Unrecorded(h, cfg) && HoldsAll(h, cfg)
  {
    FoldAllIs(cfg, file);
  }

  lemma StepUnrecorded(h: Household, e: Event, cfg: seq<Member>, declared: set<MemberId>)
    requires Sound(h, declared) && Unrecorded(h, cfg) && HoldsAll(h, cfg)
    ensures Unrecorded(Step(h, e), cfg) && HoldsAll(Step(h, e), cfg)
  {
    match e
    case Claim(id, name, telegramId, at, works) =>
      if Binds(h, id, name, telegramId, works) {
        var row := RowFor(h.state, telegramId);
        if row.Some? && row.value != id {
          StaleRowIsNobodys(h, id, name, telegramId, works);
        }
      } else {
        BindIsNothingElse(h, id, name, telegramId, at, works);
      }
    case Revoke(id, works) =>
    case Answer(id, p, works) =>
  }

  lemma {:induction false} RunUnrecorded(h: Household, events: seq<Event>, cfg: seq<Member>, declared: set<MemberId>)
    requires Sound(h, declared) && Unrecorded(h, cfg) && HoldsAll(h, cfg)
    ensures Unrecorded(Run(h, events), cfg) && HoldsAll(Run(h, events), cfg)
  {
    if events != [] {
      RunUnrecorded(h, events[..|events| - 1], cfg, declared);
      RunSound(h, events[..|events| - 1], declared);
      StepUnrecorded(Run(h, events[..|events| - 1]), events[|events| - 1], cfg, declared);
    }
  }

  /** A restart gives every declared member the account and the enrolment time they had. */
  ghost predicate Survives(cfg: seq<Member>, tiers: seq<string>, h: Household) {
    && Opens(cfg, tiers, h.disk)
    && forall i :: 0 <= i < |cfg| ==>
         var again := FoldAll(cfg, h.disk);
         && cfg[i].id in again && cfg[i].id in h.members
         && again[cfg[i].id].telegramId == h.members[cfg[i].id].telegramId
         && again[cfg[i].id].enrolledAt == h.members[cfg[i].id].enrolledAt
  }

  lemma MemberSurvives(cfg: seq<Member>, h: Household, declared: set<MemberId>, i: nat)
    requires Sound(h, declared) && Unrecorded(h, cfg) && HoldsAll(h, cfg) && Declared(cfg) && i < |cfg|
    ensures var m, live := Folded(cfg[i], h.disk), h.members[cfg[i].id];
            (!Disagrees(cfg[i], h.disk) && m.telegramId == live.telegramId && m.enrolledAt == live.enrolledAt) <==>
            (cfg[i].telegramId == 0 || cfg[i].telegramId == live.telegramId)
  {
  }

  /** The configuration gives the member no account of its own, or they are still at it. */
  predicate StillThere(m: Member, h: Household) {
    m.telegramId == 0 || (m.id in h.members && m.telegramId == h.members[m.id].telegramId)
  }

  lemma SurvivesIff(cfg: seq<Member>, tiers: seq<string>, h: Household, declared: set<MemberId>)
    requires Sound(h, declared) && Unrecorded(h, cfg) && HoldsAll(h, cfg) && Declared(cfg)
    requires forall t :: t in tiers ==> TrimSpace(t) != ""
    requires forall i :: 0 <= i < |cfg| ==> cfg[i].id != ""
    requires forall i, j :: 0 <= i < j < |cfg| ==> cfg[i].id != cfg[j].id
    ensures Survives(cfg, tiers, h) <==> forall m :: m in cfg ==> StillThere(m, h)
  {
    FoldAllIs(cfg, h.disk);
    forall i | 0 <= i < |cfg|
      ensures var m, live := Folded(cfg[i], h.disk), h.members[cfg[i].id];
              (!Disagrees(cfg[i], h.disk) && m.telegramId == live.telegramId && m.enrolledAt == live.enrolledAt) <==>
              StillThere(cfg[i], h)
    {
      MemberSurvives(cfg, h, declared, i);
    }
  }

  /** After any run a restart reproduces the household, exactly when no member the
      configuration gives an account of its own has since left that account. */
  lemma RestartReproduces(cfg: seq<Member>, shared: string, tiers: seq<string>, file: State, events: seq<Event>, declared: set<MemberId>)
    requires Opens(cfg, tiers, file) && Declared(cfg)
    requires forall i :: 0 <= i < |cfg| ==> cfg[i].id in declared
    requires OneHolder(Opened(cfg, shared, tiers, file)) && OneRow(file)
    ensures var h := Run(Opened(cfg, shared, tiers, file), events);
            Survives(cfg, tiers, h) <==> forall m :: m in cfg ==> StillThere(m, h)
  {
    var start := Opened(cfg, shared, tiers, file);
    OpensSound(cfg, shared, tiers, file, declared);
    OpensUnrecorded(cfg, shared, tiers, file);
    RunSound(start, events, declared);
    RunUnrecorded(start, events, cfg, declared);
    SurvivesIff(cfg, tiers, Run(start, events), declared);
  }

  /** And what it reproduces is a household with one member to an account again, so all of
      this goes on holding over any number of restarts. */
  lemma RestartIsSound(cfg: seq<Member>, shared: string, tiers: seq<string>, h: Household, declared: set<MemberId>)
    requires Sound(h, declared) && Survives(cfg, tiers, h)
    requires forall i :: 0 <= i < |cfg| ==> cfg[i].id in declared
    ensures Sound(Opened(cfg, shared, tiers, h.disk), declared)
  {
    FoldAllIs(cfg, h.disk);
    var again := Opened(cfg, shared, tiers, h.disk);
    forall id | id in again.members ensures id in h.members && again.members[id].telegramId == h.members[id].telegramId {
      var i :| 0 <= i < |cfg| && cfg[i].id == id;
    }
    OpensSound(cfg, shared, tiers, h.disk, declared);
  }
}
