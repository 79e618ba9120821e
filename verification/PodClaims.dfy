/** What starts make of claims and revocations: the last word is the later one's, however often
    the pod is started in between. */
module PodClaims {
  import opened Optionals
  import opened HouseholdState
  import HR = HouseholdRuns
  import opened Invites
  import opened HostPod

  lemma IndexOfIs(rows: seq<Member>, m: MemberId, i: nat)
    requires i < |rows| && rows[i].id == m && (forall j, k :: 0 <= j < k < |rows| ==> rows[j].id != rows[k].id)
    ensures IndexOf(rows, m) == Some(i)
  {
  }

  predicate Enrolled(m: Member) { m.telegramId != 0 }

  /** The pod's own view of its member, once it is up. */
  ghost predicate Serves(p: Pod, m: MemberId, served: Member) {
    p.house.Some? && m in p.house.value.members && p.house.value.members[m] == served
  }

  lemma AppliedRow(rows: seq<Member>, shared: string, s: State, m: MemberId, i: nat, at: Option<int>, works: bool)
    requires IndexOf(rows, m) == Some(i) && Applies(rows, m, at)
    requires Revoked(rows, shared, s, m, at, works).2
    ensures var (after, t, _) := Revoked(rows, shared, s, m, at, works);
            after == Corrected(rows, m) && t == s.(bindings := s.bindings - {m})
  {
    HR.FoldAllIs(rows, s);
    assert HR.IsMember(rows, m);
    assert FoldAll(rows, s)[rows[i].id] == Folded(rows[i], s);
  }

  /** The rows a pod opens its household from, whatever the record made it do. */
  lemma RevokedRow(c: Config, s: State, m: MemberId, i: nat, at: Option<int>, works: bool)
    requires c.WellFormed() && i < |c.members| && c.members[i].id == m
    requires Revoked(Loaded(c.members, s), c.shared, s, m, at, works).2
    ensures var (rows, t, _) := Revoked(Loaded(c.members, s), c.shared, s, m, at, works);
            var was := Folded(c.members[i], s);
            && |rows| == |c.members| && (forall j :: 0 <= j < |rows| ==> rows[j].id == c.members[j].id)
            && (if at.Some? && Enrolled(was) && was.enrolledAt <= at.value
                then rows[i] == was.(telegramId := 0, enrolledAt := 0) && t == s.(bindings := s.bindings - {m})
                else rows[i] == was && t == s)
  {
    var rows := Loaded(c.members, s);
    IndexOfIs(rows, m, i);
    if Applies(rows, m, at) {
      AppliedRow(rows, c.shared, s, m, i, at, works);
    }
  }

  lemma StartedRow(c: Config, p: Pod, m: MemberId, i: nat, seed: Codes, at: Option<int>, works: bool, writes: nat)
    requires c.WellFormed() && i < |c.members| && c.members[i].id == m
    requires Started(c, p, m, seed, at, works, writes).house.Some?
    ensures var q := Started(c, p, m, seed, at, works, writes); var was := Folded(c.members[i], p.state);
            && q.house.value.disk == q.state
            && if at.Some? && Enrolled(was) && was.enrolledAt <= at.value
               then Serves(q, m, was.(telegramId := 0, enrolledAt := 0)) && q.state == p.state.(bindings := p.state.bindings - {m})
               else Serves(q, m, was) && q.state == p.state
  {
    RevokedRow(c, p.state, m, i, at, works);
    var (rows, s, _) := Revoked(Loaded(c.members, p.state), c.shared, p.state, m, at, works);
    HR.FoldAllIs(rows, s);
    assert rows[i].id == m;
  }

  /** A pod that comes up serves its member only under a claim made strictly after the last
      revocation the host had recorded. */
  lemma StartsHonourRevocations(c: Config, w: World, m: MemberId, i: nat, works: bool, writes: nat, served: Member)
    requires c.WellFormed() && i < |c.members| && c.members[i].id == m && m in w.revoked
    requires Serves(Step(c, w, Start(m, works, writes)).pods[m], m, served) && Enrolled(served)
    ensures served.enrolledAt > w.revoked[m]
  {
    StartedRow(c, PodOf(w, m), m, i, SeedOf(w, m), Some(w.revoked[m]), works, writes);
  }

  /** A claim on the pod's volume that no recorded revocation is as late as. */
  ghost predicate Stands(w: World, m: MemberId, b: Binding) {
    && m in w.pods && m in w.pods[m].state.bindings && w.pods[m].state.bindings[m] == b
    && (m in w.revoked ==> b.enrolledAt > w.revoked[m])
    && (w.pods[m].house.Some? ==> w.pods[m].house.value.disk == w.pods[m].state)
  }

  lemma RevokedLeaves(c: Config, s: State, m: MemberId, i: nat, at: Option<int>, works: bool)
    requires c.WellFormed() && i < |c.members| && c.members[i].id == m && m in s.bindings
    requires at.Some? ==> s.bindings[m].enrolledAt > at.value
    ensures Revoked(Loaded(c.members, s), c.shared, s, m, at, works) == (Loaded(c.members, s), s, true)
  {
    IndexOfIs(Loaded(c.members, s), m, i);
  }

  /** A redemption at this member's pod that goes through and binds an account anew. One that
      fails in any way, or finds the account bound already, binds nothing. */
  ghost predicate Takes(w: World, e: Event, m: MemberId) {
    && e.Redeem? && e.m == m && m in w.pods && w.pods[m].house.Some? && e.now != 0
    && var r := Spend(w.pods[m].codes, e.hash, e.now, e.spends).1;
       r.Redeemed? && HR.Binds(w.pods[m].house.value, r.code.member, r.code.name, e.user, e.binds)
  }

  lemma FailedClaimLeavesState(c: Config, w: World, e: Event, m: MemberId)
    requires e.Redeem? && e.m == m && m in w.pods && !Takes(w, e, m)
    ensures m in Step(c, w, e).pods
    ensures w.pods[m].house.Some? && w.pods[m].house.value.disk == w.pods[m].state ==>
              Step(c, w, e).pods[m].state == w.pods[m].state && Step(c, w, e).pods[m].house == w.pods[m].house
    ensures w.pods[m].house.None? ==> Step(c, w, e).pods[m] == w.pods[m]
  {
    if w.pods[m].house.Some? {
      var r := Spend(w.pods[m].codes, e.hash, e.now, e.spends).1;
      if r.Redeemed? {
        HR.BindIsNothingElse(w.pods[m].house.value, r.code.member, r.code.name, e.user, e.now, e.binds);
      }
    }
  }

  lemma StandingSurvivesStep(c: Config, w: World, e: Event, m: MemberId, i: nat, b: Binding)
    requires c.WellFormed() && i < |c.members| && c.members[i].id == m && Stands(w, m, b)
    requires !(e.Revoke? && e.m == m) && !Takes(w, e, m)
    ensures Stands(Step(c, w, e), m, b)
  {
    if e.Start? && e.m == m {
      RevokedLeaves(c, w.pods[m].state, m, i, if m in w.revoked then Some(w.revoked[m]) else None, e.works);
    } else if e.Redeem? && Step(c, w, e) != w {
      RedeemShape(c, w, e);
      if e.m == m { FailedClaimLeavesState(c, w, e, m); }
    }
  }

  /** The host does not revoke this member, and no claim of theirs goes through. */
  ghost predicate Untouched(c: Config, w: World, events: seq<Event>, m: MemberId) {
    forall j :: 0 <= j < |events| ==>
      !(events[j].Revoke? && events[j].m == m) && !Takes(Run(c, w, events[..j]), events[j], m)
  }

  lemma {:induction false} StandingSurvives(c: Config, w: World, events: seq<Event>, m: MemberId, i: nat, b: Binding)
    requires c.WellFormed() && i < |c.members| && c.members[i].id == m && Stands(w, m, b)
    requires Untouched(c, w, events, m)
    ensures Stands(Run(c, w, events), m, b)
  {
    hide Step, Stands, Takes;
    if events != [] {
      var n := |events| - 1;
      forall j | 0 <= j < n ensures events[..n][..j] == events[..j] && events[..n][j] == events[j] {
      }
      assert Untouched(c, w, events[..n], m);
      StandingSurvives(c, w, events[..n], m, i, b);
      StandingSurvivesStep(c, Run(c, w, events[..n]), events[n], m, i, b);
    }
  }

  /** A claim newer than the last revocation survives every later start of the pod and every
      redemption that fails, until its member is revoked again or claims anew; and whenever the
      pod comes up it serves that claim, the configuration naming no account of its own. */
  lemma ClaimsSurviveRestarts(c: Config, w: World, events: seq<Event>, m: MemberId, i: nat, b: Binding,
                              works: bool, writes: nat, served: Member)
    requires c.WellFormed() && i < |c.members| && c.members[i].id == m && c.members[i].telegramId == 0
    requires Stands(w, m, b) && b.telegramId != 0 && Untouched(c, w, events, m)
    ensures Stands(Run(c, w, events), m, b)
    ensures Serves(Step(c, Run(c, w, events), Start(m, works, writes)).pods[m], m, served) ==>
              served.telegramId == b.telegramId && served.enrolledAt == b.enrolledAt
  {
    StandingSurvives(c, w, events, m, i, b);
    var v := Run(c, w, events);
    if Step(c, v, Start(m, works, writes)).pods[m].house.Some? {
      StartedRow(c, v.pods[m], m, i, SeedOf(v, m), if m in v.revoked then Some(v.revoked[m]) else None, works, writes);
    }
  }

  lemma TakingStands(c: Config, w: World, e: Event, m: MemberId)
    requires CodesOk(w) && Takes(w, e, m) && (m in w.revoked ==> e.now > w.revoked[m])
    ensures Stands(Step(c, w, e), m, Binding(e.user, e.now)) && e.user != 0
  {
    var r := Spend(w.pods[m].codes, e.hash, e.now, e.spends).1;
    var i := LastWith(w.pods[m].codes, e.hash).value;
    assert w.pods[m].codes[i] in w.pods[m].codes;
    assert r.code.member == m;
  }

  /** The last claim that went through is the one served: from any run's redemption that binds,
      later than the host's last revocation, through whatever else happens short of another
      revocation or another claim, every start that comes up serves that account since then. */
  lemma LastClaimIsServed(c: Config, before: seq<Event>, e: Event, after: seq<Event>, m: MemberId, i: nat,
                          works: bool, writes: nat, served: Member)
    requires c.WellFormed() && i < |c.members| && c.members[i].id == m && c.members[i].telegramId == 0
    requires var w := Run(c, EMPTY, before);
             && Takes(w, e, m) && (m in w.revoked ==> e.now > w.revoked[m])
             && Untouched(c, Step(c, w, e), after, m)
    ensures var v := Run(c, Step(c, Run(c, EMPTY, before), e), after);
            Serves(Step(c, v, Start(m, works, writes)).pods[m], m, served) ==>
              served.telegramId == e.user && served.enrolledAt == e.now
  {
    var w := Run(c, EMPTY, before);
    RedeemedOnce(c, before);
    TakingStands(c, w, e, m);
    ClaimsSurviveRestarts(c, Step(c, w, e), after, m, i, Binding(e.user, e.now), works, writes, served);
  }

  /** The configuration corrected in memory is the one a fresh load would give, exactly when
      the file declares no account for the member the record unbinds. */
  lemma CorrectionIsReload(c: Config, s: State, m: MemberId, i: nat, at: Option<int>)
    requires c.WellFormed() && i < |c.members| && c.members[i].id == m
    requires Applies(Loaded(c.members, s), m, at)
    ensures Corrected(Loaded(c.members, s), m) == Loaded(c.members, s.(bindings := s.bindings - {m}))
            <==> c.members[i].telegramId == 0
  {
    var corrected, again := Corrected(Loaded(c.members, s), m), Loaded(c.members, s.(bindings := s.bindings - {m}));
    assert corrected[i].telegramId == 0 && again[i].telegramId == c.members[i].telegramId;
    forall j | 0 <= j < |c.members| && j != i ensures corrected[j] == again[j] {
      assert c.members[j].id != m;
    }
  }
}
