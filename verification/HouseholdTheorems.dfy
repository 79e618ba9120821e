/** What one claim or revocation comes to, in a household that is sound: who holds which account
    afterwards, in memory and in the file, and what a second one does. */
module HouseholdTheorems {
  import opened Optionals
  import opened Text
  import opened HouseholdState
  import opened HouseholdRuns
  import opened Titles

  predicate HeldByAnother(h: Household, id: MemberId, telegramId: int) {
    exists other :: other in h.members && other != id && h.members[other].telegramId == telegramId
  }

  ghost predicate OthersSame(h: Household, t: Household, id: MemberId) {
    forall other :: other != id ==>
      (other in t.members <==> other in h.members) && (other in h.members ==> t.members[other] == h.members[other])
  }

  lemma HolderIs(h: Household, telegramId: int, id: MemberId, declared: set<MemberId>)
    requires Sound(h, declared) && telegramId != 0
    ensures HolderOf(h, telegramId) == Some(id) <==> id in h.members && h.members[id].telegramId == telegramId
    ensures HolderOf(h, telegramId) == None <==> forall m :: m in h.members ==> h.members[m].telegramId != telegramId
  {
    HolderIsHolder(h.members, h.order, telegramId);
  }

  lemma RowIs(s: State, telegramId: int, id: MemberId)
    requires OneRow(s) && telegramId != 0 && id in s.bindings && s.bindings[id].telegramId == telegramId
    ensures RowFor(s, telegramId) == Some(id)
  {
    RowForFinds(s, telegramId);
  }

  /** A claim is refused, and changes nothing, exactly when it names nobody or no account, when
      the account is another member's, when it would create a member it cannot, or when it has
      something to save and cannot. */
  lemma ClaimRefusedIff(h: Household, id: MemberId, name: string, telegramId: int, at: int, works: bool, declared: set<MemberId>)
    requires Sound(h, declared)
    ensures var (t, r) := Bind(h, id, name, telegramId, at, works);
            && (r.Err? ==> t == h)
            && (r.Err? <==>
                  || id == "" || telegramId == 0 || HeldByAnother(h, id, telegramId)
                  || (id !in h.members && Provision(h, id, name).Err?)
                  || (!works && !(id in h.members && Recorded(h, id, telegramId))))
  {
    HolderIsHolder(h.members, h.order, telegramId);
  }

  /** A claim that goes through: the account is that member's, in memory and in the file; when
      they enrolled is now, unless they held the account already; and nobody else has changed. */
  lemma ClaimTakes(h: Household, id: MemberId, name: string, telegramId: int, at: int, works: bool, declared: set<MemberId>)
    requires Sound(h, declared) && Bind(h, id, name, telegramId, at, works).1.Ok?
    ensures var (t, r) := Bind(h, id, name, telegramId, at, works);
            && HolderOf(t, telegramId) == Some(id) && RowFor(t.disk, telegramId) == Some(id)
            && id in t.members && t.members[id] == r.value && r.value.telegramId == telegramId
            && r.value.enrolledAt == (if id in h.members && Recorded(h, id, telegramId) then h.members[id].enrolledAt else at)
            && (id in h.members ==> r.value == h.members[id].(telegramId := telegramId, enrolledAt := r.value.enrolledAt))
            && OthersSame(h, t, id)
  {
    hide OwnSpaces, Provision;
    var (t, r) := Bind(h, id, name, telegramId, at, works);
    StepSound(h, Claim(id, name, telegramId, at, works), declared);
    HolderIs(t, telegramId, id, declared);
    RowIs(t.state, telegramId, id);
  }

  /** Somebody the household does not know is taken in exactly where they have a name, there are
      tiers for them, and the space they would have is nobody's: theirs is their id's, set apart
      from the shared one, and they join the order last. */
  lemma NewcomerIs(h: Household, id: MemberId, name: string, telegramId: int, at: int, declared: set<MemberId>)
    requires Sound(h, declared) && id !in h.members && id != ""
    requires telegramId != 0 && !HeldByAnother(h, id, telegramId)
    ensures var (t, r) := Bind(h, id, name, telegramId, at, true);
            var space := if id + "-private" == h.shared then id + "-private-own" else id + "-private";
            && (r.Ok? <==> (exists i :: 0 <= i < |name| && !IsSpace(name[i])) && h.tiers != [] &&
                           forall m :: m in h.members ==> h.members[m].private != space)
            && (r.Ok? ==> r.value == Member(id, TrimSpace(name), telegramId, space, false, h.tiers, at)
                          && t.members == h.members[id := r.value] && t.order == h.order + [id])
  {
    hide TrimSpace;
    HolderIsHolder(h.members, h.order, telegramId);
    var _, _ := TrimSpaceIs(name);
    assert id + "-private" + "-own" == id + "-private-own";
    assert OwnSpace(h, id) == if id + "-private" == h.shared then id + "-private-own" else id + "-private" by {
      assert |id + "-private"| > 0;
    }
  }

  /** Claiming again what one holds is not a fault and changes nothing, whatever the clock or
      the disk now say. */
  lemma RetriedClaim(h: Household, id: MemberId, name: string, telegramId: int, at: int, works: bool,
                     again: string, later: int, still: bool, declared: set<MemberId>)
    requires Sound(h, declared) && Bind(h, id, name, telegramId, at, works).1.Ok?
    ensures var (t, r) := Bind(h, id, name, telegramId, at, works);
            Bind(t, id, again, telegramId, later, still) == (t, r)
  {
    ClaimTakes(h, id, name, telegramId, at, works, declared);
  }

  /** A member who claims from another account leaves the old one to nobody. */
  lemma OldAccountIsNobodys(h: Household, id: MemberId, name: string, telegramId: int, at: int, declared: set<MemberId>)
    requires Sound(h, declared) && Bind(h, id, name, telegramId, at, true).1.Ok?
    requires id in h.members && h.members[id].telegramId != 0 && h.members[id].telegramId != telegramId
    ensures var t := Bind(h, id, name, telegramId, at, true).0; var former := h.members[id].telegramId;
            HolderOf(t, former) == None && forall m :: m in t.members && m in t.disk.bindings ==> t.disk.bindings[m].telegramId != former
  {
    var t, former := Bind(h, id, name, telegramId, at, true).0, h.members[id].telegramId;
    ClaimTakes(h, id, name, telegramId, at, true, declared);
    StepSound(h, Claim(id, name, telegramId, at, true), declared);
    HolderIs(t, former, id, declared);
  }

  /** A revocation that goes through: the member holds nothing and the file records nothing of
      them, they are given back as they were, and nobody else has changed. */
  lemma RevocationFrees(h: Household, id: MemberId, works: bool, declared: set<MemberId>)
    requires Sound(h, declared) && Unbind(h, id, works).1.Ok?
    ensures var (t, r) := Unbind(h, id, works);
            && id in h.members && r.value == h.members[id]
            && t.members[id].telegramId == 0 && id !in t.disk.bindings
            && (h.members[id].telegramId != 0 ==> HolderOf(t, h.members[id].telegramId) == None)
            && OthersSame(h, t, id)
  {
    var (t, r) := Unbind(h, id, works);
    StepSound(h, Revoke(id, works), declared);
    if h.members[id].telegramId != 0 {
      HolderIs(t, h.members[id].telegramId, id, declared);
    }
  }

  /** A revocation is refused, and changes nothing, exactly where nobody has that id, or where
      there is something to take back and it cannot be saved. */
  lemma RevocationRefusedIff(h: Household, id: MemberId, works: bool, declared: set<MemberId>)
    requires Sound(h, declared)
    ensures var (t, r) := Unbind(h, id, works);
            && (r.Err? ==> t == h)
            && (r.Err? <==> id !in h.order || (!works && (h.members[id].telegramId != 0 || id in h.disk.bindings)))
            && (r.Ok? ==> t.order == h.order && t.disk.personas == h.disk.personas &&
                          forall m :: m != id ==> (m in t.disk.bindings <==> m in h.disk.bindings) &&
                                                  (m in h.disk.bindings ==> t.disk.bindings[m] == h.disk.bindings[m]))
  {
  }

  /** What a claim and the revocation of it leave is the member as they were before, if they
      held nothing then: the one undoes the other. */
  lemma RevocationUndoesClaim(h: Household, id: MemberId, name: string, telegramId: int, at: int, declared: set<MemberId>)
    requires Sound(h, declared) && id in h.members && id !in h.state.bindings
    requires h.members[id].telegramId == 0 && h.members[id].enrolledAt == 0
    requires RowFor(h.state, telegramId) == None
    requires Bind(h, id, name, telegramId, at, true).1.Ok?
    ensures Unbind(Bind(h, id, name, telegramId, at, true).0, id, true).0 == h
  {
    var t := Bind(h, id, name, telegramId, at, true).0;
    assert t.state.bindings - {id} == h.state.bindings;
    assert t.members[id := h.members[id]] == h.members;
  }

  /** An account given up is anybody's to claim: it is not refused as somebody else's. */
  lemma FreedAccountCanBeClaimed(h: Household, id: MemberId, other: MemberId, name: string, at: int, declared: set<MemberId>)
    requires Sound(h, declared) && id in h.members && h.members[id].telegramId != 0
    requires other != "" && other in h.members
    ensures var t := Unbind(h, id, true).0;
            Bind(t, other, name, h.members[id].telegramId, at, true).1.Ok?
  {
    var t, account := Unbind(h, id, true).0, h.members[id].telegramId;
    RevocationFrees(h, id, true, declared);
    StepSound(h, Revoke(id, true), declared);
    ClaimRefusedIff(t, other, name, account, at, true, declared);
    HolderIs(t, account, id, declared);
  }

  /** An answer is kept, in memory and in the file, exactly where it is a member's and can be
      saved; it changes nobody else's, and nobody's account. */
  lemma AnswersAreKept(h: Household, id: MemberId, p: MemberPersona, works: bool, declared: set<MemberId>)
    requires Sound(h, declared) && id != ""
    ensures var (t, e) := SetPersona(h, id, p, works);
            && (e == None <==> id in h.order && works)
            && (if e == None
                then && t.disk == t.state && id in t.state.personas && t.state.personas[id] == p
                     && (forall other :: other != id ==>
                           (other in t.state.personas <==> other in h.state.personas)
                           && (other in h.state.personas ==> t.state.personas[other] == h.state.personas[other]))
                     && t.state.bindings == h.state.bindings
                     && t.members == h.members && t.order == h.order && t.shared == h.shared && t.tiers == h.tiers
                else t == h)
  {
  }
}
