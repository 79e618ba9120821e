/** An isolated household as the pods it runs in: whom each serves, which memory each makes
    and asks after, and which secrets each is handed. */
module Pods {
  import opened Optionals
  import opened Text
  import opened Configuration
  import opened Limits
  import opened Validation
  import opened Separation

  datatype UnitScope = UnitScope(member: string, group: bool, noSecrets: bool)
  {
    predicate ServesGroup() { Blank(member) }

    predicate Serves(id: string) {
      !group && (Blank(member) || TrimSpace(member) == TrimSpace(id))
    }

    predicate IsPod() { group || !Blank(member) }
  }

  const GROUP_POD := UnitScope("", true, false)

  function PodOf(m: MemberConfig): UnitScope { UnitScope(m.id, false, false) }

  /** One for each member with memory of their own, and one for the group where there is one. */
  predicate Started(c: Config, u: UnitScope) {
    || (u == GROUP_POD && c.groupChatId != 0)
    || exists m :: m in c.members && !m.sharedOnly && u == PodOf(m)
  }

  // ---- whom a pod serves ----

  lemma IdsApart(c: Config, tags: set<string>, i: nat, j: nat)
    requires Faultless(c, tags) && i < |c.members| && j < |c.members|
    requires TrimSpace(c.members[i].id) == TrimSpace(c.members[j].id)
    ensures i == j
  {
    FaultlessIsSeparate(c, tags);
    assert c.members[i] in c.members && c.members[j] in c.members;
    assert RowClean(c, tags, c.members[i]) && RowClean(c, tags, c.members[j]);
    var key := Word(TrimSpace(c.members[i].id));
    assert ClaimsApart(c, Id);
    assert Holds(c, |c.members|, i, Id, key) && Holds(c, |c.members|, j, Id, key);
  }

  /** The pods partition the household: a member's pod serves that member and nobody else, and
      a member without memory of their own is served by none of them. */
  lemma ServedByOne(c: Config, tags: set<string>, u: UnitScope, i: nat)
    requires Faultless(c, tags) && Started(c, u) && i < |c.members|
    ensures u.Serves(c.members[i].id) <==> !c.members[i].sharedOnly && u == PodOf(c.members[i])
  {
    FaultlessIsSeparate(c, tags);
    if u != GROUP_POD {
      var m :| m in c.members && !m.sharedOnly && u == PodOf(m);
      var j :| 0 <= j < |c.members| && c.members[j] == m;
      assert RowClean(c, tags, m);
      if TrimSpace(m.id) == TrimSpace(c.members[i].id) { IdsApart(c, tags, i, j); }
    }
  }

  // ---- the spaces a unit uses, and those it makes ----

  function ServedSpaces(members: seq<MemberConfig>, u: UnitScope): seq<string> {
    if members == [] then []
    else (if members[0].privateSpace != "" && u.Serves(members[0].id) then [members[0].privateSpace] else []) +
         ServedSpaces(members[1..], u)
  }

  function ConfiguredSpaces(c: Config, u: UnitScope): seq<string> {
    (if c.sharedSpace != "" then [c.sharedSpace] else []) + ServedSpaces(c.members, u)
  }

  method ListSpaces(c: Config, u: UnitScope) returns (spaces: seq<string>)
    ensures spaces == ConfiguredSpaces(c, u)
  {
    spaces := [];
    if c.sharedSpace != "" {
      spaces := spaces + [c.sharedSpace];
    }
    for i := 0 to |c.members|
      invariant spaces + ServedSpaces(c.members[i..], u) == ConfiguredSpaces(c, u)
    {
      var m := c.members[i];
      assert c.members[i..][1..] == c.members[i + 1..];
      if m.privateSpace != "" && u.Serves(m.id) {
        spaces := spaces + [m.privateSpace];
      }
    }
  }

  function OwnSpaces(c: Config, u: UnitScope): seq<string> {
    if !c.mode.Isolated? || !u.IsPod() then []
    else if u.group then (if c.sharedSpace == "" then [] else [c.sharedSpace])
    else
      var served := ServedSpaces(c.members, u);
      if served == [] then [] else [served[0]]
  }

  method ListOwnSpaces(c: Config, u: UnitScope) returns (spaces: seq<string>)
    ensures spaces == OwnSpaces(c, u)
  {
    if !c.mode.Isolated? || !u.IsPod() {
      return [];
    }
    if u.group {
      if c.sharedSpace == "" {
        return [];
      }
      return [c.sharedSpace];
    }
    for i := 0 to |c.members|
      invariant ServedSpaces(c.members[i..], u) == ServedSpaces(c.members, u)
    {
      var m := c.members[i];
      assert c.members[i..][1..] == c.members[i + 1..];
      if u.Serves(m.id) && m.privateSpace != "" {
        return [m.privateSpace];
      }
    }
    return [];
  }

  lemma {:induction false} ServesOneOf(members: seq<MemberConfig>, u: UnitScope, i: nat)
    requires i < |members| && members[i].privateSpace != ""
    requires forall j :: 0 <= j < |members| ==> (u.Serves(members[j].id) <==> j == i)
    ensures ServedSpaces(members, u) == [members[i].privateSpace]
  {
    assert forall j :: 0 <= j < |members| - 1 ==> members[1..][j] == members[j + 1];
    if i == 0 {
      ServesNoneOf(members[1..], u);
    } else {
      ServesOneOf(members[1..], u, i - 1);
    }
  }

  lemma {:induction false} ServesNoneOf(members: seq<MemberConfig>, u: UnitScope)
    requires forall j :: 0 <= j < |members| ==> !u.Serves(members[j].id)
    ensures ServedSpaces(members, u) == []
  {
    if members != [] {
      ServesNoneOf(members[1..], u);
    }
  }

  /** A member's pod makes that member's space, and asks after it and the shared one: never
      after a sibling's. */
  lemma MemberPodSpaces(c: Config, tags: set<string>, i: nat)
    requires c.mode.Isolated? && Faultless(c, tags) && c.sharedSpace != ""
    requires i < |c.members| && !c.members[i].sharedOnly
    ensures ConfiguredSpaces(c, PodOf(c.members[i])) == [c.sharedSpace, c.members[i].privateSpace]
    ensures OwnSpaces(c, PodOf(c.members[i])) == [c.members[i].privateSpace]
  {
    var m, u := c.members[i], PodOf(c.members[i]);
    FaultlessIsSeparate(c, tags);
    assert RowClean(c, tags, m);
    assert Started(c, u);
    forall j | 0 <= j < |c.members| ensures u.Serves(c.members[j].id) <==> j == i {
      ServedByOne(c, tags, u, j);
      if TrimSpace(m.id) == TrimSpace(c.members[j].id) { IdsApart(c, tags, i, j); }
    }
    ServesOneOf(c.members, u, i);
  }

  lemma GroupPodSpaces(c: Config)
    requires c.mode.Isolated? && c.sharedSpace != ""
    ensures ConfiguredSpaces(c, GROUP_POD) == OwnSpaces(c, GROUP_POD) == [c.sharedSpace]
  {
    ServesNoneOf(c.members, GROUP_POD);
  }

  lemma PrivateSpacesApart(c: Config, tags: set<string>, i: nat, j: nat)
    requires Faultless(c, tags) && i < |c.members| && j < |c.members|
    requires !c.members[i].sharedOnly && !c.members[j].sharedOnly
    ensures c.members[i].privateSpace != c.sharedSpace
    ensures c.members[i].privateSpace == c.members[j].privateSpace ==> i == j
  {
    FaultlessIsSeparate(c, tags);
    assert c.members[i] in c.members && c.members[j] in c.members;
    assert RowClean(c, tags, c.members[i]) && RowClean(c, tags, c.members[j]);
    assert ClaimsApart(c, Space);
    var key := Word(TrimSpace(c.members[i].privateSpace));
    assert Holds(c, |c.members|, i, Space, key);
    assert c.members[i].privateSpace == c.members[j].privateSpace ==> Holds(c, |c.members|, j, Space, key);
  }

  /** No two pods make one space. */
  lemma OneMaker(c: Config, tags: set<string>, u: UnitScope, v: UnitScope, space: string)
    requires c.mode.Isolated? && Faultless(c, tags) && c.sharedSpace != ""
    requires Started(c, u) && Started(c, v) && space in OwnSpaces(c, u) && space in OwnSpaces(c, v)
    ensures u == v
  {
    hide Faultless, OwnSpaces;
    GroupPodSpaces(c);
    if u != GROUP_POD {
      var i := RowOf(c, u);
      MemberPodSpaces(c, tags, i);
      if v != GROUP_POD {
        var j := RowOf(c, v);
        MemberPodSpaces(c, tags, j);
        PrivateSpacesApart(c, tags, i, j);
      } else {
        PrivateSpacesApart(c, tags, i, i);
      }
    } else if v != GROUP_POD {
      var j := RowOf(c, v);
      MemberPodSpaces(c, tags, j);
      PrivateSpacesApart(c, tags, j, j);
    }
  }

  lemma RowOf(c: Config, u: UnitScope) returns (i: nat)
    requires Started(c, u) && u != GROUP_POD
    ensures i < |c.members| && !c.members[i].sharedOnly && u == PodOf(c.members[i])
  {
    var m :| m in c.members && !m.sharedOnly && u == PodOf(m);
    i :| i < |c.members| && c.members[i] == m;
  }

  /** Every private space is made, and the shared one exactly where there is a group pod to
      make it: a household without a group chat has nobody to. */
  lemma EverySpaceIsMade(c: Config, tags: set<string>)
    requires c.mode.Isolated? && Faultless(c, tags) && c.sharedSpace != ""
    ensures forall i :: 0 <= i < |c.members| && !c.members[i].sharedOnly ==>
              exists u :: Started(c, u) && c.members[i].privateSpace in OwnSpaces(c, u)
    ensures (exists u :: Started(c, u) && c.sharedSpace in OwnSpaces(c, u)) <==> c.groupChatId != 0
  {
    hide Faultless, OwnSpaces;
    GroupPodSpaces(c);
    forall i | 0 <= i < |c.members| && !c.members[i].sharedOnly
      ensures exists u :: Started(c, u) && c.members[i].privateSpace in OwnSpaces(c, u)
    {
      MemberPodSpaces(c, tags, i);
      assert Started(c, PodOf(c.members[i]));
    }
    forall u | Started(c, u) && u != GROUP_POD ensures c.sharedSpace !in OwnSpaces(c, u) {
      var i := RowOf(c, u);
      MemberPodSpaces(c, tags, i);
      PrivateSpacesApart(c, tags, i, i);
    }
    if c.groupChatId != 0 {
      assert Started(c, GROUP_POD) && c.sharedSpace in OwnSpaces(c, GROUP_POD);
    }
  }

  // ---- what a store that lacks some of them means ----

  datatype SpaceResult = SpaceResult(space: string, failed: bool)

  function Lacking(r: SpaceResult): seq<string> {
    if r.failed then [r.space] else []
  }

  function Failed(results: seq<SpaceResult>): seq<string> {
    if results == [] then []
    else Lacking(results[0]) + Failed(results[1..])
  }

  lemma {:induction false} AllFailed(results: seq<SpaceResult>)
    ensures |Failed(results)| <= |results|
    ensures |Failed(results)| == |results| <==> forall r :: r in results ==> r.failed
  {
    if results != [] {
      AllFailed(results[1..]);
      assert results == [results[0]] + results[1..];
    }
  }

  lemma {:induction false} FailedAdds(results: seq<SpaceResult>, more: seq<SpaceResult>)
    ensures Failed(results + more) == Failed(results) + Failed(more)
  {
    hide Lacking;
    if results == [] {
      assert results + more == more;
    } else {
      var first, rest, last := Lacking(results[0]), Failed(results[1..]), Failed(more);
      FailedAdds(results[1..], more);
      var all := results + more;
      assert all != [] && all[0] == results[0] && all[1..] == results[1..] + more;
      assert Failed(all) == first + (rest + last);
    }
  }

  /** The spaces listed are those of the results that failed, in the order they were asked after. */
  lemma FailedOne(before: seq<SpaceResult>, r: SpaceResult, after: seq<SpaceResult>)
    ensures Failed(before + [r] + after) == Failed(before) + (if r.failed then [r.space] else []) + Failed(after)
  {
    hide Failed;
    FailedAdds(before, [r]);
    FailedAdds(before + [r], after);
    assert Failed([r]) == Lacking(r) by { OnlyOne(r); }
  }

  lemma NoneFailed()
    ensures Failed([]) == []
  {
  }

  lemma OnlyOne(r: SpaceResult)
    ensures Failed([r]) == Lacking(r)
  {
    assert [r][1..] == [];
  }

  method JudgeMemory(results: seq<SpaceResult>) returns (missing: seq<string>, fatal: bool)
    ensures missing == Failed(results)
    ensures fatal <==> Fatal(results)
  {
    hide Failed;
    missing := [];
    NoneFailed();
    for i := 0 to |results|
      invariant missing == Failed(results[..i])
    {
      assert results[..i + 1] == results[..i] + [results[i]];
      FailedAdds(results[..i], [results[i]]);
      OnlyOne(results[i]);
      if results[i].failed {
        missing := missing + [results[i].space];
      }
    }
    assert results[..|results|] == results;
    AllFailed(results);
    fatal := |results| > 0 && |missing| == |results|;
  }

  predicate Probed(c: Config, u: UnitScope, results: seq<SpaceResult>) {
    && |results| == |ConfiguredSpaces(c, u)|
    && forall i :: 0 <= i < |results| ==> results[i].space == ConfiguredSpaces(c, u)[i]
  }

  predicate Fatal(results: seq<SpaceResult>) {
    results != [] && forall r :: r in results ==> r.failed
  }

  /** A unit that made its own space and finds it is never judged unfit to serve, whatever else
      its store lacks. */
  lemma OwnSpaceIsEnough(c: Config, u: UnitScope, results: seq<SpaceResult>)
    requires Probed(c, u, results)
    requires OwnSpaces(c, u) != []
    requires forall r :: r in results && r.space in OwnSpaces(c, u) ==> !r.failed
    ensures !Fatal(results)
  {
    var own := OwnSpaces(c, u)[0];
    assert own in OwnSpaces(c, u) && own in ConfiguredSpaces(c, u);
    var k :| 0 <= k < |results| && ConfiguredSpaces(c, u)[k] == own;
    assert results[k] in results && !results[k].failed;
  }
}
