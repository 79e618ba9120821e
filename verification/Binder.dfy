/** The binder object: its fields, the state file beside it, and its operations in the
    clone, save, swap order that keeps memory describing the file. */
module BinderObject {
  import opened Optionals
  import opened Text
  import opened HouseholdState
  import opened HouseholdRuns

  /** The state file. A save replaces all of it or leaves it alone. */
  class StateFile {
    var contents: State

    constructor (s: State)
      ensures contents == s
    {
      contents := s;
    }

    method Save(s: State, works: bool) returns (ok: bool)
      modifies this
      ensures ok == works && contents == if works then s else old(contents)
    {
      ok := works;
      if works {
        contents := s;
      }
    }
  }

  /** Some member id, and the smallest in the order ids are scanned in. */
  method SmallestId(ids: set<MemberId>) returns (least: MemberId)
    requires ids != {}
    ensures least in ids && forall other :: other in ids ==> LexLeq(least, other)
  {
    var left := ids;
    least :| least in left;
    left := left - {least};
    LexTotal(least, least);
    while left != {}
      invariant left <= ids && least in ids
      invariant forall other :: other in ids - left ==> LexLeq(least, other)
      decreases |left|
    {
      var id :| id in left;
      LexTotal(id, least);
      if !LexLeq(least, id) {
        forall other | other in ids - left ensures LexLeq(id, other) {
          LexTransitive(id, least, other);
        }
        LexTotal(id, id);
        least := id;
      }
      left := left - {id};
    }
  }

  /** State.MemberByTelegramID: the ids in order, and the first whose row matches. */
  method MemberByTelegramId(s: State, telegramId: int) returns (r: Option<MemberId>)
    ensures r == RowFor(s, telegramId)
  {
    RowForFinds(s, telegramId);
    if telegramId == 0 {
      return None;
    }
    var left := s.bindings.Keys;
    while left != {}
      invariant left <= s.bindings.Keys
      invariant forall id :: id in s.bindings && id !in left ==> s.bindings[id].telegramId != telegramId
      decreases |left|
    {
      var id := SmallestId(left);
      if s.bindings[id].telegramId == telegramId {
        assert IsFirstRow(s.bindings, telegramId, id);
        FirstRowIsUnique(s, telegramId, id, RowFor(s, telegramId).value);
        return Some(id);
      }
      left := left - {id};
    }
    r := None;
  }

  class Binder {
    var members: map<MemberId, Member>
    var order: seq<MemberId>
    const shared: string
    const tiers: seq<string>
    var state: State
    const file: StateFile

    ghost function Now(): Household
      reads this, file
    {
      Household(members, order, shared, tiers, state, file.contents)
    }

    /** Every id in the order is a member's. */
    ghost predicate Valid()
      reads this
    {
      forall id :: id in order ==> id in members
    }

    constructor Over(members: map<MemberId, Member>, order: seq<MemberId>, shared: string, tiers: seq<string>, file: StateFile)
      requires forall id :: id in order ==> id in members
      ensures Valid() && Now() == Household(members, order, shared, tiers, file.contents, file.contents)
      ensures this.file == file
    {
      this.members, this.order, this.shared, this.tiers := members, order, shared, tiers;
      this.state, this.file := file.contents, file;
    }

    /** NewBinder: null where it reports problems. */
    static method Open(cfg: seq<Member>, shared: string, tiers: seq<string>, file: StateFile) returns (b: Binder?)
      ensures b != null <==> Opens(cfg, tiers, file.contents)
      ensures b != null ==> fresh(b) && b.Valid() && b.file == file && b.Now() == Opened(cfg, shared, tiers, file.contents)
    {
      hide TrimSpace, Opens, FoldAll, Ids;
      var s := file.contents;
      NoRows(tiers, s);
      var problems := 0;
      var i := 0;
      while i < |tiers|
        invariant 0 <= i <= |tiers| && problems >= 0
        invariant problems == 0 <==> forall t :: t in tiers[..i] ==> TrimSpace(t) != ""
      {
        if TrimSpace(tiers[i]) == "" {
          problems := problems + 1;
        }
        assert tiers[..i + 1] == tiers[..i] + [tiers[i]];
        i := i + 1;
      }
      assert tiers[..i] == tiers;
      var members: map<MemberId, Member> := map[];
      var order: seq<MemberId> := [];
      i := 0;
      while i < |cfg|
        invariant 0 <= i <= |cfg| && problems >= 0
        invariant problems == 0 <==> Opens(cfg[..i], tiers, s)
        invariant problems == 0 ==> members == FoldAll(cfg[..i], s) && order == Ids(cfg[..i])
      {
        var m := cfg[i];
        OneMoreRow(cfg, i, i + 1, tiers, s);
        if m.id == "" || m.id in members {
          problems := problems + 1;
        } else if m.id in s.bindings && m.telegramId != 0 && m.telegramId != s.bindings[m.id].telegramId {
          problems := problems + 1;
        } else {
          if m.id in s.bindings {
            m := m.(telegramId := s.bindings[m.id].telegramId, enrolledAt := s.bindings[m.id].enrolledAt);
          }
          members := members[m.id := m];
          order := order + [m.id];
        }
        i := i + 1;
      }
      assert cfg[..i] == cfg;
      if problems > 0 {
        return null;
      }
      OrderIsHeld(cfg, tiers, s);
      b := new Binder.Over(members, order, shared, tiers, file);
    }

    /** holderOf */
    method HolderFor(telegramId: int) returns (r: Option<MemberId>)
      requires Valid()
      ensures r == HolderOf(Now(), telegramId)
    {
      var i := 0;
      while i < |order|
        invariant 0 <= i <= |order|
        invariant HolderAmong(members, order, telegramId) == HolderAmong(members, order[i..], telegramId)
      {
        if members[order[i]].telegramId == telegramId {
          return Some(order[i]);
        }
        i := i + 1;
      }
      r := None;
    }

    /** provision */
    method ProvisionFor(id: MemberId, name: string) returns (r: Result<Member>)
      requires Valid()
      ensures r == Provision(Now(), id, name)
    {
      if TrimSpace(name) == "" {
        return Err(NoMemberName);
      }
      if |tiers| == 0 {
        return Err(NoProvisioning);
      }
      var space := id + "-private";
      if shared != "" && space == shared {
        space := space + "-own";
      }
      var i := 0;
      while i < |order|
        invariant 0 <= i <= |order|
        invariant forall other :: other in order[..i] ==> members[other].private != space
      {
        if members[order[i]].private == space {
          return Err(PrivateSpaceTaken);
        }
        assert order[..i + 1] == order[..i] + [order[i]];
        i := i + 1;
      }
      assert order[..i] == order;
      r := Ok(Member(id, TrimSpace(name), 0, space, false, tiers, 0));
    }

    method Bind(id: MemberId, name: string, telegramId: int, at: int, works: bool) returns (r: Result<Member>)
      requires Valid()
      modifies this, file
      ensures Valid() && (Now(), r) == HouseholdState.Bind(old(Now()), id, name, telegramId, at, works)
    {
      if id == "" {
        return Err(NoMemberId);
      }
      if telegramId == 0 {
        return Err(NoTelegramId);
      }
      var holder := HolderFor(telegramId);
      if holder.Some? && holder.value != id {
        return Err(TelegramIdBound);
      }
      var held := id in members;
      var member: Member;
      if !held {
        var created := ProvisionFor(id, name);
        if created.Err? {
          return created;
        }
        member := created.value;
      } else {
        member := members[id];
        if id in state.bindings && state.bindings[id].telegramId == telegramId {
          return Ok(member);
        }
      }
      var next := state;
      var stale := MemberByTelegramId(next, telegramId);
      if stale.Some? && stale.value != id {
        next := next.(bindings := next.bindings - {stale.value});
      }
      next := next.(bindings := next.bindings[id := Binding(telegramId, at)]);
      var ok := file.Save(next, works);
      if !ok {
        return Err(SaveFailed);
      }
      state := next;
      member := member.(telegramId := telegramId, enrolledAt := at);
      if !held {
        order := order + [id];
      }
      members := members[id := member];
      r := Ok(member);
    }

    method Unbind(id: MemberId, works: bool) returns (r: Result<Member>)
      requires Valid()
      modifies this, file
      ensures Valid() && (Now(), r) == HouseholdState.Unbind(old(Now()), id, works)
    {
      if id !in members {
        return Err(UnknownMember);
      }
      var before := members[id];
      if id !in state.bindings && before.telegramId == 0 {
        return Ok(before);
      }
      var next := state.(bindings := state.bindings - {id});
      var ok := file.Save(next, works);
      if !ok {
        return Err(SaveFailed);
      }
      state := next;
      members := members[id := before.(telegramId := 0, enrolledAt := 0)];
      r := Ok(before);
    }

    method SetMemberPersona(id: MemberId, p: MemberPersona, works: bool) returns (e: Option<Error>)
      requires Valid()
      modifies this, file
      ensures Valid() && (Now(), e) == SetPersona(old(Now()), id, p, works)
    {
      if id == "" {
        return Some(NoMemberId);
      }
      if id !in members {
        return Some(UnknownMember);
      }
      var next := state.(personas := state.personas[id := p]);
      var ok := file.Save(next, works);
      if !ok {
        return Some(SaveFailed);
      }
      state := next;
      e := None;
    }
  }

  lemma SeenBefore(cfg: seq<Member>, i: nat)
    requires i < |cfg|
    ensures IsMember(cfg[..i], cfg[i].id) <==> exists j :: 0 <= j < i && cfg[j].id == cfg[i].id
  {
    if j :| 0 <= j < i && cfg[j].id == cfg[i].id {
      assert cfg[..i][j].id == cfg[i].id;
    }
    if IsMember(cfg[..i], cfg[i].id) {
      var j :| 0 <= j < i && cfg[..i][j].id == cfg[i].id;
      assert cfg[j].id == cfg[i].id;
    }
  }

  lemma NoRows(tiers: seq<string>, s: State)
    ensures Opens([], tiers, s) <==> forall t :: t in tiers ==> TrimSpace(t) != ""
    ensures FoldAll([], s) == map[] && Ids([]) == []
  {
    hide TrimSpace;
  }

  /** A household opens with one more row exactly where it did without, and the row is sound and
      its id not yet taken. */
  lemma OneMoreRow(cfg: seq<Member>, i: nat, n: nat, tiers: seq<string>, s: State)
    requires n == i + 1 <= |cfg|
    ensures Opens(cfg[..n], tiers, s) <==>
              Opens(cfg[..i], tiers, s) && cfg[i].id != "" && cfg[i].id !in FoldAll(cfg[..i], s) && !Disagrees(cfg[i], s)
    ensures FoldAll(cfg[..n], s) == FoldAll(cfg[..i], s)[cfg[i].id := Folded(cfg[i], s)]
    ensures Ids(cfg[..n]) == Ids(cfg[..i]) + [cfg[i].id]
  {
    hide TrimSpace, FoldAll;
    FoldOneMore(cfg, i, n, s);
    var more, fewer := cfg[..n], cfg[..i];
    assert more[i] == cfg[i] && forall j :: 0 <= j < i ==> more[j] == fewer[j];
    if Opens(fewer, tiers, s) {
      FoldAllIs(fewer, s);
      SeenBefore(cfg, i);
    }
  }

  lemma FoldOneMore(cfg: seq<Member>, i: nat, n: nat, s: State)
    requires n == i + 1 <= |cfg|
    ensures FoldAll(cfg[..n], s) == FoldAll(cfg[..i], s)[cfg[i].id := Folded(cfg[i], s)]
  {
    assert cfg[..n][..i] == cfg[..i];
  }

  lemma OrderIsHeld(cfg: seq<Member>, tiers: seq<string>, s: State)
    requires Opens(cfg, tiers, s)
    ensures forall id :: id in Ids(cfg) ==> id in FoldAll(cfg, s)
  {
    FoldAllIs(cfg, s);
  }
}
