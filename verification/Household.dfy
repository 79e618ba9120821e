/** The household as the enrolment binder holds it, as a value: what a claim, a revocation
    and a persona answer do to it, when the save they depend on works and when it does not. */
module HouseholdState {
  import opened Optionals
  import opened Text

  type MemberId = string

  /** Times are instants counted from Go's zero time, which is 0. */
  datatype Binding = Binding(telegramId: int, enrolledAt: int)

  datatype Persona = Persona(agentName: string, language: string, tone: string, character: string)

  datatype MemberPersona = MemberPersona(persona: Persona, tutorialChat: int, tutorialQuestion: int, explained: bool)

  /** The state file. */
  datatype State = State(bindings: map<MemberId, Binding>, personas: map<MemberId, MemberPersona>)

  datatype Member = Member(
    id: MemberId, name: string, telegramId: int, private: string, sharedOnly: bool,
    tiers: seq<string>, enrolledAt: int)

  /** `state` is the copy in memory, `disk` the file it was written to. */
  datatype Household = Household(
    members: map<MemberId, Member>, order: seq<MemberId>, shared: string, tiers: seq<string>,
    state: State, disk: State)

  datatype Error =
    | NoMemberId | NoTelegramId | TelegramIdBound | NoMemberName | NoProvisioning
    | PrivateSpaceTaken | SaveFailed | UnknownMember

  datatype Result<+T> = Ok(value: T) | Err(error: Error)

  // ---- the order member ids are scanned in ----

  predicate LexLeq(a: string, b: string) {
    a == "" || (b != "" && (a[0] < b[0] || (a[0] == b[0] && LexLeq(a[1..], b[1..]))))
  }

  lemma {:induction false} LexTotal(a: string, b: string)
    ensures LexLeq(a, b) || LexLeq(b, a)
    ensures LexLeq(a, b) && LexLeq(b, a) ==> a == b
  {
    if a != "" && b != "" && a[0] == b[0] {
      LexTotal(a[1..], b[1..]);
      assert a == [a[0]] + a[1..] && b == [b[0]] + b[1..];
    }
  }

  lemma {:induction false} LexTransitive(a: string, b: string, c: string)
    requires LexLeq(a, b) && LexLeq(b, c)
    ensures LexLeq(a, c)
  {
    if a != "" && a[0] == b[0] == c[0] {
      LexTransitive(a[1..], b[1..], c[1..]);
    }
  }

  /** The first row, in id order, that records this account. */
  ghost predicate IsFirstRow(bindings: map<MemberId, Binding>, telegramId: int, id: MemberId) {
    && id in bindings && bindings[id].telegramId == telegramId
    && forall other :: other in bindings && bindings[other].telegramId == telegramId ==> LexLeq(id, other)
  }

  /** State.MemberByTelegramID. Zero is nobody's account. */
  ghost function RowFor(s: State, telegramId: int): (r: Option<MemberId>)
    ensures r.Some? ==> IsFirstRow(s.bindings, telegramId, r.value)
  {
    if telegramId != 0 && exists id :: IsFirstRow(s.bindings, telegramId, id) then
      var id :| IsFirstRow(s.bindings, telegramId, id); Some(id)
    else None
  }

  // ---- the binder's own lookups ----

  /** The member, in order, that holds this account. */
  function HolderOf(h: Household, telegramId: int): Option<MemberId> {
    HolderAmong(h.members, h.order, telegramId)
  }

  function HolderAmong(members: map<MemberId, Member>, order: seq<MemberId>, telegramId: int): Option<MemberId> {
    if order == [] then None
    else if order[0] in members && members[order[0]].telegramId == telegramId then Some(order[0])
    else HolderAmong(members, order[1..], telegramId)
  }

  predicate SpaceTaken(h: Household, space: string) {
    exists id :: id in h.order && id in h.members && h.members[id].private == space
  }

  function OwnSpace(h: Household, id: MemberId): string {
    var space := id + "-private";
    if h.shared != "" && space == h.shared then space + "-own" else space
  }

  /** The member a claim would create. */
  function Provision(h: Household, id: MemberId, name: string): Result<Member> {
    if TrimSpace(name) == "" then Err(NoMemberName)
    else if h.tiers == [] then Err(NoProvisioning)
    else if SpaceTaken(h, OwnSpace(h, id)) then Err(PrivateSpaceTaken)
    else Ok(Member(id, TrimSpace(name), 0, OwnSpace(h, id), false, h.tiers, 0))
  }

  predicate Recorded(h: Household, id: MemberId, telegramId: int) {
    id in h.state.bindings && h.state.bindings[id].telegramId == telegramId
  }

  // ---- the three writes ----

  /** The state a successful Bind saves: any stale row for the account is dropped. */
  ghost function Rebound(s: State, id: MemberId, telegramId: int, at: int): State {
    var stale := RowFor(s, telegramId);
    var kept := if stale.Some? && stale.value != id then s.bindings - {stale.value} else s.bindings;
    s.(bindings := kept[id := Binding(telegramId, at)])
  }

  /** `works` is whether the file system takes the save. */
  ghost function Bind(h: Household, id: MemberId, name: string, telegramId: int, at: int, works: bool):
    (Household, Result<Member>)
  {
    if id == "" then (h, Err(NoMemberId))
    else if telegramId == 0 then (h, Err(NoTelegramId))
    else if HolderOf(h, telegramId).Some? && HolderOf(h, telegramId).value != id then (h, Err(TelegramIdBound))
    else
      var found := if id in h.members then Ok(h.members[id]) else Provision(h, id, name);
      if found.Err? then (h, found)
      else if id in h.members && Recorded(h, id, telegramId) then (h, found)
      else if !works then (h, Err(SaveFailed))
      else
        var next := Rebound(h.state, id, telegramId, at);
        var member := found.value.(telegramId := telegramId, enrolledAt := at);
        (h.(state := next, disk := next,
            order := if id in h.members then h.order else h.order + [id],
            members := h.members[id := member]), Ok(member))
  }

  function Unbind(h: Household, id: MemberId, works: bool): (Household, Result<Member>) {
    if id !in h.members then (h, Err(UnknownMember))
    else
      var before := h.members[id];
      if id !in h.state.bindings && before.telegramId == 0 then (h, Ok(before))
      else if !works then (h, Err(SaveFailed))
      else
        var next := h.state.(bindings := h.state.bindings - {id});
        (h.(state := next, disk := next,
            members := h.members[id := before.(telegramId := 0, enrolledAt := 0)]), Ok(before))
  }

  function SetPersona(h: Household, id: MemberId, p: MemberPersona, works: bool): (Household, Option<Error>) {
    if id == "" then (h, Some(NoMemberId))
    else if id !in h.members then (h, Some(UnknownMember))
    else if !works then (h, Some(SaveFailed))
    else
      var next := h.state.(personas := h.state.personas[id := p]);
      (h.(state := next, disk := next), None)
  }

  // ---- opening a binder over a configuration and a file ----

  /** The member as configured, with what the file records of them folded in. */
  function Folded(m: Member, s: State): Member {
    if m.id in s.bindings then
      m.(telegramId := if m.telegramId == 0 then s.bindings[m.id].telegramId else m.telegramId,
         enrolledAt := s.bindings[m.id].enrolledAt)
    else m
  }

  /** The configuration and the file name different accounts for one member. */
  predicate Disagrees(m: Member, s: State) {
    m.id in s.bindings && m.telegramId != 0 && m.telegramId != s.bindings[m.id].telegramId
  }

  predicate Opens(cfg: seq<Member>, tiers: seq<string>, s: State) {
    && (forall t :: t in tiers ==> TrimSpace(t) != "")
    && (forall i :: 0 <= i < |cfg| ==> cfg[i].id != "" && !Disagrees(cfg[i], s))
    && (forall i, j :: 0 <= i < j < |cfg| ==> cfg[i].id != cfg[j].id)
  }

  function FoldAll(cfg: seq<Member>, s: State): map<MemberId, Member> {
    if cfg == [] then map[]
    else FoldAll(cfg[..|cfg| - 1], s)[cfg[|cfg| - 1].id := Folded(cfg[|cfg| - 1], s)]
  }

  function Ids(cfg: seq<Member>): seq<MemberId> {
    seq(|cfg|, i requires 0 <= i < |cfg| => cfg[i].id)
  }

  function Opened(cfg: seq<Member>, shared: string, tiers: seq<string>, file: State): Household {
    Household(FoldAll(cfg, file), Ids(cfg), shared, tiers, file, file)
  }
}
