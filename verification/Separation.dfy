/** What a members section without faults guarantees: nobody shares anything with anybody. */
module Separation {
  import opened Optionals
  import opened Text
  import opened Configuration
  import opened Limits
  import opened Validation

  /** No two claimants, the household's bot among them, claim one thing. */
  ghost predicate ClaimsApart(c: Config, kind: Kind) {
    forall i, j, key :: Holds(c, |c.members|, i, kind, key) && Holds(c, |c.members|, j, kind, key) ==> i == j
  }

  /** Two ids with one pod name are one id. */
  ghost predicate PodsApart(c: Config) {
    forall i, j, pod :: NamesPod(c, |c.members|, i, pod) && NamesPod(c, |c.members|, j, pod) ==>
      TrimSpace(c.members[i].id) == TrimSpace(c.members[j].id)
  }

  /** What a row has to be by itself. */
  ghost predicate RowClean(c: Config, tags: set<string>, m: MemberConfig) {
    && !Blank(m.id)
    && (forall part: PersonaField :: !TooLong(m.persona, part))
    && (m.telegramId != 0 ==> m.telegramId != c.groupChatId)
    && if m.sharedOnly
       then m.tiers == [] && Blank(m.privateSpace) && Blank(m.botToken.env) && Blank(m.botToken.file)
            && Blank(m.passphrase.env) && Blank(m.passphrase.file)
       else ChainClean(m.tiers, tags) && !Blank(m.privateSpace) && TrimSpace(m.privateSpace) != TrimSpace(c.sharedSpace)
  }

  ghost predicate Separate(c: Config, tags: set<string>) {
    && (forall kind :: ClaimsApart(c, kind))
    && PodsApart(c)
    && (forall m :: m in c.members ==> RowClean(c, tags, m))
  }

  ghost predicate Faultless(c: Config, tags: set<string>) {
    forall f :: !IsFault(c, tags, f)
  }

  // ---- there is a first of whatever there is ----

  lemma {:induction false} FirstHolder(c: Config, n: nat, kind: Kind, key: Key, i: int) returns (first: int)
    requires n <= |c.members| && Holds(c, n, i, kind, key)
    ensures HoldsFirst(c, n, first, kind, key)
    decreases i + 1
  {
    hide ClaimAt;
    if j :| Holds(c, n, j, kind, key) && j < i {
      first := FirstHolder(c, n, kind, key, j);
    } else {
      first := i;
    }
  }

  lemma {:induction false} FirstNamed(c: Config, n: nat, pod: string, i: int) returns (first: int)
    requires n <= |c.members| && NamesPod(c, n, i, pod)
    ensures NamesPodFirst(c, n, first, pod)
    decreases i
  {
    hide PodName, Blank;
    if j :| NamesPod(c, n, j, pod) && j < i {
      first := FirstNamed(c, n, pod, j);
    } else {
      first := i;
    }
  }

  /** Two claimants of one thing: the later of them is a fault. */
  lemma CollisionIsFault(c: Config, tags: set<string>, kind: Kind, key: Key, i: int, j: int)
    requires i < j && Holds(c, |c.members|, i, kind, key) && Holds(c, |c.members|, j, kind, key)
    ensures exists f :: IsFault(c, tags, f)
  {
    hide ClaimOf, HouseholdClaim;
    assert Holds(c, j, i, kind, key);
    var first := FirstHolder(c, j, kind, key, i);
    assert TakenBy(c, j, kind, first);
    assert IsFault(c, tags, Taken(j, kind, first));
  }

  /** Two ids with one pod name: one of them, not always the later, is a fault. */
  lemma PodCollisionIsFault(c: Config, tags: set<string>, pod: string, i: int, j: int)
    requires NamesPod(c, |c.members|, i, pod) && NamesPod(c, |c.members|, j, pod)
    requires i < j && TrimSpace(c.members[i].id) != TrimSpace(c.members[j].id)
    ensures exists f :: IsFault(c, tags, f)
  {
    hide PodName, Blank;
    assert NamesPod(c, j, i, pod);
    var first := FirstNamed(c, j, pod, i);
    var id := TrimSpace(c.members[first].id);
    if id != TrimSpace(c.members[j].id) {
      assert PodTakenBy(c, j, id);
      assert IsFault(c, tags, SamePod(j, id));
    } else {
      assert NamesPod(c, i, first, pod);
      forall k | NamesPod(c, i, k, pod) ensures first <= k { assert NamesPod(c, j, k, pod); }
      assert PodTakenBy(c, i, id);
      assert IsFault(c, tags, SamePod(i, id));
    }
  }

  lemma RowFaultsAre(c: Config, tags: set<string>, i: nat)
    requires i < |c.members|
    ensures RowClean(c, tags, c.members[i]) <==>
            forall f: MemberFault :: f.row == i && !f.Taken? && !f.SamePod? ==> !IsFault(c, tags, f)
  {
    hide Blank, ChainClean, TooLong;
    var m := c.members[i];
    forall part ensures IsFault(c, tags, LongPersona(i, part)) <==> TooLong(m.persona, part) {
    }
    assert IsFault(c, tags, IdMissing(i)) <==> Blank(m.id);
    assert IsFault(c, tags, ChainUnread(i)) <==> m.sharedOnly && m.tiers != [];
    assert IsFault(c, tags, SpaceMissing(i)) <==> !m.sharedOnly && Blank(m.privateSpace);
    assert IsFault(c, tags, SpaceIsShared(i)) <==>
      !m.sharedOnly && !Blank(m.privateSpace) && TrimSpace(m.privateSpace) == TrimSpace(c.sharedSpace);
    assert IsFault(c, tags, TelegramIsGroup(i)) <==> m.telegramId != 0 && m.telegramId == c.groupChatId;
    assert IsFault(c, tags, BadChain(i)) <==> !m.sharedOnly && !ChainClean(m.tiers, tags);
    forall field ensures IsFault(c, tags, Leftover(i, field)) <==> m.sharedOnly && !Blank(FieldValue(m, field)) {
    }
    assert IsFault(c, tags, Leftover(i, PrivateSpaceField)) <==> m.sharedOnly && !Blank(m.privateSpace);
    assert IsFault(c, tags, Leftover(i, BotTokenEnvField)) <==> m.sharedOnly && !Blank(m.botToken.env);
    assert IsFault(c, tags, Leftover(i, BotTokenFileField)) <==> m.sharedOnly && !Blank(m.botToken.file);
    assert IsFault(c, tags, Leftover(i, PassphraseEnvField)) <==> m.sharedOnly && !Blank(m.passphrase.env);
    assert IsFault(c, tags, Leftover(i, PassphraseFileField)) <==> m.sharedOnly && !Blank(m.passphrase.file);
  }

  /** The pass reports something exactly when two rows collide, or a row is wrong by itself. */
  lemma FaultlessIsSeparate(c: Config, tags: set<string>)
    ensures Faultless(c, tags) <==> Separate(c, tags)
  {
    if Faultless(c, tags) {
      NothingSharedWithoutFault(c, tags);
    }
    if Separate(c, tags) {
      NoFaultWhereSeparate(c, tags);
    }
  }

  lemma NothingSharedWithoutFault(c: Config, tags: set<string>)
    requires Faultless(c, tags)
    ensures Separate(c, tags)
  {
    hide IsFault, Holds, NamesPod, RowClean;
    forall kind, i, j, key | Holds(c, |c.members|, i, kind, key) && Holds(c, |c.members|, j, kind, key)
      ensures i == j
    {
      if i < j { CollisionIsFault(c, tags, kind, key, i, j); }
      if j < i { CollisionIsFault(c, tags, kind, key, j, i); }
    }
    PodsApartWithoutFault(c, tags);
    forall m | m in c.members ensures RowClean(c, tags, m) {
      var i :| 0 <= i < |c.members| && c.members[i] == m;
      RowFaultsAre(c, tags, i);
    }
  }

  lemma PodsApartWithoutFault(c: Config, tags: set<string>)
    requires Faultless(c, tags)
    ensures PodsApart(c)
  {
    hide IsFault, PodName, Blank;
    forall i, j, pod | NamesPod(c, |c.members|, i, pod) && NamesPod(c, |c.members|, j, pod)
      ensures TrimSpace(c.members[i].id) == TrimSpace(c.members[j].id)
    {
      if TrimSpace(c.members[i].id) != TrimSpace(c.members[j].id) {
        if i < j { PodCollisionIsFault(c, tags, pod, i, j); } else { PodCollisionIsFault(c, tags, pod, j, i); }
      }
    }
  }

  lemma NoFaultWhereSeparate(c: Config, tags: set<string>)
    requires Separate(c, tags)
    ensures Faultless(c, tags)
  {
    forall f ensures !IsFault(c, tags, f) {
      if 0 <= f.row < |c.members| {
        if f.Taken? {
          NotTakenWhereApart(c, f.row, f.kind, f.first);
        } else if f.SamePod? {
          PodNotTakenWhereApart(c, f.row, f.other);
        } else {
          assert c.members[f.row] in c.members;
          RowFaultsAre(c, tags, f.row);
        }
      }
    }
  }

  lemma NotTakenWhereApart(c: Config, i: nat, kind: Kind, first: int)
    requires i < |c.members| && ClaimsApart(c, kind)
    ensures !TakenBy(c, i, kind, first)
  {
    hide ClaimOf, HouseholdClaim;
    forall key, j | Holds(c, i, j, kind, key) ensures Holds(c, |c.members|, j, kind, key) {
    }
    forall key | ClaimOf(c, c.members[i], kind) == Some(key) ensures Holds(c, |c.members|, i, kind, key) {
    }
  }

  lemma PodNotTakenWhereApart(c: Config, i: nat, other: string)
    requires i < |c.members| && PodsApart(c)
    ensures !PodTakenBy(c, i, other)
  {
    hide PodName, Blank;
    var pod := PodName(TrimSpace(c.members[i].id));
    assert !Blank(c.members[i].id) ==> NamesPod(c, |c.members|, i, pod);
    forall j | NamesPodFirst(c, i, j, pod) ensures NamesPod(c, |c.members|, j, pod) {
    }
  }

  // ---- the same, in the file's own words ----

  predicate ApartOrBlank(a: string, b: string) {
    Blank(a) || Blank(b) || TrimSpace(a) != TrimSpace(b)
  }

  lemma ClaimsApartPairwise(c: Config, kind: Kind)
    ensures ClaimsApart(c, kind) <==>
            forall i, j :: HOUSEHOLD <= i < j < |c.members| ==> ClaimAt(c, i, kind) == None || ClaimAt(c, i, kind) != ClaimAt(c, j, kind)
  {
    hide ClaimAt;
    if ClaimsApart(c, kind) {
      forall i, j | HOUSEHOLD <= i < j < |c.members| && ClaimAt(c, i, kind).Some?
        ensures ClaimAt(c, i, kind) != ClaimAt(c, j, kind)
      {
        var key := ClaimAt(c, i, kind).value;
        assert Holds(c, |c.members|, i, kind, key);
        assert ClaimAt(c, j, kind) == Some(key) ==> Holds(c, |c.members|, j, kind, key);
      }
    }
  }

  /** What two rows must not have in common: ids and accounts never, spaces where both have one
      of their own, and the names of their bots' secrets where each runs its own bot. */
  predicate MembersApart(c: Config, kind: Kind, a: MemberConfig, b: MemberConfig) {
    match kind
    case Id => ApartOrBlank(a.id, b.id)
    case Telegram => a.telegramId == 0 || a.telegramId != b.telegramId
    case _ =>
      || a.sharedOnly || b.sharedOnly
      || match kind
         case Space => ApartOrBlank(a.privateSpace, b.privateSpace)
         case TokenEnv => !c.mode.Isolated? || ApartOrBlank(a.botToken.env, b.botToken.env)
         case TokenFile => !c.mode.Isolated? || ApartOrBlank(a.botToken.file, b.botToken.file)
         case PassphraseEnv => !c.mode.Isolated? || ApartOrBlank(a.passphrase.env, b.passphrase.env)
         case _ => !c.mode.Isolated? || ApartOrBlank(a.passphrase.file, b.passphrase.file)
  }

  /** And what no row must have in common with the household's own bot. */
  predicate ApartFromHousehold(c: Config, kind: Kind, m: MemberConfig) {
    c.mode.Isolated? && !m.sharedOnly ==>
      && (kind == TokenEnv ==> ApartOrBlank(c.botToken.env, m.botToken.env))
      && (kind == TokenFile ==> ApartOrBlank(c.botToken.file, m.botToken.file))
  }

  /** The claims of a kind are apart exactly where the rows are, two by two and from the household. */
  lemma ClaimsAre(c: Config, kind: Kind)
    ensures ClaimsApart(c, kind) <==>
            && (forall i, j :: 0 <= i < j < |c.members| ==> MembersApart(c, kind, c.members[i], c.members[j]))
            && (forall j :: 0 <= j < |c.members| ==> ApartFromHousehold(c, kind, c.members[j]))
  {
    hide TrimSpace, MembersApart, ApartFromHousehold, ClaimOf, HouseholdClaim, ClaimsApart;
    ClaimsApartPairwise(c, kind);
    forall i, j | 0 <= i < j < |c.members|
      ensures MembersApart(c, kind, c.members[i], c.members[j]) <==>
              ClaimAt(c, i, kind) == None || ClaimAt(c, i, kind) != ClaimAt(c, j, kind)
    {
      MembersApartIs(c, kind, c.members[i], c.members[j]);
    }
    forall j | 0 <= j < |c.members|
      ensures ApartFromHousehold(c, kind, c.members[j]) <==>
              ClaimAt(c, HOUSEHOLD, kind) == None || ClaimAt(c, HOUSEHOLD, kind) != ClaimAt(c, j, kind)
    {
      ApartFromHouseholdIs(c, kind, c.members[j]);
    }
  }

  lemma MembersApartIs(c: Config, kind: Kind, a: MemberConfig, b: MemberConfig)
    ensures MembersApart(c, kind, a, b) <==> ClaimOf(c, a, kind) == None || ClaimOf(c, a, kind) != ClaimOf(c, b, kind)
  {
    hide TrimSpace;
  }

  lemma ApartFromHouseholdIs(c: Config, kind: Kind, m: MemberConfig)
    ensures ApartFromHousehold(c, kind, m) <==> HouseholdClaim(c, kind) == None || HouseholdClaim(c, kind) != ClaimOf(c, m, kind)
  {
    hide TrimSpace;
  }

  // ---- what a pod is called ----

  lemma {:induction false} PodNameAdds(a: string, b: string)
    ensures PodName(a + b) == PodName(a) + PodName(b)
  {
    hide PodName, Sanitised;
    PodNameStep(a);
    if a == "" {
      assert a + b == b;
    } else {
      PodNameAdds(a[1..], b);
      PodNameStep(a + b);
      assert (a + b)[0] == a[0] && (a + b)[1..] == a[1..] + b;
      Assoc(Sanitised(a[0]), PodName(a[1..]), PodName(b));
    }
  }

  lemma Assoc(x: string, y: string, z: string)
    ensures x + (y + z) == x + y + z
  {
  }

  lemma PodNameStep(id: string)
    ensures PodName(id) == if id == "" then "" else Sanitised(id[0]) + PodName(id[1..])
  {
  }

  /** A pod's name is in the pod alphabet throughout, and an id that is already is its own; any
      other character is a hyphen for each of its bytes. */
  lemma {:induction false} PodNameIs(id: string)
    ensures forall i :: 0 <= i < |PodName(id)| ==> InPodAlphabet(PodName(id)[i])
    ensures (forall i :: 0 <= i < |id| ==> InPodAlphabet(id[i])) ==> PodName(id) == id
    ensures |id| == 1 && !InPodAlphabet(id[0]) ==> PodName(id) == seq(Utf8Length(id[0]), i => '-')
  {
    if id != "" {
      PodNameIs(id[1..]);
      assert forall i :: 1 <= i < |id| ==> id[i] == id[1..][i - 1];
    }
  }

  // ---- what follows ----

  /** Nobody where the account is unknown, unclaimed, or two people's. */
  method MemberByTelegramID(c: Config, id: int) returns (r: Option<nat>)
    ensures r.Some? ==> r.value < |c.members| && id != 0 && c.members[r.value].telegramId == id
    ensures r.Some? ==> forall j :: 0 <= j < |c.members| && c.members[j].telegramId == id ==> j == r.value
    ensures r.None? && id != 0 ==>
              forall j :: 0 <= j < |c.members| && c.members[j].telegramId == id ==>
                exists k :: 0 <= k < |c.members| && k != j && c.members[k].telegramId == id
  {
    if id == 0 {
      return None;
    }
    var found := -1;
    for i := 0 to |c.members|
      invariant -1 <= found < i
      invariant found >= 0 ==> c.members[found].telegramId == id
      invariant forall j :: 0 <= j < i && c.members[j].telegramId == id ==> j == found
    {
      if c.members[i].telegramId != id {
        continue;
      }
      if found >= 0 {
        assert c.members[found].telegramId == c.members[i].telegramId == id && found != i;
        return None;
      }
      found := i;
    }
    if found < 0 {
      return None;
    }
    r := Some(found);
  }

  /** In a file without faults the lookup is the bindings the other way round. */
  lemma LookupInvertsBindings(c: Config, tags: set<string>, i: nat)
    requires Faultless(c, tags) && i < |c.members| && c.members[i].telegramId != 0
    ensures forall j :: 0 <= j < |c.members| && c.members[j].telegramId == c.members[i].telegramId ==> j == i
    ensures c.members[i].telegramId != c.groupChatId
  {
    FaultlessIsSeparate(c, tags);
    assert ClaimsApart(c, Telegram);
    var key := Number(c.members[i].telegramId);
    assert Holds(c, |c.members|, i, Telegram, key);
    forall j | 0 <= j < |c.members| && c.members[j].telegramId == c.members[i].telegramId ensures j == i {
      assert Holds(c, |c.members|, j, Telegram, key);
    }
    assert RowClean(c, tags, c.members[i]);
  }

  method FindSender(c: Config, tags: set<string>, i: nat) returns (r: Option<nat>)
    requires Faultless(c, tags) && i < |c.members| && c.members[i].telegramId != 0
    ensures r == Some(i)
  {
    LookupInvertsBindings(c, tags, i);
    r := MemberByTelegramID(c, c.members[i].telegramId);
  }

  // ---- one reminders file for each conversation ----

  /** A conversation: a member's own, the household agent's with one member, or the group's. */
  datatype Unit = OwnUnit(member: string) | HouseholdUnit(member: string) | GroupUnit

  function RemindersPath(member: string, group: bool): string {
    if !group then "reminders-member-" + PodName(member) + ".json"
    else if member != "" then "reminders-household-" + PodName(member) + ".json"
    else "reminders-group.json"
  }

  function UnitPath(u: Unit): string {
    match u
    case OwnUnit(member) => RemindersPath(member, false)
    case HouseholdUnit(member) => RemindersPath(member, true)
    case GroupUnit => RemindersPath("", true)
  }

  function OwnPath(pod: string): string { "reminders-member-" + pod + ".json" }

  function HouseholdPath(pod: string): string { "reminders-household-" + pod + ".json" }

  lemma PathsTellPodsApart(a: string, b: string)
    ensures OwnPath(a) == OwnPath(b) ==> a == b
    ensures HouseholdPath(a) == HouseholdPath(b) ==> a == b
    ensures OwnPath(a) != HouseholdPath(b) && OwnPath(a) != "reminders-group.json" && HouseholdPath(a) != "reminders-group.json"
  {
    assert OwnPath(a)[10] == 'm' && HouseholdPath(b)[10] == 'h' && HouseholdPath(a)[10] == 'h';
    assert OwnPath(a)[17..17 + |a|] == a && OwnPath(b)[17..17 + |b|] == b;
    assert HouseholdPath(a)[20..20 + |a|] == a && HouseholdPath(b)[20..20 + |b|] == b;
    assert |OwnPath(a)| == 22 + |a| && |OwnPath(b)| == 22 + |b|;
    assert |HouseholdPath(a)| == 25 + |a| && |HouseholdPath(b)| == 25 + |b|;
  }

  predicate UnitOf(c: Config, u: Unit) {
    u.GroupUnit? || exists m :: m in c.members && m.id == u.member
  }

  /** Conversations are told apart on disk exactly as far as the raw ids' pod names are. */
  lemma PathsAre(a: Unit, b: Unit)
    requires !a.GroupUnit? ==> a.member != ""
    requires !b.GroupUnit? ==> b.member != ""
    ensures UnitPath(a) == UnitPath(b) <==>
              (a.OwnUnit? && b.OwnUnit? && PodName(a.member) == PodName(b.member)) ||
              (a.HouseholdUnit? && b.HouseholdUnit? && PodName(a.member) == PodName(b.member)) ||
              (a.GroupUnit? && b.GroupUnit?)
  {
    if !a.GroupUnit? && !b.GroupUnit? {
      PathsTellPodsApart(PodName(a.member), PodName(b.member));
      PathsTellPodsApart(PodName(b.member), PodName(a.member));
    } else if !a.GroupUnit? {
      PathsTellPodsApart(PodName(a.member), PodName(a.member));
    } else if !b.GroupUnit? {
      PathsTellPodsApart(PodName(b.member), PodName(b.member));
    }
  }

  predicate Untrimmed(s: string) { TrimSpace(s) != s }

  /** Two conversations of a file without faults share a reminders file only where an id has
      white space around it, because it is the trimmed ids that were checked. */
  lemma RemindersPathsAreApart(c: Config, tags: set<string>, a: Unit, b: Unit)
    requires Faultless(c, tags) && UnitOf(c, a) && UnitOf(c, b) && a != b
    requires UnitPath(a) == UnitPath(b)
    ensures !a.GroupUnit? && !b.GroupUnit? && (Untrimmed(a.member) || Untrimmed(b.member))
  {
    FaultlessIsSeparate(c, tags);
    forall m | m in c.members ensures m.id != "" { assert RowClean(c, tags, m); }
    PathsAre(a, b);
    if !a.GroupUnit? && !b.GroupUnit? && !Untrimmed(a.member) && !Untrimmed(b.member) {
      var i :| 0 <= i < |c.members| && c.members[i].id == a.member;
      var j :| 0 <= j < |c.members| && c.members[j].id == b.member;
      assert c.members[i] in c.members && c.members[j] in c.members;
      var pod := PodName(a.member);
      assert NamesPod(c, |c.members|, i, pod) && NamesPod(c, |c.members|, j, pod);
    }
  }

  function SharedOnly(id: string): MemberConfig {
    MemberConfig(id, "", 0, true, [], Source("", ""), Source("", ""), PersonaConfig("", "", "", ""))
  }

  function SpacedHousehold(): Config {
    Config(Simple, "home", 0, [], Source("", ""), Source("", ""), Source("", ""),
           [SharedOnly(" a"), SharedOnly("-a")], [])
  }

  lemma SpacedIdsTrimmed()
    ensures TrimSpace(" a") == "a" && TrimSpace("-a") == "-a" && Blank("")
  {
    assert " a"[1..] == "a" && TrimLeft("a") == "a" && TrimLeft(" a") == "a";
    assert TrimLeft("-a") == "-a";
    assert TrimRight("a") == "a" && TrimRight("-a") == "-a";
  }

  lemma SpacedIdsClaimApart(kind: Kind)
    ensures ClaimsApart(SpacedHousehold(), kind)
  {
    hide ClaimAt, TrimSpace;
    var c := SpacedHousehold();
    assert "a"[0] != "-a"[0];
    forall i, j, key | Holds(c, |c.members|, i, kind, key) && Holds(c, |c.members|, j, kind, key)
      ensures i == j
    {
      OnlyIdsClaimed(c, i, kind);
      OnlyIdsClaimed(c, j, kind);
    }
  }

  lemma SpacedIdsPods()
    ensures PodName(" a") == PodName("-a") == "-a" && PodName("a") == "a" && PodsApart(SpacedHousehold())
  {
    hide TrimSpace;
    SpacedIdsTrimmed();
    PodNameIs("a");
    PodNameIs("-a");
    PodNameIs(" ");
    PodNameAdds(" ", "a");
    assert " " + "a" == " a" && "a"[0] != "-a"[0];
  }

  lemma SpacedRowsClean()
    ensures forall m :: m in SpacedHousehold().members ==> RowClean(SpacedHousehold(), {}, m)
  {
    hide TrimSpace;
    SpacedIdsTrimmed();
  }

  /** And there they can: a leading space is a hyphen in the file's name and nothing in the check. */
  lemma SpacedIdsShareAFile()
    ensures var c := SpacedHousehold();
            && Faultless(c, {})
            && UnitOf(c, OwnUnit(" a")) && UnitOf(c, OwnUnit("-a"))
            && UnitPath(OwnUnit(" a")) == UnitPath(OwnUnit("-a"))
  {
    hide PodsApart, ClaimsApart, PodName, RowClean, Faultless;
    var c := SpacedHousehold();
    assert c.members[0] in c.members && c.members[1] in c.members;
    forall kind ensures ClaimsApart(c, kind) { SpacedIdsClaimApart(kind); }
    SpacedIdsPods();
    SpacedRowsClean();
    FaultlessIsSeparate(c, {});
  }

  lemma OnlyIdsClaimed(c: Config, i: int, kind: Kind)
    requires c == SpacedHousehold() && HOUSEHOLD <= i < 2
    ensures ClaimAt(c, i, kind) ==
            if kind != Id || i == HOUSEHOLD then None else if i == 0 then Some(Word("a")) else Some(Word("-a"))
  {
    SpacedIdsTrimmed();
  }
}
