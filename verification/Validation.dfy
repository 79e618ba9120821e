/** The members section of a configuration: what makes a row a fault, and the one pass over
    the rows that finds every one of them. */
module Validation {
  import opened Optionals
  import opened Text
  import opened Configuration
  import opened Limits

  // ---- what a row claims for itself ----

  datatype Kind = Id | Space | Telegram | TokenEnv | TokenFile | PassphraseEnv | PassphraseFile
  datatype Key = Word(word: string) | Number(number: int)
  datatype Claim = Claim(kind: Kind, key: Key)

  /** Claims are made in trimmed form, because that is the form emptiness is judged in. */
  function Stated(s: string): Option<Key> {
    if Blank(s) then None else Some(Word(TrimSpace(s)))
  }

  function ClaimOf(c: Config, m: MemberConfig, kind: Kind): Option<Key> {
    match kind
    case Id => Stated(m.id)
    case Space => if m.sharedOnly then None else Stated(m.privateSpace)
    case Telegram => if m.telegramId == 0 then None else Some(Number(m.telegramId))
    case TokenEnv => if c.mode.Isolated? && !m.sharedOnly then Stated(m.botToken.env) else None
    case TokenFile => if c.mode.Isolated? && !m.sharedOnly then Stated(m.botToken.file) else None
    case PassphraseEnv => if c.mode.Isolated? && !m.sharedOnly then Stated(m.passphrase.env) else None
    case PassphraseFile => if c.mode.Isolated? && !m.sharedOnly then Stated(m.passphrase.file) else None
  }

  /** The household's own bot is a claimant too, where bots must not be shared. */
  const HOUSEHOLD: int := -1

  function HouseholdClaim(c: Config, kind: Kind): Option<Key> {
    if c.mode.Isolated? && kind == TokenEnv then Stated(c.botToken.env)
    else if c.mode.Isolated? && kind == TokenFile then Stated(c.botToken.file)
    else None
  }

  function ClaimAt(c: Config, i: int, kind: Kind): Option<Key>
    requires HOUSEHOLD <= i < |c.members|
  {
    if i == HOUSEHOLD then HouseholdClaim(c, kind) else ClaimOf(c, c.members[i], kind)
  }

  /** Whether claimant `i` is one of those before row `n` and claims this. */
  predicate Holds(c: Config, n: nat, i: int, kind: Kind, key: Key)
    requires n <= |c.members|
  {
    HOUSEHOLD <= i < n && ClaimAt(c, i, kind) == Some(key)
  }

  ghost predicate HoldsFirst(c: Config, n: nat, i: int, kind: Kind, key: Key)
    requires n <= |c.members|
  {
    Holds(c, n, i, kind, key) && forall j :: Holds(c, n, j, kind, key) ==> i <= j
  }

  // ---- what a pod is called ----

  predicate InPodAlphabet(ch: char) {
    'a' <= ch <= 'z' || 'A' <= ch <= 'Z' || '0' <= ch <= '9' || ch == '_' || ch == '-'
  }

  function Sanitised(ch: char): (s: string)
    ensures s != ""
  {
    if InPodAlphabet(ch) then [ch] else seq(Utf8Length(ch), i => '-')
  }

  /** Ids are sanitised byte by byte, so a character outside the alphabet is as many hyphens as
      it has bytes. */
  function PodName(id: string): (pod: string)
    ensures |pod| >= |id|
  {
    if id == "" then ""
    else Sanitised(id[0]) + PodName(id[1..])
  }

  /** Whether the id at row `i`, before row `n`, makes this pod name. */
  predicate NamesPod(c: Config, n: nat, i: int, pod: string)
    requires n <= |c.members|
  {
    0 <= i < n && !Blank(c.members[i].id) && PodName(TrimSpace(c.members[i].id)) == pod
  }

  ghost predicate NamesPodFirst(c: Config, n: nat, i: int, pod: string)
    requires n <= |c.members|
  {
    NamesPod(c, n, i, pod) && forall j :: NamesPod(c, n, j, pod) ==> i <= j
  }

  // ---- the faults ----

  datatype Field = PrivateSpaceField | BotTokenEnvField | BotTokenFileField | PassphraseEnvField | PassphraseFileField

  function FieldValue(m: MemberConfig, field: Field): string {
    match field
    case PrivateSpaceField => m.privateSpace
    case BotTokenEnvField => m.botToken.env
    case BotTokenFileField => m.botToken.file
    case PassphraseEnvField => m.passphrase.env
    case PassphraseFileField => m.passphrase.file
  }

  const FIELDS := [PrivateSpaceField, BotTokenEnvField, BotTokenFileField, PassphraseEnvField, PassphraseFileField]

  datatype PersonaField = AgentName | Language | Tone | Character

  const PERSONA_FIELDS := [AgentName, Language, Tone, Character]
  const MAX_PERSONA_LINE: nat := 80
  const MAX_PERSONA_CHARACTER: nat := 1000

  /** Persona text rides in every prompt and is never trimmed, so its length is bounded. */
  predicate TooLong(p: PersonaConfig, field: PersonaField) {
    match field
    case AgentName => |p.agentName| > MAX_PERSONA_LINE
    case Language => |p.language| > MAX_PERSONA_LINE
    case Tone => |p.tone| > MAX_PERSONA_LINE
    case Character => |p.character| > MAX_PERSONA_CHARACTER
  }

  datatype MemberFault =
    | IdMissing(row: int)
    | Taken(row: int, kind: Kind, first: int)
    | SamePod(row: int, other: string)
    | LongPersona(row: int, part: PersonaField)
    | Leftover(row: int, field: Field)
    | ChainUnread(row: int)
    | SpaceMissing(row: int)
    | SpaceIsShared(row: int)
    | TelegramIsGroup(row: int)
    | BadChain(row: int)

  ghost predicate TakenBy(c: Config, i: nat, kind: Kind, first: int)
    requires i < |c.members|
  {
    exists key :: ClaimOf(c, c.members[i], kind) == Some(key) && HoldsFirst(c, i, first, kind, key)
  }

  /** An earlier id, not this one, makes this one's pod name. */
  ghost predicate PodTakenBy(c: Config, i: nat, other: string)
    requires i < |c.members|
  {
    && !Blank(c.members[i].id) && TrimSpace(c.members[i].id) != other
    && exists j :: NamesPodFirst(c, i, j, PodName(TrimSpace(c.members[i].id))) && TrimSpace(c.members[j].id) == other
  }

  /** What each fault says of the file, judged row against row. */
  ghost predicate IsFault(c: Config, tags: set<string>, f: MemberFault) {
    && 0 <= f.row < |c.members|
    && var m := c.members[f.row];
       match f
       case IdMissing(_) => Blank(m.id)
       case Taken(_, kind, first) => TakenBy(c, f.row, kind, first)
       case SamePod(_, other) => PodTakenBy(c, f.row, other)
       case LongPersona(_, part) => TooLong(m.persona, part)
       case Leftover(_, field) => m.sharedOnly && !Blank(FieldValue(m, field))
       case ChainUnread(_) => m.sharedOnly && m.tiers != []
       case SpaceMissing(_) => !m.sharedOnly && Blank(m.privateSpace)
       case SpaceIsShared(_) =>
         !m.sharedOnly && !Blank(m.privateSpace) && TrimSpace(m.privateSpace) == TrimSpace(c.sharedSpace)
       case TelegramIsGroup(_) => m.telegramId != 0 && m.telegramId == c.groupChatId
       case BadChain(_) => !m.sharedOnly && !ChainClean(m.tiers, tags)
  }

  // ---- the pass that finds them ----

  /** Each thing claimed before row `n` is on record under its first claimant. */
  ghost predicate OnRecord(c: Config, n: nat, seen: map<Claim, int>, kind: Kind)
    requires n <= |c.members|
  {
    && (forall i, key :: Holds(c, n, i, kind, key) ==> Claim(kind, key) in seen)
    && (forall key :: Claim(kind, key) in seen ==> HoldsFirst(c, n, seen[Claim(kind, key)], kind, key))
  }

  ghost predicate Agree(was: map<Claim, int>, seen: map<Claim, int>, kind: Kind) {
    forall key :: (Claim(kind, key) in seen <==> Claim(kind, key) in was) &&
                  (Claim(kind, key) in was ==> seen[Claim(kind, key)] == was[Claim(kind, key)])
  }

  ghost predicate OthersKept(was: map<Claim, int>, seen: map<Claim, int>, kind: Kind) {
    forall other :: other != kind ==> Agree(was, seen, other)
  }

  /** A record made for one kind of claim leaves those of the other kinds as they were. */
  lemma StaysOnRecord(c: Config, n: nat, was: map<Claim, int>, seen: map<Claim, int>, kind: Kind)
    requires n <= |c.members| && OnRecord(c, n, was, kind) && Agree(was, seen, kind)
    ensures OnRecord(c, n, seen, kind)
  {
  }

  method CheckClaim(c: Config, i: nat, kind: Kind, was: map<Claim, int>)
    returns (seen: map<Claim, int>, faults: seq<MemberFault>)
    requires i < |c.members| && OnRecord(c, i, was, kind)
    ensures OnRecord(c, i + 1, seen, kind) && OthersKept(was, seen, kind)
    ensures forall f :: f in faults <==> f.Taken? && f.row == i && f.kind == kind && TakenBy(c, i, kind, f.first)
  {
    hide ClaimOf, HouseholdClaim;
    OneMoreRow(c, i, i + 1, kind);
    seen, faults := was, [];
    var value := ClaimOf(c, c.members[i], kind);
    if value.Some? {
      var claim := Claim(kind, value.value);
      if claim in seen {
        faults := [Taken(i, kind, seen[claim])];
      } else {
        seen := seen[claim := i];
      }
    }
    forall key | Claim(kind, key) in seen ensures HoldsFirst(c, i + 1, seen[Claim(kind, key)], kind, key) {
      if Claim(kind, key) in was {
        assert HoldsFirst(c, i, was[Claim(kind, key)], kind, key);
      }
    }
  }

  lemma OneMoreRow(c: Config, i: nat, n: nat, kind: Kind)
    requires n == i + 1 <= |c.members|
    ensures forall j, key :: Holds(c, n, j, kind, key) <==>
              Holds(c, i, j, kind, key) || (j == i && ClaimOf(c, c.members[i], kind) == Some(key))
  {
    hide ClaimOf, HouseholdClaim;
  }

  ghost predicate PodsOnRecord(c: Config, n: nat, sanitized: map<string, string>)
    requires n <= |c.members|
  {
    && (forall i, pod :: NamesPod(c, n, i, pod) ==> pod in sanitized)
    && (forall pod :: pod in sanitized ==>
          exists j :: NamesPodFirst(c, n, j, pod) && TrimSpace(c.members[j].id) == sanitized[pod])
  }

  lemma OneMorePod(c: Config, i: nat, n: nat)
    requires n == i + 1 <= |c.members|
    ensures forall j, pod :: NamesPod(c, n, j, pod) <==>
              NamesPod(c, i, j, pod) ||
              (j == i && !Blank(c.members[i].id) && PodName(TrimSpace(c.members[i].id)) == pod)
  {
    hide PodName;
  }

  lemma FirstIsOne(c: Config, n: nat, pod: string, i: int, j: int)
    requires n <= |c.members| && NamesPodFirst(c, n, i, pod) && NamesPodFirst(c, n, j, pod)
    ensures i == j
  {
  }

  lemma PodsKept(c: Config, i: nat, n: nat, sanitized: map<string, string>, pod: string)
    requires n == i + 1 <= |c.members| && PodsOnRecord(c, i, sanitized) && pod in sanitized
    ensures exists j :: NamesPodFirst(c, n, j, pod) && TrimSpace(c.members[j].id) == sanitized[pod]
  {
    hide PodName, Blank;
    OneMorePod(c, i, n);
    var j :| NamesPodFirst(c, i, j, pod) && TrimSpace(c.members[j].id) == sanitized[pod];
    assert NamesPodFirst(c, n, j, pod);
  }

  /** The record once row `i` is in it. */
  function PodsWith(c: Config, i: nat, was: map<string, string>): map<string, string>
    requires i < |c.members|
  {
    var id := TrimSpace(c.members[i].id);
    if Blank(c.members[i].id) || PodName(id) in was then was else was[PodName(id) := id]
  }

  lemma PodsAfter(c: Config, i: nat, n: nat, was: map<string, string>)
    requires n == i + 1 <= |c.members| && PodsOnRecord(c, i, was)
    ensures PodsOnRecord(c, n, PodsWith(c, i, was))
  {
    hide PodName, Blank;
    OneMorePod(c, i, n);
    var id := TrimSpace(c.members[i].id);
    var key, sanitized := PodName(id), PodsWith(c, i, was);
    forall pod | pod in sanitized
      ensures exists j :: NamesPodFirst(c, n, j, pod) && TrimSpace(c.members[j].id) == sanitized[pod]
    {
      if pod in was {
        PodsKept(c, i, n, was, pod);
      } else {
        assert NamesPodFirst(c, n, i, pod);
      }
    }
  }

  lemma PodTakenIs(c: Config, i: nat, was: map<string, string>)
    requires i < |c.members| && PodsOnRecord(c, i, was)
    ensures var id := TrimSpace(c.members[i].id);
            forall other :: PodTakenBy(c, i, other) <==>
              !Blank(c.members[i].id) && other != id && PodName(id) in was && was[PodName(id)] == other
  {
    hide PodName, Blank;
    var key := PodName(TrimSpace(c.members[i].id));
    if key in was {
      var j :| NamesPodFirst(c, i, j, key) && TrimSpace(c.members[j].id) == was[key];
      forall k | NamesPodFirst(c, i, k, key) ensures k == j { FirstIsOne(c, i, key, j, k); }
    }
  }

  method CheckPod(c: Config, i: nat, was: map<string, string>)
    returns (sanitized: map<string, string>, faults: seq<MemberFault>)
    requires i < |c.members| && PodsOnRecord(c, i, was)
    ensures PodsOnRecord(c, i + 1, sanitized)
    ensures forall f :: f in faults <==> f.SamePod? && f.row == i && PodTakenBy(c, i, f.other)
  {
    hide PodName, Blank, PodsOnRecord, PodTakenBy;
    sanitized, faults := was, [];
    PodsAfter(c, i, i + 1, was);
    PodTakenIs(c, i, was);
    var id := TrimSpace(c.members[i].id);
    if Blank(c.members[i].id) {
      return;
    }
    var key := PodName(id);
    if key in sanitized && sanitized[key] != id {
      faults := [SamePod(i, sanitized[key])];
    } else {
      sanitized := sanitized[key := id];
      assert sanitized == PodsWith(c, i, was);
    }
  }

  // ---- the rows ----

  datatype Topic = AboutId | AboutPersona | AboutSpace | AboutTelegram | AboutChain | AboutSources

  function TopicOf(f: MemberFault): Topic {
    match f
    case IdMissing(_) => AboutId
    case SamePod(_, _) => AboutId
    case Taken(_, kind, _) => if kind == Id then AboutId else if kind == Space then AboutSpace
                              else if kind == Telegram then AboutTelegram else AboutSources
    case LongPersona(_, _) => AboutPersona
    case Leftover(_, _) => AboutSpace
    case ChainUnread(_) => AboutSpace
    case SpaceMissing(_) => AboutSpace
    case SpaceIsShared(_) => AboutSpace
    case TelegramIsGroup(_) => AboutTelegram
    case BadChain(_) => AboutChain
  }

  ghost predicate FoundOn(c: Config, tags: set<string>, i: nat, topic: Topic, faults: seq<MemberFault>) {
    forall f :: f in faults <==> f.row == i && TopicOf(f) == topic && IsFault(c, tags, f)
  }

  method CheckId(c: Config, tags: set<string>, i: nat, was: map<Claim, int>, wasPods: map<string, string>)
    returns (seen: map<Claim, int>, sanitized: map<string, string>, faults: seq<MemberFault>)
    requires i < |c.members| && OnRecord(c, i, was, Id) && PodsOnRecord(c, i, wasPods)
    ensures OnRecord(c, i + 1, seen, Id) && OthersKept(was, seen, Id) && PodsOnRecord(c, i + 1, sanitized)
    ensures FoundOn(c, tags, i, AboutId, faults)
  {
    hide OnRecord, PodsOnRecord, TakenBy, PodTakenBy, ChainClean, Blank, FieldValue;
    var taken, pods: seq<MemberFault>;
    faults := if Blank(c.members[i].id) then [IdMissing(i)] else [];
    seen, taken := CheckClaim(c, i, Id, was);
    sanitized, pods := CheckPod(c, i, wasPods);
    faults := faults + taken + pods;
  }

  lemma EveryPersonaField(field: PersonaField)
    ensures field in PERSONA_FIELDS
  {
    match field
    case AgentName => assert PERSONA_FIELDS[0] == field;
    case Language => assert PERSONA_FIELDS[1] == field;
    case Tone => assert PERSONA_FIELDS[2] == field;
    case Character => assert PERSONA_FIELDS[3] == field;
  }

  method ValidatePersona(c: Config, tags: set<string>, i: nat) returns (faults: seq<MemberFault>)
    requires i < |c.members|
    ensures FoundOn(c, tags, i, AboutPersona, faults)
  {
    hide TooLong, TakenBy, PodTakenBy, ChainClean, FieldValue;
    faults := [];
    for k := 0 to |PERSONA_FIELDS|
      invariant forall f :: f in faults <==>
                  f.LongPersona? && f.row == i && f.part in PERSONA_FIELDS[..k] && TooLong(c.members[i].persona, f.part)
    {
      assert PERSONA_FIELDS[..k + 1] == PERSONA_FIELDS[..k] + [PERSONA_FIELDS[k]];
      if TooLong(c.members[i].persona, PERSONA_FIELDS[k]) {
        faults := faults + [LongPersona(i, PERSONA_FIELDS[k])];
      }
    }
    assert PERSONA_FIELDS[..|PERSONA_FIELDS|] == PERSONA_FIELDS;
    forall field: PersonaField ensures field in PERSONA_FIELDS { EveryPersonaField(field); }
  }

  lemma EveryField(field: Field)
    ensures field in FIELDS
  {
    match field
    case PrivateSpaceField => assert FIELDS[0] == field;
    case BotTokenEnvField => assert FIELDS[1] == field;
    case BotTokenFileField => assert FIELDS[2] == field;
    case PassphraseEnvField => assert FIELDS[3] == field;
    case PassphraseFileField => assert FIELDS[4] == field;
  }

  method CheckLeftovers(c: Config, i: nat) returns (faults: seq<MemberFault>)
    requires i < |c.members|
    ensures forall f :: f in faults <==> f.Leftover? && f.row == i && !Blank(FieldValue(c.members[i], f.field))
  {
    hide Blank, FieldValue;
    faults := [];
    for k := 0 to |FIELDS|
      invariant forall f :: f in faults <==>
                  f.Leftover? && f.row == i && f.field in FIELDS[..k] && !Blank(FieldValue(c.members[i], f.field))
    {
      assert FIELDS[..k + 1] == FIELDS[..k] + [FIELDS[k]];
      if Blank(FieldValue(c.members[i], FIELDS[k])) {
        continue;
      }
      faults := faults + [Leftover(i, FIELDS[k])];
    }
    assert FIELDS[..|FIELDS|] == FIELDS;
    forall field: Field ensures field in FIELDS { EveryField(field); }
  }

  method CheckSpace(c: Config, tags: set<string>, i: nat, was: map<Claim, int>)
    returns (seen: map<Claim, int>, faults: seq<MemberFault>)
    requires i < |c.members| && OnRecord(c, i, was, Space)
    ensures OnRecord(c, i + 1, seen, Space) && OthersKept(was, seen, Space)
    ensures FoundOn(c, tags, i, AboutSpace, faults)
  {
    hide OnRecord, PodTakenBy, ChainClean, FieldValue, HoldsFirst;
    var m := c.members[i];
    seen, faults := CheckClaim(c, i, Space, was);
    if m.sharedOnly {
      faults := CheckLeftovers(c, i);
      if |m.tiers| > 0 {
        faults := faults + [ChainUnread(i)];
      }
    } else if Blank(m.privateSpace) {
      faults := [SpaceMissing(i)];
    } else if !Blank(c.sharedSpace) && TrimSpace(m.privateSpace) == TrimSpace(c.sharedSpace) {
      faults := faults + [SpaceIsShared(i)];
    }
  }

  method CheckTelegram(c: Config, tags: set<string>, i: nat, was: map<Claim, int>)
    returns (seen: map<Claim, int>, faults: seq<MemberFault>)
    requires i < |c.members| && OnRecord(c, i, was, Telegram)
    ensures OnRecord(c, i + 1, seen, Telegram) && OthersKept(was, seen, Telegram)
    ensures FoundOn(c, tags, i, AboutTelegram, faults)
  {
    hide OnRecord, PodTakenBy, ChainClean, FieldValue, TakenBy, Blank;
    var m := c.members[i];
    seen, faults := CheckClaim(c, i, Telegram, was);
    if m.telegramId != 0 && c.groupChatId != 0 && m.telegramId == c.groupChatId {
      faults := faults + [TelegramIsGroup(i)];
    }
  }

  ghost predicate SourcesOnRecord(c: Config, n: nat, seen: map<Claim, int>)
    requires n <= |c.members|
  {
    OnRecord(c, n, seen, TokenEnv) && OnRecord(c, n, seen, TokenFile) &&
    OnRecord(c, n, seen, PassphraseEnv) && OnRecord(c, n, seen, PassphraseFile)
  }

  ghost predicate AllOnRecord(c: Config, n: nat, seen: map<Claim, int>)
    requires n <= |c.members|
  {
    OnRecord(c, n, seen, Id) && OnRecord(c, n, seen, Space) && OnRecord(c, n, seen, Telegram) &&
    SourcesOnRecord(c, n, seen)
  }

  ghost predicate RestAgree(was: map<Claim, int>, seen: map<Claim, int>) {
    Agree(was, seen, Id) && Agree(was, seen, Space) && Agree(was, seen, Telegram)
  }

  lemma SelfAgrees(was: map<Claim, int>)
    ensures RestAgree(was, was)
  {
  }

  lemma StillAgree(was: map<Claim, int>, before: map<Claim, int>, seen: map<Claim, int>, kind: Kind)
    requires RestAgree(was, before) && OthersKept(before, seen, kind)
    requires kind != Id && kind != Space && kind != Telegram
    ensures RestAgree(was, seen)
  {
    assert Agree(before, seen, Id) && Agree(before, seen, Space) && Agree(before, seen, Telegram);
  }

  lemma SourcesStay(c: Config, n: nat, was: map<Claim, int>, seen: map<Claim, int>, kind: Kind)
    requires n <= |c.members| && SourcesOnRecord(c, n, was)
    requires OthersKept(was, seen, kind) && (kind == Id || kind == Space || kind == Telegram)
    ensures SourcesOnRecord(c, n, seen)
  {
    hide OnRecord;
    StaysOnRecord(c, n, was, seen, TokenEnv);
    StaysOnRecord(c, n, was, seen, TokenFile);
    StaysOnRecord(c, n, was, seen, PassphraseEnv);
    StaysOnRecord(c, n, was, seen, PassphraseFile);
  }

  method CheckSources(c: Config, tags: set<string>, i: nat, was: map<Claim, int>)
    returns (seen: map<Claim, int>, faults: seq<MemberFault>)
    requires i < |c.members|
    requires SourcesOnRecord(c, i, was)
    ensures SourcesOnRecord(c, i + 1, seen)
    ensures RestAgree(was, seen)
    ensures FoundOn(c, tags, i, AboutSources, faults)
  {
    hide OnRecord, RestAgree, PodTakenBy, ChainClean, FieldValue, TakenBy, Blank;
    var more: seq<MemberFault>;
    seen, faults := CheckClaim(c, i, TokenEnv, was);
    SelfAgrees(was);
    StillAgree(was, was, seen, TokenEnv);
    StaysOnRecord(c, i, was, seen, TokenFile);
    StaysOnRecord(c, i, was, seen, PassphraseEnv);
    StaysOnRecord(c, i, was, seen, PassphraseFile);
    ghost var before := seen;
    seen, more := CheckClaim(c, i, TokenFile, seen);
    StillAgree(was, before, seen, TokenFile);
    StaysOnRecord(c, i + 1, before, seen, TokenEnv);
    StaysOnRecord(c, i, before, seen, PassphraseEnv);
    StaysOnRecord(c, i, before, seen, PassphraseFile);
    faults := faults + more;
    before := seen;
    seen, more := CheckClaim(c, i, PassphraseEnv, seen);
    StillAgree(was, before, seen, PassphraseEnv);
    StaysOnRecord(c, i + 1, before, seen, TokenEnv);
    StaysOnRecord(c, i + 1, before, seen, TokenFile);
    StaysOnRecord(c, i, before, seen, PassphraseFile);
    faults := faults + more;
    before := seen;
    seen, more := CheckClaim(c, i, PassphraseFile, seen);
    StillAgree(was, before, seen, PassphraseFile);
    StaysOnRecord(c, i + 1, before, seen, TokenEnv);
    StaysOnRecord(c, i + 1, before, seen, TokenFile);
    StaysOnRecord(c, i + 1, before, seen, PassphraseEnv);
    faults := faults + more;
  }

  method ValidateMember(c: Config, tags: set<string>, i: nat, was: map<Claim, int>, wasPods: map<string, string>)
    returns (seen: map<Claim, int>, sanitized: map<string, string>, faults: seq<MemberFault>)
    requires i < |c.members| && PodsOnRecord(c, i, wasPods) && AllOnRecord(c, i, was)
    ensures PodsOnRecord(c, i + 1, sanitized) && AllOnRecord(c, i + 1, seen)
    ensures forall f :: f in faults <==> f.row == i && IsFault(c, tags, f)
  {
    hide OnRecord, PodsOnRecord, PodTakenBy, TakenBy, FieldValue, Agree, SourcesOnRecord, TooLong;
    var more: seq<MemberFault>;
    var m := c.members[i];
    seen, sanitized, faults := CheckId(c, tags, i, was, wasPods);
    StaysOnRecord(c, i, was, seen, Space);
    StaysOnRecord(c, i, was, seen, Telegram);
    SourcesStay(c, i, was, seen, Id);
    more := ValidatePersona(c, tags, i);
    faults := faults + more;
    ghost var before := seen;
    seen, more := CheckSpace(c, tags, i, seen);
    StaysOnRecord(c, i + 1, before, seen, Id);
    StaysOnRecord(c, i, before, seen, Telegram);
    SourcesStay(c, i, before, seen, Space);
    faults := faults + more;
    before := seen;
    seen, more := CheckTelegram(c, tags, i, seen);
    StaysOnRecord(c, i + 1, before, seen, Id);
    StaysOnRecord(c, i + 1, before, seen, Space);
    SourcesStay(c, i, before, seen, Telegram);
    faults := faults + more;
    if !m.sharedOnly {
      var chain := ValidateTiers(m.tiers, tags);
      if chain != [] {
        faults := faults + [BadChain(i)];
      }
    }
    before := seen;
    seen, more := CheckSources(c, tags, i, seen);
    StaysOnRecord(c, i + 1, before, seen, Id);
    StaysOnRecord(c, i + 1, before, seen, Space);
    StaysOnRecord(c, i + 1, before, seen, Telegram);
    faults := faults + more;
  }

  /** One pass, and what it reports is what is wrong, all of it and nothing else. */
  method ValidateMembers(c: Config, tags: set<string>) returns (faults: seq<MemberFault>)
    ensures forall f :: f in faults <==> IsFault(c, tags, f)
  {
    hide OnRecord, SourcesOnRecord, PodTakenBy, TakenBy, FieldValue;
    faults := [];
    var seen := SeedHousehold(c);
    var sanitized: map<string, string> := map[];
    for i := 0 to |c.members|
      invariant PodsOnRecord(c, i, sanitized) && AllOnRecord(c, i, seen)
      invariant forall f :: f in faults <==> f.row < i && IsFault(c, tags, f)
    {
      var more: seq<MemberFault>;
      seen, sanitized, more := ValidateMember(c, tags, i, seen, sanitized);
      faults := faults + more;
    }
  }

  method SeedHousehold(c: Config) returns (seen: map<Claim, int>)
    ensures AllOnRecord(c, 0, seen)
  {
    seen := map[];
    if c.mode.Isolated? {
      if !Blank(c.botToken.env) {
        seen := seen[Claim(TokenEnv, Word(TrimSpace(c.botToken.env))) := HOUSEHOLD];
      }
      if !Blank(c.botToken.file) {
        seen := seen[Claim(TokenFile, Word(TrimSpace(c.botToken.file))) := HOUSEHOLD];
      }
    }
    forall kind ensures OnRecord(c, 0, seen, kind) {
    }
  }
}
