/** MergeState: folding what the state file records into the loaded configuration, in place. */
module MergeState {
  import opened Optionals
  import opened Text
  import opened HouseholdState
  import opened HouseholdRuns
  import opened Titles

  /** One row of members: the part of it the state file has anything to say about, with the
      rest as `member`. */
  datatype MemberConfig = MemberConfig(member: Member, persona: Persona)

  function OrElse(v: string, fallback: string): string {
    if TrimSpace(v) == "" then fallback else v
  }

  /** Per field, and the member's own answer wins. */
  function Answered(own: Persona, written: Persona): Persona {
    Persona(OrElse(own.agentName, written.agentName), OrElse(own.language, written.language),
            OrElse(own.tone, written.tone), OrElse(own.character, written.character))
  }

  function Merged(m: MemberConfig, s: State): MemberConfig {
    MemberConfig(if Disagrees(m.member, s) then m.member else Folded(m.member, s),
                 if m.member.id in s.personas then Answered(s.personas[m.member.id].persona, m.persona) else m.persona)
  }

  /** The rows on which the file and the configuration name different accounts. */
  function Conflicts(rows: seq<MemberConfig>, s: State): seq<nat> {
    if rows == [] then []
    else Conflicts(rows[..|rows| - 1], s) +
         if Disagrees(rows[|rows| - 1].member, s) then [|rows| - 1] else []
  }

  method Merge(rows: array<MemberConfig>, s: State) returns (conflicts: seq<nat>)
    modifies rows
    ensures forall i :: 0 <= i < rows.Length ==> rows[i] == Merged(old(rows[i]), s)
    ensures conflicts == Conflicts(old(rows[..]), s)
  {
    conflicts := [];
    ghost var was := rows[..];
    var i := 0;
    while i < rows.Length
      invariant 0 <= i <= rows.Length
      invariant forall j :: 0 <= j < i ==> rows[j] == Merged(was[j], s)
      invariant forall j :: i <= j < rows.Length ==> rows[j] == was[j]
      invariant conflicts == Conflicts(was[..i], s)
    {
      var m := rows[i];
      if m.member.id in s.personas {
        m := m.(persona := Answered(s.personas[m.member.id].persona, m.persona));
      }
      assert was[..i + 1][..i] == was[..i] && was[..i + 1][i] == was[i];
      if m.member.id in s.bindings {
        var b := s.bindings[m.member.id];
        if m.member.telegramId == 0 {
          m := m.(member := m.member.(telegramId := b.telegramId, enrolledAt := b.enrolledAt));
        } else if m.member.telegramId != b.telegramId {
          conflicts := conflicts + [i];
        } else {
          m := m.(member := m.member.(enrolledAt := b.enrolledAt));
        }
      }
      rows[i] := m;
      i := i + 1;
    }
    assert was[..i] == was;
  }

  /** A field said in the member's own words, or left blank. */
  predicate Said(v: string) {
    exists i :: 0 <= i < |v| && !IsSpace(v[i])
  }

  /** Field by field the member's own answer stands wherever they gave one, and what the
      configuration says wherever they did not. */
  lemma OwnAnswersStand(m: MemberConfig, s: State)
    ensures var r := Merged(m, s);
            if m.member.id !in s.personas then r.persona == m.persona
            else
              var own := s.personas[m.member.id].persona;
              && r.persona.agentName == (if Said(own.agentName) then own.agentName else m.persona.agentName)
              && r.persona.language == (if Said(own.language) then own.language else m.persona.language)
              && r.persona.tone == (if Said(own.tone) then own.tone else m.persona.tone)
              && r.persona.character == (if Said(own.character) then own.character else m.persona.character)
  {
    hide TrimSpace, Folded, Disagrees;
    forall v ensures Said(v) <==> TrimSpace(v) != "" {
      var _, _ := TrimSpaceIs(v);
    }
  }

  /** An account the file records is taken where the configuration declares none, its time also
      where both say the same; where they disagree the row is left as it was and reported. */
  lemma RecordedAccountsStand(m: MemberConfig, s: State)
    ensures var r := Merged(m, s);
            if m.member.id !in s.bindings then r.member == m.member
            else
              var b := s.bindings[m.member.id];
              if m.member.telegramId != 0 && m.member.telegramId != b.telegramId then r.member == m.member
              else r.member == m.member.(telegramId := b.telegramId, enrolledAt := b.enrolledAt)
  {
  }

  /** The rows reported are all of those that disagree, once each, in order. */
  lemma {:induction false} ConflictsAre(rows: seq<MemberConfig>, s: State)
    ensures forall i: nat :: i in Conflicts(rows, s) <==>
              i < |rows| && rows[i].member.id in s.bindings && rows[i].member.telegramId != 0 &&
              rows[i].member.telegramId != s.bindings[rows[i].member.id].telegramId
    ensures forall i, j :: 0 <= i < j < |Conflicts(rows, s)| ==> Conflicts(rows, s)[i] < Conflicts(rows, s)[j]
  {
    if rows != [] {
      var n := |rows| - 1;
      var before := Conflicts(rows[..n], s);
      ConflictsAre(rows[..n], s);
      forall i | 0 <= i < |before| ensures before[i] < n {
        assert before[i] in before;
      }
    }
  }

  function MergedAll(rows: seq<MemberConfig>, s: State): seq<MemberConfig> {
    seq(|rows|, i requires 0 <= i < |rows| => Merged(rows[i], s))
  }

  function DomainMembers(rows: seq<MemberConfig>): seq<Member> {
    seq(|rows|, i requires 0 <= i < |rows| => rows[i].member)
  }

  /** Merging a second time changes nothing and finds the same conflicts. */
  lemma {:induction false} MergeIsIdempotent(rows: seq<MemberConfig>, s: State)
    ensures MergedAll(MergedAll(rows, s), s) == MergedAll(rows, s)
    ensures Conflicts(MergedAll(rows, s), s) == Conflicts(rows, s)
  {
    if rows != [] {
      var n := |rows| - 1;
      MergeIsIdempotent(rows[..n], s);
      assert MergedAll(rows, s)[..n] == MergedAll(rows[..n], s);
    }
  }

  lemma MergedFolds(m: MemberConfig, s: State)
    ensures Disagrees(Merged(m, s).member, s) <==> Disagrees(m.member, s)
    ensures !Disagrees(m.member, s) ==> Folded(Merged(m, s).member, s) == Folded(m.member, s)
  {
  }

  lemma {:induction false} MergedFoldsAll(rows: seq<MemberConfig>, s: State)
    requires forall i :: 0 <= i < |rows| ==> !Disagrees(rows[i].member, s)
    ensures FoldAll(DomainMembers(MergedAll(rows, s)), s) == FoldAll(DomainMembers(rows), s)
  {
    if rows != [] {
      var n := |rows| - 1;
      MergedFoldsAll(rows[..n], s);
      MergedFolds(rows[n], s);
      assert DomainMembers(MergedAll(rows, s))[..n] == DomainMembers(MergedAll(rows[..n], s));
      assert DomainMembers(rows)[..n] == DomainMembers(rows[..n]);
    }
  }

  /** A configuration already merged opens to the same household as one that was not, and is
      refused when and only when that one is. */
  lemma MergingFirstChangesNothing(rows: seq<MemberConfig>, shared: string, tiers: seq<string>, s: State)
    ensures Opens(DomainMembers(MergedAll(rows, s)), tiers, s) <==> Opens(DomainMembers(rows), tiers, s)
    ensures Opens(DomainMembers(rows), tiers, s) ==>
              Opened(DomainMembers(MergedAll(rows, s)), shared, tiers, s) == Opened(DomainMembers(rows), shared, tiers, s)
  {
    var merged, plain := DomainMembers(MergedAll(rows, s)), DomainMembers(rows);
    forall i | 0 <= i < |rows|
      ensures merged[i].id == plain[i].id && (Disagrees(merged[i], s) <==> Disagrees(plain[i], s))
    {
      MergedFolds(rows[i], s);
    }
    assert Ids(merged) == Ids(plain);
    if Opens(plain, tiers, s) {
      forall i | 0 <= i < |rows| ensures !Disagrees(rows[i].member, s) {
        assert plain[i] == rows[i].member;
      }
      MergedFoldsAll(rows, s);
    }
  }
}
