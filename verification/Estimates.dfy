/** Why trimming settles for the first fit: dropping an entry adds a note that it was dropped,
    and the note can be reckoned dearer than the entry. When it is, exactly, and that it is. */
module Estimates {
  import opened Text
  import opened TextLines
  import opened Messages
  import opened Ranking
  import opened Framing
  import opened Assembly

  // ---- counting ----

  lemma {:induction false} PlainIsAscii(s: string)
    requires Plain(s)
    ensures Ascii(s) == |s|
  {
    if s != "" {
      PlainIsAscii(s[1..]);
    }
  }

  function Others(s: string): nat { |s| - Ascii(s) }

  /** Of two texts set into one, the dearer is told by their characters and by how many of
      ASCII there are around them. */
  lemma SetInto(before: string, text: string, after: string)
    ensures Tokens(before + text + after) ==
            (Ascii(before + after) + Ascii(text) + 2) / 3 + Others(before + after) + Others(text)
  {
    AsciiOfConcat(before + text, after);
    AsciiOfConcat(before, text);
    AsciiOfConcat(before, after);
  }

  // ---- the notes ----

  lemma {:induction false} DecimalGrows(n: nat)
    ensures |Decimal(n)| <= |Decimal(n + 1)| <= |Decimal(n)| + 1
  {
    if n >= 9 {
      if n % 10 == 9 {
        DecimalGrows(n / 10);
        assert (n + 1) / 10 == n / 10 + 1;
      } else {
        assert (n + 1) / 10 == n / 10;
      }
    }
  }

  /** The first note is 66 characters, and no later one is more than three longer than the
      one before it. */
  lemma NoteLengths(dropped: nat)
    ensures |Note(1)| == 66
    ensures dropped > 0 ==> |Note(dropped + 1)| <= |Note(dropped)| + 3
    ensures Ascii(Note(dropped)) == |Note(dropped)|
  {
    assert |ONE_MORE| == 17 && |MANY_MORE| == 18 && |RETRIEVED| == 22 && |BUDGET| == 27;
    DecimalGrows(dropped);
    PlainIsAscii(Note(dropped));
  }

  // ---- a section with its last entry, and without it ----

  /** The section up to its last entry. */
  function UpToLast(subject: string, entries: seq<Entry>): string {
    Rejoined(Lines(Heading(subject)) + AllEntryLines(entries))
  }

  function EntryText(e: Entry): string { Rejoined(EntryLines(e)) }

  /** What goes with an entry when it is dropped: the entry, and the note there was. */
  function Gone(e: Entry, dropped: nat): string {
    if dropped == 0 then EntryText(e) else EntryText(e) + "\n" + Note(dropped)
  }

  lemma SectionsAre(subject: string, entries: seq<Entry>, e: Entry, dropped: nat)
    ensures SectionText(subject, entries + [e], false, dropped) == UpToLast(subject, entries) + "\n" + Gone(e, dropped)
    ensures SectionText(subject, entries, false, dropped + 1) == UpToLast(subject, entries) + "\n" + Note(dropped + 1)
  {
    hide Lines, EntryLines, Note, AllEntryLines;
    var front := Lines(Heading(subject)) + AllEntryLines(entries);
    AllEntryLinesOneMore(entries, e);
    EntryHasLines(e);
    Extend(front, Lines(Heading(subject)), AllEntryLines(entries), EntryLines(e) + DroppedNote(dropped));
    Extend(AllEntryLines(entries + [e]), AllEntryLines(entries), EntryLines(e), DroppedNote(dropped));
    Extend(front, Lines(Heading(subject)), AllEntryLines(entries), [Note(dropped + 1)]);
    RejoinedOfConcat(front, EntryLines(e) + DroppedNote(dropped));
    RejoinedOfConcat(front, [Note(dropped + 1)]);
    if dropped == 0 {
      assert EntryLines(e) + [] == EntryLines(e);
    } else {
      RejoinedOfConcat(EntryLines(e), [Note(dropped)]);
    }
  }

  lemma EntryHasLines(e: Entry)
    ensures |EntryLines(e)| >= 4 && EntryLines(e)[0] == ENTRY_OPEN
  {
  }

  /** An entry has the seven characters of its opening delimiter at the least. */
  lemma EntryIsNotFree(e: Entry)
    ensures Ascii(EntryText(e)) >= 7
  {
    hide EntryLines;
    EntryHasLines(e);
    var rest := EntryLines(e)[1..];
    assert EntryLines(e) == [ENTRY_OPEN] + rest;
    RejoinedOfConcat([ENTRY_OPEN], rest);
    AsciiOfConcat(ENTRY_OPEN + "\n", Rejoined(rest));
    AsciiOfConcat(ENTRY_OPEN, "\n");
    PlainIsAscii(ENTRY_OPEN);
  }

  /** What an entry and the first note cost where there are `around` characters of ASCII besides. */
  predicate NoteIsDearer(around: nat, entry: string) {
    (around + Ascii(entry) + 2) / 3 + Others(entry) < (around + 66 + 2) / 3
  }

  /** For any section, in any prompt: dropping its last entry makes the prompt dearer exactly when
      it is the first one dropped from the section and the note is dearer than the entry. */
  lemma DroppingCostsIff(before: string, subject: string, entries: seq<Entry>, e: Entry, dropped: nat, after: string)
    ensures Tokens(before + SectionText(subject, entries + [e], false, dropped) + after) <
            Tokens(before + SectionText(subject, entries, false, dropped + 1) + after)
            <==>
            dropped == 0 && NoteIsDearer(Ascii(before + UpToLast(subject, entries) + "\n" + after), EntryText(e))
  {
    hide SectionText, UpToLast, EntryText, Note, Ascii, Tokens;
    var head := before + UpToLast(subject, entries) + "\n";
    SectionsAre(subject, entries, e, dropped);
    Assoc3(before, UpToLast(subject, entries), "\n", Gone(e, dropped));
    Assoc3(before, UpToLast(subject, entries), "\n", Note(dropped + 1));
    SetInto(head, Gone(e, dropped), after);
    SetInto(head, Note(dropped + 1), after);
    NoteLengths(dropped);
    NoteLengths(dropped + 1);
    EntryIsNotFree(e);
    GoneCounts(e, dropped);
  }

  lemma Assoc3(a: string, b: string, c: string, d: string)
    ensures a + (b + c + d) == a + b + c + d
  {
    Assoc(a, b + c, d);
    Assoc(a, b, c);
  }

  lemma GoneCounts(e: Entry, dropped: nat)
    ensures dropped > 0 ==> Ascii(Gone(e, dropped)) == Ascii(EntryText(e)) + 1 + |Note(dropped)|
    ensures Others(Gone(e, dropped)) == Others(EntryText(e))
  {
    hide Note, EntryText, Ascii;
    NoteLengths(dropped);
    AsciiOfConcat(EntryText(e) + "\n", Note(dropped));
    AsciiOfConcat(EntryText(e), "\n");
    NewlineIsPlain();
  }

  lemma NewlineIsPlain()
    ensures Ascii("\n") == 1
  {
  }

  /** A prompt that shows no entry any more also loses a sentence about entries. Where that is 66
      characters of ASCII or more, which it is by far, dropping the last entry never costs. */
  lemma LastDropNeverCosts(before: string, subject: string, entries: seq<Entry>, e: Entry, dropped: nat,
                           between: string, sentence: string, after: string)
    requires Ascii(sentence) >= 66
    ensures Tokens(before + SectionText(subject, entries, false, dropped + 1) + (between + after)) <=
            Tokens(before + SectionText(subject, entries + [e], false, dropped) + (between + sentence + after))
  {
    hide SectionText, UpToLast, EntryText, Note, Ascii, Tokens;
    var head := before + UpToLast(subject, entries) + "\n";
    SectionsAre(subject, entries, e, dropped);
    Assoc3(before, UpToLast(subject, entries), "\n", Gone(e, dropped));
    Assoc3(before, UpToLast(subject, entries), "\n", Note(dropped + 1));
    SetInto(head, Gone(e, dropped), between + sentence + after);
    SetInto(head, Note(dropped + 1), between + after);
    AsciiOfConcat(head, between + sentence + after);
    AsciiOfConcat(head, between + after);
    AsciiOfConcat(between + sentence, after);
    AsciiOfConcat(between, sentence);
    AsciiOfConcat(between, after);
    NoteLengths(dropped);
    NoteLengths(dropped + 1);
    GoneCounts(e, dropped);
  }

  /** For an entry all of ASCII: one of 63 characters or fewer always is dearer to drop, one of
      66 or more never is, and the two lengths between go by how the rest divides by three. */
  lemma ByLength(around: nat, entry: string)
    requires Plain(entry)
    ensures NoteIsDearer(around, entry) <==>
            |entry| <= 63 || (|entry| == 64 && around % 3 != 0) || (|entry| == 65 && around % 3 == 1)
  {
    PlainIsAscii(entry);
  }

  // ---- and so the request's estimate ----

  lemma CostOfSystem(system: string, hist: seq<TurnRecord>, text: string)
    ensures Cost(system, hist, text) ==
            PER_MESSAGE + Tokens(system) + Total(Told(Runs(Pieces(hist) + [Message(User, text)])))
  {
    hide Told, Runs, Total, Tokens;
    var first, rest := Message(System, system), Pieces(hist) + [Message(User, text)];
    PiecesAreTurns(hist);
    TotalAfterSystem(first, rest);
    assert [first] + rest == AllPieces(system, hist, text);
  }

  /** Two prompts with one history are told apart by their system prompts alone. */
  lemma EstimateFollowsRender(t: Turn, p: Prompt, q: Prompt)
    requires p.hist == q.hist
    ensures Estimate(t, p) < Estimate(t, q) <==> Tokens(t.render(p.inp)) < Tokens(t.render(q.inp))
  {
    CostOfSystem(t.render(p.inp), p.hist, t.text);
    CostOfSystem(t.render(q.inp), q.hist, t.text);
  }

  /** A prompt has a space's section in it. What stands around it is the same after an entry is
      dropped as before, as long as the prompt still shows one. */
  predicate Sets(t: Turn, inp: PromptInput, before: string, section: string, after: string) {
    t.render(inp) == before + section + after
  }

  /** One more shared entry dropped: the request's estimate rises exactly when the entry was the
      first of the shared space's to go and the note is dearer. */
  lemma DroppingSharedCostsIff(t: Turn, p: Prompt, k: nat, before: string, subject: string, after: string)
    requires |p.hist| <= k < |p.hist| + |p.inp.sharedEntries|
    requires Sets(t, After(p, k).inp, before,
                  SectionText(subject, After(p, k).inp.sharedEntries, false, After(p, k).inp.sharedDropped), after)
    requires Sets(t, After(p, k + 1).inp, before,
                  SectionText(subject, After(p, k + 1).inp.sharedEntries, false, After(p, k + 1).inp.sharedDropped), after)
    ensures var now := After(p, k).inp; var n := |now.sharedEntries| - 1;
            n >= 0 &&
            (Estimate(t, After(p, k)) < Estimate(t, After(p, k + 1))
             <==>
             now.sharedDropped == 0 &&
             NoteIsDearer(Ascii(before + UpToLast(subject, now.sharedEntries[..n]) + "\n" + after), EntryText(now.sharedEntries[n])))
  {
    hide SectionText, UpToLast, EntryText, Ascii, Tokens, After, NoteIsDearer;
    SharedGoes(p, k);
    var now, next := After(p, k), After(p, k + 1);
    var n := |now.inp.sharedEntries| - 1;
    assert now.inp.sharedEntries[..n] + [now.inp.sharedEntries[n]] == now.inp.sharedEntries;
    DroppingCostsIff(before, subject, now.inp.sharedEntries[..n], now.inp.sharedEntries[n], now.inp.sharedDropped, after);
    EstimateFollowsRender(t, now, next);
  }

  /** And one more private one. */
  lemma DroppingPrivateCostsIff(t: Turn, p: Prompt, k: nat, before: string, subject: string, after: string)
    requires |p.hist| + |p.inp.sharedEntries| <= k < Elastic(p)
    requires Sets(t, After(p, k).inp, before,
                  SectionText(subject, After(p, k).inp.privateEntries, false, After(p, k).inp.privateDropped), after)
    requires Sets(t, After(p, k + 1).inp, before,
                  SectionText(subject, After(p, k + 1).inp.privateEntries, false, After(p, k + 1).inp.privateDropped), after)
    ensures var now := After(p, k).inp; var n := |now.privateEntries| - 1;
            n >= 0 &&
            (Estimate(t, After(p, k)) < Estimate(t, After(p, k + 1))
             <==>
             now.privateDropped == 0 &&
             NoteIsDearer(Ascii(before + UpToLast(subject, now.privateEntries[..n]) + "\n" + after), EntryText(now.privateEntries[n])))
  {
    hide SectionText, UpToLast, EntryText, Ascii, Tokens, After, NoteIsDearer, Elastic;
    PrivateGoes(p, k);
    var now, next := After(p, k), After(p, k + 1);
    var n := |now.inp.privateEntries| - 1;
    assert now.inp.privateEntries[..n] + [now.inp.privateEntries[n]] == now.inp.privateEntries;
    DroppingCostsIff(before, subject, now.inp.privateEntries[..n], now.inp.privateEntries[n], now.inp.privateDropped, after);
    EstimateFollowsRender(t, now, next);
  }

  // ---- such an entry ----

  const SHORT := Entry("1", "x", "b", "c", [])
  const SUBJECT := "the household's shared memory"

  lemma ShortIs()
    ensures Plain(EntryText(SHORT)) && |EntryText(SHORT)| == 28
  {
    hide Lines, EntryLines;
    ShortEntry(SHORT);
    var lines := [ENTRY_OPEN, "- x [c]", "  b", ENTRY_CLOSE];
    assert lines[1..] == ["- x [c]", "  b", ENTRY_CLOSE];
    assert lines[1..][1..] == ["  b", ENTRY_CLOSE];
    assert lines[1..][1..][1..] == [ENTRY_CLOSE];
    assert Rejoined([ENTRY_CLOSE]) == ENTRY_CLOSE;
    assert Rejoined(["  b", ENTRY_CLOSE]) == "  b" + "\n" + ENTRY_CLOSE;
    assert Rejoined(["- x [c]", "  b", ENTRY_CLOSE]) == "- x [c]" + "\n" + ("  b" + "\n" + ENTRY_CLOSE);
    assert Rejoined(lines) == ENTRY_OPEN + "\n" + ("- x [c]" + "\n" + ("  b" + "\n" + ENTRY_CLOSE));
  }

  /** The shared section, and whatever else there is around it. */
  function Around(before: string, after: string): PromptInput -> string {
    (inp: PromptInput) => before + SectionText(SUBJECT, inp.sharedEntries, false, inp.sharedDropped) + after
  }

  const TWO_ENTRIES := Prompt([], BLANK.(hasShared := true, sharedEntries := [SHORT, SHORT]))

  /** Whatever else the prompt says and whatever the member said: the request that shows both
      entries is reckoned cheaper than the one that has dropped the second. Where the first just
      fits, the next does not. */
  lemma DroppingCanCost(before: string, after: string, text: string, budget: int)
    ensures var t := Turn(Around(before, after), text, budget);
            && Elastic(TWO_ENTRIES) == 2
            && Estimate(t, After(TWO_ENTRIES, 0)) < Estimate(t, After(TWO_ENTRIES, 1))
            && (budget == Estimate(t, After(TWO_ENTRIES, 0)) ==>
                  Settles(t, TWO_ENTRIES, 0) && Estimate(t, After(TWO_ENTRIES, 1)) > budget)
  {
    hide SectionText, UpToLast, EntryText, Ascii, Tokens;
    var t := Turn(Around(before, after), text, budget);
    ShortIs();
    ByLength(Ascii(before + UpToLast(SUBJECT, [SHORT]) + "\n" + after), EntryText(SHORT));
    assert [SHORT, SHORT][..1] == [SHORT];
    NothingGone(TWO_ENTRIES);
    DroppingSharedCostsIff(t, TWO_ENTRIES, 0, before, SUBJECT, after);
  }
}
