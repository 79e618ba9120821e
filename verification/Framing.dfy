/** How member-written text is framed in the system prompt: the delimiters are lines of their
    own at column zero, and nothing written by anybody else ever gets there. */
module Framing {
  import opened Text
  import opened TextLines
  import opened Ranking

  const ENTRY_OPEN: Line := "<entry>"
  const ENTRY_CLOSE: Line := "</entry>"
  const INDENT := "  "
  const EMPTY_GROUP: Line := "(nothing relevant found)"
  const UNREADABLE_GROUP: Line := "(this memory could not be read just now)"

  predicate AtColumnZero(line: string) { !(INDENT <= line) }

  function ColumnZero(lines: seq<string>): seq<string> {
    if lines == [] then []
    else (if AtColumnZero(lines[0]) then [lines[0]] else []) + ColumnZero(lines[1..])
  }

  function Indented(lines: seq<string>): seq<string> {
    seq(|lines|, i requires 0 <= i < |lines| => INDENT + lines[i])
  }

  lemma {:induction false} ColumnZeroOfConcat(a: seq<string>, b: seq<string>)
    ensures ColumnZero(a + b) == ColumnZero(a) + ColumnZero(b)
  {
    if a == [] {
      assert a + b == b;
    } else {
      ColumnZeroOfConcat(a[1..], b);
      assert (a + b)[1..] == a[1..] + b;
      assert (a + b)[0] == a[0];
    }
  }

  lemma ColumnZeroOfIndented(lines: seq<string>)
    ensures ColumnZero(Indented(lines)) == []
  {
    if lines != [] {
      ColumnZeroOfIndented(lines[1..]);
      assert Indented(lines)[1..] == Indented(lines[1..]);
    }
  }

  // ---- one entry ----

  /** The bullet line, before the markers. The confidence goes on it as it is. */
  function Claim(e: Entry): string {
    "- " + OneLine(e.title) + " [" + e.confidence + "]"
  }

  function Bullet(e: Entry): string {
    if e.markers == [] then Claim(e) else Claim(e) + " (" + OneLine(Join(e.markers, ", ")) + ")"
  }

  function EntryLines(e: Entry): seq<string> {
    [ENTRY_OPEN] + Lines(Bullet(e)) + Indented(Lines(e.body)) + [ENTRY_CLOSE]
  }

  method RenderEntry(e: Entry) returns (b: string)
    ensures Lines(b) == EntryLines(e)
  {
    b := ENTRY_OPEN;
    ghost var head, line := ENTRY_OPEN + "\n", "- ";
    b := b + "\n- ";
    assert "\n" + "- " == "\n- ";
    Assoc(ENTRY_OPEN, "\n", line);
    b, line := WriteOn(head, line, b, OneLine(e.title));
    b, line := WriteOn(head, line, b, " [");
    b, line := WriteOn(head, line, b, e.confidence);
    b, line := WriteOn(head, line, b, "]");
    if |e.markers| > 0 {
      b, line := WriteOn(head, line, b, " (");
      b, line := WriteOn(head, line, b, OneLine(Join(e.markers, ", ")));
      b, line := WriteOn(head, line, b, ")");
    }
    assert line == Bullet(e);
    LinesOfUnbroken(ENTRY_OPEN);
    LinesOfBreak(ENTRY_OPEN, Bullet(e));
    b := RenderBody(e.body, b);
    LinesOfOwnLine(b, ENTRY_CLOSE);
    b := b + "\n";
    b := b + ENTRY_CLOSE;
  }

  /** What is written goes on the line being written. */
  method WriteOn(ghost head: string, ghost line: string, b: string, text: string) returns (after: string, ghost whole: string)
    requires b == head + line
    ensures after == b + text && whole == line + text
    ensures after == head + whole
  {
    after := b + text;
    whole := line + text;
    Assoc(head, line, text);
  }

  method RenderBody(body: string, before: string) returns (b: string)
    ensures Lines(b) == Lines(before) + Indented(Lines(body))
  {
    hide Lines;
    b := before;
    var lines := Lines(body);
    LinesRejoin(body);
    var i := 0;
    while i < |lines|
      invariant 0 <= i <= |lines|
      invariant Lines(b) == Lines(before) + Indented(lines[..i])
    {
      LinesOfIndented(b, lines[i]);
      assert Indented(lines[..i + 1]) == Indented(lines[..i]) + [INDENT + lines[i]];
      b := b + "\n  ";
      b := b + lines[i];
      i := i + 1;
    }
    assert lines[..i] == lines;
  }

  /** The bullet stays one line exactly when the confidence carries no line break. */
  lemma BulletIsOneLine(e: Entry)
    ensures Unbroken(Bullet(e)) <==> Unbroken(e.confidence)
    ensures |EntryLines(e)| == 3 + |Lines(e.body)| <==> Unbroken(e.confidence)
  {
    LinesOfUnbroken(Bullet(e));
    assert Unbroken(Claim(e)) <==> Unbroken(e.confidence);
    assert Unbroken(Bullet(e)) <==> Unbroken(Claim(e));
  }

  lemma {:induction false} ColumnZeroIsPart(lines: seq<string>)
    ensures forall l :: l in ColumnZero(lines) ==> l in lines
  {
    if lines != [] {
      ColumnZeroIsPart(lines[1..]);
    }
  }

  lemma EntryLinesUnbroken(e: Entry)
    ensures forall l :: l in EntryLines(e) ==> Unbroken(l)
  {
    LinesRejoin(Bullet(e));
    LinesRejoin(e.body);
    forall i | 0 <= i < |Lines(e.body)| ensures Unbroken(Indented(Lines(e.body))[i]) {
      assert Lines(e.body)[i] in Lines(e.body);
    }
  }

  /** Two of an entry's lines at column zero, the delimiters, and the bullet between them:
      nothing the title, the markers or the body say can add a line there or take one away, and
      the confidence can exactly where there is a line break in it. */
  lemma EntryColumnZero(e: Entry)
    ensures ColumnZero(EntryLines(e)) == [ENTRY_OPEN, Bullet(e), ENTRY_CLOSE] <==> Unbroken(e.confidence)
  {
    BulletIsOneLine(e);
    if Unbroken(e.confidence) {
      UnbrokenColumnZero(e);
    } else {
      EntryLinesUnbroken(e);
      ColumnZeroIsPart(EntryLines(e));
      assert Bullet(e) !in ColumnZero(EntryLines(e));
      assert [ENTRY_OPEN, Bullet(e), ENTRY_CLOSE][1] == Bullet(e);
    }
  }

  lemma UnbrokenColumnZero(e: Entry)
    requires Unbroken(e.confidence)
    ensures ColumnZero(EntryLines(e)) == [ENTRY_OPEN, Bullet(e), ENTRY_CLOSE]
  {
    BulletIsOneLine(e);
    LinesOfUnbroken(Bullet(e));
    ColumnZeroOfIndented(Lines(e.body));
    ColumnZeroOfConcat([ENTRY_OPEN] + Lines(Bullet(e)) + Indented(Lines(e.body)), [ENTRY_CLOSE]);
    ColumnZeroOfConcat([ENTRY_OPEN] + Lines(Bullet(e)), Indented(Lines(e.body)));
    assert [ENTRY_OPEN] + Lines(Bullet(e)) == [ENTRY_OPEN, Bullet(e)];
    assert Bullet(e)[0] == '-';
    assert [ENTRY_OPEN, Bullet(e)][1..] == [Bullet(e)];
    assert ColumnZero([ENTRY_OPEN, Bullet(e)]) == [ENTRY_OPEN, Bullet(e)];
  }

  // ---- one space's section ----

  const ONE_MORE: PlainLine := "(1 more entry was"
  const MANY_MORE: PlainLine := " more entries were"
  const RETRIEVED: PlainLine := " retrieved but dropped"
  const BUDGET: PlainLine := " to fit the context budget)"

  function Note(dropped: nat): (r: string)
    ensures r != "" && r[0] == '('
    ensures Unbroken(r) && Plain(r)
  {
    if dropped == 1 then ONE_MORE + RETRIEVED + BUDGET else "(" + Decimal(dropped) + MANY_MORE + RETRIEVED + BUDGET
  }

  /** Says how many entries the budget took, and nothing when it took none. */
  function DroppedNote(dropped: nat): seq<string> {
    if dropped == 0 then [] else [Note(dropped)]
  }

  /** What stands for a section with nothing to show in it. */
  function Standing(unreadable: bool): string {
    if unreadable then UNREADABLE_GROUP else EMPTY_GROUP
  }

  function AllEntryLines(entries: seq<Entry>): seq<string> {
    if entries == [] then [] else EntryLines(entries[0]) + AllEntryLines(entries[1..])
  }

  /** The section's lines after its heading. */
  function BodyLines(entries: seq<Entry>, unreadable: bool, dropped: nat): seq<string> {
    (if unreadable || (entries == [] && dropped == 0) then [Standing(unreadable)] else AllEntryLines(entries)) +
    DroppedNote(dropped)
  }

  /** The subject is written as it comes: it is a member's name and what of theirs it is. */
  function Heading(subject: string): string { "## From " + subject }

  function SectionLines(subject: string, entries: seq<Entry>, unreadable: bool, dropped: nat): seq<string> {
    Lines(Heading(subject)) + BodyLines(entries, unreadable, dropped)
  }

  function SectionText(subject: string, entries: seq<Entry>, unreadable: bool, dropped: nat): string {
    Rejoined(SectionLines(subject, entries, unreadable, dropped))
  }

  method RenderMemorySection(subject: string, entries: seq<Entry>, unreadable: bool, dropped: nat) returns (b: string)
    ensures Lines(b) == SectionLines(subject, entries, unreadable, dropped)
    ensures b == SectionText(subject, entries, unreadable, dropped)
  {
    b := RenderSection(subject, entries, unreadable, dropped);
    LinesRejoin(b);
  }

  method RenderSection(subject: string, entries: seq<Entry>, unreadable: bool, dropped: nat) returns (b: string)
    ensures Lines(b) == SectionLines(subject, entries, unreadable, dropped)
  {
    hide Lines, AllEntryLines;
    b := "## From ";
    b := b + subject;
    ghost var heading := Lines(b);
    if unreadable {
      LinesOfOwnLine(b, UNREADABLE_GROUP);
      b := b + "\n";
      b := b + UNREADABLE_GROUP;
    } else if |entries| == 0 && dropped == 0 {
      LinesOfOwnLine(b, EMPTY_GROUP);
      b := b + "\n";
      b := b + EMPTY_GROUP;
    } else {
      b := RenderEntries(entries, b);
    }
    if dropped > 0 {
      LinesOfOwnLine(b, Note(dropped));
      b := b + "\n";
      if dropped == 1 {
        b := b + (ONE_MORE + RETRIEVED + BUDGET);
      } else {
        b := b + ("(" + Decimal(dropped) + MANY_MORE + RETRIEVED + BUDGET);
      }
    }
  }

  method RenderEntries(entries: seq<Entry>, before: string) returns (b: string)
    ensures Lines(b) == Lines(before) + AllEntryLines(entries)
  {
    hide Lines, EntryLines;
    b := before;
    var i := 0;
    while i < |entries|
      invariant 0 <= i <= |entries|
      invariant Lines(b) == Lines(before) + AllEntryLines(entries[..i])
    {
      var entry := RenderEntry(entries[i]);
      EntryWritten(before, entries[..i], b, entries[i], entry);
      assert entries[..i + 1] == entries[..i] + [entries[i]];
      b := b + "\n";
      b := b + entry;
      i := i + 1;
    }
    assert entries[..i] == entries;
  }

  lemma EntryWritten(before: string, done: seq<Entry>, b: string, e: Entry, entry: string)
    requires Lines(b) == Lines(before) + AllEntryLines(done)
    requires Lines(entry) == EntryLines(e)
    ensures Lines(b + "\n" + entry) == Lines(before) + AllEntryLines(done + [e])
  {
    LinesOfBreak(b, entry);
    Extend(Lines(b), Lines(before), AllEntryLines(done), Lines(entry));
    AllEntryLinesOneMore(done, e);
  }

  lemma {:induction false} AllEntryLinesOneMore(entries: seq<Entry>, e: Entry)
    ensures AllEntryLines(entries + [e]) == AllEntryLines(entries) + EntryLines(e)
  {
    if entries == [] {
      assert ([] + [e])[1..] == [];
    } else {
      AllEntryLinesOneMore(entries[1..], e);
      assert (entries + [e])[1..] == entries[1..] + [e];
      Extend(AllEntryLines(entries), EntryLines(entries[0]), AllEntryLines(entries[1..]), EntryLines(e));
    }
  }

  // ---- a reader that goes by the delimiters alone ----

  /** How many lines there are before the first one that closes an entry. */
  function UntilClose(lines: seq<string>): (n: nat)
    ensures n <= |lines|
  {
    if lines == [] || lines[0] == ENTRY_CLOSE then 0 else 1 + UntilClose(lines[1..])
  }

  function Unindented(lines: seq<string>): seq<string> {
    seq(|lines|, i requires 0 <= i < |lines| => if INDENT <= lines[i] then lines[i][2..] else lines[i])
  }

  /** An entry is the lines from an opening delimiter to the next closing one: a bullet, then
      the body. Everything else is passed over. */
  function ReadBodies(lines: seq<string>): seq<string>
    decreases |lines|
  {
    if lines == [] then []
    else if lines[0] != ENTRY_OPEN || |lines| < 2 then ReadBodies(lines[1..])
    else
      var n := UntilClose(lines[2..]);
      [Rejoined(Unindented(lines[2..2 + n]))] + ReadBodies(lines[2 + n..])
  }

  function Bodies(entries: seq<Entry>): seq<string> {
    seq(|entries|, i requires 0 <= i < |entries| => entries[i].body)
  }

  lemma {:induction false} UntilCloseSkipsIndented(lines: seq<string>, rest: seq<string>)
    ensures UntilClose(Indented(lines) + [ENTRY_CLOSE] + rest) == |lines|
  {
    var all := Indented(lines) + [ENTRY_CLOSE] + rest;
    if lines != [] {
      UntilCloseSkipsIndented(lines[1..], rest);
      assert all[1..] == Indented(lines[1..]) + [ENTRY_CLOSE] + rest;
      assert all[0][0] == ' ';
    }
  }

  lemma ReadFramed(bullet: string, body: seq<string>, rest: seq<string>)
    ensures ReadBodies([ENTRY_OPEN, bullet] + Indented(body) + [ENTRY_CLOSE] + rest) == [Rejoined(body)] + ReadBodies(rest)
  {
    var all := [ENTRY_OPEN, bullet] + Indented(body) + [ENTRY_CLOSE] + rest;
    assert all[2..] == Indented(body) + [ENTRY_CLOSE] + rest;
    assert all[2..2 + |body|] == Indented(body);
    assert all[2 + |body|..] == [ENTRY_CLOSE] + rest;
    UntilCloseSkipsIndented(body, rest);
    IndentedReadsBack(body);
    ReadPastClose(rest);
    assert ReadBodies(all) == [Rejoined(body)] + ReadBodies([ENTRY_CLOSE] + rest);
  }

  lemma IndentedReadsBack(lines: seq<string>)
    ensures Unindented(Indented(lines)) == lines
  {
    forall i | 0 <= i < |lines| ensures Unindented(Indented(lines))[i] == lines[i] {
      assert (INDENT + lines[i])[2..] == lines[i];
    }
  }

  lemma ReadPastClose(rest: seq<string>)
    ensures ReadBodies([ENTRY_CLOSE] + rest) == ReadBodies(rest)
  {
    assert ([ENTRY_CLOSE] + rest)[1..] == rest;
    assert ENTRY_CLOSE[1] == '/' && ENTRY_OPEN[1] == 'e';
  }

  lemma ReadOne(e: Entry, rest: seq<string>)
    requires Unbroken(e.confidence)
    ensures ReadBodies(EntryLines(e) + rest) == [e.body] + ReadBodies(rest)
  {
    BulletIsOneLine(e);
    LinesOfUnbroken(Bullet(e));
    LinesRejoin(e.body);
    assert [ENTRY_OPEN] + Lines(Bullet(e)) == [ENTRY_OPEN, Bullet(e)];
    ReadFramed(Bullet(e), Lines(e.body), rest);
  }

  lemma ReadOneMore(e: Entry, lines: seq<string>, bodies: seq<string>, rest: seq<string>)
    requires Unbroken(e.confidence)
    requires ReadBodies(lines + rest) == bodies + ReadBodies(rest)
    ensures ReadBodies(EntryLines(e) + lines + rest) == [e.body] + bodies + ReadBodies(rest)
  {
    ReadOne(e, lines + rest);
    Extend(EntryLines(e) + lines, EntryLines(e), lines, rest);
    Extend([e.body] + bodies, [e.body], bodies, ReadBodies(rest));
  }

  lemma {:induction false} ReadAll(entries: seq<Entry>, rest: seq<string>)
    requires forall e :: e in entries ==> Unbroken(e.confidence)
    ensures ReadBodies(AllEntryLines(entries) + rest) == Bodies(entries) + ReadBodies(rest)
  {
    hide EntryLines, ReadBodies;
    if entries == [] {
      assert AllEntryLines(entries) + rest == rest;
    } else {
      ReadAll(entries[1..], rest);
      ReadOneMore(entries[0], AllEntryLines(entries[1..]), Bodies(entries[1..]), rest);
      assert Bodies(entries) == [entries[0].body] + Bodies(entries[1..]);
    }
  }

  lemma NotesAreNotEntries(note: string, rest: seq<string>)
    requires note != "" && note[0] == '('
    ensures ReadBodies([note] + rest) == ReadBodies(rest)
  {
    assert ([note] + rest)[1..] == rest;
  }

  /** The entries a section has to show: a space that could not be read has none. */
  function Shown(entries: seq<Entry>, unreadable: bool): seq<Entry> {
    if unreadable then [] else entries
  }

  predicate AllUnbroken(entries: seq<Entry>) {
    forall e :: e in entries ==> Unbroken(e.confidence)
  }

  lemma BodyReadsBack(entries: seq<Entry>, unreadable: bool, dropped: nat)
    requires AllUnbroken(Shown(entries, unreadable))
    ensures ReadBodies(BodyLines(entries, unreadable, dropped)) == Bodies(Shown(entries, unreadable))
  {
    var note := DroppedNote(dropped);
    assert ReadBodies(note) == [] by {
      if dropped > 0 {
        NotesAreNotEntries(Note(dropped), []);
        assert note == note + [];
      }
    }
    if unreadable || (entries == [] && dropped == 0) {
      assert Standing(unreadable)[0] == '(';
      NotesAreNotEntries(Standing(unreadable), note);
    } else {
      ReadAll(entries, note);
    }
  }

  lemma ReadPastLine(line: string, rest: seq<string>)
    requires line != ENTRY_OPEN
    ensures ReadBodies([line] + rest) == ReadBodies(rest)
  {
    assert ([line] + rest)[1..] == rest;
  }

  lemma HeadingIsOneLine(subject: string)
    ensures Unbroken(Heading(subject)) <==> Unbroken(subject)
    ensures Unbroken(subject) ==> Lines(Heading(subject)) == [Heading(subject)]
    ensures Heading(subject) != "" && Heading(subject)[0] == '#'
  {
    LinesOfUnbroken(Heading(subject));
    forall i | 0 <= i < |subject| ensures Heading(subject)[|"## From "| + i] == subject[i] {
    }
  }

  /** Whatever the titles, bodies and markers say, a reader of the delimiters gets back from the
      section as it is rendered every body it shows, whole and in order, and nothing else. */
  lemma SectionsReadBack(subject: string, entries: seq<Entry>, unreadable: bool, dropped: nat)
    requires Unbroken(subject) && AllUnbroken(Shown(entries, unreadable))
    ensures ReadBodies(SectionLines(subject, entries, unreadable, dropped)) == Bodies(Shown(entries, unreadable))
  {
    hide BodyLines;
    HeadingIsOneLine(subject);
    BodyReadsBack(entries, unreadable, dropped);
    ReadPastLine(Heading(subject), BodyLines(entries, unreadable, dropped));
  }

  function EntryDelimiters(entries: seq<Entry>): seq<string> {
    if entries == [] then [] else [ENTRY_OPEN, Bullet(entries[0]), ENTRY_CLOSE] + EntryDelimiters(entries[1..])
  }

  lemma {:induction false} EntriesColumnZero(entries: seq<Entry>)
    requires AllUnbroken(entries)
    ensures ColumnZero(AllEntryLines(entries)) == EntryDelimiters(entries)
  {
    if entries != [] {
      EntriesColumnZero(entries[1..]);
      UnbrokenColumnZero(entries[0]);
      ColumnZeroOfConcat(EntryLines(entries[0]), AllEntryLines(entries[1..]));
    }
  }

  /** What a section has at column zero after its heading: for each entry in order an opening
      delimiter, a bullet and a closing one, or what stands for having none, and then the
      node's own note of what it dropped. */
  function Frame(entries: seq<Entry>, unreadable: bool, dropped: nat): seq<string> {
    (if unreadable || (entries == [] && dropped == 0) then [Standing(unreadable)] else EntryDelimiters(entries)) +
    DroppedNote(dropped)
  }

  lemma BodyColumnZero(entries: seq<Entry>, unreadable: bool, dropped: nat)
    requires AllUnbroken(Shown(entries, unreadable))
    ensures ColumnZero(BodyLines(entries, unreadable, dropped)) == Frame(entries, unreadable, dropped)
  {
    NoteAtColumnZero(dropped);
    if unreadable || (entries == [] && dropped == 0) {
      assert Standing(unreadable)[0] == '(';
      AloneAtColumnZero(Standing(unreadable));
      ColumnZeroOfConcat([Standing(unreadable)], DroppedNote(dropped));
    } else {
      EntriesColumnZero(entries);
      ColumnZeroOfConcat(AllEntryLines(entries), DroppedNote(dropped));
    }
  }

  lemma {:induction false} DelimitersHoldBullets(entries: seq<Entry>)
    ensures forall e :: e in entries ==> Bullet(e) in EntryDelimiters(entries)
  {
    if entries != [] {
      hide Bullet;
      DelimitersHoldBullets(entries[1..]);
      assert EntryDelimiters(entries)[1] == Bullet(entries[0]);
      assert entries == [entries[0]] + entries[1..];
    }
  }

  lemma {:induction false} AllEntryLinesUnbroken(entries: seq<Entry>)
    ensures forall l :: l in AllEntryLines(entries) ==> Unbroken(l)
  {
    if entries != [] {
      hide EntryLines;
      AllEntryLinesUnbroken(entries[1..]);
      EntryLinesUnbroken(entries[0]);
    }
  }

  lemma SectionLinesUnbroken(subject: string, entries: seq<Entry>, unreadable: bool, dropped: nat)
    ensures forall l :: l in SectionLines(subject, entries, unreadable, dropped) ==> Unbroken(l)
  {
    LinesRejoin(Heading(subject));
    AllEntryLinesUnbroken(entries);
  }

  /** A rendered section has its heading and its frame at column zero and nothing else there,
      exactly where neither its subject nor the confidence of an entry it shows has a line
      break in it. */
  lemma SectionColumnZero(subject: string, entries: seq<Entry>, unreadable: bool, dropped: nat)
    ensures ColumnZero(SectionLines(subject, entries, unreadable, dropped)) ==
            [Heading(subject)] + Frame(entries, unreadable, dropped)
            <==> Unbroken(subject) && AllUnbroken(Shown(entries, unreadable))
  {
    if Unbroken(subject) && AllUnbroken(Shown(entries, unreadable)) {
      UnbrokenSectionColumnZero(subject, entries, unreadable, dropped);
    } else if ColumnZero(SectionLines(subject, entries, unreadable, dropped)) ==
              [Heading(subject)] + Frame(entries, unreadable, dropped) {
      FrameIsUnbroken(subject, entries, unreadable, dropped);
      assert false;
    }
  }

  lemma UnbrokenSectionColumnZero(subject: string, entries: seq<Entry>, unreadable: bool, dropped: nat)
    requires Unbroken(subject) && AllUnbroken(Shown(entries, unreadable))
    ensures ColumnZero(SectionLines(subject, entries, unreadable, dropped)) ==
            [Heading(subject)] + Frame(entries, unreadable, dropped)
  {
    hide BodyLines, Frame, Heading;
    HeadingIsOneLine(subject);
    BodyColumnZero(entries, unreadable, dropped);
    AloneAtColumnZero(Heading(subject));
    ColumnZeroOfConcat([Heading(subject)], BodyLines(entries, unreadable, dropped));
  }

  lemma FrameIsUnbroken(subject: string, entries: seq<Entry>, unreadable: bool, dropped: nat)
    requires ColumnZero(SectionLines(subject, entries, unreadable, dropped)) ==
             [Heading(subject)] + Frame(entries, unreadable, dropped)
    ensures Unbroken(subject) && AllUnbroken(Shown(entries, unreadable))
  {
    hide SectionLines, Heading, Bullet, ColumnZero, Standing, Note;
    var frame := Frame(entries, unreadable, dropped);
    var all := [Heading(subject)] + frame;
    SectionLinesUnbroken(subject, entries, unreadable, dropped);
    ColumnZeroIsPart(SectionLines(subject, entries, unreadable, dropped));
    HeadingIsOneLine(subject);
    assert all[0] == Heading(subject);
    DelimitersHoldBullets(entries);
    forall e | e in Shown(entries, unreadable) ensures Unbroken(e.confidence) {
      BulletIsOneLine(e);
      assert Bullet(e) in frame;
      assert Bullet(e) in all;
    }
  }

  lemma NoteAtColumnZero(dropped: nat)
    ensures ColumnZero(DroppedNote(dropped)) == DroppedNote(dropped)
  {
    if dropped > 0 {
      assert DroppedNote(dropped)[1..] == [];
    }
  }

  /** A name with an entry of its own in it, delimiters and all, forges that entry in the heading
      of its member's memory, whatever the section shows. */
  lemma BrokenNameForges(name: string, first: string, e: Entry, last: string, entries: seq<Entry>, unreadable: bool, dropped: nat)
    requires Lines(name) == [first] + EntryLines(e) + [last] && Unbroken(e.confidence)
    requires AllUnbroken(Shown(entries, unreadable))
    ensures ReadBodies(SectionLines(name + "'s private memory", entries, unreadable, dropped)) ==
            [e.body] + Bodies(Shown(entries, unreadable))
  {
    hide BodyLines, EntryLines, ReadBodies;
    var end, body := last + "'s private memory", BodyLines(entries, unreadable, dropped);
    LinesRejoin(name);
    NameInHeading(name, first, EntryLines(e), last);
    assert SectionLines(name + "'s private memory", entries, unreadable, dropped) ==
      [Heading(first)] + (EntryLines(e) + ([end] + body));
    assert Heading(first)[0] == '#' && end[|end| - 1] == 'y';
    ReadPastLine(Heading(first), EntryLines(e) + ([end] + body));
    ReadOne(e, [end] + body);
    ReadPastLine(end, body);
    BodyReadsBack(entries, unreadable, dropped);
  }

  lemma NameInHeading(name: string, first: string, middle: seq<string>, last: string)
    requires Lines(name) == [first] + middle + [last]
    ensures Lines(Heading(name + "'s private memory")) == [Heading(first)] + middle + [last + "'s private memory"]
  {
    hide Lines;
    var tail := "'s private memory";
    LinesRejoin(name);
    LinesAfter("## From ", name + tail);
    LinesOfUnbroken(tail);
    LinesOfAppend(name, tail);
  }

  /** Such a name. */
  const FORGER := "Eve" + "\n" + (ENTRY_OPEN + "\n" + ("- x [c]" + "\n" + ("  b" + "\n" + (ENTRY_CLOSE + "\n" + "Eve"))))

  /** Nothing is known of Eve, and a reader of her memory's section finds an entry in it. */
  lemma AForgingName()
    ensures ReadBodies(SectionLines(FORGER + "'s private memory", [], false, 0)) == ["b"]
  {
    var e := Entry("", "x", "b", "c", []);
    ShortEntry(e);
    LinesOfEve();
    assert Unbroken(e.confidence);
    BrokenNameForges(FORGER, "Eve", e, "Eve", [], false, 0);
  }

  lemma ShortClaim(e: Entry)
    requires e.title == "x" && e.confidence == "c"
    ensures Claim(e) == "- x [c]"
  {
    assert "x"[1..] == "";
    assert ReplaceReturns("") == "" && ReplaceBreaks("") == "";
    assert ReplaceReturns("x") == "x";
    assert ReplaceBreaks("x") == "x";
  }

  lemma ShortEntry(e: Entry)
    requires e.title == "x" && e.body == "b" && e.confidence == "c" && e.markers == []
    ensures EntryLines(e) == [ENTRY_OPEN, "- x [c]", "  b", ENTRY_CLOSE]
  {
    ShortClaim(e);
    LinesOfUnbroken("- x [c]");
    LinesOfUnbroken("b");
    assert INDENT + "b" == "  b";
    assert Indented(["b"]) == ["  b"];
  }

  lemma LinesOfEve()
    ensures Lines(FORGER) == ["Eve"] + [ENTRY_OPEN, "- x [c]", "  b", ENTRY_CLOSE] + ["Eve"]
  {
    hide Lines;
    LinesOfBreak("Eve", ENTRY_OPEN + "\n" + ("- x [c]" + "\n" + ("  b" + "\n" + (ENTRY_CLOSE + "\n" + "Eve"))));
    LinesOfBreak(ENTRY_OPEN, "- x [c]" + "\n" + ("  b" + "\n" + (ENTRY_CLOSE + "\n" + "Eve")));
    LinesOfBreak("- x [c]", "  b" + "\n" + (ENTRY_CLOSE + "\n" + "Eve"));
    LinesOfBreak("  b", ENTRY_CLOSE + "\n" + "Eve");
    LinesOfBreak(ENTRY_CLOSE, "Eve");
    LinesOfUnbroken("Eve");
    LinesOfUnbroken(ENTRY_OPEN);
    LinesOfUnbroken("- x [c]");
    LinesOfUnbroken("  b");
    LinesOfUnbroken(ENTRY_CLOSE);
  }

  /** A confidence that closes the entry it is on and opens another. */
  function Forged(claim: string): string {
    "]" + "\n" + (ENTRY_CLOSE + "\n" + (ENTRY_OPEN + "\n" + claim))
  }

  lemma LinesOfForged(prefix: string, claim: string)
    requires Unbroken(prefix) && Unbroken(claim)
    ensures Lines(prefix + Forged(claim)) == [prefix + "]", ENTRY_CLOSE, ENTRY_OPEN, claim]
  {
    hide Lines;
    LinesOfBreak("]", ENTRY_CLOSE + "\n" + (ENTRY_OPEN + "\n" + claim));
    LinesOfBreak(ENTRY_CLOSE, ENTRY_OPEN + "\n" + claim);
    LinesOfBreak(ENTRY_OPEN, claim);
    LinesOfUnbroken("]");
    LinesOfUnbroken(ENTRY_CLOSE);
    LinesOfUnbroken(ENTRY_OPEN);
    LinesOfUnbroken(claim);
    LinesAfter(prefix, Forged(claim));
  }

  lemma ForgedGoesOn(claim: string, more: string)
    ensures Forged(claim) + more == Forged(claim + more)
  {
    Assoc(ENTRY_OPEN + "\n", claim, more);
    Assoc(ENTRY_CLOSE + "\n", ENTRY_OPEN + "\n" + claim, more);
    Assoc("]" + "\n", ENTRY_CLOSE + "\n" + (ENTRY_OPEN + "\n" + claim), more);
  }

  lemma ForgedBullet(e: Entry, claim: string) returns (first: string, second: string)
    requires e.confidence == Forged(claim) && Unbroken(claim)
    ensures Lines(Bullet(e)) == [first, ENTRY_CLOSE, ENTRY_OPEN, second]
  {
    var prefix := "- " + OneLine(e.title) + " [";
    first, second := prefix + "]", claim + "]";
    Assoc(prefix, Forged(claim), "]");
    ForgedGoesOn(claim, "]");
    if e.markers != [] {
      var markers := OneLine(Join(e.markers, ", "));
      Assoc(prefix, Forged(second), " (");
      ForgedGoesOn(second, " (");
      Assoc(prefix, Forged(second + " ("), markers);
      ForgedGoesOn(second + " (", markers);
      Assoc(prefix, Forged(second + " (" + markers), ")");
      ForgedGoesOn(second + " (" + markers, ")");
      second := second + " (" + markers + ")";
    }
    assert Bullet(e) == prefix + Forged(second);
    LinesOfForged(prefix, second);
  }

  /** A confidence that does carry breaks can forge: of this one entry, whatever it says, the
      reader makes two. */
  lemma BrokenConfidenceForges(e: Entry)
    requires e.confidence == Forged("- x [")
    ensures ReadBodies(EntryLines(e)) == ["", e.body]
  {
    var first, second := ForgedBullet(e, "- x [");
    var body := Lines(e.body);
    var rest := [ENTRY_OPEN, second] + (Indented(body) + [ENTRY_CLOSE]);
    assert EntryLines(e) == [ENTRY_OPEN, first, ENTRY_CLOSE] + rest;
    ReadForged(first, rest);
    LinesRejoin(e.body);
    ReadFramed(second, body, []);
    assert rest == [ENTRY_OPEN, second] + Indented(body) + [ENTRY_CLOSE] + [];
  }

  lemma ReadForged(bullet: string, rest: seq<string>)
    ensures ReadBodies([ENTRY_OPEN, bullet, ENTRY_CLOSE] + rest) == [""] + ReadBodies(rest)
  {
    ReadFramed(bullet, [], rest);
    assert [ENTRY_OPEN, bullet] + Indented([]) + [ENTRY_CLOSE] + rest == [ENTRY_OPEN, bullet, ENTRY_CLOSE] + rest;
  }

  // ---- the persona block ----

  datatype Field = Field(name: string, value: string)

  const PERSONA_OPEN: Line := "<persona>"
  const PERSONA_CLOSE: Line := "</persona>"

  function Fields(language: string, tone: string, character: string): seq<Field> {
    [Field("Language", language), Field("Register", tone), Field("Character", character)]
  }

  function Stated(fields: seq<Field>): seq<Field> {
    if fields == [] then []
    else Stated(fields[..|fields| - 1]) +
         if TrimSpace(fields[|fields| - 1].value) == "" then [] else [fields[|fields| - 1]]
  }

  function FieldLines(fields: seq<Field>): seq<string> {
    if fields == [] then []
    else FieldLines(fields[..|fields| - 1]) +
         [fields[|fields| - 1].name + ":", INDENT + OneLine(fields[|fields| - 1].value)]
  }

  function PersonaLines(language: string, tone: string, character: string): seq<string> {
    Block(Stated(Fields(language, tone, character)))
  }

  /** Nothing at all where no wording was asked for. */
  method RenderPersona(language: string, tone: string, character: string) returns (b: string)
    ensures b == "" <==> language == "" && tone == "" && character == ""
    ensures b != "" ==> Lines(b) == PersonaLines(language, tone, character)
  {
    if language == "" && tone == "" && character == "" {
      return "";
    }
    b := RenderBlock(Fields(language, tone, character));
  }

  method RenderBlock(fields: seq<Field>) returns (b: string)
    requires forall f :: f in fields ==> Unbroken(f.name)
    ensures Lines(b) == Block(Stated(fields))
  {
    b := PERSONA_OPEN;
    LinesOfUnbroken(PERSONA_OPEN);
    b := RenderFields(fields, b);
    LinesOfOwnLine(b, PERSONA_CLOSE);
    b := b + "\n";
    b := b + PERSONA_CLOSE;
  }

  method RenderFields(fields: seq<Field>, before: string) returns (b: string)
    requires forall f :: f in fields ==> Unbroken(f.name)
    ensures Lines(b) == Lines(before) + FieldLines(Stated(fields))
  {
    hide Lines, OneLine, TrimSpace, FieldLines, Stated;
    NothingStated();
    b := before;
    var i := 0;
    while i < |fields|
      invariant 0 <= i <= |fields|
      invariant Lines(b) == Lines(before) + FieldLines(Stated(fields[..i]))
    {
      var f := fields[i];
      StatedOneMore(fields[..i], f);
      assert fields[..i + 1] == fields[..i] + [f];
      if TrimSpace(f.value) != "" {
        FieldWritten(before, Stated(fields[..i]), b, f);
        b := b + "\n";
        b := b + f.name;
        b := b + ":\n  ";
        b := b + OneLine(f.value);
      }
      i := i + 1;
    }
    assert fields[..i] == fields;
  }

  lemma NothingStated()
    ensures FieldLines(Stated([])) == []
  {
  }

  lemma StatedOneMore(fields: seq<Field>, f: Field)
    ensures Stated(fields + [f]) == if TrimSpace(f.value) == "" then Stated(fields) else Stated(fields) + [f]
  {
    assert (fields + [f])[..|fields|] == fields;
  }

  lemma FieldLinesOneMore(fields: seq<Field>, f: Field)
    ensures FieldLines(fields + [f]) == FieldLines(fields) + [f.name + ":", INDENT + OneLine(f.value)]
  {
    assert (fields + [f])[..|fields|] == fields;
  }

  lemma FieldWritten(before: string, done: seq<Field>, b: string, f: Field)
    requires Unbroken(f.name)
    requires Lines(b) == Lines(before) + FieldLines(done)
    ensures Lines(b + "\n" + f.name + ":\n  " + OneLine(f.value)) == Lines(before) + FieldLines(done + [f])
  {
    var value := OneLine(f.value);
    FieldLinesOneMore(done, f);
    LinesOfField(b, f.name, value);
    Extend(Lines(b), Lines(before), FieldLines(done), [f.name + ":", INDENT + value]);
  }

  lemma LinesOfField(b: string, name: string, value: string)
    requires Unbroken(name) && Unbroken(value)
    ensures Lines(b + "\n" + name + ":\n  " + value) == Lines(b) + [name + ":", INDENT + value]
  {
    LinesOfOwnLine(b, name + ":");
    LinesOfIndented(b + "\n" + (name + ":"), value);
    Assoc(b + "\n", name, ":");
    assert ":" + "\n  " == ":\n  ";
    Assoc(b + "\n" + name, ":", "\n  ");
  }

  function LabelLines(fields: seq<Field>): seq<string> {
    seq(|fields|, i requires 0 <= i < |fields| => fields[i].name + ":")
  }

  function Values(fields: seq<Field>): seq<string> {
    seq(|fields|, i requires 0 <= i < |fields| => OneLine(fields[i].value))
  }

  /** The values, as a reader of the labels finds them. */
  function ReadValues(lines: seq<string>): seq<string> {
    if |lines| < 2 then [] else [if INDENT <= lines[1] then lines[1][2..] else lines[1]] + ReadValues(lines[2..])
  }

  predicate Labelled(fields: seq<Field>) {
    forall f :: f in fields ==> Unbroken(f.name) && f.name != "" && f.name[0] != ' '
  }

  lemma AloneAtColumnZero(line: string)
    requires line != "" && line[0] != ' '
    ensures ColumnZero([line]) == [line]
  {
    assert [line][1..] == [];
  }

  lemma NameAtColumnZero(name: string, value: string)
    requires name != "" && name[0] != ' ' && !AtColumnZero(value)
    ensures ColumnZero([name, value]) == [name]
  {
    assert [value][1..] == [];
    assert ColumnZero([value]) == [];
    assert [name, value][1..] == [value];
  }

  lemma {:induction false} FieldLinesAre(fields: seq<Field>)
    requires Labelled(fields)
    ensures forall l :: l in FieldLines(fields) ==> Unbroken(l)
    ensures ColumnZero(FieldLines(fields)) == LabelLines(fields)
    ensures |FieldLines(fields)| == 2 * |fields|
  {
    if fields != [] {
      var n := |fields| - 1;
      var name, value := fields[n].name + ":", INDENT + OneLine(fields[n].value);
      FieldLinesAre(fields[..n]);
      assert name[0] == fields[n].name[0];
      NameAtColumnZero(name, value);
      ColumnZeroOfConcat(FieldLines(fields[..n]), [name, value]);
    }
  }

  lemma {:induction false} ReadValuesOneMore(lines: seq<string>, name: string, value: string)
    requires |lines| % 2 == 0
    ensures ReadValues(lines + [name, INDENT + value]) == ReadValues(lines) + [value]
  {
    var all := lines + [name, INDENT + value];
    if lines == [] {
      assert all[2..] == [];
    } else {
      ReadValuesOneMore(lines[2..], name, value);
      assert all[2..] == lines[2..] + [name, INDENT + value];
    }
  }

  lemma {:induction false} FieldsReadBack(fields: seq<Field>)
    requires Labelled(fields)
    ensures ReadValues(FieldLines(fields)) == Values(fields)
  {
    if fields != [] {
      var n := |fields| - 1;
      FieldsReadBack(fields[..n]);
      FieldLinesAre(fields[..n]);
      ReadValuesOneMore(FieldLines(fields[..n]), fields[n].name + ":", OneLine(fields[n].value));
    }
  }

  lemma {:induction false} StatedIsPart(fields: seq<Field>)
    ensures forall f :: f in Stated(fields) ==> f in fields
  {
    if fields != [] {
      StatedIsPart(fields[..|fields| - 1]);
    }
  }

  function Block(fields: seq<Field>): seq<string> { [PERSONA_OPEN] + FieldLines(fields) + [PERSONA_CLOSE] }

  lemma BlockReadsBack(fields: seq<Field>)
    requires Labelled(fields)
    ensures |Block(fields)| == 2 * |fields| + 2
    ensures ColumnZero(Block(fields)) == [PERSONA_OPEN] + LabelLines(fields) + [PERSONA_CLOSE]
    ensures ReadValues(Block(fields)[1..|Block(fields)| - 1]) == Values(fields)
  {
    FieldLinesAre(fields);
    FieldsReadBack(fields);
    var inner := FieldLines(fields);
    assert Block(fields)[1..|Block(fields)| - 1] == inner;
    ColumnZeroOfConcat([PERSONA_OPEN] + inner, [PERSONA_CLOSE]);
    ColumnZeroOfConcat([PERSONA_OPEN], inner);
    AloneAtColumnZero(PERSONA_OPEN);
    AloneAtColumnZero(PERSONA_CLOSE);
  }

  /** A persona cannot close its own block, or add to it: at column zero there are the two
      delimiters and the labels of what was stated, and under each label its own value. */
  lemma PersonasReadBack(language: string, tone: string, character: string)
    ensures var stated := Stated(Fields(language, tone, character));
            var lines := PersonaLines(language, tone, character);
            && |lines| == 2 * |stated| + 2
            && ColumnZero(lines) == [PERSONA_OPEN] + LabelLines(stated) + [PERSONA_CLOSE]
            && ReadValues(lines[1..|lines| - 1]) == Values(stated)
  {
    var fields := Fields(language, tone, character);
    StatedIsPart(fields);
    FieldsAreLabelled(language, tone, character);
    BlockReadsBack(Stated(fields));
  }

  lemma FieldsAreLabelled(language: string, tone: string, character: string)
    ensures Labelled(Fields(language, tone, character))
  {
  }
}
