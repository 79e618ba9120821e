/** The prompt laid out as messages, and what a request is reckoned to cost. */
module Messages {
  import opened Text

  datatype Role = System | User | Assistant
  datatype Message = Message(role: Role, content: string)

  /** What was said to the assistant and what it answered; no answer for what it only heard. */
  datatype TurnRecord = TurnRecord(user: string, assistant: string)

  // ---- what there is to say, piece by piece ----

  function Piece(role: Role, content: string): seq<Message> {
    if content == "" then [] else [Message(role, content)]
  }

  function Pieces(hist: seq<TurnRecord>): seq<Message> {
    if hist == [] then []
    else Piece(User, hist[0].user) + Piece(Assistant, hist[0].assistant) + Pieces(hist[1..])
  }

  function AllPieces(system: string, hist: seq<TurnRecord>, text: string): seq<Message> {
    [Message(System, system)] + Pieces(hist) + [Message(User, text)]
  }

  /** What came of one turn: nothing of what was not said, and what was said before its answer. */
  ghost predicate OfTurn(pieces: seq<Message>, t: TurnRecord) {
    && |pieces| == (if t.user != "" then 1 else 0) + (if t.assistant != "" then 1 else 0)
    && (t.user != "" ==> pieces[0] == Message(User, t.user))
    && (t.assistant != "" ==> pieces[|pieces| - 1] == Message(Assistant, t.assistant))
  }

  lemma {:induction false} PiecesOfMore(hist: seq<TurnRecord>, more: seq<TurnRecord>)
    ensures Pieces(hist + more) == Pieces(hist) + Pieces(more)
  {
    hide Piece;
    if hist == [] {
      assert hist + more == more;
    } else {
      PiecesOfMore(hist[1..], more);
      assert (hist + more)[1..] == hist[1..] + more;
      var first, rest, last := Piece(User, hist[0].user) + Piece(Assistant, hist[0].assistant), Pieces(hist[1..]), Pieces(more);
      assert first + (rest + last) == first + rest + last;
    }
  }

  lemma PiecesOfOne(t: TurnRecord)
    ensures OfTurn(Pieces([t]), t)
  {
    assert Pieces([t]) == Piece(User, t.user) + Piece(Assistant, t.assistant) + Pieces([]);
  }

  /** Every turn is told, in the order the turns were had. */
  lemma TurnsInOrder(hist: seq<TurnRecord>, i: nat) returns (told: seq<Message>)
    requires i < |hist|
    ensures OfTurn(told, hist[i]) && Pieces(hist) == Pieces(hist[..i]) + told + Pieces(hist[i + 1..])
  {
    hide OfTurn, Pieces;
    var before, here, after := hist[..i], [hist[i]], hist[i + 1..];
    told := Pieces(here);
    PiecesOfOne(hist[i]);
    PiecesOfMore(before, here);
    PiecesOfMore(before + here, after);
    assert hist == before + here + after;
  }

  // ---- the pieces grouped by who says them ----

  type Run = r: seq<Message> | r != [] witness [Message(System, "")]

  /** One more piece in front of those already grouped. */
  function InFront(p: Message, runs: seq<Run>): (r: seq<Run>)
    ensures r != []
  {
    if runs != [] && runs[0][0].role == p.role then [[p] + runs[0]] + runs[1..] else [[p]] + runs
  }

  function Runs(pieces: seq<Message>): seq<Run> {
    if pieces == [] then [] else InFront(pieces[0], Runs(pieces[1..]))
  }

  function Flat(runs: seq<Run>): seq<Message> {
    if runs == [] then [] else runs[0] + Flat(runs[1..])
  }

  predicate OneVoice(run: Run) {
    forall m :: m in run ==> m.role == run[0].role
  }

  /** Every run is one speaker's, and the speaker changes from each to the next. */
  predicate Grouped(runs: seq<Run>) {
    && (forall i :: 0 <= i < |runs| ==> OneVoice(runs[i]))
    && (forall i :: 0 < i < |runs| ==> runs[i - 1][0].role != runs[i][0].role)
  }

  function Contents(run: seq<Message>): seq<string> {
    seq(|run|, i requires 0 <= i < |run| => run[i].content)
  }

  /** A run is one message, its pieces joined by line breaks. */
  function Spoken(run: Run): Message {
    Message(run[0].role, Join(Contents(run), "\n"))
  }

  function Told(runs: seq<Run>): seq<Message> {
    seq(|runs|, i requires 0 <= i < |runs| => Spoken(runs[i]))
  }

  lemma GroupedInFront(p: Message, runs: seq<Run>)
    requires Grouped(runs)
    ensures Flat(InFront(p, runs)) == [p] + Flat(runs)
    ensures Grouped(InFront(p, runs))
  {
    if runs != [] && runs[0][0].role == p.role {
      assert InFront(p, runs)[1..] == runs[1..];
      assert [p] + runs[0] + Flat(runs[1..]) == [p] + (runs[0] + Flat(runs[1..]));
    } else {
      assert InFront(p, runs)[1..] == runs;
    }
  }

  lemma {:induction false} RunsAreGrouped(pieces: seq<Message>)
    ensures Flat(Runs(pieces)) == pieces
    ensures Grouped(Runs(pieces))
  {
    if pieces != [] {
      RunsAreGrouped(pieces[1..]);
      GroupedInFront(pieces[0], Runs(pieces[1..]));
    }
  }

  /** There is no other way to group them. */
  lemma {:induction false} GroupingIsUnique(runs: seq<Run>)
    requires Grouped(runs)
    ensures Runs(Flat(runs)) == runs
  {
    if runs != [] {
      var rest := runs[1..];
      forall i | 0 < i < |rest| ensures rest[i - 1][0].role != rest[i][0].role {
        assert runs[i][0].role != runs[i + 1][0].role;
      }
      GroupingIsUnique(rest);
      if rest != [] { assert rest[0] == runs[1] && runs[0][0].role != runs[1][0].role; }
      RunInFront(runs[0], Flat(rest));
      assert [runs[0]] + rest == runs;
    }
  }

  /** A whole run in front of pieces that somebody else begins. */
  lemma {:induction false} RunInFront(run: Run, pieces: seq<Message>)
    requires OneVoice(run)
    requires Runs(pieces) != [] ==> Runs(pieces)[0][0].role != run[0].role
    ensures Runs(run + pieces) == [run] + Runs(pieces)
    decreases |run|
  {
    assert (run + pieces)[1..] == run[1..] + pieces;
    if |run| == 1 {
      assert run[1..] + pieces == pieces;
      assert run == [run[0]];
    } else {
      var tail: Run := run[1..];
      forall m | m in tail ensures m.role == tail[0].role { assert m in run; }
      RunInFront(tail, pieces);
      assert ([tail] + Runs(pieces))[1..] == Runs(pieces);
      assert [run[0]] + tail == run;
    }
  }

  function AtEnd(runs: seq<Run>, p: Message): seq<Run> {
    if runs != [] && runs[|runs| - 1][0].role == p.role
    then runs[..|runs| - 1] + [runs[|runs| - 1] + [p]]
    else runs + [[p]]
  }

  lemma {:induction false} FlatAtEnd(runs: seq<Run>, p: Message)
    ensures Flat(AtEnd(runs, p)) == Flat(runs) + [p]
  {
    if runs == [] {
      assert ([] + [[p]])[1..] == [];
    } else if |runs| == 1 && runs[0][0].role == p.role {
      assert AtEnd(runs, p) == [runs[0] + [p]];
    } else {
      FlatAtEnd(runs[1..], p);
      assert AtEnd(runs, p)[1..] == AtEnd(runs[1..], p);
      assert AtEnd(runs, p)[0] == runs[0];
    }
  }

  lemma GroupedAtEnd(runs: seq<Run>, p: Message)
    requires Grouped(runs)
    ensures Grouped(AtEnd(runs, p))
  {
  }

  /** One more piece behind them goes on with the last run or begins another. */
  lemma RunsAtEnd(pieces: seq<Message>, p: Message)
    ensures Runs(pieces + [p]) == AtEnd(Runs(pieces), p)
  {
    RunsAreGrouped(pieces);
    FlatAtEnd(Runs(pieces), p);
    GroupedAtEnd(Runs(pieces), p);
    GroupingIsUnique(AtEnd(Runs(pieces), p));
  }

  lemma {:induction false} JoinAtEnd(parts: seq<string>, s: string)
    requires parts != []
    ensures Join(parts + [s], "\n") == Join(parts, "\n") + "\n" + s
  {
    if |parts| == 1 {
      assert (parts + [s])[1..] == [s];
    } else {
      JoinAtEnd(parts[1..], s);
      assert (parts + [s])[1..] == parts[1..] + [s];
    }
  }

  lemma SpokenAtEnd(run: Run, p: Message)
    ensures Spoken(run + [p]) == Message(run[0].role, Spoken(run).content + "\n" + p.content)
  {
    JoinAtEnd(Contents(run), p.content);
    assert Contents(run + [p]) == Contents(run) + [p.content];
  }

  // ---- laying it out ----

  /** Goes on with the last message where the role is the same, and begins one where not. */
  method Put(msgs: seq<Message>, role: Role, content: string, ghost pieces: seq<Message>) returns (r: seq<Message>)
    requires pieces != [] && msgs == Told(Runs(pieces))
    ensures r == Told(Runs(pieces + [Message(role, content)]))
  {
    ghost var runs, p := Runs(pieces), Message(role, content);
    RunsAtEnd(pieces, p);
    var n := |msgs| - 1;
    if msgs[n].role == role {
      SpokenAtEnd(runs[n], p);
      assert Told(AtEnd(runs, p)) == Told(runs)[n := Spoken(runs[n] + [p])];
      return msgs[n := msgs[n].(content := msgs[n].content + "\n" + content)];
    }
    assert Contents([p]) == [content];
    assert Told(AtEnd(runs, p)) == Told(runs) + [p];
    r := msgs + [Message(role, content)];
  }

  method Add(msgs: seq<Message>, role: Role, content: string, ghost pieces: seq<Message>) returns (r: seq<Message>)
    requires pieces != [] && msgs == Told(Runs(pieces))
    ensures r == Told(Runs(pieces + Piece(role, content)))
  {
    if content == "" {
      assert pieces + [] == pieces;
      return msgs;
    }
    r := Put(msgs, role, content, pieces);
  }

  lemma ToldAlone(m: Message)
    ensures Told(Runs([m])) == [m]
  {
    assert Contents([m]) == [m.content];
    assert [m][1..] == [];
  }

  method BuildMessages(system: string, hist: seq<TurnRecord>, text: string) returns (msgs: seq<Message>)
    ensures msgs == Told(Runs(AllPieces(system, hist, text)))
  {
    hide Told, Runs;
    ghost var pieces := [Message(System, system)];
    msgs := [Message(System, system)];
    ToldAlone(msgs[0]);
    var i := 0;
    while i < |hist|
      invariant 0 <= i <= |hist|
      invariant pieces != [] && msgs == Told(Runs(pieces))
      invariant pieces + Pieces(hist[i..]) == [Message(System, system)] + Pieces(hist)
    {
      var t := hist[i];
      ghost var user, assistant := Piece(User, t.user), Piece(Assistant, t.assistant);
      msgs := Add(msgs, User, t.user, pieces);
      msgs := Add(msgs, Assistant, t.assistant, pieces + user);
      assert hist[i..][1..] == hist[i + 1..];
      assert pieces + (user + assistant + Pieces(hist[i + 1..])) == pieces + user + assistant + Pieces(hist[i + 1..]);
      pieces := pieces + user + assistant;
      i := i + 1;
    }
    assert pieces + [] == pieces;
    msgs := Put(msgs, User, text, pieces);
  }

  lemma {:induction false} PiecesAreTurns(hist: seq<TurnRecord>)
    ensures forall m :: m in Pieces(hist) ==> m.role != System && m.content != ""
  {
    if hist != [] {
      PiecesAreTurns(hist[1..]);
    }
  }

  lemma LastIsSaid(pieces: seq<Message>, p: Message)
    ensures var runs := Runs(pieces + [p]);
            && runs != [] && runs[|runs| - 1][0].role == p.role
            && runs[|runs| - 1][|runs[|runs| - 1]| - 1] == p
  {
    RunsAtEnd(pieces, p);
  }

  /** Nothing is lost or reordered, no two neighbours have the same role, the prompt is a
      message by itself at the front and the last message is the member's. */
  lemma LayoutIs(system: string, hist: seq<TurnRecord>, text: string)
    ensures var runs := Runs(AllPieces(system, hist, text)); var msgs := Told(runs);
            && Flat(runs) == AllPieces(system, hist, text) && Grouped(runs)
            && |msgs| >= 2 && msgs[0] == Message(System, system)
            && (forall i :: 0 < i < |msgs| ==> msgs[i].role != System && msgs[i].role != msgs[i - 1].role)
            && msgs[|msgs| - 1].role == User
            && runs[|runs| - 1][|runs[|runs| - 1]| - 1] == Message(User, text)
  {
    hide Runs, Flat, AtEnd, Pieces;
    var first, rest, last := Message(System, system), Pieces(hist), Message(User, text);
    PiecesAreTurns(hist);
    SystemStandsAlone(first, rest + [last]);
    assert [first] + (rest + [last]) == AllPieces(system, hist, text);
    RunsAreGrouped(AllPieces(system, hist, text));
    LastIsSaid([first] + rest, last);
    assert Contents([first]) == [system];
  }

  lemma SystemStandsAlone(first: Message, rest: seq<Message>)
    requires first.role == System && rest != []
    requires forall m :: m in rest ==> m.role != System
    ensures Runs([first] + rest) == [[first]] + Runs(rest)
    ensures Runs(rest) != []
    ensures forall i :: 0 <= i < |Runs(rest)| ==> Runs(rest)[i][0].role != System
  {
    RunsAreGrouped(rest);
    forall i | 0 <= i < |Runs(rest)| ensures Runs(rest)[i][0] in rest { InFlat(Runs(rest), i); }
    RunInFront([first], rest);
  }

  lemma {:induction false} InFlat(runs: seq<Run>, i: nat)
    requires i < |runs|
    ensures runs[i][0] in Flat(runs)
  {
    if i == 0 {
      assert Flat(runs)[0] == runs[0][0];
    } else {
      InFlat(runs[1..], i - 1);
    }
  }

  // ---- what it is reckoned to cost ----

  const PER_MESSAGE: nat := 8

  function Ascii(s: string): (n: nat)
    ensures n <= |s|
  {
    if s == "" then 0 else (if s[0] as int < 128 then 1 else 0) + Ascii(s[1..])
  }

  /** A token for every three characters of ASCII or part of three, and one for any other. */
  function Tokens(s: string): nat { (Ascii(s) + 2) / 3 + (|s| - Ascii(s)) }

  function Total(msgs: seq<Message>): nat {
    if msgs == [] then 0 else PER_MESSAGE + Tokens(msgs[0].content) + Total(msgs[1..])
  }

  method EstimateTokens(s: string) returns (n: nat)
    ensures n == Tokens(s)
  {
    var ascii, other := 0, 0;
    var i := 0;
    while i < |s|
      invariant 0 <= i <= |s|
      invariant 0 <= ascii && 0 <= other && ascii + other == i
      invariant ascii + Ascii(s[i..]) == Ascii(s)
    {
      assert s[i..][1..] == s[i + 1..];
      if s[i] as int < 128 {
        ascii := ascii + 1;
      } else {
        other := other + 1;
      }
      i := i + 1;
    }
    n := (ascii + 2) / 3 + other;
  }

  method EstimateRequestTokens(msgs: seq<Message>) returns (total: nat)
    ensures total == Total(msgs)
  {
    total := 0;
    var i := 0;
    while i < |msgs|
      invariant 0 <= i <= |msgs|
      invariant total + Total(msgs[i..]) == Total(msgs)
    {
      assert msgs[i..][1..] == msgs[i + 1..];
      var n := EstimateTokens(msgs[i].content);
      total := total + PER_MESSAGE + n;
      i := i + 1;
    }
  }

  lemma {:induction false} AsciiOfConcat(a: string, b: string)
    ensures Ascii(a + b) == Ascii(a) + Ascii(b)
  {
    if a == "" {
      assert a + b == b;
    } else {
      AsciiOfConcat(a[1..], b);
      assert (a + b)[1..] == a[1..] + b;
    }
  }

  /** Text joined to text by a line break costs no more than the two and one more. */
  lemma TokensOfJoin(a: string, b: string)
    ensures Tokens(b) <= Tokens(a + "\n" + b) <= Tokens(a) + Tokens(b) + 1
  {
    AsciiOfConcat(a, "\n" + b);
    AsciiOfConcat("\n", b);
    assert a + "\n" + b == a + ("\n" + b);
  }

  lemma SpokenInFront(p: Message, run: Run)
    ensures Spoken([p] + run).content == p.content + "\n" + Spoken(run).content
  {
    assert Contents([p] + run)[1..] == Contents(run);
  }

  /** What a piece in front of the others adds to the cost. */
  lemma TotalInFront(p: Message, runs: seq<Run>)
    ensures Total(Told(runs)) <= Total(Told(InFront(p, runs)))
    ensures Total(Told(InFront(p, runs))) + 7 * (|runs| + 1 - |InFront(p, runs)|) <=
            PER_MESSAGE + Tokens(p.content) + Total(Told(runs))
  {
    if runs != [] && runs[0][0].role == p.role {
      SpokenInFront(p, runs[0]);
      TokensOfJoin(p.content, Spoken(runs[0]).content);
      assert Told(InFront(p, runs))[1..] == Told(runs[1..]) == Told(runs)[1..];
    } else {
      assert Contents([p]) == [p.content];
      assert Told(InFront(p, runs))[1..] == Told(runs);
    }
  }

  /** Merging never costs: each piece that went on an earlier message saves seven tokens at least. */
  lemma {:induction false} MergingSaves(pieces: seq<Message>)
    ensures |Runs(pieces)| <= |pieces|
    ensures Total(Told(Runs(pieces))) + 7 * (|pieces| - |Runs(pieces)|) <= Total(pieces)
  {
    if pieces == [] {
      assert Told(Runs(pieces)) == [];
    } else {
      MergingSaves(pieces[1..]);
      TotalInFront(pieces[0], Runs(pieces[1..]));
    }
  }

  /** What the whole layout is reckoned to cost. */
  function Cost(system: string, hist: seq<TurnRecord>, text: string): nat {
    Total(Told(Runs(AllPieces(system, hist, text))))
  }

  lemma {:induction false} FewerInFront(front: seq<Message>, pieces: seq<Message>)
    ensures Total(Told(Runs(pieces))) <= Total(Told(Runs(front + pieces)))
  {
    if front == [] {
      assert front + pieces == pieces;
    } else {
      FewerInFront(front[1..], pieces);
      assert (front + pieces)[1..] == front[1..] + pieces;
      TotalInFront(front[0], Runs(front[1..] + pieces));
    }
  }

  /** Without its oldest turn a conversation never costs more. */
  lemma OldestTurnCosts(system: string, hist: seq<TurnRecord>, text: string)
    requires hist != []
    ensures Cost(system, hist[1..], text) <= Cost(system, hist, text)
  {
    hide Told, Runs, Total, Tokens;
    var first, last := Message(System, system), [Message(User, text)];
    var oldest := Piece(User, hist[0].user) + Piece(Assistant, hist[0].assistant);
    var rest := Pieces(hist[1..]) + last;
    PiecesAreTurns(hist[1..]);
    FewerInFront(oldest, rest);
    TotalAfterSystem(first, rest);
    TotalAfterSystem(first, oldest + rest);
    assert [first] + rest == AllPieces(system, hist[1..], text);
    assert [first] + (oldest + rest) == AllPieces(system, hist, text);
  }

  lemma TotalAfterSystem(first: Message, rest: seq<Message>)
    requires first.role == System && rest != []
    requires forall m :: m in rest ==> m.role != System
    ensures Total(Told(Runs([first] + rest))) == PER_MESSAGE + Tokens(first.content) + Total(Told(Runs(rest)))
  {
    SystemStandsAlone(first, rest);
    assert Contents([first]) == [first.content];
    assert Told(Runs([first] + rest))[1..] == Told(Runs(rest));
  }
}
