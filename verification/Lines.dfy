/** Text as lines: splitting at line breaks, and flattening text that has to stay on one. */
module TextLines {

  predicate Unbroken(s: string) { '\n' !in s }

  type Line = s: string | Unbroken(s)

  /** Characters of ASCII alone. */
  predicate Plain(s: string) {
    forall i :: 0 <= i < |s| ==> s[i] as int < 128
  }

  type PlainLine = s: string | Unbroken(s) && Plain(s)

  /** One more character in front. */
  function Onto(c: char, lines: seq<string>): (r: seq<string>)
    requires |lines| >= 1
    ensures |r| >= 1
  {
    if c == '\n' then [""] + lines else [[c] + lines[0]] + lines[1..]
  }

  /** strings.Split(s, "\n") */
  function Lines(s: string): (r: seq<string>)
    ensures |r| >= 1
  {
    if s == "" then [""] else Onto(s[0], Lines(s[1..]))
  }

  function Rejoined(lines: seq<string>): string {
    if |lines| == 0 then ""
    else if |lines| == 1 then lines[0]
    else lines[0] + "\n" + Rejoined(lines[1..])
  }

  lemma {:induction false} LinesRejoin(s: string)
    ensures Rejoined(Lines(s)) == s
    ensures forall l :: l in Lines(s) ==> Unbroken(l)
  {
    if s != "" {
      hide Lines;
      LinesStep(s);
      LinesRejoin(s[1..]);
      var rest := Lines(s[1..]);
      assert s == [s[0]] + s[1..];
      if s[0] == '\n' {
        assert Lines(s)[1..] == rest;
      } else {
        assert Lines(s)[1..] == rest[1..];
        assert Unbroken(rest[0]);
      }
    }
  }

  lemma LinesStep(s: string)
    requires s != ""
    ensures Lines(s) == Onto(s[0], Lines(s[1..]))
  {
  }

  lemma {:induction false} RejoinedOfConcat(a: seq<string>, b: seq<string>)
    requires a != [] && b != []
    ensures Rejoined(a + b) == Rejoined(a) + "\n" + Rejoined(b)
  {
    if |a| == 1 {
      assert (a + b)[1..] == b;
    } else {
      RejoinedOfConcat(a[1..], b);
      assert (a + b)[1..] == a[1..] + b;
    }
  }

  lemma {:induction false} LinesOfRejoined(lines: seq<string>)
    requires lines != [] && forall l :: l in lines ==> Unbroken(l)
    ensures Lines(Rejoined(lines)) == lines
  {
    LinesOfUnbroken(lines[0]);
    if |lines| > 1 {
      LinesOfRejoined(lines[1..]);
      LinesOfBreak(lines[0], Rejoined(lines[1..]));
      assert [lines[0]] + lines[1..] == lines;
    }
  }

  lemma {:induction false} LinesOfUnbroken(s: string)
    ensures Unbroken(s) <==> |Lines(s)| == 1
    ensures Unbroken(s) ==> Lines(s) == [s]
  {
    if s != "" {
      LinesOfUnbroken(s[1..]);
      assert s == [s[0]] + s[1..];
    }
  }

  lemma OntoConcat(c: char, a: seq<string>, b: seq<string>)
    requires |a| >= 1
    ensures Onto(c, a + b) == Onto(c, a) + b
  {
    assert (a + b)[1..] == a[1..] + b;
  }

  /** A break between two texts is a break between their lines. */
  lemma {:induction false} LinesOfBreak(a: string, b: string)
    ensures Lines(a + "\n" + b) == Lines(a) + Lines(b)
  {
    var whole := a + "\n" + b;
    if a == "" {
      assert whole[1..] == b;
    } else {
      LinesOfBreak(a[1..], b);
      assert whole[0] == a[0] && whole[1..] == a[1..] + "\n" + b;
      OntoConcat(a[0], Lines(a[1..]), Lines(b));
    }
  }

  lemma {:induction false} LinesAfter(prefix: string, s: string)
    requires Unbroken(prefix)
    ensures Lines(prefix + s) == [prefix + Lines(s)[0]] + Lines(s)[1..]
  {
    var lines := Lines(s);
    if prefix == "" {
      assert prefix + s == s;
      assert prefix + lines[0] == lines[0];
    } else {
      LinesAfter(prefix[1..], s);
      assert (prefix + s)[1..] == prefix[1..] + s && (prefix + s)[0] == prefix[0];
      assert prefix[0] in prefix;
      OntoFirst(prefix[0], prefix[1..] + lines[0], lines[1..]);
      assert [prefix[0]] + (prefix[1..] + lines[0]) == prefix + lines[0];
    }
  }

  lemma OntoFirst(c: char, first: string, rest: seq<string>)
    requires c != '\n'
    ensures Onto(c, [first] + rest) == [[c] + first] + rest
  {
    assert ([first] + rest)[1..] == rest;
  }

  lemma LinesOfAppend(s: string, tail: string)
    requires Unbroken(tail)
    ensures Lines(s + tail) == Lines(s)[..|Lines(s)| - 1] + [Lines(s)[|Lines(s)| - 1] + tail]
  {
    var lines := Lines(s);
    var n := |lines| - 1;
    LinesRejoin(s);
    var all := lines[..n] + [lines[n] + tail];
    assert lines[n] in lines;
    forall l | l in lines[..n] ensures Unbroken(l) { assert l in lines; }
    LinesOfRejoined(all);
    assert lines == lines[..n] + [lines[n]];
    if n == 0 {
      assert all == [lines[0] + tail];
    } else {
      RejoinedOfConcat(lines[..n], [lines[n]]);
      RejoinedOfConcat(lines[..n], [lines[n] + tail]);
      Assoc(Rejoined(lines[..n]) + "\n", lines[n], tail);
    }
  }

  // ---- writing lines one at a time ----

  lemma Assoc(a: string, b: string, c: string)
    ensures a + b + c == a + (b + c)
  {
  }

  lemma LinesOfOwnLine(written: string, line: string)
    requires Unbroken(line)
    ensures Lines(written + "\n" + line) == Lines(written) + [line]
  {
    LinesOfBreak(written, line);
    LinesOfUnbroken(line);
  }

  /** A break, two spaces, and the line. */
  lemma LinesOfIndented(written: string, line: string)
    requires Unbroken(line)
    ensures Lines(written + "\n  " + line) == Lines(written) + ["  " + line]
  {
    LinesOfOwnLine(written, "  " + line);
    assert "\n" + "  " == "\n  ";
    Assoc(written, "\n", "  ");
    Assoc(written + "\n", "  ", line);
  }

  /** More written after what is known to come last. */
  lemma Extend<T>(x: seq<T>, a: seq<T>, b: seq<T>, c: seq<T>)
    requires x == a + b
    ensures x + c == a + (b + c)
  {
  }

  // ---- flattening ----

  function ReplaceReturns(s: string): string {
    if s == "" then ""
    else if |s| >= 2 && s[0] == '\r' && s[1] == '\n' then " " + ReplaceReturns(s[2..])
    else [s[0]] + ReplaceReturns(s[1..])
  }

  function ReplaceBreaks(s: string): (r: string)
    ensures Unbroken(r)
  {
    if s == "" then "" else [if s[0] == '\n' then ' ' else s[0]] + ReplaceBreaks(s[1..])
  }

  function OneLine(s: string): (r: string)
    ensures Unbroken(r)
  {
    ReplaceBreaks(ReplaceReturns(s))
  }

  function Decimal(n: nat): (r: string)
    ensures Unbroken(r) && Plain(r)
  {
    if n < 10 then ["0123456789"[n]] else Decimal(n / 10) + ["0123456789"[n % 10]]
  }
}
