/** Flattening keeps the words: what a reader of the frame finds in it is what was written. */
module Wording {
  import opened Text
  import opened TextLines
  import opened Titles
  import opened Ranking
  import Framing

  predicate StartsOpen(s: string) { s == "" || IsSpace(s[0]) }

  /** One more character in front: white space is skipped, and any other begins a word or joins
      the one that is there. */
  lemma FieldsInFront(c: char, s: string)
    ensures var words := Fields([c] + s);
            if IsSpace(c) then words == Fields(s)
            else if StartsOpen(s) then words == [[c]] + Fields(s)
            else Fields(s) != [] && words == [[c] + Fields(s)[0]] + Fields(s)[1..]
  {
    assert ([c] + s)[1..] == s;
    if !IsSpace(c) && StartsOpen(s) {
      FieldsAfterWord([c], s);
    } else if !IsSpace(c) {
      var w, rest := FirstWord(s);
      assert [c] + s == ([c] + w) + rest;
      FieldsAfterWord([c] + w, rest);
      FieldsAfterWord(w, rest);
    }
  }

  lemma {:induction false} ReturnsKeepWords(s: string)
    ensures Fields(ReplaceReturns(s)) == Fields(s) && (StartsOpen(ReplaceReturns(s)) <==> StartsOpen(s))
    decreases |s|
  {
    hide Fields;
    if |s| >= 2 && s[0] == '\r' && s[1] == '\n' {
      ReturnsKeepWords(s[2..]);
      FieldsInFront(' ', ReplaceReturns(s[2..]));
      FieldsInFront('\n', s[2..]);
      FieldsInFront('\r', s[1..]);
      assert [' '] + ReplaceReturns(s[2..]) == ReplaceReturns(s);
      assert ['\n'] + s[2..] == s[1..] && ['\r'] + s[1..] == s;
    } else if s != "" {
      ReturnsKeepWords(s[1..]);
      FieldsInFront(s[0], s[1..]);
      FieldsInFront(s[0], ReplaceReturns(s[1..]));
      assert [s[0]] + s[1..] == s;
    }
  }

  lemma {:induction false} BreaksKeepWords(s: string)
    ensures Fields(ReplaceBreaks(s)) == Fields(s) && (StartsOpen(ReplaceBreaks(s)) <==> StartsOpen(s))
  {
    hide Fields;
    if s != "" {
      BreaksKeepWords(s[1..]);
      FieldsInFront(s[0], s[1..]);
      FieldsInFront(if s[0] == '\n' then ' ' else s[0], ReplaceBreaks(s[1..]));
      assert [s[0]] + s[1..] == s;
    }
  }

  /** A text on one line has the words it had on many. */
  lemma SameWordsOnOneLine(s: string)
    ensures Fields(OneLine(s)) == Fields(s)
  {
    hide Fields;
    ReturnsKeepWords(s);
    BreaksKeepWords(ReplaceReturns(s));
  }

  /** A bullet says the title's words, the confidence as it is written, and the words of the
      markers where there are any. */
  lemma BulletSays(e: Entry) returns (title: string, markers: string)
    ensures Unbroken(title) && Fields(title) == Fields(e.title)
    ensures Unbroken(markers) && Fields(markers) == Fields(Join(e.markers, ", "))
    ensures Framing.Bullet(e) ==
            "- " + title + " [" + e.confidence + "]" + if e.markers == [] then "" else " (" + markers + ")"
  {
    hide Fields, OneLine, Join;
    title, markers := OneLine(e.title), OneLine(Join(e.markers, ", "));
    SameWordsOnOneLine(e.title);
    SameWordsOnOneLine(Join(e.markers, ", "));
    var bullet := "- " + title + " [" + e.confidence + "]";
    assert bullet + "" == bullet;
    assert bullet + " (" + markers + ")" == bullet + (" (" + markers + ")");
  }

  /** What is stated of a persona is every field that says anything, and no other. */
  lemma {:induction false} StatedAre(fields: seq<Framing.Field>)
    ensures forall f :: f in Framing.Stated(fields) <==> f in fields && !Spaces(f.value)
  {
    hide TrimSpace;
    if fields != [] {
      var n := |fields| - 1;
      StatedAre(fields[..n]);
      var _, _ := TrimSpaceIs(fields[n].value);
      assert fields == fields[..n] + [fields[n]];
    }
  }

  /** And the value read back under a label says the words that were stated for it. */
  lemma ValuesSay(fields: seq<Framing.Field>, i: nat)
    requires i < |fields|
    ensures |Framing.Values(fields)| == |fields|
    ensures Fields(Framing.Values(fields)[i]) == Fields(fields[i].value)
  {
    SameWordsOnOneLine(fields[i].value);
  }
}
