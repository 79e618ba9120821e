/** What trimming, splitting into words and comparing titles come to. */
module Titles {
  import opened Text

  ghost predicate Spaces(s: string) {
    forall i :: 0 <= i < |s| ==> IsSpace(s[i])
  }

  predicate IsWord(s: string) {
    s != "" && forall i :: 0 <= i < |s| ==> !IsSpace(s[i])
  }

  // ---- trimming ----

  lemma {:induction false} TrimLeftIs(s: string) returns (a: nat)
    ensures a <= |s| && TrimLeft(s) == s[a..] && Spaces(s[..a]) && (a < |s| ==> !IsSpace(s[a]))
  {
    a := 0;
    if s != "" && IsSpace(s[0]) {
      a := TrimLeftIs(s[1..]);
      assert s[1..][a..] == s[a + 1..] && s[..a + 1] == [s[0]] + s[1..][..a];
      a := a + 1;
    }
  }

  lemma {:induction false} TrimRightIs(s: string) returns (b: nat)
    ensures b <= |s| && TrimRight(s) == s[..b] && Spaces(s[b..]) && (b > 0 ==> !IsSpace(s[b - 1]))
  {
    b := |s|;
    if s != "" && IsSpace(s[|s| - 1]) {
      var t := s[..|s| - 1];
      b := TrimRightIs(t);
      assert t[..b] == s[..b] && s[b..] == t[b..] + [s[|s| - 1]];
    }
  }

  /** What is cut off is white space, and nothing more could be. */
  lemma TrimSpaceIs(s: string) returns (a: nat, b: nat)
    ensures a <= b <= |s| && TrimSpace(s) == s[a..b] && Spaces(s[..a]) && Spaces(s[b..])
    ensures a < b ==> !IsSpace(s[a]) && !IsSpace(s[b - 1])
    ensures TrimSpace(s) == "" <==> Spaces(s)
  {
    hide TrimLeft, TrimRight;
    a := TrimLeftIs(s);
    var t := s[a..];
    b := TrimRightIs(t);
    assert t[..b] == s[a..a + b] && s[a + b..] == t[b..];
    if b == 0 {
      assert s == s[..a] + t;
    } else {
      assert t[b - 1] == s[a + b - 1];
    }
    b := a + b;
  }

  // ---- words ----

  lemma {:induction false} WordLengthOf(w: string, rest: string)
    requires forall i :: 0 <= i < |w| ==> !IsSpace(w[i])
    requires rest != "" ==> IsSpace(rest[0])
    ensures WordLength(w + rest) == |w|
  {
    if w == "" {
      assert w + rest == rest;
    } else {
      assert (w + rest)[1..] == w[1..] + rest;
      WordLengthOf(w[1..], rest);
    }
  }

  lemma FieldsAfterWord(w: string, rest: string)
    requires IsWord(w) && (rest != "" ==> IsSpace(rest[0]))
    ensures Fields(w + rest) == [w] + Fields(rest)
  {
    WordLengthOf(w, rest);
    assert (w + rest)[..|w|] == w && (w + rest)[|w|..] == rest;
  }

  /** Splitting a text into words is these three laws, which leave nothing else to say: no text
      has no words, a word is itself, and white space ends one text's words and begins another's. */
  lemma FieldsOfWord(w: string)
    ensures Fields("") == []
    ensures IsWord(w) ==> Fields(w) == [w]
  {
    if IsWord(w) {
      FieldsAfterWord(w, "");
      assert w + "" == w;
    }
  }

  lemma {:induction false} WordLengthIs(s: string)
    ensures forall i :: 0 <= i < WordLength(s) ==> !IsSpace(s[i])
    ensures WordLength(s) < |s| ==> IsSpace(s[WordLength(s)])
  {
    if s != "" && !IsSpace(s[0]) {
      WordLengthIs(s[1..]);
    }
  }

  lemma FirstWord(s: string) returns (w: string, rest: string)
    requires s != "" && !IsSpace(s[0])
    ensures s == w + rest && IsWord(w) && (rest != "" ==> IsSpace(rest[0]))
  {
    var n := WordLength(s);
    WordLengthIs(s);
    w, rest := s[..n], s[n..];
  }

  lemma {:induction false} FieldsOfBreak(a: string, c: char, b: string)
    requires IsSpace(c)
    ensures Fields(a + [c] + b) == Fields(a) + Fields(b)
    decreases |a|
  {
    var s := a + [c] + b;
    if a == "" {
      assert s[1..] == b;
    } else if IsSpace(a[0]) {
      assert s[1..] == a[1..] + [c] + b;
      FieldsOfBreak(a[1..], c, b);
    } else {
      hide Fields;
      var w, rest := FirstWord(a);
      assert s == w + (rest + [c] + b);
      FieldsAfterWord(w, rest + [c] + b);
      FieldsAfterWord(w, rest);
      FieldsOfBreak(rest, c, b);
    }
  }

  lemma {:induction false} FieldsAreWords(s: string)
    ensures forall w :: w in Fields(s) ==> IsWord(w)
    decreases |s|
  {
    if s != "" {
      if IsSpace(s[0]) {
        FieldsAreWords(s[1..]);
      } else {
        WordLengthIs(s);
        FieldsAreWords(s[WordLength(s)..]);
      }
    }
  }

  lemma {:induction false} FieldsOfJoin(words: seq<string>)
    requires forall w :: w in words ==> IsWord(w)
    ensures Fields(Join(words, " ")) == words
  {
    if words != [] {
      assert words[0] in words;
      FieldsOfWord(words[0]);
      if |words| > 1 {
        forall w | w in words[1..] ensures IsWord(w) { assert w in words; }
        FieldsOfJoin(words[1..]);
        FieldsOfBreak(words[0], ' ', Join(words[1..], " "));
        assert words == [words[0]] + words[1..];
      } else {
        assert words == [words[0]];
      }
    }
  }

  // ---- case ----

  function Lowered(words: seq<string>): seq<string> {
    seq(|words|, i requires 0 <= i < |words| => ToLower(words[i]))
  }

  lemma {:induction false} LowerOfJoin(words: seq<string>)
    ensures ToLower(Join(words, " ")) == Join(Lowered(words), " ")
  {
    if |words| > 1 {
      LowerOfJoin(words[1..]);
      assert Lowered(words)[1..] == Lowered(words[1..]);
      assert ToLower(words[0] + " " + Join(words[1..], " ")) == ToLower(words[0]) + " " + ToLower(Join(words[1..], " "));
    }
  }

  lemma LowerIsWord(w: string)
    ensures IsWord(ToLower(w)) <==> IsWord(w)
  {
    forall i | 0 <= i < |w| ensures IsSpace(ToLower(w)[i]) <==> IsSpace(w[i]) {
    }
  }

  /** The same letter but for its case. */
  predicate SameLetter(a: char, b: char) {
    || a == b
    || ('A' <= a <= 'Z' && b as int == a as int + 32)
    || ('A' <= b <= 'Z' && a as int == b as int + 32)
  }

  predicate SameWord(a: string, b: string) {
    |a| == |b| && forall i :: 0 <= i < |a| ==> SameLetter(a[i], b[i])
  }

  lemma LowerTells(a: string, b: string)
    ensures ToLower(a) == ToLower(b) <==> SameWord(a, b)
  {
    if ToLower(a) == ToLower(b) {
      assert |a| == |ToLower(a)| == |b|;
      forall i | 0 <= i < |a| ensures SameLetter(a[i], b[i]) {
        assert ToLower(a)[i] == ToLower(b)[i];
      }
    }
  }

  lemma NormalWords(title: string)
    ensures Fields(NormalizeTitle(title)) == Lowered(Fields(title))
    ensures NormalizeTitle(title) == Join(Lowered(Fields(title)), " ")
  {
    var words := Fields(title);
    FieldsAreWords(title);
    LowerOfJoin(words);
    forall w | w in Lowered(words) ensures IsWord(w) {
      var i :| 0 <= i < |words| && w == ToLower(words[i]);
      assert words[i] in words;
      LowerIsWord(words[i]);
    }
    FieldsOfJoin(Lowered(words));
  }

  /** Two titles are taken for one exactly when they have the same words, in the same order, but
      for the case of their letters; what white space is between them does not matter. */
  lemma TitlesAlike(a: string, b: string)
    ensures NormalizeTitle(a) == NormalizeTitle(b) <==>
            |Fields(a)| == |Fields(b)| && forall i :: 0 <= i < |Fields(a)| ==> SameWord(Fields(a)[i], Fields(b)[i])
  {
    hide NormalizeTitle, Fields, Join, SameWord, ToLower;
    NormalWords(a);
    NormalWords(b);
    var x, y := Fields(a), Fields(b);
    forall i | 0 <= i < |x| && |x| == |y| ensures ToLower(x[i]) == ToLower(y[i]) <==> SameWord(x[i], y[i]) {
      LowerTells(x[i], y[i]);
    }
    if Lowered(x) == Lowered(y) {
      assert |x| == |Lowered(x)| == |y|;
      forall i | 0 <= i < |x| ensures SameWord(x[i], y[i]) {
        assert Lowered(x)[i] == Lowered(y)[i];
      }
    }
    if |x| == |y| && forall i :: 0 <= i < |x| ==> SameWord(x[i], y[i]) {
      assert Lowered(x) == Lowered(y);
    }
  }

  lemma {:induction false} FieldsOfSpacesBefore(s: string, a: nat)
    requires a <= |s| && Spaces(s[..a])
    ensures Fields(s[a..]) == Fields(s)
  {
    if a > 0 {
      assert s[..a][0] == s[0] && s[1..][..a - 1] == s[..a][1..];
      FieldsOfSpacesBefore(s[1..], a - 1);
      assert s[1..][a - 1..] == s[a..];
    } else {
      assert s[0..] == s;
    }
  }

  lemma {:induction false} FieldsOfSpacesAfter(s: string, b: nat)
    requires b <= |s| && Spaces(s[b..])
    ensures Fields(s[..b]) == Fields(s)
    decreases |s| - b
  {
    if b < |s| {
      FieldsOfSpacesAfter(s, b + 1);
      assert s[b..][0] == s[b] && s[..b + 1] == s[..b] + [s[b]] + "";
      FieldsOfBreak(s[..b], s[b], "");
    } else {
      assert s[..b] == s;
    }
  }

  /** Comparing again changes nothing, and nor does having trimmed first. */
  lemma ComparedOnce(title: string)
    ensures NormalizeTitle(NormalizeTitle(title)) == NormalizeTitle(title)
    ensures NormalizeTitle(TrimSpace(title)) == NormalizeTitle(title)
  {
    hide Join, Fields, TrimSpace, ToLower, Spaces;
    NormalWords(title);
    NormalWords(NormalizeTitle(title));
    LoweredTwice(Fields(title));
    var a, b := TrimSpaceIs(title);
    FieldsOfSpacesAfter(title, b);
    assert title[..b][..a] == title[..a] && title[..b][a..] == title[a..b];
    FieldsOfSpacesBefore(title[..b], a);
  }

  lemma LoweredTwice(words: seq<string>)
    ensures Lowered(Lowered(words)) == Lowered(words)
  {
    forall i | 0 <= i < |words| ensures Lowered(Lowered(words))[i] == Lowered(words)[i] {
      assert ToLower(ToLower(words[i])) == ToLower(words[i]);
    }
  }
}
