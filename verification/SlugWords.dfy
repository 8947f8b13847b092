/** What a slug keeps of its text: the words, in lower case. */
module SlugWords {
  import opened Text
  import opened Slugs

  predicate WordChar(c: char) {
    'a' <= c <= 'z' || 'A' <= c <= 'Z' || '0' <= c <= '9' || c == '.'
  }

  function WordLength(s: string): (n: nat)
    ensures n <= |s|
  {
    if s == "" || !WordChar(s[0]) then 0 else 1 + WordLength(s[1..])
  }

  /** The longest runs of letters, digits and dots. */
  function Words(s: string): seq<string>
    decreases |s|
  {
    if s == "" then []
    else if !WordChar(s[0]) then Words(s[1..])
    else
      var n := WordLength(s);
      [s[..n]] + Words(s[n..])
  }

  function Hyphened(ws: seq<string>): string {
    if ws == [] then "" else if |ws| == 1 then ws[0] else ws[0] + "-" + Hyphened(ws[1..])
  }

  function HyphenedWords(s: string): string { Hyphened(Words(s)) }

  /** The same letter, the second one in lower case. */
  predicate Lowered(c: char, d: char) {
    if 'A' <= c <= 'Z' then 'a' <= d <= 'z' && d as int - 'a' as int == c as int - 'A' as int else d == c
  }

  // ---------------------------------------------------------------- one character at a time

  lemma {:induction false} WordsAreNotEmpty(s: string)
    ensures forall w :: w in Words(s) ==> w != ""
    decreases |s|
  {
    if s != "" {
      if WordChar(s[0]) { WordsAreNotEmpty(s[WordLength(s)..]); } else { WordsAreNotEmpty(s[1..]); }
    }
  }

  lemma NoWords(s: string)
    ensures HyphenedWords(s) == "" <==> Words(s) == []
  {
    WordsAreNotEmpty(s);
    if Words(s) != [] { assert Words(s)[0] in Words(s); }
  }

  lemma OneChar(s: string)
    requires s != ""
    ensures var rest := HyphenedWords(s[1..]);
            HyphenedWords(s) == if !WordChar(s[0]) then rest
            else if |s| > 1 && WordChar(s[1]) then [s[0]] + rest
            else if rest == "" then [s[0]]
            else [s[0]] + "-" + rest
  {
    NoWords(s[1..]);
    if WordChar(s[0]) {
      var n := WordLength(s);
      assert [s[..n]][0] == s[..n];
      assert ([s[..n]] + Words(s[n..]))[1..] == Words(s[n..]);
      if |s| > 1 && WordChar(s[1]) {
        var t := s[1..];
        assert n == 1 + WordLength(t);
        assert t[n - 1..] == s[n..] && s[..n] == [s[0]] + t[..n - 1];
        assert ([t[..n - 1]] + Words(t[n - 1..]))[1..] == Words(t[n - 1..]);
        Prepended(s[0], t[..n - 1], Words(s[n..]));
      } else {
        assert n == 1 && s[..1] == [s[0]];
      }
    }
  }

  lemma Prepended(c: char, w: string, ws: seq<string>)
    ensures Hyphened([[c] + w] + ws) == [c] + Hyphened([w] + ws)
  {
    assert ([[c] + w] + ws)[1..] == ws && ([w] + ws)[1..] == ws;
    assert [c] + w + "-" + Hyphened(ws) == [c] + (w + "-" + Hyphened(ws));
  }

  lemma {:induction false} NoHyphenAtTheEnds(s: string)
    ensures var j := HyphenedWords(s); j != "" ==> j[0] != '-' && j[|j| - 1] != '-'
  {
    hide HyphenedWords;
    if s == "" {
      NoneInNothing();
    } else {
      NoHyphenAtTheEnds(s[1..]);
      OneChar(s);
    }
  }

  lemma NoneInNothing()
    ensures HyphenedWords("") == ""
  {
  }

  // ---------------------------------------------------------------- hyphens

  predicate NoCapitals(s: string) { forall i :: 0 <= i < |s| ==> !('A' <= s[i] <= 'Z') }

  /** A run of other characters at the end leaves a hyphen. */
  function Tail(s: string): string {
    if s != "" && !WordChar(s[|s| - 1]) && HyphenedWords(s) != "" then "-" else ""
  }

  lemma SameChars(s: string)
    requires NoCapitals(s)
    ensures forall i :: 0 <= i < |s| ==> (SlugChar(s[i]) <==> WordChar(s[i]))
  {
  }

  lemma {:induction false} HyphenateKeepsWords(s: string)
    requires NoCapitals(s)
    ensures var kept := HyphenedWords(s) + Tail(s);
            && Hyphenate(s, true) == kept
            && Hyphenate(s, false) == if s == "" || WordChar(s[0]) then kept else "-" + kept
  {
    hide HyphenedWords, SlugChar, WordChar, Tail;
    if s == "" {
      NothingKept();
    } else {
      SameChars(s);
      HyphenateKeepsWords(s[1..]);
      if WordChar(s[0]) { KeptAfterWord(s); } else { KeptAfterOther(s); }
    }
  }

  lemma NothingKept()
    ensures HyphenedWords("") == "" && Tail("") == ""
  {
  }

  lemma KeptAfterOther(s: string)
    requires s != "" && !WordChar(s[0])
    ensures HyphenedWords(s) == HyphenedWords(s[1..]) && Tail(s) == Tail(s[1..])
  {
    hide HyphenedWords, WordChar;
    OneChar(s);
    if s[1..] == "" { NoneInNothing(); } else { assert s[1..][|s| - 2] == s[|s| - 1]; }
  }

  lemma KeptAfterWord(s: string)
    requires s != "" && WordChar(s[0])
    ensures var t := s[1..];
            HyphenedWords(s) + Tail(s) ==
            [s[0]] + if t == "" || WordChar(t[0]) then HyphenedWords(t) + Tail(t)
            else "-" + (HyphenedWords(t) + Tail(t))
  {
    hide HyphenedWords, WordChar;
    var t := s[1..];
    OneChar(s);
    if t == "" {
      NoneInNothing();
    } else {
      assert t[|t| - 1] == s[|s| - 1];
      OneChar(t);
      var rest := HyphenedWords(t);
      if rest == "" {
        OnlyOthers(t);
      } else {
        Regrouped([s[0]], rest, Tail(t));
      }
    }
  }

  lemma Regrouped(a: string, b: string, c: string)
    ensures a + b + c == a + (b + c) && a + "-" + b + c == a + ("-" + (b + c))
  {
  }

  /** A text without words ends in another character. */
  lemma {:induction false} OnlyOthers(s: string)
    requires s != "" && HyphenedWords(s) == ""
    ensures !WordChar(s[|s| - 1])
  {
    hide HyphenedWords;
    OneChar(s);
    if |s| > 1 { OnlyOthers(s[1..]); }
  }

  lemma DroppedEnds(s: string)
    requires NoCapitals(s)
    ensures DropTrailing(DropLeading(Hyphenate(s, false))) == HyphenedWords(s)
  {
    hide HyphenedWords, Hyphenate;
    var j := HyphenedWords(s);
    HyphenateKeepsWords(s);
    NoHyphenAtTheEnds(s);
    assert DropLeading(j + Tail(s)) == j + Tail(s);
    if s != "" && !WordChar(s[0]) { assert ("-" + j + Tail(s))[1..] == j + Tail(s); }
    if Tail(s) == "-" { assert (j + "-")[..|j|] == j; } else { assert j + "" == j; }
  }

  // ---------------------------------------------------------------- case and white space

  lemma {:induction false} OtherAtTheEnd(s: string)
    requires s != "" && !WordChar(s[|s| - 1])
    ensures HyphenedWords(s[..|s| - 1]) == HyphenedWords(s)
  {
    hide HyphenedWords;
    var cut := s[..|s| - 1];
    OneChar(s);
    if |s| == 1 {
      assert s[1..] == cut == "";
    } else {
      OneChar(cut);
      var t := s[1..];
      assert cut[1..] == t[..|t| - 1] && t[|t| - 1] == s[|s| - 1];
      OtherAtTheEnd(t);
      if |t| == 1 { OneChar(t); NoneInNothing(); }
    }
  }

  lemma {:induction false} TrimmedStart(s: string)
    ensures HyphenedWords(TrimStart(s)) == HyphenedWords(s)
  {
    hide HyphenedWords;
    if s != "" && IsSpace(s[0]) {
      TrimmedStart(s[1..]);
      OneChar(s);
    }
  }

  lemma {:induction false} TrimmedEnd(s: string)
    ensures HyphenedWords(TrimEnd(s)) == HyphenedWords(s)
  {
    hide HyphenedWords;
    if s != "" && IsSpace(s[|s| - 1]) {
      TrimmedEnd(s[..|s| - 1]);
      OtherAtTheEnd(s);
    }
  }

  lemma LowerJoined(c: char, s: string)
    ensures Lower("") == "" && Lower([c]) == [LowerChar(c)] && |Lower(s)| == |s|
    ensures Lower([c] + s) == [LowerChar(c)] + Lower(s)
    ensures Lower([c] + "-" + s) == [LowerChar(c)] + "-" + Lower(s)
    ensures WordChar(LowerChar(c)) <==> WordChar(c)
  {
  }

  lemma LowerEnds(s: string)
    requires s != ""
    ensures Lower(s)[0] == LowerChar(s[0]) && Lower(s)[1..] == Lower(s[1..])
    ensures |s| > 1 ==> Lower(s)[1] == LowerChar(s[1])
  {
  }

  lemma {:induction false} LowerWords(s: string)
    ensures HyphenedWords(Lower(s)) == Lower(HyphenedWords(s))
  {
    hide HyphenedWords, Lower, LowerChar, WordChar;
    if s == "" {
      NoneInNothing();
      LowerJoined('-', s);
    } else {
      LowerWords(s[1..]);
      LowerEnds(s);
      OneChar(s);
      OneChar(Lower(s));
      LowerJoined(s[0], HyphenedWords(s[1..]));
      if |s| > 1 { LowerJoined(s[1], ""); }
    }
  }

  lemma BodyIsItsWords(v: string)
    ensures Body(v) == Lower(HyphenedWords(v))
  {
    hide HyphenedWords, Trim, DropLeading, DropTrailing, Hyphenate, Lower;
    var x := Lower(Trim(v));
    LowerHasNoCapitals(Trim(v));
    DroppedEnds(DropAt(x));
    if x != "" && x[0] == '@' { OneChar(x); }
    LowerWords(Trim(v));
    assert HyphenedWords(Trim(v)) == HyphenedWords(v) by {
      TrimmedEnd(TrimStart(v));
      TrimmedStart(v);
      TrimIsBoth(v);
    }
  }

  lemma TrimIsBoth(v: string)
    ensures Trim(v) == TrimEnd(TrimStart(v))
  {
  }

  lemma LowerHasNoCapitals(s: string)
    ensures NoCapitals(Lower(s)) && NoCapitals(DropAt(Lower(s)))
  {
  }

  /** A slug is made of the words of its text, in their order, in lower case and with single hyphens between them, cut
      after 80 characters; a text without words gives `app`. */
  lemma SlugIsItsWords(v: string)
    ensures var slug, all := Slugify(v), HyphenedWords(v);
            if all == "" then slug == "app"
            else
              && |slug| == (if |all| < 80 then |all| else 80)
              && forall i :: 0 <= i < |slug| ==> Lowered(all[i], slug[i])
  {
    hide HyphenedWords, Body;
    BodyIsItsWords(v);
  }
}
