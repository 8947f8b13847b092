/** The string operations the program takes from the JavaScript library. */
module Text {
  import opened Dedupe
  import opened Wrappers

  /** The white space that `trim` removes. */
  predicate IsSpace(c: char) {
    c in {'\t', '\n', '\U{0B}', '\U{0C}', '\r', ' ', '\U{A0}', '\U{1680}', '\U{2028}', '\U{2029}', '\U{202F}',
          '\U{205F}',
          '\U{3000}', '\U{FEFF}'} || '\U{2000}' <= c <= '\U{200A}'
  }

  function TrimStart(s: string): string {
    if s != [] && IsSpace(s[0]) then TrimStart(s[1..]) else s
  }

  function TrimEnd(s: string): string {
    if s != [] && IsSpace(s[|s| - 1]) then TrimEnd(s[..|s| - 1]) else s
  }

  function Trim(s: string): string { TrimEnd(TrimStart(s)) }

  /** No white space at either end. */
  predicate Trimmed(s: string) {
    s == [] || (!IsSpace(s[0]) && !IsSpace(s[|s| - 1]))
  }

  lemma {:induction false} TrimStartShape(s: string)
    ensures TrimStart(s) == [] || !IsSpace(TrimStart(s)[0])
    ensures exists k :: 0 <= k <= |s| && TrimStart(s) == s[k..]
  {
    if s != [] && IsSpace(s[0]) {
      TrimStartShape(s[1..]);
      var k :| 0 <= k <= |s[1..]| && TrimStart(s[1..]) == s[1..][k..];
      assert s[1..][k..] == s[k + 1..];
    } else {
      assert s == s[0..];
    }
  }

  lemma {:induction false} TrimEndShape(s: string)
    ensures TrimEnd(s) == [] || !IsSpace(TrimEnd(s)[|TrimEnd(s)| - 1])
    ensures exists k :: 0 <= k <= |s| && TrimEnd(s) == s[..k]
    ensures forall i :: |TrimEnd(s)| <= i < |s| ==> IsSpace(s[i])
  {
    if s != [] && IsSpace(s[|s| - 1]) {
      TrimEndShape(s[..|s| - 1]);
      var k :| 0 <= k <= |s| - 1 && TrimEnd(s[..|s| - 1]) == s[..|s| - 1][..k];
      assert s[..|s| - 1][..k] == s[..k];
    } else {
      assert s == s[..|s|];
    }
  }

  lemma TrimPiece(s: string)
    ensures exists i, j :: 0 <= i <= j <= |s| && Trim(s) == s[i..j]
  {
    hide IsSpace, TrimStart, TrimEnd;
    TrimStartShape(s);
    TrimEndShape(TrimStart(s));
    var i :| 0 <= i <= |s| && TrimStart(s) == s[i..];
    var k :| 0 <= k <= |s[i..]| && TrimEnd(s[i..]) == s[i..][..k];
    assert s[i..][..k] == s[i..i + k];
  }

  lemma TrimIsTrimmed(s: string)
    ensures Trimmed(Trim(s))
  {
    hide IsSpace, TrimStart, TrimEnd;
    TrimStartShape(s);
    TrimEndShape(TrimStart(s));
  }

  /** Trimming yields a trimmed piece of the text, and leaves a trimmed text alone. */
  lemma TrimShape(s: string)
    ensures Trimmed(Trim(s))
    ensures Trimmed(s) ==> Trim(s) == s
    ensures exists i, j :: 0 <= i <= j <= |s| && Trim(s) == s[i..j]
  {
    hide IsSpace;
    TrimPiece(s);
    TrimIsTrimmed(s);
  }

  lemma TrimKeepsPrefix(prefix: string, s: string)
    requires prefix != [] && !IsSpace(prefix[0]) && !IsSpace(prefix[|prefix| - 1])
    ensures prefix <= Trim(prefix + s)
  {
    TrimEndShape(prefix + s);
    assert (prefix + s)[|prefix| - 1] == prefix[|prefix| - 1];
  }

  function LowerChar(c: char): char {
    if 'A' <= c <= 'Z' then ((c as int) + 32) as char else c
  }

  function Lower(s: string): (r: string)
    ensures |r| == |s|
  {
    seq(|s|, i requires 0 <= i < |s| => LowerChar(s[i]))
  }

  /** The trimmed, non-empty values. */
  function Cleaned(values: seq<Option<string>>): seq<string> {
    if values == [] then []
    else if values[0].None? || Trim(values[0].value) == "" then Cleaned(values[1..])
    else [Trim(values[0].value)] + Cleaned(values[1..])
  }

  /** The first of the trimmed, non-empty values that agree up to case. */
  function UniqueStrings(values: seq<Option<string>>): seq<string> { FirstByKey(Cleaned(values), Lower, {}) }

  lemma {:induction false} CleanedAre(values: seq<Option<string>>, item: string)
    ensures item in Cleaned(values) <==> item != "" && exists i :: 0 <= i < |values| && values[i].Some?
                                                                   && Trim(values[i].value) == item
  {
    if values != [] {
      CleanedAre(values[1..], item);
      assert forall i :: 0 <= i < |values| - 1 ==> values[1..][i] == values[i + 1];
    }
  }

  /** The value in this place reads as `item`. */
  predicate Reads(values: seq<Option<string>>, p: int, item: string)
    requires 0 <= p < |values|
  {
    values[p].Some? && Trim(values[p].value) == item
  }

  /** No value before this place reads as the same text up to case. */
  ghost predicate FirstOfItsCase(values: seq<Option<string>>, p: int, item: string)
    requires 0 <= p < |values|
  {
    forall q, x :: 0 <= q < p && Reads(values, q, x) && x != "" ==> Lower(x) != Lower(item)
  }

  ghost predicate Kept(values: seq<Option<string>>, item: string) {
    item != "" && exists p :: 0 <= p < |values| && Reads(values, p, item) && FirstOfItsCase(values, p, item)
  }

  lemma KeptLater(values: seq<Option<string>>, item: string)
    requires values != [] && (values[0].None? || Trim(values[0].value) == ""
                              || Lower(Trim(values[0].value)) != Lower(item))
    ensures Kept(values, item) <==> Kept(values[1..], item)
  {
    hide Trim, Lower;
    var rest := values[1..];
    forall p, x | 0 <= p < |rest| ensures Reads(rest, p, x) <==> Reads(values, p + 1, x) { }
    if Kept(values, item) {
      var p :| 0 <= p < |values| && Reads(values, p, item) && FirstOfItsCase(values, p, item);
      assert p > 0 && Reads(rest, p - 1, item);
      forall q, x | 0 <= q < p - 1 && Reads(rest, q, x) && x != "" ensures Lower(x) != Lower(item) {
        assert Reads(values, q + 1, x);
      }
      assert FirstOfItsCase(rest, p - 1, item);
    }
    if Kept(rest, item) {
      var p :| 0 <= p < |rest| && Reads(rest, p, item) && FirstOfItsCase(rest, p, item);
      forall q, x | 0 <= q < p + 1 && Reads(values, q, x) && x != "" ensures Lower(x) != Lower(item) {
        if q > 0 { assert Reads(rest, q - 1, x); }
      }
      assert FirstOfItsCase(values, p + 1, item) && Reads(values, p + 1, item);
    }
  }

  lemma {:induction false} KeptExactly(values: seq<Option<string>>, item: string, seen: set<string>)
    ensures item in FirstByKey(Cleaned(values), Lower, seen) <==> Lower(item) !in seen && Kept(values, item)
  {
    hide Trim, Lower, Kept;
    if values == [] {
      NothingKept(item);
    } else if values[0].None? || Trim(values[0].value) == "" {
      KeptLater(values, item);
      KeptExactly(values[1..], item, seen);
    } else {
      var first := Trim(values[0].value);
      assert Cleaned(values)[1..] == Cleaned(values[1..]);
      KeptExactly(values[1..], item, if Lower(first) in seen then seen else seen + {Lower(first)});
      if Lower(first) == Lower(item) {
        FirstIsKept(values, item);
      } else {
        KeptLater(values, item);
      }
    }
  }

  lemma NothingKept(item: string)
    ensures !Kept([], item)
  {
  }

  lemma FirstIsKept(values: seq<Option<string>>, item: string)
    requires values != [] && values[0].Some? && Trim(values[0].value) != ""
             && Lower(Trim(values[0].value)) == Lower(item)
    ensures Kept(values, item) <==> Trim(values[0].value) == item
  {
    hide Trim, Lower;
    var first := Trim(values[0].value);
    assert Reads(values, 0, first);
    if first == item { assert FirstOfItsCase(values, 0, item); }
  }

  /** A text is kept if and only if some value reads as it, and none before that reads as it up to case. */
  lemma UniqueExactly(values: seq<Option<string>>, item: string)
    ensures item in UniqueStrings(values) <==> Kept(values, item)
  {
    KeptExactly(values, item, {});
  }

  method CollectUnique(values: seq<Option<string>>) returns (out: seq<string>)
    ensures out == UniqueStrings(values)
  {
    var seen: set<string> := {};
    out := [];
    for i := 0 to |values|
      invariant UniqueStrings(values) == out + FirstByKey(Cleaned(values[i..]), Lower, seen)
    {
      assert values[i..][1..] == values[i + 1..];
      if values[i].Some? && Trim(values[i].value) != "" {
        var item := Trim(values[i].value);
        assert Cleaned(values[i..])[1..] == Cleaned(values[i + 1..]);
        if Lower(item) !in seen {
          seen := seen + {Lower(item)};
          out := out + [item];
        }
      }
    }
  }
}
