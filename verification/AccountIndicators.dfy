/** The text form of account indicators (islands/CreateProfileForm.tsx): one `collection` or `collection/rkey` per
    line, and which lists survive being shown in the form and read back. */
module AccountIndicators {
  import opened Wrappers
  import opened Dedupe
  import opened Text

  datatype Indicator = Indicator(collection: string, rkey: Option<string>)

  const MAX_INDICATORS: nat := 64

  // ---------------------------------------------------------------- printing

  function PrintLine(x: Indicator): string {
    if x.rkey.Some? && x.rkey.value != "" then x.collection + "/" + x.rkey.value else x.collection
  }

  function LinesFromAccountIndicators(xs: seq<Indicator>): string {
    if xs == [] then ""
    else if |xs| == 1 then PrintLine(xs[0])
    else PrintLine(xs[0]) + "\n" + LinesFromAccountIndicators(xs[1..])
  }

  // ---------------------------------------------------------------- parsing

  /** Split at line feeds, each with the carriage return before it. */
  function Lines(s: string): (r: seq<string>)
    ensures r != []
  {
    if s == "" then [""]
    else if s[0] == '\n' then [""] + Lines(s[1..])
    else if |s| >= 2 && s[0] == '\r' && s[1] == '\n' then [""] + Lines(s[2..])
    else [[s[0]] + Lines(s[1..])[0]] + Lines(s[1..])[1..]
  }

  function LastIndexOf(s: string, c: char): (i: int)
    ensures -1 <= i < |s|
    ensures i >= 0 ==> s[i] == c
    ensures forall k :: i < k < |s| ==> s[k] != c
  {
    if s == "" then -1 else if s[|s| - 1] == c then |s| - 1 else LastIndexOf(s[..|s| - 1], c)
  }

  function ParseLine(raw: string): Option<Indicator> {
    var item := Trim(raw);
    var slash := LastIndexOf(item, '/');
    var collection := if slash > 0 then Trim(item[..slash]) else item;
    var rkey := if slash > 0 then Trim(item[slash + 1..]) else "";
    if item == "" || collection == "" then None
    else Some(Indicator(collection, if rkey == "" then None else Some(rkey)))
  }

  function Items(lines: seq<string>): seq<Indicator> {
    if lines == [] then []
    else (if ParseLine(lines[0]).Some? then [ParseLine(lines[0]).value] else []) + Items(lines[1..])
  }

  function Key(x: Indicator): string { x.collection + "/" + x.rkey.GetOr("") }

  function UpTo<T>(xs: seq<T>, n: nat): seq<T> { if |xs| <= n then xs else xs[..n] }

  function ParseAccountIndicatorLines(s: string): seq<Indicator> {
    UpTo(FirstByKey(Items(Lines(s)), Key, {}), MAX_INDICATORS)
  }

  lemma ItemsFrom(lines: seq<string>, i: nat)
    requires i < |lines|
    ensures Items(lines[i..]) ==
            if ParseLine(lines[i]).None? then Items(lines[i + 1..])
            else [ParseLine(lines[i]).value] + Items(lines[i + 1..])
  {
    assert lines[i..][1..] == lines[i + 1..];
  }

  lemma FirstByKeyHead(x: Indicator, rest: seq<Indicator>, seen: set<string>)
    ensures FirstByKey([x] + rest, Key, seen) ==
            if Key(x) in seen then FirstByKey(rest, Key, seen) else [x] + FirstByKey(rest, Key, seen + {Key(x)})
  {
    assert ([x] + rest)[1..] == rest;
  }

  method CollectAccountIndicators(value: string) returns (out: seq<Indicator>)
    ensures out == ParseAccountIndicatorLines(value)
  {
    hide ParseLine, Lines, Key;
    var lines := Lines(value);
    var seen: set<string> := {};
    out := [];
    ghost var all := FirstByKey(Items(lines), Key, {});
    assert lines[0..] == lines;
    for i := 0 to |lines|
      invariant |out| < MAX_INDICATORS
      invariant all == out + FirstByKey(Items(lines[i..]), Key, seen)
    {
      ItemsFrom(lines, i);
      var parsed := ParseLine(lines[i]);
      if parsed.None? { continue; }
      FirstByKeyHead(parsed.value, Items(lines[i + 1..]), seen);
      if Key(parsed.value) in seen { continue; }
      seen := seen + {Key(parsed.value)};
      out := out + [parsed.value];
      if |out| >= MAX_INDICATORS { return; }
    }
  }

  // ---------------------------------------------------------------- lines

  function DropCr(s: string): string { if s != "" && s[|s| - 1] == '\r' then s[..|s| - 1] else s }

  lemma {:induction false} LinesOne(s: string)
    requires '\n' !in s
    ensures Lines(s) == [s]
  {
    if s != "" {
      LinesOne(s[1..]);
      assert s == [s[0]] + s[1..];
    }
  }

  lemma {:induction false} LinesCons(l: string, rest: string)
    requires '\n' !in l
    ensures Lines(l + "\n" + rest) == [DropCr(l)] + Lines(rest)
  {
    var s := l + "\n" + rest;
    if l == "" {
      assert s[1..] == rest;
    } else {
      assert s[1..] == l[1..] + "\n" + rest;
      if l == "\r" {
        assert s[2..] == rest;
      } else {
        assert |l| >= 2 ==> s[1] == l[1];
        LinesCons(l[1..], rest);
        assert [l[0]] + DropCr(l[1..]) == DropCr(l);
      }
    }
  }

  lemma {:induction false} LinesHaveNoFeed(s: string)
    ensures forall l :: l in Lines(s) ==> '\n' !in l
  {
    if s != "" {
      LinesHaveNoFeed(s[1..]);
      if |s| >= 2 { LinesHaveNoFeed(s[2..]); }
    }
  }

  /** Printing items without line feeds gives one line each; a carriage return at the end of a line may be lost. */
  lemma {:induction false} LinesOfPrint(xs: seq<Indicator>)
    requires xs != [] && forall i :: 0 <= i < |xs| ==> '\n' !in PrintLine(xs[i])
    ensures var lines := Lines(LinesFromAccountIndicators(xs));
            |lines| == |xs| && forall i :: 0 <= i < |xs| ==> lines[i] == PrintLine(xs[i])
                                                             || lines[i] == DropCr(PrintLine(xs[i]))
  {
    if |xs| == 1 {
      LinesOne(PrintLine(xs[0]));
    } else {
      assert forall i :: 0 <= i < |xs[1..]| ==> xs[1..][i] == xs[i + 1];
      LinesOfPrint(xs[1..]);
      LinesCons(PrintLine(xs[0]), LinesFromAccountIndicators(xs[1..]));
    }
  }

  lemma {:induction false} TrimStartAppend(s: string, c: char)
    requires IsSpace(c)
    ensures TrimStart(s + [c]) == if TrimStart(s) == "" then "" else TrimStart(s) + [c]
  {
    if s == "" {
      assert s + [c] == [c];
      assert [c][1..] == "";
    } else {
      assert (s + [c])[1..] == s[1..] + [c];
      TrimStartAppend(s[1..], c);
      if !IsSpace(s[0]) { assert TrimStart(s) == s; }
    }
  }

  lemma TrimDropsSpace(s: string, c: char)
    requires IsSpace(c)
    ensures Trim(s + [c]) == Trim(s)
  {
    TrimStartAppend(s, c);
    var t := TrimStart(s);
    assert t != "" ==> (t + [c])[..|t + [c]| - 1] == t;
  }

  lemma ParseDropCr(s: string)
    ensures ParseLine(DropCr(s)) == ParseLine(s)
  {
    if DropCr(s) != s {
      assert s == DropCr(s) + ['\r'];
      TrimDropsSpace(DropCr(s), '\r');
    }
  }

  // ---------------------------------------------------------------- one item

  /** Trimmed, and the only slash that can be mistaken for the separator is the separator. */
  predicate ItemOk(x: Indicator) {
    && x.collection != "" && Trimmed(x.collection)
    && match x.rkey
       case None => forall i :: 1 <= i < |x.collection| ==> x.collection[i] != '/'
       case Some(r) => r != "" && Trimmed(r) && '/' !in r
  }

  /** The line of an item with a key. */
  lemma KeyedLine(c: string, r: string)
    requires c != "" && r != "" && Trimmed(c) && Trimmed(r) && '/' !in r
    ensures var line := c + "/" + r;
            Trimmed(line) && LastIndexOf(line, '/') == |c| && line[..|c|] == c && line[|c| + 1..] == r
  {
    hide IsSpace, LastIndexOf;
    var line := c + "/" + r;
    assert line[0] == c[0] && line[|line| - 1] == r[|r| - 1];
    assert line[|c|] == '/' && forall k :: |c| < k < |line| ==> line[k] == r[k - |c| - 1];
  }

  lemma TrimmedStays(s: string)
    requires Trimmed(s)
    ensures Trim(s) == s
  {
    TrimShape(s);
  }

  lemma ParsePrinted(x: Indicator)
    requires ItemOk(x)
    ensures ParseLine(PrintLine(x)) == Some(x)
  {
    hide Trim, Trimmed, IsSpace, LastIndexOf;
    TrimmedStays(x.collection);
    if x.rkey.Some? {
      KeyedLine(x.collection, x.rkey.value);
      TrimmedStays(x.rkey.value);
      TrimmedStays(PrintLine(x));
    } else {
      assert LastIndexOf(x.collection, '/') <= 0;
    }
  }

  lemma NoSlashAfterLast(item: string, r: string)
    requires LastIndexOf(item, '/') > 0 && r == Trim(item[LastIndexOf(item, '/') + 1..])
    ensures '/' !in r && Trimmed(r)
  {
    var tail := item[LastIndexOf(item, '/') + 1..];
    TrimShape(tail);
    var i, j :| 0 <= i <= j <= |tail| && Trim(tail) == tail[i..j];
    forall k | 0 <= k < |r| ensures r[k] != '/' {
      assert r[k] == item[LastIndexOf(item, '/') + 1 + i + k];
    }
  }

  lemma NoLonger(s: string)
    ensures |Trim(s)| <= |s| && Trimmed(Trim(s))
  {
    TrimShape(s);
  }

  lemma KeyedComesBack(x: Indicator)
    requires ParseLine(PrintLine(x)) == Some(x) && x.rkey.Some?
    ensures ItemOk(x)
  {
    hide Trim, IsSpace, LastIndexOf, Trimmed, PrintLine;
    var item := Trim(PrintLine(x));
    var slash := LastIndexOf(item, '/');
    assert slash > 0;
    NoLonger(item[..slash]);
    NoSlashAfterLast(item, Trim(item[slash + 1..]));
  }

  lemma PlainComesBack(x: Indicator)
    requires ParseLine(PrintLine(x)) == Some(x) && x.rkey.None?
    ensures ItemOk(x)
  {
    hide Trim, IsSpace, LastIndexOf, Trimmed;
    var item := Trim(x.collection);
    var slash := LastIndexOf(item, '/');
    NoLonger(x.collection);
    assert slash <= 0 by {
      if slash > 0 { NoLonger(item[..slash]); }
    }
    assert x.collection == item;
  }

  /** Only such items come back from their own line. */
  lemma PrintedParsesBack(x: Indicator)
    requires ParseLine(PrintLine(x)) == Some(x)
    ensures ItemOk(x)
  {
    hide ParseLine, PrintLine, ItemOk;
    if x.rkey.Some? { KeyedComesBack(x); } else { PlainComesBack(x); }
  }

  // ---------------------------------------------------------------- a whole list

  predicate Canonical(xs: seq<Indicator>) {
    && |xs| <= MAX_INDICATORS
    && (forall i :: 0 <= i < |xs| ==> ItemOk(xs[i]) && '\n' !in PrintLine(xs[i]))
    && (forall i, j :: 0 <= i < j < |xs| ==> xs[i] != xs[j])
  }

  lemma KeysTellItemsApart(x: Indicator, y: Indicator)
    requires ItemOk(x) && ItemOk(y) && Key(x) == Key(y)
    ensures x == y
  {
    KeySplits(x);
    KeySplits(y);
  }

  lemma KeySplits(x: Indicator)
    requires ItemOk(x)
    ensures LastIndexOf(Key(x), '/') == |x.collection|
    ensures Key(x)[..|x.collection|] == x.collection && Key(x)[|x.collection| + 1..] == x.rkey.GetOr("")
    ensures x.rkey == if x.rkey.GetOr("") == "" then None else Some(x.rkey.GetOr(""))
  {
    var r := x.rkey.GetOr("");
    assert Key(x)[|x.collection|] == '/';
    assert forall k :: |x.collection| < k < |Key(x)| ==> Key(x)[k] == r[k - |x.collection| - 1];
  }

  lemma {:induction false} ItemsAll(lines: seq<string>, xs: seq<Indicator>)
    requires |lines| == |xs| && forall i :: 0 <= i < |xs| ==> ParseLine(lines[i]) == Some(xs[i])
    ensures Items(lines) == xs
  {
    if xs != [] {
      ItemsAll(lines[1..], xs[1..]);
      assert xs == [xs[0]] + xs[1..];
    }
  }

  lemma {:induction false} ItemsFew(lines: seq<string>)
    ensures |Items(lines)| <= |lines|
    ensures |Items(lines)| == |lines| ==> forall i :: 0 <= i < |lines| ==> ParseLine(lines[i]) == Some(Items(lines)[i])
  {
    if lines != [] {
      ItemsFew(lines[1..]);
      if |Items(lines)| == |lines| {
        forall i | 0 <= i < |lines| ensures ParseLine(lines[i]) == Some(Items(lines)[i]) {
          if i > 0 { assert lines[i] == lines[1..][i - 1]; }
        }
      }
    }
  }

  lemma {:induction false} FirstByKeyFew<T, K>(xs: seq<T>, key: T -> K, seen: set<K>)
    ensures |FirstByKey(xs, key, seen)| <= |xs|
    ensures |FirstByKey(xs, key, seen)| == |xs| ==> FirstByKey(xs, key, seen) == xs
  {
    if xs != [] {
      FirstByKeyFew(xs[1..], key, seen);
      FirstByKeyFew(xs[1..], key, seen + {key(xs[0])});
      assert xs == [xs[0]] + xs[1..];
    }
  }

  lemma EmptyText()
    ensures ParseAccountIndicatorLines("") == []
  {
    assert Lines("") == [""] && Trim("") == "";
    assert Items([""]) == Items([""][1..]);
  }

  lemma KeysDiffer(xs: seq<Indicator>)
    requires Canonical(xs)
    ensures FirstByKey(xs, Key, {}) == xs
  {
    forall i, j | 0 <= i < j < |xs| ensures Key(xs[i]) != Key(xs[j]) {
      if Key(xs[i]) == Key(xs[j]) { KeysTellItemsApart(xs[i], xs[j]); }
    }
    FirstByKeyFixed(xs, Key, {});
  }

  lemma LinesParseBack(xs: seq<Indicator>)
    requires Canonical(xs) && xs != []
    ensures Items(Lines(LinesFromAccountIndicators(xs))) == xs
  {
    var lines := Lines(LinesFromAccountIndicators(xs));
    LinesOfPrint(xs);
    forall i | 0 <= i < |xs| ensures ParseLine(lines[i]) == Some(xs[i]) {
      ParsePrinted(xs[i]);
      ParseDropCr(PrintLine(xs[i]));
    }
    ItemsAll(lines, xs);
  }

  lemma CanonicalComesBack(xs: seq<Indicator>)
    requires Canonical(xs)
    ensures ParseAccountIndicatorLines(LinesFromAccountIndicators(xs)) == xs
  {
    if xs == [] {
      EmptyText();
    } else {
      LinesParseBack(xs);
      KeysDiffer(xs);
    }
  }

  /** Nothing that is read contains a line feed. */
  lemma ParsedHasNoFeed(s: string, x: Indicator)
    requires x in ParseAccountIndicatorLines(s)
    ensures '\n' !in PrintLine(x)
  {
    FirstByKeySound(Items(Lines(s)), Key, {});
    LinesHaveNoFeed(s);
    var l := LineOfItem(Lines(s), x);
    PiecesHaveNoFeed(l, x);
  }

  lemma {:induction false} LineOfItem(lines: seq<string>, x: Indicator) returns (l: string)
    requires x in Items(lines)
    ensures l in lines && ParseLine(l) == Some(x)
  {
    if ParseLine(lines[0]) == Some(x) {
      l := lines[0];
    } else {
      l := LineOfItem(lines[1..], x);
    }
  }

  lemma TrimKeepsOut(s: string, c: char)
    requires c !in s
    ensures c !in Trim(s)
  {
    TrimShape(s);
    var i, j :| 0 <= i <= j <= |s| && Trim(s) == s[i..j];
    forall k | 0 <= k < |Trim(s)| ensures Trim(s)[k] != c { assert Trim(s)[k] == s[i + k]; }
  }

  lemma PiecesHaveNoFeed(l: string, x: Indicator)
    requires '\n' !in l && ParseLine(l) == Some(x)
    ensures '\n' !in PrintLine(x)
  {
    TrimKeepsOut(l, '\n');
    var item := Trim(l);
    var slash := LastIndexOf(item, '/');
    if slash > 0 {
      TrimKeepsOut(item[..slash], '\n');
      TrimKeepsOut(item[slash + 1..], '\n');
    }
  }

  lemma ComesBackIsCanonical(xs: seq<Indicator>)
    requires ParseAccountIndicatorLines(LinesFromAccountIndicators(xs)) == xs && xs != []
    ensures Canonical(xs)
  {
    var s := LinesFromAccountIndicators(xs);
    forall i | 0 <= i < |xs| ensures '\n' !in PrintLine(xs[i]) { ParsedHasNoFeed(s, xs[i]); }
    LinesOfPrint(xs);
    ItemsFew(Lines(s));
    FirstByKeyFew(Items(Lines(s)), Key, {});
    FirstByKeySound(Items(Lines(s)), Key, {});
    assert Items(Lines(s)) == xs;
    forall i | 0 <= i < |xs| ensures ItemOk(xs[i]) {
      ParseDropCr(PrintLine(xs[i]));
      PrintedParsesBack(xs[i]);
    }
  }

  /** A saved list survives the form exactly when it has at most 64 different items, each trimmed, on one line, with
      no slash in a record key and none inside a collection that has no record key. */
  lemma RoundTripExactly(xs: seq<Indicator>)
    ensures ParseAccountIndicatorLines(LinesFromAccountIndicators(xs)) == xs <==> Canonical(xs)
  {
    if Canonical(xs) {
      CanonicalComesBack(xs);
    } else if ParseAccountIndicatorLines(LinesFromAccountIndicators(xs)) == xs {
      assert xs != [];
      ComesBackIsCanonical(xs);
    }
  }

  lemma TrailingSlash(item: string)
    requires item != "" && Trimmed(item)
    ensures ParseLine(item + "/") == Some(Indicator(item, None))
  {
    var line := item + "/";
    assert line[0] == item[0] && line[|item|] == '/';
    TrimShape(line);
    TrimShape(item);
    assert LastIndexOf(line, '/') == |item|;
    assert line[..|item|] == item && line[|item| + 1..] == "";
  }

  /** What the form itself reads need not survive: a collection with a slash and an empty record key comes back as a
      collection and a record key. */
  lemma ReadingIsNotStable(c: string, r: string)
    requires ItemOk(Indicator(c, Some(r)))
    ensures var x := Indicator(c + "/" + r, None);
            ParseLine(PrintLine(x) + "/") == Some(x) && ParseLine(PrintLine(x)) == Some(Indicator(c, Some(r)))
  {
    var item := c + "/" + r;
    assert item[0] == c[0] && item[|item| - 1] == r[|r| - 1];
    TrailingSlash(item);
    ParsePrinted(Indicator(c, Some(r)));
  }
}
