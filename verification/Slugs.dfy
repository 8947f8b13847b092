/** Slugs, their alias keys, and the candidates tried for a unique one. */
module Slugs {
  import opened Text

  predicate SlugChar(c: char) {
    'a' <= c <= 'z' || '0' <= c <= '9' || c == '.'
  }

  /** Replace each run of other characters by one hyphen; `inRun` says that the run has already been written. */
  function Hyphenate(s: string, inRun: bool): string {
    if s == [] then []
    else if SlugChar(s[0]) then [s[0]] + Hyphenate(s[1..], false)
    else if inRun then Hyphenate(s[1..], true)
    else "-" + Hyphenate(s[1..], true)
  }

  function DropLeading(s: string): string {
    if s != [] && s[0] == '-' then DropLeading(s[1..]) else s
  }

  function DropTrailing(s: string): string {
    if s != [] && s[|s| - 1] == '-' then DropTrailing(s[..|s| - 1]) else s
  }

  function DropAt(s: string): string {
    if s != [] && s[0] == '@' then s[1..] else s
  }

  function Body(v: string): string {
    DropTrailing(DropLeading(Hyphenate(DropAt(Lower(Trim(v))), false)))
  }

  function Slugify(v: string): string {
    var slug := if |Body(v)| <= 80 then Body(v) else Body(v)[..80];
    if slug == "" then "app" else slug
  }

  function SlugKey(slug: string): string { "slug:" + Slugify(slug) }

  predicate IsSlugKey(k: string) { "slug:" <= k }

  function UriKey(uri: string): string { Trim("uri:" + uri) }

  function Digits(n: nat): string {
    if n < 10 then [('0' as int + n) as char] else Digits(n / 10) + [('0' as int + n % 10) as char]
  }

  /** `base`, `base-2`, `base-3`, … */
  function Candidate(base: string, i: nat): string {
    if i <= 1 then base else base + "-" + Digits(i)
  }

  /** The slug taken when no candidate is free: the base and the first eight characters of the listing id. */
  function Fallback(base: string, id: nat): string {
    base + "-" + (if |Digits(id)| <= 8 then Digits(id) else Digits(id)[..8])
  }

  // ---------------------------------------------------------------- which slugs are their own key

  predicate Piece(c: char) { SlugChar(c) || c == '-' }

  /** Lower-case words separated by single hyphens. */
  predicate Clean(s: string) {
    && s != [] && s[0] != '-' && s[|s| - 1] != '-'
    && (forall i :: 0 <= i < |s| ==> Piece(s[i]))
    && (forall i :: 0 <= i < |s| - 1 ==> s[i] != '-' || s[i + 1] != '-')
  }

  predicate Joined(s: string) {
    && (forall i :: 0 <= i < |s| ==> Piece(s[i]))
    && (forall i :: 0 <= i < |s| - 1 ==> s[i] != '-' || s[i + 1] != '-')
  }

  lemma {:induction false} HyphenateJoins(s: string, inRun: bool)
    ensures Joined(Hyphenate(s, inRun))
    ensures inRun && Hyphenate(s, inRun) != [] ==> Hyphenate(s, inRun)[0] != '-'
  {
    if s != [] {
      HyphenateJoins(s[1..], false);
      HyphenateJoins(s[1..], true);
    }
  }

  lemma {:induction false} HyphenateKeeps(s: string, inRun: bool)
    requires Joined(s) && (inRun && s != [] ==> s[0] != '-')
    ensures Hyphenate(s, inRun) == s
  {
    if s != [] {
      assert Joined(s[1..]) by {
        assert forall i :: 0 <= i < |s[1..]| ==> s[1..][i] == s[i + 1];
      }
      assert s == [s[0]] + s[1..];
      if SlugChar(s[0]) {
        HyphenateKeeps(s[1..], false);
      } else {
        assert s[0] == '-';
        assert s[1..] != [] ==> s[1..][0] == s[1];
        HyphenateKeeps(s[1..], true);
      }
    }
  }

  lemma {:induction false} DropLeadingShape(s: string)
    requires Joined(s)
    ensures Joined(DropLeading(s)) && (DropLeading(s) != [] ==> DropLeading(s)[0] != '-')
  {
    if s != [] && s[0] == '-' {
      assert Joined(s[1..]) by {
        assert forall i :: 0 <= i < |s[1..]| ==> s[1..][i] == s[i + 1];
      }
      DropLeadingShape(s[1..]);
    }
  }

  lemma {:induction false} DropTrailingShape(s: string)
    requires Joined(s) && (s != [] ==> s[0] != '-')
    ensures DropTrailing(s) == [] || Clean(DropTrailing(s))
  {
    if s != [] && s[|s| - 1] == '-' {
      DropTrailingShape(s[..|s| - 1]);
    }
  }

  lemma {:induction false} HyphenateShrinks(s: string, inRun: bool)
    ensures |Hyphenate(s, inRun)| <= |s|
  {
    if s != [] {
      HyphenateShrinks(s[1..], false);
      HyphenateShrinks(s[1..], true);
    }
  }

  lemma {:induction false} DropsShrink(s: string)
    ensures |DropLeading(s)| <= |s| && |DropTrailing(s)| <= |s|
  {
    if s != [] {
      DropsShrink(s[1..]);
      DropsShrink(s[..|s| - 1]);
    }
  }

  /** Before the cut, a slug is clean or empty, and no longer than the text. */
  lemma BodyShape(v: string)
    ensures Body(v) == [] || Clean(Body(v))
    ensures |Body(v)| <= |v|
  {
    var l := DropAt(Lower(Trim(v)));
    TrimShape(v);
    HyphenateShrinks(l, false);
    DropsShrink(Hyphenate(l, false));
    DropsShrink(DropLeading(Hyphenate(l, false)));
    HyphenateJoins(l, false);
    DropLeadingShape(Hyphenate(l, false));
    DropTrailingShape(DropLeading(Hyphenate(l, false)));
  }

  /** A slug shorter than the limit is clean: only the cut at 80 characters can leave a trailing hyphen. */
  lemma ShortSlugsAreClean(v: string)
    requires |Slugify(v)| < 80
    ensures Clean(Slugify(v))
  {
    BodyShape(v);
  }

  lemma CleanIsTrimmed(s: string)
    requires Clean(s)
    ensures Trim(s) == s
  {
    assert !IsSpace(s[0]) && !IsSpace(s[|s| - 1]) by {
      assert Piece(s[0]) && Piece(s[|s| - 1]);
    }
    hide IsSpace, Trim;
    TrimShape(s);
  }

  lemma CleanIsLower(s: string)
    requires Clean(s)
    ensures Lower(s) == s
  {
    forall i | 0 <= i < |s| ensures LowerChar(s[i]) == s[i] {
      assert Piece(s[i]);
    }
  }

  lemma BodyOfClean(s: string)
    requires Clean(s)
    ensures Body(s) == s
  {
    hide Trim, Lower;
    CleanIsTrimmed(s);
    CleanIsLower(s);
    assert DropAt(s) == s by { assert Piece(s[0]); }
    HyphenateKeeps(s, false);
  }

  /** A text of at most 80 characters is its own slug exactly when it is clean. */
  lemma OwnSlug(s: string)
    requires |s| <= 80
    ensures Slugify(s) == s <==> Clean(s)
  {
    if Clean(s) {
      BodyOfClean(s);
    } else {
      BodyShape(s);
    }
  }

  lemma {:induction false} DigitsAreClean(n: nat)
    ensures Digits(n) != [] && forall i :: 0 <= i < |Digits(n)| ==> SlugChar(Digits(n)[i])
    ensures n < 100 ==> |Digits(n)| <= 2
  {
    if n >= 10 { DigitsAreClean(n / 10); }
  }

  /** Every candidate of a clean base with room for its number is clean and within the limit. */
  lemma CandidatesAreClean(base: string, i: nat)
    requires Clean(base) && |base| <= 77 && i < 100
    ensures Clean(Candidate(base, i)) && |Candidate(base, i)| <= 80
  {
    if i > 1 {
      DigitsAreClean(i);
      var c := Candidate(base, i);
      assert c == base + (['-'] + Digits(i));
      forall k | 0 <= k < |c| ensures Piece(c[k]) {
        if k < |base| { assert c[k] == base[k]; } else if k > |base| { assert c[k] == Digits(i)[k - |base| - 1]; }
      }
      forall k | 0 <= k < |c| - 1 ensures c[k] != '-' || c[k + 1] != '-' {
        if k + 1 < |base| { assert c[k] == base[k] && c[k + 1] == base[k + 1]; }
        else if k + 1 == |base| { assert c[k] == base[k]; }
        else { assert c[k + 1] == Digits(i)[k - |base|]; }
      }
    }
  }

  /** Two clean slugs within the limit share an alias key only when they are equal. */
  lemma KeysTellSlugsApart(a: string, b: string)
    requires Clean(a) && Clean(b) && |a| <= 80 && |b| <= 80 && SlugKey(a) == SlugKey(b)
    ensures a == b
  {
    OwnSlug(a);
    OwnSlug(b);
    assert SlugKey(a)[5..] == a && SlugKey(b)[5..] == b;
  }
}
