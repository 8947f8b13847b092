/** What merging the drafts of a listing promises. */
module AppMerge {
  import opened Wrappers
  import opened Dedupe
  import opened StableSort
  import opened AppDrafts

  // ---------------------------------------------------------------- the order of the drafts does not matter

  lemma SourceDraftsPermuted(ds: seq<Draft>, es: seq<Draft>)
    requires multiset(ds) == multiset(es)
    ensures multiset(SourceDrafts(ds)) == multiset(SourceDrafts(es))
    ensures forall d :: d in SourceDrafts(ds) ==> d in ds
  {
    FilterPermuted(ds, es, NotLocalDev);
    SameItems(Filter(ds, NotLocalDev), Filter(es, NotLocalDev));
    FilterMembers(ds, NotLocalDev);
  }

  lemma SamePrecedence(ds: seq<Draft>, es: seq<Draft>, w: Web, now: int)
    requires ds != [] && multiset(ds) == multiset(es)
    requires Consistent(w.collate) && NoTies(ds, ByPrecedence(w.collate))
    ensures es != [] && MergeDrafts(ds, w, now) == MergeDrafts(es, w, now)
  {
    SameItems(ds, es);
    PrecedenceIsConsistent(w.collate);
    SourceDraftsPermuted(ds, es);
    SortPermuted(ds, es, ByPrecedence(w.collate));
    SortPermuted(SourceDrafts(ds), SourceDrafts(es), ByPrecedence(w.collate));
  }

  /** The rows of a listing may be read in any order: every merged field is the same. */
  lemma MergeIgnoresOrder(ds: seq<Draft>, es: seq<Draft>, w: Web, now: int)
    requires ds != [] && multiset(ds) == multiset(es) && DistinctUris(ds)
    requires Consistent(w.collate) && Separates(w.collate, ds)
    ensures es != [] && MergeDrafts(ds, w, now) == MergeDrafts(es, w, now)
  {
    DistinctUrisDoNotTie(w.collate, ds);
    SamePrecedence(ds, es, w, now);
  }

  /** Of two drafts, the order shows exactly when their precedence ties: then whichever is read first is the
      canonical one. */
  lemma PairOrderShowsExactly(a: Draft, b: Draft, w: Web, now: int)
    requires Consistent(w.collate) && a.sourceUri != b.sourceUri
    ensures MergeDrafts([a, b], w, now) != MergeDrafts([b, a], w, now) <==> Compare(w.collate, a, b) == 0
  {
    var cmp := ByPrecedence(w.collate);
    PrecedenceIsConsistent(w.collate);
    assert Flips(cmp, a, b) && Flips(cmp, b, a);
    SourcePair(a, b);
    SourcePair(b, a);
    SortPair(a, b, cmp);
    SortPair(b, a, cmp);
    if cmp(a, b) == 0 {
      assert MergeDrafts([a, b], w, now).canonicalUri == a.sourceUri;
      assert MergeDrafts([b, a], w, now).canonicalUri == b.sourceUri;
    }
  }

  /** Like the default collation of Unicode, this one passes over soft hyphens. */
  function Visible(s: string): string {
    if s == "" then "" else (if s[0] == '\U{AD}' then "" else [s[0]]) + Visible(s[1..])
  }

  function Lexical(a: string, b: string): int {
    if a == "" || b == "" then |a| - |b|
    else if a[0] != b[0] then a[0] as int - b[0] as int
    else Lexical(a[1..], b[1..])
  }

  function ByVisible(): (string, string) -> int { (a, b) => Lexical(Visible(a), Visible(b)) }

  lemma {:induction false} LexicalFlips(a: string, b: string)
    ensures Lexical(a, b) == -Lexical(b, a)
  {
    if a != "" && b != "" && a[0] == b[0] { LexicalFlips(a[1..], b[1..]); }
  }

  lemma {:induction false} LexicalChains(a: string, b: string, c: string)
    ensures Lexical(a, b) <= 0 && Lexical(b, c) <= 0 ==> Lexical(a, c) <= 0
  {
    if a != "" && b != "" && c != "" { LexicalChains(a[1..], b[1..], c[1..]); }
  }

  lemma ByVisibleIsConsistent()
    ensures Consistent(ByVisible())
  {
    forall a, b ensures Flips(ByVisible(), a, b) { LexicalFlips(Visible(a), Visible(b)); }
    forall a, b, c ensures Chains(ByVisible(), a, b, c) { LexicalChains(Visible(a), Visible(b), Visible(c)); }
  }

  function Entry(uri: string): Draft {
    Draft(CommunityEntry, uri, "", map[], [], [], [], [], [], [], [], [], None, None)
  }

  lemma TooShort(s: string, part: string)
    requires |s| < |part|
    ensures !Includes(s, part) && !(part <= s)
  {
  }

  lemma EntryIsNotLocal(uri: string)
    requires |uri| < |LOCAL_DEV|
    ensures !IsLocalDev(Entry(uri))
  {
    TooShort(uri, LOCAL_DEV);
    TooShort("", LOCAL_DEV);
    hide Includes;
  }

  lemma EntriesTie(a: string, b: string)
    requires |a| < |LOCAL_DEV| && |b| < |LOCAL_DEV| && Visible(a) == Visible(b)
    ensures Compare(ByVisible(), Entry(a), Entry(b)) == 0
  {
    EntryIsNotLocal(a);
    EntryIsNotLocal(b);
    hide IsLocalDev, Visible, Lexical;
    LexicalFlips(Visible(a), Visible(b));
  }

  /** Under such a collation two URIs that differ in a soft hyphen tie, and their drafts show the order they are read
      in. */
  lemma SoftHyphenShowsOrder(w: Web, now: int) returns (a: Draft, b: Draft)
    ensures a.sourceUri != b.sourceUri && Consistent(ByVisible())
    ensures var v := w.(collate := ByVisible()); MergeDrafts([a, b], v, now) != MergeDrafts([b, a], v, now)
  {
    a, b := Entry("at://a"), Entry("at://a\U{AD}");
    ByVisibleIsConsistent();
    HyphenIsInvisible("at://a", "\U{AD}");
    EntriesTie(a.sourceUri, b.sourceUri);
    hide Compare, MergeDrafts, ByVisible, Consistent;
    PairOrderShowsExactly(a, b, w.(collate := ByVisible()), now);
  }

  lemma {:induction false} HyphenIsInvisible(s: string, tail: string)
    requires Visible(tail) == ""
    ensures Visible(s + tail) == Visible(s)
  {
    if s == "" {
      assert s + tail == tail;
    } else {
      HyphenIsInvisible(s[1..], tail);
      assert (s + tail)[1..] == s[1..] + tail && (s + tail)[0] == s[0];
    }
  }

  lemma SourcePair(a: Draft, b: Draft)
    ensures SourceDrafts([a, b]) ==
            if IsLocalDev(a) == IsLocalDev(b) then [a, b] else if IsLocalDev(a) then [b] else [a]
  {
    assert [a, b][1..] == [b] && [b][1..] == [];
    assert Filter([b], NotLocalDev) == if NotLocalDev(b) then [b] else [];
  }

  lemma SortPair<T(!new)>(a: T, b: T, cmp: (T, T) -> int)
    ensures Sort([a, b], cmp) == if cmp(a, b) <= 0 then [a, b] else [b, a]
  {
    assert [a, b][1..] == [b] && [b][1..] == [];
    assert Sort([b], cmp) == Insert(b, [], cmp) == [b];
    assert Insert(a, [], cmp) == [a];
    assert cmp(a, b) > 0 ==> Insert(a, [b], cmp) == [b] + Insert(a, [], cmp);
  }

  // ---------------------------------------------------------------- local fixtures

  /** When there is a draft that is no local fixture, adding, removing or changing fixtures changes nothing but the
      supplemental links: the other fields and the content links are the same. */
  lemma LocalDraftsOnlyAddLinks(ds: seq<Draft>, es: seq<Draft>, w: Web, now: int)
    requires ds != [] && es != [] && Filter(ds, NotLocalDev) != []
    requires multiset(Filter(ds, NotLocalDev)) == multiset(Filter(es, NotLocalDev))
    requires Consistent(w.collate) && NoTies(Filter(ds, NotLocalDev), ByPrecedence(w.collate))
    ensures MergeDrafts(ds, w, now).(links := []) == MergeDrafts(es, w, now).(links := [])
    ensures ContentDrafts(ds, w) == ContentDrafts(es, w)
    ensures ContentLinks(w, ContentDrafts(ds, w)) <= MergeDrafts(ds, w, now).links
    ensures ContentLinks(w, ContentDrafts(ds, w)) <= MergeDrafts(es, w, now).links
  {
    SameItems(Filter(ds, NotLocalDev), Filter(es, NotLocalDev));
    PrecedenceIsConsistent(w.collate);
    SortPermuted(Filter(ds, NotLocalDev), Filter(es, NotLocalDev), ByPrecedence(w.collate));
    MergedLinksShape(w, ContentDrafts(ds, w), Sort(ds, ByPrecedence(w.collate)));
    MergedLinksShape(w, ContentDrafts(es, w), Sort(es, ByPrecedence(w.collate)));
  }

  // ---------------------------------------------------------------- links

  function ContentDrafts(ds: seq<Draft>, w: Web): seq<Draft> {
    Content(Sort(SourceDrafts(ds), ByPrecedence(w.collate)))
  }

  /** The links of the content drafts, the first of each destination, up to the limit. */
  function ContentLinks(w: Web, content: seq<Draft>): seq<Link> {
    Take(FirstByKey(FlatMap(content, LinksOf), LinkKey(w), {}), MAX_LINKS)
  }

  lemma {:induction false} FlatMapMembers<T(!new)>(ds: seq<Draft>, f: Draft -> seq<T>)
    ensures forall x :: x in FlatMap(ds, f) <==> exists d :: d in ds && x in f(d)
  {
    if ds != [] {
      FlatMapMembers(ds[1..], f);
      assert ds == [ds[0]] + ds[1..];
    }
  }

  /** Content drafts come from the listing's drafts, and are ATStore listings if any source draft is. */
  lemma ContentAre(ds: seq<Draft>, w: Web)
    requires Consistent(w.collate)
    ensures forall d :: d in ContentDrafts(ds, w) ==> d in SourceDrafts(ds)
    ensures (exists d :: d in SourceDrafts(ds) && IsAtstore(d)) ==> forall d :: d in ContentDrafts(ds, w) ==>
                                                                                  IsAtstore(d)
  {
    PrecedenceIsConsistent(w.collate);
    var sorted := Sort(SourceDrafts(ds), ByPrecedence(w.collate));
    SortShape(SourceDrafts(ds), ByPrecedence(w.collate));
    SameItems(SourceDrafts(ds), sorted);
    FilterMembers(sorted, IsAtstore);
    if Filter(sorted, IsAtstore) == [] {
      forall d | d in sorted ensures !IsAtstore(d) {
        assert d in Filter(sorted, IsAtstore) <==> IsAtstore(d);
      }
    }
  }

  predicate LinkOfSome(ds: seq<Draft>, l: Link) {
    exists d :: d in ds && l in d.links
  }

  /** Deduplicating two lists and cutting the result keeps what the first list alone would give, in front. */
  lemma OwnFirst<T(!new), K>(own: seq<T>, more: seq<T>, key: T -> K, limit: nat)
    ensures var r := Take(FirstByKey(own + more, key, {}), limit);
            var n := |Take(FirstByKey(own, key, {}), limit)|;
            && |r| <= limit && n <= |r| && r[..n] == Take(FirstByKey(own, key, {}), limit)
            && (forall i :: 0 <= i < n ==> r[i] in own)
            && (forall i :: n <= i < |r| ==> r[i] in more)
            && (forall i, j :: 0 <= i < j < |r| ==> key(r[i]) != key(r[j]))
  {
    hide FirstByKey, Keys, Take;
    var a := FirstByKey(own, key, {});
    var b := FirstByKey(more, key, {} + Keys(own, key));
    FirstByKeyAppend(own, more, key, {});
    FirstByKeySound(own + more, key, {});
    FirstByKeySound(own, key, {});
    FirstByKeySound(more, key, {} + Keys(own, key));
    TakeOfTwo(a, b, limit);
  }

  lemma TakeOfTwo<T>(a: seq<T>, b: seq<T>, limit: nat)
    ensures var r := Take(a + b, limit);
            var n := |Take(a, limit)|;
            && |r| <= limit && n <= |r| && r[..n] == Take(a, limit) && r <= a + b
            && (forall i :: 0 <= i < n ==> r[i] in a) && (forall i :: n <= i < |r| ==> r[i] in b)
  {
    var r := Take(a + b, limit);
    var n := |Take(a, limit)|;
    forall i | 0 <= i < n ensures r[i] in a { assert r[i] == a[i]; }
    forall i | n <= i < |r| ensures r[i] in b { assert r[i] == b[i - |a|]; }
  }

  lemma LinksOfSome(ds: seq<Draft>, l: Link)
    requires l in FlatMap(ds, LinksOf)
    ensures LinkOfSome(ds, l)
  {
    FlatMapMembers(ds, LinksOf);
  }

  lemma SupplementalOnly(w: Web, content: seq<Draft>, all: seq<Draft>)
    ensures forall l :: l in SupplementalLinks(w, content, all) ==> Supplemental(w, l)
  {
    FilterMembers(FlatMap(Filter(all, d => d !in content), LinksOf), l => Supplemental(w, l));
  }

  /** The content links come first and are never displaced; whatever follows has an allow-listed destination; no two
      links have one destination, and there are at most 16. */
  lemma MergedLinksShape(w: Web, content: seq<Draft>, all: seq<Draft>)
    ensures var links := MergedLinks(w, content, all);
            var n := |ContentLinks(w, content)|;
            && |links| <= 16
            && n <= |links| && links[..n] == ContentLinks(w, content)
            && (forall i :: 0 <= i < n ==> LinkOfSome(content, links[i]))
            && (forall i :: n <= i < |links| ==> Supplemental(w, links[i]))
            && (forall i, j :: 0 <= i < j < |links| ==> LinkKey(w)(links[i]) != LinkKey(w)(links[j]))
  {
    var own := FlatMap(content, LinksOf);
    OwnFirst(own, SupplementalLinks(w, content, all), LinkKey(w), MAX_LINKS);
    SupplementalOnly(w, content, all);
    forall l | l in own ensures LinkOfSome(content, l) {
      LinksOfSome(content, l);
    }
  }

  /** With an ATStore listing among the source drafts, every merged link is one of an ATStore listing's or has an
      allow-listed destination. */
  lemma AuthoritativeLinks(ds: seq<Draft>, w: Web, now: int, l: Link)
    requires Consistent(w.collate) && (exists d :: d in SourceDrafts(ds) && IsAtstore(d))
    requires ds != [] && l in MergeDrafts(ds, w, now).links
    ensures Supplemental(w, l) || exists d :: d in SourceDrafts(ds) && IsAtstore(d) && l in d.links
  {
    MergedLinksShape(w, ContentDrafts(ds, w), Sort(ds, ByPrecedence(w.collate)));
    ContentAre(ds, w);
    var links := MergeDrafts(ds, w, now).links;
    var i :| 0 <= i < |links| && links[i] == l;
  }
}
