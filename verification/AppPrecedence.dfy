/** Which drafts a merged listing shows, said of the drafts themselves. */
module AppPrecedence {
  import opened Wrappers
  import opened Text
  import opened Slugs
  import opened Dedupe
  import opened StableSort
  import opened AppDrafts
  import opened AppMerge
  import AccountIndicators

  // ---------------------------------------------------------------- which draft comes first

  /** This text, at the beginning of a DID or anywhere in the URI, marks a local fixture. */
  ghost predicate MarkedLocal(d: Draft, mark: string) {
    || (exists rest :: d.repoDid == mark + rest)
    || (exists before, rest :: d.sourceUri == before + mark + rest)
    || (ProductDid in d.texts && exists rest :: d.texts[ProductDid] == mark + rest)
    || (ProfileDid in d.texts && exists rest :: d.texts[ProfileDid] == mark + rest)
  }

  lemma SplitsAt(s: string, mark: string, i: nat)
    requires i <= |s| && mark <= s[i..]
    ensures s == s[..i] + mark + s[i..][|mark|..]
  {
    assert s[i..] == mark + s[i..][|mark|..];
    assert s == s[..i] + s[i..];
  }

  lemma JoinedAt(before: string, mark: string, rest: string)
    ensures (before + mark + rest)[|before|..] == mark + rest
  {
  }

  lemma Splits(s: string, mark: string)
    ensures mark <= s <==> exists rest :: s == mark + rest
    ensures Includes(s, mark) <==> exists before, rest :: s == before + mark + rest
  {
    if mark <= s { assert s == mark + s[|mark|..]; }
    if Includes(s, mark) {
      var i :| 0 <= i <= |s| && mark <= s[i..];
      SplitsAt(s, mark, i);
    }
    if before, rest :| s == before + mark + rest {
      JoinedAt(before, mark, rest);
      assert mark <= s[|before|..];
    }
  }

  lemma LocalFixturesExactly(d: Draft)
    ensures IsLocalDev(d) <==> MarkedLocal(d, "did:plc:localdev")
  {
    hide Includes;
    var mark := LOCAL_DEV;
    Splits(d.repoDid, mark);
    Splits(d.sourceUri, mark);
    if ProductDid in d.texts { Splits(d.texts[ProductDid], mark); }
    if ProfileDid in d.texts { Splits(d.texts[ProfileDid], mark); }
  }

  /** ATStore listings are the best source, then community profiles, community entries and atmosphere profiles. */
  predicate BetterSource(a: Source, b: Source) {
    || (a.AtstoreListing? && !b.AtstoreListing?)
    || (a.CommunityProfile? && !b.AtstoreListing? && !b.CommunityProfile?)
    || (a.CommunityEntry? && (b.AtmosphereProfile? || b.OtherSource?))
    || (a.AtmosphereProfile? && b.OtherSource?)
  }

  /** When the draft was last changed: updated, else created, else at the beginning of time. */
  predicate LastChanged(d: Draft, t: int) {
    || d.updatedAt == Some(t)
    || (d.updatedAt.None? && (d.createdAt == Some(t) || (d.createdAt.None? && t == 0)))
  }

  ghost predicate NewerOrTies(collate: (string, string) -> int, a: Draft, b: Draft) {
    exists t, u :: LastChanged(a, t) && LastChanged(b, u)
                   && (t > u || (t == u && collate(a.sourceUri, b.sourceUri) <= 0))
  }

  /** `a` comes before `b`, or ties with it: local fixtures last, then the better source, then the newer draft, then
      by URI. */
  ghost predicate Precedes(collate: (string, string) -> int, a: Draft, b: Draft) {
    || (!IsLocalDev(a) && IsLocalDev(b))
    || ((IsLocalDev(a) <==> IsLocalDev(b))
        && (BetterSource(a.source, b.source)
            || (!BetterSource(b.source, a.source) && NewerOrTies(collate, a, b))))
  }

  lemma PrecedesExactly(collate: (string, string) -> int, a: Draft, b: Draft)
    ensures ByPrecedence(collate)(a, b) <= 0 <==> Precedes(collate, a, b)
  {
    hide IsLocalDev;
    assert LastChanged(a, TimeOf(a)) && LastChanged(b, TimeOf(b));
  }

  /** Local fixtures count only when there is nothing else. */
  ghost function Sources(ds: seq<Draft>): set<Draft> {
    set d | d in ds && (IsLocalDev(d) ==> forall e :: e in ds ==> IsLocalDev(e))
  }

  /** Where there is an ATStore listing, only such listings give the content. */
  ghost function Contents(ds: seq<Draft>): set<Draft> {
    set d | d in Sources(ds) && (!d.source.AtstoreListing? ==>
                                   forall e :: e in Sources(ds) ==> !e.source.AtstoreListing?)
  }

  // ---------------------------------------------------------------- what each field shows

  predicate Gives(d: Draft, f: Field) { f in d.texts && d.texts[f] != "" }

  /** The text of the first draft that gives one, and none if no draft does. */
  ghost predicate Shows(collate: (string, string) -> int, from: set<Draft>, f: Field, v: Option<string>) {
    match v
    case None => forall d :: d in from ==> !Gives(d, f)
    case Some(x) =>
      exists d :: d in from && Gives(d, f) && d.texts[f] == x
                  && forall e :: e in from && Gives(e, f) ==> Precedes(collate, d, e)
  }

  /** The URI of the first draft from that source. */
  ghost predicate Refers(collate: (string, string) -> int, from: set<Draft>, s: Source, v: Option<string>) {
    match v
    case None => forall d :: d in from ==> d.source != s
    case Some(uri) =>
      exists d :: d in from && d.source == s && d.sourceUri == uri
                  && forall e :: e in from && e.source == s ==> Precedes(collate, d, e)
  }

  /** What the slug is made from: the slug field, else the name, else a DID, else the URI. */
  predicate SlugFrom(d: Draft, x: string) {
    if SlugField in d.texts then x == d.texts[SlugField]
    else if Name in d.texts then x == d.texts[Name]
    else if ProductDid in d.texts then x == d.texts[ProductDid]
    else if ProfileDid in d.texts then x == d.texts[ProfileDid]
    else x == d.sourceUri
  }

  /** The canonical draft is one that no other draft precedes. */
  ghost predicate ShowsCanonical(m: Listing, collate: (string, string) -> int, ds: seq<Draft>) {
    exists d, x :: d in ds && (forall e :: e in ds ==> Precedes(collate, d, e))
                   && m.canonicalUri == d.sourceUri && m.canonicalSource == d.source
                   && SlugFrom(d, x) && m.slug == Slugify(x)
  }

  ghost predicate ShowsTexts(m: Listing, collate: (string, string) -> int, ds: seq<Draft>) {
    && (exists v :: Shows(collate, Contents(ds), Name, v) && m.name == v.GetOr("Untitled app"))
    && (exists v, u :: Shows(collate, Contents(ds), Description, v) && Shows(collate, Contents(ds), Tagline, u)
                       && m.description == (if v.Some? then v.value else u.GetOr(""))
                       && m.tagline == (if u.Some? then u.value else v.GetOr("")))
    && Shows(collate, Contents(ds), Status, m.status)
    && Shows(collate, Contents(ds), PrimaryUrl, m.primaryUrl)
    && Shows(collate, Contents(ds), IconUrl, m.iconUrl)
    && Shows(collate, Contents(ds), ProductDid, m.productDid)
    && Shows(collate, Contents(ds), AtstoreListingUri, m.atstoreListingUri)
    && Shows(collate, Contents(ds), CommunityProfileUri, m.communityProfileUri)
    && Shows(collate, Contents(ds), CommunityEntryUri, m.communityEntryUri)
    && Shows(collate, Sources(ds), ProfileDid, m.profileDid)
    && Shows(collate, Sources(ds), LegacyProfileDid, m.legacyProfileDid)
  }

  ghost predicate ShowsRefs(r: Refs, collate: (string, string) -> int, ds: seq<Draft>) {
    && Refers(collate, Sources(ds), AtmosphereProfile, r.atmosphere)
    && Refers(collate, Sources(ds), AtstoreListing, r.atstore)
    && Refers(collate, Sources(ds), CommunityProfile, r.communityProfile)
    && Refers(collate, Sources(ds), CommunityEntry, r.communityEntry)
  }

  /** Published when the first content draft was created, updated when the last one was; an undated draft counts as
      of now. */
  ghost predicate ShowsDates(m: Listing, ds: seq<Draft>, now: int) {
    && (exists d :: d in Contents(ds) && m.publishedAt == d.createdAt.GetOr(now))
    && (forall d :: d in Contents(ds) ==> m.publishedAt <= d.createdAt.GetOr(now))
    && (exists d :: d in Contents(ds) && m.updatedAt == d.updatedAt.GetOr(d.createdAt.GetOr(now)))
    && (forall d :: d in Contents(ds) ==> d.updatedAt.GetOr(d.createdAt.GetOr(now)) <= m.updatedAt)
  }

  // ---------------------------------------------------------------- the lists

  predicate Lists(d: Draft, f: Draft -> seq<string>, x: string) {
    exists i :: 0 <= i < |f(d)| && Trim(f(d)[i]) == x
  }

  /** The trimmed strings of the content drafts, each once up to case. */
  ghost predicate Gathers(out: seq<string>, ds: seq<Draft>, f: Draft -> seq<string>) {
    && (forall x :: x in out ==> x != "" && exists d :: d in Contents(ds) && Lists(d, f, x))
    && (forall i, j :: 0 <= i < j < |out| ==> Lower(out[i]) != Lower(out[j]))
    && (forall d, x :: d in Contents(ds) && Lists(d, f, x) && x != "" ==>
                         exists y :: y in out && Lower(y) == Lower(x))
  }

  predicate HasIndicator(d: Draft, x: AccountIndicators.Indicator) { x in d.indicators }

  /** The indicators of the content drafts, each once. */
  ghost predicate Indicates(out: seq<AccountIndicators.Indicator>, ds: seq<Draft>) {
    && (forall x :: x in out ==> exists d :: d in Contents(ds) && HasIndicator(d, x))
    && (forall i, j :: 0 <= i < j < |out| ==> AccountIndicators.Key(out[i]) != AccountIndicators.Key(out[j]))
    && (forall d, x :: d in Contents(ds) && HasIndicator(d, x) ==>
                         exists y :: y in out && AccountIndicators.Key(y) == AccountIndicators.Key(x))
  }

  /** The text of a draft's hero image, if it has one. */
  function HeroOf(d: Draft): seq<string> { if HeroUrl in d.texts then [d.texts[HeroUrl]] else [] }

  ghost predicate ShowsLists(m: Listing, ds: seq<Draft>) {
    && Gathers(m.screenshotUrls, ds, (d: Draft) => d.screenshotUrls)
    && Gathers(m.platforms, ds, (d: Draft) => d.platforms)
    && Gathers(m.categorySlugs, ds, (d: Draft) => d.categorySlugs)
    && Gathers(m.produces, ds, (d: Draft) => d.produces)
    && Gathers(m.consumes, ds, (d: Draft) => d.consumes)
    && Indicates(m.indicators, ds)
    && (exists tags :: Gathers(tags, ds, (d: Draft) => d.tags)
                       && m.tags == (if |tags| <= 16 then tags else tags[..16]))
    && (exists heroes :: Gathers(heroes, ds, HeroOf)
                         && m.heroUrl == (if heroes == [] then None else Some(heroes[0]))
                         && m.heroFallbackUrl == (if |heroes| < 2 then None else Some(heroes[1])))
  }

  // ---------------------------------------------------------------- proofs

  ghost predicate Falling(collate: (string, string) -> int, s: seq<Draft>) {
    forall i, j :: 0 <= i <= j < |s| ==> Precedes(collate, s[i], s[j])
  }

  /** Sorted by precedence, and with these members. */
  ghost predicate InOrder(collate: (string, string) -> int, sorted: seq<Draft>, from: set<Draft>) {
    (forall d :: d in sorted <==> d in from) && Falling(collate, sorted)
  }

  lemma SourcesAre(ds: seq<Draft>)
    ensures forall d :: d in SourceDrafts(ds) <==> d in Sources(ds)
  {
    hide IsLocalDev;
    var others := Filter(ds, NotLocalDev);
    FilterMembers(ds, NotLocalDev);
    if others != [] {
      assert others[0] in others;
      assert others[0] in ds && !IsLocalDev(others[0]);
    } else {
      assert forall d :: d in ds ==> IsLocalDev(d);
    }
  }

  lemma SortedFalls(xs: seq<Draft>, collate: (string, string) -> int)
    requires Consistent(collate)
    ensures Falling(collate, Sort(xs, ByPrecedence(collate)))
  {
    hide Precedes, ByPrecedence;
    var cmp := ByPrecedence(collate);
    var sorted := Sort(xs, cmp);
    PrecedenceIsConsistent(collate);
    SortShape(xs, cmp);
    forall i, j | 0 <= i <= j < |sorted| ensures Precedes(collate, sorted[i], sorted[j]) {
      assert Flips(cmp, sorted[i], sorted[j]);
      PrecedesExactly(collate, sorted[i], sorted[j]);
    }
  }

  lemma SourcesInOrder(ds: seq<Draft>, w: Web)
    requires Consistent(w.collate)
    ensures InOrder(w.collate, Sort(SourceDrafts(ds), ByPrecedence(w.collate)), Sources(ds))
  {
    hide SourceDrafts, Sources, Falling, ByPrecedence;
    var cmp := ByPrecedence(w.collate);
    SourcesAre(ds);
    SortedFalls(SourceDrafts(ds), w.collate);
    PrecedenceIsConsistent(w.collate);
    SortShape(SourceDrafts(ds), cmp);
    SameItems(Sort(SourceDrafts(ds), cmp), SourceDrafts(ds));
  }

  lemma FallsFrom(collate: (string, string) -> int, d: Draft, rest: seq<Draft>)
    requires Falling(collate, rest) && Precedes(collate, d, d)
    requires forall e :: e in rest ==> Precedes(collate, d, e)
    ensures Falling(collate, [d] + rest)
  {
    hide Precedes;
    var s := [d] + rest;
    forall i, j | 0 <= i <= j < |s| ensures Precedes(collate, s[i], s[j]) {
      if i > 0 {
        assert s[i] == rest[i - 1] && s[j] == rest[j - 1];
      } else if j > 0 {
        assert s[j] == rest[j - 1] && rest[j - 1] in rest;
      }
    }
  }

  lemma {:induction false} FilterKeepsOrder(sorted: seq<Draft>, p: Draft -> bool, collate: (string, string) -> int)
    requires Falling(collate, sorted)
    ensures Falling(collate, Filter(sorted, p))
  {
    hide Precedes;
    if sorted != [] {
      var tail := sorted[1..];
      var rest := Filter(tail, p);
      assert forall k :: 0 <= k < |tail| ==> tail[k] == sorted[k + 1];
      FilterKeepsOrder(tail, p, collate);
      FilterMembers(tail, p);
      forall e | e in rest ensures Precedes(collate, sorted[0], e) {
        var k :| 0 <= k < |tail| && tail[k] == e;
        assert sorted[k + 1] == e;
      }
      assert Precedes(collate, sorted[0], sorted[0]);
      FallsFrom(collate, sorted[0], rest);
    }
  }

  lemma ContentsInOrder(ds: seq<Draft>, w: Web)
    requires Consistent(w.collate)
    ensures InOrder(w.collate, ContentDrafts(ds, w), Contents(ds))
  {
    hide IsLocalDev, Precedes, Sources;
    var sorted := Sort(SourceDrafts(ds), ByPrecedence(w.collate));
    SourcesInOrder(ds, w);
    FilterMembers(sorted, IsAtstore);
    FilterKeepsOrder(sorted, IsAtstore, w.collate);
    var stores := Filter(sorted, IsAtstore);
    if stores != [] {
      assert stores[0] in stores;
      assert stores[0] in Sources(ds) && stores[0].source.AtstoreListing?;
    } else {
      assert forall d :: d in Sources(ds) ==> !d.source.AtstoreListing?;
    }
    assert forall d :: d in ContentDrafts(ds, w) <==> d in Contents(ds);
  }

  lemma {:induction false} FirstShows(collate: (string, string) -> int, sorted: seq<Draft>, from: set<Draft>, f: Field)
    requires InOrder(collate, sorted, from)
    ensures Shows(collate, from, f, First(sorted, f))
  {
    hide Precedes;
    var i := FirstAt(sorted, f);
    if i < |sorted| { assert sorted[i] in from; }
  }

  lemma {:induction false} FirstAt(ds: seq<Draft>, f: Field) returns (i: nat)
    ensures i <= |ds| && (forall k :: 0 <= k < i ==> !Gives(ds[k], f))
    ensures First(ds, f) == if i < |ds| then Some(TextOf(ds[i], f).GetOr("")) else None
    ensures i < |ds| ==> Gives(ds[i], f)
  {
    i := 0;
    if ds != [] && !Gives(ds[0], f) {
      i := FirstAt(ds[1..], f);
      i := i + 1;
    }
  }

  lemma {:induction false} FirstUriAt(ds: seq<Draft>, s: Source) returns (i: nat)
    ensures i <= |ds| && (forall k :: 0 <= k < i ==> ds[k].source != s)
    ensures FirstUri(ds, s) == if i < |ds| then Some(ds[i].sourceUri) else None
    ensures i < |ds| ==> ds[i].source == s
  {
    i := 0;
    if ds != [] && ds[0].source != s {
      i := FirstUriAt(ds[1..], s);
      i := i + 1;
    }
  }

  lemma RefersFirst(collate: (string, string) -> int, sorted: seq<Draft>, from: set<Draft>, s: Source)
    requires InOrder(collate, sorted, from)
    ensures Refers(collate, from, s, FirstUri(sorted, s))
  {
    hide Precedes;
    var i := FirstUriAt(sorted, s);
    if i < |sorted| { assert sorted[i] in from; }
  }

  lemma {:induction false} EarliestIs(ds: seq<Draft>, now: int)
    requires ds != []
    ensures exists d :: d in ds && Earliest(ds, now) == d.createdAt.GetOr(now)
    ensures forall d :: d in ds ==> Earliest(ds, now) <= d.createdAt.GetOr(now)
  {
    assert ds == [ds[0]] + ds[1..];
    if |ds| > 1 { EarliestIs(ds[1..], now); }
  }

  lemma {:induction false} LatestIs(ds: seq<Draft>, now: int)
    requires ds != []
    ensures exists d :: d in ds && Latest(ds, now) == d.updatedAt.GetOr(d.createdAt.GetOr(now))
    ensures forall d :: d in ds ==> d.updatedAt.GetOr(d.createdAt.GetOr(now)) <= Latest(ds, now)
  {
    assert ds == [ds[0]] + ds[1..];
    if |ds| > 1 { LatestIs(ds[1..], now); }
  }

  lemma UniqueGathers(sorted: seq<Draft>, ds: seq<Draft>, g: Draft -> seq<string>, f: Draft -> seq<string>)
    requires forall d :: d in sorted <==> d in Contents(ds)
    requires forall d, x :: x != "" && d in sorted ==> (Lists(d, g, x) <==> Lists(d, f, x))
    ensures Gathers(Unique(sorted, g), ds, f)
  {
    hide Contents, Lower;
    var items := FlatMap(sorted, g);
    var values := AllSome(items);
    var out := Unique(sorted, g);
    FirstByKeySound(Cleaned(values), Lower, {});
    forall x | x in out ensures x != "" && exists d :: d in Contents(ds) && Lists(d, f, x) {
      CleanedAre(values, x);
      var i :| 0 <= i < |values| && values[i].Some? && Trim(values[i].value) == x;
      FlatMapMembers(sorted, g);
      assert items[i] in items;
      var d :| d in sorted && items[i] in g(d);
      assert Lists(d, g, x);
    }
    forall d, x | d in Contents(ds) && Lists(d, f, x) && x != "" ensures exists y :: y in out && Lower(y) == Lower(x) {
      assert Lists(d, g, x);
      var k :| 0 <= k < |g(d)| && Trim(g(d)[k]) == x;
      FlatMapMembers(sorted, g);
      assert g(d)[k] in items;
      var i :| 0 <= i < |items| && items[i] == g(d)[k];
      assert values[i].Some? && Trim(values[i].value) == x;
      CleanedAre(values, x);
      assert Lower(x) in Keys(Cleaned(values), Lower);
      assert Lower(x) in Keys(out, Lower);
    }
  }

  lemma UniqueOf(sorted: seq<Draft>, ds: seq<Draft>, g: Draft -> seq<string>, f: Draft -> seq<string>)
    requires (forall d :: d in sorted <==> d in Contents(ds)) && forall d: Draft :: g(d) == f(d)
    ensures Gathers(Unique(sorted, g), ds, f)
  {
    hide Contents, Lower, Unique;
    UniqueGathers(sorted, ds, g, f);
  }

  /** A blank hero image is as good as none. */
  lemma HeroesGathered(sorted: seq<Draft>, ds: seq<Draft>)
    requires forall d :: d in sorted <==> d in Contents(ds)
    ensures Gathers(Unique(sorted, Hero), ds, HeroOf)
  {
    hide Contents, Lower, Unique;
    assert Trim("") == "";
    forall d: Draft, x | x != "" ensures Lists(d, Hero, x) <==> Lists(d, HeroOf, x) {
      hide Trim;
      if HeroUrl in d.texts && d.texts[HeroUrl] != "" { assert Hero(d) == HeroOf(d); }
      else if HeroUrl in d.texts { assert HeroOf(d) == [""] && Hero(d) == []; }
    }
    UniqueGathers(sorted, ds, Hero, HeroOf);
  }

  lemma IndicatorsOfSome(ds: seq<Draft>, x: AccountIndicators.Indicator)
    ensures x in FlatMap(ds, IndicatorsOf) <==> exists d :: d in ds && HasIndicator(d, x)
  {
    FlatMapMembers(ds, IndicatorsOf);
    if d :| d in ds && HasIndicator(d, x) { assert x in IndicatorsOf(d); }
  }

  lemma IndicatorsGathered(sorted: seq<Draft>, ds: seq<Draft>)
    requires forall d :: d in sorted <==> d in Contents(ds)
    ensures Indicates(FirstByKey(FlatMap(sorted, IndicatorsOf), AccountIndicators.Key, {}), ds)
  {
    hide Contents, HasIndicator;
    var items := FlatMap(sorted, IndicatorsOf);
    var out := FirstByKey(items, AccountIndicators.Key, {});
    FirstByKeySound(items, AccountIndicators.Key, {});
    forall x | x in out ensures exists d :: d in Contents(ds) && HasIndicator(d, x) {
      IndicatorsOfSome(sorted, x);
    }
    forall d, x | d in Contents(ds) && HasIndicator(d, x)
      ensures exists y :: y in out && AccountIndicators.Key(y) == AccountIndicators.Key(x)
    {
      IndicatorsOfSome(sorted, x);
      assert AccountIndicators.Key(x) in Keys(items, AccountIndicators.Key);
      assert AccountIndicators.Key(x) in Keys(out, AccountIndicators.Key);
    }
  }

  lemma ListsShown(ds: seq<Draft>, w: Web, now: int)
    requires ds != [] && Consistent(w.collate)
    ensures ShowsLists(MergeDrafts(ds, w, now), ds)
  {
    hide Contents, Gathers, Indicates, Unique, Lower, MergedLinks, SourceDrafts, Content;
    ContentsInOrder(ds, w);
    IndicatorsGathered(ContentDrafts(ds, w), ds);
    var content := ContentDrafts(ds, w);
    UniqueOf(content, ds, ScreenshotsOf, (d: Draft) => d.screenshotUrls);
    UniqueOf(content, ds, PlatformsOf, (d: Draft) => d.platforms);
    UniqueOf(content, ds, CategoriesOf, (d: Draft) => d.categorySlugs);
    UniqueOf(content, ds, ProducesOf, (d: Draft) => d.produces);
    UniqueOf(content, ds, ConsumesOf, (d: Draft) => d.consumes);
    UniqueOf(content, ds, TagsOf, (d: Draft) => d.tags);
    HeroesGathered(content, ds);
  }

  lemma TextsShown(ds: seq<Draft>, w: Web, now: int)
    requires ds != [] && Consistent(w.collate)
    ensures ShowsTexts(MergeDrafts(ds, w, now), w.collate, ds)
  {
    hide Contents, Sources, Shows, InOrder, First, RefsOf, Unique, MergedLinks, SourceDrafts, Content, Earliest, Latest,
      DisplaySlug;
    ContentsInOrder(ds, w);
    SourcesInOrder(ds, w);
    var content, sorted := ContentDrafts(ds, w), Sort(SourceDrafts(ds), ByPrecedence(w.collate));
    forall f: Field ensures Shows(w.collate, Contents(ds), f, First(content, f)) {
      FirstShows(w.collate, content, Contents(ds), f);
    }
    FirstShows(w.collate, sorted, Sources(ds), ProfileDid);
    FirstShows(w.collate, sorted, Sources(ds), LegacyProfileDid);
  }

  lemma RefsShown(ds: seq<Draft>, w: Web, now: int)
    requires ds != [] && Consistent(w.collate)
    ensures ShowsRefs(MergeDrafts(ds, w, now).refs, w.collate, ds)
  {
    hide Contents, Sources, Refers, InOrder, First, FirstUri, Unique, MergedLinks, SourceDrafts, Content, Earliest,
      Latest, DisplaySlug;
    SourcesInOrder(ds, w);
    var sorted := Sort(SourceDrafts(ds), ByPrecedence(w.collate));
    forall s: Source ensures Refers(w.collate, Sources(ds), s, FirstUri(sorted, s)) {
      RefersFirst(w.collate, sorted, Sources(ds), s);
    }
  }

  lemma DatesShown(ds: seq<Draft>, w: Web, now: int)
    requires ds != [] && Consistent(w.collate)
    ensures ShowsDates(MergeDrafts(ds, w, now), ds, now)
  {
    hide Contents, Precedes, Unique, MergedLinks, SourceDrafts, First, FirstUri, Earliest, Latest;
    ContentsInOrder(ds, w);
    var sorted := Sort(SourceDrafts(ds), ByPrecedence(w.collate));
    SortedNonEmpty(ds, w.collate);
    EarliestIs(ContentDrafts(ds, w), now);
    LatestIs(ContentDrafts(ds, w), now);
  }

  lemma CanonicalShown(ds: seq<Draft>, w: Web, now: int)
    requires ds != [] && Consistent(w.collate)
    ensures ShowsCanonical(MergeDrafts(ds, w, now), w.collate, ds)
  {
    hide IsLocalDev, Unique, MergedLinks, SourceDrafts, First, FirstUri, Earliest, Latest, Content, NewerOrTies,
      BetterSource, ByPrecedence, Slugify;
    SourcesInOrder(ds, w);
    SortedNonEmpty(ds, w.collate);
    var d := Sort(SourceDrafts(ds), ByPrecedence(w.collate))[0];
    assert d in Sources(ds) && SlugFrom(d, SlugSource(d));
    forall e | e in ds ensures Precedes(w.collate, d, e) {
      if e in Sources(ds) {
        assert e in Sort(SourceDrafts(ds), ByPrecedence(w.collate));
      }
    }
  }

  /** What a listing shows, for every list of drafts: the canonical draft is one that no other precedes (so a local
      fixture only if there is nothing else, and never one with a better source or a newer draft of as good a source
      beside it), every text is the first one given by the content drafts, the lists gather theirs, and the dates are
      the first and the last. */
  lemma MergedListingShows(ds: seq<Draft>, w: Web, now: int)
    requires ds != [] && Consistent(w.collate)
    ensures ShowsCanonical(MergeDrafts(ds, w, now), w.collate, ds)
    ensures ShowsTexts(MergeDrafts(ds, w, now), w.collate, ds)
    ensures ShowsRefs(MergeDrafts(ds, w, now).refs, w.collate, ds)
    ensures ShowsLists(MergeDrafts(ds, w, now), ds)
    ensures ShowsDates(MergeDrafts(ds, w, now), ds, now)
  {
    hide MergeDrafts, ShowsCanonical, ShowsTexts, ShowsRefs, ShowsLists, ShowsDates;
    CanonicalShown(ds, w, now);
    TextsShown(ds, w, now);
    RefsShown(ds, w, now);
    ListsShown(ds, w, now);
    DatesShown(ds, w, now);
  }

  // ---------------------------------------------------------------- links

  /** The app stores and Tangled, with its subdomains. */
  ghost predicate OnAllowList(host: string) {
    || host in {"apps.apple.com", "itunes.apple.com", "play.google.com", "tangled.org", "tangled.sh"}
    || (exists sub :: host == sub + ".tangled.org") || (exists sub :: host == sub + ".tangled.sh")
  }

  /** `h` is the host name in lower case, without `www.` in front. */
  ghost predicate BareHost(host: string, h: string) {
    if exists rest :: host == "www." + rest then exists rest :: host == "www." + rest && h == Lower(rest)
    else h == Lower(host)
  }

  lemma Www(host: string)
    ensures BareHost(host, Lower(DropWww(host)))
    ensures forall h :: BareHost(host, h) ==> h == Lower(DropWww(host))
  {
    hide Lower;
    if "www." <= host { assert host == "www." + host[4..]; }
    forall rest | host == "www." + rest ensures DropWww(host) == rest { assert host[4..] == rest; }
  }

  lemma Ending(s: string, tail: string)
    ensures EndsWith(s, tail) <==> exists sub :: s == sub + tail
  {
    if EndsWith(s, tail) { assert s == s[..|s| - |tail|] + tail; }
    if sub :| s == sub + tail { assert s[|sub|..] == tail; }
  }

  /** A link is supplemental if and only if its canonical destination is on the allow-list. */
  lemma SupplementalExactly(w: Web, l: Link)
    ensures Supplemental(w, l) <==>
            && l.uri != "" && w.canon(l.uri).Some? && w.canon(l.uri).value != ""
            && exists h :: BareHost(w.host(w.canon(l.uri).value), h) && OnAllowList(h)
  {
    hide BareHost, DropWww, EndsWith, Lower;
    if l.uri != "" && w.canon(l.uri).Some? {
      var host := w.host(w.canon(l.uri).value);
      Www(host);
      Ending(Lower(DropWww(host)), ".tangled.org");
      Ending(Lower(DropWww(host)), ".tangled.sh");
    }
  }

  /** Where a link leads: the canonical form of its URL, or the text itself. */
  function Destination(w: Web, l: Link): string {
    if l.uri != "" && w.canon(l.uri).Some? then w.canon(l.uri).value else l.uri
  }

  lemma KeyIsDestination(w: Web, l: Link)
    ensures LinkKey(w)(l) == Destination(w, l)
  {
  }

  /** Every destination that a content draft links to, and every one on the allow-list that any draft links to, is among
      the merged links, unless these are 16 already. */
  lemma LinksAreComplete(ds: seq<Draft>, w: Web, now: int, d: Draft, l: Link)
    requires ds != [] && Consistent(w.collate) && d in ds && l in d.links && (d in Contents(ds) || Supplemental(w, l))
    ensures var links := MergeDrafts(ds, w, now).links;
            |links| == 16 || exists x :: x in links && Destination(w, x) == Destination(w, l)
  {
    hide Contents, Supplemental, LinkKey, Destination;
    var content, all := ContentDrafts(ds, w), Sort(ds, ByPrecedence(w.collate));
    ContentsInOrder(ds, w);
    AllDraftsStay(ds, w);
    assert MergeDrafts(ds, w, now).links == MergedLinks(w, content, all);
    LinkIsGathered(w, content, all, d, l);
    var items := FlatMap(content, LinksOf) + SupplementalLinks(w, content, all);
    var kept := FirstByKey(items, LinkKey(w), {});
    FirstByKeySound(items, LinkKey(w), {});
    assert LinkKey(w)(l) in Keys(items, LinkKey(w));
    assert LinkKey(w)(l) in Keys(kept, LinkKey(w));
    var x :| x in kept && LinkKey(w)(x) == LinkKey(w)(l);
    KeyIsDestination(w, x);
    KeyIsDestination(w, l);
  }

  lemma AllDraftsStay(ds: seq<Draft>, w: Web)
    requires Consistent(w.collate)
    ensures forall d :: d in Sort(ds, ByPrecedence(w.collate)) <==> d in ds
  {
    hide ByPrecedence;
    PrecedenceIsConsistent(w.collate);
    SortShape(ds, ByPrecedence(w.collate));
    SameItems(Sort(ds, ByPrecedence(w.collate)), ds);
  }

  lemma LinkIsGathered(w: Web, content: seq<Draft>, all: seq<Draft>, d: Draft, l: Link)
    requires d in all && l in d.links && (d in content || Supplemental(w, l))
    ensures l in FlatMap(content, LinksOf) + SupplementalLinks(w, content, all)
  {
    hide Supplemental;
    if d in content {
      FlatMapMembers(content, LinksOf);
      assert l in LinksOf(d);
    } else {
      var others := Filter(all, d => d !in content);
      FilterMembers(all, d => d !in content);
      FlatMapMembers(others, LinksOf);
      assert l in LinksOf(d);
      FilterMembers(FlatMap(others, LinksOf), l => Supplemental(w, l));
    }
  }
}
