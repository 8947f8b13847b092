/** Drafts of app records: their precedence, their aliases, and how the drafts of one listing are merged
    (lib/app-directory.ts). */
module AppDrafts {
  import opened Wrappers
  import opened Text
  import opened Slugs
  import opened Dedupe
  import opened StableSort
  import AccountIndicators

  datatype Source = AtstoreListing | CommunityProfile | CommunityEntry | AtmosphereProfile | OtherSource(name: string)

  /** The optional text fields; an absent field is null, and an empty one counts as missing when merging. */
  datatype Field =
    | Name | Description | Tagline | Status | SlugField | PrimaryUrl | IconUrl | HeroUrl | ProductDid | ProfileDid
    | LegacyProfileDid | AtstoreListingUri | MigratedFromAtUri | CommunityProfileUri | CommunityEntryUri

  datatype Link = Link(uri: string, title: Option<string>, role: Option<string>)

  datatype Draft = Draft(
    source: Source, sourceUri: string, repoDid: string, texts: map<Field, string>,
    screenshotUrls: seq<string>, links: seq<Link>, tags: seq<string>, platforms: seq<string>,
    categorySlugs: seq<string>,
    produces: seq<string>, consumes: seq<string>, indicators: seq<AccountIndicators.Indicator>,
    createdAt: Option<int>, updatedAt: Option<int>)

  /** The library functions the code relies on: the canonical form of an http(s) URL, the host name of one, and
      `localeCompare`. */
  datatype Web = Web(canon: string -> Option<string>, host: string -> string, collate: (string, string) -> int)

  function TextOf(d: Draft, f: Field): Option<string> {
    if f in d.texts then Some(d.texts[f]) else None
  }

  function OrElse(a: Option<string>, b: Option<string>): Option<string> { if a.Some? then a else b }

  function NonEmpty(a: Option<string>): Option<string> { if a == Some("") then None else a }

  // ---------------------------------------------------------------- precedence

  function Rank(s: Source): int {
    match s
    case AtstoreListing => 0
    case CommunityProfile => 1
    case CommunityEntry => 2
    case AtmosphereProfile => 3
    case OtherSource(_) => 99
  }

  const LOCAL_DEV := "did:plc:localdev"

  predicate Includes(s: string, part: string) {
    exists i :: 0 <= i <= |s| && part <= s[i..]
  }

  predicate StartsLocal(s: Option<string>) { s.Some? && LOCAL_DEV <= s.value }

  predicate IsLocalDev(d: Draft) {
    LOCAL_DEV <= d.repoDid || Includes(d.sourceUri, LOCAL_DEV) || StartsLocal(TextOf(d, ProductDid))
    || StartsLocal(TextOf(d, ProfileDid))
  }

  predicate NotLocalDev(d: Draft) { !IsLocalDev(d) }

  function TimeOf(d: Draft): int { d.updatedAt.GetOr(d.createdAt.GetOr(0)) }

  /** Negative when `a` comes first: local fixtures last, then by source, then the newest, then by URI. */
  function Compare(collate: (string, string) -> int, a: Draft, b: Draft): int {
    if IsLocalDev(a) != IsLocalDev(b) then if IsLocalDev(a) then 1 else -1
    else if Rank(a.source) != Rank(b.source) then Rank(a.source) - Rank(b.source)
    else if TimeOf(a) != TimeOf(b) then TimeOf(b) - TimeOf(a)
    else collate(a.sourceUri, b.sourceUri)
  }

  function ByPrecedence(collate: (string, string) -> int): (Draft, Draft) -> int {
    (a, b) => Compare(collate, a, b)
  }

  lemma PrecedenceIsConsistent(collate: (string, string) -> int)
    requires Consistent(collate)
    ensures Consistent(ByPrecedence(collate))
  {
    forall a, b ensures Flips(ByPrecedence(collate), a, b) {
      assert Flips(collate, a.sourceUri, b.sourceUri) && Flips(collate, b.sourceUri, a.sourceUri);
    }
    forall a, b, c ensures Chains(ByPrecedence(collate), a, b, c) {
      assert Chains(collate, a.sourceUri, b.sourceUri, c.sourceUri);
    }
  }

  /** The program's URIs are primary keys, so no two drafts of a listing share one. */
  ghost predicate DistinctUris(ds: seq<Draft>) {
    forall a, b :: a in ds && b in ds && a.sourceUri == b.sourceUri ==> a == b
  }

  /** `localeCompare` tells these URIs apart. */
  ghost predicate Separates(collate: (string, string) -> int, ds: seq<Draft>) {
    forall a, b :: a in ds && b in ds && collate(a.sourceUri, b.sourceUri) == 0 ==> a.sourceUri == b.sourceUri
  }

  lemma DistinctUrisDoNotTie(collate: (string, string) -> int, ds: seq<Draft>)
    requires DistinctUris(ds) && Separates(collate, ds)
    ensures NoTies(ds, ByPrecedence(collate))
  {
  }

  // ---------------------------------------------------------------- aliases

  predicate DidChar(c: char) {
    'a' <= c <= 'z' || 'A' <= c <= 'Z' || '0' <= c <= '9' || c in {'.', '_', ':', '%', '-'}
  }

  /** `did:`, a lower-case method name, `:` and an identifier. */
  predicate IsDid(s: string) {
    && "did:" <= s
    && exists i :: 5 <= i < |s| - 1 && s[i] == ':' && (forall k :: 4 <= k < i ==> 'a' <= s[k] <= 'z')
                   && (forall k :: i < k < |s| ==> DidChar(s[k]))
  }

  function DidAlias(v: Option<string>): Option<string> {
    if v.Some? && IsDid(Trim(v.value)) then Some(Trim(v.value)) else None
  }

  function Canonical(w: Web, v: Option<string>): Option<string> {
    if NonEmpty(v).None? then None else w.canon(v.value)
  }

  function Prefixed(prefix: string, v: Option<string>): Option<string> {
    if NonEmpty(v).None? then None else Some(prefix + v.value)
  }

  function IfNot(b: bool, v: Option<string>): Option<string> { if b then None else v }

  function AliasValues(d: Draft, w: Web): seq<Option<string>> {
    var entity := d.source.AtstoreListing?;
    [Some("uri:" + d.sourceUri),
     IfNot(entity, DidAlias(TextOf(d, ProductDid))),
     IfNot(entity, DidAlias(TextOf(d, ProfileDid))),
     IfNot(entity, DidAlias(TextOf(d, LegacyProfileDid))),
     IfNot(entity, Prefixed("legacy:", TextOf(d, LegacyProfileDid))),
     Prefixed("url:", Canonical(w, TextOf(d, PrimaryUrl))),
     Prefixed("atstore:", TextOf(d, AtstoreListingUri)),
     Prefixed("uri:", TextOf(d, MigratedFromAtUri)),
     Prefixed("community:", TextOf(d, CommunityProfileUri)),
     Prefixed("community:", TextOf(d, CommunityEntryUri))]
  }

  function AliasesForDraft(d: Draft, w: Web): seq<string> { UniqueStrings(AliasValues(d, w)) }

  // ---------------------------------------------------------------- merging

  function FlatMap<T>(ds: seq<Draft>, f: Draft -> seq<T>): seq<T> {
    if ds == [] then [] else f(ds[0]) + FlatMap(ds[1..], f)
  }

  function AllSome(xs: seq<string>): seq<Option<string>> {
    seq(|xs|, i requires 0 <= i < |xs| => Some(xs[i]))
  }

  function Unique(ds: seq<Draft>, f: Draft -> seq<string>): seq<string> { UniqueStrings(AllSome(FlatMap(ds, f))) }

  function First(ds: seq<Draft>, f: Field): Option<string> {
    if ds == [] then None
    else if NonEmpty(TextOf(ds[0], f)).Some? then TextOf(ds[0], f)
    else First(ds[1..], f)
  }

  function FirstUri(ds: seq<Draft>, s: Source): Option<string> {
    if ds == [] then None else if ds[0].source == s then Some(ds[0].sourceUri) else FirstUri(ds[1..], s)
  }

  function Earliest(ds: seq<Draft>, now: int): int
    requires ds != []
  {
    var t := ds[0].createdAt.GetOr(now);
    if |ds| == 1 then t else if t < Earliest(ds[1..], now) then t else Earliest(ds[1..], now)
  }

  function Latest(ds: seq<Draft>, now: int): int
    requires ds != []
  {
    var t := ds[0].updatedAt.GetOr(ds[0].createdAt.GetOr(now));
    if |ds| == 1 then t else if t > Latest(ds[1..], now) then t else Latest(ds[1..], now)
  }

  function Hero(d: Draft): seq<string> {
    if NonEmpty(TextOf(d, HeroUrl)).Some? then [d.texts[HeroUrl]] else []
  }

  predicate IsAtstore(d: Draft) { d.source.AtstoreListing? }

  /** The drafts whose text and lists are used: the ATStore listings when there are any. */
  function Content(sorted: seq<Draft>): seq<Draft> {
    if Filter(sorted, IsAtstore) != [] then Filter(sorted, IsAtstore) else sorted
  }

  // ---------------------------------------------------------------- links

  const MAX_LINKS: nat := 16
  const MAX_TAGS: nat := 16

  function Take<T>(xs: seq<T>, n: nat): seq<T> { if |xs| <= n then xs else xs[..n] }

  function LinkKey(w: Web): Link -> string {
    (l: Link) => Canonical(w, Some(l.uri)).GetOr(l.uri)
  }

  predicate EndsWith(s: string, tail: string) { |tail| <= |s| && s[|s| - |tail|..] == tail }

  function DropWww(h: string): string { if "www." <= h then h[4..] else h }

  /** The destination itself proves what the link is: an app store or Tangled. */
  predicate Supplemental(w: Web, l: Link) {
    && Canonical(w, Some(l.uri)).Some? && Canonical(w, Some(l.uri)) != Some("")
    && var host := Lower(DropWww(w.host(Canonical(w, Some(l.uri)).value)));
    || host == "apps.apple.com" || host == "itunes.apple.com" || host == "play.google.com"
    || host == "tangled.org" || EndsWith(host, ".tangled.org") || host == "tangled.sh" || EndsWith(host, ".tangled.sh")
  }

  function LinksOf(d: Draft): seq<Link> { d.links }

  function SupplementalLinks(w: Web, content: seq<Draft>, all: seq<Draft>): seq<Link> {
    Filter(FlatMap(Filter(all, d => d !in content), LinksOf), l => Supplemental(w, l))
  }

  function MergedLinks(w: Web, content: seq<Draft>, all: seq<Draft>): seq<Link> {
    Take(FirstByKey(FlatMap(content, LinksOf) + SupplementalLinks(w, content, all), LinkKey(w), {}), MAX_LINKS)
  }

  // ---------------------------------------------------------------- the merged listing

  datatype Refs = Refs(atmosphere: Option<string>, atstore: Option<string>, communityProfile: Option<string>,
                       communityEntry: Option<string>)

  datatype Listing = Listing(
    slug: string, name: string, description: string, tagline: string, status: Option<string>,
    primaryUrl: Option<string>,
    iconUrl: Option<string>, heroUrl: Option<string>, heroFallbackUrl: Option<string>, screenshotUrls: seq<string>,
    links: seq<Link>, tags: seq<string>, platforms: seq<string>, categorySlugs: seq<string>,
    produces: seq<string>, consumes: seq<string>, indicators: seq<AccountIndicators.Indicator>, refs: Refs,
    canonicalSource: Source, canonicalUri: string, productDid: Option<string>, profileDid: Option<string>,
    legacyProfileDid: Option<string>, atstoreListingUri: Option<string>, communityProfileUri: Option<string>,
    communityEntryUri: Option<string>, publishedAt: int, updatedAt: int)

  function ScreenshotsOf(d: Draft): seq<string> { d.screenshotUrls }
  function TagsOf(d: Draft): seq<string> { d.tags }
  function PlatformsOf(d: Draft): seq<string> { d.platforms }
  function CategoriesOf(d: Draft): seq<string> { d.categorySlugs }
  function ProducesOf(d: Draft): seq<string> { d.produces }
  function ConsumesOf(d: Draft): seq<string> { d.consumes }
  function IndicatorsOf(d: Draft): seq<AccountIndicators.Indicator> { d.indicators }

  /** What the slug of a draft is made from. */
  function SlugSource(d: Draft): string {
    var name := OrElse(TextOf(d, Name), OrElse(TextOf(d, ProductDid), TextOf(d, ProfileDid)));
    OrElse(TextOf(d, SlugField), name).GetOr(d.sourceUri)
  }

  function DisplaySlug(d: Draft): string { Slugify(SlugSource(d)) }

  function RefsOf(sorted: seq<Draft>): Refs {
    Refs(FirstUri(sorted, AtmosphereProfile), FirstUri(sorted, AtstoreListing), FirstUri(sorted, CommunityProfile),
         FirstUri(sorted, CommunityEntry))
  }

  function NthOrNone(xs: seq<string>, n: nat): Option<string> { if n < |xs| then Some(xs[n]) else None }

  /** The listing made of the drafts in order of precedence; `all` also has the local ones that were set aside. */
  function ListingOf(sorted: seq<Draft>, all: seq<Draft>, w: Web, now: int): Listing
    requires sorted != []
  {
    var content := Content(sorted);
    var heroes := Unique(content, Hero);
    Listing(
      DisplaySlug(sorted[0]),
      First(content, Name).GetOr("Untitled app"),
      OrElse(First(content, Description), First(content, Tagline)).GetOr(""),
      OrElse(First(content, Tagline), First(content, Description)).GetOr(""),
      First(content, Status), First(content, PrimaryUrl), First(content, IconUrl),
      NthOrNone(heroes, 0), NthOrNone(heroes, 1),
      Unique(content, ScreenshotsOf),
      MergedLinks(w, content, all),
      Take(Unique(content, TagsOf), MAX_TAGS),
      Unique(content, PlatformsOf), Unique(content, CategoriesOf),
      Unique(content, ProducesOf), Unique(content, ConsumesOf),
      FirstByKey(FlatMap(content, IndicatorsOf), AccountIndicators.Key, {}),
      RefsOf(sorted),
      sorted[0].source, sorted[0].sourceUri,
      First(content, ProductDid), First(sorted, ProfileDid), First(sorted, LegacyProfileDid),
      First(content, AtstoreListingUri), First(content, CommunityProfileUri), First(content, CommunityEntryUri),
      Earliest(content, now), Latest(content, now))
  }

  /** Local fixtures count only when there is nothing else. */
  function SourceDrafts(ds: seq<Draft>): seq<Draft> {
    if Filter(ds, NotLocalDev) != [] then Filter(ds, NotLocalDev) else ds
  }

  lemma SortedNonEmpty(ds: seq<Draft>, collate: (string, string) -> int)
    requires ds != []
    ensures Sort(SourceDrafts(ds), ByPrecedence(collate)) != []
  {
  }

  /** `mergeAppListingDrafts`. */
  function MergeDrafts(ds: seq<Draft>, w: Web, now: int): Listing
    requires ds != []
  {
    SortedNonEmpty(ds, w.collate);
    ListingOf(Sort(SourceDrafts(ds), ByPrecedence(w.collate)), Sort(ds, ByPrecedence(w.collate)), w, now)
  }

  // ---------------------------------------------------------------- as the program computes it

  method SourceRefs(sorted: seq<Draft>) returns (refs: Refs)
    ensures refs == RefsOf(sorted)
  {
    refs := Refs(None, None, None, None);
    for i := 0 to |sorted|
      invariant RefsOf(sorted) == Refs(OrElse(refs.atmosphere, RefsOf(sorted[i..]).atmosphere),
                                       OrElse(refs.atstore, RefsOf(sorted[i..]).atstore),
                                       OrElse(refs.communityProfile, RefsOf(sorted[i..]).communityProfile),
                                       OrElse(refs.communityEntry, RefsOf(sorted[i..]).communityEntry))
    {
      var d := sorted[i];
      assert sorted[i..][1..] == sorted[i + 1..];
      match d.source
      case AtmosphereProfile => if refs.atmosphere.None? { refs := refs.(atmosphere := Some(d.sourceUri)); }
      case AtstoreListing => if refs.atstore.None? { refs := refs.(atstore := Some(d.sourceUri)); }
      case CommunityProfile => if refs.communityProfile.None? { refs := refs.(communityProfile := Some(d.sourceUri)); }
      case CommunityEntry => if refs.communityEntry.None? { refs := refs.(communityEntry := Some(d.sourceUri)); }
      case OtherSource(_) =>
    }
  }

  method MergeListingLinks(w: Web, content: seq<Draft>, all: seq<Draft>) returns (links: seq<Link>)
    ensures links == MergedLinks(w, content, all)
  {
    var kept := DedupeBy(FlatMap(content, LinksOf) + SupplementalLinks(w, content, all), LinkKey(w));
    links := Take(kept, MAX_LINKS);
  }

  method MergeAppListingDrafts(ds: seq<Draft>, w: Web, now: int) returns (m: Listing)
    requires ds != []
    ensures m == MergeDrafts(ds, w, now)
  {
    SortedNonEmpty(ds, w.collate);
    var sorted := Sort(SourceDrafts(ds), ByPrecedence(w.collate));
    var all := Sort(ds, ByPrecedence(w.collate));
    var content := Content(sorted);
    var refs := SourceRefs(sorted);
    var heroes := CollectUnique(AllSome(FlatMap(content, Hero)));
    var screenshots := CollectUnique(AllSome(FlatMap(content, ScreenshotsOf)));
    var links := MergeListingLinks(w, content, all);
    var tags := CollectUnique(AllSome(FlatMap(content, TagsOf)));
    var platforms := CollectUnique(AllSome(FlatMap(content, PlatformsOf)));
    var categories := CollectUnique(AllSome(FlatMap(content, CategoriesOf)));
    var produces := CollectUnique(AllSome(FlatMap(content, ProducesOf)));
    var consumes := CollectUnique(AllSome(FlatMap(content, ConsumesOf)));
    var indicators := DedupeBy(FlatMap(content, IndicatorsOf), AccountIndicators.Key);
    m := Listing(
      DisplaySlug(sorted[0]),
      First(content, Name).GetOr("Untitled app"),
      OrElse(First(content, Description), First(content, Tagline)).GetOr(""),
      OrElse(First(content, Tagline), First(content, Description)).GetOr(""),
      First(content, Status), First(content, PrimaryUrl), First(content, IconUrl),
      NthOrNone(heroes, 0), NthOrNone(heroes, 1), screenshots, links, Take(tags, MAX_TAGS), platforms, categories,
      produces, consumes,
      indicators, refs, sorted[0].source, sorted[0].sourceUri,
      First(content, ProductDid), First(sorted, ProfileDid), First(sorted, LegacyProfileDid),
      First(content, AtstoreListingUri), First(content, CommunityProfileUri), First(content, CommunityEntryUri),
      Earliest(content, now), Latest(content, now));
  }
}
