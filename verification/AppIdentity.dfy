/** From drafts to listings: the aliases of a draft are what the partition is made of. */
module AppIdentity {
  import opened Wrappers
  import opened Text
  import opened Slugs
  import opened Dedupe
  import opened AppDrafts
  import opened AppDirectory
  import opened AppPartition
  import AppSlugRuns

  /** The kind of name that stands in each place of the alias list. */
  function KindAt(i: nat): string
    requires i < 10
  {
    match i
    case 1 => "did:"
    case 2 => "did:"
    case 3 => "did:"
    case 4 => "legacy:"
    case 5 => "url:"
    case 6 => "atstore:"
    case 8 => "community:"
    case 9 => "community:"
    case _ => "uri:"
  }

  predicate FromAccount(i: nat) { 1 <= i <= 4 }

  lemma PrefixedAlias(i: nat, s: string)
    requires i < 10
    ensures KindAt(i) <= Trim(KindAt(i) + s)
  {
    TrimKeepsPrefix(KindAt(i), s);
  }

  lemma DidAliasAlias(v: Option<string>)
    requires DidAlias(v).Some?
    ensures "did:" <= Trim(DidAlias(v).value)
  {
    TrimShape(v.value);
    TrimShape(Trim(v.value));
  }

  lemma ValueKind(d: Draft, w: Web, i: nat)
    requires i < 10 && AliasValues(d, w)[i].Some?
    ensures KindAt(i) <= Trim(AliasValues(d, w)[i].value)
    ensures d.source.AtstoreListing? ==> !FromAccount(i)
  {
    match i
    case 0 => PrefixedAlias(0, d.sourceUri);
    case 1 => DidAliasAlias(TextOf(d, ProductDid));
    case 2 => DidAliasAlias(TextOf(d, ProfileDid));
    case 3 => DidAliasAlias(TextOf(d, LegacyProfileDid));
    case 4 => PrefixedAlias(4, TextOf(d, LegacyProfileDid).value);
    case 5 => PrefixedAlias(5, Canonical(w, TextOf(d, PrimaryUrl)).value);
    case 6 => PrefixedAlias(6, TextOf(d, AtstoreListingUri).value);
    case 7 => PrefixedAlias(7, TextOf(d, MigratedFromAtUri).value);
    case 8 => PrefixedAlias(8, TextOf(d, CommunityProfileUri).value);
    case _ => PrefixedAlias(9, TextOf(d, CommunityEntryUri).value);
  }

  lemma PlaceOf(d: Draft, w: Web, k: string) returns (i: nat)
    requires k in Cleaned(AliasValues(d, w))
    ensures i < 10 && AliasValues(d, w)[i].Some? && Trim(AliasValues(d, w)[i].value) == k && KindAt(i) <= k
    ensures d.source.AtstoreListing? ==> !FromAccount(i)
  {
    CleanedAre(AliasValues(d, w), k);
    i :| 0 <= i < |AliasValues(d, w)| && AliasValues(d, w)[i].Some? && Trim(AliasValues(d, w)[i].value) == k;
    ValueKind(d, w, i);
  }

  lemma KindsApart(k: string, i: nat)
    requires i < 10 && KindAt(i) <= k
    ensures !IsSlugKey(k)
    ensures !FromAccount(i) ==> !("did:" <= k) && !("legacy:" <= k)
  {
    assert k[0] == KindAt(i)[0];
  }

  /** No alias of a draft can be mistaken for a reserved slug, and an ATStore listing has no alias from the accounts
      that control it. */
  lemma AliasKinds(d: Draft, w: Web, k: string)
    requires k in AliasesForDraft(d, w)
    ensures !IsSlugKey(k)
    ensures d.source.AtstoreListing? ==> !("did:" <= k) && !("legacy:" <= k)
  {
    FirstByKeySound(Cleaned(AliasValues(d, w)), Lower, {});
    var i := PlaceOf(d, w, k);
    KindsApart(k, i);
  }

  /** The first alias of a draft is its own URI. */
  lemma OwnUriFirst(d: Draft, w: Web)
    ensures AliasesForDraft(d, w) != [] && AliasesForDraft(d, w)[0] == UriKey(d.sourceUri)
  {
    PrefixedAlias(0, d.sourceUri);
  }

  lemma UrlsApart(x: string, y: string, i: nat)
    requires i < 10 && i != 5 && KindAt(i) <= x && KindAt(5) <= y
    ensures Lower(x) != Lower(y)
  {
    assert Lower(y)[0] == 'u' && Lower(y)[2] == 'l';
    assert x[0] == KindAt(i)[0] && x[2] == KindAt(i)[2];
    assert Lower(x)[0] == x[0] && Lower(x)[2] == x[2];
  }

  /** The canonical primary URL is always among the aliases. */
  lemma UrlAliasKept(d: Draft, w: Web, url: string)
    requires Canonical(w, TextOf(d, PrimaryUrl)) == Some(url) && url != ""
    ensures Trim("url:" + url) in AliasesForDraft(d, w)
  {
    var values := AliasValues(d, w);
    var item := Trim("url:" + url);
    PrefixedAlias(5, url);
    assert values[5] == Some("url:" + url);
    CleanedAre(values, item);
    forall x | x in Cleaned(values) && Lower(x) == Lower(item) ensures x == item {
      var i := PlaceOf(d, w, x);
      if i != 5 { UrlsApart(x, item, i); }
    }
    SoleOfItsKey(Cleaned(values), Lower, item);
  }

  // ---------------------------------------------------------------- which aliases a draft has

  /** `did:`, a method name in lower case, `:` and an identifier. */
  ghost predicate DidText(s: string) {
    exists m: string, id: string ::
      && s == "did:" + m + ":" + id && m != "" && id != ""
      && (forall c :: c in m ==> 'a' <= c <= 'z')
      && (forall c :: c in id ==> 'a' <= c <= 'z' || 'A' <= c <= 'Z' || '0' <= c <= '9' || c in "._:%-")
  }

  lemma DidParts(s: string, m: string, id: string)
    requires s == "did:" + m + ":" + id && m != "" && id != ""
    requires (forall c :: c in m ==> 'a' <= c <= 'z') && forall c :: c in id ==> DidChar(c)
    ensures IsDid(s)
  {
    var i := 4 + |m|;
    assert s[i] == ':';
    forall k | 4 <= k < i ensures 'a' <= s[k] <= 'z' { assert s[k] == m[k - 4] && m[k - 4] in m; }
    forall k | i < k < |s| ensures DidChar(s[k]) { assert s[k] == id[k - i - 1] && id[k - i - 1] in id; }
  }

  lemma DidSplits(s: string, i: nat)
    requires 5 <= i < |s| - 1 && "did:" <= s && s[i] == ':'
    requires (forall k :: 4 <= k < i ==> 'a' <= s[k] <= 'z') && forall k :: i < k < |s| ==> DidChar(s[k])
    ensures DidText(s)
  {
    var m, id := s[4..i], s[i + 1..];
    assert s == "did:" + m + ":" + id;
    assert forall c :: c in id ==> DidChar(c);
  }

  lemma DidsExactly(s: string)
    ensures IsDid(s) <==> DidText(s)
  {
    if IsDid(s) {
      var i :| 5 <= i < |s| - 1 && s[i] == ':' && (forall k :: 4 <= k < i ==> 'a' <= s[k] <= 'z')
               && (forall k :: i < k < |s| ==> DidChar(s[k]));
      DidSplits(s, i);
    }
    if DidText(s) { TextIsDid(s); }
  }

  lemma TextIsDid(s: string)
    requires DidText(s)
    ensures IsDid(s)
  {
    hide IsDid;
    var m: string, id: string :| s == "did:" + m + ":" + id && m != "" && id != ""
      && (forall c :: c in m ==> 'a' <= c <= 'z')
      && (forall c :: c in id ==> 'a' <= c <= 'z' || 'A' <= c <= 'Z' || '0' <= c <= '9' || c in "._:%-");
    DidParts(s, m, id);
  }

  predicate NamesDid(d: Draft, f: Field, k: string) {
    !d.source.AtstoreListing? && f in d.texts && k == Trim(d.texts[f]) && IsDid(k)
  }

  predicate NamesText(d: Draft, f: Field, prefix: string, k: string) {
    f in d.texts && d.texts[f] != "" && k == Trim(prefix + d.texts[f])
  }

  /** What one of the fields gives as a name: a draft that is no ATStore listing gives its DIDs, and every draft its
      own URI, its canonical web address and the records it is about. */
  predicate GivesName(d: Draft, w: Web, k: string) {
    || k == Trim("uri:" + d.sourceUri)
    || NamesDid(d, ProductDid, k) || NamesDid(d, ProfileDid, k) || NamesDid(d, LegacyProfileDid, k)
    || (!d.source.AtstoreListing? && NamesText(d, LegacyProfileDid, "legacy:", k))
    || (PrimaryUrl in d.texts && d.texts[PrimaryUrl] != "" && w.canon(d.texts[PrimaryUrl]).Some?
        && w.canon(d.texts[PrimaryUrl]) != Some("") && k == Trim("url:" + w.canon(d.texts[PrimaryUrl]).value))
    || NamesText(d, AtstoreListingUri, "atstore:", k) || NamesText(d, MigratedFromAtUri, "uri:", k)
    || NamesText(d, CommunityProfileUri, "community:", k) || NamesText(d, CommunityEntryUri, "community:", k)
  }

  lemma DidIsTrimmed(v: Option<string>, k: string)
    ensures (DidAlias(v).Some? && Trim(DidAlias(v).value) == k) <==> v.Some? && Trim(v.value) == k && IsDid(k)
    ensures IsDid(k) ==> k != ""
  {
    hide Trim, IsSpace;
    if v.Some? { TrimShape(v.value); TrimShape(Trim(v.value)); }
  }

  lemma NamesAreNotBlank(d: Draft, w: Web, k: string)
    requires GivesName(d, w, k)
    ensures k != ""
  {
    hide Trim;
    forall i: nat, t: string | i < 10 ensures KindAt(i) <= Trim(KindAt(i) + t) { PrefixedAlias(i, t); }
    assert KindAt(0) == "uri:" && KindAt(4) == "legacy:" && KindAt(5) == "url:" && KindAt(6) == "atstore:"
           && KindAt(8) == "community:";
  }

  lemma ValueAt(d: Draft, w: Web, k: string)
    requires GivesName(d, w, k)
    ensures exists i :: 0 <= i < 10 && AliasValues(d, w)[i].Some? && Trim(AliasValues(d, w)[i].value) == k
  {
    hide Trim, DidAlias, IsDid;
    var values := AliasValues(d, w);
    DidIsTrimmed(TextOf(d, ProductDid), k);
    DidIsTrimmed(TextOf(d, ProfileDid), k);
    DidIsTrimmed(TextOf(d, LegacyProfileDid), k);
    if k == Trim("uri:" + d.sourceUri) { assert values[0] == Some("uri:" + d.sourceUri); }
    else if NamesDid(d, ProductDid, k) { assert values[1] == DidAlias(TextOf(d, ProductDid)); }
    else if NamesDid(d, ProfileDid, k) { assert values[2] == DidAlias(TextOf(d, ProfileDid)); }
    else if NamesDid(d, LegacyProfileDid, k) { assert values[3] == DidAlias(TextOf(d, LegacyProfileDid)); }
    else if NamesText(d, AtstoreListingUri, "atstore:", k) { assert values[6].Some?; }
    else if NamesText(d, MigratedFromAtUri, "uri:", k) { assert values[7].Some?; }
    else if NamesText(d, CommunityProfileUri, "community:", k) { assert values[8].Some?; }
    else if NamesText(d, CommunityEntryUri, "community:", k) { assert values[9].Some?; }
    else if NamesText(d, LegacyProfileDid, "legacy:", k) && !d.source.AtstoreListing? { assert values[4].Some?; }
    else { assert values[5] == Some("url:" + w.canon(d.texts[PrimaryUrl]).value); }
  }

  lemma NameOfValue(d: Draft, w: Web, k: string, i: nat)
    requires i < 10 && AliasValues(d, w)[i].Some? && Trim(AliasValues(d, w)[i].value) == k
    ensures GivesName(d, w, k)
  {
    hide Trim, DidAlias, IsDid;
    match i
    case 0 =>
    case 1 => DidIsTrimmed(TextOf(d, ProductDid), k);
    case 2 => DidIsTrimmed(TextOf(d, ProfileDid), k);
    case 3 => DidIsTrimmed(TextOf(d, LegacyProfileDid), k);
    case 4 =>
    case 5 =>
    case 6 =>
    case 7 =>
    case 8 =>
    case _ =>
  }

  lemma NamesAreValues(d: Draft, w: Web, k: string)
    ensures GivesName(d, w, k) <==> k in Cleaned(AliasValues(d, w))
  {
    hide GivesName, Trim;
    CleanedAre(AliasValues(d, w), k);
    if GivesName(d, w, k) {
      NamesAreNotBlank(d, w, k);
      ValueAt(d, w, k);
    }
    if k in Cleaned(AliasValues(d, w)) {
      var i := PlaceOf(d, w, k);
      NameOfValue(d, w, k, i);
    }
  }

  /** The aliases of a draft are exactly the names that its fields give, one for each that differs in more than
      case. */
  lemma AliasesExactly(d: Draft, w: Web)
    ensures var aliases := AliasesForDraft(d, w);
            && (forall k :: k in aliases ==> GivesName(d, w, k))
            && (forall k :: GivesName(d, w, k) ==> exists x :: x in aliases && Lower(x) == Lower(k))
            && (forall i, j :: 0 <= i < j < |aliases| ==> Lower(aliases[i]) != Lower(aliases[j]))
  {
    hide GivesName, AliasValues, Lower;
    var names := Cleaned(AliasValues(d, w));
    FirstByKeySound(names, Lower, {});
    forall k ensures GivesName(d, w, k) <==> k in names {
      NamesAreValues(d, w, k);
    }
    forall k | k in names ensures exists x :: x in AliasesForDraft(d, w) && Lower(x) == Lower(k) {
      assert Lower(k) in Keys(names, Lower);
      assert Lower(k) in Keys(AliasesForDraft(d, w), Lower);
    }
  }

  // ---------------------------------------------------------------- which records meet

  /** The slug of a draft is within the limit of the slug theorem, whatever the draft says, when it leaves room for
      a number, or is shorter than the cut and free. */
  lemma DraftSlugIsRoomy(d: Directory, u: Upsert, draft: Draft)
    requires u.base == DisplaySlug(draft)
    requires var d1 := AppSlugRuns.Merged(d, u);
             || (|u.base| <= 77 && FirstFree(d1, u.base, Survivor(u), 1).Some?)
             || (|u.base| < 80 && !Taken(d1, u.base, Survivor(u)))
    ensures AppSlugRuns.Roomy(d, u)
  {
    ShortSlugsAreClean(SlugSource(draft));
    if |u.base| <= 77 && FirstFree(AppSlugRuns.Merged(d, u), u.base, Survivor(u), 1).Some? {
      AppSlugRuns.ShortBaseIsRoomy(d, u);
    } else {
      AppSlugRuns.FreeBaseIsRoomy(d, u);
    }
  }

  /** These upserts are of these drafts. */
  ghost predicate Upserted(us: seq<Upsert>, ds: seq<Draft>, w: Web) {
    |us| == |ds| && forall i :: 0 <= i < |us| ==> us[i].uri == ds[i].sourceUri
                                                  && us[i].keys == AliasesForDraft(ds[i], w)
  }

  /** Two drafts with an alias in common are always in one listing, whatever else was upserted before, between and
      after them. */
  lemma SharedAliasMeets(us: seq<Upsert>, ds: seq<Draft>, w: Web, d: Directory, i: nat, j: nat, k: string)
    requires Upserted(us, ds, w) && Runs(EMPTY, us, d) && i < |ds| && j < |ds|
    requires k in AliasesForDraft(ds[i], w) && k in AliasesForDraft(ds[j], w)
    ensures ds[i].sourceUri in d.records && ds[j].sourceUri in d.records
    ensures d.records[ds[i].sourceUri] == d.records[ds[j].sourceUri]
  {
    RunsRecord(EMPTY, us, d, us[i].uri);
    RunsRecord(EMPTY, us, d, us[j].uri);
    OwnUriFirst(ds[i], w);
    OwnUriFirst(ds[j], w);
    EdgesAre(us, Edge(us[i]));
    EdgesAre(us, Edge(us[j]));
    var x, y := UriKey(ds[i].sourceUri), UriKey(ds[j].sourceUri);
    assert x in Edge(us[i]) && k in Edge(us[i]) && y in Edge(us[j]) && k in Edge(us[j]);
    Step(Edges(us), Edge(us[i]), x, k);
    Step(Edges(us), Edge(us[j]), k, y);
    Join(Edges(us), x, k, y);
    PartitionIsConnectivity(us, d, ds[i].sourceUri, ds[j].sourceUri);
  }

  lemma UpsertRecords(d: Directory, u: Upsert)
    requires Enabled(d, u) && Apply(d, u).Some?
    ensures d.records.Keys + {u.uri} == Apply(d, u).value.records.Keys
  {
    ApplyRelabels(d, u);
  }

  /** No upserted record is lost. */
  lemma {:induction false} RunsRecord(d: Directory, us: seq<Upsert>, d': Directory, r: Uri)
    requires Runs(d, us, d')
    requires r in d.records || exists i :: 0 <= i < |us| && us[i].uri == r
    ensures r in d'.records
    decreases |us|
  {
    if us != [] {
      UpsertRecords(d, us[0]);
      if r !in d.records && us[0].uri != r {
        var i :| 0 <= i < |us| && us[i].uri == r;
        assert us[1..][i - 1].uri == r;
      }
      RunsRecord(Apply(d, us[0]).value, us[1..], d', r);
    }
  }

  /** Records that name the same web address always share a listing. */
  lemma SameUrlMeets(us: seq<Upsert>, ds: seq<Draft>, w: Web, d: Directory, i: nat, j: nat, url: string)
    requires Upserted(us, ds, w) && Runs(EMPTY, us, d) && i < |ds| && j < |ds| && url != ""
    requires Canonical(w, TextOf(ds[i], PrimaryUrl)) == Some(url) == Canonical(w, TextOf(ds[j], PrimaryUrl))
    ensures ds[i].sourceUri in d.records && ds[j].sourceUri in d.records
    ensures d.records[ds[i].sourceUri] == d.records[ds[j].sourceUri]
  {
    UrlAliasKept(ds[i], w, url);
    UrlAliasKept(ds[j], w, url);
    SharedAliasMeets(us, ds, w, d, i, j, Trim("url:" + url));
  }

  predicate NamesSomeDid(d: Draft, k: string) {
    NamesDid(d, ProductDid, k) || NamesDid(d, ProfileDid, k) || NamesDid(d, LegacyProfileDid, k)
  }

  /** The field names the DID, or one that differs from it only in case. */
  ghost predicate NamesAlike(d: Draft, f: Field, k: string) { exists x :: NamesDid(d, f, x) && Lower(x) == Lower(k) }

  /** The first of the three fields that names the DID up to case names it as it is. */
  ghost predicate NamesFirst(d: Draft, k: string) {
    if NamesAlike(d, ProductDid, k) then NamesDid(d, ProductDid, k)
    else if NamesAlike(d, ProfileDid, k) then NamesDid(d, ProfileDid, k)
    else NamesDid(d, LegacyProfileDid, k)
  }

  function DidField(p: nat): Field { if p == 1 then ProductDid else if p == 2 then ProfileDid else LegacyProfileDid }

  lemma DidsStandHere(d: Draft, w: Web, p: nat, x: string)
    requires 1 <= p <= 3
    ensures Reads(AliasValues(d, w), p, x) && x != "" <==> NamesDid(d, DidField(p), x)
  {
    hide Trim, IsDid, DidAlias;
    DidIsTrimmed(TextOf(d, DidField(p)), x);
  }

  lemma OtherPlaces(d: Draft, w: Web, p: nat, x: string, k: string)
    requires p < 10 && Reads(AliasValues(d, w), p, x) && x != "" && NamesSomeDid(d, k) && Lower(x) == Lower(k)
    ensures 1 <= p <= 3
  {
    hide Trim, DidAlias, Lower;
    ValueKind(d, w, p);
    DidStartsWithD(d, k);
    AlikeStart(x, k);
  }

  lemma DidStartsWithD(d: Draft, k: string)
    requires NamesSomeDid(d, k)
    ensures k != "" && k[0] == 'd'
  {
    hide Trim;
  }

  lemma AlikeStart(x: string, k: string)
    requires x != "" && k != "" && Lower(x) == Lower(k) && k[0] == 'd'
    ensures x[0] == 'd' || x[0] == 'D'
  {
    assert Lower(x)[0] == LowerChar(x[0]) && Lower(k)[0] == 'd';
  }

  /** A DID is an alias of the draft that names it if and only if it is named first. */
  lemma DidIsAliasExactly(d: Draft, w: Web, k: string)
    requires NamesSomeDid(d, k)
    ensures k in AliasesForDraft(d, w) <==> NamesFirst(d, k)
  {
    hide Trim, IsDid, Lower, AliasValues;
    var values := AliasValues(d, w);
    UniqueExactly(values, k);
    DidStartsWithD(d, k);
    assert |values| == 10 by { TenValues(d, w); }
    forall p: nat, x | 1 <= p <= 3 ensures Reads(values, p, x) && x != "" <==> NamesDid(d, DidField(p), x) {
      DidsStandHere(d, w, p, x);
    }
    forall p: nat, x | p < 10 && Reads(values, p, x) && x != "" && Lower(x) == Lower(k) ensures 1 <= p <= 3 {
      OtherPlaces(d, w, p, x, k);
    }
    assert Reads(values, 1, k) <==> NamesDid(d, ProductDid, k);
    assert Reads(values, 2, k) <==> NamesDid(d, ProfileDid, k);
    assert Reads(values, 3, k) <==> NamesDid(d, LegacyProfileDid, k);
    if NamesFirst(d, k) {
      var p := if NamesAlike(d, ProductDid, k) then 1 else if NamesAlike(d, ProfileDid, k) then 2 else 3;
      forall q, x | 0 <= q < p && Reads(values, q, x) && x != "" ensures Lower(x) != Lower(k) {
        assert q >= 1 ==> NamesDid(d, DidField(q), x);
      }
      assert FirstOfItsCase(values, p, k) && Reads(values, p, k);
    }
    if Kept(values, k) {
      var p :| 0 <= p < |values| && Reads(values, p, k) && FirstOfItsCase(values, p, k);
      assert 1 <= p <= 3;
      NamedHere(d, values, p, k);
    }
  }

  lemma TenValues(d: Draft, w: Web)
    ensures |AliasValues(d, w)| == 10
  {
  }

  lemma NamedHere(d: Draft, values: seq<Option<string>>, p: nat, k: string)
    requires |values| == 10 && 1 <= p <= 3 && Reads(values, p, k) && FirstOfItsCase(values, p, k) && k != ""
    requires forall q: nat, x :: 1 <= q <= 3 ==> (Reads(values, q, x) && x != "" <==> NamesDid(d, DidField(q), x))
    ensures NamesFirst(d, k)
  {
    hide Trim, IsDid, Lower;
    assert NamesDid(d, DidField(p), k);
    forall x | NamesDid(d, ProductDid, x) ensures p > 1 ==> Lower(x) != Lower(k) {
      assert DidField(1) == ProductDid && Reads(values, 1, x);
    }
    forall x | NamesDid(d, ProfileDid, x) ensures p > 2 ==> Lower(x) != Lower(k) {
      assert DidField(2) == ProfileDid && Reads(values, 2, x);
    }
  }

  /** Records that name the same account first always share a listing. */
  lemma SameDidMeets(us: seq<Upsert>, ds: seq<Draft>, w: Web, d: Directory, i: nat, j: nat, did: string)
    requires Upserted(us, ds, w) && Runs(EMPTY, us, d) && i < |ds| && j < |ds|
    requires NamesFirst(ds[i], did) && NamesFirst(ds[j], did)
    ensures ds[i].sourceUri in d.records && ds[j].sourceUri in d.records
    ensures d.records[ds[i].sourceUri] == d.records[ds[j].sourceUri]
  {
    DidIsAliasExactly(ds[i], w, did);
    DidIsAliasExactly(ds[j], w, did);
    SharedAliasMeets(us, ds, w, d, i, j, did);
  }

  function Profile(product: string, profile: string): Draft {
    Draft(AtmosphereProfile, "", "", map[ProductDid := product, ProfileDid := profile], [], [], [], [], [], [], [], [],
          None, None)
  }

  lemma SecondIsHidden(w: Web, product: string, profile: string)
    requires IsDid(product) && IsDid(profile) && Trim(product) == product && Trim(profile) == profile
    requires product != profile && Lower(product) == Lower(profile)
    ensures NamesDid(Profile(product, profile), ProfileDid, profile)
    ensures profile !in AliasesForDraft(Profile(product, profile), w)
  {
    hide Trim, IsDid, Lower;
    var d := Profile(product, profile);
    assert NamesDid(d, ProductDid, product) && !NamesDid(d, ProductDid, profile);
    assert NamesAlike(d, ProductDid, profile);
    DidIsAliasExactly(d, w, profile);
  }

  /** The input: a profile whose product and profile account differ only in case has no alias from the second. */
  lemma CaseHidesDid(w: Web) returns (d: Draft, k: string)
    ensures NamesDid(d, ProfileDid, k) && k !in AliasesForDraft(d, w)
  {
    var product, profile := "did:plc:" + "A", "did:plc:" + "a";
    PlainDid(product, "A");
    PlainDid(profile, "a");
    assert product[8] != profile[8];
    assert forall i :: 0 <= i < 9 ==> LowerChar(product[i]) == LowerChar(profile[i]);
    assert Lower(product) == Lower(profile);
    hide Trim, IsDid, Lower, AliasesForDraft, NamesDid, Profile;
    SecondIsHidden(w, product, profile);
    d, k := Profile(product, profile), profile;
  }

  lemma PlainDid(s: string, id: string)
    requires s == "did:plc:" + id && (id == "a" || id == "A")
    ensures IsDid(s) && Trim(s) == s
  {
    DidParts(s, "plc", id);
    assert Trimmed(s);
    TrimShape(s);
  }
}
