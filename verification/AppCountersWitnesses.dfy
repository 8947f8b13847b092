/** A run after which the totals of a listing are wrong. */
module AppCountersWitnesses {
  import opened Wrappers
  import opened Text
  import opened AppCounters
  import opened AppUpsertTotals
  import Dedupe
  import Drafts = AppDrafts
  import Identity = AppIdentity

  /** The keys of an ATStore draft when it is first read and when it comes back, those of another draft, and a
      review. */
  datatype Case = Case(store: Uri, first: set<Key>, later: set<Key>, other: Uri, shared: set<Key>, review: Uri,
                       rating: int)

  /** Both drafts are of one listing at first; later the ATStore draft has nothing in common with the other one. */
  predicate Fitting(e: Case) {
    && e.other != e.store && OwnKeys(e.store, true, e.first) && OwnKeys(e.store, true, e.later)
    && OwnKeys(e.other, false, e.shared)
    && StoreKey(e.store) in e.first && StoreKey(e.store) in e.later
    && e.first * e.shared != {} && e.later * e.shared == {}
  }

  /** The live listing 0 carries `atstore`; nobody has a favorite. */
  ghost predicate OneListing(s: Social, atstore: Option<Uri>) {
    s.listings.Keys == {0} && s.listings[0].live && s.listings[0].atstore == atstore && s.favorites == map[]
  }

  /** These keys name listing 0, those of `mine` on behalf of `other`. */
  predicate Named(s: Social, e: Case, all: set<Key>, mine: set<Key>) {
    s.names.Keys == all && forall k :: k in all ==> s.names[k] == Alias(0, if k in mine then e.other else e.store)
  }

  function Reviews(e: Case): map<Uri, Review> { map[e.review := Review(e.store, Some(0), e.rating, true)] }

  function Records(e: Case, live: bool): map<Uri, Record> {
    map[e.store := Record(0, live, true), e.other := Record(0, true, false)]
  }

  function First(e: Case): Change { Upsert(e.store, true, e.first, 0, {}, Some(e.store)) }
  function Second(e: Case): Change { PostReview(e.review, e.store, Some(0), e.rating) }
  function Third(e: Case): Change { Upsert(e.other, false, e.shared, 0, {}, Some(e.store)) }
  function Fourth(e: Case): Change { Retract(e.store, None) }
  function Fifth(e: Case): Change { Upsert(e.store, true, e.later, 1, {}, Some(e.store)) }

  lemma AfterFirst(e: Case)
    requires Fitting(e)
    ensures Allowed(EMPTY, First(e))
    ensures var s := After(EMPTY, First(e));
            && OneListing(s, Some(e.store)) && s.reviews == map[] && s.records == map[e.store := Record(0, true, true)]
            && Named(s, e, e.first, {})
  {
    hide Recount;
    HasItsDraft(EMPTY, e.store, true, 0, {});
    assert Found(EMPTY, First(e).keys) == {};
    assert Gathered(EMPTY, e.store, true, 0, {}).records == map[e.store := Record(0, true, true)];
  }

  lemma AfterSecond(s: Social, e: Case)
    requires OneListing(s, Some(e.store)) && s.reviews == map[]
    ensures Allowed(s, Second(e))
    ensures var t := After(s, Second(e));
            OneListing(t, Some(e.store)) && t.reviews == Reviews(e) && t.records == s.records && t.names == s.names
  {
    hide Recount;
  }

  lemma AfterThird(s: Social, e: Case)
    requires Fitting(e) && OneListing(s, Some(e.store)) && s.reviews == Reviews(e)
    requires s.records == map[e.store := Record(0, true, true)] && Named(s, e, e.first, {})
    ensures Allowed(s, Third(e))
    ensures var t := After(s, Third(e));
            && OneListing(t, Some(e.store)) && t.reviews == Reviews(e) && t.records == Records(e, true)
            && Named(t, e, e.first + e.shared, e.shared)
  {
    hide Recount, After, Recomputed, Gathered, Merged, Renamed, Named, Fitting;
    ThirdIsAllowed(s, e);
    UpsertRows(s, Third(e));
    forall i ensures i in After(s, Third(e)).listings <==> i == 0 { UpsertListings(s, Third(e), i); }
    UpsertListings(s, Third(e), 0);
    ThirdNames(s, e);
  }

  lemma ThirdNames(s: Social, e: Case)
    requires s.records == map[e.store := Record(0, true, true)] && Named(s, e, e.first, {}) && e.other != e.store
    ensures After(s, Third(e)).records == Records(e, true) && Named(After(s, Third(e)), e, e.first + e.shared, e.shared)
  {
    hide Recount, After, Recomputed, Merged;
    UpsertNames(s, Third(e));
    MergedNone(s, 0);
  }

  lemma ThirdIsAllowed(s: Social, e: Case)
    requires Fitting(e) && OneListing(s, Some(e.store))
    requires s.records == map[e.store := Record(0, true, true)] && Named(s, e, e.first, {})
    ensures Allowed(s, Third(e))
  {
    var k :| k in e.first * e.shared;
    assert s.names[k].listing == 0;
    assert Found(s, Third(e).keys) == {0};
    assert Gathered(s, e.other, false, 0, {}).records == Records(e, true);
  }

  lemma AfterFourth(s: Social, e: Case)
    requires Fitting(e) && OneListing(s, Some(e.store)) && s.reviews == Reviews(e)
    requires s.records == Records(e, true) && Named(s, e, e.first + e.shared, e.shared)
    ensures Allowed(s, Fourth(e)) && Harmless(s, Fourth(e))
    ensures var t := After(s, Fourth(e));
            && OneListing(t, None) && t.reviews == Reviews(e) && t.records == Records(e, false)
            && t.names.Keys == e.shared
  {
    hide Recount;
    var u := Unnamed(s, e.store);
    assert u.records == Records(e, false);
    assert u.records[e.other].live && u.records[e.other].listing == 0;
    assert u.names.Keys == e.shared;
  }

  lemma FifthTakes(s: Social, e: Case)
    requires Fitting(e) && OneListing(s, None) && s.reviews == Reviews(e)
    requires s.records == Records(e, false) && s.names.Keys == e.shared
    ensures Allowed(s, Fifth(e)) && !Harmless(s, Fifth(e))
  {
    var g := Gathered(s, e.store, true, 1, {});
    assert forall k :: k in e.later && k in e.shared ==> k in e.later * e.shared;
    assert Found(s, Fifth(e).keys) == {};
    assert g.records[e.store] == Record(1, true, true);
    assert ReviewTaken(g, e.review, 0, e.store);
    assert TakesFrom(g, 1, Some(e.store), 0);
  }

  function RunOf(e: Case): seq<Change> { [First(e), Second(e), Third(e), Fourth(e), Fifth(e)] }

  /** Deleting the ATStore record of a listing that another draft keeps, and adding it again with no key that the
      listing knows, makes a new listing, which takes the review away: the old one still counts it. */
  lemma ReturningRecordSkewsTotals(e: Case)
    requires Fitting(e)
    ensures Run(RunOf(e)) && Agrees(Play(EMPTY, RunOf(e)[..4])) && !Agrees(Play(EMPTY, RunOf(e)))
  {
    hide Allowed, After, Agrees, Harmless, Run, First, Second, Third, Fourth, Fifth, OneListing, Reviews, Records,
      Named, Fitting;
    var cs1, cs2, cs3 := [First(e)], [First(e), Second(e)], [First(e), Second(e), Third(e)];
    var cs4, cs := [First(e), Second(e), Third(e), Fourth(e)], RunOf(e);
    NothingRun();
    NothingYet();
    assert [] + cs1 == cs1 && cs1 + [Second(e)] == cs2 && cs2 + [Third(e)] == cs3 && cs3 + [Fourth(e)] == cs4
           && cs4 + [Fifth(e)] == cs;
    assert cs[..4] == cs4;
    AfterFirst(e);
    OneMore([], First(e));
    AfterSecond(Play(EMPTY, cs1), e);
    OneMore(cs1, Second(e));
    NamesStay(Play(EMPTY, cs1), Play(EMPTY, cs2), e, e.first, {});
    AfterThird(Play(EMPTY, cs2), e);
    OneMore(cs2, Third(e));
    AfterFourth(Play(EMPTY, cs3), e);
    OneMore(cs3, Fourth(e));
    FifthTakes(Play(EMPTY, cs4), e);
    OneMore(cs4, Fifth(e));
    FirstThreeUndisturbed(e);
    TotalsAgree(cs3);
    ChangeAgreesExactly(Play(EMPTY, cs3), Fourth(e));
    ChangeAgreesExactly(Play(EMPTY, cs4), Fifth(e));
  }

  lemma NamesStay(s: Social, t: Social, e: Case, all: set<Key>, mine: set<Key>)
    requires t.names == s.names && Named(s, e, all, mine)
    ensures Named(t, e, all, mine)
  {
  }

  lemma FirstThreeUndisturbed(e: Case)
    ensures forall n :: 0 <= n < 3 ==> Undisturbed([First(e), Second(e), Third(e)][n])
  {
  }

  // ---------------------------------------------------------------- drafts with such keys

  /** A draft that has a web address and, if it is an ATStore listing, its own URI. */
  function Sited(uri: string, store: bool, url: string): Drafts.Draft {
    var texts := if store then map[Drafts.PrimaryUrl := url, Drafts.AtstoreListingUri := uri]
                 else map[Drafts.PrimaryUrl := url];
    var source := if store then Drafts.AtstoreListing else Drafts.CommunityEntry;
    Drafts.Draft(source, uri, "", texts, [], [], [], [], [], [], [], [], None, None)
  }

  predicate Solid(s: string) { s != "" && Trimmed(s) }

  lemma TrimSolid(kind: string, s: string)
    requires kind != "" && !IsSpace(kind[0]) && Solid(s)
    ensures Trim(kind + s) == kind + s
  {
    TrimShape(kind + s);
    assert (kind + s)[|kind + s| - 1] == s[|s| - 1];
  }

  predicate SitedKey(uri: string, store: bool, canon: string, k: string) {
    k == "uri:" + uri || k == "url:" + canon || (store && k == STORE + uri)
  }

  lemma SitedValues(uri: string, store: bool, url: string, w: Drafts.Web, canon: string)
    requires Solid(canon) && url != "" && w.canon(url) == Some(canon) && Solid(uri)
    ensures var values := Drafts.AliasValues(Sited(uri, store, url), w);
            && |values| == 10 && values[0] == Some("uri:" + uri) && values[5] == Some("url:" + canon)
            && values[6] == (if store then Some(STORE + uri) else None)
            && forall i :: 0 <= i < 10 && values[i].Some? ==> i == 0 || i == 5 || i == 6
  {
  }

  lemma SitedCleaned(uri: string, store: bool, url: string, w: Drafts.Web, canon: string, k: string)
    requires Solid(uri) && Solid(canon) && url != "" && w.canon(url) == Some(canon)
    ensures k in Cleaned(Drafts.AliasValues(Sited(uri, store, url), w)) <==> SitedKey(uri, store, canon, k)
  {
    SitedValues(uri, store, url, w, canon);
    TrimSolid("uri:", uri);
    TrimSolid("url:", canon);
    TrimSolid(STORE, uri);
    hide Trim, IsSpace, Drafts.AliasValues, Cleaned;
    CleanedAre(Drafts.AliasValues(Sited(uri, store, url), w), k);
  }

  lemma KindsDiffer(uri: string, canon: string)
    ensures Lower("uri:" + uri)[2] == 'i' && Lower("url:" + canon)[2] == 'l'
    ensures Lower("uri:" + uri)[0] == 'u' && Lower("url:" + canon)[0] == 'u' && Lower(STORE + uri)[0] == 'a'
  {
  }

  /** Its aliases. */
  lemma SitedAliases(uri: string, store: bool, url: string, w: Drafts.Web, canon: string, k: string)
    requires Solid(uri) && Solid(canon) && url != "" && w.canon(url) == Some(canon)
    ensures k in Drafts.AliasesForDraft(Sited(uri, store, url), w) <==> SitedKey(uri, store, canon, k)
  {
    hide Drafts.AliasValues, Cleaned, Solid, Sited, Trim;
    var cleaned := Cleaned(Drafts.AliasValues(Sited(uri, store, url), w));
    Dedupe.FirstByKeySound(cleaned, Lower, {});
    forall x ensures x in cleaned <==> SitedKey(uri, store, canon, x) { SitedCleaned(uri, store, url, w, canon, x); }
    KindsDiffer(uri, canon);
    if SitedKey(uri, store, canon, k) {
      hide Lower;
      Dedupe.SoleOfItsKey(cleaned, Lower, k);
    }
  }

  lemma KeyOf(k: string, rest: string)
    ensures AsKey("uri:" + rest) == OtherKey("uri:" + rest) && AsKey("url:" + rest) == OtherKey("url:" + rest)
    ensures AsKey(STORE + rest) == StoreKey(rest)
  {
    assert ("uri:" + rest)[0] == 'u' && ("url:" + rest)[0] == 'u';
    assert (STORE + rest)[|STORE|..] == rest;
  }

  function KeysOf(x: Drafts.Draft, w: Drafts.Web): set<Key> { AsKeys(Drafts.AliasesForDraft(x, w)) }

  lemma SitedKeys(uri: string, store: bool, url: string, w: Drafts.Web, canon: string)
    requires Solid(uri) && Solid(canon) && url != "" && w.canon(url) == Some(canon)
    ensures KeysOf(Sited(uri, store, url), w) ==
            {OtherKey("uri:" + uri), OtherKey("url:" + canon)} + (if store then {StoreKey(uri)} else {})
  {
    hide Solid, Drafts.AliasesForDraft, Sited, AsKey;
    var keys := Drafts.AliasesForDraft(Sited(uri, store, url), w);
    forall k ensures k in keys <==> SitedKey(uri, store, canon, k) { SitedAliases(uri, store, url, w, canon, k); }
    KeyOf(uri, uri);
    KeyOf(canon, canon);
    assert "uri:" + uri in keys && "url:" + canon in keys && (store ==> STORE + uri in keys);
  }

  /** Such keys are those of real drafts: an ATStore listing and an entry of one web address, the former coming back
      with another one. */
  lemma SitedDraftsFit(store: string, other: string, review: Uri, rating: int, w: Drafts.Web, url: string,
                       canon: string,
                       url': string, canon': string)
    returns (e: Case)
    requires Solid(store) && Solid(other) && store != other && Solid(canon) && Solid(canon') && canon != canon'
    requires url != "" && w.canon(url) == Some(canon) && url' != "" && w.canon(url') == Some(canon')
    ensures Fitting(e) && e.store == store && e.other == other && e.review == review && e.rating == rating
    ensures e.first == KeysOf(Sited(store, true, url), w) && e.later == KeysOf(Sited(store, true, url'), w)
    ensures e.shared == KeysOf(Sited(other, false, url), w)
  {
    e := Case(store, KeysOf(Sited(store, true, url), w), KeysOf(Sited(store, true, url'), w), other,
              KeysOf(Sited(other, false, url), w), review, rating);
    SitedKeys(store, true, url, w, canon);
    SitedKeys(store, true, url', w, canon');
    SitedKeys(other, false, url, w, canon);
    hide KeysOf, Sited, Solid, Fitting;
    AllApart(store, other, canon, canon');
    CaseFits(e, "uri:" + store, "uri:" + other, "url:" + canon, "url:" + canon');
  }

  lemma CaseFits(e: Case, a: string, b: string, c: string, d: string)
    requires e.store != e.other && a != b && c != d && a != c && a != d && b != c && b != d
    requires e.first == {OtherKey(a), OtherKey(c)} + {StoreKey(e.store)}
    requires e.later == {OtherKey(a), OtherKey(d)} + {StoreKey(e.store)} && e.shared == {OtherKey(b), OtherKey(c)} + {}
    ensures Fitting(e)
  {
    assert OtherKey(c) in e.first * e.shared;
  }

  lemma AllApart(a: string, b: string, c: string, d: string)
    requires a != b && c != d
    ensures "uri:" + a != "uri:" + b && "url:" + c != "url:" + d
    ensures "uri:" + a != "url:" + c && "uri:" + b != "url:" + d && "uri:" + a != "url:" + d && "uri:" + b != "url:" + c
  {
    assert ("uri:" + a)[4..] == a && ("uri:" + b)[4..] == b && ("url:" + c)[4..] == c && ("url:" + d)[4..] == d;
    assert ("uri:" + a)[2] == 'i' && ("uri:" + b)[2] == 'i' && ("url:" + c)[2] == 'l' && ("url:" + d)[2] == 'l';
  }
}
