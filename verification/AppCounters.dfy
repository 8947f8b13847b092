/** The review and favorite totals stored with each listing (lib/app-directory.ts), and when they agree with a
    recount of the rows. */
module AppCounters {
  import opened Wrappers

  type Id = nat
  type Uri = string

  /** `listing` is the listing the row is filed under, looked up from its `subject` when it was posted. */
  datatype Review = Review(subject: Uri, listing: Option<Id>, rating: int, live: bool)
  datatype Favorite = Favorite(subject: Uri, listing: Option<Id>, live: bool)

  datatype Totals = Totals(reviews: nat, average: Option<real>, favorites: nat)
  datatype Entry = Entry(live: bool, totals: Totals, atstore: Option<Uri>)

  /** A record is an ATStore listing or a draft of another kind. */
  datatype Record = Record(listing: Id, live: bool, store: bool)

  /** The alias `atstore:<uri>`, or any other alias of a draft. */
  datatype Key = StoreKey(uri: Uri) | OtherKey(text: string)
  datatype Alias = Alias(listing: Id, source: Uri)

  datatype Social = Social(reviews: map<Uri, Review>, favorites: map<Uri, Favorite>, listings: map<Id, Entry>,
                           records: map<Uri, Record>, names: map<Key, Alias>)

  const NO_TOTALS := Totals(0, None, 0)
  const EMPTY := Social(map[], map[], map[], map[], map[])

  // ---------------------------------------------------------------- the recount

  /** The live reviews filed under the listing. */
  function ReviewsOf(reviews: map<Uri, Review>, id: Id): set<Uri> {
    set u | u in reviews && reviews[u].live && reviews[u].listing == Some(id)
  }

  function FansOf(favorites: map<Uri, Favorite>, id: Id): set<Uri> {
    set u | u in favorites && favorites[u].live && favorites[u].listing == Some(id)
  }

  ghost function Sum(reviews: map<Uri, Review>, us: set<Uri>): int
    requires us <= reviews.Keys
  {
    if us == {} then 0
    else
      var u :| u in us;
      reviews[u].rating + Sum(reviews, us - {u})
  }

  ghost function Average(reviews: map<Uri, Review>, us: set<Uri>): Option<real>
    requires us <= reviews.Keys
  {
    if us == {} then None else Some(Sum(reviews, us) as real / |us| as real)
  }

  /** COUNT and AVG over the live rows filed under the listing. */
  ghost function Recount(s: Social, id: Id): Totals {
    var us := ReviewsOf(s.reviews, id);
    Totals(|us|, Average(s.reviews, us), |FansOf(s.favorites, id)|)
  }

  /** The listings of `ids` get the totals of a recount. */
  ghost function Refresh(s: Social, ids: set<Id>): Social {
    s.(listings := map i | i in s.listings ::
                     if i in s.listings.Keys * ids then s.listings[i].(totals := Recount(s, i)) else s.listings[i])
  }

  /** The stored totals of every listing that has not been merged away are those of a recount. */
  ghost predicate Agrees(s: Social) {
    forall i :: i in s.listings && s.listings[i].live ==> s.listings[i].totals == Recount(s, i)
  }

  /** The sum does not depend on the order of adding. */
  lemma {:induction false} SumAny(reviews: map<Uri, Review>, us: set<Uri>, u: Uri)
    requires u in us && us <= reviews.Keys
    ensures Sum(reviews, us) == reviews[u].rating + Sum(reviews, us - {u})
    decreases |us|
  {
    var v :| v in us && Sum(reviews, us) == reviews[v].rating + Sum(reviews, us - {v});
    if v != u {
      SumAny(reviews, us - {v}, u);
      SumAny(reviews, us - {u}, v);
      assert us - {v} - {u} == us - {u} - {v};
    }
  }

  /** Nor on any other row. */
  lemma {:induction false} SumFrame(reviews: map<Uri, Review>, reviews': map<Uri, Review>, us: set<Uri>)
    requires us <= reviews.Keys && us <= reviews'.Keys
    requires forall u :: u in us ==> reviews'[u].rating == reviews[u].rating
    ensures Sum(reviews, us) == Sum(reviews', us)
    decreases |us|
  {
    if us != {} {
      var u :| u in us;
      SumAny(reviews, us, u);
      SumAny(reviews', us, u);
      SumFrame(reviews, reviews', us - {u});
    }
  }

  // ---------------------------------------------------------------- the changes

  /** An upsert gathers in `survivor` what its keys name, `dups` being the other listings they name; `atstore` is
      the ATStore URI that the merged drafts give the listing.  It can stop when the slug of the listing is
      reserved. */
  datatype Change =
    | PostReview(uri: Uri, subject: Uri, listing: Option<Id>, rating: int)
    | DropReview(uri: Uri)
    | PostFavorite(uri: Uri, subject: Uri, listing: Option<Id>)
    | DropFavorite(uri: Uri)
    | Upsert(uri: Uri, store: bool, keys: set<Key>, survivor: Id, dups: set<Id>, atstore: Option<Uri>)
    | StoppedUpsert(uri: Uri, store: bool, keys: set<Key>, survivor: Id, dups: set<Id>)
    | Retract(uri: Uri, atstore: Option<Uri>)

  function Ids(a: Option<Id>, b: Option<Id>): set<Id> {
    (if a.Some? then {a.value} else {}) + (if b.Some? then {b.value} else {})
  }

  function ReviewedListing(s: Social, uri: Uri): Option<Id> {
    if uri in s.reviews then s.reviews[uri].listing else None
  }

  function FavoredListing(s: Social, uri: Uri): Option<Id> {
    if uri in s.favorites then s.favorites[uri].listing else None
  }

  /** Everything after `mergeDuplicateListing` for each duplicate: rows, records and aliases follow the survivor. */
  function Merged(s: Social, survivor: Id, dups: set<Id>): Social {
    Social(
      map u | u in s.reviews ::
        if u in s.reviews && InAny(s.reviews[u].listing, dups) then s.reviews[u].(listing := Some(survivor))
        else s.reviews[u],
      map u | u in s.favorites ::
        if u in s.favorites && InAny(s.favorites[u].listing, dups) then s.favorites[u].(listing := Some(survivor))
        else s.favorites[u],
      map i | i in s.listings :: if i in s.listings.Keys * dups then s.listings[i].(live := false) else s.listings[i],
      map u | u in s.records ::
        if u in s.records && s.records[u].listing in dups then s.records[u].(listing := survivor) else s.records[u],
      map k | k in s.names ::
        if k in s.names && s.names[k].listing in dups then s.names[k].(listing := survivor) else s.names[k])
  }

  predicate InAny(listing: Option<Id>, dups: set<Id>) { listing.Some? && listing.value in dups }

  function Follow(listing: Id, survivor: Id, dups: set<Id>): Id { if listing in dups then survivor else listing }

  function FollowAny(listing: Option<Id>, survivor: Id, dups: set<Id>): Option<Id> {
    if InAny(listing, dups) then Some(survivor) else listing
  }

  /** What an upsert has written when it comes to recomputing the survivor. */
  function Gathered(s: Social, uri: Uri, store: bool, survivor: Id, dups: set<Id>): Social {
    var t := Merged(s, survivor, dups);
    t.(records := t.records[uri := Record(survivor, true, store)])
  }

  /** `linkAppSocialRecords`: the live rows about the listing's ATStore record are claimed for it wherever they
      were. */
  function Linked(s: Social, id: Id, atstore: Option<Uri>): Social {
    var totals := if id in s.listings then s.listings[id].totals else NO_TOTALS;
    s.(reviews := map u | u in s.reviews ::
                    if u in s.reviews && s.reviews[u].live && atstore == Some(s.reviews[u].subject)
                    then s.reviews[u].(listing := Some(id)) else s.reviews[u],
       favorites := map u | u in s.favorites ::
                      if u in s.favorites && s.favorites[u].live && atstore == Some(s.favorites[u].subject)
                      then s.favorites[u].(listing := Some(id)) else s.favorites[u],
       listings := s.listings[id := Entry(true, totals, atstore)])
  }

  ghost predicate HasDrafts(s: Social, id: Id) {
    exists u :: u in s.records && s.records[u].live && s.records[u].listing == id
  }

  /** `recomputeListing`: without drafts the row is only marked deleted. */
  ghost function Recomputed(s: Social, id: Id, atstore: Option<Uri>): Social {
    if HasDrafts(s, id) then Refresh(Linked(s, id, atstore), {id})
    else if id in s.listings then s.(listings := s.listings[id := s.listings[id].(live := false)])
    else s
  }

  function Unnamed(s: Social, uri: Uri): Social {
    s.(names := s.names - (set k | k in s.names && s.names[k].source == uri),
       records := if uri in s.records then s.records[uri := s.records[uri].(live := false)] else s.records)
  }

  function Renamed(names: map<Key, Alias>, keys: set<Key>, a: Alias): map<Key, Alias> {
    map k | k in names.Keys + keys :: if k in keys then a else names[k]
  }

  ghost function After(s: Social, c: Change): Social {
    match c
    case PostReview(uri, subject, listing, rating) =>
      Refresh(s.(reviews := s.reviews[uri := Review(subject, listing, rating, true)]),
              Ids(ReviewedListing(s, uri), listing))
    case DropReview(uri) =>
      if uri !in s.reviews then s
      else Refresh(s.(reviews := s.reviews[uri := s.reviews[uri].(live := false)]), Ids(s.reviews[uri].listing, None))
    case PostFavorite(uri, subject, listing) =>
      Refresh(s.(favorites := s.favorites[uri := Favorite(subject, listing, true)]),
              Ids(FavoredListing(s, uri), listing))
    case DropFavorite(uri) =>
      if uri !in s.favorites then s
      else Refresh(s.(favorites := s.favorites[uri := s.favorites[uri].(live := false)]),
                   Ids(s.favorites[uri].listing, None))
    case Upsert(uri, store, keys, survivor, dups, atstore) =>
      var t := Recomputed(Gathered(s, uri, store, survivor, dups), survivor, atstore);
      t.(names := Renamed(t.names, keys, Alias(survivor, uri)))
    case StoppedUpsert(uri, store, keys, survivor, dups) => Gathered(s, uri, store, survivor, dups)
    case Retract(uri, atstore) =>
      if uri in s.records then Recomputed(Unnamed(s, uri), s.records[uri].listing, atstore) else Unnamed(s, uri)
  }

  /** The listings that a draft's keys name. */
  function Found(s: Social, keys: set<Key>): set<Id> {
    set k | k in keys && k in s.names :: s.names[k].listing
  }

  /** `findListingByAtstoreUri`: some row that carries the URI, if there is one, whether it is deleted or not. */
  ghost predicate Looked(s: Social, subject: Uri, listing: Option<Id>) {
    if listing.Some? then listing.value in s.listings && s.listings[listing.value].atstore == Some(subject)
    else forall i :: i in s.listings ==> s.listings[i].atstore != Some(subject)
  }

  /** Only ATStore listings carry an ATStore URI, which is their own. */
  predicate OwnKeys(uri: Uri, store: bool, keys: set<Key>) {
    forall k :: k in keys && k.StoreKey? ==> store && k.uri == uri
  }

  predicate Gathers(s: Social, uri: Uri, store: bool, keys: set<Key>, survivor: Id, dups: set<Id>) {
    && OwnKeys(uri, store, keys) && (store ==> StoreKey(uri) in keys)
    && (uri in s.records ==> s.records[uri].store == store)
    && (if Found(s, keys) == {} then survivor !in s.listings && dups == {}
        else survivor in Found(s, keys) && dups == Found(s, keys) - {survivor})
  }

  /** The URI of one of the listing's ATStore drafts, or none. */
  predicate OneOfItsStores(s: Social, id: Id, atstore: Option<Uri>) {
    atstore.Some? ==> atstore.value in s.records && s.records[atstore.value] == Record(id, true, true)
  }

  /** What the code makes of its tables and of a draft's keys; the choices it leaves are those among rows read in no
      particular order. */
  ghost predicate Allowed(s: Social, c: Change) {
    match c
    case PostReview(_, subject, listing, _) => Looked(s, subject, listing)
    case PostFavorite(_, subject, listing) => Looked(s, subject, listing)
    case Upsert(uri, store, keys, survivor, dups, atstore) =>
      Gathers(s, uri, store, keys, survivor, dups) && OneOfItsStores(Gathered(s, uri, store, survivor, dups),
                                                                     survivor, atstore)
    case StoppedUpsert(uri, store, keys, survivor, dups) => Gathers(s, uri, store, keys, survivor, dups)
    case Retract(uri, atstore) => uri in s.records ==> OneOfItsStores(Unnamed(s, uri), s.records[uri].listing, atstore)
    case _ => true
  }

  ghost function Play(s: Social, cs: seq<Change>): Social {
    if cs == [] then s else After(Play(s, cs[..|cs| - 1]), cs[|cs| - 1])
  }

  // ---------------------------------------------------------------- which changes keep the totals right

  /** The listing has the same rows. */
  ghost predicate SameRows(s: Social, t: Social, i: Id) {
    && ReviewsOf(s.reviews, i) == ReviewsOf(t.reviews, i)
    && (forall u :: u in ReviewsOf(s.reviews, i) ==> u in t.reviews && t.reviews[u].rating == s.reviews[u].rating)
    && FansOf(s.favorites, i) == FansOf(t.favorites, i)
  }

  /** Its rows are all that its totals depend on. */
  lemma SameRecount(s: Social, t: Social, i: Id)
    requires SameRows(s, t, i)
    ensures Recount(s, i) == Recount(t, i)
  {
    SumFrame(s.reviews, t.reviews, ReviewsOf(s.reviews, i));
  }

  lemma RefreshAgrees(s: Social, t: Social, ids: set<Id>)
    requires Agrees(s)
    requires forall i :: i in t.listings && t.listings[i].live && i !in ids ==>
                           && i in s.listings && s.listings[i].live
                           && t.listings[i].totals == s.listings[i].totals && SameRows(s, t, i)
    ensures Agrees(Refresh(t, ids))
  {
    var r := Refresh(t, ids);
    forall i | i in r.listings && r.listings[i].live ensures r.listings[i].totals == Recount(r, i) {
      assert Recount(r, i) == Recount(t, i);
      if i !in ids { SameRecount(s, t, i); }
    }
  }

  /** Posting, editing, re-pointing or deleting a review or a favorite keeps every total right. */
  lemma SocialChangeAgrees(s: Social, c: Change)
    requires Agrees(s) && (c.PostReview? || c.DropReview? || c.PostFavorite? || c.DropFavorite?)
    ensures Agrees(After(s, c))
  {
    match c
    case PostReview(uri, subject, listing, rating) =>
      var t := s.(reviews := s.reviews[uri := Review(subject, listing, rating, true)]);
      var ids := Ids(ReviewedListing(s, uri), listing);
      forall i | i !in ids ensures SameRows(s, t, i) { }
      RefreshAgrees(s, t, ids);
    case DropReview(uri) =>
      if uri in s.reviews {
        var t := s.(reviews := s.reviews[uri := s.reviews[uri].(live := false)]);
        var ids := Ids(s.reviews[uri].listing, None);
        forall i | i !in ids ensures SameRows(s, t, i) { }
        RefreshAgrees(s, t, ids);
      }
    case PostFavorite(uri, subject, listing) =>
      var t := s.(favorites := s.favorites[uri := Favorite(subject, listing, true)]);
      var ids := Ids(FavoredListing(s, uri), listing);
      forall i | i !in ids ensures SameRows(s, t, i) { }
      RefreshAgrees(s, t, ids);
    case DropFavorite(uri) =>
      if uri in s.favorites {
        var t := s.(favorites := s.favorites[uri := s.favorites[uri].(live := false)]);
        var ids := Ids(s.favorites[uri].listing, None);
        forall i | i !in ids ensures SameRows(s, t, i) { }
        RefreshAgrees(s, t, ids);
      }
  }

  predicate ReviewTaken(s: Social, u: Uri, i: Id, subject: Uri) {
    u in s.reviews && s.reviews[u].live && s.reviews[u].listing == Some(i) && s.reviews[u].subject == subject
  }

  predicate FavoriteTaken(s: Social, u: Uri, i: Id, subject: Uri) {
    u in s.favorites && s.favorites[u].live && s.favorites[u].listing == Some(i) && s.favorites[u].subject == subject
  }

  /** Making `id` the listing of its ATStore record claims a row of the live listing `i`. */
  ghost predicate TakesFrom(s: Social, id: Id, atstore: Option<Uri>, i: Id) {
    && i in s.listings && s.listings[i].live && i != id && atstore.Some?
    && ((exists u :: ReviewTaken(s, u, i, atstore.value)) || (exists u :: FavoriteTaken(s, u, i, atstore.value)))
  }

  lemma OthersKeepRows(s: Social, id: Id, atstore: Option<Uri>, i: Id)
    requires i in s.listings && s.listings[i].live && i != id && !TakesFrom(s, id, atstore, i)
    ensures SameRows(s, Linked(s, id, atstore), i)
  {
    var t := Linked(s, id, atstore);
    forall u | u in s.reviews ensures u in ReviewsOf(s.reviews, i) <==> u in ReviewsOf(t.reviews, i) {
      assert atstore.Some? ==> !ReviewTaken(s, u, i, atstore.value);
    }
    forall u | u in s.favorites ensures u in FansOf(s.favorites, i) <==> u in FansOf(t.favorites, i) {
      assert atstore.Some? ==> !FavoriteTaken(s, u, i, atstore.value);
    }
  }

  /** Every live listing but this one has its totals right. */
  ghost predicate AgreesBut(s: Social, id: Id) {
    forall i :: i in s.listings && s.listings[i].live && i != id ==> s.listings[i].totals == Recount(s, i)
  }

  lemma TakenFromIsWrong(s: Social, id: Id, atstore: Option<Uri>, i: Id)
    requires TakesFrom(s, id, atstore, i) && AgreesBut(s, id)
    ensures var t := Refresh(Linked(s, id, atstore), {id});
            i in t.listings && t.listings[i].live && t.listings[i].totals != Recount(t, i)
  {
    var t := Linked(s, id, atstore);
    assert Recount(Refresh(t, {id}), i) == Recount(t, i);
    var before, after := ReviewsOf(s.reviews, i), ReviewsOf(t.reviews, i);
    if u :| ReviewTaken(s, u, i, atstore.value) {
      assert u in before && u !in after;
      Smaller(after, before);
    } else {
      var u :| FavoriteTaken(s, u, i, atstore.value);
      assert u in FansOf(s.favorites, i) && u !in FansOf(t.favorites, i);
      Smaller(FansOf(t.favorites, i), FansOf(s.favorites, i));
    }
  }

  lemma Smaller<T>(a: set<T>, b: set<T>)
    requires a < b
    ensures |a| < |b|
  {
    var d := b - a;
    assert b == a + d && a !! d && d != {};
  }

  /** Recomputing a listing makes every total right exactly when no row is taken from another live listing: such a
      row is counted for its new listing, but the totals of the listing it left are not updated. */
  lemma RecomputeAgreesExactly(s: Social, id: Id, atstore: Option<Uri>)
    requires AgreesBut(s, id)
    ensures Agrees(Recomputed(s, id, atstore)) <==> !HasDrafts(s, id) || forall i :: !TakesFrom(s, id, atstore, i)
  {
    var t := Linked(s, id, atstore);
    if !HasDrafts(s, id) {
      assert forall i :: Recount(Recomputed(s, id, atstore), i) == Recount(s, i);
    } else if forall i :: !TakesFrom(s, id, atstore, i) {
      var r := Refresh(t, {id});
      forall i | i in r.listings && r.listings[i].live ensures r.listings[i].totals == Recount(r, i) {
        assert Recount(r, i) == Recount(t, i);
        if i != id {
          OthersKeepRows(s, id, atstore, i);
          SameRecount(s, t, i);
        }
      }
    } else {
      var i :| TakesFrom(s, id, atstore, i);
      TakenFromIsWrong(s, id, atstore, i);
    }
  }

  lemma GatheringAgrees(s: Social, uri: Uri, store: bool, survivor: Id, dups: set<Id>)
    requires Agrees(s) && survivor !in dups
    ensures AgreesBut(Gathered(s, uri, store, survivor, dups), survivor)
  {
    var t := Gathered(s, uri, store, survivor, dups);
    forall i | i in t.listings && t.listings[i].live && i != survivor ensures t.listings[i].totals == Recount(t, i) {
      assert ReviewsOf(s.reviews, i) == ReviewsOf(t.reviews, i);
      assert FansOf(s.favorites, i) == FansOf(t.favorites, i);
      SameRecount(s, t, i);
    }
  }

  /** A live row is filed under one of these listings. */
  ghost predicate RowsUnder(s: Social, dups: set<Id>) {
    || (exists u :: u in s.reviews && s.reviews[u].live && s.reviews[u].listing.Some?
                    && s.reviews[u].listing.value in dups)
    || (exists u :: u in s.favorites && s.favorites[u].live && s.favorites[u].listing.Some?
                    && s.favorites[u].listing.value in dups)
  }

  lemma GatheredRows(s: Social, uri: Uri, store: bool, survivor: Id, dups: set<Id>)
    requires survivor !in dups
    ensures var t := Gathered(s, uri, store, survivor, dups);
            && ReviewsOf(s.reviews, survivor) <= ReviewsOf(t.reviews, survivor)
            && FansOf(s.favorites, survivor) <= FansOf(t.favorites, survivor)
            && (RowsUnder(s, dups) <==>
                ReviewsOf(s.reviews, survivor) < ReviewsOf(t.reviews, survivor)
                || FansOf(s.favorites, survivor) < FansOf(t.favorites, survivor))
  {
    var t := Gathered(s, uri, store, survivor, dups);
    forall u | u in s.reviews && s.reviews[u].live && s.reviews[u].listing.Some? && s.reviews[u].listing.value in dups
      ensures u in ReviewsOf(t.reviews, survivor) && u !in ReviewsOf(s.reviews, survivor) { }
    forall u | u in s.favorites && s.favorites[u].live && s.favorites[u].listing.Some?
               && s.favorites[u].listing.value in dups
      ensures u in FansOf(t.favorites, survivor) && u !in FansOf(s.favorites, survivor) { }
    if !RowsUnder(s, dups) {
      assert ReviewsOf(s.reviews, survivor) == ReviewsOf(t.reviews, survivor);
      assert FansOf(s.favorites, survivor) == FansOf(t.favorites, survivor);
    }
  }

  /** An upsert that stops has moved the duplicates' rows to the survivor without updating its totals. */
  lemma StoppedAgreesExactly(s: Social, uri: Uri, store: bool, survivor: Id, dups: set<Id>)
    requires Agrees(s) && survivor !in dups
    ensures Agrees(Gathered(s, uri, store, survivor, dups)) <==>
            !(survivor in s.listings && s.listings[survivor].live && RowsUnder(s, dups))
  {
    var t := Gathered(s, uri, store, survivor, dups);
    GatheringAgrees(s, uri, store, survivor, dups);
    GatheredRows(s, uri, store, survivor, dups);
    assert survivor in t.listings ==> survivor in s.listings && t.listings[survivor] == s.listings[survivor];
    if RowsUnder(s, dups) {
      if ReviewsOf(s.reviews, survivor) < ReviewsOf(t.reviews, survivor) {
        Smaller(ReviewsOf(s.reviews, survivor), ReviewsOf(t.reviews, survivor));
      } else {
        Smaller(FansOf(s.favorites, survivor), FansOf(t.favorites, survivor));
      }
    } else {
      assert SameRows(s, t, survivor);
      SameRecount(s, t, survivor);
    }
  }

  /** The guard under which one change keeps every total right. */
  ghost predicate Harmless(s: Social, c: Change) {
    match c
    case Upsert(uri, store, keys, survivor, dups, atstore) =>
      forall i :: !TakesFrom(Gathered(s, uri, store, survivor, dups), survivor, atstore, i)
    case StoppedUpsert(_, _, _, survivor, dups) => !(survivor in s.listings && s.listings[survivor].live
                                                     && RowsUnder(s, dups))
    case Retract(uri, atstore) =>
      uri !in s.records || var id := s.records[uri].listing;
                           !HasDrafts(Unnamed(s, uri), id) || forall i :: !TakesFrom(Unnamed(s, uri), id, atstore, i)
    case _ => true
  }

  /** Every change keeps the totals right exactly under its guard. */
  lemma ChangeAgreesExactly(s: Social, c: Change)
    requires Agrees(s) && Allowed(s, c)
    ensures Agrees(After(s, c)) <==> Harmless(s, c)
  {
    hide Recount, Recomputed, Gathered, Unnamed, TakesFrom, Found;
    match c
    case Upsert(uri, store, keys, survivor, dups, atstore) =>
      GatheringAgrees(s, uri, store, survivor, dups);
      var t := Gathered(s, uri, store, survivor, dups);
      RecomputeAgreesExactly(t, survivor, atstore);
      HasItsDraft(s, uri, store, survivor, dups);
      SameTotals(Recomputed(t, survivor, atstore), After(s, c));
    case StoppedUpsert(uri, store, _, survivor, dups) => StoppedAgreesExactly(s, uri, store, survivor, dups);
    case Retract(uri, atstore) =>
      OnlyUnnamed(s, uri);
      SameTotals(s, Unnamed(s, uri));
      if uri in s.records { RecomputeAgreesExactly(Unnamed(s, uri), s.records[uri].listing, atstore); }
    case _ => SocialChangeAgrees(s, c);
  }

  lemma OnlyUnnamed(s: Social, uri: Uri)
    ensures var t := Unnamed(s, uri); t.reviews == s.reviews && t.favorites == s.favorites && t.listings == s.listings
  {
  }

  lemma HasItsDraft(s: Social, uri: Uri, store: bool, survivor: Id, dups: set<Id>)
    ensures HasDrafts(Gathered(s, uri, store, survivor, dups), survivor)
  {
    assert Gathered(s, uri, store, survivor, dups).records[uri] == Record(survivor, true, store);
  }

  lemma SameTotals(s: Social, t: Social)
    requires t.reviews == s.reviews && t.favorites == s.favorites && t.listings == s.listings
    ensures Agrees(s) <==> Agrees(t)
    ensures Agrees(s) ==> forall id :: AgreesBut(t, id)
  {
    assert forall i :: Recount(s, i) == Recount(t, i);
  }

  // ---------------------------------------------------------------- runs

  ghost predicate Run(cs: seq<Change>) {
    forall n :: 0 <= n < |cs| ==> Allowed(Play(EMPTY, cs[..n]), cs[n])
  }

  /** What the aliases say about the listings, as long as nothing is deleted and no upsert stops. */
  ghost predicate NamesOk(s: Social) {
    && (forall k :: k in s.names ==> s.names[k].listing in s.listings && s.listings[s.names[k].listing].live)
    && (forall v :: v in s.records && s.records[v].live && s.records[v].store ==> Names(s, v, s.records[v].listing))
    && (forall i :: i in s.listings && s.listings[i].live && s.listings[i].atstore.Some? ==>
                      Names(s, s.listings[i].atstore.value, i))
  }

  predicate Names(s: Social, v: Uri, i: Id) { StoreKey(v) in s.names && s.names[StoreKey(v)].listing == i }

  /** A row is filed under a listing that exists, and under a live one only if that is what its subject names. */
  predicate FiledOk(s: Social, listing: Option<Id>, live: bool, subject: Uri) {
    listing.Some? ==> listing.value in s.listings && (live && s.listings[listing.value].live ==>
                                                        Names(s, subject, listing.value))
  }

  ghost predicate RowsOk(s: Social) {
    && (forall u :: u in s.reviews ==> FiledOk(s, s.reviews[u].listing, s.reviews[u].live, s.reviews[u].subject))
    && (forall u :: u in s.favorites ==> FiledOk(s, s.favorites[u].listing, s.favorites[u].live,
                                                 s.favorites[u].subject))
  }

  /** Names after an upsert. */
  lemma NameAfter(s: Social, c: Change, v: Uri, i: Id)
    requires c.Upsert? && Allowed(s, c) && Names(s, v, i)
    ensures Names(After(s, c), v, Follow(i, c.survivor, c.dups))
  {
    hide Recomputed, Recount;
    RecomputedNames(Gathered(s, c.uri, c.store, c.survivor, c.dups), c.survivor, c.atstore);
    if StoreKey(v) in c.keys { assert i in Found(s, c.keys); }
  }

  lemma RecomputedNames(s: Social, id: Id, atstore: Option<Uri>)
    ensures Recomputed(s, id, atstore).names == s.names && Recomputed(s, id, atstore).records == s.records
  {
  }

  lemma UpsertListings(s: Social, c: Change, i: Id)
    requires c.Upsert? && Allowed(s, c)
    ensures var t := After(s, c);
            && (i in t.listings <==> i in s.listings || i == c.survivor)
            && (i in t.listings && t.listings[i].live ==> i == c.survivor
                                                          || (i in s.listings && s.listings[i].live && i !in c.dups))
            && (i in t.listings && i != c.survivor ==> t.listings[i].atstore == s.listings[i].atstore)
            && c.survivor in t.listings && t.listings[c.survivor].live && t.listings[c.survivor].atstore == c.atstore
            && (i in s.listings && i !in c.dups && s.listings[i].live ==> t.listings[i].live)
  {
    hide Recount;
    HasItsDraft(s, c.uri, c.store, c.survivor, c.dups);
  }

  /** The ATStore URI that the survivor comes to carry names it. */
  lemma OwnNameAfter(s: Social, c: Change, v: Uri)
    requires c.Upsert? && Allowed(s, c) && NamesOk(s)
    requires var r := Gathered(s, c.uri, c.store, c.survivor, c.dups).records; v in r && r[v].live && r[v].store
    ensures Names(After(s, c), v, Gathered(s, c.uri, c.store, c.survivor, c.dups).records[v].listing)
  {
    hide Recomputed, Recount;
    RecomputedNames(Gathered(s, c.uri, c.store, c.survivor, c.dups), c.survivor, c.atstore);
    if v != c.uri { NameAfter(s, c, v, s.records[v].listing); }
  }

  lemma UpsertKeepsNames(s: Social, c: Change)
    requires c.Upsert? && Allowed(s, c) && NamesOk(s)
    ensures NamesOk(After(s, c))
  {
    hide Recomputed, Recount, Names;
    var t := After(s, c);
    var g := Gathered(s, c.uri, c.store, c.survivor, c.dups);
    RecomputedNames(g, c.survivor, c.atstore);
    forall k | k in t.names ensures t.names[k].listing in t.listings && t.listings[t.names[k].listing].live {
      UpsertListings(s, c, t.names[k].listing);
    }
    forall v | v in t.records && t.records[v].live && t.records[v].store ensures Names(t, v, t.records[v].listing) {
      OwnNameAfter(s, c, v);
    }
    forall i | i in t.listings && t.listings[i].live && t.listings[i].atstore.Some?
      ensures Names(t, t.listings[i].atstore.value, i) {
      UpsertListings(s, c, i);
      if i == c.survivor { OwnNameAfter(s, c, c.atstore.value); }
      else { NameAfter(s, c, s.listings[i].atstore.value, i); }
    }
  }

  /** Where a row ends up after an upsert: merged with its listing, and then claimed by its subject. */
  function RefiledAs(listing: Option<Id>, live: bool, subject: Uri, c: Change): Option<Id>
    requires c.Upsert?
  {
    if live && c.atstore == Some(subject) then Some(c.survivor) else FollowAny(listing, c.survivor, c.dups)
  }

  /** A row of the recomputed survivor or of a bystander is filed as its subject says. */
  lemma FiledAfter(s: Social, c: Change, listing: Option<Id>, live: bool, subject: Uri)
    requires c.Upsert? && Allowed(s, c) && NamesOk(s) && FiledOk(s, listing, live, subject)
    ensures FiledOk(After(s, c), RefiledAs(listing, live, subject, c), live, subject)
  {
    hide Recomputed, Recount, Names, After, Gathered;
    if live && c.atstore == Some(subject) {
      OwnNameAfter(s, c, subject);
      UpsertListings(s, c, c.survivor);
    } else if listing.Some? {
      var i := listing.value;
      UpsertListings(s, c, i);
      UpsertListings(s, c, Follow(i, c.survivor, c.dups));
      FoundAreLive(s, c);
      if live && s.listings[i].live { NameAfter(s, c, subject, i); }
    }
  }

  lemma FoundAreLive(s: Social, c: Change)
    requires c.Upsert? && Allowed(s, c) && NamesOk(s)
    ensures forall i :: i in c.dups ==> i in s.listings && s.listings[i].live
    ensures c.survivor in s.listings ==> s.listings[c.survivor].live
  {
  }

  lemma UpsertRows(s: Social, c: Change)
    requires c.Upsert?
    ensures var t := After(s, c);
            && t.reviews.Keys == s.reviews.Keys && t.favorites.Keys == s.favorites.Keys
            && (forall u :: u in s.reviews ==>
                              var r := s.reviews[u];
                              t.reviews[u] == r.(listing := RefiledAs(r.listing, r.live, r.subject, c)))
            && (forall u :: u in s.favorites ==>
                              var r := s.favorites[u];
                              t.favorites[u] == r.(listing := RefiledAs(r.listing, r.live, r.subject, c)))
  {
    hide Recount;
    HasItsDraft(s, c.uri, c.store, c.survivor, c.dups);
  }

  lemma UpsertKeepsRows(s: Social, c: Change)
    requires c.Upsert? && Allowed(s, c) && NamesOk(s) && RowsOk(s)
    ensures RowsOk(After(s, c))
  {
    hide After, Allowed, NamesOk, FiledOk, RefiledAs;
    UpsertRows(s, c);
    var t := After(s, c);
    forall u | u in t.reviews ensures FiledOk(t, t.reviews[u].listing, t.reviews[u].live, t.reviews[u].subject) {
      FiledAfter(s, c, s.reviews[u].listing, s.reviews[u].live, s.reviews[u].subject);
    }
    forall u | u in t.favorites ensures FiledOk(t, t.favorites[u].listing, t.favorites[u].live,
                                                t.favorites[u].subject) {
      FiledAfter(s, c, s.favorites[u].listing, s.favorites[u].live, s.favorites[u].subject);
    }
  }

  /** So an upsert takes no row from another live listing. */
  lemma UpsertIsHarmless(s: Social, c: Change)
    requires c.Upsert? && Allowed(s, c) && NamesOk(s) && RowsOk(s)
    ensures Harmless(s, c)
  {
    hide Recomputed, Recount, NamesOk;
    var g := Gathered(s, c.uri, c.store, c.survivor, c.dups);
    forall i ensures !TakesFrom(g, c.survivor, c.atstore, i) {
      if TakesFrom(g, c.survivor, c.atstore, i) {
        assert Names(s, c.atstore.value, i);
        NameAfter(s, c, c.atstore.value, i);
        OwnNameAfter(s, c, c.atstore.value);
      }
    }
  }

  /** A row is posted where its subject's listing is, so it is filed as its subject says. */
  lemma PostKeepsNames(s: Social, c: Change)
    requires (c.PostReview? || c.PostFavorite? || c.DropReview? || c.DropFavorite?) && Allowed(s, c) && NamesOk(s)
             && RowsOk(s)
    ensures NamesOk(After(s, c)) && RowsOk(After(s, c))
  {
    hide NamesOk, RowsOk, Allowed, After;
    if c.PostReview? || c.DropReview? { ReviewKeepsNames(s, c); } else { FavoriteKeepsNames(s, c); }
  }

  lemma ReviewKeepsNames(s: Social, c: Change)
    requires (c.PostReview? || c.DropReview?) && Allowed(s, c) && NamesOk(s) && RowsOk(s)
    ensures NamesOk(After(s, c)) && RowsOk(After(s, c))
  {
    hide Recount;
  }

  lemma FavoriteKeepsNames(s: Social, c: Change)
    requires (c.PostFavorite? || c.DropFavorite?) && Allowed(s, c) && NamesOk(s) && RowsOk(s)
    ensures NamesOk(After(s, c)) && RowsOk(After(s, c))
  {
    hide Recount;
  }

  predicate Undisturbed(c: Change) { !c.Retract? && !c.StoppedUpsert? }

  lemma {:induction false} NamesHold(cs: seq<Change>)
    requires Run(cs) && forall n :: 0 <= n < |cs| ==> Undisturbed(cs[n])
    ensures NamesOk(Play(EMPTY, cs)) && RowsOk(Play(EMPTY, cs))
  {
    hide After, Allowed, NamesOk, RowsOk;
    if cs == [] {
      NothingYet();
    } else {
      var before := cs[..|cs| - 1];
      RunBefore(cs);
      NamesHold(before);
      var s, c := Play(EMPTY, before), cs[|cs| - 1];
      if c.Upsert? {
        UpsertKeepsNames(s, c);
        UpsertKeepsRows(s, c);
      } else {
        PostKeepsNames(s, c);
      }
    }
  }

  lemma NothingYet()
    ensures NamesOk(EMPTY) && RowsOk(EMPTY) && Agrees(EMPTY)
  {
  }

  lemma RunBefore(cs: seq<Change>)
    requires cs != [] && Run(cs)
    ensures Run(cs[..|cs| - 1]) && Allowed(Play(EMPTY, cs[..|cs| - 1]), cs[|cs| - 1])
    ensures forall n :: 0 <= n < |cs| - 1 ==> cs[..|cs| - 1][..n] == cs[..n]
  {
    hide Allowed, Play;
    var before := cs[..|cs| - 1];
    forall n | 0 <= n < |before| ensures before[..n] == cs[..n] && before[n] == cs[n] { }
  }

  lemma UndisturbedIsHarmless(s: Social, c: Change)
    requires Undisturbed(c) && Allowed(s, c) && NamesOk(s) && RowsOk(s)
    ensures Harmless(s, c)
  {
    hide Allowed, NamesOk, RowsOk, TakesFrom;
    if c.Upsert? { UpsertIsHarmless(s, c); }
  }

  /** Posting, editing and deleting reviews and favorites, upserting and merging: over every run of these, the
      stored totals are those of a recount. */
  lemma {:induction false} TotalsAgree(cs: seq<Change>)
    requires Run(cs) && forall n :: 0 <= n < |cs| ==> Undisturbed(cs[n])
    ensures Agrees(Play(EMPTY, cs))
  {
    hide After, Allowed, NamesOk, RowsOk, Agrees, Harmless;
    if cs == [] {
      NothingYet();
    } else {
      var before := cs[..|cs| - 1];
      RunBefore(cs);
      TotalsAgree(before);
      NamesHold(before);
      UndisturbedIsHarmless(Play(EMPTY, before), cs[|cs| - 1]);
      ChangeAgreesExactly(Play(EMPTY, before), cs[|cs| - 1]);
    }
  }

  lemma LastOne(cs: seq<Change>)
    requires cs != []
    ensures Play(EMPTY, cs) == After(Play(EMPTY, cs[..|cs| - 1]), cs[|cs| - 1])
  {
    hide After;
  }

  ghost predicate AlwaysAgrees(cs: seq<Change>) { forall n :: 0 <= n <= |cs| ==> Agrees(Play(EMPTY, cs[..n])) }

  ghost predicate AlwaysHarmless(cs: seq<Change>) { forall n :: 0 <= n < |cs| ==>
                                                                  Harmless(Play(EMPTY, cs[..n]), cs[n]) }

  /** With deletions and stopped upserts as well: the totals are right all the time exactly when each change meets
      its guard. */
  lemma {:induction false} TotalsAgreeExactly(cs: seq<Change>)
    requires Run(cs)
    ensures AlwaysAgrees(cs) <==> AlwaysHarmless(cs)
  {
    hide After, Allowed, Agrees, Harmless, Play;
    if cs == [] {
      NothingRun();
      NothingYet();
      assert cs[..0] == [];
    } else {
      var before, m := cs[..|cs| - 1], |cs| - 1;
      RunBefore(cs);
      TotalsAgreeExactly(before);
      assert cs[..|cs|] == cs && before[..m] == before;
      assert forall n :: 0 <= n <= m ==> before[..n] == cs[..n];
      assert AlwaysAgrees(cs) <==> AlwaysAgrees(before) && Agrees(Play(EMPTY, cs));
      assert AlwaysHarmless(cs) <==> AlwaysHarmless(before) && Harmless(Play(EMPTY, before), cs[m]);
      if AlwaysAgrees(before) {
        assert Agrees(Play(EMPTY, before[..m]));
        ChangeAgreesExactly(Play(EMPTY, before), cs[m]);
        LastOne(cs);
      }
    }
  }

  lemma MergedNone(s: Social, survivor: Id)
    ensures Merged(s, survivor, {}) == s
  {
    var m := Merged(s, survivor, {});
    assert m.reviews == s.reviews && m.favorites == s.favorites && m.listings == s.listings;
    assert m.records == s.records && m.names == s.names;
  }

  lemma UpsertNames(s: Social, c: Change)
    requires c.Upsert?
    ensures After(s, c).names == Renamed(Merged(s, c.survivor, c.dups).names, c.keys, Alias(c.survivor, c.uri))
    ensures After(s, c).records == Gathered(s, c.uri, c.store, c.survivor, c.dups).records
  {
    hide Recomputed, Recount;
    RecomputedNames(Gathered(s, c.uri, c.store, c.survivor, c.dups), c.survivor, c.atstore);
  }

  lemma NothingRun()
    ensures Run([]) && Play(EMPTY, []) == EMPTY
  {
  }

  lemma OneMore(cs: seq<Change>, c: Change)
    requires Run(cs) && Allowed(Play(EMPTY, cs), c)
    ensures Run(cs + [c]) && Play(EMPTY, cs + [c]) == After(Play(EMPTY, cs), c)
  {
    hide Allowed, After;
    assert (cs + [c])[..|cs|] == cs && cs[..|cs|] == cs;
    forall n | 0 <= n < |cs| ensures (cs + [c])[..n] == cs[..n] { }
  }

  // ---------------------------------------------------------------- what a posted or deleted row leaves

  lemma Quotient(a: real, n: real)
    requires n != 0.0
    ensures a / n * n == a
  {
  }

  /** The sum of the ratings, as the stored average and count give it. */
  ghost function Weight(t: Totals): real { t.average.GetOr(0.0) * t.reviews as real }

  lemma WeightIsSum(s: Social, id: Id)
    ensures Weight(Recount(s, id)) == Sum(s.reviews, ReviewsOf(s.reviews, id)) as real
  {
    var us := ReviewsOf(s.reviews, id);
    if us != {} { Quotient(Sum(s.reviews, us) as real, |us| as real); }
  }

  /** Nothing else than this review and the totals of listings differs. */
  ghost predicate OnlyReview(s: Social, t: Social, uri: Uri) {
    && t.reviews.Keys == s.reviews.Keys + {uri}
    && (forall u :: u in s.reviews && u != uri ==> t.reviews[u] == s.reviews[u])
    && t.favorites == s.favorites && t.records == s.records && t.names == s.names && OnlyTotals(s, t)
  }

  ghost predicate OnlyFavorite(s: Social, t: Social, uri: Uri) {
    && t.favorites.Keys == s.favorites.Keys + {uri}
    && (forall u :: u in s.favorites && u != uri ==> t.favorites[u] == s.favorites[u])
    && t.reviews == s.reviews && t.records == s.records && t.names == s.names && OnlyTotals(s, t)
  }

  ghost predicate OnlyTotals(s: Social, t: Social) {
    && t.listings.Keys == s.listings.Keys
    && forall i :: i in s.listings ==>
                     t.listings[i].live == s.listings[i].live && t.listings[i].atstore == s.listings[i].atstore
  }

  /** These totals count the listing's live rows of `s` other than the review `uri`, and `added` as its rating. */
  ghost predicate CountsReview(t: Totals, s: Social, i: Id, uri: Uri, added: Option<int>) {
    var rest := ReviewsOf(s.reviews, i) - {uri};
    && t.reviews == |rest| + (if added.Some? then 1 else 0)
    && (t.average.None? <==> t.reviews == 0)
    && Weight(t) == (Sum(s.reviews, rest) + added.GetOr(0)) as real
    && t.favorites == |FansOf(s.favorites, i)|
  }

  ghost predicate CountsFavorite(t: Totals, s: Social, i: Id, uri: Uri, added: bool) {
    && t.favorites == |FansOf(s.favorites, i) - {uri}| + (if added then 1 else 0)
    && t.reviews == |ReviewsOf(s.reviews, i)| && (t.average.None? <==> t.reviews == 0)
    && Weight(t) == Sum(s.reviews, ReviewsOf(s.reviews, i)) as real
  }

  /** A review has been posted: the row says what was given, is live, and is counted where its subject was found and
      nowhere else; where it was filed before, it no longer counts. */
  ghost predicate ReviewPosted(s: Social, t: Social, uri: Uri, subject: Uri, listing: Option<Id>, rating: int) {
    && OnlyReview(s, t, uri) && t.reviews[uri] == Review(subject, listing, rating, true)
    && (forall i: Id :: uri in ReviewsOf(t.reviews, i) <==> listing == Some(i))
    && (forall i :: i in s.listings ==>
                      if listing == Some(i) then CountsReview(t.listings[i].totals, s, i, uri, Some(rating))
                      else if ReviewedListing(s, uri) == Some(i)
                          then CountsReview(t.listings[i].totals, s, i, uri, None)
                      else t.listings[i].totals == s.listings[i].totals)
  }

  /** A review has been deleted: the row stays, with all it says, but is no longer live, and no listing counts it. */
  ghost predicate ReviewDropped(s: Social, t: Social, uri: Uri) {
    if uri !in s.reviews then t == s
    else
      var r := s.reviews[uri];
      && OnlyReview(s, t, uri) && t.reviews[uri] == Review(r.subject, r.listing, r.rating, false)
      && (forall i: Id :: uri !in ReviewsOf(t.reviews, i))
      && (forall i :: i in s.listings ==>
                        if r.listing == Some(i) then CountsReview(t.listings[i].totals, s, i, uri, None)
                        else t.listings[i].totals == s.listings[i].totals)
  }

  ghost predicate FavoritePosted(s: Social, t: Social, uri: Uri, subject: Uri, listing: Option<Id>) {
    && OnlyFavorite(s, t, uri) && t.favorites[uri] == Favorite(subject, listing, true)
    && (forall i: Id :: uri in FansOf(t.favorites, i) <==> listing == Some(i))
    && (forall i :: i in s.listings ==>
                      if listing == Some(i) then CountsFavorite(t.listings[i].totals, s, i, uri, true)
                      else if FavoredListing(s, uri) == Some(i)
                           then CountsFavorite(t.listings[i].totals, s, i, uri, false)
                      else t.listings[i].totals == s.listings[i].totals)
  }

  ghost predicate FavoriteDropped(s: Social, t: Social, uri: Uri) {
    if uri !in s.favorites then t == s
    else
      var f := s.favorites[uri];
      && OnlyFavorite(s, t, uri) && t.favorites[uri] == Favorite(f.subject, f.listing, false)
      && (forall i: Id :: uri !in FansOf(t.favorites, i))
      && (forall i :: i in s.listings ==>
                        if f.listing == Some(i) then CountsFavorite(t.listings[i].totals, s, i, uri, false)
                        else t.listings[i].totals == s.listings[i].totals)
  }

  lemma RatingsWith(reviews: map<Uri, Review>, uri: Uri, r: Review, i: Id)
    ensures var rest, after := ReviewsOf(reviews, i) - {uri}, ReviewsOf(reviews[uri := r], i);
            var counts := r.live && r.listing == Some(i);
            && |after| == |rest| + (if counts then 1 else 0)
            && Sum(reviews[uri := r], after) == Sum(reviews, rest) + (if counts then r.rating else 0)
  {
    var rest, after := ReviewsOf(reviews, i) - {uri}, ReviewsOf(reviews[uri := r], i);
    SumFrame(reviews, reviews[uri := r], rest);
    if r.live && r.listing == Some(i) {
      assert after == rest + {uri};
      assert after - {uri} == rest;
      SumAny(reviews[uri := r], after, uri);
    } else {
      assert after == rest;
    }
  }

  lemma RecountWithReview(s: Social, uri: Uri, r: Review, i: Id)
    ensures var t := s.(reviews := s.reviews[uri := r]);
            CountsReview(Recount(t, i), s, i, uri, if r.live && r.listing == Some(i) then Some(r.rating) else None)
  {
    hide Sum, ReviewsOf, FansOf, Weight;
    var t := s.(reviews := s.reviews[uri := r]);
    RatingsWith(s.reviews, uri, r, i);
    WeightIsSum(t, i);
  }

  lemma FansWith(favorites: map<Uri, Favorite>, uri: Uri, f: Favorite, i: Id)
    ensures |FansOf(favorites[uri := f], i)| ==
            |FansOf(favorites, i) - {uri}| + (if f.live && f.listing == Some(i) then 1 else 0)
  {
    var rest := FansOf(favorites, i) - {uri};
    assert FansOf(favorites[uri := f], i) == if f.live && f.listing == Some(i) then rest + {uri} else rest;
  }

  lemma RecountWithFavorite(s: Social, uri: Uri, f: Favorite, i: Id)
    ensures var t := s.(favorites := s.favorites[uri := f]);
            CountsFavorite(Recount(t, i), s, i, uri, f.live && f.listing == Some(i))
  {
    hide Sum, ReviewsOf, FansOf, Weight;
    FansWith(s.favorites, uri, f, i);
    WeightIsSum(s.(favorites := s.favorites[uri := f]), i);
  }

  /** Posting and deleting do what they say. */
  lemma PostedAndDropped(s: Social, c: Change)
    ensures c.PostReview? ==> ReviewPosted(s, After(s, c), c.uri, c.subject, c.listing, c.rating)
    ensures c.DropReview? ==> ReviewDropped(s, After(s, c), c.uri)
    ensures c.PostFavorite? ==> FavoritePosted(s, After(s, c), c.uri, c.subject, c.listing)
    ensures c.DropFavorite? ==> FavoriteDropped(s, After(s, c), c.uri)
  {
    hide Refresh, OnlyReview, OnlyFavorite;
    if c.PostReview? || (c.DropReview? && c.uri in s.reviews) { ReviewChanges(s, c); }
    if c.PostFavorite? || (c.DropFavorite? && c.uri in s.favorites) { FavoriteChanges(s, c); }
  }

  lemma ReviewChanges(s: Social, c: Change)
    requires c.PostReview? || (c.DropReview? && c.uri in s.reviews)
    ensures c.PostReview? ==> ReviewPosted(s, After(s, c), c.uri, c.subject, c.listing, c.rating)
    ensures c.DropReview? ==> ReviewDropped(s, After(s, c), c.uri)
  {
    hide Recount, CountsReview;
    var r := if c.PostReview? then Review(c.subject, c.listing, c.rating, true) else s.reviews[c.uri].(live := false);
    var t := s.(reviews := s.reviews[c.uri := r]);
    forall i: Id
      ensures CountsReview(Recount(t, i), s, i, c.uri, if r.live && r.listing == Some(i) then Some(r.rating) else None)
    {
      RecountWithReview(s, c.uri, r, i);
    }
  }

  lemma FavoriteChanges(s: Social, c: Change)
    requires c.PostFavorite? || (c.DropFavorite? && c.uri in s.favorites)
    ensures c.PostFavorite? ==> FavoritePosted(s, After(s, c), c.uri, c.subject, c.listing)
    ensures c.DropFavorite? ==> FavoriteDropped(s, After(s, c), c.uri)
  {
    hide Recount, CountsFavorite;
    var f := if c.PostFavorite? then Favorite(c.subject, c.listing, true) else s.favorites[c.uri].(live := false);
    var t := s.(favorites := s.favorites[c.uri := f]);
    forall i: Id ensures CountsFavorite(Recount(t, i), s, i, c.uri, f.live && f.listing == Some(i)) {
      RecountWithFavorite(s, c.uri, f, i);
    }
  }

  /** The totals count the listing's live rows. */
  ghost predicate CountsRows(t: Totals, s: Social, i: Id) {
    && t.reviews == |ReviewsOf(s.reviews, i)| && (t.average.None? <==> t.reviews == 0)
    && Weight(t) == Sum(s.reviews, ReviewsOf(s.reviews, i)) as real && t.favorites == |FansOf(s.favorites, i)|
  }

  /** The live reviews about that ATStore record are filed under the listing, and no other review has moved. */
  ghost predicate ReviewsClaimed(rs: map<Uri, Review>, rs': map<Uri, Review>, id: Id, atstore: Option<Uri>) {
    && rs'.Keys == rs.Keys
    && forall u :: u in rs ==>
                     && (rs'[u].subject, rs'[u].rating, rs'[u].live) == (rs[u].subject, rs[u].rating, rs[u].live)
                     && rs'[u].listing == if rs[u].live && atstore == Some(rs[u].subject) then Some(id)
                                          else rs[u].listing
  }

  ghost predicate FavoritesClaimed(fs: map<Uri, Favorite>, fs': map<Uri, Favorite>, id: Id, atstore: Option<Uri>) {
    && fs'.Keys == fs.Keys
    && forall u :: u in fs ==>
                     && (fs'[u].subject, fs'[u].live) == (fs[u].subject, fs[u].live)
                     && fs'[u].listing == if fs[u].live && atstore == Some(fs[u].subject) then Some(id)
                                          else fs[u].listing
  }

  /** Another live record is filed under the listing. */
  ghost predicate HasOtherDraft(s: Social, uri: Uri, id: Id) {
    exists u :: u in s.records && u != uri && s.records[u].live && s.records[u].listing == id
  }

  /** A record has been deleted: it stays, but is no longer live, and the aliases that it was the last to write are
      gone.  Its listing goes on with its other drafts, claiming the rows about its ATStore record, or is deleted with
      its last one.  No other listing changes. */
  ghost predicate RecordDropped(s: Social, t: Social, uri: Uri, atstore: Option<Uri>) {
    && (forall k :: k in t.names <==> k in s.names && s.names[k].source != uri)
    && (forall k :: k in t.names ==> t.names[k] == s.names[k])
    && t.records.Keys == s.records.Keys && (forall u :: u in s.records && u != uri ==> t.records[u] == s.records[u])
    && if uri !in s.records then t.reviews == s.reviews && t.favorites == s.favorites && t.listings == s.listings
       else
         var id := s.records[uri].listing;
         && t.records[uri] == Record(id, false, s.records[uri].store)
         && (forall i :: i != id ==> (i in t.listings <==> i in s.listings)
                                     && (i in s.listings ==> t.listings[i] == s.listings[i]))
         && if HasOtherDraft(s, uri, id)
            then && ReviewsClaimed(s.reviews, t.reviews, id, atstore)
                 && FavoritesClaimed(s.favorites, t.favorites, id, atstore)
                 && id in t.listings && t.listings[id].live && t.listings[id].atstore == atstore
                 && CountsRows(t.listings[id].totals, t, id)
            else && t.reviews == s.reviews && t.favorites == s.favorites && (id in t.listings <==> id in s.listings)
                 && (id in s.listings ==> t.listings[id] == s.listings[id].(live := false))
  }

  lemma RecountCounts(s: Social, i: Id)
    ensures CountsRows(Recount(s, i), s, i)
  {
    WeightIsSum(s, i);
  }

  lemma OtherDraft(s: Social, uri: Uri, id: Id)
    ensures HasDrafts(Unnamed(s, uri), id) <==> HasOtherDraft(s, uri, id)
  {
    var t := Unnamed(s, uri);
    if u :| u in s.records && u != uri && s.records[u].live && s.records[u].listing == id {
      assert u in t.records && t.records[u] == s.records[u];
    }
  }

  lemma LinkedRows(s: Social, id: Id, atstore: Option<Uri>)
    ensures ReviewsClaimed(s.reviews, Linked(s, id, atstore).reviews, id, atstore)
    ensures FavoritesClaimed(s.favorites, Linked(s, id, atstore).favorites, id, atstore)
  {
  }

  lemma LinkedListings(s: Social, id: Id, atstore: Option<Uri>)
    ensures var t := Refresh(Linked(s, id, atstore), {id});
            && t.reviews == Linked(s, id, atstore).reviews && t.favorites == Linked(s, id, atstore).favorites
            && t.records == s.records && t.names == s.names
            && (forall i :: i != id ==> (i in t.listings <==> i in s.listings)
                                        && (i in s.listings ==> t.listings[i] == s.listings[i]))
            && id in t.listings && t.listings[id].live && t.listings[id].atstore == atstore
            && CountsRows(t.listings[id].totals, t, id)
  {
    hide Recount, CountsRows;
    var t := Linked(s, id, atstore);
    RecountCounts(t, id);
    SameCounts(t, Refresh(t, {id}), id);
  }

  lemma UnnamedLeaves(s: Social, uri: Uri)
    ensures var t := Unnamed(s, uri);
            && (forall k :: k in t.names <==> k in s.names && s.names[k].source != uri)
            && (forall k :: k in t.names ==> t.names[k] == s.names[k])
            && t.records.Keys == s.records.Keys && (forall u :: u in s.records && u != uri ==>
                t.records[u] == s.records[u])
            && (uri in s.records ==> t.records[uri] == Record(s.records[uri].listing, false, s.records[uri].store))
  {
  }

  /** Deleting a record does what it says. */
  lemma RetractedRecord(s: Social, uri: Uri, atstore: Option<Uri>)
    ensures RecordDropped(s, After(s, Retract(uri, atstore)), uri, atstore)
  {
    hide Refresh, Linked, CountsRows, HasDrafts, HasOtherDraft, ReviewsClaimed, FavoritesClaimed, Unnamed;
    OnlyUnnamed(s, uri);
    UnnamedLeaves(s, uri);
    if uri in s.records {
      var id := s.records[uri].listing;
      OtherDraft(s, uri, id);
      LinkedRows(Unnamed(s, uri), id, atstore);
      LinkedListings(Unnamed(s, uri), id, atstore);
    }
  }

  lemma SameCounts(s: Social, t: Social, i: Id)
    requires t.reviews == s.reviews && t.favorites == s.favorites
    ensures CountsRows(Recount(s, i), s, i) ==> CountsRows(Recount(s, i), t, i)
  {
  }

  /** So where the totals were right, deleting a live row takes exactly that row out of them. */
  lemma DeletedRowIsUncounted(s: Social, t: Social, uri: Uri, id: Id)
    requires Agrees(s) && id in s.listings && s.listings[id].live
    ensures uri in ReviewsOf(s.reviews, id) && ReviewDropped(s, t, uri) ==>
              && t.listings[id].totals.reviews == s.listings[id].totals.reviews - 1
              && Weight(t.listings[id].totals) == Weight(s.listings[id].totals) - s.reviews[uri].rating as real
              && t.listings[id].totals.favorites == s.listings[id].totals.favorites
    ensures uri in FansOf(s.favorites, id) && FavoriteDropped(s, t, uri) ==>
              && t.listings[id].totals.favorites == s.listings[id].totals.favorites - 1
              && t.listings[id].totals.reviews == s.listings[id].totals.reviews
              && Weight(t.listings[id].totals) == Weight(s.listings[id].totals)
  {
    WeightIsSum(s, id);
    if uri in ReviewsOf(s.reviews, id) { SumAny(s.reviews, ReviewsOf(s.reviews, id), uri); }
  }

  lemma NewReviewSum(reviews: map<Uri, Review>, uri: Uri, r: Review, id: Id)
    requires uri !in reviews && r.live && r.listing == Some(id)
    ensures ReviewsOf(reviews[uri := r], id) == ReviewsOf(reviews, id) + {uri}
    ensures Sum(reviews[uri := r], ReviewsOf(reviews[uri := r], id)) == Sum(reviews, ReviewsOf(reviews, id)) + r.rating
  {
    var before, after := ReviewsOf(reviews, id), ReviewsOf(reviews[uri := r], id);
    assert after == before + {uri};
    assert after - {uri} == before;
    SumAny(reviews[uri := r], after, uri);
    SumFrame(reviews, reviews[uri := r], before);
  }

  /** A new review moves the average as it should: its weight, the average times the count, grows by the rating. */
  lemma NewReviewMovesAverage(s: Social, c: Change, id: Id)
    requires Agrees(s) && c.PostReview? && c.uri !in s.reviews && c.listing == Some(id) && id in s.listings
             && s.listings[id].live
    ensures var a, b := s.listings[id].totals, After(s, c).listings[id].totals;
            b.reviews == a.reviews + 1 && b.favorites == a.favorites && Weight(b) == Weight(a) + c.rating as real
  {
    var t := s.(reviews := s.reviews[c.uri := Review(c.subject, c.listing, c.rating, true)]);
    NewReviewSum(s.reviews, c.uri, t.reviews[c.uri], id);
    WeightIsSum(s, id);
    WeightIsSum(t, id);
    assert After(s, c).listings[id].totals == Recount(t, id);
  }
}
