/** The statements that post and delete reviews, favorites and records, merge listings, and update totals in batches. */
module AppCountersStore {
  import opened Wrappers
  import opened AppCounters

  const BATCH_SIZE: nat := 50

  function Somes(xs: seq<Option<Id>>): set<Id> { set x | x in xs && x.Some? :: x.value }

  /** Updating some listings and then others is updating them all. */
  lemma RefreshTwice(s: Social, a: set<Id>, b: set<Id>)
    ensures Refresh(Refresh(s, a), b) == Refresh(s, a + b)
  {
    var l, r := Refresh(Refresh(s, a), b), Refresh(s, a + b);
    forall i | i in l.listings ensures l.listings[i] == r.listings[i] {
      assert Recount(Refresh(s, a), i) == Recount(s, i);
    }
  }

  lemma RefreshNone(s: Social)
    ensures Refresh(s, {}) == s
  {
    assert Refresh(s, {}).listings == s.listings;
  }

  function Members(ids: seq<Id>): set<Id> { set i | i in ids }

  ghost function OneByOne(s: Social, ids: seq<Id>): Social
    decreases |ids|
  {
    if ids == [] then s else OneByOne(Refresh(s, {ids[0]}), ids[1..])
  }

  /** Updating the listings one at a time, in any order and with repetitions, gives what one batch gives. */
  lemma {:induction false} OneByOneIsBatch(s: Social, ids: seq<Id>)
    ensures OneByOne(s, ids) == Refresh(s, Members(ids))
    decreases |ids|
  {
    hide Refresh;
    if ids == [] {
      RefreshNone(s);
      assert Members(ids) == {};
    } else {
      OneByOneIsBatch(Refresh(s, {ids[0]}), ids[1..]);
      var rest := Members(ids[1..]);
      RefreshTwice(s, {ids[0]}, rest);
      assert ids == [ids[0]] + ids[1..];
      assert Members(ids) == {ids[0]} + rest;
    }
  }

  /** Each column moves on its own. */
  lemma MergedByColumn(s: Social, t: Social, survivor: Id, dups: set<Id>)
    ensures var m, n := Merged(s, survivor, dups), Merged(t, survivor, dups);
            && (t.reviews == s.reviews ==> n.reviews == m.reviews)
            && (t.favorites == s.favorites ==> n.favorites == m.favorites)
            && (t.listings == s.listings ==> n.listings == m.listings)
  {
  }

  lemma RowsOneMore(s: Social, survivor: Id, dups: set<Id>, dup: Id)
    requires survivor !in dups && survivor != dup
    ensures var l, r := Merged(Merged(s, survivor, dups), survivor, {dup}), Merged(s, survivor, dups + {dup});
            l.reviews == r.reviews && l.favorites == r.favorites
  {
  }

  lemma TablesOneMore(s: Social, survivor: Id, dups: set<Id>, dup: Id)
    requires survivor !in dups && survivor != dup
    ensures var l, r := Merged(Merged(s, survivor, dups), survivor, {dup}), Merged(s, survivor, dups + {dup});
            l.listings == r.listings && l.records == r.records && l.names == r.names
  {
  }

  /** Merging one more duplicate. */
  lemma MergedOneMore(s: Social, survivor: Id, dups: set<Id>, dup: Id)
    requires survivor !in dups && survivor != dup
    ensures Merged(Merged(s, survivor, dups), survivor, {dup}) == Merged(s, survivor, dups + {dup})
  {
    hide Merged;
    RowsOneMore(s, survivor, dups, dup);
    TablesOneMore(s, survivor, dups, dup);
  }

  class Store {
    var reviews: map<Uri, Review>
    var favorites: map<Uri, Favorite>
    var listings: map<Id, Entry>
    var records: map<Uri, Record>
    var names: map<Key, Alias>

    constructor ()
      ensures Now() == EMPTY
    {
      reviews, favorites, listings, records, names := map[], map[], map[], map[], map[];
    }

    function Now(): Social
      reads this
    {
      Social(reviews, favorites, listings, records, names)
    }

    /** COUNT and AVG, adding the ratings up in whatever order the rows come. */
    method Tally(id: Id) returns (t: Totals)
      ensures t == Recount(Now(), id)
    {
      var rest := ReviewsOf(reviews, id);
      ghost var all := rest;
      var sum, count: nat := 0, 0;
      while rest != {}
        invariant rest <= reviews.Keys
        invariant sum + Sum(reviews, rest) == Sum(reviews, all) && count + |rest| == |all|
        decreases rest
      {
        var u :| u in rest;
        SumAny(reviews, rest, u);
        sum, count, rest := sum + reviews[u].rating, count + 1, rest - {u};
      }
      t := Totals(count, if count == 0 then None else Some(sum as real / count as real), |FansOf(favorites, id)|);
    }

    /** One UPDATE for a batch of listings, from totals that were all read before it. */
    method UpdateBatch(ids: seq<Id>)
      modifies `listings
      ensures Now() == Refresh(old(Now()), Members(ids))
    {
      var states: map<Id, Totals> := map[];
      for n := 0 to |ids|
        invariant states.Keys == Members(ids[..n])
        invariant forall i :: i in states ==> states[i] == Recount(Now(), i)
        invariant unchanged(`listings)
      {
        assert ids[..n + 1] == ids[..n] + [ids[n]];
        var t := Tally(ids[n]);
        states := states[ids[n] := t];
      }
      assert ids[..|ids|] == ids;
      listings := map i | i in listings :: if i in states then listings[i].(totals := states[i]) else listings[i];
      assert listings == Refresh(old(Now()), Members(ids)).listings;
    }

    method UpdateAggregatesForIds(listingIds: seq<Option<Id>>)
      modifies `listings
      ensures Now() == Refresh(old(Now()), Somes(listingIds))
    {
      var ids: seq<Id> := [];
      for n := 0 to |listingIds|
        invariant forall i :: i in ids <==> i in Somes(listingIds[..n])
      {
        assert listingIds[..n + 1] == listingIds[..n] + [listingIds[n]];
        if listingIds[n].Some? && listingIds[n].value !in ids { ids := ids + [listingIds[n].value]; }
      }
      assert listingIds[..|listingIds|] == listingIds;
      var start := 0;
      RefreshNone(Now());
      while start < |ids|
        invariant start <= |ids|
        invariant Now() == Refresh(old(Now()), Members(ids[..start]))
      {
        var end := if start + BATCH_SIZE < |ids| then start + BATCH_SIZE else |ids|;
        RefreshTwice(old(Now()), Members(ids[..start]), Members(ids[start..end]));
        assert ids[..end] == ids[..start] + ids[start..end];
        UpdateBatch(ids[start..end]);
        start := end;
      }
      assert ids[..|ids|] == ids;
      assert Members(ids) == Somes(listingIds);
    }

    /** SELECT … WHERE atstore_listing_uri = ? LIMIT 1, over deleted rows as well. */
    method FindListingByAtstoreUri(uri: Uri) returns (listing: Option<Id>)
      ensures Looked(Now(), uri, listing)
    {
      var todo := listings.Keys;
      while todo != {}
        invariant todo <= listings.Keys
        invariant forall i :: i in listings && i !in todo ==> listings[i].atstore != Some(uri)
        decreases todo
      {
        var i :| i in todo;
        if listings[i].atstore == Some(uri) { return Some(i); }
        todo := todo - {i};
      }
      listing := None;
    }

    method UpsertAppReview(uri: Uri, subject: Uri, rating: int) returns (listing: Option<Id>)
      modifies this
      ensures Looked(old(Now()), subject, listing)
      ensures Now() == After(old(Now()), PostReview(uri, subject, listing, rating))
      ensures ReviewPosted(old(Now()), Now(), uri, subject, listing, rating)
    {
      hide Refresh, ReviewPosted;
      var previous := if uri in reviews then reviews[uri].listing else None;
      listing := FindListingByAtstoreUri(subject);
      reviews := reviews[uri := Review(subject, listing, rating, true)];
      UpdateAggregatesForIds([previous, listing]);
      assert Somes([previous, listing]) == Ids(previous, listing);
      PostedAndDropped(old(Now()), PostReview(uri, subject, listing, rating));
    }

    method DeleteAppReview(uri: Uri)
      modifies this
      ensures Now() == After(old(Now()), DropReview(uri))
      ensures ReviewDropped(old(Now()), Now(), uri)
    {
      hide Refresh, ReviewDropped;
      PostedAndDropped(Now(), DropReview(uri));
      if uri !in reviews { return; }
      var listing := reviews[uri].listing;
      reviews := reviews[uri := reviews[uri].(live := false)];
      UpdateAggregatesForIds([listing]);
      assert Somes([listing]) == Ids(listing, None);
    }

    method UpsertAppFavorite(uri: Uri, subject: Uri) returns (listing: Option<Id>)
      modifies this
      ensures Looked(old(Now()), subject, listing)
      ensures Now() == After(old(Now()), PostFavorite(uri, subject, listing))
      ensures FavoritePosted(old(Now()), Now(), uri, subject, listing)
    {
      hide Refresh, FavoritePosted;
      var previous := if uri in favorites then favorites[uri].listing else None;
      listing := FindListingByAtstoreUri(subject);
      favorites := favorites[uri := Favorite(subject, listing, true)];
      UpdateAggregatesForIds([previous, listing]);
      assert Somes([previous, listing]) == Ids(previous, listing);
      PostedAndDropped(old(Now()), PostFavorite(uri, subject, listing));
    }

    method DeleteAppFavorite(uri: Uri)
      modifies this
      ensures Now() == After(old(Now()), DropFavorite(uri))
      ensures FavoriteDropped(old(Now()), Now(), uri)
    {
      hide Refresh, FavoriteDropped;
      PostedAndDropped(Now(), DropFavorite(uri));
      if uri !in favorites { return; }
      var listing := favorites[uri].listing;
      favorites := favorites[uri := favorites[uri].(live := false)];
      UpdateAggregatesForIds([listing]);
      assert Somes([listing]) == Ids(listing, None);
    }

    // -------------------------------------------------------------- records

    method MoveSocialRows(survivor: Id, dup: Id)
      modifies `reviews, `favorites
      ensures var m := Merged(old(Now()), survivor, {dup}); reviews == m.reviews && favorites == m.favorites
    {
      reviews := map u | u in reviews ::
        if u in reviews && reviews[u].listing == Some(dup) then reviews[u].(listing := Some(survivor)) else reviews[u];
      favorites := map u | u in favorites ::
        if u in favorites && favorites[u].listing == Some(dup) then favorites[u].(listing := Some(survivor))
        else favorites[u];
    }

    method MoveRecords(survivor: Id, dup: Id)
      modifies `names, `records
      ensures var m := Merged(old(Now()), survivor, {dup}); names == m.names && records == m.records
    {
      names := map k | k in names ::
        if k in names && names[k].listing == dup then names[k].(listing := survivor) else names[k];
      records := map u | u in records ::
        if u in records && records[u].listing == dup then records[u].(listing := survivor) else records[u];
    }

    method MarkMerged(survivor: Id, dup: Id)
      modifies `listings
      ensures listings == Merged(old(Now()), survivor, {dup}).listings
    {
      if dup in listings { listings := listings[dup := listings[dup].(live := false)]; }
    }

    method MergeDuplicateListing(survivor: Id, dup: Id)
      modifies this
      ensures Now() == Merged(old(Now()), survivor, {dup})
    {
      hide Merged;
      ghost var s := Now();
      MoveRecords(survivor, dup);
      MergedByColumn(s, Now(), survivor, {dup});
      MoveSocialRows(survivor, dup);
      MergedByColumn(s, Now(), survivor, {dup});
      MarkMerged(survivor, dup);
    }

    method LinkAppSocialRecords(listing: Id, uri: Uri)
      modifies `reviews, `favorites
      ensures var t := Linked(old(Now()), listing, Some(uri)); reviews == t.reviews && favorites == t.favorites
    {
      reviews := map u | u in reviews ::
        if u in reviews && reviews[u].live && reviews[u].subject == uri then reviews[u].(listing := Some(listing))
        else reviews[u];
      favorites := map u | u in favorites ::
        if u in favorites && favorites[u].live && favorites[u].subject == uri
        then favorites[u].(listing := Some(listing)) else favorites[u];
    }

    /** `atstore` is what merging the listing's drafts gives. */
    method RecomputeListing(listing: Id, atstore: Option<Uri>)
      modifies this
      ensures Now() == Recomputed(old(Now()), listing, atstore)
    {
      var drafts := set u | u in records && records[u].live && records[u].listing == listing;
      if drafts == {} {
        assert forall u :: u in records && records[u].live && records[u].listing == listing ==> u in drafts;
        if listing in listings { listings := listings[listing := listings[listing].(live := false)]; }
        return;
      }
      ghost var u :| u in drafts;
      ghost var t := Linked(Now(), listing, atstore);
      listings := listings[listing := Entry(true, if listing in listings then listings[listing].totals
                                            else NO_TOTALS, atstore)];
      if atstore.Some? {
        LinkAppSocialRecords(listing, atstore.value);
      } else {
        assert reviews == t.reviews && favorites == t.favorites;
      }
      assert Now() == t;
      UpdateAggregatesForIds([Some(listing)]);
      assert Somes([Some(listing)]) == {listing};
    }

    /** `newId` is the new listing's id; `atstore` is what merging the survivor's drafts gives.  The first listing
        that a key names survives, the others are merged into it. */
    method UpsertAppRecord(uri: Uri, store: bool, keys: set<Key>, newId: Id,
                           atstore: Option<Uri>) returns (survivor: Id)
      modifies this
      ensures var found := Found(old(Now()), keys);
              && (if found == {} then survivor == newId else survivor in found)
              && Now() == After(old(Now()), Upsert(uri, store, keys, survivor, found - {survivor}, atstore))
    {
      hide Merged, Recomputed;
      var found := Found(Now(), keys);
      survivor := newId;
      if found != {} { survivor :| survivor in found; }
      var dups := found - {survivor};
      var todo := dups;
      MergedNone(Now(), survivor);
      assert dups - todo == {};
      while todo != {}
        invariant todo <= dups
        invariant Now() == Merged(old(Now()), survivor, dups - todo)
        decreases todo
      {
        var dup :| dup in todo;
        MergedOneMore(old(Now()), survivor, dups - todo, dup);
        assert dups - todo + {dup} == dups - (todo - {dup});
        MergeDuplicateListing(survivor, dup);
        todo := todo - {dup};
      }
      assert dups - todo == dups;
      records := records[uri := Record(survivor, true, store)];
      RecomputeListing(survivor, atstore);
      names := Renamed(names, keys, Alias(survivor, uri));
    }

    method DeleteAppRecord(uri: Uri, atstore: Option<Uri>)
      modifies this
      ensures Now() == After(old(Now()), Retract(uri, atstore))
      ensures RecordDropped(old(Now()), Now(), uri, atstore)
    {
      hide Recomputed, RecordDropped;
      RetractedRecord(Now(), uri, atstore);
      var listing := if uri in records then Some(records[uri].listing) else None;
      if uri in records { records := records[uri := records[uri].(live := false)]; }
      names := names - (set k | k in names && names[k].source == uri);
      if listing.Some? { RecomputeListing(listing.value, atstore); }
    }
  }
}
