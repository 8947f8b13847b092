/** The directory tables as the program changes them, statement by statement.  Each method is proved against the
    function of AppDirectory that says what it does to the tables. */
module AppDirectoryStore {
  import opened Wrappers
  import opened Slugs
  import opened AppDirectory
  import opened AppUpsertEffects

  /** The listings to merge away once the first `n` known listings have been looked at. */
  function DuplicatesUpTo(ids: seq<Id>, n: nat): set<Id>
    requires n <= |ids|
  {
    set i | i in ids[..n] && i != ids[0]
  }

  /** Merging duplicates one by one is merging them all at once. */
  lemma MergeOneMore(d: Directory, survivor: Id, done: set<Id>, dup: Id)
    requires survivor !in done && dup != survivor
    ensures Merge(Merge(d, survivor, done), survivor, {dup}) == Merge(d, survivor, done + {dup})
  {
    var d1 := Merge(Merge(d, survivor, done), survivor, {dup});
    var d2 := Merge(d, survivor, done + {dup});
    assert d1.aliases == d2.aliases;
    assert d1.records == d2.records;
    assert d1.listings == d2.listings;
  }

  lemma MergeNone(d: Directory, survivor: Id)
    ensures Merge(d, survivor, {}) == d
  {
    var d1 := Merge(d, survivor, {});
    assert d1.aliases == d.aliases && d1.records == d.records && d1.listings == d.listings;
  }

  lemma ClaimOneMore(aliases: map<Key, Id>, keys: seq<Key>, n: nat, id: Id)
    requires n < |keys|
    ensures Claim(aliases, keys[..n], id)[keys[n] := id] == Claim(aliases, keys[..n + 1], id)
  {
    assert keys[..n + 1] == keys[..n] + [keys[n]];
  }

  /** Each column moves on its own. */
  lemma MergedByColumn(d: Directory, e: Directory, survivor: Id, dup: Id)
    ensures e.records == d.records ==> Merge(e, survivor, {dup}).records == Merge(d, survivor, {dup}).records
    ensures e.listings == d.listings ==> Merge(e, survivor, {dup}).listings == Merge(d, survivor, {dup}).listings
  {
  }

  class Store {
    var aliases: map<Key, Id>
    var records: map<Uri, Id>
    var listings: map<Id, Row>

    constructor ()
      ensures Now() == EMPTY
    {
      aliases, records, listings := map[], map[], map[];
    }

    function Now(): Directory
      reads this
    {
      Directory(aliases, records, listings)
    }

    /** The listings already known under some of the aliases, each once, in whatever order the rows come. */
    method KnownListings(keys: seq<Key>) returns (ids: seq<Id>)
      ensures forall i :: i in ids <==> i in Found(aliases, keys)
      ensures forall i, j :: 0 <= i < j < |ids| ==> ids[i] != ids[j]
    {
      ids := [];
      var todo := set k | k in keys && k in aliases;
      while todo != {}
        invariant forall k :: k in todo ==> k in keys && k in aliases
        invariant forall k :: k in keys && k in aliases && k !in todo ==> aliases[k] in ids
        invariant forall i :: i in ids ==> i in Found(aliases, keys)
        invariant forall i, j :: 0 <= i < j < |ids| ==> ids[i] != ids[j]
        decreases todo
      {
        var k :| k in todo;
        todo := todo - {k};
        if aliases[k] !in ids { ids := ids + [aliases[k]]; }
      }
    }

    method MoveAliases(survivor: Id, dup: Id)
      modifies `aliases
      ensures aliases == Merge(old(Now()), survivor, {dup}).aliases
    {
      aliases := map k | k in aliases :: if k in aliases && aliases[k] == dup then survivor else aliases[k];
    }

    method MoveRecords(survivor: Id, dup: Id)
      modifies `records
      ensures records == Merge(old(Now()), survivor, {dup}).records
    {
      records := map u | u in records :: if u in records && records[u] == dup then survivor else records[u];
    }

    method MarkMerged(dup: Id)
      modifies `listings
      ensures forall survivor :: listings == Merge(old(Now()), survivor, {dup}).listings
    {
      if dup in listings { listings := listings[dup := listings[dup].(live := false)]; }
    }

    method MergeDuplicateListing(survivor: Id, dup: Id)
      modifies this
      ensures Now() == if survivor == dup then old(Now()) else Merge(old(Now()), survivor, {dup})
    {
      if survivor == dup { return; }
      hide Merge;
      ghost var d := Now();
      MoveAliases(survivor, dup);
      MergedByColumn(d, Now(), survivor, dup);
      MoveRecords(survivor, dup);
      MergedByColumn(d, Now(), survivor, dup);
      MarkMerged(dup);
    }

    method EnsureUniqueSlug(base: string, id: Id) returns (slug: string)
      ensures slug == UniqueSlug(Now(), base, id)
      ensures Taken(Now(), slug, id) ==> slug == Fallback(base, id)
      ensures Chosen(Now(), base, id, slug)
    {
      SlugIsChosen(Now(), base, id);
      hide Chosen;
      slug := base;
      for i := 2 to 50
        invariant slug == Candidate(base, i - 1)
        invariant FirstFree(Now(), base, id, 1) == FirstFree(Now(), base, id, i - 1)
      {
        if !Taken(Now(), slug, id) { return; }
        slug := base + "-" + Digits(i);
      }
      slug := Fallback(base, id);
    }

    /** `false`: it threw.  By then the old slug may have been reserved, but the listing has not moved. */
    method RecomputeListing(id: Id, base: string) returns (ok: bool)
      modifies this
      ensures match Recompute(old(Now()), id, base)
              case Some(d) => ok && Now() == d
              case None => !ok && records == old(records) && listings == old(listings)
                           && aliases == MoveTo(old(aliases), listings, id, UniqueSlug(old(Now()), base, id))
    {
      var slug := EnsureUniqueSlug(base, id);
      if id in listings && listings[id].slug != slug {
        var key := SlugKey(listings[id].slug);
        if key !in aliases { aliases := aliases[key := id]; }
        if aliases[key] != id { return false; }
      }
      if exists j :: j in listings && j != id && listings[j].slug == slug { return false; }
      listings := listings[id := Row(slug, true)];
      return true;
    }

    /** Merge every known listing into the first. */
    method MergeDuplicates(ids: seq<Id>)
      requires ids != []
      modifies this
      ensures Now() == Merge(old(Now()), ids[0], DuplicatesUpTo(ids, |ids|))
    {
      MergeNone(Now(), ids[0]);
      assert DuplicatesUpTo(ids, 1) == {};
      for n := 1 to |ids|
        invariant Now() == Merge(old(Now()), ids[0], DuplicatesUpTo(ids, n))
      {
        assert ids[..n + 1] == ids[..n] + [ids[n]];
        if ids[n] == ids[0] {
          assert DuplicatesUpTo(ids, n + 1) == DuplicatesUpTo(ids, n);
        } else {
          MergeOneMore(old(Now()), ids[0], DuplicatesUpTo(ids, n), ids[n]);
          assert DuplicatesUpTo(ids, n + 1) == DuplicatesUpTo(ids, n) + {ids[n]};
        }
        MergeDuplicateListing(ids[0], ids[n]);
      }
    }

    /** Lead every alias of the record to its listing. */
    method ClaimAliases(keys: seq<Key>, id: Id)
      modifies `aliases
      ensures aliases == Claim(old(aliases), keys, id)
    {
      for n := 0 to |keys|
        invariant aliases == Claim(old(aliases), keys[..n], id)
      {
        ClaimOneMore(old(aliases), keys, n, id);
        aliases := aliases[keys[n] := id];
      }
      assert keys[..|keys|] == keys;
    }

    /** `order` is the order in which the known listings came back.  Not `ok`: the call threw. */
    method UpsertAppRecordFromDraft(uri: Uri, keys: seq<Key>, newId: Id, base: string)
      returns (ok: bool, id: Id, ghost order: seq<Id>)
      modifies this
      ensures forall i :: i in order <==> i in Found(old(aliases), keys)
      ensures forall i, j :: 0 <= i < j < |order| ==> order[i] != order[j]
      ensures var u := Upsert(uri, keys, order, newId, base);
              id == Survivor(u) && Now() == Next(old(Now()), u) && ok == Apply(old(Now()), u).Some?
              && UpsertLeaves(old(Now()), u, Now(), ok)
    {
      hide UpsertLeaves;
      var ids := KnownListings(keys);
      order := ids;
      ghost var u := Upsert(uri, keys, ids, newId, base);
      EveryUpsertLeaves(Now(), u);
      id := if ids == [] then newId else ids[0];
      if ids != [] {
        MergeDuplicates(ids);
        assert ids[..|ids|] == ids;
        assert DuplicatesUpTo(ids, |ids|) == Duplicates(u);
      } else {
        assert Duplicates(u) == {};
        MergeNone(Now(), id);
      }
      records := records[uri := id];
      ok := RecomputeListing(id, base);
      if ok { ClaimAliases(keys, id); }
    }
  }
}
