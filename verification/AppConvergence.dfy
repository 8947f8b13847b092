/** Convergence: what a listing shows is decided by the records that were read, whatever order they came in. */
module AppConvergence {
  import opened Wrappers
  import opened Slugs
  import opened StableSort
  import opened AppDrafts
  import opened AppDirectory
  import opened AppPartition
  import opened AppIdentity
  import opened AppMerge

  /** The directory, the draft stored with each record, and the merged fields of each listing. */
  datatype Catalog = Catalog(d: Directory, drafts: map<Uri, Draft>, fields: map<Id, Listing>)

  const NOTHING := Catalog(EMPTY, map[], map[])

  /** One record is read: `order` and `newId` are as for an upsert, `rows` are the drafts of the surviving listing in
      the order in which the database returns them, and `now` is the clock. */
  datatype Arrival = Arrival(draft: Draft, order: seq<Id>, newId: Id, rows: seq<Draft>, now: int)

  function UpsertOf(a: Arrival, w: Web): Upsert
    requires a.rows != []
  {
    Upsert(a.draft.sourceUri, AliasesForDraft(a.draft, w), a.order, a.newId, MergeDrafts(a.rows, w, a.now).slug)
  }

  function UrisOf(records: map<Uri, Id>, i: Id): set<Uri> { set r | r in records && records[r] == i }

  /** The drafts of these records, each once, in some order. */
  ghost predicate Lists(rows: seq<Draft>, drafts: map<Uri, Draft>, uris: set<Uri>) {
    uris <= drafts.Keys && multiset(rows) == multiset(set r | r in uris :: drafts[r])
  }

  /** The records and drafts after the record has been written. */
  function Gathered(c: Catalog, a: Arrival, w: Web): map<Uri, Id>
    requires a.rows != []
  {
    var u := UpsertOf(a, w);
    Merge(c.d, Survivor(u), Duplicates(u)).records[u.uri := Survivor(u)]
  }

  ghost predicate Arrives(c: Catalog, a: Arrival, w: Web) {
    && a.rows != [] && Enabled(c.d, UpsertOf(a, w)) && Apply(c.d, UpsertOf(a, w)).Some?
    && Lists(a.rows, c.drafts[a.draft.sourceUri := a.draft], UrisOf(Gathered(c, a, w), Survivor(UpsertOf(a, w))))
  }

  function After(c: Catalog, a: Arrival, w: Web): Catalog
    requires a.rows != [] && Apply(c.d, UpsertOf(a, w)).Some?
  {
    var u := UpsertOf(a, w);
    Catalog(Apply(c.d, u).value, c.drafts[u.uri := a.draft], c.fields[Survivor(u) := MergeDrafts(a.rows, w, a.now)])
  }

  ghost predicate Reads(c: Catalog, arrivals: seq<Arrival>, w: Web, c': Catalog)
    decreases |arrivals|
  {
    if arrivals == [] then c' == c
    else Arrives(c, arrivals[0], w) && Reads(After(c, arrivals[0], w), arrivals[1..], w, c')
  }

  predicate HaveRows(arrivals: seq<Arrival>) { forall a :: a in arrivals ==> a.rows != [] }

  function UpsertsOf(arrivals: seq<Arrival>, w: Web): seq<Upsert>
    requires HaveRows(arrivals)
  {
    if arrivals == [] then [] else [UpsertOf(arrivals[0], w)] + UpsertsOf(arrivals[1..], w)
  }

  // ---------------------------------------------------------------- what a listing shows

  ghost predicate Shows(c: Catalog, w: Web, i: Id, rows: seq<Draft>, now: int) {
    && rows != [] && i in c.fields && c.fields[i] == MergeDrafts(rows, w, now)
    && Lists(rows, c.drafts, UrisOf(c.d.records, i))
  }

  /** Each live listing shows the merge of its records' drafts, as of some reading of the clock. */
  ghost predicate FieldsOk(c: Catalog, w: Web) {
    forall i :: i in c.d.listings && c.d.listings[i].live ==> exists rows, now :: Shows(c, w, i, rows, now)
  }

  ghost predicate DraftsOk(c: Catalog) {
    && c.drafts.Keys == c.d.records.Keys
    && (forall r :: r in c.drafts ==> c.drafts[r].sourceUri == r)
    && RecordsLive(c.d)
  }

  ghost predicate CatalogOk(edges: set<set<Key>>, c: Catalog, w: Web) {
    Partition(edges, c.d) && DraftsOk(c) && FieldsOk(c, w)
  }

  /** A listing that the keys do not name keeps its records. */
  lemma OthersKeepRecords(d: Directory, u: Upsert, i: Id)
    requires RecordsFollow(d) && Enabled(d, u) && Apply(d, u).Some? && i != Survivor(u) && i !in Duplicates(u)
    ensures UrisOf(Apply(d, u).value.records, i) == UrisOf(d.records, i) && u.uri !in UrisOf(d.records, i)
  {
    hide Apply;
    ApplyRelabels(d, u);
    assert i !in Found(d.aliases, u.keys) by { assert i in u.order <==> i in Found(d.aliases, u.keys); }
    assert u.uri in d.records ==> d.aliases[UriKey(u.uri)] in Found(d.aliases, u.keys);
  }

  lemma ListsFrame(rows: seq<Draft>, drafts: map<Uri, Draft>, drafts': map<Uri, Draft>, uris: set<Uri>)
    requires Lists(rows, drafts, uris) && forall r :: r in uris ==> r in drafts' && drafts'[r] == drafts[r]
    ensures Lists(rows, drafts', uris)
  {
    assert (set r | r in uris :: drafts[r]) == (set r | r in uris :: drafts'[r]);
  }

  lemma SurvivorShows(c: Catalog, a: Arrival, w: Web)
    requires Arrives(c, a, w)
    ensures Shows(After(c, a, w), w, Survivor(UpsertOf(a, w)), a.rows, a.now)
  {
    hide Apply, Enabled, MergeDrafts, Lists, Survivor, Merge;
    ApplyListings(c.d, UpsertOf(a, w));
  }

  lemma OtherShows(c: Catalog, a: Arrival, w: Web, i: Id, rows: seq<Draft>, now: int)
    requires Arrives(c, a, w) && Shows(c, w, i, rows, now) && RecordsFollow(c.d)
    requires i != Survivor(UpsertOf(a, w)) && i !in Duplicates(UpsertOf(a, w))
    ensures Shows(After(c, a, w), w, i, rows, now)
  {
    hide Apply, Enabled, MergeDrafts, Survivor, Duplicates, Merge, RecordsFollow;
    OthersKeepRecords(c.d, UpsertOf(a, w), i);
    ListsFrame(rows, c.drafts, After(c, a, w).drafts, UrisOf(c.d.records, i));
  }

  lemma ArrivalKeepsFields(c: Catalog, a: Arrival, w: Web)
    requires FieldsOk(c, w) && RecordsFollow(c.d) && Arrives(c, a, w)
    ensures FieldsOk(After(c, a, w), w)
  {
    hide Apply, Enabled, MergeDrafts, Survivor, Duplicates, Merge, RecordsFollow, Shows, Lists;
    var u, c' := UpsertOf(a, w), After(c, a, w);
    ApplyListings(c.d, u);
    forall i | i in c'.d.listings && c'.d.listings[i].live ensures exists rows, now :: Shows(c', w, i, rows, now) {
      if i == Survivor(u) {
        SurvivorShows(c, a, w);
      } else {
        var rows, now :| Shows(c, w, i, rows, now);
        OtherShows(c, a, w, i, rows, now);
      }
    }
  }

  ghost predicate RecordsLive(d: Directory) {
    forall r :: r in d.records ==> d.records[r] in d.listings && d.listings[d.records[r]].live
  }

  lemma StaysLive(d: Directory, u: Upsert, r: Uri)
    requires RecordsLive(d) && Enabled(d, u) && Apply(d, u).Some? && r in Apply(d, u).value.records
    ensures var t := Apply(d, u).value; t.records[r] in t.listings && t.listings[t.records[r]].live
  {
    FoundIsOrder(d, u);
    ApplyListings(d, u);
    ApplyRelabels(d, u);
    hide Apply, Enabled, Found, Duplicates, Survivor, Merge, Relabels;
    assert r in d.records ==> d.records[r] in d.listings;
  }

  lemma RecordsStayLive(d: Directory, u: Upsert)
    requires RecordsLive(d) && Enabled(d, u) && Apply(d, u).Some?
    ensures RecordsLive(Apply(d, u).value) && Apply(d, u).value.records.Keys == d.records.Keys + {u.uri}
  {
    hide Apply, Enabled, Relabels;
    UpsertRecords(d, u);
    forall r | r in Apply(d, u).value.records { StaysLive(d, u, r); }
  }

  lemma ArrivalKeepsDrafts(c: Catalog, a: Arrival, w: Web)
    requires DraftsOk(c) && Arrives(c, a, w)
    ensures DraftsOk(After(c, a, w))
  {
    hide Apply, Enabled, MergeDrafts, Lists, Gathered;
    RecordsStayLive(c.d, UpsertOf(a, w));
  }

  lemma ArrivalKeepsOk(edges: set<set<Key>>, c: Catalog, a: Arrival, w: Web)
    requires CatalogOk(edges, c, w) && Arrives(c, a, w)
    ensures CatalogOk(edges + {Edge(UpsertOf(a, w))}, After(c, a, w), w)
  {
    hide Apply, Enabled, Labels, RecordsFollow, FieldsOk, DraftsOk, MergeDrafts, Lists, Gathered, Edge;
    UpsertKeepsPartition(edges, c.d, UpsertOf(a, w));
    ArrivalKeepsDrafts(c, a, w);
    ArrivalKeepsFields(c, a, w);
  }

  lemma {:induction false} ReadsKeepOk(edges: set<set<Key>>, c: Catalog, arrivals: seq<Arrival>, w: Web, c': Catalog)
    requires CatalogOk(edges, c, w) && Reads(c, arrivals, w, c')
    ensures HaveRows(arrivals)
    ensures CatalogOk(edges + Edges(UpsertsOf(arrivals, w)), c', w)
    ensures Runs(c.d, UpsertsOf(arrivals, w), c'.d)
    decreases |arrivals|
  {
    hide Apply, Enabled, CatalogOk, MergeDrafts, Lists, Gathered, Edge, UpsertOf;
    if arrivals == [] {
      assert edges + Edges(UpsertsOf(arrivals, w)) == edges;
    } else {
      var a := arrivals[0];
      var u := UpsertOf(a, w);
      ArrivalKeepsOk(edges, c, a, w);
      ReadsKeepOk(edges + {Edge(u)}, After(c, a, w), arrivals[1..], w, c');
      var us := UpsertsOf(arrivals, w);
      assert arrivals == [a] + arrivals[1..];
      assert us[0] == u && us[1..] == UpsertsOf(arrivals[1..], w);
      assert edges + {Edge(u)} + Edges(us[1..]) == edges + Edges(us);
    }
  }

  // ---------------------------------------------------------------- two runs

  predicate SameFields(a: Listing, b: Listing) {
    a.(publishedAt := 0, updatedAt := 0) == b.(publishedAt := 0, updatedAt := 0)
  }

  /** The clock shows only where a draft lacks a date. */
  lemma ClockShowsInDates(rows: seq<Draft>, w: Web, now: int, later: int)
    requires rows != []
    ensures SameFields(MergeDrafts(rows, w, now), MergeDrafts(rows, w, later))
    ensures (forall x :: x in rows ==> x.createdAt.Some?) ==> MergeDrafts(rows, w, now) == MergeDrafts(rows, w, later)
  {
    var sorted := Sort(SourceDrafts(rows), ByPrecedence(w.collate));
    if forall x :: x in rows ==> x.createdAt.Some? {
      ContentIsDated(rows, w);
      DatesNeedNoClock(Content(sorted), now, later);
    }
  }

  lemma ContentIsDated(rows: seq<Draft>, w: Web)
    requires forall x :: x in rows ==> x.createdAt.Some?
    ensures forall x :: x in Content(Sort(SourceDrafts(rows), ByPrecedence(w.collate))) ==> x.createdAt.Some?
  {
    var sorted := Sort(SourceDrafts(rows), ByPrecedence(w.collate));
    SortItems(SourceDrafts(rows), ByPrecedence(w.collate));
    SameItems(sorted, SourceDrafts(rows));
    FilterMembers(rows, NotLocalDev);
    FilterMembers(sorted, IsAtstore);
  }

  lemma {:induction false} SortItems<T(!new)>(xs: seq<T>, cmp: (T, T) -> int)
    ensures multiset(Sort(xs, cmp)) == multiset(xs)
  {
    if xs != [] {
      SortItems(xs[1..], cmp);
      InsertItems(xs[0], Sort(xs[1..], cmp), cmp);
      assert xs == [xs[0]] + xs[1..];
    }
  }

  lemma {:induction false} DatesNeedNoClock(ds: seq<Draft>, now: int, later: int)
    requires ds != [] && forall x :: x in ds ==> x.createdAt.Some?
    ensures Earliest(ds, now) == Earliest(ds, later) && Latest(ds, now) == Latest(ds, later)
  {
    if |ds| > 1 { DatesNeedNoClock(ds[1..], now, later); }
  }

  /** The drafts of a catalog are told apart by their URIs, and by the collation. */
  ghost predicate UrisApart(c: Catalog, w: Web) {
    forall r, q :: r in c.drafts && q in c.drafts && w.collate(r, q) == 0 ==> r == q
  }

  lemma RowsAre(rows: seq<Draft>, drafts: map<Uri, Draft>, uris: set<Uri>)
    requires Lists(rows, drafts, uris)
    ensures forall x :: x in rows ==> x in drafts.Values
  {
    forall x | x in rows ensures x in drafts.Values {
      assert x in multiset(rows);
      assert x in (set r | r in uris :: drafts[r]);
    }
  }

  lemma RowsApart(c: Catalog, w: Web, rows: seq<Draft>, uris: set<Uri>)
    requires Lists(rows, c.drafts, uris) && UrisApart(c, w) && forall r :: r in c.drafts ==> c.drafts[r].sourceUri == r
    ensures DistinctUris(rows) && Separates(w.collate, rows)
  {
    RowsAre(rows, c.drafts, uris);
  }

  /** Two listings with the same drafts show the same. */
  lemma SameDraftsShowTheSame(c1: Catalog, c2: Catalog, w: Web, i1: Id, i2: Id)
    requires FieldsOk(c1, w) && FieldsOk(c2, w) && DraftsOk(c1) && c1.drafts == c2.drafts
    requires i1 in c1.d.listings && c1.d.listings[i1].live && i2 in c2.d.listings && c2.d.listings[i2].live
    requires UrisOf(c1.d.records, i1) == UrisOf(c2.d.records, i2)
    requires Consistent(w.collate) && UrisApart(c1, w)
    ensures i1 in c1.fields && i2 in c2.fields && SameFields(c1.fields[i1], c2.fields[i2])
    ensures (forall r :: r in c1.drafts ==> c1.drafts[r].createdAt.Some?) ==> c1.fields[i1] == c2.fields[i2]
  {
    var rows1, now1 :| Shows(c1, w, i1, rows1, now1);
    var rows2, now2 :| Shows(c2, w, i2, rows2, now2);
    RowsApart(c1, w, rows1, UrisOf(c1.d.records, i1));
    RowsAre(rows1, c1.drafts, UrisOf(c1.d.records, i1));
    hide MergeDrafts, FieldsOk, DraftsOk, Separates, DistinctUris, UrisApart;
    MergeIgnoresOrder(rows1, rows2, w, now2);
    ClockShowsInDates(rows1, w, now1, now2);
  }

  lemma CatalogIs(arrivals: seq<Arrival>, c: Catalog, w: Web)
    requires Reads(NOTHING, arrivals, w, c)
    ensures HaveRows(arrivals) && Runs(EMPTY, UpsertsOf(arrivals, w), c.d) && DraftsOk(c) && FieldsOk(c, w)
  {
    hide Reads, Runs, Partition, FieldsOk, DraftsOk, UpsertsOf, Edges;
    NothingIsOk(w);
    ReadsKeepOk({}, NOTHING, arrivals, w, c);
  }

  lemma SameGroup(us1: seq<Upsert>, d1: Directory, us2: seq<Upsert>, d2: Directory, r: Uri)
    requires Runs(EMPTY, us1, d1) && Runs(EMPTY, us2, d2) && Edges(us1) == Edges(us2)
    requires d1.records.Keys == d2.records.Keys && r in d1.records
    ensures UrisOf(d1.records, d1.records[r]) == UrisOf(d2.records, d2.records[r])
  {
    hide Runs, Edges;
    forall q | q in d1.records ensures d1.records[q] == d1.records[r] <==> d2.records[q] == d2.records[r] {
      OrderIndependence(us1, d1, us2, d2, q, r);
    }
  }

  /** The listings that show the record in the two catalogs have the same records and the same fields. */
  ghost predicate Converged(c1: Catalog, c2: Catalog, r: Uri) {
    && r in c1.d.records && r in c2.d.records
    && var i1, i2 := c1.d.records[r], c2.d.records[r];
    && UrisOf(c1.d.records, i1) == UrisOf(c2.d.records, i2)
    && i1 in c1.fields && i2 in c2.fields && SameFields(c1.fields[i1], c2.fields[i2])
    && ((forall q :: q in c1.drafts ==> c1.drafts[q].createdAt.Some?) ==> c1.fields[i1] == c2.fields[i2])
  }

  /** The convergence theorem.  Two runs that have upserted the same alias sets and hold the same drafts (in whatever
      order the records came, whatever ids were drawn, whichever listings survived) show every record in listings with
      the same records and the same fields, but for dates that no draft gives. */
  lemma ListingsConverge(as1: seq<Arrival>, c1: Catalog, as2: seq<Arrival>, c2: Catalog, w: Web, r: Uri)
    requires Reads(NOTHING, as1, w, c1) && Reads(NOTHING, as2, w, c2)
    requires HaveRows(as1) && HaveRows(as2) && Edges(UpsertsOf(as1, w)) == Edges(UpsertsOf(as2, w))
    requires c1.drafts == c2.drafts && r in c1.drafts && Consistent(w.collate) && UrisApart(c1, w)
    ensures Converged(c1, c2, r)
  {
    hide Reads, Edges, UpsertsOf, Runs, FieldsOk, SameFields, UrisApart, UrisOf, HaveRows;
    CatalogIs(as1, c1, w);
    CatalogIs(as2, c2, w);
    SameGroup(UpsertsOf(as1, w), c1.d, UpsertsOf(as2, w), c2.d, r);
    SameDraftsShowTheSame(c1, c2, w, c1.d.records[r], c2.d.records[r]);
  }

  // ---------------------------------------------------------------- the same records

  /** No record of the run was edited: each arrived with the draft that the catalog holds. */
  ghost predicate Unedited(arrivals: seq<Arrival>, c: Catalog) {
    forall a :: a in arrivals ==> a.draft.sourceUri in c.drafts && c.drafts[a.draft.sourceUri] == a.draft
  }

  function AliasSet(x: Draft, w: Web): set<Key> { set k | k in AliasesForDraft(x, w) }

  lemma {:induction false} UpsertsAre(arrivals: seq<Arrival>, w: Web)
    requires HaveRows(arrivals)
    ensures |UpsertsOf(arrivals, w)| == |arrivals|
    ensures forall i :: 0 <= i < |arrivals| ==> UpsertsOf(arrivals, w)[i] == UpsertOf(arrivals[i], w)
  {
    hide UpsertOf;
    if arrivals != [] { UpsertsAre(arrivals[1..], w); }
  }

  /** The drafts that a catalog holds are those that arrived. */
  lemma {:induction false} DraftsArrived(c: Catalog, arrivals: seq<Arrival>, w: Web, c': Catalog, r: Uri)
    requires Reads(c, arrivals, w, c')
    ensures r in c'.drafts <==> r in c.drafts || exists i :: 0 <= i < |arrivals| && arrivals[i].draft.sourceUri == r
    decreases |arrivals|
  {
    hide Arrives, Apply, UpsertOf, MergeDrafts;
    if arrivals != [] {
      ArrivalAdds(c, arrivals[0], w);
      DraftsArrived(After(c, arrivals[0], w), arrivals[1..], w, c', r);
      assert forall i :: 0 <= i < |arrivals| - 1 ==> arrivals[1..][i] == arrivals[i + 1];
    }
  }

  lemma ArrivalAdds(c: Catalog, a: Arrival, w: Web)
    requires Arrives(c, a, w)
    ensures a.rows != [] && Apply(c.d, UpsertOf(a, w)).Some?
    ensures After(c, a, w).drafts.Keys == c.drafts.Keys + {a.draft.sourceUri}
  {
    hide Apply, MergeDrafts;
  }

  lemma EdgesOfRun(arrivals: seq<Arrival>, c: Catalog, w: Web, e: set<Key>)
    requires Reads(NOTHING, arrivals, w, c) && HaveRows(arrivals) && Unedited(arrivals, c)
    ensures e in Edges(UpsertsOf(arrivals, w)) <==> exists r :: r in c.drafts && AliasSet(c.drafts[r], w) == e
  {
    hide Reads, UpsertsOf, Edges, AliasesForDraft, MergeDrafts;
    var us := UpsertsOf(arrivals, w);
    UpsertsAre(arrivals, w);
    EdgesAre(us, e);
    forall i | 0 <= i < |us| ensures Edge(us[i]) == AliasSet(arrivals[i].draft, w)
                                     && arrivals[i].draft.sourceUri in c.drafts {
      assert arrivals[i] in arrivals;
    }
    if r :| r in c.drafts && AliasSet(c.drafts[r], w) == e {
      DraftsArrived(NOTHING, arrivals, w, c, r);
      var i :| 0 <= i < |arrivals| && arrivals[i].draft.sourceUri == r;
      assert Edge(us[i]) == e;
    }
  }

  /** So two runs that read the same records, in any order and as often as they like, converge. */
  lemma SameRecordsConverge(as1: seq<Arrival>, c1: Catalog, as2: seq<Arrival>, c2: Catalog, w: Web, r: Uri)
    requires Reads(NOTHING, as1, w, c1) && Reads(NOTHING, as2, w, c2) && Unedited(as1, c1) && Unedited(as2, c2)
    requires c1.drafts == c2.drafts && r in c1.drafts && Consistent(w.collate) && UrisApart(c1, w)
    ensures Converged(c1, c2, r)
  {
    hide Reads, Edges, UpsertsOf, UrisApart, HaveRows, Unedited, Converged, AliasSet, Runs, FieldsOk, DraftsOk;
    CatalogIs(as1, c1, w);
    CatalogIs(as2, c2, w);
    forall e ensures e in Edges(UpsertsOf(as1, w)) <==> e in Edges(UpsertsOf(as2, w)) {
      EdgesOfRun(as1, c1, w, e);
      EdgesOfRun(as2, c2, w, e);
    }
    assert Edges(UpsertsOf(as1, w)) == Edges(UpsertsOf(as2, w));
    ListingsConverge(as1, c1, as2, c2, w, r);
  }

  lemma NothingIsOk(w: Web)
    ensures CatalogOk({}, NOTHING, w)
  {
  }

  lemma FirstLists(x: Draft)
    ensures UrisOf(map[x.sourceUri := 0], 0) == {x.sourceUri}
    ensures Lists([x], map[x.sourceUri := x], {x.sourceUri})
  {
    var drafts, uris := map[x.sourceUri := x], {x.sourceUri};
    var all := set r | r in uris :: drafts[r];
    assert x.sourceUri in uris && drafts[x.sourceUri] == x;
    assert all == {x};
    assert multiset([x]) == multiset(all);
  }

  lemma FirstGathered(a: Arrival, w: Web)
    requires a.rows != [] && a.order == [] && a.newId == 0
    ensures Survivor(UpsertOf(a, w)) == 0 && Gathered(NOTHING, a, w) == map[a.draft.sourceUri := 0]
  {
    hide MergeDrafts, AliasesForDraft;
    assert Merge(EMPTY, 0, Duplicates(UpsertOf(a, w))).records == map[];
  }

  lemma ReadsOne(c: Catalog, a: Arrival, w: Web)
    requires Arrives(c, a, w)
    ensures Reads(c, [a], w, After(c, a, w))
  {
    hide Arrives, After;
    assert [a][1..] == [];
  }

  /** Any draft can be the first to arrive. */
  lemma FirstArrival(x: Draft, w: Web, now: int) returns (a: Arrival, c: Catalog)
    ensures a.draft == x && Reads(NOTHING, [a], w, c) && c.drafts == map[x.sourceUri := x]
    ensures 0 in c.fields && c.fields[0] == MergeDrafts([x], w, now)
  {
    hide AliasesForDraft, MergeDrafts, Enabled, Apply, Lists, Gathered, UrisOf, Reads;
    a := Arrival(x, [], 0, [x], now);
    FirstIsEnabled(x, w, UpsertOf(a, w));
    FirstReturns(UpsertOf(a, w));
    FirstLists(x);
    FirstGathered(a, w);
    c := After(NOTHING, a, w);
    ReadsOne(NOTHING, a, w);
  }

  lemma FirstIsEnabled(x: Draft, w: Web, u: Upsert)
    requires u.uri == x.sourceUri && u.keys == AliasesForDraft(x, w) && u.order == []
    ensures Enabled(EMPTY, u)
  {
    OwnUriFirst(x, w);
    forall k | k in u.keys ensures !IsSlugKey(k) { AliasKinds(x, w, k); }
  }

  lemma FirstReturns(u: Upsert)
    requires u.order == []
    ensures Apply(EMPTY, u).Some?
  {
    hide SlugKey, UniqueSlug;
  }
}
