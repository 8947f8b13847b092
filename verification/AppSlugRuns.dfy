/** Slug ownership over every run of upserts. */
module AppSlugRuns {
  import opened Wrappers
  import opened Text
  import opened Slugs
  import opened AppDirectory

  type Aliases = map<Key, Id>
  type Listings = map<Id, Row>

  predicate Fits(slug: string) { Clean(slug) && |slug| <= 80 }

  ghost predicate RowsFit(rows: Listings) {
    forall i :: i in rows ==> Fits(rows[i].slug)
  }

  ghost predicate RowsDiffer(rows: Listings) {
    forall i, j :: i in rows && j in rows && rows[i].slug == rows[j].slug ==> i == j
  }

  predicate Live(rows: Listings, i: Id) { i in rows && rows[i].live }

  /** Aliases lead to live listings, `id` being about to become one. */
  ghost predicate TargetsLive(aliases: Aliases, rows: Listings, id: Option<Id>) {
    forall k :: k in aliases ==> Live(rows, aliases[k]) || id == Some(aliases[k])
  }

  predicate Free(aliases: Aliases, slug: string, i: Id) {
    SlugKey(slug) in aliases ==> aliases[SlugKey(slug)] == i
  }

  /** No live listing uses a slug that is reserved for another. */
  ghost predicate NoTheft(aliases: Aliases, rows: Listings) {
    forall i :: Live(rows, i) ==> Free(aliases, rows[i].slug, i)
  }

  ghost predicate SlugInv(d: Directory) {
    RowsFit(d.listings) && RowsDiffer(d.listings) && TargetsLive(d.aliases, d.listings, None)
    && NoTheft(d.aliases, d.listings)
  }

  ghost function Merged(d: Directory, u: Upsert): Directory {
    var d1 := Merge(d, Survivor(u), Duplicates(u));
    d1.(records := d1.records[u.uri := Survivor(u)])
  }

  /** One of the 48 candidates is free, and the first free one is within the limit of the alias keys. */
  ghost predicate Roomy(d: Directory, u: Upsert) {
    var n := FirstFree(Merged(d, u), u.base, Survivor(u), 1);
    n.Some? && Fits(Candidate(u.base, n.value))
  }

  /** A clean slug of at most 80 characters that is free is within the limit as it stands. */
  lemma FreeBaseIsRoomy(d: Directory, u: Upsert)
    requires Fits(u.base) && !Taken(Merged(d, u), u.base, Survivor(u))
    ensures Roomy(d, u)
  {
    assert Candidate(u.base, 1) == u.base;
  }

  /** A clean slug of at most 77 characters is within the limit with any number appended. */
  lemma ShortBaseIsRoomy(d: Directory, u: Upsert)
    requires Clean(u.base) && |u.base| <= 77 && FirstFree(Merged(d, u), u.base, Survivor(u), 1).Some?
    ensures Roomy(d, u)
  {
    CandidatesAreClean(u.base, FirstFree(Merged(d, u), u.base, Survivor(u), 1).value);
  }

  /** The listings an upsert touches are live, because aliases lead only to live ones. */
  lemma SurvivorAndDuplicates(d: Directory, u: Upsert)
    requires TargetsLive(d.aliases, d.listings, None) && Enabled(d, u)
    ensures Survivor(u) in d.listings ==> d.listings[Survivor(u)].live
    ensures Survivor(u) !in Duplicates(u)
    ensures forall i :: i in Duplicates(u) ==> Live(d.listings, i)
  {
    forall i | i in u.order ensures Live(d.listings, i) {
      assert i in Found(d.aliases, u.keys);
    }
    if u.order != [] { assert u.order[0] in u.order; }
  }

  /** Merging only redirects: the surviving listings keep their slugs and their reservations. */
  lemma MergeKeepsSlugs(d: Directory, u: Upsert)
    requires SlugInv(d) && Enabled(d, u)
    ensures var d1 := Merged(d, u);
            RowsFit(d1.listings) && RowsDiffer(d1.listings) && NoTheft(d1.aliases, d1.listings)
            && TargetsLive(d1.aliases, d1.listings, Some(Survivor(u)))
  {
    SurvivorAndDuplicates(d, u);
    hide SlugKey, IsSlugKey, Enabled, Found;
    var d1 := Merged(d, u);
    forall k | k in d1.aliases ensures Live(d1.listings, d1.aliases[k]) || Survivor(u) == d1.aliases[k] {
      assert Live(d.listings, d.aliases[k]);
    }
    forall i | Live(d1.listings, i) ensures Free(d1.aliases, d1.listings[i].slug, i) {
      assert Free(d.aliases, d.listings[i].slug, i);
    }
  }

  lemma KeysDiffer(rows: Listings, id: Id, i: Id)
    requires RowsFit(rows) && RowsDiffer(rows) && id in rows && i in rows && i != id
    ensures SlugKey(rows[i].slug) != SlugKey(rows[id].slug)
  {
    if SlugKey(rows[i].slug) == SlugKey(rows[id].slug) {
      KeysTellSlugsApart(rows[i].slug, rows[id].slug);
    }
  }

  lemma MoveIsNoTheft(aliases: Aliases, rows: Listings, id: Id, slug: string)
    requires RowsFit(rows) && RowsDiffer(rows) && NoTheft(aliases, rows)
    requires Fits(slug) && Free(aliases, slug, id)
    ensures NoTheft(MoveTo(aliases, rows, id, slug), rows[id := Row(slug, true)])
  {
    var rows' := rows[id := Row(slug, true)];
    var aliases' := MoveTo(aliases, rows, id, slug);
    forall i | Live(rows', i) ensures Free(aliases', rows'[i].slug, i) {
      if i != id {
        assert Free(aliases, rows[i].slug, i);
        if id in rows { KeysDiffer(rows, id, i); }
      }
    }
  }

  /** The slug is free, the reservation succeeds, and every other live listing's slug is left alone. */
  lemma RecomputeKeepsSlugs(d: Directory, id: Id, base: string)
    requires FirstFree(d, base, id, 1).Some? && Fits(Candidate(base, FirstFree(d, base, id, 1).value))
    requires id in d.listings ==> d.listings[id].live
    requires RowsFit(d.listings) && RowsDiffer(d.listings) && NoTheft(d.aliases, d.listings)
    requires TargetsLive(d.aliases, d.listings, Some(id))
    ensures var slug := UniqueSlug(d, base, id);
            Recompute(d, id, base) ==
            Some(d.(aliases := MoveTo(d.aliases, d.listings, id, slug), listings := d.listings[id := Row(slug, true)]))
    ensures SlugInv(Recompute(d, id, base).value)
  {
    var n := FirstFree(d, base, id, 1).value;
    var slug := Candidate(base, n);
    assert !Taken(d, slug, id);
    assert id in d.listings ==> Free(d.aliases, d.listings[id].slug, id) by {
      if id in d.listings { assert Live(d.listings, id); }
    }
    MoveIsNoTheft(d.aliases, d.listings, id, slug);
  }

  lemma ClaimKeepsSlugs(d: Directory, keys: seq<Key>, id: Id)
    requires SlugInv(d) && Live(d.listings, id)
    requires forall k :: k in keys ==> !IsSlugKey(k)
    ensures SlugInv(d.(aliases := Claim(d.aliases, keys, id)))
  {
    forall s ensures SlugKey(s) !in keys {
      assert IsSlugKey(SlugKey(s));
    }
    forall i | Live(d.listings, i) ensures Free(Claim(d.aliases, keys, id), d.listings[i].slug, i) {
      assert Free(d.aliases, d.listings[i].slug, i);
    }
  }

  /** What an upsert does to the slugs: the survivor gets `slug`, duplicates die, and only the survivor's former
      slug may gain a reservation. */
  ghost predicate SlugStep(d: Directory, u: Upsert, d': Directory, slug: string) {
    var id := Survivor(u);
    && d'.listings == Merged(d, u).listings[id := Row(slug, true)]
    && (forall s :: SlugKey(s) in MoveTo(Merged(d, u).aliases, d.listings, id, slug) <==> SlugKey(s) in d'.aliases)
    && (forall s :: SlugKey(s) in d'.aliases ==> d'.aliases[SlugKey(s)] == MoveTo(Merged(d, u).aliases, d.listings,
                                                                                  id, slug)[SlugKey(s)])
  }

  /** An upsert keeps slug ownership and never throws "already reserved". */
  lemma UpsertKeepsSlugs(d: Directory, u: Upsert)
    requires SlugInv(d) && Enabled(d, u) && Roomy(d, u)
    ensures Apply(d, u).Some? && SlugInv(Apply(d, u).value)
    ensures SlugStep(d, u, Apply(d, u).value, UniqueSlug(Merged(d, u), u.base, Survivor(u)))
  {
    MergeKeepsSlugs(d, u);
    SurvivorAndDuplicates(d, u);
    var d1 := Merged(d, u);
    RecomputeKeepsSlugs(d1, Survivor(u), u.base);
    var d2 := Recompute(d1, Survivor(u), u.base).value;
    ClaimKeepsSlugs(d2, u.keys, Survivor(u));
    forall s ensures SlugKey(s) !in u.keys {
      assert IsSlugKey(SlugKey(s));
    }
  }

  /** Every upsert of the run finds a free candidate within the limit. */
  ghost predicate RoomyRuns(d: Directory, us: seq<Upsert>)
    decreases |us|
  {
    us == [] || (Roomy(d, us[0]) && (Apply(d, us[0]).Some? ==> RoomyRuns(Apply(d, us[0]).value, us[1..])))
  }

  lemma {:induction false} RunsKeepSlugs(d: Directory, us: seq<Upsert>, d': Directory)
    requires SlugInv(d) && Runs(d, us, d') && RoomyRuns(d, us)
    ensures SlugInv(d')
    decreases |us|
  {
    if us != [] {
      UpsertKeepsSlugs(d, us[0]);
      RunsKeepSlugs(Apply(d, us[0]).value, us[1..], d');
    }
  }

  // ---------------------------------------------------------------- old slugs keep resolving

  /** `getAppListingByIdentifier` on a slug: a live listing under that slug, else a live one under its alias. */
  ghost predicate ResolvesTo(d: Directory, raw: string, id: Id) {
    && Live(d.listings, id)
    && (d.listings[id].slug == Slugify(raw)
        || ((forall j :: Live(d.listings, j) ==> d.listings[j].slug != Slugify(raw))
            && SlugKey(raw) in d.aliases && d.aliases[SlugKey(raw)] == id))
  }

  /** `slug` is the listing's own, or reserved for it. */
  predicate Holds(d: Directory, id: Id, slug: string) {
    && Live(d.listings, id)
    && (d.listings[id].slug == slug || (SlugKey(slug) in d.aliases && d.aliases[SlugKey(slug)] == id))
  }

  lemma HeldSlugsResolve(d: Directory, id: Id, slug: string)
    requires SlugInv(d) && Fits(slug) && Holds(d, id, slug)
    ensures forall j :: ResolvesTo(d, slug, j) <==> j == id
  {
    OwnSlug(slug);
    forall j | Live(d.listings, j) && d.listings[j].slug == slug ensures j == id {
      assert Free(d.aliases, slug, j);
    }
  }

  /** A listing that was merged away never comes back; any other keeps what it holds. */
  lemma HoldStep(d: Directory, u: Upsert, d': Directory, slug': string, id: Id, slug: string)
    requires SlugInv(d) && Enabled(d, u) && SlugStep(d, u, d', slug')
    requires id in d.listings && (d.listings[id].live ==> Holds(d, id, slug))
    ensures id in d'.listings && (d'.listings[id].live ==> Holds(d', id, slug))
  {
    hide Enabled, RowsFit, RowsDiffer, Slugify;
    SurvivorAndDuplicates(d, u);
    if Holds(d, id, slug) && id !in Duplicates(u) {
      assert Free(d.aliases, d.listings[id].slug, id);
      MergeHolds(d, u, id, slug);
    }
  }

  lemma MergeHolds(d: Directory, u: Upsert, id: Id, slug: string)
    requires Holds(d, id, slug) && id !in Duplicates(u) && Free(d.aliases, d.listings[id].slug, id)
    ensures Holds(Merged(d, u), id, slug) && Free(Merged(d, u).aliases, d.listings[id].slug, id)
  {
    hide Slugify;
  }

  lemma UpsertKeepsHold(d: Directory, u: Upsert, d': Directory, id: Id, slug: string)
    requires SlugInv(d) && Enabled(d, u) && Roomy(d, u) && Apply(d, u) == Some(d')
    requires id in d.listings && (d.listings[id].live ==> Holds(d, id, slug))
    ensures id in d'.listings && (d'.listings[id].live ==> Holds(d', id, slug))
  {
    UpsertKeepsSlugs(d, u);
    HoldStep(d, u, d', UniqueSlug(Merged(d, u), u.base, Survivor(u)), id, slug);
  }

  lemma {:induction false} RunsKeepHold(d: Directory, us: seq<Upsert>, d': Directory, id: Id, slug: string)
    requires SlugInv(d) && Runs(d, us, d') && RoomyRuns(d, us)
    requires id in d.listings && (d.listings[id].live ==> Holds(d, id, slug))
    ensures id in d'.listings && (d'.listings[id].live ==> Holds(d', id, slug))
    decreases |us|
  {
    if us != [] {
      UpsertKeepsSlugs(d, us[0]);
      UpsertKeepsHold(d, us[0], Apply(d, us[0]).value, id, slug);
      RunsKeepHold(Apply(d, us[0]).value, us[1..], d', id, slug);
    }
  }

  /** The slug theorem: at any point of any run no two rows share a slug, and every slug that a listing had at any
      earlier point resolves to it, and to nothing else, for as long as it has not been merged into another. */
  lemma EverySlugStillResolves(before: seq<Upsert>, d: Directory, after: seq<Upsert>, d': Directory, id: Id)
    requires Runs(EMPTY, before, d) && RoomyRuns(EMPTY, before) && Runs(d, after, d') && RoomyRuns(d, after)
    requires Live(d.listings, id) && Live(d'.listings, id)
    ensures RowsDiffer(d'.listings)
    ensures forall x :: ResolvesTo(d', d.listings[id].slug, x) <==> x == id
  {
    RunsKeepSlugs(EMPTY, before, d);
    RunsKeepSlugs(d, after, d');
    RunsKeepHold(d, after, d', id, d.listings[id].slug);
    HeldSlugsResolve(d', id, d.listings[id].slug);
  }

  /** The slug a listing has when it is merged away resolves afterwards exactly when it had been reserved before
      (the listing left it once and came back), and then to the survivor. */
  lemma MergedSlugIsLost(d: Directory, u: Upsert, dup: Id)
    requires SlugInv(d) && Enabled(d, u) && Roomy(d, u) && dup in Duplicates(u)
    ensures Apply(d, u).Some? && dup in d.listings
    ensures var slug := d.listings[dup].slug;
            var d' := Apply(d, u).value;
            && ((exists x :: ResolvesTo(d', slug, x)) <==> SlugKey(slug) in d.aliases)
            && (SlugKey(slug) in d.aliases ==> ResolvesTo(d', slug, Survivor(u)))
  {
    UpsertKeepsSlugs(d, u);
    SurvivorAndDuplicates(d, u);
    assert Free(d.aliases, d.listings[dup].slug, dup) by { assert Live(d.listings, dup); }
    if Survivor(u) in d.listings { KeysDiffer(d.listings, Survivor(u), dup); }
    LostUnlessReserved(d, u, Apply(d, u).value, UniqueSlug(Merged(d, u), u.base, Survivor(u)), dup);
  }

  lemma LostUnlessReserved(d: Directory, u: Upsert, d': Directory, slug': string, dup: Id)
    requires SlugStep(d, u, d', slug') && RowsDiffer(d'.listings) && RowsFit(d.listings)
    requires dup in Duplicates(u) && dup in d.listings && Survivor(u) !in Duplicates(u)
    requires Free(d.aliases, d.listings[dup].slug, dup)
    requires Survivor(u) in d.listings ==> SlugKey(d.listings[Survivor(u)].slug) != SlugKey(d.listings[dup].slug)
    ensures var slug := d.listings[dup].slug;
            && ((exists x :: ResolvesTo(d', slug, x)) <==> SlugKey(slug) in d.aliases)
            && (SlugKey(slug) in d.aliases ==> ResolvesTo(d', slug, Survivor(u)))
  {
    var slug := d.listings[dup].slug;
    OwnSlug(slug);
    assert dup in d'.listings && d'.listings[dup] == Row(slug, false);
    assert SlugKey(slug) in d'.aliases <==> SlugKey(slug) in d.aliases;
    forall j | Live(d'.listings, j) ensures d'.listings[j].slug != slug {
    }
    if SlugKey(slug) in d.aliases {
      assert ResolvesTo(d', slug, Survivor(u));
    }
  }

  // ---------------------------------------------------------------- when an upsert throws

  /** The slug that the surviving listing would leave is reserved for another listing. */
  ghost predicate ReservedElsewhere(d: Directory, u: Upsert) {
    var d1, id := Merged(d, u), Survivor(u);
    && id in d1.listings && d1.listings[id].slug != UniqueSlug(d1, u.base, id)
    && !Free(d1.aliases, d1.listings[id].slug, id)
  }

  /** None of the 48 candidates is free, and another row has the fallback. */
  ghost predicate FallbackClashes(d: Directory, u: Upsert) {
    var d1, id := Merged(d, u), Survivor(u);
    && FirstFree(d1, u.base, id, 1).None?
    && exists j :: j in d1.listings && j != id && d1.listings[j].slug == Fallback(u.base, id)
  }

  /** In any state whatever an upsert throws exactly when the slug it would leave is reserved for another listing,
      or its fallback clashes. */
  lemma UpsertThrowsExactly(d: Directory, u: Upsert)
    ensures Apply(d, u).None? <==> ReservedElsewhere(d, u) || FallbackClashes(d, u)
  {
    var d1, id := Merged(d, u), Survivor(u);
    hide Merge, SlugKey;
    var n := FirstFree(d1, u.base, id, 1);
    if n.Some? { assert !Taken(d1, Candidate(u.base, n.value), id); }
  }

  /** So while nobody's slug is reserved for another, an upsert throws only over its fallback. */
  lemma OwnedSlugsThrowExactly(d: Directory, u: Upsert)
    requires SlugInv(d) && Enabled(d, u)
    ensures Apply(d, u).None? <==> FallbackClashes(d, u)
  {
    UpsertThrowsExactly(d, u);
    MergeKeepsSlugs(d, u);
    SurvivorAndDuplicates(d, u);
    if Survivor(u) in d.listings {
      assert Live(Merged(d, u).listings, Survivor(u));
    }
  }
}
