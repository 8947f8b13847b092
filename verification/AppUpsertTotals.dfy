/** One upsert, seen by the directory of aliases and slugs and by the totals: the two models step together, so what
    makes an upsert throw decides what happens to the totals. */
module AppUpsertTotals {
  import opened Wrappers
  import opened Slugs
  import opened AppDirectory
  import opened AppPartition
  import opened AppSlugRuns
  import C = AppCounters

  const STORE := "atstore:"

  function AsKey(k: Key): C.Key { if STORE <= k then C.StoreKey(k[|STORE|..]) else C.OtherKey(k) }

  function AsKeys(keys: seq<Key>): set<C.Key> { set k | k in keys :: AsKey(k) }

  lemma KeysApart(k: Key, l: Key)
    requires AsKey(k) == AsKey(l)
    ensures k == l
  {
    if STORE <= k {
      assert k == STORE + k[|STORE|..] && l == STORE + l[|STORE|..];
    }
  }

  ghost predicate NamesInStep(aliases: map<Key, Id>, names: map<C.Key, C.Alias>) {
    && (forall k :: !IsSlugKey(k) ==> (k in aliases <==> AsKey(k) in names))
    && (forall k :: k in aliases && !IsSlugKey(k) ==> names[AsKey(k)].listing == aliases[k])
  }

  ghost predicate RowsInStep(d: Directory, s: C.Social) {
    && s.records.Keys == d.records.Keys
    && (forall r :: r in d.records ==> s.records[r].live && s.records[r].listing == d.records[r])
    && s.listings.Keys == d.listings.Keys
    && (forall i :: i in d.listings ==> s.listings[i].live == d.listings[i].live)
  }

  /** The same aliases, records and listings. */
  ghost predicate InStep(d: Directory, s: C.Social) { NamesInStep(d.aliases, s.names) && RowsInStep(d, s) }

  /** The change that an upsert makes to the totals' tables: it stops if it throws. */
  function ChangeOf(d: Directory, u: Upsert, store: bool, atstore: Option<C.Uri>): C.Change {
    if Apply(d, u).Some? then C.Upsert(u.uri, store, AsKeys(u.keys), Survivor(u), Duplicates(u), atstore)
    else C.StoppedUpsert(u.uri, store, AsKeys(u.keys), Survivor(u), Duplicates(u))
  }

  /** Both models find the same listings under the keys, and agree on who survives. */
  lemma SameFound(d: Directory, s: C.Social, u: Upsert)
    requires InStep(d, s) && Enabled(d, u)
    ensures C.Found(s, AsKeys(u.keys)) == Found(d.aliases, u.keys)
    ensures var found := C.Found(s, AsKeys(u.keys));
            if found == {} then Survivor(u) !in s.listings && Duplicates(u) == {}
            else Survivor(u) in found && Duplicates(u) == found - {Survivor(u)}
  {
    forall i ensures i in C.Found(s, AsKeys(u.keys)) <==> i in Found(d.aliases, u.keys) {
      if i in Found(d.aliases, u.keys) {
        var k :| k in u.keys && k in d.aliases && d.aliases[k] == i;
        assert AsKey(k) in AsKeys(u.keys) && s.names[AsKey(k)].listing == i;
      }
    }
    assert forall i :: i in u.order <==> i in Found(d.aliases, u.keys);
    if u.order != [] { assert u.order[0] in u.order; }
  }

  lemma KeyIn(k: Key, keys: seq<Key>)
    ensures AsKey(k) in AsKeys(keys) <==> k in keys
  {
    if AsKey(k) in AsKeys(keys) {
      var l :| l in keys && AsKey(l) == AsKey(k);
      KeysApart(k, l);
    }
  }

  /** Relabelling in one model is moving and claiming in the other. */
  lemma RelabelNames(d: Directory, s: C.Social, u: Upsert, aliases: map<Key, Id>)
    requires InStep(d, s) && Enabled(d, u) && Relabels(d.aliases, u, aliases)
    ensures NamesInStep(aliases, C.Renamed(C.Merged(s, Survivor(u), Duplicates(u)).names, AsKeys(u.keys),
                                           C.Alias(Survivor(u), u.uri)))
  {
    SameFound(d, s, u);
    forall k ensures AsKey(k) in AsKeys(u.keys) <==> k in u.keys { KeyIn(k, u.keys); }
    hide AsKey, AsKeys, IsSlugKey, Enabled, Duplicates, Survivor;
  }

  /** Joining what is known is moving alone. */
  lemma KnownNames(d: Directory, s: C.Social, u: Upsert, aliases: map<Key, Id>)
    requires InStep(d, s) && Enabled(d, u) && Relabels(d.aliases, KnownPart(d, u), aliases)
    requires Found(d.aliases, KnownPart(d, u).keys) == Found(d.aliases, u.keys)
    ensures NamesInStep(aliases, C.Merged(s, Survivor(u), Duplicates(u)).names)
  {
    hide RowsInStep, Enabled, IsSlugKey;
    KnownMove(d, u, aliases);
    FoundIsOrder(d, u);
    hide AsKey, Duplicates, Survivor, Found, Relabels, KnownPart;
  }

  /** Each alias known before follows the survivor if it named a duplicate, and no other alias is known. */
  lemma KnownMove(d: Directory, u: Upsert, aliases: map<Key, Id>)
    requires Relabels(d.aliases, KnownPart(d, u), aliases)
    requires Found(d.aliases, KnownPart(d, u).keys) == Found(d.aliases, u.keys)
    ensures forall k :: !IsSlugKey(k) ==> (k in aliases <==> k in d.aliases)
    ensures forall k :: k in aliases && !IsSlugKey(k) ==>
                          k in d.aliases && aliases[k] == if d.aliases[k] in Found(d.aliases, u.keys) then Survivor(u)
                                                          else d.aliases[k]
  {
    hide IsSlugKey, Known;
    assert forall k :: k in KnownPart(d, u).keys ==> k in d.aliases
                                                     && d.aliases[k] in Found(d.aliases, KnownPart(d, u).keys);
  }

  lemma MergedRows(d: Directory, s: C.Social, u: Upsert, store: bool)
    requires RowsInStep(d, s)
    ensures var e := Merge(d, Survivor(u), Duplicates(u));
            RowsInStep(e.(records := e.records[u.uri := Survivor(u)]),
                       C.Gathered(s, u.uri, store, Survivor(u), Duplicates(u)))
  {
    hide Survivor, Duplicates;
  }

  /** Recomputing makes the survivor's row live in both. */
  lemma RecomputedRows(d: Directory, s: C.Social, id: Id, atstore: Option<C.Uri>, d': Directory)
    requires RowsInStep(d, s) && C.HasDrafts(s, id) && d'.records == d.records && id in d'.listings
             && d'.listings[id].live
    requires d'.listings.Keys == d.listings.Keys + {id}
    requires forall i :: i in d.listings && i != id ==> d'.listings[i].live == d.listings[i].live
    ensures RowsInStep(d', C.Recomputed(s, id, atstore))
  {
    hide C.Recount;
  }

  lemma ApplyIsRecompute(d: Directory, u: Upsert)
    requires Apply(d, u).Some?
    ensures var e, t := Merge(d, Survivor(u), Duplicates(u)), Apply(d, u).value;
            && t.records == e.records[u.uri := Survivor(u)] && Survivor(u) in t.listings && t.listings[Survivor(u)].live
            && t.listings == e.listings[Survivor(u) := t.listings[Survivor(u)]]
  {
    hide UniqueSlug, MoveTo, Claim, Merge;
  }

  lemma ReturnedNames(d: Directory, s: C.Social, u: Upsert, store: bool, atstore: Option<C.Uri>)
    requires InStep(d, s) && Enabled(d, u) && Apply(d, u).Some?
    ensures NamesInStep(Apply(d, u).value.aliases, C.After(s, ChangeOf(d, u, store, atstore)).names)
  {
    hide Apply, Enabled, NamesInStep, RowsInStep, Relabels, AsKeys, Survivor, Duplicates, Found, C.Merged, C.Renamed,
      C.After, C.Gathered;
    ApplyRelabels(d, u);
    RelabelNames(d, s, u, Apply(d, u).value.aliases);
    C.UpsertNames(s, ChangeOf(d, u, store, atstore));
  }

  lemma ReturnedRows(d: Directory, s: C.Social, u: Upsert, store: bool, atstore: Option<C.Uri>)
    requires InStep(d, s) && Apply(d, u).Some?
    ensures RowsInStep(Apply(d, u).value, C.After(s, ChangeOf(d, u, store, atstore)))
  {
    hide Apply, Merge, Survivor, Duplicates, NamesInStep, RowsInStep, AsKeys, C.Renamed, C.Recomputed, C.HasDrafts,
      C.Gathered;
    var id, e := Survivor(u), Merge(d, Survivor(u), Duplicates(u));
    var g := C.Gathered(s, u.uri, store, id, Duplicates(u));
    ApplyIsRecompute(d, u);
    MergedRows(d, s, u, store);
    C.HasItsDraft(s, u.uri, store, id, Duplicates(u));
    RecomputedRows(e.(records := e.records[u.uri := id]), g, id, atstore, Apply(d, u).value);
    SameRows(Apply(d, u).value, C.Recomputed(g, id, atstore), C.After(s, ChangeOf(d, u, store, atstore)));
  }

  lemma SameRows(d: Directory, s: C.Social, t: C.Social)
    requires RowsInStep(d, s) && t.records == s.records && t.listings == s.listings
    ensures RowsInStep(d, t)
  {
  }

  lemma InterruptedIs(d: Directory, u: Upsert)
    ensures var e := Merge(d, Survivor(u), Duplicates(u));
            && Interrupted(d, u).records == e.records[u.uri := Survivor(u)] && Interrupted(d, u).listings == e.listings
  {
    hide Merge, UniqueSlug, MoveTo;
  }

  lemma ThrownInStep(d: Directory, s: C.Social, u: Upsert, store: bool)
    requires InStep(d, s) && Enabled(d, u)
    ensures InStep(Interrupted(d, u), C.Gathered(s, u.uri, store, Survivor(u), Duplicates(u)))
  {
    hide Enabled, NamesInStep, Relabels, Survivor, Duplicates, Found, KnownPart, Interrupted, Merge, C.Merged,
      RowsInStep;
    InterruptedRelabels(d, u);
    KnownNames(d, s, u, Interrupted(d, u).aliases);
    InterruptedIs(d, u);
    MergedRows(d, s, u, store);
    var e := Merge(d, Survivor(u), Duplicates(u));
    SameTables(e.(records := e.records[u.uri := Survivor(u)]), Interrupted(d, u),
               C.Gathered(s, u.uri, store, Survivor(u), Duplicates(u)));
  }

  lemma SameTables(d: Directory, e: Directory, s: C.Social)
    requires RowsInStep(d, s) && e.records == d.records && e.listings == d.listings
    ensures RowsInStep(e, s)
  {
  }

  /** The two models stay in step, whether the upsert returns or throws. */
  lemma UpsertInStep(d: Directory, s: C.Social, u: Upsert, store: bool, atstore: Option<C.Uri>)
    requires InStep(d, s) && Enabled(d, u)
    ensures InStep(Next(d, u), C.After(s, ChangeOf(d, u, store, atstore)))
  {
    hide Apply, Enabled, Interrupted, NamesInStep, RowsInStep, C.Gathered, C.Recomputed, C.Renamed, AsKeys, Survivor,
      Duplicates;
    if Apply(d, u).Some? {
      ReturnedNames(d, s, u, store, atstore);
      ReturnedRows(d, s, u, store, atstore);
    } else {
      ThrownInStep(d, s, u, store);
    }
  }

  /** So the totals after an upsert are right exactly if, where its slug makes it throw, it merges no rows into a live
      listing, and where it returns, it takes no row from another live listing. */
  lemma TotalsAfterUpsertExactly(d: Directory, s: C.Social, u: Upsert, store: bool, atstore: Option<C.Uri>)
    requires InStep(d, s) && Enabled(d, u) && C.Agrees(s) && C.Allowed(s, ChangeOf(d, u, store, atstore))
    ensures C.Agrees(C.After(s, ChangeOf(d, u, store, atstore))) <==>
            if ReservedElsewhere(d, u) || FallbackClashes(d, u)
            then !(Survivor(u) in d.listings && d.listings[Survivor(u)].live && C.RowsUnder(s, Duplicates(u)))
            else forall i :: !C.TakesFrom(C.Gathered(s, u.uri, store, Survivor(u), Duplicates(u)), Survivor(u),
                                          atstore, i)
  {
    hide Apply, Enabled, C.After, C.Agrees, C.Allowed, C.RowsUnder, C.TakesFrom, C.Gathered, Survivor, Duplicates,
      AsKeys,
      ReservedElsewhere, FallbackClashes, NamesInStep;
    UpsertThrowsExactly(d, u);
    C.ChangeAgreesExactly(s, ChangeOf(d, u, store, atstore));
  }

  // ---------------------------------------------------------------- runs

  /** A record is read, or a review or favorite is posted or deleted. */
  datatype Event = Read(u: Upsert, store: bool, atstore: Option<C.Uri>) | Social(c: C.Change)

  datatype State = State(d: Directory, s: C.Social)

  predicate IsSocial(c: C.Change) { c.PostReview? || c.DropReview? || c.PostFavorite? || c.DropFavorite? }

  ghost predicate Legal(t: State, e: Event) {
    match e
    case Read(u, store, atstore) => Enabled(t.d, u) && C.Allowed(t.s, ChangeOf(t.d, u, store, atstore))
    case Social(c) => IsSocial(c) && C.Allowed(t.s, c)
  }

  ghost function Step(t: State, e: Event): State {
    match e
    case Read(u, store, atstore) => State(Next(t.d, u), C.After(t.s, ChangeOf(t.d, u, store, atstore)))
    case Social(c) => State(t.d, C.After(t.s, c))
  }

  ghost function At(es: seq<Event>): State {
    if es == [] then State(EMPTY, C.EMPTY) else Step(At(es[..|es| - 1]), es[|es| - 1])
  }

  ghost predicate LegalRun(es: seq<Event>) { forall n :: 0 <= n < |es| ==> Legal(At(es[..n]), es[n]) }

  /** The guard of one event, in terms of slugs and aliases. */
  ghost predicate Guarded(t: State, e: Event) {
    match e
    case Social(_) => true
    case Read(u, store, atstore) =>
      if ReservedElsewhere(t.d, u) || FallbackClashes(t.d, u)
      then !(Survivor(u) in t.d.listings && t.d.listings[Survivor(u)].live && C.RowsUnder(t.s, Duplicates(u)))
      else forall i :: !C.TakesFrom(C.Gathered(t.s, u.uri, store, Survivor(u), Duplicates(u)), Survivor(u), atstore, i)
  }

  lemma SocialInStep(d: Directory, s: C.Social, c: C.Change)
    requires InStep(d, s) && IsSocial(c)
    ensures InStep(d, C.After(s, c))
  {
    hide C.Recount, NamesInStep;
  }

  lemma StepInStep(t: State, e: Event)
    requires InStep(t.d, t.s) && Legal(t, e)
    ensures InStep(Step(t, e).d, Step(t, e).s)
  {
    hide InStep, Next, C.After, C.Allowed, Enabled, ChangeOf;
    match e
    case Read(u, store, atstore) => UpsertInStep(t.d, t.s, u, store, atstore);
    case Social(c) => SocialInStep(t.d, t.s, c);
  }

  lemma StepAgreesExactly(t: State, e: Event)
    requires InStep(t.d, t.s) && Legal(t, e) && C.Agrees(t.s)
    ensures C.Agrees(Step(t, e).s) <==> Guarded(t, e)
  {
    hide InStep, Next, C.After, C.Allowed, C.Agrees, Enabled, ChangeOf, ReservedElsewhere, FallbackClashes;
    match e
    case Read(u, store, atstore) => TotalsAfterUpsertExactly(t.d, t.s, u, store, atstore);
    case Social(c) => C.SocialChangeAgrees(t.s, c);
  }

  lemma RunBefore(es: seq<Event>)
    requires es != [] && LegalRun(es)
    ensures LegalRun(es[..|es| - 1]) && Legal(At(es[..|es| - 1]), es[|es| - 1])
    ensures forall n :: 0 <= n < |es| ==> es[..|es| - 1][..n] == es[..n]
  {
    hide Legal, At;
    var before := es[..|es| - 1];
    forall n | 0 <= n < |before| ensures before[..n] == es[..n] && before[n] == es[n] { }
  }

  lemma {:induction false} RunInStep(es: seq<Event>)
    requires LegalRun(es)
    ensures InStep(At(es).d, At(es).s)
  {
    hide Legal, InStep, Step, LegalRun;
    if es == [] {
      NothingInStep();
    } else {
      RunBefore(es);
      RunInStep(es[..|es| - 1]);
      StepInStep(At(es[..|es| - 1]), es[|es| - 1]);
    }
  }

  lemma NothingInStep()
    ensures InStep(EMPTY, C.EMPTY) && C.Agrees(C.EMPTY)
  {
  }

  ghost predicate AlwaysRight(es: seq<Event>) { forall n :: 0 <= n <= |es| ==> C.Agrees(At(es[..n]).s) }

  ghost predicate AlwaysGuarded(es: seq<Event>) { forall n :: 0 <= n < |es| ==> Guarded(At(es[..n]), es[n]) }

  /** Over every run of reading records, returning or throwing, and of posting and deleting reviews and favorites, the
      stored totals are right all the time exactly when every upsert met its guard. */
  lemma {:induction false} TotalsRightExactly(es: seq<Event>)
    requires LegalRun(es)
    ensures AlwaysRight(es) <==> AlwaysGuarded(es)
  {
    hide Legal, InStep, Step, LegalRun, Guarded, C.Agrees, At;
    if es == [] {
      NothingInStep();
      StartOfRun();
      assert es[..0] == [];
    } else {
      var before, m := es[..|es| - 1], |es| - 1;
      RunBefore(es);
      TotalsRightExactly(before);
      RunInStep(before);
      assert es[..|es|] == es && before[..m] == before;
      assert forall n :: 0 <= n <= m ==> before[..n] == es[..n];
      assert AlwaysRight(es) <==> AlwaysRight(before) && C.Agrees(At(es).s);
      assert AlwaysGuarded(es) <==> AlwaysGuarded(before) && Guarded(At(before), es[m]);
      if AlwaysRight(before) {
        assert C.Agrees(At(before[..m]).s);
        StepAgreesExactly(At(before), es[m]);
        LastStep(es);
      }
    }
  }

  lemma StartOfRun()
    ensures At([]) == State(EMPTY, C.EMPTY)
  {
  }

  lemma LastStep(es: seq<Event>)
    requires es != []
    ensures At(es) == Step(At(es[..|es| - 1]), es[|es| - 1])
  {
    hide Step;
  }
}
