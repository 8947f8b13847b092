/** Runs of upserts that show where a promise about slugs ends. */
module AppSlugWitnesses {
  import opened Wrappers
  import opened Text
  import opened Slugs
  import opened AppDirectory
  import opened AppSlugRuns

  // ---------------------------------------------------------------- the limit matters

  /** A numbered slug cut at 80 characters has the alias key of the slug it was numbered from. */
  lemma LongSlugsShareAKey(s: string)
    requires Clean(s) && |s| == 80
    ensures SlugKey(s + "-2") == SlugKey(s) == "slug:" + s
  {
    var t := s + "-2";
    OwnSlug(s);
    assert forall i :: 0 <= i < |t| ==> t[i] == if i < 80 then s[i] else if i == 80 then '-' else '2';
    BodyOfClean(t);
    assert t[..80] == s;
  }

  /** The upsert of a record nobody knew: a new listing under the slug. */
  lemma NewListing(d: Directory, u: Upsert, slug: string)
    requires Enabled(d, u) && u.order == [] && UniqueSlug(Merged(d, u), u.base, u.newId) == slug
    requires forall j :: j in d.listings ==> d.listings[j].slug != slug
    ensures Apply(d, u) == Some(Directory(Claim(d.aliases, u.keys, u.newId), d.records[u.uri := u.newId],
                                          d.listings[u.newId := Row(slug, true)]))
  {
    MergesNobody(d, u, u.newId);
  }

  lemma MergesNobody(d: Directory, u: Upsert, id: Id)
    requires id == Survivor(u) && |u.order| <= 1
    ensures Merged(d, u) == d.(records := d.records[u.uri := id])
  {
    assert Duplicates(u) == {};
    var d1 := Merge(d, id, {});
    assert d1.aliases == d.aliases && d1.records == d.records && d1.listings == d.listings;
  }

  /** The upsert of the one record of a listing that takes another free slug. */
  lemma Renamed(d: Directory, u: Upsert, id: Id)
    requires Enabled(d, u) && u.order == [id] && id in d.listings && d.listings[id].slug != u.base
    requires !Taken(d, u.base, id) && SlugKey(d.listings[id].slug) !in d.aliases
    ensures Apply(d, u) == Some(Directory(Claim(d.aliases[SlugKey(d.listings[id].slug) := id], u.keys, id),
                                          d.records[u.uri := id], d.listings[id := Row(u.base, true)]))
  {
    hide SlugKey, UniqueSlug, FirstFree;
    MergesNobody(d, u, id);
    TakesBase(Merged(d, u), u.base, id);
  }

  lemma TakesBase(d: Directory, base: string, id: Id)
    requires !Taken(d, base, id)
    ensures UniqueSlug(d, base, id) == base
  {
    assert Candidate(base, 1) == base;
  }

  lemma TakesSecond(d: Directory, base: string, id: Id)
    requires Taken(d, base, id) && !Taken(d, base + "-2", id)
    ensures UniqueSlug(d, base, id) == base + "-2"
  {
    assert Candidate(base, 1) == base;
    assert Digits(2) == "2";
    assert Candidate(base, 2) == base + "-2";
    assert FirstFree(d, base, id, 1) == FirstFree(d, base, id, 2) == Some(2);
  }

  const X: Uri := "x"
  const Y: Uri := "y"

  lemma KeysOfXY()
    ensures UriKey(X) != UriKey(Y) && !IsSlugKey(UriKey(X)) && !IsSlugKey(UriKey(Y))
    ensures forall s :: SlugKey(s) != UriKey(X) && SlugKey(s) != UriKey(Y)
  {
    TrimShape("uri:x");
    TrimShape("uri:y");
    forall s ensures SlugKey(s) != UriKey(X) && SlugKey(s) != UriKey(Y) {
      assert IsSlugKey(SlugKey(s));
    }
  }

  /** A record that names nothing but itself. */
  function Plain(uri: Uri, order: seq<Id>, newId: Id, base: string): Upsert {
    Upsert(uri, [UriKey(uri)], order, newId, base)
  }

  predicate Fresh(d: Directory, id: Id) {
    id !in d.listings && (forall k :: k in d.aliases ==> d.aliases[k] != id)
    && (forall r :: r in d.records ==> d.records[r] != id)
  }

  lemma PlainIsEnabled(d: Directory, uri: Uri, order: seq<Id>, newId: Id, base: string)
    requires !IsSlugKey(UriKey(uri)) && Fresh(d, newId)
    requires order == if UriKey(uri) in d.aliases then [d.aliases[UriKey(uri)]] else []
    ensures Enabled(d, Plain(uri, order, newId, base))
  {
    hide UriKey, IsSlugKey;
    assert Found(d.aliases, [UriKey(uri)]) == set i | i in order;
  }

  /** The directory after `x` asked for `s`. */
  function OneListing(s: string): Directory {
    Directory(map[UriKey(X) := 0], map[X := 0], map[0 := Row(s, true)])
  }

  /** The directory after `y` did too and got the numbered copy. */
  function TwoListings(s: string): Directory {
    Directory(map[UriKey(X) := 0, UriKey(Y) := 1], map[X := 0, Y := 1],
              map[0 := Row(s, true), 1 := Row(s + "-2", true)])
  }

  lemma FirstUpsert(s: string)
    ensures Enabled(EMPTY, Plain(X, [], 0, s)) && Apply(EMPTY, Plain(X, [], 0, s)) == Some(OneListing(s))
  {
    KeysOfXY();
    hide UriKey, SlugKey, IsSlugKey, Apply;
    var u := Plain(X, [], 0, s);
    PlainIsEnabled(EMPTY, X, [], 0, s);
    hide Enabled;
    MergesNobody(EMPTY, u, 0);
    TakesBase(Merged(EMPTY, u), s, 0);
    NewListing(EMPTY, u, s);
    assert Claim(EMPTY.aliases, u.keys, 0) == map[UriKey(X) := 0];
  }

  lemma SecondTakesCopy(d: Directory, s: string)
    requires d.listings == map[0 := Row(s, true)] && forall t :: SlugKey(t) !in d.aliases
    ensures UniqueSlug(d, s, 1) == s + "-2"
  {
    hide SlugKey, UniqueSlug;
    assert Taken(d, s, 1) by { assert d.listings[0].slug == s; }
    TakesSecond(d, s, 1);
  }

  lemma SecondUpsert(s: string)
    ensures var u := Plain(Y, [], 1, s);
            Enabled(OneListing(s), u) && Apply(OneListing(s), u) == Some(TwoListings(s))
  {
    KeysOfXY();
    hide UriKey, SlugKey, IsSlugKey, Apply, UniqueSlug, Merged, Claim, Enabled;
    var d, u := OneListing(s), Plain(Y, [], 1, s);
    PlainIsEnabled(d, Y, [], 1, s);
    MergesNobody(d, u, 1);
    SecondTakesCopy(Merged(d, u), s);
    NewListing(d, u, s + "-2");
    YClaims(d.aliases, u.keys, s);
  }

  lemma YClaims(aliases: Aliases, keys: seq<Key>, s: string)
    requires aliases == OneListing(s).aliases && keys == [UriKey(Y)]
    ensures Claim(aliases, keys, 1) == TwoListings(s).aliases
  {
    hide UriKey;
  }

  /** The directory after the first moves to `t`, which reserves the slug it leaves. */
  function FirstMoved(s: string, t: string): Directory {
    Directory(map[UriKey(X) := 0, UriKey(Y) := 1, SlugKey(s) := 0], map[X := 0, Y := 1],
              map[0 := Row(t, true), 1 := Row(s + "-2", true)])
  }

  lemma ThirdUpsert(s: string, t: string)
    requires |t| < |s|
    ensures var u := Plain(X, [0], 2, t);
            Enabled(TwoListings(s), u) && Apply(TwoListings(s), u) == Some(FirstMoved(s, t))
  {
    KeysOfXY();
    hide UriKey, SlugKey, IsSlugKey, Apply;
    var d, u := TwoListings(s), Plain(X, [0], 2, t);
    PlainIsEnabled(d, X, [0], 2, t);
    hide Enabled;
    assert d.listings[1].slug != t && d.listings[0].slug == s;
    Renamed(d, u, 0);
    var d' := FirstMoved(s, t);
    assert Claim(d.aliases[SlugKey(s) := 0], u.keys, 0) == d'.aliases;
    assert d.records[X := 0] == d'.records;
    assert d.listings[0 := Row(t, true)] == d'.listings;
  }

  lemma FirstMovedIs(s: string, t: string)
    ensures var d := FirstMoved(s, t);
            && Fresh(d, 3) && UriKey(Y) in d.aliases && d.aliases[UriKey(Y)] == 1 && 1 in d.listings
            && d.listings[1].slug == s + "-2" && SlugKey(s) in d.aliases && d.aliases[SlugKey(s)] == 0
  {
    KeysOfXY();
    hide UriKey, SlugKey;
  }

  /** The numbered copy has the key of the slug it copies, so its listing cannot leave it. */
  lemma FourthThrows(s: string, t: string, v: string)
    requires Clean(s) && |s| == 80 && |t| < 80 && |v| <= 77
    ensures Enabled(FirstMoved(s, t), Plain(Y, [1], 3, v)) && Apply(FirstMoved(s, t), Plain(Y, [1], 3, v)).None?
  {
    KeysOfXY();
    LongSlugsShareAKey(s);
    FirstMovedIs(s, t);
    hide UriKey, SlugKey, IsSlugKey, Apply, Clean, Enabled, ReservedElsewhere, FallbackClashes, Merged, FirstMoved,
      Fresh;
    var d, u := FirstMoved(s, t), Plain(Y, [1], 3, v);
    PlainIsEnabled(d, Y, [1], 3, v);
    SecondIsStuck(d, u, s);
    UpsertThrowsExactly(d, u);
  }

  lemma SecondIsStuck(d: Directory, u: Upsert, s: string)
    requires u.order == [1] && 1 in d.listings && d.listings[1].slug == s + "-2" && |s| == 80 && |u.base| <= 77
    requires SlugKey(s + "-2") in d.aliases && d.aliases[SlugKey(s + "-2")] == 0
    ensures ReservedElsewhere(d, u)
  {
    hide SlugKey, Taken, FirstFree;
    MergesNobody(d, u, 1);
    UniqueSlugIsShort(Merged(d, u), u.base, 1);
  }

  lemma UniqueSlugIsShort(d: Directory, base: string, id: Id)
    requires |base| <= 77 && id < 10
    ensures |UniqueSlug(d, base, id)| <= 80
  {
    hide Taken;
    var n := FirstFree(d, base, id, 1);
    if n.Some? { DigitsAreClean(n.value); }
  }

  lemma RunsFirst(d: Directory, u: Upsert, d1: Directory, us: seq<Upsert>, d': Directory)
    requires Enabled(d, u) && Apply(d, u) == Some(d1) && Runs(d1, us, d')
    ensures Runs(d, [u] + us, d')
  {
    hide Enabled, Apply;
    assert ([u] + us)[1..] == us;
  }

  function LongRun(s: string, t: string): seq<Upsert> {
    [Plain(X, [], 0, s)] + ([Plain(Y, [], 1, s)] + ([Plain(X, [0], 2, t)] + []))
  }

  lemma LongRunReaches(s: string, t: string)
    requires |t| < |s|
    ensures Runs(EMPTY, LongRun(s, t), FirstMoved(s, t))
  {
    FirstUpsert(s);
    SecondUpsert(s);
    ThirdUpsert(s, t);
    RunsNothing(FirstMoved(s, t));
    hide Apply, Enabled, Plain, Runs, OneListing, TwoListings, FirstMoved;
    RunsFirst(TwoListings(s), Plain(X, [0], 2, t), FirstMoved(s, t), [], FirstMoved(s, t));
    RunsFirst(OneListing(s), Plain(Y, [], 1, s), TwoListings(s), [Plain(X, [0], 2, t)] + [], FirstMoved(s, t));
    RunsFirst(EMPTY, Plain(X, [], 0, s), OneListing(s), [Plain(Y, [], 1, s)] + ([Plain(X, [0], 2, t)] + []),
              FirstMoved(s, t));
  }

  lemma RunsNothing(d: Directory)
    ensures Runs(d, [], d)
  {
  }

  /** Past the limit the error is reachable, for every 80-character slug and any two shorter ones: two records ask
      for it, the first moves to another slug, and the second then cannot. */
  lemma LongSlugThrows(s: string, t: string, v: string) returns (us: seq<Upsert>, d: Directory, rename: Upsert)
    requires Clean(s) && |s| == 80 && |t| < 80 && |v| <= 77
    ensures Runs(EMPTY, us, d) && Enabled(d, rename) && Apply(d, rename).None?
    ensures (forall i :: 0 <= i < |us| ==> us[i].base == s || us[i].base == t) && rename.base == v
  {
    hide Apply, Enabled, Runs, FirstMoved, UriKey;
    us, d, rename := LongRun(s, t), FirstMoved(s, t), Plain(Y, [1], 3, v);
    LongRunReaches(s, t);
    FourthThrows(s, t, v);
  }

  // ---------------------------------------------------------------- a slug that is lost

  function TwoRun(s: string): seq<Upsert> { [Plain(X, [], 0, s)] + ([Plain(Y, [], 1, s)] + []) }

  lemma TwoRunReaches(s: string)
    ensures Runs(EMPTY, TwoRun(s), TwoListings(s))
  {
    FirstUpsert(s);
    SecondUpsert(s);
    RunsNothing(TwoListings(s));
    hide Apply, Enabled, Plain, Runs, OneListing, TwoListings;
    RunsFirst(OneListing(s), Plain(Y, [], 1, s), TwoListings(s), [], TwoListings(s));
    RunsFirst(EMPTY, Plain(X, [], 0, s), OneListing(s), [Plain(Y, [], 1, s)] + [], TwoListings(s));
  }

  lemma PlainIsRoomy(d: Directory, uri: Uri, newId: Id, s: string)
    requires Clean(s) && |s| <= 77 && (forall t :: SlugKey(t) !in d.aliases)
    requires d.listings == map[] || d.listings == map[0 := Row(s, true)]
    ensures Roomy(d, Plain(uri, [], newId, s))
  {
    hide SlugKey, Clean, UniqueSlug, FirstFree;
    var u := Plain(uri, [], newId, s);
    MergesNobody(d, u, newId);
    CopyIsFree(Merged(d, u), s, newId);
    hide Merged, Taken;
    ShortBaseIsRoomy(d, u);
  }

  lemma CopyIsFree(d: Directory, s: string, id: Id)
    requires (forall t :: SlugKey(t) !in d.aliases) && (d.listings == map[] || d.listings == map[0 := Row(s, true)])
    ensures FirstFree(d, s, id, 1).Some?
  {
    hide SlugKey, FirstFree;
    assert Candidate(s, 2) == s + "-2" by { assert Digits(2) == "2"; }
    assert !Taken(d, Candidate(s, 2), id);
    SomeIsFree(d, s, id, 1, 2);
  }

  lemma SomeIsFree(d: Directory, base: string, id: Id, i: nat, n: nat)
    requires i <= n <= ATTEMPTS && !Taken(d, Candidate(base, n), id)
    ensures FirstFree(d, base, id, i).Some?
  {
    hide Taken, Candidate;
  }

  lemma RoomyFirst(d: Directory, u: Upsert, d1: Directory, us: seq<Upsert>)
    requires Roomy(d, u) && Apply(d, u) == Some(d1) && RoomyRuns(d1, us)
    ensures RoomyRuns(d, [u] + us)
  {
    hide Roomy, Apply;
    assert ([u] + us)[1..] == us;
  }

  lemma RoomyNothing(d: Directory)
    ensures RoomyRuns(d, [])
  {
  }

  lemma OneListingIs(s: string)
    ensures OneListing(s).listings == map[0 := Row(s, true)] && forall t :: SlugKey(t) !in OneListing(s).aliases
    ensures EMPTY.listings == map[] && forall t :: SlugKey(t) !in EMPTY.aliases
  {
    KeysOfXY();
    hide UriKey, SlugKey;
  }

  lemma TwoRunIsRoomy(s: string)
    requires Clean(s) && |s| <= 77
    ensures RoomyRuns(EMPTY, TwoRun(s))
  {
    hide UriKey, SlugKey, Apply, Enabled, Roomy, RoomyRuns, Plain, Clean, OneListing, TwoListings;
    OneListingIs(s);
    PlainIsRoomy(EMPTY, X, 0, s);
    PlainIsRoomy(OneListing(s), Y, 1, s);
    FirstUpsert(s);
    SecondUpsert(s);
    RoomyNothing(TwoListings(s));
    RoomyFirst(OneListing(s), Plain(Y, [], 1, s), TwoListings(s), []);
    RoomyFirst(EMPTY, Plain(X, [], 0, s), OneListing(s), [Plain(Y, [], 1, s)] + []);
  }

  /** The upsert in which `x` comes to name `y` too, so that their listings merge. */
  function Joining(s: string): Upsert { Upsert(X, [UriKey(X), UriKey(Y)], [0, 1], 2, s) }

  lemma JoiningIsEnabled(s: string)
    ensures var d, u := TwoListings(s), Joining(s);
            && Enabled(d, u) && Duplicates(u) == {1} && SlugKey(s + "-2") !in d.aliases
            && d.listings[1] == Row(s + "-2", true)
  {
    KeysOfXY();
    hide SlugKey, UriKey, IsSlugKey;
    var d, u := TwoListings(s), Joining(s);
    assert u.order[0] == 0 && u.order[1] == 1 && u.keys[0] == UriKey(X) && u.keys[1] == UriKey(Y);
    assert forall i :: i in u.order <==> i == 0 || i == 1;
    assert forall k :: k in u.keys <==> k == UriKey(X) || k == UriKey(Y);
    assert d.aliases[UriKey(X)] == 0 && d.aliases[UriKey(Y)] == 1;
    assert Found(d.aliases, u.keys) == {0, 1};
  }

  lemma JoiningIsRoomy(s: string)
    requires Clean(s) && |s| <= 77
    ensures Roomy(TwoListings(s), Joining(s))
  {
    var d, u := TwoListings(s), Joining(s);
    assert !Taken(Merged(d, u), s, 0) by {
      KeysOfXY();
      hide SlugKey, UriKey, IsSlugKey;
    }
    hide SlugKey, UriKey, Merged, Taken, Clean, TwoListings;
    FreeBaseIsRoomy(d, u);
  }

  /** For every clean slug with room for a number: two records ask for it, one of them comes to name the other, and
      the numbered slug, which had never been left, resolves to nobody from then on. */
  lemma MergeLosesSlug(s: string)
    requires Clean(s) && |s| <= 77
    ensures Runs(EMPTY, TwoRun(s), TwoListings(s)) && SlugInv(TwoListings(s))
    ensures var d, u := TwoListings(s), Joining(s);
            && d.listings[1] == Row(s + "-2", true) && Enabled(d, u) && Roomy(d, u) && Apply(d, u).Some?
            && !exists x :: ResolvesTo(Apply(d, u).value, s + "-2", x)
  {
    hide Apply, Enabled, Runs, RoomyRuns, SlugKey, UriKey, Roomy, SlugInv, ResolvesTo, Clean, Joining, TwoListings,
      Duplicates;
    TwoRunReaches(s);
    TwoRunIsRoomy(s);
    EmptyIsOwned();
    RunsKeepSlugs(EMPTY, TwoRun(s), TwoListings(s));
    JoiningIsEnabled(s);
    JoiningIsRoomy(s);
    MergedSlugIsLost(TwoListings(s), Joining(s), 1);
  }

  lemma EmptyIsOwned()
    ensures SlugInv(EMPTY)
  {
  }

  // ---------------------------------------------------------------- a fallback that is taken

  /** The URI of the `i`-th record of a crowd. */
  function Name(i: nat): Uri { seq(i + 1, _ => 'x') }

  lemma NameKeys(i: nat)
    ensures UriKey(Name(i)) == "uri:" + Name(i) && !IsSlugKey(UriKey(Name(i)))
    ensures forall j: nat :: j != i ==> Name(j) != Name(i) && UriKey(Name(i)) != "uri:" + Name(j)
  {
    TrimShape("uri:" + Name(i));
    assert ("uri:" + Name(i))[|Name(i)| + 3] == 'x';
    forall j: nat | j != i ensures Name(j) != Name(i) && "uri:" + Name(i) != "uri:" + Name(j) {
      assert |Name(j)| == j + 1;
    }
  }

  /** Listing 0 has the slug `first`, listing `i` the `i`-th candidate of `base`, up to the `n`-th. */
  ghost predicate Crowd(d: Directory, base: string, first: string, n: nat) {
    && (forall i: nat :: i in d.listings <==> i <= n)
    && d.listings[0] == Row(first, true)
    && (forall i :: 1 <= i <= n ==> d.listings[i] == Row(Candidate(base, i), true))
    && (forall t :: SlugKey(t) !in d.aliases)
    && (forall k :: k in d.aliases ==> d.aliases[k] <= n) && (forall r :: r in d.records ==> d.records[r] <= n)
    && (forall i: nat :: i > n ==> UriKey(Name(i)) !in d.aliases)
  }

  lemma TwoDigits(i: nat)
    ensures i < 100 ==> |Digits(i)| <= 2
    ensures i >= 100 ==> |Digits(i)| >= 3
  {
    if i >= 10 {
      assert Digits(i) == Digits(i / 10) + [('0' as int + i % 10) as char];
      if i >= 100 { assert |Digits(i / 10)| >= 2 by { assert i / 10 >= 10; } }
    }
  }

  lemma {:induction false} DigitsDiffer(i: nat, j: nat)
    requires Digits(i) == Digits(j)
    ensures i == j
  {
    assert i >= 10 ==> |Digits(i / 10)| >= 1;
    assert j >= 10 ==> |Digits(j / 10)| >= 1;
    if i >= 10 && j >= 10 {
      var s := Digits(i);
      assert s[..|s| - 1] == Digits(i / 10) && s[..|s| - 1] == Digits(j / 10);
      DigitsDiffer(i / 10, j / 10);
    }
  }

  lemma CandidatesDiffer(base: string, i: nat, j: nat)
    requires 1 <= i < j
    ensures Candidate(base, i) != Candidate(base, j)
  {
    if Candidate(base, i) == Candidate(base, j) && i > 1 {
      assert Candidate(base, i)[|base| + 1..] == Digits(i) && Candidate(base, j)[|base| + 1..] == Digits(j);
      DigitsDiffer(i, j);
    }
  }

  lemma FallbackDiffers(base: string, id: nat, i: nat)
    requires id >= 100 && i < 100
    ensures Fallback(base, id) != Candidate(base, i)
  {
    TwoDigits(id);
    TwoDigits(i);
  }

  /** A newcomer finds the first `n` candidates taken and, if there is room, the next one free. */
  lemma CrowdTakes(d: Directory, base: string, id: Id, n: nat, newId: Id)
    requires Crowd(d, base, Fallback(base, id), n) && n <= ATTEMPTS && id >= 100 && newId > n
    ensures forall i :: 1 <= i <= n ==> Taken(d, Candidate(base, i), newId)
    ensures !Taken(d, Candidate(base, n + 1), newId)
  {
    hide SlugKey, Candidate, Fallback;
    forall i | 1 <= i <= n ensures Taken(d, Candidate(base, i), newId) {
      assert d.listings[i].slug == Candidate(base, i);
    }
    forall j | j in d.listings ensures d.listings[j].slug != Candidate(base, n + 1) {
      if j == 0 { FallbackDiffers(base, id, n + 1); } else { CandidatesDiffer(base, j, n + 1); }
    }
  }

  lemma {:induction false} FirstIs(d: Directory, base: string, id: Id, i: nat, n: nat)
    requires i <= n + 1 <= ATTEMPTS + 1 && forall k :: i <= k <= n ==> Taken(d, Candidate(base, k), id)
    ensures n == ATTEMPTS ==> FirstFree(d, base, id, i).None?
    ensures n < ATTEMPTS && !Taken(d, Candidate(base, n + 1), id) ==> FirstFree(d, base, id, i) == Some(n + 1)
    decreases n + 1 - i
  {
    hide Taken, Candidate;
    if i <= n { FirstIs(d, base, id, i + 1, n); }
  }

  lemma CrowdMerges(d: Directory, base: string, first: string, n: nat, u: Upsert)
    requires Crowd(d, base, first, n) && u.order == []
    ensures Merged(d, u).listings == d.listings && Merged(d, u).aliases == d.aliases
  {
    MergesNobody(d, u, u.newId);
  }

  lemma CrowdSlug(d: Directory, base: string, id: Id, n: nat)
    requires Crowd(d, base, Fallback(base, id), n) && n < ATTEMPTS && id >= 100
    ensures UniqueSlug(Merged(d, Plain(Name(n + 1), [], n + 1, base)), base, n + 1) == Candidate(base, n + 1)
  {
    hide Candidate, Fallback, Crowd, Merged, Taken;
    var u := Plain(Name(n + 1), [], n + 1, base);
    CrowdMerges(d, base, Fallback(base, id), n, u);
    CrowdTakes(d, base, id, n, n + 1);
    SameTaken(d, Merged(d, u));
    FirstIs(Merged(d, u), base, n + 1, 1, n);
  }

  lemma SameTaken(d: Directory, d': Directory)
    requires d'.listings == d.listings && d'.aliases == d.aliases
    ensures forall slug, id :: Taken(d', slug, id) == Taken(d, slug, id)
  {
  }

  lemma CrowdIsEnabled(d: Directory, base: string, first: string, n: nat, newId: Id)
    requires Crowd(d, base, first, n) && newId > n
    ensures Enabled(d, Plain(Name(n + 1), [], newId, base))
  {
    hide SlugKey;
    NameKeys(n + 1);
    PlainIsEnabled(d, Name(n + 1), [], newId, base);
  }

  /** One newcomer more. */
  lemma CrowdGrows(d: Directory, base: string, id: Id, n: nat)
    requires Crowd(d, base, Fallback(base, id), n) && n < ATTEMPTS && id >= 100
    ensures var u := Plain(Name(n + 1), [], n + 1, base);
            && Enabled(d, u) && Apply(d, u).Some? && Crowd(Apply(d, u).value, base, Fallback(base, id), n + 1)
  {
    var u := Plain(Name(n + 1), [], n + 1, base);
    var d' := Directory(Claim(d.aliases, u.keys, n + 1), d.records[u.uri := n + 1],
                        d.listings[n + 1 := Row(Candidate(base, n + 1), true)]);
    assert Apply(d, u) == Some(d') by {
      hide Candidate, Fallback, Crowd, Merged, Taken, Enabled, UniqueSlug, SlugKey, Apply;
      CrowdIsEnabled(d, base, Fallback(base, id), n, n + 1);
      CrowdSlug(d, base, id, n);
      CrowdTakes(d, base, id, n, n + 1);
      SlugIsNew(d, Candidate(base, n + 1), n + 1);
      NewListing(d, u, Candidate(base, n + 1));
    }
    hide Apply, Enabled, Candidate, Fallback, SlugKey, UriKey;
    CrowdIsEnabled(d, base, Fallback(base, id), n, n + 1);
    JoinsCrowd(d, d', base, Fallback(base, id), n);
  }

  lemma SlugIsNew(d: Directory, slug: string, id: Id)
    requires !Taken(d, slug, id) && id !in d.listings
    ensures forall j :: j in d.listings ==> d.listings[j].slug != slug
  {
  }

  lemma ClaimOne(aliases: map<Key, Id>, k: Key, id: Id)
    ensures Claim(aliases, [k], id) == aliases[k := id]
  {
    var keys := [k];
    assert forall x :: x in keys <==> x == k;
    assert Claim(aliases, keys, id) == aliases[k := id];
  }

  lemma KeyIsNew(n: nat)
    ensures forall i: nat :: i != n ==> UriKey(Name(i)) != UriKey(Name(n))
    ensures forall t :: SlugKey(t) != UriKey(Name(n))
  {
    NameKeys(n);
    forall i: nat | i != n ensures UriKey(Name(i)) != UriKey(Name(n)) { NameKeys(i); }
    forall t ensures SlugKey(t) != UriKey(Name(n)) { assert IsSlugKey(SlugKey(t)); }
  }

  lemma JoinsCrowd(d: Directory, d': Directory, base: string, first: string, n: nat)
    requires Crowd(d, base, first, n)
    requires d' == Directory(Claim(d.aliases, [UriKey(Name(n + 1))], n + 1), d.records[Name(n + 1) := n + 1],
                             d.listings[n + 1 := Row(Candidate(base, n + 1), true)])
    ensures Crowd(d', base, first, n + 1)
  {
    hide UriKey, SlugKey, IsSlugKey, Candidate, Name, Claim;
    KeyIsNew(n + 1);
    ClaimOne(d.aliases, UriKey(Name(n + 1)), n + 1);
  }

  lemma FirstOfCrowd(d: Directory, base: string, first: string)
    requires d == Directory(Claim(map[], [UriKey(Name(0))], 0), map[Name(0) := 0], map[0 := Row(first, true)])
    ensures Crowd(d, base, first, 0)
  {
    hide UriKey, SlugKey, IsSlugKey, Name, Claim;
    KeyIsNew(0);
    ClaimOne(map[], UriKey(Name(0)), 0);
  }

  lemma CrowdBegins(first: string, base: string)
    ensures var u := Plain(Name(0), [], 0, first);
            Enabled(EMPTY, u) && Apply(EMPTY, u).Some? && Crowd(Apply(EMPTY, u).value, base, first, 0)
  {
    NameKeys(0);
    hide UriKey, SlugKey, IsSlugKey, Apply, Name, Crowd;
    var u := Plain(Name(0), [], 0, first);
    PlainIsEnabled(EMPTY, Name(0), [], 0, first);
    hide Enabled;
    MergesNobody(EMPTY, u, 0);
    TakesBase(Merged(EMPTY, u), first, 0);
    NewListing(EMPTY, u, first);
    FirstOfCrowd(Apply(EMPTY, u).value, base, first);
  }

  lemma {:induction false} RunsLast(d: Directory, us: seq<Upsert>, d1: Directory, u: Upsert)
    requires Runs(d, us, d1) && Enabled(d1, u) && Apply(d1, u).Some?
    ensures Runs(d, us + [u], Apply(d1, u).value)
    decreases |us|
  {
    hide Apply, Enabled;
    if us == [] {
      assert us + [u] == [u] && [u][1..] == [];
      RunsNothing(Apply(d1, u).value);
    } else {
      RunsLast(Apply(d, us[0]).value, us[1..], d1, u);
      assert (us + [u])[1..] == us[1..] + [u];
    }
  }

  lemma {:induction false} CrowdRun(base: string, id: Id, n: nat) returns (us: seq<Upsert>, d: Directory)
    requires n <= ATTEMPTS && id >= 100
    ensures Runs(EMPTY, us, d) && Crowd(d, base, Fallback(base, id), n)
  {
    hide Apply, Enabled, Crowd, Fallback, Name, Runs;
    var u: Upsert;
    if n == 0 {
      u := Plain(Name(0), [], 0, Fallback(base, id));
      us, d := [], EMPTY;
      RunsNothing(EMPTY);
      CrowdBegins(Fallback(base, id), base);
    } else {
      us, d := CrowdRun(base, id, n - 1);
      u := Plain(Name(n), [], n, base);
      CrowdGrows(d, base, id, n - 1);
    }
    RunsLast(EMPTY, us, d, u);
    us, d := us + [u], Apply(d, u).value;
  }

  /** The other way to throw is reachable too, for every slug and every new listing's id: one record asks for the very
      fallback, 48 ask for the slug and use up its candidates, and the next one finds the fallback taken. */
  lemma FallbackThrows(base: string, id: Id) returns (us: seq<Upsert>, d: Directory, u: Upsert)
    requires id >= 100
    ensures Runs(EMPTY, us, d) && Enabled(d, u) && u.base == base && u.newId == Survivor(u) == id
    ensures FallbackClashes(d, u) && Apply(d, u).None?
  {
    hide Apply, Enabled, Runs, Crowd, Fallback, Candidate, Merged, FallbackClashes, ReservedElsewhere, Name, Taken;
    us, d := CrowdRun(base, id, ATTEMPTS);
    u := Plain(Name(ATTEMPTS + 1), [], id, base);
    CrowdIsEnabled(d, base, Fallback(base, id), ATTEMPTS, id);
    CrowdMerges(d, base, Fallback(base, id), ATTEMPTS, u);
    CrowdTakes(d, base, id, ATTEMPTS, id);
    SameTaken(d, Merged(d, u));
    FirstIs(Merged(d, u), base, id, 1, ATTEMPTS);
    FallbackIsTaken(d, base, id, u);
    UpsertThrowsExactly(d, u);
  }

  lemma FallbackIsTaken(d: Directory, base: string, id: Id, u: Upsert)
    requires Crowd(d, base, Fallback(base, id), ATTEMPTS) && id >= 100 && u.order == [] && u.newId == id
             && u.base == base
    requires Merged(d, u).listings == d.listings && FirstFree(Merged(d, u), base, id, 1).None?
    ensures FallbackClashes(d, u)
  {
    hide FirstFree, Fallback, Candidate, Merged;
    assert d.listings[0].slug == Fallback(base, id);
  }
}
