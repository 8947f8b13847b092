/** Everything that one upsert leaves in the directory's tables, returning or throwing, and which slug it chooses. */
module AppUpsertEffects {
  import opened Wrappers
  import opened Slugs
  import opened AppDirectory

  // ---------------------------------------------------------------- the slug

  function ValueOf(s: string): int {
    if s == "" then 0 else ValueOf(s[..|s| - 1]) * 10 + (s[|s| - 1] as int - '0' as int)
  }

  /** The text is the decimal numeral of the number. */
  predicate Numeral(s: string, n: nat) {
    s != "" && (forall i :: 0 <= i < |s| ==> '0' <= s[i] <= '9') && (s[0] == '0' ==> |s| == 1) && ValueOf(s) == n
  }

  lemma {:induction false} DigitsAreTheNumeral(n: nat)
    ensures Numeral(Digits(n), n)
    ensures n > 0 ==> Digits(n)[0] != '0'
  {
    if n >= 10 {
      DigitsAreTheNumeral(n / 10);
      var last := [('0' as int + n % 10) as char];
      assert Digits(n) == Digits(n / 10) + last;
      assert Digits(n)[..|Digits(n)| - 1] == Digits(n / 10);
    } else {
      assert Digits(n)[..0] == "";
    }
  }

  lemma {:induction false} NumeralsAreUnique(s: string, n: nat)
    requires Numeral(s, n)
    ensures s == Digits(n)
  {
    var front := s[..|s| - 1];
    if front == "" {
      assert ValueOf(front) == 0 && s == [s[0]];
    } else {
      LeadingDigit(front);
      assert ValueOf(front) == n / 10 && s[|s| - 1] as int - '0' as int == n % 10;
      NumeralsAreUnique(front, n / 10);
      assert s == front + [s[|s| - 1]];
    }
  }

  lemma {:induction false} LeadingDigit(s: string)
    requires s != "" && (forall i :: 0 <= i < |s| ==> '0' <= s[i] <= '9') && s[0] != '0'
    ensures ValueOf(s) > 0
  {
    if |s| > 1 { LeadingDigit(s[..|s| - 1]); }
  }

  /** The base itself, or the base with a number from 2 on. */
  ghost predicate Numbered(base: string, n: nat, slug: string) {
    (n == 1 && slug == base) || (n > 1 && exists t :: Numeral(t, n) && slug == base + "-" + t)
  }

  lemma CandidatesAreNumbered(base: string, n: nat)
    requires n >= 1
    ensures Numbered(base, n, Candidate(base, n))
    ensures forall slug :: Numbered(base, n, slug) ==> slug == Candidate(base, n)
  {
    DigitsAreTheNumeral(n);
    forall t | Numeral(t, n) ensures t == Digits(n) { NumeralsAreUnique(t, n); }
  }

  /** No other listing has the slug, and none has it reserved. */
  ghost predicate FreeFor(d: Directory, slug: string, id: Id) {
    && (forall j :: j in d.listings && d.listings[j].slug == slug ==> j == id)
    && ("slug:" + Slugify(slug) in d.aliases ==> d.aliases["slug:" + Slugify(slug)] == id)
  }

  ghost predicate NoneFree(d: Directory, base: string, id: Id, n: nat) {
    forall m: nat, slug :: 1 <= m < n && Numbered(base, m, slug) ==> !FreeFor(d, slug, id)
  }

  /** The first of the 48 candidates that is free, or else the base with the beginning of the listing's id. */
  ghost predicate Chosen(d: Directory, base: string, id: Id, slug: string) {
    || (exists n :: 1 <= n <= 48 && Numbered(base, n, slug) && FreeFor(d, slug, id) && NoneFree(d, base, id, n))
    || (NoneFree(d, base, id, 49)
        && exists t :: Numeral(t, id) && slug == base + "-" + if |t| <= 8 then t else t[..8])
  }

  lemma FreeIsNotTaken(d: Directory, slug: string, id: Id)
    ensures FreeFor(d, slug, id) <==> !Taken(d, slug, id)
  {
  }

  lemma NoneIsFree(d: Directory, base: string, id: Id, n: nat)
    requires n <= 49 && forall m :: 1 <= m < n ==> Taken(d, Candidate(base, m), id)
    ensures NoneFree(d, base, id, n)
  {
    hide FreeFor, Numbered, Candidate, Taken;
    forall m: nat, slug | 1 <= m < n && Numbered(base, m, slug) ensures !FreeFor(d, slug, id) {
      CandidatesAreNumbered(base, m);
      FreeIsNotTaken(d, slug, id);
    }
  }

  lemma SlugIsChosen(d: Directory, base: string, id: Id)
    ensures Chosen(d, base, id, UniqueSlug(d, base, id))
  {
    hide Candidate, Numbered, FreeFor, Taken, NoneFree;
    match FirstFree(d, base, id, 1)
    case Some(n) =>
      NoneIsFree(d, base, id, n);
      CandidatesAreNumbered(base, n);
      FreeIsNotTaken(d, Candidate(base, n), id);
    case None =>
      NoneIsFree(d, base, id, 49);
      DigitsAreTheNumeral(id);
      var t := Digits(id);
      assert Numeral(t, id) && Fallback(base, id) == base + "-" + if |t| <= 8 then t else t[..8];
  }

  // ---------------------------------------------------------------- the tables

  /** The listing that the upsert's record goes to: the first that its aliases know, or a new one. */
  predicate GoesTo(u: Upsert, id: Id) {
    if u.order == [] then id == u.newId else id == u.order[0]
  }

  function Followed(u: Upsert, i: Id, id: Id): Id { if i in u.order then id else i }

  /** What is written before the slug is chosen: all that belonged to one of the known listings belongs to the first,
      the record too, and the others are deleted. */
  ghost predicate Gathers(d: Directory, u: Upsert, id: Id, g: Directory) {
    && g.aliases.Keys == d.aliases.Keys && (forall k :: k in d.aliases ==>
                                                          g.aliases[k] == Followed(u, d.aliases[k], id))
    && g.records.Keys == d.records.Keys + {u.uri} && g.records[u.uri] == id
    && (forall r :: r in d.records && r != u.uri ==> g.records[r] == Followed(u, d.records[r], id))
    && g.listings.Keys == d.listings.Keys
    && (forall i :: i in d.listings ==> g.listings[i] == Row(d.listings[i].slug,
                                                             d.listings[i].live && !(i in u.order && i != id)))
  }

  /** The listing leaves its slug for another one. */
  predicate Leaves(g: Directory, id: Id, slug: string) { id in g.listings && g.listings[id].slug != slug }

  function OldKey(g: Directory, id: Id): string
    requires id in g.listings
  {
    "slug:" + Slugify(g.listings[id].slug)
  }

  /** The slug it leaves is reserved for another listing, or another one has the slug it gets. */
  ghost predicate Stops(g: Directory, id: Id, slug: string) {
    || (Leaves(g, id, slug) && OldKey(g, id) in g.aliases && g.aliases[OldKey(g, id)] != id)
    || exists j :: j in g.listings && j != id && g.listings[j].slug == slug
  }

  /** From the gathered tables `g`: a slug that is left and not reserved yet is reserved; unless the upsert stops, the
      listing then gets its slug and the aliases of the record. */
  ghost predicate Finishes(g: Directory, u: Upsert, id: Id, slug: string, d': Directory) {
    && d'.records == g.records
    && (if Stops(g, id, slug) then d'.listings == g.listings
        else && d'.listings.Keys == g.listings.Keys + {id} && d'.listings[id] == Row(slug, true)
             && forall i :: i in g.listings && i != id ==> d'.listings[i] == g.listings[i])
    && forall k :: if k in u.keys && !Stops(g, id, slug) then k in d'.aliases && d'.aliases[k] == id
                   else if k in g.aliases then k in d'.aliases && d'.aliases[k] == g.aliases[k]
                   else if Leaves(g, id, slug) && k == OldKey(g, id) then k in d'.aliases && d'.aliases[k] == id
                   else k !in d'.aliases
  }

  ghost predicate UpsertLeaves(d: Directory, u: Upsert, d': Directory, returned: bool) {
    exists id, g, slug :: && GoesTo(u, id) && Gathers(d, u, id, g) && Chosen(g, u.base, id, slug)
                          && Finishes(g, u, id, slug, d') && (returned <==> !Stops(g, id, slug))
  }

  function Gathering(d: Directory, u: Upsert): Directory {
    var g := Merge(d, Survivor(u), Duplicates(u));
    g.(records := g.records[u.uri := Survivor(u)])
  }

  lemma GatheringGathers(d: Directory, u: Upsert)
    ensures Gathers(d, u, Survivor(u), Gathering(d, u))
  {
    forall i ensures i in Duplicates(u) <==> i in u.order && i != Survivor(u) { }
  }

  lemma FinishingReturned(d: Directory, u: Upsert)
    requires Apply(d, u).Some?
    ensures var g, id := Gathering(d, u), Survivor(u);
            !Stops(g, id, UniqueSlug(g, u.base, id)) && Finishes(g, u, id, UniqueSlug(g, u.base, id), Apply(d, u).value)
  {
    hide UniqueSlug, Merge, Slugify;
  }

  lemma FinishingThrown(d: Directory, u: Upsert)
    requires Apply(d, u).None?
    ensures var g, id := Gathering(d, u), Survivor(u);
            Stops(g, id, UniqueSlug(g, u.base, id)) && Finishes(g, u, id, UniqueSlug(g, u.base, id), Interrupted(d, u))
  {
    hide UniqueSlug, Merge, Slugify;
  }

  /** What every upsert leaves, in any state. */
  lemma EveryUpsertLeaves(d: Directory, u: Upsert)
    ensures UpsertLeaves(d, u, Next(d, u), Apply(d, u).Some?)
  {
    hide Gathers, Chosen, Finishes, Stops, Apply, Interrupted, UniqueSlug;
    var g, id := Gathering(d, u), Survivor(u);
    GatheringGathers(d, u);
    SlugIsChosen(g, u.base, id);
    if Apply(d, u).Some? { FinishingReturned(d, u); } else { FinishingThrown(d, u); }
  }
}
