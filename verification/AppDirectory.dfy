/** The tables that converge records into listings (lib/app-directory.ts): the alias table, the record table and the
    slugs of the listing table. */
module AppDirectory {
  import opened Wrappers
  import opened Slugs

  type Id = nat
  type Key = string
  type Uri = string

  /** `live` is false once `deleted_at` is set. */
  datatype Row = Row(slug: string, live: bool)

  datatype Directory = Directory(aliases: map<Key, Id>, records: map<Uri, Id>, listings: map<Id, Row>)

  const EMPTY := Directory(map[], map[], map[])

  /** One upsert: the record's URI and aliases, the order in which the database happens to return the listings
      already known under those aliases, the UUID drawn for a new listing, and the slug the merged drafts ask for. */
  datatype Upsert = Upsert(uri: Uri, keys: seq<Key>, order: seq<Id>, newId: Id, base: string)

  function Found(aliases: map<Key, Id>, keys: seq<Key>): set<Id> {
    set k | k in keys && k in aliases :: aliases[k]
  }

  function Survivor(u: Upsert): Id {
    if u.order == [] then u.newId else u.order[0]
  }

  function Duplicates(u: Upsert): set<Id> {
    set i | i in u.order && i != Survivor(u)
  }

  /** `mergeDuplicateListing` for each of `dups`. */
  function Merge(d: Directory, survivor: Id, dups: set<Id>): Directory {
    Directory(map k | k in d.aliases :: if k in d.aliases && d.aliases[k] in dups then survivor else d.aliases[k],
              map u | u in d.records :: if u in d.records && d.records[u] in dups then survivor else d.records[u],
              map i | i in d.listings :: if i in d.listings.Keys * dups then d.listings[i].(live := false)
                                         else d.listings[i])
  }

  predicate Taken(d: Directory, slug: string, id: Id) {
    || (exists j :: j in d.listings && j != id && d.listings[j].slug == slug)
    || (SlugKey(slug) in d.aliases && d.aliases[SlugKey(slug)] != id)
  }

  const ATTEMPTS: nat := 48

  /** The first free candidate from the `i`-th on, if one of the 48 is free. */
  function FirstFree(d: Directory, base: string, id: Id, i: nat): (r: Option<nat>)
    ensures r.Some? ==> i <= r.value <= ATTEMPTS && !Taken(d, Candidate(base, r.value), id)
    ensures r.Some? ==> forall j :: i <= j < r.value ==> Taken(d, Candidate(base, j), id)
    ensures r.None? ==> forall j :: i <= j <= ATTEMPTS ==> Taken(d, Candidate(base, j), id)
    decreases ATTEMPTS + 1 - i
  {
    if i > ATTEMPTS then None
    else if !Taken(d, Candidate(base, i), id) then Some(i)
    else FirstFree(d, base, id, i + 1)
  }

  /** The slug a listing gets; the fallback after 48 attempts is not checked. */
  function UniqueSlug(d: Directory, base: string, id: Id): string {
    match FirstFree(d, base, id, 1)
    case Some(i) => Candidate(base, i)
    case None => Fallback(base, id)
  }

  /** The alias table once the slug that the listing leaves for `slug` has been reserved for it. */
  function MoveTo(aliases: map<Key, Id>, rows: map<Id, Row>, id: Id, slug: string): map<Key, Id> {
    if id in rows && rows[id].slug != slug && SlugKey(rows[id].slug) !in aliases
    then aliases[SlugKey(rows[id].slug) := id] else aliases
  }

  /** Move a listing to its slug, first reserving the slug it leaves.  `None`: the program throws, because the left
      slug is reserved for another listing or the unique index on slugs is violated. */
  function Recompute(d: Directory, id: Id, base: string): Option<Directory> {
    var slug := UniqueSlug(d, base, id);
    var aliases := MoveTo(d.aliases, d.listings, id, slug);
    if id in d.listings && d.listings[id].slug != slug && aliases[SlugKey(d.listings[id].slug)] != id then None
    else if exists j :: j in d.listings && j != id && d.listings[j].slug == slug then None
    else Some(d.(aliases := aliases, listings := d.listings[id := Row(slug, true)]))
  }

  function Claim(aliases: map<Key, Id>, keys: seq<Key>, id: Id): map<Key, Id> {
    map k | k in aliases.Keys + (set k | k in keys) :: if k in keys then id else aliases[k]
  }

  /** `upsertAppRecordFromDraft`. */
  function Apply(d: Directory, u: Upsert): Option<Directory> {
    var id := Survivor(u);
    var d1 := Merge(d, id, Duplicates(u));
    match Recompute(d1.(records := d1.records[u.uri := id]), id, u.base)
    case None => None
    case Some(d2) => Some(d2.(aliases := Claim(d2.aliases, u.keys, id)))
  }

  /** What an upsert that throws leaves behind: the merge, the record, and the slug it may have reserved. */
  function Interrupted(d: Directory, u: Upsert): Directory {
    var id := Survivor(u);
    var d1 := Merge(d, id, Duplicates(u));
    var d2 := d1.(records := d1.records[u.uri := id]);
    d2.(aliases := MoveTo(d2.aliases, d2.listings, id, UniqueSlug(d2, u.base, id)))
  }

  /** Where an upsert leads, returning or throwing. */
  function Next(d: Directory, u: Upsert): Directory {
    if Apply(d, u).Some? then Apply(d, u).value else Interrupted(d, u)
  }

  /** What an upsert may rely on: its aliases are those of a draft, the database returned each listing once, and the
      UUID is new. */
  ghost predicate Enabled(d: Directory, u: Upsert) {
    && UriKey(u.uri) in u.keys
    && (forall k :: k in u.keys ==> !IsSlugKey(k))
    && (forall i :: i in u.order <==> i in Found(d.aliases, u.keys))
    && (forall i, j :: 0 <= i < j < |u.order| ==> u.order[i] != u.order[j])
    && u.newId !in d.listings
    && (forall k :: k in d.aliases ==> d.aliases[k] != u.newId)
    && (forall r :: r in d.records ==> d.records[r] != u.newId)
  }

  /** The upserts `us` all return, one after the other, and take `d` to `d'`. */
  ghost predicate Runs(d: Directory, us: seq<Upsert>, d': Directory)
    decreases |us|
  {
    if us == [] then d' == d
    else Enabled(d, us[0]) && Apply(d, us[0]).Some? && Runs(Apply(d, us[0]).value, us[1..], d')
  }
}
