/** Convergence: the listings partition the records exactly as the alias sets upserted so far connect them,
    whichever ids survive and in whatever order the upserts came. */
module AppPartition {
  import opened Wrappers
  import opened Slugs
  import opened AppDirectory

  // ---------------------------------------------------------------- connectivity

  ghost predicate Linked(edges: set<set<Key>>, x: Key, y: Key) {
    exists e :: e in edges && x in e && y in e
  }

  ghost predicate Path(edges: set<set<Key>>, p: seq<Key>) {
    p != [] && forall i :: 0 <= i < |p| - 1 ==> Linked(edges, p[i], p[i + 1])
  }

  ghost predicate PathFromTo(edges: set<set<Key>>, p: seq<Key>, x: Key, y: Key) {
    Path(edges, p) && p[0] == x && p[|p| - 1] == y
  }

  /** `x` and `y` are joined by a chain of alias sets. */
  ghost predicate Connected(edges: set<set<Key>>, x: Key, y: Key) {
    exists p :: PathFromTo(edges, p, x, y)
  }

  ghost predicate Vertex(edges: set<set<Key>>, x: Key) {
    exists e :: e in edges && x in e
  }

  lemma Step(edges: set<set<Key>>, e: set<Key>, x: Key, y: Key)
    requires e in edges && x in e && y in e
    ensures Connected(edges, x, y)
  {
    assert Linked(edges, x, y);
    assert PathFromTo(edges, [x, y], x, y);
  }

  lemma Stay(edges: set<set<Key>>, x: Key)
    ensures Connected(edges, x, x)
  {
    assert PathFromTo(edges, [x], x, x);
  }

  lemma Join(edges: set<set<Key>>, x: Key, y: Key, z: Key)
    requires Connected(edges, x, y) && Connected(edges, y, z)
    ensures Connected(edges, x, z)
  {
    var p :| PathFromTo(edges, p, x, y);
    var q :| PathFromTo(edges, q, y, z);
    var r := p + q[1..];
    forall i | 0 <= i < |r| - 1 ensures Linked(edges, r[i], r[i + 1]) {
      if i < |p| - 1 {
        assert r[i] == p[i] && r[i + 1] == p[i + 1];
      } else {
        assert r[i] == q[i - (|p| - 1)] && r[i + 1] == q[i - (|p| - 1) + 1];
      }
    }
    assert PathFromTo(edges, r, x, z);
  }

  lemma Reverse(edges: set<set<Key>>, x: Key, y: Key)
    requires Connected(edges, x, y)
    ensures Connected(edges, y, x)
  {
    var p :| PathFromTo(edges, p, x, y);
    var r := seq(|p|, i requires 0 <= i < |p| => p[|p| - 1 - i]);
    forall i | 0 <= i < |r| - 1 ensures Linked(edges, r[i], r[i + 1]) {
      assert Linked(edges, p[|p| - 2 - i], p[|p| - 1 - i]);
    }
    assert PathFromTo(edges, r, y, x);
  }

  lemma MoreEdges(edges: set<set<Key>>, more: set<set<Key>>, x: Key, y: Key)
    requires edges <= more && Connected(edges, x, y)
    ensures Connected(more, x, y)
  {
    var p :| PathFromTo(edges, p, x, y);
    forall i | 0 <= i < |p| - 1 ensures Linked(more, p[i], p[i + 1]) {
      assert Linked(edges, p[i], p[i + 1]);
    }
    assert PathFromTo(more, p, x, y);
  }

  /** A labelling that agrees along every edge agrees along every path. */
  lemma {:induction false} ConstantOnPaths(edges: set<set<Key>>, label_: map<Key, Id>, p: seq<Key>)
    requires Path(edges, p)
    requires forall e, x, y :: e in edges && x in e && y in e ==> x in label_ && y in label_ && label_[x] == label_[y]
    requires p[0] in label_
    ensures p[|p| - 1] in label_ && label_[p[|p| - 1]] == label_[p[0]]
  {
    if |p| > 1 {
      assert Linked(edges, p[0], p[1]);
      assert Path(edges, p[1..]) by {
        forall i | 0 <= i < |p[1..]| - 1 ensures Linked(edges, p[1..][i], p[1..][i + 1]) {
          assert Linked(edges, p[i + 1], p[i + 2]);
        }
      }
      ConstantOnPaths(edges, label_, p[1..]);
    }
  }

  // ---------------------------------------------------------------- the alias table is the partition

  ghost predicate Labels(edges: set<set<Key>>, aliases: map<Key, Id>) {
    && (forall e :: e in edges ==> forall k :: k in e ==> k in aliases && !IsSlugKey(k))
    && (forall k :: k in aliases && !IsSlugKey(k) ==> Vertex(edges, k))
    && (forall x, y :: x in aliases && y in aliases && !IsSlugKey(x) && !IsSlugKey(y) ==>
                         (aliases[x] == aliases[y] <==> Connected(edges, x, y)))
  }

  ghost predicate RecordsFollow(d: Directory) {
    forall u :: u in d.records ==> UriKey(u) in d.aliases && !IsSlugKey(UriKey(u))
                                   && d.records[u] == d.aliases[UriKey(u)]
  }

  ghost predicate Partition(edges: set<set<Key>>, d: Directory) {
    Labels(edges, d.aliases) && RecordsFollow(d)
  }

  function Edge(u: Upsert): set<Key> { set k | k in u.keys }

  /** The entity part of the alias table after an upsert. */
  ghost predicate Relabels(aliases: map<Key, Id>, u: Upsert, aliases': map<Key, Id>) {
    && (forall k :: !IsSlugKey(k) ==> (k in aliases' <==> k in aliases || k in u.keys))
    && (forall k :: k in aliases' && !IsSlugKey(k) ==>
                      aliases'[k] == if k in u.keys || aliases[k] in Found(aliases, u.keys) then Survivor(u)
                      else aliases[k])
  }

  /** The listings that the keys name are the survivor and its duplicates. */
  lemma FoundIsOrder(d: Directory, u: Upsert)
    requires Enabled(d, u)
    ensures forall i :: i in Found(d.aliases, u.keys) <==> i in Duplicates(u) || (u.order != [] && i == Survivor(u))
    ensures u.order == [] ==> Found(d.aliases, u.keys) == {}
  {
    hide IsSlugKey;
    assert forall i :: i in u.order <==> i in Found(d.aliases, u.keys);
    if u.order != [] { assert u.order[0] in u.order; }
  }

  lemma ApplyRelabels(d: Directory, u: Upsert)
    requires Enabled(d, u) && Apply(d, u).Some?
    ensures Relabels(d.aliases, u, Apply(d, u).value.aliases)
    ensures forall r :: r in Apply(d, u).value.records <==> r in d.records || r == u.uri
    ensures forall r :: r in Apply(d, u).value.records ==>
                          Apply(d, u).value.records[r] == if r == u.uri || d.records[r] in Found(d.aliases, u.keys)
                          then Survivor(u) else d.records[r]
  {
    var d' := Apply(d, u).value;
    forall i ensures i in Duplicates(u) || (u.order != [] && i == Survivor(u)) <==> i in Found(d.aliases, u.keys) {
      assert i in u.order <==> i in Found(d.aliases, u.keys);
    }
    if u.order == [] {
      assert Found(d.aliases, u.keys) == {};
    }
    SlugKeysOnly(d, u);
  }

  /** Recomputing a listing adds at most a slug key. */
  lemma SlugKeysOnly(d: Directory, u: Upsert)
    requires Apply(d, u).Some?
    ensures var d1 := Merge(d, Survivor(u), Duplicates(u));
            forall k :: !IsSlugKey(k) ==>
                          (k in Apply(d, u).value.aliases <==> k in d1.aliases || k in u.keys)
                          && (k in Apply(d, u).value.aliases ==>
                                Apply(d, u).value.aliases[k] == if k in u.keys then Survivor(u) else d1.aliases[k])
  {
  }

  /** What it does to the rows of the listings. */
  lemma ApplyListings(d: Directory, u: Upsert)
    requires Apply(d, u).Some?
    ensures var t := Apply(d, u).value;
            && Survivor(u) in t.listings && t.listings[Survivor(u)].live
            && t.records == Merge(d, Survivor(u), Duplicates(u)).records[u.uri := Survivor(u)]
            && forall i :: i in t.listings && i != Survivor(u) ==>
                             i in d.listings && (t.listings[i].live <==> d.listings[i].live && i !in Duplicates(u))
    ensures forall i :: i in d.listings ==> i in Apply(d, u).value.listings
  {
    hide UniqueSlug, MoveTo, Claim;
  }

  /** An upsert's connections: old ones, and everything that meets the new alias set. */
  lemma UpsertLabels(edges: set<set<Key>>, aliases: map<Key, Id>, u: Upsert, aliases': map<Key, Id>)
    requires Labels(edges, aliases) && Relabels(aliases, u, aliases')
    requires forall k :: k in u.keys ==> !IsSlugKey(k)
    requires u.order == [] ==> forall k :: k in aliases ==> aliases[k] != Survivor(u)
    requires u.order != [] ==> Survivor(u) in Found(aliases, u.keys)
    requires forall i :: i in u.order <==> i in Found(aliases, u.keys)
    ensures Labels(edges + {Edge(u)}, aliases')
  {
    var edges' := edges + {Edge(u)};
    forall k | k in aliases' && !IsSlugKey(k) ensures Vertex(edges', k) {
      if k in u.keys {
        assert k in Edge(u);
      } else {
        var e :| e in edges && k in e;
        assert e in edges';
      }
    }
    forall e, x, y | e in edges' && x in e && y in e
      ensures x in aliases' && y in aliases' && aliases'[x] == aliases'[y]
    {
      if e in edges {
        Step(edges, e, x, y);
      }
    }
    forall x, y | x in aliases' && y in aliases' && !IsSlugKey(x) && !IsSlugKey(y)
      ensures aliases'[x] == aliases'[y] <==> Connected(edges', x, y)
    {
      if Connected(edges', x, y) {
        var p :| PathFromTo(edges', p, x, y);
        ConstantOnPaths(edges', aliases', p);
      }
      if aliases'[x] == aliases'[y] {
        UpsertConnects(edges, aliases, u, aliases', x, y);
      }
    }
  }

  /** A key that now carries the survivor's id is connected to the new alias set. */
  lemma MeetsEdge(edges: set<set<Key>>, aliases: map<Key, Id>, u: Upsert, x: Key) returns (k: Key)
    requires Labels(edges, aliases) && !IsSlugKey(x)
    requires forall k :: k in u.keys ==> !IsSlugKey(k)
    requires x in u.keys || (x in aliases && aliases[x] in Found(aliases, u.keys))
    ensures k in u.keys && Connected(edges + {Edge(u)}, x, k)
  {
    if x in u.keys {
      k := x;
      Stay(edges + {Edge(u)}, x);
    } else {
      k :| k in u.keys && k in aliases && aliases[k] == aliases[x];
      MoreEdges(edges, edges + {Edge(u)}, x, k);
    }
  }

  lemma UpsertConnects(edges: set<set<Key>>, aliases: map<Key, Id>, u: Upsert, aliases': map<Key, Id>, x: Key, y: Key)
    requires Labels(edges, aliases) && Relabels(aliases, u, aliases')
    requires forall k :: k in u.keys ==> !IsSlugKey(k)
    requires u.order == [] ==> forall k :: k in aliases ==> aliases[k] != Survivor(u)
    requires u.order != [] ==> Survivor(u) in Found(aliases, u.keys)
    requires x in aliases' && y in aliases' && !IsSlugKey(x) && !IsSlugKey(y) && aliases'[x] == aliases'[y]
    ensures Connected(edges + {Edge(u)}, x, y)
  {
    var edges' := edges + {Edge(u)};
    var xIn := x in u.keys || aliases[x] in Found(aliases, u.keys);
    var yIn := y in u.keys || aliases[y] in Found(aliases, u.keys);
    if xIn && yIn {
      var kx := MeetsEdge(edges, aliases, u, x);
      var ky := MeetsEdge(edges, aliases, u, y);
      Step(edges', Edge(u), kx, ky);
      Reverse(edges', y, ky);
      Join(edges', x, kx, ky);
      Join(edges', x, ky, y);
    } else {
      assert !xIn && !yIn;
      MoreEdges(edges, edges', x, y);
    }
  }

  lemma UpsertKeepsPartition(edges: set<set<Key>>, d: Directory, u: Upsert)
    requires Partition(edges, d) && Enabled(d, u) && Apply(d, u).Some?
    ensures Partition(edges + {Edge(u)}, Apply(d, u).value)
  {
    hide Apply, Labels, Relabels;
    ApplyRelabels(d, u);
    if u.order != [] {
      assert u.order[0] in u.order;
    }
    UpsertLabels(edges, d.aliases, u, Apply(d, u).value.aliases);
  }

  // ---------------------------------------------------------------- runs

  /** The alias sets of a sequence of upserts. */
  function Edges(us: seq<Upsert>): set<set<Key>> {
    if us == [] then {} else {Edge(us[0])} + Edges(us[1..])
  }

  lemma {:induction false} EdgesAre(us: seq<Upsert>, e: set<Key>)
    ensures e in Edges(us) <==> exists i :: 0 <= i < |us| && Edge(us[i]) == e
  {
    if us != [] {
      EdgesAre(us[1..], e);
      assert forall i :: 0 <= i < |us| - 1 ==> us[1..][i] == us[i + 1];
    }
  }

  lemma {:induction false} RunsPartition(edges: set<set<Key>>, d: Directory, us: seq<Upsert>, d': Directory)
    requires Partition(edges, d) && Runs(d, us, d')
    ensures Partition(edges + Edges(us), d')
    decreases |us|
  {
    hide Apply, Enabled, Partition;
    if us == [] {
      assert edges + Edges(us) == edges;
    } else {
      UpsertKeepsPartition(edges, d, us[0]);
      RunsPartition(edges + {Edge(us[0])}, Apply(d, us[0]).value, us[1..], d');
      assert edges + {Edge(us[0])} + Edges(us[1..]) == edges + Edges(us);
    }
  }

  /** The partition theorem: after any run of upserts, two records share a listing exactly when the alias sets
      upserted so far connect them. */
  lemma PartitionIsConnectivity(us: seq<Upsert>, d: Directory, a: Uri, b: Uri)
    requires Runs(EMPTY, us, d) && a in d.records && b in d.records
    ensures d.records[a] == d.records[b] <==> Connected(Edges(us), UriKey(a), UriKey(b))
  {
    hide Apply, Enabled;
    assert Partition({}, EMPTY);
    RunsPartition({}, EMPTY, us, d);
    assert {} + Edges(us) == Edges(us);
  }

  /** Hence two runs that upserted the same alias sets, in any order, with any repetitions, and whichever listing
      survived each merge, group every pair of records alike. */
  lemma OrderIndependence(us1: seq<Upsert>, d1: Directory, us2: seq<Upsert>, d2: Directory, a: Uri, b: Uri)
    requires Runs(EMPTY, us1, d1) && Runs(EMPTY, us2, d2)
    requires Edges(us1) == Edges(us2)
    requires a in d1.records && b in d1.records && a in d2.records && b in d2.records
    ensures d1.records[a] == d1.records[b] <==> d2.records[a] == d2.records[b]
  {
    PartitionIsConnectivity(us1, d1, a, b);
    PartitionIsConnectivity(us2, d2, a, b);
  }

  // ---------------------------------------------------------------- upserts that throw

  function Known(aliases: map<Key, Id>, keys: seq<Key>): (r: seq<Key>)
    ensures forall k :: k in r <==> k in keys && k in aliases
  {
    if keys == [] then [] else (if keys[0] in aliases then [keys[0]] else []) + Known(aliases, keys[1..])
  }

  /** The part of an upsert whose keys the directory knows already. */
  function KnownPart(d: Directory, u: Upsert): Upsert { u.(keys := Known(d.aliases, u.keys)) }

  /** An upsert that throws has joined what its known keys name; its other keys stay unknown. */
  lemma InterruptedRelabels(d: Directory, u: Upsert)
    requires Enabled(d, u)
    ensures Relabels(d.aliases, KnownPart(d, u), Interrupted(d, u).aliases)
    ensures Found(d.aliases, KnownPart(d, u).keys) == Found(d.aliases, u.keys)
    ensures forall r :: r in Interrupted(d, u).records <==> r in d.records || r == u.uri
    ensures forall r :: r in d.records && r != u.uri ==>
                          Interrupted(d, u).records[r] == if d.records[r] in Found(d.aliases, u.keys) then Survivor(u)
                          else d.records[r]
    ensures Interrupted(d, u).records[u.uri] == Survivor(u)
  {
    hide Interrupted, Relabels, Known;
    InterruptedKeysOnly(d, u);
    MovesWhatIsFound(d, u);
    forall k ensures k in KnownPart(d, u).keys <==> k in u.keys && k in d.aliases { }
    KnownRelabels(d, u);
  }

  /** The merge moves exactly what the keys name. */
  lemma MovesWhatIsFound(d: Directory, u: Upsert)
    requires Enabled(d, u)
    ensures forall i :: i in Found(d.aliases, u.keys) <==> i in u.order
    ensures forall i :: i in Duplicates(u) <==> i in u.order && i != Survivor(u)
    ensures u.order != [] ==> Survivor(u) in u.order
  {
    forall i ensures i in Found(d.aliases, u.keys) <==> i in u.order { }
  }

  lemma KnownRelabels(d: Directory, u: Upsert)
    requires Enabled(d, u)
    ensures Relabels(d.aliases, KnownPart(d, u), Interrupted(d, u).aliases)
    ensures Found(d.aliases, KnownPart(d, u).keys) == Found(d.aliases, u.keys)
  {
    hide Interrupted, Known, Enabled;
    InterruptedKeysOnly(d, u);
    MovesWhatIsFound(d, u);
    assert Found(d.aliases, KnownPart(d, u).keys) == Found(d.aliases, u.keys);
  }

  /** It reserves at most a slug key. */
  lemma InterruptedKeysOnly(d: Directory, u: Upsert)
    ensures var d1 := Merge(d, Survivor(u), Duplicates(u));
            && Interrupted(d, u).records == d1.records[u.uri := Survivor(u)]
            && forall k :: !IsSlugKey(k) ==>
                             (k in Interrupted(d, u).aliases <==> k in d1.aliases)
                             && (k in Interrupted(d, u).aliases ==> Interrupted(d, u).aliases[k] == d1.aliases[k])
  {
    hide UniqueSlug;
  }

  /** The keys that an attempt joins. */
  function Joined(d: Directory, u: Upsert): Upsert { if Apply(d, u).Some? then u else KnownPart(d, u) }

  /** The records of `done` are filed where their own URI is. */
  ghost predicate Filed(d: Directory, done: set<Uri>) {
    forall r :: r in done ==> r in d.records && UriKey(r) in d.aliases && d.records[r] == d.aliases[UriKey(r)]
  }

  function Returned(d: Directory, u: Upsert): set<Uri> { if Apply(d, u).Some? then {u.uri} else {} }

  lemma AttemptKeepsLabels(edges: set<set<Key>>, d: Directory, u: Upsert)
    requires Labels(edges, d.aliases) && Enabled(d, u)
    ensures Labels(edges + {Edge(Joined(d, u))}, Next(d, u).aliases)
  {
    hide Apply, Interrupted, Labels, Relabels;
    if u.order != [] {
      assert u.order[0] in u.order;
    }
    if Apply(d, u).Some? {
      ApplyRelabels(d, u);
      UpsertLabels(edges, d.aliases, u, Apply(d, u).value.aliases);
    } else {
      InterruptedRelabels(d, u);
      UpsertLabels(edges, d.aliases, KnownPart(d, u), Interrupted(d, u).aliases);
    }
  }

  lemma AttemptKeepsFiled(done: set<Uri>, d: Directory, u: Upsert)
    requires Filed(d, done) && Enabled(d, u) && forall r :: r in done ==> !IsSlugKey(UriKey(r))
    ensures Filed(Next(d, u), done + Returned(d, u))
  {
    hide Apply, Interrupted;
    if Apply(d, u).Some? { ApplyRelabels(d, u); } else { InterruptedRelabels(d, u); }
    assert forall k :: k in u.keys && k in d.aliases ==> d.aliases[k] in Found(d.aliases, u.keys);
  }

  /** The upserts are tried one after the other; some return and some throw. */
  ghost predicate Tries(d: Directory, us: seq<Upsert>, d': Directory)
    decreases |us|
  {
    if us == [] then d' == d else Enabled(d, us[0]) && Tries(Next(d, us[0]), us[1..], d')
  }

  /** What the attempts joined, and the records whose upserts returned. */
  function JoinedBy(d: Directory, us: seq<Upsert>): set<set<Key>>
    decreases |us|
  {
    if us == [] then {} else {Edge(Joined(d, us[0]))} + JoinedBy(Next(d, us[0]), us[1..])
  }

  function ReturnedOf(d: Directory, us: seq<Upsert>): set<Uri>
    decreases |us|
  {
    if us == [] then {} else Returned(d, us[0]) + ReturnedOf(Next(d, us[0]), us[1..])
  }

  lemma {:induction false} TriesPartition(edges: set<set<Key>>, done: set<Uri>, d: Directory, us: seq<Upsert>,
                                          d': Directory)
    requires Labels(edges, d.aliases) && Filed(d, done) && Tries(d, us, d')
    requires forall r :: r in done ==> !IsSlugKey(UriKey(r))
    ensures Labels(edges + JoinedBy(d, us), d'.aliases) && Filed(d', done + ReturnedOf(d, us))
    ensures forall r :: r in ReturnedOf(d, us) ==> !IsSlugKey(UriKey(r))
    decreases |us|
  {
    hide Apply, Interrupted, Labels, Filed;
    if us == [] {
      assert edges + JoinedBy(d, us) == edges && done + ReturnedOf(d, us) == done;
    } else {
      var u, t := us[0], Next(d, us[0]);
      AttemptKeepsLabels(edges, d, u);
      AttemptKeepsFiled(done, d, u);
      TriesPartition(edges + {Edge(Joined(d, u))}, done + Returned(d, u), t, us[1..], d');
      assert edges + {Edge(Joined(d, u))} + JoinedBy(t, us[1..]) == edges + JoinedBy(d, us);
      assert done + Returned(d, u) + ReturnedOf(t, us[1..]) == done + ReturnedOf(d, us);
    }
  }

  /** With upserts that throw as well: records whose upserts returned share a listing exactly when the alias sets of
      the upserts that returned, and the known parts of those that threw, connect them. */
  lemma AttemptsAreConnectivity(us: seq<Upsert>, d: Directory, a: Uri, b: Uri)
    requires Tries(EMPTY, us, d) && a in ReturnedOf(EMPTY, us) && b in ReturnedOf(EMPTY, us)
    ensures a in d.records && b in d.records
    ensures d.records[a] == d.records[b] <==> Connected(JoinedBy(EMPTY, us), UriKey(a), UriKey(b))
  {
    hide Apply, Enabled, Tries, ReturnedOf, JoinedBy;
    assert Labels({}, EMPTY.aliases) && Filed(EMPTY, {});
    TriesPartition({}, {}, EMPTY, us, d);
    assert {} + JoinedBy(EMPTY, us) == JoinedBy(EMPTY, us) && {} + ReturnedOf(EMPTY, us) == ReturnedOf(EMPTY, us);
  }
}
