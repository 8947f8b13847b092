/** The enrichment run as the program performs it: select, probe a batch, write its rows, go on. */
module AccountHostPublicIntentStore {
  import opened Wrappers
  import opened AccountHostPublicIntent

  datatype Options = Options(limit: Option<real>, concurrency: Option<real>, checkedAt: Option<real>)

  lemma CountOneMore(cs: seq<Host>, n: nat, p: Host -> bool)
    requires n < |cs|
    ensures Count(cs[..n + 1], p) == Count(cs[..n], p) + if p(cs[n]) then 1 else 0
  {
    assert cs[..n + 1][..n] == cs[..n];
  }

  lemma AfterOneMore(hosts: map<Host, Row>, cs: seq<Host>, n: nat, w: Web, at: int)
    requires n < |cs| && cs[n] in hosts && Distinct(cs)
    ensures After(hosts, cs[..n], w, at).Keys == hosts.Keys && After(hosts, cs[..n], w, at)[cs[n]] == hosts[cs[n]]
    ensures After(hosts, cs[..n + 1], w, at) == After(hosts, cs[..n], w, at)[cs[n] := RowAfter(hosts[cs[n]], w, at)]
  {
    assert cs[..n + 1] == cs[..n] + [cs[n]];
  }

  predicate Distinct(cs: seq<Host>) { forall i, j :: 0 <= i < j < |cs| ==> cs[i] != cs[j] }

  lemma CountsAreSizes(cs: seq<Host>, hosts: map<Host, Row>, w: Web)
    requires Distinct(cs)
    ensures Count(cs, IsReachable(hosts, w)) == |set h | h in cs && Reachable(hosts, w, h)|
    ensures Count(cs, IsDetected(hosts, w)) == |set h | h in cs && Detects(hosts, w, h)|
  {
    hide Reachable, Detects;
    CountIsSize(cs, IsReachable(hosts, w));
    CountIsSize(cs, IsDetected(hosts, w));
    assert Having(cs, IsReachable(hosts, w)) == set h | h in cs && Reachable(hosts, w, h);
    assert Having(cs, IsDetected(hosts, w)) == set h | h in cs && Detects(hosts, w, h);
  }

  class Store {
    var hosts: map<Host, Row>

    constructor ()
      ensures hosts == map[]
    {
      hosts := map[];
    }

    method First(left: set<Host>) returns (first: Host)
      requires left != {} && left <= hosts.Keys
      ensures first in left && forall q :: q in left && q != first ==> Precedes(hosts, first, q)
    {
      first :| first in left;
      var todo := left - {first};
      while todo != {}
        invariant todo <= left && first in left && first !in todo
        invariant forall q :: q in left - todo && q != first ==> Precedes(hosts, first, q)
        decreases todo
      {
        var q :| q in todo;
        todo := todo - {q};
        PrecedesIsAnOrder(hosts, q, first, first);
        forall z | z in left - todo && z != first && z != q ensures Precedes(hosts, q, first) ==>
                                                                      Precedes(hosts, q, z) {
          PrecedesIsAnOrder(hosts, q, first, z);
        }
        if Precedes(hosts, q, first) { first := q; }
      }
    }

    method LoadCandidates(before: int, limit: nat) returns (cs: seq<Host>)
      ensures Selected(hosts, before, limit, cs)
    {
      cs := [];
      var left := set h | h in hosts && Candidate(hosts, before, h);
      while left != {} && |cs| < limit
        invariant |cs| <= limit && left <= hosts.Keys
        invariant forall h :: Candidate(hosts, before, h) <==> h in left || h in cs
        invariant forall h :: h in left ==> h !in cs
        invariant forall i, j :: 0 <= i < j < |cs| ==> cs[i] in hosts && cs[j] in hosts && Precedes(hosts, cs[i], cs[j])
        invariant forall h, q :: h in cs && q in left ==> h in hosts && q in hosts && Precedes(hosts, h, q)
        decreases left
      {
        var h := First(left);
        left := left - {h};
        cs := cs + [h];
      }
    }

    /** One row, from the probe of its batch; the summary counts it in exactly one way. */
    method WriteResult(h: Host, p: Probed, at: int, summary: Summary) returns (s: Summary)
      requires h in hosts
      modifies this
      ensures hosts == old(hosts)[h := RowAfterProbe(old(hosts)[h], p, at)]
      ensures s == if p.description.None? then summary.(unavailable := summary.unavailable + 1)
                   else if Verdict(p, old(hosts)[h].accounts).Some?
                   then summary.(checked := summary.checked + 1, detected := summary.detected + 1)
                   else summary.(checked := summary.checked + 1, notDetected := summary.notDetected + 1)
    {
      s := summary;
      if p.description.None? {
        s := s.(unavailable := s.unavailable + 1);
        hosts := hosts[h := hosts[h].(attemptedAt := Some(at))];
        return;
      }
      s := s.(checked := s.checked + 1);
      var detected := DetectPdsPublicIntent(p.description.value, hosts[h].accounts, p.page);
      if detected.Some? { s := s.(detected := s.detected + 1); } else { s := s.(notDetected := s.notDetected + 1); }
      hosts := hosts[h := PersistDetection(hosts[h], detected, at)];
    }

    /** Probes of one batch, from the rows as they were selected. */
    method ProbeBatch(batch: seq<Host>, w: Web, selected: map<Host, Row>) returns (results: seq<Probed>)
      requires forall h :: h in batch ==> h in selected
      ensures |results| == |batch|
      ensures forall i :: 0 <= i < |batch| ==> results[i] == ProbeOf(selected, w, batch[i])
    {
      results := [];
      for i := 0 to |batch|
        invariant |results| == i
        invariant forall k :: 0 <= k < i ==> results[k] == ProbeOf(selected, w, batch[k])
      {
        results := results + [Probe(w, selected[batch[i]].endpoint, selected[batch[i]].accounts)];
      }
    }

    /** The candidates from `offset` up to `end`, probed together and then written one by one. */
    method EnrichBatch(selected: map<Host, Row>, cs: seq<Host>, offset: nat, end: nat, w: Web, at: int,
                       summary: Summary)
      returns (s: Summary)
      requires offset <= end <= |cs| && Distinct(cs) && forall h :: h in cs ==> h in selected
      requires hosts == After(selected, cs[..offset], w, at) && Tallied(summary, selected, cs, offset, w)
      modifies this
      ensures hosts == After(selected, cs[..end], w, at) && Tallied(s, selected, cs, end, w)
    {
      hide After, Tallied, RowAfterProbe, Verdict, Distinct;
      s := summary;
      var results := ProbeBatch(cs[offset..end], w, selected);
      for n := offset to end
        invariant hosts == After(selected, cs[..n], w, at) && Tallied(s, selected, cs, n, w)
      {
        AfterOneMore(selected, cs, n, w, at);
        TalliedOneMore(s, selected, cs, n, w);
        assert results[n - offset] == ProbeOf(selected, w, cs[n]);
        s := WriteResult(cs[n], results[n - offset], at, s);
      }
    }

    /** A whole run.  Every selected host is probed and stamped once and counted once; no other row changes. */
    method Enrich(options: Options, now: real, w: Web) returns (summary: Summary, at: int, limit: nat, cs: seq<Host>)
      modifies this
      ensures at == FiniteNonNegativeInteger(options.checkedAt, now) && 1 <= limit <= 1000
      ensures Selected(old(hosts), at - RECHECK_MS, limit, cs)
      ensures hosts == After(old(hosts), cs, w, at)
      ensures summary.candidates == |cs| == summary.checked + summary.unavailable
      ensures summary.checked == summary.detected + summary.notDetected == Count(cs, IsReachable(old(hosts), w))
      ensures summary.detected == Count(cs, IsDetected(old(hosts), w))
      ensures summary.checked == |set h | h in cs && Reachable(old(hosts), w, h)|
      ensures summary.detected == |set h | h in cs && Detects(old(hosts), w, h)|
    {
      hide Reachable, Detects, IsReachable, IsDetected;
      at := FiniteNonNegativeInteger(options.checkedAt, now);
      limit := PositiveInteger(options.limit, DEFAULT_LIMIT, 1000);
      var concurrency := PositiveInteger(options.concurrency, DEFAULT_CONCURRENCY, 50);
      cs := LoadCandidates(at - RECHECK_MS, limit);
      SelectedAreDistinct(hosts, at - RECHECK_MS, limit, cs);
      summary := Summary(|cs|, 0, 0, 0, 0);
      var selected := hosts;
      var offset := 0;
      while offset < |cs|
        invariant 0 <= offset <= |cs|
        invariant hosts == After(selected, cs[..offset], w, at) && Tallied(summary, selected, cs, offset, w)
      {
        var end := if offset + concurrency < |cs| then offset + concurrency else |cs|;
        summary := EnrichBatch(selected, cs, offset, end, w, at, summary);
        offset := end;
      }
      assert cs[..|cs|] == cs;
      CountsAreSizes(cs, selected, w);
    }
  }

  lemma SelectedAreDistinct(hosts: map<Host, Row>, before: int, limit: nat, cs: seq<Host>)
    requires Selected(hosts, before, limit, cs)
    ensures Distinct(cs) && forall h :: h in cs ==> h in hosts
  {
    forall h | h in cs ensures h in hosts {
      assert Candidate(hosts, before, h);
    }
  }

  /** The summary after the first `n` candidates. */
  predicate Tallied(s: Summary, selected: map<Host, Row>, cs: seq<Host>, n: nat, w: Web)
    requires n <= |cs|
  {
    && s.candidates == |cs| && n == s.checked + s.unavailable && s.checked == s.detected + s.notDetected
    && s.checked == Count(cs[..n], IsReachable(selected, w)) && s.detected == Count(cs[..n], IsDetected(selected, w))
  }

  lemma TalliedOneMore(s: Summary, selected: map<Host, Row>, cs: seq<Host>, n: nat, w: Web)
    requires n < |cs| && cs[n] in selected && Tallied(s, selected, cs, n, w)
    ensures var p := ProbeOf(selected, w, cs[n]);
            Tallied(if p.description.None? then s.(unavailable := s.unavailable + 1)
                    else if Verdict(p, selected[cs[n]].accounts).Some?
                    then s.(checked := s.checked + 1, detected := s.detected + 1)
                    else s.(checked := s.checked + 1, notDetected := s.notDetected + 1), selected, cs, n + 1, w)
  {
    CountOneMore(cs, n, IsReachable(selected, w));
    CountOneMore(cs, n, IsDetected(selected, w));
  }
}
