/** The transactions as they run: statement by statement over the tables, with a rollback when one throws.  Each is
    proved to do what AccountHostTransactions says. */
module AccountHostStore {
  import opened Wrappers
  import opened AccountHostTables
  import opened AccountHostTransactions
  import opened AccountHostInvariant

  lemma CloseRowsOneMore(rs: Recoveries, done: set<TokenHash>, id: TokenHash, status: Status, at: Time)
    requires id in rs && id !in done
    ensures CloseRows(rs, done, status, at)[id] == rs[id]
    ensures CloseRows(rs, done + {id}, status, at) ==
            CloseRows(rs, done, status, at)[id := rs[id].(status := status, completedAt := Some(at))]
  {
  }

  lemma AddAuditOneMore(audit: Ledger, done: set<TokenHash>, id: TokenHash, event: Event, e: AuditEntry)
    requires id !in done
    ensures AddAudit(audit, done + {id}, event, e) == InsertAudit(AddAudit(audit, done, event, e), AuditKey(id, event),
                                                                  e)
  {
  }

  lemma CloseNone(t: Tables, host: Host, status: Status, event: Event, actor: Option<Did>, at: Time)
    ensures Close(t, {}, host, status, event, actor, at) == t
  {
    assert CloseRows(t.recoveries, {}, status, at) == t.recoveries;
    assert AddAudit(t.audit, {}, event, AuditEntry(host, actor, None, None, None, at)) == t.audit;
  }

  lemma StillOnePending(rs: Recoveries, ids: set<TokenHash>, at: Time)
    requires OnePendingPerHost(rs)
    ensures OnePendingPerHost(CloseRows(rs, ids, Expired, at)) && OnePendingPerHost(CloseRows(rs, ids, Invalidated, at))
  {
    assert forall i :: i in CloseRows(rs, ids, Expired, at) && CloseRows(rs, ids, Expired, at)[i].status.Pending? ==>
                         rs[i].status.Pending? && rs[i].host == CloseRows(rs, ids, Expired, at)[i].host;
    assert forall i :: i in CloseRows(rs, ids, Invalidated, at)
                       && CloseRows(rs, ids, Invalidated, at)[i].status.Pending? ==>
                         rs[i].status.Pending? && rs[i].host == CloseRows(rs, ids, Invalidated, at)[i].host;
  }

  class Store {
    var hosts: map<Host, HostRow>
    var claims: map<Host, Claim>
    var challenges: map<TokenHash, Challenge>
    var evidence: map<TokenHash, Evidence>
    var recoveries: map<TokenHash, Recovery>
    var audit: map<AuditKey, AuditEntry>
    var transfers: map<Jti, Transfer>
    var links: map<LinkId, Link>

    function Now(): Tables
      reads this
    {
      Tables(hosts, claims, challenges, evidence, recoveries, audit, transfers, links)
    }

    /** The partial unique index on pending recoveries. */
    ghost predicate Valid()
      reads this`recoveries
    {
      OnePendingPerHost(recoveries)
    }

    constructor ()
      ensures Valid() && Now() == EMPTY
    {
      hosts, claims, challenges, evidence := map[], map[], map[], map[];
      recoveries, audit, transfers, links := map[], map[], map[], map[];
    }

    method Rollback(t: Tables)
      modifies this
      ensures Now() == t
    {
      hosts, claims, challenges, evidence := t.hosts, t.claims, t.challenges, t.evidence;
      recoveries, audit, transfers, links := t.recoveries, t.audit, t.transfers, t.links;
    }

    /** The guarded UPDATE that consumes a proof, and the SELECT that explains a refusal. */
    method SpendProof(token: TokenHash, host: Host, did: Did, at: Time) returns (error: Option<Reason>)
      modifies this`challenges
      ensures error == SpendError(old(challenges), token, host, did, at)
      ensures error.Some? ==> challenges == old(challenges)
      ensures error.None? ==> token in old(challenges) && challenges == Spend(old(challenges), token, at)
      ensures error.None? <==> Spendable(old(challenges), token, host, did, at)
      ensures error.None? ==> challenges == old(challenges)[token := old(challenges)[token].(consumedAt := Some(at))]
      ensures error == Some(BadProof) <==> token !in old(challenges) || old(challenges)[token].host != host
      ensures token in old(challenges) && old(challenges)[token].host == host ==>
                var c := old(challenges)[token];
                && (error == Some(AccountMismatch) <==> c.did != did)
                && (error == Some(AlreadyUsed) <==> c.did == did && c.consumedAt.Some?)
                && (error == Some(ProofExpired) <==> c.did == did && c.consumedAt.None? && c.expiresAt < at)
    {
      if token in challenges && challenges[token].host == host && challenges[token].did == did
         && challenges[token].consumedAt.None? && at <= challenges[token].expiresAt {
        challenges := challenges[token := challenges[token].(consumedAt := Some(at))];
        return None;
      }
      if token !in challenges || challenges[token].host != host { return Some(BadProof); }
      if challenges[token].did != did { return Some(AccountMismatch); }
      if challenges[token].consumedAt.Some? { return Some(AlreadyUsed); }
      return Some(ProofExpired);
    }

    method AppendAudit(key: AuditKey, entry: AuditEntry)
      modifies this`audit
      ensures audit == InsertAudit(old(audit), key, entry)
    {
      if key !in audit {
        audit := audit[key := entry];
      }
    }

    /** Close one pending row and log it. */
    method CloseRow(id: TokenHash, host: Host, status: Status, event: Event, actor: Option<Did>, at: Time)
      requires id in recoveries && recoveries[id].status.Pending?
      modifies this`recoveries, this`audit
      ensures recoveries == old(recoveries)[id := old(recoveries)[id].(status := status, completedAt := Some(at))]
      ensures audit == InsertAudit(old(audit), AuditKey(id, event), AuditEntry(host, actor, None, None, None, at))
    {
      recoveries := recoveries[id := recoveries[id].(status := status, completedAt := Some(at))];
      AppendAudit(AuditKey(id, event), AuditEntry(host, actor, None, None, None, at));
    }

    method CloseAll(ids: set<TokenHash>, host: Host, status: Status, event: Event, actor: Option<Did>, at: Time)
      requires forall id :: id in ids ==> id in recoveries && recoveries[id].status.Pending?
      modifies this`recoveries, this`audit
      ensures Now() == Close(old(Now()), ids, host, status, event, actor, at)
    {
      ghost var t := Now();
      ghost var done: set<TokenHash> := {};
      var todo := ids;
      CloseNone(t, host, status, event, actor, at);
      while todo != {}
        invariant done + todo == ids && done !! todo
        invariant Now() == Close(t, done, host, status, event, actor, at)
        decreases todo
      {
        var id :| id in todo;
        CloseRowsOneMore(t.recoveries, done, id, status, at);
        AddAuditOneMore(t.audit, done, id, event, AuditEntry(host, actor, None, None, None, at));
        CloseRow(id, host, status, event, actor, at);
        todo, done := todo - {id}, done + {id};
      }
      assert done == ids;
    }

    method ExpireStaleRecovery(host: Host, at: Time)
      modifies this
      ensures Now() == ExpireStale(old(Now()), host, at)
    {
      CloseAll(StaleIds(Now(), host, at), host, Expired, ExpiredEvent, None, at);
    }

    method InvalidatePendingRecovery(host: Host, at: Time, actor: Option<Did>)
      modifies this
      ensures Now() == InvalidatePending(old(Now()), host, at, actor)
    {
      CloseAll(PendingIds(Now(), host), host, Invalidated, InvalidatedEvent, actor, at);
    }

    /** Expire old requests, then invalidate the pending one when its snapshot is not the live claim. */
    method ReconcilePendingRecovery(host: Host, at: Time)
      requires Valid()
      modifies this
      ensures Valid() && Now() == Reconcile(old(Now()), host, at)
    {
      StillOnePending(recoveries, StaleIds(Now(), host, at), at);
      ExpireStaleRecovery(host, at);
      var pending := PendingIds(Now(), host);
      if pending == {} {
        return;
      }
      var id :| id in pending;
      assert forall j :: j in pending ==> j == id;
      if LiveMatch(Now(), id) {
        return;
      }
      StillOnePending(recoveries, pending, at);
      InvalidatePendingRecovery(host, at, if host in claims then Some(claims[host].did) else None);
    }

    /** INSERT … ON CONFLICT(host) DO UPDATE … WHERE the claimant is the same. */
    method UpsertClaimForOwner(host: Host, claim: Claim) returns (error: Option<Reason>)
      modifies this`claims
      ensures error == UpsertError(old(claims), host, claim)
      ensures claims == if error.None? then Upsert(old(claims), host, claim) else old(claims)
    {
      if !claim.how.DnsTxt? && !claim.how.AtprotoHandle? && !claim.how.LocalDevFixture? { return Some(ClaimConflict); }
      if host !in claims {
        claims := claims[host := claim];
        return None;
      }
      var row := claims[host];
      if row.did != claim.did { return Some(ClaimConflict); }
      if Strong(row.how) && !Strong(claim.how) { return Some(Downgrade); }
      claims := claims[host := row.(handle := claim.handle, how := claim.how, verifiedAt := claim.verifiedAt,
                                    updatedAt := claim.updatedAt)];
      return None;
    }

    /** The proof, the ownership row and the transfer id; on an error the caller rolls back. */
    method AssignHost(w: DnsWrite) returns (error: Option<Reason>)
      modifies this
      ensures error == AssignError(old(Now()), w)
      ensures error.None? ==> Now() == Assign(old(Now()), w)
    {
      hide Upsert, UpsertError;
      if !w.claim.how.DnsTxt? { return Some(ClaimConflict); }
      error := SpendProof(w.token, w.host, w.claim.did, w.at);
      if error.Some? { return; }
      if w.transfer.None? || w.transfer.value.previousDid == w.claim.did {
        error := UpsertClaimForOwner(w.host, w.claim);
        return;
      }
      var i := w.transfer.value;
      if w.host !in claims || claims[w.host].did != i.previousDid || claims[w.host].updatedAt != i.previousUpdatedAt {
        return Some(ClaimConflict);
      }
      claims := claims[w.host := w.claim];
      if i.jti in transfers { return Some(DuplicateKey); }
      transfers := transfers[i.jti := Transfer(w.host, i.previousDid, w.claim.did, i.issuedAt, w.at)];
    }

    method WriteDnsClaim(w: DnsWrite) returns (error: Option<Reason>)
      modifies this
      ensures error == DnsClaimError(old(Now()), w)
      ensures Now() == if error.None? then DnsClaim(old(Now()), w) else old(Now())
    {
      hide AssignError, CloseRows, AddAudit, PendingIds, ClaimHost, ResetProfile, ResetLinks;
      var start := Now();
      error := AssignHost(w);
      if error.Some? {
        Rollback(start);
        return;
      }
      InvalidatePendingRecovery(w.host, w.at, Some(w.claim.did));
      if w.host !in hosts {
        Rollback(start);
        return Some(HostMissing);
      }
      hosts := hosts[w.host := ClaimHost(hosts[w.host], w.claimHandle, w.claimDid, if IsTransfer(w) then None
                                         else w.optIn, w.at)];
      if IsTransfer(w) {
        hosts := hosts[w.host := ResetProfile(hosts[w.host], w.claim.handle, w.claim.did, w.at)];
        links := ResetLinks(links, w.host, w.claim.did, w.at);
      }
    }

    method WriteContactEmailClaim(w: EmailWrite) returns (error: Option<Reason>)
      modifies this
      ensures error == EmailClaimError(old(Now()), w)
      ensures Now() == if error.None? then EmailClaim(old(Now()), w) else old(Now())
    {
      var start := Now();
      if !w.claim.how.ContactEmail? { return Some(ClaimConflict); }
      if !EmailBound(Now(), w) { return Some(BadProof); }
      error := SpendProof(w.token, w.host, w.claim.did, w.at);
      if error.Some? { return; }
      if w.host in claims {
        Rollback(start);
        return Some(ClaimConflict);
      }
      claims := claims[w.host := w.claim];
      if w.token in evidence {
        Rollback(start);
        return Some(DuplicateKey);
      }
      evidence := evidence[w.token := Evidence(w.host, w.claim.did, w.fingerprint, w.requestedAt, w.expiresAt,
                                               w.at, w.claim.updatedAt, w.deliveryId)];
      if w.host !in hosts {
        Rollback(start);
        return Some(HostMissing);
      }
      hosts := hosts[w.host := ClaimHost(hosts[w.host], w.claimHandle, w.claimDid, w.optIn, w.at)];
      error := None;
    }

    method StartEmailClaimRecovery(q: RecoveryRequest) returns (error: Option<Reason>)
      requires Valid()
      modifies this
      ensures error == StartError(old(Now()), q)
      ensures Now() == if error.None? then StartRecovery(old(Now()), q) else old(Now())
    {
      hide Reconcile, PendingIds;
      var start := Now();
      ReconcileFrame(start, q.host, q.at);
      if !q.previous.how.ContactEmail? || q.previous.did == q.did { return Some(OwnerChanged); }
      if q.host !in claims { return Some(OwnerChanged); }
      var current := claims[q.host];
      if !current.how.ContactEmail? || current.did != q.previous.did || current.updatedAt != q.previous.updatedAt {
        return Some(OwnerChanged);
      }
      ReconcilePendingRecovery(q.host, q.at);
      if PendingIds(Now(), q.host) != {} {
        Rollback(start);
        return Some(RecoveryChanged);
      }
      error := SpendProof(q.token, q.host, q.did, q.at);
      if error.Some? {
        Rollback(start);
        return;
      }
      if q.token in recoveries {
        Rollback(start);
        return Some(DuplicateKey);
      }
      recoveries := recoveries[q.token := NewRecovery(current, q)];
      AppendAudit(AuditKey(q.token, Requested), AuditEntry(q.host, Some(q.did), Some(q.token), None, None, q.at));
      error := None;
    }

    /** SELECT … WHERE host = ? ORDER BY requested_at DESC LIMIT 1. */
    method LatestRecovery(host: Host) returns (latest: Option<TokenHash>)
      ensures IsLatest(Now(), host, latest)
    {
      latest := None;
      var todo := recoveries.Keys;
      while todo != {}
        invariant todo <= recoveries.Keys
        invariant latest.None? ==> forall id :: id in recoveries && id !in todo ==> recoveries[id].host != host
        invariant latest.Some? ==>
                    latest.value in recoveries && recoveries[latest.value].host == host &&
                    forall id :: id in recoveries && id !in todo && recoveries[id].host == host ==>
                                   recoveries[id].requestedAt <= recoveries[latest.value].requestedAt
        decreases todo
      {
        var id :| id in todo;
        todo := todo - {id};
        if recoveries[id].host == host
           && (latest.None? || recoveries[latest.value].requestedAt < recoveries[id].requestedAt) {
          latest := Some(id);
        }
      }
    }

    /** The whole finalization; a `None` reply means that it threw `error` and was rolled back. */
    method FinalizeEmailClaimRecovery(f: Finalization)
      returns (reply: Option<Reply>, error: Option<Reason>, latest: Option<TokenHash>)
      modifies this
      ensures IsLatest(old(Now()), f.host, latest)
      ensures match Finalize(old(Now()), f, latest)
              case Commit(t, r) => Now() == t && reply == Some(r) && error == None
              case Abort(e) => Now() == old(Now()) && reply == None && error == Some(e)
    {
      latest := LatestRecovery(f.host);
      if latest.None? { return Some(Refused(NotFound, None)), None, latest; }
      var r := recoveries[latest.value];
      var view := ViewOf(latest.value, r);
      if r.requester != f.did { return Some(Refused(NotRequester, Some(view))), None, latest; }
      if r.status.Completed? {
        if f.host in claims && claims[f.host].how.DnsTxt? && claims[f.host].did == f.did
           && r.finalToken == Some(f.proof.token) {
          return Some(Ok(claims[f.host], view)), None, latest;
        }
        return Some(Refused(OwnerChanged, Some(view))), None, latest;
      }
      if r.status.Expired? { return Some(Refused(WindowClosed, Some(view))), None, latest; }
      if r.status.Invalidated? { return Some(Refused(OwnerChanged, Some(view))), None, latest; }
      if r.expiresAt <= f.at {
        ExpireStaleRecovery(f.host, f.at);
        return Some(Refused(WindowClosed, Some(view.(status := Expired, completedAt := Some(f.at))))), None, latest;
      }
      if f.at < r.eligibleAt { return Some(Refused(NotReady, Some(view))), None, latest; }
      if f.host !in claims || !Matches(r, claims[f.host]) {
        InvalidatePendingRecovery(f.host, f.at, if f.host in claims then Some(claims[f.host].did) else None);
        return Some(Refused(OwnerChanged, Some(view.(status := Invalidated, completedAt := Some(f.at))))), None, latest;
      }
      if !FreshProof(f, r) { return Some(Refused(FreshDnsRequired, Some(view))), None, latest; }
      if !DnsBound(Now(), f) { return Some(Refused(BadProof, Some(view))), None, latest; }
      reply, error := CompleteRecovery(Snapshot(f, latest.value, r, claims[f.host]));
    }

    /** The guarded updates of the ownership row and of the recovery row; on an error the caller rolls back. */
    method MoveOwnership(s: Snapshot) returns (error: Option<Reason>)
      modifies this
      ensures error == CompleteError(old(Now()), s)
      ensures error.None? ==> Now() == MoveOwner(old(Now()), s)
    {
      hide ClaimHost, ResetProfile, ResetLinks;
      var f := s.f;
      if f.host !in claims || !Matches(s.row, claims[f.host]) { return Some(OwnerChanged); }
      var claim := NewOwner(s);
      var at := claim.updatedAt;
      claims := claims[f.host := claim];
      if s.id !in recoveries || recoveries[s.id].host != f.host || recoveries[s.id].requester != f.did
         || !recoveries[s.id].status.Pending? || recoveries[s.id].previousDid != s.row.previousDid
         || recoveries[s.id].previousUpdatedAt != s.row.previousUpdatedAt {
        return Some(RecoveryChanged);
      }
      recoveries := recoveries[s.id := recoveries[s.id].(status := Completed, finalToken := Some(f.proof.token),
                                                         completedAt := Some(at))];
      if f.host !in hosts { return Some(HostMissing); }
      hosts := hosts[f.host := ClaimHost(hosts[f.host], f.handle, f.did, None, at)];
      hosts := hosts[f.host := ResetProfile(hosts[f.host], f.handle, f.did, at)];
      links := ResetLinks(links, f.host, f.did, at);
      AppendAudit(AuditKey(s.id, Finalized), AuditEntry(f.host, Some(f.did), Some(f.proof.token), None, None, at));
      return None;
    }

    /** The consume and write phase. */
    method CompleteRecovery(s: Snapshot) returns (reply: Option<Reply>, error: Option<Reason>)
      modifies this
      ensures match FinalizeWrite(old(Now()), s)
              case Commit(t, r) => Now() == t && reply == Some(r) && error == None
              case Abort(e) => Now() == old(Now()) && reply == None && error == Some(e)
    {
      hide MoveOwner, ViewOf, FinalizeReplay, Matches, NewOwner;
      var start := Now();
      var refusal := SpendProof(s.f.proof.token, s.f.host, s.f.did, s.f.at);
      if refusal.Some? {
        var replay := FinalizeReplay(Now(), s);
        if refusal.value.AlreadyUsed? && replay.Some? { return replay, None; }
        return Some(Refused(refusal.value, Some(ViewOf(s.id, s.row)))), None;
      }
      error := MoveOwnership(s);
      if error.Some? {
        Rollback(start);
        return None, error;
      }
      var claim := NewOwner(s);
      return Some(Ok(claim, ViewOf(s.id, s.row).(status := Completed, completedAt := Some(claim.updatedAt)))), None;
    }

    method NewestEvidence(r: Recovery) returns (newest: Option<TokenHash>)
      ensures newest.None? ==> forall k :: k in evidence ==> !Minted(evidence[k], r)
      ensures newest.Some? ==> NewestMint(evidence, r, newest.value)
    {
      newest := None;
      var todo := evidence.Keys;
      while todo != {}
        invariant todo <= evidence.Keys
        invariant newest.None? ==> forall k :: k in evidence && k !in todo ==> !Minted(evidence[k], r)
        invariant newest.Some? ==>
                    newest.value in evidence && Minted(evidence[newest.value], r) &&
                    forall k :: k in evidence && k !in todo && Minted(evidence[k], r) ==>
                                  evidence[k].completedAt <= evidence[newest.value].completedAt
        decreases todo
      {
        var k :| k in todo;
        todo := todo - {k};
        if Minted(evidence[k], r) && (newest.None? || evidence[newest.value].completedAt < evidence[k].completedAt) {
          newest := Some(k);
        }
      }
    }

    /** Acquire the lease; the caller may send the warning to the mailbox with the returned fingerprint. */
    method ReserveNotification(host: Host, requester: Did, at: Time, retryAfter: Time)
      returns (leased: Option<TokenHash>, fingerprint: Option<string>)
      requires Valid()
      modifies this
      ensures Now() == Reserve(old(Now()), host, requester, at, retryAfter)
      ensures LeaseIds(Reconcile(old(Now()), host, at), host, requester, at, retryAfter)
           == if leased.None? then {} else {leased.value}
      ensures leased.None? ==> fingerprint.None?
      ensures leased.Some? ==> leased.value in recoveries && WarnsMailbox(evidence, recoveries[leased.value],
                                                                          fingerprint)
    {
      hide Reconcile, IsFingerprint;
      ReconcilePendingRecovery(host, at);
      ghost var t1 := Now();
      var ids := LeaseIds(Now(), host, requester, at, retryAfter);
      recoveries := Lease(Now(), ids, at).recoveries;
      if ids == {} {
        return None, None;
      }
      var id :| id in ids;
      assert ids == {id};
      leased, fingerprint := Some(id), None;
      var newest := NewestEvidence(recoveries[id]);
      if newest.Some? && IsFingerprint(evidence[newest.value].fingerprint) {
        fingerprint := Some(evidence[newest.value].fingerprint);
      }
    }

    method RecordNotification(host: Host, requester: Did, o: DeliveryReport) returns (shown: Option<View>)
      requires Valid()
      modifies this
      ensures Now() == Record(old(Now()), host, requester, o)
      ensures shown.None? <==> forall id :: id in PendingIds(Now(), host) ==> recoveries[id].requester != requester
      ensures shown.Some? ==> shown.value.id in PendingIds(Now(), host)
                              && shown == Some(ViewOf(shown.value.id, recoveries[shown.value.id]))
    {
      hide Reconcile, AddAudit;
      ReconcilePendingRecovery(host, o.attemptedAt);
      ghost var t1 := Now();
      ghost var ids := RecordIds(t1, host, requester, o);
      var found := set id | id in PendingIds(Now(), host) && recoveries[id].requester == requester :: id;
      if found == {} {
        assert ids == {};
        RecordNothing(t1, host, requester, o);
        return None;
      }
      var id :| id in found;
      assert forall j :: j in PendingIds(t1, host) ==> j == id;
      var current := recoveries[id];
      if current.attemptedAt != Some(o.attemptedAt) || current.delivery.Sent? || current.delivery == o.outcome {
        assert ids == {};
        RecordNothing(t1, host, requester, o);
        return Some(ViewOf(id, current));
      }
      recoveries := recoveries[id := current.(delivery := o.outcome, deliveryId := o.deliveryId,
                                              deliveryFingerprint := o.fingerprint,
                                              attemptedAt := Some(o.attemptedAt))];
      AppendAudit(AuditKey(id, Notified(o.outcome)),
                  AuditEntry(host, Some(requester), None, o.deliveryId, o.fingerprint, o.attemptedAt));
      assert ids == {id};
      RecordOne(t1, id, host, requester, o);
      return Some(ViewOf(id, recoveries[id]));
    }
  }

  lemma RecordNothing(t: Tables, host: Host, requester: Did, o: DeliveryReport)
    ensures Deliver(t, {}, host, requester, o) == t
  {
    var t' := Deliver(t, {}, host, requester, o);
    assert t'.recoveries == t.recoveries && t'.audit == t.audit;
  }

  lemma RecordOne(t: Tables, id: TokenHash, host: Host, requester: Did, o: DeliveryReport)
    requires id in t.recoveries
    ensures var e := AuditEntry(host, Some(requester), None, o.deliveryId, o.fingerprint, o.attemptedAt);
            Deliver(t, {id}, host, requester, o) ==
            t.(recoveries := t.recoveries[id := t.recoveries[id].(delivery := o.outcome, deliveryId := o.deliveryId,
                                                                  deliveryFingerprint := o.fingerprint)],
               audit := InsertAudit(t.audit, AuditKey(id, Notified(o.outcome)), e))
  {
    var e := AuditEntry(host, Some(requester), None, o.deliveryId, o.fingerprint, o.attemptedAt);
    assert Deliver(t, {id}, host, requester, o).recoveries ==
           t.recoveries[id := t.recoveries[id].(delivery := o.outcome, deliveryId := o.deliveryId,
                                                deliveryFingerprint := o.fingerprint)];
    assert AddAudit(t.audit, {id}, Notified(o.outcome), e) == InsertAudit(t.audit, AuditKey(id, Notified(o.outcome)),
                                                                          e);
  }
}
