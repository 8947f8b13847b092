/** What every transaction keeps.  The invariant ties the recovery rows to the live claim, to the spent proofs, to
    the evidence rows and to the audit ledger. */
module AccountHostInvariant {
  import opened Wrappers
  import opened AccountHostTables
  import opened AccountHostTransactions

  type Claims = map<Host, Claim>
  type Challenges = map<TokenHash, Challenge>
  type Recoveries = map<TokenHash, Recovery>
  type Evidences = map<TokenHash, Evidence>
  type Ledger = map<AuditKey, AuditEntry>

  // ---------------------------------------------------------------- the invariant

  predicate SpentBy(cs: Challenges, token: TokenHash, host: Host, did: Did) {
    token in cs && cs[token].consumedAt.Some? && cs[token].host == host && cs[token].did == did
  }

  /** A recovery row against the claim table: while the claim is e-mail derived it is the very claim the recovery
      snapshotted, and nothing has completed or invalidated yet. */
  predicate FitsClaims(claims: Claims, r: Recovery) {
    && r.host in claims
    && (claims[r.host].how.ContactEmail? ==> Matches(r, claims[r.host]) && (r.status.Pending? || r.status.Expired?))
  }

  /** A recovery row against the proofs it consumed: the starting one always, and a different, later issued one
      exactly when it completed. */
  predicate FitsProofs(cs: Challenges, id: TokenHash, r: Recovery) {
    && SpentBy(cs, id, r.host, r.requester)
    && (r.finalToken.Some? <==> r.status.Completed?)
    && (r.finalToken.Some? ==>
          && SpentBy(cs, r.finalToken.value, r.host, r.requester)
          && r.finalToken.value != id
          && r.eligibleAt <= cs[r.finalToken.value].createdAt < r.expiresAt)
  }

  predicate FitsClock(r: Recovery) {
    && r.eligibleAt == r.requestedAt + COOLDOWN_MS
    && r.expiresAt == r.eligibleAt + FINALIZE_WINDOW_MS
    && r.requester != r.previousDid
    && (r.completedAt.Some? <==> !r.status.Pending?)
  }

  predicate RowOk(id: TokenHash, r: Recovery, claims: Claims, cs: Challenges) {
    FitsClaims(claims, r) && FitsProofs(cs, id, r) && FitsClock(r)
  }

  ghost predicate RowsOk(rs: Recoveries, claims: Claims, cs: Challenges) {
    forall id :: id in rs ==> RowOk(id, rs[id], claims, cs)
  }

  ghost predicate OneCompletedPerHost(rs: Recoveries) {
    forall i, j :: i in rs && j in rs && rs[i].host == rs[j].host && rs[i].status.Completed? && rs[j].status.Completed?
                   ==> i == j
  }

  predicate Allowed(r: Recovery, e: Event) {
    e.Requested? || e.Notified? || TerminalEvent(r.status) == Some(e)
  }

  /** The entry of a closed row: the requester and the finishing proof when it completed, nobody when it expired. */
  predicate Closed(audit: Ledger, id: TokenHash, r: Recovery) {
    r.status.Pending? ||
    var k := AuditKey(id, TerminalEvent(r.status).value);
    && k in audit && r.completedAt == Some(audit[k].at) && audit[k].host == r.host
    && (if r.status.Completed? then audit[k].actor == Some(r.requester) && audit[k].proof == r.finalToken
        else audit[k].proof.None?)
    && (r.status.Expired? ==> audit[k].actor.None?)
  }

  predicate Opened(audit: Ledger, id: TokenHash, r: Recovery) {
    var k := AuditKey(id, Requested);
    k in audit && audit[k] == AuditEntry(r.host, Some(r.requester), Some(id), None, None, r.requestedAt)
  }

  ghost predicate LedgerSound(rs: Recoveries, audit: Ledger) {
    forall k :: k in audit ==> k.recovery in rs && Allowed(rs[k.recovery], k.event)
  }

  ghost predicate LedgerComplete(rs: Recoveries, audit: Ledger) {
    forall id :: id in rs ==> Opened(audit, id, rs[id]) && Closed(audit, id, rs[id])
  }

  /** An evidence row was minted by a spent e-mail proof, and names the claim it minted while that claim lasts. */
  predicate EvidenceRowOk(k: TokenHash, e: Evidence, claims: Claims, cs: Challenges) {
    && SpentBy(cs, k, e.host, e.did) && cs[k].fingerprint == e.fingerprint && cs[k].binding.Some?
    && e.host in claims
    && (claims[e.host].how.ContactEmail? ==> e.did == claims[e.host].did
                                             && e.claimUpdatedAt == claims[e.host].updatedAt)
  }

  ghost predicate EvidenceOk(ev: Evidences, claims: Claims, cs: Challenges) {
    forall k :: k in ev ==> EvidenceRowOk(k, ev[k], claims, cs)
  }

  ghost predicate HasEvidence(ev: Evidences, host: Host) {
    exists k :: k in ev && ev[k].host == host
  }

  ghost predicate OneEvidencePerHost(ev: Evidences) {
    forall j, k :: j in ev && k in ev && ev[j].host == ev[k].host ==> j == k
  }

  ghost predicate EvidenceCovers(ev: Evidences, claims: Claims, rs: Recoveries) {
    && (forall h :: h in claims && claims[h].how.ContactEmail? ==> HasEvidence(ev, h))
    && (forall id :: id in rs ==> HasEvidence(ev, rs[id].host))
    && (forall id, k :: id in rs && k in ev && ev[k].host == rs[id].host ==> Minted(ev[k], rs[id]))
  }

  ghost predicate Inv(t: Tables) {
    && RowsOk(t.recoveries, t.claims, t.challenges)
    && OnePendingPerHost(t.recoveries)
    && OneCompletedPerHost(t.recoveries)
    && LedgerSound(t.recoveries, t.audit)
    && LedgerComplete(t.recoveries, t.audit)
    && EvidenceOk(t.evidence, t.claims, t.challenges)
    && OneEvidencePerHost(t.evidence)
    && EvidenceCovers(t.evidence, t.claims, t.recoveries)
  }

  lemma EmptyInv()
    ensures Inv(EMPTY)
  {
  }

  // ---------------------------------------------------------------- how the tables evolve

  /** Challenges are only added, and only their `consumed_at` changes, from NULL to a time. */
  ghost predicate ChallengesGrow(cs: Challenges, cs': Challenges) {
    forall k :: k in cs ==>
                  && k in cs'
                  && cs'[k] == cs[k].(consumedAt := cs'[k].consumedAt)
                  && (cs[k].consumedAt.Some? ==> cs'[k].consumedAt.Some?)
  }

  /** No claim disappears, none becomes e-mail derived, and an e-mail derived one is not rewritten as such. */
  ghost predicate ClaimsEvolve(claims: Claims, claims': Claims) {
    && (forall h :: h in claims ==> h in claims')
    && (forall h :: h in claims' && claims'[h].how.ContactEmail? ==> h in claims && claims'[h] == claims[h])
  }

  /** The columns of a recovery row that are written once, when it is inserted. */
  predicate SameRequest(r: Recovery, r': Recovery) {
    && r'.host == r.host && r'.previousDid == r.previousDid && r'.previousUpdatedAt == r.previousUpdatedAt
    && r'.previousHandle == r.previousHandle
    && r'.requester == r.requester && r'.requesterHandle == r.requesterHandle
    && r'.requestedAt == r.requestedAt && r'.eligibleAt == r.eligibleAt && r'.expiresAt == r.expiresAt
  }

  predicate SameState(r: Recovery, r': Recovery) {
    SameRequest(r, r') && r'.status == r.status && r'.finalToken == r.finalToken && r'.completedAt == r.completedAt
  }

  lemma RowFrame(id: TokenHash, r: Recovery, r': Recovery, claims: Claims, claims': Claims, cs: Challenges,
                 cs': Challenges)
    requires RowOk(id, r, claims, cs) && SameState(r, r')
    requires ClaimsEvolve(claims, claims') && ChallengesGrow(cs, cs')
    ensures RowOk(id, r', claims', cs')
  {
  }

  /** A frame for the transactions that only claim, spend proofs and touch the delivery columns. */
  lemma RowsFrame(rs: Recoveries, rs': Recoveries, claims: Claims, claims': Claims, cs: Challenges, cs': Challenges)
    requires RowsOk(rs, claims, cs) && ClaimsEvolve(claims, claims') && ChallengesGrow(cs, cs')
    requires rs'.Keys == rs.Keys && forall id :: id in rs ==> SameState(rs[id], rs'[id])
    ensures RowsOk(rs', claims', cs')
  {
    forall id | id in rs' ensures RowOk(id, rs'[id], claims', cs') {
      RowFrame(id, rs[id], rs'[id], claims, claims', cs, cs');
    }
  }

  lemma EvidenceFrame(ev: Evidences, claims: Claims, claims': Claims, cs: Challenges, cs': Challenges)
    requires EvidenceOk(ev, claims, cs) && ClaimsEvolve(claims, claims') && ChallengesGrow(cs, cs')
    ensures EvidenceOk(ev, claims', cs')
  {
    forall k | k in ev ensures EvidenceRowOk(k, ev[k], claims', cs') {
      assert EvidenceRowOk(k, ev[k], claims, cs);
    }
  }

  lemma CoversFrame(ev: Evidences, claims: Claims, claims': Claims, rs: Recoveries, rs': Recoveries)
    requires EvidenceCovers(ev, claims, rs) && ClaimsEvolve(claims, claims')
    requires rs'.Keys == rs.Keys && forall id :: id in rs ==> SameRequest(rs[id], rs'[id])
    ensures EvidenceCovers(ev, claims', rs')
  {
    forall id | id in rs' ensures HasEvidence(ev, rs'[id].host) {
      assert HasEvidence(ev, rs[id].host);
    }
    forall id, k | id in rs' && k in ev && ev[k].host == rs'[id].host ensures Minted(ev[k], rs'[id]) {
      assert Minted(ev[k], rs[id]);
    }
  }

  lemma UniqueFrame(rs: Recoveries, rs': Recoveries)
    requires OnePendingPerHost(rs) && OneCompletedPerHost(rs)
    requires rs'.Keys == rs.Keys && forall id :: id in rs ==> SameState(rs[id], rs'[id])
    ensures OnePendingPerHost(rs') && OneCompletedPerHost(rs')
  {
    forall i, j | i in rs' && j in rs' && rs'[i].host == rs'[j].host && rs'[i].status.Pending? && rs'[j].status.Pending?
      ensures i == j
    {
      assert SameState(rs[i], rs'[i]) && SameState(rs[j], rs'[j]);
    }
    forall i, j | i in rs' && j in rs' && rs'[i].host == rs'[j].host && rs'[i].status.Completed?
                  && rs'[j].status.Completed?
      ensures i == j
    {
      assert SameState(rs[i], rs'[i]) && SameState(rs[j], rs'[j]);
    }
  }

  /** Claims, spent proofs and the tables the invariant does not read may change together. */
  lemma FrameKeepsInv(t: Tables, t': Tables)
    requires Inv(t)
    requires t'.recoveries == t.recoveries && t'.audit == t.audit && t'.evidence == t.evidence
    requires ClaimsEvolve(t.claims, t'.claims) && ChallengesGrow(t.challenges, t'.challenges)
    ensures Inv(t')
  {
    hide RowsOk, OnePendingPerHost, OneCompletedPerHost, LedgerSound, LedgerComplete, EvidenceOk, EvidenceCovers,
      OneEvidencePerHost;
    hide ClaimsEvolve, ChallengesGrow;
    RowsFrame(t.recoveries, t.recoveries, t.claims, t'.claims, t.challenges, t'.challenges);
    EvidenceFrame(t.evidence, t.claims, t'.claims, t.challenges, t'.challenges);
    CoversFrame(t.evidence, t.claims, t'.claims, t.recoveries, t.recoveries);
  }

  // ---------------------------------------------------------------- closing rows

  predicate ClosesAs(status: Status, event: Event) {
    (status.Expired? && event.ExpiredEvent?) || (status.Invalidated? && event.InvalidatedEvent?)
  }

  ghost predicate AllPending(rs: Recoveries, ids: set<TokenHash>, host: Host) {
    forall id :: id in ids ==> id in rs && rs[id].host == host && rs[id].status.Pending?
  }

  lemma CloseRowsOk(rs: Recoveries, claims: Claims, cs: Challenges, ids: set<TokenHash>, host: Host, status: Status,
                    at: Time)
    requires RowsOk(rs, claims, cs) && AllPending(rs, ids, host)
    requires status.Expired? || (status.Invalidated? && (host in claims ==> !claims[host].how.ContactEmail?))
    ensures RowsOk(CloseRows(rs, ids, status, at), claims, cs)
  {
    var rs' := CloseRows(rs, ids, status, at);
    forall id | id in rs' ensures RowOk(id, rs'[id], claims, cs) {
      assert RowOk(id, rs[id], claims, cs);
    }
  }

  lemma CloseUnique(rs: Recoveries, ids: set<TokenHash>, status: Status, at: Time)
    requires OnePendingPerHost(rs) && OneCompletedPerHost(rs) && (status.Expired? || status.Invalidated?)
    ensures OnePendingPerHost(CloseRows(rs, ids, status, at)) && OneCompletedPerHost(CloseRows(rs, ids, status, at))
  {
    var rs' := CloseRows(rs, ids, status, at);
    assert forall i :: i in rs' && rs'[i].status.Pending? ==> i in rs && rs'[i] == rs[i];
    assert forall i :: i in rs' && rs'[i].status.Completed? ==> i in rs && rs'[i] == rs[i];
  }

  lemma CloseLedger(rs: Recoveries, audit: Ledger, ids: set<TokenHash>, host: Host, status: Status, event: Event,
                    actor: Option<Did>, at: Time)
    requires LedgerSound(rs, audit) && LedgerComplete(rs, audit) && AllPending(rs, ids, host) && ClosesAs(status, event)
    requires status.Expired? ==> actor.None?
    ensures var rs' := CloseRows(rs, ids, status, at);
            var audit' := AddAudit(audit, ids, event, AuditEntry(host, actor, None, None, None, at));
            LedgerSound(rs', audit') && LedgerComplete(rs', audit')
  {
    var rs' := CloseRows(rs, ids, status, at);
    var audit' := AddAudit(audit, ids, event, AuditEntry(host, actor, None, None, None, at));
    forall k | k in audit' ensures k.recovery in rs' && Allowed(rs'[k.recovery], k.event) {
      if k in audit {
        assert Allowed(rs[k.recovery], k.event);
      }
    }
    forall id | id in rs' ensures Opened(audit', id, rs'[id]) && Closed(audit', id, rs'[id]) {
      assert Opened(audit, id, rs[id]) && Closed(audit, id, rs[id]);
      assert id in ids ==> AuditKey(id, event) !in audit && AuditKey(id, event) in AuditKeys(ids, event);
    }
  }

  /** Pending rows may be closed as expired, or as invalidated once their host's claim is no longer e-mail derived. */
  lemma CloseKeepsInv(t: Tables, ids: set<TokenHash>, host: Host, status: Status, event: Event, actor: Option<Did>,
                      at: Time)
    requires Inv(t) && AllPending(t.recoveries, ids, host) && ClosesAs(status, event)
             && (status.Expired? ==> actor.None?)
    requires status.Invalidated? && host in t.claims ==> !t.claims[host].how.ContactEmail?
    ensures Inv(Close(t, ids, host, status, event, actor, at))
  {
    hide RowsOk, OnePendingPerHost, OneCompletedPerHost, LedgerSound, LedgerComplete, EvidenceOk, EvidenceCovers,
      OneEvidencePerHost;
    var t' := Close(t, ids, host, status, event, actor, at);
    assert t' == t.(recoveries := t'.recoveries, audit := t'.audit);
    CloseRowsOk(t.recoveries, t.claims, t.challenges, ids, host, status, at);
    CloseUnique(t.recoveries, ids, status, at);
    CloseLedger(t.recoveries, t.audit, ids, host, status, event, actor, at);
    CoversFrame(t.evidence, t.claims, t.claims, t.recoveries, CloseRows(t.recoveries, ids, status, at));
  }

  lemma CloseFrame(t: Tables, ids: set<TokenHash>, host: Host, status: Status, event: Event, actor: Option<Did>,
                   at: Time)
    ensures Close(t, ids, host, status, event, actor, at).claims == t.claims
    ensures Close(t, ids, host, status, event, actor, at).challenges == t.challenges
    ensures Close(t, ids, host, status, event, actor, at).recoveries.Keys == t.recoveries.Keys
  {
    hide AddAudit;
  }

  lemma ReconcileFrame(t: Tables, host: Host, at: Time)
    ensures Reconcile(t, host, at).claims == t.claims
    ensures Reconcile(t, host, at).challenges == t.challenges
    ensures Reconcile(t, host, at).recoveries.Keys == t.recoveries.Keys
  {
    hide Close, PendingIds, StaleIds, LiveMatch;
    CloseFrame(t, StaleIds(t, host, at), host, Expired, ExpiredEvent, None, at);
    var t1 := ExpireStale(t, host, at);
    CloseFrame(t1, PendingIds(t1, host), host, Invalidated, InvalidatedEvent, Owner(t1, host), at);
  }

  lemma ExpireKeepsInv(t: Tables, host: Host, at: Time)
    requires Inv(t)
    ensures Inv(ExpireStale(t, host, at))
  {
    CloseKeepsInv(t, StaleIds(t, host, at), host, Expired, ExpiredEvent, None, at);
  }

  lemma InvalidateKeepsInv(t: Tables, host: Host, at: Time, actor: Option<Did>)
    requires Inv(t)
    requires host in t.claims ==> !t.claims[host].how.ContactEmail?
    ensures Inv(InvalidatePending(t, host, at, actor))
  {
    CloseKeepsInv(t, PendingIds(t, host), host, Invalidated, InvalidatedEvent, actor, at);
  }

  lemma ReconcileKeepsInv(t: Tables, host: Host, at: Time)
    requires Inv(t)
    ensures Inv(Reconcile(t, host, at))
  {
    ExpireKeepsInv(t, host, at);
    InvalidateStale(ExpireStale(t, host, at), host, at);
  }

  lemma InvalidateStale(t: Tables, host: Host, at: Time)
    requires Inv(t)
    ensures (forall id :: id in PendingIds(t, host) ==> LiveMatch(t, id))
            || Inv(InvalidatePending(t, host, at, Owner(t, host)))
  {
    if !(forall id :: id in PendingIds(t, host) ==> LiveMatch(t, id)) {
      var id :| id in PendingIds(t, host) && !LiveMatch(t, id);
      NoMatchNoEmail(t, id);
      InvalidateKeepsInv(t, host, at, Owner(t, host));
    }
  }

  /** After reconciling, a pending row of the host snapshots exactly the live claim and is still inside its window. */
  lemma ReconcileSettles(t: Tables, host: Host, at: Time, id: TokenHash)
    requires id in PendingIds(Reconcile(t, host, at), host)
    ensures LiveMatch(Reconcile(t, host, at), id) && at < Reconcile(t, host, at).recoveries[id].expiresAt
  {
    var t1 := ExpireStale(t, host, at);
    assert id in PendingIds(t1, host);
    assert id !in StaleIds(t, host, at);
  }

  // ---------------------------------------------------------------- the transactions

  lemma DnsClaimKeepsInv(t: Tables, w: DnsWrite)
    requires Inv(t) && DnsClaimError(t, w).None?
    ensures Inv(DnsClaim(t, w))
  {
    hide RowsOk, OnePendingPerHost, OneCompletedPerHost, LedgerSound, LedgerComplete, EvidenceOk, EvidenceCovers,
      OneEvidencePerHost;
    hide CloseRows, AddAudit, ResetLinks, ClaimHost, ResetProfile;
    FrameKeepsInv(t, Assign(t, w));
    InvalidateKeepsInv(Assign(t, w), w.host, w.at, Some(w.claim.did));
    FrameKeepsInv(InvalidatePending(Assign(t, w), w.host, w.at, Some(w.claim.did)), DnsClaim(t, w));
  }

  lemma RefreshKeepsInv(t: Tables, f: Refresh)
    requires Inv(t) && RefreshError(t, f).None?
    ensures Inv(RefreshOwner(t, f))
  {
    FrameKeepsInv(t, RefreshOwner(t, f));
  }

  lemma EmailClaimKeepsInv(t: Tables, w: EmailWrite)
    requires Inv(t) && EmailClaimError(t, w).None?
    ensures Inv(EmailClaim(t, w))
  {
    NoRowsBeforeClaim(t, w.host);
    var c := t.challenges[w.token].(consumedAt := Some(w.at));
    EmailRows(t.recoveries, t.claims, t.challenges, w, c);
    EmailEvidence(t.evidence, t.claims, t.challenges, EmailClaim(t, w).evidence[w.token], w, c);
    EmailCovers(t.evidence, t.claims, t.recoveries, EmailClaim(t, w).evidence[w.token], w);
  }

  lemma NoRowsBeforeClaim(t: Tables, host: Host)
    requires Inv(t) && host !in t.claims
    ensures forall id :: id in t.recoveries ==> t.recoveries[id].host != host
    ensures forall k :: k in t.evidence ==> t.evidence[k].host != host
  {
    forall id | id in t.recoveries ensures t.recoveries[id].host != host {
      assert RowOk(id, t.recoveries[id], t.claims, t.challenges);
    }
    forall k | k in t.evidence ensures t.evidence[k].host != host {
      assert EvidenceRowOk(k, t.evidence[k], t.claims, t.challenges);
    }
  }

  lemma EmailRows(rs: Recoveries, claims: Claims, cs: Challenges, w: EmailWrite, c: Challenge)
    requires RowsOk(rs, claims, cs) && forall id :: id in rs ==> rs[id].host != w.host
    requires w.token in cs && c == cs[w.token].(consumedAt := c.consumedAt) && c.consumedAt.Some?
    ensures RowsOk(rs, claims[w.host := w.claim], cs[w.token := c])
  {
    forall id | id in rs ensures RowOk(id, rs[id], claims[w.host := w.claim], cs[w.token := c]) {
      assert RowOk(id, rs[id], claims, cs);
    }
  }

  lemma EmailEvidence(ev: Evidences, claims: Claims, cs: Challenges, e: Evidence, w: EmailWrite, c: Challenge)
    requires EvidenceOk(ev, claims, cs) && OneEvidencePerHost(ev) && forall k :: k in ev ==> ev[k].host != w.host
    requires w.token in cs && c == cs[w.token].(consumedAt := c.consumedAt) && c.consumedAt.Some?
    requires c.host == e.host == w.host && c.did == e.did == w.claim.did && e.claimUpdatedAt == w.claim.updatedAt
    requires c.fingerprint == e.fingerprint && c.binding.Some?
    ensures EvidenceOk(ev[w.token := e], claims[w.host := w.claim], cs[w.token := c])
            && OneEvidencePerHost(ev[w.token := e])
  {
    forall k | k in ev && k != w.token ensures EvidenceRowOk(k, ev[k], claims[w.host := w.claim], cs[w.token := c]) {
      assert EvidenceRowOk(k, ev[k], claims, cs);
    }
  }

  lemma EmailCovers(ev: Evidences, claims: Claims, rs: Recoveries, e: Evidence, w: EmailWrite)
    requires EvidenceCovers(ev, claims, rs) && w.token !in ev && e.host == w.host
    requires forall id :: id in rs ==> rs[id].host != w.host
    ensures EvidenceCovers(ev[w.token := e], claims[w.host := w.claim], rs)
  {
    var ev' := ev[w.token := e];
    assert ev'[w.token].host == w.host;
    forall h | HasEvidence(ev, h) ensures HasEvidence(ev', h) {
      var k :| k in ev && ev[k].host == h;
      assert ev'[k].host == h;
    }
  }

  lemma StartKeepsInv(t: Tables, q: RecoveryRequest)
    requires Inv(t) && StartError(t, q).None?
    ensures Inv(StartRecovery(t, q))
  {
    hide RowsOk, OnePendingPerHost, OneCompletedPerHost, LedgerSound, LedgerComplete, EvidenceOk, EvidenceCovers,
      OneEvidencePerHost;
    ReconcileKeepsInv(t, q.host, q.at);
    FileRequestKeepsInv(Reconcile(t, q.host, q.at), NewRecovery(t.claims[q.host], q), q.token);
  }

  lemma FileRequestKeepsInv(t: Tables, r: Recovery, token: TokenHash)
    requires Inv(t) && token in t.challenges && token !in t.recoveries
    requires t.challenges[token].host == r.host && t.challenges[token].did == r.requester
    requires r.host in t.claims && Matches(r, t.claims[r.host]) && PendingIds(t, r.host) == {}
    requires r.status.Pending? && r.finalToken.None? && FitsClock(r)
    ensures Inv(FileRequest(t, r, token))
  {
    hide OnePendingPerHost, OneCompletedPerHost, LedgerSound, LedgerComplete, EvidenceOk, EvidenceCovers,
      OneEvidencePerHost;
    var cs := Spend(t.challenges, token, r.requestedAt);
    RowsFrame(t.recoveries, t.recoveries, t.claims, t.claims, t.challenges, cs);
    assert RowOk(token, r, t.claims, cs);
    EvidenceFrame(t.evidence, t.claims, t.claims, t.challenges, cs);
    StartUnique(t, token, r);
    StartLedger(t.recoveries, t.audit, token, r);
    StartCovers(t, token, r);
  }

  lemma StartUnique(t: Tables, id: TokenHash, r: Recovery)
    requires OnePendingPerHost(t.recoveries) && OneCompletedPerHost(t.recoveries)
    requires PendingIds(t, r.host) == {} && r.status.Pending?
    ensures OnePendingPerHost(t.recoveries[id := r]) && OneCompletedPerHost(t.recoveries[id := r])
  {
    assert forall i :: i in t.recoveries && t.recoveries[i].host == r.host && t.recoveries[i].status.Pending? ==>
                         i in PendingIds(t, r.host);
  }

  lemma StartLedger(rs: Recoveries, audit: Ledger, id: TokenHash, r: Recovery)
    requires LedgerSound(rs, audit) && LedgerComplete(rs, audit) && id !in rs && r.status.Pending?
    ensures var audit' := InsertAudit(audit, AuditKey(id, Requested),
                                      AuditEntry(r.host, Some(r.requester), Some(id), None, None, r.requestedAt));
            LedgerSound(rs[id := r], audit') && LedgerComplete(rs[id := r], audit')
  {
    assert AuditKey(id, Requested) !in audit;
    assert forall i :: i in rs ==> Opened(audit, i, rs[i]) && Closed(audit, i, rs[i]);
  }

  lemma StartCovers(t: Tables, id: TokenHash, r: Recovery)
    requires EvidenceOk(t.evidence, t.claims, t.challenges) && EvidenceCovers(t.evidence, t.claims, t.recoveries)
    requires r.host in t.claims && Matches(r, t.claims[r.host])
    ensures EvidenceCovers(t.evidence, t.claims, t.recoveries[id := r])
  {
    assert HasEvidence(t.evidence, r.host);
    assert forall k :: k in t.evidence ==> EvidenceRowOk(k, t.evidence[k], t.claims, t.challenges);
  }

  // ---------------------------------------------------------------- finalization

  /** What the read phase established and no later transaction can undo. */
  ghost predicate SnapshotOk(t: Tables, s: Snapshot) {
    && s.id in t.recoveries && SameRequest(s.row, t.recoveries[s.id])
    && s.row.host == s.f.host && s.row.requester == s.f.did
    && Matches(s.row, s.current)
    && s.row.eligibleAt <= s.f.at < s.row.expiresAt
    && FreshProof(s.f, s.row)
    && DnsBound(t, s.f)
  }

  lemma ReadEstablishesSnapshot(t: Tables, f: Finalization, latest: Option<TokenHash>)
    requires IsLatest(t, f.host, latest) && FinalizeRead(t, f, latest).Ready?
    ensures SnapshotOk(t, FinalizeRead(t, f, latest).snapshot)
  {
  }

  /** A reply of the read phase leaves the tables alone, expires old rows, or invalidates a row whose snapshot went
      stale. */
  lemma ReadReplies(t: Tables, f: Finalization, latest: Option<TokenHash>)
    requires IsLatest(t, f.host, latest) && FinalizeRead(t, f, latest).Replied?
    ensures var t' := FinalizeRead(t, f, latest).tables;
            || t' == t
            || t' == ExpireStale(t, f.host, f.at)
            || (t' == InvalidatePending(t, f.host, f.at, Owner(t, f.host)) && latest.Some?
                && !LiveMatch(t, latest.value))
  {
  }

  lemma ReadKeepsInv(t: Tables, f: Finalization, latest: Option<TokenHash>)
    requires Inv(t) && IsLatest(t, f.host, latest) && FinalizeRead(t, f, latest).Replied?
    ensures Inv(FinalizeRead(t, f, latest).tables)
  {
    ReadReplies(t, f, latest);
    ExpireKeepsInv(t, f.host, f.at);
    if latest.Some? && !LiveMatch(t, latest.value) {
      NoMatchNoEmail(t, latest.value);
      InvalidateKeepsInv(t, f.host, f.at, Owner(t, f.host));
    }
  }

  /** A recovery whose snapshot is stale shows that the host's claim is no longer e-mail derived. */
  lemma NoMatchNoEmail(t: Tables, id: TokenHash)
    requires Inv(t) && id in t.recoveries && !LiveMatch(t, id)
    ensures t.recoveries[id].host in t.claims && !t.claims[t.recoveries[id].host].how.ContactEmail?
  {
    assert RowOk(id, t.recoveries[id], t.claims, t.challenges);
  }

  /** The write phase moves the ownership row, rather than refusing, replaying or aborting. */
  predicate MovesOwner(t: Tables, s: Snapshot) {
    SpendError(t.challenges, s.f.proof.token, s.f.host, s.f.did, s.f.at).None? && CompleteError(t, s).None?
  }

  lemma WriteKeepsInv(t: Tables, s: Snapshot)
    requires Inv(t) && SnapshotOk(t, s) && FinalizeWrite(t, s).Commit?
    ensures Inv(FinalizeWrite(t, s).tables)
  {
    hide Inv, SnapshotOk, Complete, CompleteError, FinalizeReplay, ViewOf;
    if MovesOwner(t, s) {
      CompleteKeepsInv(t, s);
    }
  }

  lemma CompleteKeepsInv(t: Tables, s: Snapshot)
    requires Inv(t) && SnapshotOk(t, s) && MovesOwner(t, s)
    ensures Inv(Complete(t, s))
  {
    hide RowsOk, OnePendingPerHost, OneCompletedPerHost, LedgerSound, LedgerComplete, EvidenceOk, EvidenceCovers,
      OneEvidencePerHost;
    hide ClaimHost, ResetProfile, ResetLinks;
    var t' := Complete(t, s);
    EvidenceFrame(t.evidence, t.claims, t'.claims, t.challenges, t'.challenges);
    CoversFrame(t.evidence, t.claims, t'.claims, t.recoveries, t'.recoveries);
    CompleteRows(t.recoveries, t.claims, t.challenges, s, t'.recoveries[s.id], t'.claims[s.f.host]);
    CompleteUnique(t.recoveries, t.claims, t.challenges, s, t'.recoveries[s.id]);
    WriteLedger(t.recoveries, t.audit, s.id, t'.recoveries[s.id],
                AuditEntry(s.f.host, Some(s.f.did), Some(s.f.proof.token), None, None, NewOwner(s).updatedAt));
  }

  /** The completed row, and what is left pending nowhere else on its host. */
  predicate Completes(s: Snapshot, r: Recovery, r': Recovery) {
    && r.host == s.f.host && r.requester == s.f.did && r.status.Pending?
    && r' == r.(status := Completed, finalToken := Some(s.f.proof.token), completedAt := r'.completedAt)
    && r'.completedAt.Some?
  }

  lemma CompleteRows(rs: Recoveries, claims: Claims, cs: Challenges, s: Snapshot, r': Recovery, c: Claim)
    requires RowsOk(rs, claims, cs) && s.id in rs && Completes(s, rs[s.id], r') && s.f.host in claims
    requires c.how.DnsTxt? && SpendError(cs, s.f.proof.token, s.f.host, s.f.did, s.f.at).None?
    requires r'.eligibleAt <= cs[s.f.proof.token].createdAt < r'.expiresAt
    ensures RowsOk(rs[s.id := r'], claims[s.f.host := c], Spend(cs, s.f.proof.token, s.f.at))
  {
    var rs', claims', cs' := rs[s.id := r'], claims[s.f.host := c], Spend(cs, s.f.proof.token, s.f.at);
    forall id | id in rs' ensures RowOk(id, rs'[id], claims', cs') {
      assert RowOk(id, rs[id], claims, cs);
    }
  }

  lemma CompleteUnique(rs: Recoveries, claims: Claims, cs: Challenges, s: Snapshot, r': Recovery)
    requires OnePendingPerHost(rs) && OneCompletedPerHost(rs) && RowsOk(rs, claims, cs)
    requires s.id in rs && Completes(s, rs[s.id], r') && s.f.host in claims && claims[s.f.host].how.ContactEmail?
    ensures OnePendingPerHost(rs[s.id := r']) && OneCompletedPerHost(rs[s.id := r'])
  {
    forall id | id in rs && rs[id].host == s.f.host ensures !rs[id].status.Completed? {
      assert RowOk(id, rs[id], claims, cs);
    }
  }

  lemma WriteLedger(rs: Recoveries, audit: Ledger, id: TokenHash, r: Recovery, e: AuditEntry)
    requires LedgerSound(rs, audit) && LedgerComplete(rs, audit)
    requires id in rs && rs[id].status.Pending? && SameRequest(rs[id], r) && r.status.Completed?
    requires r.completedAt == Some(e.at) && e.host == r.host && e.actor == Some(r.requester) && e.proof == r.finalToken
    requires rs[id].finalToken.None? || r.finalToken.Some?
    ensures LedgerSound(rs[id := r], InsertAudit(audit, AuditKey(id, Finalized), e))
    ensures LedgerComplete(rs[id := r], InsertAudit(audit, AuditKey(id, Finalized), e))
  {
    assert AuditKey(id, Finalized) !in audit;
    assert forall i :: i in rs ==> Opened(audit, i, rs[i]) && Closed(audit, i, rs[i]);
  }

  // ---------------------------------------------------------------- notifications

  lemma DeliveryKeepsInv(t: Tables, t': Tables)
    requires Inv(t)
    requires t' == t.(recoveries := t'.recoveries, audit := t'.audit)
    requires t'.recoveries.Keys == t.recoveries.Keys
    requires forall id :: id in t.recoveries ==> SameState(t.recoveries[id], t'.recoveries[id])
    requires forall k :: k in t.audit ==> k in t'.audit && t'.audit[k] == t.audit[k]
    requires forall k :: k in t'.audit && k !in t.audit ==> k.recovery in t.recoveries && k.event.Notified?
    ensures Inv(t')
  {
    hide RowsOk, OnePendingPerHost, OneCompletedPerHost, LedgerSound, LedgerComplete, EvidenceOk, EvidenceCovers,
      OneEvidencePerHost;
    RowsFrame(t.recoveries, t'.recoveries, t.claims, t.claims, t.challenges, t.challenges);
    UniqueFrame(t.recoveries, t'.recoveries);
    CoversFrame(t.evidence, t.claims, t.claims, t.recoveries, t'.recoveries);
    DeliveryLedger(t.recoveries, t'.recoveries, t.audit, t'.audit);
  }

  lemma DeliveryLedger(rs: Recoveries, rs': Recoveries, audit: Ledger, audit': Ledger)
    requires LedgerSound(rs, audit) && LedgerComplete(rs, audit)
    requires rs'.Keys == rs.Keys && forall id :: id in rs ==> SameState(rs[id], rs'[id])
    requires forall k :: k in audit ==> k in audit' && audit'[k] == audit[k]
    requires forall k :: k in audit' && k !in audit ==> k.recovery in rs && k.event.Notified?
    ensures LedgerSound(rs', audit') && LedgerComplete(rs', audit')
  {
    forall id | id in rs' ensures Opened(audit', id, rs'[id]) && Closed(audit', id, rs'[id]) {
      assert SameState(rs[id], rs'[id]);
      assert Opened(audit, id, rs[id]) && Closed(audit, id, rs[id]);
    }
    forall k | k in audit' ensures k.recovery in rs' && Allowed(rs'[k.recovery], k.event) {
      if k in audit { assert Allowed(rs[k.recovery], k.event); }
      assert SameState(rs[k.recovery], rs'[k.recovery]);
    }
  }

  lemma LeaseKeepsInv(t: Tables, ids: set<TokenHash>, at: Time)
    requires Inv(t)
    ensures Inv(Lease(t, ids, at))
  {
    hide RowsOk, OnePendingPerHost, OneCompletedPerHost, LedgerSound, LedgerComplete, EvidenceOk, EvidenceCovers,
      OneEvidencePerHost;
    DeliveryKeepsInv(t, Lease(t, ids, at));
  }

  lemma DeliverKeepsInv(t: Tables, ids: set<TokenHash>, host: Host, requester: Did, o: DeliveryReport)
    requires Inv(t) && forall id :: id in ids ==> id in t.recoveries
    ensures Inv(Deliver(t, ids, host, requester, o))
  {
    hide RowsOk, OnePendingPerHost, OneCompletedPerHost, LedgerSound, LedgerComplete, EvidenceOk, EvidenceCovers,
      OneEvidencePerHost;
    DeliveryKeepsInv(t, Deliver(t, ids, host, requester, o));
  }

  lemma ReserveKeepsInv(t: Tables, host: Host, requester: Did, at: Time, retryAfter: Time)
    requires Inv(t)
    ensures Inv(Reserve(t, host, requester, at, retryAfter))
  {
    ReconcileKeepsInv(t, host, at);
    var t1 := Reconcile(t, host, at);
    LeaseKeepsInv(t1, LeaseIds(t1, host, requester, at, retryAfter), at);
  }

  lemma RecordKeepsInv(t: Tables, host: Host, requester: Did, o: DeliveryReport)
    requires Inv(t)
    ensures Inv(Record(t, host, requester, o))
  {
    ReconcileKeepsInv(t, host, o.attemptedAt);
    var t1 := Reconcile(t, host, o.attemptedAt);
    DeliverKeepsInv(t1, RecordIds(t1, host, requester, o), host, requester, o);
  }
}
