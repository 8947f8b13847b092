/** Following the protocol works: whoever meets its conditions gets through.  (The theorems over runs say that
    nobody else does.) */
module AccountHostProgress {
  import opened Wrappers
  import opened AccountHostTables
  import opened AccountHostTransactions
  import opened AccountHostInvariant
  import opened AccountHostRuns
  import opened AccountHostOwnership
  import opened AccountHostRecovery

  /** The holder of an unexpired intent for the current row, verified as such, hands the host over to whoever brings
      an unspent proof; recoveries that were pending against the old owner end. */
  lemma TransferSucceeds(t: Tables, q: DnsRequest, now: Time)
    requires q.transfer.Some? && q.host in t.claims && q.host in t.hosts
    requires var i, c := q.transfer.value, t.claims[q.host];
             && i.host == q.host && i.previousDid == c.did != q.did && i.previousUpdatedAt == c.updatedAt
             && now < i.expiresAt && i.jti !in t.transfers
             && Spendable(t.challenges, q.token, q.host, q.did, Max(now, c.updatedAt + 1))
    ensures var prepared := PrepareDns(t, q, Some(t.claims[q.host].did), now);
            && prepared.Some? && DnsClaimError(t, prepared.value).None?
            && var t' := DnsClaim(t, prepared.value);
            && q.host in t'.claims && t'.claims[q.host].did == q.did && t'.claims[q.host].how.DnsTxt?
            && t'.claims[q.host].updatedAt > t.claims[q.host].updatedAt
            && PendingIds(t', q.host) == {} && q.transfer.value.jti in t'.transfers
  {
    hide AddAudit, ResetLinks, ResetProfile, ClaimHost;
  }

  /** A proof that has been issued can be spent by its account for its host until it expires; issuing changes no other
      proof, and a token in use is not issued again. */
  lemma IssuedCanBeSpent(s: Sys, token: TokenHash, c: Challenge, at: Time)
    requires c.consumedAt.None?
    ensures var t, t' := s.tables, Step(s, Issue(token, c)).tables;
            if token in t.challenges then t' == t
            else
              && (Spendable(t'.challenges, token, c.host, c.did, at) <==> at <= c.expiresAt)
              && t'.challenges.Keys == t.challenges.Keys + {token}
              && forall k :: k in t.challenges ==> t'.challenges[k] == t.challenges[k]
  {
  }

  /** The read phase lets a claim through: without an intent the host is unclaimed or the claimant's own; with one,
      its verified owner hands over the current row before the intent expires. */
  predicate MayPrepare(t: Tables, q: DnsRequest, verifiedOwner: Option<Did>, now: Time) {
    match q.transfer
    case None => Owner(t, q.host).None? || Owner(t, q.host) == Some(q.did)
    case Some(i) =>
      && i.host == q.host && now < i.expiresAt && i.previousDid != q.did
      && verifiedOwner == Some(i.previousDid) && Owner(t, q.host) == Some(i.previousDid)
      && t.claims[q.host].updatedAt == i.previousUpdatedAt
  }

  /** The time that the write phase writes: a transfer moves `updated_at` forward. */
  function WriteTime(q: DnsRequest, now: Time): Time {
    if q.transfer.Some? && now <= q.transfer.value.previousUpdatedAt then q.transfer.value.previousUpdatedAt + 1
    else now
  }

  /** The write phase lets it through: the proof can be spent, and the row is still the one that was read. */
  predicate MayWrite(t: Tables, q: DnsRequest, at: Time) {
    && Spendable(t.challenges, q.token, q.host, q.did, at) && q.host in t.hosts
    && match q.transfer
       case None => Owner(t, q.host).None? || Owner(t, q.host) == Some(q.did)
       case Some(i) =>
         && Owner(t, q.host) == Some(i.previousDid) && t.claims[q.host].updatedAt == i.previousUpdatedAt
         && i.jti !in t.transfers
  }

  predicate Uses(a: Action, worker: Worker) {
    (a.ReadDnsClaim? || a.WriteDnsClaim? || a.ReadFinalization? || a.WriteFinalization?) && a.worker == worker
  }

  lemma PreparesExactly(t: Tables, q: DnsRequest, verifiedOwner: Option<Did>, now: Time)
    ensures PrepareDns(t, q, verifiedOwner, now).Some? <==> MayPrepare(t, q, verifiedOwner, now)
    ensures MayPrepare(t, q, verifiedOwner, now) ==>
              && PreparedFrom(t, q, verifiedOwner, now, PrepareDns(t, q, verifiedOwner, now).value)
              && PrepareDns(t, q, verifiedOwner, now).value.at == WriteTime(q, now)
  {
  }

  lemma WritesExactly(t: Tables, p: Tables, q: DnsRequest, verifiedOwner: Option<Did>, now: Time, w: DnsWrite)
    requires PreparedFrom(p, q, verifiedOwner, now, w)
    ensures DnsClaimError(t, w).None? <==> MayWrite(t, q, w.at)
  {
  }

  lemma OthersLeaveWork(s: Sys, a: Action, worker: Worker)
    requires !Uses(a, worker)
    ensures worker in Step(s, a).open <==> worker in s.open
    ensures worker in s.open ==> Step(s, a).open[worker] == s.open[worker]
  {
    hide TablesAfter, FinalizeRead, PrepareDns;
  }

  lemma {:induction false} WorkStaysOpen(trace: seq<Sys>, acts: seq<Action>, i: nat, j: nat, worker: Worker)
    requires Run(trace, acts) && i <= j < |trace| && forall m :: i <= m < j ==> !Uses(acts[m], worker)
    ensures worker in trace[j].open <==> worker in trace[i].open
    ensures worker in trace[i].open ==> trace[j].open[worker] == trace[i].open[worker]
    decreases j
  {
    hide Step;
    if i < j {
      WorkStaysOpen(trace, acts, i, j - 1, worker);
      OthersLeaveWork(trace[j - 1], acts[j - 1], worker);
    }
  }

  /** What a claim leaves of the host's row: it is no longer merely observed, a seeded row keeps the claimant it was
      seeded with, and the listing choice changes only if one is given. */
  predicate RowClaimed(row: HostRow, row': HostRow, handle: string, did: Did, optIn: Option<bool>, at: Time) {
    && row'.seeded == row.seeded && row'.updatedAt == at
    && (row.verification.Verified? <==> row'.verification.Verified?) && !row'.verification.Observed?
    && (row.seeded ==> row'.claimHandle == row.claimHandle && row'.claimDid == row.claimDid)
    && (!row.seeded ==> row'.claimHandle == Some(handle) && row'.claimDid == Some(did))
    && (optIn.None? ==> row'.optIn == row.optIn && row'.optedAt == row.optedAt)
    && (optIn.Some? ==> row'.optIn == optIn && row'.optedAt == Some(at))
  }

  /** And nothing of its profile. */
  predicate ProfileKept(row: HostRow, row': HostRow) {
    && row'.profileHandle == row.profileHandle && row'.profileDid == row.profileDid && row'.avatar == row.avatar
    && row'.serviceUri == row.serviceUri && row'.serviceCid == row.serviceCid
    && row'.serviceObservedAt == row.serviceObservedAt
  }

  /** What a DNS claim or transfer leaves: the claimant owns the host by DNS, from `at` on; an earlier claim of its
      own keeps its date; no recovery is pending; a transfer is in the ledger under its id. */
  ghost predicate ClaimedBy(t: Tables, t': Tables, q: DnsRequest, at: Time) {
    && q.host in t'.claims
    && t'.claims[q.host] == Claim(q.did, q.handle, DnsTxt,
                                  if Owner(t, q.host) == Some(q.did) then t.claims[q.host].claimedAt else at, at, at)
    && PendingIds(t', q.host) == {}
    && t'.transfers == (if q.transfer.None? then t.transfers
                        else var i := q.transfer.value;
                             t.transfers[i.jti := Transfer(q.host, i.previousDid, q.did, i.issuedAt, at)])
    && q.host in t.hosts && t'.hosts.Keys == t.hosts.Keys
    && RowClaimed(t.hosts[q.host], t'.hosts[q.host], q.claimHandle, q.claimDid,
                  if q.transfer.None? then q.optIn else None, at)
    && (q.transfer.None? ==> ProfileKept(t.hosts[q.host], t'.hosts[q.host]) && t'.links == t.links)
  }

  lemma ClaimLeaves(t: Tables, p: Tables, q: DnsRequest, verifiedOwner: Option<Did>, now: Time, w: DnsWrite)
    requires PreparedFrom(p, q, verifiedOwner, now, w) && DnsClaimError(t, w).None?
    requires Owner(p, q.host).Some? ==> Owner(t, q.host).Some?
    ensures ClaimedBy(t, DnsClaim(t, w), q, w.at) && DnsClaim(t, w).challenges != t.challenges
  {
    hide AddAudit, ResetLinks;
  }

  /** A DNS claim or a transfer, from its read phase at `k` to its write phase at `i`, whatever other workers do in
      between: it takes effect exactly when both phases let it through, and otherwise changes nothing. */
  lemma DnsClaimsExactly(trace: seq<Sys>, acts: seq<Action>, k: nat, i: nat)
    requires Run(trace, acts) && k < i < |acts|
    requires acts[k].ReadDnsClaim? && acts[i] == WriteDnsClaim(acts[k].worker) && acts[k].worker !in trace[k].open
    requires forall m :: k < m < i ==> !Uses(acts[m], acts[k].worker)
    ensures var q, at := acts[k].q, WriteTime(acts[k].q, acts[k].now);
            var t, t' := trace[i].tables, trace[i + 1].tables;
            if MayPrepare(trace[k].tables, q, acts[k].verifiedOwner, acts[k].now) && MayWrite(t, q, at)
            then ClaimedBy(t, t', q, at) && t' != t else t' == t
  {
    hide MayPrepare, MayWrite, PreparedFrom, PrepareDns, DnsClaim, DnsClaimError, ClaimedBy;
    var a, t := acts[k], trace[i].tables;
    PreparesExactly(trace[k].tables, a.q, a.verifiedOwner, a.now);
    WorkStaysOpen(trace, acts, k + 1, i, a.worker);
    if MayPrepare(trace[k].tables, a.q, a.verifiedOwner, a.now) {
      var w := trace[i].open[a.worker].w;
      WritesExactly(t, trace[k].tables, a.q, a.verifiedOwner, a.now, w);
      if MayWrite(t, a.q, w.at) {
        RunMoves(trace, acts, k, i);
        ClaimLeaves(t, trace[k].tables, a.q, a.verifiedOwner, a.now, w);
      }
    }
  }

  /** An e-mail claim takes effect exactly when its binding is the one that was issued with the challenge, the proof
      can be spent, and the host is unclaimed; otherwise nothing changes. */
  lemma EmailClaimsExactly(s: Sys, w: EmailWrite)
    requires SysInv(s)
    ensures var t, t' := s.tables, Step(s, ClaimByEmail(w)).tables;
            if && w.claim.how.ContactEmail? && w.host !in t.claims && w.host in t.hosts
               && Spendable(t.challenges, w.token, w.host, w.claim.did, w.at)
               && var c := t.challenges[w.token];
               && c.binding == Some(w.binding) && "pds-contact-email-v2." <= w.binding
               && (c.fingerprint, c.createdAt, c.expiresAt) == (w.fingerprint, w.requestedAt, w.expiresAt)
            then
              && t'.claims == t.claims[w.host := w.claim] && t' != t
              && t'.evidence == t.evidence[w.token := Evidence(w.host, w.claim.did, w.fingerprint, w.requestedAt,
                                                               w.expiresAt, w.at, w.claim.updatedAt, w.deliveryId)]
              && w.host in t'.hosts && ProfileKept(t.hosts[w.host], t'.hosts[w.host])
              && RowClaimed(t.hosts[w.host], t'.hosts[w.host], w.claimHandle, w.claimDid, w.optIn, w.at)
            else t' == t
  {
    hide OnePendingPerHost, OneCompletedPerHost, LedgerSound, LedgerComplete, OneEvidencePerHost;
    assert forall k :: k in s.tables.evidence ==>
                         EvidenceRowOk(k, s.tables.evidence[k], s.tables.claims, s.tables.challenges);
  }

  /** A claim by handle or local fixture takes the host if it is unclaimed, and refreshes the claimant's own claim
      unless that would weaken a DNS or handle claim; otherwise nothing changes.  A refresh keeps the claim date. */
  lemma RefreshesExactly(s: Sys, f: Refresh)
    ensures var t, t' := s.tables, Step(s, RefreshClaim(f)).tables;
            var c := f.claim;
            if && (c.how.DnsTxt? || c.how.AtprotoHandle? || c.how.LocalDevFixture?) && f.host in t.hosts
               && (f.host in t.claims ==>
                     && t.claims[f.host].did == c.did
                     && (c.how.LocalDevFixture? ==>
                           !t.claims[f.host].how.DnsTxt? && !t.claims[f.host].how.AtprotoHandle?))
            then
              && t'.claims == t.claims[f.host := Claim(c.did, c.handle, c.how,
                                                       if f.host in t.claims then t.claims[f.host].claimedAt
                                                       else c.claimedAt, c.verifiedAt, c.updatedAt)]
              && f.host in t'.hosts && ProfileKept(t.hosts[f.host], t'.hosts[f.host])
              && RowClaimed(t.hosts[f.host], t'.hosts[f.host], f.claimHandle, f.claimDid, f.optIn, f.at)
              && t'.challenges == t.challenges
            else t' == t
  {
  }

  /** The first to bring a bound, unspent e-mail proof for an unclaimed host gets it. */
  lemma EmailClaimSucceeds(t: Tables, w: EmailWrite)
    requires Inv(t) && w.claim.how.ContactEmail? && EmailBound(t, w)
             && Spendable(t.challenges, w.token, w.host, w.claim.did, w.at)
    requires w.host !in t.claims && w.host in t.hosts
    ensures EmailClaimError(t, w).None?
    ensures EmailClaim(t, w).claims[w.host] == w.claim && w.token in EmailClaim(t, w).evidence
  {
    assert forall k :: k in t.evidence ==> EvidenceRowOk(k, t.evidence[k], t.claims, t.challenges);
  }

  // ---------------------------------------------------------------- a recovery from start to end

  /** What the requester must bring: the current e-mail claim of somebody else, an unspent DNS proof, and no earlier
      request of the host that is still inside its window. */
  predicate MayRequest(t: Tables, q: RecoveryRequest) {
    && q.host in t.claims && q.host in t.hosts
    && t.claims[q.host].how.ContactEmail? && t.claims[q.host] == q.previous && q.previous.did != q.did
    && Spendable(t.challenges, q.token, q.host, q.did, q.at)
    && (forall id :: id in t.recoveries && t.recoveries[id].host == q.host ==>
                       && t.recoveries[id].requestedAt < q.at
                       && (t.recoveries[id].status.Pending? ==> t.recoveries[id].expiresAt <= q.at))
  }

  lemma ExpiryClearsTheWay(t: Tables, q: RecoveryRequest)
    requires MayRequest(t, q)
    ensures PendingIds(ExpireStale(t, q.host, q.at), q.host) == {}
    ensures Reconcile(t, q.host, q.at) == ExpireStale(t, q.host, q.at)
  {
    hide AddAudit;
    var t1 := ExpireStale(t, q.host, q.at);
    assert PendingIds(t, q.host) <= StaleIds(t, q.host, q.at);
  }

  lemma RequestSucceeds(t: Tables, q: RecoveryRequest)
    requires Inv(t) && MayRequest(t, q)
    ensures StartError(t, q).None?
    ensures var t1 := StartRecovery(t, q);
            && t1.claims == t.claims && t1.hosts == t.hosts && t1.evidence == t.evidence
            && t1.challenges.Keys == t.challenges.Keys
            && q.token in t1.recoveries && t1.recoveries[q.token] == NewRecovery(t.claims[q.host], q)
            && PendingIds(t1, q.host) == {q.token} && IsLatest(t1, q.host, Some(q.token))
  {
    hide AddAudit, LedgerSound, LedgerComplete, EvidenceOk, EvidenceCovers, OneEvidencePerHost, OnePendingPerHost,
      OneCompletedPerHost;
    assert forall id :: id in t.recoveries ==> RowOk(id, t.recoveries[id], t.claims, t.challenges);
    ExpiryClearsTheWay(t, q);
  }

  /** A request of the host is pending, and inside its window. */
  ghost predicate SomeoneIsWaiting(t: Tables, host: Host, at: Time) {
    exists id :: id in t.recoveries && t.recoveries[id].host == host && t.recoveries[id].status.Pending?
                 && at < t.recoveries[id].expiresAt
  }

  /** A request is filed exactly when the claim shown to the requester is the live e-mail claim of somebody else, the
      proof can be spent, and no earlier request of the host is still inside its window; otherwise nothing changes. */
  lemma RequestsExactly(s: Sys, q: RecoveryRequest)
    requires SysInv(s)
    ensures var t, t' := s.tables, Step(s, RequestRecovery(q)).tables;
            if && q.previous.how.ContactEmail? && q.previous.did != q.did
               && q.host in t.claims && t.claims[q.host].how.ContactEmail?
               && t.claims[q.host].did == q.previous.did && t.claims[q.host].updatedAt == q.previous.updatedAt
               && Spendable(t.challenges, q.token, q.host, q.did, q.at)
               && !SomeoneIsWaiting(t, q.host, q.at)
            then t' != t && Filed(t, t', q)
            else t' == t
  {
    hide StartRecovery, Reconcile, PendingIds, SomeoneIsWaiting, Inv, DnsClaim, EmailClaim, RefreshOwner, FinalizeRead,
      FinalizeWrite, Reserve, Record, ExpireStale;
    var t := s.tables;
    if q.host in t.claims && t.claims[q.host].how.ContactEmail? { NonePendingExactly(t, q.host, q.at); }
    if Spendable(t.challenges, q.token, q.host, q.did, q.at) { NewTokens(t, q.token); }
    if StartError(t, q).None? { RequestStep(s, RequestRecovery(q)); }
  }

  /** What a request leaves: a pending row against the live claim, due after the cooldown, and open for the window. */
  ghost predicate Filed(t: Tables, t': Tables, q: RecoveryRequest) {
    && t'.claims == t.claims && q.host in t.claims && q.token in t'.recoveries
    && var c, r := t.claims[q.host], t'.recoveries[q.token];
    && r.host == q.host && r.status.Pending? && r.delivery.Waiting? && r.attemptedAt.None?
    && (r.previousDid, r.previousHandle, r.previousUpdatedAt) == (c.did, c.handle, c.updatedAt)
    && (r.requester, r.requesterHandle, r.requestedAt) == (q.did, q.handle, q.at)
    && r.eligibleAt == q.at + 48 * 3_600_000 && r.expiresAt == r.eligibleAt + 7 * 24 * 3_600_000
  }

  lemma NonePendingExactly(t: Tables, host: Host, at: Time)
    requires Inv(t) && host in t.claims && t.claims[host].how.ContactEmail?
    ensures PendingIds(Reconcile(t, host, at), host) == {} <==> !SomeoneIsWaiting(t, host, at)
  {
    hide Inv, Reconcile;
    ReconcileMoves(t, host, at);
    ReconcileFrame(t, host, at);
    forall id | id in t.recoveries && t.recoveries[id].host == host
      ensures id in PendingIds(Reconcile(t, host, at), host) <==>
              t.recoveries[id].status.Pending? && at < t.recoveries[id].expiresAt
    {
      PendingAfterReconcile(t, host, at, id);
    }
  }

  /** The token of an unspent proof has never started a recovery. */
  lemma NewTokens(t: Tables, token: TokenHash)
    requires Inv(t) && token in t.challenges && t.challenges[token].consumedAt.None?
    ensures token !in t.recoveries
  {
    assert token in t.recoveries ==> RowOk(token, t.recoveries[token], t.claims, t.challenges);
  }

  lemma NothingToReconcile(t: Tables, host: Host, at: Time, id: TokenHash)
    requires PendingIds(t, host) == {id} && StaleIds(t, host, at) == {} && LiveMatch(t, id)
    ensures Reconcile(t, host, at).recoveries == t.recoveries
    ensures PendingIds(Reconcile(t, host, at), host) == {id}
  {
    hide AddAudit;
    var t1 := ExpireStale(t, host, at);
    assert t1.recoveries == t.recoveries;
    assert PendingIds(t1, host) == PendingIds(t, host);
  }

  /** What the requester must bring to finish: the claim is still e-mail derived, the clock is inside the window,
      and a second, bound and unspent DNS proof was issued after the cooldown. */
  predicate MayFinalize(t: Tables, id: TokenHash, f: Finalization)
    requires id in t.recoveries
  {
    var r := t.recoveries[id];
    && f.host in t.hosts && f.host in t.claims && t.claims[f.host].how.ContactEmail?
    && f.did == r.requester && r.eligibleAt <= f.at < r.expiresAt
    && Spendable(t.challenges, f.proof.token, f.host, f.did, f.at)
    && var c := t.challenges[f.proof.token];
    && f.proof == Proof(f.proof.token, c.host, c.did, c.fingerprint, c.createdAt, c.expiresAt)
    && c.binding.None? && StartsWith("dns-v1:", c.fingerprint) && r.eligibleAt <= c.createdAt <= f.at
  }

  predicate Succeeds(o: Outcome<Reply>) { o.Commit? && o.value.Ok? }

  /** The recovery is completed, and the requester owns the host by the claim that the reply shows. */
  predicate Finishes(o: Outcome<Reply>, host: Host, id: TokenHash, requester: Did) {
    && Succeeds(o) && o.value.recovery.status.Completed?
    && Holds(o.tables, host, requester) && o.tables.claims[host] == o.value.claim
    && id in o.tables.recoveries && o.tables.recoveries[id].status.Completed?
  }

  /** In every state that satisfies the invariant, finalizing the newest, pending recovery succeeds exactly under
      those conditions, and then makes the requester the owner. */
  lemma FinalizesExactly(t: Tables, id: TokenHash, f: Finalization)
    requires Inv(t) && IsLatest(t, f.host, Some(id)) && t.recoveries[id].status.Pending?
    ensures Succeeds(Finalize(t, f, Some(id))) <==> MayFinalize(t, id, f)
    ensures MayFinalize(t, id, f) ==> Finishes(Finalize(t, f, Some(id)), f.host, id, t.recoveries[id].requester)
  {
    hide ExpireStale, InvalidatePending, ResetLinks, ResetProfile, ClaimHost, InsertAudit;
    hide OnePendingPerHost, OneCompletedPerHost, LedgerSound, LedgerComplete, EvidenceOk, EvidenceCovers,
      OneEvidencePerHost;
    assert RowOk(id, t.recoveries[id], t.claims, t.challenges);
  }

  /** The reading of the clock with which a step may expire rows. */
  function Clock(a: Action): Option<Time> {
    match a
    case RequestRecovery(q) => Some(q.at)
    case ExpireHost(_, at) => Some(at)
    case ReconcileHost(_, at) => Some(at)
    case ReadFinalization(_, f, _) => Some(f.at)
    case ReserveNotice(_, _, at, _) => Some(Max(0, at))
    case RecordNotice(_, _, o) => Some(o.attemptedAt)
    case _ => None
  }

  lemma InvalidateNeverExpires(t: Tables, host: Host, at: Time, actor: Option<Did>, id: TokenHash)
    requires id in t.recoveries && t.recoveries[id].status.Pending?
    ensures id in InvalidatePending(t, host, at, actor).recoveries
    ensures !InvalidatePending(t, host, at, actor).recoveries[id].status.Expired?
  {
    hide AddAudit;
  }

  lemma StaleExpires(t: Tables, host: Host, at: Time, id: TokenHash)
    requires id in t.recoveries && t.recoveries[id].status.Pending?
    ensures id in ExpireStale(t, host, at).recoveries
    ensures var r' := ExpireStale(t, host, at).recoveries[id];
            (r'.status.Pending? || r'.status.Expired?) && (r'.status.Expired? ==> t.recoveries[id].expiresAt <= at)
  {
    hide AddAudit;
  }

  lemma ReconcileExpires(t: Tables, host: Host, at: Time, id: TokenHash)
    requires id in t.recoveries && t.recoveries[id].status.Pending?
    ensures id in ExpireStale(t, host, at).recoveries && id in Reconcile(t, host, at).recoveries
    ensures ExpireStale(t, host, at).recoveries[id].status.Expired? ==> t.recoveries[id].expiresAt <= at
    ensures Reconcile(t, host, at).recoveries[id].status.Expired? ==> t.recoveries[id].expiresAt <= at
  {
    hide ExpireStale, InvalidatePending, LiveMatch, PendingIds;
    StaleExpires(t, host, at, id);
    ReconcileMoves(t, host, at);
    var t1 := ExpireStale(t, host, at);
    if t1.recoveries[id].status.Pending? {
      InvalidateNeverExpires(t1, host, at, Owner(t1, host), id);
    }
  }

  /** A row expires only by a step whose clock has passed its window. */
  lemma ExpiresLate(s: Sys, a: Action, id: TokenHash)
    requires id in s.tables.recoveries && s.tables.recoveries[id].status.Pending?
    ensures id in Step(s, a).tables.recoveries
    ensures Step(s, a).tables.recoveries[id].status.Expired? ==>
              Clock(a).Some? && s.tables.recoveries[id].expiresAt <= Clock(a).value
  {
    hide Step;
    StepMoves(s, a);
    if Clock(a).None? {
      WritingNeverExpires(s, a, id);
    } else if Step(s, a).tables.recoveries[id].status.Expired? {
      ReadingExpires(s, a, id);
    }
  }

  lemma ReadingExpires(s: Sys, a: Action, id: TokenHash)
    requires id in s.tables.recoveries && s.tables.recoveries[id].status.Pending? && Clock(a).Some?
    requires id in Step(s, a).tables.recoveries && Step(s, a).tables.recoveries[id].status.Expired?
    ensures s.tables.recoveries[id].expiresAt <= Clock(a).value
  {
    hide AddAudit, Reconcile, ExpireStale, InvalidatePending, FinalizeRead, ViewOf;
    match a
    case RequestRecovery(q) => ReconcileExpires(s.tables, q.host, q.at, id);
    case ExpireHost(host, at) => ReconcileExpires(s.tables, host, at, id);
    case ReconcileHost(host, at) => ReconcileExpires(s.tables, host, at, id);
    case ReserveNotice(host, _, at, _) => ReconcileExpires(s.tables, host, Max(0, at), id);
    case RecordNotice(host, _, o) => ReconcileExpires(s.tables, host, o.attemptedAt, id);
    case ReadFinalization(_, f, latest) =>
      ReconcileExpires(s.tables, f.host, f.at, id);
      InvalidateNeverExpires(s.tables, f.host, f.at, Owner(s.tables, f.host), id);
      if IsLatest(s.tables, f.host, latest) && FinalizeRead(s.tables, f, latest).Replied? {
        ReadReplies(s.tables, f, latest);
      }
  }

  lemma WritingNeverExpires(s: Sys, a: Action, id: TokenHash)
    requires id in s.tables.recoveries && s.tables.recoveries[id].status.Pending? && Clock(a).None?
    requires id in Step(s, a).tables.recoveries
    ensures !Step(s, a).tables.recoveries[id].status.Expired?
  {
    hide AddAudit, ClaimHost, ResetProfile, ResetLinks, FinalizeReplay, ViewOf, InsertAudit, EmailBound;
    if Claiming(s, a) && DnsClaimError(s.tables, s.open[a.worker].w).None? {
      var w := s.open[a.worker].w;
      InvalidateNeverExpires(Assign(s.tables, w), w.host, w.at, Some(w.claim.did), id);
    }
  }

  /** The row stays pending for as long as its claim stays e-mail derived and no clock passes its window. */
  lemma {:induction false} StaysPending(trace: seq<Sys>, acts: seq<Action>, i: nat, j: nat, id: TokenHash)
    requires Run(trace, acts) && i <= j < |trace| && id in trace[i].tables.recoveries
             && trace[i].tables.recoveries[id].status.Pending?
    requires var h := trace[i].tables.recoveries[id].host;
             h in trace[j].tables.claims && trace[j].tables.claims[h].how.ContactEmail?
    requires forall k :: i <= k < j && Clock(acts[k]).Some? ==>
                           Clock(acts[k]).value < trace[i].tables.recoveries[id].expiresAt
    ensures id in trace[j].tables.recoveries && trace[j].tables.recoveries[id].status.Pending?
    decreases j
  {
    hide Step;
    if i < j {
      RecoveryStates(trace, acts, i, id);
      RunMoves(trace, acts, i, j - 1);
      RunMoves(trace, acts, j - 1, j);
      StaysPending(trace, acts, i, j - 1, id);
      ExpiresLate(trace[j - 1], acts[j - 1], id);
      RecoveryStates(trace, acts, j, id);
    }
  }

  /** A requester who files against the current e-mail claim becomes the owner whenever it comes back in time with a
      second, fresh proof, whatever other workers did in between, as long as the claim is still e-mail derived and
      no clock ran past the window; and it does not before. */
  lemma RecoverySucceeds(trace: seq<Sys>, acts: seq<Action>, i: nat, j: nat, f: Finalization)
    requires Run(trace, acts) && i < |acts| && i < j < |trace|
    requires acts[i].RequestRecovery? && MayRequest(trace[i].tables, acts[i].r) && f.host == acts[i].r.host
    requires f.host in trace[j].tables.claims && trace[j].tables.claims[f.host].how.ContactEmail?
    requires forall k :: i < k < j && Clock(acts[k]).Some? ==>
                           Clock(acts[k]).value < acts[i].r.at + COOLDOWN_MS + FINALIZE_WINDOW_MS
    ensures var t, id := trace[j].tables, acts[i].r.token;
            && IsLatest(t, f.host, Some(id)) && t.recoveries[id].status.Pending?
            && (Succeeds(Finalize(t, f, Some(id))) <==> MayFinalize(t, id, f))
            && (MayFinalize(t, id, f) ==> Finishes(Finalize(t, f, Some(id)), f.host, id, acts[i].r.did))
  {
    hide Step, Inv, MayFinalize, Finalize, Succeeds, Finishes;
    var q := acts[i].r;
    RunKeepsInv(trace, acts, i);
    RequestSucceeds(trace[i].tables, q);
    RequestStep(trace[i], acts[i]);
    FiledIsNewest(trace[i], acts[i]);
    StaysPending(trace, acts, i + 1, j, q.token);
    StillNewest(trace, acts, i + 1, j, q.host, q.token);
    RunKeepsInv(trace, acts, j);
    RunMoves(trace, acts, i + 1, j);
    FinalizesExactly(trace[j].tables, q.token, f);
  }

  lemma FiledIsNewest(s: Sys, a: Action)
    requires SysInv(s) && a.RequestRecovery? && MayRequest(s.tables, a.r)
    ensures var t := Step(s, a).tables;
            && IsLatest(t, a.r.host, Some(a.r.token)) && t.recoveries[a.r.token].status.Pending?
            && t.recoveries[a.r.token] == NewRecovery(s.tables.claims[a.r.host], a.r)
  {
    hide Inv, StartRecovery, StartError, MayRequest;
    RequestSucceeds(s.tables, a.r);
  }

  // ---------------------------------------------------------------- the warning

  /** In every state that satisfies the invariant: the lease goes exactly to the requester's pending row whose claim
      is still e-mail derived, inside its window, not yet warned, and not tried too recently. */
  lemma LeasedExactly(t: Tables, host: Host, requester: Did, at: Time, retryAfter: Time, id: TokenHash)
    requires Inv(t) && id in t.recoveries && t.recoveries[id].host == host
    ensures id in LeaseIds(Reconcile(t, host, at), host, requester, at, retryAfter) <==>
            var r := t.recoveries[id];
            && r.status.Pending? && r.requester == requester && t.claims[host].how.ContactEmail? && at < r.expiresAt
            && (r.delivery.Waiting? || r.delivery.Failed?)
            && (r.attemptedAt.None? || r.attemptedAt.value <= Max(0, at - retryAfter))
  {
    hide Reconcile, LiveMatch, PendingIds, StaleIds;
    hide OnePendingPerHost, OneCompletedPerHost, LedgerSound, LedgerComplete, EvidenceOk, EvidenceCovers,
      OneEvidencePerHost;
    assert RowOk(id, t.recoveries[id], t.claims, t.challenges);
    ReconcileMoves(t, host, at);
    ReconcileKeepsDelivery(t, host, at, id);
    PendingAfterReconcile(t, host, at, id);
  }

  /** A row is pending after reconciling exactly if it was, its claim is still e-mail derived, and the clock is
      inside its window. */
  lemma PendingAfterReconcile(t: Tables, host: Host, at: Time, id: TokenHash)
    requires Inv(t) && id in t.recoveries && t.recoveries[id].host == host
    ensures id in PendingIds(Reconcile(t, host, at), host) <==>
            t.recoveries[id].status.Pending? && t.claims[host].how.ContactEmail? && at < t.recoveries[id].expiresAt
  {
    hide Close, Reconcile, OneCompletedPerHost, LedgerSound, LedgerComplete, EvidenceOk, EvidenceCovers,
      OneEvidencePerHost;
    assert RowOk(id, t.recoveries[id], t.claims, t.challenges);
    ReconcileMoves(t, host, at);
    ReconcileFrame(t, host, at);
    if id in PendingIds(Reconcile(t, host, at), host) {
      ReconcileSettles(t, host, at, id);
    } else if t.recoveries[id].status.Pending? && t.claims[host].how.ContactEmail? && at < t.recoveries[id].expiresAt {
      assert PendingIds(t, host) == {id};
      NothingToReconcile(t, host, at, id);
    }
  }
}
