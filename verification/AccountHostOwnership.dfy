/** Who may come to own a host, over every interleaving of every run. */
module AccountHostOwnership {
  import opened Wrappers
  import opened AccountHostTables
  import opened AccountHostTransactions
  import opened AccountHostInvariant
  import opened AccountHostRuns

  // ---------------------------------------------------------------- which steps change an owner

  /** This step commits an owner-authorised transfer of the host. */
  ghost predicate ByTransfer(s: Sys, a: Action, h: Host) {
    && Claiming(s, a)
    && var w := s.open[a.worker].w;
    w.host == h && IsTransfer(w) && DnsClaimError(s.tables, w).None?
  }

  /** This step completes a recovery of the host. */
  ghost predicate ByRecovery(s: Sys, a: Action, h: Host) {
    && Finalizing(s, a)
    && var sn := s.open[a.worker].s;
    sn.f.host == h && MovesOwner(s.tables, sn)
  }

  ghost predicate OwnerChanges(s: Sys, a: Action, h: Host) {
    && h in s.tables.claims
    && h in Step(s, a).tables.claims
    && Step(s, a).tables.claims[h].did != s.tables.claims[h].did
  }

  predicate Quiet(a: Action) {
    a.ReadDnsClaim? || a.ExpireHost? || a.ReconcileHost? || a.ReadFinalization? || a.ReserveNotice? || a.RecordNotice?
    || a.OtherWrites?
  }

  /** These steps touch neither a claim nor a proof, and file no recovery. */
  lemma QuietStep(s: Sys, a: Action)
    requires Quiet(a)
    ensures Step(s, a).tables.claims == s.tables.claims
    ensures Step(s, a).tables.challenges == s.tables.challenges
    ensures Step(s, a).tables.recoveries.Keys == s.tables.recoveries.Keys
  {
    match a
    case ReadFinalization(_, f, latest) =>
      if IsLatest(s.tables, f.host, latest) && FinalizeRead(s.tables, f, latest).Replied? {
        ReadReplies(s.tables, f, latest);
      }
    case ReconcileHost(host, at) => ReconcileFrame(s.tables, host, at);
    case ReserveNotice(host, _, at, _) => ReconcileFrame(s.tables, host, Max(0, at));
    case RecordNotice(host, _, o) => ReconcileFrame(s.tables, host, o.attemptedAt);
    case _ =>
  }

  lemma RequestStep(s: Sys, a: Action)
    requires a.RequestRecovery? && StartError(s.tables, a.r).None?
    ensures var t' := Step(s, a).tables;
            && t'.claims == s.tables.claims
            && t'.challenges == Spend(s.tables.challenges, a.r.token, a.r.at)
            && t'.recoveries.Keys == s.tables.recoveries.Keys + {a.r.token}
            && t'.recoveries[a.r.token] == NewRecovery(s.tables.claims[a.r.host], a.r)
  {
    ReconcileFrame(s.tables, a.r.host, a.r.at);
  }

  /** An owner changes exactly when a transfer or a recovery commits. */
  lemma OwnerChangesExactlyBy(s: Sys, a: Action, h: Host)
    requires SysInv(s) && h in s.tables.claims
    ensures OwnerChanges(s, a, h) <==> ByTransfer(s, a, h) || ByRecovery(s, a, h)
  {
    if Finalizing(s, a) {
      assert WorkOk(s.tables, s.open[a.worker]);
      RequesterIsNew(s.tables, s.open[a.worker].s);
    }
    OwnerStep(s, a, h);
  }

  lemma OwnerStep(s: Sys, a: Action, h: Host)
    requires h in s.tables.claims
    requires Finalizing(s, a) ==> s.open[a.worker].s.f.did != s.open[a.worker].s.row.previousDid
    ensures OwnerChanges(s, a, h) <==> ByTransfer(s, a, h) || ByRecovery(s, a, h)
  {
    hide Step, Reconcile, FinalizeRead;
    if Quiet(a) {
      QuietStep(s, a);
    } else if a.RequestRecovery? {
      if StartError(s.tables, a.r).None? { RequestStep(s, a); } else { AbortedRequest(s, a); }
    } else {
      WritingOwnerStep(s, a, h);
    }
  }

  lemma AbortedRequest(s: Sys, a: Action)
    requires a.RequestRecovery? && StartError(s.tables, a.r).Some?
    ensures Step(s, a).tables == s.tables
  {
    hide Reconcile;
  }

  lemma DnsClaimEffect(t: Tables, w: DnsWrite)
    requires DnsClaimError(t, w).None?
    ensures DnsClaim(t, w).challenges == Spend(t.challenges, w.token, w.at) && t.challenges[w.token].consumedAt.None?
    ensures DnsClaim(t, w).claims == if IsTransfer(w) then t.claims[w.host := w.claim]
                                     else Upsert(t.claims, w.host, w.claim)
  {
    hide CloseRows, AddAudit, ClaimHost, ResetProfile, ResetLinks, Upsert;
  }

  lemma EmailClaimEffect(t: Tables, w: EmailWrite)
    requires EmailClaimError(t, w).None?
    ensures EmailClaim(t, w).challenges == Spend(t.challenges, w.token, w.at) && t.challenges[w.token].consumedAt.None?
    ensures EmailClaim(t, w).claims == t.claims[w.host := w.claim] && w.host !in t.claims
  {
    hide ClaimHost;
  }

  lemma RefreshEffect(t: Tables, f: Refresh)
    requires RefreshError(t, f).None?
    ensures RefreshOwner(t, f).challenges == t.challenges
    ensures RefreshOwner(t, f).claims == Upsert(t.claims, f.host, f.claim)
  {
    hide ClaimHost, Upsert;
  }

  lemma CompleteEffect(t: Tables, sn: Snapshot)
    requires MovesOwner(t, sn)
    ensures Complete(t, sn).challenges == Spend(t.challenges, sn.f.proof.token, sn.f.at)
    ensures t.challenges[sn.f.proof.token].consumedAt.None?
    ensures Complete(t, sn).claims == t.claims[sn.f.host := NewOwner(sn)]
  {
    hide ClaimHost, ResetProfile, ResetLinks, InsertAudit;
  }

  lemma WritingOwnerStep(s: Sys, a: Action, h: Host)
    requires h in s.tables.claims && !Quiet(a) && !a.RequestRecovery?
    requires Finalizing(s, a) ==> s.open[a.worker].s.f.did != s.open[a.worker].s.row.previousDid
    ensures OwnerChanges(s, a, h) <==> ByTransfer(s, a, h) || ByRecovery(s, a, h)
  {
    hide DnsClaim, EmailClaim, Complete, RefreshOwner, FinalizeReplay, ViewOf, EmailBound;
    match a
    case WriteDnsClaim(worker) =>
      if Claiming(s, a) && DnsClaimError(s.tables, s.open[worker].w).None? {
        DnsClaimEffect(s.tables, s.open[worker].w);
      }
    case ClaimByEmail(w) => if EmailClaimError(s.tables, w).None? { EmailClaimEffect(s.tables, w); }
    case RefreshClaim(f) => if RefreshError(s.tables, f).None? { RefreshEffect(s.tables, f); }
    case WriteFinalization(worker) =>
      if Finalizing(s, a) && MovesOwner(s.tables, s.open[worker].s) { CompleteEffect(s.tables, s.open[worker].s); }
    case Issue(_, _) =>
  }

  lemma RequesterIsNew(t: Tables, sn: Snapshot)
    requires Inv(t) && SnapshotOk(t, sn)
    ensures sn.f.did != sn.row.previousDid && sn.row.host == sn.f.host
  {
    assert RowOk(sn.id, t.recoveries[sn.id], t.claims, t.challenges);
  }

  /** What a transfer proves: the intent's snapshot is the current row, and its token and its id were unused. */
  lemma TransferIsAuthorised(s: Sys, a: Action, h: Host)
    requires SysInv(s) && ByTransfer(s, a, h)
    ensures var w := s.open[a.worker].w;
            var i := w.transfer.value;
            && h in s.tables.claims
            && s.tables.claims[h].did == i.previousDid && s.tables.claims[h].updatedAt == i.previousUpdatedAt
            && i.host == h
            && i.jti !in s.tables.transfers && i.jti in Step(s, a).tables.transfers
            && Step(s, a).tables.claims[h] == w.claim && w.claim.how.DnsTxt?
            && Spendable(s.tables.challenges, w.token, h, w.claim.did, w.at)
            && SpentBy(Step(s, a).tables.challenges, w.token, h, w.claim.did)
            && s.tables.claims[h].updatedAt < w.claim.updatedAt
  {
    assert WorkOk(s.tables, s.open[a.worker]);
  }

  /** The facts that must hold of the row, of the clock and of the second proof when a recovery completes. */
  ghost predicate RecoveryIsDue(t: Tables, f: Finalization, id: TokenHash, h: Host) {
    && h in t.claims && id in t.recoveries && f.proof.token in t.challenges
    && var r := t.recoveries[id];
    && var c := t.challenges[f.proof.token];
    && r.host == h && r.requester == f.did && r.status.Pending? && Matches(r, t.claims[h])
    && r.requestedAt + COOLDOWN_MS <= f.at < r.requestedAt + COOLDOWN_MS + FINALIZE_WINDOW_MS
    && c.host == h && c.did == f.did && c.binding.None? && c.consumedAt.None?
    && r.requestedAt + COOLDOWN_MS <= c.createdAt <= f.at <= c.expiresAt
    && f.proof.token != id
  }

  lemma RecoveryIsAuthorised(s: Sys, a: Action, h: Host)
    requires SysInv(s) && ByRecovery(s, a, h)
    ensures var sn := s.open[a.worker].s;
            var t' := Step(s, a).tables;
            && RecoveryIsDue(s.tables, sn.f, sn.id, h)
            && t'.claims[h].did == sn.f.did && t'.claims[h].how.DnsTxt?
            && t'.recoveries[sn.id].status.Completed? && t'.recoveries[sn.id].finalToken == Some(sn.f.proof.token)
            && SpentBy(t'.challenges, sn.f.proof.token, h, sn.f.did)
            && s.tables.claims[h].updatedAt < t'.claims[h].updatedAt
  {
    var sn := s.open[a.worker].s;
    assert WorkOk(s.tables, s.open[a.worker]);
    assert RowOk(sn.id, s.tables.recoveries[sn.id], s.tables.claims, s.tables.challenges);
  }

  /** A new owner inherits no approval and no profile: every claimed link of the host waits for it, nothing that
      belongs to another host changes, and the listing choice stays as it was. */
  lemma NewOwnerStartsAfresh(s: Sys, a: Action, h: Host)
    requires ByTransfer(s, a, h) || ByRecovery(s, a, h)
    ensures var t, t' := s.tables, Step(s, a).tables;
            && h in t'.claims && h in t.hosts && h in t'.hosts
            && t'.hosts[h].profileDid == Some(t'.claims[h].did)
            && t'.hosts[h].profileHandle == Some(t'.claims[h].handle)
            && t'.hosts[h].avatar.None? && t'.hosts[h].serviceUri.None? && t'.hosts[h].serviceCid.None?
            && t'.hosts[h].serviceObservedAt.None?
            && t'.hosts[h].optIn == t.hosts[h].optIn && t'.hosts[h].optedAt == t.hosts[h].optedAt
            && (forall g :: g in t.hosts && g != h ==> g in t'.hosts && t'.hosts[g] == t.hosts[g])
            && t'.links.Keys == t.links.Keys
            && (forall k :: k in t.links && t.links[k].host == h && !t.links[k].seeded ==>
                              !t'.links[k].approved && t'.links[k].hostApprovedAt.None?
                              && t'.links[k].hostOwner == t'.claims[h].did)
            && (forall k :: k in t.links && (t.links[k].host != h || t.links[k].seeded) ==> t'.links[k] == t.links[k])
  {
  }

  // ---------------------------------------------------------------- what a claim was prepared from

  /** What the read phase of a DNS claim has seen when it hands on `w`: the host is unclaimed, or the claimant's own,
      or its verified owner has handed it over, naming the current row, by an intent that has not expired. */
  predicate PreparedFrom(t: Tables, q: DnsRequest, verifiedOwner: Option<Did>, now: Time, w: DnsWrite) {
    && w.host == q.host && w.token == q.token && w.transfer == q.transfer
    && w.claimHandle == q.claimHandle && w.claimDid == q.claimDid
    && w.claim.did == q.did && w.claim.handle == q.handle && w.claim.how.DnsTxt?
    && now <= w.at && w.claim.verifiedAt == w.at && w.claim.updatedAt == w.at
    && w.claim.claimedAt == (if Owner(t, q.host) == Some(q.did) then t.claims[q.host].claimedAt else w.at)
    && match q.transfer
       case None =>
         w.at == now && w.optIn == q.optIn && (Owner(t, q.host).None? || Owner(t, q.host) == Some(q.did))
       case Some(i) =>
         && i.host == q.host && now < i.expiresAt && i.previousDid != q.did && w.optIn.None?
         && verifiedOwner == Some(i.previousDid) && Owner(t, q.host) == Some(i.previousDid)
         && t.claims[q.host].updatedAt == i.previousUpdatedAt
         && w.at == (if now <= i.previousUpdatedAt then i.previousUpdatedAt + 1 else now)
  }

  ghost predicate PreparedBy(s: Sys, a: Action, w: DnsWrite) {
    a.ReadDnsClaim? && PreparedFrom(s.tables, a.q, a.verifiedOwner, a.now, w)
  }

  /** Every claim about to be written was read earlier in the run, by the same worker, from tables that allowed it. */
  lemma {:induction false} ClaimWasPrepared(trace: seq<Sys>, acts: seq<Action>, j: nat, worker: Worker) returns (i: nat)
    requires Run(trace, acts) && j < |trace| && worker in trace[j].open && trace[j].open[worker].ClaimWork?
    ensures i < j && PreparedBy(trace[i], acts[i], trace[j].open[worker].w) && acts[i].worker == worker
  {
    assert j > 0;
    if worker in trace[j - 1].open && trace[j - 1].open[worker] == trace[j].open[worker] {
      i := ClaimWasPrepared(trace, acts, j - 1, worker);
    } else {
      i := j - 1;
      PreparedOnReading(trace[i], acts[i], worker);
    }
  }

  lemma PreparedOnReading(s: Sys, a: Action, worker: Worker)
    requires worker in Step(s, a).open && Step(s, a).open[worker].ClaimWork?
    requires worker !in s.open || s.open[worker] != Step(s, a).open[worker]
    ensures PreparedBy(s, a, Step(s, a).open[worker].w) && a.worker == worker
  {
    assert a.ReadDnsClaim?;
  }

  // ---------------------------------------------------------------- where a recovery came from

  ghost predicate FiledBy(s: Sys, a: Action, id: TokenHash, r: Recovery) {
    && a.RequestRecovery? && StartError(s.tables, a.r).None?
    && a.r.token == id
    && SameRequest(NewRecovery(s.tables.claims[a.r.host], a.r), r)
  }

  lemma OnlyRequestsFile(s: Sys, a: Action, id: TokenHash)
    requires id in Step(s, a).tables.recoveries && id !in s.tables.recoveries
    ensures FiledBy(s, a, id, Step(s, a).tables.recoveries[id])
  {
    if Quiet(a) {
      QuietStep(s, a);
    } else if a.RequestRecovery? && StartError(s.tables, a.r).None? {
      RequestStep(s, a);
    }
  }

  /** Every recovery row was filed by one earlier request of the run, with a proof of the requester's own. */
  lemma {:induction false} RecoveryWasRequested(trace: seq<Sys>, acts: seq<Action>, i: nat, id: TokenHash)
    returns (k: nat)
    requires Run(trace, acts) && i < |trace| && id in trace[i].tables.recoveries
    ensures k < i && FiledBy(trace[k], acts[k], id, trace[i].tables.recoveries[id])
  {
    hide Step, StartError, NewRecovery;
    assert i > 0;
    if id in trace[i - 1].tables.recoveries {
      k := RecoveryWasRequested(trace, acts, i - 1, id);
      StepMoves(trace[i - 1], acts[i - 1]);
    } else {
      OnlyRequestsFile(trace[i - 1], acts[i - 1], id);
      k := i - 1;
    }
  }

  /** The ownership theorem.  In every run, a host's owner changes only by a transfer or a recovery.  Of a transfer,
      the same worker read earlier in the run, before the intent expired, that the intent's owner is verified and is
      the owner; the intent's snapshot is the current row again when the transfer commits, with an unspent, unexpired
      proof.  A recovery was requested by the new owner itself earlier in the run, at least the cooldown before and
      inside the window, against exactly the current e-mail derived claim, and commits with a second unused proof
      issued after the cooldown. */
  lemma OwnershipTheorem(trace: seq<Sys>, acts: seq<Action>, i: nat, h: Host) returns (k: nat)
    requires Run(trace, acts) && i < |acts| && OwnerChanges(trace[i], acts[i], h)
    ensures trace[i].tables.claims[h].updatedAt < trace[i + 1].tables.claims[h].updatedAt
    ensures ByTransfer(trace[i], acts[i], h) ==>
              var w := trace[i].open[acts[i].worker].w;
              var intent := w.transfer.value;
              && intent.previousDid == trace[i].tables.claims[h].did
              && intent.previousUpdatedAt == trace[i].tables.claims[h].updatedAt
              && intent.host == h && intent.jti !in trace[i].tables.transfers
              && Spendable(trace[i].tables.challenges, w.token, h, trace[i + 1].tables.claims[h].did, w.at)
              && k < i && PreparedBy(trace[k], acts[k], w) && acts[k].worker == acts[i].worker
              && acts[k].now < intent.expiresAt && acts[k].verifiedOwner == Some(trace[i].tables.claims[h].did)
    ensures !ByTransfer(trace[i], acts[i], h) ==>
              && ByRecovery(trace[i], acts[i], h)
              && var sn := trace[i].open[acts[i].worker].s;
              && RecoveryIsDue(trace[i].tables, sn.f, sn.id, h)
              && k < i && FiledBy(trace[k], acts[k], sn.id, trace[i].tables.recoveries[sn.id])
              && acts[k].r.did == trace[i + 1].tables.claims[h].did
              && acts[k].r.at + COOLDOWN_MS <= sn.f.at
  {
    RunKeepsInv(trace, acts, i);
    OwnerChangesExactlyBy(trace[i], acts[i], h);
    if ByTransfer(trace[i], acts[i], h) {
      TransferIsAuthorised(trace[i], acts[i], h);
      k := ClaimWasPrepared(trace, acts, i, acts[i].worker);
    } else {
      RecoveryIsAuthorised(trace[i], acts[i], h);
      k := RecoveryWasRequested(trace, acts, i, trace[i].open[acts[i].worker].s.id);
    }
  }

  // ---------------------------------------------------------------- e-mail derived claims come first and never return

  /** Once a host is claimed, an e-mail derived claim seen later is the very row seen now; so a claim that has left
      that method never has it again, and no stale snapshot matches again. */
  lemma EmailClaimNeverReturns(trace: seq<Sys>, acts: seq<Action>, i: nat, j: nat, h: Host)
    requires Run(trace, acts) && i <= j < |trace| && h in trace[i].tables.claims
    ensures h in trace[j].tables.claims
    ensures trace[j].tables.claims[h].how.ContactEmail? ==> trace[i].tables.claims[h] == trace[j].tables.claims[h]
    ensures forall r: Recovery :: Matches(r, trace[j].tables.claims[h]) ==> Matches(r, trace[i].tables.claims[h])
  {
    RunMoves(trace, acts, i, j);
  }

  /** A completing recovery finds an e-mail derived claim and leaves a DNS one. */
  lemma RecoveryLeavesEmail(s: Sys, a: Action, h: Host)
    requires ByRecovery(s, a, h)
    ensures h in s.tables.claims && s.tables.claims[h].how.ContactEmail?
    ensures h in Step(s, a).tables.claims && Step(s, a).tables.claims[h].how.DnsTxt?
  {
  }

  /** In one run at most one recovery of a host ever completes. */
  lemma OneRecoveryPerHost(trace: seq<Sys>, acts: seq<Action>, i: nat, j: nat, h: Host)
    requires Run(trace, acts) && i < j < |acts| && ByRecovery(trace[i], acts[i], h)
    ensures !ByRecovery(trace[j], acts[j], h)
  {
    RecoveryLeavesEmail(trace[i], acts[i], h);
    EmailClaimNeverReturns(trace, acts, i + 1, j, h);
    if ByRecovery(trace[j], acts[j], h) {
      RecoveryLeavesEmail(trace[j], acts[j], h);
    }
  }

  // ---------------------------------------------------------------- proofs are spent once

  /** The proof a step spends by committing. */
  ghost function Spends(s: Sys, a: Action): Option<TokenHash> {
    if Claiming(s, a) && DnsClaimError(s.tables, s.open[a.worker].w).None? then Some(s.open[a.worker].w.token)
    else if a.ClaimByEmail? && EmailClaimError(s.tables, a.w).None? then Some(a.w.token)
    else if a.RequestRecovery? && StartError(s.tables, a.r).None? then Some(a.r.token)
    else if Finalizing(s, a) && MovesOwner(s.tables, s.open[a.worker].s) then Some(s.open[a.worker].s.f.proof.token)
    else None
  }

  ghost predicate SpendsOnly(s: Sys, a: Action, token: TokenHash)
    requires token in s.tables.challenges
  {
    && token in Step(s, a).tables.challenges
    && (Spends(s, a) == Some(token) ==>
          s.tables.challenges[token].consumedAt.None? && Step(s, a).tables.challenges[token].consumedAt.Some?)
    && (Spends(s, a) != Some(token) ==> Step(s, a).tables.challenges[token] == s.tables.challenges[token])
  }

  /** A step spends exactly its own proof, which was unspent; `consumed_at` of every other challenge is unchanged. */
  lemma StepSpendsOnly(s: Sys, a: Action, token: TokenHash)
    requires token in s.tables.challenges
    ensures SpendsOnly(s, a, token)
  {
    hide Step, Reconcile, FinalizeRead, FinalizeWrite, DnsClaimError, CompleteError, EmailClaimError;
    if Quiet(a) {
      QuietStep(s, a);
    } else if a.RequestRecovery? {
      if StartError(s.tables, a.r).None? {
        ReconcileFrame(s.tables, a.r.host, a.r.at);
        RequestStep(s, a);
      } else {
        AbortedRequest(s, a);
      }
    } else {
      CommitSpendsOnly(s, a, token);
    }
  }

  lemma CommitSpendsOnly(s: Sys, a: Action, token: TokenHash)
    requires token in s.tables.challenges && !Quiet(a) && !a.RequestRecovery?
    ensures SpendsOnly(s, a, token)
  {
    hide Step, SpendsOnly;
    if a.WriteDnsClaim? || a.WriteFinalization? {
      WriteSpendsOnly(s, a, token);
    } else if a.Issue? {
      IssueSpendsNothing(s, a, token);
    } else {
      DirectSpendsOnly(s, a, token);
    }
  }

  lemma WriteSpendsOnly(s: Sys, a: Action, token: TokenHash)
    requires token in s.tables.challenges && (a.WriteDnsClaim? || a.WriteFinalization?)
    ensures SpendsOnly(s, a, token)
  {
    hide DnsClaim, DnsClaimError, Complete, CompleteError, FinalizeReplay, ViewOf, NewOwner;
    if Claiming(s, a) && DnsClaimError(s.tables, s.open[a.worker].w).None? {
      DnsClaimEffect(s.tables, s.open[a.worker].w);
    } else if Finalizing(s, a) && MovesOwner(s.tables, s.open[a.worker].s) {
      CompleteEffect(s.tables, s.open[a.worker].s);
    }
  }

  lemma IssueSpendsNothing(s: Sys, a: Action, token: TokenHash)
    requires token in s.tables.challenges && a.Issue?
    ensures SpendsOnly(s, a, token)
  {
  }

  lemma DirectSpendsOnly(s: Sys, a: Action, token: TokenHash)
    requires token in s.tables.challenges && (a.ClaimByEmail? || a.RefreshClaim?)
    ensures SpendsOnly(s, a, token)
  {
    hide EmailClaim, EmailClaimError, RefreshOwner, RefreshError, Upsert, DnsClaimError, StartError, MovesOwner;
    match a
    case ClaimByEmail(w) => if EmailClaimError(s.tables, w).None? { EmailClaimEffect(s.tables, w); }
    case RefreshClaim(f) => if RefreshError(s.tables, f).None? { RefreshEffect(s.tables, f); }
  }

  datatype Presented = Presented(token: TokenHash, host: Host, did: Did, at: Time)

  /** The proof a step brings, whose it has to be, and when it is to be spent. */
  ghost function Presents(s: Sys, a: Action): Option<Presented> {
    match a
    case WriteDnsClaim(worker) =>
      if Claiming(s, a)
      then var w := s.open[worker].w; Some(Presented(w.token, w.host, w.claim.did, w.at)) else None
    case ClaimByEmail(w) => Some(Presented(w.token, w.host, w.claim.did, w.at))
    case RequestRecovery(q) => Some(Presented(q.token, q.host, q.did, q.at))
    case WriteFinalization(worker) =>
      if Finalizing(s, a)
      then var f := s.open[worker].s.f; Some(Presented(f.proof.token, f.host, f.did, f.at)) else None
    case _ => None
  }

  /** A challenge is changed only by a step that presents it while it is of the step's host and DID, unspent and
      unexpired, and the step only marks it as spent at that time. */
  ghost predicate ChangesOnlyBySpending(s: Sys, a: Action, token: TokenHash)
    requires token in s.tables.challenges
  {
    && token in Step(s, a).tables.challenges
    && var c, c' := s.tables.challenges[token], Step(s, a).tables.challenges[token];
    c' != c ==>
      && Presents(s, a).Some?
      && var p := Presents(s, a).value;
      && p.token == token && Spendable(s.tables.challenges, token, p.host, p.did, p.at)
      && c' == c.(consumedAt := Some(p.at))
  }

  /** So no proof is ever spent for another host, for another DID, twice, or after it has expired. */
  lemma SpentOnlyWhileGood(s: Sys, a: Action, token: TokenHash)
    requires token in s.tables.challenges
    ensures ChangesOnlyBySpending(s, a, token)
  {
    hide Step, DnsClaim, EmailClaim, Complete, StartRecovery;
    StepSpendsOnly(s, a, token);
    if Spends(s, a) == Some(token) { SpendingStep(s, a); }
  }

  lemma SpendingStep(s: Sys, a: Action)
    requires Spends(s, a).Some?
    ensures var t, t' := s.tables, Step(s, a).tables;
            && Presents(s, a).Some?
            && var p := Presents(s, a).value;
            && Spends(s, a) == Some(p.token) && Spendable(t.challenges, p.token, p.host, p.did, p.at)
            && t'.challenges == t.challenges[p.token := t.challenges[p.token].(consumedAt := Some(p.at))]
  {
    hide DnsClaim, EmailClaim, Complete, StartRecovery, Reconcile, NewOwner, FinalizeReplay, ViewOf, EmailBound,
      UpsertError, IsTransfer;
    match a
    case WriteDnsClaim(worker) => DnsClaimEffect(s.tables, s.open[worker].w);
    case ClaimByEmail(w) => EmailClaimEffect(s.tables, w);
    case RequestRecovery(q) =>
      ReconcileFrame(s.tables, q.host, q.at);
      RequestStep(s, a);
    case WriteFinalization(worker) => CompleteEffect(s.tables, s.open[worker].s);
  }

  /** Among all claims, e-mail claims, recovery requests and finalizations of a run, one proof commits at most one. */
  lemma ProofSpentOnce(trace: seq<Sys>, acts: seq<Action>, i: nat, j: nat, token: TokenHash)
    requires Run(trace, acts) && i < j < |acts|
    requires Spends(trace[i], acts[i]) == Some(token)
    ensures Spends(trace[j], acts[j]) != Some(token)
  {
    SpentTokenExists(trace[i], acts[i]);
    StepSpendsOnly(trace[i], acts[i], token);
    RunMoves(trace, acts, i + 1, j);
    StepSpendsOnly(trace[j], acts[j], token);
  }

  lemma SpentTokenExists(s: Sys, a: Action)
    requires Spends(s, a).Some?
    ensures Spends(s, a).value in s.tables.challenges
  {
    if a.RequestRecovery? { ReconcileFrame(s.tables, a.r.host, a.r.at); }
  }

  // ---------------------------------------------------------------- timestamps and snapshots

  /** An owner's own refresh that carries an older timestamp than the row it refreshes. */
  ghost predicate BackdatedRefresh(s: Sys, a: Action, h: Host) {
    h in s.tables.claims && (
      || (a.RefreshClaim? && a.f.host == h && RefreshError(s.tables, a.f).None?
          && a.f.claim.updatedAt < s.tables.claims[h].updatedAt)
      || (Claiming(s, a) && var w := s.open[a.worker].w;
                         w.host == h && !IsTransfer(w) && DnsClaimError(s.tables, w).None?
                         && w.claim.updatedAt < s.tables.claims[h].updatedAt))
  }

  /** `updated_at` moves back exactly in a backdated refresh. */
  lemma MovesBackExactlyBy(s: Sys, a: Action, h: Host)
    requires SysInv(s) && h in s.tables.claims && h in Step(s, a).tables.claims
    ensures Step(s, a).tables.claims[h].updatedAt < s.tables.claims[h].updatedAt <==> BackdatedRefresh(s, a, h)
  {
    hide Step, SysInv, OwnerChanges, BackdatedRefresh, DnsClaimError, MovesOwner, Reconcile, FinalizeRead;
    if Quiet(a) {
      QuietStep(s, a);
      QuietIsNoRefresh(s, a, h);
    } else if a.RequestRecovery? {
      if StartError(s.tables, a.r).None? { RequestStep(s, a); } else { AbortedRequest(s, a); }
      QuietIsNoRefresh(s, a, h);
    } else {
      if ByTransfer(s, a, h) { TransferIsAuthorised(s, a, h); }
      if ByRecovery(s, a, h) { RecoveryIsAuthorised(s, a, h); }
      WritingMovesBack(s, a, h);
    }
  }

  lemma QuietIsNoRefresh(s: Sys, a: Action, h: Host)
    requires Quiet(a) || a.RequestRecovery?
    ensures !BackdatedRefresh(s, a, h)
  {
  }

  lemma WritingMovesBack(s: Sys, a: Action, h: Host)
    requires h in s.tables.claims && h in Step(s, a).tables.claims && !Quiet(a) && !a.RequestRecovery?
    requires ByTransfer(s, a, h) || ByRecovery(s, a, h) ==>
               s.tables.claims[h].updatedAt < Step(s, a).tables.claims[h].updatedAt
    ensures Step(s, a).tables.claims[h].updatedAt < s.tables.claims[h].updatedAt <==> BackdatedRefresh(s, a, h)
  {
    hide DnsClaim, EmailClaim, Complete, RefreshOwner, FinalizeReplay, ViewOf, EmailBound, SpendError, NewOwner;
    match a
    case WriteDnsClaim(worker) =>
      if Claiming(s, a) && DnsClaimError(s.tables, s.open[worker].w).None? {
        DnsClaimEffect(s.tables, s.open[worker].w);
      }
    case ClaimByEmail(w) => if EmailClaimError(s.tables, w).None? { EmailClaimEffect(s.tables, w); }
    case RefreshClaim(f) => if RefreshError(s.tables, f).None? { RefreshEffect(s.tables, f); }
    case WriteFinalization(worker) =>
      if Finalizing(s, a) && MovesOwner(s.tables, s.open[worker].s) { CompleteEffect(s.tables, s.open[worker].s); }
    case Issue(_, _) =>
  }

  lemma UpdatedAtStep(s: Sys, a: Action, h: Host)
    requires SysInv(s) && h in s.tables.claims && !BackdatedRefresh(s, a, h)
    ensures h in Step(s, a).tables.claims && s.tables.claims[h].updatedAt <= Step(s, a).tables.claims[h].updatedAt
  {
    StepMoves(s, a);
    MovesBackExactlyBy(s, a, h);
  }

  lemma {:induction false} UpdatedAtGrows(trace: seq<Sys>, acts: seq<Action>, i: nat, j: nat, h: Host)
    requires Run(trace, acts) && i <= j < |trace| && h in trace[i].tables.claims
    requires forall k :: i <= k < j ==> !BackdatedRefresh(trace[k], acts[k], h)
    ensures h in trace[j].tables.claims && trace[i].tables.claims[h].updatedAt <= trace[j].tables.claims[h].updatedAt
    decreases j
  {
    hide Step, SysInv, BackdatedRefresh;
    if i < j {
      UpdatedAtGrows(trace, acts, i, j - 1, h);
      RunKeepsInv(trace, acts, j - 1);
      UpdatedAtStep(trace[j - 1], acts[j - 1], h);
    }
  }

  /** Unless a refresh in between is backdated, a (DID, updated_at) snapshot authorises one ownership change. */
  lemma SnapshotUsedOnce(trace: seq<Sys>, acts: seq<Action>, i: nat, j: nat, h: Host)
    requires Run(trace, acts) && i < j < |acts|
    requires OwnerChanges(trace[i], acts[i], h) && OwnerChanges(trace[j], acts[j], h)
    requires forall k :: i <= k < j ==> !BackdatedRefresh(trace[k], acts[k], h)
    ensures (trace[i].tables.claims[h].did, trace[i].tables.claims[h].updatedAt)
         != (trace[j].tables.claims[h].did, trace[j].tables.claims[h].updatedAt)
  {
    var _ := OwnershipTheorem(trace, acts, i, h);
    UpdatedAtGrows(trace, acts, i + 1, j, h);
  }
}
