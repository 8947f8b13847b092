/** The recovery rows over whole runs: the audit ledger, duplicate finalizations, and the notification lease. */
module AccountHostRecovery {
  import opened Wrappers
  import opened AccountHostTables
  import opened AccountHostTransactions
  import opened AccountHostInvariant
  import opened AccountHostRuns
  import opened AccountHostOwnership

  // ---------------------------------------------------------------- the ledger agrees with the rows

  /** The events other than notifications that the ledger holds for a recovery. */
  ghost function History(audit: Ledger, id: TokenHash): set<AuditKey> {
    set k | k in audit && k.recovery == id && !k.event.Notified?
  }

  /** In every reachable state a recovery has exactly one "requested" event and, exactly when it has left pending,
      exactly one terminal event, which names its final status and its completion time. */
  lemma LedgerAgrees(trace: seq<Sys>, acts: seq<Action>, i: nat, id: TokenHash)
    requires Run(trace, acts) && i < |trace| && id in trace[i].tables.recoveries
    ensures var t := trace[i].tables;
            var r := t.recoveries[id];
            && History(t.audit, id) == (if r.status.Pending? then {AuditKey(id, Requested)}
                                        else {AuditKey(id, Requested), AuditKey(id, TerminalEvent(r.status).value)})
            && t.audit[AuditKey(id, Requested)].actor == Some(r.requester)
            && t.audit[AuditKey(id, Requested)].at == r.requestedAt
            && t.audit[AuditKey(id, Requested)].proof == Some(id)
            && (!r.status.Pending? ==> r.completedAt == Some(t.audit[AuditKey(id, TerminalEvent(r.status).value)].at))
            && (r.status.Completed? ==> t.audit[AuditKey(id, Finalized)].actor == Some(r.requester)
                                        && t.audit[AuditKey(id, Finalized)].proof == r.finalToken)
  {
    RunKeepsInv(trace, acts, i);
    var t := trace[i].tables;
    LedgerAgreesIn(t.recoveries, t.audit, id);
  }

  lemma LedgerAgreesIn(rs: Recoveries, audit: Ledger, id: TokenHash)
    requires LedgerSound(rs, audit) && LedgerComplete(rs, audit) && id in rs
    ensures Opened(audit, id, rs[id]) && Closed(audit, id, rs[id])
    ensures History(audit, id) == (if rs[id].status.Pending? then {AuditKey(id, Requested)}
                                   else {AuditKey(id, Requested), AuditKey(id, TerminalEvent(rs[id].status).value)})
  {
  }

  /** And the ledger mentions nothing but recoveries that exist, and events that they may have. */
  lemma LedgerNamesRecoveries(trace: seq<Sys>, acts: seq<Action>, i: nat, k: AuditKey)
    requires Run(trace, acts) && i < |trace| && k in trace[i].tables.audit
    ensures k.recovery in trace[i].tables.recoveries && Allowed(trace[i].tables.recoveries[k.recovery], k.event)
  {
    RunKeepsInv(trace, acts, i);
  }

  // ---------------------------------------------------------------- one pending row, and what reconciling leaves

  lemma RecoveryStates(trace: seq<Sys>, acts: seq<Action>, i: nat, id: TokenHash)
    requires Run(trace, acts) && i < |trace| && id in trace[i].tables.recoveries
    ensures var t := trace[i].tables;
            var r := t.recoveries[id];
            && r.host in t.claims
            && (r.status.Completed? || r.status.Invalidated? ==> !t.claims[r.host].how.ContactEmail?)
            && (forall j :: j in t.recoveries && t.recoveries[j].host == r.host && r.status.Pending?
                            && t.recoveries[j].status.Pending?
                            ==> j == id)
            && (forall j :: j in t.recoveries && t.recoveries[j].host == r.host && r.status.Completed?
                            && t.recoveries[j].status.Completed?
                            ==> j == id)
            && (r.status.Completed? <==> r.finalToken.Some?)
            && r.finalToken != Some(id)
  {
    RunKeepsInv(trace, acts, i);
    assert RowOk(id, trace[i].tables.recoveries[id], trace[i].tables.claims, trace[i].tables.challenges);
  }

  // ---------------------------------------------------------------- duplicate finalizations

  predicate SameFinalization(s1: Snapshot, s2: Snapshot) {
    s1.id == s2.id && s1.f.host == s2.f.host && s1.f.did == s2.f.did && s1.f.proof.token == s2.f.proof.token
  }

  /** Every finalization that is about to write was read earlier in the run, when its row was the newest of the
      host. */
  lemma {:induction false} SnapshotWasRead(trace: seq<Sys>, acts: seq<Action>, j: nat, worker: Worker) returns (i: nat)
    requires Run(trace, acts) && j < |trace| && worker in trace[j].open && trace[j].open[worker].FinalizeWork?
    ensures i < j && acts[i].ReadFinalization? && acts[i].worker == worker
    ensures var t, sn := trace[i].tables, trace[j].open[worker].s;
            && acts[i].fin == sn.f && IsLatest(t, sn.f.host, Some(sn.id)) && SnapshotOk(t, sn)
            && FinalizeRead(t, sn.f, Some(sn.id)) == Ready(sn)
  {
    assert j > 0;
    if worker in trace[j - 1].open && trace[j - 1].open[worker] == trace[j].open[worker] {
      i := SnapshotWasRead(trace, acts, j - 1, worker);
    } else {
      i := j - 1;
      OpenedByRead(trace[i], acts[i], worker);
    }
  }

  lemma OpenedByRead(s: Sys, a: Action, worker: Worker)
    requires worker in Step(s, a).open && Step(s, a).open[worker].FinalizeWork?
    requires worker !in s.open || s.open[worker] != Step(s, a).open[worker]
    ensures a.ReadFinalization? && a.worker == worker
    ensures var sn := Step(s, a).open[worker].s;
            && a.fin == sn.f && IsLatest(s.tables, sn.f.host, Some(sn.id)) && SnapshotOk(s.tables, sn)
            && FinalizeRead(s.tables, sn.f, Some(sn.id)) == Ready(sn)
  {
    assert a.ReadFinalization?;
    ReadEstablishesSnapshot(s.tables, a.fin, a.latest);
  }

  /** A row filed after point `i` finds no earlier row of its host pending, and the claim e-mail derived since then. */
  lemma NewRowsFollow(trace: seq<Sys>, acts: seq<Action>, i: nat, j: nat, id: TokenHash, before: TokenHash)
    requires Run(trace, acts) && i <= j < |trace| && id in trace[j].tables.recoveries
             && id !in trace[i].tables.recoveries
    requires before in trace[i].tables.recoveries
             && trace[i].tables.recoveries[before].host == trace[j].tables.recoveries[id].host
    ensures before in trace[j].tables.recoveries && !trace[j].tables.recoveries[before].status.Pending?
    ensures var h := trace[j].tables.recoveries[id].host;
            h in trace[i].tables.claims ==> trace[i].tables.claims[h].how.ContactEmail?
  {
    hide Step, Reconcile, Inv;
    var k := RecoveryWasRequested(trace, acts, j, id);
    RequestStep(trace[k], acts[k]);
    if k < i { RunMoves(trace, acts, k + 1, i); }
    RunMoves(trace, acts, i, k);
    RequestCloses(trace[k], acts[k], before);
    RunMoves(trace, acts, k + 1, j);
  }

  lemma RequestCloses(s: Sys, a: Action, id: TokenHash)
    requires a.RequestRecovery? && StartError(s.tables, a.r).None?
    requires id in s.tables.recoveries && s.tables.recoveries[id].host == a.r.host
    ensures id in Step(s, a).tables.recoveries && !Step(s, a).tables.recoveries[id].status.Pending?
  {
    hide Close, StaleIds, LiveMatch, Reconcile;
    var t1 := Reconcile(s.tables, a.r.host, a.r.at);
    ReconcileMoves(s.tables, a.r.host, a.r.at);
    assert id !in PendingIds(t1, a.r.host);
  }

  /** A newest row stays the newest while it is pending, and for good once the claim has left e-mail. */
  lemma StillNewest(trace: seq<Sys>, acts: seq<Action>, i: nat, j: nat, h: Host, id: TokenHash)
    requires Run(trace, acts) && i <= j < |trace| && IsLatest(trace[i].tables, h, Some(id))
    requires || (id in trace[j].tables.recoveries && trace[j].tables.recoveries[id].status.Pending?)
             || (h in trace[i].tables.claims && !trace[i].tables.claims[h].how.ContactEmail?)
    ensures IsLatest(trace[j].tables, h, Some(id))
  {
    RunMoves(trace, acts, i, j);
    hide Step;
    var rs, rs' := trace[i].tables.recoveries, trace[j].tables.recoveries;
    forall k | k in rs' && rs'[k].host == h ensures rs'[k].requestedAt <= rs'[id].requestedAt {
      if k !in rs { NewRowsFollow(trace, acts, i, j, k, id); }
    }
  }

  /** The requester holds the host by the DNS claim. */
  predicate Holds(t: Tables, h: Host, did: Did) {
    h in t.claims && t.claims[h].how.DnsTxt? && t.claims[h].did == did
  }

  /** What a finalization that moved the owner leaves for good: the completed row is its host's newest, and its
      proof is spent. */
  ghost predicate Finished(t: Tables, s: Snapshot) {
    && IsLatest(t, s.f.host, Some(s.id)) && t.recoveries[s.id].requester == s.f.did
    && t.recoveries[s.id].status.Completed? && t.recoveries[s.id].finalToken == Some(s.f.proof.token)
    && SpentBy(t.challenges, s.f.proof.token, s.f.host, s.f.did)
  }

  lemma FinishedForGood(trace: seq<Sys>, acts: seq<Action>, i: nat, j: nat)
    requires Run(trace, acts) && i < |acts| && i < j < |trace|
    requires Finalizing(trace[i], acts[i]) && MovesOwner(trace[i].tables, trace[i].open[acts[i].worker].s)
    ensures Finished(trace[j].tables, trace[i].open[acts[i].worker].s)
    ensures Holds(trace[i + 1].tables, trace[i].open[acts[i].worker].s.f.host, trace[i].open[acts[i].worker].s.f.did)
  {
    hide Step, Inv, RecoveryIsDue, MovesOwner;
    var sn := trace[i].open[acts[i].worker].s;
    var r := SnapshotWasRead(trace, acts, i, acts[i].worker);
    RunKeepsInv(trace, acts, i);
    assert ByRecovery(trace[i], acts[i], sn.f.host);
    RecoveryIsAuthorised(trace[i], acts[i], sn.f.host);
    DueIsPending(trace[i].tables, sn.f, sn.id, sn.f.host);
    StillNewest(trace, acts, r, i, sn.f.host, sn.id);
    StepMoves(trace[i], acts[i]);
    MoveKeepsNewest(trace[i], acts[i]);
    StillNewest(trace, acts, i + 1, j, sn.f.host, sn.id);
    RunMoves(trace, acts, i + 1, j);
  }

  lemma DueIsPending(t: Tables, f: Finalization, id: TokenHash, h: Host)
    requires RecoveryIsDue(t, f, id, h)
    ensures id in t.recoveries && t.recoveries[id].status.Pending? && t.recoveries[id].requester == f.did
  {
  }

  lemma MoveKeepsNewest(s: Sys, a: Action)
    requires Finalizing(s, a) && MovesOwner(s.tables, s.open[a.worker].s)
    requires IsLatest(s.tables, s.open[a.worker].s.f.host, Some(s.open[a.worker].s.id))
    ensures IsLatest(Step(s, a).tables, s.open[a.worker].s.f.host, Some(s.open[a.worker].s.id))
  {
    hide InsertAudit, ResetLinks, ResetProfile, ClaimHost, FinalizeReplay, ViewOf;
  }

  /** Two finalizations of one recovery with one proof, both past their read phase: once one has moved the owner,
      the other, however late it writes, changes nothing.  It succeeds exactly when the requester holds the host by
      DNS at that time, as it does right after the move, and then returns the current claim and the stored row. */
  lemma TwinFinalizations(trace: seq<Sys>, acts: seq<Action>, i: nat, j: nat, s2: Snapshot)
    requires Run(trace, acts) && i < |acts| && i < j < |trace|
    requires Finalizing(trace[i], acts[i]) && MovesOwner(trace[i].tables, trace[i].open[acts[i].worker].s)
    requires SameFinalization(trace[i].open[acts[i].worker].s, s2)
    ensures var t := trace[j].tables;
            && s2.id in t.recoveries
            && FinalizeWrite(t, s2) == Commit(t, if Holds(t, s2.f.host, s2.f.did)
                                              then Ok(t.claims[s2.f.host], ViewOf(s2.id, t.recoveries[s2.id]))
                                              else Refused(AlreadyUsed, Some(ViewOf(s2.id, s2.row))))
            && (j == i + 1 ==> Holds(t, s2.f.host, s2.f.did))
  {
    hide Step, MovesOwner;
    FinishedForGood(trace, acts, i, j);
  }

  /** Sending a finished finalization again, at any later time, finds its own row the newest (a row that ties with
      it was requested in the same millisecond) and changes nothing; the same condition decides the reply. */
  lemma RepeatedFinalization(trace: seq<Sys>, acts: seq<Action>, i: nat, j: nat, again: Finalization)
    requires Run(trace, acts) && i < |acts| && i < j < |trace|
    requires Finalizing(trace[i], acts[i]) && MovesOwner(trace[i].tables, trace[i].open[acts[i].worker].s)
    requires var f := trace[i].open[acts[i].worker].s.f;
             again.host == f.host && again.did == f.did && again.proof.token == f.proof.token
    ensures var t, id := trace[j].tables, trace[i].open[acts[i].worker].s.id;
            && IsLatest(t, again.host, Some(id))
            && Finalize(t, again, Some(id)) == Commit(t, if Holds(t, again.host, again.did)
                                                      then Ok(t.claims[again.host], ViewOf(id, t.recoveries[id]))
                                                      else Refused(OwnerChanged, Some(ViewOf(id, t.recoveries[id]))))
            && forall latest :: IsLatest(t, again.host, latest) ==>
                                  latest.Some? && t.recoveries[latest.value].requestedAt == t.recoveries[id].requestedAt
  {
    hide Step, MovesOwner;
    FinishedForGood(trace, acts, i, j);
  }

  // ---------------------------------------------------------------- the notification lease

  ghost function LeasedBy(t: Tables, a: Action): set<TokenHash>
    requires a.ReserveNotice?
  {
    LeaseIds(Reconcile(t, a.host, Max(0, a.at)), a.host, a.requester, Max(0, a.at), Max(1, a.retryAfter))
  }

  /** This step hands out the lease of the recovery. */
  ghost predicate Leases(s: Sys, a: Action, id: TokenHash) {
    a.ReserveNotice? && id in LeasedBy(s.tables, a)
  }

  /** The delivery columns of a row that closing and reconciling never touch. */
  predicate SameDelivery(r: Recovery, r': Recovery) {
    r'.delivery == r.delivery && r'.attemptedAt == r.attemptedAt && r'.deliveryId == r.deliveryId
    && r'.deliveryFingerprint == r.deliveryFingerprint
  }

  lemma CloseKeepsDelivery(t: Tables, ids: set<TokenHash>, host: Host, status: Status, event: Event,
                           actor: Option<Did>, at: Time,
                           id: TokenHash)
    requires id in t.recoveries
    ensures id in Close(t, ids, host, status, event, actor, at).recoveries
    ensures SameDelivery(t.recoveries[id], Close(t, ids, host, status, event, actor, at).recoveries[id])
  {
  }

  lemma ReconcileKeepsDelivery(t: Tables, host: Host, at: Time, id: TokenHash)
    requires id in t.recoveries
    ensures id in ExpireStale(t, host, at).recoveries
    ensures SameDelivery(t.recoveries[id], ExpireStale(t, host, at).recoveries[id])
    ensures id in Reconcile(t, host, at).recoveries
    ensures SameDelivery(t.recoveries[id], Reconcile(t, host, at).recoveries[id])
  {
    hide Close, PendingIds, StaleIds, LiveMatch;
    CloseKeepsDelivery(t, StaleIds(t, host, at), host, Expired, ExpiredEvent, None, at, id);
    var t1 := ExpireStale(t, host, at);
    CloseKeepsDelivery(t1, PendingIds(t1, host), host, Invalidated, InvalidatedEvent, Owner(t1, host), at, id);
  }

  ghost predicate DeliveryMoves(s: Sys, a: Action, id: TokenHash)
    requires id in s.tables.recoveries
  {
    && id in Step(s, a).tables.recoveries
    && var r, r' := s.tables.recoveries[id], Step(s, a).tables.recoveries[id];
    && r'.attemptedAt == (if Leases(s, a, id) then Some(Max(0, a.at)) else r.attemptedAt)
    && (!a.RecordNotice? ==> r'.delivery == r.delivery)
    && (r.delivery.Sent? ==> r'.delivery.Sent? && r'.attemptedAt == r.attemptedAt)
  }

  /** The attempt time changes only when the lease is handed out, the delivery state only when an outcome is
      recorded. */
  lemma DeliveryStep(s: Sys, a: Action, id: TokenHash)
    requires id in s.tables.recoveries
    ensures DeliveryMoves(s, a, id)
  {
    hide DeliveryMoves, Step;
    if a.ReserveNotice? {
      ReserveDelivery(s, a, id);
    } else if a.RecordNotice? {
      RecordDelivery(s, a, id);
    } else if Quiet(a) {
      QuietDelivery(s, a, id);
    } else if a.RequestRecovery? {
      RequestDelivery(s, a, id);
    } else {
      OtherDelivery(s, a, id);
    }
  }

  lemma OtherDelivery(s: Sys, a: Action, id: TokenHash)
    requires id in s.tables.recoveries && !Quiet(a) && !a.RequestRecovery?
    ensures DeliveryMoves(s, a, id)
  {
    hide CloseRows, AddAudit, ClaimHost, ResetProfile, ResetLinks, FinalizeReplay, ViewOf;
    if Claiming(s, a) && DnsClaimError(s.tables, s.open[a.worker].w).None? {
      var w := s.open[a.worker].w;
      CloseKeepsDelivery(s.tables, PendingIds(s.tables, w.host), w.host, Invalidated, InvalidatedEvent,
                         Some(w.claim.did), w.at, id);
    }
  }

  lemma RequestDelivery(s: Sys, a: Action, id: TokenHash)
    requires id in s.tables.recoveries && a.RequestRecovery?
    ensures DeliveryMoves(s, a, id)
  {
    hide CloseRows, AddAudit, Reserve, Record, FinalizeRead;
    ReconcileKeepsDelivery(s.tables, a.r.host, a.r.at, id);
  }

  lemma ReserveDelivery(s: Sys, a: Action, id: TokenHash)
    requires id in s.tables.recoveries && a.ReserveNotice?
    ensures DeliveryMoves(s, a, id)
  {
    hide Reconcile;
    ReconcileKeepsDelivery(s.tables, a.host, Max(0, a.at), id);
  }

  lemma RecordDelivery(s: Sys, a: Action, id: TokenHash)
    requires id in s.tables.recoveries && a.RecordNotice?
    ensures DeliveryMoves(s, a, id)
  {
    hide Reconcile;
    ReconcileKeepsDelivery(s.tables, a.host, a.report.attemptedAt, id);
  }

  lemma QuietDelivery(s: Sys, a: Action, id: TokenHash)
    requires id in s.tables.recoveries && Quiet(a) && !a.ReserveNotice? && !a.RecordNotice?
    ensures DeliveryMoves(s, a, id)
  {
    hide CloseRows, AddAudit, Reconcile, FinalizeRead;
    match a
    case ExpireHost(host, at) => ReconcileKeepsDelivery(s.tables, host, at, id);
    case ReconcileHost(host, at) => ReconcileKeepsDelivery(s.tables, host, at, id);
    case ReadFinalization(_, f, latest) =>
      if IsLatest(s.tables, f.host, latest) && FinalizeRead(s.tables, f, latest).Replied? {
        ReadDelivery(s.tables, f, latest, id);
      }
    case _ =>
  }

  lemma ReadDelivery(t: Tables, f: Finalization, latest: Option<TokenHash>, id: TokenHash)
    requires id in t.recoveries && IsLatest(t, f.host, latest) && FinalizeRead(t, f, latest).Replied?
    ensures id in FinalizeRead(t, f, latest).tables.recoveries
    ensures SameDelivery(t.recoveries[id], FinalizeRead(t, f, latest).tables.recoveries[id])
  {
    hide CloseRows, AddAudit, FinalizeRead;
    ReadReplies(t, f, latest);
    ReconcileKeepsDelivery(t, f.host, f.at, id);
    CloseKeepsDelivery(t, PendingIds(t, f.host), f.host, Invalidated, InvalidatedEvent, Owner(t, f.host), f.at, id);
  }

  /** When the lease is handed out, the previous attempt is old enough, by the statement's own arithmetic. */
  lemma LeaseGuard(s: Sys, a: Action, id: TokenHash)
    requires Leases(s, a, id)
    ensures id in s.tables.recoveries
    ensures !s.tables.recoveries[id].delivery.Sent?
    ensures s.tables.recoveries[id].attemptedAt.Some? ==>
              s.tables.recoveries[id].attemptedAt.value <= Max(0, Max(0, a.at) - Max(1, a.retryAfter))
  {
    var t1 := Reconcile(s.tables, a.host, Max(0, a.at));
    assert id in t1.recoveries;
    ReconcileFrame(s.tables, a.host, Max(0, a.at));
    ReconcileKeepsDelivery(s.tables, a.host, Max(0, a.at), id);
  }

  lemma {:induction false} AttemptNeverOlder(trace: seq<Sys>, acts: seq<Action>, i: nat, j: nat, id: TokenHash)
    requires Run(trace, acts) && i < j < |trace| && i < |acts| && Leases(trace[i], acts[i], id)
    ensures id in trace[j].tables.recoveries && trace[j].tables.recoveries[id].attemptedAt.Some?
    ensures Max(0, acts[i].at) <= trace[j].tables.recoveries[id].attemptedAt.value
    decreases j
  {
    LeaseGuard(trace[i], acts[i], id);
    if j == i + 1 {
      DeliveryStep(trace[i], acts[i], id);
    } else {
      AttemptNeverOlder(trace, acts, i, j - 1, id);
      DeliveryStep(trace[j - 1], acts[j - 1], id);
      if Leases(trace[j - 1], acts[j - 1], id) {
        LeaseGuard(trace[j - 1], acts[j - 1], id);
      }
    }
  }

  /** Two reservations of one recovery, with anything in between, are a lease apart: exactly when the clock has
      passed the first lease period or the first attempt was not at time zero. */
  lemma LeaseSpacing(trace: seq<Sys>, acts: seq<Action>, i: nat, j: nat, id: TokenHash)
    requires Run(trace, acts) && i < j < |acts| && Leases(trace[i], acts[i], id) && Leases(trace[j], acts[j], id)
    ensures Max(0, acts[i].at) + Max(1, acts[j].retryAfter) <= Max(0, acts[j].at)
       <==> Max(0, acts[i].at) > 0 || Max(0, acts[j].at) >= Max(1, acts[j].retryAfter)
  {
    AttemptNeverOlder(trace, acts, i, j, id);
    LeaseGuard(trace[j], acts[j], id);
  }

  /** A delivered warning is final: no later step changes it or leases the row again. */
  lemma {:induction false} SentIsFinal(trace: seq<Sys>, acts: seq<Action>, i: nat, j: nat, id: TokenHash)
    requires Run(trace, acts) && i <= j < |trace| && id in trace[i].tables.recoveries
    requires trace[i].tables.recoveries[id].delivery.Sent?
    ensures id in trace[j].tables.recoveries && trace[j].tables.recoveries[id].delivery.Sent?
    ensures trace[j].tables.recoveries[id].attemptedAt == trace[i].tables.recoveries[id].attemptedAt
    decreases j
  {
    if i < j {
      SentIsFinal(trace, acts, i, j - 1, id);
      DeliveryStep(trace[j - 1], acts[j - 1], id);
    }
  }

  /** An outcome changes the delivery state exactly when it comes from the current lease of a row that is still
      pending after reconciling, is not yet sent, and differs; an outcome of a superseded lease never does. */
  lemma OutcomeCounts(t: Tables, host: Host, requester: Did, o: DeliveryReport, id: TokenHash)
    requires id in t.recoveries
    ensures id in Record(t, host, requester, o).recoveries
    ensures var r := t.recoveries[id];
            var r' := Record(t, host, requester, o).recoveries[id];
            r'.delivery != r.delivery <==>
            && id in PendingIds(Reconcile(t, host, o.attemptedAt), host) && r.requester == requester
            && r.attemptedAt == Some(o.attemptedAt) && !r.delivery.Sent? && r.delivery != o.outcome
  {
    hide Reconcile;
    ReconcileKeepsDelivery(t, host, o.attemptedAt, id);
    ReconcileMoves(t, host, o.attemptedAt);
  }

  // ---------------------------------------------------------------- whose mailbox is warned

  /** Exactly one evidence row minted the claim a recovery is about. */
  lemma OneMint(t: Tables, id: TokenHash) returns (k: TokenHash)
    requires Inv(t) && id in t.recoveries
    ensures k in t.evidence && Minted(t.evidence[k], t.recoveries[id])
    ensures forall j :: j in t.evidence && Minted(t.evidence[j], t.recoveries[id]) ==> j == k
  {
    assert HasEvidence(t.evidence, t.recoveries[id].host);
    k :| k in t.evidence && t.evidence[k].host == t.recoveries[id].host;
  }

  /** So the mailbox that is warned is the one whose proof minted the claim under recovery. */
  lemma WarnsTheMint(trace: seq<Sys>, acts: seq<Action>, i: nat, id: TokenHash, fingerprint: Option<string>)
    returns (k: TokenHash)
    requires Run(trace, acts) && i < |trace| && id in trace[i].tables.recoveries
    requires WarnsMailbox(trace[i].tables.evidence, trace[i].tables.recoveries[id], fingerprint)
    ensures var t := trace[i].tables;
            && k in t.evidence && Minted(t.evidence[k], t.recoveries[id])
            && SpentBy(t.challenges, k, t.recoveries[id].host, t.recoveries[id].previousDid)
            && fingerprint == WellFormed(t.challenges[k].fingerprint) && t.challenges[k].binding.Some?
  {
    RunKeepsInv(trace, acts, i);
    k := OneMint(trace[i].tables, id);
    assert EvidenceRowOk(k, trace[i].tables.evidence[k], trace[i].tables.claims, trace[i].tables.challenges);
  }
}
