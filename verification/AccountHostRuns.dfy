/** Whole runs of the ownership protocol.  Any number of workers interleave; every transaction is one step, except
    that a DNS claim and a finalization read the tables in one step and write them in a later one. */
module AccountHostRuns {
  import opened Wrappers
  import opened AccountHostTables
  import opened AccountHostTransactions
  import opened AccountHostInvariant

  type Worker = nat

  datatype Work = ClaimWork(w: DnsWrite) | FinalizeWork(s: Snapshot)

  datatype Sys = Sys(tables: Tables, open: map<Worker, Work>)

  datatype Action =
    | Issue(token: TokenHash, challenge: Challenge)
    | ReadDnsClaim(worker: Worker, q: DnsRequest, verifiedOwner: Option<Did>, now: Time)
    | WriteDnsClaim(worker: Worker)
    | RefreshClaim(f: Refresh)
    | ClaimByEmail(w: EmailWrite)
    | RequestRecovery(r: RecoveryRequest)
    | ExpireHost(host: Host, at: Time)
    | ReconcileHost(host: Host, at: Time)
    | ReadFinalization(worker: Worker, fin: Finalization, latest: Option<TokenHash>)
    | WriteFinalization(worker: Worker)
    | ReserveNotice(host: Host, requester: Did, at: Time, retryAfter: Time)
    | RecordNotice(host: Host, requester: Did, report: DeliveryReport)
    | OtherWrites(hosts: map<Host, HostRow>, links: map<LinkId, Link>)

  predicate Claiming(s: Sys, a: Action) {
    a.WriteDnsClaim? && a.worker in s.open && s.open[a.worker].ClaimWork?
  }

  predicate Finalizing(s: Sys, a: Action) {
    a.WriteFinalization? && a.worker in s.open && s.open[a.worker].FinalizeWork?
  }

  /** The tables after one step; a step that aborts, or is not enabled, leaves them as they were. */
  ghost function TablesAfter(s: Sys, a: Action): Tables {
    var t := s.tables;
    match a
    case Issue(token, c) =>
      if token in t.challenges || c.consumedAt.Some? then t else t.(challenges := t.challenges[token := c])
    case WriteDnsClaim(worker) =>
      if Claiming(s, a) && DnsClaimError(t, s.open[worker].w).None? then DnsClaim(t, s.open[worker].w) else t
    case RefreshClaim(f) => if RefreshError(t, f).None? then RefreshOwner(t, f) else t
    case ClaimByEmail(w) => if EmailClaimError(t, w).None? then EmailClaim(t, w) else t
    case RequestRecovery(q) => if StartError(t, q).None? then StartRecovery(t, q) else t
    case ExpireHost(host, at) => ExpireStale(t, host, at)
    case ReconcileHost(host, at) => Reconcile(t, host, at)
    case ReadFinalization(_, f, latest) =>
      if IsLatest(t, f.host, latest) && FinalizeRead(t, f, latest).Replied? then FinalizeRead(t, f, latest).tables
      else t
    case WriteFinalization(worker) =>
      if Finalizing(s, a) && FinalizeWrite(t, s.open[worker].s).Commit? then FinalizeWrite(t, s.open[worker].s).tables
      else t
    case ReserveNotice(host, requester, at, retryAfter) => Reserve(t, host, requester, Max(0, at), Max(1, retryAfter))
    case RecordNotice(host, requester, o) => Record(t, host, requester, o)
    case OtherWrites(hosts, links) => t.(hosts := hosts, links := links)
    case _ => t
  }

  ghost function OpenAfter(s: Sys, a: Action): map<Worker, Work> {
    match a
    case ReadDnsClaim(worker, q, verifiedOwner, now) =>
      var w := PrepareDns(s.tables, q, verifiedOwner, now);
      if w.Some? then s.open[worker := ClaimWork(w.value)] else s.open
    case ReadFinalization(worker, f, latest) =>
      if IsLatest(s.tables, f.host, latest) && FinalizeRead(s.tables, f, latest).Ready?
      then s.open[worker := FinalizeWork(FinalizeRead(s.tables, f, latest).snapshot)] else s.open
    case WriteDnsClaim(worker) => s.open - {worker}
    case WriteFinalization(worker) => s.open - {worker}
    case _ => s.open
  }

  ghost function Step(s: Sys, a: Action): Sys {
    Sys(TablesAfter(s, a), OpenAfter(s, a))
  }

  const START := Sys(EMPTY, map[])

  ghost predicate Run(trace: seq<Sys>, acts: seq<Action>) {
    && |trace| == |acts| + 1
    && trace[0] == START
    && forall i :: 0 <= i < |acts| ==> trace[i + 1] == Step(trace[i], acts[i])
  }

  /** Where a list of actions leads from the start, and the run that goes there. */
  ghost function StateAfter(acts: seq<Action>): Sys {
    if acts == [] then START else Step(StateAfter(acts[..|acts| - 1]), acts[|acts| - 1])
  }

  ghost function TraceOf(acts: seq<Action>): seq<Sys> {
    seq(|acts| + 1, i requires 0 <= i <= |acts| => StateAfter(acts[..i]))
  }

  lemma TraceOfRuns(acts: seq<Action>)
    ensures Run(TraceOf(acts), acts) && TraceOf(acts)[|acts|] == StateAfter(acts)
  {
    hide Step;
    assert acts[..|acts|] == acts;
    forall i | 0 <= i < |acts| ensures StateAfter(acts[..i + 1]) == Step(StateAfter(acts[..i]), acts[i]) {
      assert acts[..i + 1][..i] == acts[..i];
    }
  }

  lemma OneMore(acts: seq<Action>, a: Action)
    ensures StateAfter(acts + [a]) == Step(StateAfter(acts), a)
    ensures TraceOf(acts + [a])[..|acts| + 1] == TraceOf(acts)
  {
    hide Step;
    assert (acts + [a])[..|acts|] == acts;
    forall i | 0 <= i <= |acts| ensures (acts + [a])[..i] == acts[..i] { }
  }

  /** The tables of a state reached by some run satisfy the invariant. */
  lemma StateAfterInv(acts: seq<Action>)
    ensures SysInv(StateAfter(acts))
  {
    hide Step, SysInv;
    TraceOfRuns(acts);
    RunKeepsInv(TraceOf(acts), acts, |acts|);
  }

  // ---------------------------------------------------------------- what one step may do to a row

  ghost predicate ClaimsMove(c: Claims, c': Claims) {
    forall h :: h in c ==> h in c' && (c'[h].how.ContactEmail? ==> c'[h] == c[h])
  }

  predicate Settled(r: Recovery, r': Recovery) {
    r.status.Pending? || (r'.status == r.status && r'.finalToken == r.finalToken && r'.completedAt == r.completedAt)
  }

  ghost predicate RecoveriesMove(rs: Recoveries, rs': Recoveries) {
    forall id :: id in rs ==> id in rs' && SameRequest(rs[id], rs'[id]) && Settled(rs[id], rs'[id])
  }

  ghost predicate AppendOnly<K, V>(m: map<K, V>, m': map<K, V>) {
    forall k :: k in m ==> k in m' && m'[k] == m[k]
  }

  /** No row disappears; proofs stay spent, recoveries stay settled, ledgers and evidence are append-only, and a
      claim that is e-mail derived afterwards was untouched. */
  ghost predicate Moves(t: Tables, t': Tables) {
    && ChallengesGrow(t.challenges, t'.challenges)
    && ClaimsMove(t.claims, t'.claims)
    && RecoveriesMove(t.recoveries, t'.recoveries)
    && AppendOnly(t.audit, t'.audit)
    && AppendOnly(t.evidence, t'.evidence)
    && AppendOnly(t.transfers, t'.transfers)
  }

  lemma MovesTransitive(t1: Tables, t2: Tables, t3: Tables)
    requires Moves(t1, t2) && Moves(t2, t3)
    ensures Moves(t1, t3)
  {
    assert forall k :: k in t1.challenges ==> k in t2.challenges;
    assert forall id :: id in t1.recoveries ==> id in t2.recoveries;
    assert forall h :: h in t1.claims ==> h in t2.claims;
  }

  lemma CloseMoves(t: Tables, ids: set<TokenHash>, host: Host, status: Status, event: Event, actor: Option<Did>,
                   at: Time)
    requires AllPending(t.recoveries, ids, host)
    ensures Moves(t, Close(t, ids, host, status, event, actor, at))
  {
  }

  lemma ReconcileMoves(t: Tables, host: Host, at: Time)
    ensures Moves(t, ExpireStale(t, host, at)) && Moves(t, Reconcile(t, host, at))
  {
    CloseMoves(t, StaleIds(t, host, at), host, Expired, ExpiredEvent, None, at);
    var t1 := ExpireStale(t, host, at);
    CloseMoves(t1, PendingIds(t1, host), host, Invalidated, InvalidatedEvent, Owner(t1, host), at);
    MovesTransitive(t, t1, InvalidatePending(t1, host, at, Owner(t1, host)));
  }

  lemma AssignMoves(t: Tables, w: DnsWrite)
    requires AssignError(t, w).None?
    ensures Moves(t, Assign(t, w))
  {
  }

  lemma DnsClaimMoves(t: Tables, w: DnsWrite)
    requires DnsClaimError(t, w).None?
    ensures Moves(t, DnsClaim(t, w))
  {
    hide AssignError, Assign, CloseRows, AddAudit, ResetLinks, ClaimHost, ResetProfile;
    AssignMoves(t, w);
    var t1 := Assign(t, w);
    CloseMoves(t1, PendingIds(t1, w.host), w.host, Invalidated, InvalidatedEvent, Some(w.claim.did), w.at);
    MovesTransitive(t, t1, InvalidatePending(t1, w.host, w.at, Some(w.claim.did)));
  }

  lemma FileRequestMoves(t: Tables, r: Recovery, token: TokenHash)
    requires token in t.challenges && token !in t.recoveries
    ensures Moves(t, FileRequest(t, r, token))
  {
  }

  lemma StartMoves(t: Tables, q: RecoveryRequest)
    requires StartError(t, q).None?
    ensures Moves(t, StartRecovery(t, q))
  {
    ReconcileMoves(t, q.host, q.at);
    var t1 := Reconcile(t, q.host, q.at);
    FileRequestMoves(t1, NewRecovery(t.claims[q.host], q), q.token);
    MovesTransitive(t, t1, StartRecovery(t, q));
  }

  lemma ReadMoves(t: Tables, f: Finalization, latest: Option<TokenHash>)
    requires IsLatest(t, f.host, latest) && FinalizeRead(t, f, latest).Replied?
    ensures Moves(t, FinalizeRead(t, f, latest).tables)
  {
    ReadReplies(t, f, latest);
    ReconcileMoves(t, f.host, f.at);
    CloseMoves(t, PendingIds(t, f.host), f.host, Invalidated, InvalidatedEvent, Owner(t, f.host), f.at);
  }

  lemma LeaseMoves(t: Tables, ids: set<TokenHash>, at: Time)
    ensures Moves(t, Lease(t, ids, at))
  {
  }

  lemma DeliverMoves(t: Tables, ids: set<TokenHash>, host: Host, requester: Did, o: DeliveryReport)
    ensures Moves(t, Deliver(t, ids, host, requester, o))
  {
  }

  lemma ReserveMoves(t: Tables, host: Host, requester: Did, at: Time, retryAfter: Time)
    ensures Moves(t, Reserve(t, host, requester, at, retryAfter))
  {
    ReconcileMoves(t, host, at);
    var t1 := Reconcile(t, host, at);
    LeaseMoves(t1, LeaseIds(t1, host, requester, at, retryAfter), at);
    MovesTransitive(t, t1, Reserve(t, host, requester, at, retryAfter));
  }

  lemma RecordMoves(t: Tables, host: Host, requester: Did, o: DeliveryReport)
    ensures Moves(t, Record(t, host, requester, o))
  {
    ReconcileMoves(t, host, o.attemptedAt);
    var t1 := Reconcile(t, host, o.attemptedAt);
    DeliverMoves(t1, RecordIds(t1, host, requester, o), host, requester, o);
    MovesTransitive(t, t1, Record(t, host, requester, o));
  }

  lemma WriteMoves(t: Tables, s: Snapshot)
    requires FinalizeWrite(t, s).Commit?
    ensures Moves(t, FinalizeWrite(t, s).tables)
  {
    hide Moves, Complete, CompleteError, FinalizeReplay, ViewOf;
    MovesReflexive(t);
    if MovesOwner(t, s) { CompleteMoves(t, s); }
  }

  lemma MovesReflexive(t: Tables)
    ensures Moves(t, t)
  {
  }

  lemma CompleteMoves(t: Tables, s: Snapshot)
    requires MovesOwner(t, s)
    ensures Moves(t, Complete(t, s))
  {
    hide ResetLinks, ClaimHost, ResetProfile;
  }

  lemma RefreshMoves(t: Tables, f: Refresh)
    requires RefreshError(t, f).None?
    ensures Moves(t, RefreshOwner(t, f))
  {
  }

  lemma EmailMoves(t: Tables, w: EmailWrite)
    requires EmailClaimError(t, w).None?
    ensures Moves(t, EmailClaim(t, w))
  {
  }

  lemma OwnershipStepMoves(s: Sys, a: Action)
    requires a.Issue? || a.OtherWrites? || a.WriteDnsClaim? || a.RefreshClaim? || a.ClaimByEmail?
    ensures Moves(s.tables, Step(s, a).tables)
  {
    var t := s.tables;
    match a
    case WriteDnsClaim(worker) =>
      if Claiming(s, a) && DnsClaimError(t, s.open[worker].w).None? { DnsClaimMoves(t, s.open[worker].w); }
    case RefreshClaim(f) => if RefreshError(t, f).None? { RefreshMoves(t, f); }
    case ClaimByEmail(w) => if EmailClaimError(t, w).None? { EmailMoves(t, w); }
    case _ =>
  }

  lemma RecoveryStepMoves(s: Sys, a: Action)
    requires a.RequestRecovery? || a.ReadFinalization? || a.WriteFinalization?
    ensures Moves(s.tables, Step(s, a).tables)
  {
    var t := s.tables;
    match a
    case RequestRecovery(q) => if StartError(t, q).None? { StartMoves(t, q); }
    case ReadFinalization(_, f, latest) =>
      if IsLatest(t, f.host, latest) && FinalizeRead(t, f, latest).Replied? { ReadMoves(t, f, latest); }
    case WriteFinalization(worker) =>
      if Finalizing(s, a) && FinalizeWrite(t, s.open[worker].s).Commit? { WriteMoves(t, s.open[worker].s); }
  }

  lemma StepMoves(s: Sys, a: Action)
    ensures Moves(s.tables, Step(s, a).tables)
  {
    match a
    case ReadDnsClaim(_, _, _, _) =>
    case ExpireHost(host, at) => ReconcileMoves(s.tables, host, at);
    case ReconcileHost(host, at) => ReconcileMoves(s.tables, host, at);
    case ReserveNotice(host, requester, at, retryAfter) => ReserveMoves(s.tables, host, requester, Max(0, at),
                                                                        Max(1, retryAfter));
    case RecordNotice(host, requester, o) => RecordMoves(s.tables, host, requester, o);
    case RequestRecovery(_) => RecoveryStepMoves(s, a);
    case ReadFinalization(_, _, _) => RecoveryStepMoves(s, a);
    case WriteFinalization(_) => RecoveryStepMoves(s, a);
    case _ => OwnershipStepMoves(s, a);
  }

  // ---------------------------------------------------------------- the invariant over runs

  ghost predicate WorkOk(t: Tables, work: Work) {
    match work
    case FinalizeWork(s) => SnapshotOk(t, s)
    case ClaimWork(w) =>
      && w.claim.updatedAt == w.at
      && (w.transfer.Some? ==> IsTransfer(w) && w.transfer.value.previousUpdatedAt < w.at
                               && w.transfer.value.host == w.host)
  }

  ghost predicate SysInv(s: Sys) {
    Inv(s.tables) && forall w :: w in s.open ==> WorkOk(s.tables, s.open[w])
  }

  lemma WorkStable(t: Tables, t': Tables, work: Work)
    requires WorkOk(t, work) && Moves(t, t')
    ensures WorkOk(t', work)
  {
  }

  lemma RecoveryStepKeepsTables(s: Sys, a: Action)
    requires SysInv(s) && (a.RequestRecovery? || a.ReadFinalization? || a.WriteFinalization?)
    ensures Inv(Step(s, a).tables)
  {
    hide Inv, WorkOk, Reconcile, StartError, StartRecovery, FinalizeRead, FinalizeWrite;
    var t := s.tables;
    match a
    case RequestRecovery(q) => if StartError(t, q).None? { StartKeepsInv(t, q); }
    case ReadFinalization(_, f, latest) =>
      if IsLatest(t, f.host, latest) && FinalizeRead(t, f, latest).Replied? { ReadKeepsInv(t, f, latest); }
    case WriteFinalization(worker) =>
      if Finalizing(s, a) && FinalizeWrite(t, s.open[worker].s).Commit? {
        HeldSnapshot(t, s.open[worker]);
        WriteKeepsInv(t, s.open[worker].s);
      }
  }

  lemma HeldSnapshot(t: Tables, work: Work)
    requires WorkOk(t, work) && work.FinalizeWork?
    ensures SnapshotOk(t, work.s)
  {
  }

  lemma HousekeepingKeepsTables(s: Sys, a: Action)
    requires SysInv(s) && (a.ExpireHost? || a.ReconcileHost? || a.ReserveNotice? || a.RecordNotice?)
    ensures Inv(Step(s, a).tables)
  {
    var t := s.tables;
    match a
    case ExpireHost(host, at) => ExpireKeepsInv(t, host, at);
    case ReconcileHost(host, at) => ReconcileKeepsInv(t, host, at);
    case ReserveNotice(host, requester, at, retryAfter) => ReserveKeepsInv(t, host, requester, Max(0, at),
                                                                           Max(1, retryAfter));
    case RecordNotice(host, requester, o) => RecordKeepsInv(t, host, requester, o);
  }

  lemma StepKeepsTables(s: Sys, a: Action)
    requires SysInv(s)
    ensures Inv(Step(s, a).tables)
  {
    hide Inv, Step;
    match a
    case ReadDnsClaim(_, _, _, _) => ReadLeavesTables(s, a);
    case RequestRecovery(_) => RecoveryStepKeepsTables(s, a);
    case ReadFinalization(_, _, _) => RecoveryStepKeepsTables(s, a);
    case WriteFinalization(_) => RecoveryStepKeepsTables(s, a);
    case ExpireHost(_, _) => HousekeepingKeepsTables(s, a);
    case ReconcileHost(_, _) => HousekeepingKeepsTables(s, a);
    case ReserveNotice(_, _, _, _) => HousekeepingKeepsTables(s, a);
    case RecordNotice(_, _, _) => HousekeepingKeepsTables(s, a);
    case _ => OwnershipStepKeepsTables(s, a);
  }

  lemma ReadLeavesTables(s: Sys, a: Action)
    requires a.ReadDnsClaim?
    ensures Step(s, a).tables == s.tables
  {
  }

  lemma OwnershipStepKeepsTables(s: Sys, a: Action)
    requires SysInv(s) && (a.Issue? || a.OtherWrites? || a.WriteDnsClaim? || a.RefreshClaim? || a.ClaimByEmail?)
    ensures Inv(Step(s, a).tables)
  {
    hide Inv, WorkOk, DnsClaim, DnsClaimError, RefreshOwner, RefreshError, EmailClaim, EmailClaimError;
    var t := s.tables;
    match a
    case Issue(token, c) => FrameKeepsInv(t, TablesAfter(s, a));
    case OtherWrites(_, _) => FrameKeepsInv(t, TablesAfter(s, a));
    case WriteDnsClaim(worker) =>
      if Claiming(s, a) && DnsClaimError(t, s.open[worker].w).None? { DnsClaimKeepsInv(t, s.open[worker].w); }
    case RefreshClaim(f) => if RefreshError(t, f).None? { RefreshKeepsInv(t, f); }
    case ClaimByEmail(w) => if EmailClaimError(t, w).None? { EmailClaimKeepsInv(t, w); }
  }

  lemma StepKeepsWork(s: Sys, a: Action)
    requires forall w :: w in s.open ==> WorkOk(s.tables, s.open[w])
    ensures forall w :: w in Step(s, a).open ==> WorkOk(Step(s, a).tables, Step(s, a).open[w])
  {
    StepMoves(s, a);
    var open := OpenAfter(s, a);
    forall w | w in open ensures WorkOk(Step(s, a).tables, open[w]) {
      if a.ReadFinalization? && w == a.worker && (w !in s.open || open[w] != s.open[w]) {
        ReadEstablishesSnapshot(s.tables, a.fin, a.latest);
      } else if w in s.open && open[w] == s.open[w] {
        WorkStable(s.tables, Step(s, a).tables, s.open[w]);
      }
    }
  }

  lemma StepKeepsInv(s: Sys, a: Action)
    requires SysInv(s)
    ensures SysInv(Step(s, a))
  {
    StepKeepsTables(s, a);
    StepKeepsWork(s, a);
  }

  /** Every reachable state satisfies the invariant. */
  lemma {:induction false} RunKeepsInv(trace: seq<Sys>, acts: seq<Action>, i: nat)
    requires Run(trace, acts) && i < |trace|
    ensures SysInv(trace[i])
  {
    if i == 0 {
      EmptyInv();
    } else {
      RunKeepsInv(trace, acts, i - 1);
      StepKeepsInv(trace[i - 1], acts[i - 1]);
    }
  }

  lemma {:induction false} RunMoves(trace: seq<Sys>, acts: seq<Action>, i: nat, j: nat)
    requires Run(trace, acts) && i <= j < |trace|
    ensures Moves(trace[i].tables, trace[j].tables)
    decreases j
  {
    if i < j {
      RunMoves(trace, acts, i, j - 1);
      StepMoves(trace[j - 1], acts[j - 1]);
      MovesTransitive(trace[i].tables, trace[j - 1].tables, trace[j].tables);
    }
  }
}
