/** Runs that show where a promise of the ownership protocol ends. */
module AccountHostWitnesses {
  import opened Wrappers
  import opened AccountHostTables
  import opened AccountHostTransactions
  import opened AccountHostInvariant
  import opened AccountHostRuns
  import opened AccountHostOwnership
  import opened AccountHostRecovery
  import opened AccountHostProgress

  // ---------------------------------------------------------------- from nothing to a pending recovery

  /** An e-mail proof and a claim made with it. */
  predicate FitsEmail(w: EmailWrite, c: Challenge) {
    && w.claim.how.ContactEmail? && StartsWith("pds-contact-email-v2.", w.binding)
    && c == Challenge(w.host, w.claim.did, w.fingerprint, Some(w.binding), w.requestedAt, w.expiresAt, None)
    && w.at <= c.expiresAt
  }

  /** A DNS proof and a request made with it against that claim. */
  predicate FitsRequest(w: EmailWrite, q: RecoveryRequest, c: Challenge) {
    && q.host == w.host && q.previous == w.claim && q.did != w.claim.did && q.token != w.token
    && c.host == q.host && c.did == q.did && c.consumedAt.None? && q.at <= c.expiresAt
  }

  function RequestRun(w: EmailWrite, c: Challenge, q: RecoveryRequest, c': Challenge, row: HostRow): seq<Action> {
    ([OtherWrites(map[w.host := row], map[]), Issue(w.token, c)] + [ClaimByEmail(w)]) + [Issue(q.token, c')]
    + [RequestRecovery(q)]
  }

  lemma IssueStep(acts: seq<Action>, token: TokenHash, c: Challenge)
    requires token !in StateAfter(acts).tables.challenges && c.consumedAt.None?
    ensures var s := StateAfter(acts);
            StateAfter(acts + [Issue(token, c)]) == s.(tables :=
                                                             s.tables.(challenges := s.tables.challenges[token := c]))
  {
    OneMore(acts, Issue(token, c));
  }

  lemma AfterIssue(w: EmailWrite, c: Challenge, row: HostRow)
    requires FitsEmail(w, c)
    ensures StateAfter([OtherWrites(map[w.host := row], map[]), Issue(w.token, c)]) ==
            Sys(EMPTY.(hosts := map[w.host := row], challenges := map[w.token := c]), map[])
  {
    var a, b := OtherWrites(map[w.host := row], map[]), Issue(w.token, c);
    OneMore([], a);
    OneMore([a], b);
    assert [] + [a] == [a] && [a] + [b] == [a, b];
  }

  lemma AfterClaim(w: EmailWrite, c: Challenge, row: HostRow) returns (t: Tables)
    requires FitsEmail(w, c)
    ensures StateAfter([OtherWrites(map[w.host := row], map[]), Issue(w.token, c)] + [ClaimByEmail(w)]) == Sys(t, map[])
    ensures t.claims == map[w.host := w.claim] && w.host in t.hosts && t.recoveries == map[]
            && t.challenges.Keys == {w.token}
    ensures t.transfers == map[]
  {
    var acts := [OtherWrites(map[w.host := row], map[]), Issue(w.token, c)];
    AfterIssue(w, c, row);
    StateAfterInv(acts);
    OneMore(acts, ClaimByEmail(w));
    EmailClaimSucceeds(StateAfter(acts).tables, w);
    t := EmailClaim(StateAfter(acts).tables, w);
  }

  /** The request is pending, alone, about the live claim, and the clock is inside its window. */
  predicate PendingAlone(t: Tables, host: Host, id: TokenHash, at: Time) {
    PendingIds(t, host) == {id} && t.recoveries[id].expiresAt > at && LiveMatch(t, id)
  }

  /** Every e-mail claim and every request that fit together are a run, which leaves the request pending. */
  lemma RequestRunReaches(w: EmailWrite, c: Challenge, q: RecoveryRequest, c': Challenge, row: HostRow)
    requires FitsEmail(w, c) && FitsRequest(w, q, c')
    ensures var t := StateAfter(RequestRun(w, c, q, c', row)).tables;
            && PendingIds(t, q.host) == {q.token} && t.recoveries[q.token] == NewRecovery(w.claim, q)
            && PendingAlone(t, q.host, q.token, q.at)
  {
    var acts := [OtherWrites(map[w.host := row], map[]), Issue(w.token, c)] + [ClaimByEmail(w)];
    var t := AfterClaim(w, c, row);
    hide FitsEmail, StateAfter, StartRecovery, StartError, PendingAlone, PendingIds, Inv, IsLatest, Step;
    IssueStep(acts, q.token, c');
    var t' := t.(challenges := t.challenges[q.token := c']);
    StateAfterInv(acts + [Issue(q.token, c')]);
    OneMore(acts + [Issue(q.token, c')], RequestRecovery(q));
    RequestSucceeds(t', q);
    FiledBySteps(Sys(t', map[]), q);
    FiledIsAlone(StartRecovery(t', q), w.claim, q);
  }

  lemma FiledBySteps(s: Sys, q: RecoveryRequest)
    requires StartError(s.tables, q).None?
    ensures Step(s, RequestRecovery(q)) == Sys(StartRecovery(s.tables, q), s.open)
  {
  }

  lemma FiledIsAlone(t: Tables, c: Claim, q: RecoveryRequest)
    requires q.host in t.claims && t.claims[q.host] == c && c.how.ContactEmail?
    requires PendingIds(t, q.host) == {q.token} && q.token in t.recoveries && t.recoveries[q.token] == NewRecovery(c, q)
    ensures PendingAlone(t, q.host, q.token, q.at)
  {
  }

  // ---------------------------------------------------------------- the notification of a pending recovery

  lemma ReconcileAlone(t: Tables, host: Host, id: TokenHash, at: Time)
    requires PendingAlone(t, host, id, at)
    ensures Reconcile(t, host, at).recoveries == t.recoveries && Reconcile(t, host, at).claims == t.claims
    ensures PendingIds(Reconcile(t, host, at), host) == {id}
  {
    assert StaleIds(t, host, at) == {};
    NothingToReconcile(t, host, at, id);
    ReconcileFrame(t, host, at);
  }

  /** Updating the delivery columns of the pending row leaves it pending, alone. */
  lemma StillAlone(t: Tables, t': Tables, host: Host, id: TokenHash, r: Recovery, at: Time)
    requires PendingIds(t, host) == {id} && t'.recoveries == t.recoveries[id := r] && t'.claims == t.claims
    requires SameState(t.recoveries[id], r) && LiveMatch(t, id) && at < r.expiresAt
    ensures PendingAlone(t', host, id, at)
  {
    assert id in PendingIds(t, host);
    forall j ensures j in PendingIds(t', host) <==> j == id {
      assert j in PendingIds(t, host) <==> j == id;
    }
  }

  lemma LeaseOne(t: Tables, id: TokenHash, at: Time)
    requires id in t.recoveries
    ensures Lease(t, {id}, at).recoveries == t.recoveries[id := t.recoveries[id].(attemptedAt := Some(at))]
  {
  }

  lemma ReserveAlone(t: Tables, host: Host, id: TokenHash, at: Time, retryAfter: Time)
    requires PendingAlone(t, host, id, at)
    requires var r := t.recoveries[id];
             && (r.delivery.Waiting? || r.delivery.Failed?)
             && (r.attemptedAt.None? || r.attemptedAt.value <= Max(0, at - retryAfter))
    ensures LeaseIds(Reconcile(t, host, at), host, t.recoveries[id].requester, at, retryAfter) == {id}
    ensures var t' := Reserve(t, host, t.recoveries[id].requester, at, retryAfter);
            && t'.recoveries == t.recoveries[id := t.recoveries[id].(attemptedAt := Some(at))]
            && PendingAlone(t', host, id, at)
  {
    ReconcileAlone(t, host, id, at);
    hide Reconcile, Matches, StaleIds, PendingIds;
    var t1 := Reconcile(t, host, at);
    assert LeaseIds(t1, host, t.recoveries[id].requester, at, retryAfter) == {id};
    LeaseOne(t1, id, at);
    StillAlone(t, Lease(t1, {id}, at), host, id, t.recoveries[id].(attemptedAt := Some(at)), at);
  }

  lemma DeliverOne(t: Tables, id: TokenHash, host: Host, requester: Did, o: DeliveryReport)
    requires id in t.recoveries
    ensures Deliver(t, {id}, host, requester, o).recoveries ==
            t.recoveries[id := t.recoveries[id].(delivery := o.outcome, deliveryId := o.deliveryId,
                                                 deliveryFingerprint := o.fingerprint)]
  {
    hide AddAudit;
  }

  lemma RecordAlone(t: Tables, host: Host, id: TokenHash, o: DeliveryReport)
    requires PendingAlone(t, host, id, o.attemptedAt) && t.recoveries[id].attemptedAt == Some(o.attemptedAt)
    requires !t.recoveries[id].delivery.Sent? && t.recoveries[id].delivery != o.outcome
    ensures var t' := Record(t, host, t.recoveries[id].requester, o);
            && t'.recoveries == t.recoveries[id := t.recoveries[id].(delivery := o.outcome, deliveryId := o.deliveryId,
                                                                     deliveryFingerprint := o.fingerprint)]
            && PendingAlone(t', host, id, o.attemptedAt)
  {
    ReconcileAlone(t, host, id, o.attemptedAt);
    hide Reconcile, AddAudit, Matches, StaleIds, PendingIds;
    var t1 := Reconcile(t, host, o.attemptedAt);
    var requester := t.recoveries[id].requester;
    assert RecordIds(t1, host, requester, o) == {id};
    DeliverOne(t1, id, host, requester, o);
    var t' := Deliver(t1, {id}, host, requester, o);
    StillAlone(t, t', host, id, t'.recoveries[id], o.attemptedAt);
  }

  /** In any state: the holder of the lease can turn `unavailable` into `failed`, and the row, which nobody could
      lease, can be leased again. */
  lemma UnavailableReopens(t: Tables, host: Host, id: TokenHash, at: Time, later: Time, retryAfter: Time)
    requires PendingAlone(t, host, id, at) && t.recoveries[id].delivery.Unavailable?
             && t.recoveries[id].attemptedAt == Some(at)
    requires at <= Max(0, later - retryAfter) && later < t.recoveries[id].expiresAt
    ensures var t' := Record(t, host, t.recoveries[id].requester, DeliveryReport(Failed, at, None, None));
            && t'.recoveries.Keys == t.recoveries.Keys && t'.recoveries[id].delivery.Failed?
            && LeaseIds(Reconcile(t, host, later), host, t.recoveries[id].requester, later, retryAfter) == {}
            && LeaseIds(Reconcile(t', host, later), host, t.recoveries[id].requester, later, retryAfter) == {id}
  {
    RecordAlone(t, host, id, DeliveryReport(Failed, at, None, None));
    hide Reconcile, Record, Matches, PendingIds, StaleIds, LeaseIds;
    var t' := Record(t, host, t.recoveries[id].requester, DeliveryReport(Failed, at, None, None));
    ReserveAlone(t', host, id, later, retryAfter);
    UnavailableIsNotLeased(t, host, id, later, retryAfter);
  }

  lemma UnavailableIsNotLeased(t: Tables, host: Host, id: TokenHash, at: Time, retryAfter: Time)
    requires PendingAlone(t, host, id, at) && t.recoveries[id].delivery.Unavailable?
    ensures LeaseIds(Reconcile(t, host, at), host, t.recoveries[id].requester, at, retryAfter) == {}
  {
    ReconcileAlone(t, host, id, at);
    hide Reconcile, PendingIds, StaleIds;
  }

  function LeaseNotice(q: RecoveryRequest, at: Time, retryAfter: Time): Action {
    ReserveNotice(q.host, q.did, at, retryAfter)
  }

  function ReportNotice(q: RecoveryRequest, at: Time, outcome: Reported): Action {
    RecordNotice(q.host, q.did, DeliveryReport(outcome, at, None, None))
  }

  /** The run so far has left the request pending, and its mailbox unavailable under the lease taken at `at`. */
  ghost predicate LeftUnavailable(acts: seq<Action>, q: RecoveryRequest, at: Time) {
    var t := StateAfter(acts).tables;
    && PendingAlone(t, q.host, q.token, at) && t.recoveries[q.token].requester == q.did
    && t.recoveries[q.token].delivery.Unavailable? && t.recoveries[q.token].attemptedAt == Some(at)
    && t.recoveries[q.token].expiresAt == q.at + COOLDOWN_MS + FINALIZE_WINDOW_MS
  }

  lemma LeaseAndReport(acts: seq<Action>, c: Claim, q: RecoveryRequest, retryAfter: Time)
    requires PendingAlone(StateAfter(acts).tables, q.host, q.token, q.at) && q.at >= 0 && retryAfter >= 1
    requires StateAfter(acts).tables.recoveries[q.token] == NewRecovery(c, q)
    ensures LeftUnavailable(acts + [LeaseNotice(q, q.at, retryAfter)] + [ReportNotice(q, q.at, Unavailable)], q, q.at)
  {
    hide Reconcile, Record, Reserve, LeaseIds, RecordIds, PendingAlone, StateAfter, LiveMatch, PendingIds;
    var t := StateAfter(acts).tables;
    var lease, gone := LeaseNotice(q, q.at, retryAfter), ReportNotice(q, q.at, Unavailable);
    OneMore(acts, lease);
    ReserveAlone(t, q.host, q.token, q.at, retryAfter);
    var t1 := Reserve(t, q.host, q.did, q.at, retryAfter);
    assert StateAfter(acts + [lease]).tables == t1;
    OneMore(acts + [lease], gone);
    RecordAlone(t1, q.host, q.token, gone.report);
    assert StateAfter(acts + [lease] + [gone]).tables == Record(t1, q.host, q.did, gone.report);
  }

  lemma FailedReopens(acts: seq<Action>, q: RecoveryRequest, later: Time, retryAfter: Time)
    requires LeftUnavailable(acts, q, q.at) && q.at >= 0 && retryAfter >= 1
    requires q.at + retryAfter <= later < q.at + COOLDOWN_MS + FINALIZE_WINDOW_MS
    ensures var s, s' := StateAfter(acts), StateAfter(acts + [ReportNotice(q, q.at, Failed)]);
            && q.token in s.tables.recoveries && s.tables.recoveries[q.token].delivery.Unavailable?
            && q.token in s'.tables.recoveries && s'.tables.recoveries[q.token].delivery.Failed?
            && !Leases(s, LeaseNotice(q, later, retryAfter), q.token)
            && Leases(s', LeaseNotice(q, later, retryAfter), q.token)
  {
    hide Reconcile, Record, LeaseIds, RecordIds;
    OneMore(acts, ReportNotice(q, q.at, Failed));
    UnavailableReopens(StateAfter(acts).tables, q.host, q.token, q.at, later, retryAfter);
  }

  /** The comment in the source calls `unavailable` terminal.  Every fitting claim and request are the beginning of
      a run in which it is not: reserve, report `unavailable`, report `failed`; only then can the row be leased
      again. */
  lemma UnavailableIsNotTerminal(w: EmailWrite, c: Challenge, q: RecoveryRequest, c': Challenge, row: HostRow,
                                 later: Time, retryAfter: Time)
    returns (acts: seq<Action>, n: nat)
    requires FitsEmail(w, c) && FitsRequest(w, q, c') && q.at >= 0 && retryAfter >= 1
    requires q.at + retryAfter <= later < q.at + COOLDOWN_MS + FINALIZE_WINDOW_MS
    ensures n + 1 == |acts| && acts[n] == ReportNotice(q, q.at, Failed) && Run(TraceOf(acts), acts)
    ensures var s, s' := TraceOf(acts)[n], TraceOf(acts)[n + 1];
            && q.token in s.tables.recoveries && s.tables.recoveries[q.token].delivery.Unavailable?
            && q.token in s'.tables.recoveries && s'.tables.recoveries[q.token].delivery.Failed?
            && !Leases(s, LeaseNotice(q, later, retryAfter), q.token)
            && Leases(s', LeaseNotice(q, later, retryAfter), q.token)
  {
    hide RequestRun, FitsEmail, FitsRequest, PendingAlone, LeftUnavailable, StateAfter, Leases, Run;
    var acts0 := RequestRun(w, c, q, c', row);
    RequestRunReaches(w, c, q, c', row);
    LeaseAndReport(acts0, w.claim, q, retryAfter);
    var acts1 := acts0 + [LeaseNotice(q, q.at, retryAfter)] + [ReportNotice(q, q.at, Unavailable)];
    FailedReopens(acts1, q, later, retryAfter);
    acts, n := acts1 + [ReportNotice(q, q.at, Failed)], |acts1|;
    TraceOfRuns(acts);
    assert acts[..n] == acts1 && acts[..n + 1] == acts;
  }

  /** The lease at time zero does not hold: every fitting claim and request of that time begin a run in which the row
      is leased at zero and leased again at any later reading inside the lease period. */
  lemma LeasedTwiceInOnePeriod(w: EmailWrite, c: Challenge, q: RecoveryRequest, c': Challenge, row: HostRow,
                               later: Time, retryAfter: Time)
    returns (acts: seq<Action>, i: nat, j: nat)
    requires FitsEmail(w, c) && FitsRequest(w, q, c') && q.at == 0
    requires 0 <= later < retryAfter && later < COOLDOWN_MS + FINALIZE_WINDOW_MS
    ensures i < j < |acts| && Run(TraceOf(acts), acts)
    ensures acts[i] == LeaseNotice(q, 0, retryAfter) && Leases(TraceOf(acts)[i], acts[i], q.token)
    ensures acts[j] == LeaseNotice(q, later, retryAfter) && Leases(TraceOf(acts)[j], acts[j], q.token)
  {
    hide RequestRun, FitsEmail, FitsRequest, LiveMatch, PendingIds, StateAfter, Run, Reconcile, Reserve, LeaseIds;
    var acts0 := RequestRun(w, c, q, c', row);
    var t := StateAfter(acts0).tables;
    RequestRunReaches(w, c, q, c', row);
    var first, second := LeaseNotice(q, 0, retryAfter), LeaseNotice(q, later, retryAfter);
    OneMore(acts0, first);
    ReserveAlone(t, q.host, q.token, 0, retryAfter);
    ReserveAlone(Reserve(t, q.host, q.did, 0, retryAfter), q.host, q.token, later, retryAfter);
    acts, i, j := acts0 + [first] + [second], |acts0|, |acts0| + 1;
    TraceOfRuns(acts);
    assert acts[..i] == acts0 && acts[..j] == acts0 + [first];
  }

  /** Such claims and requests exist, at every reading of the clock. */
  lemma FittingExist(at: Time)
    ensures var claim := Claim(2, [], ContactEmail, at, at, at);
            var binding := "pds-contact-email-v2.";
            var w := EmailWrite(1, 5, [], binding, at, at + 100, None, claim, [], 2, None, at);
            && FitsEmail(w, Challenge(1, 2, [], Some(binding), at, at + 100, None))
            && FitsRequest(w, RecoveryRequest(1, 7, claim, 3, [], at),
                           Challenge(1, 3, "dns-v1:", None, at, at + 500, None))
  {
  }

  // ---------------------------------------------------------------- a backdated refresh

  /** Two accounts that pass one host to and fro, all at one reading of the clock. */
  datatype Exchange = Exchange(host: Host, row: HostRow, a: Did, b: Did, clock: Time)

  /** The proofs of account `a` have odd tokens, those of account `b` even ones. */
  function ProofOf(p: Exchange, token: TokenHash): Challenge {
    Challenge(p.host, if token % 2 == 1 then p.a else p.b, "dns-v1:", None, p.clock, p.clock + 1000, None)
  }

  /** A request with one of those proofs, under an intent signed at the clock's reading for the row it saw. */
  function Asks(p: Exchange, token: TokenHash, seen: Option<Claim>): DnsRequest {
    DnsRequest(p.host, ProofOf(p, token).did, [], token, [], ProofOf(p, token).did, None,
               if seen.None? then None
               else Some(Intent(token, p.host, seen.value.did, seen.value.updatedAt, p.clock, p.clock + 900)))
  }

  function Refreshes(p: Exchange): Refresh {
    Refresh(p.host, Claim(p.a, [], AtprotoHandle, p.clock, p.clock, p.clock), [], p.a, None, p.clock)
  }

  /** Nothing is under way, the host has this claim, and the tokens from `next` on are as issued. */
  ghost predicate Stage(s: Sys, p: Exchange, claim: Option<Claim>, next: nat) {
    && s.open == map[] && p.host in s.tables.hosts
    && claim == (if p.host in s.tables.claims then Some(s.tables.claims[p.host]) else None)
    && (forall j :: j in s.tables.transfers ==> j < next)
    && (forall k :: next <= k < 5 ==> k in s.tables.challenges && s.tables.challenges[k] == ProofOf(p, k))
  }

  /** The read phase of a claim and its write phase, with nothing in between. */
  lemma ReadThenWrite(s: Sys, q: DnsRequest, owner: Option<Did>, now: Time)
    requires s.open == map[] && PrepareDns(s.tables, q, owner, now).Some?
    ensures var w := PrepareDns(s.tables, q, owner, now).value;
            var s' := Step(s, ReadDnsClaim(0, q, owner, now));
            && s' == Sys(s.tables, map[0 := ClaimWork(w)]) && Claiming(s', WriteDnsClaim(0))
            && (DnsClaimError(s.tables, w).None? ==> Step(s', WriteDnsClaim(0)) == Sys(DnsClaim(s.tables, w), map[]))
  {
    hide PrepareDns, DnsClaim, DnsClaimError;
    assert map[0 := ClaimWork(PrepareDns(s.tables, q, owner, now).value)] - {0} == map[];
  }

  lemma DnsClaimWrites(t: Tables, w: DnsWrite)
    requires DnsClaimError(t, w).None?
    ensures var t' := DnsClaim(t, w);
            && t'.challenges == Spend(t.challenges, w.token, w.at) && t'.hosts.Keys == t.hosts.Keys
            && w.host in t'.claims && (IsTransfer(w) || w.host !in t.claims ==> t'.claims[w.host] == w.claim)
            && (forall j :: j in t'.transfers ==> j in t.transfers || (w.transfer.Some? && j == w.transfer.value.jti))
  {
    hide Assign, Close, ClaimHost, ResetProfile, ResetLinks;
    AssignWrites(t, w);
    CloseLeaves(Assign(t, w), PendingIds(Assign(t, w), w.host), w.host, w.at, w.claim.did);
  }

  lemma AssignWrites(t: Tables, w: DnsWrite)
    requires AssignError(t, w).None?
    ensures var t' := Assign(t, w);
            && t'.challenges == Spend(t.challenges, w.token, w.at) && t'.hosts == t.hosts
            && w.host in t'.claims && (IsTransfer(w) || w.host !in t.claims ==> t'.claims[w.host] == w.claim)
            && (forall j :: j in t'.transfers ==> j in t.transfers || (w.transfer.Some? && j == w.transfer.value.jti))
  {
  }

  lemma CloseLeaves(t: Tables, ids: set<TokenHash>, host: Host, at: Time, did: Did)
    ensures var t' := Close(t, ids, host, Invalidated, InvalidatedEvent, Some(did), at);
            && t'.challenges == t.challenges && t'.claims == t.claims && t'.hosts == t.hosts
            && t'.transfers == t.transfers && t'.links == t.links
  {
    hide CloseRows, AddAudit;
  }

  /** The claim that the owner of the next proof comes to hold, one millisecond after the last one it takes over. */
  function Taken(p: Exchange, token: TokenHash, seen: Option<Claim>): Claim {
    var at := if seen.Some? then Max(p.clock, seen.value.updatedAt + 1) else p.clock;
    Claim(ProofOf(p, token).did, [], DnsTxt, at, at, at)
  }

  function Take(p: Exchange, token: TokenHash, seen: Option<Claim>): seq<Action> {
    [ReadDnsClaim(0, Asks(p, token, seen), if seen.Some? then Some(seen.value.did) else None, p.clock),
     WriteDnsClaim(0)]
  }

  lemma TakeIsAllowed(t: Tables, p: Exchange, claim: Option<Claim>, token: TokenHash)
    requires Stage(Sys(t, map[]), p, claim, token) && token < 5
    requires claim.Some? ==> claim.value.did != ProofOf(p, token).did && claim.value.updatedAt < p.clock + 900
    ensures var w := PrepareDns(t, Asks(p, token, claim), if claim.Some? then Some(claim.value.did) else None, p.clock);
            && w.Some? && DnsClaimError(t, w.value).None? && w.value.claim == Taken(p, token, claim)
            && w.value.token == token
            && w.value.transfer == Asks(p, token, claim).transfer && w.value.host == p.host
  {
  }

  lemma TakeStep(acts: seq<Action>, p: Exchange, claim: Option<Claim>, token: TokenHash)
    requires Stage(StateAfter(acts), p, claim, token) && token < 5
    requires claim.Some? ==> claim.value.did != ProofOf(p, token).did && claim.value.updatedAt < p.clock + 900
    ensures var s := StateAfter(acts + Take(p, token, claim)[..1]);
            && Stage(StateAfter(acts + Take(p, token, claim)), p, Some(Taken(p, token, claim)), token + 1)
            && (claim.Some? ==> OwnerChanges(s, WriteDnsClaim(0), p.host)
                                && (s.tables.claims[p.host].did,
                                    s.tables.claims[p.host].updatedAt) == (claim.value.did, claim.value.updatedAt))
  {
    hide Step, StateAfter, PrepareDns, DnsClaim, DnsClaimError;
    var s := StateAfter(acts);
    var read, write := Take(p, token, claim)[0], WriteDnsClaim(0);
    assert acts + Take(p, token, claim)[..1] == acts + [read]
           && acts + Take(p, token, claim) == acts + [read] + [write];
    OneMore(acts, read);
    OneMore(acts + [read], write);
    TakeIsAllowed(s.tables, p, claim, token);
    ReadThenWrite(s, read.q, read.verifiedOwner, read.now);
    DnsClaimWrites(s.tables, PrepareDns(s.tables, read.q, read.verifiedOwner, read.now).value);
  }

  function Setup(p: Exchange): seq<Action> {
    [OtherWrites(map[p.host := p.row], map[])] + [Issue(1, ProofOf(p, 1))] + [Issue(2, ProofOf(p, 2))]
    + [Issue(3, ProofOf(p, 3))] + [Issue(4, ProofOf(p, 4))]
  }

  lemma StartState()
    ensures StateAfter([]) == START
  {
  }

  lemma FirstOfSetup(p: Exchange)
    ensures StateAfter([OtherWrites(map[p.host := p.row], map[])]) == Sys(EMPTY.(hosts := map[p.host := p.row]), map[])
  {
    hide StateAfter;
    var acts := [OtherWrites(map[p.host := p.row], map[])];
    OneMore([], acts[0]);
    StartState();
    assert [] + acts == acts;
  }

  lemma AfterSetup(p: Exchange)
    ensures Stage(StateAfter(Setup(p)), p, None, 1)
  {
    hide StateAfter, Step;
    var acts := [OtherWrites(map[p.host := p.row], map[])];
    FirstOfSetup(p);
    IssueStep(acts, 1, ProofOf(p, 1));
    IssueStep(acts + [Issue(1, ProofOf(p, 1))], 2, ProofOf(p, 2));
    IssueStep(acts + [Issue(1, ProofOf(p, 1))] + [Issue(2, ProofOf(p, 2))], 3, ProofOf(p, 3));
    IssueStep(acts + [Issue(1, ProofOf(p, 1))] + [Issue(2, ProofOf(p, 2))] + [Issue(3, ProofOf(p, 3))], 4,
              ProofOf(p, 4));
  }

  /** The owner's own refresh may carry the older reading of the clock. */
  lemma RefreshStep(acts: seq<Action>, p: Exchange, claim: Claim, next: nat)
    requires Stage(StateAfter(acts), p, Some(claim), next) && claim.did == p.a && p.clock < claim.updatedAt
    ensures BackdatedRefresh(StateAfter(acts), RefreshClaim(Refreshes(p)), p.host)
    ensures Stage(StateAfter(acts + [RefreshClaim(Refreshes(p))]), p,
                  Some(claim.(how := AtprotoHandle, verifiedAt := p.clock, updatedAt := p.clock, handle := [])), next)
  {
    hide StateAfter;
    OneMore(acts, RefreshClaim(Refreshes(p)));
  }

  /** Without the guard of `SnapshotUsedOnce` one snapshot can authorise two changes.  For any two accounts: `a`
      claims the host, `b` takes it over and `a` takes it back inside one millisecond, which pushes the row two
      ahead of the clock; a refresh of `a` moves it back; and `b` takes it over again. */
  lemma BackdatedRefreshReusesSnapshot(p: Exchange) returns (acts: seq<Action>, i: nat, k: nat, j: nat)
    requires p.a != p.b
    ensures i < k < j < |acts| && Run(TraceOf(acts), acts)
    ensures OwnerChanges(TraceOf(acts)[i], acts[i], p.host) && OwnerChanges(TraceOf(acts)[j], acts[j], p.host)
    ensures BackdatedRefresh(TraceOf(acts)[k], acts[k], p.host)
    ensures var c, c' := TraceOf(acts)[i].tables.claims[p.host], TraceOf(acts)[j].tables.claims[p.host];
            (c.did, c.updatedAt) == (c'.did, c'.updatedAt)
  {
    hide StateAfter, Stage, OwnerChanges, BackdatedRefresh, Run, Setup;
    AfterSetup(p);
    var c1 := Taken(p, 1, None);
    var c2 := Taken(p, 2, Some(c1));
    var c3 := Taken(p, 3, Some(c2));
    var c4 := c3.(how := AtprotoHandle, verifiedAt := p.clock, updatedAt := p.clock);
    var acts1 := Setup(p) + Take(p, 1, None);
    var acts2 := acts1 + Take(p, 2, Some(c1));
    var acts3 := acts2 + Take(p, 3, Some(c2));
    var acts4 := acts3 + [RefreshClaim(Refreshes(p))];
    acts := acts4 + Take(p, 4, Some(c4));
    TakeStep(Setup(p), p, None, 1);
    TakeStep(acts1, p, Some(c1), 2);
    TakeStep(acts2, p, Some(c2), 3);
    RefreshStep(acts3, p, c3, 4);
    TakeStep(acts4, p, Some(c4), 4);
    i, k, j := |acts1| + 1, |acts3|, |acts4| + 1;
    TraceOfRuns(acts);
    assert acts[..i] == acts1 + Take(p, 2, Some(c1))[..1] && acts[..k] == acts3
           && acts[..j] == acts4 + Take(p, 4, Some(c4))[..1];
  }
}
