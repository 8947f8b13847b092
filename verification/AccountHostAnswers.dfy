/** What each request is told, and by which facts of the rows: every refusal has its reason. */
module AccountHostAnswers {
  import opened Wrappers
  import opened AccountHostTables
  import opened AccountHostTransactions
  import opened AccountHostInvariant
  import opened AccountHostRuns
  import opened AccountHostOwnership
  import opened AccountHostRecovery
  import opened AccountHostProgress
  import Base64 = AppRecordFailures

  /** The reason a proof is refused: it is missing or of another host, of another account, spent, or too old. */
  predicate ProofRefused(cs: Challenges, token: TokenHash, host: Host, did: Did, at: Time, reason: Reason) {
    if token !in cs || cs[token].host != host then reason == BadProof
    else
      var c := cs[token];
      || (reason == AccountMismatch && c.did != did)
      || (reason == AlreadyUsed && c.did == did && c.consumedAt.Some?)
      || (reason == ProofExpired && c.did == did && c.consumedAt.None? && c.expiresAt < at)
  }

  /** A DNS claim or transfer at its write phase: the proof is looked at first, then the row, then the intent id. */
  lemma DnsClaimAnswers(t: Tables, w: DnsWrite)
    requires w.claim.how.DnsTxt?
    ensures var e := DnsClaimError(t, w);
            var held := w.host in t.claims;
            if !Spendable(t.challenges, w.token, w.host, w.claim.did, w.at)
            then e.Some? && ProofRefused(t.challenges, w.token, w.host, w.claim.did, w.at, e.value)
            else if IsTransfer(w) then
                var i := w.transfer.value;
                if !held || t.claims[w.host].did != i.previousDid || t.claims[w.host].updatedAt != i.previousUpdatedAt
                then e == Some(ClaimConflict)
                else e == if i.jti in t.transfers then Some(DuplicateKey)
                          else if w.host in t.hosts then None else Some(HostMissing)
              else if held && t.claims[w.host].did != w.claim.did then e == Some(ClaimConflict)
              else e == if w.host in t.hosts then None else Some(HostMissing)
  {
  }

  /** The challenge is the one that was mailed: all that was bound into it is as the request says. */
  predicate AsMailed(t: Tables, w: EmailWrite) {
    && w.token in t.challenges
    && var c := t.challenges[w.token];
    && (c.host, c.did, c.fingerprint) == (w.host, w.claim.did, w.fingerprint)
    && c.binding == Some(w.binding) && "pds-contact-email-v2." <= w.binding
    && (c.createdAt, c.expiresAt) == (w.requestedAt, w.expiresAt)
  }

  lemma EmailClaimAnswers(t: Tables, w: EmailWrite)
    requires Inv(t) && w.claim.how.ContactEmail?
    ensures var e := EmailClaimError(t, w);
            if !AsMailed(t, w) then e == Some(BadProof)
            else if t.challenges[w.token].consumedAt.Some? then e == Some(AlreadyUsed)
            else if t.challenges[w.token].expiresAt < w.at then e == Some(ProofExpired)
            else if w.host in t.claims then e == Some(ClaimConflict)
            else e == if w.host in t.hosts then None else Some(HostMissing)
  {
    hide OnePendingPerHost, OneCompletedPerHost, LedgerSound, LedgerComplete, OneEvidencePerHost;
    assert forall k :: k in t.evidence ==> EvidenceRowOk(k, t.evidence[k], t.claims, t.challenges);
  }

  /** The claim that was shown to the requester is the live e-mail claim of somebody else. */
  predicate ShownIsLive(t: Tables, q: RecoveryRequest) {
    && q.previous.how.ContactEmail? && q.previous.did != q.did && q.host in t.claims
    && t.claims[q.host].how.ContactEmail?
    && (t.claims[q.host].did, t.claims[q.host].updatedAt) == (q.previous.did, q.previous.updatedAt)
  }

  lemma RequestAnswers(t: Tables, q: RecoveryRequest)
    requires Inv(t)
    ensures var e := StartError(t, q);
            if !ShownIsLive(t, q) then e == Some(OwnerChanged)
            else if SomeoneIsWaiting(t, q.host, q.at) then e == Some(RecoveryChanged)
            else if Spendable(t.challenges, q.token, q.host, q.did, q.at) then e == None
            else e.Some? && ProofRefused(t.challenges, q.token, q.host, q.did, q.at, e.value)
  {
    hide Inv, Reconcile, PendingIds;
    if ShownIsLive(t, q) { NonePendingExactly(t, q.host, q.at); }
    if Spendable(t.challenges, q.token, q.host, q.did, q.at) { NewTokens(t, q.token); }
  }

  // ---------------------------------------------------------------- finalization

  /** What a caller is shown of a recovery. */
  predicate ShownAs(v: View, id: TokenHash, r: Recovery, status: Status, completedAt: Option<Time>) {
    && v.id == id && v.host == r.host && v.ownerDid == r.previousDid && v.requester == r.requester
    && v.createdAt == r.requestedAt && v.eligibleAt == r.eligibleAt && v.expiresAt == r.expiresAt
    && v.delivery == r.delivery && v.attemptedAt == r.attemptedAt
    && v.status == status && v.completedAt == completedAt
  }

  /** It is refused for this reason, shown as it is, and nothing changes. */
  predicate Refuses(o: Outcome<Reply>, t: Tables, id: TokenHash, reason: Reason)
    requires id in t.recoveries
  {
    && o.Commit? && o.tables == t && o.value.Refused? && o.value.reason == reason && o.value.shown.Some?
    && ShownAs(o.value.shown.value, id, t.recoveries[id], t.recoveries[id].status, t.recoveries[id].completedAt)
  }

  /** It is refused for this reason, and the row has been closed. */
  ghost predicate Closes(o: Outcome<Reply>, t: Tables, id: TokenHash, reason: Reason, status: Status, at: Time)
    requires id in t.recoveries
  {
    && o.Commit? && o.value.Refused? && o.value.reason == reason && o.value.shown.Some?
    && ShownAs(o.value.shown.value, id, t.recoveries[id], status, Some(at))
    && o.tables.recoveries == t.recoveries[id := t.recoveries[id].(status := status, completedAt := Some(at))]
    && (o.tables.claims, o.tables.challenges, o.tables.hosts) == (t.claims, t.challenges, t.hosts)
  }

  /** The proof that is brought was issued for this account after the cooldown, and has not expired. */
  predicate IssuedInTime(f: Finalization, r: Recovery) {
    && f.proof.host == f.host && f.proof.did == f.did
    && r.eligibleAt <= f.proof.createdAt <= f.at <= f.proof.expiresAt
  }

  /** It is stored as it is brought, as a DNS proof. */
  predicate StoredAsDns(t: Tables, f: Finalization) {
    && f.proof.token in t.challenges
    && var c := t.challenges[f.proof.token];
    && (c.host, c.did, c.fingerprint) == (f.host, f.did, f.proof.fingerprint) && "dns-v1:" <= c.fingerprint
    && c.binding.None? && (c.createdAt, c.expiresAt) == (f.proof.createdAt, f.proof.expiresAt)
  }

  /** Finalizing a pending row that is due: it is closed when its claim is gone, refused when the proof will not do,
      and otherwise completed. */
  ghost predicate AnswersPending(o: Outcome<Reply>, t: Tables, f: Finalization, id: TokenHash)
    requires id in t.recoveries && f.host in t.claims
  {
    var r := t.recoveries[id];
    if r.expiresAt <= f.at then Closes(o, t, id, WindowClosed, Expired, f.at)
    else if f.at < r.eligibleAt then Refuses(o, t, id, NotReady)
    else if !t.claims[f.host].how.ContactEmail? then Closes(o, t, id, OwnerChanged, Invalidated, f.at)
    else if !IssuedInTime(f, r) then Refuses(o, t, id, FreshDnsRequired)
    else if !StoredAsDns(t, f) then Refuses(o, t, id, BadProof)
    else if t.challenges[f.proof.token].consumedAt.Some? then Refuses(o, t, id, AlreadyUsed)
    else if f.host !in t.hosts then o == Abort(HostMissing)
    else Finishes(o, f.host, id, r.requester) && o.value.claim == NextClaim(f, t.claims[f.host])
         && ShownAs(o.value.recovery, id, r, Completed, Some(o.value.claim.updatedAt))
  }

  /** The claim a recovery leaves: the requester's, by DNS, later than the claim it replaces. */
  function NextClaim(f: Finalization, c: Claim): Claim {
    var at := if c.updatedAt < f.at then f.at else c.updatedAt + 1;
    Claim(f.did, f.handle, DnsTxt, at, at, at)
  }

  /** Every answer to a finalization that is read and written at one moment. */
  lemma FinalizationAnswers(t: Tables, f: Finalization, latest: Option<TokenHash>)
    requires Inv(t) && IsLatest(t, f.host, latest)
    ensures var o := Finalize(t, f, latest);
            if latest.None? then o == Commit(t, Refused(NotFound, None))
            else
              var id, r := latest.value, t.recoveries[latest.value];
              f.host in t.claims &&
              if r.requester != f.did then Refuses(o, t, id, NotRequester)
              else match r.status
                   case Expired => Refuses(o, t, id, WindowClosed)
                   case Invalidated => Refuses(o, t, id, OwnerChanged)
                   case Completed =>
                     if Holds(t, f.host, f.did) && r.finalToken == Some(f.proof.token)
                     then o.Commit? && o.tables == t && o.value.Ok? && o.value.claim == t.claims[f.host]
                          && ShownAs(o.value.recovery, id, r, Completed, r.completedAt)
                     else Refuses(o, t, id, OwnerChanged)
                   case Pending => AnswersPending(o, t, f, id)
  {
    hide OnePendingPerHost, OneCompletedPerHost, LedgerSound, LedgerComplete, EvidenceOk, EvidenceCovers,
      OneEvidencePerHost;
    if latest.Some? {
      assert RowOk(latest.value, t.recoveries[latest.value], t.claims, t.challenges);
      if t.recoveries[latest.value].status.Pending? && t.recoveries[latest.value].requester == f.did {
        PendingAnswers(t, f, latest.value);
      }
    }
  }

  lemma ClosesOne(t: Tables, id: TokenHash, host: Host, status: Status, event: Event, actor: Option<Did>, at: Time)
    requires id in t.recoveries
    ensures Close(t, {id}, host, status, event, actor, at).recoveries ==
            t.recoveries[id := t.recoveries[id].(status := status, completedAt := Some(at))]
  {
    hide AddAudit;
  }

  lemma PendingIsTheOne(t: Tables, id: TokenHash, host: Host)
    requires Inv(t) && id in t.recoveries && t.recoveries[id].host == host && t.recoveries[id].status.Pending?
    ensures PendingIds(t, host) == {id}
  {
    hide OneCompletedPerHost, LedgerSound, LedgerComplete, EvidenceOk, EvidenceCovers, OneEvidencePerHost;
  }

  lemma LateAnswers(t: Tables, f: Finalization, id: TokenHash)
    requires Inv(t) && IsLatest(t, f.host, Some(id)) && t.recoveries[id].status.Pending?
             && t.recoveries[id].requester == f.did && t.recoveries[id].expiresAt <= f.at
    ensures Closes(Finalize(t, f, Some(id)), t, id, WindowClosed, Expired, f.at)
  {
    hide Inv, PendingIds, AddAudit, CloseRows;
    PendingIsTheOne(t, id, f.host);
    assert StaleIds(t, f.host, f.at) == {id};
    ClosesOne(t, id, f.host, Expired, ExpiredEvent, None, f.at);
  }

  lemma StaleAnswers(t: Tables, f: Finalization, id: TokenHash)
    requires Inv(t) && IsLatest(t, f.host, Some(id)) && t.recoveries[id].status.Pending?
             && t.recoveries[id].requester == f.did && t.recoveries[id].eligibleAt <= f.at < t.recoveries[id].expiresAt
    requires f.host in t.claims && !t.claims[f.host].how.ContactEmail?
    ensures Closes(Finalize(t, f, Some(id)), t, id, OwnerChanged, Invalidated, f.at)
  {
    hide Inv, PendingIds, AddAudit, CloseRows, FreshProof, DnsBound, FinalizeWrite;
    PendingIsTheOne(t, id, f.host);
    ClosesOne(t, id, f.host, Invalidated, InvalidatedEvent, Owner(t, f.host), f.at);
  }

  /** While the claim is e-mail derived and the clock inside the window, only the proof and the host's row count. */
  lemma DueAnswers(t: Tables, f: Finalization, id: TokenHash)
    requires IsLatest(t, f.host, Some(id)) && t.recoveries[id].status.Pending? && t.recoveries[id].requester == f.did
    requires t.recoveries[id].eligibleAt <= f.at < t.recoveries[id].expiresAt
    requires f.host in t.claims && Matches(t.recoveries[id], t.claims[f.host])
    ensures var o := Finalize(t, f, Some(id));
            if !IssuedInTime(f, t.recoveries[id]) then Refuses(o, t, id, FreshDnsRequired)
            else if !StoredAsDns(t, f) then Refuses(o, t, id, BadProof)
            else if t.challenges[f.proof.token].consumedAt.Some? then Refuses(o, t, id, AlreadyUsed)
            else if f.host !in t.hosts then o == Abort(HostMissing)
            else Succeeds(o) && o.value.claim == NextClaim(f, t.claims[f.host])
                 && ShownAs(o.value.recovery, id, t.recoveries[id], Completed, Some(o.value.claim.updatedAt))
  {
    hide ExpireStale, InvalidatePending, MoveOwner;
  }

  lemma PendingAnswers(t: Tables, f: Finalization, id: TokenHash)
    requires Inv(t) && IsLatest(t, f.host, Some(id)) && t.recoveries[id].status.Pending?
             && t.recoveries[id].requester == f.did
    ensures f.host in t.claims && AnswersPending(Finalize(t, f, Some(id)), t, f, id)
  {
    hide OnePendingPerHost, OneCompletedPerHost, LedgerSound, LedgerComplete, EvidenceOk, EvidenceCovers,
      OneEvidencePerHost, Finalize, Finishes, IssuedInTime, StoredAsDns, Refuses, Closes, ShownAs;
    var r := t.recoveries[id];
    assert RowOk(id, r, t.claims, t.challenges);
    if r.expiresAt <= f.at {
      LateAnswers(t, f, id);
    } else if f.at < r.eligibleAt {
      EarlyAnswers(t, f, id);
    } else if !t.claims[f.host].how.ContactEmail? {
      StaleAnswers(t, f, id);
    } else {
      DueAnswers(t, f, id);
      FinalizesExactly(t, id, f);
    }
  }

  lemma EarlyAnswers(t: Tables, f: Finalization, id: TokenHash)
    requires IsLatest(t, f.host, Some(id)) && t.recoveries[id].status.Pending? && t.recoveries[id].requester == f.did
    requires f.at < t.recoveries[id].eligibleAt && f.at < t.recoveries[id].expiresAt
    ensures Refuses(Finalize(t, f, Some(id)), t, id, NotReady)
  {
    hide ExpireStale, InvalidatePending, FinalizeWrite, FreshProof, DnsBound;
  }

  // ---------------------------------------------------------------- read at one point, written at another

  /** The write phase of a finalization, at whatever later point: a spent proof answers with the finished recovery if
      it is this one and still holds, and is refused otherwise, as is any other bad proof; a claim or a row that has
      changed since the read, or a host without a row, rolls everything back; else the recovery is completed. */
  lemma WriteAnswers(t: Tables, s: Snapshot)
    requires Inv(t) && SnapshotOk(t, s)
    ensures var o, f, r := FinalizeWrite(t, s), s.f, t.recoveries[s.id];
            f.host in t.claims &&
            if t.challenges[f.proof.token].consumedAt.Some? then
              if r.status.Completed? && r.finalToken == Some(f.proof.token) && Holds(t, f.host, f.did)
              then o.Commit? && o.tables == t && o.value.Ok? && o.value.claim == t.claims[f.host]
                   && ShownAs(o.value.recovery, s.id, r, Completed, r.completedAt)
              else o.Commit? && o.tables == t && o.value.Refused? && o.value.reason == AlreadyUsed
                   && o.value.shown.Some?
                   && ShownAs(o.value.shown.value, s.id, s.row, s.row.status, s.row.completedAt)
            else if !t.claims[f.host].how.ContactEmail? then o == Abort(OwnerChanged)
            else if !r.status.Pending? then o == Abort(RecoveryChanged)
            else if f.host !in t.hosts then o == Abort(HostMissing)
            else Finishes(o, f.host, s.id, r.requester) && o.value.claim == NextClaim(f, t.claims[f.host])
                 && ShownAs(o.value.recovery, s.id, s.row, Completed, Some(o.value.claim.updatedAt))
  {
    hide OnePendingPerHost, OneCompletedPerHost, LedgerSound, LedgerComplete, EvidenceOk, EvidenceCovers,
      OneEvidencePerHost, ResetLinks, ResetProfile, ClaimHost, InsertAudit;
    assert RowOk(s.id, t.recoveries[s.id], t.claims, t.challenges);
  }

  /** The read phase lets a finalization through: the newest recovery of the host is the caller's own, pending and
      due, the claim is still e-mail derived, and the proof was issued in time and is stored as it is brought. */
  predicate MayFinish(t: Tables, f: Finalization, id: TokenHash)
    requires id in t.recoveries
  {
    var r := t.recoveries[id];
    && r.requester == f.did && r.status.Pending? && r.eligibleAt <= f.at < r.expiresAt
    && f.host in t.claims && t.claims[f.host].how.ContactEmail? && IssuedInTime(f, r) && StoredAsDns(t, f)
  }

  /** The write phase does: the proof is unspent, the recovery pending and the claim e-mail derived, still. */
  predicate MayComplete(t: Tables, f: Finalization, id: TokenHash) {
    && f.proof.token in t.challenges && t.challenges[f.proof.token].consumedAt.None?
    && id in t.recoveries && t.recoveries[id].status.Pending?
    && f.host in t.claims && t.claims[f.host].how.ContactEmail? && f.host in t.hosts
  }

  lemma ReadsExactly(t: Tables, f: Finalization, id: TokenHash)
    requires Inv(t) && IsLatest(t, f.host, Some(id))
    ensures var b := FinalizeRead(t, f, Some(id));
            && (b.Ready? <==> MayFinish(t, f, id))
            && (b.Ready? ==> b.snapshot.f == f && b.snapshot.id == id && b.snapshot.row == t.recoveries[id])
  {
    hide OnePendingPerHost, OneCompletedPerHost, LedgerSound, LedgerComplete, EvidenceOk, EvidenceCovers,
      OneEvidencePerHost, ExpireStale, InvalidatePending;
    assert RowOk(id, t.recoveries[id], t.claims, t.challenges);
  }

  /** A finalization from its read phase at `k` to its write phase at `i`, whatever other workers do in between: it
      makes the requester the owner exactly when both phases let it through, and otherwise the write changes nothing. */
  lemma FinalizationsExactly(trace: seq<Sys>, acts: seq<Action>, k: nat, i: nat, id: TokenHash)
    requires Run(trace, acts) && k < i < |acts|
    requires acts[k].ReadFinalization? && acts[i] == WriteFinalization(acts[k].worker)
    requires acts[k].worker !in trace[k].open && forall m :: k < m < i ==> !Uses(acts[m], acts[k].worker)
    requires acts[k].latest == Some(id) && IsLatest(trace[k].tables, acts[k].fin.host, Some(id))
    ensures var f, t, t' := acts[k].fin, trace[i].tables, trace[i + 1].tables;
            if MayFinish(trace[k].tables, f, id) && MayComplete(t, f, id)
            then && f.host in t'.claims && t'.claims[f.host] == NextClaim(f, t.claims[f.host])
                 && id in t'.recoveries && t'.recoveries[id].status.Completed?
                 && t'.recoveries[id].finalToken == Some(f.proof.token)
                 && t'.recoveries[id].completedAt == Some(t'.claims[f.host].updatedAt)
            else t' == t
  {
    hide MayFinish, MayComplete, FinalizeRead, FinalizeWrite, Inv;
    var a, t := acts[k], trace[i].tables;
    RunKeepsInv(trace, acts, k);
    RunKeepsInv(trace, acts, i);
    ReadsExactly(trace[k].tables, a.fin, id);
    WorkStaysOpen(trace, acts, k + 1, i, a.worker);
    if MayFinish(trace[k].tables, a.fin, id) {
      HeldSnapshot(t, trace[i].open[a.worker]);
      Completes(t, trace[i].open[a.worker].s);
    }
  }

  lemma Completes(t: Tables, s: Snapshot)
    requires Inv(t) && SnapshotOk(t, s)
    ensures var o, f := FinalizeWrite(t, s), s.f;
            if MayComplete(t, f, s.id)
            then && o.Commit? && f.host in o.tables.claims && o.tables.claims[f.host] == NextClaim(f, t.claims[f.host])
                 && s.id in o.tables.recoveries && o.tables.recoveries[s.id].status.Completed?
                 && o.tables.recoveries[s.id].finalToken == Some(f.proof.token)
                 && o.tables.recoveries[s.id].completedAt == Some(o.tables.claims[f.host].updatedAt)
            else o.Commit? ==> o.tables == t
  {
    hide Inv, ResetLinks, ResetProfile, ClaimHost, InsertAudit;
    WriteAnswers(t, s);
  }

  // ---------------------------------------------------------------- fingerprints

  lemma UrlSafeExactly(c: char) returns (v: Base64.Sextet)
    ensures Token43(c) ==> Base64.UrlChar(v) == c
    ensures forall u: Base64.Sextet :: Token43(Base64.UrlChar(u))
  {
    v := if 'A' <= c <= 'Z' then c as int - 'A' as int
    else if 'a' <= c <= 'z' then c as int - 'a' as int + 26
    else if '0' <= c <= '9' then c as int - '0' as int + 52
    else if c == '-' then 62 else 63;
  }

  lemma {:induction false} Spelled(s: string) returns (v: seq<Base64.Sextet>)
    requires forall i :: 0 <= i < |s| ==> Token43(s[i])
    ensures Base64.Url(v) == s
  {
    v := [];
    if s != "" {
      var rest := Spelled(s[1..]);
      var first := UrlSafeExactly(s[0]);
      v := [first] + rest;
      assert s == [s[0]] + s[1..];
    }
  }

  lemma {:induction false} SextetCount(b: seq<Base64.Byte>)
    ensures |Base64.Sextets(b)| == (4 * |b| + 2) / 3
  {
    if |b| >= 3 { SextetCount(b[3..]); }
  }

  /** A fingerprint that may be warned is 43 characters of the URL-safe alphabet, and the text of every hash of 32
      bytes is one. */
  lemma FingerprintsExactly(s: string, hash: seq<Base64.Byte>)
    ensures IsFingerprint(s) <==> |s| == 43 && exists v :: Base64.Url(v) == s
    ensures |hash| == 32 ==> IsFingerprint(Base64.Url(Base64.Sextets(hash)))
  {
    hide Base64.Sextets, Token43;
    var _ := UrlSafeExactly('-');
    SextetCount(hash);
    if IsFingerprint(s) { var v := Spelled(s); }
    if v :| Base64.Url(v) == s { assert forall i :: 0 <= i < |s| ==> s[i] == Base64.UrlChar(v[i]); }
  }
}
