/** What each transaction of lib/account-hosts.ts does to the tables.  A transaction commits new tables or aborts,
    and an abort leaves the tables as they were. */
module AccountHostTransactions {
  import opened Wrappers
  import opened AccountHostTables

  datatype Reason =
    | BadProof | ProofExpired | AlreadyUsed | AccountMismatch
    | ClaimConflict | OwnerChanged | RecoveryChanged
    | NotFound | NotRequester | NotReady | WindowClosed | FreshDnsRequired
    | HostMissing | DuplicateKey | Downgrade

  datatype Outcome<+T> = Commit(tables: Tables, value: T) | Abort(reason: Reason)

  function Max(a: Time, b: Time): Time { if a < b then b else a }

  // ---------------------------------------------------------------- proofs

  /** The proof is one of this host and this DID, unspent, and not expired. */
  predicate Spendable(cs: map<TokenHash, Challenge>, token: TokenHash, host: Host, did: Did, at: Time) {
    token in cs && cs[token].host == host && cs[token].did == did && cs[token].consumedAt.None?
    && at <= cs[token].expiresAt
  }

  /** `None` when the proof may be spent, otherwise the reason it may not. */
  function SpendError(cs: map<TokenHash, Challenge>, token: TokenHash, host: Host, did: Did, at: Time): Option<Reason> {
    if token !in cs || cs[token].host != host then Some(BadProof)
    else if cs[token].did != did then Some(AccountMismatch)
    else if cs[token].consumedAt.Some? then Some(AlreadyUsed)
    else if cs[token].expiresAt < at then Some(ProofExpired)
    else None
  }

  function Spend(cs: map<TokenHash, Challenge>, token: TokenHash, at: Time): map<TokenHash, Challenge>
    requires token in cs
  {
    cs[token := cs[token].(consumedAt := Some(at))]
  }

  predicate StartsWith(prefix: string, s: string) { prefix <= s }

  // ---------------------------------------------------------------- claim rows

  predicate Strong(m: Method) { m.DnsTxt? || m.AtprotoHandle? }

  /** Insert a first claim or refresh the claimant's own one; the trigger `prevent_assurance_downgrade` refuses to
      weaken a strong method. */
  function UpsertError(cs: map<Host, Claim>, host: Host, c: Claim): Option<Reason> {
    if c.how.OauthAccount? || c.how.ContactEmail? then Some(ClaimConflict)
    else if host !in cs then None
    else if cs[host].did != c.did then Some(ClaimConflict)
    else if Strong(cs[host].how) && !Strong(c.how) then Some(Downgrade)
    else None
  }

  function Upsert(cs: map<Host, Claim>, host: Host, c: Claim): map<Host, Claim> {
    cs[host := if host in cs
               then cs[host].(handle := c.handle, how := c.how, verifiedAt := c.verifiedAt, updatedAt := c.updatedAt)
               else c]
  }

  // ---------------------------------------------------------------- the host row and its links

  function ClaimHost(row: HostRow, handle: string, did: Did, optIn: Option<bool>, at: Time): HostRow {
    row.(claimHandle := if row.seeded then row.claimHandle else Some(handle),
         claimDid := if row.seeded then row.claimDid else Some(did),
         verification := if row.verification.Verified? then Verified else Claimed,
         optIn := if optIn.Some? then optIn else row.optIn,
         optedAt := if optIn.Some? then Some(at) else row.optedAt,
         updatedAt := at)
  }

  function ResetProfile(row: HostRow, handle: string, did: Did, at: Time): HostRow {
    row.(profileHandle := Some(handle), profileDid := Some(did), avatar := None,
         serviceUri := None, serviceCid := None, serviceObservedAt := None, updatedAt := at)
  }

  function ResetLink(l: Link, host: Host, did: Did, at: Time): Link {
    if l.host == host && !l.seeded
    then l.(approved := false, hostOwner := did, hostApprovedAt := None, updatedAt := at)
    else l
  }

  function ResetLinks(links: map<LinkId, Link>, host: Host, did: Did, at: Time): map<LinkId, Link> {
    map k | k in links :: ResetLink(links[k], host, did, at)
  }

  // ---------------------------------------------------------------- leaving `pending`

  function InsertAudit(audit: map<AuditKey, AuditEntry>, k: AuditKey, e: AuditEntry): map<AuditKey, AuditEntry> {
    if k in audit then audit else audit[k := e]
  }

  function AuditKeys(ids: set<TokenHash>, event: Event): (ks: set<AuditKey>)
    ensures forall k :: k in ks <==> k.event == event && k.recovery in ids
  {
    set id | id in ids :: AuditKey(id, event)
  }

  function CloseRows(rs: map<TokenHash, Recovery>, ids: set<TokenHash>, status: Status, at: Time)
    : map<TokenHash, Recovery>
  {
    map id | id in rs :: if id in ids then rs[id].(status := status, completedAt := Some(at)) else rs[id]
  }

  /** One entry for each of `ids`; ON CONFLICT(id) DO NOTHING keeps an entry already there. */
  function AddAudit(audit: map<AuditKey, AuditEntry>, ids: set<TokenHash>, event: Event, e: AuditEntry)
    : map<AuditKey, AuditEntry>
  {
    map k | k in audit.Keys + AuditKeys(ids, event) :: if k in AuditKeys(ids, event) && k !in audit then e else audit[k]
  }

  /** Close every row of `ids` with `status`, writing one audit entry for each. */
  function Close(t: Tables, ids: set<TokenHash>, host: Host, status: Status, event: Event, actor: Option<Did>,
                 at: Time): Tables {
    t.(recoveries := CloseRows(t.recoveries, ids, status, at),
       audit := AddAudit(t.audit, ids, event, AuditEntry(host, actor, None, None, None, at)))
  }

  function PendingIds(t: Tables, host: Host): set<TokenHash> {
    set id | id in t.recoveries && t.recoveries[id].host == host && t.recoveries[id].status.Pending?
  }

  function StaleIds(t: Tables, host: Host, at: Time): set<TokenHash> {
    set id | id in PendingIds(t, host) && t.recoveries[id].expiresAt <= at
  }

  function ExpireStale(t: Tables, host: Host, at: Time): Tables {
    Close(t, StaleIds(t, host, at), host, Expired, ExpiredEvent, None, at)
  }

  function InvalidatePending(t: Tables, host: Host, at: Time, actor: Option<Did>): Tables {
    Close(t, PendingIds(t, host), host, Invalidated, InvalidatedEvent, actor, at)
  }

  predicate LiveMatch(t: Tables, id: TokenHash)
    requires id in t.recoveries
  {
    var r := t.recoveries[id];
    r.host in t.claims && Matches(r, t.claims[r.host])
  }

  function Owner(t: Tables, host: Host): Option<Did> {
    if host in t.claims then Some(t.claims[host].did) else None
  }

  function Reconcile(t: Tables, host: Host, at: Time): Tables {
    var t1 := ExpireStale(t, host, at);
    if forall id :: id in PendingIds(t1, host) ==> LiveMatch(t1, id) then t1
    else InvalidatePending(t1, host, at, Owner(t1, host))
  }

  // ---------------------------------------------------------------- DNS claim and transfer

  datatype Intent = Intent(jti: Jti, host: Host, previousDid: Did, previousUpdatedAt: Time, issuedAt: Time,
                           expiresAt: Time)

  datatype DnsRequest = DnsRequest(host: Host, did: Did, handle: string, token: TokenHash,
                                   claimHandle: string, claimDid: Did, optIn: Option<bool>, transfer: Option<Intent>)

  datatype DnsWrite = DnsWrite(host: Host, token: TokenHash, claim: Claim, claimHandle: string, claimDid: Did,
                               optIn: Option<bool>, transfer: Option<Intent>, at: Time)

  /** The checks made, and the timestamp chosen, before the DNS claim transaction opens; `verifiedOwner` is the
      answer of the live identity lookup. */
  function PrepareDns(t: Tables, q: DnsRequest, verifiedOwner: Option<Did>, now: Time): Option<DnsWrite> {
    var existing := if q.host in t.claims then Some(t.claims[q.host]) else None;
    if q.transfer.Some? &&
       var i := q.transfer.value;
       i.host != q.host || i.expiresAt <= now || i.previousDid == q.did || existing.None?
       || verifiedOwner != Some(i.previousDid) || existing.value.did != i.previousDid
       || existing.value.updatedAt != i.previousUpdatedAt
    then None
    else if q.transfer.None? && existing.Some? && existing.value.did != q.did then None
      else
        var at := if q.transfer.Some? && existing.Some? then Max(now, existing.value.updatedAt + 1) else now;
        var claimedAt := if existing.Some? && existing.value.did == q.did then existing.value.claimedAt else at;
        Some(DnsWrite(q.host, q.token, Claim(q.did, q.handle, DnsTxt, claimedAt, at, at), q.claimHandle, q.claimDid,
                      if q.transfer.Some? then None else q.optIn, q.transfer, at))
  }

  predicate IsTransfer(w: DnsWrite) {
    w.transfer.Some? && w.transfer.value.previousDid != w.claim.did
  }

  function AssignError(t: Tables, w: DnsWrite): Option<Reason> {
    if !w.claim.how.DnsTxt? then Some(ClaimConflict)
    else if SpendError(t.challenges, w.token, w.host, w.claim.did, w.at).Some? then
      SpendError(t.challenges, w.token, w.host, w.claim.did, w.at)
    else if IsTransfer(w) && (w.host !in t.claims || t.claims[w.host].did != w.transfer.value.previousDid
                              || t.claims[w.host].updatedAt != w.transfer.value.previousUpdatedAt)
    then Some(ClaimConflict)
    else if IsTransfer(w) && w.transfer.value.jti in t.transfers then Some(DuplicateKey)
      else if !IsTransfer(w) then UpsertError(t.claims, w.host, w.claim)
      else None
  }

  function DnsClaimError(t: Tables, w: DnsWrite): Option<Reason> {
    if AssignError(t, w).Some? then AssignError(t, w) else if w.host !in t.hosts then Some(HostMissing) else None
  }

  /** The proof is spent, the ownership row written, and a transfer recorded under its id. */
  function Assign(t: Tables, w: DnsWrite): Tables
    requires AssignError(t, w).None?
  {
    t.(challenges := Spend(t.challenges, w.token, w.at),
       claims := if IsTransfer(w) then t.claims[w.host := w.claim] else Upsert(t.claims, w.host, w.claim),
       transfers := if IsTransfer(w)
                    then t.transfers[w.transfer.value.jti := Transfer(w.host, w.transfer.value.previousDid, w.claim.did,
                                                                      w.transfer.value.issuedAt, w.at)]
                    else t.transfers)
  }

  function DnsClaim(t: Tables, w: DnsWrite): Tables
    requires DnsClaimError(t, w).None?
  {
    var t1 := Assign(t, w);
    var t2 := InvalidatePending(t1, w.host, w.at, Some(w.claim.did));
    var row := ClaimHost(t.hosts[w.host], w.claimHandle, w.claimDid, if IsTransfer(w) then None else w.optIn, w.at);
    if IsTransfer(w) then
      t2.(hosts := t2.hosts[w.host := ResetProfile(row, w.claim.handle, w.claim.did, w.at)],
          links := ResetLinks(t2.links, w.host, w.claim.did, w.at))
    else
      t2.(hosts := t2.hosts[w.host := row])
  }

  // ---------------------------------------------------------------- owner refresh (exact handle, local fixture)

  datatype Refresh = Refresh(host: Host, claim: Claim, claimHandle: string, claimDid: Did, optIn: Option<bool>,
                             at: Time)

  function RefreshError(t: Tables, f: Refresh): Option<Reason> {
    if UpsertError(t.claims, f.host, f.claim).Some? then UpsertError(t.claims, f.host, f.claim)
    else if f.host !in t.hosts then Some(HostMissing)
    else None
  }

  function RefreshOwner(t: Tables, f: Refresh): Tables
    requires RefreshError(t, f).None?
  {
    t.(claims := Upsert(t.claims, f.host, f.claim),
       hosts := t.hosts[f.host := ClaimHost(t.hosts[f.host], f.claimHandle, f.claimDid, f.optIn, f.at)])
  }

  // ---------------------------------------------------------------- contact-e-mail claim

  datatype EmailWrite = EmailWrite(host: Host, token: TokenHash, fingerprint: string, binding: string,
                                   requestedAt: Time, expiresAt: Time, deliveryId: Option<string>,
                                   claim: Claim, claimHandle: string, claimDid: Did, optIn: Option<bool>, at: Time)

  predicate EmailBound(t: Tables, w: EmailWrite) {
    && w.token in t.challenges
    && var c := t.challenges[w.token];
    c.host == w.host && c.did == w.claim.did && c.fingerprint == w.fingerprint && c.binding == Some(w.binding)
    && StartsWith("pds-contact-email-v2.", w.binding) && c.createdAt == w.requestedAt && c.expiresAt == w.expiresAt
  }

  function EmailClaimError(t: Tables, w: EmailWrite): Option<Reason> {
    if !w.claim.how.ContactEmail? then Some(ClaimConflict)
    else if !EmailBound(t, w) then Some(BadProof)
    else if SpendError(t.challenges, w.token, w.host, w.claim.did, w.at).Some? then
      SpendError(t.challenges, w.token, w.host, w.claim.did, w.at)
    else if w.host in t.claims then Some(ClaimConflict)
    else if w.token in t.evidence then Some(DuplicateKey)
    else if w.host !in t.hosts then Some(HostMissing)
    else None
  }

  function EmailClaim(t: Tables, w: EmailWrite): Tables
    requires EmailClaimError(t, w).None?
  {
    t.(challenges := Spend(t.challenges, w.token, w.at),
       claims := t.claims[w.host := w.claim],
       evidence := t.evidence[w.token := Evidence(w.host, w.claim.did, w.fingerprint, w.requestedAt, w.expiresAt,
                                                  w.at, w.claim.updatedAt, w.deliveryId)],
       hosts := t.hosts[w.host := ClaimHost(t.hosts[w.host], w.claimHandle, w.claimDid, w.optIn, w.at)])
  }

  // ---------------------------------------------------------------- recovery request

  datatype RecoveryRequest = RecoveryRequest(host: Host, token: TokenHash, previous: Claim, did: Did, handle: string,
                                             at: Time)

  function StartError(t: Tables, q: RecoveryRequest): Option<Reason> {
    if !q.previous.how.ContactEmail? || q.previous.did == q.did then Some(OwnerChanged)
    else if q.host !in t.claims || !t.claims[q.host].how.ContactEmail? || t.claims[q.host].did != q.previous.did
            || t.claims[q.host].updatedAt != q.previous.updatedAt then Some(OwnerChanged)
    else if PendingIds(Reconcile(t, q.host, q.at), q.host) != {} then Some(RecoveryChanged)
    else if SpendError(t.challenges, q.token, q.host, q.did, q.at).Some? then
      SpendError(t.challenges, q.token, q.host, q.did, q.at)
    else if q.token in t.recoveries then Some(DuplicateKey)
    else None
  }

  function NewRecovery(c: Claim, q: RecoveryRequest): Recovery {
    Recovery(q.host, c.did, c.handle, c.updatedAt, q.did, q.handle,
             q.at, q.at + COOLDOWN_MS, q.at + COOLDOWN_MS + FINALIZE_WINDOW_MS,
             Pending, Waiting, None, None, None, None, None)
  }

  /** Consume the first proof and file the request, on reconciled tables. */
  function FileRequest(t: Tables, r: Recovery, token: TokenHash): Tables
    requires token in t.challenges
  {
    t.(challenges := Spend(t.challenges, token, r.requestedAt),
       recoveries := t.recoveries[token := r],
       audit := InsertAudit(t.audit, AuditKey(token, Requested),
                            AuditEntry(r.host, Some(r.requester), Some(token), None, None, r.requestedAt)))
  }

  function StartRecovery(t: Tables, q: RecoveryRequest): Tables
    requires StartError(t, q).None?
  {
    FileRequest(Reconcile(t, q.host, q.at), NewRecovery(t.claims[q.host], q), q.token)
  }

  // ---------------------------------------------------------------- recovery finalization

  datatype Proof = Proof(token: TokenHash, host: Host, did: Did, fingerprint: string, createdAt: Time, expiresAt: Time)

  /** The part of a recovery row that is shown to callers. */
  datatype View = View(id: TokenHash, host: Host, ownerDid: Did, requester: Did, createdAt: Time, eligibleAt: Time,
                       expiresAt: Time, status: Status, delivery: Delivery, attemptedAt: Option<Time>,
                       completedAt: Option<Time>)

  function ViewOf(id: TokenHash, r: Recovery): View {
    View(id, r.host, r.previousDid, r.requester, r.requestedAt, r.eligibleAt, r.expiresAt, r.status, r.delivery,
         r.attemptedAt, r.completedAt)
  }

  datatype Reply = Ok(claim: Claim, recovery: View) | Refused(reason: Reason, shown: Option<View>)

  datatype Finalization = Finalization(host: Host, did: Did, handle: string, proof: Proof, at: Time)

  /** What the read phase hands to the write phase. */
  datatype Snapshot = Snapshot(f: Finalization, id: TokenHash, row: Recovery, current: Claim)

  datatype Begun = Replied(tables: Tables, reply: Reply) | Ready(snapshot: Snapshot)

  /** `latest` is a newest recovery row of the host (ORDER BY requested_at DESC LIMIT 1). */
  ghost predicate IsLatest(t: Tables, host: Host, latest: Option<TokenHash>) {
    if latest.None? then forall id :: id in t.recoveries ==> t.recoveries[id].host != host
    else
      latest.value in t.recoveries && t.recoveries[latest.value].host == host &&
      forall id :: id in t.recoveries && t.recoveries[id].host == host ==>
                     t.recoveries[id].requestedAt <= t.recoveries[latest.value].requestedAt
  }

  predicate FreshProof(f: Finalization, r: Recovery) {
    f.proof.host == f.host && f.proof.did == f.did && r.eligibleAt <= f.proof.createdAt <= f.at
    && f.proof.createdAt < r.expiresAt && f.at <= f.proof.expiresAt
  }

  predicate DnsBound(t: Tables, f: Finalization) {
    && f.proof.token in t.challenges
    && var c := t.challenges[f.proof.token];
    c.host == f.host && c.did == f.did && c.fingerprint == f.proof.fingerprint && StartsWith("dns-v1:", c.fingerprint)
    && c.binding.None? && c.createdAt == f.proof.createdAt && c.expiresAt == f.proof.expiresAt
  }

  function FinalizeRead(t: Tables, f: Finalization, latest: Option<TokenHash>): Begun
    requires latest.Some? ==> latest.value in t.recoveries
  {
    if latest.None? then Replied(t, Refused(NotFound, None))
    else
      var id := latest.value;
      var r := t.recoveries[id];
      var view := ViewOf(id, r);
      if r.requester != f.did then Replied(t, Refused(NotRequester, Some(view)))
      else if r.status.Completed? then
        if f.host in t.claims && t.claims[f.host].how.DnsTxt? && t.claims[f.host].did == f.did
           && r.finalToken == Some(f.proof.token)
        then Replied(t, Ok(t.claims[f.host], view)) else Replied(t, Refused(OwnerChanged, Some(view)))
      else if r.status.Expired? then Replied(t, Refused(WindowClosed, Some(view)))
      else if r.status.Invalidated? then Replied(t, Refused(OwnerChanged, Some(view)))
      else if r.expiresAt <= f.at then
        Replied(ExpireStale(t, f.host, f.at),
                Refused(WindowClosed, Some(view.(status := Expired, completedAt := Some(f.at)))))
      else if f.at < r.eligibleAt then Replied(t, Refused(NotReady, Some(view)))
      else if f.host !in t.claims || !Matches(r, t.claims[f.host]) then
        Replied(InvalidatePending(t, f.host, f.at, Owner(t, f.host)),
                Refused(OwnerChanged, Some(view.(status := Invalidated, completedAt := Some(f.at)))))
      else if !FreshProof(f, r) then Replied(t, Refused(FreshDnsRequired, Some(view)))
      else if !DnsBound(t, f) then Replied(t, Refused(BadProof, Some(view)))
      else Ready(Snapshot(f, id, r, t.claims[f.host]))
  }

  /** The reply to a duplicate whose identical twin has already committed. */
  function FinalizeReplay(t: Tables, s: Snapshot): Option<Reply> {
    var f := s.f;
    if s.id in t.recoveries && t.recoveries[s.id].host == f.host && t.recoveries[s.id].requester == f.did
       && t.recoveries[s.id].status.Completed? && t.recoveries[s.id].finalToken == Some(f.proof.token)
       && f.host in t.claims && t.claims[f.host].how.DnsTxt? && t.claims[f.host].did == f.did
    then Some(Ok(t.claims[f.host], ViewOf(s.id, t.recoveries[s.id])))
    else None
  }

  function NewOwner(s: Snapshot): Claim {
    var at := Max(s.f.at, s.current.updatedAt + 1);
    Claim(s.f.did, s.f.handle, DnsTxt, at, at, at)
  }

  /** The guards of the ownership row and of the recovery row. */
  function CompleteError(t: Tables, s: Snapshot): Option<Reason> {
    var f := s.f;
    if f.host !in t.claims || !Matches(s.row, t.claims[f.host]) then Some(OwnerChanged)
    else if s.id !in t.recoveries || t.recoveries[s.id].host != f.host || t.recoveries[s.id].requester != f.did
            || !t.recoveries[s.id].status.Pending? || t.recoveries[s.id].previousDid != s.row.previousDid
            || t.recoveries[s.id].previousUpdatedAt != s.row.previousUpdatedAt then Some(RecoveryChanged)
    else if f.host !in t.hosts then Some(HostMissing)
    else None
  }

  function MoveOwner(t: Tables, s: Snapshot): Tables
    requires CompleteError(t, s).None?
  {
    var f := s.f;
    var claim := NewOwner(s);
    var at := claim.updatedAt;
    t.(claims := t.claims[f.host := claim],
       recoveries := t.recoveries[s.id := t.recoveries[s.id].(status := Completed, finalToken := Some(f.proof.token),
                                                              completedAt := Some(at))],
       hosts := t.hosts[f.host := ResetProfile(ClaimHost(t.hosts[f.host], f.handle, f.did, None, at), f.handle, f.did,
                                               at)],
       links := ResetLinks(t.links, f.host, f.did, at),
       audit := InsertAudit(t.audit, AuditKey(s.id, Finalized),
                            AuditEntry(f.host, Some(f.did), Some(f.proof.token), None, None, at)))
  }

  function Complete(t: Tables, s: Snapshot): Tables
    requires CompleteError(t, s).None? && s.f.proof.token in t.challenges
  {
    MoveOwner(t.(challenges := Spend(t.challenges, s.f.proof.token, s.f.at)), s)
  }

  /** Consume the second proof, then move the ownership row and the recovery row under their guards. */
  function FinalizeWrite(t: Tables, s: Snapshot): Outcome<Reply> {
    var refusal := SpendError(t.challenges, s.f.proof.token, s.f.host, s.f.did, s.f.at);
    if refusal.Some? then
      if refusal.value.AlreadyUsed? && FinalizeReplay(t, s).Some? then Commit(t, FinalizeReplay(t, s).value)
      else Commit(t, Refused(refusal.value, Some(ViewOf(s.id, s.row))))
    else if CompleteError(t, s).Some? then Abort(CompleteError(t, s).value)
    else Commit(Complete(t, s),
                Ok(NewOwner(s), ViewOf(s.id, s.row).(status := Completed, completedAt := Some(NewOwner(s).updatedAt))))
  }

  function Finalize(t: Tables, f: Finalization, latest: Option<TokenHash>): Outcome<Reply>
    requires latest.Some? ==> latest.value in t.recoveries
  {
    match FinalizeRead(t, f, latest)
    case Replied(t', reply) => Commit(t', reply)
    case Ready(s) => FinalizeWrite(t, s)
  }

  // ---------------------------------------------------------------- notification lease

  /** The rows the lease statement updates: at most one, by the partial unique index. */
  function LeaseIds(t: Tables, host: Host, requester: Did, at: Time, retryAfter: Time): set<TokenHash> {
    set id | id in PendingIds(t, host) && t.recoveries[id].requester == requester
             && (t.recoveries[id].delivery.Waiting? || t.recoveries[id].delivery.Failed?)
             && (t.recoveries[id].attemptedAt.None? || t.recoveries[id].attemptedAt.value <= Max(0, at - retryAfter))
  }

  function Lease(t: Tables, ids: set<TokenHash>, at: Time): Tables {
    t.(recoveries := map id | id in t.recoveries ::
                       if id in ids then t.recoveries[id].(attemptedAt := Some(at)) else t.recoveries[id])
  }

  function Reserve(t: Tables, host: Host, requester: Did, at: Time, retryAfter: Time): Tables {
    var t1 := Reconcile(t, host, at);
    Lease(t1, LeaseIds(t1, host, requester, at, retryAfter), at)
  }

  predicate Token43(c: char) {
    'A' <= c <= 'Z' || 'a' <= c <= 'z' || '0' <= c <= '9' || c == '_' || c == '-'
  }

  predicate IsFingerprint(s: string) { |s| == 43 && forall i :: 0 <= i < |s| ==> Token43(s[i]) }

  /** The evidence rows that minted the claim being recovered. */
  predicate Minted(e: Evidence, r: Recovery) {
    e.host == r.host && e.did == r.previousDid && e.claimUpdatedAt == r.previousUpdatedAt
  }

  function WellFormed(s: string): Option<string> { if IsFingerprint(s) then Some(s) else None }

  /** What the lease hands out: the fingerprint of the newest evidence row that minted the claim, if it is well
      formed. */
  ghost predicate WarnsMailbox(ev: map<TokenHash, Evidence>, r: Recovery, fingerprint: Option<string>) {
    if forall k :: k in ev ==> !Minted(ev[k], r) then fingerprint.None?
    else exists k :: NewestMint(ev, r, k) && fingerprint == WellFormed(ev[k].fingerprint)
  }

  ghost predicate NewestMint(ev: map<TokenHash, Evidence>, r: Recovery, k: TokenHash) {
    k in ev && Minted(ev[k], r) && forall j :: j in ev && Minted(ev[j], r) ==> ev[j].completedAt <= ev[k].completedAt
  }

  datatype DeliveryReport = DeliveryReport(outcome: Reported, attemptedAt: Time, deliveryId: Option<string>,
                                           fingerprint: Option<string>)

  /** The rows on which a delivery outcome is recorded. */
  function RecordIds(t: Tables, host: Host, requester: Did, o: DeliveryReport): set<TokenHash> {
    set id | id in PendingIds(t, host) && t.recoveries[id].requester == requester
             && t.recoveries[id].attemptedAt == Some(o.attemptedAt)
             && !t.recoveries[id].delivery.Sent? && t.recoveries[id].delivery != o.outcome
  }

  function Deliver(t: Tables, ids: set<TokenHash>, host: Host, requester: Did, o: DeliveryReport): Tables {
    t.(recoveries := map id | id in t.recoveries ::
                       if id in ids
                       then t.recoveries[id].(delivery := o.outcome, deliveryId := o.deliveryId,
                                              deliveryFingerprint := o.fingerprint)
                       else t.recoveries[id],
       audit := AddAudit(t.audit, ids, Notified(o.outcome),
                         AuditEntry(host, Some(requester), None, o.deliveryId, o.fingerprint, o.attemptedAt)))
  }

  function Record(t: Tables, host: Host, requester: Did, o: DeliveryReport): Tables {
    var t1 := Reconcile(t, host, o.attemptedAt);
    Deliver(t1, RecordIds(t1, host, requester, o), host, requester, o)
  }
}
