/** The rows of the host-ownership tables (lib/db.ts), and the constants of the recovery protocol.  Hosts, DIDs,
    token hashes and the like are compared but never taken apart, so they are numbers here. */
module AccountHostTables {
  import opened Wrappers

  type Host = nat
  type Did = nat
  type TokenHash = nat
  type Jti = nat
  type LinkId = nat
  type Time = int

  const COOLDOWN_MS: Time := 48 * 60 * 60 * 1000
  const FINALIZE_WINDOW_MS: Time := 7 * 24 * 60 * 60 * 1000

  datatype Method = OauthAccount | DnsTxt | AtprotoHandle | LocalDevFixture | ContactEmail

  datatype Claim = Claim(did: Did, handle: string, how: Method,
                         claimedAt: Time, verifiedAt: Time, updatedAt: Time)

  /** `binding` is NULL for a DNS challenge; an e-mail challenge carries its version tag. */
  datatype Challenge = Challenge(host: Host, did: Did, fingerprint: string, binding: Option<string>,
                                 createdAt: Time, expiresAt: Time, consumedAt: Option<Time>)

  datatype Evidence = Evidence(host: Host, did: Did, fingerprint: string, requestedAt: Time, expiresAt: Time,
                               completedAt: Time, claimUpdatedAt: Time, deliveryId: Option<string>)

  datatype Status = Pending | Completed | Expired | Invalidated
  datatype Delivery = Waiting | Sent | Failed | Unavailable

  type Reported = d: Delivery | !d.Waiting? witness Sent

  /** A recovery row; its id is `dns-recovery:` followed by the hash of the token that started it. */
  datatype Recovery = Recovery(
    host: Host,
    previousDid: Did, previousHandle: string, previousUpdatedAt: Time,
    requester: Did, requesterHandle: string,
    requestedAt: Time, eligibleAt: Time, expiresAt: Time,
    status: Status,
    delivery: Delivery, deliveryId: Option<string>, deliveryFingerprint: Option<string>,
    attemptedAt: Option<Time>,
    finalToken: Option<TokenHash>, completedAt: Option<Time>)

  datatype Event = Requested | Finalized | ExpiredEvent | InvalidatedEvent | Notified(outcome: Reported)

  /** The audit id is the recovery id followed by the event's suffix. */
  datatype AuditKey = AuditKey(recovery: TokenHash, event: Event)
  datatype AuditEntry = AuditEntry(host: Host, actor: Option<Did>, proof: Option<TokenHash>,
                                   deliveryId: Option<string>, fingerprint: Option<string>, at: Time)

  datatype Transfer = Transfer(host: Host, from: Did, to: Did, initiatedAt: Time, completedAt: Time)

  datatype Verification = Verified | Claimed | Observed
  datatype Signup = SignupOpen | SignupByInvite | SignupClosed | SignupUnknown

  datatype HostRow = HostRow(
    seeded: bool, claimHandle: Option<string>, claimDid: Option<Did>, verification: Verification,
    optIn: Option<bool>, optedAt: Option<Time>,
    profileHandle: Option<string>, profileDid: Option<Did>, avatar: Option<string>,
    serviceUri: Option<string>, serviceCid: Option<string>, serviceObservedAt: Option<Time>,
    updatedAt: Time)

  datatype Link = Link(host: Host, seeded: bool, approved: bool, hostOwner: Did,
                       hostApprovedAt: Option<Time>, appApprovedAt: Option<Time>, updatedAt: Time)

  datatype Tables = Tables(
    hosts: map<Host, HostRow>,
    claims: map<Host, Claim>,
    challenges: map<TokenHash, Challenge>,
    evidence: map<TokenHash, Evidence>,
    recoveries: map<TokenHash, Recovery>,
    audit: map<AuditKey, AuditEntry>,
    transfers: map<Jti, Transfer>,
    links: map<LinkId, Link>)

  const EMPTY := Tables(map[], map[], map[], map[], map[], map[], map[], map[])

  /** The event that records how a recovery left `pending`. */
  function TerminalEvent(s: Status): Option<Event> {
    match s
    case Pending => None
    case Completed => Some(Finalized)
    case Expired => Some(ExpiredEvent)
    case Invalidated => Some(InvalidatedEvent)
  }

  /** The snapshot taken by the recovery is still the live, e-mail derived claim. */
  predicate Matches(r: Recovery, c: Claim) {
    c.how.ContactEmail? && c.did == r.previousDid && c.updatedAt == r.previousUpdatedAt
  }

  /** The partial unique index `account_host_claim_recovery_pending_host`. */
  ghost predicate OnePendingPerHost(rs: map<TokenHash, Recovery>) {
    forall i, j :: i in rs && j in rs && rs[i].host == rs[j].host && rs[i].status.Pending? && rs[j].status.Pending?
                   ==> i == j
  }
}
