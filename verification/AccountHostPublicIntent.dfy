/** Probing observed hosts for public sign-up (lib/account-host-public-intent.ts): what is detected, what one run
    writes, and how often a host is probed over many runs. */
module AccountHostPublicIntent {
  import opened Wrappers
  import AccountHostTables

  /** Hosts are numbered in the order of their names. */
  type Host = AccountHostTables.Host
  type Signup = AccountHostTables.Signup

  const MIN_ACCOUNTS: nat := 2
  const RECHECK_MS: int := 24 * 60 * 60 * 1000
  const DEFAULT_LIMIT: nat := 200
  const DEFAULT_CONCURRENCY: nat := 12

  datatype IntentStatus = NotChecked | DetectedIntent | NotDetected
  datatype Source = PdsOpenSignup | PdsManagedInvites

  datatype Description = Description(domains: seq<string>, inviteRequired: Option<bool>, contact: Option<string>,
                                     privacyPolicy: Option<string>, termsOfService: Option<string>)
  datatype Page = Page(signupUrl: string, title: string)
  datatype Evidence = Evidence(domains: seq<string>, inviteRequired: Option<bool>, hasContact: bool,
                               hasPrivacyPolicy: bool,
                               hasTermsOfService: bool, page: Option<Page>)
  datatype Detected = Detected(source: Source, signup: Signup, evidence: Evidence)

  datatype Row = Row(observable: bool, unclaimed: bool, activeAccounts: nat, accounts: nat,
                     endpoint: string, https: bool, signupUrl: string,
                     signup: Signup, status: IntentStatus, source: Option<Source>, checkedAt: Option<int>,
                     attemptedAt: Option<int>,
                     evidence: Option<Evidence>, updatedAt: int)

  /** The network: a normalised endpoint, the server's description of itself, and a sign-up link on its landing
      page. */
  datatype Web = Web(normalize: string -> Option<string>, describe: string -> Option<Description>,
                     page: string -> Option<Page>)

  // ---------------------------------------------------------------- detection

  function DetectPdsPublicIntent(d: Description, accounts: nat, page: Option<Page>): Option<Detected> {
    if accounts < MIN_ACCOUNTS || d.domains == [] then None
    else
      var evidence := Evidence(if |d.domains| <= 10 then d.domains else d.domains[..10], d.inviteRequired,
                               d.contact.Some?,
                               d.privacyPolicy.Some?, d.termsOfService.Some?, page);
      if d.inviteRequired == Some(false) then Some(Detected(PdsOpenSignup, AccountHostTables.SignupOpen, evidence))
      else if d.inviteRequired == Some(true) &&
              (page.Some? || (d.contact.Some? && (d.privacyPolicy.Some? || d.termsOfService.Some?)))
      then Some(Detected(PdsManagedInvites, AccountHostTables.SignupByInvite, evidence))
      else None
  }

  predicate WantsPage(d: Description, accounts: nat) {
    DetectPdsPublicIntent(d, accounts, None).None? && d.inviteRequired == Some(true) && d.domains != []
  }

  /** A server that serves a domain and has two accounts takes the public in exactly when it says that no invitation
      is needed, or when it does ask for one but shows where to get it: a sign-up page, or a contact together with a
      policy.  The first makes its sign-up open, the second one by invitation. */
  lemma DetectsExactly(d: Description, accounts: nat, page: Option<Page>)
    ensures var detected := DetectPdsPublicIntent(d, accounts, page);
            && (detected.Some? <==>
                && accounts >= 2 && |d.domains| > 0
                && (|| d.inviteRequired == Some(false)
                    || (d.inviteRequired == Some(true)
                        && (page.Some? || (d.contact.Some? && (d.privacyPolicy.Some? || d.termsOfService.Some?))))))
            && (detected.Some? ==>
                  && (detected.value.signup.SignupOpen? <==> d.inviteRequired == Some(false))
                  && (detected.value.signup.SignupByInvite? <==> d.inviteRequired == Some(true))
                  && (detected.value.source.PdsOpenSignup? <==> d.inviteRequired == Some(false))
                  && Witnesses(detected.value.evidence, d, page))
  {
    if |d.domains| > 10 { assert d.domains[..10] <= d.domains; }
  }

  /** The evidence repeats what was seen: at most ten domains, and which of the contacts and policies exist. */
  predicate Witnesses(e: Evidence, d: Description, page: Option<Page>) {
    && e.domains <= d.domains && (|e.domains| == 10 || e.domains == d.domains) && |e.domains| <= 10
    && e.inviteRequired == d.inviteRequired && e.page == page
    && (e.hasContact <==> d.contact.Some?) && (e.hasPrivacyPolicy <==> d.privacyPolicy.Some?)
    && (e.hasTermsOfService <==> d.termsOfService.Some?)
  }

  predicate SameVerdict(a: Option<Detected>, b: Option<Detected>) {
    (a.Some? <==> b.Some?) && (a.Some? ==> a.value.source == b.value.source && a.value.signup == b.value.signup)
  }

  /** The landing page is fetched only when it could decide; fetching it always would reach the same verdict. */
  lemma LazyPageSuffices(d: Description, accounts: nat, page: Option<Page>)
    ensures SameVerdict(DetectPdsPublicIntent(d, accounts, if WantsPage(d, accounts) then page else None),
                        DetectPdsPublicIntent(d, accounts, page))
  {
  }

  /** For a host with enough accounts the page is fetched exactly when some page could change the verdict. */
  lemma PageDecidesExactly(d: Description, accounts: nat)
    requires accounts >= MIN_ACCOUNTS
    ensures WantsPage(d, accounts) <==>
            exists page :: !SameVerdict(DetectPdsPublicIntent(d, accounts, None),
                DetectPdsPublicIntent(d, accounts, page))
  {
    var some := Some(Page("", ""));
    if WantsPage(d, accounts) {
      assert !SameVerdict(DetectPdsPublicIntent(d, accounts, None), DetectPdsPublicIntent(d, accounts, some));
    }
  }

  // ---------------------------------------------------------------- one run

  datatype Probed = Probed(description: Option<Description>, page: Option<Page>)

  function Probe(w: Web, endpoint: string, accounts: nat): Probed {
    match w.normalize(endpoint)
    case None => Probed(None, None)
    case Some(e) =>
      match w.describe(e)
      case None => Probed(None, None)
      case Some(d) => Probed(Some(d), if WantsPage(d, accounts) then w.page(e) else None)
  }

  /** The stored status came from an earlier detection. */
  predicate FromPds(r: Row) { r.source.Some? }

  function PersistDetection(r: Row, detected: Option<Detected>, at: int): Row {
    match detected
    case Some(d) =>
      r.(signup := if r.signup.SignupUnknown? || FromPds(r) then d.signup else r.signup,
         status := DetectedIntent, source := Some(d.source), checkedAt := Some(at), attemptedAt := Some(at),
         evidence := Some(d.evidence), updatedAt := at)
    case None =>
      r.(signup := if FromPds(r) then AccountHostTables.SignupUnknown else r.signup,
         status := NotDetected, source := None, checkedAt := Some(at), attemptedAt := Some(at), evidence := None,
         updatedAt := at)
  }

  /** `None`: the host could not be described, or nothing public was found there. */
  function Verdict(p: Probed, accounts: nat): Option<Detected> {
    if p.description.None? then None else DetectPdsPublicIntent(p.description.value, accounts, p.page)
  }

  /** A host is described if and only if its endpoint is a valid address and the server there answers, and the verdict
      is then the one that fetching its page in any case would reach. */
  lemma ProbesExactly(w: Web, endpoint: string, accounts: nat)
    ensures var p := Probe(w, endpoint, accounts);
            match w.normalize(endpoint)
            case None => p.description.None? && Verdict(p, accounts).None?
            case Some(e) =>
              && p.description == w.describe(e)
              && (w.describe(e).None? ==> Verdict(p, accounts).None?)
              && (w.describe(e).Some? ==>
                    SameVerdict(Verdict(p, accounts),
                                DetectPdsPublicIntent(w.describe(e).value, accounts, w.page(e))))
  {
    if w.normalize(endpoint).Some? && w.describe(w.normalize(endpoint).value).Some? {
      var e := w.normalize(endpoint).value;
      LazyPageSuffices(w.describe(e).value, accounts, w.page(e));
    }
  }

  /** What a probe does to a row: an unreachable host is only stamped. */
  function RowAfterProbe(r: Row, p: Probed, at: int): Row {
    if p.description.None? then r.(attemptedAt := Some(at)) else PersistDetection(r, Verdict(p, r.accounts), at)
  }

  function RowAfter(r: Row, w: Web, at: int): Row { RowAfterProbe(r, Probe(w, r.endpoint, r.accounts), at) }

  predicate Eligible(r: Row) {
    r.observable && r.unclaimed && r.activeAccounts > 0 && r.accounts >= MIN_ACCOUNTS && r.https && r.signupUrl == ""
  }

  predicate Due(r: Row, before: int) { r.attemptedAt.None? || r.attemptedAt.value < before }

  predicate Candidate(hosts: map<Host, Row>, before: int, h: Host) {
    h in hosts && Eligible(hosts[h]) && Due(hosts[h], before)
  }

  /** Those never or longest ago attempted first, then the larger ones, then by name. */
  predicate Precedes(hosts: map<Host, Row>, a: Host, b: Host)
    requires a in hosts && b in hosts
  {
    var s, t := hosts[a].attemptedAt.GetOr(0), hosts[b].attemptedAt.GetOr(0);
    s < t || (s == t && (hosts[a].accounts > hosts[b].accounts || (hosts[a].accounts == hosts[b].accounts && a < b)))
  }

  lemma PrecedesIsAnOrder(hosts: map<Host, Row>, a: Host, b: Host, c: Host)
    requires a in hosts && b in hosts && c in hosts
    ensures a != b ==> (Precedes(hosts, a, b) <==> !Precedes(hosts, b, a))
    ensures Precedes(hosts, a, b) && Precedes(hosts, b, c) ==> Precedes(hosts, a, c)
  {
  }

  /** What the query returns. */
  ghost predicate Selected(hosts: map<Host, Row>, before: int, limit: nat, cs: seq<Host>) {
    && |cs| <= limit
    && (forall h :: h in cs ==> Candidate(hosts, before, h))
    && (forall i, j :: 0 <= i < j < |cs| ==> cs[i] in hosts && cs[j] in hosts && Precedes(hosts, cs[i], cs[j]))
    && (forall q :: Candidate(hosts, before, q) && q !in cs ==> |cs| == limit && forall h :: h in cs ==>
                                                                                               Precedes(hosts, h, q))
  }

  function After(hosts: map<Host, Row>, cs: seq<Host>, w: Web, at: int): map<Host, Row> {
    map h | h in hosts :: if h in cs then RowAfter(hosts[h], w, at) else hosts[h]
  }

  // ---------------------------------------------------------------- what a run leaves

  /** The host is one that the relay shows, nobody owns, with active accounts, at least two in all, an https address
      and no sign-up page of its own, and it has not been tried since then. */
  predicate MayBeProbed(r: Row, before: int) {
    && r.observable && r.unclaimed && r.activeAccounts >= 1 && r.accounts >= 2 && r.https && r.signupUrl == ""
    && (r.attemptedAt.Some? ==> r.attemptedAt.value < before)
  }

  /** A run probes only hosts that may be probed, and all of them if there are no more than its limit. */
  lemma ProbedExactly(hosts: map<Host, Row>, before: int, limit: nat, cs: seq<Host>, h: Host)
    requires Selected(hosts, before, limit, cs)
    ensures h in cs ==> h in hosts && MayBeProbed(hosts[h], before)
    ensures h in hosts && MayBeProbed(hosts[h], before) && |cs| < limit ==> h in cs
  {
    assert h in cs ==> Candidate(hosts, before, h);
    assert h in hosts && MayBeProbed(hosts[h], before) ==> Candidate(hosts, before, h);
  }

  predicate SameOtherwise(r: Row, r': Row) {
    && r'.observable == r.observable && r'.unclaimed == r.unclaimed && r'.activeAccounts == r.activeAccounts
    && r'.accounts == r.accounts && r'.endpoint == r.endpoint && r'.https == r.https && r'.signupUrl == r.signupUrl
  }

  /** The host could not be described: only the attempt is noted. */
  predicate OnlyAttempted(r: Row, r': Row, at: int) { r' == r.(attemptedAt := Some(at)) }

  /** Public sign-up was found: its kind and evidence are noted, and its status too, unless the host declares another
      one of its own. */
  predicate FoundPublic(r: Row, r': Row, v: Detected, at: int) {
    && SameOtherwise(r, r') && r'.status.DetectedIntent? && r'.source == Some(v.source)
        && r'.evidence == Some(v.evidence)
    && r'.checkedAt == Some(at) && r'.attemptedAt == Some(at) && r'.updatedAt == at
    && r'.signup == (if r.source.None? && !r.signup.SignupUnknown? then r.signup else v.signup)
  }

  /** Nothing public was found: what an earlier detection had noted is forgotten. */
  predicate FoundNothing(r: Row, r': Row, at: int) {
    && SameOtherwise(r, r') && r'.status.NotDetected? && r'.source.None? && r'.evidence.None?
    && r'.checkedAt == Some(at) && r'.attemptedAt == Some(at) && r'.updatedAt == at
    && (r.source.None? ==> r'.signup == r.signup) && (r.source.Some? ==> r'.signup.SignupUnknown?)
  }

  /** What a run leaves of every host. */
  lemma EveryRowAfter(hosts: map<Host, Row>, cs: seq<Host>, w: Web, at: int, h: Host)
    requires h in hosts
    ensures After(hosts, cs, w, at).Keys == hosts.Keys
    ensures var r, r' := hosts[h], After(hosts, cs, w, at)[h];
            var p := Probe(w, r.endpoint, r.accounts);
            if h !in cs then r' == r
            else if p.description.None? then OnlyAttempted(r, r', at)
            else match Verdict(p, r.accounts)
                 case Some(v) => FoundPublic(r, r', v, at)
                 case None => FoundNothing(r, r', at)
  {
  }

  function Having(cs: seq<Host>, p: Host -> bool): set<Host> { set h | h in cs && p(h) }

  lemma HavingOneMore(front: seq<Host>, last: Host, p: Host -> bool)
    ensures Having(front + [last], p) == if p(last) then Having(front, p) + {last} else Having(front, p)
  {
  }

  /** Counting a list without repetitions is counting the set of its members. */
  lemma {:induction false} CountIsSize(cs: seq<Host>, p: Host -> bool)
    requires forall i, j :: 0 <= i < j < |cs| ==> cs[i] != cs[j]
    ensures Count(cs, p) == |Having(cs, p)|
  {
    if cs == [] {
      assert Having(cs, p) == {};
    } else {
      var front, last := cs[..|cs| - 1], cs[|cs| - 1];
      CountIsSize(front, p);
      HavingOneMore(front, last, p);
      assert cs == front + [last];
      assert last !in Having(front, p);
    }
  }

  datatype Summary = Summary(candidates: nat, checked: nat, detected: nat, notDetected: nat, unavailable: nat)

  function ProbeOf(hosts: map<Host, Row>, w: Web, h: Host): Probed
    requires h in hosts
  {
    Probe(w, hosts[h].endpoint, hosts[h].accounts)
  }

  predicate Reachable(hosts: map<Host, Row>, w: Web, h: Host) {
    h in hosts && ProbeOf(hosts, w, h).description.Some?
  }

  predicate Detects(hosts: map<Host, Row>, w: Web, h: Host) {
    h in hosts && Verdict(ProbeOf(hosts, w, h), hosts[h].accounts).Some?
  }

  function Count(cs: seq<Host>, p: Host -> bool): nat {
    if cs == [] then 0 else Count(cs[..|cs| - 1], p) + if p(cs[|cs| - 1]) then 1 else 0
  }

  function IsReachable(hosts: map<Host, Row>, w: Web): Host -> bool { (h: Host) => Reachable(hosts, w, h) }
  function IsDetected(hosts: map<Host, Row>, w: Web): Host -> bool { (h: Host) => Detects(hosts, w, h) }

  function PositiveInteger(value: Option<real>, fallback: nat, maximum: nat): (n: nat)
    requires 1 <= fallback <= maximum
    ensures 1 <= n <= maximum
    ensures value.None? ==> n == fallback
    ensures value.Some? && 1.0 <= value.value < maximum as real ==> n as real <= value.value < (n + 1) as real
    ensures value.Some? && value.value < 1.0 ==> n == 1
    ensures value.Some? && value.value >= maximum as real ==> n == maximum
  {
    if value.None? then fallback
    else if value.value.Floor < 1 then 1
    else if value.value.Floor > maximum then maximum
    else value.value.Floor
  }

  function FiniteNonNegativeInteger(value: Option<real>, fallback: real): (n: int)
    ensures var x := if value.Some? && value.value >= 0.0 then value.value else fallback;
            n as real <= x < (n + 1) as real
  {
    if value.Some? && value.value >= 0.0 then value.value.Floor else fallback.Floor
  }

  // ---------------------------------------------------------------- many runs

  /** A completed enrichment run, or any other writing to the host table, which leaves the attempt stamps alone. */
  datatype Event = Enrich(at: int, limit: nat, cs: seq<Host>, w: Web) | OtherWrites

  ghost predicate Next(hosts: map<Host, Row>, e: Event, hosts': map<Host, Row>) {
    match e
    case Enrich(at, limit, cs, w) => Selected(hosts, at - RECHECK_MS, limit, cs) && hosts' == After(hosts, cs, w, at)
    case OtherWrites => forall h :: h in hosts ==> h in hosts' && hosts'[h].attemptedAt == hosts[h].attemptedAt
  }

  ghost predicate History(trace: seq<map<Host, Row>>, es: seq<Event>) {
    |trace| == |es| + 1 && forall i :: 0 <= i < |es| ==> Next(trace[i], es[i], trace[i + 1])
  }

  predicate Probes(e: Event, h: Host) { e.Enrich? && h in e.cs }

  ghost predicate AttemptedSince(hosts: map<Host, Row>, h: Host, t: int) {
    h in hosts && hosts[h].attemptedAt.Some? && t <= hosts[h].attemptedAt.value
  }

  lemma {:induction false} StampsOnlyGrow(trace: seq<map<Host, Row>>, es: seq<Event>, i: nat, j: nat, h: Host, t: int)
    requires History(trace, es) && i <= j < |trace| && AttemptedSince(trace[i], h, t)
    ensures AttemptedSince(trace[j], h, t)
    decreases j
  {
    if i < j {
      StampsOnlyGrow(trace, es, i, j - 1, h, t);
      assert Next(trace[j - 1], es[j - 1], trace[j]);
      if Probes(es[j - 1], h) {
        assert Candidate(trace[j - 1], es[j - 1].at - RECHECK_MS, h);
      }
    }
  }

  /** Two runs never probe one host within 24 hours of each other, whatever happens in between and whatever clock
      readings the runs were given. */
  lemma ProbedADayApart(trace: seq<map<Host, Row>>, es: seq<Event>, i: nat, j: nat, h: Host)
    requires History(trace, es) && i < j < |es| && Probes(es[i], h) && Probes(es[j], h)
    ensures es[j].at - es[i].at > RECHECK_MS
  {
    assert Next(trace[i], es[i], trace[i + 1]) && Next(trace[j], es[j], trace[j + 1]);
    assert Candidate(trace[i], es[i].at - RECHECK_MS, h) && Candidate(trace[j], es[j].at - RECHECK_MS, h);
    assert AttemptedSince(trace[i + 1], h, es[i].at);
    StampsOnlyGrow(trace, es, i + 1, j, h, es[i].at);
  }

  /** Every eligible host that a run leaves out comes after all that it probes, so it is nearer the front next time. */
  lemma LeftOutMovesUp(hosts: map<Host, Row>, at: int, limit: nat, cs: seq<Host>, w: Web, q: Host, h: Host)
    requires Selected(hosts, at - RECHECK_MS, limit, cs) && Candidate(hosts, at - RECHECK_MS, q) && q !in cs && h in cs
    requires at > RECHECK_MS
    ensures Precedes(hosts, h, q)
    ensures Precedes(After(hosts, cs, w, at), q, h)
  {
    assert Candidate(hosts, at - RECHECK_MS, h);
  }

  // ---------------------------------------------------------------- a declared sign-up status

  /** A status that did not come from detection is kept by the first detection, but its origin is forgotten: after
      the next check it is still there exactly when that check happens to detect the same one. */
  lemma DeclaredStatusSurvivesExactly(r: Row, d: Detected, at: int, next: Option<Detected>, later: int)
    requires !FromPds(r) && !r.signup.SignupUnknown?
    ensures PersistDetection(r, Some(d), at).signup == r.signup
    ensures PersistDetection(PersistDetection(r, Some(d), at), next, later).signup == r.signup
       <==> next.Some? && next.value.signup == r.signup
  {
  }

  /** A host that declares its sign-up closed; the first probe finds a server that asks for no invitation, the second
      one a server that describes no domain. */
  function DeclaredHost(): Row {
    Row(true, true, 1, MIN_ACCOUNTS, "", true, "", AccountHostTables.SignupClosed, NotChecked, None, None, None, None,
        0)
  }

  function Describing(domains: seq<string>): Web {
    Web(x => Some(x), x => Some(Description(domains, Some(false), None, None, None)), x => None)
  }

  /** Two runs, two days apart, after which the declared status is gone. */
  lemma DeclaredStatusIsLost()
    returns (trace: seq<map<Host, Row>>, es: seq<Event>)
    ensures |es| == 2 && History(trace, es) && trace[0] == map[1 := DeclaredHost()]
    ensures Probes(es[0], 1) && 1 in trace[1] && trace[1][1].signup == DeclaredHost().signup
    ensures Probes(es[1], 1) && 1 in trace[2] && trace[2][1].signup.SignupUnknown?
  {
    var r := DeclaredHost();
    var first, second := Enrich(RECHECK_MS, 1, [1], Describing([[]])), Enrich(3 * RECHECK_MS, 1, [1], Describing([]));
    var r1 := RowAfter(r, first.w, first.at);
    var r2 := RowAfter(r1, second.w, second.at);
    trace, es := [map[1 := r], map[1 := r1], map[1 := r2]], [first, second];
    assert Candidate(trace[0], 0, 1) && Candidate(trace[1], 2 * RECHECK_MS, 1);
    assert After(trace[0], [1], first.w, first.at) == trace[1];
    assert After(trace[1], [1], second.w, second.at) == trace[2];
  }
}
