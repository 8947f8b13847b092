/** The public host directory (lib/account-hosts.ts): which hosts are listed, in what order, and on which page. */
module AccountHostDirectory {
  import opened Wrappers
  import opened StableSort
  import opened Text
  import AccountHostTables

  const ACTIVITY_MAX_AGE_MS: int := 48 * 60 * 60 * 1000
  const CLAIM_GRACE_MS: int := 72 * 60 * 60 * 1000
  const INTENT_MAX_AGE_MS: int := 7 * 24 * 60 * 60 * 1000

  type Verification = AccountHostTables.Verification
  type Signup = AccountHostTables.Signup
  datatype Conformance = Conformance(passed: bool, expiresAt: Option<int>)
  datatype Order = Recommended | Accounts | Recent | Name
  datatype Availability = RelayActive | DirectlyReachable | Grace | Unavailable

  datatype Host = Host(
    host: string, displayName: string, verification: Verification, seeded: bool, signup: Signup, signupUrl: Option<Url>,
    accounts: int, activeAccounts: int, lastIndexedAt: Option<int>, lastActiveAt: Option<int>,
    conformance: Option<Conformance>,
    intentDetected: bool, intentCheckedAt: Option<int>, optIn: Option<bool>,
    lastObservedAt: Option<int>, lastCheckedAt: Option<int>, updatedAt: int)

  // ---------------------------------------------------------------- sign-up URLs

  /** The host of a parsed URL: a domain name, an IPv4 address by its bytes, or an IPv6 address by its words. */
  datatype Hostname = Domain(name: string) | Ipv4(a: nat, b: nat, c: nat, d: nat) | Ipv6(words: seq<nat>)

  /** A parsed URL; `rest` is the host, the port, the path and the query as they are printed. */
  datatype Url = Url(scheme: string, username: string, password: string, hostname: Hostname, rest: string)

  /** The text that is stored. */
  function Href(u: Url): string {
    u.scheme + "://" + (if u.username == "" && u.password == "" then "" else u.username + ":" + u.password + "@")
    + u.rest
  }

  /** Top-level names reserved for local or special use. */
  const RESERVED := ["localhost", "local", "internal", "home.arpa", "test", "invalid", "example", "onion"]

  predicate EndsWith(s: string, suffix: string) { |suffix| <= |s| && s[|s| - |suffix|..] == suffix }

  /** Lower case, without one dot at the end. */
  function Bare(name: string): string {
    var s := Lower(name);
    if s != "" && s[|s| - 1] == '.' then s[..|s| - 1] else s
  }

  predicate NonPublicIpv4(a: nat, b: nat, c: nat) {
    || a == 0 || a == 10 || a == 127
    || (a == 100 && 64 <= b <= 127)
    || (a == 169 && b == 254)
    || (a == 172 && 16 <= b <= 31)
    || (a == 192 && (b == 168 || (b == 0 && (c == 0 || c == 2))))
    || (a == 198 && (b == 18 || b == 19 || (b == 51 && c == 100)))
    || (a == 203 && b == 0 && c == 113)
    || a >= 224
  }

  predicate ZeroUpTo(words: seq<nat>, n: nat)
    requires n <= |words|
  {
    forall i :: 0 <= i < n ==> words[i] == 0
  }

  /** Loopback, private, link-local, multicast and documentation ranges, and IPv4 addresses inside IPv6 ones. */
  predicate NonPublicIpv6(w: seq<nat>)
    requires |w| == 8
  {
    || (ZeroUpTo(w, 7) && w[7] <= 1)
    || w[0] / 0x200 == 0xfc00 / 0x200 || w[0] / 0x40 == 0xfe80 / 0x40 || w[0] / 0x40 == 0xfec0 / 0x40
    || w[0] / 0x100 == 0xff
    || (w[0] == 0x0100 && w[1] == 0 && w[2] == 0 && w[3] == 0)
    || (w[0] == 0x2001 && w[1] == 0x0002 && w[2] == 0)
    || (w[0] == 0x2001 && w[1] == 0x0db8)
    || (w[0] == 0x3fff && w[1] / 0x1000 == 0)
    || (ZeroUpTo(w, 5) && (w[5] == 0xffff || w[5] == 0) && NonPublicIpv4(w[6] / 0x100, w[6] % 0x100, w[7] / 0x100))
  }

  predicate PrivateHostname(h: Hostname) {
    match h
    case Domain(name) => exists i :: 0 <= i < |RESERVED| && (Bare(name) == RESERVED[i]
                                                             || EndsWith(Bare(name), "." + RESERVED[i]))
    case Ipv4(a, b, c, _) => NonPublicIpv4(a, b, c)
    case Ipv6(words) => |words| == 8 && NonPublicIpv6(words)
  }

  /** The full check of a sign-up URL. */
  predicate PublicHttpsUrl(u: Url) {
    u.scheme == "https" && u.username == "" && u.password == "" && !PrivateHostname(u.hostname)
  }

  /** The check made before a host record's URL is stored; it does not look at the host name. */
  predicate RecordHttpsUrl(u: Url) { u.scheme == "https" && u.username == "" && u.password == "" }

  /** What the writers of the column let in: host records, and the forms that use the full check. */
  predicate Storable(u: Url) { RecordHttpsUrl(u) || PublicHttpsUrl(u) }

  const HTTPS := "https://"

  /** The prefix test that the query uses instead: `lower(signup_url) LIKE 'https://%'`. */
  predicate HttpsPrefix(u: Url) { HTTPS <= Lower(Href(u)) }

  lemma LowerPrefix(prefix: string, s: string)
    requires Lower(prefix) == prefix && prefix <= s
    ensures prefix <= Lower(s)
  {
    assert forall i :: 0 <= i < |prefix| ==> Lower(s)[i] == Lower(prefix)[i];
  }

  /** So the prefix test tells nothing about a stored URL, while the full test asks for a public host name. */
  lemma StoredUrls(u: Url)
    requires Storable(u)
    ensures HttpsPrefix(u)
    ensures PublicHttpsUrl(u) <==> !PrivateHostname(u.hostname)
  {
    assert Lower(HTTPS) == HTTPS;
    assert HTTPS <= Href(u);
    LowerPrefix(HTTPS, Href(u));
  }

  // ---------------------------------------------------------------- which hosts are listed

  predicate AtLeast(t: Option<int>, bound: int) { t.Some? && t.value >= bound }

  function AvailabilityOf(h: Host, at: int): Availability {
    if AtLeast(h.lastIndexedAt, at - ACTIVITY_MAX_AGE_MS) && h.activeAccounts > 0 then RelayActive
    else if h.conformance.Some? && h.conformance.value.passed && AtLeast(h.conformance.value.expiresAt, at + 1)
    then DirectlyReachable
    else if !h.verification.Observed? && AtLeast(h.lastActiveAt, at - CLAIM_GRACE_MS) then Grace
      else Unavailable
  }

  predicate FreshIntent(h: Host, at: int) { h.intentDetected && AtLeast(h.intentCheckedAt, at - INTENT_MAX_AGE_MS) }

  predicate PubliclyListable(h: Host, at: int) {
    && h.optIn != Some(false)
    && (!h.verification.Observed? || h.seeded || (h.signupUrl.Some? && PublicHttpsUrl(h.signupUrl.value))
        || FreshIntent(h, at))
    && !AvailabilityOf(h, at).Unavailable?
  }

  /** Not before the given number of hours ago. */
  predicate Within(t: Option<int>, at: int, hours: int) { t.Some? && at - t.value <= hours * 3_600_000 }

  predicate PassedUntilAfter(c: Option<Conformance>, at: int) {
    c.Some? && c.value.passed && c.value.expiresAt.Some? && at < c.value.expiresAt.value
  }

  /** How a host is available: the relay has indexed active accounts there within two days; else it has passed a direct
      check that has not expired; else it is claimed or verified and was active within three days. */
  lemma AvailabilityExactly(h: Host, at: int)
    ensures var relay := Within(h.lastIndexedAt, at, 48) && h.activeAccounts > 0;
            var direct := PassedUntilAfter(h.conformance, at);
            var claimed := (h.verification.Verified? || h.verification.Claimed?) && Within(h.lastActiveAt, at, 72);
            && (AvailabilityOf(h, at).RelayActive? <==> relay)
            && (AvailabilityOf(h, at).DirectlyReachable? <==> !relay && direct)
            && (AvailabilityOf(h, at).Grace? <==> !relay && !direct && claimed)
            && (AvailabilityOf(h, at).Unavailable? <==> !relay && !direct && !claimed)
  {
  }

  /** A host is listed when its operator has not opted out, it is available, and it is meant for the public: claimed,
      seeded, with a public sign-up page, or detected as such within a week. */
  lemma ListableExactly(h: Host, at: int)
    ensures PubliclyListable(h, at) <==>
            && h.optIn != Some(false) && !AvailabilityOf(h, at).Unavailable?
            && (h.verification.Verified? || h.verification.Claimed? || h.seeded
                || (h.signupUrl.Some? && var u := h.signupUrl.value;
                                      u.scheme == "https" && u.username == "" && u.password == ""
                                      && !PrivateHostname(u.hostname))
                || (h.intentDetected && Within(h.intentCheckedAt, at, 7 * 24)))
  {
  }

  /** The WHERE clause of the directory query. */
  predicate VisibleBySql(h: Host, at: int) {
    && h.optIn.GetOr(true)
    && ((h.activeAccounts > 0 && AtLeast(h.lastIndexedAt, at - ACTIVITY_MAX_AGE_MS))
        || (h.conformance.Some? && h.conformance.value.passed && h.conformance.value.expiresAt.Some?
            && h.conformance.value.expiresAt.value > at)
        || ((h.verification.Verified? || h.verification.Claimed?) && AtLeast(h.lastActiveAt, at - CLAIM_GRACE_MS)))
    && (h.verification.Verified? || h.verification.Claimed? || h.seeded
        || (h.signupUrl.Some? && HttpsPrefix(h.signupUrl.value)) || FreshIntent(h, at))
  }

  /** The query lists a host that the predicate hides exactly when its only sign of public intent is a stored
      sign-up URL on a private or reserved host name; it never hides one that the predicate lists. */
  lemma SqlAgreesExactly(h: Host, at: int)
    requires h.signupUrl.Some? ==> Storable(h.signupUrl.value)
    ensures PubliclyListable(h, at) ==> VisibleBySql(h, at)
    ensures VisibleBySql(h, at) && !PubliclyListable(h, at) <==>
            && h.optIn != Some(false) && !AvailabilityOf(h, at).Unavailable?
            && h.verification.Observed? && !h.seeded && !FreshIntent(h, at)
            && h.signupUrl.Some? && PrivateHostname(h.signupUrl.value.hostname)
  {
    if h.signupUrl.Some? { StoredUrls(h.signupUrl.value); }
  }

  const LOCALHOST := Url("https", "", "", Domain("localhost"), "localhost/")

  lemma LocalhostIsPrivate()
    ensures RecordHttpsUrl(LOCALHOST) && Href(LOCALHOST) == "https://localhost/" && PrivateHostname(LOCALHOST.hostname)
  {
    assert Bare("localhost") == RESERVED[0];
  }

  /** Such a host: an available, observed one whose host record gives `https://localhost/` as its sign-up page. */
  lemma SqlListsPrivateHost(at: int) returns (h: Host)
    ensures h.signupUrl == Some(LOCALHOST) && Storable(LOCALHOST)
    ensures VisibleBySql(h, at) && !PubliclyListable(h, at)
  {
    hide Href, PrivateHostname, HttpsPrefix, PublicHttpsUrl;
    LocalhostIsPrivate();
    h := Host([], [], AccountHostTables.Observed, false, AccountHostTables.SignupOpen, Some(LOCALHOST), 1, 1,
              Some(at), None, None,
              false, None, None, None, None, at);
    SqlAgreesExactly(h, at);
  }

  // ---------------------------------------------------------------- the order

  function VerificationRank(v: Verification): int {
    match v
    case Verified => 0
    case Claimed => 1
    case Observed => 2
  }

  function SignupRank(s: Signup): int {
    match s
    case SignupOpen => 0
    case SignupByInvite => 1
    case SignupClosed => 2
    case SignupUnknown => 3
  }

  function ClaimedRank(v: Verification): int { if v.Observed? then 1 else 0 }

  function RecentAt(h: Host): int { h.lastObservedAt.GetOr(h.lastCheckedAt.GetOr(h.updatedAt)) }

  /** The first difference that is not zero, as `a || b` picks it. */
  function Then(a: int, b: int): int { if a != 0 then a else b }

  function ByName(collate: (string, string) -> int, a: Host, b: Host): int {
    Then(collate(a.displayName, b.displayName), collate(a.host, b.host))
  }

  function Stable(collate: (string, string) -> int, a: Host, b: Host): int {
    Then(VerificationRank(a.verification) - VerificationRank(b.verification),
         Then(SignupRank(a.signup) - SignupRank(b.signup), ByName(collate, a, b)))
  }

  function Compare(collate: (string, string) -> int, order: Order, a: Host, b: Host): int {
    match order
    case Recommended =>
      Then(Then(b.accounts - a.accounts,
                Then(ClaimedRank(a.verification) - ClaimedRank(b.verification), ByName(collate, a, b))),
           Stable(collate, a, b))
    case Accounts => Then(Then(b.accounts - a.accounts, b.activeAccounts - a.activeAccounts), Stable(collate, a, b))
    case Recent => Then(RecentAt(b) - RecentAt(a), Stable(collate, a, b))
    case Name => ByName(collate, a, b)
  }

  function InOrder(collate: (string, string) -> int, order: Order): (Host, Host) -> int {
    (a, b) => Compare(collate, order, a, b)
  }

  lemma NamesAreConsistent(collate: (string, string) -> int, a: Host, b: Host, c: Host)
    requires Consistent(collate)
    ensures ByName(collate, a, b) < 0 <==> ByName(collate, b, a) > 0
    ensures ByName(collate, a, b) == 0 <==> ByName(collate, b, a) == 0
    ensures ByName(collate, a, b) <= 0 && ByName(collate, b, c) <= 0 ==> ByName(collate, a, c) <= 0
    ensures ByName(collate, a, b) == 0 && ByName(collate, b, c) == 0 ==> ByName(collate, a, c) == 0
  {
    var x, y, z := a.displayName, b.displayName, c.displayName;
    var p, q, r := a.host, b.host, c.host;
    assert Flips(collate, x, y) && Flips(collate, y, x) && Flips(collate, p, q) && Flips(collate, q, p);
    assert Flips(collate, x, z) && Flips(collate, z, x) && Flips(collate, y, z) && Flips(collate, z, y);
    assert Flips(collate, p, r) && Flips(collate, r, p) && Flips(collate, q, r) && Flips(collate, r, q);
    assert Chains(collate, x, y, z) && Chains(collate, z, y, x) && Chains(collate, p, q, r) && Chains(collate, r, q, p);
    assert Chains(collate, z, x, y) && Chains(collate, y, z, x) && Chains(collate, x, z, y) && Chains(collate, y, x, z);
  }

  /** Every order of the directory is consistent. */
  lemma OrderIsConsistent(collate: (string, string) -> int, order: Order)
    requires Consistent(collate)
    ensures Consistent(InOrder(collate, order))
  {
    forall a, b ensures Flips(InOrder(collate, order), a, b) {
      NamesAreConsistent(collate, a, b, a);
    }
    forall a, b, c ensures Chains(InOrder(collate, order), a, b, c) {
      NamesAreConsistent(collate, a, b, c);
      NamesAreConsistent(collate, a, c, b);
      NamesAreConsistent(collate, b, a, c);
      NamesAreConsistent(collate, b, c, a);
    }
  }

  /** By display name, and hosts of one display name by host name. */
  predicate NamesInOrder(collate: (string, string) -> int, a: Host, b: Host) {
    collate(a.displayName, b.displayName) < 0
    || (collate(a.displayName, b.displayName) == 0 && collate(a.host, b.host) <= 0)
  }

  predicate SameNames(collate: (string, string) -> int, a: Host, b: Host) {
    collate(a.displayName, b.displayName) == 0 && collate(a.host, b.host) == 0
  }

  /** Verified hosts first and merely observed ones last; open sign-up first, then by invitation, then closed, and
      unknown last; then by name. */
  predicate BestKnownFirst(collate: (string, string) -> int, a: Host, b: Host) {
    var v, u, x, y := a.verification, b.verification, a.signup, b.signup;
    || (v.Verified? && !u.Verified?) || (v.Claimed? && u.Observed?)
    || (v == u && ((x.SignupOpen? && !y.SignupOpen?) || (x.SignupByInvite? && (y.SignupClosed? || y.SignupUnknown?))
                   || (x.SignupClosed? && y.SignupUnknown?)))
    || (v == u && x == y && NamesInOrder(collate, a, b))
  }

  /** When it was last observed, else checked, else updated. */
  predicate LastSeen(h: Host, t: int) {
    h.lastObservedAt == Some(t) || (h.lastObservedAt.None? && (h.lastCheckedAt == Some(t)
                                                               || (h.lastCheckedAt.None? && h.updatedAt == t)))
  }

  /** What each order means for a host `a` that is listed before `b`. */
  ghost predicate ListedBefore(collate: (string, string) -> int, order: Order, a: Host, b: Host) {
    match order
    case Recommended =>
      || a.accounts > b.accounts
      || (a.accounts == b.accounts && !a.verification.Observed? && b.verification.Observed?)
      || (a.accounts == b.accounts && (a.verification.Observed? <==> b.verification.Observed?)
          && NamesInOrder(collate, a, b) && (SameNames(collate, a, b) ==> BestKnownFirst(collate, a, b)))
    case Accounts =>
      || a.accounts > b.accounts || (a.accounts == b.accounts && a.activeAccounts > b.activeAccounts)
      || (a.accounts == b.accounts && a.activeAccounts == b.activeAccounts && BestKnownFirst(collate, a, b))
    case Recent =>
      exists t, u :: LastSeen(a, t) && LastSeen(b, u) && (t > u || (t == u && BestKnownFirst(collate, a, b)))
    case Name => NamesInOrder(collate, a, b)
  }

  lemma ListsExactly(collate: (string, string) -> int, order: Order, a: Host, b: Host)
    ensures InOrder(collate, order)(a, b) <= 0 <==> ListedBefore(collate, order, a, b)
  {
    if order.Recent? { assert LastSeen(a, RecentAt(a)) && LastSeen(b, RecentAt(b)); }
  }

  /** The list shows the hosts, each as often as it came, and every host before those it should precede. */
  lemma DirectoryIsInOrder(collate: (string, string) -> int, order: Order, hosts: seq<Host>)
    requires Consistent(collate)
    ensures var listed := Sort(hosts, InOrder(collate, order));
            && multiset(listed) == multiset(hosts)
            && forall i, j :: 0 <= i < j < |listed| ==> ListedBefore(collate, order, listed[i], listed[j])
  {
    hide InOrder, ListedBefore;
    OrderIsConsistent(collate, order);
    SortShape(hosts, InOrder(collate, order));
    var listed := Sort(hosts, InOrder(collate, order));
    forall i, j | 0 <= i < j < |listed| ensures ListedBefore(collate, order, listed[i], listed[j]) {
      ListsExactly(collate, order, listed[i], listed[j]);
    }
  }

  /** Hosts whose names the collation tells apart have one order, however the rows were read. */
  lemma DirectoryOrderIsUnique(collate: (string, string) -> int, order: Order, hosts: seq<Host>, rows: seq<Host>)
    requires Consistent(collate) && multiset(hosts) == multiset(rows)
    requires forall a, b :: a in hosts && b in hosts && collate(a.host, b.host) == 0 ==> a == b
    ensures Sort(hosts, InOrder(collate, order)) == Sort(rows, InOrder(collate, order))
  {
    OrderIsConsistent(collate, order);
    SortPermuted(hosts, rows, InOrder(collate, order));
  }

  // ---------------------------------------------------------------- pages

  function PageCount(total: nat, size: nat): nat
    requires size > 0
  {
    if total == 0 then 1 else (total - 1) / size + 1
  }

  function Clamp(page: nat, count: nat): nat { if page < 1 then 1 else if page > count then count else page }

  /** LIMIT and OFFSET for the page that is shown. */
  function PageOf<T>(rows: seq<T>, page: nat, size: nat): seq<T>
    requires size > 0
  {
    var from := (Clamp(page, PageCount(|rows|, size)) - 1) * size;
    if from >= |rows| then [] else if from + size >= |rows| then rows[from..] else rows[from..from + size]
  }

  function Pages<T>(rows: seq<T>, n: nat, size: nat): seq<T>
    requires size > 0
  {
    if n == 0 then [] else Pages(rows, n - 1, size) + PageOf(rows, n, size)
  }

  lemma LastPage(total: nat, size: nat)
    requires size > 0 && total > 0
    ensures (PageCount(total, size) - 1) * size < total <= PageCount(total, size) * size
  {
    var q := (total - 1) / size;
    assert q * size + (total - 1) % size == total - 1;
    assert (q + 1) * size == q * size + size;
  }

  lemma EarlierPages(n: nat, m: nat, size: nat)
    requires n <= m
    ensures n * size <= m * size
  {
  }

  lemma PageBounds(total: nat, n: nat, size: nat)
    requires size > 0 && 1 <= n <= PageCount(total, size)
    ensures n * size == (n - 1) * size + size && 0 <= (n - 1) * size <= total
    ensures total > 0 ==> (n - 1) * size < total
  {
    if total > 0 {
      LastPage(total, size);
      EarlierPages(n - 1, PageCount(total, size) - 1, size);
    }
  }

  lemma OnePage<T>(rows: seq<T>, n: nat, size: nat)
    requires size > 0 && 1 <= n <= PageCount(|rows|, size)
    ensures 0 <= (n - 1) * size <= |rows|
    ensures rows[..(n - 1) * size] + PageOf(rows, n, size) == if n * size <= |rows| then rows[..n * size] else rows
  {
    hide PageCount;
    PageBounds(|rows|, n, size);
    var from := (n - 1) * size;
    assert n * size == from + size;
  }

  lemma {:induction false} PagesAre<T>(rows: seq<T>, n: nat, size: nat)
    requires size > 0 && n <= PageCount(|rows|, size)
    ensures Pages(rows, n, size) == if n * size <= |rows| then rows[..n * size] else rows
  {
    hide PageCount, PageOf;
    if n > 0 {
      PagesAre(rows, n - 1, size);
      OnePage(rows, n, size);
    }
  }

  /** The pages, one after the other, are the whole list: no host is missing and none appears twice. */
  lemma PagesCoverTheList<T>(rows: seq<T>, size: nat)
    requires size > 0
    ensures Pages(rows, PageCount(|rows|, size), size) == rows
  {
    PagesAre(rows, PageCount(|rows|, size), size);
    if |rows| > 0 { LastPage(|rows|, size); }
  }

  /** A page past the end shows the last one, and only an empty list has an empty page. */
  lemma PagePastTheEnd<T>(rows: seq<T>, page: nat, size: nat)
    requires size > 0
    ensures page > PageCount(|rows|, size) ==> PageOf(rows, page, size) == PageOf(rows, PageCount(|rows|, size), size)
    ensures |PageOf(rows, page, size)| <= size
    ensures PageOf(rows, page, size) == [] <==> rows == []
  {
    hide PageCount;
    PageStarts(|rows|, page, size);
  }

  lemma PageStarts(total: nat, page: nat, size: nat)
    requires size > 0
    ensures PageCount(total, size) >= 1 && 0 <= (Clamp(page, PageCount(total, size)) - 1) * size
    ensures total > 0 ==> (Clamp(page, PageCount(total, size)) - 1) * size < total
  {
    if total > 0 {
      LastPage(total, size);
      EarlierPages(Clamp(page, PageCount(total, size)) - 1, PageCount(total, size) - 1, size);
    }
  }

  /** The first `n` pages, each cut from its own reading of the rows. */
  function ReadPages(readings: seq<seq<Host>>, n: nat, size: nat, cmp: (Host, Host) -> int): seq<Host>
    requires size > 0 && n <= |readings|
  {
    if n == 0 then [] else ReadPages(readings, n - 1, size, cmp) + PageOf(Sort(readings[n - 1], cmp), n, size)
  }

  lemma {:induction false} ReadPagesAre(hosts: seq<Host>, readings: seq<seq<Host>>, n: nat, size: nat,
                                        collate: (string, string) -> int, order: Order)
    requires size > 0 && n <= |readings| && Consistent(collate)
    requires forall i :: 0 <= i < |readings| ==> multiset(readings[i]) == multiset(hosts)
    requires forall a, b :: a in hosts && b in hosts && collate(a.host, b.host) == 0 ==> a == b
    ensures ReadPages(readings, n, size, InOrder(collate, order)) ==
            Pages(Sort(hosts, InOrder(collate, order)), n, size)
  {
    hide PageOf, Sort, InOrder;
    if n > 0 {
      ReadPagesAre(hosts, readings, n - 1, size, collate, order);
      DirectoryOrderIsUnique(collate, order, hosts, readings[n - 1]);
    }
  }

  /** A visitor who asks for one page after the other sees every host once, in order, although each page is a query
      of its own and the database may return the rows in a different order each time. */
  lemma PagesAgree(hosts: seq<Host>, readings: seq<seq<Host>>, size: nat, collate: (string, string) -> int,
                   order: Order)
    requires size > 0 && |readings| == PageCount(|hosts|, size) && Consistent(collate)
    requires forall i :: 0 <= i < |readings| ==> multiset(readings[i]) == multiset(hosts)
    requires forall a, b :: a in hosts && b in hosts && collate(a.host, b.host) == 0 ==> a == b
    ensures var sorted := Sort(hosts, InOrder(collate, order));
            && multiset(sorted) == multiset(hosts) && Sorted(sorted, InOrder(collate, order))
            && ReadPages(readings, |readings|, size, InOrder(collate, order)) == sorted
  {
    hide PageCount, Sort, InOrder, Sorted;
    OrderIsConsistent(collate, order);
    SortShape(hosts, InOrder(collate, order));
    var sorted := Sort(hosts, InOrder(collate, order));
    SameItems(sorted, hosts);
    ReadPagesAre(hosts, readings, |readings|, size, collate, order);
    PagesCoverTheList(sorted, size);
  }
}
