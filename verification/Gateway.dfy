/** The outbound gateway: redirect hops around retry attempts around a transport that pins every request to
    a checked address. The resolver, the providers and the time everything takes are a script chosen by an
    adversary; other collectors of the job may add denied addresses while a request is being resolved. */
module Gateway {
  import opened Wrappers
  import opened Network
  import opened Retries

  datatype Url = Url(scheme: string, host: string, rest: string)

  datatype Length = NoLength | NotAnInteger | Length(value: int)

  datatype Reply =
    | TransportFailure
    | Response(status: int, location: Url, retryAfter: HeaderValue, contentLength: Length, size: nat)

  /** One `client.get`: what is denied meanwhile, what the host resolves to (None when the resolver raises),
      what the provider answers, how long it all takes, and the random fraction of the wait after it. */
  datatype Exchange = Exchange(noted: set<Address>, resolved: Option<seq<Address>>, reply: Reply, duration: real, jitter: real)

  type Script = nat -> Exchange

  datatype Error =
    | DenyListUnpopulated
    | DisallowedHost
    | BlockedDestination
    | ResolverError
    | ProviderTimeout
    | RateLimited(retryAfter: Option<Delay>)
    | RedirectRejected
    | MalformedLength
    | ResponseTooLarge

  datatype Verdict = Success(response: Reply) | Follow(location: Url) | Failure(error: Error)

  predicate Retryable(status: int) {
    status == 429 || status == 500 || status == 502 || status == 503 || status == 504
  }

  predicate Redirecting(status: int) {
    status == 301 || status == 302 || status == 303 || status == 307 || status == 308
  }

  // ---------- the transport ----------

  datatype Handled = Answered(reply: Reply) | Refused(error: Error)

  predicate Barred(forbidden: Address -> bool, denied: Denied, a: Address) {
    forbidden(a) || denied.Contains(a)
  }

  /** Refused unless every address the host resolves to may be contacted. */
  function Handle(forbidden: Address -> bool, denied: Denied, x: Exchange): Handled {
    match x.resolved
    case None => Refused(ResolverError)
    case Some(addresses) =>
      if addresses == [] || exists i :: 0 <= i < |addresses| && Barred(forbidden, denied, addresses[i])
      then Refused(BlockedDestination)
      else Answered(x.reply)
  }

  // ---------- one hop: the attempts ----------

  /** What the attempts of one hop come to: the verdict, the next unused exchange, the time, the deny-list. */
  datatype Hop = Hop(verdict: Verdict, next: nat, clock: real, denied: Denied)

  datatype Request = Request(
    script: Script,
    forbidden: Address -> bool,
    policy: RetryPolicy,
    start: real,
    maxBytes: int,
    allowRedirects: bool)

  function Capped(response: Reply, maxBytes: int): Verdict
    requires response.Response?
  {
    if response.contentLength == NotAnInteger then Failure(MalformedLength)
    else if response.contentLength.Length? && response.contentLength.value > maxBytes then Failure(ResponseTooLarge)
    else if response.size > maxBytes then Failure(ResponseTooLarge)
    else Success(response)
  }

  /** What one answer means for the attempt loop. */
  datatype Decision = Stop(verdict: Verdict) | Again(delay: real)

  function Decide(q: Request, attempt: nat, now: real, x: Exchange, handled: Handled): Decision {
    match handled
    case Refused(error) => Stop(Failure(error))
    case Answered(TransportFailure) =>
      if attempt < q.policy.maxAttempts then Again(Backoff(attempt, q.policy, x.jitter)) else Stop(Failure(ProviderTimeout))
    case Answered(response) =>
      if Redirecting(response.status) then
        Stop(if q.allowRedirects then Follow(response.location) else Failure(RedirectRejected))
      else if response.status == 429 then
        var asked := ParseRetryAfter(response.retryAfter);
        if attempt >= q.policy.maxAttempts || asked == Some(Forever) then Stop(Failure(RateLimited(asked)))
        else
          var delay := if asked.Some? then asked.value.value else Backoff(attempt, q.policy, x.jitter);
          if now - q.start + delay > q.policy.totalBudget then Stop(Failure(RateLimited(asked))) else Again(delay)
      else if Retryable(response.status) && attempt < q.policy.maxAttempts then
        Again(Backoff(attempt, q.policy, x.jitter))
      else Stop(Capped(response, q.maxBytes))
  }

  function Attempts(q: Request, attempt: nat, k: nat, clock: real, denied: Denied): Hop
    decreases q.policy.maxAttempts + 1 - attempt
  {
    if attempt > q.policy.maxAttempts || clock - q.start > q.policy.totalBudget then
      Hop(Failure(ProviderTimeout), k, clock, denied)
    else
      var x := q.script(k);
      var now := clock + x.duration;
      var known := denied.With(x.noted);
      match Decide(q, attempt, now, x, Handle(q.forbidden, known, x))
      case Stop(verdict) => Hop(verdict, k + 1, now, known)
      case Again(delay) => Attempts(q, attempt + 1, k + 1, now + delay, known)
  }

  /** The wait after an answer that is to be retried: what Retry-After asks for on a 429, else the backoff. */
  function Pause(policy: RetryPolicy, attempt: nat, x: Exchange): real {
    if x.reply.Response? && x.reply.status == 429 then
      match ParseRetryAfter(x.reply.retryAfter)
      case Some(Seconds(value)) => value
      case _ => Backoff(attempt, policy, x.jitter)
    else Backoff(attempt, policy, x.jitter)
  }

  // ---------- the hops ----------

  /** The redirect may be followed. */
  predicate MayFollow(next: Url, allow: Option<string -> bool>, maxRedirects: int, followed: nat) {
    allow.Some? && followed < maxRedirects && next.scheme == "https" && allow.value(next.host)
  }

  function Hops(q: Request, allow: Option<string -> bool>, maxRedirects: int, followed: nat, k: nat, clock: real, denied: Denied): Hop
    decreases maxRedirects - followed
  {
    var hop := Attempts(q, 1, k, clock, denied);
    match hop.verdict
    case Follow(next) =>
      if MayFollow(next, allow, maxRedirects, followed)
      then Hops(q, allow, maxRedirects, followed + 1, hop.next, hop.clock, hop.denied)
      else hop.(verdict := Failure(RedirectRejected))
    case _ => hop
  }

  // ---------- whom a GET contacts ----------

  /** A connection: the URL it serves, and the address it is pinned to. */
  datatype Contact = Contact(url: Url, address: Address)

  function ContactOf(url: Url, x: Exchange, handled: Handled): seq<Contact> {
    if handled.Answered? && x.resolved.Some? && x.resolved.value != [] then [Contact(url, x.resolved.value[0])] else []
  }

  /** The connections of one hop's attempts, in order. */
  function ContactsOfAttempts(q: Request, url: Url, attempt: nat, k: nat, clock: real, denied: Denied): seq<Contact>
    decreases q.policy.maxAttempts + 1 - attempt
  {
    if attempt > q.policy.maxAttempts || clock - q.start > q.policy.totalBudget then []
    else
      var x := q.script(k);
      var now := clock + x.duration;
      var known := denied.With(x.noted);
      var handled := Handle(q.forbidden, known, x);
      match Decide(q, attempt, now, x, handled)
      case Stop(_) => ContactOf(url, x, handled)
      case Again(delay) => ContactOf(url, x, handled) + ContactsOfAttempts(q, url, attempt + 1, k + 1, now + delay, known)
  }

  /** The connections of a whole GET. */
  function ContactsOfHops(q: Request, url: Url, allow: Option<string -> bool>, maxRedirects: int, followed: nat, k: nat, clock: real, denied: Denied)
    : seq<Contact>
    decreases maxRedirects - followed
  {
    var hop := Attempts(q, 1, k, clock, denied);
    var mine := ContactsOfAttempts(q, url, 1, k, clock, denied);
    match hop.verdict
    case Follow(next) =>
      if MayFollow(next, allow, maxRedirects, followed)
      then mine + ContactsOfHops(q, next, allow, maxRedirects, followed + 1, hop.next, hop.clock, hop.denied)
      else mine
    case _ => mine
  }

  predicate AllFor(contacts: seq<Contact>, url: Url) {
    forall i :: 0 <= i < |contacts| ==> contacts[i].url == url
  }

  /** For the URL itself, or for an https URL of a validated host. */
  predicate Expected(url: Url, allow: Option<string -> bool>, c: Contact) {
    c.url == url || (c.url.scheme == "https" && allow.Some? && allow.value(c.url.host))
  }

  predicate AllExpected(contacts: seq<Contact>, url: Url, allow: Option<string -> bool>) {
    forall i :: 0 <= i < |contacts| ==> Expected(url, allow, contacts[i])
  }

  lemma {:induction false} AttemptsContactTheirUrl(q: Request, url: Url, attempt: nat, k: nat, clock: real, denied: Denied)
    ensures AllFor(ContactsOfAttempts(q, url, attempt, k, clock, denied), url)
    ensures ContactsOfAttempts(q, url, attempt, k, clock, denied) == [] ==> !Attempts(q, attempt, k, clock, denied).verdict.Follow?
    decreases q.policy.maxAttempts + 1 - attempt
  {
    if attempt <= q.policy.maxAttempts && clock - q.start <= q.policy.totalBudget {
      var x := q.script(k);
      var now := clock + x.duration;
      var known := denied.With(x.noted);
      var handled := Handle(q.forbidden, known, x);
      match Decide(q, attempt, now, x, handled)
      case Stop(_) =>
      case Again(delay) =>
        AttemptsContactTheirUrl(q, url, attempt + 1, k + 1, now + delay, known);
    }
  }

  /** A GET connects for its own URL first, and afterwards only for that URL or for https URLs of validated hosts. */
  lemma {:induction false} ContactsAreExpected(q: Request, url: Url, allow: Option<string -> bool>, maxRedirects: int, followed: nat, k: nat, clock: real, denied: Denied)
    ensures var contacts := ContactsOfHops(q, url, allow, maxRedirects, followed, k, clock, denied);
            AllExpected(contacts, url, allow) && (contacts != [] ==> contacts[0].url == url)
    decreases maxRedirects - followed
  {
    var hop := Attempts(q, 1, k, clock, denied);
    AttemptsContactTheirUrl(q, url, 1, k, clock, denied);
    if hop.verdict.Follow? && MayFollow(hop.verdict.location, allow, maxRedirects, followed) {
      var next := hop.verdict.location;
      ContactsAreExpected(q, next, allow, maxRedirects, followed + 1, hop.next, hop.clock, hop.denied);
    }
  }

  predicate HttpsOnly(contacts: seq<Contact>) {
    forall i :: 0 <= i < |contacts| ==> contacts[i].url.scheme == "https"
  }

  /** Every connection of a GET is https exactly when the URL it was called with is, or when it connects nowhere. */
  lemma HttpsExactly(q: Request, url: Url, allow: Option<string -> bool>, maxRedirects: int, followed: nat, k: nat, clock: real, denied: Denied)
    ensures var contacts := ContactsOfHops(q, url, allow, maxRedirects, followed, k, clock, denied);
            HttpsOnly(contacts) <==> url.scheme == "https" || contacts == []
  {
    ContactsAreExpected(q, url, allow, maxRedirects, followed, k, clock, denied);
    var contacts := ContactsOfHops(q, url, allow, maxRedirects, followed, k, clock, denied);
    if url.scheme == "https" {
      forall i | 0 <= i < |contacts| ensures contacts[i].url.scheme == "https" { assert Expected(url, allow, contacts[i]); }
    }
  }

  ghost predicate HttpsWhateverHappens(q: Request, url: Url, allow: Option<string -> bool>, maxRedirects: int, clock: real, denied: Denied) {
    forall script: Script :: HttpsOnly(ContactsOfHops(q.(script := script), url, allow, maxRedirects, 0, 0, clock, denied))
  }

  /** The first request is answered at once, from an address that may be contacted. */
  function AnswersAt(a: Address): Script {
    k => Exchange({}, Some([a]), Response(200, Url("", "", ""), Absent, NoLength, 0), 0.0, 0.0)
  }

  lemma FirstAttemptConnects(q: Request, url: Url, allow: Option<string -> bool>, maxRedirects: int, denied: Denied, a: Address)
    requires q.policy.maxAttempts >= 1 && q.policy.totalBudget >= 0.0 && q.maxBytes >= 0 && !Barred(q.forbidden, denied, a)
    requires q.script == AnswersAt(a)
    ensures ContactsOfHops(q, url, allow, maxRedirects, 0, 0, q.start, denied) == [Contact(url, a)]
    ensures Hops(q, allow, maxRedirects, 0, 0, q.start, denied).verdict == Success(AnswersAt(a)(0).reply)
  {
    var x := q.script(0);
    assert denied.With(x.noted) == denied by { assert denied.addresses + {} == denied.addresses; }
    assert Handle(q.forbidden, denied, x) == Answered(x.reply);
    assert Decide(q, 1, q.start + x.duration, x, Answered(x.reply)) == Stop(Success(x.reply));
  }

  /** So, whatever resolver and providers do, a GET is https only exactly when its caller's URL is: the gateway
      checks no other scheme than a redirect's. The exception is a GET with no attempt to make, or with no
      address it may contact. */
  lemma HttpsIsTheCallersUrl(q: Request, url: Url, allow: Option<string -> bool>, maxRedirects: int, denied: Denied, a: Address)
    requires q.policy.maxAttempts >= 1 && q.policy.totalBudget >= 0.0 && q.maxBytes >= 0 && !Barred(q.forbidden, denied, a)
    ensures HttpsWhateverHappens(q, url, allow, maxRedirects, q.start, denied) <==> url.scheme == "https"
  {
    if url.scheme == "https" {
      forall script: Script
        ensures HttpsOnly(ContactsOfHops(q.(script := script), url, allow, maxRedirects, 0, 0, q.start, denied))
      {
        HttpsExactly(q.(script := script), url, allow, maxRedirects, 0, 0, q.start, denied);
      }
    } else {
      HttpsExactly(q.(script := AnswersAt(a)), url, allow, maxRedirects, 0, 0, q.start, denied);
    }
  }

  /** A request under the default policy, answered at once. */
  function AnsweredRequest(a: Address): Request {
    Request(AnswersAt(a), (b: Address) => false, RetryPolicy(3, 0.5, 8.0, 90.0), 0.0, 2_000_000, false)
  }

  /** A plain-http URL is fetched like any other. */
  lemma PlainHttpIsSent(host: string, a: Address)
    ensures ContactsOfHops(AnsweredRequest(a), Url("http", host, "/"), None, 5, 0, 0, 0.0, Denied({}, [])) == [Contact(Url("http", host, "/"), a)]
    ensures Hops(AnsweredRequest(a), None, 5, 0, 0, 0.0, Denied({}, [])).verdict.Success?
  {
    FirstAttemptConnects(AnsweredRequest(a), Url("http", host, "/"), None, 5, Denied({}, []), a);
  }

  // ---------- bounds ----------

  ghost predicate Bounded(q: Request, limit: real) {
    q.policy.Sane() && forall k: nat :: 0.0 <= q.script(k).duration <= limit && 0.0 <= q.script(k).jitter <= 1.0
  }

  /** The attempts of one hop, taken from any point: how many requests they issue, that time and the
      deny-list only grow, and when they are over at the latest. */
  lemma {:induction false} AttemptsBounds(q: Request, attempt: nat, k: nat, clock: real, denied: Denied, limit: real)
    requires Bounded(q, limit) && clock <= q.start + q.policy.totalBudget + limit + q.policy.capDelay
    ensures var hop := Attempts(q, attempt, k, clock, denied);
            && k <= hop.next
            && hop.next - k <= (if attempt <= q.policy.maxAttempts then q.policy.maxAttempts + 1 - attempt else 0)
            && clock <= hop.clock
            && hop.clock <= q.start + q.policy.totalBudget + limit + q.policy.capDelay
            && denied.Within(hop.denied)
    decreases q.policy.maxAttempts + 1 - attempt
  {
    if attempt <= q.policy.maxAttempts && clock - q.start <= q.policy.totalBudget {
      var x := q.script(k);
      var now := clock + x.duration;
      var delay := Pause(q.policy, attempt, x);
      BackoffBounds(attempt, q.policy, x.jitter);
      PauseFits(q.policy, attempt, x);
      if now + delay <= q.start + q.policy.totalBudget + limit + q.policy.capDelay {
        AttemptsBounds(q, attempt + 1, k + 1, now + delay, denied.With(x.noted), limit);
      }
    }
  }

  /** A 429 that asks for a number of seconds gets exactly that; any other wait is the backoff, within its cap. */
  lemma PauseFits(policy: RetryPolicy, attempt: nat, x: Exchange)
    requires policy.Sane() && 0.0 <= x.jitter <= 1.0
    ensures 0.0 <= Pause(policy, attempt, x)
    ensures if x.reply.Response? && x.reply.status == 429 && x.reply.retryAfter.Number? && x.reply.retryAfter.value >= 0.0
            then Pause(policy, attempt, x) == x.reply.retryAfter.value
            else Pause(policy, attempt, x) == Backoff(attempt, policy, x.jitter) <= policy.capDelay
  {
    BackoffBounds(attempt, policy, x.jitter);
  }

  function AttemptLimit(policy: RetryPolicy): nat {
    if policy.maxAttempts < 0 then 0 else policy.maxAttempts
  }

  lemma {:induction false} HopsBounds(q: Request, allow: Option<string -> bool>, maxRedirects: int, followed: nat, k: nat, clock: real, denied: Denied, limit: real)
    requires Bounded(q, limit) && clock <= q.start + q.policy.totalBudget + limit + q.policy.capDelay
    ensures var hop := Hops(q, allow, maxRedirects, followed, k, clock, denied);
            && k <= hop.next
            && hop.next - k <= ((if followed <= maxRedirects then maxRedirects - followed else 0) + 1) * AttemptLimit(q.policy)
            && clock <= hop.clock <= q.start + q.policy.totalBudget + limit + q.policy.capDelay
            && denied.Within(hop.denied)
            && !hop.verdict.Follow?
    decreases maxRedirects - followed
  {
    AttemptsBounds(q, 1, k, clock, denied, limit);
    var hop := Attempts(q, 1, k, clock, denied);
    var n := AttemptLimit(q.policy);
    assert hop.next - k <= n;
    if followed < maxRedirects {
      HopsBounds(q, allow, maxRedirects, followed + 1, hop.next, hop.clock, hop.denied, limit);
      var rest := maxRedirects - followed - 1;
      assert (rest + 1) * n + n == (rest + 2) * n;
      assert n <= (rest + 2) * n;
    } else {
      assert n <= ((if followed <= maxRedirects then maxRedirects - followed else 0) + 1) * n;
    }
  }

  // ---------- the retry loop in closed form ----------

  /** An answer that another attempt may replace. */
  predicate Transient(forbidden: Address -> bool, denied: Denied, x: Exchange) {
    var handled := Handle(forbidden, denied, x);
    && handled.Answered?
    && (handled.reply == TransportFailure || (handled.reply.Response? && handled.reply.status in {429, 500, 502, 503, 504}))
  }

  /** The deny-list as the i-th exchange from `k` finds it. */
  function DeniedAt(script: Script, k: nat, denied: Denied, i: nat): Denied
    decreases i
  {
    if i == 0 then denied.With(script(k).noted)
    else DeniedAt(script, k + 1, denied.With(script(k).noted), i - 1)
  }

  /** The time at which the i-th attempt starts, when every earlier answer was passed over. */
  function TimeAt(q: Request, attempt: nat, k: nat, clock: real, i: nat): real
    decreases i
  {
    if i == 0 then clock
    else TimeAt(q, attempt + 1, k + 1, clock + q.script(k).duration + Pause(q.policy, attempt, q.script(k)), i - 1)
  }

  predicate InBudget(q: Request, attempt: nat, k: nat, clock: real, i: nat) {
    TimeAt(q, attempt, k, clock, i) - q.start <= q.policy.totalBudget
  }

  /** The i-th answer is transient, and does not ask for an endless wait. */
  predicate PassedOver(q: Request, k: nat, denied: Denied, i: nat) {
    var x := q.script(k + i);
    && Transient(q.forbidden, DeniedAt(q.script, k, denied, i), x)
    && !(x.reply.Response? && x.reply.status == 429 && ParseRetryAfter(x.reply.retryAfter) == Some(Forever))
  }

  /** What an answer comes to when no attempt follows it. */
  function SettleHandled(handled: Handled, allowRedirects: bool, maxBytes: int): Verdict {
    match handled
    case Refused(error) => Failure(error)
    case Answered(TransportFailure) => Failure(ProviderTimeout)
    case Answered(response) =>
      if Redirecting(response.status) then
        (if allowRedirects then Follow(response.location) else Failure(RedirectRejected))
      else if response.status == 429 then Failure(RateLimited(ParseRetryAfter(response.retryAfter)))
      else Capped(response, maxBytes)
  }

  function Settle(q: Request, denied: Denied, x: Exchange): Verdict {
    SettleHandled(Handle(q.forbidden, denied, x), q.allowRedirects, q.maxBytes)
  }

  /** Every resolved address may be contacted: none is forbidden, none is listed, and no listed range covers one. */
  predicate Clear(forbidden: Address -> bool, denied: Denied, x: Exchange) {
    && x.resolved.Some? && x.resolved.value != []
    && forall a :: a in x.resolved.value ==>
         && !forbidden(a) && a !in denied.addresses
         && forall n :: 0 <= n < |denied.networks| ==>
              denied.networks[n].version != a.version || a.value < denied.networks[n].first || a.value > denied.networks[n].last
  }

  lemma ClearIsAnswered(forbidden: Address -> bool, denied: Denied, x: Exchange)
    ensures Clear(forbidden, denied, x) <==> Handle(forbidden, denied, x) == Answered(x.reply)
    ensures !Clear(forbidden, denied, x) <==> Handle(forbidden, denied, x).Refused?
  {
    if Handle(forbidden, denied, x) == Answered(x.reply) {
      forall a | a in x.resolved.value ensures !Barred(forbidden, denied, a) {
        var i :| 0 <= i < |x.resolved.value| && x.resolved.value[i] == a;
      }
    }
  }

  /** The verdicts an answer can come to: which errors are reported when, and when the response is returned. */
  lemma SettledVerdict(q: Request, denied: Denied, x: Exchange)
    ensures var verdict, reply := Settle(q, denied, x), x.reply;
            if x.resolved.None? then verdict == Failure(ResolverError)
            else if !Clear(q.forbidden, denied, x) then verdict == Failure(BlockedDestination)
            else if reply.TransportFailure? then verdict == Failure(ProviderTimeout)
            else if reply.status in {301, 302, 303, 307, 308} then
              verdict == if q.allowRedirects then Follow(reply.location) else Failure(RedirectRejected)
            else if reply.status == 429 then
              verdict == Failure(RateLimited(match reply.retryAfter
                                             case Number(seconds) => if seconds >= 0.0 then Some(Seconds(seconds)) else None
                                             case PositiveInfinity => Some(Forever)
                                             case _ => None))
            else
              && (verdict == Failure(MalformedLength) <==> reply.contentLength == NotAnInteger)
              && (verdict == Success(reply) <==>
                    reply.size <= q.maxBytes && (reply.contentLength == NoLength || (reply.contentLength.Length? && reply.contentLength.value <= q.maxBytes)))
              && (verdict.Success? || verdict == Failure(MalformedLength) || verdict == Failure(ResponseTooLarge))
  {
    ClearIsAnswered(q.forbidden, denied, x);
  }

  /** Everything before the m-th attempt was passed over in time. */
  predicate Reaches(q: Request, attempt: nat, k: nat, clock: real, denied: Denied, m: nat) {
    && attempt + m <= q.policy.maxAttempts
    && (forall i: nat :: i < m ==> PassedOver(q, k, denied, i))
    && (forall i: nat :: i < m ==> InBudget(q, attempt, k, clock, i))
  }

  lemma ReachesLater(q: Request, attempt: nat, k: nat, clock: real, denied: Denied, m: nat)
    requires m > 0 && Reaches(q, attempt, k, clock, denied, m)
    ensures var x := q.script(k);
            Reaches(q, attempt + 1, k + 1, clock + x.duration + Pause(q.policy, attempt, x), denied.With(x.noted), m - 1)
    ensures PassedOver(q, k, denied, 0) && InBudget(q, attempt, k, clock, 0)
  {
    var x := q.script(k);
    var later := clock + x.duration + Pause(q.policy, attempt, x);
    var k1, attempt1 := k + 1, attempt + 1;
    forall i: nat | i < m - 1 ensures PassedOver(q, k1, denied.With(x.noted), i) {
      assert PassedOver(q, k, denied, i + 1);
    }
    forall i: nat | i < m - 1 ensures InBudget(q, attempt1, k1, later, i) {
      assert InBudget(q, attempt, k, clock, i + 1);
    }
  }

  /** A transient answer leaves the hop to the attempts that follow. */
  lemma PassedOverLeavesTheRest(q: Request, attempt: nat, k: nat, clock: real, denied: Denied)
    requires PassedOver(q, k, denied, 0) && InBudget(q, attempt, k, clock, 0) && InBudget(q, attempt, k, clock, 1)
    requires attempt < q.policy.maxAttempts
    ensures var x := q.script(k);
            Attempts(q, attempt, k, clock, denied)
            == Attempts(q, attempt + 1, k + 1, clock + x.duration + Pause(q.policy, attempt, x), denied.With(x.noted))
  {
    assert TimeAt(q, attempt, k, clock, 1)
           == TimeAt(q, attempt + 1, k + 1, clock + q.script(k).duration + Pause(q.policy, attempt, q.script(k)), 0);
  }

  lemma LastAttemptSettles(q: Request, attempt: nat, k: nat, clock: real, denied: Denied)
    requires attempt <= q.policy.maxAttempts && InBudget(q, attempt, k, clock, 0)
    requires attempt == q.policy.maxAttempts || !PassedOver(q, k, denied, 0)
    ensures var x := q.script(k);
            Attempts(q, attempt, k, clock, denied)
            == Hop(Settle(q, denied.With(x.noted), x), k + 1, clock + x.duration, denied.With(x.noted))
  {
  }

  /** Within budget, the first answer that is not passed over decides, or the last attempt's when all are:
      `m` is its place, and exactly `m + 1` requests are issued. */
  lemma {:induction false} ClosedForm(q: Request, attempt: nat, k: nat, clock: real, denied: Denied, m: nat)
    requires Reaches(q, attempt, k, clock, denied, m) && InBudget(q, attempt, k, clock, m)
    requires attempt + m == q.policy.maxAttempts || !PassedOver(q, k, denied, m)
    ensures var hop := Attempts(q, attempt, k, clock, denied);
            && hop.verdict == Settle(q, DeniedAt(q.script, k, denied, m), q.script(k + m))
            && hop.next == k + m + 1
            && hop.clock == TimeAt(q, attempt, k, clock, m) + q.script(k + m).duration
            && hop.denied == DeniedAt(q.script, k, denied, m)
    decreases m
  {
    if m == 0 {
      LastAttemptSettles(q, attempt, k, clock, denied);
    } else {
      var x := q.script(k);
      ReachesLater(q, attempt, k, clock, denied, m);
      assert InBudget(q, attempt, k, clock, 1);
      PassedOverLeavesTheRest(q, attempt, k, clock, denied);
      ClosedForm(q, attempt + 1, k + 1, clock + x.duration + Pause(q.policy, attempt, x), denied.With(x.noted), m - 1);
      assert k + 1 + (m - 1) == k + m;
    }
  }

  /** When the budget runs out before the m-th attempt, it is not made: the call reports the rate limit if a
      429 asked for the wait that did not fit, and a timeout otherwise. */
  lemma {:induction false} OverBudget(q: Request, attempt: nat, k: nat, clock: real, denied: Denied, m: nat)
    requires Reaches(q, attempt, k, clock, denied, m) && !InBudget(q, attempt, k, clock, m)
    ensures var hop := Attempts(q, attempt, k, clock, denied);
            && hop.next == k + m
            && (if m > 0 && q.script(k + m - 1).reply.Response? && q.script(k + m - 1).reply.status == 429
                then hop.verdict == Failure(RateLimited(ParseRetryAfter(q.script(k + m - 1).reply.retryAfter)))
                else hop.verdict == Failure(ProviderTimeout))
    decreases m
  {
    if m == 1 {
      LastPauseIsTooLong(q, attempt, k, clock, denied);
    } else if m > 1 {
      var x := q.script(k);
      ReachesLater(q, attempt, k, clock, denied, m);
      assert InBudget(q, attempt, k, clock, 1);
      OverBudget(q, attempt + 1, k + 1, clock + x.duration + Pause(q.policy, attempt, x), denied.With(x.noted), m - 1);
      assert k + 1 + (m - 1) - 1 == k + m - 1;
    }
  }

  lemma LastPauseIsTooLong(q: Request, attempt: nat, k: nat, clock: real, denied: Denied)
    requires Reaches(q, attempt, k, clock, denied, 1) && !InBudget(q, attempt, k, clock, 1)
    ensures var x, hop := q.script(k), Attempts(q, attempt, k, clock, denied);
            && hop.next == k + 1
            && hop.verdict == Failure(if x.reply.Response? && x.reply.status == 429 then RateLimited(ParseRetryAfter(x.reply.retryAfter)) else ProviderTimeout)
  {
    var x := q.script(k);
    ReachesLater(q, attempt, k, clock, denied, 1);
    assert TimeAt(q, attempt, k, clock, 1) == TimeAt(q, attempt + 1, k + 1, clock + x.duration + Pause(q.policy, attempt, x), 0);
    assert k + 1 - 1 == k;
  }

  /** Every hop has one of the two forms. */
  lemma {:induction false} EveryHopHasAForm(q: Request, attempt: nat, k: nat, clock: real, denied: Denied) returns (m: nat)
    requires attempt <= q.policy.maxAttempts
    ensures Reaches(q, attempt, k, clock, denied, m)
    ensures !InBudget(q, attempt, k, clock, m) || attempt + m == q.policy.maxAttempts || !PassedOver(q, k, denied, m)
    decreases q.policy.maxAttempts - attempt
  {
    m := 0;
    if InBudget(q, attempt, k, clock, 0) && attempt < q.policy.maxAttempts && PassedOver(q, k, denied, 0) {
      var x := q.script(k);
      var later, known := clock + x.duration + Pause(q.policy, attempt, x), denied.With(x.noted);
      var n := EveryHopHasAForm(q, attempt + 1, k + 1, later, known);
      m := n + 1;
      forall i: nat | i < m ensures PassedOver(q, k, denied, i) && InBudget(q, attempt, k, clock, i) {
        if i > 0 {
          assert PassedOver(q, k + 1, known, i - 1) && InBudget(q, attempt + 1, k + 1, later, i - 1);
        }
      }
    }
  }

  // ---------- the redirect loop in closed form ----------

  /** What the n-th hop starts from: the request, the time and the deny-list that the one before leaves. */
  function Start(q: Request, origin: Hop, n: nat): Hop {
    if n == 0 then origin else HopFrom(q, Start(q, origin, n - 1))
  }

  function HopFrom(q: Request, start: Hop): Hop {
    Attempts(q, 1, start.next, start.clock, start.denied)
  }

  /** The n-th hop, when every one before it is followed. */
  function HopAt(q: Request, origin: Hop, n: nat): Hop { HopFrom(q, Start(q, origin, n)) }

  /** The URL the n-th hop is for: the caller's, or where the hop before was redirected to. */
  function UrlAt(q: Request, url: Url, origin: Hop, n: nat): Url {
    if n > 0 && HopAt(q, origin, n - 1).verdict.Follow? then HopAt(q, origin, n - 1).verdict.location else url
  }

  function ContactsFrom(q: Request, url: Url, start: Hop): seq<Contact> {
    ContactsOfAttempts(q, url, 1, start.next, start.clock, start.denied)
  }

  /** The connections of the first n hops. */
  function ContactsUpTo(q: Request, url: Url, origin: Hop, n: nat): seq<Contact> {
    if n == 0 then []
    else ContactsUpTo(q, url, origin, n - 1) + ContactsFrom(q, UrlAt(q, url, origin, n - 1), Start(q, origin, n - 1))
  }

  /** The hop ends in a redirect to an https URL of a host that the validator accepts. */
  predicate Redirects(hop: Hop, allow: Option<string -> bool>) {
    hop.verdict.Follow? && allow.Some? && hop.verdict.location.scheme == "https" && allow.value(hop.verdict.location.host)
  }

  /** The first n redirects are followed, and the hop after them is the last. */
  ghost predicate LastHop(q: Request, origin: Hop, allow: Option<string -> bool>, maxRedirects: int, n: nat) {
    && (forall i: nat :: i < n ==> Redirects(HopAt(q, origin, i), allow) && i < maxRedirects)
    && (Redirects(HopAt(q, origin, n), allow) ==> n >= maxRedirects)
  }

  function Rejecting(hop: Hop): Hop {
    if hop.verdict.Follow? then hop.(verdict := Failure(RedirectRejected)) else hop
  }

  /** While redirects lead to https URLs of accepted hosts, and there are no more of them than allowed, each is
      followed, to the very URL it names; the first hop that does not end in such a redirect decides. A redirect
      that is not followed lacks a validator, is one too many, is not https, or names a host not accepted. */
  lemma RedirectsInClosedForm(q: Request, url: Url, allow: Option<string -> bool>, maxRedirects: int, origin: Hop, n: nat)
    requires LastHop(q, origin, allow, maxRedirects, n)
    ensures Hops(q, allow, maxRedirects, 0, origin.next, origin.clock, origin.denied) == Rejecting(HopAt(q, origin, n))
    ensures ContactsOfHops(q, url, allow, maxRedirects, 0, origin.next, origin.clock, origin.denied) == ContactsUpTo(q, url, origin, n + 1)
  {
    HopsFrom(q, allow, maxRedirects, origin, n, 0);
    ContactsOfHopsFrom(q, url, allow, maxRedirects, origin, n, 0);
  }

  lemma {:induction false} HopsFrom(q: Request, allow: Option<string -> bool>, maxRedirects: int, origin: Hop, n: nat, i: nat)
    requires LastHop(q, origin, allow, maxRedirects, n) && i <= n
    ensures var start := Start(q, origin, i);
            Hops(q, allow, maxRedirects, i, start.next, start.clock, start.denied) == Rejecting(HopAt(q, origin, n))
    decreases n - i
  {
    var start, hop := Start(q, origin, i), HopAt(q, origin, i);
    OneHop(q, Url("", "", ""), allow, maxRedirects, i, start);
    if i < n {
      assert Redirects(hop, allow) && i < maxRedirects;
      HopsFrom(q, allow, maxRedirects, origin, n, i + 1);
    }
  }

  /** The connections from the i-th hop on. */
  function ContactsOfRest(q: Request, url: Url, allow: Option<string -> bool>, maxRedirects: int, origin: Hop, i: nat): seq<Contact> {
    var start := Start(q, origin, i);
    ContactsOfHops(q, UrlAt(q, url, origin, i), allow, maxRedirects, i, start.next, start.clock, start.denied)
  }

  lemma NextContacts(q: Request, url: Url, allow: Option<string -> bool>, maxRedirects: int, origin: Hop, i: nat)
    ensures var mine := ContactsFrom(q, UrlAt(q, url, origin, i), Start(q, origin, i));
            ContactsOfRest(q, url, allow, maxRedirects, origin, i)
            == if Redirects(HopAt(q, origin, i), allow) && i < maxRedirects
               then mine + ContactsOfRest(q, url, allow, maxRedirects, origin, i + 1) else mine
  {
    OneHop(q, UrlAt(q, url, origin, i), allow, maxRedirects, i, Start(q, origin, i));
  }

  lemma {:induction false} ContactsOfHopsFrom(q: Request, url: Url, allow: Option<string -> bool>, maxRedirects: int, origin: Hop, n: nat, i: nat)
    requires LastHop(q, origin, allow, maxRedirects, n) && i <= n
    ensures ContactsUpTo(q, url, origin, i) + ContactsOfRest(q, url, allow, maxRedirects, origin, i) == ContactsUpTo(q, url, origin, n + 1)
    decreases n - i
  {
    NextContacts(q, url, allow, maxRedirects, origin, i);
    if i < n {
      assert Redirects(HopAt(q, origin, i), allow) && i < maxRedirects;
      ContactsOfHopsFrom(q, url, allow, maxRedirects, origin, n, i + 1);
    }
  }

  lemma OneHop(q: Request, url: Url, allow: Option<string -> bool>, maxRedirects: int, i: nat, start: Hop)
    ensures var hop := HopFrom(q, start); var mine := ContactsFrom(q, url, start);
            if Redirects(hop, allow) && i < maxRedirects then
              && Hops(q, allow, maxRedirects, i, start.next, start.clock, start.denied)
                 == Hops(q, allow, maxRedirects, i + 1, hop.next, hop.clock, hop.denied)
              && ContactsOfHops(q, url, allow, maxRedirects, i, start.next, start.clock, start.denied)
                 == mine + ContactsOfHops(q, hop.verdict.location, allow, maxRedirects, i + 1, hop.next, hop.clock, hop.denied)
            else
              && Hops(q, allow, maxRedirects, i, start.next, start.clock, start.denied) == Rejecting(hop)
              && ContactsOfHops(q, url, allow, maxRedirects, i, start.next, start.clock, start.denied) == mine
  {
  }

  /** The last exchange of a hop, when there was one, was answered with a redirect. */
  predicate EndsInRedirect(q: Request, k: nat, hop: Hop) {
    && hop.next > k && Clear(q.forbidden, hop.denied, q.script(hop.next - 1))
    && q.script(hop.next - 1).reply.Response? && q.script(hop.next - 1).reply.status in {301, 302, 303, 307, 308}
  }

  lemma {:induction false} RedirectEndsHop(q: Request, attempt: nat, k: nat, clock: real, denied: Denied)
    ensures var hop := Attempts(q, attempt, k, clock, denied);
            && k <= hop.next
            && (EndsInRedirect(q, k, hop) <==> hop.verdict.Follow? || hop.verdict == Failure(RedirectRejected))
            && (hop.verdict.Follow? ==> q.allowRedirects && hop.verdict.location == q.script(hop.next - 1).reply.location)
            && (hop.verdict == Failure(RedirectRejected) ==> !q.allowRedirects)
    decreases q.policy.maxAttempts + 1 - attempt
  {
    if attempt <= q.policy.maxAttempts && clock - q.start <= q.policy.totalBudget {
      var x := q.script(k);
      var known := denied.With(x.noted);
      ClearIsAnswered(q.forbidden, known, x);
      match Decide(q, attempt, clock + x.duration, x, Handle(q.forbidden, known, x))
      case Stop(_) =>
      case Again(delay) =>
        RedirectEndsHop(q, attempt + 1, k + 1, clock + x.duration + delay, known);
        if Attempts(q, attempt + 1, k + 1, clock + x.duration + delay, known).next == k + 1 {
          NothingFollows(q, attempt + 1, k + 1, clock + x.duration + delay, known);
        }
    }
  }

  /** A hop that makes no further request leaves the deny-list alone, and times out. */
  lemma NothingFollows(q: Request, attempt: nat, k: nat, clock: real, denied: Denied)
    requires Attempts(q, attempt, k, clock, denied).next == k
    ensures Attempts(q, attempt, k, clock, denied) == Hop(Failure(ProviderTimeout), k, clock, denied)
  {
    if attempt <= q.policy.maxAttempts && clock - q.start <= q.policy.totalBudget {
      var x := q.script(k);
      var known := denied.With(x.noted);
      match Decide(q, attempt, clock + x.duration, x, Handle(q.forbidden, known, x))
      case Stop(_) =>
      case Again(delay) => AttemptsAdvance(q, attempt + 1, k + 1, clock + x.duration + delay, known);
    }
  }

  /** A GET is refused for a redirect exactly when the last answer of its last hop is one. */
  lemma RejectedExactly(q: Request, allow: Option<string -> bool>, maxRedirects: int, origin: Hop, n: nat)
    requires q.allowRedirects == allow.Some? && LastHop(q, origin, allow, maxRedirects, n)
    ensures Hops(q, allow, maxRedirects, 0, origin.next, origin.clock, origin.denied).verdict == Failure(RedirectRejected)
            <==> EndsInRedirect(q, Start(q, origin, n).next, HopAt(q, origin, n))
  {
    var start := Start(q, origin, n);
    RedirectsInClosedForm(q, Url("", "", ""), allow, maxRedirects, origin, n);
    RedirectEndsHop(q, 1, start.next, start.clock, start.denied);
  }

  /** What a GET that starts from `origin` comes to, without its loop. */
  ghost predicate IsSettled(q: Request, allow: Option<string -> bool>, maxRedirects: int, origin: Hop, result: Hop) {
    exists n: nat :: LastHop(q, origin, allow, maxRedirects, n) && result == Rejecting(HopAt(q, origin, n))
  }

  /** Every GET has that form. */
  lemma {:induction false} EveryGetHasAForm(q: Request, allow: Option<string -> bool>, maxRedirects: int, origin: Hop, from: nat) returns (n: nat)
    requires forall i: nat :: i < from ==> Redirects(HopAt(q, origin, i), allow) && i < maxRedirects
    ensures LastHop(q, origin, allow, maxRedirects, n)
    decreases maxRedirects - from
  {
    n := from;
    if from < maxRedirects && Redirects(HopAt(q, origin, from), allow) {
      n := EveryGetHasAForm(q, allow, maxRedirects, origin, from + 1);
    }
  }

  // ---------- what a returned response is ----------

  predicate Acceptable(q: Request, response: Reply) {
    && response.Response?
    && response.status !in {429, 301, 302, 303, 307, 308}
    && response.size <= q.maxBytes
    && (response.contentLength.Length? ==> response.contentLength.value <= q.maxBytes)
    && response.contentLength != NotAnInteger
  }

  /** A returned response was the script's own answer, is no 429 and no redirect, respects the byte cap,
      and is a retryable error only when it answered the last attempt of its hop. */
  lemma {:induction false} SuccessIsAcceptable(q: Request, attempt: nat, k: nat, clock: real, denied: Denied)
    requires Attempts(q, attempt, k, clock, denied).verdict.Success?
    ensures var hop := Attempts(q, attempt, k, clock, denied); var response := hop.verdict.response;
            && Acceptable(q, response)
            && hop.next > k && response == q.script(hop.next - 1).reply
            && (response.status in {500, 502, 503, 504} ==> hop.next - k == q.policy.maxAttempts + 1 - attempt)
    decreases q.policy.maxAttempts + 1 - attempt
  {
    var x := q.script(k);
    var hop := Attempts(q, attempt, k, clock, denied);
    var later := clock + x.duration + Pause(q.policy, attempt, x);
    if hop == Attempts(q, attempt + 1, k + 1, later, denied.With(x.noted)) {
      SuccessIsAcceptable(q, attempt + 1, k + 1, later, denied.With(x.noted));
    }
  }

  lemma {:induction false} AttemptsAdvance(q: Request, attempt: nat, k: nat, clock: real, denied: Denied)
    ensures k <= Attempts(q, attempt, k, clock, denied).next
    decreases q.policy.maxAttempts + 1 - attempt
  {
    if attempt <= q.policy.maxAttempts {
      var x := q.script(k);
      AttemptsAdvance(q, attempt + 1, k + 1, clock + x.duration + Pause(q.policy, attempt, x), denied.With(x.noted));
    }
  }

  /** The same for a whole call: `h` is the request with which the hop that returned the response began, at
      time `at` and with the deny-list `known`; a retryable error is returned only after all attempts of it. */
  lemma {:induction false} ReturnedResponse(q: Request, allow: Option<string -> bool>, maxRedirects: int, followed: nat, k: nat, clock: real, denied: Denied)
    returns (h: nat, at: real, known: Denied)
    requires Hops(q, allow, maxRedirects, followed, k, clock, denied).verdict.Success?
    ensures var hop := Hops(q, allow, maxRedirects, followed, k, clock, denied);
            && k <= h < hop.next && hop == Attempts(q, 1, h, at, known)
            && Acceptable(q, hop.verdict.response) && hop.verdict.response == q.script(hop.next - 1).reply
            && (hop.verdict.response.status in {500, 502, 503, 504} ==> hop.next - h == q.policy.maxAttempts)
    decreases maxRedirects - followed
  {
    var hop := Attempts(q, 1, k, clock, denied);
    AttemptsAdvance(q, 1, k, clock, denied);
    if hop.verdict.Follow? {
      h, at, known := ReturnedResponse(q, allow, maxRedirects, followed + 1, hop.next, hop.clock, hop.denied);
    } else {
      h, at, known := k, clock, denied;
      SuccessIsAcceptable(q, 1, k, clock, denied);
    }
  }
}
