/** The gateway object of one job. Its log records, in order, everything that is denied and every address
    that is connected to; the class invariant is that no connection in it was ever out of bounds. */
module Outbound {
  import opened Wrappers
  import opened Network
  import opened Retries
  import opened Gateway

  datatype Happening =
    | Noted(addresses: set<Address>)
    | NotedNetworks(networks: seq<Network>)
    | Seeded
    | SeedBegins
    | SeedEnds
    | Connected(url: Url, address: Address)

  function Extended(before: Denied, h: Happening): Denied {
    match h
    case Noted(addresses) => before.With(addresses)
    case NotedNetworks(networks) => Denied(before.addresses, before.networks + networks)
    case _ => before
  }

  function DeniedBy(log: seq<Happening>): Denied {
    if log == [] then Denied({}, []) else Extended(DeniedBy(log[..|log| - 1]), log[|log| - 1])
  }

  predicate SeededBy(log: seq<Happening>) {
    Seeded in log
  }

  /** Inside the resolution of the target itself. */
  predicate SeedingAt(log: seq<Happening>) {
    log != [] && (if log[|log| - 1] == SeedBegins then true
                  else if log[|log| - 1] == SeedEnds then false
                  else SeedingAt(log[..|log| - 1]))
  }

  predicate Permitted(forbidden: Address -> bool, log: seq<Happening>, a: Address) {
    !Barred(forbidden, DeniedBy(log), a) && (SeededBy(log) || SeedingAt(log))
  }

  predicate Safe(forbidden: Address -> bool, log: seq<Happening>) {
    forall i :: 0 <= i < |log| && log[i].Connected? ==> Permitted(forbidden, log[..i], log[i].address)
  }

  lemma SafeAppend(forbidden: Address -> bool, log: seq<Happening>, h: Happening)
    requires Safe(forbidden, log) && (h.Connected? ==> Permitted(forbidden, log, h.address))
    ensures Safe(forbidden, log + [h])
    ensures DeniedBy(log + [h]) == Extended(DeniedBy(log), h)
    ensures SeededBy(log + [h]) <==> SeededBy(log) || h == Seeded
    ensures SeedingAt(log + [h]) <==> (h == SeedBegins || (h != SeedEnds && SeedingAt(log)))
  {
    var longer := log + [h];
    assert longer[..|log|] == log;
    forall i | 0 <= i < |longer| && longer[i].Connected? ensures Permitted(forbidden, longer[..i], longer[i].address) {
      if i < |log| { assert longer[..i] == log[..i] && longer[i] == log[i]; }
    }
  }

  lemma SafeSeed(forbidden: Address -> bool, log: seq<Happening>, h: Happening)
    requires Safe(forbidden, log) && (h.Noted? || h.NotedNetworks?)
    ensures Safe(forbidden, log + [h, Seeded])
    ensures DeniedBy(log + [h, Seeded]) == Extended(DeniedBy(log), h)
    ensures SeededBy(log + [h, Seeded])
    ensures SeedingAt(log + [h, Seeded]) <==> SeedingAt(log)
  {
    SafeAppend(forbidden, log, h);
    SafeAppend(forbidden, log + [h], Seeded);
    assert log + [h, Seeded] == (log + [h]) + [Seeded];
  }

  // ---------- what a safe log rules out ----------

  lemma {:induction false} DeniedGrows(log: seq<Happening>, i: nat)
    requires i <= |log|
    ensures DeniedBy(log[..i]).Within(DeniedBy(log))
  {
    if i == |log| {
      assert log[..i] == log;
    } else {
      var front := log[..|log| - 1];
      DeniedGrows(front, i);
      assert front[..i] == log[..i];
      if log[|log| - 1].NotedNetworks? {
        GrowsByNetworks(DeniedBy(front), log[|log| - 1].networks);
      }
    }
  }

  /** An address once denied is never connected to again, and a forbidden one never is. */
  lemma DeniedStaysOut(forbidden: Address -> bool, log: seq<Happening>, i: nat, k: nat, a: Address)
    requires Safe(forbidden, log) && i <= k < |log|
    requires forbidden(a) || DeniedBy(log[..i]).Contains(a)
    ensures !(log[k].Connected? && log[k].address == a)
  {
    DeniedGrows(log[..k], i);
    assert log[..k][..i] == log[..i];
  }

  /** Before the deny-list is seeded, connections happen only between the beginning and the end of the
      target's own resolution. */
  lemma OnlySeedingBeforeSeeded(forbidden: Address -> bool, log: seq<Happening>, k: nat) returns (b: nat)
    requires Safe(forbidden, log) && k < |log| && log[k].Connected? && !SeededBy(log[..k])
    ensures b < k && log[b] == SeedBegins && forall i :: b < i < k ==> log[i] != SeedEnds
  {
    assert Permitted(forbidden, log[..k], log[k].address);
    b := OpenSeeding(log[..k]);
  }

  lemma {:induction false} OpenSeeding(log: seq<Happening>) returns (b: nat)
    requires SeedingAt(log)
    ensures b < |log| && log[b] == SeedBegins && forall i :: b < i < |log| ==> log[i] != SeedEnds
  {
    if log[|log| - 1] == SeedBegins {
      b := |log| - 1;
    } else {
      b := OpenSeeding(log[..|log| - 1]);
    }
  }

  /** The connections of a log, in order. */
  function ContactsIn(log: seq<Happening>): seq<Contact> {
    if log == [] then []
    else
      var last := log[|log| - 1];
      ContactsIn(log[..|log| - 1]) + if last.Connected? then [Contact(last.url, last.address)] else []
  }

  lemma NoContacts(log: seq<Happening>, h: Happening)
    requires !h.Connected?
    ensures ContactsIn(log + [h, Seeded]) == ContactsIn(log)
  {
    assert log + [h, Seeded] == (log + [h]) + [Seeded];
  }

  // ---------- the target's own resolution ----------

  /** One lookup: its URL, what happens to its GET, and the addresses its body holds; None when it is not JSON. */
  datatype Lookup = Lookup(url: Url, script: Script, answer: Option<set<Address>>)

  const LOOKUP_BYTES := 2_000_000
  const LOOKUP_REDIRECTS := 5

  datatype Resolution = Resolution(forbidden: Address -> bool, policy: RetryPolicy, hosts: set<string>, lookups: seq<Lookup>)
  {
    function HopOf(i: nat, clock: real, denied: Denied): Hop
      requires i < |lookups|
    {
      if lookups[i].url.host !in hosts then Hop(Failure(DisallowedHost), 0, clock, denied)
      else Hops(Request(lookups[i].script, forbidden, policy, clock, LOOKUP_BYTES, false), None, LOOKUP_REDIRECTS, 0, 0, clock, denied)
    }

    /** The time and the deny-list when the i-th lookup begins. */
    function Before(i: nat, clock: real, denied: Denied): (real, Denied)
      requires i <= |lookups|
    {
      if i == 0 then (clock, denied)
      else
        var (at, known) := Before(i - 1, clock, denied);
        var hop := HopOf(i - 1, at, known);
        (hop.clock, hop.denied)
    }

    /** The i-th lookup returns a response, and its body parses. */
    predicate Resolves(i: nat, clock: real, denied: Denied)
      requires i < |lookups|
    {
      var (at, known) := Before(i, clock, denied);
      HopOf(i, at, known).verdict.Success? && lookups[i].answer.Some?
    }

    /** What the first i answers hold. */
    function Answers(i: nat): set<Address>
      requires i <= |lookups|
    {
      set k, a | 0 <= k < i && lookups[k].answer.Some? && a in lookups[k].answer.value :: a
    }

    /** It succeeds exactly when every lookup resolves; then the deny-list gains exactly the answers. The first
        lookup that fails ends it, and nothing is gained. */
    ghost predicate Outcome(clock: real, denied: Denied, ok: bool, clock': real, denied': Denied) {
      && (ok <==> forall i :: 0 <= i < |lookups| ==> Resolves(i, clock, denied))
      && (ok ==> (clock', denied') == (Before(|lookups|, clock, denied).0, Before(|lookups|, clock, denied).1.With(Answers(|lookups|))))
      && (!ok ==> exists i :: 0 <= i < |lookups| && FirstFailure(i, clock, denied) && (clock', denied') == Before(i + 1, clock, denied))
    }

    predicate FirstFailure(i: nat, clock: real, denied: Denied)
      requires i < |lookups|
    {
      !Resolves(i, clock, denied) && forall k :: 0 <= k < i ==> Resolves(k, clock, denied)
    }
  }

  /** Some contacts, with those of the attempts that are left. */
  function ContactsAfter(q: Request, url: Url, attempt: nat, k: nat, clock: real, denied: Denied, earlier: seq<Contact>): seq<Contact>
    decreases q.policy.maxAttempts + 1 - attempt
  {
    if attempt > q.policy.maxAttempts || clock - q.start > q.policy.totalBudget then earlier
    else
      var x := q.script(k);
      var known := denied.With(x.noted);
      var handled := Handle(q.forbidden, known, x);
      var soFar := earlier + ContactOf(url, x, handled);
      match Decide(q, attempt, clock + x.duration, x, handled)
      case Stop(_) => soFar
      case Again(delay) => ContactsAfter(q, url, attempt + 1, k + 1, clock + x.duration + delay, known, soFar)
  }

  lemma {:induction false} AfterIsAppended(q: Request, url: Url, attempt: nat, k: nat, clock: real, denied: Denied, earlier: seq<Contact>)
    ensures ContactsAfter(q, url, attempt, k, clock, denied, earlier) == earlier + ContactsOfAttempts(q, url, attempt, k, clock, denied)
    decreases q.policy.maxAttempts + 1 - attempt
  {
    if attempt <= q.policy.maxAttempts && clock - q.start <= q.policy.totalBudget {
      var x := q.script(k);
      var known := denied.With(x.noted);
      var handled := Handle(q.forbidden, known, x);
      match Decide(q, attempt, clock + x.duration, x, handled)
      case Stop(_) =>
      case Again(delay) =>
        AfterIsAppended(q, url, attempt + 1, k + 1, clock + x.duration + delay, known, earlier + ContactOf(url, x, handled));
    }
  }

  /** One attempt, and what it leaves to those that follow. */
  lemma NextAttempt(q: Request, url: Url, attempt: nat, k: nat, clock: real, denied: Denied, earlier: seq<Contact>)
    requires attempt <= q.policy.maxAttempts && clock - q.start <= q.policy.totalBudget
    ensures var x := q.script(k); var now, known := clock + x.duration, denied.With(x.noted);
            var handled := Handle(q.forbidden, known, x);
            var hop, contacts := Attempts(q, attempt, k, clock, denied), ContactsAfter(q, url, attempt, k, clock, denied, earlier);
            match Decide(q, attempt, now, x, handled)
            case Stop(verdict) => hop == Hop(verdict, k + 1, now, known) && contacts == earlier + ContactOf(url, x, handled)
            case Again(delay) =>
              && hop == Attempts(q, attempt + 1, k + 1, now + delay, known)
              && contacts == ContactsAfter(q, url, attempt + 1, k + 1, now + delay, known, earlier + ContactOf(url, x, handled))
  {
  }

  // ---------- the object ----------

  datatype Target = Ip(address: Address) | Cidr(network: Network) | Domain(name: string) | Organization

  class OutboundGateway {
    const denyList: TargetDenyList
    const forbidden: Address -> bool
    var bootstrapping: bool
    var clock: real
    ghost var log: seq<Happening>

    ghost predicate Valid()
      reads this, denyList
    {
      && Safe(forbidden, log)
      && denyList.Contents() == DeniedBy(log)
      && denyList.seeded == SeededBy(log)
      && bootstrapping == SeedingAt(log)
    }

    constructor (forbidden: Address -> bool, now: real)
      ensures Valid() && log == [] && !bootstrapping && clock == now && this.forbidden == forbidden && fresh(denyList)
    {
      this.forbidden := forbidden;
      denyList := new TargetDenyList();
      bootstrapping, clock, log := false, now, [];
    }

    /** Resolve, check every address, pin the first and connect: nothing comes between check and connection. */
    method HandleRequest(url: Url, x: Exchange) returns (handled: Handled)
      requires Valid() && (denyList.seeded || bootstrapping)
      modifies this`log, denyList
      ensures Valid() && denyList.seeded == old(denyList.seeded)
      ensures denyList.Contents() == old(denyList.Contents()).With(x.noted)
      ensures handled == Handle(forbidden, denyList.Contents(), x)
      ensures handled == Answered(x.reply) <==> Clear(forbidden, denyList.Contents(), x)
      ensures old(log) < log && ContactsIn(log) == ContactsIn(old(log)) + ContactOf(url, x, handled)
      ensures handled.Answered? ==> x.resolved.Some? && x.resolved.value != []
      ensures ContactsIn(log) == ContactsIn(old(log)) + if handled.Answered? then [Contact(url, x.resolved.value[0])] else []
    {
      NoteAdditionalTargetAddresses(x.noted);
      ClearIsAnswered(forbidden, denyList.Contents(), x);
      if x.resolved.None? { return Refused(ResolverError); }
      var addresses := x.resolved.value;
      if addresses == [] { return Refused(BlockedDestination); }
      var clear := AllClear(addresses);
      if !clear { return Refused(BlockedDestination); }
      Connect(url, addresses[0]);
      handled := Answered(x.reply);
    }

    method Connect(url: Url, address: Address)
      requires Valid() && (denyList.seeded || bootstrapping) && !Barred(forbidden, denyList.Contents(), address)
      modifies this`log
      ensures Valid() && log == old(log) + [Connected(url, address)]
      ensures ContactsIn(log) == ContactsIn(old(log)) + [Contact(url, address)]
    {
      SafeAppend(forbidden, log, Connected(url, address));
      log := log + [Connected(url, address)];
    }

    method AllClear(addresses: seq<Address>) returns (clear: bool)
      ensures clear <==> forall i :: 0 <= i < |addresses| ==> !Barred(forbidden, denyList.Contents(), addresses[i])
    {
      for i := 0 to |addresses|
        invariant forall k :: 0 <= k < i ==> !Barred(forbidden, denyList.Contents(), addresses[k])
      {
        var denied := denyList.Contains(addresses[i]);
        if forbidden(addresses[i]) || denied {
          assert Barred(forbidden, denyList.Contents(), addresses[i]);
          return false;
        }
      }
      clear := true;
    }

    method NoteAdditionalTargetAddresses(addresses: set<Address>)
      requires Valid()
      modifies this`log, denyList
      ensures Valid() && denyList.seeded == old(denyList.seeded)
      ensures denyList.Contents() == old(denyList.Contents()).With(addresses)
      ensures log == old(log) + [Noted(addresses)] && ContactsIn(log) == ContactsIn(old(log))
    {
      denyList.Add(addresses);
      SafeAppend(forbidden, log, Noted(addresses));
      log := log + [Noted(addresses)];
    }

    /** Stop with a verdict, or wait and try again. */
    method Judge(q: Request, attempt: nat, x: Exchange, handled: Handled) returns (decision: Decision)
      ensures decision == Decide(q, attempt, clock, x, handled)
    {
      if handled.Refused? { return Stop(Failure(handled.error)); }
      var reply := handled.reply;
      if reply == TransportFailure {
        if attempt < q.policy.maxAttempts { return Again(Backoff(attempt, q.policy, x.jitter)); }
        return Stop(Failure(ProviderTimeout));
      }
      if Redirecting(reply.status) {
        if q.allowRedirects { return Stop(Follow(reply.location)); }
        return Stop(Failure(RedirectRejected));
      }
      if reply.status == 429 {
        var asked := ParseRetryAfter(reply.retryAfter);
        if attempt >= q.policy.maxAttempts || asked == Some(Forever) { return Stop(Failure(RateLimited(asked))); }
        var delay := if asked.Some? then asked.value.value else Backoff(attempt, q.policy, x.jitter);
        if clock - q.start + delay > q.policy.totalBudget { return Stop(Failure(RateLimited(asked))); }
        return Again(delay);
      }
      if Retryable(reply.status) && attempt < q.policy.maxAttempts { return Again(Backoff(attempt, q.policy, x.jitter)); }
      decision := Stop(Capped(reply, q.maxBytes));
    }

    /** One request through the transport, and what to do after it: stop there, or leave the rest to the
        attempts that follow. */
    method Attempt(q: Request, attempt: nat, url: Url, k: nat) returns (decision: Decision)
      requires Valid() && (denyList.seeded || bootstrapping) && q.forbidden == forbidden
      requires attempt <= q.policy.maxAttempts && clock - q.start <= q.policy.totalBudget
      modifies this`log, this`clock, denyList
      ensures Valid() && denyList.seeded == old(denyList.seeded) && old(log) <= log
      ensures var hop, contacts := Attempts(q, attempt, k, old(clock), old(denyList.Contents())),
                                   ContactsAfter(q, url, attempt, k, old(clock), old(denyList.Contents()), ContactsIn(old(log)));
              match decision
              case Stop(verdict) => hop == Hop(verdict, k + 1, clock, denyList.Contents()) && contacts == ContactsIn(log)
              case Again(delay) =>
                && hop == Attempts(q, attempt + 1, k + 1, clock + delay, denyList.Contents())
                && contacts == ContactsAfter(q, url, attempt + 1, k + 1, clock + delay, denyList.Contents(), ContactsIn(log))
    {
      var x := q.script(k);
      NextAttempt(q, url, attempt, k, clock, denyList.Contents(), ContactsIn(log));
      var handled := HandleRequest(url, x);
      clock := clock + x.duration;
      decision := Judge(q, attempt, x, handled);
    }

    /** The attempt loop of one hop computes `Attempts`, and connects as `ContactsOfAttempts` says. */
    method RequestWithRetries(q: Request, url: Url, k: nat) returns (hop: Hop)
      requires Valid() && (denyList.seeded || bootstrapping) && q.forbidden == forbidden
      modifies this`log, this`clock, denyList
      ensures Valid() && denyList.seeded == old(denyList.seeded)
      ensures hop == Attempts(q, 1, k, old(clock), old(denyList.Contents()))
      ensures clock == hop.clock && denyList.Contents() == hop.denied
      ensures old(log) <= log
      ensures ContactsIn(log) == ContactsIn(old(log)) + ContactsOfAttempts(q, url, 1, k, old(clock), old(denyList.Contents()))
    {
      var attempt, next: nat := 1, k;
      ghost var result := Attempts(q, 1, k, clock, denyList.Contents());
      ghost var contacts := ContactsAfter(q, url, 1, k, clock, denyList.Contents(), ContactsIn(log));
      AfterIsAppended(q, url, 1, k, clock, denyList.Contents(), ContactsIn(log));
      while attempt <= q.policy.maxAttempts && clock - q.start <= q.policy.totalBudget
        invariant Valid() && denyList.seeded == old(denyList.seeded) && old(log) <= log
        invariant Attempts(q, attempt, next, clock, denyList.Contents()) == result
        invariant ContactsAfter(q, url, attempt, next, clock, denyList.Contents(), ContactsIn(log)) == contacts
        decreases q.policy.maxAttempts - attempt
      {
        var decision := Attempt(q, attempt, url, next);
        if decision.Stop? {
          return Hop(decision.verdict, next + 1, clock, denyList.Contents());
        }
        clock := clock + decision.delay;
        attempt, next := attempt + 1, next + 1;
      }
      hop := Hop(Failure(ProviderTimeout), next, clock, denyList.Contents());
    }

    /** One GET. Refused without a request while nothing is denied yet, or for a host outside the allowlist;
        otherwise the redirect loop computes `Hops`, and connects as `ContactsOfHops` says: for the URL itself
        and for https URLs of validated hosts only, hence only over https exactly when the URL is https or
        when it connects nowhere. */
    method Get(url: Url, allowedHosts: set<string>, policy: RetryPolicy, script: Script, maxBytes: int,
               allow: Option<string -> bool>, maxRedirects: int) returns (verdict: Verdict, requests: nat)
      requires Valid()
      modifies this`log, this`clock, denyList
      ensures Valid() && denyList.seeded == old(denyList.seeded)
      ensures !old(denyList.seeded) && !bootstrapping ==> verdict == Failure(DenyListUnpopulated)
      ensures (old(denyList.seeded) || bootstrapping) && url.host !in allowedHosts ==> verdict == Failure(DisallowedHost)
      ensures (!old(denyList.seeded) && !bootstrapping) || url.host !in allowedHosts ==>
                requests == 0 && log == old(log) && clock == old(clock) && denyList.Contents() == old(denyList.Contents())
      ensures (old(denyList.seeded) || bootstrapping) && url.host in allowedHosts ==>
                var q := Request(script, forbidden, policy, old(clock), maxBytes, allow.Some?);
                && Hop(verdict, requests, clock, denyList.Contents())
                   == Hops(q, allow, maxRedirects, 0, 0, old(clock), old(denyList.Contents()))
                && IsSettled(q, allow, maxRedirects, Hop(Failure(ProviderTimeout), 0, old(clock), old(denyList.Contents())),
                             Hop(verdict, requests, clock, denyList.Contents()))
                && ContactsIn(log) == ContactsIn(old(log)) + ContactsOfHops(q, url, allow, maxRedirects, 0, 0, old(clock), old(denyList.Contents()))
      ensures old(log) <= log && ContactsIn(old(log)) <= ContactsIn(log)
      ensures var added := ContactsIn(log)[|ContactsIn(old(log))|..];
              && AllExpected(added, url, allow)
              && (added != [] ==> url.host in allowedHosts)
              && (HttpsOnly(added) <==> url.scheme == "https" || added == [])
    {
      if !denyList.seeded && !bootstrapping { return Failure(DenyListUnpopulated), 0; }
      if url.host !in allowedHosts { return Failure(DisallowedHost), 0; }
      var q := Request(script, forbidden, policy, clock, maxBytes, allow.Some?);
      ContactsAreExpected(q, url, allow, maxRedirects, 0, 0, clock, denyList.Contents());
      HttpsExactly(q, url, allow, maxRedirects, 0, 0, clock, denyList.Contents());
      ghost var origin := Hop(Failure(ProviderTimeout), 0, clock, denyList.Contents());
      ghost var n := EveryGetHasAForm(q, allow, maxRedirects, origin, 0);
      RedirectsInClosedForm(q, url, allow, maxRedirects, origin, n);
      verdict, requests := FollowHops(q, url, allow, maxRedirects);
    }

    /** The redirect loop. */
    method FollowHops(q: Request, url: Url, allow: Option<string -> bool>, maxRedirects: int) returns (verdict: Verdict, requests: nat)
      requires Valid() && (denyList.seeded || bootstrapping) && q.forbidden == forbidden
      modifies this`log, this`clock, denyList
      ensures Valid() && denyList.seeded == old(denyList.seeded) && old(log) <= log
      ensures Hop(verdict, requests, clock, denyList.Contents())
              == Hops(q, allow, maxRedirects, 0, 0, old(clock), old(denyList.Contents()))
      ensures ContactsIn(log) == ContactsIn(old(log)) + ContactsOfHops(q, url, allow, maxRedirects, 0, 0, old(clock), old(denyList.Contents()))
    {
      var current, followed := url, 0;
      requests := 0;
      ghost var result := Hops(q, allow, maxRedirects, 0, 0, clock, denyList.Contents());
      ghost var contacts := ContactsIn(log) + ContactsOfHops(q, url, allow, maxRedirects, 0, 0, clock, denyList.Contents());
      while true
        invariant Valid() && denyList.seeded == old(denyList.seeded) && old(log) <= log && followed >= 0
        invariant Hops(q, allow, maxRedirects, followed, requests, clock, denyList.Contents()) == result
        invariant ContactsIn(log) + ContactsOfHops(q, current, allow, maxRedirects, followed, requests, clock, denyList.Contents()) == contacts
        decreases maxRedirects - followed
      {
        NextHop(q, current, allow, maxRedirects, followed, requests, clock, denyList.Contents(), ContactsIn(log));
        var hop := RequestWithRetries(q, current, requests);
        requests := hop.next;
        if !hop.verdict.Follow? { return hop.verdict, requests; }
        var next := hop.verdict.location;
        if !MayFollow(next, allow, maxRedirects, followed) { return Failure(RedirectRejected), requests; }
        followed := followed + 1;
        current := next;
      }
    }

    /** Resolves the target through the gateway itself, one GET per record type, and denies what it finds. A
        failure leaves the deny-list unseeded and the exemption closed. */
    method SeedDenyList(r: Resolution) returns (ok: bool)
      requires Valid() && !bootstrapping && r.forbidden == forbidden
      modifies this, denyList
      ensures Valid() && !bootstrapping && denyList.seeded == (old(denyList.seeded) || ok)
      ensures r.Outcome(old(clock), old(denyList.Contents()), ok, clock, denyList.Contents())
    {
      SafeAppend(forbidden, log, SeedBegins);
      log := log + [SeedBegins];
      bootstrapping := true;
      var addresses;
      ok, addresses := LookUp(r);
      SafeAppend(forbidden, log, SeedEnds);
      log := log + [SeedEnds];
      bootstrapping := false;
      if ok { Seed(addresses); }
    }

    method LookUp(r: Resolution) returns (ok: bool, addresses: set<Address>)
      requires Valid() && bootstrapping && r.forbidden == forbidden
      modifies this`log, this`clock, denyList
      ensures Valid() && denyList.seeded == old(denyList.seeded)
      ensures ok <==> forall i :: 0 <= i < |r.lookups| ==> r.Resolves(i, old(clock), old(denyList.Contents()))
      ensures ok ==> (clock, denyList.Contents()) == r.Before(|r.lookups|, old(clock), old(denyList.Contents())) && addresses == r.Answers(|r.lookups|)
      ensures !ok ==> exists i :: 0 <= i < |r.lookups| && r.FirstFailure(i, old(clock), old(denyList.Contents()))
                        && (clock, denyList.Contents()) == r.Before(i + 1, old(clock), old(denyList.Contents()))
    {
      addresses := {};
      ghost var start, known := clock, denyList.Contents();
      for i := 0 to |r.lookups|
        invariant Valid() && denyList.seeded == old(denyList.seeded)
        invariant (clock, denyList.Contents()) == r.Before(i, start, known)
        invariant forall k :: 0 <= k < i ==> r.Resolves(k, start, known)
        invariant addresses == r.Answers(i)
      {
        var resolved := LookUpOne(r, i, start, known);
        if !resolved {
          assert r.FirstFailure(i, start, known);
          return false, addresses;
        }
        addresses := addresses + r.lookups[i].answer.value;
      }
      ok := true;
    }

    method LookUpOne(r: Resolution, i: nat, ghost start: real, ghost known: Denied) returns (resolved: bool)
      requires Valid() && bootstrapping && r.forbidden == forbidden && i < |r.lookups|
      requires (clock, denyList.Contents()) == r.Before(i, start, known)
      modifies this`log, this`clock, denyList
      ensures Valid() && denyList.seeded == old(denyList.seeded)
      ensures resolved <==> r.Resolves(i, start, known)
      ensures (clock, denyList.Contents()) == r.Before(i + 1, start, known)
    {
      var lookup := r.lookups[i];
      var verdict, _ := Get(lookup.url, r.hosts, r.policy, lookup.script, LOOKUP_BYTES, None, LOOKUP_REDIRECTS);
      resolved := verdict.Success? && lookup.answer.Some?;
    }

    method Seed(addresses: set<Address>)
      requires Valid()
      modifies this`log, denyList
      ensures Valid() && denyList.seeded && denyList.Contents() == old(denyList.Contents()).With(addresses)
      ensures log == old(log) + [Noted(addresses), Seeded] && ContactsIn(log) == ContactsIn(old(log))
    {
      denyList.Seed(addresses);
      NoContacts(log, Noted(addresses));
      SafeSeed(forbidden, log, Noted(addresses));
      log := log + [Noted(addresses), Seeded];
    }

    method SeedNetworks(networks: seq<Network>)
      requires Valid()
      modifies this`log, denyList
      ensures Valid() && denyList.seeded && log == old(log) + [NotedNetworks(networks), Seeded]
      ensures ContactsIn(log) == ContactsIn(old(log))
      ensures denyList.Contents() == Denied(old(denyList.Contents()).addresses, old(denyList.Contents()).networks + networks)
    {
      denyList.SeedNetworks(networks);
      NoContacts(log, NotedNetworks(networks));
      SafeSeed(forbidden, log, NotedNetworks(networks));
      log := log + [NotedNetworks(networks), Seeded];
    }

    /** The step before any dispatch: an address or a network target denies itself, without any request; a
        domain denies exactly what it resolves to. An organization never gets here, and fails if it does. */
    method SeedForTarget(target: Target, r: Resolution) returns (ok: bool)
      requires Valid() && !bootstrapping && r.forbidden == forbidden
      modifies this, denyList
      ensures Valid() && !bootstrapping
      ensures denyList.seeded == (old(denyList.seeded) || ok)
      ensures target.Ip? ==> ok && denyList.Contents() == old(denyList.Contents()).With({target.address})
      ensures target.Cidr? ==> ok && denyList.Contents() == Denied(old(denyList.Contents()).addresses, old(denyList.Contents()).networks + [target.network])
      ensures target.Ip? || target.Cidr? ==> ContactsIn(log) == ContactsIn(old(log)) && clock == old(clock)
      ensures target.Domain? ==> r.Outcome(old(clock), old(denyList.Contents()), ok, clock, denyList.Contents())
      ensures target.Organization? ==> !ok && log == old(log) && clock == old(clock) && denyList.Contents() == old(denyList.Contents())
    {
      match target
      case Ip(address) =>
        Seed({address});
        ok := true;
      case Cidr(network) =>
        SeedNetworks([network]);
        ok := true;
      case Domain(_) =>
        ok := SeedDenyList(r);
      case Organization =>
        ok := false;
    }
  }

  // ---------- what the loops and the seeding come to ----------

  lemma NextHop(q: Request, url: Url, allow: Option<string -> bool>, maxRedirects: int, followed: nat, k: nat, clock: real, denied: Denied, earlier: seq<Contact>)
    ensures var hop := Attempts(q, 1, k, clock, denied);
            var now := earlier + ContactsOfAttempts(q, url, 1, k, clock, denied);
            var all := earlier + ContactsOfHops(q, url, allow, maxRedirects, followed, k, clock, denied);
            if hop.verdict.Follow? && MayFollow(hop.verdict.location, allow, maxRedirects, followed) then
              && Hops(q, allow, maxRedirects, followed, k, clock, denied) == Hops(q, allow, maxRedirects, followed + 1, hop.next, hop.clock, hop.denied)
              && all == now + ContactsOfHops(q, hop.verdict.location, allow, maxRedirects, followed + 1, hop.next, hop.clock, hop.denied)
            else
              && Hops(q, allow, maxRedirects, followed, k, clock, denied) == hop.(verdict := if hop.verdict.Follow? then Failure(RedirectRejected) else hop.verdict)
              && all == now
  {
  }

  /** A lookup resolves exactly when its host is allowed, its body parses, and a single hop, which follows no
      redirect, returns a response of at most two million bytes. */
  lemma ResolvesExactly(r: Resolution, i: nat, clock: real, denied: Denied)
    requires i < |r.lookups|
    ensures var (at, known) := r.Before(i, clock, denied); var lookup := r.lookups[i];
            r.Resolves(i, clock, denied) <==>
              && lookup.url.host in r.hosts && lookup.answer.Some?
              && Attempts(Request(lookup.script, r.forbidden, r.policy, at, 2_000_000, false), 1, 0, at, known).verdict.Success?
  {
  }

  /** After a successful resolution the deny-list holds the addresses of all answers, and beyond them only what
      it held when the last lookup was over. */
  lemma ResolvedIsDenied(r: Resolution, clock: real, denied: Denied, clock': real, denied': Denied, a: Address)
    requires r.Outcome(clock, denied, true, clock', denied')
    ensures denied'.Contains(a) <==>
              r.Before(|r.lookups|, clock, denied).1.Contains(a)
              || exists i :: 0 <= i < |r.lookups| && r.lookups[i].answer.Some? && a in r.lookups[i].answer.value
  {
    assert a in r.Answers(|r.lookups|) <==> exists i :: 0 <= i < |r.lookups| && r.lookups[i].answer.Some? && a in r.lookups[i].answer.value;
  }
}
