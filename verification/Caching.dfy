/** What collectors keep in the cache: findings written out as records, and read back. */
module Caching {
  import opened Wrappers
  import opened Enums
  import opened Cache

  datatype Json = Null | Bool(bool) | Number(real) | Text(string) | Array(seq<Json>) | Object(seq<(string, Json)>)

  /** A finding as a collector produces it. Times are whole microseconds. */
  datatype CollectedFinding = CollectedFinding(
    category: Category,
    kind: string,
    title: string,
    summary: string,
    normalizedValue: Json,
    rawEvidence: Json,
    sourceUrl: string,
    retrievedAt: int,
    fingerprint: string,
    providerObservedAt: Option<int>,
    confidence: Option<Confidence>)

  /** The record written for a finding. An absent optional member and a null one read alike. */
  datatype Record = Record(
    category: string,
    kind: string,
    title: string,
    summary: string,
    normalizedValue: Json,
    rawEvidence: Json,
    sourceUrl: string,
    retrievedAt: string,
    fingerprint: string,
    providerObservedAt: Option<string>,
    confidence: Option<string>)

  /** Writing and reading dates. */
  datatype Dates = Dates(iso: int -> string, parse: string -> Option<int>)

  ghost predicate ReadsBack(dates: Dates) {
    forall t :: dates.iso(t) != "" && dates.parse(dates.iso(t)) == Some(t)
  }

  function SerializeFinding(dates: Dates, f: CollectedFinding): Record {
    Record(CategoryText(f.category), f.kind, f.title, f.summary, f.normalizedValue, f.rawEvidence, f.sourceUrl,
           dates.iso(f.retrievedAt), f.fingerprint,
           if f.providerObservedAt.Some? then Some(dates.iso(f.providerObservedAt.value)) else None,
           if f.confidence.Some? then Some(ConfidenceText(f.confidence.value)) else None)
  }

  /** An optional member that is absent, null or empty is none; otherwise it must be readable. */
  function ParseOptional<T>(text: Option<string>, parse: string -> Option<T>): Option<Option<T>> {
    if text.None? || text.value == "" then Some(None)
    else if parse(text.value).Some? then Some(parse(text.value))
    else None
  }

  /** None when the record holds an unknown enumeration text or an unreadable date. */
  function DeserializeFinding(dates: Dates, r: Record): Option<CollectedFinding> {
    var category := ParseCategory(r.category);
    var retrievedAt := dates.parse(r.retrievedAt);
    var observed := ParseOptional(r.providerObservedAt, dates.parse);
    var confidence := ParseOptional(r.confidence, ParseConfidence);
    if category.None? || retrievedAt.None? || observed.None? || confidence.None? then None
    else Some(CollectedFinding(category.value, r.kind, r.title, r.summary, r.normalizedValue, r.rawEvidence, r.sourceUrl,
                               retrievedAt.value, r.fingerprint, observed.value, confidence.value))
  }

  /** A record is unreadable exactly when its category is none of the four, its date of retrieval does not parse,
      or an optional date or confidence is there and does not. */
  lemma UnreadableExactly(dates: Dates, r: Record)
    ensures DeserializeFinding(dates, r).None? <==>
              || r.category !in {"network_footprint", "technology_stack", "human_layer", "leaked_data"}
              || dates.parse(r.retrievedAt).None?
              || (r.providerObservedAt.Some? && r.providerObservedAt.value != "" && dates.parse(r.providerObservedAt.value).None?)
              || (r.confidence.Some? && r.confidence.value !in {"", "low", "medium", "high"})
  {
  }

  function SerializeAll(dates: Dates, findings: seq<CollectedFinding>): seq<Record> {
    seq(|findings|, i requires 0 <= i < |findings| => SerializeFinding(dates, findings[i]))
  }

  function DeserializeAll(dates: Dates, records: seq<Record>): Option<seq<CollectedFinding>> {
    if records == [] then Some([])
    else
      var front := DeserializeAll(dates, records[..|records| - 1]);
      var last := DeserializeFinding(dates, records[|records| - 1]);
      if front.None? || last.None? then None else Some(front.value + [last.value])
  }

  lemma FindingReadsBack(dates: Dates, f: CollectedFinding)
    requires ReadsBack(dates)
    ensures DeserializeFinding(dates, SerializeFinding(dates, f)) == Some(f)
  {
    var r := SerializeFinding(dates, f);
    assert ParseCategory(r.category) == Some(f.category);
    assert dates.parse(r.retrievedAt) == Some(f.retrievedAt);
    if f.providerObservedAt.Some? {
      var t := f.providerObservedAt.value;
      assert dates.iso(t) != "" && dates.parse(dates.iso(t)) == Some(t);
    }
    assert ParseOptional(r.providerObservedAt, dates.parse) == Some(f.providerObservedAt);
    assert ParseOptional(r.confidence, ParseConfidence) == Some(f.confidence);
  }

  lemma {:induction false} FindingsReadBack(dates: Dates, findings: seq<CollectedFinding>)
    requires ReadsBack(dates)
    ensures DeserializeAll(dates, SerializeAll(dates, findings)) == Some(findings)
  {
    if findings != [] {
      var n := |findings| - 1;
      FindingsReadBack(dates, findings[..n]);
      FindingReadsBack(dates, findings[n]);
      assert SerializeAll(dates, findings)[..n] == SerializeAll(dates, findings[..n]);
      assert findings == findings[..n] + [findings[n]];
    }
  }

  /** A list reads back as long as each of its records does, each in its place. */
  lemma {:induction false} ReadsAll(dates: Dates, records: seq<Record>)
    ensures DeserializeAll(dates, records).None? <==> exists i :: 0 <= i < |records| && DeserializeFinding(dates, records[i]).None?
    ensures DeserializeAll(dates, records).Some? ==>
              var findings := DeserializeAll(dates, records).value;
              |findings| == |records| && forall i :: 0 <= i < |records| ==> DeserializeFinding(dates, records[i]) == Some(findings[i])
  {
    if records != [] {
      var n := |records| - 1;
      ReadsAll(dates, records[..n]);
      assert forall i :: 0 <= i < n ==> records[..n][i] == records[i];
    }
  }

  // ---------- reading and writing through the table ----------

  /** What an entry holds: a status, the response, and the records, when there are any. */
  datatype Payload = Payload(status: string, response: Json, records: Option<seq<Record>>)

  datatype Cached = Miss | Hit(findings: seq<CollectedFinding>) | Malformed

  function Read(dates: Dates, entry: Option<Entry<Payload>>): Cached {
    if entry.None? then Miss
    else
      var records := entry.value.payload.records;
      var findings := DeserializeAll(dates, if records.Some? then records.value else []);
      if findings.None? then Malformed else Hit(findings.value)
  }

  /** The part of a collector's context that the cache touches. */
  class CollectorContext {
    const cache: CacheTable<Payload>
    const dates: Dates
    var cacheHit: bool

    constructor (cache: CacheTable<Payload>, dates: Dates)
      ensures this.cache == cache && this.dates == dates && !cacheHit
    {
      this.cache := cache;
      this.dates := dates;
      cacheHit := false;
    }

    method GetCachedFindings(key: string, now: int) returns (cached: Cached)
      requires cache.Valid()
      modifies this
      ensures cached == Read(dates, Lookup(Replay(cache.trace), key, now))
      ensures cacheHit == (old(cacheHit) || !cached.Miss?)
      ensures cached == Miss <==> key !in cache.entries || cache.entries[key].expiresAt <= now
      ensures cached != Miss ==>
                var records := cache.entries[key].payload.records; var list := if records.Some? then records.value else [];
                if exists i :: 0 <= i < |list| && DeserializeFinding(dates, list[i]).None? then cached == Malformed
                else cached.Hit? && |cached.findings| == |list|
                     && forall i :: 0 <= i < |list| ==> DeserializeFinding(dates, list[i]) == Some(cached.findings[i])
    {
      var entry := cache.Get(key, now);
      if entry.None? { return Miss; }
      cacheHit := true;
      var records := entry.value.payload.records;
      var list := if records.Some? then records.value else [];
      ReadsAll(dates, list);
      var findings := [];
      for i := 0 to |list|
        invariant cacheHit && DeserializeAll(dates, list[..i]) == Some(findings)
      {
        var finding := DeserializeFinding(dates, list[i]);
        assert list[..i + 1][..i] == list[..i];
        if finding.None? {
          MalformedPrefix(dates, list, i + 1);
          return Malformed;
        }
        findings := findings + [finding.value];
      }
      assert list[..|list|] == list;
      return Hit(findings);
    }

    method StoreFindingsInCache(collector: string, schemaVersion: string, key: string, findings: seq<CollectedFinding>,
                                status: string, response: Json, ttl: int, now: int)
      requires cache.Valid()
      modifies cache
      ensures cache.Valid()
      ensures cache.trace == old(cache.trace) + [Storing(dates, collector, schemaVersion, key, findings, status, response, ttl, now)]
    {
      var records: seq<Record> := [];
      for i := 0 to |findings|
        invariant records == SerializeAll(dates, findings[..i])
        invariant cache.Valid() && cache.trace == old(cache.trace)
      {
        records := records + [SerializeFinding(dates, findings[i])];
      }
      assert findings[..|findings|] == findings;
      cache.Set(key, collector, schemaVersion, Payload(status, response, Some(records)), ttl, now);
    }
  }

  function Storing(dates: Dates, collector: string, schemaVersion: string, key: string, findings: seq<CollectedFinding>,
                   status: string, response: Json, ttl: int, now: int): Timed<Payload> {
    Timed(now, Store(key, collector, schemaVersion, Payload(status, response, Some(SerializeAll(dates, findings))), ttl))
  }

  lemma {:induction false} MalformedPrefix(dates: Dates, records: seq<Record>, n: nat)
    requires n <= |records| && DeserializeAll(dates, records[..n]).None?
    ensures DeserializeAll(dates, records).None?
    decreases |records| - n
  {
    if n == |records| {
      assert records[..n] == records;
    } else {
      assert records[..n + 1][..n] == records[..n];
      MalformedPrefix(dates, records, n + 1);
    }
  }

  predicate LeavesAlone(trace: seq<Timed<Payload>>, key: string) {
    forall i :: 0 <= i < |trace| ==> !trace[i].op.Purge? && (trace[i].op.Store? ==> trace[i].op.key != key)
  }

  lemma {:induction false} StillLastStored(before: seq<Timed<Payload>>, store: Timed<Payload>, after: seq<Timed<Payload>>, key: string)
    requires store.op.Store? && store.op.key == key && LeavesAlone(after, key)
    ensures LastStored(before + [store] + after, key) == Some(Stored(store.at, store.op))
  {
    var whole := before + [store] + after;
    if after == [] {
      assert whole[|whole| - 1] == store;
    } else {
      var n := |after| - 1;
      StillLastStored(before, store, after[..n], key);
      assert whole[..|whole| - 1] == before + [store] + after[..n] && whole[|whole| - 1] == after[n];
    }
  }

  /** Findings that were stored come back as they were until their time is up, whatever else is stored and
      however often the table is swept in between; after that they are a miss. */
  lemma StoredFindingsComeBack(dates: Dates, before: seq<Timed<Payload>>, after: seq<Timed<Payload>>,
                               collector: string, schemaVersion: string, key: string, findings: seq<CollectedFinding>,
                               status: string, response: Json, ttl: int, at: int, now: int)
    requires ReadsBack(dates) && LeavesAlone(after, key)
    requires var store := Storing(dates, collector, schemaVersion, key, findings, status, response, ttl, at);
             Until(before + [store] + after, now)
    ensures var store := Storing(dates, collector, schemaVersion, key, findings, status, response, ttl, at);
            Read(dates, Lookup(Replay(before + [store] + after), key, now)) == if now < at + ttl then Hit(findings) else Miss
  {
    var store := Storing(dates, collector, schemaVersion, key, findings, status, response, ttl, at);
    StillLastStored(before, store, after, key);
    CacheIsTransparent(before + [store] + after, key, now);
    FindingsReadBack(dates, findings);
  }
}
