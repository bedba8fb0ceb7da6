/** The response cache: its keys, its table, and what a lookup answers. `V` is the type of what is stored.
    Times are whole microseconds. */
module Cache {
  import opened Wrappers

  // ---------- keys ----------

  datatype KeyParts = KeyParts(collector: string, schemaVersion: string, target: string, variant: string, credential: Option<string>)

  function Fields(k: KeyParts): seq<string> {
    [k.collector, k.schemaVersion, k.target, k.variant, if k.credential.Some? then k.credential.value else ""]
  }

  function Join(parts: seq<string>): string
    requires parts != []
  {
    if |parts| == 1 then parts[0] else parts[0] + "|" + Join(parts[1..])
  }

  /** The digest of a key is taken to be injective, so the key is what it digests. */
  function ComputeCacheKey(k: KeyParts): string { Join(Fields(k)) }

  predicate BarFree(parts: seq<string>) {
    forall i :: 0 <= i < |parts| ==> '|' !in parts[i]
  }

  /** No other list of as many parts is joined to the same text. */
  ghost predicate OnlyReading(parts: seq<string>)
    requires parts != []
  {
    forall q: seq<string> :: |q| == |parts| && Join(q) == Join(parts) ==> q == parts
  }

  function Bars(text: string): nat { multiset(text)['|'] }

  lemma {:induction false} BarsOfJoin(parts: seq<string>)
    requires parts != []
    ensures Bars(Join(parts)) >= |parts| - 1
    ensures Bars(Join(parts)) == |parts| - 1 <==> BarFree(parts)
  {
    if |parts| > 1 {
      BarsOfJoin(parts[1..]);
      assert BarFree(parts) <==> '|' !in parts[0] && BarFree(parts[1..]) by {
        assert forall i :: 1 <= i < |parts| ==> parts[i] == parts[1..][i - 1];
        if '|' !in parts[0] && BarFree(parts[1..]) {
          forall i | 0 <= i < |parts| ensures '|' !in parts[i] {
            if i > 0 { assert parts[i] == parts[1..][i - 1]; }
          }
        }
        if BarFree(parts) {
          forall i | 0 <= i < |parts| - 1 ensures '|' !in parts[1..][i] { assert parts[1..][i] == parts[i + 1]; }
        }
      }
      assert Bars(parts[0]) == 0 <==> '|' !in parts[0];
    } else {
      assert Bars(parts[0]) == 0 <==> '|' !in parts[0];
    }
  }

  lemma {:induction false} BarFreeJoinsOnce(a: seq<string>, b: seq<string>)
    requires a != [] && |a| == |b| && BarFree(a) && BarFree(b) && Join(a) == Join(b)
    ensures a == b
  {
    if |a| > 1 {
      FirstBar(a[0], Join(a[1..]), b[0], Join(b[1..]));
      assert BarFree(a[1..]) && BarFree(b[1..]);
      BarFreeJoinsOnce(a[1..], b[1..]);
      assert a == [a[0]] + a[1..] && b == [b[0]] + b[1..];
    }
  }

  lemma FirstBar(a: string, restA: string, b: string, restB: string)
    requires '|' !in a && '|' !in b && a + "|" + restA == b + "|" + restB
    ensures a == b && restA == restB
  {
    var whole := a + "|" + restA;
    assert whole == b + "|" + restB;
    assert whole[|a|] == '|' && whole[|b|] == '|';
    forall i | 0 <= i < |a| ensures whole[i] != '|' { assert whole[i] == a[i]; }
    forall i | 0 <= i < |b| ensures whole[i] != '|' { assert whole[i] == b[i]; }
    assert a == whole[..|a|] && b == whole[..|b|];
    assert restA == whole[|a| + 1..] && restB == whole[|b| + 1..];
  }

  /** A bar inside a part can be read as the one between two parts. */
  lemma {:induction false} OtherReading(parts: seq<string>, i: nat, at: nat) returns (q: seq<string>)
    requires |parts| >= 2 && i < |parts| && at < |parts[i]| && parts[i][at] == '|'
    ensures |q| == |parts| && Join(q) == Join(parts) && q != parts
  {
    if i > 0 && |parts| > 2 {
      var rest := OtherReading(parts[1..], i - 1, at);
      q := [parts[0]] + rest;
      assert q[1..] == rest;
      assert parts == [parts[0]] + parts[1..];
    } else if i == 0 {
      var before, after := parts[0][..at], parts[0][at + 1..];
      assert parts[0] == before + "|" + after;
      q := [before, after + "|" + parts[1]] + parts[2..];
    } else {
      var before, after := parts[1][..at], parts[1][at + 1..];
      assert parts[1] == before + "|" + after;
      q := [parts[0] + "|" + before, after];
      assert q[1..] == [after] && parts[1..] == [parts[1]];
      assert (parts[0] + "|" + before) + "|" + after == parts[0] + "|" + (before + "|" + after);
    }
  }

  lemma BarFreeReadsOnce(parts: seq<string>)
    requires |parts| >= 2
    ensures OnlyReading(parts) <==> BarFree(parts)
  {
    if BarFree(parts) {
      forall q: seq<string> | |q| == |parts| && Join(q) == Join(parts) ensures q == parts {
        BarsOfJoin(q);
        BarsOfJoin(parts);
        BarFreeJoinsOnce(q, parts);
      }
    } else {
      var i :| 0 <= i < |parts| && '|' in parts[i];
      var at :| 0 <= at < |parts[i]| && parts[i][at] == '|';
      var q := OtherReading(parts, i, at);
    }
  }

  /** The parts of a request can be read back from its key exactly when none of them has a bar in it. */
  lemma CacheKeyKeepsItsParts(k: KeyParts)
    ensures (forall o :: ComputeCacheKey(o) == ComputeCacheKey(k) ==> Fields(o) == Fields(k)) <==> BarFree(Fields(k))
  {
    BarFreeReadsOnce(Fields(k));
    if !BarFree(Fields(k)) {
      var q: seq<string> :| |q| == |Fields(k)| && Join(q) == Join(Fields(k)) && q != Fields(k);
      var o := KeyParts(q[0], q[1], q[2], q[3], Some(q[4]));
      assert Fields(o) == q;
    }
  }

  /** A key belongs to one request alone exactly when, besides, the request has a credential scope that is not
      the empty text: an absent one and an empty one are joined alike. */
  lemma CacheKeyIsItsOwn(k: KeyParts)
    ensures (forall o :: ComputeCacheKey(o) == ComputeCacheKey(k) ==> o == k)
            <==> BarFree(Fields(k)) && k.credential.Some? && k.credential.value != ""
  {
    CacheKeyKeepsItsParts(k);
    if !(k.credential.Some? && k.credential.value != "") {
      var unscoped, empty := k.(credential := None), k.(credential := Some(""));
      assert Fields(unscoped) == Fields(k) == Fields(empty);
      assert ComputeCacheKey(unscoped) == ComputeCacheKey(k) == ComputeCacheKey(empty);
      assert unscoped != empty;
    }
  }

  lemma JoinOnto(first: string, rest: seq<string>)
    requires rest != []
    ensures Join([first] + rest) == first + "|" + Join(rest)
  {
    assert ([first] + rest)[1..] == rest;
  }

  /** The parts in this order, with a bar between any two. */
  lemma KeyIsJoined(k: KeyParts)
    ensures var credential := if k.credential.Some? then k.credential.value else "";
            ComputeCacheKey(k) == k.collector + "|" + (k.schemaVersion + "|" + (k.target + "|" + (k.variant + "|" + credential)))
  {
    var credential := if k.credential.Some? then k.credential.value else "";
    JoinOnto(k.variant, [credential]);
    JoinOnto(k.target, [k.variant, credential]);
    JoinOnto(k.schemaVersion, [k.target, k.variant, credential]);
    JoinOnto(k.collector, [k.schemaVersion, k.target, k.variant, credential]);
  }

  // ---------- the table ----------

  datatype Entry<V> = Entry(collector: string, schemaVersion: string, payload: V, retrievedAt: int, expiresAt: int)

  datatype Op<V> = Store(key: string, collector: string, schemaVersion: string, payload: V, ttl: int) | Sweep | Purge

  datatype Timed<V> = Timed(at: int, op: Op<V>)

  function Stored<V>(at: int, op: Op<V>): Entry<V>
    requires op.Store?
  {
    Entry(op.collector, op.schemaVersion, op.payload, at, at + op.ttl)
  }

  function Apply<V>(table: map<string, Entry<V>>, t: Timed<V>): map<string, Entry<V>> {
    match t.op
    case Store(key, _, _, _, _) => table[key := Stored(t.at, t.op)]
    case Sweep => map k | k in table && table[k].expiresAt > t.at :: table[k]
    case Purge => map[]
  }

  function Replay<V>(trace: seq<Timed<V>>): map<string, Entry<V>> {
    if trace == [] then map[] else Apply(Replay(trace[..|trace| - 1]), trace[|trace| - 1])
  }

  function Lookup<V>(table: map<string, Entry<V>>, key: string, now: int): Option<Entry<V>> {
    if key in table && table[key].expiresAt > now then Some(table[key]) else None
  }

  /** What was last stored under a key since the last purge. */
  function LastStored<V>(trace: seq<Timed<V>>, key: string): Option<Entry<V>> {
    if trace == [] then None
    else
      var front, last := trace[..|trace| - 1], trace[|trace| - 1];
      if last.op.Store? && last.op.key == key then Some(Stored(last.at, last.op))
      else if last.op.Purge? then None
      else LastStored(front, key)
  }

  /** What the cache is for: the last thing stored, until its time is up. */
  function Reference<V>(trace: seq<Timed<V>>, key: string, now: int): Option<Entry<V>> {
    var e := LastStored(trace, key);
    if e.Some? && now < e.value.expiresAt then e else None
  }

  /** Since the last store under the key, a sweep has found that entry expired. */
  predicate SweptAway<V>(trace: seq<Timed<V>>, key: string) {
    if trace == [] then false
    else
      var front, last := trace[..|trace| - 1], trace[|trace| - 1];
      match last.op
      case Store(k, _, _, _, _) => k != key && SweptAway(front, key)
      case Sweep => SweptAway(front, key) || (LastStored(front, key).Some? && LastStored(front, key).value.expiresAt <= last.at)
      case Purge => false
  }

  lemma {:induction false} ReplayMeaning<V>(trace: seq<Timed<V>>, key: string)
    ensures key in Replay(trace) <==> LastStored(trace, key).Some? && !SweptAway(trace, key)
    ensures key in Replay(trace) ==> Replay(trace)[key] == LastStored(trace, key).value
  {
    if trace != [] { ReplayMeaning(trace[..|trace| - 1], key); }
  }

  /** For every trace and any clock: the table answers as the reference does unless a sweep has thrown away what
      is still good at the time of the question. */
  lemma AnswersUnlessSwept<V>(trace: seq<Timed<V>>, key: string, now: int)
    ensures Lookup(Replay(trace), key, now) == Reference(trace, key, now)
            <==> !(SweptAway(trace, key) && Reference(trace, key, now).Some?)
  {
    ReplayMeaning(trace, key);
  }

  /** Nothing in the trace comes after this time. */
  predicate Until<V>(trace: seq<Timed<V>>, now: int) {
    forall i :: 0 <= i < |trace| ==> trace[i].at <= now
  }

  /** No question is asked before the trace ends: the answer is the last thing stored, or a miss once it has expired. */
  lemma CacheIsTransparent<V>(trace: seq<Timed<V>>, key: string, now: int)
    requires Until(trace, now)
    ensures Lookup(Replay(trace), key, now) == Reference(trace, key, now)
  {
    AnswersUnlessSwept(trace, key, now);
  }

  /** A clock set back shows the sweep: what it removed would have been good again. */
  lemma ClockSetBackShowsSweep(payload: string)
    ensures var trace := [Timed(0, Store("k", "c", "1", payload, 10)), Timed(20, Sweep)];
            Reference(trace, "k", 5).Some? && Lookup(Replay(trace), "k", 5).None?
  {
    var trace := [Timed(0, Store("k", "c", "1", payload, 10)), Timed(20, Sweep)];
    assert trace[..1] == [Timed(0, Store("k", "c", "1", payload, 10))];
    assert LastStored(trace[..1], "k").Some?;
    assert SweptAway(trace, "k");
    AnswersUnlessSwept(trace, "k", 5);
  }

  function WithoutSweeps<V>(trace: seq<Timed<V>>): seq<Timed<V>> {
    if trace == [] then []
    else
      var last := trace[|trace| - 1];
      var kept := WithoutSweeps(trace[..|trace| - 1]);
      if last.op.Sweep? then kept else kept + [last]
  }

  /** Sweeps, wherever they fall, change no answer. */
  lemma SweepsAreInvisible<V>(trace: seq<Timed<V>>, key: string, now: int)
    requires Until(trace, now)
    ensures Lookup(Replay(trace), key, now) == Lookup(Replay(WithoutSweeps(trace)), key, now)
  {
    CacheIsTransparent(trace, key, now);
    AnswersUnlessSwept(WithoutSweeps(trace), key, now);
  }

  class CacheTable<V> {
    var entries: map<string, Entry<V>>
    ghost var trace: seq<Timed<V>>

    ghost predicate Valid()
      reads this
    {
      entries == Replay(trace)
    }

    constructor ()
      ensures Valid() && trace == []
    {
      entries := map[];
      trace := [];
    }

    method Get(key: string, now: int) returns (entry: Option<Entry<V>>)
      requires Valid()
      ensures entry == Lookup(Replay(trace), key, now)
      ensures entry == if key in entries && now < entries[key].expiresAt then Some(entries[key]) else None
      ensures Until(trace, now) ==> entry == Reference(trace, key, now)
    {
      if Until(trace, now) { CacheIsTransparent(trace, key, now); }
      if key !in entries || entries[key].expiresAt <= now { return None; }
      return Some(entries[key]);
    }

    method Set(key: string, collector: string, schemaVersion: string, payload: V, ttl: int, now: int)
      requires Valid()
      modifies this
      ensures Valid() && trace == old(trace) + [Timed(now, Store(key, collector, schemaVersion, payload, ttl))]
      ensures entries == old(entries)[key := Entry(collector, schemaVersion, payload, now, now + ttl)]
    {
      entries := entries[key := Entry(collector, schemaVersion, payload, now, now + ttl)];
      Record(Timed(now, Store(key, collector, schemaVersion, payload, ttl)));
    }

    /** Removes what has expired, one entry after another. */
    method SweepExpired(now: int) returns (deleted: nat)
      requires Valid()
      modifies this
      ensures Valid() && trace == old(trace) + [Timed(now, Sweep)]
      ensures deleted == |old(entries)| - |entries|
      ensures forall k :: k in entries <==> k in old(entries) && old(entries)[k].expiresAt > now
      ensures forall k :: k in entries ==> entries[k] == old(entries)[k]
    {
      var expired := set k | k in entries && entries[k].expiresAt <= now;
      deleted := |expired|;
      entries := entries - expired;
      Record(Timed(now, Sweep));
    }

    method PurgeAll(now: int)
      requires Valid()
      modifies this
      ensures Valid() && trace == old(trace) + [Timed(now, Purge)] && entries == map[]
    {
      entries := map[];
      Record(Timed(now, Purge));
    }

    ghost method Record(t: Timed<V>)
      requires entries == Apply(Replay(trace), t)
      modifies this`trace
      ensures Valid() && trace == old(trace) + [t]
    {
      assert (trace + [t])[..|trace|] == trace;
      trace := trace + [t];
    }
  }
}
