/** The evidence-aware diff of two jobs. `F` is the type of fingerprints, `V` that of normalized values. */
module Diff {
  import opened Wrappers
  import opened Rows

  datatype Evidence<F, V> = Evidence(fingerprint: F, collector: string, kind: string, title: string, summary: string, value: V)

  datatype DiffResult<F, V> = DiffResult(
    added: seq<Evidence<F, V>>,
    removed: seq<Evidence<F, V>>,
    changed: seq<(Evidence<F, V>, Evidence<F, V>)>,
    unchangedCount: nat,
    indeterminate: seq<Evidence<F, V>>)

  /** One row for each fingerprint: the last one wins. */
  function ByFingerprint<F(==), V>(rows: seq<Evidence<F, V>>): map<F, Evidence<F, V>> {
    if rows == [] then map[]
    else ByFingerprint(rows[..|rows| - 1])[rows[|rows| - 1].fingerprint := rows[|rows| - 1]]
  }

  predicate Keyed<F(==), V>(m: map<F, Evidence<F, V>>) {
    forall fp :: fp in m ==> m[fp].fingerprint == fp
  }

  lemma {:induction false} ByFingerprintIsKeyed<F, V>(rows: seq<Evidence<F, V>>)
    ensures Keyed(ByFingerprint(rows))
  {
    if rows != [] { ByFingerprintIsKeyed(rows[..|rows| - 1]); }
  }

  predicate CompletedIn(statuses: map<string, CollectorStatus>, collector: string) {
    collector in statuses && statuses[collector] == Done
  }

  predicate CompletedInBoth(oldStatuses: map<string, CollectorStatus>, newStatuses: map<string, CollectorStatus>, collector: string) {
    CompletedIn(oldStatuses, collector) && CompletedIn(newStatuses, collector)
  }

  /** The list holds the rows of exactly these fingerprints, each once. */
  ghost predicate ListsRows<F, V>(rows: seq<Evidence<F, V>>, m: map<F, Evidence<F, V>>, keys: set<F>) {
    && keys <= m.Keys
    && |rows| == |keys|
    && (forall i :: 0 <= i < |rows| ==> rows[i].fingerprint in keys && rows[i] == m[rows[i].fingerprint])
    && (forall i, k :: 0 <= i < k < |rows| ==> rows[i].fingerprint != rows[k].fingerprint)
  }

  predicate IsPair<F(==), V(==)>(pair: (Evidence<F, V>, Evidence<F, V>), was: map<F, Evidence<F, V>>, now: map<F, Evidence<F, V>>, keys: set<F>)
    requires keys <= was.Keys * now.Keys
  {
    var fp := pair.0.fingerprint;
    fp in keys && pair == (was[fp], now[fp])
  }

  ghost predicate ListsPairs<F, V>(pairs: seq<(Evidence<F, V>, Evidence<F, V>)>, was: map<F, Evidence<F, V>>, now: map<F, Evidence<F, V>>, keys: set<F>) {
    && keys <= was.Keys * now.Keys
    && |pairs| == |keys|
    && (forall i :: 0 <= i < |pairs| ==> IsPair(pairs[i], was, now, keys))
    && (forall i, k :: 0 <= i < k < |pairs| ==> pairs[i].0.fingerprint != pairs[k].0.fingerprint)
  }

  /** Which fingerprints belong to which list. */
  function GoneKeys<F, V>(was: map<F, Evidence<F, V>>, now: map<F, Evidence<F, V>>): set<F> {
    was.Keys - now.Keys
  }

  function CompletedKeys<F, V>(m: map<F, Evidence<F, V>>, keys: set<F>,
                               oldStatuses: map<string, CollectorStatus>, newStatuses: map<string, CollectorStatus>): set<F>
    requires keys <= m.Keys
  {
    set fp | fp in keys && CompletedInBoth(oldStatuses, newStatuses, m[fp].collector)
  }

  function RemovedKeys<F, V>(was: map<F, Evidence<F, V>>, now: map<F, Evidence<F, V>>,
                             oldStatuses: map<string, CollectorStatus>, newStatuses: map<string, CollectorStatus>): set<F> {
    CompletedKeys(was, GoneKeys(was, now), oldStatuses, newStatuses)
  }

  function ChangedKeys<F, V(==)>(was: map<F, Evidence<F, V>>, now: map<F, Evidence<F, V>>): set<F> {
    set fp | fp in was.Keys * now.Keys && was[fp].value != now[fp].value
  }

  function SameKeys<F, V(==)>(was: map<F, Evidence<F, V>>, now: map<F, Evidence<F, V>>): set<F> {
    set fp | fp in was.Keys * now.Keys && was[fp].value == now[fp].value
  }

  ghost predicate IsDiff<F, V>(was: map<F, Evidence<F, V>>, now: map<F, Evidence<F, V>>,
                               oldStatuses: map<string, CollectorStatus>, newStatuses: map<string, CollectorStatus>,
                               d: DiffResult<F, V>) {
    var removed := RemovedKeys(was, now, oldStatuses, newStatuses);
    && ListsRows(d.added, now, now.Keys - was.Keys)
    && ListsRows(d.removed, was, removed)
    && ListsRows(d.indeterminate, was, GoneKeys(was, now) - removed)
    && ListsPairs(d.changed, was, now, ChangedKeys(was, now))
    && d.unchangedCount == |SameKeys(was, now)|
  }

  // ---------- the diff told from the rows and the statuses themselves ----------

  /** The last of the rows with its fingerprint. */
  predicate Current<F(==), V(==)>(rows: seq<Evidence<F, V>>, x: Evidence<F, V>) {
    exists i :: 0 <= i < |rows| && rows[i] == x && forall k :: i < k < |rows| ==> rows[k].fingerprint != x.fingerprint
  }

  predicate Mentions<F(==), V>(rows: seq<Evidence<F, V>>, fp: F) {
    exists i :: 0 <= i < |rows| && rows[i].fingerprint == fp
  }

  /** Gone from the new rows, and its collector is DONE in both jobs. */
  predicate SurelyGone<F(==), V(==)>(oldFindings: seq<Evidence<F, V>>, newFindings: seq<Evidence<F, V>>,
                                     oldStatuses: map<string, CollectorStatus>, newStatuses: map<string, CollectorStatus>, x: Evidence<F, V>) {
    && Current(oldFindings, x) && !Mentions(newFindings, x.fingerprint)
    && x.collector in oldStatuses && oldStatuses[x.collector] == Done
    && x.collector in newStatuses && newStatuses[x.collector] == Done
  }

  /** Gone from the new rows, but one of the jobs does not show its collector DONE. */
  predicate PerhapsGone<F(==), V(==)>(oldFindings: seq<Evidence<F, V>>, newFindings: seq<Evidence<F, V>>,
                                      oldStatuses: map<string, CollectorStatus>, newStatuses: map<string, CollectorStatus>, x: Evidence<F, V>) {
    && Current(oldFindings, x) && !Mentions(newFindings, x.fingerprint)
    && (x.collector !in oldStatuses || oldStatuses[x.collector] != Done || x.collector !in newStatuses || newStatuses[x.collector] != Done)
  }

  /** Both jobs have a row of this fingerprint, and they agree in their values, or do not. */
  predicate Pairs<F(==), V(==)>(oldFindings: seq<Evidence<F, V>>, newFindings: seq<Evidence<F, V>>, a: Evidence<F, V>, b: Evidence<F, V>, same: bool) {
    Current(oldFindings, a) && Current(newFindings, b) && a.fingerprint == b.fingerprint && (same <==> a.value == b.value)
  }

  ghost predicate Compares<F, V>(oldFindings: seq<Evidence<F, V>>, newFindings: seq<Evidence<F, V>>,
                                 oldStatuses: map<string, CollectorStatus>, newStatuses: map<string, CollectorStatus>, d: DiffResult<F, V>) {
    && (forall x :: x in d.added ==> Current(newFindings, x) && !Mentions(oldFindings, x.fingerprint))
    && (forall x :: x in newFindings && Current(newFindings, x) && !Mentions(oldFindings, x.fingerprint) ==> x in d.added)
    && (forall x :: x in d.removed ==> SurelyGone(oldFindings, newFindings, oldStatuses, newStatuses, x))
    && (forall x :: x in oldFindings && SurelyGone(oldFindings, newFindings, oldStatuses, newStatuses, x) ==> x in d.removed)
    && (forall x :: x in d.indeterminate ==> PerhapsGone(oldFindings, newFindings, oldStatuses, newStatuses, x))
    && (forall x :: x in oldFindings && PerhapsGone(oldFindings, newFindings, oldStatuses, newStatuses, x) ==> x in d.indeterminate)
    && (forall pair :: pair in d.changed ==> Pairs(oldFindings, newFindings, pair.0, pair.1, false))
    && (forall a, b :: a in oldFindings && b in newFindings && Pairs(oldFindings, newFindings, a, b, false) ==> (a, b) in d.changed)
    && d.unchangedCount == |set a, b | a in oldFindings && b in newFindings && Pairs(oldFindings, newFindings, a, b, true) :: a.fingerprint|
  }

  lemma OneMoreRow<F, V>(front: seq<Evidence<F, V>>, last: Evidence<F, V>, x: Evidence<F, V>)
    ensures Mentions(front + [last], x.fingerprint) <==> Mentions(front, x.fingerprint) || last.fingerprint == x.fingerprint
    ensures Current(front + [last], x) <==> if last.fingerprint == x.fingerprint then last == x else Current(front, x)
  {
    var rows := front + [last];
    assert rows[|front|] == last && forall i :: 0 <= i < |front| ==> rows[i] == front[i];
    if Current(front, x) {
      var i :| 0 <= i < |front| && front[i] == x && forall k :: i < k < |front| ==> front[k].fingerprint != x.fingerprint;
      assert rows[i] == x;
    }
  }

  lemma {:induction false} ByFingerprintMeaning<F, V>(rows: seq<Evidence<F, V>>, x: Evidence<F, V>)
    ensures x.fingerprint in ByFingerprint(rows) <==> Mentions(rows, x.fingerprint)
    ensures Current(rows, x) <==> x.fingerprint in ByFingerprint(rows) && ByFingerprint(rows)[x.fingerprint] == x
    ensures Current(rows, x) ==> x in rows
  {
    if rows != [] {
      var front, last := rows[..|rows| - 1], rows[|rows| - 1];
      ByFingerprintMeaning(front, x);
      OneMoreRow(front, last, x);
      assert rows == front + [last];
    }
  }

  lemma AppendRow<F, V>(rows: seq<Evidence<F, V>>, m: map<F, Evidence<F, V>>, keys: set<F>, fp: F)
    requires ListsRows(rows, m, keys) && Keyed(m) && fp in m && fp !in keys
    ensures ListsRows(rows + [m[fp]], m, keys + {fp})
  {
    var longer := rows + [m[fp]];
    assert longer[|rows|] == m[fp];
  }

  lemma AppendPair<F, V>(pairs: seq<(Evidence<F, V>, Evidence<F, V>)>, was: map<F, Evidence<F, V>>, now: map<F, Evidence<F, V>>, keys: set<F>, fp: F)
    requires ListsPairs(pairs, was, now, keys) && Keyed(was) && fp in was && fp in now && fp !in keys
    ensures ListsPairs(pairs + [(was[fp], now[fp])], was, now, keys + {fp})
  {
    var longer := pairs + [(was[fp], now[fp])];
    assert longer[|pairs|] == (was[fp], now[fp]);
    forall i | 0 <= i < |longer| ensures IsPair(longer[i], was, now, keys + {fp}) {
      if i < |pairs| { assert IsPair(pairs[i], was, now, keys); }
    }
    forall i | 0 <= i < |pairs| ensures longer[i].0.fingerprint != fp {
      assert IsPair(pairs[i], was, now, keys);
    }
  }

  // ---------- the computation ----------

  method Index<F(==), V>(rows: seq<Evidence<F, V>>) returns (m: map<F, Evidence<F, V>>)
    ensures m == ByFingerprint(rows) && Keyed(m)
  {
    m := map[];
    for i := 0 to |rows|
      invariant m == ByFingerprint(rows[..i])
    {
      assert rows[..i + 1][..i] == rows[..i];
      m := m[rows[i].fingerprint := rows[i]];
    }
    assert rows[..|rows|] == rows;
    ByFingerprintIsKeyed(rows);
  }

  method RowsFor<F(==), V>(m: map<F, Evidence<F, V>>, keys: set<F>) returns (rows: seq<Evidence<F, V>>)
    requires keys <= m.Keys && Keyed(m)
    ensures ListsRows(rows, m, keys)
  {
    rows := [];
    var rest := keys;
    while rest != {}
      invariant rest <= keys && ListsRows(rows, m, keys - rest)
      decreases rest
    {
      var fp :| fp in rest;
      assert keys - (rest - {fp}) == (keys - rest) + {fp};
      AppendRow(rows, m, keys - rest, fp);
      rows := rows + [m[fp]];
      rest := rest - {fp};
    }
    assert keys - rest == keys;
  }

  method SplitGone<F(==), V>(was: map<F, Evidence<F, V>>, keys: set<F>, oldStatuses: map<string, CollectorStatus>, newStatuses: map<string, CollectorStatus>)
    returns (removed: seq<Evidence<F, V>>, indeterminate: seq<Evidence<F, V>>)
    requires keys <= was.Keys && Keyed(was)
    ensures ListsRows(removed, was, CompletedKeys(was, keys, oldStatuses, newStatuses))
    ensures ListsRows(indeterminate, was, keys - CompletedKeys(was, keys, oldStatuses, newStatuses))
  {
    removed, indeterminate := [], [];
    ghost var done, undone := {}, {};
    var rest := keys;
    while rest != {}
      invariant rest <= keys && done <= keys && undone <= keys
      invariant forall fp :: fp in keys ==> fp in rest || fp in done || fp in undone
      invariant forall fp :: fp in rest ==> fp !in done && fp !in undone
      invariant forall fp :: fp in done ==> CompletedInBoth(oldStatuses, newStatuses, was[fp].collector)
      invariant forall fp :: fp in undone ==> !CompletedInBoth(oldStatuses, newStatuses, was[fp].collector)
      invariant ListsRows(removed, was, done)
      invariant ListsRows(indeterminate, was, undone)
      decreases rest
    {
      var fp :| fp in rest;
      if CompletedInBoth(oldStatuses, newStatuses, was[fp].collector) {
        AppendRow(removed, was, done, fp);
        removed, done := removed + [was[fp]], done + {fp};
      } else {
        AppendRow(indeterminate, was, undone, fp);
        indeterminate, undone := indeterminate + [was[fp]], undone + {fp};
      }
      rest := rest - {fp};
    }
    assert done == CompletedKeys(was, keys, oldStatuses, newStatuses);
    assert undone == keys - done;
  }

  method CompareShared<F(==), V(==)>(was: map<F, Evidence<F, V>>, now: map<F, Evidence<F, V>>)
    returns (changed: seq<(Evidence<F, V>, Evidence<F, V>)>, unchangedCount: nat)
    requires Keyed(was)
    ensures ListsPairs(changed, was, now, ChangedKeys(was, now)) && unchangedCount == |SameKeys(was, now)|
  {
    changed, unchangedCount := [], 0;
    ghost var different, same := {}, {};
    var shared := was.Keys * now.Keys;
    var rest := shared;
    while rest != {}
      invariant rest <= shared && different <= shared && same <= shared
      invariant forall fp :: fp in shared ==> fp in rest || fp in different || fp in same
      invariant forall fp :: fp in rest ==> fp !in different && fp !in same
      invariant forall fp :: fp in same ==> was[fp].value == now[fp].value
      invariant forall fp :: fp in different ==> was[fp].value != now[fp].value
      invariant ListsPairs(changed, was, now, different)
      invariant unchangedCount == |same|
      decreases rest
    {
      var fp :| fp in rest;
      if was[fp].value == now[fp].value {
        unchangedCount, same := unchangedCount + 1, same + {fp};
      } else {
        AppendPair(changed, was, now, different, fp);
        changed, different := changed + [(was[fp], now[fp])], different + {fp};
      }
      rest := rest - {fp};
    }
    assert different == ChangedKeys(was, now) && same == SameKeys(was, now);
  }

  /** Refused for different targets; otherwise the diff of the two fingerprint maps. */
  method ComputeDiff<F(==), V(==)>(oldTarget: string, newTarget: string, oldFindings: seq<Evidence<F, V>>, newFindings: seq<Evidence<F, V>>,
                                   oldStatuses: map<string, CollectorStatus>, newStatuses: map<string, CollectorStatus>)
    returns (d: Option<DiffResult<F, V>>)
    ensures d.None? <==> oldTarget != newTarget
    ensures d.Some? ==> IsDiff(ByFingerprint(oldFindings), ByFingerprint(newFindings), oldStatuses, newStatuses, d.value)
    ensures d.Some? ==> Compares(oldFindings, newFindings, oldStatuses, newStatuses, d.value)
  {
    if oldTarget != newTarget { return None; }
    var was := Index(oldFindings);
    var now := Index(newFindings);
    var added := RowsFor(now, now.Keys - was.Keys);
    var removed, indeterminate := SplitGone(was, was.Keys - now.Keys, oldStatuses, newStatuses);
    var changed, unchangedCount := CompareShared(was, now);
    d := Some(DiffResult(added, removed, changed, unchangedCount, indeterminate));
    DiffExactly(oldFindings, newFindings, oldStatuses, newStatuses, d.value);
  }

  // ---------- what a diff means ----------

  function OldOnes<F, V>(pairs: seq<(Evidence<F, V>, Evidence<F, V>)>): seq<Evidence<F, V>> {
    seq(|pairs|, i requires 0 <= i < |pairs| => pairs[i].0)
  }

  /** Every old fingerprint is in exactly one of removed, indeterminate, changed and unchanged, every new one
      in exactly one of added, changed and unchanged, and no list has a fingerprint twice. */
  lemma DiffPartitions<F, V>(was: map<F, Evidence<F, V>>, now: map<F, Evidence<F, V>>,
                             oldStatuses: map<string, CollectorStatus>, newStatuses: map<string, CollectorStatus>, d: DiffResult<F, V>)
    requires IsDiff(was, now, oldStatuses, newStatuses, d)
    ensures var changed, same := Fingerprints(OldOnes(d.changed)), SameKeys(was, now);
            && was.Keys == Fingerprints(d.removed) + Fingerprints(d.indeterminate) + changed + same
            && Fingerprints(d.removed) !! Fingerprints(d.indeterminate) !! changed !! same
            && now.Keys == Fingerprints(d.added) + changed + same
            && Fingerprints(d.added) !! changed !! same
    ensures |was| == |d.removed| + |d.indeterminate| + |d.changed| + d.unchangedCount
    ensures |now| == |d.added| + |d.changed| + d.unchangedCount
  {
    var removed := RemovedKeys(was, now, oldStatuses, newStatuses);
    KeysOf(d.removed, was, removed);
    KeysOf(d.indeterminate, was, GoneKeys(was, now) - removed);
    KeysOf(d.added, now, now.Keys - was.Keys);
    OldOnesOf(d.changed, was, now, ChangedKeys(was, now));
    Partition(was, now, removed);
    PartitionKeys(was, now, removed);
  }

  lemma OldOnesOf<F, V>(pairs: seq<(Evidence<F, V>, Evidence<F, V>)>, was: map<F, Evidence<F, V>>, now: map<F, Evidence<F, V>>, keys: set<F>)
    requires ListsPairs(pairs, was, now, keys)
    ensures Fingerprints(OldOnes(pairs)) == keys
  {
    forall i | 0 <= i < |pairs| ensures pairs[i].0.fingerprint in keys && pairs[i].0 == was[pairs[i].0.fingerprint] {
      assert IsPair(pairs[i], was, now, keys);
    }
    KeysOf(OldOnes(pairs), was, keys);
  }

  lemma PartitionKeys<F, V>(was: map<F, Evidence<F, V>>, now: map<F, Evidence<F, V>>, removed: set<F>)
    requires removed <= GoneKeys(was, now)
    ensures var changed, same := ChangedKeys(was, now), SameKeys(was, now);
            && was.Keys == removed + (GoneKeys(was, now) - removed) + changed + same
            && removed !! (GoneKeys(was, now) - removed) !! changed !! same
            && now.Keys == (now.Keys - was.Keys) + changed + same
            && (now.Keys - was.Keys) !! changed !! same
  {
  }

  lemma Partition<F, V>(was: map<F, Evidence<F, V>>, now: map<F, Evidence<F, V>>, removed: set<F>)
    requires removed <= GoneKeys(was, now)
    ensures |was| == |removed| + |GoneKeys(was, now) - removed| + |ChangedKeys(was, now)| + |SameKeys(was, now)|
    ensures |now| == |now.Keys - was.Keys| + |ChangedKeys(was, now)| + |SameKeys(was, now)|
  {
    Sizes(was.Keys * now.Keys, ChangedKeys(was, now), SameKeys(was, now));
    assert |was| == |was.Keys| && |now| == |now.Keys|;
  }

  lemma Sizes<T>(whole: set<T>, a: set<T>, b: set<T>)
    requires whole == a + b && a !! b
    ensures |whole| == |a| + |b|
  {
  }

  function Fingerprints<F(==), V>(rows: seq<Evidence<F, V>>): set<F> {
    set i | 0 <= i < |rows| :: rows[i].fingerprint
  }

  predicate TakenFrom<F(==), V(==)>(rows: seq<Evidence<F, V>>, m: map<F, Evidence<F, V>>) {
    forall i :: 0 <= i < |rows| ==> rows[i].fingerprint in m && rows[i] == m[rows[i].fingerprint]
  }

  function Drop<F(==), V>(m: map<F, Evidence<F, V>>, rows: seq<Evidence<F, V>>): map<F, Evidence<F, V>> {
    m - Fingerprints(rows)
  }

  function Insert<F(==), V>(m: map<F, Evidence<F, V>>, rows: seq<Evidence<F, V>>): map<F, Evidence<F, V>> {
    if rows == [] then m
    else Insert(m, rows[..|rows| - 1])[rows[|rows| - 1].fingerprint := rows[|rows| - 1]]
  }

  function Replacements<F, V>(pairs: seq<(Evidence<F, V>, Evidence<F, V>)>): seq<Evidence<F, V>> {
    seq(|pairs|, i requires 0 <= i < |pairs| => pairs[i].1)
  }

  /** The old rows with the diff applied: delete, replace, insert. */
  function Patch<F(==), V>(m: map<F, Evidence<F, V>>, d: DiffResult<F, V>): map<F, Evidence<F, V>> {
    Insert(Insert(Drop(Drop(m, d.removed), d.indeterminate), Replacements(d.changed)), d.added)
  }

  lemma {:induction false} InsertLookup<F, V>(m: map<F, Evidence<F, V>>, rows: seq<Evidence<F, V>>, target: map<F, Evidence<F, V>>)
    requires TakenFrom(rows, target)
    ensures Insert(m, rows).Keys == m.Keys + Fingerprints(rows)
    ensures forall fp :: fp in Insert(m, rows) ==>
              Insert(m, rows)[fp] == if fp in Fingerprints(rows) && fp in target then target[fp] else if fp in m then m[fp] else Insert(m, rows)[fp]
    ensures Fingerprints(rows) <= target.Keys
  {
    if rows != [] {
      var front := rows[..|rows| - 1];
      assert forall i :: 0 <= i < |front| ==> front[i] == rows[i];
      InsertLookup(m, front, target);
      assert Fingerprints(rows) == Fingerprints(front) + {rows[|rows| - 1].fingerprint};
    }
  }

  /** As many different fingerprints as there are keys: none is missing. */
  lemma KeysOf<F, V>(rows: seq<Evidence<F, V>>, m: map<F, Evidence<F, V>>, keys: set<F>)
    requires ListsRows(rows, m, keys)
    ensures Fingerprints(rows) == keys && TakenFrom(rows, m)
  {
    DistinctCount(rows);
    SubsetOfSameSize(Fingerprints(rows), keys);
  }

  lemma {:induction false} DistinctCount<F, V>(rows: seq<Evidence<F, V>>)
    requires forall i, k :: 0 <= i < k < |rows| ==> rows[i].fingerprint != rows[k].fingerprint
    ensures |Fingerprints(rows)| == |rows|
  {
    if rows != [] {
      var n := |rows| - 1;
      DistinctCount(rows[..n]);
      assert Fingerprints(rows) == Fingerprints(rows[..n]) + {rows[n].fingerprint};
    }
  }

  lemma SubsetOfSameSize<T>(a: set<T>, b: set<T>)
    requires a <= b && |a| == |b|
    ensures a == b
  {
    Sizes(b, a, b - a);
  }

  lemma KeysOfPairs<F, V>(pairs: seq<(Evidence<F, V>, Evidence<F, V>)>, was: map<F, Evidence<F, V>>, now: map<F, Evidence<F, V>>, keys: set<F>)
    requires ListsPairs(pairs, was, now, keys) && Keyed(was) && Keyed(now)
    ensures Fingerprints(Replacements(pairs)) == keys && TakenFrom(Replacements(pairs), now)
  {
    var rows := Replacements(pairs);
    forall i | 0 <= i < |pairs| ensures rows[i].fingerprint == pairs[i].0.fingerprint && rows[i].fingerprint in keys && rows[i] == now[rows[i].fingerprint] {
      assert IsPair(pairs[i], was, now, keys);
    }
    KeysOf(rows, now, keys);
  }

  /** Applying a diff to the old rows yields the new rows, up to what is not the normalized value. */
  lemma PatchYieldsNew<F, V>(was: map<F, Evidence<F, V>>, now: map<F, Evidence<F, V>>,
                             oldStatuses: map<string, CollectorStatus>, newStatuses: map<string, CollectorStatus>, d: DiffResult<F, V>)
    requires Keyed(was) && Keyed(now) && IsDiff(was, now, oldStatuses, newStatuses, d)
    ensures Patch(was, d).Keys == now.Keys
    ensures forall fp :: fp in now ==> Patch(was, d)[fp].value == now[fp].value
  {
    var removed := RemovedKeys(was, now, oldStatuses, newStatuses);
    KeysOf(d.removed, was, removed);
    KeysOf(d.indeterminate, was, GoneKeys(was, now) - removed);
    KeysOf(d.added, now, now.Keys - was.Keys);
    KeysOfPairs(d.changed, was, now, ChangedKeys(was, now));
    PatchOf(was, now, removed, d);
  }

  lemma PatchOf<F, V>(was: map<F, Evidence<F, V>>, now: map<F, Evidence<F, V>>, removed: set<F>, d: DiffResult<F, V>)
    requires removed <= GoneKeys(was, now)
    requires Fingerprints(d.removed) == removed && Fingerprints(d.indeterminate) == GoneKeys(was, now) - removed
    requires Fingerprints(d.added) == now.Keys - was.Keys && TakenFrom(d.added, now)
    requires Fingerprints(Replacements(d.changed)) == ChangedKeys(was, now) && TakenFrom(Replacements(d.changed), now)
    ensures Patch(was, d).Keys == now.Keys
    ensures forall fp :: fp in now ==> Patch(was, d)[fp].value == now[fp].value
  {
    var kept := Drop(Drop(was, d.removed), d.indeterminate);
    assert kept.Keys == was.Keys * now.Keys;
    var rows := Replacements(d.changed);
    InsertLookup(kept, rows, now);
    InsertLookup(Insert(kept, rows), d.added, now);
  }

  /** Swapping the two jobs swaps what was added with what is gone. */
  lemma SwapMirrorsGone<F, V>(was: map<F, Evidence<F, V>>, now: map<F, Evidence<F, V>>,
                              oldStatuses: map<string, CollectorStatus>, newStatuses: map<string, CollectorStatus>,
                              d: DiffResult<F, V>, back: DiffResult<F, V>)
    requires Keyed(was) && Keyed(now)
    requires IsDiff(was, now, oldStatuses, newStatuses, d) && IsDiff(now, was, newStatuses, oldStatuses, back)
    ensures forall x :: x in back.added <==> x in d.removed || x in d.indeterminate
    ensures forall x :: x in d.added <==> x in back.removed || x in back.indeterminate
  {
    GoneRows(was, now, oldStatuses, newStatuses, d, back);
    GoneRows(now, was, newStatuses, oldStatuses, back, d);
  }

  /** It turns every changed pair around, and leaves the number of unchanged ones alone. */
  lemma SwapMirrorsShared<F, V>(was: map<F, Evidence<F, V>>, now: map<F, Evidence<F, V>>,
                                oldStatuses: map<string, CollectorStatus>, newStatuses: map<string, CollectorStatus>,
                                d: DiffResult<F, V>, back: DiffResult<F, V>)
    requires Keyed(was) && Keyed(now)
    requires IsDiff(was, now, oldStatuses, newStatuses, d) && IsDiff(now, was, newStatuses, oldStatuses, back)
    ensures forall a, b :: (a, b) in d.changed <==> (b, a) in back.changed
    ensures back.unchangedCount == d.unchangedCount
  {
    assert SameKeys(was, now) == SameKeys(now, was);
    assert ChangedKeys(was, now) == ChangedKeys(now, was);
    PairsMirrored(was, now, ChangedKeys(was, now), d.changed, back.changed);
  }

  lemma PairsMirrored<F, V>(was: map<F, Evidence<F, V>>, now: map<F, Evidence<F, V>>, keys: set<F>,
                            there: seq<(Evidence<F, V>, Evidence<F, V>)>, back: seq<(Evidence<F, V>, Evidence<F, V>)>)
    requires Keyed(was) && Keyed(now) && ListsPairs(there, was, now, keys) && ListsPairs(back, now, was, keys)
    ensures forall a, b :: (a, b) in there <==> (b, a) in back
  {
    forall a, b ensures (a, b) in there <==> (b, a) in back { PairMirrored(was, now, keys, there, back, a, b); }
  }

  lemma PairMirrored<F, V>(was: map<F, Evidence<F, V>>, now: map<F, Evidence<F, V>>, keys: set<F>,
                           there: seq<(Evidence<F, V>, Evidence<F, V>)>, back: seq<(Evidence<F, V>, Evidence<F, V>)>,
                           a: Evidence<F, V>, b: Evidence<F, V>)
    requires Keyed(was) && Keyed(now) && ListsPairs(there, was, now, keys) && ListsPairs(back, now, was, keys)
    ensures (a, b) in there <==> (b, a) in back
  {
    PairListed(there, was, now, keys, a, b);
    PairListed(back, now, was, keys, b, a);
  }

  lemma GoneRows<F, V>(was: map<F, Evidence<F, V>>, now: map<F, Evidence<F, V>>,
                       oldStatuses: map<string, CollectorStatus>, newStatuses: map<string, CollectorStatus>,
                       d: DiffResult<F, V>, back: DiffResult<F, V>)
    requires Keyed(was) && Keyed(now)
    requires IsDiff(was, now, oldStatuses, newStatuses, d) && IsDiff(now, was, newStatuses, oldStatuses, back)
    ensures forall x :: x in back.added <==> x in d.removed || x in d.indeterminate
  {
    GoneListed(was, GoneKeys(was, now), RemovedKeys(was, now, oldStatuses, newStatuses), d.removed, d.indeterminate, back.added);
  }

  lemma GoneListed<F, V>(m: map<F, Evidence<F, V>>, gone: set<F>, removed: set<F>,
                         a: seq<Evidence<F, V>>, b: seq<Evidence<F, V>>, all: seq<Evidence<F, V>>)
    requires Keyed(m) && removed <= gone
    requires ListsRows(a, m, removed) && ListsRows(b, m, gone - removed) && ListsRows(all, m, gone)
    ensures forall x :: x in all <==> x in a || x in b
  {
    forall x ensures x in all <==> x in a || x in b {
      RowListed(all, m, gone, x);
      RowListed(a, m, removed, x);
      RowListed(b, m, gone - removed, x);
    }
  }

  lemma RowListed<F, V>(rows: seq<Evidence<F, V>>, m: map<F, Evidence<F, V>>, keys: set<F>, x: Evidence<F, V>)
    requires ListsRows(rows, m, keys)
    ensures x in rows <==> x.fingerprint in keys && x == m[x.fingerprint]
  {
    KeysOf(rows, m, keys);
    if x.fingerprint in keys && x == m[x.fingerprint] {
      var i :| 0 <= i < |rows| && rows[i].fingerprint == x.fingerprint;
      assert rows[i] == x;
    }
  }

  lemma PairListed<F, V>(pairs: seq<(Evidence<F, V>, Evidence<F, V>)>, was: map<F, Evidence<F, V>>, now: map<F, Evidence<F, V>>, keys: set<F>,
                         a: Evidence<F, V>, b: Evidence<F, V>)
    requires ListsPairs(pairs, was, now, keys) && Keyed(was) && Keyed(now)
    ensures (a, b) in pairs <==> a.fingerprint in keys && a == was[a.fingerprint] && b == now[a.fingerprint]
  {
    KeysOfPairs(pairs, was, now, keys);
    if (a, b) in pairs {
      var i :| 0 <= i < |pairs| && pairs[i] == (a, b);
      assert IsPair(pairs[i], was, now, keys);
    }
    if a.fingerprint in keys && a == was[a.fingerprint] && b == now[a.fingerprint] {
      var rows := Replacements(pairs);
      var i :| 0 <= i < |rows| && rows[i].fingerprint == a.fingerprint;
      assert IsPair(pairs[i], was, now, keys);
      assert pairs[i] == (a, b);
    }
  }

  /** Removed are exactly the current old rows whose fingerprint is gone and whose collector both jobs show DONE,
      indeterminate those that are gone while one of the jobs does not. */
  lemma RemovedWasLookedFor<F, V>(oldFindings: seq<Evidence<F, V>>, newFindings: seq<Evidence<F, V>>,
                                  oldStatuses: map<string, CollectorStatus>, newStatuses: map<string, CollectorStatus>, d: DiffResult<F, V>, x: Evidence<F, V>)
    requires IsDiff(ByFingerprint(oldFindings), ByFingerprint(newFindings), oldStatuses, newStatuses, d)
    ensures x in d.removed <==>
              && Current(oldFindings, x) && !Mentions(newFindings, x.fingerprint)
              && x.collector in oldStatuses && oldStatuses[x.collector] == Done
              && x.collector in newStatuses && newStatuses[x.collector] == Done
    ensures x in d.indeterminate <==>
              && Current(oldFindings, x) && !Mentions(newFindings, x.fingerprint)
              && (x.collector !in oldStatuses || oldStatuses[x.collector] != Done || x.collector !in newStatuses || newStatuses[x.collector] != Done)
    ensures x in d.added <==> Current(newFindings, x) && !Mentions(oldFindings, x.fingerprint)
  {
    var was, now := ByFingerprint(oldFindings), ByFingerprint(newFindings);
    ByFingerprintMeaning(oldFindings, x);
    ByFingerprintMeaning(newFindings, x);
    RowListed(d.removed, was, RemovedKeys(was, now, oldStatuses, newStatuses), x);
    RowListed(d.indeterminate, was, GoneKeys(was, now) - RemovedKeys(was, now, oldStatuses, newStatuses), x);
    RowListed(d.added, now, now.Keys - was.Keys, x);
  }

  /** Changed are exactly the pairs of current rows of one fingerprint whose values differ. */
  lemma ChangedMeaning<F, V>(oldFindings: seq<Evidence<F, V>>, newFindings: seq<Evidence<F, V>>,
                             oldStatuses: map<string, CollectorStatus>, newStatuses: map<string, CollectorStatus>, d: DiffResult<F, V>,
                             a: Evidence<F, V>, b: Evidence<F, V>)
    requires IsDiff(ByFingerprint(oldFindings), ByFingerprint(newFindings), oldStatuses, newStatuses, d)
    ensures (a, b) in d.changed <==> Pairs(oldFindings, newFindings, a, b, false)
  {
    var was, now := ByFingerprint(oldFindings), ByFingerprint(newFindings);
    ByFingerprintIsKeyed(oldFindings);
    ByFingerprintIsKeyed(newFindings);
    ByFingerprintMeaning(oldFindings, a);
    ByFingerprintMeaning(newFindings, b);
    PairListed(d.changed, was, now, ChangedKeys(was, now), a, b);
  }

  /** The diff, from the rows and the statuses alone. */
  lemma DiffExactly<F, V>(oldFindings: seq<Evidence<F, V>>, newFindings: seq<Evidence<F, V>>,
                          oldStatuses: map<string, CollectorStatus>, newStatuses: map<string, CollectorStatus>, d: DiffResult<F, V>)
    requires IsDiff(ByFingerprint(oldFindings), ByFingerprint(newFindings), oldStatuses, newStatuses, d)
    ensures Compares(oldFindings, newFindings, oldStatuses, newStatuses, d)
  {
    forall x ensures x in d.added <==> Current(newFindings, x) && !Mentions(oldFindings, x.fingerprint)
             ensures x in d.removed <==> SurelyGone(oldFindings, newFindings, oldStatuses, newStatuses, x)
             ensures x in d.indeterminate <==> PerhapsGone(oldFindings, newFindings, oldStatuses, newStatuses, x)
    {
      RemovedWasLookedFor(oldFindings, newFindings, oldStatuses, newStatuses, d, x);
    }
    forall a, b ensures (a, b) in d.changed <==> Pairs(oldFindings, newFindings, a, b, false) {
      ChangedMeaning(oldFindings, newFindings, oldStatuses, newStatuses, d, a, b);
    }
    UnchangedMeaning(oldFindings, newFindings);
  }

  lemma UnchangedMeaning<F, V>(oldFindings: seq<Evidence<F, V>>, newFindings: seq<Evidence<F, V>>)
    ensures SameKeys(ByFingerprint(oldFindings), ByFingerprint(newFindings))
            == set a, b | a in oldFindings && b in newFindings && Pairs(oldFindings, newFindings, a, b, true) :: a.fingerprint
  {
    var was, now := ByFingerprint(oldFindings), ByFingerprint(newFindings);
    ByFingerprintIsKeyed(oldFindings);
    ByFingerprintIsKeyed(newFindings);
    forall x ensures Current(oldFindings, x) <==> x.fingerprint in was && was[x.fingerprint] == x
             ensures Current(newFindings, x) <==> x.fingerprint in now && now[x.fingerprint] == x
             ensures Current(oldFindings, x) ==> x in oldFindings
             ensures Current(newFindings, x) ==> x in newFindings
    {
      ByFingerprintMeaning(oldFindings, x);
      ByFingerprintMeaning(newFindings, x);
    }
    forall fp | fp in SameKeys(was, now)
      ensures fp in set a, b | a in oldFindings && b in newFindings && Pairs(oldFindings, newFindings, a, b, true) :: a.fingerprint
    {
      assert Pairs(oldFindings, newFindings, was[fp], now[fp], true);
    }
  }
  /** Two jobs with the same fingerprints and the same normalized values differ in nothing. */
  lemma NothingDiffers<F, V>(was: map<F, Evidence<F, V>>, now: map<F, Evidence<F, V>>,
                             oldStatuses: map<string, CollectorStatus>, newStatuses: map<string, CollectorStatus>, d: DiffResult<F, V>)
    requires IsDiff(was, now, oldStatuses, newStatuses, d)
    ensures d.added == [] && d.removed == [] && d.changed == [] && d.indeterminate == []
            <==> was.Keys == now.Keys && forall fp :: fp in was ==> was[fp].value == now[fp].value
  {
    var removed := RemovedKeys(was, now, oldStatuses, newStatuses);
    if was.Keys == now.Keys && forall fp :: fp in was ==> was[fp].value == now[fp].value {
      assert now.Keys - was.Keys == {} && GoneKeys(was, now) == {};
      assert removed == {} && ChangedKeys(was, now) == {};
    }
    if d.added == [] && d.removed == [] && d.changed == [] && d.indeterminate == [] {
      assert now.Keys - was.Keys == {};
      assert removed == {} && GoneKeys(was, now) - removed == {};
      assert GoneKeys(was, now) == {};
      assert ChangedKeys(was, now) == {};
      forall fp | fp in was ensures fp in now && was[fp].value == now[fp].value {
        assert fp !in GoneKeys(was, now) && fp !in ChangedKeys(was, now);
      }
      assert was.Keys == now.Keys;
    }
  }
}
