/** The subdomain workspace: one row per name, whatever the order in which its evidence arrives. */
module Subdomains {
  import opened Wrappers
  import opened Ordering

  /** A finding, as far as this aggregation reads it; a missing member of its value is none or empty. */
  datatype Finding = Finding(collector: string, kind: string, subdomain: string, wildcard: bool,
                             notBeforeMin: Option<string>, notAfterMax: Option<string>)

  datatype Observation = Observation(collector: string, subdomain: string, wildcard: bool, first: Option<string>, last: Option<string>)

  function Present(date: Option<string>): Option<string> {
    if date == Some("") then None else date
  }

  /** Only certificate findings that name a subdomain contribute. */
  function Extract(f: Finding): Option<Observation> {
    if f.kind != "ct.subdomain" || f.subdomain == "" then None
    else Some(Observation(f.collector, f.subdomain, f.wildcard, Present(f.notBeforeMin), Present(f.notAfterMax)))
  }

  function Observed(findings: seq<Finding>): set<Observation> {
    set f | f in findings && Extract(f).Some? :: Extract(f).value
  }

  function About(observations: set<Observation>, name: string): set<Observation> {
    set o | o in observations && o.subdomain == name
  }

  predicate InScope(target: string, name: string) {
    name == target || (|name| >= |target| + 1 && name[|name| - |target| - 1..] == "." + target)
  }

  // ---------- what a row says ----------

  function Collectors(observations: set<Observation>): set<string> {
    set o | o in observations :: o.collector
  }

  function Firsts(observations: set<Observation>): set<string> {
    set o | o in observations && o.first.Some? :: o.first.value
  }

  function Lasts(observations: set<Observation>): set<string> {
    set o | o in observations && o.last.Some? :: o.last.value
  }

  predicate Minimum(d: Option<string>, dates: set<string>) {
    if d.None? then dates == {} else d.value in dates && forall e :: e in dates ==> !Less(e, d.value)
  }

  predicate Maximum(d: Option<string>, dates: set<string>) {
    if d.None? then dates == {} else d.value in dates && forall e :: e in dates ==> !Less(d.value, e)
  }

  datatype Accumulator = Accumulator(sources: set<string>, wildcard: bool, first: Option<string>, last: Option<string>)

  predicate Accumulates(e: Accumulator, observations: set<Observation>) {
    && e.sources == Collectors(observations)
    && (e.wildcard <==> exists o :: o in observations && o.wildcard)
    && Minimum(e.first, Firsts(observations))
    && Maximum(e.last, Lasts(observations))
  }

  datatype Row = Row(subdomain: string, sourceCount: nat, sources: seq<string>, first: Option<string>, last: Option<string>, wildcard: bool)

  /** The row for a name: its distinct collectors, the earliest and latest of the dates present, and whether
      any observation was of a wildcard. */
  ghost predicate Describes(row: Row, observations: set<Observation>) {
    var mine := About(observations, row.subdomain);
    && row.sourceCount == |Collectors(mine)|
    && Sorted(ByText(), row.sources) && Lists(row.sources, Collectors(mine))
    && (row.wildcard <==> exists o :: o in mine && o.wildcard)
    && Minimum(row.first, Firsts(mine))
    && Maximum(row.last, Lasts(mine))
  }

  function Names(rows: seq<Row>): seq<string> {
    seq(|rows|, i requires 0 <= i < |rows| => rows[i].subdomain)
  }

  function NamesInScope(target: string, observations: set<Observation>): set<string> {
    set o | o in observations && InScope(target, o.subdomain) :: o.subdomain
  }

  /** One row per observed name in scope, in the order of the names. */
  ghost predicate IsAggregate(target: string, observations: set<Observation>, rows: seq<Row>) {
    && Sorted(ByText(), Names(rows))
    && Lists(Names(rows), NamesInScope(target, observations))
    && forall i :: 0 <= i < |rows| ==> Describes(rows[i], observations)
  }

  // ---------- the same, told from the findings themselves ----------

  predicate Contributes(f: Finding, name: string) {
    f.kind == "ct.subdomain" && f.subdomain == name && name != ""
  }

  predicate Dated(date: Option<string>) { date.Some? && date.value != "" }

  /** What a row says, told from the findings that contribute to its name. */
  ghost predicate Tells(row: Row, findings: seq<Finding>) {
    && row.sourceCount == |row.sources|
    && (forall c :: c in row.sources <==> exists f :: f in findings && Contributes(f, row.subdomain) && f.collector == c)
    && (row.wildcard <==> exists f :: f in findings && Contributes(f, row.subdomain) && f.wildcard)
    && (row.first.Some? ==> exists f :: f in findings && Contributes(f, row.subdomain) && Dated(f.notBeforeMin) && f.notBeforeMin == row.first)
    && (forall f :: f in findings && Contributes(f, row.subdomain) && Dated(f.notBeforeMin) ==>
          row.first.Some? && !Less(f.notBeforeMin.value, row.first.value))
    && (row.last.Some? ==> exists f :: f in findings && Contributes(f, row.subdomain) && Dated(f.notAfterMax) && f.notAfterMax == row.last)
    && (forall f :: f in findings && Contributes(f, row.subdomain) && Dated(f.notAfterMax) ==>
          row.last.Some? && !Less(row.last.value, f.notAfterMax.value))
  }

  lemma Extracts(findings: seq<Finding>, f: Finding, name: string)
    requires f in findings && Contributes(f, name)
    ensures Extract(f).Some? && Extract(f).value in About(Observed(findings), name)
    ensures Dated(f.notBeforeMin) ==> f.notBeforeMin.value in Firsts(About(Observed(findings), name))
    ensures Dated(f.notAfterMax) ==> f.notAfterMax.value in Lasts(About(Observed(findings), name))
    ensures f.collector in Collectors(About(Observed(findings), name))
  {
    var o := Extract(f).value;
    assert o in About(Observed(findings), name);
  }

  lemma ComesFrom(findings: seq<Finding>, o: Observation, name: string) returns (f: Finding)
    requires o in About(Observed(findings), name)
    ensures f in findings && Contributes(f, name) && f.collector == o.collector && f.wildcard == o.wildcard
    ensures o.first.Some? ==> Dated(f.notBeforeMin) && f.notBeforeMin == o.first
    ensures o.last.Some? ==> Dated(f.notAfterMax) && f.notAfterMax == o.last
  {
    f :| f in findings && Extract(f).Some? && Extract(f).value == o;
  }

  lemma DatesCome(findings: seq<Finding>, row: Row)
    requires Describes(row, Observed(findings))
    ensures row.first.Some? ==> exists f :: f in findings && Contributes(f, row.subdomain) && Dated(f.notBeforeMin) && f.notBeforeMin == row.first
    ensures row.last.Some? ==> exists f :: f in findings && Contributes(f, row.subdomain) && Dated(f.notAfterMax) && f.notAfterMax == row.last
  {
    var mine := About(Observed(findings), row.subdomain);
    if row.first.Some? {
      var o :| o in mine && o.first.Some? && o.first.value == row.first.value;
      var f := ComesFrom(findings, o, row.subdomain);
    }
    if row.last.Some? {
      var o :| o in mine && o.last.Some? && o.last.value == row.last.value;
      var f := ComesFrom(findings, o, row.subdomain);
    }
  }

  lemma SourcesCome(findings: seq<Finding>, row: Row)
    requires Describes(row, Observed(findings))
    ensures row.sourceCount == |row.sources|
    ensures forall c :: c in row.sources <==> exists f :: f in findings && Contributes(f, row.subdomain) && f.collector == c
    ensures row.wildcard <==> exists f :: f in findings && Contributes(f, row.subdomain) && f.wildcard
  {
    var mine := About(Observed(findings), row.subdomain);
    forall c ensures c in row.sources <==> exists f :: f in findings && Contributes(f, row.subdomain) && f.collector == c {
      if c in row.sources {
        var o :| o in mine && o.collector == c;
        var f := ComesFrom(findings, o, row.subdomain);
      }
      if f :| f in findings && Contributes(f, row.subdomain) && f.collector == c { Extracts(findings, f, row.subdomain); }
    }
    if o :| o in mine && o.wildcard { var f := ComesFrom(findings, o, row.subdomain); }
    if f :| f in findings && Contributes(f, row.subdomain) && f.wildcard {
      Extracts(findings, f, row.subdomain);
      assert Extract(f).value in mine;
    }
    TextIsOrdered();
    SortedListsCount(ByText(), row.sources, Collectors(mine));
  }

  lemma RowTells(findings: seq<Finding>, row: Row)
    requires Describes(row, Observed(findings))
    ensures Tells(row, findings)
  {
    SourcesCome(findings, row);
    DatesCome(findings, row);
    forall f | f in findings && Contributes(f, row.subdomain) && Dated(f.notBeforeMin)
      ensures row.first.Some? && !Less(f.notBeforeMin.value, row.first.value)
    {
      Extracts(findings, f, row.subdomain);
    }
    forall f | f in findings && Contributes(f, row.subdomain) && Dated(f.notAfterMax)
      ensures row.last.Some? && !Less(row.last.value, f.notAfterMax.value)
    {
      Extracts(findings, f, row.subdomain);
    }
  }

  /** The target itself, or a name that ends in a dot and the target. */
  lemma NamesTold(target: string, findings: seq<Finding>, name: string)
    ensures name in NamesInScope(target, Observed(findings)) <==>
              && (name == target || exists front: string :: name == front + "." + target)
              && exists f :: f in findings && Contributes(f, name)
  {
    if InScope(target, name) && name != target {
      assert name == name[..|name| - |target| - 1] + "." + target;
    }
    if front: string :| name == front + "." + target {
      assert name[|front|..] == "." + target;
    }
    if name in NamesInScope(target, Observed(findings)) {
      var o :| o in Observed(findings) && InScope(target, o.subdomain) && o.subdomain == name;
      assert o in About(Observed(findings), name);
      var f := ComesFrom(findings, o, name);
    }
    if f :| f in findings && Contributes(f, name) { Extracts(findings, f, name); }
  }

  // ---------- the aggregation ----------

  const EMPTY := Accumulator({}, false, None, None)

  function Earlier(a: Option<string>, b: Option<string>): Option<string> {
    if b.Some? && (a.None? || Less(b.value, a.value)) then b else a
  }

  function Later(a: Option<string>, b: Option<string>): Option<string> {
    if b.Some? && (a.None? || Less(a.value, b.value)) then b else a
  }

  function Added(e: Accumulator, o: Observation): Accumulator {
    Accumulator(e.sources + {o.collector}, e.wildcard || o.wildcard, Earlier(e.first, o.first), Later(e.last, o.last))
  }

  lemma EarlierIsMinimum(a: Option<string>, b: Option<string>, xs: set<string>, ys: set<string>)
    requires Minimum(a, xs) && Minimum(b, ys)
    ensures Minimum(Earlier(a, b), xs + ys)
  {
    if a.Some? && b.Some? {
      var least := Earlier(a, b).value;
      LessTotal(a.value, b.value);
      forall d | d in xs + ys ensures !Less(d, least) {
        if Less(d, least) {
          if least == a.value { if Less(d, a.value) && Less(a.value, b.value) { LessTransitive(d, a.value, b.value); } }
          if least == b.value { if Less(d, b.value) && Less(b.value, a.value) { LessTransitive(d, b.value, a.value); } }
        }
      }
    }
  }

  lemma LaterIsMaximum(a: Option<string>, b: Option<string>, xs: set<string>, ys: set<string>)
    requires Maximum(a, xs) && Maximum(b, ys)
    ensures Maximum(Later(a, b), xs + ys)
  {
    if a.Some? && b.Some? {
      var most := Later(a, b).value;
      LessTotal(a.value, b.value);
      forall d | d in xs + ys ensures !Less(most, d) {
        if Less(most, d) {
          if most == a.value { if Less(b.value, a.value) && Less(a.value, d) { LessTransitive(b.value, a.value, d); } }
          if most == b.value { if Less(a.value, b.value) && Less(b.value, d) { LessTransitive(a.value, b.value, d); } }
        }
      }
    }
  }

  lemma One(o: Observation)
    ensures Collectors({o}) == {o.collector}
    ensures Minimum(o.first, Firsts({o})) && Maximum(o.last, Lasts({o}))
  {
    assert o in {o};
    if o.first.Some? { LessIrreflexive(o.first.value); }
    if o.last.Some? { LessIrreflexive(o.last.value); }
    if o.first.None? { assert Firsts({o}) == {}; } else { assert Firsts({o}) == {o.first.value}; }
    if o.last.None? { assert Lasts({o}) == {}; } else { assert Lasts({o}) == {o.last.value}; }
  }

  lemma Unions(a: set<Observation>, b: set<Observation>)
    ensures Collectors(a + b) == Collectors(a) + Collectors(b)
    ensures Firsts(a + b) == Firsts(a) + Firsts(b)
    ensures Lasts(a + b) == Lasts(a) + Lasts(b)
  {
  }

  lemma AddedAccumulates(e: Accumulator, observations: set<Observation>, o: Observation)
    requires Accumulates(e, observations)
    ensures Accumulates(Added(e, o), observations + {o})
  {
    One(o);
    Unions(observations, {o});
    EarlierIsMinimum(e.first, o.first, Firsts(observations), Firsts({o}));
    LaterIsMaximum(e.last, o.last, Lasts(observations), Lasts({o}));
    assert o in observations + {o};
  }

  lemma NextObserved(findings: seq<Finding>, i: nat)
    requires i < |findings|
    ensures Observed(findings[..i + 1])
            == Observed(findings[..i]) + if Extract(findings[i]).Some? then {Extract(findings[i]).value} else {}
  {
    assert findings[..i + 1] == findings[..i] + [findings[i]];
  }

  ghost predicate Tabulates(table: map<string, Accumulator>, observations: set<Observation>) {
    && (forall name :: name in table <==> About(observations, name) != {})
    && (forall name :: name in table ==> Accumulates(table[name], About(observations, name)))
  }

  method Accumulate(findings: seq<Finding>) returns (bySubdomain: map<string, Accumulator>)
    ensures Tabulates(bySubdomain, Observed(findings))
  {
    bySubdomain := map[];
    for i := 0 to |findings|
      invariant Tabulates(bySubdomain, Observed(findings[..i]))
    {
      bySubdomain := AddFinding(findings, i, bySubdomain);
    }
    assert findings[..|findings|] == findings;
  }

  method AddFinding(findings: seq<Finding>, i: nat, table: map<string, Accumulator>) returns (next: map<string, Accumulator>)
    requires i < |findings| && Tabulates(table, Observed(findings[..i]))
    ensures Tabulates(next, Observed(findings[..i + 1]))
  {
    NextObserved(findings, i);
    var extracted := Extract(findings[i]);
    if extracted.None? {
      assert Observed(findings[..i + 1]) == Observed(findings[..i]);
      return table;
    }
    next := AddTo(table, Observed(findings[..i]), extracted.value);
  }

  method AddTo(table: map<string, Accumulator>, ghost observations: set<Observation>, o: Observation)
    returns (next: map<string, Accumulator>)
    requires Tabulates(table, observations)
    ensures Tabulates(next, observations + {o})
  {
    var entry := if o.subdomain in table then table[o.subdomain] else EMPTY;
    next := table[o.subdomain := Added(entry, o)];
    var mine := About(observations, o.subdomain);
    AddedAccumulates(entry, mine, o);
    forall name ensures About(observations + {o}, name) == if name == o.subdomain then mine + {o} else About(observations, name) {
    }
    assert o in mine + {o};
  }

  method AggregateSubdomains(target: string, findings: seq<Finding>) returns (rows: seq<Row>)
    ensures IsAggregate(target, Observed(findings), rows)
    ensures forall i :: 0 <= i < |rows| ==> Tells(rows[i], findings)
    ensures forall name :: name in Names(rows) <==>
              && (name == target || exists front: string :: name == front + "." + target)
              && exists f :: f in findings && Contributes(f, name)
  {
    TextIsOrdered();
    var bySubdomain := Accumulate(findings);
    var names := set name | name in bySubdomain && InScope(target, name);
    NamesAgree(target, Observed(findings), names);
    var sorted := Sort(names, ByText());
    rows := RowsFor(sorted, bySubdomain, Observed(findings));
    forall i | 0 <= i < |rows| ensures Tells(rows[i], findings) { RowTells(findings, rows[i]); }
    forall name { NamesTold(target, findings, name); }
  }

  method RowsFor(names: seq<string>, table: map<string, Accumulator>, ghost observations: set<Observation>) returns (rows: seq<Row>)
    requires Tabulates(table, observations) && forall name :: name in names ==> name in table
    ensures Names(rows) == names && forall i :: 0 <= i < |rows| ==> Describes(rows[i], observations)
  {
    TextIsOrdered();
    rows := [];
    for i := 0 to |names|
      invariant Names(rows) == names[..i]
      invariant forall k :: 0 <= k < |rows| ==> Describes(rows[k], observations)
    {
      assert names[i] in table;
      var entry := table[names[i]];
      var sources := Sort(entry.sources, ByText());
      rows := rows + [Row(names[i], |entry.sources|, sources, entry.first, entry.last, entry.wildcard)];
    }
    assert names[..|names|] == names;
  }

  lemma NamesAgree(target: string, observations: set<Observation>, names: set<string>)
    requires forall name :: name in names <==> About(observations, name) != {} && InScope(target, name)
    ensures names == NamesInScope(target, observations)
  {
    forall name ensures name in names <==> name in NamesInScope(target, observations) {
      if name in names {
        var o :| o in About(observations, name);
        assert o in observations && o.subdomain == name;
      }
      if name in NamesInScope(target, observations) {
        var o :| o in observations && InScope(target, o.subdomain) && o.subdomain == name;
        assert o in About(observations, name);
      }
    }
  }

  // ---------- what the aggregation guarantees ----------

  lemma MinimumIsUnique(a: Option<string>, b: Option<string>, dates: set<string>)
    requires (Minimum(a, dates) && Minimum(b, dates)) || (Maximum(a, dates) && Maximum(b, dates))
    ensures a == b
  {
    if a.Some? && b.Some? { LessTotal(a.value, b.value); }
  }

  lemma RowIsUnique(a: Row, b: Row, observations: set<Observation>)
    requires Describes(a, observations) && Describes(b, observations) && a.subdomain == b.subdomain
    ensures a == b
  {
    TextIsOrdered();
    var mine := About(observations, a.subdomain);
    SortedIsUnique(ByText(), a.sources, b.sources);
    MinimumIsUnique(a.first, b.first, Firsts(mine));
    MinimumIsUnique(a.last, b.last, Lasts(mine));
  }

  /** Only the set of observations matters: not the order of the findings nor how often one is repeated. */
  lemma AggregationIsOrderFree(target: string, a: seq<Finding>, b: seq<Finding>, first: seq<Row>, second: seq<Row>)
    requires Observed(a) == Observed(b)
    requires IsAggregate(target, Observed(a), first) && IsAggregate(target, Observed(b), second)
    ensures first == second
  {
    TextIsOrdered();
    SortedIsUnique(ByText(), Names(first), Names(second));
    assert |Names(first)| == |first| && |Names(second)| == |second|;
    forall i | 0 <= i < |first| ensures first[i] == second[i] {
      assert Names(first)[i] == Names(second)[i];
      RowIsUnique(first[i], second[i], Observed(a));
    }
  }

  /** Aggregating two lists together merges their rows name by name. */
  lemma AggregationMerges(target: string, a: seq<Finding>, b: seq<Finding>, r: Row, ra: Row, rb: Row)
    requires Describes(r, Observed(a + b)) && Describes(ra, Observed(a)) && Describes(rb, Observed(b))
    requires r.subdomain == ra.subdomain == rb.subdomain
    ensures forall s :: s in r.sources <==> s in ra.sources || s in rb.sources
    ensures r.wildcard <==> ra.wildcard || rb.wildcard
    ensures r.first == Earlier(ra.first, rb.first) && r.last == Later(ra.last, rb.last)
  {
    var mineA, mineB := About(Observed(a), r.subdomain), About(Observed(b), r.subdomain);
    assert About(Observed(a + b), r.subdomain) == mineA + mineB;
    Unions(mineA, mineB);
    EarlierIsMinimum(ra.first, rb.first, Firsts(mineA), Firsts(mineB));
    LaterIsMaximum(ra.last, rb.last, Lasts(mineA), Lasts(mineB));
    MinimumIsUnique(r.first, Earlier(ra.first, rb.first), Firsts(mineA + mineB));
    MinimumIsUnique(r.last, Later(ra.last, rb.last), Lasts(mineA + mineB));
  }

  /** A name that only one of the two lists mentions keeps the row it had there. */
  lemma OtherNamesKeepTheirRow(a: seq<Finding>, b: seq<Finding>, r: Row, ra: Row)
    requires Describes(r, Observed(a + b)) && Describes(ra, Observed(a)) && r.subdomain == ra.subdomain
    requires About(Observed(b), r.subdomain) == {}
    ensures r == ra
  {
    var mineA, mineB := About(Observed(a), r.subdomain), About(Observed(b), r.subdomain);
    assert About(Observed(a + b), r.subdomain) == mineA + mineB == mineA;
    TextIsOrdered();
    SortedIsUnique(ByText(), r.sources, ra.sources);
    MinimumIsUnique(r.first, ra.first, Firsts(mineA));
    MinimumIsUnique(r.last, ra.last, Lasts(mineA));
  }

  lemma NamesMerge(target: string, a: seq<Finding>, b: seq<Finding>, rows: seq<Row>, rowsA: seq<Row>, rowsB: seq<Row>)
    requires IsAggregate(target, Observed(a + b), rows) && IsAggregate(target, Observed(a), rowsA) && IsAggregate(target, Observed(b), rowsB)
    ensures forall name :: name in Names(rows) <==> name in Names(rowsA) || name in Names(rowsB)
  {
    assert NamesInScope(target, Observed(a + b)) == NamesInScope(target, Observed(a)) + NamesInScope(target, Observed(b));
  }
}
