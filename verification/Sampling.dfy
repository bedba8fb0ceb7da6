/** How the archive collectors choose which documents to fetch, and how much of them they keep. */
module Sampling {
  import opened Wrappers
  import opened Ordering
  import opened Sums
  import Retries
  import Gateway

  const MAX_REPRESENTATIVE_DOCS := 20
  const DIVERSE_DOCS := MAX_REPRESENTATIVE_DOCS / 2
  const MAX_TOTAL_SAMPLE_BYTES := 5_000_000
  const PER_DOCUMENT_BYTE_CAP := 500_000
  const RANGE_SLACK := 1024

  // ---------- the index: one entry per URL ----------

  /** A row of the capture index; a missing or empty URL or time stamp is the empty text. */
  datatype Capture = Capture(original: string, timestamp: string, mimetype: Option<string>, statuscode: Option<string>)

  datatype UrlEntry = UrlEntry(
    firstSeen: string,
    lastSeen: string,
    mimetype: Option<string>,
    statuscode: Option<string>,
    bestTimestamp: string,
    bestStatuscode: Option<string>)

  /** The canonical form of a URL, when it has one inside the target's domain. */
  type Canonical = string -> Option<string>

  function UrlOf(canonical: Canonical, c: Capture): Option<string> {
    if c.original == "" || c.timestamp == "" then None else canonical(c.original)
  }

  function CapturesOf(canonical: Canonical, rows: seq<Capture>, url: string): seq<Capture> {
    if rows == [] then []
    else
      var earlier := CapturesOf(canonical, rows[..|rows| - 1], url);
      if UrlOf(canonical, rows[|rows| - 1]) == Some(url) then earlier + [rows[|rows| - 1]] else earlier
  }

  function Opened(c: Capture): UrlEntry {
    UrlEntry(c.timestamp, c.timestamp, c.mimetype, c.statuscode, c.timestamp, c.statuscode)
  }

  function Updated(e: UrlEntry, c: Capture): UrlEntry {
    var first := if Less(c.timestamp, e.firstSeen) then e.(firstSeen := c.timestamp) else e;
    var last := if Less(e.lastSeen, c.timestamp)
                then first.(lastSeen := c.timestamp, mimetype := c.mimetype, statuscode := c.statuscode) else first;
    if c.statuscode == Some("200") then last.(bestTimestamp := c.timestamp, bestStatuscode := Some("200")) else last
  }

  /** The earliest time stamp of any capture. */
  predicate Earliest(first: string, captures: seq<Capture>) {
    && (exists i :: 0 <= i < |captures| && captures[i].timestamp == first)
    && (forall i :: 0 <= i < |captures| ==> !Less(captures[i].timestamp, first))
  }

  /** The capture with the latest time stamp; of several, the one listed first. */
  predicate LatestAt(captures: seq<Capture>, at: nat) {
    && at < |captures|
    && (forall i :: 0 <= i < |captures| ==> !Less(captures[at].timestamp, captures[i].timestamp))
    && (forall i :: 0 <= i < at ==> captures[i].timestamp != captures[at].timestamp)
  }

  predicate Latest(e: UrlEntry, captures: seq<Capture>) {
    exists at: nat :: at < |captures| && LatestAt(captures, at)
      && e.lastSeen == captures[at].timestamp && e.mimetype == captures[at].mimetype && e.statuscode == captures[at].statuscode
  }

  predicate Successful(c: Capture) { c.statuscode == Some("200") }

  /** The last listed of the captures that succeeded; when none did, the first listed of them all. */
  predicate BestAt(captures: seq<Capture>, at: nat) {
    && at < |captures|
    && (if Successful(captures[at]) then forall i :: at < i < |captures| ==> !Successful(captures[i])
        else at == 0 && forall i :: 0 <= i < |captures| ==> !Successful(captures[i]))
  }

  predicate Best(e: UrlEntry, captures: seq<Capture>) {
    exists at: nat :: at < |captures| && BestAt(captures, at)
      && e.bestTimestamp == captures[at].timestamp && e.bestStatuscode == captures[at].statuscode
  }

  predicate Describes(e: UrlEntry, captures: seq<Capture>) {
    Earliest(e.firstSeen, captures) && Latest(e, captures) && Best(e, captures)
  }

  lemma OpenedDescribes(c: Capture)
    ensures Describes(Updated(Opened(c), c), [c])
  {
    LessIrreflexive(c.timestamp);
    assert [c][0] == c;
    assert LatestAt([c], 0) && BestAt([c], 0);
  }

  lemma FirstUpdated(first: string, captures: seq<Capture>, c: Capture)
    requires Earliest(first, captures)
    ensures Earliest(if Less(c.timestamp, first) then c.timestamp else first, captures + [c])
  {
    var longer := captures + [c];
    assert longer[|captures|] == c;
    LessIrreflexive(c.timestamp);
    if Less(c.timestamp, first) {
      forall i | 0 <= i < |captures| ensures !Less(captures[i].timestamp, c.timestamp) {
        if Less(captures[i].timestamp, c.timestamp) { LessTransitive(captures[i].timestamp, c.timestamp, first); }
      }
    } else {
      var i :| 0 <= i < |captures| && captures[i].timestamp == first;
      assert longer[i].timestamp == first;
    }
  }

  lemma LatestUpdated(e: UrlEntry, captures: seq<Capture>, c: Capture)
    requires Latest(e, captures)
    ensures Latest(Updated(e, c), captures + [c])
  {
    var longer := captures + [c];
    assert longer[|captures|] == c;
    var at: nat :| at < |captures| && LatestAt(captures, at) && e.lastSeen == captures[at].timestamp
      && e.mimetype == captures[at].mimetype && e.statuscode == captures[at].statuscode;
    LessIrreflexive(c.timestamp);
    if Less(e.lastSeen, c.timestamp) {
      forall i | 0 <= i < |captures|
        ensures !Less(c.timestamp, captures[i].timestamp) && captures[i].timestamp != c.timestamp
      {
        if Less(c.timestamp, captures[i].timestamp) { LessTransitive(e.lastSeen, c.timestamp, captures[i].timestamp); }
      }
      assert LatestAt(longer, |captures|);
    } else {
      assert LatestAt(longer, at);
    }
  }

  lemma BestUpdated(e: UrlEntry, captures: seq<Capture>, c: Capture)
    requires Best(e, captures)
    ensures Best(Updated(e, c), captures + [c])
  {
    var longer := captures + [c];
    assert longer[|captures|] == c;
    var at: nat :| at < |captures| && BestAt(captures, at) && e.bestTimestamp == captures[at].timestamp
      && e.bestStatuscode == captures[at].statuscode;
    if Successful(c) {
      assert BestAt(longer, |captures|);
    } else {
      assert BestAt(longer, at);
    }
  }

  lemma UpdatedDescribes(e: UrlEntry, captures: seq<Capture>, c: Capture)
    requires Describes(e, captures)
    ensures Describes(Updated(e, c), captures + [c])
  {
    FirstUpdated(e.firstSeen, captures, c);
    LatestUpdated(e, captures, c);
    BestUpdated(e, captures, c);
  }

  lemma NextCapture(canonical: Canonical, rows: seq<Capture>, i: nat, url: string)
    requires i < |rows|
    ensures CapturesOf(canonical, rows[..i + 1], url)
            == if UrlOf(canonical, rows[i]) == Some(url) then CapturesOf(canonical, rows[..i], url) + [rows[i]]
               else CapturesOf(canonical, rows[..i], url)
  {
    assert rows[..i + 1][..i] == rows[..i];
  }

  lemma {:induction false} CapturesMeaning(canonical: Canonical, rows: seq<Capture>, url: string, c: Capture)
    ensures c in CapturesOf(canonical, rows, url) <==> c in rows && c.original != "" && c.timestamp != "" && canonical(c.original) == Some(url)
  {
    if rows != [] {
      var front, last := rows[..|rows| - 1], rows[|rows| - 1];
      CapturesMeaning(canonical, front, url, c);
      assert rows == front + [last];
    }
  }

  method AggregateByUrl(canonical: Canonical, rows: seq<Capture>) returns (byUrl: map<string, UrlEntry>)
    ensures forall url :: url in byUrl <==> exists c :: c in rows && c.original != "" && c.timestamp != "" && canonical(c.original) == Some(url)
    ensures forall url :: url in byUrl ==> Describes(byUrl[url], CapturesOf(canonical, rows, url))
  {
    byUrl := map[];
    for i := 0 to |rows|
      invariant forall url :: url in byUrl <==> CapturesOf(canonical, rows[..i], url) != []
      invariant forall url :: url in byUrl ==> Describes(byUrl[url], CapturesOf(canonical, rows[..i], url))
    {
      byUrl := AddRow(canonical, rows, i, byUrl);
    }
    assert rows[..|rows|] == rows;
    forall url ensures CapturesOf(canonical, rows, url) != [] <==>
                         exists c :: c in rows && c.original != "" && c.timestamp != "" && canonical(c.original) == Some(url)
    {
      forall c ensures c in CapturesOf(canonical, rows, url) <==> c in rows && c.original != "" && c.timestamp != "" && canonical(c.original) == Some(url) {
        CapturesMeaning(canonical, rows, url, c);
      }
      if CapturesOf(canonical, rows, url) != [] { assert CapturesOf(canonical, rows, url)[0] in rows; }
    }
  }

  method AddRow(canonical: Canonical, rows: seq<Capture>, i: nat, was: map<string, UrlEntry>) returns (byUrl: map<string, UrlEntry>)
    requires i < |rows|
    requires forall url :: url in was <==> CapturesOf(canonical, rows[..i], url) != []
    requires forall url :: url in was ==> Describes(was[url], CapturesOf(canonical, rows[..i], url))
    ensures forall url :: url in byUrl <==> CapturesOf(canonical, rows[..i + 1], url) != []
    ensures forall url :: url in byUrl ==> Describes(byUrl[url], CapturesOf(canonical, rows[..i + 1], url))
  {
    byUrl := was;
    var row := rows[i];
    var url := UrlOf(canonical, row);
    if url.Some? {
      var entry := if url.value in was then was[url.value] else Opened(row);
      if url.value in was {
        UpdatedDescribes(entry, CapturesOf(canonical, rows[..i], url.value), row);
      } else {
        OpenedDescribes(row);
        assert CapturesOf(canonical, rows[..i], url.value) + [row] == [row];
      }
      byUrl := was[url.value := Updated(entry, row)];
    }
    forall u ensures u in byUrl <==> CapturesOf(canonical, rows[..i + 1], u) != [] {
      NextCapture(canonical, rows, i, u);
    }
    forall u | u in byUrl ensures Describes(byUrl[u], CapturesOf(canonical, rows[..i + 1], u)) {
      NextCapture(canonical, rows, i, u);
    }
  }

  // ---------- the choice of documents ----------

  /** The extension of a URL's last segment. */
  type Extension = string -> Option<string>

  predicate Page(extension: Extension, url: string) {
    var e := extension(url);
    e == None || e == Some("html") || e == Some("htm")
  }

  /** Pages before other documents, then by URL. */
  function ByPriority(extension: Extension): (string, string) -> bool {
    (a: string, b: string) =>
      (Page(extension, a) && !Page(extension, b)) || (Page(extension, a) == Page(extension, b) && Less(a, b))
  }

  lemma PriorityIsOrdered(extension: Extension)
    ensures StrictTotal(ByPriority(extension))
  {
    var less := ByPriority(extension);
    forall a ensures !less(a, a) { LessIrreflexive(a); }
    forall a, b, c | less(a, b) && less(b, c) ensures less(a, c) {
      if Less(a, b) && Less(b, c) { LessTransitive(a, b, c); }
    }
    forall a, b ensures less(a, b) || a == b || less(b, a) { LessTotal(a, b); }
  }

  function ExtensionsOf(extension: Extension, candidates: seq<string>): set<Option<string>> {
    set url | url in candidates :: extension(url)
  }

  /** The first candidate of every extension. */
  function Firsts(extension: Extension, candidates: seq<string>): seq<string> {
    if candidates == [] then []
    else
      var front, last := candidates[..|candidates| - 1], candidates[|candidates| - 1];
      if extension(last) in ExtensionsOf(extension, front) then Firsts(extension, front) else Firsts(extension, front) + [last]
  }

  /** How many candidates it takes to see ten extensions; all of them, when there are fewer. */
  function Cut(extension: Extension, candidates: seq<string>): (n: nat)
    ensures n <= |candidates|
  {
    if candidates == [] then 0
    else
      var front := candidates[..|candidates| - 1];
      if |Firsts(extension, front)| < DIVERSE_DOCS then |candidates| else Cut(extension, front)
  }

  function Min(a: int, b: int): int { if a < b then a else b }

  /** The first candidate of each of the first ten extensions, then the next ten candidates whatever they are. */
  function Chosen(extension: Extension, candidates: seq<string>): seq<string> {
    var firsts := Firsts(extension, candidates);
    if |firsts| < DIVERSE_DOCS then firsts
    else
      firsts[..DIVERSE_DOCS] + After(candidates, Cut(extension, candidates))
  }

  lemma NextFirst(extension: Extension, candidates: seq<string>, i: nat)
    requires i < |candidates|
    ensures Firsts(extension, candidates[..i + 1])
            == if extension(candidates[i]) in ExtensionsOf(extension, candidates[..i]) then Firsts(extension, candidates[..i])
               else Firsts(extension, candidates[..i]) + [candidates[i]]
    ensures Cut(extension, candidates[..i + 1])
            == if |Firsts(extension, candidates[..i])| < DIVERSE_DOCS then i + 1 else Cut(extension, candidates[..i])
  {
    assert candidates[..i + 1][..i] == candidates[..i];
  }

  lemma NextExtension(extension: Extension, candidates: seq<string>, i: nat)
    requires i < |candidates|
    ensures ExtensionsOf(extension, candidates[..i + 1]) == ExtensionsOf(extension, candidates[..i]) + {extension(candidates[i])}
  {
    assert candidates[..i + 1] == candidates[..i] + [candidates[i]];
  }

  /** The candidates taken after the cut. */
  function After(candidates: seq<string>, cut: nat): seq<string>
    requires cut <= |candidates|
  {
    candidates[cut..Min(cut + MAX_REPRESENTATIVE_DOCS - DIVERSE_DOCS, |candidates|)]
  }

  lemma AfterGrows(candidates: seq<string>, i: nat, cut: nat)
    requires cut <= i < |candidates|
    ensures var now := After(candidates[..i], cut);
            After(candidates[..i + 1], cut) == if |now| < MAX_REPRESENTATIVE_DOCS - DIVERSE_DOCS then now + [candidates[i]] else now
  {
    assert candidates[..i + 1] == candidates[..i] + [candidates[i]];
  }

  /** With ten extensions seen, any candidate is taken while fewer than twenty are. */
  lemma OneMoreAfterTen(extension: Extension, candidates: seq<string>, i: nat)
    requires i < |candidates| && |Firsts(extension, candidates[..i])| >= DIVERSE_DOCS
    ensures var now := Chosen(extension, candidates[..i]);
            |now| >= DIVERSE_DOCS &&
            Chosen(extension, candidates[..i + 1]) == if |now| < MAX_REPRESENTATIVE_DOCS then now + [candidates[i]] else now
  {
    NextFirst(extension, candidates, i);
    var firsts, more := Firsts(extension, candidates[..i]), Firsts(extension, candidates[..i + 1]);
    AfterGrows(candidates, i, Cut(extension, candidates[..i]));
    assert more[..DIVERSE_DOCS] == firsts[..DIVERSE_DOCS];
  }

  /** Before that, only the first of an extension is. */
  lemma OneMoreBeforeTen(extension: Extension, candidates: seq<string>, i: nat)
    requires i < |candidates| && |Firsts(extension, candidates[..i])| < DIVERSE_DOCS
    ensures Chosen(extension, candidates[..i]) == Firsts(extension, candidates[..i])
    ensures Chosen(extension, candidates[..i + 1]) == Firsts(extension, candidates[..i + 1])
  {
    NextFirst(extension, candidates, i);
    var more := Firsts(extension, candidates[..i + 1]);
    if |more| >= DIVERSE_DOCS {
      assert more[..DIVERSE_DOCS] == more;
      assert After(candidates[..i + 1], i + 1) == [];
    }
  }

  lemma OneMore(extension: Extension, candidates: seq<string>, i: nat)
    requires i < |candidates|
    ensures Chosen(extension, candidates[..i + 1])
            == var now := Chosen(extension, candidates[..i]);
               if |now| >= MAX_REPRESENTATIVE_DOCS || (extension(candidates[i]) in ExtensionsOf(extension, candidates[..i]) && |now| < DIVERSE_DOCS)
               then now else now + [candidates[i]]
  {
    if |Firsts(extension, candidates[..i])| < DIVERSE_DOCS {
      OneMoreBeforeTen(extension, candidates, i);
      NextFirst(extension, candidates, i);
    } else {
      OneMoreAfterTen(extension, candidates, i);
    }
  }

  method Choose(extension: Extension, candidates: seq<string>) returns (selected: seq<string>)
    ensures selected == Chosen(extension, candidates)
  {
    selected := [];
    var seen: set<Option<string>> := {};
    for i := 0 to |candidates|
      invariant selected == Chosen(extension, candidates[..i])
      invariant |selected| < DIVERSE_DOCS ==> seen == ExtensionsOf(extension, candidates[..i])
    {
      OneMore(extension, candidates, i);
      NextExtension(extension, candidates, i);
      if |selected| >= MAX_REPRESENTATIVE_DOCS {
        FullStays(extension, candidates, i);
        return;
      }
      var e := extension(candidates[i]);
      if !(e in seen && |selected| < DIVERSE_DOCS) {
        seen := seen + {e};
        selected := selected + [candidates[i]];
      }
    }
    assert candidates[..|candidates|] == candidates;
  }

  lemma {:induction false} FullStays(extension: Extension, candidates: seq<string>, i: nat)
    requires i <= |candidates| && |Chosen(extension, candidates[..i])| >= MAX_REPRESENTATIVE_DOCS
    ensures Chosen(extension, candidates) == Chosen(extension, candidates[..i])
    decreases |candidates| - i
  {
    if i == |candidates| {
      assert candidates[..i] == candidates;
    } else {
      OneMore(extension, candidates, i);
      FullStays(extension, candidates, i + 1);
    }
  }

  /** The URLs whose best capture succeeded, by priority. */
  ghost predicate AreCandidates(extension: Extension, byUrl: map<string, UrlEntry>, candidates: seq<string>) {
    && Sorted(ByPriority(extension), candidates)
    && Lists(candidates, set url | url in byUrl && byUrl[url].bestStatuscode == Some("200"))
  }

  ghost predicate IsSelection(extension: Extension, byUrl: map<string, UrlEntry>, selected: seq<string>) {
    exists candidates: seq<string> :: AreCandidates(extension, byUrl, candidates) && selected == Chosen(extension, candidates)
  }

  method SelectRepresentative(extension: Extension, byUrl: map<string, UrlEntry>) returns (selected: seq<string>)
    ensures IsSelection(extension, byUrl, selected)
    ensures |selected| <= 20
    ensures forall url :: url in selected ==> url in byUrl && byUrl[url].bestStatuscode == Some("200")
    ensures forall i, k :: 0 <= i < k < |selected| ==>
              var page, other := extension(selected[i]) in {None, Some("html"), Some("htm")}, extension(selected[k]) in {None, Some("html"), Some("htm")};
              (other ==> page) && (page == other ==> Less(selected[i], selected[k]))
  {
    PriorityIsOrdered(extension);
    var urls := set url | url in byUrl && byUrl[url].bestStatuscode == Some("200");
    var candidates := Sort(urls, ByPriority(extension));
    assert AreCandidates(extension, byUrl, candidates);
    SelectionIsRepresentative(extension, candidates);
    selected := Choose(extension, candidates);
  }

  /** There is one such selection. */
  lemma SelectionIsUnique(extension: Extension, byUrl: map<string, UrlEntry>, a: seq<string>, b: seq<string>)
    requires IsSelection(extension, byUrl, a) && IsSelection(extension, byUrl, b)
    ensures a == b
  {
    PriorityIsOrdered(extension);
    var first: seq<string> :| AreCandidates(extension, byUrl, first) && a == Chosen(extension, first);
    var second: seq<string> :| AreCandidates(extension, byUrl, second) && b == Chosen(extension, second);
    SortedIsUnique(ByPriority(extension), first, second);
  }

  // ---------- what the choice guarantees ----------

  /** A URL is a candidate exactly when one of its captures succeeded. */
  lemma CandidatesSucceeded(e: UrlEntry, captures: seq<Capture>)
    requires Best(e, captures)
    ensures e.bestStatuscode == Some("200") <==> exists i :: 0 <= i < |captures| && Successful(captures[i])
  {
    var at: nat :| at < |captures| && BestAt(captures, at) && e.bestTimestamp == captures[at].timestamp
      && e.bestStatuscode == captures[at].statuscode;
    assert Successful(captures[at]) <==> e.bestStatuscode == Some("200");
  }

  /** The first of each extension, in candidate order. */
  lemma {:induction false} FirstsMeaning(extension: Extension, candidates: seq<string>, less: (string, string) -> bool)
    requires Sorted(less, candidates)
    ensures Sorted(less, Firsts(extension, candidates))
    ensures forall url :: url in Firsts(extension, candidates) ==> url in candidates
  {
    if candidates != [] {
      var n := |candidates| - 1;
      FirstsMeaning(extension, candidates[..n], less);
      var firsts, last := Firsts(extension, candidates[..n]), candidates[n];
      assert candidates == candidates[..n] + [last];
      forall i | 0 <= i < |firsts| ensures less(firsts[i], last) {
        assert firsts[i] in firsts && firsts[i] in candidates[..n];
        var k :| 0 <= k < n && candidates[k] == firsts[i];
        assert less(candidates[k], candidates[n]);
      }
    }
  }

  /** Every extension once. */
  lemma {:induction false} FirstsDiffer(extension: Extension, candidates: seq<string>)
    ensures ExtensionsOf(extension, Firsts(extension, candidates)) == ExtensionsOf(extension, candidates)
    ensures forall i, k :: 0 <= i < k < |Firsts(extension, candidates)| ==>
              extension(Firsts(extension, candidates)[i]) != extension(Firsts(extension, candidates)[k])
  {
    if candidates != [] {
      var n := |candidates| - 1;
      FirstsDiffer(extension, candidates[..n]);
      var firsts, last := Firsts(extension, candidates[..n]), candidates[n];
      assert candidates == candidates[..n] + [last];
      assert ExtensionsOf(extension, candidates) == ExtensionsOf(extension, candidates[..n]) + {extension(last)};
      if extension(last) !in ExtensionsOf(extension, candidates[..n]) {
        assert ExtensionsOf(extension, firsts + [last]) == ExtensionsOf(extension, firsts) + {extension(last)};
        forall i | 0 <= i < |firsts| ensures extension(firsts[i]) != extension(last) { assert firsts[i] in firsts; }
      }
    }
  }

  /** The ten firsts come before the cut. */
  lemma {:induction false} FirstsBeforeCut(extension: Extension, candidates: seq<string>)
    ensures var firsts := Firsts(extension, candidates); var cut := Cut(extension, candidates);
            if |firsts| < DIVERSE_DOCS then cut == |candidates|
            else firsts[..DIVERSE_DOCS] == Firsts(extension, candidates[..cut]) && |Firsts(extension, candidates[..cut])| == DIVERSE_DOCS
  {
    if candidates != [] {
      var n := |candidates| - 1;
      FirstsBeforeCut(extension, candidates[..n]);
      var cut := Cut(extension, candidates);
      assert candidates[..|candidates|] == candidates;
      if |Firsts(extension, candidates[..n])| >= DIVERSE_DOCS { assert candidates[..n][..cut] == candidates[..cut]; }
    }
  }

  /** The candidate at `i` is the first of its extension. */
  predicate FirstAt(extension: Extension, candidates: seq<string>, i: nat) {
    i < |candidates| && forall k :: 0 <= k < i ==> extension(candidates[k]) != extension(candidates[i])
  }

  predicate IsFirst(extension: Extension, candidates: seq<string>, url: string) {
    exists i :: 0 <= i < |candidates| && candidates[i] == url && FirstAt(extension, candidates, i)
  }

  lemma {:induction false} FirstsAreFirst(extension: Extension, candidates: seq<string>, url: string)
    ensures url in Firsts(extension, candidates) <==> IsFirst(extension, candidates, url)
  {
    if candidates != [] {
      var n := |candidates| - 1;
      var front, last := candidates[..n], candidates[n];
      FirstsAreFirst(extension, front, url);
      assert candidates == front + [last];
      if IsFirst(extension, front, url) {
        var i :| 0 <= i < n && front[i] == url && FirstAt(extension, front, i);
        assert candidates[i] == url && FirstAt(extension, candidates, i);
      }
      if IsFirst(extension, candidates, url) {
        var i :| 0 <= i < |candidates| && candidates[i] == url && FirstAt(extension, candidates, i);
        if i < n { assert front[i] == url && FirstAt(extension, front, i); }
      }
      if extension(last) !in ExtensionsOf(extension, front) {
        forall k | 0 <= k < n ensures extension(candidates[k]) != extension(last) { assert front[k] in front; }
        assert FirstAt(extension, candidates, n);
      }
    }
  }

  lemma {:induction false} CutIsLeast(extension: Extension, candidates: seq<string>)
    requires |Firsts(extension, candidates)| >= DIVERSE_DOCS
    ensures var cut := Cut(extension, candidates);
            && cut > 0 && |Firsts(extension, candidates[..cut])| == DIVERSE_DOCS && |Firsts(extension, candidates[..cut - 1])| == DIVERSE_DOCS - 1
  {
    var n := |candidates| - 1;
    assert candidates[..|candidates|] == candidates;
    if |Firsts(extension, candidates[..n])| >= DIVERSE_DOCS {
      CutIsLeast(extension, candidates[..n]);
      var cut := Cut(extension, candidates);
      assert candidates[..n][..cut] == candidates[..cut] && candidates[..n][..cut - 1] == candidates[..cut - 1];
    }
  }

  lemma CountOfExtensions(extension: Extension, candidates: seq<string>)
    ensures |ExtensionsOf(extension, candidates)| == |Firsts(extension, candidates)|
  {
    FirstsDiffer(extension, candidates);
    OnePerExtension(extension, Firsts(extension, candidates));
  }

  /** With ten extensions or more: up to the candidate that brings the tenth, those that are the first of their
      extension; and then the next ten candidates, or as many as there are, whatever their extensions. */
  lemma SelectionGoesOn(extension: Extension, candidates: seq<string>) returns (cut: nat)
    requires |ExtensionsOf(extension, candidates)| >= 10
    ensures 0 < cut <= |candidates|
    ensures |ExtensionsOf(extension, candidates[..cut])| == 10 && |ExtensionsOf(extension, candidates[..cut - 1])| == 9
    ensures var selected := Chosen(extension, candidates);
            && |selected| >= 10 && (forall url :: url in selected[..10] <==> IsFirst(extension, candidates[..cut], url))
            && selected[10..] == candidates[cut..if cut + 10 < |candidates| then cut + 10 else |candidates|]
  {
    CountOfExtensions(extension, candidates);
    cut := Cut(extension, candidates);
    CutIsLeast(extension, candidates);
    FirstsBeforeCut(extension, candidates);
    CountOfExtensions(extension, candidates[..cut]);
    CountOfExtensions(extension, candidates[..cut - 1]);
    forall url ensures url in Firsts(extension, candidates[..cut]) <==> IsFirst(extension, candidates[..cut], url) {
      FirstsAreFirst(extension, candidates[..cut], url);
    }
  }

  /** With fewer, exactly the candidates that are the first of their extension. */
  lemma SelectionOfFew(extension: Extension, candidates: seq<string>, url: string)
    requires |ExtensionsOf(extension, candidates)| < 10
    ensures url in Chosen(extension, candidates) <==> IsFirst(extension, candidates, url)
  {
    CountOfExtensions(extension, candidates);
    FirstsAreFirst(extension, candidates, url);
  }

  lemma SelectionIsOrdered(extension: Extension, candidates: seq<string>, less: (string, string) -> bool)
    requires Sorted(less, candidates)
    ensures var selected := Chosen(extension, candidates);
            |selected| <= MAX_REPRESENTATIVE_DOCS && Sorted(less, selected) && forall url :: url in selected ==> url in candidates
  {
    var firsts, cut := Firsts(extension, candidates), Cut(extension, candidates);
    FirstsMeaning(extension, candidates, less);
    FirstsBeforeCut(extension, candidates);
    if |firsts| >= DIVERSE_DOCS {
      FirstsMeaning(extension, candidates[..cut], less);
      Joined(less, candidates, cut, firsts[..DIVERSE_DOCS]);
    }
  }

  lemma SelectionIsDiverse(extension: Extension, candidates: seq<string>)
    ensures var selected := Chosen(extension, candidates);
            forall i, k :: 0 <= i < k < |selected| && k < DIVERSE_DOCS ==> extension(selected[i]) != extension(selected[k])
    ensures |ExtensionsOf(extension, candidates)| < DIVERSE_DOCS <==> |Firsts(extension, candidates)| < DIVERSE_DOCS
  {
    FirstsDiffer(extension, candidates);
    OnePerExtension(extension, Firsts(extension, candidates));
  }

  /** At most twenty candidates, in candidate order, the first ten all of different extensions; with fewer than
      ten extensions, exactly the first candidate of each. */
  lemma SelectionIsRepresentative(extension: Extension, candidates: seq<string>)
    requires Sorted(ByPriority(extension), candidates)
    ensures var selected := Chosen(extension, candidates);
            && |selected| <= MAX_REPRESENTATIVE_DOCS
            && Sorted(ByPriority(extension), selected)
            && (forall url :: url in selected ==> url in candidates)
            && (forall i, k :: 0 <= i < k < |selected| && k < DIVERSE_DOCS ==> extension(selected[i]) != extension(selected[k]))
    ensures |ExtensionsOf(extension, candidates)| < DIVERSE_DOCS <==> |Firsts(extension, candidates)| < DIVERSE_DOCS
    ensures |ExtensionsOf(extension, candidates)| < DIVERSE_DOCS ==> Chosen(extension, candidates) == Firsts(extension, candidates)
  {
    SelectionIsOrdered(extension, candidates, ByPriority(extension));
    SelectionIsDiverse(extension, candidates);
  }

  lemma Joined(less: (string, string) -> bool, candidates: seq<string>, cut: nat, head: seq<string>)
    requires Sorted(less, candidates) && cut <= |candidates| && Sorted(less, head) && forall url :: url in head ==> url in candidates[..cut]
    ensures Sorted(less, head + After(candidates, cut))
    ensures forall url :: url in head + After(candidates, cut) ==> url in candidates
  {
    var whole := head + After(candidates, cut);
    forall i, k | 0 <= i < k < |whole| ensures less(whole[i], whole[k]) {
      if i < |head| <= k {
        assert head[i] in candidates[..cut];
        var n :| 0 <= n < cut && candidates[n] == head[i];
        assert whole[k] == candidates[cut + k - |head|];
      }
    }
  }

  lemma {:induction false} OnePerExtension(extension: Extension, urls: seq<string>)
    requires forall i, k :: 0 <= i < k < |urls| ==> extension(urls[i]) != extension(urls[k])
    ensures |ExtensionsOf(extension, urls)| == |urls|
  {
    if urls != [] {
      var n := |urls| - 1;
      OnePerExtension(extension, urls[..n]);
      assert urls == urls[..n] + [urls[n]];
      assert ExtensionsOf(extension, urls) == ExtensionsOf(extension, urls[..n]) + {extension(urls[n])};
    }
  }

  // ---------- the byte budget ----------

  datatype Sample = Sample(url: string, size: nat)

  function SizeOf(): Sample -> nat { (s: Sample) => s.size }

  function Total(samples: seq<Sample>): nat { Sum(samples, SizeOf()) }

  lemma TotalGrows(samples: seq<Sample>, s: Sample)
    ensures Total(samples + [s]) == Total(samples) + s.size
  {
    SumAppend(samples, s, SizeOf());
  }

  /** What becomes of one document; an exception that the loop does not catch fails the whole collector. */
  datatype Fate = Keep(size: nat) | Skip | Abort

  /** The fate of the i-th document, given what is left of the budget. */
  type Fates = (nat, int) -> Fate

  datatype Sampled = Sampled(samples: seq<Sample>) | Aborted

  function Left(samples: seq<Sample>): int { MAX_TOTAL_SAMPLE_BYTES - Total(samples) }

  /** Greedily, document after document, while anything is left. */
  function Collected(urls: seq<string>, fates: Fates): Sampled {
    if urls == [] then Sampled([])
    else
      var n := |urls| - 1;
      var earlier := Collected(urls[..n], fates);
      if earlier.Aborted? || Left(earlier.samples) <= 0 then earlier else WithFate(earlier.samples, urls[n], fates(n, Left(earlier.samples)))
  }

  function WithFate(samples: seq<Sample>, url: string, fate: Fate): Sampled {
    match fate
    case Keep(size) => Sampled(samples + [Sample(url, size)])
    case Skip => Sampled(samples)
    case Abort => Aborted
  }

  lemma NextSample(urls: seq<string>, fates: Fates, i: nat)
    requires i < |urls|
    ensures var earlier := Collected(urls[..i], fates);
            Collected(urls[..i + 1], fates)
            == if earlier.Aborted? || Left(earlier.samples) <= 0 then earlier
               else WithFate(earlier.samples, urls[i], fates(i, Left(earlier.samples)))
  {
    assert urls[..i + 1][..i] == urls[..i];
  }

  /** Nothing happens any more once the budget is spent or the collector has failed. */
  lemma {:induction false} Settled(urls: seq<string>, fates: Fates, i: nat)
    requires i <= |urls| && (Collected(urls[..i], fates).Sampled? ==> Left(Collected(urls[..i], fates).samples) <= 0)
    ensures Collected(urls, fates) == Collected(urls[..i], fates)
    decreases |urls| - i
  {
    if i == |urls| {
      assert urls[..i] == urls;
    } else {
      NextSample(urls, fates, i);
      Settled(urls, fates, i + 1);
    }
  }

  /** The i-th document is kept although it is longer than what was left when it was fetched. */
  predicate Overruns(urls: seq<string>, fates: Fates, i: nat)
    requires i < |urls|
  {
    var earlier := Collected(urls[..i], fates);
    && earlier.Sampled? && Left(earlier.samples) > 0
    && fates(i, Left(earlier.samples)).Keep? && fates(i, Left(earlier.samples)).size > Left(earlier.samples)
  }

  /** The samples stay within the budget exactly when no document does that. */
  lemma {:induction false} BudgetExactly(urls: seq<string>, fates: Fates)
    requires Collected(urls, fates).Sampled?
    ensures Total(Collected(urls, fates).samples) <= MAX_TOTAL_SAMPLE_BYTES <==> forall i :: 0 <= i < |urls| ==> !Overruns(urls, fates, i)
  {
    if urls != [] {
      var n := |urls| - 1;
      var front := urls[..n];
      BudgetExactly(front, fates);
      forall i | 0 <= i < n ensures Overruns(urls, fates, i) <==> Overruns(front, fates, i) { assert front[..i] == urls[..i]; }
      OneMoreSample(front, urls[n], fates);
      assert front + [urls[n]] == urls;
    }
  }

  lemma OneMoreSample(front: seq<string>, url: string, fates: Fates)
    requires Collected(front + [url], fates).Sampled?
    ensures Collected(front, fates).Sampled?
    ensures Total(Collected(front + [url], fates).samples) <= MAX_TOTAL_SAMPLE_BYTES
            <==> Total(Collected(front, fates).samples) <= MAX_TOTAL_SAMPLE_BYTES && !Overruns(front + [url], fates, |front|)
  {
    var urls := front + [url];
    assert urls[..|front|] == front;
    NextSample(urls, fates, |front|);
    assert urls[..|urls|] == urls;
    var samples := Collected(front, fates).samples;
    if Left(samples) > 0 && fates(|front|, Left(samples)).Keep? {
      TotalGrows(samples, Sample(url, fates(|front|, Left(samples)).size));
    }
  }

  // ---------- Wayback ----------

  /** The errors that the loops catch: those the gateway raises on purpose. A resolver's own exception and a
      Content-Length that is not an integer are none of these. */
  predicate Caught(error: Gateway.Error) {
    error != Gateway.ResolverError && error != Gateway.MalformedLength
  }

  /** The answer with which a document's GET ends, under a byte cap; redirects are never followed. */
  function Got(ending: Gateway.Handled, cap: int): Gateway.Verdict {
    Gateway.SettleHandled(ending, false, cap)
  }

  function WaybackFate(ending: Gateway.Handled, left: int): Fate {
    match Got(ending, Min(PER_DOCUMENT_BYTE_CAP, left))
    case Failure(error) => if Caught(error) then Skip else Abort
    case Success(response) => if response.Response? && response.status == 200 then Keep(response.size) else Skip
    case Follow(_) => Skip
  }

  function WaybackFates(endings: seq<Gateway.Handled>): Fates {
    (i: nat, left: int) => if i < |endings| then WaybackFate(endings[i], left) else Skip
  }

  method SampleWayback(selected: seq<string>, endings: seq<Gateway.Handled>) returns (sampled: Sampled)
    requires |selected| == |endings|
    ensures sampled == Collected(selected, WaybackFates(endings))
  {
    ghost var fates := WaybackFates(endings);
    var samples: seq<Sample> := [];
    var remaining: int := MAX_TOTAL_SAMPLE_BYTES;
    for i := 0 to |selected|
      invariant Sampled(samples) == Collected(selected[..i], fates) && remaining == Left(samples)
    {
      NextSample(selected, fates, i);
      if remaining <= 0 {
        Settled(selected, fates, i);
        return Sampled(samples);
      }
      var verdict := Got(endings[i], Min(PER_DOCUMENT_BYTE_CAP, remaining));
      if verdict.Failure? {
        if Caught(verdict.error) { continue; }
        Settled(selected, fates, i + 1);
        return Aborted;
      }
      if verdict.Success? && verdict.response.Response? && verdict.response.status == 200 {
        var size := verdict.response.size;
        TotalGrows(samples, Sample(selected[i], size));
        remaining := remaining - size;
        samples := samples + [Sample(selected[i], size)];
      }
    }
    assert selected[..|selected|] == selected;
    sampled := Sampled(samples);
  }

  /** What the i-th document does to the samples, told from its answer alone: with bytes left of the budget, it is
      added exactly when the answer has status 200 and fits 500,000 bytes and what is left, as announced and as
      received; a resolver's own exception or a length that is no integer fails the collector; anything else is
      passed over. With nothing left, it is not fetched. */
  lemma WaybackExactly(selected: seq<string>, endings: seq<Gateway.Handled>, i: nat)
    requires i < |selected| == |endings| && Collected(selected[..i], WaybackFates(endings)).Sampled?
    ensures var samples := Collected(selected[..i], WaybackFates(endings)).samples;
            var next := Collected(selected[..i + 1], WaybackFates(endings));
            var left := 5_000_000 - Total(samples);
            if left <= 0 || endings[i] == Gateway.Answered(Gateway.TransportFailure) then next == Sampled(samples)
            else
              match endings[i]
              case Refused(error) =>
                next == if error == Gateway.ResolverError || error == Gateway.MalformedLength then Aborted else Sampled(samples)
              case Answered(reply) =>
                if reply.status in {301, 302, 303, 307, 308, 429} then next == Sampled(samples)
                else if reply.contentLength == Gateway.NotAnInteger then next == Aborted
                else if reply.status == 200 && reply.size <= 500_000 && reply.size <= left
                        && (reply.contentLength.Length? ==> reply.contentLength.value <= 500_000 && reply.contentLength.value <= left)
                then next == Sampled(samples + [Sample(selected[i], reply.size)])
                else next == Sampled(samples)
  {
    NextSample(selected, WaybackFates(endings), i);
  }

  /** Every Wayback document is fetched under a cap within what is left, so the budget holds. */
  lemma WaybackBudget(selected: seq<string>, endings: seq<Gateway.Handled>)
    requires Collected(selected, WaybackFates(endings)).Sampled?
    ensures Total(Collected(selected, WaybackFates(endings)).samples) <= MAX_TOTAL_SAMPLE_BYTES
  {
    var fates := WaybackFates(endings);
    BudgetExactly(selected, fates);
    forall i | 0 <= i < |selected| ensures !Overruns(selected, fates, i) {
      var earlier := Collected(selected[..i], fates);
      if earlier.Sampled? && i < |endings| {
        var cap := Min(PER_DOCUMENT_BYTE_CAP, Left(earlier.samples));
      }
    }
  }

  // ---------- Common Crawl ----------

  /** The length and offset of a record: unreadable when one is missing or not a number, mistyped when one is no
      text or number at all. */
  datatype ByteRange = Bytes(length: int) | Unreadable | Mistyped

  /** The answer to a range request, and whether it unpacks to an archived response. */
  datatype Fetched = Fetched(ending: Gateway.Handled, readable: bool)

  function CrawlFate(range: ByteRange, fetched: Fetched, left: int): Fate {
    match range
    case Mistyped => Abort
    case Unreadable => Skip
    case Bytes(length) =>
      if length > Min(PER_DOCUMENT_BYTE_CAP, left) then Skip
      else RangeFate(Got(fetched.ending, length + RANGE_SLACK), fetched.readable)
  }

  function RangeFate(verdict: Gateway.Verdict, readable: bool): Fate {
    match verdict
    case Failure(error) => if Caught(error) then Skip else Abort
    case Success(response) =>
      if response.Response? && (response.status == 200 || response.status == 206) && readable then Keep(response.size) else Skip
    case Follow(_) => Skip
  }

  function CrawlFates(ranges: seq<ByteRange>, fetched: seq<Fetched>): Fates {
    (i: nat, left: int) => if i < |ranges| && i < |fetched| then CrawlFate(ranges[i], fetched[i], left) else Skip
  }

  method SampleCommonCrawl(selected: seq<string>, ranges: seq<ByteRange>, fetched: seq<Fetched>) returns (sampled: Sampled)
    requires |selected| == |ranges| == |fetched|
    ensures sampled == Collected(selected, CrawlFates(ranges, fetched))
  {
    ghost var fates := CrawlFates(ranges, fetched);
    var samples: seq<Sample> := [];
    var remaining: int := MAX_TOTAL_SAMPLE_BYTES;
    for i := 0 to |selected|
      invariant Sampled(samples) == Collected(selected[..i], fates) && remaining == Left(samples)
    {
      NextSample(selected, fates, i);
      if remaining <= 0 {
        Settled(selected, fates, i);
        return Sampled(samples);
      }
      var fate := TryRange(ranges[i], fetched[i], remaining);
      if fate.Abort? {
        Settled(selected, fates, i + 1);
        return Aborted;
      }
      if fate.Keep? {
        TotalGrows(samples, Sample(selected[i], fate.size));
        remaining := remaining - fate.size;
        samples := samples + [Sample(selected[i], fate.size)];
      }
    }
    assert selected[..|selected|] == selected;
    sampled := Sampled(samples);
  }

  method TryRange(range: ByteRange, fetched: Fetched, remaining: int) returns (fate: Fate)
    ensures fate == CrawlFate(range, fetched, remaining)
  {
    if range == Unreadable { return Skip; }
    if range == Mistyped { return Abort; }
    if range.length > Min(PER_DOCUMENT_BYTE_CAP, remaining) { return Skip; }
    var verdict := Got(fetched.ending, range.length + RANGE_SLACK);
    if verdict.Failure? { return if Caught(verdict.error) then Skip else Abort; }
    if !(verdict.Success? && verdict.response.Response?) { return Skip; }
    if (verdict.response.status != 200 && verdict.response.status != 206) || !fetched.readable { return Skip; }
    fate := Keep(verdict.response.size);
  }

  /** The same for a crawl: a record without a readable length, or one longer than 500,000 bytes or than what is
      left, is not fetched; a reply with status 200 or 206 is kept when it brings at most 1,024 bytes more than the
      record says, as announced and as received, and unpacks. */
  lemma CommonCrawlExactly(selected: seq<string>, ranges: seq<ByteRange>, fetched: seq<Fetched>, i: nat)
    requires i < |selected| == |ranges| == |fetched| && Collected(selected[..i], CrawlFates(ranges, fetched)).Sampled?
    ensures var samples := Collected(selected[..i], CrawlFates(ranges, fetched)).samples;
            var next := Collected(selected[..i + 1], CrawlFates(ranges, fetched));
            var left := 5_000_000 - Total(samples);
            if left <= 0 || ranges[i] == Unreadable then next == Sampled(samples)
            else if ranges[i] == Mistyped then next == Aborted
            else if ranges[i].length > 500_000 || ranges[i].length > left || fetched[i].ending == Gateway.Answered(Gateway.TransportFailure)
            then next == Sampled(samples)
            else
              match fetched[i].ending
              case Refused(error) =>
                next == if error == Gateway.ResolverError || error == Gateway.MalformedLength then Aborted else Sampled(samples)
              case Answered(reply) =>
                if reply.status in {301, 302, 303, 307, 308, 429} then next == Sampled(samples)
                else if reply.contentLength == Gateway.NotAnInteger then next == Aborted
                else if fetched[i].readable && (reply.status == 200 || reply.status == 206) && reply.size <= ranges[i].length + 1024
                        && (reply.contentLength.Length? ==> reply.contentLength.value <= ranges[i].length + 1024)
                then next == Sampled(samples + [Sample(selected[i], reply.size)])
                else next == Sampled(samples)
  {
    NextSample(selected, CrawlFates(ranges, fetched), i);
  }

  lemma KeptRangeFits(range: ByteRange, fetched: Fetched, left: int)
    requires CrawlFate(range, fetched, left).Keep?
    ensures range.Bytes? && range.length <= left && CrawlFate(range, fetched, left).size <= range.length + RANGE_SLACK
    ensures fetched.ending.Answered? && fetched.ending.reply.Response? && fetched.ending.reply.size == CrawlFate(range, fetched, left).size
  {
  }

  /** A range may bring a little more than it was asked for, so the last one may run over by that much. */
  lemma {:induction false} CommonCrawlBudget(selected: seq<string>, ranges: seq<ByteRange>, fetched: seq<Fetched>)
    requires |selected| <= |ranges| == |fetched| && Collected(selected, CrawlFates(ranges, fetched)).Sampled?
    ensures Total(Collected(selected, CrawlFates(ranges, fetched)).samples) <= MAX_TOTAL_SAMPLE_BYTES + RANGE_SLACK
  {
    if selected != [] {
      var n, fates := |selected| - 1, CrawlFates(ranges, fetched);
      assert selected[..|selected|] == selected;
      NextSample(selected, fates, n);
      CommonCrawlBudget(selected[..n], ranges, fetched);
      var samples := Collected(selected[..n], fates).samples;
      if Left(samples) > 0 && fates(n, Left(samples)).Keep? {
        KeptRangeFits(ranges[n], fetched[n], Left(samples));
        TotalGrows(samples, Sample(selected[n], fates(n, Left(samples)).size));
      }
    }
  }

  /** The reply is no longer than the record says. */
  predicate AsLongAsAsked(range: ByteRange, fetched: Fetched) {
    range.Bytes? && fetched.ending.Answered? && fetched.ending.reply.Response? ==> fetched.ending.reply.size <= range.length
  }

  /** The samples of a crawl stay within the budget exactly when no kept range is longer than what was left; they
      do whenever no reply is longer than its record says. */
  lemma CommonCrawlWithinBudget(selected: seq<string>, ranges: seq<ByteRange>, fetched: seq<Fetched>)
    requires |selected| == |ranges| == |fetched| && Collected(selected, CrawlFates(ranges, fetched)).Sampled?
    ensures Total(Collected(selected, CrawlFates(ranges, fetched)).samples) <= MAX_TOTAL_SAMPLE_BYTES
            <==> forall i :: 0 <= i < |selected| ==> !Overruns(selected, CrawlFates(ranges, fetched), i)
    ensures (forall i :: 0 <= i < |selected| ==> AsLongAsAsked(ranges[i], fetched[i]))
            ==> Total(Collected(selected, CrawlFates(ranges, fetched)).samples) <= MAX_TOTAL_SAMPLE_BYTES
  {
    var fates := CrawlFates(ranges, fetched);
    BudgetExactly(selected, fates);
    if forall i :: 0 <= i < |selected| ==> AsLongAsAsked(ranges[i], fetched[i]) {
      forall i | 0 <= i < |selected| ensures !Overruns(selected, fates, i) {
        assert AsLongAsAsked(ranges[i], fetched[i]);
        var earlier := Collected(selected[..i], fates);
        if earlier.Sampled? && fates(i, Left(earlier.samples)).Keep? { KeptRangeFits(ranges[i], fetched[i], Left(earlier.samples)); }
      }
    }
  }

  // ---------- a crawl that runs over ----------

  /** A readable reply that brings as much more than asked as it may. */
  function Overlong(length: nat): Fetched {
    Fetched(Gateway.Answered(Gateway.Response(206, Gateway.Url("", "", ""), Retries.Absent, Gateway.NoLength, length + RANGE_SLACK)), true)
  }

  /** Nine ranges at the cap, and one of just what they leave. */
  function LengthAt(i: nat): nat { if i < 9 then PER_DOCUMENT_BYTE_CAP else 490_784 }

  function TenRanges(): seq<ByteRange> { seq(10, i requires 0 <= i < 10 => Bytes(LengthAt(i))) }

  function TenReplies(): seq<Fetched> { seq(10, i requires 0 <= i < 10 => Overlong(LengthAt(i))) }

  lemma {:induction false} FullRanges(urls: seq<string>, n: nat)
    requires |urls| == 10 && n <= 9
    ensures var sampled := Collected(urls[..n], CrawlFates(TenRanges(), TenReplies()));
            sampled.Sampled? && Total(sampled.samples) == n * (PER_DOCUMENT_BYTE_CAP + RANGE_SLACK)
  {
    if n > 0 {
      FullRanges(urls, n - 1);
      OverlongIsKept(urls, n - 1);
    }
  }

  lemma OverlongIsWorthIt(length: nat, left: int)
    requires length <= left && length <= PER_DOCUMENT_BYTE_CAP
    ensures CrawlFate(Bytes(length), Overlong(length), left) == Keep(length + RANGE_SLACK)
  {
  }

  lemma OverlongIsKept(urls: seq<string>, n: nat)
    requires |urls| == 10 && n < 10
    requires var sampled := Collected(urls[..n], CrawlFates(TenRanges(), TenReplies()));
             sampled.Sampled? && Left(sampled.samples) >= LengthAt(n)
    ensures var before, sampled := Collected(urls[..n], CrawlFates(TenRanges(), TenReplies())), Collected(urls[..n + 1], CrawlFates(TenRanges(), TenReplies()));
            sampled.Sampled? && Total(sampled.samples) == Total(before.samples) + LengthAt(n) + RANGE_SLACK
  {
    var fates := CrawlFates(TenRanges(), TenReplies());
    var samples := Collected(urls[..n], fates).samples;
    NextSample(urls, fates, n);
    OverlongIsWorthIt(LengthAt(n), Left(samples));
    assert TenRanges()[n] == Bytes(LengthAt(n)) && TenReplies()[n] == Overlong(LengthAt(n));
    TotalGrows(samples, Sample(urls[n], LengthAt(n) + RANGE_SLACK));
  }

  /** Whatever ten candidates of ten extensions an index holds, they are all selected, and there are ranges and
      replies for them whose samples reach the bound, so five million bytes alone is not one. */
  lemma CommonCrawlOverruns(extension: Extension, candidates: seq<string>)
    requires |candidates| == 10
    requires forall i, k :: 0 <= i < k < 10 ==> extension(candidates[i]) != extension(candidates[k])
    ensures Chosen(extension, candidates) == candidates
    ensures var sampled := Collected(candidates, CrawlFates(TenRanges(), TenReplies()));
            sampled.Sampled? && Total(sampled.samples) == MAX_TOTAL_SAMPLE_BYTES + RANGE_SLACK
  {
    AllDifferent(extension, candidates);
    FirstsBeforeCut(extension, candidates);
    FullRanges(candidates, 9);
    OverlongIsKept(candidates, 9);
    assert candidates[..10] == candidates;
  }

  lemma {:induction false} AllDifferent(extension: Extension, urls: seq<string>)
    requires |urls| <= DIVERSE_DOCS && forall i, k :: 0 <= i < k < |urls| ==> extension(urls[i]) != extension(urls[k])
    ensures Firsts(extension, urls) == urls && Cut(extension, urls) == |urls|
    ensures Chosen(extension, urls) == urls
  {
    if urls != [] {
      var n := |urls| - 1;
      AllDifferent(extension, urls[..n]);
      assert urls == urls[..n] + [urls[n]];
    }
  }

  /** Such candidates exist: pages of one site that differ in a one-letter extension. */
  const SITE := "https://example.org/p."

  function LastLetter(url: string): Option<string> {
    if url == "" then None else Some(url[|url| - 1..])
  }

  function TenDocuments(): seq<string> { seq(10, i requires 0 <= i < 10 => SITE + ["abcdefghij"[i]]) }

  lemma TenExtensionsExist()
    ensures Sorted(ByPriority(LastLetter), TenDocuments())
    ensures forall i, k :: 0 <= i < k < 10 ==> LastLetter(TenDocuments()[i]) != LastLetter(TenDocuments()[k])
  {
    var letters := "abcdefghij";
    forall i, k | 0 <= i < k < 10
      ensures LastLetter(TenDocuments()[i]) != LastLetter(TenDocuments()[k]) && ByPriority(LastLetter)(TenDocuments()[i], TenDocuments()[k])
    {
      assert letters[i] < letters[k];
      assert Less([letters[i]], [letters[k]]);
      LessAfter(SITE, [letters[i]], [letters[k]]);
    }
  }

  lemma {:induction false} LessAfter(p: string, a: string, b: string)
    requires Less(a, b)
    ensures Less(p + a, p + b)
  {
    if p == [] {
      assert p + a == a && p + b == b;
    } else {
      LessAfter(p[1..], a, b);
      assert (p + a)[1..] == p[1..] + a && (p + b)[1..] == p[1..] + b;
    }
  }
}
