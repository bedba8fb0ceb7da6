/** Technology inference: rules over evidence that other collectors left behind. */
module Technology {
  import opened Wrappers
  import opened Enums
  import opened Ordering
  import opened Rows
  import opened Diff

  /** What a rule looks for. */
  datatype Test =
    | NameserverHas(needle: string)
    | ExchangeHas(needles: seq<string>)
    | HeaderHas(header: string, needle: string)
    | BodyHas(needles: seq<string>)
    | GeneratorHas(needle: string)

  datatype Rule = Rule(id: string, technology: string, confidence: Confidence, test: Test)

  const NAMESERVER_RULES: seq<Rule> := [
    Rule("ns.cloudflare_dns", "Cloudflare (DNS/CDN)", Medium, NameserverHas("cloudflare.com")),
    Rule("ns.route53", "Amazon Route 53", Medium, NameserverHas("awsdns")),
    Rule("ns.godaddy_dns", "GoDaddy DNS", Medium, NameserverHas("domaincontrol.com")),
    Rule("ns.azure_dns", "Azure DNS", Medium, NameserverHas("azure-dns"))]

  const MX_RULES: seq<Rule> := [
    Rule("mx.google_workspace", "Google Workspace (Gmail)", Medium, ExchangeHas(["google.com", "googlemail.com"])),
    Rule("mx.microsoft_365", "Microsoft 365", Medium, ExchangeHas(["outlook.com", "protection.outlook.com"]))]

  const HEADER_RULES: seq<Rule> := [
    Rule("header.server_cloudflare", "Cloudflare", Medium, HeaderHas("server", "cloudflare")),
    Rule("header.server_nginx", "nginx", Low, HeaderHas("server", "nginx")),
    Rule("header.server_apache", "Apache HTTP Server", Low, HeaderHas("server", "apache")),
    Rule("header.server_gws", "Google Web Server", Low, HeaderHas("server", "gws")),
    Rule("header.powered_by_php", "PHP", Medium, HeaderHas("x-powered-by", "php")),
    Rule("header.powered_by_express", "Express (Node.js)", Medium, HeaderHas("x-powered-by", "express")),
    Rule("header.powered_by_aspnet", "ASP.NET", Medium, HeaderHas("x-powered-by", "asp.net"))]

  const BODY_RULES: seq<Rule> := [
    Rule("body.wordpress_paths", "WordPress", High, BodyHas(["wp-content/", "wp-includes/"])),
    Rule("body.shopify", "Shopify", High, BodyHas(["cdn.shopify.com", ".myshopify.com"])),
    Rule("body.wix", "Wix", High, BodyHas(["static.wixstatic.com"]))]

  const GENERATOR_RULE := Rule("body.generator_wordpress", "WordPress", High, GeneratorHas("wordpress"))

  datatype Rulebook = Rulebook(nameservers: seq<Rule>, mx: seq<Rule>, headers: seq<Rule>, body: seq<Rule>, generator: Rule)
  {
    function All(): seq<Rule> { nameservers + mx + headers + body + [generator] }

    /** The rules that read a signal of this kind, in order. */
    function For(signal: Signal): seq<Rule> {
      match signal
      case Nameservers(_) => nameservers
      case Exchanges(_) => mx
      case Sample(_, _) => headers + body + [generator]
      case Unread => []
    }

    /** Every table holds tests of its kind, and no two rules share an id. */
    ghost predicate Sound() {
      && (forall r :: 0 <= r < |nameservers| ==> nameservers[r].test.NameserverHas?)
      && (forall r :: 0 <= r < |mx| ==> mx[r].test.ExchangeHas?)
      && (forall r :: 0 <= r < |headers| ==> headers[r].test.HeaderHas?)
      && (forall r :: 0 <= r < |body| ==> body[r].test.BodyHas?)
      && generator.test.GeneratorHas?
      && forall i, k :: 0 <= i < k < |All()| ==> All()[i].id != All()[k].id
    }
  }

  const RULES := Rulebook(NAMESERVER_RULES, MX_RULES, HEADER_RULES, BODY_RULES, GENERATOR_RULE)

  lemma NamedApart(all: seq<Rule>)
    requires all == NAMESERVER_RULES + MX_RULES + HEADER_RULES + BODY_RULES + [GENERATOR_RULE]
    ensures forall i, k :: 0 <= i < k < |all| ==> all[i].id != all[k].id
  {
  }

  lemma TheRulesAreSound()
    ensures RULES.Sound()
  {
    NamedApart(RULES.All());
  }

  // ---------- when a rule fires ----------

  /** What a collector left: its kind decides which rules read it. */
  datatype Signal =
    | Nameservers(names: seq<string>)
    | Exchanges(names: seq<string>)
    | Sample(headers: seq<(string, string)>, body: string)
    | Unread

  datatype Source = Source(id: string, url: string, signal: Signal)

  datatype Explanation =
    | NameserverContained(needle: string)
    | ExchangerMatched
    | HeaderContained(header: string, needle: string)
    | HtmlReferenced(needle: string)
    | GeneratorDeclared(generator: string)

  /** How evidence is read: the rules, and the text functions of the language (lower case, the stripped content of the generator meta tag, the
      sentence that words an explanation. */
  datatype Reading = Reading(lower: string -> string, generator: string -> Option<string>, phrase: Explanation -> string, rules: Rulebook)

  predicate At(text: string, i: nat, needle: string) {
    i + |needle| <= |text| && text[i..i + |needle|] == needle
  }

  predicate Contains(text: string, needle: string) {
    exists i :: 0 <= i <= |text| && At(text, i, needle)
  }

  predicate ContainsAny(text: string, needles: seq<string>) {
    exists n :: 0 <= n < |needles| && Contains(text, needles[n])
  }

  function Lowered(reading: Reading, names: seq<string>): seq<string> {
    seq(|names|, i requires 0 <= i < |names| => reading.lower(names[i]))
  }

  /** Header names differing only in case are one header; the last one wins. */
  function HeaderMap(reading: Reading, headers: seq<(string, string)>): map<string, string> {
    if headers == [] then map[]
    else
      var last := headers[|headers| - 1];
      HeaderMap(reading, headers[..|headers| - 1])[reading.lower(last.0) := reading.lower(last.1)]
  }

  predicate Matches(reading: Reading, test: Test, signal: Signal) {
    match test
    case NameserverHas(needle) =>
      signal.Nameservers? && exists i :: 0 <= i < |signal.names| && Contains(reading.lower(signal.names[i]), needle)
    case ExchangeHas(needles) =>
      signal.Exchanges? && exists i :: 0 <= i < |signal.names| && ContainsAny(reading.lower(signal.names[i]), needles)
    case HeaderHas(header, needle) =>
      signal.Sample? && HeaderContains(HeaderMap(reading, signal.headers), header, needle)
    case BodyHas(needles) =>
      signal.Sample? && ContainsAny(reading.lower(signal.body), needles)
    case GeneratorHas(needle) =>
      signal.Sample? && reading.generator(signal.body).Some? && Contains(reading.lower(reading.generator(signal.body).value), needle)
  }

  predicate HeaderContains(headers: map<string, string>, header: string, needle: string) {
    header in headers && headers[header] != "" && Contains(headers[header], needle)
  }

  predicate Fires(reading: Reading, rule: Rule, source: Source) {
    Matches(reading, rule.test, source.signal)
  }

  function Explain(reading: Reading, test: Test, signal: Signal): Explanation {
    match test
    case NameserverHas(needle) => NameserverContained(needle)
    case ExchangeHas(_) => ExchangerMatched
    case HeaderHas(header, needle) => HeaderContained(header, needle)
    case BodyHas(needles) => HtmlReferenced(if needles == [] then "" else needles[0])
    case GeneratorHas(_) =>
      GeneratorDeclared(if signal.Sample? && reading.generator(signal.body).Some? then reading.generator(signal.body).value else "")
  }

  // ---------- the same, told from the text itself ----------

  /** The needle stands somewhere in the text. */
  ghost predicate Within(needle: string, text: string) {
    exists before: string, after: string :: text == before + needle + after
  }

  lemma ContainsMeaning(text: string, needle: string)
    ensures Contains(text, needle) <==> Within(needle, text)
  {
    if i :| 0 <= i <= |text| && At(text, i, needle) {
      assert text == text[..i] + needle + text[i + |needle|..];
    }
    if before: string, after: string :| text == before + needle + after {
      assert At(text, |before|, needle);
    }
  }

  /** The i-th header is the last of its name, which is compared in lower case. */
  predicate LastNamed(reading: Reading, headers: seq<(string, string)>, i: nat, name: string) {
    && i < |headers| && reading.lower(headers[i].0) == name
    && forall k :: i < k < |headers| ==> reading.lower(headers[k].0) != name
  }

  lemma OneMoreHeader(reading: Reading, front: seq<(string, string)>, last: (string, string), i: nat, name: string)
    requires i <= |front|
    ensures LastNamed(reading, front + [last], i, name)
            <==> if reading.lower(last.0) == name then i == |front| else i < |front| && LastNamed(reading, front, i, name)
  {
    var headers := front + [last];
    assert headers[|front|] == last && forall k :: 0 <= k < |front| ==> headers[k] == front[k];
  }

  /** A name is in the map exactly when some header has it, and its value is that of the last such header. */
  lemma {:induction false} HeaderMapMeaning(reading: Reading, headers: seq<(string, string)>, name: string)
    ensures name in HeaderMap(reading, headers) <==> exists i :: 0 <= i < |headers| && LastNamed(reading, headers, i, name)
    ensures forall i :: 0 <= i < |headers| && LastNamed(reading, headers, i, name) ==>
              name in HeaderMap(reading, headers) && HeaderMap(reading, headers)[name] == reading.lower(headers[i].1)
  {
    if headers != [] {
      var n := |headers| - 1;
      var front, last := headers[..n], headers[n];
      HeaderMapMeaning(reading, front, name);
      assert headers == front + [last];
      forall i | 0 <= i <= n
        ensures LastNamed(reading, headers, i, name)
                <==> if reading.lower(last.0) == name then i == n else i < n && LastNamed(reading, front, i, name)
      {
        OneMoreHeader(reading, front, last, i, name);
      }
      if reading.lower(last.0) == name { assert LastNamed(reading, headers, n, name); }
    }
  }

  /** When a rule fires on a finding: a lower-cased name server, mail exchanger, body or generator contains a
      needle; or the last header of the rule's name has a value, and its lower case contains the needle. */
  lemma FiresExactly(reading: Reading, rule: Rule, source: Source)
    ensures Fires(reading, rule, source) <==>
              match (rule.test, source.signal)
              case (NameserverHas(needle), Nameservers(names)) => exists i :: 0 <= i < |names| && Within(needle, reading.lower(names[i]))
              case (ExchangeHas(needles), Exchanges(names)) =>
                exists i, n :: 0 <= i < |names| && 0 <= n < |needles| && Within(needles[n], reading.lower(names[i]))
              case (HeaderHas(header, needle), Sample(headers, _)) =>
                exists i :: 0 <= i < |headers| && LastNamed(reading, headers, i, header)
                            && reading.lower(headers[i].1) != "" && Within(needle, reading.lower(headers[i].1))
              case (BodyHas(needles), Sample(_, body)) => exists n :: 0 <= n < |needles| && Within(needles[n], reading.lower(body))
              case (GeneratorHas(needle), Sample(_, body)) =>
                reading.generator(body).Some? && Within(needle, reading.lower(reading.generator(body).value))
              case _ => false
  {
    forall text, needle ensures Contains(text, needle) <==> Within(needle, text) { ContainsMeaning(text, needle); }
    match (rule.test, source.signal)
    case (HeaderHas(header, _), Sample(headers, _)) => HeaderMapMeaning(reading, headers, header);
    case _ =>
  }

  // ---------- the detections ----------

  datatype Firing = Firing(rule: Rule, source: Source)

  datatype Detection = Detection(confidence: Confidence, explanation: Explanation, supporters: set<string>, url: string)

  function KeyOf(rule: Rule): (string, string) { (rule.id, rule.technology) }

  function FirstFor(firings: seq<Firing>, key: (string, string)): Option<Firing> {
    if firings == [] then None
    else
      var last := firings[|firings| - 1];
      var earlier := FirstFor(firings[..|firings| - 1], key);
      if earlier.Some? then earlier else if KeyOf(last.rule) == key then Some(last) else None
  }

  function Supporters(firings: seq<Firing>, key: (string, string)): set<string> {
    set f | f in firings && KeyOf(f.rule) == key :: f.source.id
  }

  /** One detection per key that fired: worded by the first firing, supported by all of them. */
  ghost predicate Tabulates(reading: Reading, table: map<(string, string), Detection>, firings: seq<Firing>) {
    forall key ::
      && (key in table <==> FirstFor(firings, key).Some?)
      && (key in table ==> table[key] == Summarized(reading, FirstFor(firings, key).value, Supporters(firings, key)))
  }

  function Summarized(reading: Reading, first: Firing, supporters: set<string>): Detection {
    Detection(first.rule.confidence, Explain(reading, first.rule.test, first.source.signal), supporters, first.source.url)
  }

  /** The firings of one source against a list of rules, in rule order. */
  function FiringsOf(reading: Reading, rules: seq<Rule>, source: Source): seq<Firing> {
    if rules == [] then []
    else
      var last := rules[|rules| - 1];
      FiringsOf(reading, rules[..|rules| - 1], source) + (if Fires(reading, last, source) then [Firing(last, source)] else [])
  }

  function AllFirings(reading: Reading, sources: seq<Source>): seq<Firing> {
    if sources == [] then []
    else
      var last := sources[|sources| - 1];
      AllFirings(reading, sources[..|sources| - 1]) + FiringsOf(reading, reading.rules.For(last.signal), last)
  }

  lemma MergeTabulates(reading: Reading, table: map<(string, string), Detection>, firings: seq<Firing>, f: Firing, next: map<(string, string), Detection>)
    requires Tabulates(reading, table, firings)
    requires var key := KeyOf(f.rule);
             next == if key in table then table[key := table[key].(supporters := table[key].supporters + {f.source.id})]
                     else table[key := Summarized(reading, f, {f.source.id})]
    ensures Tabulates(reading, next, firings + [f])
  {
    var longer := firings + [f];
    assert longer[..|longer| - 1] == firings;
    forall key
      ensures key in next <==> FirstFor(longer, key).Some?
      ensures key in next ==> next[key] == Summarized(reading, FirstFor(longer, key).value, Supporters(longer, key))
    {
      assert key in table <==> FirstFor(firings, key).Some?;
      assert Supporters(longer, key) == Supporters(firings, key) + (if KeyOf(f.rule) == key then {f.source.id} else {});
      if key !in table { NoSupporters(firings, key); }
    }
  }

  lemma {:induction false} NoSupporters(firings: seq<Firing>, key: (string, string))
    requires FirstFor(firings, key).None?
    ensures Supporters(firings, key) == {}
  {
    if firings != [] {
      NoSupporters(firings[..|firings| - 1], key);
      assert firings == firings[..|firings| - 1] + [firings[|firings| - 1]];
    }
  }

  class Detections {
    const reading: Reading
    var table: map<(string, string), Detection>
    ghost var firings: seq<Firing>

    ghost predicate Valid()
      reads this
    {
      Tabulates(reading, table, firings)
    }

    constructor (reading: Reading)
      ensures Valid() && this.reading == reading && firings == []
    {
      this.reading := reading;
      table := map[];
      firings := [];
    }

    method Merge(rule: Rule, source: Source)
      requires Valid()
      modifies this
      ensures Valid() && firings == old(firings) + [Firing(rule, source)]
    {
      var key := KeyOf(rule);
      ghost var before := table;
      if key !in table {
        table := table[key := Detection(rule.confidence, Explain(reading, rule.test, source.signal), {source.id}, source.url)];
      } else {
        var existing := table[key];
        table := table[key := existing.(supporters := existing.supporters + {source.id})];
      }
      MergeTabulates(reading, before, firings, Firing(rule, source), table);
      firings := firings + [Firing(rule, source)];
    }

    method RulesFromNameservers(rules: seq<Rule>, source: Source)
      requires Valid() && source.signal.Nameservers? && forall r :: 0 <= r < |rules| ==> rules[r].test.NameserverHas?
      modifies this
      ensures Valid() && firings == old(firings) + FiringsOf(reading, rules, source)
    {
      var nameservers := Lowered(reading, source.signal.names);
      for r := 0 to |rules|
        invariant Valid() && firings == old(firings) + FiringsOf(reading, rules[..r], source)
      {
        var rule := rules[r];
        NextRule(reading, rules, r, source);
        NameserverFires(reading, rule, source, nameservers);
        if exists i :: 0 <= i < |nameservers| && Contains(nameservers[i], rule.test.needle) { Merge(rule, source); }
      }
      assert rules[..|rules|] == rules;
    }

    method RulesFromMx(rules: seq<Rule>, source: Source)
      requires Valid() && source.signal.Exchanges? && forall r :: 0 <= r < |rules| ==> rules[r].test.ExchangeHas?
      modifies this
      ensures Valid() && firings == old(firings) + FiringsOf(reading, rules, source)
    {
      var exchanges := Lowered(reading, source.signal.names);
      for r := 0 to |rules|
        invariant Valid() && firings == old(firings) + FiringsOf(reading, rules[..r], source)
      {
        var rule := rules[r];
        NextRule(reading, rules, r, source);
        ExchangeFires(reading, rule, source, exchanges);
        if exists i :: 0 <= i < |exchanges| && ContainsAny(exchanges[i], rule.test.needles) { Merge(rule, source); }
      }
      assert rules[..|rules|] == rules;
    }

    method RulesFromHeaders(rules: seq<Rule>, source: Source)
      requires Valid() && source.signal.Sample? && forall r :: 0 <= r < |rules| ==> rules[r].test.HeaderHas?
      modifies this
      ensures Valid() && firings == old(firings) + FiringsOf(reading, rules, source)
    {
      var headers := HeaderMap(reading, source.signal.headers);
      for r := 0 to |rules|
        invariant Valid() && firings == old(firings) + FiringsOf(reading, rules[..r], source)
      {
        var rule := rules[r];
        NextRule(reading, rules, r, source);
        if HeaderContains(headers, rule.test.header, rule.test.needle) { Merge(rule, source); }
      }
      assert rules[..|rules|] == rules;
    }

    method RulesFromBody(rules: seq<Rule>, source: Source)
      requires Valid() && source.signal.Sample? && forall r :: 0 <= r < |rules| ==> rules[r].test.BodyHas?
      modifies this
      ensures Valid() && firings == old(firings) + FiringsOf(reading, rules, source)
    {
      var body := reading.lower(source.signal.body);
      for r := 0 to |rules|
        invariant Valid() && firings == old(firings) + FiringsOf(reading, rules[..r], source)
      {
        var rule := rules[r];
        NextRule(reading, rules, r, source);
        if ContainsAny(body, rule.test.needles) { Merge(rule, source); }
      }
      assert rules[..|rules|] == rules;
    }

    method RulesFromGenerator(source: Source)
      requires Valid() && source.signal.Sample? && reading.rules.generator.test.GeneratorHas?
      modifies this
      ensures Valid() && firings == old(firings) + GeneratorFirings(reading, source)
    {
      var rule := reading.rules.generator;
      var generator := reading.generator(source.signal.body);
      if generator.Some? && Contains(reading.lower(generator.value), rule.test.needle) { Merge(rule, source); }
    }

    method RulesFromArchivedSample(source: Source)
      requires Valid() && reading.rules.Sound() && source.signal.Sample?
      modifies this
      ensures Valid() && firings == old(firings) + FiringsOf(reading, reading.rules.For(source.signal), source)
    {
      SampleFirings(reading, source, firings);
      RulesFromHeaders(reading.rules.headers, source);
      RulesFromBody(reading.rules.body, source);
      RulesFromGenerator(source);
    }

    method RulesFrom(source: Source)
      requires Valid() && reading.rules.Sound()
      modifies this
      ensures Valid() && firings == old(firings) + FiringsOf(reading, reading.rules.For(source.signal), source)
    {
      match source.signal {
        case Nameservers(_) => RulesFromNameservers(reading.rules.nameservers, source);
        case Exchanges(_) => RulesFromMx(reading.rules.mx, source);
        case Sample(_, _) => RulesFromArchivedSample(source);
        case Unread =>
      }
    }
  }

  function GeneratorFirings(reading: Reading, source: Source): seq<Firing> {
    if Fires(reading, reading.rules.generator, source) then [Firing(reading.rules.generator, source)] else []
  }

  lemma NameserverFires(reading: Reading, rule: Rule, source: Source, lowered: seq<string>)
    requires rule.test.NameserverHas? && source.signal.Nameservers? && lowered == Lowered(reading, source.signal.names)
    ensures Fires(reading, rule, source) <==> exists i :: 0 <= i < |lowered| && Contains(lowered[i], rule.test.needle)
  {
    assert forall i :: 0 <= i < |lowered| ==> lowered[i] == reading.lower(source.signal.names[i]);
    if i :| 0 <= i < |lowered| && Contains(lowered[i], rule.test.needle) {
      assert Contains(reading.lower(source.signal.names[i]), rule.test.needle);
    }
  }

  lemma ExchangeFires(reading: Reading, rule: Rule, source: Source, lowered: seq<string>)
    requires rule.test.ExchangeHas? && source.signal.Exchanges? && lowered == Lowered(reading, source.signal.names)
    ensures Fires(reading, rule, source) <==> exists i :: 0 <= i < |lowered| && ContainsAny(lowered[i], rule.test.needles)
  {
    assert forall i :: 0 <= i < |lowered| ==> lowered[i] == reading.lower(source.signal.names[i]);
    if i :| 0 <= i < |lowered| && ContainsAny(lowered[i], rule.test.needles) {
      assert ContainsAny(reading.lower(source.signal.names[i]), rule.test.needles);
    }
  }

  lemma NextRule(reading: Reading, rules: seq<Rule>, r: nat, source: Source)
    requires r < |rules|
    ensures FiringsOf(reading, rules[..r + 1], source)
            == FiringsOf(reading, rules[..r], source) + if Fires(reading, rules[r], source) then [Firing(rules[r], source)] else []
  {
    assert rules[..r + 1][..r] == rules[..r];
  }

  lemma {:induction false} FiringsConcat(reading: Reading, a: seq<Rule>, b: seq<Rule>, source: Source)
    ensures FiringsOf(reading, a + b, source) == FiringsOf(reading, a, source) + FiringsOf(reading, b, source)
  {
    if b == [] {
      assert a + b == a;
    } else {
      FiringsConcat(reading, a, b[..|b| - 1], source);
      assert (a + b)[..|a + b| - 1] == a + b[..|b| - 1];
    }
  }

  lemma SampleFirings(reading: Reading, source: Source, earlier: seq<Firing>)
    requires source.signal.Sample?
    ensures earlier + FiringsOf(reading, reading.rules.For(source.signal), source)
            == ((earlier + FiringsOf(reading, reading.rules.headers, source)) + FiringsOf(reading, reading.rules.body, source))
               + GeneratorFirings(reading, source)
  {
    var generator := [reading.rules.generator];
    FiringsConcat(reading, reading.rules.headers, reading.rules.body, source);
    FiringsConcat(reading, reading.rules.headers + reading.rules.body, generator, source);
    NextRule(reading, generator, 0, source);
    assert generator[..1] == generator;
  }

  // ---------- the run ----------

  /** The digest of a fingerprint is taken to be injective, so the fingerprint is what it digests. */
  datatype Fingerprint = Fingerprint(target: string, ruleId: string, technology: string)

  datatype Value = Value(ruleId: string, technology: string, confidence: Confidence)

  datatype Inference = Inference(
    fingerprint: Fingerprint,
    summary: string,
    value: Value,
    supporting: seq<string>,
    url: string)

  function ResultFor(reading: Reading, target: string, key: (string, string), detection: Detection, supporting: seq<string>): Inference {
    Inference(Fingerprint(target, key.0, key.1), reading.phrase(detection.explanation), Value(key.0, key.1, detection.confidence),
              supporting, detection.url)
  }

  function Keys(results: seq<Inference>): seq<(string, string)> {
    seq(|results|, i requires 0 <= i < |results| => (results[i].value.ruleId, results[i].value.technology))
  }

  method Collect(reading: Reading, sources: seq<Source>) returns (table: map<(string, string), Detection>)
    requires reading.rules.Sound()
    ensures Tabulates(reading, table, AllFirings(reading, sources))
  {
    var detections := new Detections(reading);
    for i := 0 to |sources|
      invariant detections.Valid() && detections.reading == reading && fresh(detections)
      invariant detections.firings == AllFirings(reading, sources[..i])
    {
      assert sources[..i + 1][..i] == sources[..i];
      detections.RulesFrom(sources[i]);
    }
    assert sources[..|sources|] == sources;
    table := detections.table;
  }

  method Report(reading: Reading, target: string, table: map<(string, string), Detection>) returns (results: seq<Inference>)
    ensures Sorted(ByPair(), Keys(results)) && Lists(Keys(results), table.Keys)
    ensures forall i :: 0 <= i < |results| ==> Reports(reading, target, table, results[i])
  {
    PairsAreOrdered();
    TextIsOrdered();
    var keys := Sort(table.Keys, ByPair());
    results := [];
    for i := 0 to |keys|
      invariant Keys(results) == keys[..i]
      invariant forall k :: 0 <= k < |results| ==> Reports(reading, target, table, results[k])
    {
      assert keys[i] in table;
      var supporting := Sort(table[keys[i]].supporters, ByText());
      results := results + [ResultFor(reading, target, keys[i], table[keys[i]], supporting)];
    }
    assert keys[..|keys|] == keys;
  }

  ghost predicate Reports(reading: Reading, target: string, table: map<(string, string), Detection>, r: Inference) {
    var key := (r.value.ruleId, r.value.technology);
    && key in table
    && r == ResultFor(reading, target, key, table[key], r.supporting)
    && Sorted(ByText(), r.supporting) && Lists(r.supporting, table[key].supporters)
  }

  /** The result of a rule that fired: worded by the first source that fires it, supported by every one. */
  ghost predicate Follows(reading: Reading, target: string, sources: seq<Source>, r: Inference, rule: Rule, first: nat) {
    && rule in reading.rules.All() && first < |sources|
    && FirstSource(reading, rule, sources, first)
    && r.fingerprint == Fingerprint(target, rule.id, rule.technology)
    && r.value == Value(rule.id, rule.technology, rule.confidence)
    && r.summary == reading.phrase(
         match rule.test
         case NameserverHas(needle) => NameserverContained(needle)
         case ExchangeHas(_) => ExchangerMatched
         case HeaderHas(header, needle) => HeaderContained(header, needle)
         case BodyHas(needles) => HtmlReferenced(if needles == [] then "" else needles[0])
         case GeneratorHas(_) =>
           GeneratorDeclared(if sources[first].signal.Sample? && reading.generator(sources[first].signal.body).Some?
                             then reading.generator(sources[first].signal.body).value else ""))
    && r.url == sources[first].url
    && Sorted(ByText(), r.supporting) && Lists(r.supporting, SupportersOf(reading, rule, sources))
  }

  ghost predicate FirstSource(reading: Reading, rule: Rule, sources: seq<Source>, first: nat) {
    && first < |sources| && Fires(reading, rule, sources[first])
    && forall i :: 0 <= i < first ==> !Fires(reading, rule, sources[i])
  }

  function SupportersOf(reading: Reading, rule: Rule, sources: seq<Source>): set<string> {
    set s | s in sources && Fires(reading, rule, s) :: s.id
  }

  predicate FiredBy(reading: Reading, rule: Rule, sources: seq<Source>) {
    exists s :: s in sources && Fires(reading, rule, s)
  }

  /** One result per rule that some source fires, in the order of their keys. */
  ghost predicate Infers(reading: Reading, target: string, sources: seq<Source>, results: seq<Inference>) {
    && Sorted(ByPair(), Keys(results))
    && (forall rule :: rule in reading.rules.All() ==> (KeyOf(rule) in Keys(results) <==> FiredBy(reading, rule, sources)))
    && (forall i :: 0 <= i < |results| ==> Justified(reading, target, sources, results[i]))
  }

  ghost predicate Justified(reading: Reading, target: string, sources: seq<Source>, r: Inference) {
    exists rule: Rule, first: nat :: Follows(reading, target, sources, r, rule, first)
  }

  method Run(reading: Reading, target: string, sources: seq<Source>) returns (results: seq<Inference>)
    requires reading.rules.Sound()
    ensures Infers(reading, target, sources, results)
    ensures forall i, k :: 0 <= i < k < |results| ==>
              || Less(results[i].value.ruleId, results[k].value.ruleId)
              || (results[i].value.ruleId == results[k].value.ruleId && Less(results[i].value.technology, results[k].value.technology))
  {
    var table := Collect(reading, sources);
    results := Report(reading, target, table);
    ReportInfers(reading, target, sources, table, results);
    KeysInOrder(results);
  }

  lemma KeysInOrder(results: seq<Inference>)
    requires Sorted(ByPair(), Keys(results))
    ensures forall i, k :: 0 <= i < k < |results| ==>
              || Less(results[i].value.ruleId, results[k].value.ruleId)
              || (results[i].value.ruleId == results[k].value.ruleId && Less(results[i].value.technology, results[k].value.technology))
  {
    forall i, k | 0 <= i < k < |results|
      ensures || Less(results[i].value.ruleId, results[k].value.ruleId)
              || (results[i].value.ruleId == results[k].value.ruleId && Less(results[i].value.technology, results[k].value.technology))
    {
      assert ByPair()(Keys(results)[i], Keys(results)[k]);
    }
  }

  // ---------- the run against its meaning ----------

  lemma SameKeySameRule(rules: Rulebook, a: Rule, b: Rule)
    requires rules.Sound() && a in rules.All() && b in rules.All() && KeyOf(a) == KeyOf(b)
    ensures a == b
  {
  }

  /** Only the rules for a signal's kind can fire on it. */
  lemma OnlyItsRules(reading: Reading, rule: Rule, source: Source)
    requires reading.rules.Sound() && rule in reading.rules.All() && Fires(reading, rule, source)
    ensures rule in reading.rules.For(source.signal)
  {
  }

  lemma {:induction false} FiringsOfMembers(reading: Reading, rules: seq<Rule>, source: Source, f: Firing)
    ensures f in FiringsOf(reading, rules, source) <==> f.source == source && f.rule in rules && Fires(reading, f.rule, source)
  {
    if rules != [] {
      var front := rules[..|rules| - 1];
      FiringsOfMembers(reading, front, source, f);
      assert rules == front + [rules[|rules| - 1]];
    }
  }

  lemma {:induction false} AllFiringsMembers(reading: Reading, sources: seq<Source>, f: Firing)
    requires reading.rules.Sound()
    ensures f in AllFirings(reading, sources) <==> f.source in sources && f.rule in reading.rules.All() && Fires(reading, f.rule, f.source)
  {
    if sources != [] {
      var front, last := sources[..|sources| - 1], sources[|sources| - 1];
      AllFiringsMembers(reading, front, f);
      assert sources == front + [last];
      FiringsOfMembers(reading, reading.rules.For(last.signal), last, f);
      if f.source == last && f.rule in reading.rules.All() && Fires(reading, f.rule, last) { OnlyItsRules(reading, f.rule, last); }
    }
  }

  lemma {:induction false} FirstForConcat(a: seq<Firing>, b: seq<Firing>, key: (string, string))
    ensures FirstFor(a + b, key) == if FirstFor(a, key).Some? then FirstFor(a, key) else FirstFor(b, key)
  {
    if b == [] {
      assert a + b == a;
    } else {
      FirstForConcat(a, b[..|b| - 1], key);
      assert (a + b)[..|a + b| - 1] == a + b[..|b| - 1];
    }
  }

  lemma {:induction false} FirstForListed(firings: seq<Firing>, key: (string, string))
    ensures FirstFor(firings, key).Some? ==> FirstFor(firings, key).value in firings && KeyOf(FirstFor(firings, key).value.rule) == key
    ensures FirstFor(firings, key).None? ==> forall f :: f in firings ==> KeyOf(f.rule) != key
  {
    if firings != [] {
      var front := firings[..|firings| - 1];
      FirstForListed(front, key);
      assert firings == front + [firings[|firings| - 1]];
    }
  }

  /** The first firing of a rule comes from the first source that fires it. */
  lemma {:induction false} FirstFiring(reading: Reading, sources: seq<Source>, rule: Rule, first: nat)
    requires reading.rules.Sound()
    requires rule in reading.rules.All() && FirstSource(reading, rule, sources, first)
    ensures FirstFor(AllFirings(reading, sources), KeyOf(rule)) == Some(Firing(rule, sources[first]))
  {
    var front, last := sources[..|sources| - 1], sources[|sources| - 1];
    var mine := FiringsOf(reading, reading.rules.For(last.signal), last);
    FirstForConcat(AllFirings(reading, front), mine, KeyOf(rule));
    if first < |front| {
      FirstFiring(reading, front, rule, first);
    } else {
      NotYetFired(reading, front, rule);
      FiringsOfMembers(reading, reading.rules.For(last.signal), last, Firing(rule, last));
      OnlyItsRules(reading, rule, last);
      FirstForListed(mine, KeyOf(rule));
      var f := FirstFor(mine, KeyOf(rule)).value;
      FiringsOfMembers(reading, reading.rules.For(last.signal), last, f);
      SameKeySameRule(reading.rules, f.rule, rule);
    }
  }

  lemma NotYetFired(reading: Reading, sources: seq<Source>, rule: Rule)
    requires reading.rules.Sound()
    requires rule in reading.rules.All() && forall i :: 0 <= i < |sources| ==> !Fires(reading, rule, sources[i])
    ensures FirstFor(AllFirings(reading, sources), KeyOf(rule)).None?
  {
    FirstForListed(AllFirings(reading, sources), KeyOf(rule));
    if FirstFor(AllFirings(reading, sources), KeyOf(rule)).Some? {
      var f := FirstFor(AllFirings(reading, sources), KeyOf(rule)).value;
      AllFiringsMembers(reading, sources, f);
      SameKeySameRule(reading.rules, f.rule, rule);
      assert false;
    }
  }

  lemma SupportersMeaning(reading: Reading, sources: seq<Source>, rule: Rule)
    requires reading.rules.Sound()
    requires rule in reading.rules.All()
    ensures Supporters(AllFirings(reading, sources), KeyOf(rule)) == SupportersOf(reading, rule, sources)
  {
    var firings := AllFirings(reading, sources);
    forall f | f in firings && KeyOf(f.rule) == KeyOf(rule) ensures f.source in sources && Fires(reading, rule, f.source) {
      AllFiringsMembers(reading, sources, f);
      SameKeySameRule(reading.rules, f.rule, rule);
    }
    forall s | s in sources && Fires(reading, rule, s) ensures s.id in Supporters(firings, KeyOf(rule)) {
      AllFiringsMembers(reading, sources, Firing(rule, s));
      assert Firing(rule, s) in firings;
    }
  }

  lemma {:induction false} HasFirst(reading: Reading, rule: Rule, sources: seq<Source>) returns (first: nat)
    requires FiredBy(reading, rule, sources)
    ensures FirstSource(reading, rule, sources, first)
  {
    first := 0;
    while !Fires(reading, rule, sources[first])
      invariant first < |sources| && forall i :: 0 <= i < first ==> !Fires(reading, rule, sources[i])
      decreases |sources| - first
    {
      var s :| s in sources && Fires(reading, rule, s);
      first := first + 1;
    }
  }

  lemma KeyFired(reading: Reading, sources: seq<Source>, rule: Rule)
    requires reading.rules.Sound()
    requires rule in reading.rules.All()
    ensures FirstFor(AllFirings(reading, sources), KeyOf(rule)).Some? <==> FiredBy(reading, rule, sources)
  {
    if FiredBy(reading, rule, sources) {
      var first := HasFirst(reading, rule, sources);
      FirstFiring(reading, sources, rule, first);
    } else {
      NotYetFired(reading, sources, rule);
    }
  }

  lemma ReportInfers(reading: Reading, target: string, sources: seq<Source>, table: map<(string, string), Detection>, results: seq<Inference>)
    requires reading.rules.Sound()
    requires Tabulates(reading, table, AllFirings(reading, sources))
    requires Sorted(ByPair(), Keys(results)) && Lists(Keys(results), table.Keys)
    requires forall i :: 0 <= i < |results| ==> Reports(reading, target, table, results[i])
    ensures Infers(reading, target, sources, results)
  {
    forall rule | rule in reading.rules.All() ensures KeyOf(rule) in Keys(results) <==> FiredBy(reading, rule, sources) {
      KeyFired(reading, sources, rule);
    }
    forall i | 0 <= i < |results| ensures Justified(reading, target, sources, results[i]) {
      assert Reports(reading, target, table, results[i]);
      ReportFollows(reading, target, sources, table, results[i]);
    }
  }

  lemma ReportFollows(reading: Reading, target: string, sources: seq<Source>, table: map<(string, string), Detection>, r: Inference)
    requires reading.rules.Sound()
    requires Tabulates(reading, table, AllFirings(reading, sources)) && Reports(reading, target, table, r)
    ensures Justified(reading, target, sources, r)
  {
    var key := (r.value.ruleId, r.value.technology);
    var firings := AllFirings(reading, sources);
    assert FirstFor(firings, key).Some?;
    FirstForListed(firings, key);
    var f := FirstFor(firings, key).value;
    AllFiringsMembers(reading, sources, f);
    var first := HasFirst(reading, f.rule, sources);
    FirstFiring(reading, sources, f.rule, first);
    SupportersMeaning(reading, sources, f.rule);
    assert Follows(reading, target, sources, r, f.rule, first);
  }

  // ---------- a rerun over the same evidence ----------

  /** The same signals, whatever their order, their number of copies, their row ids and their URLs. */
  function Signals(sources: seq<Source>): set<Signal> {
    set s | s in sources :: s.signal
  }

  predicate SameSignals(a: seq<Source>, b: seq<Source>) {
    Signals(a) == Signals(b)
  }

  lemma FiredBySignal(reading: Reading, rule: Rule, sources: seq<Source>)
    ensures FiredBy(reading, rule, sources) <==> exists g :: g in Signals(sources) && Matches(reading, rule.test, g)
  {
    if s :| s in sources && Fires(reading, rule, s) { assert s.signal in Signals(sources); }
    if g :| g in Signals(sources) && Matches(reading, rule.test, g) {
      var s :| s in sources && s.signal == g;
      assert Fires(reading, rule, s);
    }
  }

  lemma SameSignalsFire(reading: Reading, rule: Rule, a: seq<Source>, b: seq<Source>)
    requires SameSignals(a, b)
    ensures FiredBy(reading, rule, a) <==> FiredBy(reading, rule, b)
  {
    FiredBySignal(reading, rule, a);
    FiredBySignal(reading, rule, b);
  }

  lemma KeysFollow(reading: Reading, target: string, a: seq<Source>, b: seq<Source>, first: seq<Inference>, second: seq<Inference>, key: (string, string))
    requires reading.rules.Sound()
    requires SameSignals(a, b) && Infers(reading, target, a, first) && Infers(reading, target, b, second)
    requires key in Keys(first)
    ensures key in Keys(second)
  {
    var i :| 0 <= i < |first| && Keys(first)[i] == key;
    assert Justified(reading, target, a, first[i]);
    var rule: Rule, at: nat :| Follows(reading, target, a, first[i], rule, at);
    SameSignalsFire(reading, rule, a, b);
    assert KeyOf(rule) == key;
  }

  /** Two runs over the same signals give the same fingerprints and the same normalized values, in the same order. */
  lemma InferenceIsStable(reading: Reading, target: string, a: seq<Source>, b: seq<Source>, first: seq<Inference>, second: seq<Inference>)
    requires reading.rules.Sound()
    requires SameSignals(a, b) && Infers(reading, target, a, first) && Infers(reading, target, b, second)
    ensures |first| == |second|
    ensures forall i :: 0 <= i < |first| ==> first[i].fingerprint == second[i].fingerprint && first[i].value == second[i].value
  {
    PairsAreOrdered();
    forall key ensures key in Keys(first) <==> key in Keys(second) {
      if key in Keys(first) { KeysFollow(reading, target, a, b, first, second, key); }
      if key in Keys(second) { KeysFollow(reading, target, b, a, second, first, key); }
    }
    SortedIsUnique(ByPair(), Keys(first), Keys(second));
    assert |Keys(first)| == |first| && |Keys(second)| == |second|;
    forall i | 0 <= i < |first| ensures first[i].fingerprint == second[i].fingerprint && first[i].value == second[i].value {
      assert Justified(reading, target, a, first[i]) && Justified(reading, target, b, second[i]);
      var rule: Rule, at: nat :| Follows(reading, target, a, first[i], rule, at);
      var other: Rule, there: nat :| Follows(reading, target, b, second[i], other, there);
      assert Keys(first)[i] == Keys(second)[i];
      SameKeySameRule(reading.rules, rule, other);
    }
  }

  /** When the very same findings come in another order or in more copies, the supporting ids agree as well. */
  lemma SupportIsOrderFree(reading: Reading, target: string, a: seq<Source>, b: seq<Source>, first: seq<Inference>, second: seq<Inference>, i: nat)
    requires reading.rules.Sound()
    requires forall s :: s in a <==> s in b
    requires Infers(reading, target, a, first) && Infers(reading, target, b, second) && i < |first|
    ensures i < |second| && first[i].supporting == second[i].supporting
  {
    assert SameSignals(a, b);
    InferenceIsStable(reading, target, a, b, first, second);
    assert Justified(reading, target, a, first[i]) && Justified(reading, target, b, second[i]);
    var rule: Rule, at: nat :| Follows(reading, target, a, first[i], rule, at);
    var other: Rule, there: nat :| Follows(reading, target, b, second[i], other, there);
    SameKeySameRule(reading.rules, rule, other);
    assert SupportersOf(reading, rule, a) == SupportersOf(reading, rule, b);
    TextIsOrdered();
    SortedIsUnique(ByText(), first[i].supporting, second[i].supporting);
  }

  function AsEvidence(r: Inference): Evidence<Fingerprint, Value> {
    Evidence(r.fingerprint, "technology", "tech.inference", r.value.technology, r.summary, r.value)
  }

  function Persisted(results: seq<Inference>): seq<Evidence<Fingerprint, Value>> {
    seq(|results|, i requires 0 <= i < |results| => AsEvidence(results[i]))
  }

  predicate Alike<F(==), V(==)>(a: seq<Evidence<F, V>>, b: seq<Evidence<F, V>>) {
    |a| == |b| && forall i :: 0 <= i < |a| ==> a[i].fingerprint == b[i].fingerprint && a[i].value == b[i].value
  }

  lemma {:induction false} AlikeByFingerprint<F, V>(a: seq<Evidence<F, V>>, b: seq<Evidence<F, V>>)
    requires Alike(a, b)
    ensures ByFingerprint(a).Keys == ByFingerprint(b).Keys
    ensures forall fp :: fp in ByFingerprint(a) ==> ByFingerprint(a)[fp].value == ByFingerprint(b)[fp].value
  {
    if a != [] { AlikeByFingerprint(a[..|a| - 1], b[..|b| - 1]); }
  }

  lemma AlikeRowsDifferInNothing<F, V>(a: seq<Evidence<F, V>>, b: seq<Evidence<F, V>>,
                                       oldStatuses: map<string, CollectorStatus>, newStatuses: map<string, CollectorStatus>, d: DiffResult<F, V>)
    requires Alike(a, b)
    requires IsDiff(ByFingerprint(a), ByFingerprint(b), oldStatuses, newStatuses, d)
    ensures d.added == [] && d.removed == [] && d.changed == [] && d.indeterminate == []
  {
    AlikeByFingerprint(a, b);
    NothingDiffers(ByFingerprint(a), ByFingerprint(b), oldStatuses, newStatuses, d);
  }

  lemma PersistedAlike(reading: Reading, target: string, a: seq<Source>, b: seq<Source>, first: seq<Inference>, second: seq<Inference>)
    requires reading.rules.Sound()
    requires SameSignals(a, b) && Infers(reading, target, a, first) && Infers(reading, target, b, second)
    ensures Alike(Persisted(first), Persisted(second))
  {
    InferenceIsStable(reading, target, a, b, first, second);
  }

  /** So the diff of the two runs reports nothing, however the collectors fared. */
  lemma RerunShowsNoDifference(reading: Reading, target: string, a: seq<Source>, b: seq<Source>, first: seq<Inference>, second: seq<Inference>,
                               oldStatuses: map<string, CollectorStatus>, newStatuses: map<string, CollectorStatus>,
                               d: DiffResult<Fingerprint, Value>)
    requires reading.rules.Sound()
    requires SameSignals(a, b) && Infers(reading, target, a, first) && Infers(reading, target, b, second)
    requires IsDiff(ByFingerprint(Persisted(first)), ByFingerprint(Persisted(second)), oldStatuses, newStatuses, d)
    ensures d.added == [] && d.removed == [] && d.changed == [] && d.indeterminate == []
  {
    PersistedAlike(reading, target, a, b, first, second);
    AlikeRowsDifferInNothing(Persisted(first), Persisted(second), oldStatuses, newStatuses, d);
  }
}
