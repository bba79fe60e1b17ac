/** The candidates a rule catalogue finds in a text: every rule and span once, in an order that does
    not depend on the order of the catalogue. */
module Detection {
  import opened Wrappers
  import opened Normalization
  import opened Candidates

  /** What the detector is configured with: case folding, and the catalogue's version. */
  datatype Setup = Setup(fold: string -> string, version: string)

  function Make(setup: Setup, text: NormalizedText, rule: Rule, span: Span): Candidate {
    Candidate(
      CandidateId(setup.version, rule.ruleId, rule.action, text.normalized, span),
      rule, span, Slice(text.normalized, span))
  }

  /** Slicing clips at the end of the text. */
  function Slice(s: string, span: Span): string {
    if span.start < span.end <= |s| then s[span.start..span.end]
    else if span.start < |s| < span.end then s[span.start..]
    else ""
  }

  /** A detector hits a span of the text. */
  ghost predicate Hits(setup: Setup, text: NormalizedText, d: Detector, span: Span) {
    && Searchable(setup.fold(d.pattern), d.matcher)
    && exists i: nat ::
         && Occurs(Haystack(text, d.matcher), setup.fold(d.pattern), i)
         && SpanOf(text, setup.fold(d.pattern), d.matcher, i) == Some(span)
  }

  ghost predicate Produced(setup: Setup, text: NormalizedText, rules: seq<Rule>, c: Candidate) {
    && c.rule in rules && c.rule.enabled
    && c == Make(setup, text, c.rule, c.span)
    && exists d :: d in c.rule.detectors && Hits(setup, text, d, c.span)
  }

  /******* The order of the result *******/

  /** Python's order of strings, by code point. */
  predicate TextLess(a: string, b: string) {
    b != "" && (a == "" || a[0] < b[0] || (a[0] == b[0] && TextLess(a[1..], b[1..])))
  }

  lemma {:induction false} TextOrder(a: string, b: string)
    ensures TextLess(a, b) || TextLess(b, a) || a == b
    ensures !(TextLess(a, b) && TextLess(b, a)) && !TextLess(a, a)
  {
    if a != "" {
      TextOrder(a[1..], a[1..]);
      if b != "" {
        TextOrder(a[1..], b[1..]);
        if a[0] == b[0] && a[1..] == b[1..] {
          assert a == [a[0]] + a[1..] && b == [b[0]] + b[1..];
        }
      }
    }
  }

  /** Two texts are ordered by the first place where they differ, and a prefix comes first. */
  lemma {:induction false} TextLessExactly(a: string, b: string)
    ensures TextLess(a, b) <==> exists k :: FirstDifference(a, b, k)
  {
    if b != "" && a != "" && a[0] == b[0] {
      TextLessExactly(a[1..], b[1..]);
      if k :| FirstDifference(a[1..], b[1..], k) {
        assert a[..k + 1] == [a[0]] + a[1..][..k] && b[..k + 1] == [b[0]] + b[1..][..k];
        assert FirstDifference(a, b, k + 1);
      }
      if k :| FirstDifference(a, b, k) {
        assert a[1..][..k - 1] == a[..k][1..] && b[1..][..k - 1] == b[..k][1..];
        assert FirstDifference(a[1..], b[1..], k - 1);
      }
    } else if b != "" {
      assert a[..0] == b[..0];
      assert TextLess(a, b) ==> FirstDifference(a, b, 0);
      if k :| FirstDifference(a, b, k) {
        if k > 0 { assert a[..k][0] == b[..k][0]; }
      }
    }
  }

  ghost predicate FirstDifference(a: string, b: string, k: int) {
    && 0 <= k <= |a| && k < |b| && a[..k] == b[..k]
    && (k == |a| || a[k] < b[k])
  }

  lemma {:induction false} TextTransitive(a: string, b: string, c: string)
    requires TextLess(a, b) && TextLess(b, c)
    ensures TextLess(a, c)
  {
    if a != "" && a[0] == b[0] == c[0] {
      TextTransitive(a[1..], b[1..], c[1..]);
    }
  }

  /** The sort key: start, end, descending priority, rule id and action. */
  predicate Less(a: Candidate, b: Candidate) {
    if a.span.start != b.span.start then a.span.start < b.span.start
    else if a.span.end != b.span.end then a.span.end < b.span.end
    else if a.rule.priority != b.rule.priority then a.rule.priority > b.rule.priority
    else if a.rule.ruleId != b.rule.ruleId then TextLess(a.rule.ruleId, b.rule.ruleId)
    else TextLess(a.rule.action, b.rule.action)
  }

  lemma LessOrder(a: Candidate, b: Candidate)
    ensures Less(a, b) || Less(b, a) || (a.span == b.span && a.rule.ruleId == b.rule.ruleId)
    ensures !(Less(a, b) && Less(b, a)) && !Less(a, a)
  {
    TextOrder(a.rule.ruleId, b.rule.ruleId);
    TextOrder(a.rule.action, b.rule.action);
    TextOrder(a.rule.action, a.rule.action);
  }

  lemma LessTransitive(a: Candidate, b: Candidate, c: Candidate)
    requires Less(a, b) && Less(b, c)
    ensures Less(a, c)
  {
    if TextLess(a.rule.ruleId, b.rule.ruleId) && TextLess(b.rule.ruleId, c.rule.ruleId) {
      TextTransitive(a.rule.ruleId, b.rule.ruleId, c.rule.ruleId);
    }
    if TextLess(a.rule.action, b.rule.action) && TextLess(b.rule.action, c.rule.action) {
      TextTransitive(a.rule.action, b.rule.action, c.rule.action);
    }
    TextOrder(a.rule.ruleId, b.rule.ruleId);
    TextOrder(b.rule.ruleId, c.rule.ruleId);
    TextOrder(a.rule.ruleId, c.rule.ruleId);
  }

  function Insert(c: Candidate, sorted: seq<Candidate>): seq<Candidate> {
    if sorted == [] then [c]
    else if Less(c, sorted[0]) then [c] + sorted
    else [sorted[0]] + Insert(c, sorted[1..])
  }

  /** `sorted(candidates, key)`, which is stable. */
  function Sorted(cs: seq<Candidate>): seq<Candidate> {
    if cs == [] then [] else Insert(cs[|cs| - 1], Sorted(cs[..|cs| - 1]))
  }

  ghost predicate Ascending(cs: seq<Candidate>) {
    forall i, j | 0 <= i < j < |cs| :: Less(cs[i], cs[j])
  }

  /** No two candidates share their rule id and span. */
  ghost predicate Distinct(cs: seq<Candidate>) {
    forall i, j | 0 <= i < j < |cs| ::
      cs[i].rule.ruleId != cs[j].rule.ruleId || cs[i].span != cs[j].span
  }

  lemma {:induction false} InsertAscending(c: Candidate, sorted: seq<Candidate>)
    requires Ascending(sorted)
    requires forall d :: d in sorted ==> d.rule.ruleId != c.rule.ruleId || d.span != c.span
    ensures Ascending(Insert(c, sorted))
    ensures forall d :: d in Insert(c, sorted) <==> d == c || d in sorted
  {
    if sorted != [] {
      var rest := sorted[1..];
      assert sorted == [sorted[0]] + rest;
      LessOrder(c, sorted[0]);
      if Less(c, sorted[0]) {
        forall j | 0 < j < |sorted| ensures Less(c, sorted[j]) {
          LessTransitive(c, sorted[0], sorted[j]);
        }
      } else {
        InsertAscending(c, rest);
        var inserted := Insert(c, rest);
        forall j | 0 <= j < |inserted| ensures Less(sorted[0], inserted[j]) {
          assert inserted[j] in inserted;
        }
      }
    }
  }

  lemma {:induction false} SortedAscending(cs: seq<Candidate>)
    requires Distinct(cs)
    ensures Ascending(Sorted(cs))
    ensures forall d :: d in Sorted(cs) <==> d in cs
  {
    if cs != [] {
      var front, last := cs[..|cs| - 1], cs[|cs| - 1];
      assert cs == front + [last];
      SortedAscending(front);
      InsertAscending(last, Sorted(front));
    }
  }

  /******* Detection *******/

  /** What a catalogue finds: every rule and span it hits, once, in ascending order. */
  ghost predicate Detected(setup: Setup, text: NormalizedText, rules: seq<Rule>,
                           r: seq<Candidate>)
  {
    && Ascending(r)
    && (forall c :: c in r ==> Produced(setup, text, rules, c))
    && (forall rule, d, span | rule in rules && rule.enabled && d in rule.detectors
                            && Hits(setup, text, d, span) ::
          Named(r, rule.ruleId, span))
  }

  ghost predicate Named(cs: seq<Candidate>, ruleId: string, span: Span) {
    exists c :: c in cs && c.rule.ruleId == ruleId && c.span == span
  }

  ghost predicate UniqueIds(rules: seq<Rule>) {
    forall a, b | a in rules && b in rules && a.ruleId == b.ruleId :: a == b
  }

  lemma HasHead(t: seq<Candidate>)
    ensures t != [] ==> exists c :: c in t
  {
    if t != [] {
      assert t[0] in t;
    }
  }

  lemma {:induction false} AscendingUnique(r: seq<Candidate>, t: seq<Candidate>)
    requires Ascending(r) && Ascending(t)
    requires forall c :: c in r <==> c in t
    ensures r == t
  {
    if r == [] {
      HasHead(t);
    } else {
      assert r[0] in r && r[0] in t && t[0] in t && t[0] in r;
      LessOrder(r[0], t[0]);
      forall c ensures c in r[1..] <==> c in t[1..] {
        if c in r[1..] {
          var i :| 0 <= i < |r| - 1 && r[1..][i] == c;
          LessOrder(r[0], c);
          assert Less(r[0], r[i + 1]);
          assert c in t && c != t[0];
        }
        if c in t[1..] {
          var i :| 0 <= i < |t| - 1 && t[1..][i] == c;
          LessOrder(t[0], c);
          assert Less(t[0], t[i + 1]);
          assert c in r && c != r[0];
        }
      }
      AscendingUnique(r[1..], t[1..]);
    }
  }

  /** With unique rule ids the result is determined by the set of rules: reordering the catalogue,
      or repeating a rule in it, changes nothing. */
  lemma OrderIndependent(setup: Setup, text: NormalizedText, rules: seq<Rule>,
                         others: seq<Rule>, r: seq<Candidate>, t: seq<Candidate>)
    requires UniqueIds(rules) && forall rule :: rule in rules <==> rule in others
    requires Detected(setup, text, rules, r) && Detected(setup, text, others, t)
    ensures r == t
  {
    forall c ensures c in r ==> c in t {
      if c in r { FoundByBoth(setup, text, rules, others, r, t, c); }
    }
    forall c ensures c in t ==> c in r {
      if c in t { FoundByBoth(setup, text, others, rules, t, r, c); }
    }
    AscendingUnique(r, t);
  }

  lemma FoundByBoth(setup: Setup, text: NormalizedText, rules: seq<Rule>, others: seq<Rule>,
                    r: seq<Candidate>, t: seq<Candidate>, c: Candidate)
    requires UniqueIds(rules) && forall rule :: rule in rules <==> rule in others
    requires Detected(setup, text, rules, r) && Detected(setup, text, others, t) && c in r
    ensures c in t
  {
    assert Produced(setup, text, rules, c);
    var d :| d in c.rule.detectors && Hits(setup, text, d, c.span);
    assert Named(t, c.rule.ruleId, c.span);
    var e :| e in t && e.rule.ruleId == c.rule.ruleId && e.span == c.span;
    assert Produced(setup, text, others, e);
  }

  /******* The loops *******/

  /** The candidates so far: those of the detectors `done` says are through, each rule and span
      once, with `seen` as their set of keys. */
  ghost predicate Progress(setup: Setup, text: NormalizedText, rules: seq<Rule>,
                           found: seq<Candidate>, seen: set<(string, Span)>)
  {
    && Distinct(found)
    && (forall c :: c in found ==> Produced(setup, text, rules, c))
    && (forall ruleId, span :: (ruleId, span) in seen <==> Named(found, ruleId, span))
  }

  ghost predicate Covers(setup: Setup, text: NormalizedText, rule: Rule, d: Detector,
                         seen: set<(string, Span)>)
  {
    forall span :: Hits(setup, text, d, span) ==> (rule.ruleId, span) in seen
  }

  lemma NextFound(setup: Setup, text: NormalizedText, rules: seq<Rule>, found: seq<Candidate>,
                  seen: set<(string, Span)>, rule: Rule, d: Detector, span: Span)
    requires Progress(setup, text, rules, found, seen)
    requires rule in rules && rule.enabled && d in rule.detectors && Hits(setup, text, d, span)
    requires (rule.ruleId, span) !in seen
    ensures Progress(setup, text, rules, found + [Make(setup, text, rule, span)],
                     seen + {(rule.ruleId, span)})
  {
    hide Hits;
    var c := Make(setup, text, rule, span);
    var found' := found + [c];
    assert Produced(setup, text, rules, c);
    assert forall e :: e in found' <==> e in found || e == c;
    assert !Named(found, rule.ruleId, span);
    forall i | 0 <= i < |found|
      ensures found[i].rule.ruleId != rule.ruleId || found[i].span != span
    {
      assert found[i] in found;
    }
    forall ruleId, other
      ensures (ruleId, other) in seen + {(rule.ruleId, span)} <==> Named(found', ruleId, other)
    {
      assert c in found';
    }
  }

  lemma SpansAreHits(setup: Setup, text: NormalizedText, d: Detector, hits: seq<nat>,
                     spans: seq<Span>)
    requires Searchable(setup.fold(d.pattern), d.matcher)
    requires AllHits(Haystack(text, d.matcher), setup.fold(d.pattern), hits)
    requires SpansOf(text, setup.fold(d.pattern), d.matcher, hits, spans)
    ensures forall span :: Hits(setup, text, d, span) <==> span in spans
  {
    hide Occurs, SpanOf;
    forall span | Hits(setup, text, d, span) ensures span in spans {
      var i: nat :| Occurs(Haystack(text, d.matcher), setup.fold(d.pattern), i)
                    && SpanOf(text, setup.fold(d.pattern), d.matcher, i) == Some(span);
      var k :| 0 <= k < |hits| && hits[k] == i;
      assert spans[k] == span;
    }
    forall span | span in spans ensures Hits(setup, text, d, span) {
      var k :| 0 <= k < |spans| && spans[k] == span;
      assert hits[k] in hits;
      assert Occurs(Haystack(text, d.matcher), setup.fold(d.pattern), hits[k]);
    }
  }

  /** One detector of one rule: its spans that are new become candidates. */
  method RunDetector(setup: Setup, text: NormalizedText, ghost rules: seq<Rule>, rule: Rule,
                     d: Detector, found: seq<Candidate>, seen: set<(string, Span)>)
    returns (ok: bool, found': seq<Candidate>, seen': set<(string, Span)>)
    requires Progress(setup, text, rules, found, seen)
    requires rule in rules && rule.enabled && d in rule.detectors
    ensures ok ==> Progress(setup, text, rules, found', seen') && seen <= seen'
    ensures ok ==> Covers(setup, text, rule, d, seen')
    ensures ok <==> !Overruns(setup, text, d)
  {
    hide Progress, Hits, Make, AllHits, SpansOf;
    found', seen' := found, seen;
    var needle := setup.fold(d.pattern);
    var spans, hits := Occurrences(text, needle, d.matcher);
    if spans.None? {
      return false, found, seen;
    }
    DetectorSpans(setup, text, d, hits, spans.value);
    for j := 0 to |spans.value|
      invariant Progress(setup, text, rules, found', seen') && seen <= seen'
      invariant forall k :: 0 <= k < j ==> (rule.ruleId, spans.value[k]) in seen'
    {
      var span := spans.value[j];
      if (rule.ruleId, span) in seen' {
        continue;
      }
      assert span in spans.value;
      NextFound(setup, text, rules, found', seen', rule, d, span);
      seen' := seen' + {(rule.ruleId, span)};
      found' := found' + [Make(setup, text, rule, span)];
    }
    ok := true;
  }

  lemma DetectorSpans(setup: Setup, text: NormalizedText, d: Detector, hits: seq<nat>,
                      spans: seq<Span>)
    requires Searchable(setup.fold(d.pattern), d.matcher) ==>
               && AllHits(Haystack(text, d.matcher), setup.fold(d.pattern), hits)
               && SpansOf(text, setup.fold(d.pattern), d.matcher, hits, spans)
    requires !Searchable(setup.fold(d.pattern), d.matcher) ==> spans == []
    ensures forall span :: Hits(setup, text, d, span) <==> span in spans
    ensures !Overruns(setup, text, d)
  {
    if Searchable(setup.fold(d.pattern), d.matcher) {
      SpansAreHits(setup, text, d, hits, spans);
      var needle := setup.fold(d.pattern);
      forall i: nat | Occurs(Haystack(text, d.matcher), needle, i)
        ensures SpanOf(text, needle, d.matcher, i).Some?
      {
        var k :| 0 <= k < |hits| && hits[k] == i;
        assert SpanOf(text, needle, d.matcher, hits[k]) == Some(spans[k]);
      }
    }
  }

  /** A hit of the detector runs out of the compact map: the source raises `IndexError`. */
  ghost predicate Overruns(setup: Setup, text: NormalizedText, d: Detector) {
    && Searchable(setup.fold(d.pattern), d.matcher)
    && exists i: nat :: Occurs(Haystack(text, d.matcher), setup.fold(d.pattern), i)
                     && SpanOf(text, setup.fold(d.pattern), d.matcher, i).None?
  }

  /** The detection fails exactly when a detector of an enabled rule overruns. */
  method Detect(setup: Setup, text: NormalizedText, rules: seq<Rule>)
    returns (r: Option<seq<Candidate>>)
    ensures r.Some? ==> Detected(setup, text, rules, r.value)
    ensures r.None? <==> exists rule, d :: rule in rules && rule.enabled && d in rule.detectors
                                        && Overruns(setup, text, d)
  {
    hide Progress, Hits, Make, Overruns, Covers;
    var found: seq<Candidate>, seen: set<(string, Span)> := [], {};
    assert Progress(setup, text, rules, found, seen) by { Starts(setup, text, rules); }
    for n := 0 to |rules|
      invariant Progress(setup, text, rules, found, seen)
      invariant forall k, d | 0 <= k < n && rules[k].enabled && d in rules[k].detectors ::
                  Covers(setup, text, rules[k], d, seen)
      invariant forall k, d | 0 <= k < n && rules[k].enabled && d in rules[k].detectors ::
                  !Overruns(setup, text, d)
    {
      var rule := rules[n];
      if !rule.enabled {
        continue;
      }
      for j := 0 to |rule.detectors|
        invariant Progress(setup, text, rules, found, seen)
        invariant forall k, d | 0 <= k < n && rules[k].enabled && d in rules[k].detectors ::
                    Covers(setup, text, rules[k], d, seen)
        invariant forall i | 0 <= i < j :: Covers(setup, text, rule, rule.detectors[i], seen)
        invariant forall i | 0 <= i < j :: !Overruns(setup, text, rule.detectors[i])
      {
        var ok, found', seen' :=
          RunDetector(setup, text, rules, rule, rule.detectors[j], found, seen);
        if !ok {
          return None;
        }
        forall other, d | Covers(setup, text, other, d, seen)
          ensures Covers(setup, text, other, d, seen')
        {
          CoversMore(setup, text, other, d, seen, seen');
        }
        found, seen := found', seen';
      }
    }
    Finished(setup, text, rules, found, seen);
    return Some(Sorted(found));
  }

  lemma Starts(setup: Setup, text: NormalizedText, rules: seq<Rule>)
    ensures Progress(setup, text, rules, [], {})
  {}

  lemma CoversMore(setup: Setup, text: NormalizedText, rule: Rule, d: Detector,
                   seen: set<(string, Span)>, seen': set<(string, Span)>)
    requires Covers(setup, text, rule, d, seen) && seen <= seen'
    ensures Covers(setup, text, rule, d, seen')
  {}

  lemma Finished(setup: Setup, text: NormalizedText, rules: seq<Rule>, found: seq<Candidate>,
                 seen: set<(string, Span)>)
    requires Progress(setup, text, rules, found, seen)
    requires forall k, d | 0 <= k < |rules| && rules[k].enabled && d in rules[k].detectors ::
               Covers(setup, text, rules[k], d, seen)
    ensures Detected(setup, text, rules, Sorted(found))
  {
    hide Hits, Make;
    SortedAscending(found);
    forall rule, d, span | rule in rules && rule.enabled && d in rule.detectors
                        && Hits(setup, text, d, span)
      ensures Named(Sorted(found), rule.ruleId, span)
    {
      var k :| 0 <= k < |rules| && rules[k] == rule;
      assert Covers(setup, text, rules[k], d, seen);
      assert Named(found, rule.ruleId, span);
      var c :| c in found && c.rule.ruleId == rule.ruleId && c.span == span;
      assert c in Sorted(found);
    }
  }

  /** On a text whose retained characters all lowercase to one character no detector overruns, so
      that the detection does not fail, whatever the catalogue is. */
  lemma AlignedNeverOverruns(setup: Setup, u: Unicode, value: string, d: Detector)
    requires OneToOne(u, Truncated(value))
    ensures !Overruns(setup, Normalized(u, value), d)
  {
    hide Normalized, OneToOne;
    NormalizedIsCompacted(u, value);
  }

  lemma MisalignedOverruns(setup: Setup, text: NormalizedText, d: Detector)
    requires |text.compactToNormalized| < |text.compact|
    requires d.matcher == CompactLiteral && setup.fold(d.pattern) == text.compact
    ensures Overruns(setup, text, d)
  {
    assert text.compact[0..0 + |text.compact|] == text.compact;
    assert Occurs(Haystack(text, d.matcher), text.compact, 0);
  }

  /** No detector can fail on a text exactly when its retained characters all lowercase to one
      character: otherwise the search for the whole compact text runs out of the map. */
  lemma NeverOverrunsExactly(u: Unicode, value: string)
    requires u.Valid()
    ensures OneToOne(u, Truncated(value))
       <==> forall setup, d :: !Overruns(setup, Normalized(u, value), d)
  {
    hide Normalized, OneToOne, Overruns;
    var text := Normalized(u, value);
    if OneToOne(u, Truncated(value)) {
      forall setup, d ensures !Overruns(setup, text, d) {
        AlignedNeverOverruns(setup, u, value, d);
      }
    } else {
      CompactMapShort(u, value);
      var setup := Setup(s => s, "");
      MisalignedOverruns(setup, text, Detector(text.compact, CompactLiteral));
    }
  }

  /** On a capital I with a dot above, the detector for its lowercase form overruns. */
  lemma DottedIOverruns(setup: Setup, u: Unicode, d: Detector)
    requires KnowsDottedI(u)
    requires d.matcher == CompactLiteral && setup.fold(d.pattern) == "i\U{307}"
    ensures Overruns(setup, Normalized(u, [DOTTED_CAPITAL_I]), d)
  {
    hide Normalized;
    DottedIMisaligned(u);
    var text := Normalized(u, [DOTTED_CAPITAL_I]);
    var needle := setup.fold(d.pattern);
    assert text.compact[0..0 + |needle|] == needle;
    assert Occurs(Haystack(text, d.matcher), needle, 0);
  }
}
