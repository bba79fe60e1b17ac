/** What the candidates of a detection are evidence of: each spells a pattern of its rule, in the
    text, and nothing that spells one is missed. */
module Evidence {
  import opened Wrappers
  import opened Normalization
  import opened Candidates
  import opened Detection

  /** The piece of the text spells the folded pattern: as it stands, or without its separators. */
  ghost predicate Spells(setup: Setup, piece: string, d: Detector) {
    match d.matcher
    case NormalizedLiteral => piece == setup.fold(d.pattern)
    case CompactLiteral =>
      && WithoutSeparators(piece) == setup.fold(d.pattern)
      && piece != "" && !Separator(piece[0]) && !Separator(piece[|piece| - 1])
    case OtherMatcher(_) => false
  }

  lemma {:induction false} NoSeparatorsLeft(s: string)
    ensures forall i :: 0 <= i < |WithoutSeparators(s)| ==> !Separator(WithoutSeparators(s)[i])
  {
    if s != "" {
      NoSeparatorsLeft(s[..|s| - 1]);
    }
  }

  lemma HitSpells(setup: Setup, text: NormalizedText, d: Detector, span: Span)
    requires Compacted(text) && Hits(setup, text, d, span)
    ensures span.start < span.end <= |text.normalized|
    ensures Spells(setup, text.normalized[span.start..span.end], d)
  {
    hide Compacted, WithoutSeparators, Separator;
    var needle := setup.fold(d.pattern);
    var i: nat :| Occurs(Haystack(text, d.matcher), needle, i)
                  && SpanOf(text, needle, d.matcher, i) == Some(span);
    if d.matcher == CompactLiteral {
      CompactHitSpells(text, needle, i);
      NoSeparatorsLeft(text.normalized[span.start..span.end]);
    }
  }

  /** The candidate is a piece of the text, under the rule that names it. */
  ghost predicate Sound(setup: Setup, text: NormalizedText, rules: seq<Rule>, c: Candidate) {
    && c.rule in rules && c.rule.enabled
    && c.span.start < c.span.end <= |text.normalized|
    && c.evidence == text.normalized[c.span.start..c.span.end]
    && c.id == CandidateId(setup.version, c.rule.ruleId, c.rule.action, text.normalized, c.span)
    && exists d :: d in c.rule.detectors && Spells(setup, c.evidence, d)
  }

  lemma ProducedSound(setup: Setup, text: NormalizedText, rules: seq<Rule>, c: Candidate)
    requires Compacted(text) && Produced(setup, text, rules, c)
    ensures Sound(setup, text, rules, c)
  {
    hide Compacted, Hits, Spells;
    var d :| d in c.rule.detectors && Hits(setup, text, d, c.span);
    HitSpells(setup, text, d, c.span);
  }

  /** By start, then by end, then the higher priority first, then by rule id and action. */
  ghost predicate InOrder(a: Candidate, b: Candidate) {
    || a.span.start < b.span.start
    || (&& a.span.start == b.span.start
        && (|| a.span.end < b.span.end
            || (&& a.span.end == b.span.end
                && (|| a.rule.priority > b.rule.priority
                    || (&& a.rule.priority == b.rule.priority
                        && (|| TextLess(a.rule.ruleId, b.rule.ruleId)
                            || (&& a.rule.ruleId == b.rule.ruleId
                                && TextLess(a.rule.action, b.rule.action))))))))
  }

  lemma LessInOrder(a: Candidate, b: Candidate)
    ensures Less(a, b) <==> InOrder(a, b)
  {
    TextOrder(a.rule.ruleId, a.rule.ruleId);
  }

  /** Every candidate spells a pattern of its rule where it stands, and they come in order. */
  lemma CandidatesSpell(setup: Setup, text: NormalizedText, rules: seq<Rule>, cs: seq<Candidate>)
    requires Compacted(text) && Detected(setup, text, rules, cs)
    ensures forall c :: c in cs ==> Sound(setup, text, rules, c)
    ensures forall i, j | 0 <= i < j < |cs| :: InOrder(cs[i], cs[j])
  {
    hide Compacted, Produced, Sound, Less, InOrder;
    forall c | c in cs ensures Sound(setup, text, rules, c) {
      ProducedSound(setup, text, rules, c);
    }
    forall i, j | 0 <= i < j < |cs| ensures InOrder(cs[i], cs[j]) {
      LessInOrder(cs[i], cs[j]);
    }
  }

  /** No pattern of an enabled rule stands in the text, or in the text without its separators,
      without a candidate of that rule there. */
  lemma NothingMissed(setup: Setup, text: NormalizedText, rules: seq<Rule>, cs: seq<Candidate>,
                      rule: Rule, d: Detector, i: nat)
    requires Compacted(text) && Detected(setup, text, rules, cs)
    requires rule in rules && rule.enabled && d in rule.detectors && setup.fold(d.pattern) != ""
    ensures d.matcher == NormalizedLiteral && Occurs(text.normalized, setup.fold(d.pattern), i) ==>
              exists c :: && c in cs && c.rule.ruleId == rule.ruleId && c.span.start == i
                          && c.evidence == setup.fold(d.pattern)
    ensures d.matcher == CompactLiteral && Occurs(text.compact, setup.fold(d.pattern), i) ==>
              exists c :: && c in cs && c.rule.ruleId == rule.ruleId
                          && c.span.start == text.compactToNormalized[i]
                          && WithoutSeparators(c.evidence) == setup.fold(d.pattern)
  {
    var needle := setup.fold(d.pattern);
    if d.matcher == CompactLiteral && Occurs(text.compact, needle, i) {
      CompactHitSpells(text, needle, i);
    }
    if Searchable(needle, d.matcher) && Occurs(Haystack(text, d.matcher), needle, i) {
      var span := SpanOf(text, needle, d.matcher, i);
      hide WithoutSeparators, Produced, Make;
      assert Hits(setup, text, d, span.value);
      assert Named(cs, rule.ruleId, span.value);
      var c :| c in cs && c.rule.ruleId == rule.ruleId && c.span == span.value;
      ProducedSound(setup, text, rules, c);
    }
  }
}
