/** The stance of one candidate: the quotation it stands in, then the best matching pattern of its
    clause, then the fallbacks. */
module StanceResolver {
  import opened Wrappers
  import opened Candidates
  import opened Detection
  import opened Stance

  datatype UserStance = Requested | Prohibited | Audited | Discussed | Quoted | Unknown

  datatype RiskStance = RiskStance(
    candidate: CandidateId, stance: UserStance, confidence: real, reasonCode: string)

  datatype Pattern = Pattern(
    id: string, stance: UserStance, prefix: bool, pattern: string, confidence: real,
    priority: int, actions: Option<set<string>>)

  /******* Quotations *******/

  const TERMINATORS: set<char> := {'.', '!', '?', ';'}

  const QUOTE_PAIRS: seq<(char, char)> :=
    [('\U{201c}', '\U{201d}'), ('\"', '\"'), ('\'', '\''), ('\U{2018}', '\U{2019}')]

  /** `value.rfind(needle, 0, limit)`. */
  function FindLast(value: string, needle: string, limit: nat): (r: Option<nat>)
    ensures r.Some? ==> r.value + |needle| <= limit && Occurs(value, needle, r.value)
    ensures r.Some? ==>
              forall i: nat :: r.value < i && i + |needle| <= limit ==> !Occurs(value, needle, i)
    ensures r.None? ==> forall i: nat :: i + |needle| <= limit ==> !Occurs(value, needle, i)
    decreases limit
  {
    if limit < |needle| then None
    else if Occurs(value, needle, limit - |needle|) then Some(limit - |needle|)
    else if limit == 0 then None
    else FindLast(value, needle, limit - 1)
  }

  /** One past the last sentence terminator before `n`, or the start of the text. */
  function SentenceStart(value: string, n: nat): (start: nat)
    requires n <= |value|
    ensures start <= n && (start == 0 || value[start - 1] in TERMINATORS)
    ensures forall k :: start <= k < n ==> value[k] !in TERMINATORS
  {
    if n == 0 || value[n - 1] in TERMINATORS then n else SentenceStart(value, n - 1)
  }

  /** The first sentence terminator from `n` on, or the end of the text. */
  function SentenceEnd(value: string, n: nat): (end: nat)
    requires n <= |value|
    ensures n <= end <= |value| && (end == |value| || value[end] in TERMINATORS)
    ensures forall k :: n <= k < end ==> value[k] !in TERMINATORS
    decreases |value| - n
  {
    if n == |value| || value[n] in TERMINATORS then n else SentenceEnd(value, n + 1)
  }

  /** The rest of the sentence around the first kind of quotation that encloses the span. */
  function QuoteContext(value: string, spanStart: nat, spanEnd: nat, pairs: seq<(char, char)>)
    : Option<string>
  {
    if pairs == [] then None
    else
      var opening := FindLast(value, [pairs[0].0], spanStart + 1);
      var closing := Find(value, [pairs[0].1], spanEnd);
      if opening.None? || closing.None? then QuoteContext(value, spanStart, spanEnd, pairs[1..])
      else
        Some(value[SentenceStart(value, opening.value)..opening.value]
             + value[closing.value + 1..SentenceEnd(value, closing.value + 1)])
  }

  ghost predicate Encloses(value: string, spanStart: nat, spanEnd: nat, pair: (char, char),
                           opening: nat, closing: nat)
  {
    && opening <= spanStart && spanEnd <= closing < |value| && opening < |value|
    && value[opening] == pair.0 && value[closing] == pair.1
  }

  ghost predicate Enclosed(value: string, spanStart: nat, spanEnd: nat, pair: (char, char)) {
    exists opening, closing :: Encloses(value, spanStart, spanEnd, pair, opening, closing)
  }

  lemma PairFound(value: string, spanStart: nat, spanEnd: nat, pair: (char, char))
    ensures Enclosed(value, spanStart, spanEnd, pair)
       <==> && FindLast(value, [pair.0], spanStart + 1).Some?
            && Find(value, [pair.1], spanEnd).Some?
  {
    var opening := FindLast(value, [pair.0], spanStart + 1);
    var closing := Find(value, [pair.1], spanEnd);
    if opening.Some? && closing.Some? {
      assert Encloses(value, spanStart, spanEnd, pair, opening.value, closing.value);
    }
    forall o, c | Encloses(value, spanStart, spanEnd, pair, o, c)
      ensures opening.Some? && closing.Some?
    {
      assert Occurs(value, [pair.0], o) && Occurs(value, [pair.1], c);
    }
  }

  /** There is a quotation context exactly when some pair of quotation marks encloses the span, and
      it never reaches into another sentence. */
  lemma {:induction false} QuotesExactly(value: string, spanStart: nat, spanEnd: nat,
                                         pairs: seq<(char, char)>)
    ensures
      var outer := QuoteContext(value, spanStart, spanEnd, pairs);
      && (outer.Some? <==>
            exists pair :: pair in pairs && Enclosed(value, spanStart, spanEnd, pair))
      && (outer.Some? ==> forall k :: 0 <= k < |outer.value| ==> outer.value[k] !in TERMINATORS)
  {
    hide Enclosed;
    if pairs != [] {
      QuotesExactly(value, spanStart, spanEnd, pairs[1..]);
      assert pairs == [pairs[0]] + pairs[1..];
      PairFound(value, spanStart, spanEnd, pairs[0]);
    }
  }

  /** What is left of the sentence around a quotation: the nearest marks on both sides of the span,
      and the text from the start of the sentence to its end without what they enclose. */
  ghost predicate RestOfSentence(value: string, spanStart: nat, spanEnd: nat, pair: (char, char),
                                 outer: string, opening: nat, closing: nat, from: nat, upto: nat)
  {
    && Encloses(value, spanStart, spanEnd, pair, opening, closing)
    && (forall k :: opening < k <= spanStart && k < |value| ==> value[k] != pair.0)
    && (forall k :: spanEnd <= k < closing ==> value[k] != pair.1)
    && from <= opening && (from == 0 || value[from - 1] in TERMINATORS)
    && (forall k :: from <= k < opening ==> value[k] !in TERMINATORS)
    && closing < upto <= |value| && (upto == |value| || value[upto] in TERMINATORS)
    && (forall k :: closing < k < upto ==> value[k] !in TERMINATORS)
    && outer == value[from..opening] + value[closing + 1..upto]
  }

  ghost predicate AroundQuotation(value: string, spanStart: nat, spanEnd: nat, pair: (char, char),
                                  outer: string)
  {
    exists opening, closing, from, upto ::
      RestOfSentence(value, spanStart, spanEnd, pair, outer, opening, closing, from, upto)
  }

  /** The kinds of quotation marks are tried in order: the first that encloses the span counts. */
  ghost predicate QuotedWithin(value: string, spanStart: nat, spanEnd: nat,
                               pairs: seq<(char, char)>, outer: string)
  {
    exists n :: && 0 <= n < |pairs|
                && (forall m :: 0 <= m < n ==> !Enclosed(value, spanStart, spanEnd, pairs[m]))
                && AroundQuotation(value, spanStart, spanEnd, pairs[n], outer)
  }

  lemma SpansUnique(value: string, spanStart: nat, spanEnd: nat, pair: (char, char), outer: string,
                    o: nat, c: nat, f: nat, u: nat, outer': string, o': nat, c': nat, f': nat,
                    u': nat)
    requires RestOfSentence(value, spanStart, spanEnd, pair, outer, o, c, f, u)
    requires RestOfSentence(value, spanStart, spanEnd, pair, outer', o', c', f', u')
    ensures outer == outer'
  {
    assert o == o' && c == c';
    assert f == f' && u == u';
  }

  lemma NearestMarks(value: string, spanStart: nat, spanEnd: nat, pair: (char, char), o: nat, c: nat)
    requires FindLast(value, [pair.0], spanStart + 1) == Some(o)
    requires Find(value, [pair.1], spanEnd) == Some(c)
    ensures Encloses(value, spanStart, spanEnd, pair, o, c)
    ensures forall k :: o < k <= spanStart && k < |value| ==> value[k] != pair.0
    ensures forall k :: spanEnd <= k < c ==> value[k] != pair.1
  {
    forall k | o < k <= spanStart && k < |value| ensures value[k] != pair.0 {
      assert !Occurs(value, [pair.0], k);
    }
    forall k | spanEnd <= k < c ensures value[k] != pair.1 {
      assert !Occurs(value, [pair.1], k);
    }
  }

  lemma FirstPairContext(value: string, spanStart: nat, spanEnd: nat, pairs: seq<(char, char)>)
    requires pairs != [] && Enclosed(value, spanStart, spanEnd, pairs[0])
    ensures
      var context := QuoteContext(value, spanStart, spanEnd, pairs);
      context.Some? && AroundQuotation(value, spanStart, spanEnd, pairs[0], context.value)
  {
    hide Enclosed, FindLast, Find, SentenceStart, SentenceEnd;
    var pair := pairs[0];
    PairFound(value, spanStart, spanEnd, pair);
    var o := FindLast(value, [pair.0], spanStart + 1).value;
    var c := Find(value, [pair.1], spanEnd).value;
    NearestMarks(value, spanStart, spanEnd, pair, o, c);
    var from, upto := SentenceStart(value, o), SentenceEnd(value, c + 1);
    assert RestOfSentence(value, spanStart, spanEnd, pair, value[from..o] + value[c + 1..upto], o, c,
                          from, upto);
  }

  /** The quotation context is the rest of the sentence around the first kind of quotation marks
      that encloses the span. */
  lemma {:induction false} ContextExactly(value: string, spanStart: nat, spanEnd: nat,
                                          pairs: seq<(char, char)>, outer: string)
    ensures QuoteContext(value, spanStart, spanEnd, pairs) == Some(outer)
       <==> QuotedWithin(value, spanStart, spanEnd, pairs, outer)
  {
    hide Enclosed, RestOfSentence;
    if pairs != [] {
      var pair := pairs[0];
      PairFound(value, spanStart, spanEnd, pair);
      if Enclosed(value, spanStart, spanEnd, pair) {
        FirstPairContext(value, spanStart, spanEnd, pairs);
        if QuotedWithin(value, spanStart, spanEnd, pairs, outer) {
          AroundUnique(value, spanStart, spanEnd, pair, outer,
                       QuoteContext(value, spanStart, spanEnd, pairs).value);
        }
      } else {
        ContextExactly(value, spanStart, spanEnd, pairs[1..], outer);
        LaterPair(value, spanStart, spanEnd, pairs, outer);
      }
    }
  }

  lemma AroundUnique(value: string, spanStart: nat, spanEnd: nat, pair: (char, char), outer: string,
                     other: string)
    requires AroundQuotation(value, spanStart, spanEnd, pair, outer)
    requires AroundQuotation(value, spanStart, spanEnd, pair, other)
    ensures outer == other
  {
    hide RestOfSentence;
    var o, c, f, u :| RestOfSentence(value, spanStart, spanEnd, pair, outer, o, c, f, u);
    var o', c', f', u' :| RestOfSentence(value, spanStart, spanEnd, pair, other, o', c', f', u');
    SpansUnique(value, spanStart, spanEnd, pair, outer, o, c, f, u, other, o', c', f', u');
  }

  lemma AroundEncloses(value: string, spanStart: nat, spanEnd: nat, pair: (char, char),
                       outer: string)
    requires AroundQuotation(value, spanStart, spanEnd, pair, outer)
    ensures Enclosed(value, spanStart, spanEnd, pair)
  {}

  lemma LaterPair(value: string, spanStart: nat, spanEnd: nat, pairs: seq<(char, char)>,
                  outer: string)
    requires pairs != [] && !Enclosed(value, spanStart, spanEnd, pairs[0])
    ensures QuotedWithin(value, spanStart, spanEnd, pairs, outer)
       <==> QuotedWithin(value, spanStart, spanEnd, pairs[1..], outer)
  {
    hide Enclosed, AroundQuotation;
    var rest := pairs[1..];
    if QuotedWithin(value, spanStart, spanEnd, pairs, outer) {
      var n :| && 0 <= n < |pairs|
               && (forall m :: 0 <= m < n ==> !Enclosed(value, spanStart, spanEnd, pairs[m]))
               && AroundQuotation(value, spanStart, spanEnd, pairs[n], outer);
      AroundEncloses(value, spanStart, spanEnd, pairs[n], outer);
      assert rest[n - 1] == pairs[n];
      assert forall m :: 0 <= m < n - 1 ==> rest[m] == pairs[m + 1];
    }
    if QuotedWithin(value, spanStart, spanEnd, rest, outer) {
      var n :| && 0 <= n < |rest|
               && (forall m :: 0 <= m < n ==> !Enclosed(value, spanStart, spanEnd, rest[m]))
               && AroundQuotation(value, spanStart, spanEnd, rest[n], outer);
      assert pairs[n + 1] == rest[n];
      assert forall m :: 0 < m < n + 1 ==> pairs[m] == rest[m - 1];
    }
  }

  /******* Patterns *******/

  ghost predicate Contains(s: string, part: string) {
    exists i: nat :: Occurs(s, part, i)
  }

  predicate In(part: string, s: string)
    ensures In(part, s) <==> Contains(s, part)
  {
    Find(s, part, 0).Some?
  }

  predicate Applies(p: Pattern, clause: string, action: string, relativeStart: nat) {
    && (p.actions.Some? ==> action in p.actions.value)
    && In(p.pattern, clause)
    && (p.prefix ==> FindLast(clause, p.pattern, relativeStart + 1).Some?)
  }

  function Matching(patterns: seq<Pattern>, clause: string, action: string, relativeStart: nat)
    : seq<Pattern>
  {
    if patterns == [] then []
    else
      var n := |patterns| - 1;
      var before := Matching(patterns[..n], clause, action, relativeStart);
      if Applies(patterns[n], clause, action, relativeStart) then before + [patterns[n]]
      else before
  }

  lemma {:induction false} MatchingExactly(patterns: seq<Pattern>, clause: string, action: string,
                                           relativeStart: nat)
    ensures forall p :: p in Matching(patterns, clause, action, relativeStart)
                   <==> p in patterns && Applies(p, clause, action, relativeStart)
  {
    if patterns != [] {
      var n := |patterns| - 1;
      MatchingExactly(patterns[..n], clause, action, relativeStart);
      assert patterns == patterns[..n] + [patterns[n]];
    }
  }

  /** The sort key: descending priority, descending confidence, pattern id. */
  predicate Better(a: Pattern, b: Pattern) {
    if a.priority != b.priority then a.priority > b.priority
    else if a.confidence != b.confidence then a.confidence > b.confidence
    else TextLess(a.id, b.id)
  }

  lemma BetterTransitive(a: Pattern, b: Pattern, c: Pattern)
    requires !Better(b, a) && !Better(c, b)
    ensures !Better(c, a)
  {
    TextOrder(a.id, b.id);
    TextOrder(b.id, c.id);
    TextOrder(a.id, c.id);
    if TextLess(a.id, b.id) && TextLess(b.id, c.id) {
      TextTransitive(a.id, b.id, c.id);
    }
  }

  /** The first of the sorted matches. */
  function Best(matches: seq<Pattern>): Pattern
    requires matches != []
  {
    var last := matches[|matches| - 1];
    if |matches| == 1 then last
    else
      var best := Best(matches[..|matches| - 1]);
      if Better(last, best) then last else best
  }

  lemma {:induction false} BestExactly(matches: seq<Pattern>)
    requires matches != []
    ensures Best(matches) in matches
    ensures forall p :: p in matches ==> !Better(p, Best(matches))
  {
    var last := matches[|matches| - 1];
    TextOrder(last.id, last.id);
    if |matches| > 1 {
      var front := matches[..|matches| - 1];
      assert matches == front + [last];
      BestExactly(front);
      var best := Best(front);
      TextOrder(last.id, best.id);
      forall p | p in front ensures !Better(p, Best(matches)) {
        if Better(last, best) {
          BetterTransitive(last, best, p);
        }
      }
    }
  }

  ghost predicate UniquePatterns(patterns: seq<Pattern>) {
    forall a, b | a in patterns && b in patterns && a.id == b.id :: a == b
  }

  /** With unique pattern ids the winner does not depend on the order of the catalogue. */
  lemma BestOrderIndependent(matches: seq<Pattern>, others: seq<Pattern>)
    requires matches != [] && others != [] && UniquePatterns(matches)
    requires forall p :: p in matches <==> p in others
    ensures Best(matches) == Best(others)
  {
    BestExactly(matches);
    BestExactly(others);
    var a, b := Best(matches), Best(others);
    assert a in others && b in matches;
    TextOrder(a.id, b.id);
  }

  /******* One candidate *******/

  const SAFE_MARKERS: seq<string> :=
    ["\U{5ba1}\U{6838}", "\U{68c0}\U{67e5}", "\U{4e3a}\U{4ec0}\U{4e48}", "\U{4e3a}\U{4f55}",
     "\U{8fdd}\U{89c4}"]

  const REQUEST_MARKERS: seq<string> :=
    ["\U{5e2e}\U{6211}", "\U{66ff}\U{6211}", "\U{7167}\U{7740}\U{5199}", "\U{7167}\U{505a}",
     "\U{8fd8}\U{662f}", "\U{518d}\U{8865}"]

  predicate AnyIn(markers: seq<string>, s: string) {
    exists m :: m in markers && In(m, s)
  }

  predicate SafelyQuoted(outer: Option<string>) {
    outer.Some? && AnyIn(SAFE_MARKERS, outer.value) && !AnyIn(REQUEST_MARKERS, outer.value)
  }

  function RightStripped(blank: char -> bool, s: string): string {
    if s != "" && blank(s[|s| - 1]) then RightStripped(blank, s[..|s| - 1]) else s
  }

  function LeftStripped(blank: char -> bool, s: string): string {
    if s != "" && blank(s[0]) then LeftStripped(blank, s[1..]) else s
  }

  predicate EndsWith(s: string, tail: string) {
    |tail| <= |s| && s[|s| - |tail|..] == tail
  }

  predicate Imperative(blank: char -> bool, clause: string, evidence: string) {
    || LeftStripped(blank, RightStripped(blank, clause)) == evidence
    || EndsWith(RightStripped(blank, clause), evidence)
  }

  /** The stance, given the clause around the candidate. */
  function StanceIn(patterns: seq<Pattern>, blank: char -> bool, value: string, c: Candidate,
                    start: nat, end: nat): RiskStance
    requires start <= c.span.start && start <= end <= |value|
  {
    var clause := value[start..end];
    var matches := Matching(patterns, clause, c.rule.action, c.span.start - start);
    if SafelyQuoted(QuoteContext(value, c.span.start, c.span.end, QUOTE_PAIRS)) then
      RiskStance(c.id, Quoted, 0.98, "quoted_risk_scope")
    else if matches != [] then
      RiskStance(c.id, Best(matches).stance, Best(matches).confidence, Best(matches).id)
    else if c.rule.statusHint == "UNCERTAIN" then
      RiskStance(c.id, Requested, 0.92, "business_confirmation_request")
    else if Imperative(blank, clause, c.evidence) then
      RiskStance(c.id, Requested, 0.90, "direct_imperative")
    else RiskStance(c.id, Unknown, 1.0, "stance_not_resolved")
  }

  /******* What the stance must be *******/

  ghost predicate Mentions(markers: seq<string>, s: string) {
    exists m :: m in markers && Contains(s, m)
  }

  /** The span stands in quotation marks, and the rest of the sentence reviews it without asking for
      anything. */
  ghost predicate InSafeQuotation(value: string, c: Candidate) {
    exists outer ::
      && QuotedWithin(value, c.span.start, c.span.end, QUOTE_PAIRS, outer)
      && Mentions(SAFE_MARKERS, outer) && !Mentions(REQUEST_MARKERS, outer)
  }

  lemma SafelyQuotedExactly(value: string, c: Candidate)
    ensures SafelyQuoted(QuoteContext(value, c.span.start, c.span.end, QUOTE_PAIRS))
       <==> InSafeQuotation(value, c)
  {
    hide QuoteContext, QuotedWithin, In, Contains;
    var context := QuoteContext(value, c.span.start, c.span.end, QUOTE_PAIRS);
    forall outer
      ensures context == Some(outer)
         <==> QuotedWithin(value, c.span.start, c.span.end, QUOTE_PAIRS, outer)
    {
      ContextExactly(value, c.span.start, c.span.end, QUOTE_PAIRS, outer);
    }
    forall m, text ensures In(m, text) <==> Contains(text, m) {}
  }

  /** The pattern is about the action, stands in the clause and, if it is a prefix, ends at most one
      character after the start of the evidence. */
  ghost predicate Applicable(p: Pattern, clause: string, action: string, relativeStart: nat) {
    && (p.actions == None || action in p.actions.value)
    && (exists i: nat :: Occurs(clause, p.pattern, i)
                      && (p.prefix ==> i + |p.pattern| <= relativeStart + 1))
  }

  lemma AppliesExactly(p: Pattern, clause: string, action: string, relativeStart: nat)
    ensures Applies(p, clause, action, relativeStart)
       <==> Applicable(p, clause, action, relativeStart)
  {}

  /** The pattern has the highest priority among the applicable ones, among those the highest
      confidence, and among those no larger id. */
  ghost predicate Unbeaten(patterns: seq<Pattern>, clause: string, action: string,
                           relativeStart: nat, p: Pattern)
  {
    && p in patterns && Applicable(p, clause, action, relativeStart)
    && forall q | q in patterns && Applicable(q, clause, action, relativeStart) ::
         && q.priority <= p.priority
         && (q.priority == p.priority ==> q.confidence <= p.confidence)
         && (q.priority == p.priority && q.confidence == p.confidence ==> !TextLess(q.id, p.id))
  }

  /** The longest blank tail of the text begins at `n`. */
  ghost predicate BlankFrom(blank: char -> bool, s: string, n: int) {
    && 0 <= n <= |s| && (forall k :: n <= k < |s| ==> blank(s[k]))
    && (n == 0 || !blank(s[n - 1]))
  }

  /** The clause ends with the evidence, up to blanks. */
  ghost predicate EndsClause(blank: char -> bool, clause: string, evidence: string) {
    exists n :: && BlankFrom(blank, clause, n)
                && |evidence| <= n && clause[n - |evidence|..n] == evidence
  }

  lemma {:induction false} RightStrippedIs(blank: char -> bool, s: string)
    ensures
      var r := RightStripped(blank, s);
      && |r| <= |s| && r == s[..|r|] && (r == "" || !blank(r[|r| - 1]))
      && forall k :: |r| <= k < |s| ==> blank(s[k])
  {
    if s != "" && blank(s[|s| - 1]) {
      RightStrippedIs(blank, s[..|s| - 1]);
    }
  }

  lemma {:induction false} LeftStrippedIs(blank: char -> bool, s: string)
    ensures EndsWith(s, LeftStripped(blank, s))
  {
    if s != "" && blank(s[0]) {
      LeftStrippedIs(blank, s[1..]);
    }
  }

  /** Stripping the clause on both sides adds nothing to stripping it on the right. */
  lemma ImperativeExactly(blank: char -> bool, clause: string, evidence: string)
    ensures Imperative(blank, clause, evidence) <==> EndsClause(blank, clause, evidence)
  {
    var r := RightStripped(blank, clause);
    RightStrippedIs(blank, clause);
    LeftStrippedIs(blank, r);
    assert Imperative(blank, clause, evidence) <==> EndsWith(r, evidence);
    assert BlankFrom(blank, clause, |r|);
    if EndsWith(r, evidence) {
      assert clause[|r| - |evidence|..|r|] == evidence;
    }
  }

  /** The stance of a candidate in its clause: quoted in a safe quotation, else that of an unbeaten
      pattern, else requested where the rule asks for a confirmation or the evidence ends the
      clause, else unknown. */
  ghost predicate Justified(patterns: seq<Pattern>, blank: char -> bool, value: string,
                            c: Candidate, clause: string, relativeStart: nat, r: RiskStance)
  {
    && r.candidate == c.id
    && (InSafeQuotation(value, c) ==>
          r.stance == Quoted && r.confidence == 0.98 && r.reasonCode == "quoted_risk_scope")
    && (!InSafeQuotation(value, c) ==>
          if exists p :: p in patterns && Applicable(p, clause, c.rule.action, relativeStart) then
            exists p ::
              && Unbeaten(patterns, clause, c.rule.action, relativeStart, p)
              && r.stance == p.stance && r.confidence == p.confidence && r.reasonCode == p.id
          else if c.rule.statusHint == "UNCERTAIN" then
            && r.stance == Requested && r.confidence == 0.92
            && r.reasonCode == "business_confirmation_request"
          else if EndsClause(blank, clause, c.evidence) then
            r.stance == Requested && r.confidence == 0.90 && r.reasonCode == "direct_imperative"
          else
            r.stance == Unknown && r.confidence == 1.0 && r.reasonCode == "stance_not_resolved")
  }

  lemma BestUnbeaten(patterns: seq<Pattern>, clause: string, action: string, relativeStart: nat)
    ensures
      var matches := Matching(patterns, clause, action, relativeStart);
      if exists p :: p in patterns && Applicable(p, clause, action, relativeStart)
      then matches != [] && Unbeaten(patterns, clause, action, relativeStart, Best(matches))
      else matches == []
  {
    hide Applies, Applicable, Best;
    var matches := Matching(patterns, clause, action, relativeStart);
    MatchingExactly(patterns, clause, action, relativeStart);
    forall p ensures Applies(p, clause, action, relativeStart)
                <==> Applicable(p, clause, action, relativeStart)
    {
      AppliesExactly(p, clause, action, relativeStart);
    }
    if matches != [] {
      assert matches[0] in matches;
      BestExactly(matches);
    }
  }

  lemma StanceJustified(patterns: seq<Pattern>, blank: char -> bool, value: string, c: Candidate,
                        start: nat, end: nat)
    requires start <= c.span.start && start <= end <= |value|
    ensures Justified(patterns, blank, value, c, value[start..end], c.span.start - start,
                      StanceIn(patterns, blank, value, c, start, end))
  {
    hide Applicable, Unbeaten, Best, Imperative, EndsClause, SafelyQuoted, InSafeQuotation,
         QuoteContext, Matching;
    SafelyQuotedExactly(value, c);
    BestUnbeaten(patterns, value[start..end], c.rule.action, c.span.start - start);
    ImperativeExactly(blank, value[start..end], c.evidence);
  }

  /** The same in the clause around the candidate. */
  ghost predicate Resolved(patterns: seq<Pattern>, blank: char -> bool, value: string,
                           c: Candidate, r: RiskStance)
  {
    exists start: nat, end: nat ::
      && Tightest(value, c.span.start, c.span.end, start, end)
      && start <= c.span.start && start <= end <= |value|
      && Justified(patterns, blank, value, c, value[start..end], c.span.start - start, r)
  }

  /** No result is the `ValueError` of evidence that ends behind the text. */
  method ResolveOne(patterns: seq<Pattern>, blank: char -> bool, value: string, c: Candidate)
    returns (r: Option<RiskStance>)
    requires c.span.start <= c.span.end
    ensures r.Some? <==> c.span.end <= |value|
    ensures r.Some? ==>
              exists start, end ::
                && Tightest(value, c.span.start, c.span.end, start, end)
                && r.value == StanceIn(patterns, blank, value, c, start, end)
    ensures r.Some? ==> Resolved(patterns, blank, value, c, r.value)
  {
    hide Tightest, SafelyQuoted, QuoteContext, Imperative, Best, Applies, Justified;
    var bounds := ClauseBounds(value, c.span.start, c.span.end);
    if bounds.None? {
      return None;
    }
    var (start, end) := bounds.value;
    assert start <= c.span.start && c.span.end <= end <= |value| by {
      TightestInRange(value, c.span.start, c.span.end, start, end);
    }
    StanceJustified(patterns, blank, value, c, start, end);
    var clause := value[start..end];
    var relativeStart := c.span.start - start;
    if SafelyQuoted(QuoteContext(value, c.span.start, c.span.end, QUOTE_PAIRS)) {
      return Some(RiskStance(c.id, Quoted, 0.98, "quoted_risk_scope"));
    }
    var matches: seq<Pattern> := [];
    for n := 0 to |patterns|
      invariant matches == Matching(patterns[..n], clause, c.rule.action, relativeStart)
    {
      assert patterns[..n + 1][..n] == patterns[..n];
      if Applies(patterns[n], clause, c.rule.action, relativeStart) {
        matches := matches + [patterns[n]];
      }
    }
    assert patterns[..|patterns|] == patterns;
    if matches != [] {
      var winner := Best(matches);
      return Some(RiskStance(c.id, winner.stance, winner.confidence, winner.id));
    }
    if c.rule.statusHint == "UNCERTAIN" {
      return Some(RiskStance(c.id, Requested, 0.92, "business_confirmation_request"));
    }
    if Imperative(blank, clause, c.evidence) {
      return Some(RiskStance(c.id, Requested, 0.90, "direct_imperative"));
    }
    return Some(RiskStance(c.id, Unknown, 1.0, "stance_not_resolved"));
  }

  /** The stances of all candidates, in their order. */
  ghost predicate AllResolved(patterns: seq<Pattern>, blank: char -> bool, value: string,
                              cs: seq<Candidate>, stances: seq<RiskStance>)
  {
    && |stances| == |cs|
    && forall i :: 0 <= i < |cs| ==> Resolved(patterns, blank, value, cs[i], stances[i])
  }

  method Resolve(patterns: seq<Pattern>, blank: char -> bool, value: string, cs: seq<Candidate>)
    returns (r: Option<seq<RiskStance>>)
    requires forall i :: 0 <= i < |cs| ==> cs[i].span.start <= cs[i].span.end
    ensures r.Some? <==> forall i :: 0 <= i < |cs| ==> cs[i].span.end <= |value|
    ensures r.Some? ==> AllResolved(patterns, blank, value, cs, r.value)
  {
    hide Resolved, Tightest, StanceIn, QuoteContext, Boundary;
    var stances: seq<RiskStance> := [];
    for n := 0 to |cs|
      invariant |stances| == n && forall i :: 0 <= i < n ==> cs[i].span.end <= |value|
      invariant forall i :: 0 <= i < n ==> Resolved(patterns, blank, value, cs[i], stances[i])
    {
      var stance := ResolveOne(patterns, blank, value, cs[n]);
      if stance.None? {
        return None;
      }
      stances := stances + [stance.value];
    }
    return Some(stances);
  }

  lemma TightestInRange(value: string, spanStart: nat, spanEnd: nat, start: nat, end: nat)
    requires Tightest(value, spanStart, spanEnd, start, end)
    ensures start <= spanStart && spanEnd <= end <= |value|
  {}

  lemma TightestUnique(value: string, spanStart: nat, spanEnd: nat, start: nat, end: nat,
                       start': nat, end': nat)
    requires Tightest(value, spanStart, spanEnd, start, end)
    requires Tightest(value, spanStart, spanEnd, start', end')
    ensures start == start' && end == end'
  {
    hide Boundary;
  }

  /** The stance of a candidate is determined by the text, the candidate and the set of patterns:
      with unique pattern ids, reordering the pattern catalogue changes nothing. */
  lemma StanceDetermined(patterns: seq<Pattern>, others: seq<Pattern>, blank: char -> bool,
                         value: string, c: Candidate, start: nat, end: nat, start': nat, end': nat)
    requires UniquePatterns(patterns) && forall p :: p in patterns <==> p in others
    requires c.span.start <= c.span.end
    requires Tightest(value, c.span.start, c.span.end, start, end)
    requires Tightest(value, c.span.start, c.span.end, start', end')
    ensures StanceIn(patterns, blank, value, c, start, end)
            == StanceIn(others, blank, value, c, start', end')
  {
    hide Boundary, Applies, SafelyQuoted, QuoteContext, Imperative, Best;
    TightestUnique(value, c.span.start, c.span.end, start, end, start', end');
    var clause := value[start..end];
    var matches := Matching(patterns, clause, c.rule.action, c.span.start - start);
    var matches' := Matching(others, clause, c.rule.action, c.span.start - start);
    MatchingExactly(patterns, clause, c.rule.action, c.span.start - start);
    MatchingExactly(others, clause, c.rule.action, c.span.start - start);
    if matches == [] {
      NoMatch(matches', matches);
    } else {
      NoMatch(matches, matches');
      BestOrderIndependent(matches, matches');
    }
  }

  lemma NoMatch(a: seq<Pattern>, b: seq<Pattern>)
    requires forall p :: p in a ==> p in b
    ensures b == [] ==> a == []
  {
    if a != [] {
      assert a[0] in a;
    }
  }

  /** Outside safe quotations a matching prohibition decides, as long as the catalogue ranks every
      prohibition above everything else. */
  lemma ProhibitionDecides(patterns: seq<Pattern>, blank: char -> bool, value: string,
                           c: Candidate, start: nat, end: nat, p: Pattern)
    requires start <= c.span.start && start <= end <= |value|
    requires p in patterns && p.stance == Prohibited
    requires forall q :: q in patterns && q.stance != Prohibited ==> q.priority < p.priority
    requires Applies(p, value[start..end], c.rule.action, c.span.start - start)
    ensures StanceIn(patterns, blank, value, c, start, end).stance in {Prohibited, Quoted}
  {
    hide Applies, SafelyQuoted, QuoteContext, Imperative, Best;
    MatchingExactly(patterns, value[start..end], c.rule.action, c.span.start - start);
    var matches := Matching(patterns, value[start..end], c.rule.action, c.span.start - start);
    assert p in matches;
    BestExactly(matches);
  }
}
