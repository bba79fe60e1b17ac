/** The policy pipeline from end to end: what the text says about a candidate decides whether the
    request is blocked. */
module PolicyDecisions {
  import opened Wrappers
  import opened Candidates
  import opened Detection
  import opened Stance
  import opened StanceResolver
  import opened Resolver
  import Normalization

  /** The text asks for what the candidate names: outside a safe quotation, an unbeaten pattern of
      its clause says so, or no pattern applies and the rule asks for a confirmation or the evidence
      ends the clause. */
  ghost predicate AskedFor(patterns: seq<Pattern>, blank: char -> bool, value: string, c: Candidate,
                           clause: string, relativeStart: nat)
  {
    && !InSafeQuotation(value, c)
    && if exists p :: p in patterns && Applicable(p, clause, c.rule.action, relativeStart) then
         exists p :: && Unbeaten(patterns, clause, c.rule.action, relativeStart, p)
                     && p.stance == Requested
       else c.rule.statusHint == "UNCERTAIN" || EndsClause(blank, clause, c.evidence)
  }

  ghost predicate Asked(patterns: seq<Pattern>, blank: char -> bool, value: string, c: Candidate) {
    exists start: nat, end: nat ::
      && Tightest(value, c.span.start, c.span.end, start, end)
      && start <= c.span.start && start <= end <= |value|
      && AskedFor(patterns, blank, value, c, value[start..end], c.span.start - start)
  }

  lemma JustifiedAsks(patterns: seq<Pattern>, blank: char -> bool, value: string, c: Candidate,
                      clause: string, relativeStart: nat, r: RiskStance)
    requires UniquePatterns(patterns)
    requires Justified(patterns, blank, value, c, clause, relativeStart, r)
    ensures r.stance == Requested
       <==> AskedFor(patterns, blank, value, c, clause, relativeStart)
  {
    hide Applicable, InSafeQuotation, EndsClause;
    forall p, q | Unbeaten(patterns, clause, c.rule.action, relativeStart, p)
               && Unbeaten(patterns, clause, c.rule.action, relativeStart, q)
      ensures p == q
    {
      TextOrder(p.id, q.id);
    }
  }

  /** A candidate's stance is a request exactly when the text asks for it. */
  lemma RequestedExactly(patterns: seq<Pattern>, blank: char -> bool, value: string, c: Candidate,
                         r: RiskStance)
    requires UniquePatterns(patterns) && Resolved(patterns, blank, value, c, r)
    ensures r.stance == Requested <==> Asked(patterns, blank, value, c)
  {
    hide Tightest, AskedFor, Justified;
    var start: nat, end: nat :|
      && Tightest(value, c.span.start, c.span.end, start, end)
      && start <= c.span.start && start <= end <= |value|
      && Justified(patterns, blank, value, c, value[start..end], c.span.start - start, r);
    JustifiedAsks(patterns, blank, value, c, value[start..end], c.span.start - start, r);
    if Asked(patterns, blank, value, c) {
      var s: nat, e: nat :|
        && Tightest(value, c.span.start, c.span.end, s, e)
        && s <= c.span.start && s <= e <= |value|
        && AskedFor(patterns, blank, value, c, value[s..e], c.span.start - s);
      TightestUnique(value, c.span.start, c.span.end, start, end, s, e);
    }
  }

  lemma ResolvedNames(patterns: seq<Pattern>, blank: char -> bool, value: string, c: Candidate,
                      r: RiskStance)
    requires Resolved(patterns, blank, value, c, r)
    ensures r.candidate == c.id
  {
    hide Tightest;
  }

  ghost predicate DistinctIds(cs: seq<Candidate>) {
    forall i, j | 0 <= i < j < |cs| :: cs[i].id != cs[j].id
  }

  /** The candidates of a detection have distinct identifiers. */
  lemma DetectedDistinct(setup: Setup, text: Normalization.NormalizedText, rules: seq<Rule>,
                         cs: seq<Candidate>)
    requires Distinct(cs) && forall c :: c in cs ==> Produced(setup, text, rules, c)
    ensures DistinctIds(cs)
  {
    hide Hits;
    forall i, j | 0 <= i < j < |cs| ensures cs[i].id != cs[j].id {
      assert cs[i] in cs && cs[j] in cs;
    }
  }

  lemma ResolvedOneEach(patterns: seq<Pattern>, blank: char -> bool, value: string,
                        cs: seq<Candidate>, stances: seq<RiskStance>)
    requires UniquePatterns(patterns) && AllResolved(patterns, blank, value, cs, stances)
    requires DistinctIds(cs)
    ensures OneEach(cs, stances)
    ensures forall c :: c in cs ==>
              (RequestedIn(stances, c.id) <==> Asked(patterns, blank, value, c))
  {
    hide Resolved, Asked;
    forall i | 0 <= i < |cs|
      ensures stances[i].candidate == cs[i].id
      ensures stances[i].stance == Requested <==> Asked(patterns, blank, value, cs[i])
    {
      ResolvedNames(patterns, blank, value, cs[i], stances[i]);
      RequestedExactly(patterns, blank, value, cs[i], stances[i]);
    }
    forall c | c in cs
      ensures Stanced(stances, c.id)
      ensures RequestedIn(stances, c.id) <==> Asked(patterns, blank, value, c)
    {
      var i :| 0 <= i < |cs| && cs[i] == c;
      assert stances[i] in stances;
    }
  }

  /** A request is blocked exactly when the text asks for something a rule of high or critical
      severity names. */
  lemma BlockedExactly(t: Thresholds, patterns: seq<Pattern>, blank: char -> bool, value: string,
                       cs: seq<Candidate>, stances: seq<RiskStance>)
    requires UniquePatterns(patterns) && AllResolved(patterns, blank, value, cs, stances)
    requires DistinctIds(cs)
    ensures Resolver.Resolve(t, cs, stances).Some?
    ensures Resolver.Resolve(t, cs, stances).value.status == Blocked
       <==> exists c :: && c in cs && c.rule.severity in {"HIGH", "CRITICAL"}
                        && Asked(patterns, blank, value, c)
  {
    hide Resolver.Resolve, AllResolved, Asked, DistinctIds;
    ResolvedOneEach(patterns, blank, value, cs, stances);
    StatusExactly(t, cs, stances);
  }

  /** In particular: a high or critical candidate that ends its clause is blocked, unless it stands
      in a safe quotation or some pattern applies to its clause. */
  lemma ImperativeBlocks(t: Thresholds, patterns: seq<Pattern>, blank: char -> bool, value: string,
                         cs: seq<Candidate>, stances: seq<RiskStance>, c: Candidate, start: nat,
                         end: nat)
    requires UniquePatterns(patterns) && AllResolved(patterns, blank, value, cs, stances)
    requires DistinctIds(cs) && c in cs && c.rule.severity in {"HIGH", "CRITICAL"}
    requires !InSafeQuotation(value, c)
    requires Tightest(value, c.span.start, c.span.end, start, end)
    requires start <= c.span.start && start <= end <= |value|
    requires forall p :: p in patterns ==>
               !Applicable(p, value[start..end], c.rule.action, c.span.start - start)
    requires EndsClause(blank, value[start..end], c.evidence)
    ensures Resolver.Resolve(t, cs, stances).Some?
    ensures Resolver.Resolve(t, cs, stances).value.status == Blocked
  {
    hide Resolver.Resolve, AllResolved, DistinctIds, Tightest, Applicable, EndsClause,
         InSafeQuotation, UniquePatterns;
    BlockedExactly(t, patterns, blank, value, cs, stances);
  }
}
