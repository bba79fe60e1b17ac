/** The decision matrix over the candidates and their stances. */
module Resolver {
  import opened Wrappers
  import opened Candidates
  import opened Detection
  import opened StanceResolver

  datatype Status = Safe | Uncertain | Blocked

  /** The reason of a rule, or one of the four sentences of the matrix. */
  datatype Reason =
    | OfRule(text: string) | NeedsConfirmation | StanceUnclear | ScopeIncomplete | InSafeScope

  datatype Decision = Decision(
    status: Status, reason: Reason, matchedRules: seq<string>, confidence: real)

  datatype Thresholds = Thresholds(discussSafe: real, quoteSafe: real)

  const HIGH_SEVERITIES: set<string> := {"HIGH", "CRITICAL"}
  const BUSINESS_UNCERTAIN := "business_uncertain"

  predicate High(c: Candidate) {
    c.rule.severity in HIGH_SEVERITIES
  }

  /** The dictionary of stances by candidate: a later stance replaces an earlier one. */
  function ByCandidate(stances: seq<RiskStance>): map<CandidateId, RiskStance> {
    if stances == [] then map[]
    else
      var last := stances[|stances| - 1];
      ByCandidate(stances[..|stances| - 1])[last.candidate := last]
  }

  predicate Requests(known: map<CandidateId, RiskStance>, c: Candidate) {
    c.id in known && known[c.id].stance == Requested
  }

  function HighRequests(known: map<CandidateId, RiskStance>, cs: seq<Candidate>): seq<Candidate> {
    if cs == [] then []
    else
      var front, last := HighRequests(known, cs[..|cs| - 1]), cs[|cs| - 1];
      if High(last) && Requests(known, last) then front + [last] else front
  }

  /** The key of `max`: priority, severity and rule id, where the severities are compared as the
      words they are. */
  predicate Outranks(a: Candidate, b: Candidate) {
    if a.rule.priority != b.rule.priority then a.rule.priority > b.rule.priority
    else if a.rule.severity != b.rule.severity then TextLess(b.rule.severity, a.rule.severity)
    else TextLess(b.rule.ruleId, a.rule.ruleId)
  }

  function Top(cs: seq<Candidate>): Candidate
    requires cs != []
  {
    var last := cs[|cs| - 1];
    if |cs| == 1 then last
    else
      var best := Top(cs[..|cs| - 1]);
      if Outranks(last, best) then last else best
  }

  /** `any(...)` over the business confirmations, which stops at the first hit; no result is the
      `KeyError` of a candidate without a stance. */
  function AnyUncertainRequest(known: map<CandidateId, RiskStance>, cs: seq<Candidate>)
    : Option<bool>
  {
    if cs == [] then Some(false)
    else if cs[0].rule.category != BUSINESS_UNCERTAIN then AnyUncertainRequest(known, cs[1..])
    else if cs[0].id !in known then None
    else if known[cs[0].id].stance == Requested then Some(true)
    else AnyUncertainRequest(known, cs[1..])
  }

  predicate Weak(t: Thresholds, s: RiskStance) {
    || (s.stance == Discussed && s.confidence < t.discussSafe)
    || (s.stance == Quoted && s.confidence < t.quoteSafe)
  }

  function LeastConfidence(stances: seq<RiskStance>, default: real): real {
    if stances == [] then default
    else
      var last := stances[|stances| - 1].confidence;
      if |stances| == 1 then last
      else
        var least := LeastConfidence(stances[..|stances| - 1], default);
        if last < least then last else least
  }

  /** The decision; no result is a `KeyError` for a candidate without a stance. */
  function Resolve(t: Thresholds, cs: seq<Candidate>, stances: seq<RiskStance>): Option<Decision> {
    var known := ByCandidate(stances);
    var matched := seq(|cs|, i requires 0 <= i < |cs| =>
                         cs[i].rule.category + ":" + cs[i].evidence);
    if exists c :: c in cs && High(c) && c.id !in known then None
    else
      var high := HighRequests(known, cs);
      if high != [] then Some(Decision(Blocked, OfRule(Top(high).rule.reason), matched, 0.99))
      else
        match AnyUncertainRequest(known, cs)
        case None => None
        case Some(true) => Some(Decision(Uncertain, NeedsConfirmation, matched, 0.85))
        case Some(false) =>
          if exists s :: s in stances && s.stance == Unknown then
            Some(Decision(Uncertain, StanceUnclear, matched, 0.5))
          else if exists s :: s in stances && Weak(t, s) then
            Some(Decision(Uncertain, ScopeIncomplete, matched, 0.5))
          else
            Some(Decision(Safe, InSafeScope, matched, LeastConfidence(stances, 0.9)))
  }

  /******* What decides the status *******/

  /** Every candidate has a stance, and no candidate id has two different ones. */
  ghost predicate OneEach(cs: seq<Candidate>, stances: seq<RiskStance>) {
    && (forall c :: c in cs ==> Stanced(stances, c.id))
    && (forall a, b | a in stances && b in stances && a.candidate == b.candidate :: a == b)
  }

  ghost predicate Stanced(stances: seq<RiskStance>, id: CandidateId) {
    exists s :: s in stances && s.candidate == id
  }

  ghost predicate RequestedIn(stances: seq<RiskStance>, id: CandidateId) {
    exists s :: s in stances && s.candidate == id && s.stance == Requested
  }

  lemma {:induction false} ByCandidateExactly(stances: seq<RiskStance>)
    ensures forall id :: id in ByCandidate(stances) <==> Stanced(stances, id)
    ensures forall id :: id in ByCandidate(stances) ==>
              ByCandidate(stances)[id] in stances && ByCandidate(stances)[id].candidate == id
  {
    if stances != [] {
      var front, last := stances[..|stances| - 1], stances[|stances| - 1];
      ByCandidateExactly(front);
      assert stances == front + [last];
      assert forall s :: s in stances <==> s in front || s == last;
    }
  }

  lemma {:induction false} HighRequestsExactly(known: map<CandidateId, RiskStance>,
                                               cs: seq<Candidate>)
    ensures forall c :: c in HighRequests(known, cs) <==> c in cs && High(c) && Requests(known, c)
  {
    if cs != [] {
      HighRequestsExactly(known, cs[..|cs| - 1]);
      assert cs == cs[..|cs| - 1] + [cs[|cs| - 1]];
    }
  }

  lemma {:induction false} AnyUncertainExactly(known: map<CandidateId, RiskStance>,
                                               cs: seq<Candidate>)
    requires forall c :: c in cs ==> c.id in known
    ensures AnyUncertainRequest(known, cs).Some?
    ensures AnyUncertainRequest(known, cs).value <==>
              exists c :: c in cs && c.rule.category == BUSINESS_UNCERTAIN && Requests(known, c)
  {
    if cs != [] {
      AnyUncertainExactly(known, cs[1..]);
      assert cs == [cs[0]] + cs[1..];
    }
  }

  ghost predicate Blocking(cs: seq<Candidate>, stances: seq<RiskStance>) {
    exists c :: c in cs && High(c) && RequestedIn(stances, c.id)
  }

  ghost predicate Confirmable(cs: seq<Candidate>, stances: seq<RiskStance>) {
    exists c :: c in cs && c.rule.category == BUSINESS_UNCERTAIN && RequestedIn(stances, c.id)
  }

  ghost predicate Doubtful(t: Thresholds, cs: seq<Candidate>, stances: seq<RiskStance>) {
    || Confirmable(cs, stances)
    || (exists s :: s in stances && (s.stance == Unknown || Weak(t, s)))
  }

  /** The confidence of the least certain stance. */
  ghost predicate LeastCertain(stances: seq<RiskStance>, x: real) {
    if stances == [] then x == 0.9
    else
      && (forall s :: s in stances ==> x <= s.confidence)
      && (exists s :: s in stances && s.confidence == x)
  }

  /** With one stance per candidate the matrix never fails, and its status and confidence are what
      the sets of candidates and stances say. */
  lemma StatusExactly(t: Thresholds, cs: seq<Candidate>, stances: seq<RiskStance>)
    requires OneEach(cs, stances)
    ensures
      var r := Resolve(t, cs, stances);
      && r.Some?
      && r.value.status == (if Blocking(cs, stances) then Blocked
                            else if Doubtful(t, cs, stances) then Uncertain
                            else Safe)
      && match r.value.status
         case Blocked => r.value.confidence == 0.99
         case Uncertain =>
           r.value.confidence == if Confirmable(cs, stances) then 0.85 else 0.5
         case Safe => LeastCertain(stances, r.value.confidence)
  {
    hide Weak, High, LeastCertain;
    var known := ByCandidate(stances);
    ByCandidateExactly(stances);
    HighRequestsExactly(known, cs);
    assert forall c :: c in cs ==> c.id in known;
    AnyUncertainExactly(known, cs);
    forall c | c in cs ensures Requests(known, c) <==> RequestedIn(stances, c.id) {
      assert known[c.id] in stances && known[c.id].candidate == c.id;
    }
    FirstMember(HighRequests(known, cs));
    LeastExactly(stances);
    hide ByCandidate, HighRequests, AnyUncertainRequest, LeastConfidence, Top;
  }

  /** The candidate is requested and high, and no other such candidate has a higher priority, a
      later severity word at the same priority, or a later rule id at the same severity. */
  ghost predicate Foremost(cs: seq<Candidate>, stances: seq<RiskStance>, c: Candidate) {
    && c in cs && High(c) && RequestedIn(stances, c.id)
    && forall d | d in cs && High(d) && RequestedIn(stances, d.id) ::
         && d.rule.priority <= c.rule.priority
         && (d.rule.priority == c.rule.priority ==>
               && !TextLess(c.rule.severity, d.rule.severity)
               && (d.rule.severity == c.rule.severity ==> !TextLess(c.rule.ruleId, d.rule.ruleId)))
  }

  /** The reason of a decision is that of the foremost request, or the sentence of its branch, and
      the matched rules are the category and evidence of every candidate in order. */
  lemma ReasonExactly(t: Thresholds, cs: seq<Candidate>, stances: seq<RiskStance>)
    requires OneEach(cs, stances)
    ensures
      var r := Resolve(t, cs, stances);
      && r.Some?
      && |r.value.matchedRules| == |cs|
      && (forall i :: 0 <= i < |cs| ==>
            r.value.matchedRules[i] == cs[i].rule.category + ":" + cs[i].evidence)
      && match r.value.reason
         case OfRule(text) => exists c :: Foremost(cs, stances, c) && text == c.rule.reason
         case NeedsConfirmation => !Blocking(cs, stances) && Confirmable(cs, stances)
         case StanceUnclear =>
           && !Blocking(cs, stances) && !Confirmable(cs, stances)
           && exists s :: s in stances && s.stance == Unknown
         case ScopeIncomplete =>
           && !Blocking(cs, stances) && !Confirmable(cs, stances)
           && (forall s :: s in stances ==> s.stance != Unknown)
           && exists s :: && s in stances
                          && (|| (s.stance == Discussed && s.confidence < t.discussSafe)
                              || (s.stance == Quoted && s.confidence < t.quoteSafe))
         case InSafeScope =>
           && !Blocking(cs, stances) && !Confirmable(cs, stances)
           && forall s :: s in stances ==>
                && s.stance != Unknown
                && (s.stance == Discussed ==> s.confidence >= t.discussSafe)
                && (s.stance == Quoted ==> s.confidence >= t.quoteSafe)
  {
    hide High, ByCandidate, HighRequests, AnyUncertainRequest, LeastConfidence, Top, Foremost,
         TextLess;
    var known := ByCandidate(stances);
    ByCandidateExactly(stances);
    HighRequestsExactly(known, cs);
    assert forall c :: c in cs ==> c.id in known;
    AnyUncertainExactly(known, cs);
    forall c | c in cs ensures Requests(known, c) <==> RequestedIn(stances, c.id) {
      assert known[c.id] in stances && known[c.id].candidate == c.id;
    }
    var high := HighRequests(known, cs);
    FirstMember(high);
    if high != [] {
      TopExactly(high);
      TopForemost(cs, stances, high);
    }
  }

  lemma TopForemost(cs: seq<Candidate>, stances: seq<RiskStance>, high: seq<Candidate>)
    requires high != []
    requires forall c :: c in high <==> c in cs && High(c) && RequestedIn(stances, c.id)
    ensures Foremost(cs, stances, Top(high))
  {
    hide High, RequestedIn, Top;
    TopExactly(high);
    forall d | d in cs && High(d) && RequestedIn(stances, d.id)
      ensures !Outranks(d, Top(high)) && !TextLess(d.rule.severity, d.rule.severity)
    {
      assert d in high;
      TextOrder(d.rule.severity, d.rule.severity);
    }
  }

  lemma FirstMember(cs: seq<Candidate>)
    ensures cs != [] <==> exists c :: c in cs
  {
    if cs != [] {
      assert cs[0] in cs;
    }
  }

  function Rank(s: Status): nat {
    match s
    case Safe => 0
    case Uncertain => 1
    case Blocked => 2
  }

  /** Adding candidates and stances never moves the status down. */
  lemma StatusMonotone(t: Thresholds, cs: seq<Candidate>, stances: seq<RiskStance>,
                       cs': seq<Candidate>, stances': seq<RiskStance>)
    requires OneEach(cs, stances) && OneEach(cs', stances')
    requires (forall c :: c in cs ==> c in cs') && (forall s :: s in stances ==> s in stances')
    ensures Resolve(t, cs, stances).Some? && Resolve(t, cs', stances').Some?
    ensures Rank(Resolve(t, cs, stances).value.status)
            <= Rank(Resolve(t, cs', stances').value.status)
  {
    hide Resolve, High, Weak;
    StatusExactly(t, cs, stances);
    StatusExactly(t, cs', stances');
    if Blocking(cs, stances) {
      var c :| c in cs && High(c) && RequestedIn(stances, c.id);
      assert c in cs' && RequestedIn(stances', c.id);
    }
  }

  lemma {:induction false} LeastExactly(stances: seq<RiskStance>)
    ensures LeastCertain(stances, LeastConfidence(stances, 0.9))
  {
    if |stances| == 1 {
      assert stances[0] in stances;
    } else if stances != [] {
      var front, last := stances[..|stances| - 1], stances[|stances| - 1];
      LeastExactly(front);
      assert stances == front + [last];
      assert last in stances && forall s :: s in front ==> s in stances;
    }
  }

  lemma LeastUnique(stances: seq<RiskStance>, stances': seq<RiskStance>, x: real, y: real)
    requires forall s :: s in stances <==> s in stances'
    requires LeastCertain(stances, x) && LeastCertain(stances', y)
    ensures x == y
  {
    if stances != [] {
      assert stances[0] in stances';
    }
    if stances' != [] {
      assert stances'[0] in stances;
    }
  }

  /** The status and the confidence depend on which candidates and stances there are, never on their
      order. */
  lemma StatusOrderIndependent(t: Thresholds, cs: seq<Candidate>, stances: seq<RiskStance>,
                               cs': seq<Candidate>, stances': seq<RiskStance>)
    requires OneEach(cs, stances)
    requires (forall c :: c in cs <==> c in cs') && (forall s :: s in stances <==> s in stances')
    ensures Resolve(t, cs, stances).Some? && Resolve(t, cs', stances').Some?
    ensures Resolve(t, cs, stances).value.status == Resolve(t, cs', stances').value.status
    ensures Resolve(t, cs, stances).value.confidence == Resolve(t, cs', stances').value.confidence
  {
    hide Resolve, High, Weak, LeastCertain;
    forall c | c in cs' ensures Stanced(stances', c.id) {
      assert Stanced(stances, c.id);
    }
    StatusExactly(t, cs, stances);
    StatusExactly(t, cs', stances');
    StatusMonotone(t, cs, stances, cs', stances');
    StatusMonotone(t, cs', stances', cs, stances);
    var r, r' := Resolve(t, cs, stances).value, Resolve(t, cs', stances').value;
    if r.status == Safe {
      LeastUnique(stances, stances', r.confidence, r'.confidence);
    }
    assert Confirmable(cs, stances) <==> Confirmable(cs', stances');
  }

  /******* The order of severities *******/

  lemma OutranksTransitive(a: Candidate, b: Candidate, c: Candidate)
    requires !Outranks(b, a) && !Outranks(c, b)
    ensures !Outranks(c, a)
  {
    TextOrder(a.rule.severity, b.rule.severity);
    TextOrder(b.rule.severity, c.rule.severity);
    TextOrder(a.rule.severity, c.rule.severity);
    TextOrder(a.rule.ruleId, b.rule.ruleId);
    TextOrder(b.rule.ruleId, c.rule.ruleId);
    TextOrder(a.rule.ruleId, c.rule.ruleId);
    if TextLess(c.rule.severity, b.rule.severity) && TextLess(b.rule.severity, a.rule.severity) {
      TextTransitive(c.rule.severity, b.rule.severity, a.rule.severity);
    }
    if TextLess(c.rule.ruleId, b.rule.ruleId) && TextLess(b.rule.ruleId, a.rule.ruleId) {
      TextTransitive(c.rule.ruleId, b.rule.ruleId, a.rule.ruleId);
    }
  }

  lemma {:induction false} TopExactly(cs: seq<Candidate>)
    requires cs != []
    ensures Top(cs) in cs && forall c :: c in cs ==> !Outranks(c, Top(cs))
  {
    var last := cs[|cs| - 1];
    TextOrder(last.rule.ruleId, last.rule.ruleId);
    if |cs| > 1 {
      var front := cs[..|cs| - 1];
      assert cs == front + [last];
      TopExactly(front);
      var best := Top(front);
      TextOrder(last.rule.severity, best.rule.severity);
      TextOrder(last.rule.ruleId, best.rule.ruleId);
      forall c | c in front ensures !Outranks(c, Top(cs)) {
        if Outranks(last, best) {
          OutranksTransitive(last, best, c);
        }
      }
    }
  }

  /** The reason given is a critical risk's exactly when some critical risk outranks every high one
      by priority alone: at equal priority the word HIGH sorts above CRITICAL, so the milder risk
      is reported. */
  lemma TopIsCritical(cs: seq<Candidate>)
    requires cs != [] && forall c :: c in cs ==> High(c)
    ensures Top(cs).rule.severity == "CRITICAL" <==>
              exists c :: && c in cs && c.rule.severity == "CRITICAL"
                          && forall d :: d in cs && d.rule.severity == "HIGH" ==>
                               d.rule.priority < c.rule.priority
  {
    TopExactly(cs);
    var top := Top(cs);
    assert TextLess("CRITICAL", "HIGH") && !TextLess("HIGH", "CRITICAL");
    if top.rule.severity == "CRITICAL" {
      forall d | d in cs && d.rule.severity == "HIGH" ensures d.rule.priority < top.rule.priority {
        assert !Outranks(d, top);
      }
    } else {
      assert top.rule.severity == "HIGH";
      forall c | c in cs && c.rule.severity == "CRITICAL"
        ensures !(top.rule.priority < c.rule.priority)
      {
        assert !Outranks(c, top);
      }
    }
  }

  lemma BothHighRequests(known: map<CandidateId, RiskStance>, a: Candidate, b: Candidate)
    requires High(a) && High(b) && Requests(known, a) && Requests(known, b)
    ensures HighRequests(known, [a, b]) == [a, b]
  {
    hide High;
    assert [a, b][..1] == [a] && [a][..0] == [];
    assert HighRequests(known, [a]) == [a];
  }

  lemma TopOfEquals(a: Candidate, b: Candidate)
    requires a.rule.severity == "HIGH" && b.rule.severity == "CRITICAL"
    requires a.rule.priority == b.rule.priority
    ensures Top([a, b]) == a
  {
    assert [a, b][0] == a && [a, b][1] == b;
    TopIsCritical([a, b]);
    TopExactly([a, b]);
  }

  /** A high and a critical risk of equal priority, both requested: the high one gives the
      reason. */
  lemma EqualPriorityReportsHigh(t: Thresholds, a: Candidate, b: Candidate, sa: RiskStance,
                                 sb: RiskStance)
    requires a.rule.severity == "HIGH" && b.rule.severity == "CRITICAL"
    requires a.rule.priority == b.rule.priority && a.id != b.id
    requires sa.candidate == a.id && sa.stance == Requested
    requires sb.candidate == b.id && sb.stance == Requested
    ensures Resolve(t, [a, b], [sa, sb]).Some?
    ensures Resolve(t, [a, b], [sa, sb]).value.reason == OfRule(a.rule.reason)
  {
    hide ByCandidate, HighRequests, Top, AnyUncertainRequest, LeastConfidence, Weak;
    var stances := [sa, sb];
    assert stances[0] == sa && stances[1] == sb;
    ByCandidateExactly(stances);
    var known := ByCandidate(stances);
    assert Stanced(stances, a.id) && Stanced(stances, b.id);
    BothHighRequests(known, a, b);
    TopOfEquals(a, b);
  }
}
