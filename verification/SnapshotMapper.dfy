/** The replay snapshot mapper: an executed result as a snapshot, and a result from a snapshot. */
module SnapshotMapper {
  import opened Wrappers
  import opened Json
  import opened SafeJson

  type Fields = map<Name, Value>

  datatype PolicyDecision = PolicyDecision(
    status: string, reason: string, matchedRules: seq<string>, warnings: seq<string>,
    classifierUsed: bool, confidence: real)

  datatype IntentOutcome = IntentOutcome(
    intent: string, confidence: real, reasoning: string, alternatives: seq<string>)

  datatype Route = Route(task: string, confidence: real, reason: string)

  datatype EvidenceItem = EvidenceItem(
    sourceId: string, title: Option<string>, sourcePath: Option<string>, text: string,
    score: Option<Float>, metadata: Fields)

  datatype Diagnostic = Diagnostic(
    stepName: string, provider: string, success: bool, errorType: Option<string>,
    message: Option<string>, latencyMs: Option<Float>)

  datatype Rag = Rag(
    answer: string, evidence: seq<EvidenceItem>, sources: seq<Fields>, confidence: real,
    warnings: seq<string>, provider: string, diagnostics: seq<Diagnostic>,
    rawResponse: Option<Value>)

  datatype AgentStep = AgentStep(
    stepName: string, inputSummary: string, outputSummary: string, confidence: Option<Float>,
    latencyMs: int, toolCalls: seq<string>, warnings: seq<string>)

  /** What the coordinator records about the run of a request.  No snapshot holds it. */
  datatype InteractionMetadata = InteractionMetadata(
    sessionId: string, intent: Option<string>, intentConfidence: Option<Float>,
    toolsCalled: seq<string>, llmCalls: int, inputTokens: int, outputTokens: int, costUsd: Float,
    latencyMs: int, timestamp: int)

  datatype Orchestration = Orchestration(
    sessionId: string, userInput: string, policy: PolicyDecision,
    intent: Option<IntentOutcome>, route: Option<Route>, finalResponse: string,
    rag: Option<Rag>, citations: seq<Fields>, confidence: real, trace: seq<AgentStep>,
    metadata: InteractionMetadata, timestamp: int)

  /******* What the result models guarantee of their instances *******/

  const POLICY_STATUSES: set<string> := {"SAFE", "UNCERTAIN", "BLOCKED"}
  const RAG_PROVIDERS: set<string> := {"external", "local", "fallback", "none"}

  predicate Unit(x: real) {
    0.0 <= x <= 1.0
  }

  predicate ValidIntent(rules: Rules, i: IntentOutcome) {
    && i.intent in rules.intents && Unit(i.confidence)
    && forall k :: 0 <= k < |i.alternatives| ==> i.alternatives[k] in rules.intents
  }

  predicate ValidRoute(rules: Rules, r: Route) {
    r.task in rules.tasks && Unit(r.confidence)
  }

  predicate TextKeys(fields: Fields) {
    forall name :: name in fields ==> !name.NonString?
  }

  predicate ValidRag(rag: Rag) {
    && Unit(rag.confidence) && rag.provider in RAG_PROVIDERS
    && forall i :: 0 <= i < |rag.evidence| ==> TextKeys(rag.evidence[i].metadata)
  }

  predicate Valid(rules: Rules, o: Orchestration) {
    && o.policy.status in POLICY_STATUSES && Unit(o.policy.confidence) && Unit(o.confidence)
    && (o.intent.Some? ==> ValidIntent(rules, o.intent.value))
    && (o.route.Some? ==> ValidRoute(rules, o.route.value))
    && (o.rag.Some? ==> ValidRag(o.rag.value))
  }

  /******* Writing *******/

  function Texts(xs: seq<string>): Value {
    List(seq(|xs|, i requires 0 <= i < |xs| => Str(xs[i])))
  }

  function OptionalText(x: Option<string>): Value {
    if x.Some? then Str(x.value) else Null
  }

  function OptionalNum(x: Option<Float>): Value {
    if x.Some? then Num(x.value) else Null
  }

  function Dicts(xs: seq<Fields>): Value {
    List(seq(|xs|, i requires 0 <= i < |xs| => Dict(xs[i])))
  }

  function PolicyValue(p: PolicyDecision): Value {
    Dict(map[Status := Str(p.status), Reason := Str(p.reason),
             MatchedRules := Texts(p.matchedRules), Warnings := Texts(p.warnings),
             ClassifierUsed := Bool(p.classifierUsed), Confidence := Num(Finite(p.confidence))])
  }

  function IntentValue(i: IntentOutcome): Value {
    Dict(map[Intent := Str(i.intent), Confidence := Num(Finite(i.confidence)),
             Reasoning := Str(i.reasoning), AlternativeIntents := Texts(i.alternatives)])
  }

  function RouteValue(r: Route): Value {
    Dict(map[Task := Str(r.task), Confidence := Num(Finite(r.confidence)),
             Reason := Str(r.reason)])
  }

  function EvidenceValue(e: EvidenceItem): Value {
    Dict(map[SourceId := Str(e.sourceId), Title := OptionalText(e.title),
             SourcePath := OptionalText(e.sourcePath), Text := Str(e.text),
             Score := OptionalNum(e.score), Metadata := Dict(e.metadata)])
  }

  function DiagnosticValue(d: Diagnostic): Value {
    Dict(map[StepName := Str(d.stepName), Provider := Str(d.provider), Success := Bool(d.success),
             ErrorType := OptionalText(d.errorType), Message := OptionalText(d.message),
             LatencyMs := OptionalNum(d.latencyMs)])
  }

  function EvidenceValues(xs: seq<EvidenceItem>): Value {
    List(seq(|xs|, i requires 0 <= i < |xs| => EvidenceValue(xs[i])))
  }

  function DiagnosticValues(xs: seq<Diagnostic>): Value {
    List(seq(|xs|, i requires 0 <= i < |xs| => DiagnosticValue(xs[i])))
  }

  function RagValue(r: Rag): Value {
    Dict(map[Answer := Str(r.answer), Evidence := EvidenceValues(r.evidence),
             Sources := Dicts(r.sources), Confidence := Num(Finite(r.confidence)),
             Warnings := Texts(r.warnings), Provider := Str(r.provider),
             Diagnostics := DiagnosticValues(r.diagnostics)])
  }

  function Payload(o: Orchestration): Value {
    Dict(map[SchemaVersion := Int(1),
             Policy := PolicyValue(o.policy),
             IntentResult := if o.intent.Some? then IntentValue(o.intent.value) else Null,
             TaskRoute := if o.route.Some? then RouteValue(o.route.value) else Null,
             FinalResponse := Str(o.finalResponse),
             RagResult := if o.rag.Some? then RagValue(o.rag.value) else Null,
             Citations := Dicts(o.citations),
             Confidence := Num(Finite(o.confidence))])
  }

  /** The parts the mapper filters before it filters the whole: item metadata, sources and
      citations. */
  function Prefiltered(rules: Rules, o: Orchestration): Result<Orchestration> {
    if o.rag.Some? && !(&& Clean(rules, Dicts(o.rag.value.sources))
                        && forall i :: 0 <= i < |o.rag.value.evidence| ==>
                             Clean(rules, Dict(o.rag.value.evidence[i].metadata))) then
      Err(SnapshotRejected)
    else if !Clean(rules, Dicts(o.citations)) then Err(SnapshotRejected)
    else Ok(Canonical(o))
  }

  function CanonFields(fields: Fields): Fields {
    map name | name in fields :: Canon(fields[name])
  }

  function CanonAll(xs: seq<Fields>): seq<Fields> {
    seq(|xs|, i requires 0 <= i < |xs| => CanonFields(xs[i]))
  }

  function CanonEvidence(e: EvidenceItem): EvidenceItem {
    e.(metadata := CanonFields(e.metadata))
  }

  /** A result with the free-form parts as JSON, tuples as lists, and without the raw response of
      the provider. */
  function CanonRag(rag: Rag): Rag {
    rag.(evidence := seq(|rag.evidence|, i requires 0 <= i < |rag.evidence| =>
                           CanonEvidence(rag.evidence[i])),
         sources := CanonAll(rag.sources), rawResponse := None)
  }

  function Canonical(o: Orchestration): Orchestration {
    o.(rag := if o.rag.Some? then Some(CanonRag(o.rag.value)) else None,
       citations := CanonAll(o.citations))
  }

  function Map(rules: Rules, o: Orchestration): (r: Result<Value>)
    ensures r.Ok? ==> r.value.Dict? && IsJson(r.value)
  {
    var filtered :- Prefiltered(rules, o);
    var safe :- Safe(rules, Payload(filtered));
    CanonIsJson(rules, Payload(filtered));
    if rules.size(safe) > rules.maxBytes then Err(SnapshotRejected) else Ok(safe)
  }

  /******* Reading *******/

  /** The result models read a mapping of any type as an object. */
  predicate Mapping(v: Value) {
    v.Dict? || v.Proxy?
  }

  /** They read a list or a tuple as a list. */
  predicate Sequence(v: Value) {
    v.List? || v.Tuple?
  }

  function Field(v: Value, name: Name): Result<Value> {
    if Mapping(v) && name in v.members then Ok(v.members[name]) else Err(SnapshotRejected)
  }

  function AsText(v: Value): Result<string> {
    if v.Str? then Ok(v.text) else Err(SnapshotRejected)
  }

  function AsBool(v: Value): Result<bool> {
    if v.Bool? then Ok(v.flag) else Err(SnapshotRejected)
  }

  function AsUnit(v: Value): Result<real> {
    if v.Num? && v.float.Finite? && Unit(v.float.value) then Ok(v.float.value)
    else Err(SnapshotRejected)
  }

  function AsOptionalText(v: Value): Result<Option<string>> {
    if v.Null? then Ok(None) else if v.Str? then Ok(Some(v.text)) else Err(SnapshotRejected)
  }

  function AsOptionalNum(v: Value): Result<Option<Float>> {
    if v.Null? then Ok(None) else if v.Num? then Ok(Some(v.float)) else Err(SnapshotRejected)
  }

  function AsTexts(v: Value): Result<seq<string>> {
    if Sequence(v) && forall i :: 0 <= i < |v.items| ==> v.items[i].Str? then
      Ok(seq(|v.items|, i requires 0 <= i < |v.items| => v.items[i].text))
    else Err(SnapshotRejected)
  }

  function AsFields(v: Value): Result<Fields> {
    if Mapping(v) && TextKeys(v.members) then Ok(v.members) else Err(SnapshotRejected)
  }

  function AsAllFields(v: Value): Result<seq<Fields>> {
    if Sequence(v) && forall i :: 0 <= i < |v.items| ==> Mapping(v.items[i]) then
      Ok(seq(|v.items|, i requires 0 <= i < |v.items| => v.items[i].members))
    else Err(SnapshotRejected)
  }

  /** A model that forbids other fields than its own. */
  predicate OnlyFields(v: Value, names: set<Name>) {
    Mapping(v) && v.members.Keys <= names
  }

  function PolicyOf(v: Value): Result<PolicyDecision> {
    if !OnlyFields(v, {Status, Reason, MatchedRules, Warnings, ClassifierUsed, Confidence})
    then Err(SnapshotRejected)
    else
      var f0 :- Field(v, Status);
      var status :- AsText(f0);
      var f1 :- Field(v, Reason);
      var reason :- AsText(f1);
      var f2 :- Field(v, MatchedRules);
      var matched :- AsTexts(f2);
      var f3 :- Field(v, Warnings);
      var warnings :- AsTexts(f3);
      var f4 :- Field(v, ClassifierUsed);
      var used :- AsBool(f4);
      var f5 :- Field(v, Confidence);
      var confidence :- AsUnit(f5);
      if status in POLICY_STATUSES then
        Ok(PolicyDecision(status, reason, matched, warnings, used, confidence))
      else Err(SnapshotRejected)
  }

  function IntentOf(rules: Rules, v: Value): Result<IntentOutcome> {
    var f0 :- Field(v, Intent);
    var intent :- AsText(f0);
    var f1 :- Field(v, Confidence);
    var confidence :- AsUnit(f1);
    var f2 :- Field(v, Reasoning);
    var reasoning :- AsText(f2);
    var f3 :- Field(v, AlternativeIntents);
    var alternatives :- AsTexts(f3);
    var outcome := IntentOutcome(intent, confidence, reasoning, alternatives);
    if ValidIntent(rules, outcome) then Ok(outcome) else Err(SnapshotRejected)
  }

  function RouteOf(rules: Rules, v: Value): Result<Route> {
    var f0 :- Field(v, Task);
    var task :- AsText(f0);
    var f1 :- Field(v, Confidence);
    var confidence :- AsUnit(f1);
    var f2 :- Field(v, Reason);
    var reason :- AsText(f2);
    if task in rules.tasks then Ok(Route(task, confidence, reason)) else Err(SnapshotRejected)
  }

  function EvidenceOf(v: Value): Result<EvidenceItem> {
    var f0 :- Field(v, SourceId);
    var sourceId :- AsText(f0);
    var f1 :- Field(v, Title);
    var title :- AsOptionalText(f1);
    var f2 :- Field(v, SourcePath);
    var sourcePath :- AsOptionalText(f2);
    var f3 :- Field(v, Text);
    var text :- AsText(f3);
    var f4 :- Field(v, Score);
    var score :- AsOptionalNum(f4);
    var f5 :- Field(v, Metadata);
    var metadata :- AsFields(f5);
    Ok(EvidenceItem(sourceId, title, sourcePath, text, score, metadata))
  }

  function DiagnosticOf(v: Value): Result<Diagnostic> {
    var f0 :- Field(v, StepName);
    var stepName :- AsText(f0);
    var f1 :- Field(v, Provider);
    var provider :- AsText(f1);
    var f2 :- Field(v, Success);
    var success :- AsBool(f2);
    var f3 :- Field(v, ErrorType);
    var errorType :- AsOptionalText(f3);
    var f4 :- Field(v, Message);
    var message :- AsOptionalText(f4);
    var f5 :- Field(v, LatencyMs);
    var latencyMs :- AsOptionalNum(f5);
    Ok(Diagnostic(stepName, provider, success, errorType, message, latencyMs))
  }

  function AllEvidence(v: Value): Result<seq<EvidenceItem>> {
    if Sequence(v) && forall i :: 0 <= i < |v.items| ==> EvidenceOf(v.items[i]).Ok? then
      Ok(seq(|v.items|, i requires 0 <= i < |v.items| => EvidenceOf(v.items[i]).value))
    else Err(SnapshotRejected)
  }

  function AllDiagnostics(v: Value): Result<seq<Diagnostic>> {
    if Sequence(v) && forall i :: 0 <= i < |v.items| ==> DiagnosticOf(v.items[i]).Ok? then
      Ok(seq(|v.items|, i requires 0 <= i < |v.items| => DiagnosticOf(v.items[i]).value))
    else Err(SnapshotRejected)
  }

  function RagOf(v: Value): Result<Rag> {
    var f0 :- Field(v, Answer);
    var answer :- AsText(f0);
    var f1 :- Field(v, Evidence);
    var evidence :- AllEvidence(f1);
    var f2 :- Field(v, Sources);
    var sources :- AsAllFields(f2);
    var f3 :- Field(v, Confidence);
    var confidence :- AsUnit(f3);
    var f4 :- Field(v, Warnings);
    var warnings :- AsTexts(f4);
    var f5 :- Field(v, Provider);
    var provider :- AsText(f5);
    var f6 :- Field(v, Diagnostics);
    var diagnostics :- AllDiagnostics(f6);
    if provider in RAG_PROVIDERS then
      Ok(Rag(answer, evidence, sources, confidence, warnings, provider, diagnostics, None))
    else Err(SnapshotRejected)
  }

  /** `snapshot.get(name)` is absent or null. */
  predicate Missing(v: Value, name: Name) {
    Mapping(v) && (name !in v.members || v.members[name].Null?)
  }

  function OptionalIntent(rules: Rules, v: Value): Result<Option<IntentOutcome>> {
    if Missing(v, IntentResult) then Ok(None)
    else
      var f :- Field(v, IntentResult);
      var x :- IntentOf(rules, f);
      Ok(Some(x))
  }

  function OptionalRoute(rules: Rules, v: Value): Result<Option<Route>> {
    if Missing(v, TaskRoute) then Ok(None)
    else
      var f :- Field(v, TaskRoute);
      var x :- RouteOf(rules, f);
      Ok(Some(x))
  }

  function OptionalRag(v: Value): Result<Option<Rag>> {
    if Missing(v, RagResult) then Ok(None)
    else
      var f :- Field(v, RagResult);
      var x :- RagOf(f);
      Ok(Some(x))
  }

  function CitationsOf(v: Value): Result<seq<Fields>> {
    if Mapping(v) && Citations !in v.members then Ok([])
    else
      var f :- Field(v, Citations);
      AsAllFields(f)
  }

  /** The one trace step of a restored result. */
  function ReplayStep(confidence: real): AgentStep {
    AgentStep("idempotency_replay", "", "A persisted result was replayed.",
              Some(Finite(confidence)), 0, [], [])
  }

  /** The metadata of a result that is given none: its time is read when it is made. */
  function DefaultMetadata(now: int): InteractionMetadata {
    InteractionMetadata("", None, None, [], 0, 0, 0, Finite(0.0), 0, now)
  }

  function Restore(rules: Rules, v: Value, version: int, sessionId: string, text: string,
                   replayedAt: int, now: int): Result<Orchestration>
  {
    if version != 1 then Err(SnapshotVersionUnsupported)
    else if !Mapping(v) || SchemaVersion !in v.members || v.members[SchemaVersion] != Int(1) then
      Err(SnapshotRejected)
    else
      var f0 :- Field(v, Policy);
      var policy :- PolicyOf(f0);
      var intent :- OptionalIntent(rules, v);
      var route :- OptionalRoute(rules, v);
      var rag :- OptionalRag(v);
      var f1 :- Field(v, FinalResponse);
      var response :- AsText(f1);
      var citations :- CitationsOf(v);
      var f2 :- Field(v, Confidence);
      var confidence :- AsUnit(f2);
      Ok(Orchestration(sessionId, text, policy, intent, route, response, rag, citations,
                       confidence, [ReplayStep(confidence)], DefaultMetadata(now), replayedAt))
  }

  /******* What the filter does to each part *******/

  lemma CanonFieldsTwice(fields: Fields)
    ensures CanonFields(CanonFields(fields)) == CanonFields(fields)
    ensures Canon(Dict(fields)) == Dict(CanonFields(fields))
  {
    forall name | name in fields ensures Canon(Canon(fields[name])) == Canon(fields[name]) {
      CanonTwice(fields[name]);
    }
  }

  lemma CanonAllTwice(xs: seq<Fields>)
    ensures CanonAll(CanonAll(xs)) == CanonAll(xs)
    ensures Canon(Dicts(xs)) == Dicts(CanonAll(xs))
  {
    forall i | 0 <= i < |xs|
      ensures CanonFields(CanonFields(xs[i])) == CanonFields(xs[i])
      ensures Canon(Dict(xs[i])) == Dict(CanonFields(xs[i]))
    {
      CanonFieldsTwice(xs[i]);
    }
    assert Canon(Dicts(xs)).items == Dicts(CanonAll(xs)).items;
  }

  lemma CanonTexts(xs: seq<string>)
    ensures Canon(Texts(xs)) == Texts(xs)
  {
    assert Canon(Texts(xs)).items == Texts(xs).items;
  }

  lemma CanonPolicy(p: PolicyDecision)
    ensures Canon(PolicyValue(p)) == PolicyValue(p)
  {
    CanonTexts(p.matchedRules);
    CanonTexts(p.warnings);
    assert Canon(PolicyValue(p)).members == PolicyValue(p).members;
  }

  lemma CanonIntent(i: IntentOutcome)
    ensures Canon(IntentValue(i)) == IntentValue(i)
  {
    CanonTexts(i.alternatives);
    assert Canon(IntentValue(i)).members == IntentValue(i).members;
  }

  lemma CanonRoute(r: Route)
    ensures Canon(RouteValue(r)) == RouteValue(r)
  {
    assert Canon(RouteValue(r)).members == RouteValue(r).members;
  }

  lemma CanonEvidenceValue(e: EvidenceItem)
    ensures Canon(EvidenceValue(e)) == EvidenceValue(CanonEvidence(e))
    ensures CanonEvidence(CanonEvidence(e)) == CanonEvidence(e)
  {
    CanonFieldsTwice(e.metadata);
    assert Canon(EvidenceValue(e)).members == EvidenceValue(CanonEvidence(e)).members;
  }

  lemma CanonDiagnostic(d: Diagnostic)
    ensures Canon(DiagnosticValue(d)) == DiagnosticValue(d)
  {
    assert Canon(DiagnosticValue(d)).members == DiagnosticValue(d).members;
  }

  lemma CanonEvidenceValues(r: Rag)
    ensures Canon(RagValue(r).members[Evidence]) == RagValue(CanonRag(r)).members[Evidence]
    ensures CanonRag(CanonRag(r)) == CanonRag(r)
  {
    forall i | 0 <= i < |r.evidence|
      ensures Canon(EvidenceValue(r.evidence[i])) == EvidenceValue(CanonEvidence(r.evidence[i]))
      ensures CanonEvidence(CanonEvidence(r.evidence[i])) == CanonEvidence(r.evidence[i])
    {
      CanonEvidenceValue(r.evidence[i]);
    }
    CanonAllTwice(r.sources);
    assert CanonRag(CanonRag(r)).evidence == CanonRag(r).evidence;
    assert Canon(RagValue(r).members[Evidence]).items
           == RagValue(CanonRag(r)).members[Evidence].items;
  }

  lemma CanonDiagnosticValues(r: Rag)
    ensures Canon(RagValue(r).members[Diagnostics]) == RagValue(CanonRag(r)).members[Diagnostics]
  {
    forall i | 0 <= i < |r.diagnostics|
      ensures Canon(DiagnosticValue(r.diagnostics[i])) == DiagnosticValue(r.diagnostics[i])
    {
      CanonDiagnostic(r.diagnostics[i]);
    }
    assert Canon(RagValue(r).members[Diagnostics]).items
           == RagValue(CanonRag(r)).members[Diagnostics].items;
  }

  lemma CanonRagValue(r: Rag)
    ensures Canon(RagValue(r)) == RagValue(CanonRag(r))
    ensures CanonRag(CanonRag(r)) == CanonRag(r)
  {
    CanonEvidenceValues(r);
    CanonDiagnosticValues(r);
    CanonAllTwice(r.sources);
    CanonTexts(r.warnings);
    assert Canon(RagValue(r)).members == RagValue(CanonRag(r)).members;
  }

  lemma CanonScalars()
    ensures forall text :: Canon(Str(text)) == Str(text)
    ensures forall x :: Canon(Num(x)) == Num(x)
    ensures forall n :: Canon(Int(n)) == Int(n)
    ensures Canon(Null) == Null
  {}

  lemma {:induction false} CanonDict(v: Value, w: Value)
    requires v.Dict? && w.Dict? && v.members.Keys == w.members.Keys
    requires forall n :: n in v.members ==> Canon(v.members[n]) == w.members[n]
    ensures Canon(v) == w
  {
    assert Canon(v).members.Keys == w.members.Keys;
    assert forall n :: n in v.members ==> Canon(v).members[n] == w.members[n];
  }

  /** Filtering the payload filters the free-form parts, and doing so twice changes nothing. */
  lemma PayloadCanonical(o: Orchestration)
    ensures Canon(Payload(o)) == Payload(Canonical(o))
    ensures Canonical(Canonical(o)) == Canonical(o)
  {
    hide PolicyValue, IntentValue, RouteValue, RagValue, Dicts, CanonRag, CanonAll, Canon;
    CanonPolicy(o.policy);
    if o.intent.Some? { CanonIntent(o.intent.value); }
    if o.route.Some? { CanonRoute(o.route.value); }
    if o.rag.Some? { CanonRagValue(o.rag.value); }
    CanonAllTwice(o.citations);
    CanonScalars();
    CanonDict(Payload(o), Payload(Canonical(o)));
  }

  /******* Round trips *******/

  lemma TextsRead(xs: seq<string>)
    ensures AsTexts(Texts(xs)) == Ok(xs)
  {
    assert AsTexts(Texts(xs)).value == xs;
  }

  lemma DictsRead(xs: seq<Fields>)
    ensures AsAllFields(Dicts(xs)) == Ok(xs)
  {
    assert AsAllFields(Dicts(xs)).value == xs;
  }

  lemma PolicyRead(p: PolicyDecision)
    requires p.status in POLICY_STATUSES && Unit(p.confidence)
    ensures PolicyOf(PolicyValue(p)) == Ok(p)
  {
    TextsRead(p.matchedRules);
    TextsRead(p.warnings);
    hide AsTexts, Texts;
  }

  lemma IntentRead(rules: Rules, i: IntentOutcome)
    requires ValidIntent(rules, i)
    ensures IntentOf(rules, IntentValue(i)) == Ok(i)
  {
    TextsRead(i.alternatives);
    hide AsTexts, Texts;
  }

  lemma EvidenceRead(e: EvidenceItem)
    requires TextKeys(e.metadata)
    ensures EvidenceOf(EvidenceValue(e)) == Ok(e)
  {}

  lemma EvidenceListRead(xs: seq<EvidenceItem>)
    requires forall i :: 0 <= i < |xs| ==> TextKeys(xs[i].metadata)
    ensures AllEvidence(EvidenceValues(xs)) == Ok(xs)
  {
    hide EvidenceOf, EvidenceValue;
    forall i | 0 <= i < |xs| ensures EvidenceOf(EvidenceValue(xs[i])) == Ok(xs[i]) {
      EvidenceRead(xs[i]);
    }
    assert AllEvidence(EvidenceValues(xs)).value == xs;
  }

  lemma DiagnosticRead(d: Diagnostic)
    ensures DiagnosticOf(DiagnosticValue(d)) == Ok(d)
  {}

  lemma DiagnosticsRead(xs: seq<Diagnostic>)
    ensures AllDiagnostics(DiagnosticValues(xs)) == Ok(xs)
  {
    hide DiagnosticOf, DiagnosticValue;
    forall i | 0 <= i < |xs| ensures DiagnosticOf(DiagnosticValue(xs[i])) == Ok(xs[i]) {
      DiagnosticRead(xs[i]);
    }
    assert AllDiagnostics(DiagnosticValues(xs)).value == xs;
  }

  lemma RagRead(r: Rag)
    requires ValidRag(r)
    ensures RagOf(RagValue(r)) == Ok(r.(rawResponse := None))
  {
    hide EvidenceValues, DiagnosticValues, AllEvidence, AllDiagnostics, AsTexts, Texts, AsAllFields,
         Dicts;
    EvidenceListRead(r.evidence);
    DiagnosticsRead(r.diagnostics);
    TextsRead(r.warnings);
    DictsRead(r.sources);
  }

  /** A restored result: the current request's session and text, the given times, one replay step,
      default metadata, no raw response, the free-form parts as JSON, and the rest as it was
      executed. */
  function Restored(o: Orchestration, sessionId: string, text: string, replayedAt: int, now: int)
    : Orchestration
  {
    Canonical(o).(sessionId := sessionId, userInput := text, trace := [ReplayStep(o.confidence)],
                  metadata := DefaultMetadata(now), timestamp := replayedAt)
  }

  lemma PayloadRead(rules: Rules, o: Orchestration, sessionId: string, text: string,
                    replayedAt: int, now: int)
    requires Valid(rules, o)
    ensures Restore(rules, Payload(o), 1, sessionId, text, replayedAt, now) ==
              Ok(o.(sessionId := sessionId, userInput := text, timestamp := replayedAt,
                    trace := [ReplayStep(o.confidence)], metadata := DefaultMetadata(now),
                    rag := if o.rag.Some? then Some(o.rag.value.(rawResponse := None)) else None))
  {
    hide PolicyOf, PolicyValue, RagOf, IntentOf, AsAllFields, Dicts;
    PolicyRead(o.policy);
    OptionalsRead(rules, o);
    DictsRead(o.citations);
    hide OptionalIntent, OptionalRoute, OptionalRag, IntentValue, RouteValue, RagValue;
  }

  lemma OptionalsRead(rules: Rules, o: Orchestration)
    requires Valid(rules, o)
    ensures OptionalIntent(rules, Payload(o)) == Ok(o.intent)
    ensures OptionalRoute(rules, Payload(o)) == Ok(o.route)
    ensures OptionalRag(Payload(o))
            == Ok(if o.rag.Some? then Some(o.rag.value.(rawResponse := None)) else None)
  {
    hide RagOf, IntentOf, PolicyValue, Dicts;
    if o.intent.Some? { IntentRead(rules, o.intent.value); }
    if o.rag.Some? { RagRead(o.rag.value); }
  }

  /** Restoring a mapped result gives back the policy decision, the intent, the route, the answer,
      the RAG payload without its raw response, the citations and the confidence of the executed
      result, with tuples in free-form parts as lists.  `ReplayLosesExactly` says what is lost. */
  lemma RestoreMapped(rules: Rules, o: Orchestration, sessionId: string, text: string,
                      replayedAt: int, now: int)
    requires Valid(rules, o) && Map(rules, o).Ok?
    ensures Restore(rules, Map(rules, o).value, 1, sessionId, text, replayedAt, now)
            == Ok(Restored(o, sessionId, text, replayedAt, now))
  {
    hide Restore, Payload, CanonFields, CanonAll;
    PayloadCanonical(o);
    PayloadCanonical(Canonical(o));
    CanonicalValid(rules, o);
    PayloadRead(rules, Canonical(o), sessionId, text, replayedAt, now);
  }

  lemma CanonicalValid(rules: Rules, o: Orchestration)
    requires Valid(rules, o)
    ensures Valid(rules, Canonical(o))
  {}

  /******* When a result can be mapped *******/

  predicate FiniteIfAny(x: Option<Float>) {
    x.Some? ==> x.value.Finite?
  }

  predicate CleanAll(rules: Rules, xs: seq<Fields>) {
    forall i :: 0 <= i < |xs| ==> Clean(rules, Dict(xs[i]))
  }

  predicate StorableRag(rules: Rules, rag: Rag) {
    && CleanAll(rules, rag.sources)
    && (forall i :: 0 <= i < |rag.evidence| ==>
          FiniteIfAny(rag.evidence[i].score) && Clean(rules, Dict(rag.evidence[i].metadata)))
    && (forall i :: 0 <= i < |rag.diagnostics| ==> FiniteIfAny(rag.diagnostics[i].latencyMs))
  }

  /** The free-form parts are clean, the optional numbers finite, and the snapshot small enough. */
  predicate Storable(rules: Rules, o: Orchestration) {
    && CleanAll(rules, o.citations)
    && (o.rag.Some? ==> StorableRag(rules, o.rag.value))
    && rules.size(Payload(Canonical(o))) <= rules.maxBytes
  }

  lemma DictsCleanExactly(rules: Rules, xs: seq<Fields>)
    ensures Clean(rules, Dicts(xs)) <==> CleanAll(rules, xs)
  {
    assert forall i :: 0 <= i < |xs| ==> Dicts(xs).items[i] == Dict(xs[i]);
  }

  lemma EvidenceListClean(rules: Rules, rag: Rag)
    ensures Clean(rules, RagValue(rag).members[Evidence]) <==>
              forall i :: 0 <= i < |rag.evidence| ==>
                FiniteIfAny(rag.evidence[i].score) && Clean(rules, Dict(rag.evidence[i].metadata))
  {
    hide EvidenceValue;
    var items := RagValue(rag).members[Evidence].items;
    forall i | 0 <= i < |rag.evidence|
      ensures Clean(rules, items[i]) <==>
              FiniteIfAny(rag.evidence[i].score) && Clean(rules, Dict(rag.evidence[i].metadata))
    {
      EvidenceCleanExactly(rules, rag.evidence[i]);
    }
  }

  lemma DiagnosticListClean(rules: Rules, rag: Rag)
    ensures Clean(rules, RagValue(rag).members[Diagnostics]) <==>
              forall i :: 0 <= i < |rag.diagnostics| ==> FiniteIfAny(rag.diagnostics[i].latencyMs)
  {
    hide DiagnosticValue;
    var items := RagValue(rag).members[Diagnostics].items;
    forall i | 0 <= i < |rag.diagnostics|
      ensures Clean(rules, items[i]) <==> FiniteIfAny(rag.diagnostics[i].latencyMs)
    {
      DiagnosticCleanExactly(rules, rag.diagnostics[i]);
    }
  }

  lemma RagPartsClean(rules: Rules, rag: Rag)
    ensures
      var v := RagValue(rag);
      Clean(rules, v) <==>
        && Clean(rules, v.members[Evidence]) && Clean(rules, Dicts(rag.sources))
        && Clean(rules, v.members[Diagnostics])
  {
    hide Clean, EvidenceValue, DiagnosticValue, Dicts, Texts;
    TextsClean(rules, rag.warnings);
    ScalarsClean(rules);
    var v := RagValue(rag);
    DictClean(rules, v);
    assert Evidence in v.members && Sources in v.members && Diagnostics in v.members;
  }

  lemma RagCleanExactly(rules: Rules, rag: Rag)
    ensures Clean(rules, RagValue(rag)) <==> StorableRag(rules, rag)
  {
    hide Clean, EvidenceValue, DiagnosticValue, Dicts;
    RagPartsClean(rules, rag);
    EvidenceListClean(rules, rag);
    DiagnosticListClean(rules, rag);
    DictsCleanExactly(rules, rag.sources);
  }

  lemma ScalarsClean(rules: Rules)
    ensures forall text :: Clean(rules, Str(text))
    ensures forall x :: Clean(rules, Num(Finite(x)))
    ensures forall n :: Clean(rules, Int(n))
    ensures Clean(rules, Null)
  {}

  lemma TextsClean(rules: Rules, xs: seq<string>)
    ensures Clean(rules, Texts(xs))
  {}

  lemma DictClean(rules: Rules, v: Value)
    requires v.Dict? && forall n :: n in v.members ==> Admissible(rules, n)
    ensures Clean(rules, v) <==> forall n :: n in v.members ==> Clean(rules, v.members[n])
  {}

  lemma EvidenceCleanExactly(rules: Rules, e: EvidenceItem)
    ensures Clean(rules, EvidenceValue(e)) <==>
            FiniteIfAny(e.score) && Clean(rules, Dict(e.metadata))
  {
    var v := EvidenceValue(e);
    assert v.members.Keys == {SourceId, Title, SourcePath, Text, Score, Metadata};
    assert Clean(rules, v) <==> Clean(rules, v.members[Score]) && Clean(rules, v.members[Metadata]);
  }

  lemma DiagnosticCleanExactly(rules: Rules, d: Diagnostic)
    ensures Clean(rules, DiagnosticValue(d)) <==> FiniteIfAny(d.latencyMs)
  {
    var v := DiagnosticValue(d);
    assert v.members.Keys == {StepName, Provider, Success, ErrorType, Message, LatencyMs};
    assert Clean(rules, v) <==> Clean(rules, v.members[LatencyMs]);
  }

  lemma PolicyClean(rules: Rules, p: PolicyDecision)
    ensures Clean(rules, PolicyValue(p))
  {
    TextsClean(rules, p.matchedRules);
    TextsClean(rules, p.warnings);
    hide Texts;
  }

  lemma IntentClean(rules: Rules, i: IntentOutcome)
    ensures Clean(rules, IntentValue(i))
  {
    TextsClean(rules, i.alternatives);
    hide Texts;
  }

  lemma PayloadPartsClean(rules: Rules, o: Orchestration)
    ensures
      var v := Payload(o);
      Clean(rules, v) <==>
        && Clean(rules, v.members[Policy]) && Clean(rules, v.members[IntentResult])
        && Clean(rules, v.members[TaskRoute]) && Clean(rules, v.members[RagResult])
        && Clean(rules, v.members[Citations])
  {
    hide Clean, PolicyValue, IntentValue, RouteValue, RagValue, Dicts;
    ScalarsClean(rules);
    var v := Payload(o);
    DictClean(rules, v);
    assert Policy in v.members && IntentResult in v.members && TaskRoute in v.members;
    assert RagResult in v.members && Citations in v.members;
  }

  lemma PayloadCleanExactly(rules: Rules, o: Orchestration)
    ensures Clean(rules, Payload(o)) <==>
            CleanAll(rules, o.citations) && (o.rag.Some? ==> StorableRag(rules, o.rag.value))
  {
    hide Clean, PolicyValue, IntentValue, RouteValue, RagValue, Dicts, StorableRag, CleanAll;
    PayloadPartsClean(rules, o);
    PolicyClean(rules, o.policy);
    if o.intent.Some? { IntentClean(rules, o.intent.value); }
    if o.route.Some? { RouteClean(rules, o.route.value); }
    if o.rag.Some? { RagCleanExactly(rules, o.rag.value); }
    DictsCleanExactly(rules, o.citations);
    ScalarsClean(rules);
  }

  lemma RouteClean(rules: Rules, r: Route)
    ensures Clean(rules, RouteValue(r))
  {}

  /** The mapper succeeds exactly on the storable results. */
  lemma MapsExactly(rules: Rules, o: Orchestration)
    ensures Map(rules, o)
            == if Storable(rules, o) then Ok(Payload(Canonical(o))) else Err(SnapshotRejected)
  {
    hide Payload, Canonical, Clean, Canon;
    PayloadCleanExactly(rules, o);
    PayloadCanonical(o);
    PayloadCanonical(Canonical(o));
    CanonClean(rules, Payload(o));
    DictsCleanExactly(rules, o.citations);
    if o.rag.Some? { DictsCleanExactly(rules, o.rag.value.sources); }
  }

  /******* What a snapshot says *******/

  ghost predicate Says(v: Value, name: Name, x: Value) {
    v.Dict? && name in v.members && v.members[name] == x
  }

  ghost predicate SaysPolicy(v: Value, p: PolicyDecision) {
    && Says(v, Status, Str(p.status)) && Says(v, Reason, Str(p.reason))
    && Says(v, ClassifierUsed, Bool(p.classifierUsed))
    && Says(v, Confidence, Num(Finite(p.confidence)))
    && Says(v, MatchedRules, Texts(p.matchedRules)) && Says(v, Warnings, Texts(p.warnings))
    && |v.members| == 6
  }

  ghost predicate SaysIntent(v: Value, i: IntentOutcome) {
    && Says(v, Intent, Str(i.intent)) && Says(v, Confidence, Num(Finite(i.confidence)))
    && Says(v, Reasoning, Str(i.reasoning)) && Says(v, AlternativeIntents, Texts(i.alternatives))
  }

  ghost predicate SaysRoute(v: Value, r: Route) {
    && Says(v, Task, Str(r.task)) && Says(v, Confidence, Num(Finite(r.confidence)))
    && Says(v, Reason, Str(r.reason))
  }

  ghost predicate SaysEvidence(v: Value, e: EvidenceItem) {
    && Says(v, SourceId, Str(e.sourceId)) && Says(v, Text, Str(e.text))
    && Says(v, Title, OptionalText(e.title)) && Says(v, SourcePath, OptionalText(e.sourcePath))
    && Says(v, Score, OptionalNum(e.score))
  }

  ghost predicate SaysDiagnostic(v: Value, d: Diagnostic) {
    && Says(v, StepName, Str(d.stepName)) && Says(v, Provider, Str(d.provider))
    && Says(v, Success, Bool(d.success)) && Says(v, ErrorType, OptionalText(d.errorType))
    && Says(v, Message, OptionalText(d.message)) && Says(v, LatencyMs, OptionalNum(d.latencyMs))
  }

  /** The answer of a provider, without its raw response. */
  ghost predicate SaysRag(v: Value, r: Rag) {
    && Says(v, Answer, Str(r.answer)) && Says(v, Provider, Str(r.provider))
    && Says(v, Confidence, Num(Finite(r.confidence))) && Says(v, Warnings, Texts(r.warnings))
    && v.members.Keys == {Answer, Evidence, Sources, Confidence, Warnings, Provider, Diagnostics}
    && v.members[Evidence].List? && |v.members[Evidence].items| == |r.evidence|
    && (forall k :: 0 <= k < |r.evidence| ==>
          SaysEvidence(v.members[Evidence].items[k], r.evidence[k]))
    && v.members[Diagnostics].List? && |v.members[Diagnostics].items| == |r.diagnostics|
    && (forall k :: 0 <= k < |r.diagnostics| ==>
          SaysDiagnostic(v.members[Diagnostics].items[k], r.diagnostics[k]))
  }

  lemma ItemSays(e: EvidenceItem)
    ensures SaysEvidence(EvidenceValue(CanonEvidence(e)), e)
  {
    hide CanonFields;
  }

  lemma DiagnosticSays(d: Diagnostic)
    ensures SaysDiagnostic(DiagnosticValue(d), d)
  {}

  lemma PayloadSays(o: Orchestration)
    ensures
      var v := Payload(o);
      && Says(v, SchemaVersion, Int(1)) && Says(v, FinalResponse, Str(o.finalResponse))
      && Says(v, Confidence, Num(Finite(o.confidence))) && Says(v, Policy, PolicyValue(o.policy))
      && Says(v, IntentResult, if o.intent.Some? then IntentValue(o.intent.value) else Null)
      && Says(v, TaskRoute, if o.route.Some? then RouteValue(o.route.value) else Null)
      && Says(v, RagResult, if o.rag.Some? then RagValue(o.rag.value) else Null)
      && v.members.Keys == {SchemaVersion, Policy, IntentResult, TaskRoute, FinalResponse,
                            RagResult, Citations, Confidence}
  {
    hide PolicyValue, IntentValue, RouteValue, RagValue, Dicts;
  }

  lemma PartsSay(o: Orchestration)
    ensures SaysPolicy(PolicyValue(o.policy), o.policy)
    ensures o.intent.Some? ==> SaysIntent(IntentValue(o.intent.value), o.intent.value)
    ensures o.route.Some? ==> SaysRoute(RouteValue(o.route.value), o.route.value)
  {}

  lemma RagSays(r: Rag)
    ensures SaysRag(RagValue(CanonRag(r)), r)
  {
    hide CanonEvidence, CanonAll, Texts, Dicts, EvidenceValue, DiagnosticValue, SaysEvidence,
         SaysDiagnostic;
    var v := RagValue(CanonRag(r));
    forall k | 0 <= k < |r.evidence|
      ensures SaysEvidence(v.members[Evidence].items[k], r.evidence[k])
    {
      ItemSays(r.evidence[k]);
    }
    forall k | 0 <= k < |r.diagnostics|
      ensures SaysDiagnostic(v.members[Diagnostics].items[k], r.diagnostics[k])
    {
      DiagnosticSays(r.diagnostics[k]);
    }
  }

  /** A mapped result is stored under the names of the snapshot format: its version, and every field
      of the result but the raw response, the trace, the session, the input and the metadata. */
  lemma SnapshotSays(rules: Rules, o: Orchestration)
    requires Map(rules, o).Ok?
    ensures
      var v := Map(rules, o).value;
      && Says(v, SchemaVersion, Int(1)) && Says(v, FinalResponse, Str(o.finalResponse))
      && Says(v, Confidence, Num(Finite(o.confidence)))
      && v.members.Keys == {SchemaVersion, Policy, IntentResult, TaskRoute, FinalResponse,
                            RagResult, Citations, Confidence}
      && SaysPolicy(v.members[Policy], o.policy)
      && (if o.intent.Some? then SaysIntent(v.members[IntentResult], o.intent.value)
          else v.members[IntentResult] == Null)
      && (if o.route.Some? then SaysRoute(v.members[TaskRoute], o.route.value)
          else v.members[TaskRoute] == Null)
      && (if o.rag.Some? then SaysRag(v.members[RagResult], o.rag.value)
          else v.members[RagResult] == Null)
  {
    hide Map, Storable, Payload, CanonRag, CanonAll, PolicyValue, IntentValue, RouteValue, RagValue,
         SaysPolicy, SaysIntent, SaysRoute, SaysRag;
    MapsExactly(rules, o);
    PayloadSays(Canonical(o));
    PartsSay(o);
    if o.rag.Some? { RagSays(o.rag.value); }
  }

  /******* What a restored result guarantees *******/

  /** The value of a member, whatever kind of mapping holds it. */
  ghost predicate Holds(v: Value, name: Name, x: Value) {
    Mapping(v) && name in v.members && v.members[name] == x
  }

  lemma PolicySound(v: Value)
    ensures PolicyOf(v).Ok? ==>
              var p := PolicyOf(v).value;
              && p.status in POLICY_STATUSES && Unit(p.confidence)
              && Holds(v, Status, Str(p.status)) && Holds(v, Reason, Str(p.reason))
              && Holds(v, ClassifierUsed, Bool(p.classifierUsed))
              && Holds(v, Confidence, Num(Finite(p.confidence)))
  {
    hide AsTexts;
  }

  lemma OptionalsSound(rules: Rules, v: Value)
    requires Mapping(v)
    ensures OptionalIntent(rules, v).Ok? ==>
              match OptionalIntent(rules, v).value
              case None => IntentResult in v.members ==> v.members[IntentResult] == Null
              case Some(i) => ValidIntent(rules, i) && IntentResult in v.members
                              && Holds(v.members[IntentResult], Intent, Str(i.intent))
    ensures OptionalRoute(rules, v).Ok? ==>
              match OptionalRoute(rules, v).value
              case None => TaskRoute in v.members ==> v.members[TaskRoute] == Null
              case Some(r) => ValidRoute(rules, r) && TaskRoute in v.members
                              && Holds(v.members[TaskRoute], Task, Str(r.task))
  {
    hide AsTexts;
  }

  lemma RagSound(v: Value)
    requires Mapping(v)
    ensures OptionalRag(v).Ok? ==>
              match OptionalRag(v).value
              case None => RagResult in v.members ==> v.members[RagResult] == Null
              case Some(r) => ValidRag(r) && r.rawResponse == None && RagResult in v.members
                              && Holds(v.members[RagResult], Answer, Str(r.answer))
                              && Holds(v.members[RagResult], Provider, Str(r.provider))
  {
    hide AsTexts, AllDiagnostics, AsAllFields;
  }

  /** Another version of the snapshot is refused as such, and anything else that is refused is a
      rejected snapshot. */
  lemma RestoreRefuses(rules: Rules, v: Value, version: int, sessionId: string, text: string,
                       replayedAt: int, now: int)
    ensures
      var r := Restore(rules, v, version, sessionId, text, replayedAt, now);
      && (version != 1 <==> r == Err(SnapshotVersionUnsupported))
      && (r.Err? && version == 1 ==> r == Err(SnapshotRejected))
      && (r.Ok? ==> Holds(v, SchemaVersion, Int(1)))
  {
    hide PolicyOf, OptionalIntent, OptionalRoute, OptionalRag, CitationsOf;
    if Mapping(v) { OnlyRejected(rules, v); }
  }

  lemma RestoreShape(rules: Rules, v: Value, version: int, sessionId: string, text: string,
                     replayedAt: int, now: int)
    requires Restore(rules, v, version, sessionId, text, replayedAt, now).Ok?
    ensures
      var o := Restore(rules, v, version, sessionId, text, replayedAt, now).value;
      && Mapping(v) && Policy in v.members && PolicyOf(v.members[Policy]) == Ok(o.policy)
      && OptionalIntent(rules, v) == Ok(o.intent) && OptionalRoute(rules, v) == Ok(o.route)
      && OptionalRag(v) == Ok(o.rag)
      && Holds(v, FinalResponse, Str(o.finalResponse))
      && Holds(v, Confidence, Num(Finite(o.confidence))) && Unit(o.confidence)
      && o.sessionId == sessionId && o.userInput == text && o.timestamp == replayedAt
      && o.trace == [ReplayStep(o.confidence)] && o.metadata == DefaultMetadata(now)
  {
    hide PolicyOf, OptionalIntent, OptionalRoute, OptionalRag, CitationsOf;
  }

  /** What is restored is a valid result of the current request, read from the snapshot, whatever
      the snapshot is. */
  lemma RestoreSound(rules: Rules, v: Value, version: int, sessionId: string, text: string,
                     replayedAt: int, now: int)
    requires Restore(rules, v, version, sessionId, text, replayedAt, now).Ok?
    ensures
      var o := Restore(rules, v, version, sessionId, text, replayedAt, now).value;
      && Valid(rules, o)
      && o.sessionId == sessionId && o.userInput == text && o.timestamp == replayedAt
      && |o.trace| == 1 && o.trace[0].stepName == "idempotency_replay"
      && o.trace[0].confidence == Some(Finite(o.confidence)) && o.metadata.timestamp == now
      && Holds(v, FinalResponse, Str(o.finalResponse))
      && Holds(v, Confidence, Num(Finite(o.confidence)))
      && Policy in v.members && Holds(v.members[Policy], Status, Str(o.policy.status))
      && Holds(v.members[Policy], Reason, Str(o.policy.reason))
  {
    hide Restore, PolicyOf, OptionalIntent, OptionalRoute, OptionalRag, ValidIntent, ValidRoute,
         ValidRag;
    RestoreShape(rules, v, version, sessionId, text, replayedAt, now);
    PolicySound(v.members[Policy]);
    OptionalsSound(rules, v);
    RagSound(v);
  }

  /** Every reader fails with the one error. */
  lemma OnlyRejected(rules: Rules, v: Value)
    requires Mapping(v)
    ensures Policy in v.members && PolicyOf(v.members[Policy]).Err? ==>
              PolicyOf(v.members[Policy]) == Err(SnapshotRejected)
    ensures OptionalIntent(rules, v).Err? ==> OptionalIntent(rules, v) == Err(SnapshotRejected)
    ensures OptionalRoute(rules, v).Err? ==> OptionalRoute(rules, v) == Err(SnapshotRejected)
    ensures OptionalRag(v).Err? ==> OptionalRag(v) == Err(SnapshotRejected)
    ensures CitationsOf(v).Err? ==> CitationsOf(v) == Err(SnapshotRejected)
  {}
}
