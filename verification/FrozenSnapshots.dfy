/** What the replay mapper makes of a frozen snapshot: the same result, with the values inside its
    free-form parts frozen. */
module FrozenSnapshots {
  import opened Wrappers
  import opened Json
  import opened SafeJson
  import opened SnapshotMapper
  import opened Freezing

  function FrozenFields(fields: Fields): Fields {
    map name | name in fields :: Frozen(fields[name])
  }

  function FrozenAll(xs: seq<Fields>): seq<Fields> {
    seq(|xs|, i requires 0 <= i < |xs| => FrozenFields(xs[i]))
  }

  function FrozenEvidence(e: EvidenceItem): EvidenceItem {
    e.(metadata := FrozenFields(e.metadata))
  }

  function FrozenItems(xs: seq<EvidenceItem>): seq<EvidenceItem> {
    seq(|xs|, i requires 0 <= i < |xs| => FrozenEvidence(xs[i]))
  }

  function FrozenRag(rag: Rag): Rag {
    rag.(evidence := FrozenItems(rag.evidence), sources := FrozenAll(rag.sources))
  }

  function FrozenOptionalRag(rag: Option<Rag>): Option<Rag> {
    if rag.Some? then Some(FrozenRag(rag.value)) else None
  }

  function FrozenParts(o: Orchestration): Orchestration {
    o.(rag := FrozenOptionalRag(o.rag), citations := FrozenAll(o.citations))
  }

  /******* The readers, one by one *******/

  /** The reader refuses both, or reads from the frozen value the `f` of what it reads from the
      plain one. */
  ghost predicate Thaws<T(!new)>(plain: Result<T>, frozen: Result<T>, f: T -> T) {
    match (plain, frozen)
    case (Ok(x), Ok(y)) => y == f(x)
    case (Err(e), Err(e')) => e == e'
    case _ => false
  }

  lemma FieldFrozen(v: Value, name: Name)
    requires IsJson(v)
    ensures Thaws(Field(v, name), Field(Frozen(v), name), Frozen)
    ensures Field(v, name).Ok? ==> IsJson(Field(v, name).value)
    ensures Missing(Frozen(v), name) == Missing(v, name)
  {}

  lemma ScalarsFrozen(v: Value)
    ensures AsText(Frozen(v)) == AsText(v) && AsBool(Frozen(v)) == AsBool(v)
    ensures AsUnit(Frozen(v)) == AsUnit(v) && AsOptionalText(Frozen(v)) == AsOptionalText(v)
    ensures AsOptionalNum(Frozen(v)) == AsOptionalNum(v)
  {}

  lemma TextsFrozen(v: Value)
    requires IsJson(v)
    ensures AsTexts(Frozen(v)) == AsTexts(v)
  {
    if v.List? {
      forall i | 0 <= i < |v.items| ensures Frozen(v).items[i].Str? == v.items[i].Str?
      {
        assert Frozen(v).items[i] == Frozen(v.items[i]);
      }
      if AsTexts(v).Ok? {
        forall i | 0 <= i < |v.items| ensures Frozen(v).items[i] == v.items[i] {
          assert Frozen(v).items[i] == Frozen(v.items[i]);
        }
        assert AsTexts(Frozen(v)).value == AsTexts(v).value;
      }
    }
  }

  lemma FieldsFrozen(v: Value)
    requires IsJson(v)
    ensures Thaws(AsFields(v), AsFields(Frozen(v)), FrozenFields)
  {}

  lemma AllFieldsFrozen(v: Value)
    requires IsJson(v)
    ensures Thaws(AsAllFields(v), AsAllFields(Frozen(v)), FrozenAll)
  {
    if v.List? {
      forall i | 0 <= i < |v.items|
        ensures Mapping(Frozen(v).items[i]) == Mapping(v.items[i])
        ensures Mapping(v.items[i]) ==>
                  Frozen(v).items[i].members == FrozenFields(v.items[i].members)
      {
        assert Frozen(v).items[i] == Frozen(v.items[i]);
      }
      if AsAllFields(v).Ok? {
        assert AsAllFields(Frozen(v)).value == FrozenAll(AsAllFields(v).value);
      }
    }
  }

  /** A member read without its free-form parts. */
  lemma MemberFrozen(v: Value, name: Name)
    requires IsJson(v)
    ensures
      match (Field(v, name), Field(Frozen(v), name))
      case (Ok(x), Ok(y)) =>
        && y == Frozen(x) && IsJson(x)
        && AsText(y) == AsText(x) && AsBool(y) == AsBool(x) && AsUnit(y) == AsUnit(x)
        && AsOptionalText(y) == AsOptionalText(x) && AsOptionalNum(y) == AsOptionalNum(x)
        && AsTexts(y) == AsTexts(x)
      case (Err(e), Err(f)) => e == f
      case _ => false
  {
    hide Frozen, IsJson, AsText, AsBool, AsUnit, AsOptionalText, AsOptionalNum, AsTexts, Field;
    FieldFrozen(v, name);
    if Field(v, name).Ok? {
      ScalarsFrozen(Field(v, name).value);
      TextsFrozen(Field(v, name).value);
    }
  }

  lemma OnlyFieldsFrozen(v: Value, names: set<Name>)
    ensures OnlyFields(Frozen(v), names) == OnlyFields(v, names)
  {
    if Mapping(v) {
      assert Frozen(v).members.Keys == v.members.Keys;
    }
  }

  lemma PolicyFrozen(v: Value)
    requires IsJson(v)
    ensures PolicyOf(Frozen(v)) == PolicyOf(v)
  {
    hide Frozen, IsJson, Field, AsText, AsBool, AsUnit, AsTexts, OnlyFields;
    OnlyFieldsFrozen(v, {Status, Reason, MatchedRules, Warnings, ClassifierUsed, Confidence});
    MemberFrozen(v, Status);
    MemberFrozen(v, Reason);
    MemberFrozen(v, MatchedRules);
    MemberFrozen(v, Warnings);
    MemberFrozen(v, ClassifierUsed);
    MemberFrozen(v, Confidence);
  }

  lemma IntentFrozen(rules: Rules, v: Value)
    requires IsJson(v)
    ensures IntentOf(rules, Frozen(v)) == IntentOf(rules, v)
  {
    hide Frozen, IsJson, Field, AsText, AsUnit, AsTexts, ValidIntent;
    MemberFrozen(v, Intent);
    MemberFrozen(v, Confidence);
    MemberFrozen(v, Reasoning);
    MemberFrozen(v, AlternativeIntents);
  }

  lemma RouteFrozen(rules: Rules, v: Value)
    requires IsJson(v)
    ensures RouteOf(rules, Frozen(v)) == RouteOf(rules, v)
  {
    hide Frozen, IsJson, Field, AsText, AsUnit;
    MemberFrozen(v, Task);
    MemberFrozen(v, Confidence);
    MemberFrozen(v, Reason);
  }

  lemma EvidenceFrozen(v: Value)
    requires IsJson(v)
    ensures Thaws(EvidenceOf(v), EvidenceOf(Frozen(v)), FrozenEvidence)
  {
    hide Frozen, IsJson, Field, AsText, AsOptionalText, AsOptionalNum, AsFields;
    MemberFrozen(v, SourceId);
    MemberFrozen(v, Title);
    MemberFrozen(v, SourcePath);
    MemberFrozen(v, Text);
    MemberFrozen(v, Score);
    MemberFrozen(v, Metadata);
    if Field(v, Metadata).Ok? {
      FieldsFrozen(Field(v, Metadata).value);
    }
  }

  lemma DiagnosticFrozen(v: Value)
    requires IsJson(v)
    ensures DiagnosticOf(Frozen(v)) == DiagnosticOf(v)
  {
    hide Frozen, IsJson, Field, AsText, AsBool, AsOptionalText, AsOptionalNum;
    MemberFrozen(v, StepName);
    MemberFrozen(v, Provider);
    MemberFrozen(v, Success);
    MemberFrozen(v, ErrorType);
    MemberFrozen(v, Message);
    MemberFrozen(v, LatencyMs);
  }

  lemma AllEvidenceFrozen(v: Value)
    requires IsJson(v)
    ensures Thaws(AllEvidence(v), AllEvidence(Frozen(v)), FrozenItems)
  {
    hide EvidenceOf;
    if v.List? {
      forall i | 0 <= i < |v.items|
        ensures Thaws(EvidenceOf(v.items[i]), EvidenceOf(Frozen(v).items[i]), FrozenEvidence)
      {
        assert Frozen(v).items[i] == Frozen(v.items[i]);
        EvidenceFrozen(v.items[i]);
      }
      if AllEvidence(v).Ok? {
        assert AllEvidence(Frozen(v)).value == FrozenItems(AllEvidence(v).value);
      }
    }
  }

  lemma AllDiagnosticsFrozen(v: Value)
    requires IsJson(v)
    ensures AllDiagnostics(Frozen(v)) == AllDiagnostics(v)
  {
    hide DiagnosticOf;
    if v.List? {
      forall i | 0 <= i < |v.items|
        ensures DiagnosticOf(Frozen(v).items[i]) == DiagnosticOf(v.items[i])
      {
        assert Frozen(v).items[i] == Frozen(v.items[i]);
        DiagnosticFrozen(v.items[i]);
      }
      if AllDiagnostics(v).Ok? {
        assert AllDiagnostics(Frozen(v)).value == AllDiagnostics(v).value;
      }
    }
  }

  lemma RagFrozen(v: Value)
    requires IsJson(v)
    ensures Thaws(RagOf(v), RagOf(Frozen(v)), FrozenRag)
  {
    hide Frozen, IsJson, Field, AsText, AsUnit, AsTexts, AllEvidence, AllDiagnostics, AsAllFields,
         FrozenItems, FrozenAll;
    MemberFrozen(v, Answer);
    MemberFrozen(v, Evidence);
    MemberFrozen(v, Sources);
    MemberFrozen(v, Confidence);
    MemberFrozen(v, Warnings);
    MemberFrozen(v, Provider);
    MemberFrozen(v, Diagnostics);
    if Field(v, Evidence).Ok? { AllEvidenceFrozen(Field(v, Evidence).value); }
    if Field(v, Sources).Ok? { AllFieldsFrozen(Field(v, Sources).value); }
    if Field(v, Diagnostics).Ok? { AllDiagnosticsFrozen(Field(v, Diagnostics).value); }
  }

  /******* The whole result *******/

  lemma OptionalsFrozen(rules: Rules, v: Value)
    requires IsJson(v)
    ensures OptionalIntent(rules, Frozen(v)) == OptionalIntent(rules, v)
    ensures OptionalRoute(rules, Frozen(v)) == OptionalRoute(rules, v)
    ensures Thaws(OptionalRag(v), OptionalRag(Frozen(v)), FrozenOptionalRag)
  {
    hide Frozen, IsJson, Field, IntentOf, RouteOf, RagOf, Missing, FrozenRag;
    FieldFrozen(v, IntentResult);
    FieldFrozen(v, TaskRoute);
    FieldFrozen(v, RagResult);
    if Field(v, IntentResult).Ok? { IntentFrozen(rules, Field(v, IntentResult).value); }
    if Field(v, TaskRoute).Ok? { RouteFrozen(rules, Field(v, TaskRoute).value); }
    if Field(v, RagResult).Ok? { RagFrozen(Field(v, RagResult).value); }
  }

  lemma CitationsFrozen(v: Value)
    requires IsJson(v)
    ensures Thaws(CitationsOf(v), CitationsOf(Frozen(v)), FrozenAll)
  {
    hide AsAllFields;
    FieldFrozen(v, Citations);
    assert FrozenAll([]) == [];
    if Field(v, Citations).Ok? { AllFieldsFrozen(Field(v, Citations).value); }
  }

  lemma HeaderFrozen(v: Value)
    requires IsJson(v)
    ensures Mapping(Frozen(v)) == Mapping(v)
    ensures Mapping(v) ==>
              && (SchemaVersion in Frozen(v).members <==> SchemaVersion in v.members)
              && (SchemaVersion in v.members ==>
                    (Frozen(v).members[SchemaVersion] == Int(1))
                      == (v.members[SchemaVersion] == Int(1)))
  {}

  /** From a frozen snapshot the mapper restores what it restores from the plain one, with the values
      in free-form parts frozen, and it refuses the one exactly when it refuses the other. */
  lemma RestoreFrozen(rules: Rules, v: Value, version: int, sessionId: string, text: string,
                      replayedAt: int, now: int)
    requires IsJson(v)
    ensures Thaws(Restore(rules, v, version, sessionId, text, replayedAt, now),
                  Restore(rules, Frozen(v), version, sessionId, text, replayedAt, now),
                  FrozenParts)
  {
    hide Frozen, IsJson, Field, PolicyOf, OptionalIntent, OptionalRoute, OptionalRag, CitationsOf,
         AsText, AsUnit, FrozenRag, FrozenAll, Mapping;
    HeaderFrozen(v);
    MemberFrozen(v, Policy);
    MemberFrozen(v, FinalResponse);
    MemberFrozen(v, Confidence);
    if Field(v, Policy).Ok? { PolicyFrozen(Field(v, Policy).value); }
    OptionalsFrozen(rules, v);
    CitationsFrozen(v);
  }
}
