/** What a replay does not give back, exactly, from the plain and from the frozen snapshot. */
module ReplayLoss {
  import opened Wrappers
  import opened Json
  import opened SafeJson
  import opened SnapshotMapper
  import opened Freezing
  import opened FrozenSnapshots

  /** The same result up to session, text, times and trace, which belong to the request. */
  predicate SameResult(o: Orchestration, r: Orchestration) {
    r == o.(sessionId := r.sessionId, userInput := r.userInput, trace := r.trace,
            timestamp := r.timestamp, metadata := o.metadata.(timestamp := r.metadata.timestamp))
  }

  /** No tuple in any list or object of the value. */
  predicate Tupleless(v: Value) {
    match v
    case List(items) => forall i :: 0 <= i < |items| ==> Tupleless(items[i])
    case Dict(members) => forall name :: name in members ==> Tupleless(members[name])
    case Tuple(_) => false
    case _ => true
  }

  /** Tuples and scalars only: no list and no object. */
  predicate Frosty(v: Value) {
    match v
    case Tuple(items) => forall i :: 0 <= i < |items| ==> Frosty(items[i])
    case List(_) => false
    case Dict(_) => false
    case _ => true
  }

  predicate Scalar(v: Value) {
    !v.List? && !v.Tuple? && !v.Dict?
  }

  predicate Everywhere(p: Value -> bool, fields: Fields) {
    forall name :: name in fields ==> p(fields[name])
  }

  /** The values of a result's free-form parts: evidence metadata, sources and citations. */
  predicate Parts(p: Value -> bool, o: Orchestration) {
    && (forall i :: 0 <= i < |o.citations| ==> Everywhere(p, o.citations[i]))
    && (o.rag.Some? ==>
          && (forall i :: 0 <= i < |o.rag.value.sources| ==> Everywhere(p, o.rag.value.sources[i]))
          && (forall i :: 0 <= i < |o.rag.value.evidence| ==>
                Everywhere(p, o.rag.value.evidence[i].metadata)))
  }

  /******* One value *******/

  lemma {:induction false} CanonExactly(v: Value)
    ensures Canon(v) == v <==> Tupleless(v)
    decreases v
  {
    match v
    case List(items) =>
      forall i | 0 <= i < |items| ensures Canon(items[i]) == items[i] <==> Tupleless(items[i]) {
        CanonExactly(items[i]);
      }
      assert forall i :: 0 <= i < |items| ==> Canon(v).items[i] == Canon(items[i]);
      if Tupleless(v) { assert Canon(v).items == items; }
    case Dict(members) =>
      forall n | n in members ensures Canon(members[n]) == members[n] <==> Tupleless(members[n]) {
        CanonExactly(members[n]);
      }
      assert forall n :: n in members ==> Canon(v).members[n] == Canon(members[n]);
      if Tupleless(v) { assert Canon(v).members == members; }
    case _ =>
  }

  lemma {:induction false} FrozenCanonExactly(rules: Rules, v: Value)
    requires Clean(rules, v)
    ensures Frozen(Canon(v)) == v <==> Frosty(v)
    decreases v
  {
    match v
    case Tuple(items) =>
      forall i | 0 <= i < |items| ensures Frozen(Canon(items[i])) == items[i] <==> Frosty(items[i])
      {
        FrozenCanonExactly(rules, items[i]);
      }
      var frozen := Frozen(Canon(v)).items;
      assert forall i :: 0 <= i < |items| ==> frozen[i] == Frozen(Canon(v).items[i]);
      assert forall i :: 0 <= i < |items| ==> frozen[i] == Frozen(Canon(items[i]));
      if Frosty(v) { assert frozen == items; }
    case _ =>
  }

  /** On what no longer holds tuples. */
  predicate Flat(v: Value) {
    !v.List? && !v.Dict?
  }

  /******* A whole result *******/

  /** The result with every value of its free-form parts replaced. */
  function MapFields(g: Value -> Value, fields: Fields): Fields {
    map name | name in fields :: g(fields[name])
  }

  function MapAll(g: Value -> Value, xs: seq<Fields>): seq<Fields> {
    seq(|xs|, i requires 0 <= i < |xs| => MapFields(g, xs[i]))
  }

  function MapItems(g: Value -> Value, xs: seq<EvidenceItem>): seq<EvidenceItem> {
    seq(|xs|, i requires 0 <= i < |xs| => xs[i].(metadata := MapFields(g, xs[i].metadata)))
  }

  function MapParts(g: Value -> Value, o: Orchestration): Orchestration {
    o.(citations := MapAll(g, o.citations),
       rag := if o.rag.None? then None
              else Some(o.rag.value.(evidence := MapItems(g, o.rag.value.evidence),
                                     sources := MapAll(g, o.rag.value.sources))))
  }

  function WithoutRaw(o: Orchestration): Orchestration {
    if o.rag.None? then o else o.(rag := Some(o.rag.value.(rawResponse := None)))
  }

  /** On clean values, `p` says what `g` leaves as it is. */
  ghost predicate Fixes(rules: Rules, g: Value -> Value, p: Value -> bool) {
    forall v :: Clean(rules, v) ==> (g(v) == v <==> p(v))
  }

  lemma FieldsExactly(rules: Rules, g: Value -> Value, p: Value -> bool, fields: Fields)
    requires Fixes(rules, g, p) && Clean(rules, Dict(fields))
    ensures MapFields(g, fields) == fields <==> Everywhere(p, fields)
  {
    if Everywhere(p, fields) { assert MapFields(g, fields) == fields; }
    if MapFields(g, fields) == fields {
      forall name | name in fields ensures p(fields[name]) {
        assert MapFields(g, fields)[name] == g(fields[name]);
      }
    }
  }

  lemma AllExactly(rules: Rules, g: Value -> Value, p: Value -> bool, xs: seq<Fields>)
    requires Fixes(rules, g, p) && CleanAll(rules, xs)
    ensures MapAll(g, xs) == xs <==> forall i :: 0 <= i < |xs| ==> Everywhere(p, xs[i])
  {
    hide Everywhere, MapFields, Fixes, Clean;
    forall i | 0 <= i < |xs| ensures MapFields(g, xs[i]) == xs[i] <==> Everywhere(p, xs[i]) {
      FieldsExactly(rules, g, p, xs[i]);
    }
    assert forall i :: 0 <= i < |xs| ==> MapAll(g, xs)[i] == MapFields(g, xs[i]);
    if forall i :: 0 <= i < |xs| ==> Everywhere(p, xs[i]) { assert MapAll(g, xs) == xs; }
  }

  lemma ItemsExactly(rules: Rules, g: Value -> Value, p: Value -> bool, xs: seq<EvidenceItem>)
    requires Fixes(rules, g, p)
    requires forall i :: 0 <= i < |xs| ==> Clean(rules, Dict(xs[i].metadata))
    ensures MapItems(g, xs) == xs
       <==> forall i :: 0 <= i < |xs| ==> Everywhere(p, xs[i].metadata)
  {
    hide Everywhere, MapFields, Fixes, Clean;
    forall i | 0 <= i < |xs|
      ensures MapFields(g, xs[i].metadata) == xs[i].metadata <==> Everywhere(p, xs[i].metadata)
    {
      FieldsExactly(rules, g, p, xs[i].metadata);
    }
    assert forall i :: 0 <= i < |xs| ==>
             MapItems(g, xs)[i] == xs[i].(metadata := MapFields(g, xs[i].metadata));
    if forall i :: 0 <= i < |xs| ==> Everywhere(p, xs[i].metadata) {
      assert MapItems(g, xs) == xs;
    }
  }

  predicate CleanParts(rules: Rules, o: Orchestration) {
    && CleanAll(rules, o.citations)
    && (o.rag.Some? ==>
          && CleanAll(rules, o.rag.value.sources)
          && forall i :: 0 <= i < |o.rag.value.evidence| ==>
               Clean(rules, Dict(o.rag.value.evidence[i].metadata)))
  }

  lemma PartsExactly(rules: Rules, g: Value -> Value, p: Value -> bool, o: Orchestration)
    requires Fixes(rules, g, p) && CleanParts(rules, o)
    ensures MapParts(g, o) == o <==> Parts(p, o)
  {
    hide Everywhere, MapAll, MapItems, Fixes, Clean, CleanAll;
    AllExactly(rules, g, p, o.citations);
    if o.rag.Some? {
      AllExactly(rules, g, p, o.rag.value.sources);
      ItemsExactly(rules, g, p, o.rag.value.evidence);
    }
  }

  lemma CanonAllMaps(xs: seq<Fields>)
    ensures CanonAll(xs) == MapAll(Canon, xs)
  {
    forall i | 0 <= i < |xs| ensures CanonAll(xs)[i] == MapAll(Canon, xs)[i] {
      assert CanonFields(xs[i]) == MapFields(Canon, xs[i]);
    }
  }

  lemma CanonicalMaps(o: Orchestration)
    ensures Canonical(o) == WithoutRaw(MapParts(Canon, o))
  {
    CanonAllMaps(o.citations);
    if o.rag.Some? {
      var rag := o.rag.value;
      CanonAllMaps(rag.sources);
      forall i | 0 <= i < |rag.evidence|
        ensures CanonRag(rag).evidence[i] == MapItems(Canon, rag.evidence)[i]
      {
        assert CanonFields(rag.evidence[i].metadata)
            == MapFields(Canon, rag.evidence[i].metadata);
      }
      assert CanonRag(rag).evidence == MapItems(Canon, rag.evidence);
    }
  }

  function FrozenCanon(v: Value): Value {
    Frozen(Canon(v))
  }

  lemma FrozenFieldsMap(fields: Fields)
    ensures FrozenFields(MapFields(Canon, fields)) == MapFields(FrozenCanon, fields)
  {
    hide Canon, Frozen;
  }

  lemma FrozenAllMaps(xs: seq<Fields>)
    ensures FrozenAll(MapAll(Canon, xs)) == MapAll(FrozenCanon, xs)
  {
    forall i | 0 <= i < |xs| ensures FrozenAll(MapAll(Canon, xs))[i] == MapAll(FrozenCanon, xs)[i] {
      FrozenFieldsMap(xs[i]);
    }
  }

  lemma FrozenItemsMap(xs: seq<EvidenceItem>)
    ensures FrozenItems(MapItems(Canon, xs)) == MapItems(FrozenCanon, xs)
  {
    forall i | 0 <= i < |xs|
      ensures FrozenItems(MapItems(Canon, xs))[i] == MapItems(FrozenCanon, xs)[i]
    {
      FrozenFieldsMap(xs[i].metadata);
    }
  }

  lemma FrozenMaps(o: Orchestration)
    ensures FrozenParts(Canonical(o)) == WithoutRaw(MapParts(FrozenCanon, o))
  {
    hide FrozenAll, FrozenItems, MapAll, MapItems, Canonical;
    CanonicalMaps(o);
    FrozenAllMaps(o.citations);
    if o.rag.Some? {
      FrozenAllMaps(o.rag.value.sources);
      FrozenItemsMap(o.rag.value.evidence);
    }
  }

  lemma StorableIsClean(rules: Rules, o: Orchestration)
    requires Storable(rules, o)
    ensures CleanParts(rules, o)
  {
    hide Clean, CleanAll;
  }

  lemma CanonicalFields(rules: Rules, fields: Fields)
    requires Clean(rules, Dict(fields))
    ensures Clean(rules, Dict(CanonFields(fields)))
    ensures Everywhere(Flat, CanonFields(fields)) <==> Everywhere(Scalar, fields)
  {
    CanonClean(rules, Dict(fields));
    assert Canon(Dict(fields)) == Dict(CanonFields(fields));
    forall name | name in fields ensures Flat(CanonFields(fields)[name]) == Scalar(fields[name]) {}
  }

  lemma CanonicalParts(rules: Rules, o: Orchestration)
    requires CleanParts(rules, o)
    ensures CleanParts(rules, Canonical(o))
    ensures Parts(Flat, Canonical(o)) <==> Parts(Scalar, o)
  {
    hide Clean, Everywhere, CanonFields;
    forall fields | Clean(rules, Dict(fields))
      ensures Clean(rules, Dict(CanonFields(fields)))
      ensures Everywhere(Flat, CanonFields(fields)) <==> Everywhere(Scalar, fields)
    {
      CanonicalFields(rules, fields);
    }
    var c := Canonical(o);
    assert forall i :: 0 <= i < |o.citations| ==> c.citations[i] == CanonFields(o.citations[i]);
    if o.rag.Some? {
      var rag, rag' := o.rag.value, c.rag.value;
      assert forall i :: 0 <= i < |rag.sources| ==> rag'.sources[i] == CanonFields(rag.sources[i]);
      assert forall i :: 0 <= i < |rag.evidence| ==>
               rag'.evidence[i].metadata == CanonFields(rag.evidence[i].metadata);
    }
  }

  lemma FrozenIsMap(o: Orchestration)
    ensures FrozenParts(o) == MapParts(Frozen, o)
  {
    hide Frozen;
    forall fields ensures FrozenFields(fields) == MapFields(Frozen, fields) {}
    assert FrozenAll(o.citations) == MapAll(Frozen, o.citations);
    if o.rag.Some? {
      var rag := o.rag.value;
      assert FrozenAll(rag.sources) == MapAll(Frozen, rag.sources);
      assert FrozenItems(rag.evidence) == MapItems(Frozen, rag.evidence);
    }
  }

  /** The two repositories give back the same result if and only if there is no list, tuple or object
      in its free-form parts. */
  lemma FrozenSameExactly(rules: Rules, o: Orchestration, sessionId: string, text: string,
                          replayedAt: int, now: int)
    requires Storable(rules, o)
    ensures
      var r := Restored(o, sessionId, text, replayedAt, now);
      FrozenParts(r) == r <==> Parts(Scalar, o)
  {
    hide MapParts, Canonical, Parts, Storable, CleanParts, FrozenAll, FrozenOptionalRag;
    StorableIsClean(rules, o);
    CanonicalParts(rules, o);
    FrozenIsMap(Canonical(o));
    forall v | Clean(rules, v) ensures Frozen(v) == v <==> Flat(v) {}
    PartsExactly(rules, Frozen, Flat, Canonical(o));
  }

  /******* What is lost *******/

  /** The metadata that no snapshot holds, and the raw response that none may hold. */
  predicate NothingDropped(o: Orchestration) {
    && o.metadata == DefaultMetadata(o.metadata.timestamp)
    && (o.rag.Some? ==> o.rag.value.rawResponse.None?)
  }

  lemma DroppedExactly(g: Value -> Value, o: Orchestration, r: Orchestration, now: int)
    requires r == WithoutRaw(MapParts(g, o)).(sessionId := r.sessionId, userInput := r.userInput,
               trace := r.trace, timestamp := r.timestamp, metadata := DefaultMetadata(now))
    ensures SameResult(o, r) <==> NothingDropped(o) && MapParts(g, o) == o
  {}

  /** Restored from the plain snapshot, a result is the executed one, up to session, text, times and
      trace, if and only if its metadata is the default, it has no raw response and there is no tuple
      in its free-form parts. */
  lemma ReplayLosesExactly(rules: Rules, o: Orchestration, sessionId: string, text: string,
                           replayedAt: int, now: int)
    requires Storable(rules, o)
    ensures SameResult(o, Restored(o, sessionId, text, replayedAt, now))
       <==> NothingDropped(o) && Parts(Tupleless, o)
  {
    hide MapParts, Canonical, Parts, WithoutRaw, SameResult, NothingDropped, Storable, CleanParts;
    CanonicalMaps(o);
    forall v ensures Canon(v) == v <==> Tupleless(v) { CanonExactly(v); }
    StorableIsClean(rules, o);
    PartsExactly(rules, Canon, Tupleless, o);
    DroppedExactly(Canon, o, Restored(o, sessionId, text, replayedAt, now), now);
  }

  lemma FrozenRestored(o: Orchestration, sessionId: string, text: string, replayedAt: int, now: int)
    ensures
      var r := FrozenParts(Restored(o, sessionId, text, replayedAt, now));
      r == FrozenParts(Canonical(o)).(sessionId := sessionId, userInput := text,
             trace := [ReplayStep(o.confidence)], timestamp := replayedAt,
             metadata := DefaultMetadata(now))
  {
    hide FrozenAll, FrozenRag, CanonRag, CanonAll;
  }

  /** Restored from the frozen snapshot, it is the executed one if and only if its metadata is the
      default, it has no raw response and there is no list and no object in its free-form parts. */
  lemma FrozenReplayLosesExactly(rules: Rules, o: Orchestration, sessionId: string, text: string,
                                 replayedAt: int, now: int)
    requires Storable(rules, o)
    ensures SameResult(o, FrozenParts(Restored(o, sessionId, text, replayedAt, now)))
       <==> NothingDropped(o) && Parts(Frosty, o)
  {
    hide MapParts, Canonical, Parts, WithoutRaw, SameResult, NothingDropped, Storable, CleanParts,
         FrozenParts, Restored;
    FrozenMaps(o);
    FrozenRestored(o, sessionId, text, replayedAt, now);
    forall v | Clean(rules, v) ensures FrozenCanon(v) == v <==> Frosty(v) {
      FrozenCanonExactly(rules, v);
    }
    StorableIsClean(rules, o);
    PartsExactly(rules, FrozenCanon, Frosty, o);
    DroppedExactly(FrozenCanon, o, FrozenParts(Restored(o, sessionId, text, replayedAt, now)), now);
  }

  /******* Inputs *******/

  /** A blocked request: the coordinator records the intent and the latency. */
  const BLOCKED := Orchestration(
    "session", "text", PolicyDecision("BLOCKED", "reason", [], [], false, 1.0), None, None,
    "refused", None, [], 1.0, [],
    InteractionMetadata("session", Some("blocked"), Some(Finite(1.0)), [], 0, 0, 0, Finite(0.0),
                        12, 0),
    0)

  /** Not even a result without any free-form part is given back as a whole. */
  lemma BlockedLoses(rules: Rules, sessionId: string, text: string, replayedAt: int, now: int)
    requires rules.size(Payload(Canonical(BLOCKED))) <= rules.maxBytes
    ensures Valid(rules, BLOCKED) && Map(rules, BLOCKED).Ok?
    ensures !SameResult(BLOCKED, Restored(BLOCKED, sessionId, text, replayedAt, now))
  {
    hide Map, Payload, Canonical;
    MapsExactly(rules, BLOCKED);
    ReplayLosesExactly(rules, BLOCKED, sessionId, text, replayedAt, now);
  }

  const PAGES: Fields := map[Title := Str("t"), Free("pages") := List([Int(1), Int(2)])]

  /** A result with an external citation that lists its pages. */
  const CITED := BLOCKED.(
    policy := PolicyDecision("SAFE", "reason", [], [], false, 1.0),
    rag := Some(Rag("answer", [EvidenceItem("t", Some("t"), None, "", None, PAGES)], [], 1.0, [],
                    "external", [], None)))

  lemma PagesClean(rules: Rules)
    requires LowersAscii(rules)
    ensures Clean(rules, Dict(PAGES))
  {
    assert AsciiLowered("pages") == "pages" && |"pages"| == 5;
    assert "pages"[0] == 'p' && "debug"[0] == 'd' && "token"[0] == 't' && "email"[0] == 'e';
    assert rules.lower("pages") !in FORBIDDEN;
  }

  /** The pages come back as a list from the plain snapshot and as a tuple from the frozen one. */
  lemma PagesDiffer(rules: Rules, sessionId: string, text: string, replayedAt: int, now: int)
    requires LowersAscii(rules)
    requires rules.size(Payload(Canonical(CITED))) <= rules.maxBytes
    ensures Valid(rules, CITED) && Map(rules, CITED).Ok?
    ensures
      var r := Restored(CITED, sessionId, text, replayedAt, now);
      && r.rag.value.evidence[0].metadata == PAGES
      && FrozenParts(r).rag.value.evidence[0].metadata
         == PAGES[Free("pages") := Tuple([Int(1), Int(2)])]
  {
    hide Map, Payload, Clean;
    PagesClean(rules);
    MapsExactly(rules, CITED);
    var pages := List([Int(1), Int(2)]);
    assert Canon(pages).items == pages.items;
    assert Frozen(pages).items == pages.items;
    assert CanonFields(PAGES) == PAGES;
    assert FrozenFields(PAGES) == PAGES[Free("pages") := Tuple([Int(1), Int(2)])];
  }
}
