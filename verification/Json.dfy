/** The Python values a replay snapshot is built from, and the JSON values among them. */
module Json {

  /** Member names.  The names the snapshot mapper writes itself are constructors, every other
      string is `Free`, and `NonString` stands for a dictionary key that is no string. */
  datatype Name =
    | SchemaVersion | Policy | IntentResult | TaskRoute | FinalResponse | RagResult
    | Citations | Confidence
    | Status | Reason | MatchedRules | Warnings | ClassifierUsed
    | Intent | Reasoning | AlternativeIntents | Task
    | Answer | Evidence | Sources | Provider | Diagnostics
    | SourceId | Title | SourcePath | Text | Score | Metadata
    | StepName | Success | ErrorType | Message | LatencyMs
    | Free(text: string)
    | NonString(tag: int)

  /** Floats are finite reals, or one of the values JSON cannot write. */
  datatype Float = Finite(value: real) | NonFinite

  datatype Value =
    | Null
    | Bool(flag: bool)
    | Int(number: int)
    | Num(float: Float)
    | Str(text: string)
    | List(items: seq<Value>)
    | Tuple(items: seq<Value>)
    | Dict(members: map<Name, Value>)
    | Proxy(members: map<Name, Value>)  // a read-only view of a dictionary
    | Opaque

  /** What a JSON text reads back as. */
  predicate IsJson(v: Value) {
    match v
    case Num(f) => f.Finite?
    case List(items) => forall i :: 0 <= i < |items| ==> IsJson(items[i])
    case Dict(members) => forall n :: n in members ==> !n.NonString? && IsJson(members[n])
    case Tuple(_) => false
    case Proxy(_) => false
    case Opaque => false
    case _ => true
  }

  /** A JSON object. */
  type Object = v: Value | v.Dict? && IsJson(v) witness Dict(map[])
}
