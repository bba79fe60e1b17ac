/** How the PostgreSQL repository hands out a stored snapshot: lists as tuples and objects as
    read-only mappings, all the way down. */
module Freezing {
  import opened Wrappers
  import opened Json

  function Frozen(v: Value): Value {
    match v
    case List(items) => Tuple(seq(|items|, i requires 0 <= i < |items| => Frozen(items[i])))
    case Dict(members) => Proxy(map name | name in members :: Frozen(members[name]))
    case Proxy(members) => Proxy(map name | name in members :: Frozen(members[name]))
    case _ => v
  }

  /** A value without tuples and without anything that is no JSON value. */
  predicate Freezable(v: Value) {
    match v
    case List(items) => forall i :: 0 <= i < |items| ==> Freezable(items[i])
    case Dict(members) => forall name :: name in members ==> Freezable(members[name])
    case Proxy(members) => forall name :: name in members ==> Freezable(members[name])
    case Tuple(_) => false
    case Opaque => false
    case _ => true
  }

  function Freeze(v: Value): Result<Value> {
    if Freezable(v) then Ok(Frozen(v)) else Err(InvalidState)
  }

  /** Every JSON value can be frozen, and only a list or an object is changed by it. */
  lemma {:induction false} JsonFreezes(v: Value)
    requires IsJson(v)
    ensures Freeze(v) == Ok(Frozen(v))
    ensures Frozen(v) == v <==> !v.List? && !v.Dict?
    decreases v
  {
    match v
    case List(items) =>
      forall i | 0 <= i < |items| ensures Freezable(items[i]) { JsonFreezes(items[i]); }
    case Dict(members) =>
      forall name | name in members ensures Freezable(members[name]) {
        JsonFreezes(members[name]);
      }
    case _ =>
  }
}
