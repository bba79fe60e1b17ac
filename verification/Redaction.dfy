/** Redaction of an arbitrary graph of objects, cyclic or not, for logs. */
module Redaction {
  import opened Wrappers

  /** The identity of an object. */
  type Ref = nat

  /** An object as the redactor sees it.  A pydantic model is the mapping it dumps.  `Failing` is an
      iterable that raises after it has yielded some items. */
  datatype Node =
    | Plain(tag: int)
    | SecretText
    | Text(text: string)
    | Bytes
    | Error(name: string)
    | Mapping(entries: map<string, Ref>)
    | Items(tuple: bool, items: seq<Ref>)
    | Failing(yielded: seq<Ref>)
    | Other(printed: Option<string>)

  type Graph = map<Ref, Node>

  /** Every reference leads to an object. */
  ghost predicate Closed(g: Graph) {
    forall r :: r in g ==> Children(g, g[r])
  }

  datatype Output =
    | Redacted
    | MaxDepth
    | Cycle
    | Unprintable
    | Kept(tag: int)
    | Cleaned(text: string)
    | ErrorType(name: string)
    | Dict(members: map<string, Output>)
    | Sequence(tuple: bool, parts: seq<Output>)

  /** Which keys are sensitive, and what is left of a text. */
  datatype Rules = Rules(sensitive: string -> bool, clean: string -> string)

  const MAX_DEPTH: nat := 8

  /** Objects whose identity is remembered while they are redacted. */
  predicate Tracked(node: Node) {
    node.Mapping? || node.Items? || node.Failing? || node.Other?
  }

  predicate Hidden(rules: Rules, key: Option<string>) {
    key.Some? && key.value != "" && rules.sensitive(key.value)
  }

  /** The result for one object; `seen` are the objects being redacted around it. */
  ghost function Redact(rules: Rules, g: Graph, r: Ref, key: Option<string>, depth: nat,
                        seen: set<Ref>): Output
    requires Closed(g) && r in g && depth <= MAX_DEPTH + 1
    decreases MAX_DEPTH + 1 - depth, 1
  {
    if Hidden(rules, key) then Redacted
    else if depth > MAX_DEPTH then MaxDepth
    else if !Tracked(g[r]) then Leaf(rules, g[r])
    else if r in seen then Cycle
    else Inside(rules, g, g[r], depth, seen + {r})
  }

  function Leaf(rules: Rules, node: Node): Output
    requires !Tracked(node)
  {
    match node
    case Plain(tag) => Kept(tag)
    case SecretText => Redacted
    case Text(text) => Cleaned(rules.clean(text))
    case Bytes => Redacted
    case Error(name) => ErrorType(name)
  }

  ghost predicate Children(g: Graph, node: Node) {
    match node
    case Mapping(entries) => forall k :: k in entries ==> entries[k] in g
    case Items(_, items) => forall i :: 0 <= i < |items| ==> items[i] in g
    case Failing(items) => forall i :: 0 <= i < |items| ==> items[i] in g
    case _ => true
  }

  /** The result for a mapping: every entry under its own key. */
  ghost function Entries(rules: Rules, g: Graph, entries: map<string, Ref>, depth: nat,
                         seen: set<Ref>): (out: Output)
    requires Closed(g) && depth <= MAX_DEPTH + 1
    requires forall k :: k in entries ==> entries[k] in g
    ensures out.Dict?
    decreases MAX_DEPTH + 1 - depth, 2
  {
    if depth > MAX_DEPTH then Dict(map["value" := MaxDepth])
    else Dict(map k | k in entries :: Redact(rules, g, entries[k], Some(k), depth, seen))
  }

  ghost function Inside(rules: Rules, g: Graph, node: Node, depth: nat, seen: set<Ref>): Output
    requires Closed(g) && Tracked(node) && Children(g, node) && depth <= MAX_DEPTH
    decreases MAX_DEPTH + 1 - depth, 0
  {
    match node
    case Mapping(entries) => Entries(rules, g, entries, depth + 1, seen)
    case Items(tuple, items) =>
      Sequence(tuple, seq(|items|, i requires 0 <= i < |items| =>
                            Redact(rules, g, items[i], None, depth + 1, seen)))
    case Failing(_) => Redacted
    case Other(printed) =>
      if printed.Some? then Cleaned(rules.clean(printed.value)) else Unprintable
  }

  /******* The recursion with its shared set *******/

  class Redactor {
    const rules: Rules
    var active: set<Ref>

    constructor (rules: Rules)
      ensures this.rules == rules && active == {}
    {
      this.rules := rules;
      active := {};
    }

    /** Whatever the object is and however its traversal ends, the set of active objects is what it
        was before. */
    method RedactValue(g: Graph, r: Ref, key: Option<string>, depth: nat) returns (out: Output)
      requires Closed(g) && r in g && depth <= MAX_DEPTH + 1
      modifies this`active
      ensures active == old(active)
      ensures out == Redact(rules, g, r, key, depth, old(active))
      decreases MAX_DEPTH + 1 - depth, 4
    {
      if Hidden(rules, key) {
        return Redacted;
      }
      if depth > MAX_DEPTH {
        return MaxDepth;
      }
      if !Tracked(g[r]) {
        return Leaf(rules, g[r]);
      }
      if r in active {
        return Cycle;
      }
      active := active + {r};
      out := RedactInside(g, g[r], depth);
      active := active - {r};
      assert active == old(active);
    }

    method RedactInside(g: Graph, node: Node, depth: nat) returns (out: Output)
      requires Closed(g) && Tracked(node) && Children(g, node) && depth <= MAX_DEPTH
      modifies this`active
      ensures active == old(active)
      ensures out == Inside(rules, g, node, depth, old(active))
      decreases MAX_DEPTH + 1 - depth, 3
    {
      match node {
        case Mapping(entries) => out := RedactMapping(g, entries, depth + 1);
        case Items(tuple, items) =>
          var parts := RedactItems(g, items, depth);
          out := Sequence(tuple, parts);
        case Failing(yielded) =>
          var _ := RedactItems(g, yielded, depth);
          out := Redacted;
        case Other(printed) =>
          out := if printed.Some? then Cleaned(rules.clean(printed.value)) else Unprintable;
      }
    }

    method RedactMapping(g: Graph, entries: map<string, Ref>, depth: nat) returns (out: Output)
      requires Closed(g) && depth <= MAX_DEPTH + 1
      requires forall k :: k in entries ==> entries[k] in g
      modifies this`active
      ensures active == old(active)
      ensures out == Entries(rules, g, entries, depth, old(active))
      decreases MAX_DEPTH + 1 - depth, 5
    {
      if depth > MAX_DEPTH {
        return Dict(map["value" := MaxDepth]);
      }
      var result: map<string, Output> := map[];
      var pending := entries.Keys;
      while pending != {}
        invariant pending <= entries.Keys && active == old(active)
        invariant result == map k | k in entries.Keys - pending ::
                    Redact(rules, g, entries[k], Some(k), depth, old(active))
        decreases |pending|
      {
        var k :| k in pending;
        pending := pending - {k};
        var item := RedactValue(g, entries[k], Some(k), depth);
        result := result[k := item];
      }
      return Dict(result);
    }

    method RedactItems(g: Graph, items: seq<Ref>, depth: nat) returns (parts: seq<Output>)
      requires Closed(g) && depth <= MAX_DEPTH
      requires forall i :: 0 <= i < |items| ==> items[i] in g
      modifies this`active
      ensures active == old(active)
      ensures parts == seq(|items|, i requires 0 <= i < |items| =>
                             Redact(rules, g, items[i], None, depth + 1, old(active)))
      decreases MAX_DEPTH + 1 - depth, 0
    {
      parts := [];
      for n := 0 to |items|
        invariant active == old(active)
        invariant parts == seq(n, i requires 0 <= i < n =>
                                 Redact(rules, g, items[i], None, depth + 1, old(active)))
      {
        var part := RedactValue(g, items[n], None, depth + 1);
        parts := parts + [part];
      }
    }
  }

  /******* Positions *******/

  datatype Step = Under(key: string) | At(index: nat)

  function Child(node: Node, step: Step): Option<Ref> {
    match (node, step)
    case (Mapping(entries), Under(k)) => if k in entries then Some(entries[k]) else None
    case (Items(_, items), At(i)) => if i < |items| then Some(items[i]) else None
    case _ => None
  }

  /** The objects along a path, the first one included and the last one not. */
  ghost function Above(g: Graph, r: Ref, path: seq<Step>): set<Ref>
    decreases |path|
  {
    if path == [] || r !in g || Child(g[r], path[0]).None? then {}
    else {r} + Above(g, Child(g[r], path[0]).value, path[1..])
  }

  /** The object at the end of a path. */
  function Follow(g: Graph, r: Ref, path: seq<Step>): Option<Ref>
    decreases |path|
  {
    if path == [] then Some(r)
    else if r !in g || Child(g[r], path[0]).None? then None
    else Follow(g, Child(g[r], path[0]).value, path[1..])
  }

  function Part(out: Output, path: seq<Step>): Option<Output>
    decreases |path|
  {
    if path == [] then Some(out)
    else match (out, path[0])
      case (Dict(members), Under(k)) =>
        if k in members then Part(members[k], path[1..]) else None
      case (Sequence(_, parts), At(i)) => if i < |parts| then Part(parts[i], path[1..]) else None
      case _ => None
  }

  /** The part of the result at a first step is the result for the child there, with the object
      itself among the active ones; the one exception is the stand-in for a mapping too deep. */
  lemma FirstStep(rules: Rules, g: Graph, r: Ref, key: Option<string>, depth: nat, seen: set<Ref>,
                  path: seq<Step>)
    requires Closed(g) && r in g && depth <= MAX_DEPTH + 1 && path != []
    requires Part(Redact(rules, g, r, key, depth, seen), path).Some?
    ensures
      || (path == [Under("value")]
          && Part(Redact(rules, g, r, key, depth, seen), path) == Some(MaxDepth))
      || (&& depth <= MAX_DEPTH && r !in seen
          && var child := Child(g[r], path[0]);
          && child.Some? && child.value in g
          && var childKey := if path[0].Under? then Some(path[0].key) else None;
          Part(Redact(rules, g, r, key, depth, seen), path)
            == Part(Redact(rules, g, child.value, childKey, depth + 1, seen + {r}), path[1..]))
  {
    if g[r].Mapping? && depth <= MAX_DEPTH {
      var inside := Inside(rules, g, g[r], depth, seen + {r});
      assert inside == Entries(rules, g, g[r].entries, depth + 1, seen + {r});
    }
  }

  /** A cycle marker stands only for an object that is active around it. */
  lemma {:induction false} CycleIsActive(rules: Rules, g: Graph, r: Ref, key: Option<string>,
                                         depth: nat, seen: set<Ref>, path: seq<Step>)
    requires Closed(g) && r in g && depth <= MAX_DEPTH + 1
    requires Part(Redact(rules, g, r, key, depth, seen), path) == Some(Cycle)
    ensures Follow(g, r, path).Some?
    ensures Follow(g, r, path).value in seen + Above(g, r, path)
    decreases |path|
  {
    if path != [] {
      FirstStep(rules, g, r, key, depth, seen, path);
      var child := Child(g[r], path[0]).value;
      var childKey := if path[0].Under? then Some(path[0].key) else None;
      CycleIsActive(rules, g, child, childKey, depth + 1, seen + {r}, path[1..]);
    }
  }

  /** An object that is active around its position is never redacted again: what stands there is
      the cycle marker, unless its key or its depth has already hidden it. */
  lemma {:induction false} ActiveIsCycle(rules: Rules, g: Graph, r: Ref, key: Option<string>,
                                         depth: nat, seen: set<Ref>, path: seq<Step>)
    requires Closed(g) && r in g && depth <= MAX_DEPTH + 1
    requires Part(Redact(rules, g, r, key, depth, seen), path).Some?
    requires Follow(g, r, path).Some? && Follow(g, r, path).value in g
    requires Tracked(g[Follow(g, r, path).value])
    requires Follow(g, r, path).value in seen + Above(g, r, path)
    ensures Part(Redact(rules, g, r, key, depth, seen), path).value in {Cycle, Redacted, MaxDepth}
    decreases |path|
  {
    if path != [] {
      FirstStep(rules, g, r, key, depth, seen, path);
      if Part(Redact(rules, g, r, key, depth, seen), path) != Some(MaxDepth) {
        var child := Child(g[r], path[0]).value;
        var childKey := if path[0].Under? then Some(path[0].key) else None;
        ActiveIsCycle(rules, g, child, childKey, depth + 1, seen + {r}, path[1..]);
      }
    }
  }

  /** Within one root call a cycle marker appears only where an object is its own ancestor on the
      path that leads to it; an object that is merely shared is redacted each time. */
  lemma CycleIsAncestor(rules: Rules, g: Graph, root: Ref, path: seq<Step>)
    requires Closed(g) && root in g
    requires Part(Redact(rules, g, root, None, 0, {}), path) == Some(Cycle)
    ensures Follow(g, root, path).Some? && Follow(g, root, path).value in Above(g, root, path)
  {
    CycleIsActive(rules, g, root, None, 0, {}, path);
  }

  /** The same for the root call on a mapping, as the log formatter makes it: each entry is redacted
      on its own, and a cycle marker inside it stands only for an ancestor on the path from it. */
  lemma EntryCycleIsAncestor(rules: Rules, g: Graph, entries: map<string, Ref>, path: seq<Step>)
    requires Closed(g) && forall k :: k in entries ==> entries[k] in g
    requires Part(Entries(rules, g, entries, 0, {}), path) == Some(Cycle)
    ensures path != [] && path[0].Under? && path[0].key in entries
    ensures
      var r := entries[path[0].key];
      Follow(g, r, path[1..]).Some? && Follow(g, r, path[1..]).value in Above(g, r, path[1..])
  {
    var k := path[0].key;
    CycleIsActive(rules, g, entries[k], Some(k), 0, {}, path[1..]);
  }

  /** A sensitive key hides its value, at every depth and whatever the value is. */
  lemma {:induction false} SensitiveHidden(rules: Rules, g: Graph, r: Ref, key: Option<string>,
                                           depth: nat, seen: set<Ref>, path: seq<Step>, k: string)
    requires Closed(g) && r in g && depth <= MAX_DEPTH + 1
    requires k != "" && rules.sensitive(k)
    requires path != [] && path[|path| - 1] == Under(k)
    requires Part(Redact(rules, g, r, key, depth, seen), path).Some?
    ensures Part(Redact(rules, g, r, key, depth, seen), path).value in {Redacted, MaxDepth}
    decreases |path|
  {
    FirstStep(rules, g, r, key, depth, seen, path);
    if Part(Redact(rules, g, r, key, depth, seen), path) != Some(MaxDepth) && |path| > 1 {
      var child := Child(g[r], path[0]).value;
      var childKey := if path[0].Under? then Some(path[0].key) else None;
      SensitiveHidden(rules, g, child, childKey, depth + 1, seen + {r}, path[1..], k);
    }
  }

  /** The same for the root call on a mapping, for its own keys and for those at every depth. */
  lemma EntryHidden(rules: Rules, g: Graph, entries: map<string, Ref>, path: seq<Step>, k: string)
    requires Closed(g) && forall e :: e in entries ==> entries[e] in g
    requires k != "" && rules.sensitive(k)
    requires path != [] && path[|path| - 1] == Under(k)
    requires Part(Entries(rules, g, entries, 0, {}), path).Some?
    ensures Part(Entries(rules, g, entries, 0, {}), path).value in {Redacted, MaxDepth}
  {
    var key := path[0].key;
    if |path| > 1 {
      SensitiveHidden(rules, g, entries[key], Some(key), 0, {}, path[1..], k);
    }
  }

  /******* What stands at every position *******/

  /** What is shown of an object that is found at a depth, under a key, and perhaps inside
      itself. */
  ghost predicate Shown(rules: Rules, node: Node, key: Option<string>, depth: nat, active: bool,
                        out: Output)
  {
    if key.Some? && key.value != "" && rules.sensitive(key.value) then out == Redacted
    else if depth > 8 then out == MaxDepth
    else match node
      case Plain(tag) => out == Kept(tag)
      case SecretText => out == Redacted
      case Bytes => out == Redacted
      case Text(text) => out == Cleaned(rules.clean(text))
      case Error(name) => out == ErrorType(name)
      case Mapping(entries) =>
        if active then out == Cycle
        else if depth == 8 then out == Dict(map["value" := MaxDepth])
        else out.Dict? && out.members.Keys == entries.Keys
      case Items(tuple, items) =>
        if active then out == Cycle
        else out.Sequence? && out.tuple == tuple && |out.parts| == |items|
      case Failing(_) => out == if active then Cycle else Redacted
      case Other(printed) =>
        if active then out == Cycle
        else if printed.Some? then out == Cleaned(rules.clean(printed.value))
        else out == Unprintable
  }

  function LastKey(path: seq<Step>, key: Option<string>): Option<string> {
    if path == [] then key
    else match path[|path| - 1]
      case Under(k) => Some(k)
      case At(_) => None
  }

  lemma ShownAtOnce(rules: Rules, g: Graph, r: Ref, key: Option<string>, depth: nat,
                    seen: set<Ref>)
    requires Closed(g) && r in g && depth <= MAX_DEPTH + 1
    ensures Shown(rules, g[r], key, depth, r in seen, Redact(rules, g, r, key, depth, seen))
  {
    if g[r].Mapping? && depth <= MAX_DEPTH && r !in seen {
      assert Inside(rules, g, g[r], depth, seen + {r})
          == Entries(rules, g, g[r].entries, depth + 1, seen + {r});
    }
  }

  lemma OnlyTooDeep(rules: Rules, g: Graph, r: Ref, key: Option<string>, depth: nat, seen: set<Ref>)
    requires Closed(g) && r in g && depth <= MAX_DEPTH + 1
    ensures Redact(rules, g, r, key, depth, seen) == MaxDepth ==> depth > MAX_DEPTH
  {
    ShownAtOnce(rules, g, r, key, depth, seen);
  }

  lemma StandInDepth(rules: Rules, g: Graph, r: Ref, key: Option<string>, depth: nat,
                     seen: set<Ref>)
    requires Closed(g) && r in g && depth <= MAX_DEPTH + 1
    requires Part(Redact(rules, g, r, key, depth, seen), [Under("value")]) == Some(MaxDepth)
    ensures depth + 1 > MAX_DEPTH
  {
    FirstStep(rules, g, r, key, depth, seen, [Under("value")]);
    if depth < MAX_DEPTH {
      var entries := g[r].entries;
      assert Redact(rules, g, r, key, depth, seen)
          == Entries(rules, g, entries, depth + 1, seen + {r});
      OnlyTooDeep(rules, g, entries["value"], Some("value"), depth + 1, seen + {r});
    }
  }

  /** Every part of a result shows the object at its position: a text is what the rules leave of it,
      secrets, bytes and values under sensitive keys are the marker, and a mapping or a list has a
      part for each of its own.  The one exception is the stand-in inside a mapping too deep. */
  lemma {:induction false} PartShown(rules: Rules, g: Graph, r: Ref, key: Option<string>, depth: nat,
                                     seen: set<Ref>, path: seq<Step>)
    requires Closed(g) && r in g && depth <= MAX_DEPTH + 1
    requires Part(Redact(rules, g, r, key, depth, seen), path).Some?
    ensures
      var out := Part(Redact(rules, g, r, key, depth, seen), path).value;
      || (&& path != [] && path[|path| - 1] == Under("value") && out == MaxDepth
          && depth + |path| > MAX_DEPTH)
      || (&& Follow(g, r, path).Some? && Follow(g, r, path).value in g
          && var o := Follow(g, r, path).value;
          Shown(rules, g[o], LastKey(path, key), depth + |path|, o in seen + Above(g, r, path), out))
    decreases |path|
  {
    if path == [] {
      ShownAtOnce(rules, g, r, key, depth, seen);
    } else {
      FirstStep(rules, g, r, key, depth, seen, path);
      hide Redact, Shown;
      var out := Part(Redact(rules, g, r, key, depth, seen), path).value;
      if path == [Under("value")] && out == MaxDepth {
        StandInDepth(rules, g, r, key, depth, seen);
      } else {
        var child := Child(g[r], path[0]).value;
        var childKey := if path[0].Under? then Some(path[0].key) else None;
        PartShown(rules, g, child, childKey, depth + 1, seen + {r}, path[1..]);
        assert LastKey(path[1..], childKey) == LastKey(path, key);
      }
    }
  }

  /** The same for the root call on a mapping. */
  lemma EntryShown(rules: Rules, g: Graph, entries: map<string, Ref>, path: seq<Step>)
    requires Closed(g) && forall k :: k in entries ==> entries[k] in g
    requires path != [] && Part(Entries(rules, g, entries, 0, {}), path).Some?
    ensures path[0].Under? && path[0].key in entries
    ensures
      var out := Part(Entries(rules, g, entries, 0, {}), path).value;
      var r, rest := entries[path[0].key], path[1..];
      || (rest != [] && rest[|rest| - 1] == Under("value") && out == MaxDepth && |rest| > MAX_DEPTH)
      || (&& Follow(g, r, rest).Some? && Follow(g, r, rest).value in g
          && var o := Follow(g, r, rest).value;
          Shown(rules, g[o], LastKey(path, None), |rest|, o in Above(g, r, rest), out))
  {
    hide Redact, Shown;
    var k := path[0].key;
    PartShown(rules, g, entries[k], Some(k), 0, {}, path[1..]);
    assert LastKey(path[1..], Some(k)) == LastKey(path, None);
    assert {} + Above(g, entries[k], path[1..]) == Above(g, entries[k], path[1..]);
  }
}
