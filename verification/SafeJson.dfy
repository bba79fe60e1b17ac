/** The filter of the replay snapshot mapper: which Python values it lets through, and the JSON
    value it makes of them. */
module SafeJson {
  import opened Wrappers
  import opened Json

  /** What the mapper takes from its surroundings: lowercasing, the encoded size in bytes and its
      limit, and the words the intent and task enumerations admit. */
  datatype Rules = Rules(
    lower: string -> string, size: Value -> nat, maxBytes: nat,
    intents: set<string>, tasks: set<string>)

  const FORBIDDEN: set<string> :=
    {"raw_response", "debug", "token", "jwt", "claims", "email", "prompt", "authorization",
     "security_trace"}

  predicate Admissible(rules: Rules, name: Name) {
    match name
    case NonString(_) => false
    case Free(text) => rules.lower(text) !in FORBIDDEN
    case _ => true
  }

  predicate Clean(rules: Rules, v: Value) {
    match v
    case Num(f) => f.Finite?
    case List(items) => forall i :: 0 <= i < |items| ==> Clean(rules, items[i])
    case Tuple(items) => forall i :: 0 <= i < |items| ==> Clean(rules, items[i])
    case Dict(members) =>
      && (forall name :: name in members ==> Admissible(rules, name))
      && (forall name :: name in members ==> Clean(rules, members[name]))
    case Proxy(_) => false
    case Opaque => false
    case _ => true
  }

  function Canon(v: Value): Value {
    match v
    case List(items) => List(seq(|items|, i requires 0 <= i < |items| => Canon(items[i])))
    case Tuple(items) => List(seq(|items|, i requires 0 <= i < |items| => Canon(items[i])))
    case Dict(members) => Dict(map name | name in members :: Canon(members[name]))
    case _ => v
  }

  function Safe(rules: Rules, v: Value): Result<Value> {
    if Clean(rules, v) then Ok(Canon(v)) else Err(SnapshotRejected)
  }

  /** The filter as the source runs it, filling a list or a dictionary item by item. */
  method Filter(rules: Rules, v: Value) returns (r: Result<Value>)
    ensures r == Safe(rules, v)
    decreases v
  {
    match v {
      case Null => return Ok(v);
      case Bool(_) => return Ok(v);
      case Int(_) => return Ok(v);
      case Str(_) => return Ok(v);
      case Num(f) =>
        if !f.Finite? {
          return Err(SnapshotRejected);
        }
        return Ok(v);
      case List(items) => r := FilterItems(rules, v, items);
      case Tuple(items) => r := FilterItems(rules, v, items);
      case Dict(members) => r := FilterMembers(rules, v, members);
      case Proxy(_) => return Err(SnapshotRejected);
      case Opaque => return Err(SnapshotRejected);
    }
  }

  method FilterItems(rules: Rules, ghost parent: Value, items: seq<Value>)
    returns (r: Result<Value>)
    requires forall i :: 0 <= i < |items| ==> items[i] < parent
    ensures r == Safe(rules, List(items))
    decreases parent, 0
  {
    var result: seq<Value> := [];
    for n := 0 to |items|
      invariant result == seq(n, i requires 0 <= i < n => Canon(items[i]))
      invariant forall i :: 0 <= i < n ==> Clean(rules, items[i])
    {
      var item :- Filter(rules, items[n]);
      result := result + [item];
    }
    return Ok(List(result));
  }

  method FilterMembers(rules: Rules, ghost parent: Value, members: map<Name, Value>)
    returns (r: Result<Value>)
    requires forall name :: name in members ==> members[name] < parent
    ensures r == Safe(rules, Dict(members))
    decreases parent, 0
  {
    hide Clean, Canon, Admissible;
    var result: map<Name, Value> := map[];
    var pending := members.Keys;
    while pending != {}
      invariant pending <= members.Keys
      invariant result == map name | name in members.Keys - pending :: Canon(members[name])
      invariant forall name :: name in members.Keys - pending ==>
                  Admissible(rules, name) && Clean(rules, members[name])
      decreases |pending|
    {
      var name :| name in pending;
      pending := pending - {name};
      MemberSafe(rules, members, name);
      if !Admissible(rules, name) {
        return Err(SnapshotRejected);
      }
      var item :- Filter(rules, members[name]);
      result := result[name := item];
    }
    assert members.Keys - pending == members.Keys;
    AllSafe(rules, members);
    return Ok(Dict(result));
  }

  lemma MemberSafe(rules: Rules, members: map<Name, Value>, name: Name)
    requires name in members
    ensures Clean(rules, Dict(members)) ==>
              Admissible(rules, name) && Clean(rules, members[name])
  {}

  lemma AllSafe(rules: Rules, members: map<Name, Value>)
    requires forall name :: name in members ==>
               Admissible(rules, name) && Clean(rules, members[name])
    ensures Clean(rules, Dict(members))
    ensures Canon(Dict(members)) == Dict(map name | name in members.Keys :: Canon(members[name]))
  {}

  /******* What the filter means, position by position *******/

  datatype Step = At(index: nat) | Under(name: Name)

  /** The value a path of list positions and dictionary keys leads to. */
  function Sub(v: Value, path: seq<Step>): Option<Value>
    decreases |path|
  {
    if path == [] then Some(v)
    else match (v, path[0])
      case (List(items), At(i)) => if i < |items| then Sub(items[i], path[1..]) else None
      case (Tuple(items), At(i)) => if i < |items| then Sub(items[i], path[1..]) else None
      case (Dict(members), Under(n)) =>
        if n in members then Sub(members[n], path[1..]) else None
      case _ => None
  }

  /** Nothing about this value itself, apart from what it contains, stops it from being JSON. */
  predicate Acceptable(rules: Rules, v: Value) {
    match v
    case Num(f) => f.Finite?
    case Dict(members) => forall name :: name in members ==> Admissible(rules, name)
    case Proxy(_) => false
    case Opaque => false
    case _ => true
  }

  /** The first bad value inside a value that is not clean. */
  lemma {:induction false} FindsCulprit(rules: Rules, v: Value) returns (path: seq<Step>)
    requires !Clean(rules, v)
    ensures Sub(v, path).Some? && !Acceptable(rules, Sub(v, path).value)
    decreases v
  {
    path := [];
    if Acceptable(rules, v) {
      match v {
        case List(items) =>
          var i :| 0 <= i < |items| && !Clean(rules, items[i]);
          var rest := FindsCulprit(rules, items[i]);
          path := [At(i)] + rest;
          assert path[1..] == rest;
        case Tuple(items) =>
          var i :| 0 <= i < |items| && !Clean(rules, items[i]);
          var rest := FindsCulprit(rules, items[i]);
          path := [At(i)] + rest;
          assert path[1..] == rest;
        case Dict(members) =>
          var n :| n in members && !Clean(rules, members[n]);
          var rest := FindsCulprit(rules, members[n]);
          path := [Under(n)] + rest;
          assert path[1..] == rest;
        case _ =>
      }
    }
  }

  /** Everywhere inside a clean value: acceptable, and turned into a list where it was a tuple and
      kept as it was elsewhere. */
  lemma {:induction false} CleanEverywhere(rules: Rules, v: Value, path: seq<Step>)
    requires Clean(rules, v)
    ensures Sub(v, path).Some? == Sub(Canon(v), path).Some?
    ensures Sub(v, path).Some? ==>
              && Acceptable(rules, Sub(v, path).value)
              && Sub(Canon(v), path) == Some(Canon(Sub(v, path).value))
    decreases |path|
  {
    if path != [] {
      match (v, path[0]) {
        case (List(items), At(i)) =>
          if i < |items| { CleanEverywhere(rules, items[i], path[1..]); }
        case (Tuple(items), At(i)) =>
          if i < |items| { CleanEverywhere(rules, items[i], path[1..]); }
        case (Dict(members), Under(n)) =>
          if n in members { CleanEverywhere(rules, members[n], path[1..]); }
        case _ =>
      }
    }
  }

  /** The filter accepts a value exactly when no path in it leads to a number that is not finite,
      to a key that is forbidden or no string, or to anything that is no JSON value. */
  lemma AcceptsExactly(rules: Rules, v: Value)
    ensures Safe(rules, v).Ok?
       <==> forall path :: Sub(v, path).Some? ==> Acceptable(rules, Sub(v, path).value)
  {
    if Clean(rules, v) {
      forall path | Sub(v, path).Some? ensures Acceptable(rules, Sub(v, path).value) {
        CleanEverywhere(rules, v, path);
      }
    } else {
      var path := FindsCulprit(rules, v);
    }
  }

  lemma {:induction false} CanonTwice(v: Value)
    ensures Canon(Canon(v)) == Canon(v)
    decreases v
  {
    match v
    case List(items) =>
      forall i | 0 <= i < |items| ensures Canon(Canon(items[i])) == Canon(items[i]) {
        CanonTwice(items[i]);
      }
      assert Canon(Canon(v)).items == Canon(v).items;
    case Tuple(items) =>
      forall i | 0 <= i < |items| ensures Canon(Canon(items[i])) == Canon(items[i]) {
        CanonTwice(items[i]);
      }
      assert Canon(Canon(v)).items == Canon(v).items;
    case Dict(members) =>
      forall n | n in members ensures Canon(Canon(members[n])) == Canon(members[n]) {
        CanonTwice(members[n]);
      }
      assert Canon(Canon(v)).members == Canon(v).members;
    case _ =>
  }

  lemma {:induction false} CanonClean(rules: Rules, v: Value)
    ensures Clean(rules, Canon(v)) == Clean(rules, v)
    decreases v
  {
    match v
    case List(items) =>
      forall i | 0 <= i < |items| ensures Clean(rules, Canon(items[i])) == Clean(rules, items[i]) {
        CanonClean(rules, items[i]);
      }
      assert forall i :: 0 <= i < |items| ==> Canon(v).items[i] == Canon(items[i]);
    case Tuple(items) =>
      forall i | 0 <= i < |items| ensures Clean(rules, Canon(items[i])) == Clean(rules, items[i]) {
        CanonClean(rules, items[i]);
      }
      assert forall i :: 0 <= i < |items| ==> Canon(v).items[i] == Canon(items[i]);
    case Dict(members) =>
      forall n | n in members ensures Clean(rules, Canon(members[n])) == Clean(rules, members[n]) {
        CanonClean(rules, members[n]);
      }
      assert Canon(v).members.Keys == members.Keys;
      assert forall n :: n in members ==> Canon(v).members[n] == Canon(members[n]);
    case _ =>
  }

  /** What the filter produces is JSON. */
  lemma {:induction false} CanonIsJson(rules: Rules, v: Value)
    requires Clean(rules, v)
    ensures IsJson(Canon(v))
    decreases v
  {
    match v
    case List(items) =>
      forall i | 0 <= i < |items| ensures IsJson(Canon(items[i])) { CanonIsJson(rules, items[i]); }
    case Tuple(items) =>
      forall i | 0 <= i < |items| ensures IsJson(Canon(items[i])) { CanonIsJson(rules, items[i]); }
    case Dict(members) =>
      forall n | n in members ensures !n.NonString? && IsJson(Canon(members[n])) {
        assert Admissible(rules, n);
        CanonIsJson(rules, members[n]);
      }
    case _ =>
  }

  /** The filter accepts what it has produced and changes nothing in it. */
  lemma FilterIdempotent(rules: Rules, v: Value)
    requires Safe(rules, v).Ok?
    ensures Safe(rules, Safe(rules, v).value) == Safe(rules, v)
  {
    CanonTwice(v);
    CanonClean(rules, v);
  }

  /******* The integrity checker *******/

  /** The keys the persistence doctor looks for in stored snapshots. */
  const CHECKED: set<string> :=
    {"claims", "email", "fingerprint", "key_hash", "owner_request_id", "prompt",
     "provider_response", "raw_response", "token"}

  /** The words among them that the filter does not know. */
  const UNFILTERED: set<string> :=
    {"fingerprint", "key_hash", "owner_request_id", "provider_response"}

  function AsciiLower(c: char): char {
    if 'A' <= c <= 'Z' then c - 'A' + 'a' else c
  }

  function AsciiLowered(s: string): string {
    seq(|s|, i requires 0 <= i < |s| => AsciiLower(s[i]))
  }

  predicate EndsWith(s: string, end: string) {
    |end| <= |s| && s[|s| - |end|..] == end
  }

  /** The checker searches the text of the snapshot for a quotation mark, a word in any case, a
      quotation mark and a colon.  The first mark is the one before a key, or an escaped one inside
      a key. */
  predicate Matches(key: string, whole: set<string>, quoted: set<string>) {
    || AsciiLowered(key) in whole
    || exists w :: w in quoted && EndsWith(AsciiLowered(key), "\"" + w)
  }

  predicate Keyed(v: Value, whole: set<string>, quoted: set<string>) {
    v.Dict? && exists n :: n in v.members && n.Free? && Matches(n.text, whole, quoted)
  }

  /** Some dictionary inside the value has a key that is, in any case, among the words of `whole`, or
      ends with a quotation mark and one of the words of `quoted`. */
  ghost predicate HasKey(v: Value, whole: set<string>, quoted: set<string>) {
    exists path :: Sub(v, path).Some? && Keyed(Sub(v, path).value, whole, quoted)
  }

  predicate Ascii(s: string) {
    forall i :: 0 <= i < |s| ==> s[i] < '\U{80}'
  }

  /** The mapper's lowercasing, on texts without other letters. */
  ghost predicate LowersAscii(rules: Rules) {
    forall s :: Ascii(s) ==> rules.lower(s) == AsciiLowered(s)
  }

  lemma WordsAreAscii(s: string)
    requires AsciiLowered(s) in CHECKED
    ensures Ascii(s)
  {
    var t := AsciiLowered(s);
    assert Ascii(t);
    forall i | 0 <= i < |s| ensures s[i] < '\U{80}' {
      assert t[i] == AsciiLower(s[i]);
    }
  }

  /** What the filter accepts passes the checker exactly when it has no key among the four words
      the checker knows and the filter does not, and no key with one of the nine words after an
      inner quotation mark, which the filter does not look for. */
  lemma CheckerGap(rules: Rules, v: Value)
    requires Safe(rules, v).Ok? && LowersAscii(rules)
    ensures HasKey(Safe(rules, v).value, CHECKED, CHECKED) <==> HasKey(v, UNFILTERED, CHECKED)
  {
    hide Matches;
    forall path | Sub(v, path).Some?
      ensures Sub(Canon(v), path).Some?
      ensures Keyed(Sub(Canon(v), path).value, CHECKED, CHECKED)
         <==> Keyed(Sub(v, path).value, UNFILTERED, CHECKED)
    {
      CleanEverywhere(rules, v, path);
      KeysKept(rules, Sub(v, path).value);
    }
    if HasKey(Canon(v), CHECKED, CHECKED) {
      var path :| Sub(Canon(v), path).Some? && Keyed(Sub(Canon(v), path).value, CHECKED, CHECKED);
      CleanEverywhere(rules, v, path);
    }
  }

  lemma KeysKept(rules: Rules, v: Value)
    requires Acceptable(rules, v) && LowersAscii(rules)
    ensures Keyed(Canon(v), CHECKED, CHECKED) <==> Keyed(v, UNFILTERED, CHECKED)
  {
    hide Matches;
    if v.Dict? {
      assert Canon(v).members.Keys == v.members.Keys;
      forall n | n in v.members && n.Free?
        ensures Matches(n.text, CHECKED, CHECKED) <==> Matches(n.text, UNFILTERED, CHECKED)
      {
        FilteredMatches(rules, n.text);
      }
    }
  }

  lemma FilteredMatches(rules: Rules, key: string)
    requires LowersAscii(rules) && rules.lower(key) !in FORBIDDEN
    ensures Matches(key, CHECKED, CHECKED) <==> Matches(key, UNFILTERED, CHECKED)
  {
    if AsciiLowered(key) in CHECKED {
      WordsAreAscii(key);
      assert rules.lower(key) == AsciiLowered(key);
    }
  }

  lemma SingleKey(rules: Rules, key: string, whole: set<string>, quoted: set<string>)
    requires rules.lower(key) !in FORBIDDEN && Matches(key, whole, quoted)
    ensures
      var r := Safe(rules, Dict(map[Free(key) := Null]));
      r.Ok? && HasKey(r.value, whole, quoted)
  {
    hide Matches;
    var v := Dict(map[Free(key) := Null]);
    assert Clean(rules, v);
    assert Sub(Canon(v), []) == Some(Canon(v)) && Free(key) in Canon(v).members;
  }

  lemma GapWords()
    ensures AsciiLowered("fingerprint") == "fingerprint" && "fingerprint" !in FORBIDDEN
    ensures AsciiLowered("a\"token") == "a\"token" && "a\"token" !in FORBIDDEN
    ensures EndsWith("a\"token", "\"" + "token")
  {
    assert |"fingerprint"| == 11 && |"a\"token"| == 7;
    assert forall w :: w in FORBIDDEN ==> |w| != 11 && |w| != 7;
    assert "a\"token"[1..] == "\"" + "token";
  }

  /** The filter does let such keys through. */
  lemma GapExists() returns (rules: Rules, v: Value, w: Value)
    ensures LowersAscii(rules)
    ensures Safe(rules, v).Ok? && HasKey(Safe(rules, v).value, CHECKED, {})
    ensures Safe(rules, w).Ok? && HasKey(Safe(rules, w).value, {}, CHECKED)
  {
    hide EndsWith, Safe, HasKey, AsciiLowered;
    rules := Rules(AsciiLowered, _ => 0, 0, {}, {});
    GapWords();
    v := Dict(map[Free("fingerprint") := Null]);
    SingleKey(rules, "fingerprint", CHECKED, {});
    w := Dict(map[Free("a\"token") := Null]);
    assert "token" in CHECKED;
    SingleKey(rules, "a\"token", {}, CHECKED);
  }
}
