/** The remote key set cache: positive and negative entries, generations, and double-checked
    locking, at every await point of any number of tasks. */
module Jwks {
  import opened Wrappers

  datatype Key = RsaKey(modulus: nat, exponent: nat)

  /** A key id is hashed through its ASCII bytes; hashing is taken to be injective, so an entry is
      kept under the id itself. */
  predicate Ascii(kid: string) {
    forall i :: 0 <= i < |kid| ==> kid[i] < '\U{80}'
  }

  datatype Negative = Negative(generation: nat, expiresAt: int)

  datatype Cache = Cache(
    keys: map<string, Key>, expiresAt: int, negatives: map<string, Negative>, generation: nat)

  datatype Reply =
    | Served(key: Key)
    | UnknownKey
    | Unencodable     // the `UnicodeEncodeError` of an id that is not ASCII
    | Unavailable
    | Suspended

  datatype Ttls = Ttls(cacheSeconds: int, negativeSeconds: int)

  predicate NegativeHit(c: Cache, kid: string, now: int) {
    && kid in c.negatives
    && c.negatives[kid].generation == c.generation
    && c.negatives[kid].expiresAt > now
  }

  /** The answer of an unexpired cache, if it has one. */
  function Cached(c: Cache, kid: string, now: int): Option<Reply> {
    if now >= c.expiresAt then None
    else if kid in c.keys then Some(Served(c.keys[kid]))
    else if !Ascii(kid) then Some(Unencodable)
    else if NegativeHit(c, kid, now) then Some(UnknownKey)
    else None
  }

  /** The look-up at the end of the locked section; a miss is remembered. */
  function LookUp(c: Cache, kid: string, negativeUntil: int): (Cache, Reply) {
    if kid in c.keys then (c, Served(c.keys[kid]))
    else if !Ascii(kid) then (c, Unencodable)
    else
      (c.(negatives := c.negatives[kid := Negative(c.generation, negativeUntil)]), UnknownKey)
  }

  function Refreshed(c: Cache, keys: map<string, Key>, expiresAt: int): Cache {
    Cache(keys, expiresAt, map[], c.generation + 1)
  }

  /******* The provider, from one await point to the next *******/

  class RemoteJwksProvider {
    const ttls: Ttls
    var positiveKeys: map<string, Key>
    var positiveExpiresAt: int
    var negativeKids: map<string, Negative>
    var generation: nat

    ghost function View(): Cache
      reads this
    {
      Cache(positiveKeys, positiveExpiresAt, negativeKids, generation)
    }

    constructor (ttls: Ttls)
      ensures this.ttls == ttls && View() == Cache(map[], 0, map[], 0)
    {
      this.ttls := ttls;
      positiveKeys, positiveExpiresAt, negativeKids, generation := map[], 0, map[], 0;
    }

    method Check(kid: string, now: int) returns (r: Option<Reply>)
      ensures r == Cached(View(), kid, now)
    {
      if now < positiveExpiresAt {
        if kid in positiveKeys {
          return Some(Served(positiveKeys[kid]));
        }
        if !Ascii(kid) {
          return Some(Unencodable);
        }
        if kid in negativeKids && negativeKids[kid].generation == generation
           && negativeKids[kid].expiresAt > now {
          return Some(UnknownKey);
        }
      }
      return None;
    }

    /** Up to the lock. */
    method Begin(kid: string, now: int) returns (r: Reply, observed: nat)
      ensures r == OrSuspended(Cached(View(), kid, now)) && observed == generation
      ensures now < positiveExpiresAt && kid in positiveKeys ==> r == Served(positiveKeys[kid])
      ensures now >= positiveExpiresAt ==> r == Suspended
      ensures r == UnknownKey <==>
                && now < positiveExpiresAt && kid !in positiveKeys && Ascii(kid)
                && kid in negativeKids && negativeKids[kid].generation == generation
                && now < negativeKids[kid].expiresAt
    {
      observed := generation;
      var cached := Check(kid, now);
      return if cached.Some? then cached.value else Suspended, observed;
    }

    /** From the lock to the fetch, or to the end when no fetch is needed. */
    method Enter(kid: string, observed: nat, now: int, later: nat) returns (r: Reply)
      modifies this
      ensures (View(), r) == Entered(old(View()), ttls, kid, observed, now, later)
      ensures now < old(positiveExpiresAt) && kid in old(positiveKeys) ==>
                r == Served(old(positiveKeys)[kid]) && View() == old(View())
      ensures r == Suspended ==>
                && View() == old(View())
                && (now >= old(positiveExpiresAt)
                    || (kid !in old(positiveKeys) && old(generation) == observed))
    {
      var cached := Check(kid, now);
      if cached.Some? {
        return cached.value;
      }
      if now >= positiveExpiresAt || generation == observed {
        return Suspended;
      }
      r := Finish(kid, now + later);
    }

    /** From the fetch to the end. */
    method Complete(kid: string, fetched: Option<map<string, Key>>, now: int, later: nat)
      returns (r: Reply)
      modifies this
      ensures (View(), r) == Completed(old(View()), ttls, kid, fetched, now, later)
      ensures r == Unavailable <==> fetched.None?
      ensures fetched.None? ==> View() == old(View())
      ensures fetched.Some? ==>
                && positiveKeys == fetched.value && positiveExpiresAt == now + ttls.cacheSeconds
                && (kid in fetched.value ==> r == Served(fetched.value[kid]))
    {
      if fetched.None? {
        return Unavailable;
      }
      positiveKeys := fetched.value;
      positiveExpiresAt := now + ttls.cacheSeconds;
      generation := generation + 1;
      negativeKids := map[];
      r := Finish(kid, now + later);
    }

    method Finish(kid: string, now: int) returns (r: Reply)
      modifies this
      ensures (View(), r) == LookUp(old(View()), kid, now + ttls.negativeSeconds)
    {
      if kid in positiveKeys {
        return Served(positiveKeys[kid]);
      }
      if !Ascii(kid) {
        return Unencodable;
      }
      negativeKids := negativeKids[kid := Negative(generation, now + ttls.negativeSeconds)];
      return UnknownKey;
    }
  }

  function OrSuspended(r: Option<Reply>): Reply {
    if r.Some? then r.value else Suspended
  }

  function Entered(c: Cache, ttls: Ttls, kid: string, observed: nat, now: int, later: nat)
    : (Cache, Reply)
  {
    var cached := Cached(c, kid, now);
    if cached.Some? then (c, cached.value)
    else if now >= c.expiresAt || c.generation == observed then (c, Suspended)
    else LookUp(c, kid, now + later + ttls.negativeSeconds)
  }

  function Completed(c: Cache, ttls: Ttls, kid: string, fetched: Option<map<string, Key>>,
                     now: int, later: nat): (Cache, Reply)
  {
    if fetched.None? then (c, Unavailable)
    else
      LookUp(Refreshed(c, fetched.value, now + ttls.cacheSeconds), kid,
             now + later + ttls.negativeSeconds)
  }

  /******* Any number of tasks *******/

  /** Where a task waits: for the lock, or, holding it, for the fetch. */
  datatype Task =
    | AtLock(kid: string, observed: nat)
    | AtFetch(kid: string, observed: nat, expired: bool)

  /** A successful refresh: the generation its task had observed, the generation it replaced, and
      whether the task had found the cache expired under the lock. */
  datatype Refresh = Refresh(observed: nat, replaced: nat, expired: bool)

  datatype System = System(
    cache: Cache, clock: int, tasks: map<nat, Task>, refreshes: seq<Refresh>)

  const START := System(Cache(map[], 0, map[], 0), 0, map[], [])

  datatype Event =
    | Tick(elapsed: nat)
    | Begin(task: nat, kid: string)
    | Enter(task: nat, later: nat)
    | Complete(task: nat, fetched: Option<map<string, Key>>, later: nat)
    | Cancel(task: nat)

  predicate Locked(s: System) {
    exists t :: t in s.tasks && s.tasks[t].AtFetch?
  }

  function Step(ttls: Ttls, s: System, e: Event): (System, Reply) {
    match e
    case Tick(elapsed) => (s.(clock := s.clock + elapsed), Suspended)
    case Begin(t, kid) =>
      if t in s.tasks then (s, Suspended)
      else
        var r := OrSuspended(Cached(s.cache, kid, s.clock));
        if r == Suspended then (s.(tasks := s.tasks[t := AtLock(kid, s.cache.generation)]), r)
        else (s, r)
    case Enter(t, later) =>
      if t !in s.tasks || !s.tasks[t].AtLock? || Locked(s) then (s, Suspended)
      else
        var task := s.tasks[t];
        var (cache, r) := Entered(s.cache, ttls, task.kid, task.observed, s.clock, later);
        if r == Suspended then
          (s.(tasks := s.tasks[t := AtFetch(task.kid, task.observed,
                                            s.clock >= s.cache.expiresAt)]), r)
        else (s.(cache := cache, tasks := s.tasks - {t}), r)
    case Complete(t, fetched, later) =>
      if t !in s.tasks || !s.tasks[t].AtFetch? then (s, Suspended)
      else
        var task := s.tasks[t];
        var (cache, r) := Completed(s.cache, ttls, task.kid, fetched, s.clock, later);
        (s.(cache := cache, tasks := s.tasks - {t},
            refreshes := if fetched.None? then s.refreshes
                         else s.refreshes
                              + [Refresh(task.observed, s.cache.generation, task.expired)]),
         r)
    case Cancel(t) => (s.(tasks := s.tasks - {t}), Suspended)
  }

  function Run(ttls: Ttls, s: System, events: seq<Event>): System
    decreases |events|
  {
    if events == [] then s else Run(ttls, Step(ttls, s, events[0]).0, events[1..])
  }

  /** Negative entries carry the current generation and name no key of the current set. */
  ghost predicate NegativesOk(c: Cache) {
    forall kid :: kid in c.negatives ==>
      && c.negatives[kid].generation == c.generation
      && kid !in c.keys && Ascii(kid)
  }

  ghost predicate TasksOk(s: System) {
    && (forall t, u | t in s.tasks && u in s.tasks && s.tasks[t].AtFetch? && s.tasks[u].AtFetch?
          :: t == u)
    && (forall t :: t in s.tasks ==> s.tasks[t].observed <= s.cache.generation)
    && (forall t :: t in s.tasks && s.tasks[t].AtFetch? && !s.tasks[t].expired ==>
          s.tasks[t].observed == s.cache.generation)
  }

  ghost predicate RefreshesOk(s: System) {
    && |s.refreshes| == s.cache.generation
    && (forall i :: 0 <= i < |s.refreshes| ==>
          && s.refreshes[i].observed <= s.refreshes[i].replaced == i
          && (!s.refreshes[i].expired ==> s.refreshes[i].observed == i))
  }

  ghost predicate Inv(s: System) {
    NegativesOk(s.cache) && TasksOk(s) && RefreshesOk(s)
  }

  lemma StepKeepsInv(ttls: Ttls, s: System, e: Event)
    requires Inv(s)
    ensures Inv(Step(ttls, s, e).0)
  {}

  lemma {:induction false} RunKeepsInv(ttls: Ttls, s: System, events: seq<Event>)
    requires Inv(s)
    ensures Inv(Run(ttls, s, events))
    decreases |events|
  {
    if events != [] {
      StepKeepsInv(ttls, s, events[0]);
      RunKeepsInv(ttls, Step(ttls, s, events[0]).0, events[1..]);
    }
  }

  /** At every await point of every interleaving: no negative entry is stale and none names a key of
      the current set; and of any two refreshes by tasks that observed the same generation, the
      later one had found the cache expired.  A burst of look-ups that all miss one unexpired key
      set makes at most one fetch succeed. */
  lemma EveryAwaitPoint(ttls: Ttls, events: seq<Event>)
    ensures
      var s := Run(ttls, START, events);
      && NegativesOk(s.cache)
      && forall i, j | 0 <= i < j < |s.refreshes|
                    && s.refreshes[i].observed == s.refreshes[j].observed :: s.refreshes[j].expired
  {
    RunKeepsInv(ttls, START, events);
  }

  /** Only a successful fetch changes the key set, its expiry or the generation; a failed or
      cancelled one leaves the whole cache as it was. */
  lemma OnlySuccessChanges(ttls: Ttls, s: System, e: Event)
    ensures
      var (s', r) := Step(ttls, s, e);
      && (s'.cache.generation != s.cache.generation || s'.cache.keys != s.cache.keys
          || s'.cache.expiresAt != s.cache.expiresAt ==>
            e.Complete? && e.fetched.Some? && s'.cache.keys == e.fetched.value)
      && (r == Unavailable || e.Cancel? ==> s'.cache == s.cache)
  {}

  predicate Fetches(e: Event) {
    e.Complete? && e.fetched.Some?
  }

  /** Over any run, keys, expiry and generation are those the last successful fetch left: whatever
      number of failed fetches, cancelled tasks and misses follows, a good key set stays in
      place. */
  lemma {:induction false} KeySetStays(ttls: Ttls, s: System, events: seq<Event>)
    requires forall i :: 0 <= i < |events| ==> !Fetches(events[i])
    ensures
      var c := Run(ttls, s, events).cache;
      && c.keys == s.cache.keys && c.expiresAt == s.cache.expiresAt
      && c.generation == s.cache.generation
    decreases |events|
  {
    if events != [] {
      hide Step;
      OnlySuccessChanges(ttls, s, events[0]);
      KeySetStays(ttls, Step(ttls, s, events[0]).0, events[1..]);
    }
  }

  /** A key is served only from an unexpired cache, and it is the current key of its id; an id is
      reported unknown only if the current set has no key for it. */
  lemma AnswersCurrent(ttls: Ttls, s: System, e: Event)
    requires Inv(s) && ttls.cacheSeconds > 0
    ensures
      var (s', r) := Step(ttls, s, e);
      var kid := if e.Begin? then e.kid
                 else if (e.Enter? || e.Complete?) && e.task in s.tasks then s.tasks[e.task].kid
                 else "";
      && (r.Served? ==> s.clock < s'.cache.expiresAt && kid in s'.cache.keys
                        && s'.cache.keys[kid] == r.key)
      && (r == UnknownKey ==> kid !in s'.cache.keys)
  {}

  /******* When the cache answers *******/

  ghost predicate Remembered(s: System, kid: string) {
    kid in s.cache.negatives && s.clock < s.cache.negatives[kid].expiresAt
  }

  /** A look-up suspends exactly when the cache has expired or knows nothing of the id; otherwise it
      is answered at once, with the key or with what is remembered, and leaves everything as it
      was. */
  lemma BeginsExactly(ttls: Ttls, s: System, t: nat, kid: string)
    requires Inv(s) && t !in s.tasks
    ensures
      var (s', r) := Step(ttls, s, Begin(t, kid));
      if s.clock >= s.cache.expiresAt then
        r == Suspended && s' == s.(tasks := s.tasks[t := AtLock(kid, s.cache.generation)])
      else if kid in s.cache.keys then r == Served(s.cache.keys[kid]) && s' == s
      else if !Ascii(kid) then r == Unencodable && s' == s
      else if Remembered(s, kid) then r == UnknownKey && s' == s
      else r == Suspended && s' == s.(tasks := s.tasks[t := AtLock(kid, s.cache.generation)])
  {}

  /** Under the lock the cache is asked again.  The task goes on to fetch exactly when the cache has
      expired, or knows nothing of the id and has not been refreshed since the task looked first. */
  lemma EntersExactly(ttls: Ttls, s: System, t: nat, later: nat)
    requires Inv(s) && t in s.tasks && s.tasks[t].AtLock? && !Locked(s)
    ensures
      var kid := s.tasks[t].kid;
      var (s', r) := Step(ttls, s, Enter(t, later));
      var expired := s.clock >= s.cache.expiresAt;
      if !expired && kid in s.cache.keys then
        r == Served(s.cache.keys[kid]) && s' == s.(tasks := s.tasks - {t})
      else if !expired && !Ascii(kid) then r == Unencodable && s' == s.(tasks := s.tasks - {t})
      else if !expired && Remembered(s, kid) then
        r == UnknownKey && s' == s.(tasks := s.tasks - {t})
      else if expired || s.cache.generation == s.tasks[t].observed then
        && r == Suspended
        && s' == s.(tasks := s.tasks[t := AtFetch(kid, s.tasks[t].observed, expired)])
      else
        && r == UnknownKey && s'.tasks == s.tasks - {t}
        && s'.cache.keys == s.cache.keys
        && s'.cache.negatives
           == s.cache.negatives[kid := Negative(s.cache.generation,
                                                s.clock + later + ttls.negativeSeconds)]
  {}

  /** A fetch that fails leaves the cache alone; one that succeeds replaces the keys, forgets every
      miss, and serves the id or remembers that it is missing. */
  lemma CompletesExactly(ttls: Ttls, s: System, t: nat, fetched: Option<map<string, Key>>,
                         later: nat)
    requires t in s.tasks && s.tasks[t].AtFetch?
    ensures
      var kid := s.tasks[t].kid;
      var (s', r) := Step(ttls, s, Complete(t, fetched, later));
      && s'.tasks == s.tasks - {t}
      && match fetched
         case None => r == Unavailable && s'.cache == s.cache
         case Some(keys) =>
           && s'.cache.keys == keys && s'.cache.expiresAt == s.clock + ttls.cacheSeconds
           && s'.cache.generation == s.cache.generation + 1
           && (kid in keys ==> r == Served(keys[kid]) && s'.cache.negatives == map[])
           && (kid !in keys && !Ascii(kid) ==> r == Unencodable && s'.cache.negatives == map[])
           && (kid !in keys && Ascii(kid) ==>
                 && r == UnknownKey
                 && s'.cache.negatives.Keys == {kid}
                 && s'.cache.negatives[kid].expiresAt == s.clock + later + ttls.negativeSeconds)
  {}

  /** From a successful fetch, and until its keys expire or another fetch succeeds, no look-up of
      one of them fetches: it is served at once, and a task that waits for the lock is served under
      it. */
  lemma ServedUntilExpiry(ttls: Ttls, before: seq<Event>, t: nat, keys: map<string, Key>,
                          later: nat, events: seq<Event>, kid: string)
    requires
      var s := Run(ttls, START, before);
      t in s.tasks && s.tasks[t].AtFetch?
    requires forall i :: 0 <= i < |events| ==> !Fetches(events[i])
    requires kid in keys
    ensures
      var s := Run(ttls, START, before);
      var u := Run(ttls, Step(ttls, s, Complete(t, Some(keys), later)).0, events);
      u.clock < s.clock + ttls.cacheSeconds ==>
        && (forall b :: b !in u.tasks ==>
              Step(ttls, u, Begin(b, kid)) == (u, Served(keys[kid])))
        && (forall b, wait: nat ::
              b in u.tasks && u.tasks[b] == AtLock(kid, u.tasks[b].observed) && !Locked(u) ==>
                Step(ttls, u, Enter(b, wait)) == (u.(tasks := u.tasks - {b}), Served(keys[kid])))
  {
    hide Step;
    var s := Run(ttls, START, before);
    RunKeepsInv(ttls, START, before);
    var filled := Step(ttls, s, Complete(t, Some(keys), later)).0;
    CompletesExactly(ttls, s, t, Some(keys), later);
    StepKeepsInv(ttls, s, Complete(t, Some(keys), later));
    var u := Run(ttls, filled, events);
    RunKeepsInv(ttls, filled, events);
    KeySetStays(ttls, filled, events);
    if u.clock < s.clock + ttls.cacheSeconds {
      forall b | b !in u.tasks ensures Step(ttls, u, Begin(b, kid)) == (u, Served(keys[kid])) {
        BeginsExactly(ttls, u, b, kid);
      }
      forall b, wait: nat
        | b in u.tasks && u.tasks[b] == AtLock(kid, u.tasks[b].observed) && !Locked(u)
        ensures Step(ttls, u, Enter(b, wait)) == (u.(tasks := u.tasks - {b}), Served(keys[kid]))
      {
        EntersExactly(ttls, u, b, wait);
      }
    }
  }

  lemma {:induction false} RememberedStays(ttls: Ttls, s: System, events: seq<Event>, kid: string)
    requires Inv(s) && kid in s.cache.negatives
    requires forall i :: 0 <= i < |events| ==> !Fetches(events[i])
    requires Run(ttls, s, events).clock < s.cache.negatives[kid].expiresAt
    ensures
      var u := Run(ttls, s, events);
      && s.clock <= u.clock && Inv(u) && u.cache.expiresAt == s.cache.expiresAt
      && kid in u.cache.negatives && u.cache.negatives[kid] == s.cache.negatives[kid]
    decreases |events|
  {
    if events != [] {
      var t := Step(ttls, s, events[0]).0;
      StepKeepsInv(ttls, s, events[0]);
      ClockAdvances(ttls, t, events[1..]);
      RememberedStays(ttls, t, events[1..], kid);
    }
  }

  lemma {:induction false} ClockAdvances(ttls: Ttls, s: System, events: seq<Event>)
    ensures s.clock <= Run(ttls, s, events).clock
    decreases |events|
  {
    if events != [] {
      ClockAdvances(ttls, Step(ttls, s, events[0]).0, events[1..]);
    }
  }

  /** A remembered miss is answered without a fetch until it expires, the keys expire or another
      fetch succeeds. */
  lemma UnknownUntilExpiry(ttls: Ttls, before: seq<Event>, events: seq<Event>, kid: string, b: nat)
    requires kid in Run(ttls, START, before).cache.negatives
    requires forall i :: 0 <= i < |events| ==> !Fetches(events[i])
    ensures
      var s := Run(ttls, START, before);
      var u := Run(ttls, s, events);
      u.clock < s.cache.negatives[kid].expiresAt && u.clock < s.cache.expiresAt && b !in u.tasks ==>
        Step(ttls, u, Begin(b, kid)) == (u, UnknownKey)
  {
    hide Step;
    var s := Run(ttls, START, before);
    RunKeepsInv(ttls, START, before);
    var u := Run(ttls, s, events);
    if u.clock < s.cache.negatives[kid].expiresAt && u.clock < s.cache.expiresAt && b !in u.tasks {
      RememberedStays(ttls, s, events, kid);
      BeginsExactly(ttls, u, b, kid);
    }
  }

  /******* The document parser *******/

  /** What the security profile looks at in one entry of `keys`.  Absent values stand for members
      that are missing or of another type. */
  datatype Jwk = Jwk(
    isObject: bool, privateFields: bool, keyType: Option<string>, kid: Option<string>,
    algorithm: Option<string>, algorithmIsNull: bool, purpose: Option<string>,
    purposeIsNull: bool, operations: Operations, key: Option<Key>, bits: nat)

  datatype Operations = NoOperations | BadOperations | ListedOperations(names: seq<string>)

  /** The configured limits, and which characters are whitespace. */
  datatype Profile = Profile(maxKeys: nat, minBits: nat, space: char -> bool)

  predicate Blank(profile: Profile, kid: string) {
    forall i :: 0 <= i < |kid| ==> profile.space(kid[i])
  }

  predicate Acceptable(jwk: Jwk, profile: Profile) {
    && jwk.isObject && !jwk.privateFields && jwk.keyType == Some("RSA")
    && jwk.kid.Some? && !Blank(profile, jwk.kid.value)
    && (jwk.algorithmIsNull || jwk.algorithm == Some("RS256"))
    && (jwk.purposeIsNull || jwk.purpose == Some("sig"))
    && (jwk.operations == NoOperations
        || (jwk.operations.ListedOperations? && "verify" in jwk.operations.names))
    && jwk.key.Some? && jwk.bits >= profile.minBits
  }

  ghost predicate Distinct(jwks: seq<Jwk>) {
    forall i, j | 0 <= i < j < |jwks| :: jwks[i].kid != jwks[j].kid
  }

  /** The map holds exactly the keys of the list, each under its id. */
  ghost predicate KeyMap(jwks: seq<Jwk>, m: map<string, Key>) {
    && |m| == |jwks|
    && (forall i :: 0 <= i < |jwks| ==>
          && jwks[i].kid.Some? && jwks[i].kid.value in m
          && jwks[i].key == Some(m[jwks[i].kid.value]))
    && (forall kid :: kid in m ==> exists i :: 0 <= i < |jwks| && jwks[i].kid == Some(kid))
  }

  lemma KeyMapGrows(jwks: seq<Jwk>, m: map<string, Key>, jwk: Jwk)
    requires Distinct(jwks) && KeyMap(jwks, m) && jwk.kid.Some? && jwk.key.Some?
    ensures jwk.kid.value in m <==> !Distinct(jwks + [jwk])
    ensures jwk.kid.value !in m ==> KeyMap(jwks + [jwk], m[jwk.kid.value := jwk.key.value])
  {
    var more := jwks + [jwk];
    if jwk.kid.value in m {
      var i :| 0 <= i < |jwks| && jwks[i].kid == Some(jwk.kid.value);
      assert more[i].kid == more[|jwks|].kid;
    } else {
      assert forall i :: 0 <= i < |jwks| ==> more[i] == jwks[i];
      forall kid | kid in m ensures exists i :: 0 <= i < |more| && more[i].kid == Some(kid) {
        var i :| 0 <= i < |jwks| && jwks[i].kid == Some(kid);
        assert more[i].kid == Some(kid);
      }
      assert more[|jwks|].kid == Some(jwk.kid.value);
    }
  }

  lemma PrefixDistinct(jwks: seq<Jwk>, n: nat)
    requires n <= |jwks| && Distinct(jwks)
    ensures Distinct(jwks[..n])
  {}

  /** All or nothing: a document yields a key map exactly when it holds between one and the maximum
      number of keys, every one of them acceptable and no two of them with the same id; the map
      then holds each of them under its id, and nothing else. */
  method Parse(jwks: seq<Jwk>, profile: Profile) returns (r: Option<map<string, Key>>)
    ensures r.Some? <==>
              && 0 < |jwks| <= profile.maxKeys && Distinct(jwks)
              && forall i :: 0 <= i < |jwks| ==> Acceptable(jwks[i], profile)
    ensures r.Some? ==> KeyMap(jwks, r.value)
  {
    hide Distinct, KeyMap, Blank;
    if |jwks| == 0 || |jwks| > profile.maxKeys {
      return None;
    }
    var parsed: map<string, Key> := map[];
    NoKeys();
    assert jwks[..0] == [];
    for n := 0 to |jwks|
      invariant forall i :: 0 <= i < n ==> Acceptable(jwks[i], profile)
      invariant Distinct(jwks[..n]) && KeyMap(jwks[..n], parsed)
    {
      if !Acceptable(jwks[n], profile) {
        return None;
      }
      var kid := jwks[n].kid.value;
      KeyMapGrows(jwks[..n], parsed, jwks[n]);
      assert jwks[..n] + [jwks[n]] == jwks[..n + 1];
      if kid in parsed {
        if Distinct(jwks) { PrefixDistinct(jwks, n + 1); }
        return None;
      }
      parsed := parsed[kid := jwks[n].key.value];
    }
    assert jwks[..|jwks|] == jwks;
    return Some(parsed);
  }

  lemma NoKeys()
    ensures Distinct([]) && KeyMap([], map[])
  {}
}
