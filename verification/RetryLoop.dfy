/** The retry loop of the DashScope client under its three budgets: retries, read timeouts and
    delay, inside one overall deadline. */
module RetryLoop {
  import opened Wrappers

  datatype Profile = Profile(
    maxRetries: nat, readTimeoutMaxRetries: nat, timeoutSeconds: real,
    overallDeadline: real, retryBudget: real)

  /** What `float()` makes of a header. */
  datatype Number = Finite(value: real) | PlusInfinity | MinusInfinity | NotANumber

  /** The `Retry-After` header of section 10.2.3 of RFC 9110: missing or empty, a number, a date
      that many seconds away from the wall clock, or neither. */
  datatype RetryAfter = Absent | Seconds(number: Number) | Date(away: real) | Garbage

  datatype Reply =
    | Response(status: int, retryAfter: RetryAfter)
    | ReadTimeout
    | ConnectFailure
    | OtherTimeout
    | OtherHttpError
    | Crash

  /** One call of `post`: what it returned or raised, and how long it took. */
  datatype Exchange = Exchange(reply: Reply, duration: real)

  /** What an attempt meets: the server's behaviour under the timeout it is given, and the jitter
      drawn for the delay after it. */
  datatype Attempt = Attempt(exchange: real -> Exchange, jitter: real)

  datatype Reason = TimedOut | HttpError

  datatype Outcome =
    | Parsed
    | Failed(reason: Reason, message: Message)

  datatype Message =
    | DeadlineExceeded | ReadTimeouts | RequestTimedOut | Unavailable | Status(code: int)
    | RetryLimit | BudgetExhausted | RequestFailed

  predicate Success(reply: Reply) {
    reply.Response? && 200 <= reply.status < 300
  }

  predicate RetryableStatus(status: int) {
    status == 408 || status == 429 || 500 <= status <= 599
  }

  /** The reply leads to another attempt, if the budgets allow it. */
  predicate Retryable(reply: Reply) {
    match reply
    case Response(status, _) => !(200 <= status < 300) && RetryableStatus(status)
    case ReadTimeout => true
    case ConnectFailure => true
    case _ => false
  }

  function Max(a: real, b: real): real {
    if b > a then b else a
  }

  function Min(a: real, b: real): real {
    if b < a then b else a
  }

  function Doubled(n: nat): real {
    if n == 0 then 0.5 else 2.0 * Doubled(n - 1)
  }

  /** No delay stands for an infinite one. */
  function RetryDelay(reply: Reply, attempt: nat, jitter: real): Option<real> {
    var backoff := Some(Doubled(attempt) + Max(0.0, jitter));
    if !reply.Response? then backoff
    else match reply.retryAfter
      case Absent => backoff
      case Garbage => backoff
      case Date(away) => Some(Max(0.0, away))
      case Seconds(Finite(x)) => Some(Max(0.0, x))
      case Seconds(PlusInfinity) => None
      case Seconds(MinusInfinity) => Some(0.0)
      case Seconds(NotANumber) => Some(0.0)  // a comparison with NaN is false
  }

  /** The loop's variables, and the exchanges and the sleeps it has had. */
  datatype State = State(
    attempt: nat, now: real, budget: real, readTimeouts: nat, seen: seq<Exchange>,
    sleeps: seq<real>, slept: real)

  datatype Result = Result(outcome: Outcome, state: State)

  /** One pass of the loop: an outcome, or the state of the next pass. */
  datatype Pass = Done(result: Result) | Again(state: State)

  function Fail(s: State, reason: Reason, message: Message): Pass {
    Done(Result(Failed(reason, message), s))
  }

  function Posted(s: State, e: Exchange): State {
    s.(now := s.now + e.duration, seen := s.seen + [e],
       readTimeouts := if e.reply == ReadTimeout then s.readTimeouts + 1 else s.readTimeouts)
  }

  /** What becomes of an attempt after its exchange, which is the last one seen. */
  function AfterPost(p: Profile, deadline: real, jitter: real, e: Exchange, t: State): (r: Pass)
    ensures r.Again? ==> r.state.attempt == t.attempt + 1 && t.attempt < p.maxRetries
  {
    var raised := !e.reply.Response?;
    if e.reply == ReadTimeout && t.readTimeouts > p.readTimeoutMaxRetries then
      Fail(t, TimedOut, ReadTimeouts)
    else if e.reply == OtherTimeout then Fail(t, TimedOut, RequestTimedOut)
    else if e.reply == OtherHttpError || e.reply == Crash then Fail(t, HttpError, Unavailable)
    else if Success(e.reply) then Done(Result(Parsed, t))
    else if !raised && !RetryableStatus(e.reply.status) then
      Fail(t, HttpError, Status(e.reply.status))
    else if t.attempt >= p.maxRetries then
      Fail(t, if raised then TimedOut else HttpError, RetryLimit)
    else
      match RetryDelay(e.reply, t.attempt, jitter)
      case None => Fail(t, if raised then TimedOut else HttpError, BudgetExhausted)
      case Some(delay) =>
        if delay > t.budget || delay >= deadline - t.now then
          Fail(t, if raised then TimedOut else HttpError, BudgetExhausted)
        else
          Again(t.(attempt := t.attempt + 1, now := t.now + delay, budget := t.budget - delay,
                   sleeps := t.sleeps + [delay], slept := t.slept + delay))
  }

  function OnePass(p: Profile, deadline: real, a: Attempt, s: State): (r: Pass)
    ensures r.Again? ==> r.state.attempt == s.attempt + 1 && s.attempt < p.maxRetries
  {
    if deadline - s.now <= 0.0 then Fail(s, TimedOut, DeadlineExceeded)
    else
      var e := a.exchange(Min(p.timeoutSeconds, deadline - s.now));
      AfterPost(p, deadline, a.jitter, e, Posted(s, e))
  }

  function Loop(p: Profile, deadline: real, world: nat -> Attempt, s: State): Result
    decreases p.maxRetries + 1 - s.attempt
  {
    if s.attempt > p.maxRetries then Result(Failed(HttpError, RequestFailed), s)
    else
      match OnePass(p, deadline, world(s.attempt), s)
      case Done(r) => r
      case Again(t) => Loop(p, deadline, world, t)
  }

  function Started(p: Profile, start: real): State {
    State(0, start, p.retryBudget, 0, [], [], 0.0)
  }

  function Request(p: Profile, world: nat -> Attempt, start: real): Result {
    Loop(p, start + p.overallDeadline, world, Started(p, start))
  }

  method RequestWithRetry(p: Profile, world: nat -> Attempt, start: real) returns (r: Result)
    ensures r == Request(p, world, start)
    ensures Accounted(p, world, start, r)
  {
    hide AfterPost, Min, Accounted;
    RequestAccounted(p, world, start);
    var deadline := start + p.overallDeadline;
    var s := Started(p, start);
    for attempt := 0 to p.maxRetries + 1
      invariant s.attempt == attempt
      invariant Request(p, world, start) == Loop(p, deadline, world, s)
    {
      var remaining := deadline - s.now;
      if remaining <= 0.0 {
        return Result(Failed(TimedOut, DeadlineExceeded), s);
      }
      var e := world(attempt).exchange(Min(p.timeoutSeconds, remaining));
      s := s.(now := s.now + e.duration, seen := s.seen + [e]);
      if e.reply == ReadTimeout {
        s := s.(readTimeouts := s.readTimeouts + 1);
      }
      var done: Option<Result>;
      done, s := Decide(p, deadline, world(attempt).jitter, e, s);
      if done.Some? {
        return done.value;
      }
    }
    return Result(Failed(HttpError, RequestFailed), s);
  }

  /** The rest of the loop's body: an outcome, or the state after the delay. */
  method Decide(p: Profile, deadline: real, jitter: real, e: Exchange, s: State)
    returns (done: Option<Result>, t: State)
    ensures AfterPost(p, deadline, jitter, e, s)
            == if done.Some? then Done(done.value) else Again(t)
  {
    hide RetryDelay, Success, RetryableStatus;
    t := s;
    var raised := !e.reply.Response?;
    if e.reply == ReadTimeout && s.readTimeouts > p.readTimeoutMaxRetries {
      return Some(Result(Failed(TimedOut, ReadTimeouts), s)), s;
    }
    if e.reply == OtherTimeout {
      return Some(Result(Failed(TimedOut, RequestTimedOut), s)), s;
    }
    if e.reply == OtherHttpError || e.reply == Crash {
      return Some(Result(Failed(HttpError, Unavailable), s)), s;
    }
    if Success(e.reply) {
      return Some(Result(Parsed, s)), s;
    }
    if !raised && !RetryableStatus(e.reply.status) {
      return Some(Result(Failed(HttpError, Status(e.reply.status)), s)), s;
    }
    if s.attempt >= p.maxRetries {
      return Some(Result(Failed(if raised then TimedOut else HttpError, RetryLimit), s)), s;
    }
    var delay := RetryDelay(e.reply, s.attempt, jitter);
    if delay.None? || delay.value > s.budget || delay.value >= deadline - s.now {
      return Some(Result(Failed(if raised then TimedOut else HttpError, BudgetExhausted), s)), s;
    }
    t := s.(now := s.now + delay.value, budget := s.budget - delay.value,
            sleeps := s.sleeps + [delay.value], slept := s.slept + delay.value,
            attempt := s.attempt + 1);
    done := None;
  }

  /******* The budgets *******/

  function CountReadTimeouts(seen: seq<Exchange>): nat {
    if seen == [] then 0
    else
      CountReadTimeouts(seen[..|seen| - 1])
      + (if seen[|seen| - 1].reply == ReadTimeout then 1 else 0)
  }

  ghost predicate AllRetryable(seen: seq<Exchange>) {
    forall i :: 0 <= i < |seen| ==> Retryable(seen[i].reply)
  }

  /** What holds at the head of the loop. */
  ghost predicate Sound(p: Profile, s: State) {
    && |s.seen| == s.attempt <= p.maxRetries
    && 0.0 <= s.slept && 0.0 <= s.budget && s.slept + s.budget == p.retryBudget
    && s.readTimeouts == CountReadTimeouts(s.seen) <= p.readTimeoutMaxRetries
    && AllRetryable(s.seen)
  }

  /** What holds of the result. */
  ghost predicate WithinBudgets(p: Profile, r: Result) {
    && |r.state.seen| <= p.maxRetries + 1
    && 0.0 <= r.state.slept <= p.retryBudget
    && CountReadTimeouts(r.state.seen) <= p.readTimeoutMaxRetries + 1
    && r.outcome != Failed(HttpError, RequestFailed)
    && (r.state.seen != [] ==> AllRetryable(r.state.seen[..|r.state.seen| - 1]))
    && (r.outcome == Parsed <==>
          r.state.seen != [] && Success(r.state.seen[|r.state.seen| - 1].reply))
  }

  lemma {:induction false} DoubledPositive(n: nat)
    ensures Doubled(n) > 0.0
  {
    if n > 0 {
      DoubledPositive(n - 1);
    }
  }

  lemma DelayNonNegative(reply: Reply, attempt: nat, jitter: real)
    ensures RetryDelay(reply, attempt, jitter).Some? ==>
              RetryDelay(reply, attempt, jitter).value >= 0.0
  {
    DoubledPositive(attempt);
  }

  lemma OneMore(seen: seq<Exchange>, e: Exchange)
    requires AllRetryable(seen)
    ensures
      var more := seen + [e];
      && more[..|more| - 1] == seen && more[|more| - 1] == e
      && CountReadTimeouts(more)
         == CountReadTimeouts(seen) + (if e.reply == ReadTimeout then 1 else 0)
      && (Retryable(e.reply) ==> AllRetryable(more))
  {
    assert (seen + [e])[..|seen|] == seen;
  }

  lemma StopSound(p: Profile, s: State, reason: Reason)
    requires Sound(p, s)
    ensures WithinBudgets(p, Result(Failed(reason, DeadlineExceeded), s))
  {
    if s.seen != [] {
      assert Retryable(s.seen[|s.seen| - 1].reply);
    }
  }

  lemma PassSound(p: Profile, deadline: real, a: Attempt, s: State)
    requires Sound(p, s)
    ensures
      match OnePass(p, deadline, a, s)
      case Done(r) => WithinBudgets(p, r)
      case Again(t) => Sound(p, t)
  {
    hide RetryDelay, CountReadTimeouts, AllRetryable, RetryableStatus;
    var e := a.exchange(Min(p.timeoutSeconds, deadline - s.now));
    DelayNonNegative(e.reply, s.attempt, a.jitter);
    OneMore(s.seen, e);
    StopSound(p, s, TimedOut);
  }

  lemma {:induction false} LoopWithinBudgets(p: Profile, deadline: real, world: nat -> Attempt,
                                             s: State)
    requires Sound(p, s)
    ensures WithinBudgets(p, Loop(p, deadline, world, s))
    decreases p.maxRetries - s.attempt
  {
    hide Sound, WithinBudgets, OnePass;
    SoundAttempt(p, s);
    PassSound(p, deadline, world(s.attempt), s);
    match OnePass(p, deadline, world(s.attempt), s)
    case Done(_) =>
    case Again(t) => LoopWithinBudgets(p, deadline, world, t);
  }

  lemma SoundAttempt(p: Profile, s: State)
    requires Sound(p, s)
    ensures s.attempt <= p.maxRetries
  {}

  /** However the server behaves: at most one post more than the retries, at most one read timeout
      more than their limit, sleeps within the delay budget, never the statement after the loop;
      every reply but the last was retryable, and the request succeeds exactly when the last reply
      is a success. */
  lemma RequestWithinBudgets(p: Profile, world: nat -> Attempt, start: real)
    requires p.retryBudget >= 0.0
    ensures WithinBudgets(p, Request(p, world, start))
  {
    LoopWithinBudgets(p, start + p.overallDeadline, world, Started(p, start));
  }

  /** Every post takes some time, and no more than the timeout it was given. */
  ghost predicate Honoured(world: nat -> Attempt) {
    forall k, timeout :: timeout > 0.0 ==>
      0.0 <= world(k).exchange(timeout).duration <= timeout
  }

  lemma {:induction false} LoopMeetsDeadline(p: Profile, deadline: real, world: nat -> Attempt,
                                             s: State)
    requires Honoured(world) && p.timeoutSeconds > 0.0 && s.now <= deadline
    ensures s.now <= Loop(p, deadline, world, s).state.now <= deadline
    decreases p.maxRetries + 1 - s.attempt
  {
    hide RetryDelay;
    if s.attempt <= p.maxRetries && s.now < deadline {
      var timeout := Min(p.timeoutSeconds, deadline - s.now);
      var e := world(s.attempt).exchange(timeout);
      DelayNonNegative(e.reply, s.attempt, world(s.attempt).jitter);
      assert 0.0 <= e.duration <= timeout;
      match OnePass(p, deadline, world(s.attempt), s)
      case Done(_) =>
      case Again(t) => LoopMeetsDeadline(p, deadline, world, t);
    }
  }

  /** When posts honour their timeouts and sleeps are exact, the request returns by its overall
      deadline. */
  lemma RequestMeetsDeadline(p: Profile, world: nat -> Attempt, start: real)
    requires Honoured(world) && p.timeoutSeconds > 0.0 && p.overallDeadline > 0.0
    ensures start <= Request(p, world, start).state.now <= start + p.overallDeadline
  {
    LoopMeetsDeadline(p, start + p.overallDeadline, world, Started(p, start));
  }

  /******* What the loop must have done *******/

  /** Replies after which another attempt may follow. */
  ghost predicate Transient(reply: Reply) {
    || reply == ReadTimeout || reply == ConnectFailure
    || (reply.Response? && (reply.status in {408, 429} || 500 <= reply.status <= 599))
  }

  function TwoTo(n: nat): nat {
    if n == 0 then 1 else 2 * TwoTo(n - 1)
  }

  /** The delay a reply requires after attempt `n`: what `Retry-After` says, never less than
      nothing, or half a second doubled with every attempt, and the jitter.  An infinite one has no
      value. */
  ghost predicate Requires(reply: Reply, n: nat, jitter: real, delay: real) {
    if reply.Response? && reply.retryAfter.Date? then
      delay == if reply.retryAfter.away > 0.0 then reply.retryAfter.away else 0.0
    else if reply.Response? && reply.retryAfter.Seconds? then
      match reply.retryAfter.number
      case Finite(x) => delay == if x > 0.0 then x else 0.0
      case PlusInfinity => false
      case _ => delay == 0.0
    else delay == 0.5 * TwoTo(n) as real + if jitter > 0.0 then jitter else 0.0
  }

  function Durations(seen: seq<Exchange>): real {
    if seen == [] then 0.0 else Durations(seen[..|seen| - 1]) + seen[|seen| - 1].duration
  }

  function Sum(xs: seq<real>): real {
    if xs == [] then 0.0 else Sum(xs[..|xs| - 1]) + xs[|xs| - 1]
  }

  /** The time after the given posts and sleeps. */
  function Time(start: real, seen: seq<Exchange>, sleeps: seq<real>): real {
    start + Durations(seen) + Sum(sleeps)
  }

  /** The delay fits the budget that is left and ends before the deadline. */
  ghost predicate Affordable(p: Profile, start: real, seen: seq<Exchange>, sleeps: seq<real>,
                             delay: real)
  {
    && delay <= p.retryBudget - Sum(sleeps)
    && delay < start + p.overallDeadline - Time(start, seen, sleeps)
  }

  /** Another post may follow the exchanges seen: the last reply was transient, the read timeouts
      are within their limit and a retry is left. */
  ghost predicate MayRetry(p: Profile, seen: seq<Exchange>) {
    && seen != [] && Transient(seen[|seen| - 1].reply)
    && CountReadTimeouts(seen) <= p.readTimeoutMaxRetries
    && |seen| <= p.maxRetries
  }

  /** The post is given the time that is left, up to the timeout. */
  ghost predicate PostOk(p: Profile, attempt: Attempt, start: real, e: Exchange,
                         before: seq<Exchange>, sleeps: seq<real>)
  {
    var left := start + p.overallDeadline - Time(start, before, sleeps);
    && 0.0 < left
    && e == attempt.exchange(if left < p.timeoutSeconds then left else p.timeoutSeconds)
  }

  ghost predicate PostsOk(p: Profile, world: nat -> Attempt, start: real, seen: seq<Exchange>,
                          sleeps: seq<real>)
  {
    forall i :: 0 <= i < |seen| && i <= |sleeps| ==>
      PostOk(p, world(i), start, seen[i], seen[..i], sleeps[..i])
  }

  /** The sleep after attempt `n` is the affordable delay required by the last reply. */
  ghost predicate SleepOk(p: Profile, attempt: Attempt, start: real, n: nat, seen: seq<Exchange>,
                          sleeps: seq<real>, delay: real)
  {
    && MayRetry(p, seen)
    && Requires(seen[|seen| - 1].reply, n, attempt.jitter, delay)
    && Affordable(p, start, seen, sleeps, delay)
  }

  ghost predicate SleepsOk(p: Profile, world: nat -> Attempt, start: real, seen: seq<Exchange>,
                           sleeps: seq<real>)
  {
    forall i :: 0 <= i < |sleeps| && i < |seen| ==>
      SleepOk(p, world(i), start, i, seen[..i + 1], sleeps[..i], sleeps[i])
  }

  /** Why the loop ended after the last exchange. */
  ghost predicate EndsOk(p: Profile, world: nat -> Attempt, start: real, outcome: Outcome,
                         seen: seq<Exchange>, sleeps: seq<real>)
    requires seen != []
  {
    var last := seen[|seen| - 1].reply;
    match outcome
    case Parsed => last.Response? && 200 <= last.status < 300
    case Failed(reason, RetryLimit) =>
      && |seen| == p.maxRetries + 1 && Transient(last)
      && CountReadTimeouts(seen) <= p.readTimeoutMaxRetries
      && reason == if last.Response? then HttpError else TimedOut
    case Failed(reason, BudgetExhausted) =>
      && MayRetry(p, seen)
      && (forall delay :: Requires(last, |seen| - 1, world(|seen| - 1).jitter, delay) ==>
            !Affordable(p, start, seen, sleeps, delay))
      && reason == if last.Response? then HttpError else TimedOut
    case Failed(TimedOut, ReadTimeouts) =>
      last == ReadTimeout && CountReadTimeouts(seen) > p.readTimeoutMaxRetries
    case Failed(TimedOut, RequestTimedOut) => last == OtherTimeout
    case Failed(HttpError, Unavailable) => last == OtherHttpError || last == Crash
    case Failed(HttpError, Status(code)) =>
      last.Response? && last.status == code && !(200 <= code < 300) && !Transient(last)
    case _ => false
  }

  /** A whole run: nothing but an overall deadline that leaves no time keeps the first post from
      being made; after it every post and every sleep is accounted for, and so is the end. */
  ghost predicate Accounted(p: Profile, world: nat -> Attempt, start: real, r: Result) {
    var seen, sleeps := r.state.seen, r.state.sleeps;
    if p.overallDeadline <= 0.0 then
      seen == [] && sleeps == [] && r.outcome == Failed(TimedOut, DeadlineExceeded)
    else
      && |seen| == |sleeps| + 1
      && PostsOk(p, world, start, seen, sleeps) && SleepsOk(p, world, start, seen, sleeps)
      && EndsOk(p, world, start, r.outcome, seen, sleeps)
      && r.state.now == Time(start, seen, sleeps) && r.state.slept == Sum(sleeps)
  }

  /** What holds at the head of the loop. */
  ghost predicate Ledger(p: Profile, world: nat -> Attempt, start: real, s: State) {
    && |s.seen| == |s.sleeps| == s.attempt <= p.maxRetries
    && PostsOk(p, world, start, s.seen, s.sleeps) && SleepsOk(p, world, start, s.seen, s.sleeps)
    && s.now == Time(start, s.seen, s.sleeps) < start + p.overallDeadline
    && s.slept == Sum(s.sleeps) && s.budget == p.retryBudget - Sum(s.sleeps)
    && s.readTimeouts == CountReadTimeouts(s.seen) <= p.readTimeoutMaxRetries
  }

  lemma {:induction false} DoubledIs(n: nat)
    ensures Doubled(n) == 0.5 * TwoTo(n) as real
  {
    if n > 0 {
      DoubledIs(n - 1);
    }
  }

  lemma DelayExactly(reply: Reply, n: nat, jitter: real)
    ensures
      match RetryDelay(reply, n, jitter)
      case Some(delay) => forall d :: Requires(reply, n, jitter, d) <==> d == delay
      case None => forall d :: !Requires(reply, n, jitter, d)
  {
    DoubledIs(n);
  }

  lemma PostAppended(p: Profile, world: nat -> Attempt, start: real, seen: seq<Exchange>,
                     sleeps: seq<real>, e: Exchange)
    requires |seen| == |sleeps|
    requires PostsOk(p, world, start, seen, sleeps) && SleepsOk(p, world, start, seen, sleeps)
    requires PostOk(p, world(|seen|), start, e, seen, sleeps)
    ensures PostsOk(p, world, start, seen + [e], sleeps)
    ensures SleepsOk(p, world, start, seen + [e], sleeps)
    ensures Time(start, seen + [e], sleeps) == Time(start, seen, sleeps) + e.duration
  {
    hide PostOk, SleepOk;
    var more := seen + [e];
    assert more[..|seen|] == seen && sleeps[..|sleeps|] == sleeps;
    forall i | 0 <= i <= |seen| ensures more[..i] == seen[..i] {}
  }

  /** The next post of a pass is accounted for. */
  lemma PostAdded(p: Profile, world: nat -> Attempt, start: real, s: State, e: Exchange)
    requires Ledger(p, world, start, s)
    requires e == world(s.attempt).exchange(
                    Min(p.timeoutSeconds, start + p.overallDeadline - s.now))
    ensures
      var t := Posted(s, e);
      && PostsOk(p, world, start, t.seen, t.sleeps) && SleepsOk(p, world, start, t.seen, t.sleeps)
      && t.now == Time(start, t.seen, t.sleeps)
      && t.readTimeouts == CountReadTimeouts(t.seen)
  {
    hide PostsOk, SleepsOk, Time;
    PostAppended(p, world, start, s.seen, s.sleeps, e);
    assert (s.seen + [e])[..|s.seen|] == s.seen;
  }

  lemma SleepAdded(p: Profile, world: nat -> Attempt, start: real, t: State, delay: real)
    requires |t.seen| == |t.sleeps| + 1
    requires PostsOk(p, world, start, t.seen, t.sleeps)
    requires SleepsOk(p, world, start, t.seen, t.sleeps)
    requires SleepOk(p, world(|t.sleeps|), start, |t.sleeps|, t.seen, t.sleeps, delay)
    ensures PostsOk(p, world, start, t.seen, t.sleeps + [delay])
    ensures SleepsOk(p, world, start, t.seen, t.sleeps + [delay])
    ensures Time(start, t.seen, t.sleeps + [delay]) == Time(start, t.seen, t.sleeps) + delay
    ensures Sum(t.sleeps + [delay]) == Sum(t.sleeps) + delay
  {
    hide PostOk, SleepOk;
    var more := t.sleeps + [delay];
    assert more[..|t.sleeps|] == t.sleeps && t.seen[..|t.seen|] == t.seen;
    forall i | 0 <= i <= |t.sleeps| ensures more[..i] == t.sleeps[..i] {}
  }

  lemma PassAccounted(p: Profile, world: nat -> Attempt, start: real, s: State)
    requires Ledger(p, world, start, s) && p.overallDeadline > 0.0
    ensures
      match OnePass(p, start + p.overallDeadline, world(s.attempt), s)
      case Done(r) => Accounted(p, world, start, r)
      case Again(t) => Ledger(p, world, start, t)
  {
    hide PostsOk, SleepsOk, Requires, RetryDelay, Time, CountReadTimeouts, Sum;
    var deadline := start + p.overallDeadline;
    var e := world(s.attempt).exchange(Min(p.timeoutSeconds, deadline - s.now));
    PostAdded(p, world, start, s, e);
    var t := Posted(s, e);
    assert t.seen[|t.seen| - 1] == e;
    DelayExactly(e.reply, s.attempt, world(s.attempt).jitter);
    match OnePass(p, deadline, world(s.attempt), s)
    case Done(_) =>
    case Again(u) => SleepAdded(p, world, start, t, u.now - t.now);
  }

  lemma {:induction false} LoopAccounted(p: Profile, world: nat -> Attempt, start: real, s: State)
    requires Ledger(p, world, start, s) && p.overallDeadline > 0.0
    ensures Accounted(p, world, start, Loop(p, start + p.overallDeadline, world, s))
    decreases p.maxRetries - s.attempt
  {
    hide Accounted, OnePass, PostsOk, SleepsOk;
    PassAccounted(p, world, start, s);
    match OnePass(p, start + p.overallDeadline, world(s.attempt), s)
    case Done(_) =>
    case Again(t) => LoopAccounted(p, world, start, t);
  }

  /** Whatever the server does, every request is accounted for, post by post and sleep by sleep. */
  lemma RequestAccounted(p: Profile, world: nat -> Attempt, start: real)
    ensures Accounted(p, world, start, Request(p, world, start))
  {
    if p.overallDeadline > 0.0 {
      LoopAccounted(p, world, start, Started(p, start));
    }
  }

  /** In particular no retry is given up early: the limit is reached only after all posts, and a
      transient reply with a retry left, read timeouts within their limit and an affordable delay
      is followed by another post. */
  lemma RetriesTaken(p: Profile, world: nat -> Attempt, start: real, i: nat, delay: real)
    requires i < |Request(p, world, start).state.seen|
    requires
      var t := Request(p, world, start).state;
      && i <= |t.sleeps|
      && SleepOk(p, world(i), start, i, t.seen[..i + 1], t.sleeps[..i], delay)
    ensures i + 1 < |Request(p, world, start).state.seen|
    ensures i < |Request(p, world, start).state.sleeps|
    ensures Request(p, world, start).state.sleeps[i] == delay
  {
    hide Request, CountReadTimeouts, Affordable, PostsOk, Sum, Time;
    RequestAccounted(p, world, start);
    var t := Request(p, world, start).state;
    assert t.seen[..|t.seen|] == t.seen && t.sleeps[..|t.sleeps|] == t.sleeps;
  }
}
