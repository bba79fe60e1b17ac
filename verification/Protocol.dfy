/** Every interleaving of the durable services' transactions, crashes, lost acknowledgements,
    refused commits and prunes, as runs of one deterministic step function. */
module Protocol {
  import opened Wrappers
  import opened Records
  import opened Ledger
  import opened Transactions
  import Json

  /** What a worker remembers between its two transactions.  The unkeyed path has no token. */
  datatype Handle = Handle(token: Option<Token>, ref: RequestRef)

  /** `handles` are the workers between their transactions; a worker that crashes just never
      takes another step.  `executed` and `retired` are history: the snapshot every committed
      execution was mapped to, and the claim versions of a scope's pruned records. */
  datatype System = System(
    db: Db, clock: Time, handles: map<string, Handle>,
    executed: map<string, Json.Object>, retired: map<Scope, nat>)

  const START := System(EMPTY, 0, map[], map[], map[])

  /** How the commit of a transaction ends: acknowledged, installed with the acknowledgement
      lost, or refused. */
  datatype Commit = Acknowledged | AckLost | Refused

  /** `Draw` says which ids the next transaction draws from the sequences of a database; the in-memory
      tables count. */
  datatype Op =
    | Tick(elapsed: nat)
    | Accept(sub: Submission, keyHash: Option<string>, staleness: nat, ids: Ids, commit: Commit)
    | Finish(requestId: string, ending: Ending, runId: string, event: string, commit: Commit)
    | PruneBatch(chosen: set<Scope>)
    | Draw(request: nat, run: nat, audit: nat)

  datatype Reply =
    | Silent
    | Raised(error: Error)
    | Answer(acceptance: Acceptance)
    | Admitted(ref: RequestRef)
    | Finished

  /** The parameters of a deployment. */
  datatype Config = Config(policy: Policy, marginSeconds: int, restorable: Json.Value -> bool) {
    predicate Valid() {
      policy.Valid() && marginSeconds > 0
    }
  }

  function Retire(s: System, chosen: set<Scope>, marginSeconds: int): map<Scope, nat> {
    var gone := set scope | scope in s.db.records && scope in chosen
                            && Prunable(s.db.records[scope], s.clock, marginSeconds);
    map scope | scope in s.retired.Keys + gone ::
      (if scope in s.retired then s.retired[scope] else 0)
      + (if scope in gone && s.db.records[scope].claimVersion > 0
         then s.db.records[scope].claimVersion else 0)
  }

  ghost function StepAccept(cfg: Config, s: System, sub: Submission, keyHash: Option<string>,
                            staleness: nat, ids: Ids, commit: Commit): (System, Reply)
  {
    if sub.requestId == "" then (s, Raised(InvalidState))  // no request context has an empty id
    else if keyHash.None? then
      match AcceptUnkeyed(s.db, sub, ids.acceptEvent)
      case Err(e) => (s, Raised(e))
      case Ok((db, ref)) =>
        if commit == Refused then (s, Raised(WriteFailed))
        else if commit == AckLost then (s.(db := db), Raised(WriteFailed))
        else
          (s.(db := db, handles := s.handles[sub.requestId := Handle(None, ref)]), Admitted(ref))
    else
      match ClaimAndAccept(s.db, cfg.policy, sub, keyHash.value, s.clock - staleness, ids,
                           cfg.restorable)
      case Err(e) => (s, Raised(e))
      case Ok((db, acceptance)) =>
        var commits := acceptance.Started? || acceptance.Replayed?;
        if !commits then (s, Answer(acceptance))
        else if commit == Refused then (s, Raised(WriteFailed))
        else if commit == AckLost then (s.(db := db), Raised(WriteFailed))
        else if acceptance.Started? then
          (s.(db := db,
              handles := s.handles[sub.requestId :=
                Handle(Some(acceptance.token), acceptance.ref)]),
           Answer(acceptance))
        else (s.(db := db), Answer(acceptance))
  }

  ghost function FinishDb(cfg: Config, s: System, handle: Handle, ending: Ending,
                          runId: string, event: string): Result<Db>
  {
    if handle.token.Some? then
      FinishKeyed(s.db, cfg.policy, handle.token.value, handle.ref, ending, runId, event, s.clock)
    else
      FinishUnkeyed(s.db, handle.ref, ending, runId, event)
  }

  function Recorded(s: System, handle: Handle, ending: Ending): map<string, Json.Object> {
    if handle.token.Some? && ending.Executed? && ending.snapshot.Ok?
    then s.executed[handle.ref.requestId := ending.snapshot.value]
    else s.executed
  }

  ghost function StepFinish(cfg: Config, s: System, requestId: string, ending: Ending,
                            runId: string, event: string, commit: Commit): (System, Reply)
  {
    if requestId !in s.handles then (s, Raised(RequestNotFound))
    else if ending.Crashed? && ending.code !in EXECUTION_FAILURES then
      (s, Raised(InvalidState))  // the failure code mapper refuses any other code
    else
      var handle := s.handles[requestId];
      match FinishDb(cfg, s, handle, ending, runId, event)
      case Err(e) => (s, Raised(e))
      case Ok(db) =>
        if commit == Refused then (s, Raised(WriteFailed))
        else
          (s.(db := db, executed := Recorded(s, handle, ending)),
           if commit == AckLost then Raised(WriteFailed) else Finished)
  }

  ghost function Step(cfg: Config, s: System, op: Op): (System, Reply) {
    match op
    case Tick(elapsed) => (s.(clock := s.clock + elapsed), Silent)
    case Accept(sub, keyHash, staleness, ids, commit) =>
      StepAccept(cfg, s, sub, keyHash, staleness, ids, commit)
    case Finish(requestId, ending, runId, event, commit) =>
      StepFinish(cfg, s, requestId, ending, runId, event, commit)
    case Draw(request, run, audit) => (s.(db := Drawn(s.db, request, run, audit)), Silent)
    case PruneBatch(chosen) =>
      (s.(db := Prune(s.db, chosen, s.clock, cfg.marginSeconds),
          retired := Retire(s, chosen, cfg.marginSeconds)),
       Silent)
  }

  ghost function Execute(cfg: Config, s: System, ops: seq<Op>): System
    decreases |ops|
  {
    if ops == [] then s else Execute(cfg, Step(cfg, s, ops[0]).0, ops[1..])
  }

  ghost function Replies(cfg: Config, s: System, ops: seq<Op>): (replies: seq<Reply>)
    ensures |replies| == |ops|
    decreases |ops|
  {
    if ops == [] then []
    else
      var (t, reply) := Step(cfg, s, ops[0]);
      [reply] + Replies(cfg, t, ops[1..])
  }

  /** The states any run from empty tables passes through. */
  ghost predicate Reachable(cfg: Config, s: System) {
    exists ops :: Execute(cfg, START, ops) == s
  }
}
