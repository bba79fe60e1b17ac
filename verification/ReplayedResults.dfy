/** From the executed result to the replayed one, through the snapshot mapper and every run of the
    protocol between them. */
module ReplayedResults {
  import opened Wrappers
  import opened Records
  import opened Transactions
  import opened Protocol
  import opened Fencing
  import opened Replays
  import SnapshotMapper
  import SafeJson

  /** A result that was mapped and committed is what a later submission with the same fingerprint
      gets back until the expiry, whatever happens in between, as far as the mapper restores it:
      `ReplayLoss.ReplayLosesExactly` says when that is all of the executed result. */
  lemma ReplayGivesBack(cfg: Config, rules: SafeJson.Rules, s: System, id: string,
                        o: SnapshotMapper.Orchestration,
                        runId: string, event: string, commit: Commit, ops: seq<Op>,
                        sub: Submission, keyHash: string, staleness: nat, ids: Ids,
                        text: string, replayedAt: int, now: int)
    requires cfg.Valid() && Reachable(cfg, s) && Keyed(s, id)
    requires forall v :: cfg.restorable(v) <==> SnapshotMapper.Restore(rules, v, 1, "", "", 0, 0).Ok?
    requires SnapshotMapper.Valid(rules, o) && SnapshotMapper.Storable(rules, o)
    requires commit != Refused && sub.requestId != "" && id in s.db.requests
    requires SubmissionScope(sub, keyHash) == s.handles[id].token.value.scope
    requires FreshRecord(sub, Some(keyHash)).fingerprint == s.db.requests[id].record.fingerprint
    requires sub.fingerprintVersion == s.db.requests[id].record.fingerprintVersion
    requires
      var ending := Executed(o.policy.status == "BLOCKED", SnapshotMapper.Map(rules, o));
      var done := Step(cfg, s, Finish(id, ending, runId, event, commit)).0;
      && FinishDb(cfg, s, s.handles[id], ending, runId, event).Ok?
      && Execute(cfg, done, ops).clock < After(s.clock, cfg.policy.replaySeconds)
      && Writable(Execute(cfg, done, ops).db, sub.requestId, ids.acceptEvent)
    ensures
      var ending := Executed(o.policy.status == "BLOCKED", SnapshotMapper.Map(rules, o));
      var done := Step(cfg, s, Finish(id, ending, runId, event, commit)).0;
      var t := Execute(cfg, done, ops);
      var reply := StepAccept(cfg, t, sub, Some(keyHash), staleness, ids, Acknowledged).1;
      && reply.Answer? && reply.acceptance.Replayed?
      && reply.acceptance.originalRequestId == id
      && SnapshotMapper.Restore(rules, reply.acceptance.snapshot,
                                reply.acceptance.snapshotVersion, sub.sessionId, text, replayedAt,
                                now)
         == Ok(SnapshotMapper.Restored(o, sub.sessionId, text, replayedAt, now))
  {
    hide Reachable, Keyed, FinishDb, Step, StepAccept, Execute, Writable, SnapshotMapper.Restore,
         SnapshotMapper.Restored, SnapshotMapper.Map, SnapshotMapper.Storable,
         SnapshotMapper.Valid;
    SnapshotMapper.MapsExactly(rules, o);
    SnapshotMapper.RestoreMapped(rules, o, sub.sessionId, text, replayedAt, now);
    SnapshotMapper.RestoreMapped(rules, o, "", "", 0, 0);
    var snapshot := SnapshotMapper.Map(rules, o).value;
    ReplayFidelity(cfg, s, id, o.policy.status == "BLOCKED", snapshot, runId, event, commit, ops,
                   sub, keyHash, staleness, ids, Acknowledged);
  }
}
