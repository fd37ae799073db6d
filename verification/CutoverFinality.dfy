/**
 Crash-safe finality and liveness of the cutover phases, over every run from an empty
 evidence directory.
 */
module CutoverFinality {
  import opened Patterns
  import opened EvidenceStore
  import opened CutoverPlan
  import opened CutoverRuns
  import opened CutoverInvariant

  /** No other fields hash like a drill file that is present now. */
  ghost predicate NoSecondPreimage(h: Sha, drills: Drills) {
    forall name, fields :: name in drills && h(Drill(fields)) == h(Drill(drills[name])) ==> fields == drills[name]
  }

  lemma {:induction false} RunKeepsPhase(h: Sha, w: World, actions: seq<Action>)
    requires PrintsSha256(h) && PhaseInvariant(h, w)
    ensures PhaseInvariant(h, Run(h, w, actions))
    decreases |actions|
  {
    if actions == [] {
    } else {
      StepKeepsPhase(h, w, actions[0]);
      RunKeepsPhase(h, Execute(h, w, actions[0]), actions[1..]);
    }
  }

  /** The drill files that the final proof names are present and unchanged. */
  predicate DrillsUnchanged(h: Sha, drills: Drills, f: Evidence)
    requires f.FinalProof?
  {
    && f.recoveryName in drills && f.retentionName in drills
    && f.recoverySha == h(Drill(drills[f.recoveryName]))
    && f.retentionSha == h(Drill(drills[f.retentionName]))
  }

  predicate MarkerNamesAccepted(recoveryName: string, retentionName: string) {
    IsRecoveryMarkerName(recoveryName) && retentionName == RETENTION_MARKER_NAME
  }

  /**
   Finality: after any run, whatever crashed, an accepted final proof belongs to the most
   recently begun session, the three step proofs share its identity, and each hash it
   records is that of the file on disk.
   */
  lemma Finality(h: Sha, actions: seq<Action>, drills: Drills, revision: string)
    requires PrintsSha256(h)
    ensures var w := Run(h, EMPTY_WORLD, actions);
            FinalValid(h, drills, w.files, revision) ==>
              && w.begun.Some? && w.begun.value.revision == revision
              && w.files[FinalMark].session == w.begun.value
              && w.files[PostgresMark].session == w.begun.value
              && w.files[RedisMark].session == w.begun.value
              && w.files[SeedMark].session == w.begun.value
              && w.files[FinalMark].postgresSha == h(w.files[PostgresMark])
              && w.files[FinalMark].redisSha == h(w.files[RedisMark])
              && w.files[FinalMark].seedSha == h(w.files[SeedMark])
              && w.files[SeedMark].postgresSha == h(w.files[PostgresMark])
              && w.files[SeedMark].redisSha == h(w.files[RedisMark])
  {
    RunKeepsPhase(h, EMPTY_WORLD, actions);
  }

  /**
   When the chain is accepted, exactly: the fence is gone, a session was begun and it has
   this revision, the finalized marker names have the accepted form, and the drill files
   they name are unchanged.  No run makes any other check of validate-final fail.
   */
  lemma FinalityCharacterised(h: Sha, actions: seq<Action>, drills: Drills, revision: string)
    requires PrintsSha256(h) && NoSecondPreimage(h, drills)
    ensures var w := Run(h, EMPTY_WORLD, actions);
            FinalValid(h, drills, w.files, revision) <==>
              && InProgressMark !in w.files
              && w.begun.Some? && w.begun.value.revision == revision
              && FinalMark in w.files && w.files[FinalMark].FinalProof?
              && MarkerNamesAccepted(w.files[FinalMark].recoveryName, w.files[FinalMark].retentionName)
              && DrillsUnchanged(h, drills, w.files[FinalMark])
  {
    RunKeepsPhase(h, EMPTY_WORLD, actions);
    var w := Run(h, EMPTY_WORLD, actions);
    if InProgressMark !in w.files && w.begun.Some? {
      var f, d := w.files[FinalMark], w.files[SeedMark];
      var recovery, retention :| EvidenceRecorded(h, f, d, recovery, retention);
      if DrillsUnchanged(h, drills, f) {
        assert recovery == drills[f.recoveryName];
        assert retention == drills[f.retentionName];
      }
    }
  }

  /**
   Finalize accepts marker names that validate-final refuses: a completed finalize is
   accepted afterwards if and only if the two names have the accepted form.
   */
  lemma FinalizeAcceptedIffNames(h: Sha, w: World, a: Action)
    requires PrintsSha256(h) && PhaseInvariant(h, w)
    requires a.command.Finalize? && Completes(h, w, a)
    ensures FinalValid(h, a.drills, Execute(h, w, a).files, a.command.id.revision) <==>
            MarkerNamesAccepted(a.command.final.recoveryName, a.command.final.retentionName)
    ensures InProgressMark !in Execute(h, w, a).files
  {
    var plan := PlanOf(h, a.drills, w.files, a.command, a.now);
    TwoOperations(w, plan.ops[0], plan.ops[1], a.cut);
    assert plan.ops == [plan.ops[0], plan.ops[1]];
  }

  // ---- no stranded session ---------------------------------------------------------

  /** What the remaining commands of a session are given. */
  datatype Operator = Operator(
    now: Stamp, drills: Drills, postgres: PostgresArgs, redis: RedisArgs,
    runId: string, snapshotId: string, repositoryId: string, backupSet: string, configuration: string,
    databaseDump: string, redisDump: string, sourceRevision: string,
    recoveryName: string, retentionName: string)

  predicate ValidInputs(o: Operator) {
    && ValidPostgresArgs(o.postgres) && ValidRedisArgs(o.redis)
    && IsRunId(o.runId) && IsSnapshotId(o.snapshotId) && IsSha256(o.repositoryId)
    && IsSha256(o.backupSet) && IsSha256(o.configuration)
    && IsSha256(o.databaseDump) && IsSha256(o.redisDump)
    && IsRevision(o.sourceRevision)
  }

  predicate ValidOperator(o: Operator) {
    ValidInputs(o) && MarkerNamesAccepted(o.recoveryName, o.retentionName)
  }

  /** Recovery and retention evidence of the given snapshot, backup set and repository. */
  predicate DrillsFor(o: Operator, snapshotId: string, backupSet: string, repositoryId: string) {
    && o.recoveryName in o.drills && o.retentionName in o.drills
    && (var recovery, retention := o.drills[o.recoveryName], o.drills[o.retentionName];
        && Field(recovery, "status") == Some("success")
        && Field(recovery, "drill_scope") == Some("current-latest")
        && Field(recovery, "postgres_restore") == Some("verified")
        && Field(recovery, "redis_restore") == Some("verified")
        && Field(recovery, "restored_payload_removed") == Some("true")
        && Field(recovery, "live_services_touched") == Some("false")
        && Field(recovery, "repository_id_sha256") == Some(repositoryId)
        && Field(recovery, "snapshot_id") == Some(snapshotId)
        && Field(recovery, "backup_set_sha256") == Some(backupSet)
        && Field(retention, "status") == Some("immutable-retention-verified")
        && Field(retention, "repository_id_sha256") == Some(repositoryId))
  }

  /** The evidence matches the seed on disk, or the seed the operator will write. */
  predicate EvidenceMatches(s: Store, o: Operator) {
    if InProgressMark in s && s[InProgressMark].Progress? && s[InProgressMark].phase == SeedVerified
       && SeedMark in s && s[SeedMark].SeedProof?
    then DrillsFor(o, s[SeedMark].snapshotId, s[SeedMark].backupSet, s[SeedMark].repositoryId)
    else DrillsFor(o, o.snapshotId, o.backupSet, o.repositoryId)
  }

  function IdentityOf(c: Session): Identity {
    Identity(c.cutoverId, c.revision, c.source)
  }

  /** The command that the phase on disk calls for, with arguments read from the proofs. */
  ghost function NextCommand(h: Sha, w: World, o: Operator): Command
    requires PhaseInvariant(h, w) && InProgressMark in w.files
  {
    var s := w.files;
    var id := IdentityOf(s[InProgressMark].session);
    match s[InProgressMark].phase
    case PostgresInProgress => WritePostgres(id, o.postgres)
    case PostgresVerified => BeginRedis(id)
    case RedisInProgress => WriteRedis(id, o.redis.(workerStop := s[PostgresMark].workerStop))
    case RedisVerified =>
      var p, r := s[PostgresMark], s[RedisMark];
      WriteSeed(id, SeedArgs(o.runId, p.contract, TargetState(p.postgres, r.redisManifest), p.workerStop,
                             o.snapshotId, o.repositoryId, o.backupSet, o.configuration,
                             o.databaseDump, o.redisDump))
    case SeedVerified =>
      var d := s[SeedMark];
      Finalize(id, FinalArgs(o.sourceRevision, o.recoveryName,
                             if o.recoveryName in o.drills then h(Drill(o.drills[o.recoveryName])) else "",
                             o.retentionName,
                             if o.retentionName in o.drills then h(Drill(o.drills[o.retentionName])) else "",
                             d.repositoryId, d.target, d.workerStop, d.contract))
  }

  ghost function NextAction(h: Sha, w: World, o: Operator): Action
    requires PhaseInvariant(h, w) && InProgressMark in w.files
  {
    Action(NextCommand(h, w, o), o.now, o.drills, 100)
  }

  predicate PhaseCommand(c: Command) {
    c.WritePostgres? || c.BeginRedis? || c.WriteRedis? || c.WriteSeed? || c.Finalize?
  }

  function Remaining(phase: Phase): nat {
    match phase
    case PostgresInProgress => 5
    case PostgresVerified => 4
    case RedisInProgress => 3
    case RedisVerified => 2
    case SeedVerified => 1
  }

  lemma SessionIdentity(c: Session)
    requires ValidSession(c)
    ensures CommonFields(IdentityOf(c)) == Some(c)
  {
  }

  lemma AdvancePostgres(h: Sha, w: World, o: Operator)
    requires PrintsSha256(h) && PhaseInvariant(h, w) && InProgressMark in w.files
    requires w.files[InProgressMark].phase == PostgresInProgress || w.files[InProgressMark].phase == RedisInProgress
    requires ValidInputs(o)
    ensures var a := NextAction(h, w, o);
            var started := w.files[InProgressMark].phase == PostgresInProgress;
            && Completes(h, w, a)
            && HasProgress(Execute(h, w, a).files, w.begun.value, if started then PostgresVerified else RedisVerified)
  {
    var a := NextAction(h, w, o);
    SessionIdentity(w.begun.value);
    var plan := PlanOf(h, a.drills, w.files, a.command, a.now);
    TwoOperations(w, plan.ops[0], plan.ops[1], a.cut);
    assert plan.ops == [plan.ops[0], plan.ops[1]];
  }

  lemma {:induction false} UnlinksKeepProgress(w: World, markers: seq<Marker>)
    requires InProgressMark in w.files && InProgressMark !in markers
    ensures InProgressMark in ObserveAll(w, Unlinks(markers)).files
    ensures ObserveAll(w, Unlinks(markers)).files[InProgressMark] == w.files[InProgressMark]
    decreases |markers|
  {
    if markers == [] {
    } else {
      assert Unlinks(markers)[0] == Unlink(markers[0]);
      assert Unlinks(markers)[1..] == Unlinks(markers[1..]);
      UnlinksKeepProgress(Observe(w, Unlink(markers[0])), markers[1..]);
    }
  }

  lemma AdvanceFence(h: Sha, w: World, o: Operator)
    requires PrintsSha256(h) && PhaseInvariant(h, w) && InProgressMark in w.files
    requires w.files[InProgressMark].phase == PostgresVerified
    ensures var a := NextAction(h, w, o);
            Completes(h, w, a) && HasProgress(Execute(h, w, a).files, w.begun.value, RedisInProgress)
  {
    var a := NextAction(h, w, o);
    var c := w.begun.value;
    SessionIdentity(c);
    var fence := Write(InProgressMark, Progress(c, RedisInProgress, a.now));
    FenceOperations(w, fence, CLEARED_BY_REDIS, a.cut);
    UnlinksKeepProgress(Observe(w, fence), CLEARED_BY_REDIS);
  }

  lemma AdvanceSeed(h: Sha, w: World, o: Operator)
    requires PrintsSha256(h) && PhaseInvariant(h, w) && InProgressMark in w.files
    requires w.files[InProgressMark].phase == RedisVerified
    requires ValidInputs(o) && EvidenceMatches(w.files, o)
    ensures var a := NextAction(h, w, o);
            && Completes(h, w, a)
            && HasProgress(Execute(h, w, a).files, w.begun.value, SeedVerified)
            && EvidenceMatches(Execute(h, w, a).files, o)
  {
    var a := NextAction(h, w, o);
    SessionIdentity(w.begun.value);
    var plan := PlanOf(h, a.drills, w.files, a.command, a.now);
    TwoOperations(w, plan.ops[0], plan.ops[1], a.cut);
    assert plan.ops == [plan.ops[0], plan.ops[1]];
  }

  predicate PlainChar(c: char) {
    IsAlphanumeric(c) || c == '.' || c == '-'
  }

  lemma PlainNameIsSafe(n: string)
    requires n == "restic-restore-" || n == ".ok" || n == RETENTION_MARKER_NAME
    ensures forall i :: 0 <= i < |n| ==> PlainChar(n[i])
  {
  }

  lemma MarkerNamesAreSafe(o: Operator)
    requires MarkerNamesAccepted(o.recoveryName, o.retentionName)
    ensures IsBasename(o.recoveryName) && IsBasename(o.retentionName)
    ensures IsSafeValue(o.recoveryName) && IsSafeValue(o.retentionName)
  {
    var n := o.recoveryName;
    PlainNameIsSafe(n[..15]);
    PlainNameIsSafe(n[|n| - 3..]);
    PlainNameIsSafe(o.retentionName);
    forall i | 0 <= i < |n|
      ensures PlainChar(n[i])
    {
      if i < 15 {
        assert n[i] == n[..15][i];
      } else if |n| - 3 <= i {
        assert n[i] == n[|n| - 3..][i - (|n| - 3)];
      }
    }
  }

  /** Names that finalize can record, whether or not validate-final accepts them. */
  predicate NamesRecordable(o: Operator) {
    && IsBasename(o.recoveryName) && IsBasename(o.retentionName)
    && IsSafeValue(o.recoveryName) && IsSafeValue(o.retentionName)
  }

  /** In the last phase finalize passes its guards, whatever form the recordable names have. */
  lemma FinalizeCompletes(h: Sha, w: World, o: Operator)
    requires PrintsSha256(h) && PhaseInvariant(h, w) && InProgressMark in w.files
    requires w.files[InProgressMark].phase == SeedVerified
    requires ValidInputs(o) && NamesRecordable(o) && EvidenceMatches(w.files, o)
    ensures var a := NextAction(h, w, o);
            && a.command.Finalize? && Completes(h, w, a)
            && a.command.id.revision == w.begun.value.revision
            && a.command.final.recoveryName == o.recoveryName && a.command.final.retentionName == o.retentionName
            && Execute(h, w, a).begun == w.begun && InProgressMark !in Execute(h, w, a).files
  {
    var a := NextAction(h, w, o);
    var c := w.begun.value;
    SessionIdentity(c);
    assert FinalReady(h, o.drills, w.files, c, a.command.final);
    var plan := PlanOf(h, a.drills, w.files, a.command, a.now);
    TwoOperations(w, plan.ops[0], plan.ops[1], a.cut);
    assert plan.ops == [plan.ops[0], plan.ops[1]];
  }

  lemma FinishSeed(h: Sha, w: World, o: Operator)
    requires PrintsSha256(h) && PhaseInvariant(h, w) && InProgressMark in w.files
    requires w.files[InProgressMark].phase == SeedVerified
    requires ValidOperator(o) && EvidenceMatches(w.files, o)
    ensures var a := NextAction(h, w, o);
            && Completes(h, w, a)
            && FinalValid(h, o.drills, Execute(h, w, a).files, w.begun.value.revision)
            && Execute(h, w, a).begun == w.begun
  {
    MarkerNamesAreSafe(o);
    FinalizeCompletes(h, w, o);
    FinalizeAcceptedIffNames(h, w, NextAction(h, w, o));
  }

  /** Before the last phase, the next command completes and brings the next phase. */
  lemma AdvancePhase(h: Sha, w: World, o: Operator)
    requires PrintsSha256(h) && PhaseInvariant(h, w) && InProgressMark in w.files
    requires w.files[InProgressMark].phase != SeedVerified
    requires ValidInputs(o) && EvidenceMatches(w.files, o)
    ensures var a := NextAction(h, w, o);
            var w' := Execute(h, w, a);
            && Completes(h, w, a) && PhaseCommand(a.command)
            && PhaseInvariant(h, w') && w'.begun == w.begun && EvidenceMatches(w'.files, o)
            && InProgressMark in w'.files && w'.files[InProgressMark].Progress?
            && Remaining(w'.files[InProgressMark].phase) == Remaining(w.files[InProgressMark].phase) - 1
  {
    StepKeepsPhase(h, w, NextAction(h, w, o));
    match w.files[InProgressMark].phase
    case PostgresVerified => AdvanceFence(h, w, o);
    case RedisVerified => AdvanceSeed(h, w, o);
    case _ => AdvancePostgres(h, w, o);
  }

  /** Every action is accepted and runs to its end. */
  predicate AllComplete(h: Sha, w: World, actions: seq<Action>)
    decreases |actions|
  {
    actions == [] || (Completes(h, w, actions[0]) && AllComplete(h, Execute(h, w, actions[0]), actions[1..]))
  }

  lemma {:induction false} AllCompleteAppend(h: Sha, w: World, first: seq<Action>, second: seq<Action>)
    ensures AllComplete(h, w, first + second) <==> AllComplete(h, w, first) && AllComplete(h, Run(h, w, first), second)
    decreases |first|
  {
    if first == [] {
      assert first + second == second;
    } else {
      assert (first + second)[1..] == first[1..] + second;
      AllCompleteAppend(h, Execute(h, w, first[0]), first[1..], second);
    }
  }

  /** From every phase, commands of the session lead to the last phase. */
  lemma {:induction false} ReachLastPhase(h: Sha, w: World, o: Operator) returns (actions: seq<Action>)
    requires PrintsSha256(h) && PhaseInvariant(h, w) && InProgressMark in w.files
    requires ValidInputs(o) && EvidenceMatches(w.files, o)
    ensures |actions| == Remaining(w.files[InProgressMark].phase) - 1
    ensures AllComplete(h, w, actions)
    ensures forall i :: 0 <= i < |actions| ==> PhaseCommand(actions[i].command)
    ensures var w' := Run(h, w, actions);
            && w'.begun == w.begun && PhaseInvariant(h, w')
            && InProgressMark in w'.files && w'.files[InProgressMark].phase == SeedVerified
            && EvidenceMatches(w'.files, o)
    decreases Remaining(w.files[InProgressMark].phase)
  {
    if w.files[InProgressMark].phase == SeedVerified {
      actions := [];
    } else {
      var a := NextAction(h, w, o);
      AdvancePhase(h, w, o);
      var rest := ReachLastPhase(h, Execute(h, w, a), o);
      actions := [a] + rest;
      assert actions[1..] == rest;
    }
  }

  lemma OneMoreAction(h: Sha, w: World, actions: seq<Action>, last: Action)
    requires AllComplete(h, w, actions) && Completes(h, Run(h, w, actions), last)
    ensures AllComplete(h, w, actions + [last])
    ensures Run(h, w, actions + [last]) == Execute(h, Run(h, w, actions), last)
  {
    var w' := Run(h, w, actions);
    RunAppend(h, w, actions, [last]);
    AllCompleteAppend(h, w, actions, [last]);
    assert AllComplete(h, Execute(h, w', last), []);
    assert Run(h, w', [last]) == Run(h, Execute(h, w', last), []);
  }

  /**
   No stranded session: with the fence in place after any crashes, at most five more
   commands of that session pass every guard and leave an accepted final proof.
   */
  lemma NoStrandedSession(h: Sha, w: World, o: Operator) returns (actions: seq<Action>)
    requires PrintsSha256(h) && PhaseInvariant(h, w) && InProgressMark in w.files
    requires ValidOperator(o) && EvidenceMatches(w.files, o)
    ensures |actions| == Remaining(w.files[InProgressMark].phase)
    ensures AllComplete(h, w, actions)
    ensures forall i :: 0 <= i < |actions| ==> PhaseCommand(actions[i].command)
    ensures Run(h, w, actions).begun == w.begun
    ensures FinalValid(h, o.drills, Run(h, w, actions).files, w.begun.value.revision)
  {
    var before := ReachLastPhase(h, w, o);
    var w' := Run(h, w, before);
    FinishSeed(h, w', o);
    OneMoreAction(h, w, before, NextAction(h, w', o));
    actions := before + [NextAction(h, w', o)];
  }

  /** The commands complete, at most five of them, and leave this session's accepted final proof. */
  ghost predicate Finishes(h: Sha, w: World, actions: seq<Action>, drills: Drills) {
    && |actions| <= 5 && AllComplete(h, w, actions)
    && Run(h, w, actions).begun == w.begun && w.begun.Some?
    && FinalValid(h, drills, Run(h, w, actions).files, w.begun.value.revision)
  }

  /** After any run, a fence that is still up can be brought down by its own session. */
  lemma NoStrandedRun(h: Sha, run: seq<Action>, o: Operator)
    requires PrintsSha256(h)
    requires InProgressMark in Run(h, EMPTY_WORLD, run).files
    requires ValidOperator(o) && EvidenceMatches(Run(h, EMPTY_WORLD, run).files, o)
    ensures exists actions :: Finishes(h, Run(h, EMPTY_WORLD, run), actions, o.drills)
  {
    RunKeepsPhase(h, EMPTY_WORLD, run);
    var actions := NoStrandedSession(h, Run(h, EMPTY_WORLD, run), o);
    assert Finishes(h, Run(h, EMPTY_WORLD, run), actions, o.drills);
  }
}
