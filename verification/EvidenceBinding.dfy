/**
 What the guards promise of an evidence directory whatever it holds, also one that some
 other hand has changed: an accepted command builds only on proofs of its own session that
 agree with each other and with its arguments.
 */
module EvidenceBinding {
  import opened Patterns
  import opened EvidenceStore
  import opened CutoverPlan
  import opened CutoverRuns
  import opened CutoverInvariant
  import opened CutoverFinality
  import opened FirstStart
  import opened InterruptedBegin

  // ---- who may act ---------------------------------------------------------------------

  /** The command that a phase is waiting for. */
  predicate WaitsFor(phase: Phase, c: Command) {
    match phase
    case PostgresInProgress => c.WritePostgres?
    case PostgresVerified => c.BeginRedis?
    case RedisInProgress => c.WriteRedis?
    case RedisVerified => c.WriteSeed?
    case SeedVerified => c.Finalize?
  }

  /** The identity of a session, spelled out. */
  predicate Names(id: Identity, c: Session) {
    && id.cutoverId == c.cutoverId && id.revision == c.revision && id.source == c.source && c.version == "4"
    && IsCutoverId(id.cutoverId) && IsRevision(id.revision) && IsSha256(id.source)
  }

  lemma FenceRefusesOthers(h: Sha, s: Store, drills: Drills, command: Command, now: Stamp)
    requires InProgressMark in s
    ensures FirstStartCommand(command) || IngressOrGate(command) || command.BeginPostgres? ==>
              PlanOf(h, drills, s, command, now).Ops() == []
  {
  }

  /**
   Exclusion.  While the fence is up nothing but the command that its phase waits for, given
   the identity of the fence's own session, changes a file; without it no command of a phase
   does.
   */
  lemma FenceExcludes(h: Sha, s: Store, drills: Drills, command: Command, now: Stamp)
    requires PlanOf(h, drills, s, command, now).Ops() != []
    ensures InProgressMark in s ==>
              && s[InProgressMark].Progress? && WaitsFor(s[InProgressMark].phase, command)
              && Names(command.id, s[InProgressMark].session)
    ensures InProgressMark !in s ==> !PhaseCommand(command)
  {
    if InProgressMark in s {
      FenceRefusesOthers(h, s, drills, command, now);
    }
  }

  /** A new cutover begins exactly when no fence is up and the identity is well formed. */
  lemma BeginsIffFree(h: Sha, s: Store, drills: Drills, id: Identity, now: Stamp)
    ensures PlanOf(h, drills, s, BeginPostgres(id), now).Perform? <==>
            InProgressMark !in s && exists c :: Names(id, c)
  {
    var c := Session(id.cutoverId, id.revision, id.source, "4");
    assert CommonFields(id).Some? ==> Names(id, c);
  }

  /** A begin-redis that ran to its end removes exactly the final, Redis and seed proofs. */
  lemma CompletedRedisBeginClears(h: Sha, w: World, begin: Action, m: Marker)
    requires begin.command.BeginRedis? && Completes(h, w, begin)
    ensures var s' := Execute(h, w, begin).files;
            && (m in s' <==> m in w.files && m != FinalMark && m != RedisMark && m != SeedMark)
            && (m in s' && m != InProgressMark ==> s'[m] == w.files[m])
  {
    var c := CommonFields(begin.command.id).value;
    var fence := Write(InProgressMark, Progress(c, RedisInProgress, begin.now));
    FenceOperations(w, fence, CLEARED_BY_REDIS, begin.cut);
    UnlinksRemove(Observe(w, fence), CLEARED_BY_REDIS, m);
    assert CLEARED_BY_REDIS[0] == FinalMark && CLEARED_BY_REDIS[1] == RedisMark && CLEARED_BY_REDIS[2] == SeedMark;
  }

  // ---- what an accepted command builds on ---------------------------------------------------

  predicate SoundPostgres(e: Evidence) {
    && e.PostgresProof? && (e.contract == "4" || e.contract == "5")
    && IsSha256(e.postgres.migratedManifest) && IsSha256(e.postgres.roleLoginProbe)
    && IsSha256(e.postgres.securityManifest) && IsSha256(e.sourceManifest) && IsSha256(e.sourceDump)
    && IsSha256(e.workerStop) && IsSha256(e.rollbackDump)
  }

  predicate SoundRedis(e: Evidence) {
    && e.RedisProof?
    && IsSha256(e.workerStop) && IsSha256(e.redisManifest) && IsSha256(e.rollback) && IsSha256(e.state)
  }

  /** Sources frozen, queues empty, nothing pending and no worker started. */
  predicate AtRest(p: Evidence, r: Evidence)
    requires p.PostgresProof? && r.RedisProof?
  {
    && p.sourceFrozen == "verified" && p.queueZero == "verified"
    && p.pendingBefore == "0" && p.pendingAfter == "0" && p.apiWorkerStarted == "false"
    && r.sourceFrozen == "verified" && r.queueZero == "verified" && r.brokerZero == "verified"
  }

  predicate OnPostgres(s: Store, id: Identity) {
    PostgresMark in s && SoundPostgres(s[PostgresMark]) && Names(id, s[PostgresMark].session)
  }

  predicate OnRedis(s: Store, id: Identity) {
    && OnPostgres(s, id)
    && RedisMark in s && SoundRedis(s[RedisMark]) && Names(id, s[RedisMark].session)
    && s[RedisMark].workerStop == s[PostgresMark].workerStop
  }

  /** The seed repeats what the two step proofs say, and their hashes. */
  predicate OnSeed(h: Sha, s: Store, id: Identity) {
    && OnRedis(s, id)
    && SeedMark in s && s[SeedMark].SeedProof? && Names(id, s[SeedMark].session)
    && (var p, r, d := s[PostgresMark], s[RedisMark], s[SeedMark];
        && d.postgresSha == h(p) && d.redisSha == h(r)
        && d.contract == p.contract && d.workerStop == p.workerStop
        && d.target.postgres == p.postgres && d.target.redisManifest == r.redisManifest
        && IsRunId(d.runId) && IsSnapshotId(d.snapshotId)
        && IsSha256(d.backupSet) && IsSha256(d.configuration) && IsSha256(d.databaseDump) && IsSha256(d.redisDump)
        && d.apiWorkerStarted == "false" && d.caddyChanged == "false" && d.dnsChanged == "false")
  }

  lemma AcceptedRedisBuildsOnPostgres(h: Sha, s: Store, drills: Drills, command: Command, now: Stamp)
    requires PlanOf(h, drills, s, command, now).Perform?
    ensures command.BeginRedis? ==> OnPostgres(s, command.id)
    ensures command.WriteRedis? ==> OnPostgres(s, command.id) && command.redis.workerStop == s[PostgresMark].workerStop
  {
  }

  lemma AcceptedSeedBuildsOnSteps(h: Sha, s: Store, drills: Drills, command: Command, now: Stamp)
    requires command.WriteSeed? && PlanOf(h, drills, s, command, now).Perform?
    ensures OnRedis(s, command.id) && AtRest(s[PostgresMark], s[RedisMark])
    ensures command.seed.contract == s[PostgresMark].contract
    ensures command.seed.workerStop == s[PostgresMark].workerStop
    ensures command.seed.target == TargetState(s[PostgresMark].postgres, s[RedisMark].redisManifest)
  {
  }

  /** The two drill files are those given, and describe this seed in this repository. */
  predicate DrillsDescribe(h: Sha, drills: Drills, d: Evidence, a: FinalArgs)
    requires d.SeedProof?
  {
    && a.recoveryName in drills && a.retentionName in drills
    && h(Drill(drills[a.recoveryName])) == a.recoverySha && h(Drill(drills[a.retentionName])) == a.retentionSha
    && Field(drills[a.recoveryName], "status") == Some("success")
    && DrillComplete(drills[a.recoveryName])
    && Field(drills[a.recoveryName], "repository_id_sha256") == Some(d.repositoryId)
    && Field(drills[a.recoveryName], "snapshot_id") == Some(d.snapshotId)
    && Field(drills[a.recoveryName], "backup_set_sha256") == Some(d.backupSet)
    && Field(drills[a.retentionName], "status") == Some("immutable-retention-verified")
    && Field(drills[a.retentionName], "repository_id_sha256") == Some(d.repositoryId)
  }

  lemma AcceptedFinalBuildsOnSeed(h: Sha, s: Store, drills: Drills, command: Command, now: Stamp)
    requires command.Finalize? && PlanOf(h, drills, s, command, now).Perform?
    ensures OnSeed(h, s, command.id)
    ensures var a, d := command.final, s[SeedMark];
            && a.repositoryId == d.repositoryId && a.target == d.target
            && a.workerStop == d.workerStop && a.contract == d.contract
            && DrillsDescribe(h, drills, d, a)
  {
  }

  // ---- what a valid final chain binds ----------------------------------------------------------

  /**
   An accepted final chain, in any directory: one session throughout, every hash that of the
   file on disk, every digest repeated unchanged, and the drill evidence of its own seed.
   */
  lemma AcceptedChainBinds(h: Sha, s: Store, drills: Drills, revision: string)
    requires FinalValid(h, drills, s, revision)
    ensures InProgressMark !in s && IsRevision(revision)
    ensures {PostgresMark, RedisMark, SeedMark, FinalMark} <= s.Keys
    ensures SoundPostgres(s[PostgresMark]) && SoundRedis(s[RedisMark])
    ensures s[SeedMark].SeedProof? && s[FinalMark].FinalProof?
    ensures var p, r, d, f := s[PostgresMark], s[RedisMark], s[SeedMark], s[FinalMark];
            && f.session.revision == revision && f.session.version == "4" && IsRevision(f.sourceRevision)
            && p.session == r.session == d.session == f.session
            && f.postgresSha == d.postgresSha == h(p) && f.redisSha == d.redisSha == h(r) && f.seedSha == h(d)
            && f.contract == d.contract == p.contract
            && f.workerStop == d.workerStop == p.workerStop == r.workerStop
            && f.target == d.target == TargetState(p.postgres, r.redisManifest)
            && f.repositoryId == d.repositoryId && f.seedSnapshotId == d.snapshotId && f.seedBackupSet == d.backupSet
            && f.caddyChanged == "false" && f.dnsChanged == "false"
            && IsSha256(f.repositoryId)
    ensures var d, f := s[SeedMark], s[FinalMark];
            && MarkerNamesAccepted(f.recoveryName, f.retentionName) && DrillsUnchanged(h, drills, f)
            && Field(drills[f.recoveryName], "status") == Some("success")
            && Field(drills[f.recoveryName], "snapshot_id") == Some(d.snapshotId)
            && Field(drills[f.recoveryName], "backup_set_sha256") == Some(d.backupSet)
            && Field(drills[f.recoveryName], "repository_id_sha256") == Some(f.repositoryId)
            && Field(drills[f.retentionName], "status") == Some("immutable-retention-verified")
            && Field(drills[f.retentionName], "repository_id_sha256") == Some(f.repositoryId)
  {
  }

  /** Replacing or removing one of the three step proofs of an accepted chain is noticed. */
  lemma ProofTamperIsNoticed(h: Sha, s: Store, drills: Drills, revision: string, m: Marker, e: Evidence, again: string)
    requires FinalValid(h, drills, s, revision)
    requires m == PostgresMark || m == RedisMark || m == SeedMark
    ensures h(e) != h(s[m]) ==> !FinalValid(h, drills, s[m := e], again)
    ensures !FinalValid(h, drills, s - {m}, again)
  {
    var changed := s[m := e];
    if FinalValid(h, drills, changed, again) {
      AcceptedChainBinds(h, s, drills, revision);
      AcceptedChainBinds(h, changed, drills, again);
    }
    if FinalValid(h, drills, s - {m}, again) {
      AcceptedChainBinds(h, s - {m}, drills, again);
    }
  }

  /** Changing a drill file that an accepted chain names is noticed. */
  lemma DrillTamperIsNoticed(
      h: Sha, s: Store, drills: Drills, later: Drills, revision: string, name: string)
    requires FinalValid(h, drills, s, revision)
    requires name == s[FinalMark].recoveryName || name == s[FinalMark].retentionName
    requires name in later ==> h(Drill(later[name])) != h(Drill(drills[name]))
    ensures !FinalValid(h, later, s, revision)
  {
    AcceptedChainBinds(h, s, drills, revision);
    if FinalValid(h, later, s, revision) {
      AcceptedChainBinds(h, s, later, revision);
    }
  }

  /**
   Validate-final does not look at how complete the drill was; it need not.  After any run an
   accepted chain names a drill that restored the newest backup completely.
   */
  lemma AcceptedDrillIsComplete(h: Sha, actions: seq<Action>, drills: Drills, revision: string)
    requires PrintsSha256(h) && NoSecondPreimage(h, drills)
    requires FinalValid(h, drills, Run(h, EMPTY_WORLD, actions).files, revision)
    ensures DrillComplete(drills[Run(h, EMPTY_WORLD, actions).files[FinalMark].recoveryName])
  {
    RunKeepsPhase(h, EMPTY_WORLD, actions);
    var s := Run(h, EMPTY_WORLD, actions).files;
    var f, d := s[FinalMark], s[SeedMark];
    var recovery, retention :| EvidenceRecorded(h, f, d, recovery, retention);
    assert recovery == drills[f.recoveryName];
  }
}
