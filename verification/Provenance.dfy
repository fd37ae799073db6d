/** Every recorded value was an argument of some command: nothing in a proof is made up. */
module Provenance {
  import opened Patterns
  import opened EvidenceStore
  import opened CutoverPlan
  import opened CutoverRuns
  import opened CutoverInvariant
  import opened CutoverFinality
  import opened FirstStart

  /** The command of this proof's session that gave each of its values. */
  predicate PostgresFrom(c: Command, p: Evidence) {
    && p.PostgresProof? && c.WritePostgres? && CommonFields(c.id) == Some(p.session)
    && p.runId == c.postgres.runId && p.contract == c.postgres.contract
    && p.postgres.migratedManifest == c.postgres.postgres.migratedManifest
    && p.postgres.roleLoginProbe == c.postgres.postgres.roleLoginProbe
    && p.postgres.securityManifest == c.postgres.postgres.securityManifest
    && p.sourceManifest == c.postgres.sourceManifest && p.sourceDump == c.postgres.sourceDump
    && p.workerStop == c.postgres.workerStop && p.rollbackDump == c.postgres.rollbackDump
  }

  predicate RedisFrom(c: Command, r: Evidence) {
    && r.RedisProof? && c.WriteRedis? && CommonFields(c.id) == Some(r.session)
    && r.runId == c.redis.runId && r.workerStop == c.redis.workerStop
    && r.redisManifest == c.redis.redisManifest && r.rollback == c.redis.rollback && r.state == c.redis.state
  }

  predicate SeedFrom(c: Command, d: Evidence) {
    && d.SeedProof? && c.WriteSeed? && CommonFields(c.id) == Some(d.session)
    && d.runId == c.seed.runId && d.snapshotId == c.seed.snapshotId && d.repositoryId == c.seed.repositoryId
    && d.backupSet == c.seed.backupSet && d.configuration == c.seed.configuration
    && d.databaseDump == c.seed.databaseDump && d.redisDump == c.seed.redisDump
  }

  predicate FinalFrom(c: Command, f: Evidence) {
    && f.FinalProof? && c.Finalize? && CommonFields(c.id) == Some(f.session)
    && f.sourceRevision == c.final.sourceRevision
    && f.recoveryName == c.final.recoveryName && f.recoverySha == c.final.recoverySha
    && f.retentionName == c.final.retentionName && f.retentionSha == c.final.retentionSha
  }

  /** The arming whose own four digests a first-start marker records. */
  predicate ArmedFrom(c: Command, e: Evidence) {
    && (e.ArmedProof? || e.ConsumedProof?) && c.ArmFirstStart?
    && c.revision == e.session.revision && c.target == e.target
  }

  predicate RecoveredFrom(c: Command, e: Evidence) {
    && e.RecoveryProof? && c.RecoverFirstStart?
    && c.revision == e.revision && c.target == e.target
  }

  predicate Sourced(e: Evidence, m: Marker, given: set<Command>) {
    match m
    case PostgresMark => exists c :: c in given && PostgresFrom(c, e)
    case RedisMark => exists c :: c in given && RedisFrom(c, e)
    case SeedMark => exists c :: c in given && SeedFrom(c, e)
    case FinalMark => exists c :: c in given && FinalFrom(c, e)
    case ArmedMark => exists c :: c in given && ArmedFrom(c, e)
    case ConsumedMark => exists c :: c in given && ArmedFrom(c, e)
    case RecoveryMark => exists c :: c in given && RecoveredFrom(c, e)
    case _ => true
  }

  predicate AllSourced(s: Store, given: set<Command>) {
    forall m :: m in s ==> Sourced(s[m], m, given)
  }

  predicate OpSourced(op: FileOp, given: set<Command>) {
    op.Write? ==> Sourced(op.evidence, op.marker, given)
  }

  lemma IngressIsSourced(h: Sha, w: World, a: Action)
    requires IngressOrGate(a.command)
    ensures var ops := PlanOf(h, a.drills, w.files, a.command, a.now).Ops();
            forall i :: 0 <= i < |ops| ==> OpSourced(ops[i], {a.command})
  {
    IngressCommandOps(h, w, a);
  }

  lemma ArmIsSourced(h: Sha, w: World, a: Action)
    requires a.command.ArmFirstStart? || a.command.RecoverFirstStart?
    ensures var ops := PlanOf(h, a.drills, w.files, a.command, a.now).Ops();
            forall i :: 0 <= i < |ops| ==> OpSourced(ops[i], {a.command})
  {
    var ops := PlanOf(h, a.drills, w.files, a.command, a.now).Ops();
    if ops != [] {
      assert a.command in {a.command};
      if a.command.ArmFirstStart? {
        assert ArmedFrom(a.command, ops[0].evidence);
      } else {
        assert RecoveredFrom(a.command, ops[0].evidence);
      }
    }
  }

  /** Completing passes on what the armed marker records. */
  lemma CompleteIsSourced(h: Sha, w: World, a: Action, given: set<Command>)
    requires a.command.CompleteFirstStart? && AllSourced(w.files, given)
    ensures var ops := PlanOf(h, a.drills, w.files, a.command, a.now).Ops();
            forall i :: 0 <= i < |ops| ==> OpSourced(ops[i], given)
  {
    var ops := PlanOf(h, a.drills, w.files, a.command, a.now).Ops();
    if ops != [] {
      assert Sourced(w.files[ArmedMark], ArmedMark, given);
      var c :| c in given && ArmedFrom(c, w.files[ArmedMark]);
      assert ArmedFrom(c, ops[0].evidence);
    }
  }

  lemma FenceIsSourced(h: Sha, w: World, a: Action)
    requires a.command.BeginPostgres? || a.command.BeginRedis?
    ensures var ops := PlanOf(h, a.drills, w.files, a.command, a.now).Ops();
            forall i :: 0 <= i < |ops| ==> OpSourced(ops[i], {a.command})
  {
  }

  lemma ProofIsSourced(h: Sha, w: World, a: Action)
    requires PhaseCommand(a.command) && !a.command.BeginRedis?
    ensures var ops := PlanOf(h, a.drills, w.files, a.command, a.now).Ops();
            forall i :: 0 <= i < |ops| ==> OpSourced(ops[i], {a.command})
  {
    var ops := PlanOf(h, a.drills, w.files, a.command, a.now).Ops();
    if ops != [] {
      assert a.command in {a.command};
      match a.command
      case WritePostgres(_, _) => assert PostgresFrom(a.command, ops[0].evidence);
      case WriteRedis(_, _) => assert RedisFrom(a.command, ops[0].evidence);
      case WriteSeed(_, _) => assert SeedFrom(a.command, ops[0].evidence);
      case Finalize(_, _) => assert FinalFrom(a.command, ops[0].evidence);
    }
  }

  lemma MoreGiven(e: Evidence, m: Marker, given: set<Command>, more: set<Command>)
    requires Sourced(e, m, given) && given <= more
    ensures Sourced(e, m, more)
  {
  }

  lemma MoreOps(ops: seq<FileOp>, given: set<Command>, more: set<Command>)
    requires given <= more && forall i :: 0 <= i < |ops| ==> OpSourced(ops[i], given)
    ensures forall i :: 0 <= i < |ops| ==> OpSourced(ops[i], more)
  {
    forall i | 0 <= i < |ops|
      ensures OpSourced(ops[i], more)
    {
      assert OpSourced(ops[i], given);
      if ops[i].Write? {
        MoreGiven(ops[i].evidence, ops[i].marker, given, more);
      }
    }
  }

  lemma PlanIsSourced(h: Sha, w: World, a: Action, given: set<Command>)
    requires AllSourced(w.files, given)
    ensures var ops := PlanOf(h, a.drills, w.files, a.command, a.now).Ops();
            forall i :: 0 <= i < |ops| ==> OpSourced(ops[i], given + {a.command})
  {
    var ops := PlanOf(h, a.drills, w.files, a.command, a.now).Ops();
    if a.command.CompleteFirstStart? {
      CompleteIsSourced(h, w, a, given);
      MoreOps(ops, given, given + {a.command});
    } else {
      if IngressOrGate(a.command) {
        IngressIsSourced(h, w, a);
      } else if FirstStartCommand(a.command) {
        ArmIsSourced(h, w, a);
      } else if a.command.BeginPostgres? || a.command.BeginRedis? {
        FenceIsSourced(h, w, a);
      } else {
        ProofIsSourced(h, w, a);
      }
      MoreOps(ops, {a.command}, given + {a.command});
    }
  }

  lemma {:induction false} OpsKeepSourced(w: World, ops: seq<FileOp>, given: set<Command>)
    requires AllSourced(w.files, given)
    requires forall i :: 0 <= i < |ops| ==> OpSourced(ops[i], given)
    ensures AllSourced(ObserveAll(w, ops).files, given)
    decreases |ops|
  {
    if ops == [] {
    } else {
      assert OpSourced(ops[0], given);
      OpsKeepSourced(Observe(w, ops[0]), ops[1..], given);
    }
  }

  lemma StepKeepsSourced(h: Sha, w: World, a: Action, given: set<Command>)
    requires AllSourced(w.files, given)
    ensures AllSourced(Execute(h, w, a).files, given + {a.command})
  {
    var more := given + {a.command};
    var ops := PlanOf(h, a.drills, w.files, a.command, a.now).Ops();
    PlanIsSourced(h, w, a, given);
    forall m | m in w.files
      ensures Sourced(w.files[m], m, more)
    {
      MoreGiven(w.files[m], m, given, more);
    }
    OpsKeepSourced(w, Prefix(ops, a.cut), more);
  }

  function Commands(actions: seq<Action>): set<Command> {
    if actions == [] then {} else {actions[0].command} + Commands(actions[1..])
  }

  lemma {:induction false} RunKeepsSourced(h: Sha, w: World, actions: seq<Action>, given: set<Command>)
    requires AllSourced(w.files, given)
    ensures AllSourced(Run(h, w, actions).files, given + Commands(actions))
    decreases |actions|
  {
    if actions == [] {
      assert given + Commands(actions) == given;
    } else {
      StepKeepsSourced(h, w, actions[0], given);
      RunKeepsSourced(h, Execute(h, w, actions[0]), actions[1..], given + {actions[0].command});
      assert given + {actions[0].command} + Commands(actions[1..]) == given + Commands(actions);
    }
  }

  /**
   End to end: what an accepted final proof states was given to commands of the session
   begun last.  The four digests a first start must find come from its PostgreSQL and
   Redis writes, the snapshot and backup set from its seed write.
   */
  lemma FinalizedValuesWereGiven(h: Sha, actions: seq<Action>, drills: Drills, revision: string)
    returns (postgres: Command, redis: Command, seed: Command)
    requires PrintsSha256(h)
    requires FinalValid(h, drills, Run(h, EMPTY_WORLD, actions).files, revision)
    ensures {postgres, redis, seed} <= Commands(actions)
    ensures postgres.WritePostgres? && redis.WriteRedis? && seed.WriteSeed?
    ensures var w := Run(h, EMPTY_WORLD, actions);
            var f := w.files[FinalMark];
            && w.begun == CommonFields(postgres.id) == CommonFields(redis.id) == CommonFields(seed.id)
            && f.target == TargetState(postgres.postgres.postgres, redis.redis.redisManifest)
            && f.contract == postgres.postgres.contract
            && f.workerStop == postgres.postgres.workerStop == redis.redis.workerStop
            && f.seedSnapshotId == seed.seed.snapshotId && f.seedBackupSet == seed.seed.backupSet
            && f.repositoryId == seed.seed.repositoryId
  {
    var w := Run(h, EMPTY_WORLD, actions);
    RunKeepsSourced(h, EMPTY_WORLD, actions, {});
    assert {} + Commands(actions) == Commands(actions);
    Finality(h, actions, drills, revision);
    var s := w.files;
    assert Sourced(s[PostgresMark], PostgresMark, Commands(actions));
    assert Sourced(s[RedisMark], RedisMark, Commands(actions));
    assert Sourced(s[SeedMark], SeedMark, Commands(actions));
    postgres :| postgres in Commands(actions) && PostgresFrom(postgres, s[PostgresMark]);
    redis :| redis in Commands(actions) && RedisFrom(redis, s[RedisMark]);
    seed :| seed in Commands(actions) && SeedFrom(seed, s[SeedMark]);
  }

  /**
   The digests that a consumed first start was armed with were given to an arming of that
   release, and they are the finalized ones.
   */
  lemma ConsumedDigestsWereGiven(h: Sha, actions: seq<Action>, drills: Drills, revision: string)
    returns (arm: Command)
    requires Consumed(h, drills, Run(h, EMPTY_WORLD, actions).files, revision)
    ensures arm in Commands(actions) && arm.ArmFirstStart? && arm.revision == revision
    ensures arm.target == Run(h, EMPTY_WORLD, actions).files[FinalMark].target
  {
    var s := Run(h, EMPTY_WORLD, actions).files;
    RunKeepsSourced(h, EMPTY_WORLD, actions, {});
    assert {} + Commands(actions) == Commands(actions);
    assert Sourced(s[ConsumedMark], ConsumedMark, Commands(actions));
    arm :| arm in Commands(actions) && ArmedFrom(arm, s[ConsumedMark]);
  }

  /** The digests in the audit record of a recovery were given to a recovery of that release. */
  lemma RecoveredDigestsWereGiven(h: Sha, actions: seq<Action>) returns (recover: Command)
    requires RecoveryMark in Run(h, EMPTY_WORLD, actions).files
    ensures var r := Run(h, EMPTY_WORLD, actions).files[RecoveryMark];
            && recover in Commands(actions) && recover.RecoverFirstStart?
            && r.RecoveryProof? && recover.revision == r.revision && recover.target == r.target
  {
    var s := Run(h, EMPTY_WORLD, actions).files;
    RunKeepsSourced(h, EMPTY_WORLD, actions, {});
    assert {} + Commands(actions) == Commands(actions);
    assert Sourced(s[RecoveryMark], RecoveryMark, Commands(actions));
    recover :| recover in Commands(actions) && RecoveredFrom(recover, s[RecoveryMark]);
  }

  /**
   Whatever the evidence directory holds, an arming that writes and a recovery that is
   accepted were given exactly the four digests of the final proof on disk.
   */
  lemma GivenDigestsAreFinalized(h: Sha, s: Store, drills: Drills, revision: string, given: TargetState, now: Stamp)
    ensures PlanOf(h, drills, s, ArmFirstStart(revision, given), now).Ops() != [] ==>
              FinalMark in s && s[FinalMark].FinalProof? && given == s[FinalMark].target
    ensures PlanOf(h, drills, s, RecoverFirstStart(revision, given), now).Perform? ==>
              FinalMark in s && s[FinalMark].FinalProof? && given == s[FinalMark].target
  {
  }
}
