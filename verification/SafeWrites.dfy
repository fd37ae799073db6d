/**
 No atomic write refuses a value: every value that a command plans to record is in the
 character set and length that evidence files accept.  A command therefore stops between
 two of its operations only when it crashes there.
 */
module SafeWrites {
  import opened Patterns
  import opened EvidenceStore
  import opened CutoverPlan
  import opened CutoverRuns
  import opened CutoverInvariant
  import opened CutoverFinality

  predicate SafeSession(c: Session) {
    IsSafeValue(c.cutoverId) && IsSafeValue(c.revision) && IsSafeValue(c.source) && IsSafeValue(c.version)
  }

  predicate SafeTarget(t: TargetState) {
    && IsSafeValue(t.postgres.migratedManifest) && IsSafeValue(t.postgres.roleLoginProbe)
    && IsSafeValue(t.postgres.securityManifest) && IsSafeValue(t.redisManifest)
  }

  predicate AllSafe(values: seq<string>) {
    forall i :: 0 <= i < |values| ==> IsSafeValue(values[i])
  }

  /** Every value of the record can be written. */
  predicate SafeRecord(e: Evidence) {
    match e
    case Progress(c, _, _) => SafeSession(c)
    case PostgresProof(c, runId, contract, p, source, dump, stop, rollback, frozen, queue, before, after, started, _) =>
      && SafeSession(c) && SafeTarget(TargetState(p, source))
      && AllSafe([runId, contract, dump, stop, rollback, frozen, queue, before, after, started])
    case RedisProof(c, runId, stop, manifest, rollback, state, frozen, queue, broker, _) =>
      SafeSession(c) && AllSafe([runId, stop, manifest, rollback, state, frozen, queue, broker])
    case SeedProof(c, runId, contract, target, stop, snapshot, repository, set', configuration, dump, redisDump,
                   postgres, redis, started, caddy, dns, _) =>
      && SafeSession(c) && SafeTarget(target)
      && AllSafe([runId, contract, stop, snapshot, repository, set', configuration, dump, redisDump,
                  postgres, redis, started, caddy, dns])
    case FinalProof(c, contract, target, stop, source, postgres, redis, seed, recoveryName, recovery,
                    retentionName, retention, repository, snapshot, set', caddy, dns, _) =>
      && SafeSession(c) && SafeTarget(target)
      && AllSafe([contract, stop, source, postgres, redis, seed, recoveryName, recovery,
                  retentionName, retention, repository, snapshot, set', caddy, dns])
    case ArmedProof(c, final, target, _) => SafeSession(c) && SafeTarget(target) && IsSafeValue(final)
    case ConsumedProof(c, final, target, _) => SafeSession(c) && SafeTarget(target) && IsSafeValue(final)
    case RecoveryProof(id, revision, version, final, target, armed, consumed, _, _) =>
      && SafeTarget(target) && AllSafe([id, revision, version, final, armed])
      && (consumed.Some? ==> IsSafeValue(consumed.value))
    case IngressState(id, revision, version, final, source, _, _) =>
      AllSafe([id, revision, version, final, source])
    case Drill(_) => false
  }

  predicate SafeOp(op: FileOp) {
    op.Write? ==> SafeRecord(op.evidence)
  }

  // ---- checked values are safe -------------------------------------------------------------

  lemma ShortWordsAreSafe()
    ensures IsSafeValue("verified") && IsSafeValue("false") && IsSafeValue("0")
    ensures IsSafeValue(VERSION) && IsSafeValue("4") && IsSafeValue("5")
  {
  }

  lemma DigestsAreSafe()
    ensures forall s :: IsSha256(s) ==> IsSafeValue(s)
    ensures forall s :: IsSnapshotId(s) ==> IsSafeValue(s)
    ensures forall s :: IsRevision(s) ==> IsSafeValue(s)
    ensures forall s :: IsCutoverId(s) ==> IsSafeValue(s)
    ensures forall s :: IsSchemaContract(s) ==> IsSafeValue(s)
    ensures forall s :: IsRunId(s) ==> IsSafeValue(s)
  {
    ShortWordsAreSafe();
  }

  lemma SessionIsSafe(c: Session)
    requires ValidSession(c)
    ensures SafeSession(c)
  {
    DigestsAreSafe();
    ShortWordsAreSafe();
  }

  lemma TargetIsSafe(t: TargetState)
    requires ValidTargetState(t)
    ensures SafeTarget(t)
  {
    DigestsAreSafe();
  }

  // ---- planned writes ------------------------------------------------------------------------

  lemma PostgresIsSafe(c: Session, a: PostgresArgs, now: Stamp)
    requires ValidSession(c) && ValidPostgresArgs(a)
    ensures SafeRecord(NewPostgresProof(c, a, now))
  {
    SessionIsSafe(c);
    DigestsAreSafe();
    ShortWordsAreSafe();
  }

  lemma RedisIsSafe(c: Session, a: RedisArgs, now: Stamp)
    requires ValidSession(c) && ValidRedisArgs(a)
    ensures SafeRecord(NewRedisProof(c, a, now))
  {
    SessionIsSafe(c);
    DigestsAreSafe();
    ShortWordsAreSafe();
  }

  lemma SeedIsSafe(h: Sha, s: Store, c: Session, a: SeedArgs, now: Stamp)
    requires PrintsSha256(h) && PostgresMark in s && RedisMark in s
    requires ValidSession(c) && ValidSeedArgs(a)
    ensures SafeRecord(NewSeedProof(h, s, c, a, now))
  {
    SessionIsSafe(c);
    TargetIsSafe(a.target);
    DigestsAreSafe();
    ShortWordsAreSafe();
  }

  lemma FinalIsSafe(h: Sha, s: Store, c: Session, a: FinalArgs, now: Stamp)
    requires PrintsSha256(h) && PostgresMark in s && RedisMark in s && SeedMark in s && s[SeedMark].SeedProof?
    requires ValidSession(c) && ValidFinalArgs(a)
    requires IsSafeValue(a.recoveryName) && IsSafeValue(a.retentionName)
    requires IsSnapshotId(s[SeedMark].snapshotId) && IsSha256(s[SeedMark].backupSet)
    ensures SafeRecord(NewFinalProof(h, s, c, a, now))
  {
    SessionIsSafe(c);
    TargetIsSafe(a.target);
    DigestsAreSafe();
    ShortWordsAreSafe();
  }

  lemma PhaseCommandIsSafe(h: Sha, w: World, a: Action)
    requires PrintsSha256(h)
    requires PhaseCommand(a.command) || a.command.BeginPostgres?
    ensures var ops := PlanOf(h, a.drills, w.files, a.command, a.now).Ops();
            forall i :: 0 <= i < |ops| ==> SafeOp(ops[i])
  {
    var plan := PlanOf(h, a.drills, w.files, a.command, a.now);
    if plan.Perform? {
      var c := CommonFields(a.command.id).value;
      SessionIsSafe(c);
      match a.command
      case BeginPostgres(_) =>
      case WritePostgres(_, args) => PostgresIsSafe(c, args, a.now);
      case BeginRedis(_) =>
      case WriteRedis(_, args) => RedisIsSafe(c, args, a.now);
      case WriteSeed(_, args) => SeedIsSafe(h, w.files, c, args, a.now);
      case Finalize(_, args) => FinalIsSafe(h, w.files, c, args, a.now);
    }
  }

  lemma FinalizedIsSafe(h: Sha, w: World, drills: Drills, revision: string)
    requires PhaseInvariant(h, w) && FinalValid(h, drills, w.files, revision)
    ensures var f := w.files[FinalMark];
            ValidSession(f.session) && SafeSession(f.session) && SafeTarget(f.target) && IsRevision(f.sourceRevision)
  {
    SessionIsSafe(w.files[FinalMark].session);
    TargetIsSafe(w.files[FinalMark].target);
  }

  lemma StartCommandIsSafe(h: Sha, w: World, a: Action)
    requires PrintsSha256(h) && PhaseInvariant(h, w) && FirstStartCommand(a.command)
    ensures var ops := PlanOf(h, a.drills, w.files, a.command, a.now).Ops();
            forall i :: 0 <= i < |ops| ==> SafeOp(ops[i])
  {
    DigestsAreSafe();
    ShortWordsAreSafe();
    if FinalValid(h, a.drills, w.files, a.command.revision) {
      FinalizedIsSafe(h, w, a.drills, a.command.revision);
    }
  }

  lemma IngressIsSafe(h: Sha, w: World, drills: Drills, revision: string, status: IngressStatus, now: Stamp)
    requires PrintsSha256(h) && PhaseInvariant(h, w) && FinalValid(h, drills, w.files, revision)
    ensures SafeRecord(NewIngressState(h, w.files, w.files[FinalMark].sourceRevision, status, now))
  {
    FinalizedIsSafe(h, w, drills, revision);
    DigestsAreSafe();
    ShortWordsAreSafe();
  }

  predicate WritesIngress(h: Sha, s: Store, op: FileOp, now: Stamp)
    requires FinalMark in s && s[FinalMark].FinalProof?
  {
    exists status :: op == Write(IngressMark, NewIngressState(h, s, s[FinalMark].sourceRevision, status, now))
  }

  /** Where an ingress command or a gate writes, the final chain is valid for some revision. */
  lemma IngressCommandWrites(h: Sha, w: World, a: Action)
    requires IngressOrGate(a.command)
    ensures var ops := PlanOf(h, a.drills, w.files, a.command, a.now).Ops();
            ops != [] ==>
              && (exists revision :: FinalValid(h, a.drills, w.files, revision))
              && forall i :: 0 <= i < |ops| ==> WritesIngress(h, w.files, ops[i], a.now)
  {
    var ops := PlanOf(h, a.drills, w.files, a.command, a.now).Ops();
    if ops != [] {
      assert FinalValid(h, a.drills, w.files, w.files[FinalMark].session.revision);
      forall i | 0 <= i < |ops|
        ensures WritesIngress(h, w.files, ops[i], a.now)
      {
        var status := ops[i].evidence.ingress;
        assert ops[i] == Write(IngressMark,
                               NewIngressState(h, w.files, w.files[FinalMark].sourceRevision, status, a.now));
      }
    }
  }

  lemma IngressCommandIsSafe(h: Sha, w: World, a: Action)
    requires PrintsSha256(h) && PhaseInvariant(h, w) && IngressOrGate(a.command)
    ensures var ops := PlanOf(h, a.drills, w.files, a.command, a.now).Ops();
            forall i :: 0 <= i < |ops| ==> SafeOp(ops[i])
  {
    var ops := PlanOf(h, a.drills, w.files, a.command, a.now).Ops();
    IngressCommandWrites(h, w, a);
    forall i | 0 <= i < |ops|
      ensures SafeOp(ops[i])
    {
      var revision :| FinalValid(h, a.drills, w.files, revision);
      var source := w.files[FinalMark].sourceRevision;
      var status :| ops[i] == Write(IngressMark, NewIngressState(h, w.files, source, status, a.now));
      IngressIsSafe(h, w, a.drills, revision, status, a.now);
    }
  }

  /** After any run, every write that any command plans can be written. */
  lemma PlannedWritesAreSafe(h: Sha, actions: seq<Action>, a: Action)
    requires PrintsSha256(h)
    ensures var ops := PlanOf(h, a.drills, Run(h, EMPTY_WORLD, actions).files, a.command, a.now).Ops();
            forall i :: 0 <= i < |ops| ==> SafeOp(ops[i])
  {
    RunKeepsPhase(h, EMPTY_WORLD, actions);
    var w := Run(h, EMPTY_WORLD, actions);
    if FirstStartCommand(a.command) {
      StartCommandIsSafe(h, w, a);
    } else if IngressOrGate(a.command) {
      IngressCommandIsSafe(h, w, a);
    } else {
      PhaseCommandIsSafe(h, w, a);
    }
  }
}
