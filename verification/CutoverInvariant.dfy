/** What every command keeps, at every crash point. */
module CutoverInvariant {
  import opened Patterns
  import opened EvidenceStore
  import opened CutoverPlan
  import opened CutoverRuns

  predicate PostgresReady(s: Store, c: Session) {
    && PostgresMatches(s, c)
    && (var p := s[PostgresMark];
        && p.sourceFrozen == "verified" && p.queueZero == "verified"
        && p.pendingBefore == "0" && p.pendingAfter == "0" && p.apiWorkerStarted == "false"
        && IsRunId(p.runId))
  }

  predicate RedisReady(s: Store, c: Session) {
    && PostgresReady(s, c)
    && RedisMatches(s, c)
    && (var r := s[RedisMark];
        && r.sourceFrozen == "verified" && r.queueZero == "verified" && r.brokerZero == "verified"
        && r.workerStop == s[PostgresMark].workerStop && IsRunId(r.runId))
  }

  predicate SeedSound(h: Sha, s: Store, c: Session) {
    && RedisReady(s, c)
    && SeedBindsSteps(h, s)
    && (var d := s[SeedMark];
        && d.session == c
        && IsRunId(d.runId) && IsSnapshotId(d.snapshotId) && IsSha256(d.repositoryId)
        && d.apiWorkerStarted == "false" && d.caddyChanged == "false" && d.dnsChanged == "false")
  }

  /** The proofs that each phase guarantees. */
  predicate PhaseProofs(h: Sha, s: Store, c: Session, phase: Phase) {
    match phase
    case PostgresInProgress => true
    case PostgresVerified => PostgresReady(s, c)
    case RedisInProgress => PostgresReady(s, c)
    case RedisVerified => RedisReady(s, c)
    case SeedVerified => SeedSound(h, s, c)
  }

  /** Drill evidence that the final proof's hashes stand for, and that described its seed. */
  predicate EvidenceRecorded(
      h: Sha, f: Evidence, d: Evidence, recovery: map<string, string>, retention: map<string, string>)
    requires f.FinalProof? && d.SeedProof?
  {
    && f.recoverySha == h(Drill(recovery))
    && f.retentionSha == h(Drill(retention))
    && Field(recovery, "repository_id_sha256") == Some(f.repositoryId)
    && Field(retention, "repository_id_sha256") == Some(f.repositoryId)
    && Field(recovery, "snapshot_id") == Some(d.snapshotId)
    && Field(recovery, "backup_set_sha256") == Some(d.backupSet)
    && Field(recovery, "status") == Some("success")
    && Field(retention, "status") == Some("immutable-retention-verified")
    && DrillComplete(recovery)
  }

  /** The drill restored the newest backup completely, cleaned up, and touched no live service. */
  predicate DrillComplete(recovery: map<string, string>) {
    && Field(recovery, "drill_scope") == Some("current-latest")
    && Field(recovery, "postgres_restore") == Some("verified")
    && Field(recovery, "redis_restore") == Some("verified")
    && Field(recovery, "restored_payload_removed") == Some("true")
    && Field(recovery, "live_services_touched") == Some("false")
  }

  /** The whole finalized chain, including drill evidence as it was at finalization. */
  ghost predicate FinalChain(h: Sha, s: Store, c: Session) {
    && FinalRecordValid(s)
    && FinalBindsSteps(h, s)
    && (var f, d := s[FinalMark], s[SeedMark];
        && f.session == c
        && IsSha256(f.repositoryId) && f.repositoryId == d.repositoryId
        && f.seedSnapshotId == d.snapshotId && f.seedBackupSet == d.backupSet
        && exists recovery, retention :: EvidenceRecorded(h, f, d, recovery, retention))
  }

  ghost predicate PhaseInvariant(h: Sha, w: World) {
    if InProgressMark in w.files then
      var p := w.files[InProgressMark];
      && p.Progress?
      && w.begun == Some(p.session)
      && ValidSession(p.session)
      && PhaseProofs(h, w.files, p.session, p.phase)
    else if w.begun.None? then
      w.files.Keys == {}
    else
      ValidSession(w.begun.value) && FinalChain(h, w.files, w.begun.value)
  }

  /** SHA-256 prints 64 lowercase hexadecimal digits. */
  ghost predicate PrintsSha256(h: Sha) {
    forall e :: IsSha256(h(e))
  }

  lemma {:induction false} UnlinksKeepPhase(h: Sha, w: World, markers: seq<Marker>)
    requires PhaseInvariant(h, w)
    requires InProgressMark in w.files && InProgressMark !in markers
    requires w.files[InProgressMark].phase == PostgresInProgress
             || (w.files[InProgressMark].phase == RedisInProgress && PostgresMark !in markers)
    ensures PhaseInvariant(h, ObserveAll(w, Unlinks(markers)))
    decreases |markers|
  {
    if markers == [] {
    } else {
      var next := Observe(w, Unlink(markers[0]));
      assert Unlinks(markers)[0] == Unlink(markers[0]);
      assert Unlinks(markers)[1..] == Unlinks(markers[1..]);
      UnlinksKeepPhase(h, next, markers[1..]);
    }
  }

  lemma FenceKeepsPhase(h: Sha, w: World, c: Session, phase: Phase, now: Stamp, markers: seq<Marker>, cut: nat)
    requires PhaseInvariant(h, w)
    requires ValidSession(c) && InProgressMark !in markers
    requires phase == PostgresInProgress
             || (phase == RedisInProgress && HasProgress(w.files, c, PostgresVerified) && PostgresMark !in markers)
    ensures var ops := [Write(InProgressMark, Progress(c, phase, now))] + Unlinks(markers);
            PhaseInvariant(h, ObserveAll(w, Prefix(ops, cut)))
  {
    var fence := Write(InProgressMark, Progress(c, phase, now));
    FenceOperations(w, fence, markers, cut);
    if cut != 0 {
      var kept := if cut <= |markers| then markers[..cut - 1] else markers;
      UnlinksKeepPhase(h, Observe(w, fence), kept);
    }
  }

  lemma ProofKeepsPhase(h: Sha, w: World, a: Action)
    requires PhaseInvariant(h, w) && PrintsSha256(h)
    requires a.command.WritePostgres? || a.command.WriteRedis? || a.command.WriteSeed?
    ensures PhaseInvariant(h, Execute(h, w, a))
  {
    var plan := PlanOf(h, a.drills, w.files, a.command, a.now);
    if plan.Perform? {
      TwoOperations(w, plan.ops[0], plan.ops[1], a.cut);
      assert plan.ops == [plan.ops[0], plan.ops[1]];
    }
  }

  lemma FinalizeKeepsPhase(h: Sha, w: World, a: Action)
    requires PhaseInvariant(h, w) && PrintsSha256(h)
    requires a.command.Finalize?
    ensures PhaseInvariant(h, Execute(h, w, a))
  {
    var plan := PlanOf(h, a.drills, w.files, a.command, a.now);
    if plan.Perform? {
      var args := a.command.final;
      assert EvidenceRecorded(h, plan.ops[0].evidence, w.files[SeedMark],
                              a.drills[args.recoveryName], a.drills[args.retentionName]);
      TwoOperations(w, plan.ops[0], plan.ops[1], a.cut);
      assert plan.ops == [plan.ops[0], plan.ops[1]];
    }
  }

  /** Operations on the files of the first start and the ingress. */
  predicate Outer(m: Marker) {
    m == ArmedMark || m == ConsumedMark || m == RecoveryMark || m == IngressMark
  }

  predicate OuterOp(op: FileOp) {
    Outer(op.marker)
  }

  /** The files that the cutover phases read. */
  function Core(s: Store): Store {
    map m | m in s && !Outer(m) :: s[m]
  }

  /** The two stores agree on every file that the cutover phases read. */
  predicate SameCore(s: Store, s': Store) {
    forall m: Marker | !Outer(m) :: (m in s <==> m in s') && (m in s ==> s[m] == s'[m])
  }

  lemma CoreIsSame(s: Store, s': Store)
    requires Core(s) == Core(s')
    ensures SameCore(s, s')
  {
    forall m: Marker | !Outer(m)
      ensures (m in s <==> m in s') && (m in s ==> s[m] == s'[m])
    {
      assert m in s <==> m in Core(s);
      assert m in s' <==> m in Core(s');
      if m in s {
        assert s[m] == Core(s)[m] == Core(s')[m] == s'[m];
      }
    }
  }

  lemma CoreMarkers()
    ensures !Outer(InProgressMark) && !Outer(PostgresMark) && !Outer(RedisMark)
    ensures !Outer(SeedMark) && !Outer(FinalMark)
  {
  }

  lemma CoreDecidesProofs(h: Sha, s: Store, s': Store, c: Session, phase: Phase)
    requires SameCore(s, s') && PhaseProofs(h, s, c, phase)
    ensures PhaseProofs(h, s', c, phase)
  {
    CoreMarkers();
  }

  lemma CoreDecidesChain(h: Sha, s: Store, s': Store, c: Session)
    requires SameCore(s, s') && FinalChain(h, s, c)
    ensures FinalChain(h, s', c)
  {
    CoreMarkers();
    var recovery, retention :| EvidenceRecorded(h, s[FinalMark], s[SeedMark], recovery, retention);
    assert EvidenceRecorded(h, s'[FinalMark], s'[SeedMark], recovery, retention);
  }

  lemma CoreDecidesPhase(h: Sha, w: World, w': World)
    requires PhaseInvariant(h, w)
    requires w.begun.Some? && w'.begun == w.begun && Core(w'.files) == Core(w.files)
    ensures PhaseInvariant(h, w')
  {
    CoreIsSame(w.files, w'.files);
    CoreMarkers();
    if InProgressMark in w.files {
      var p := w.files[InProgressMark];
      CoreDecidesProofs(h, w.files, w'.files, p.session, p.phase);
    } else {
      CoreDecidesChain(h, w.files, w'.files, w.begun.value);
    }
  }

  lemma {:induction false} OuterKeepsCore(w: World, ops: seq<FileOp>)
    requires forall i :: 0 <= i < |ops| ==> OuterOp(ops[i])
    ensures ObserveAll(w, ops).begun == w.begun
    ensures Core(ObserveAll(w, ops).files) == Core(w.files)
    decreases |ops|
  {
    if ops == [] {
    } else {
      var next := Observe(w, ops[0]);
      assert Outer(ops[0].marker);
      assert Core(next.files) == Core(w.files);
      OuterKeepsCore(next, ops[1..]);
    }
  }

  predicate FirstStartCommand(c: Command) {
    c.ArmFirstStart? || c.CompleteFirstStart? || c.RecoverFirstStart?
  }

  predicate IngressOrGate(c: Command) {
    c.BeginIngressHandoff? || c.TransitionIngress? || c.ReadOnlyGate?
  }

  lemma FirstStartCommandOps(h: Sha, w: World, a: Action)
    requires FirstStartCommand(a.command)
    ensures var ops := PlanOf(h, a.drills, w.files, a.command, a.now).Ops();
            && (forall i :: 0 <= i < |ops| ==> OuterOp(ops[i]))
            && (ops != [] ==> FinalMark in w.files)
  {
  }

  lemma IngressCommandOps(h: Sha, w: World, a: Action)
    requires IngressOrGate(a.command)
    ensures var ops := PlanOf(h, a.drills, w.files, a.command, a.now).Ops();
            && (forall i :: 0 <= i < |ops| ==> ops[i].marker == IngressMark && OuterOp(ops[i]))
            && (ops != [] ==> FinalMark in w.files)
  {
  }

  lemma OuterCommandOps(h: Sha, w: World, a: Action)
    requires FirstStartCommand(a.command) || IngressOrGate(a.command)
    ensures var ops := PlanOf(h, a.drills, w.files, a.command, a.now).Ops();
            && (forall i :: 0 <= i < |ops| ==> OuterOp(ops[i]))
            && (ops != [] ==> FinalMark in w.files)
  {
    if FirstStartCommand(a.command) {
      FirstStartCommandOps(h, w, a);
    } else {
      IngressCommandOps(h, w, a);
    }
  }

  lemma OuterCommandKeepsPhase(h: Sha, w: World, a: Action)
    requires PhaseInvariant(h, w)
    requires FirstStartCommand(a.command) || IngressOrGate(a.command)
    ensures PhaseInvariant(h, Execute(h, w, a))
  {
    OuterCommandOps(h, w, a);
    var ops := Prefix(PlanOf(h, a.drills, w.files, a.command, a.now).Ops(), a.cut);
    if ops != [] {
      OuterKeepsCore(w, ops);
      CoreDecidesPhase(h, w, ObserveAll(w, ops));
    }
  }

  lemma FenceCommandKeepsPhase(h: Sha, w: World, a: Action)
    requires PhaseInvariant(h, w)
    requires a.command.BeginPostgres? || a.command.BeginRedis?
    ensures PhaseInvariant(h, Execute(h, w, a))
  {
    var plan := PlanOf(h, a.drills, w.files, a.command, a.now);
    if plan.Perform? {
      var c := CommonFields(a.command.id).value;
      if a.command.BeginPostgres? {
        FenceKeepsPhase(h, w, c, PostgresInProgress, a.now, CLEARED_BY_BEGIN, a.cut);
      } else {
        FenceKeepsPhase(h, w, c, RedisInProgress, a.now, CLEARED_BY_REDIS, a.cut);
      }
    }
  }

  /** The phase invariant survives every command at every crash point. */
  lemma StepKeepsPhase(h: Sha, w: World, a: Action)
    requires PhaseInvariant(h, w) && PrintsSha256(h)
    ensures PhaseInvariant(h, Execute(h, w, a))
  {
    match a.command
    case BeginPostgres(_) => FenceCommandKeepsPhase(h, w, a);
    case BeginRedis(_) => FenceCommandKeepsPhase(h, w, a);
    case WritePostgres(_, _) => ProofKeepsPhase(h, w, a);
    case WriteRedis(_, _) => ProofKeepsPhase(h, w, a);
    case WriteSeed(_, _) => ProofKeepsPhase(h, w, a);
    case Finalize(_, _) => FinalizeKeepsPhase(h, w, a);
    case _ => OuterCommandKeepsPhase(h, w, a);
  }
}
