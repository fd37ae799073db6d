/**
 What each cutover command does to the marker files: it is refused, or it performs a
 fixed list of atomic operations in order.  A crash performs a prefix of that list.
 */
module CutoverPlan {
  import opened Patterns
  import opened EvidenceStore

  /** What a command prints. */
  datatype Reply =
    | Silent
    | FirstStartRequired
    | FirstStartArmed
    | FirstStartConsumed
    | RecoveredForRetry
    | ConsumedReconciled
    | Ingress(status: IngressStatus)

  datatype Plan = Refused | Perform(ops: seq<FileOp>, reply: Reply) {
    function Ops(): seq<FileOp> {
      if Perform? then ops else []
    }
  }

  /** The identity arguments of a cutover command. */
  datatype Identity = Identity(cutoverId: string, revision: string, source: string)

  function CommonFields(id: Identity): Option<Session> {
    var c := Session(id.cutoverId, id.revision, id.source, VERSION);
    if ValidSession(c) then Some(c) else None
  }

  // ---- cutover phases --------------------------------------------------------------

  const CLEARED_BY_BEGIN: seq<Marker> :=
    [FinalMark, PostgresMark, RedisMark, SeedMark, ArmedMark, ConsumedMark, RecoveryMark]

  const CLEARED_BY_REDIS: seq<Marker> := [FinalMark, RedisMark, SeedMark]

  function Unlinks(markers: seq<Marker>): (ops: seq<FileOp>)
    ensures |ops| == |markers|
    ensures forall i :: 0 <= i < |ops| ==> ops[i] == Unlink(markers[i])
  {
    seq(|markers|, i requires 0 <= i < |markers| => Unlink(markers[i]))
  }

  function PlanBeginPostgres(s: Store, id: Identity, now: Stamp): Plan {
    match CommonFields(id)
    case None => Refused
    case Some(c) =>
      if InProgressMark in s then Refused
      else Perform([Write(InProgressMark, Progress(c, PostgresInProgress, now))] + Unlinks(CLEARED_BY_BEGIN), Silent)
  }

  predicate HasProgress(s: Store, c: Session, phase: Phase) {
    && InProgressMark in s
    && s[InProgressMark].Progress?
    && s[InProgressMark].session == c
    && s[InProgressMark].phase == phase
  }

  datatype PostgresArgs = PostgresArgs(
    runId: string, contract: string, postgres: PostgresState, sourceManifest: string,
    sourceDump: string, workerStop: string, rollbackDump: string)

  predicate ValidPostgresArgs(a: PostgresArgs) {
    && IsRunId(a.runId)
    && IsSchemaContract(a.contract)
    && ValidPostgresState(a.postgres)
    && IsSha256(a.sourceManifest) && IsSha256(a.sourceDump)
    && IsSha256(a.workerStop) && IsSha256(a.rollbackDump)
  }

  function NewPostgresProof(c: Session, a: PostgresArgs, now: Stamp): Evidence {
    PostgresProof(c, a.runId, a.contract, a.postgres, a.sourceManifest, a.sourceDump, a.workerStop,
                  a.rollbackDump, "verified", "verified", "0", "0", "false", now)
  }

  function PlanWritePostgres(s: Store, id: Identity, a: PostgresArgs, now: Stamp): Plan {
    match CommonFields(id)
    case None => Refused
    case Some(c) =>
      if !ValidPostgresArgs(a) || !HasProgress(s, c, PostgresInProgress) then Refused
      else Perform([Write(PostgresMark, NewPostgresProof(c, a, now)),
                    Write(InProgressMark, Progress(c, PostgresVerified, now))], Silent)
  }

  predicate PostgresDigestsValid(p: Evidence)
    requires p.PostgresProof?
  {
    && IsSchemaContract(p.contract)
    && ValidPostgresState(p.postgres)
    && IsSha256(p.sourceManifest) && IsSha256(p.sourceDump)
    && IsSha256(p.workerStop) && IsSha256(p.rollbackDump)
  }

  /** The PostgreSQL proof of this session is on disk with usable digests. */
  predicate PostgresMatches(s: Store, c: Session) {
    && PostgresMark in s && s[PostgresMark].PostgresProof?
    && s[PostgresMark].session == c
    && PostgresDigestsValid(s[PostgresMark])
  }

  function PlanBeginRedis(s: Store, id: Identity, now: Stamp): Plan {
    match CommonFields(id)
    case None => Refused
    case Some(c) =>
      if !HasProgress(s, c, PostgresVerified) || !PostgresMatches(s, c) then Refused
      else Perform([Write(InProgressMark, Progress(c, RedisInProgress, now))] + Unlinks(CLEARED_BY_REDIS), Silent)
  }

  datatype RedisArgs = RedisArgs(
    runId: string, state: string, rollback: string, workerStop: string, redisManifest: string)

  predicate ValidRedisArgs(a: RedisArgs) {
    && IsRunId(a.runId)
    && IsSha256(a.state) && IsSha256(a.rollback) && IsSha256(a.workerStop) && IsSha256(a.redisManifest)
  }

  function NewRedisProof(c: Session, a: RedisArgs, now: Stamp): Evidence {
    RedisProof(c, a.runId, a.workerStop, a.redisManifest, a.rollback, a.state,
               "verified", "verified", "verified", now)
  }

  function PlanWriteRedis(s: Store, id: Identity, a: RedisArgs, now: Stamp): Plan {
    match CommonFields(id)
    case None => Refused
    case Some(c) =>
      if !ValidRedisArgs(a) || !HasProgress(s, c, RedisInProgress) || !PostgresMatches(s, c)
         || s[PostgresMark].workerStop != a.workerStop
      then Refused
      else Perform([Write(RedisMark, NewRedisProof(c, a, now)),
                    Write(InProgressMark, Progress(c, RedisVerified, now))], Silent)
  }

  predicate RedisDigestsValid(r: Evidence)
    requires r.RedisProof?
  {
    IsSha256(r.workerStop) && IsSha256(r.redisManifest) && IsSha256(r.rollback) && IsSha256(r.state)
  }

  predicate RedisMatches(s: Store, c: Session) {
    && RedisMark in s && s[RedisMark].RedisProof?
    && s[RedisMark].session == c
    && RedisDigestsValid(s[RedisMark])
  }

  /** The guard shared by the validate-seed-ready command and the seed write. */
  predicate SeedReady(s: Store, c: Session, workerStop: string, redisManifest: string) {
    && IsSha256(workerStop) && IsSha256(redisManifest)
    && HasProgress(s, c, RedisVerified)
    && PostgresMatches(s, c) && RedisMatches(s, c)
    && (var p, r := s[PostgresMark], s[RedisMark];
        && p.sourceFrozen == "verified" && p.queueZero == "verified"
        && p.pendingBefore == "0" && p.pendingAfter == "0" && p.apiWorkerStarted == "false"
        && r.sourceFrozen == "verified" && r.queueZero == "verified" && r.brokerZero == "verified"
        && r.workerStop == p.workerStop == workerStop
        && r.redisManifest == redisManifest)
  }

  datatype SeedArgs = SeedArgs(
    runId: string, contract: string, target: TargetState, workerStop: string,
    snapshotId: string, repositoryId: string, backupSet: string, configuration: string,
    databaseDump: string, redisDump: string)

  predicate ValidSeedArgs(a: SeedArgs) {
    && IsRunId(a.runId) && IsSchemaContract(a.contract) && IsSnapshotId(a.snapshotId)
    && ValidTargetState(a.target) && IsSha256(a.workerStop)
    && IsSha256(a.repositoryId) && IsSha256(a.backupSet) && IsSha256(a.configuration)
    && IsSha256(a.databaseDump) && IsSha256(a.redisDump)
  }

  function NewSeedProof(h: Sha, s: Store, c: Session, a: SeedArgs, now: Stamp): Evidence
    requires PostgresMark in s && RedisMark in s
  {
    SeedProof(c, a.runId, a.contract, a.target, a.workerStop, a.snapshotId, a.repositoryId, a.backupSet,
              a.configuration, a.databaseDump, a.redisDump, h(s[PostgresMark]), h(s[RedisMark]),
              "false", "false", "false", now)
  }

  function PlanWriteSeed(h: Sha, s: Store, id: Identity, a: SeedArgs, now: Stamp): Plan {
    match CommonFields(id)
    case None => Refused
    case Some(c) =>
      if !ValidSeedArgs(a) || !SeedReady(s, c, a.workerStop, a.target.redisManifest)
         || a.contract != s[PostgresMark].contract
         || a.target.postgres != s[PostgresMark].postgres
      then Refused
      else Perform([Write(SeedMark, NewSeedProof(h, s, c, a, now)),
                    Write(InProgressMark, Progress(c, SeedVerified, now))], Silent)
  }

  predicate SeedDigestsValid(d: Evidence)
    requires d.SeedProof?
  {
    && IsSchemaContract(d.contract)
    && ValidTargetState(d.target) && IsSha256(d.workerStop)
    && IsSha256(d.backupSet) && IsSha256(d.configuration)
    && IsSha256(d.databaseDump) && IsSha256(d.redisDump)
    && IsSha256(d.postgresSha) && IsSha256(d.redisSha)
  }

  /** The seed repeats the hashes and the digests of the two proofs on disk. */
  predicate SeedBindsSteps(h: Sha, s: Store) {
    && PostgresMark in s && s[PostgresMark].PostgresProof?
    && RedisMark in s && s[RedisMark].RedisProof?
    && SeedMark in s && s[SeedMark].SeedProof?
    && (var p, r, d := s[PostgresMark], s[RedisMark], s[SeedMark];
        && PostgresDigestsValid(p) && RedisDigestsValid(r) && SeedDigestsValid(d)
        && d.target.postgres == p.postgres
        && d.contract == p.contract
        && d.postgresSha == h(p)
        && d.redisSha == h(r)
        && d.target.redisManifest == r.redisManifest
        && d.workerStop == p.workerStop == r.workerStop)
  }

  /** The guard of the validate-seed command, which finalize repeats. */
  predicate SeedValid(h: Sha, s: Store, c: Session, repositoryId: string, workerStop: string, redisManifest: string) {
    && IsSha256(repositoryId) && IsSha256(workerStop) && IsSha256(redisManifest)
    && HasProgress(s, c, SeedVerified)
    && SeedBindsSteps(h, s)
    && (var d := s[SeedMark];
        && d.session == c
        && d.repositoryId == repositoryId
        && IsRunId(d.runId) && IsSnapshotId(d.snapshotId)
        && d.workerStop == workerStop
        && d.target.redisManifest == redisManifest
        && d.apiWorkerStarted == "false" && d.caddyChanged == "false" && d.dnsChanged == "false")
  }

  datatype FinalArgs = FinalArgs(
    sourceRevision: string, recoveryName: string, recoverySha: string, retentionName: string,
    retentionSha: string, repositoryId: string, target: TargetState, workerStop: string, contract: string)

  predicate ValidFinalArgs(a: FinalArgs) {
    && IsRevision(a.sourceRevision) && IsSchemaContract(a.contract)
    && IsSha256(a.recoverySha) && IsSha256(a.retentionSha) && IsSha256(a.repositoryId)
    && ValidTargetState(a.target) && IsSha256(a.workerStop)
    && IsBasename(a.recoveryName) && IsBasename(a.retentionName)
  }

  /** The recovery and retention evidence that finalize demands for this seed. */
  predicate DrillsMatch(h: Sha, drills: Drills, seed: Evidence, a: FinalArgs)
    requires seed.SeedProof?
  {
    && a.recoveryName in drills && a.retentionName in drills
    && (var recovery, retention := drills[a.recoveryName], drills[a.retentionName];
        && h(Drill(recovery)) == a.recoverySha
        && h(Drill(retention)) == a.retentionSha
        && Field(recovery, "status") == Some("success")
        && Field(recovery, "drill_scope") == Some("current-latest")
        && Field(recovery, "postgres_restore") == Some("verified")
        && Field(recovery, "redis_restore") == Some("verified")
        && Field(recovery, "restored_payload_removed") == Some("true")
        && Field(recovery, "live_services_touched") == Some("false")
        && Field(recovery, "repository_id_sha256") == Some(a.repositoryId)
        && Field(recovery, "snapshot_id") == Some(seed.snapshotId)
        && Field(recovery, "backup_set_sha256") == Some(seed.backupSet)
        && Field(retention, "status") == Some("immutable-retention-verified")
        && Field(retention, "repository_id_sha256") == Some(a.repositoryId))
  }

  predicate FinalReady(h: Sha, drills: Drills, s: Store, c: Session, a: FinalArgs) {
    && ValidFinalArgs(a)
    && SeedValid(h, s, c, a.repositoryId, a.workerStop, a.target.redisManifest)
    && DrillsMatch(h, drills, s[SeedMark], a)
    && PostgresMatches(s, c) && RedisMatches(s, c)
    && (var p, r, d := s[PostgresMark], s[RedisMark], s[SeedMark];
        && a.target.postgres == p.postgres == d.target.postgres
        && a.contract == p.contract == d.contract
        && a.target.redisManifest == r.redisManifest == d.target.redisManifest
        && a.workerStop == p.workerStop == r.workerStop == d.workerStop)
    // The atomic write refuses a field value outside the safe character set.
    && IsSafeValue(a.recoveryName) && IsSafeValue(a.retentionName)
  }

  function NewFinalProof(h: Sha, s: Store, c: Session, a: FinalArgs, now: Stamp): Evidence
    requires PostgresMark in s && RedisMark in s && SeedMark in s && s[SeedMark].SeedProof?
  {
    FinalProof(c, a.contract, a.target, a.workerStop, a.sourceRevision,
               h(s[PostgresMark]), h(s[RedisMark]), h(s[SeedMark]),
               a.recoveryName, a.recoverySha, a.retentionName, a.retentionSha, a.repositoryId,
               s[SeedMark].snapshotId, s[SeedMark].backupSet, "false", "false", now)
  }

  function PlanFinalize(h: Sha, drills: Drills, s: Store, id: Identity, a: FinalArgs, now: Stamp): Plan {
    match CommonFields(id)
    case None => Refused
    case Some(c) =>
      if !FinalReady(h, drills, s, c, a) then Refused
      else Perform([Write(FinalMark, NewFinalProof(h, s, c, a, now)), Unlink(InProgressMark)], Silent)
  }

  // ---- validation of the finalized chain -------------------------------------------

  predicate FinalRecordValid(s: Store) {
    && FinalMark in s && s[FinalMark].FinalProof?
    && (var f := s[FinalMark];
        && f.session.version == VERSION
        && IsSchemaContract(f.contract)
        && f.caddyChanged == "false" && f.dnsChanged == "false"
        && IsRevision(f.sourceRevision))
  }

  /** Every hash and digest the final proof records is that of the file now on disk. */
  predicate FinalBindsSteps(h: Sha, s: Store)
    requires FinalMark in s && s[FinalMark].FinalProof?
  {
    && SeedBindsSteps(h, s)
    && (var f, p, r, d := s[FinalMark], s[PostgresMark], s[RedisMark], s[SeedMark];
        && f.postgresSha == h(p) && f.redisSha == h(r) && f.seedSha == h(d)
        && p.session == r.session == d.session == f.session
        && f.contract == d.contract
        && f.target == d.target
        && f.workerStop == d.workerStop)
  }

  /** The drill evidence named by the final proof is unchanged and describes its seed. */
  predicate FinalDrillsValid(h: Sha, drills: Drills, s: Store)
    requires FinalMark in s && s[FinalMark].FinalProof?
    requires SeedMark in s && s[SeedMark].SeedProof?
  {
    var f, d := s[FinalMark], s[SeedMark];
    && IsRecoveryMarkerName(f.recoveryName)
    && f.retentionName == RETENTION_MARKER_NAME
    && f.recoveryName in drills && f.retentionName in drills
    && (var recovery, retention := drills[f.recoveryName], drills[f.retentionName];
        && f.recoverySha == h(Drill(recovery))
        && f.retentionSha == h(Drill(retention))
        && IsSha256(f.repositoryId)
        && Field(recovery, "repository_id_sha256") == Some(f.repositoryId)
        && Field(retention, "repository_id_sha256") == Some(f.repositoryId)
        && d.repositoryId == f.repositoryId
        && Field(recovery, "snapshot_id") == Some(d.snapshotId)
        && Field(recovery, "backup_set_sha256") == Some(d.backupSet)
        && f.seedSnapshotId == d.snapshotId
        && f.seedBackupSet == d.backupSet
        && Field(recovery, "status") == Some("success")
        && Field(retention, "status") == Some("immutable-retention-verified"))
  }

  predicate FinalValid(h: Sha, drills: Drills, s: Store, revision: string) {
    && IsRevision(revision)
    && InProgressMark !in s
    && FinalRecordValid(s)
    && s[FinalMark].session.revision == revision
    && FinalBindsSteps(h, s)
    && FinalDrillsValid(h, drills, s)
  }

  // ---- one-time first start --------------------------------------------------------

  predicate ArmedValid(h: Sha, s: Store)
    requires FinalMark in s && s[FinalMark].FinalProof?
  {
    && ArmedMark in s && s[ArmedMark].ArmedProof?
    && (var a, f := s[ArmedMark], s[FinalMark];
        a.session == f.session && a.finalSha == h(f) && a.target == f.target)
  }

  predicate ConsumedValid(h: Sha, s: Store)
    requires FinalMark in s && s[FinalMark].FinalProof?
  {
    && ConsumedMark in s && s[ConsumedMark].ConsumedProof?
    && (var a, f := s[ConsumedMark], s[FinalMark];
        a.session == f.session && a.finalSha == h(f) && a.target == f.target)
  }

  function PlanFirstStartStatus(h: Sha, drills: Drills, s: Store, revision: string): Plan {
    if !FinalValid(h, drills, s, revision) then Refused
    else if ArmedMark in s then Refused
    else if ConsumedMark !in s then Perform([], FirstStartRequired)
    else if !ConsumedValid(h, s) then Refused
    else Perform([], FirstStartConsumed)
  }

  function PlanArm(h: Sha, drills: Drills, s: Store, revision: string, target: TargetState, now: Stamp): Plan {
    if !ValidTargetState(target) then Refused
    else
      var status := PlanFirstStartStatus(h, drills, s, revision);
      if status.Refused? || status.reply == FirstStartConsumed then status
      else
        var f := s[FinalMark];
        if target != f.target then Refused
        else Perform([Write(ArmedMark, ArmedProof(f.session, h(f), target, now))], FirstStartArmed)
  }

  function PlanComplete(h: Sha, drills: Drills, s: Store, revision: string, now: Stamp): Plan {
    if !FinalValid(h, drills, s, revision) then Refused
    else if ConsumedMark in s then
      if ArmedMark in s || !ConsumedValid(h, s) then Refused else Perform([], FirstStartConsumed)
    else if !ArmedValid(h, s) then Refused
    else
      var f := s[FinalMark];
      Perform([Write(ConsumedMark, ConsumedProof(f.session, h(f), f.target, now)), Unlink(ArmedMark)],
              FirstStartConsumed)
  }

  function PlanRecover(h: Sha, drills: Drills, s: Store, revision: string, target: TargetState, now: Stamp): Plan {
    if !ValidTargetState(target) || !FinalValid(h, drills, s, revision) || !ArmedValid(h, s) then Refused
    else
      var f := s[FinalMark];
      if target != f.target || (ConsumedMark in s && !ConsumedValid(h, s)) then Refused
      else
        var reconciled := ConsumedMark in s;
        var consumedSha := if reconciled then Some(h(s[ConsumedMark])) else None;
        Perform(
          [Write(RecoveryMark, RecoveryProof(f.session.cutoverId, f.session.revision, VERSION, h(f), target,
                                             h(s[ArmedMark]), consumedSha, reconciled, now)),
           Unlink(ArmedMark)],
          if reconciled then ConsumedReconciled else RecoveredForRetry)
  }

  // ---- ingress ---------------------------------------------------------------------

  /** The ingress state on disk belongs to the finalized cutover. */
  predicate IngressValid(h: Sha, drills: Drills, s: Store, revision: string) {
    && FinalValid(h, drills, s, revision)
    && IngressMark in s && s[IngressMark].IngressState?
    && (var state, f := s[IngressMark], s[FinalMark];
        && state.version == VERSION
        && state.cutoverId == f.session.cutoverId
        && state.revision == f.session.revision
        && state.finalSha == h(f)
        && IsRevision(state.sourceRevision)
        && state.sourceRevision == f.sourceRevision)
  }

  function NewIngressState(h: Sha, s: Store, sourceRevision: string, status: IngressStatus, now: Stamp): Evidence
    requires FinalMark in s && s[FinalMark].FinalProof?
  {
    var f := s[FinalMark];
    IngressState(f.session.cutoverId, f.session.revision, VERSION, h(f), sourceRevision, status, now)
  }

  function PlanEnsureFreeze(h: Sha, drills: Drills, s: Store, revision: string, now: Stamp): Plan {
    if IngressMark in s then
      if IngressValid(h, drills, s, revision) then Perform([], Ingress(s[IngressMark].ingress)) else Refused
    else if !FinalValid(h, drills, s, revision) then Refused
    else Perform([Write(IngressMark, NewIngressState(h, s, s[FinalMark].sourceRevision, Required, now))],
                 Ingress(Required))
  }

  function PlanIngressStatus(h: Sha, drills: Drills, s: Store, revision: string): Plan {
    if IngressValid(h, drills, s, revision) then Perform([], Ingress(s[IngressMark].ingress)) else Refused
  }

  function PlanBeginHandoff(h: Sha, drills: Drills, s: Store, revision: string, now: Stamp): Plan {
    var freeze := PlanEnsureFreeze(h, drills, s, revision, now);
    if freeze.Refused? then Refused
    else
      var current := freeze.reply.status;
      if current == HandoffInProgress then Perform(freeze.ops, Ingress(current))
      else if current != Required && current != RenderRestored then Refused
      else Perform(
             freeze.ops + [Write(IngressMark, NewIngressState(h, s, s[FinalMark].sourceRevision,
                                                              HandoffInProgress, now))],
             Ingress(HandoffInProgress))
  }

  datatype IngressAction = AwaitActivation | Activate | BeginRestore | CompleteRestore

  function Target(action: IngressAction): IngressStatus {
    match action
    case AwaitActivation => AwaitingActivation
    case Activate => Activated
    case BeginRestore => RestoreInProgress
    case CompleteRestore => RenderRestored
  }

  predicate AllowedFrom(action: IngressAction, current: IngressStatus) {
    match action
    case AwaitActivation => current == HandoffInProgress
    case Activate => current == AwaitingActivation
    case BeginRestore => current == HandoffInProgress || current == AwaitingActivation || current == RestoreInProgress
    case CompleteRestore => current == RestoreInProgress
  }

  function PlanTransition(h: Sha, drills: Drills, s: Store, revision: string, action: IngressAction, now: Stamp): Plan {
    if !IngressValid(h, drills, s, revision) then Refused
    else
      var current, target := s[IngressMark].ingress, Target(action);
      if current == target then Perform([], Ingress(current))
      else if !AllowedFrom(action, current) then Refused
      else Perform([Write(IngressMark, NewIngressState(h, s, s[IngressMark].sourceRevision, target, now))],
                   Ingress(target))
  }

  // ---- gates of later releases -----------------------------------------------------

  datatype Gate = ValidateFinal | FirstStartStatus | EnsureIngressFreeze | IngressStatusGate

  /** The revision that read-only gates validate for a release. */
  function CutoverRevision(h: Sha, drills: Drills, s: Store, release: string): Option<string> {
    if !IsRevision(release) || InProgressMark in s || FinalMark !in s || !s[FinalMark].FinalProof?
       || !IsRevision(s[FinalMark].session.revision)
    then None
    else
      var cutover := s[FinalMark].session.revision;
      if release == cutover then Some(cutover)
      else if !FinalValid(h, drills, s, cutover) then None
      else if PlanFirstStartStatus(h, drills, s, cutover) != Perform([], FirstStartConsumed) then None
      else if PlanIngressStatus(h, drills, s, cutover) != Perform([], Ingress(Activated)) then None
      else Some(cutover)
  }

  function PlanGate(h: Sha, drills: Drills, s: Store, gate: Gate, release: string, now: Stamp): Plan {
    match CutoverRevision(h, drills, s, release)
    case None => Refused
    case Some(revision) =>
      match gate
      case ValidateFinal => if FinalValid(h, drills, s, revision) then Perform([], Silent) else Refused
      case FirstStartStatus => PlanFirstStartStatus(h, drills, s, revision)
      case EnsureIngressFreeze => PlanEnsureFreeze(h, drills, s, revision, now)
      case IngressStatusGate => PlanIngressStatus(h, drills, s, revision)
  }

  // ---- all commands ----------------------------------------------------------------

  datatype Command =
    | BeginPostgres(id: Identity)
    | WritePostgres(id: Identity, postgres: PostgresArgs)
    | BeginRedis(id: Identity)
    | WriteRedis(id: Identity, redis: RedisArgs)
    | WriteSeed(id: Identity, seed: SeedArgs)
    | Finalize(id: Identity, final: FinalArgs)
    | ArmFirstStart(revision: string, target: TargetState)
    | CompleteFirstStart(revision: string)
    | RecoverFirstStart(revision: string, target: TargetState)
    | BeginIngressHandoff(revision: string)
    | TransitionIngress(revision: string, action: IngressAction)
    | ReadOnlyGate(gate: Gate, release: string)

  function PlanOf(h: Sha, drills: Drills, s: Store, command: Command, now: Stamp): Plan {
    match command
    case BeginPostgres(id) => PlanBeginPostgres(s, id, now)
    case WritePostgres(id, a) => PlanWritePostgres(s, id, a, now)
    case BeginRedis(id) => PlanBeginRedis(s, id, now)
    case WriteRedis(id, a) => PlanWriteRedis(s, id, a, now)
    case WriteSeed(id, a) => PlanWriteSeed(h, s, id, a, now)
    case Finalize(id, a) => PlanFinalize(h, drills, s, id, a, now)
    case ArmFirstStart(revision, target) => PlanArm(h, drills, s, revision, target, now)
    case CompleteFirstStart(revision) => PlanComplete(h, drills, s, revision, now)
    case RecoverFirstStart(revision, target) => PlanRecover(h, drills, s, revision, target, now)
    case BeginIngressHandoff(revision) => PlanBeginHandoff(h, drills, s, revision, now)
    case TransitionIngress(revision, action) => PlanTransition(h, drills, s, revision, action, now)
    case ReadOnlyGate(gate, release) => PlanGate(h, drills, s, gate, release, now)
  }
}
