/**
 The marker files of the provider cutover: what each one records, the directory that
 holds them, and the two atomic operations that change it.
 */
module EvidenceStore {
  import opened Patterns

  const VERSION := "4"

  /** The identity that every proof of one cutover session repeats. */
  datatype Session = Session(cutoverId: string, revision: string, source: string, version: string)

  predicate ValidSession(c: Session) {
    IsCutoverId(c.cutoverId) && IsRevision(c.revision) && IsSha256(c.source) && c.version == VERSION
  }

  predicate IsSchemaContract(v: string) {
    v == "4" || v == "5"
  }

  datatype Phase =
    | PostgresInProgress
    | PostgresVerified
    | RedisInProgress
    | RedisVerified
    | SeedVerified

  /** The three digests of the migrated PostgreSQL target. */
  datatype PostgresState = PostgresState(migratedManifest: string, roleLoginProbe: string, securityManifest: string)

  predicate ValidPostgresState(p: PostgresState) {
    IsSha256(p.migratedManifest) && IsSha256(p.roleLoginProbe) && IsSha256(p.securityManifest)
  }

  /** The four digests a first start must find unchanged. */
  datatype TargetState = TargetState(postgres: PostgresState, redisManifest: string)

  predicate ValidTargetState(t: TargetState) {
    ValidPostgresState(t.postgres) && IsSha256(t.redisManifest)
  }

  datatype IngressStatus =
    | Required
    | HandoffInProgress
    | AwaitingActivation
    | Activated
    | RestoreInProgress
    | RenderRestored

  type Stamp = nat

  /**
   One file's fields.  The constructor is the file's `status` value, so reading a file
   with the wrong status is reading the wrong constructor.
   */
  datatype Evidence =
    | Progress(session: Session, phase: Phase, at: Stamp)
    | PostgresProof(
        session: Session, runId: string, contract: string, postgres: PostgresState,
        sourceManifest: string, sourceDump: string, workerStop: string, rollbackDump: string,
        sourceFrozen: string, queueZero: string, pendingBefore: string, pendingAfter: string,
        apiWorkerStarted: string, at: Stamp)
    | RedisProof(
        session: Session, runId: string, workerStop: string, redisManifest: string,
        rollback: string, state: string,
        sourceFrozen: string, queueZero: string, brokerZero: string, at: Stamp)
    | SeedProof(
        session: Session, runId: string, contract: string, target: TargetState, workerStop: string,
        snapshotId: string, repositoryId: string, backupSet: string, configuration: string,
        databaseDump: string, redisDump: string, postgresSha: string, redisSha: string,
        apiWorkerStarted: string, caddyChanged: string, dnsChanged: string, at: Stamp)
    | FinalProof(
        session: Session, contract: string, target: TargetState, workerStop: string,
        sourceRevision: string, postgresSha: string, redisSha: string, seedSha: string,
        recoveryName: string, recoverySha: string, retentionName: string, retentionSha: string,
        repositoryId: string, seedSnapshotId: string, seedBackupSet: string,
        caddyChanged: string, dnsChanged: string, at: Stamp)
    | ArmedProof(session: Session, finalSha: string, target: TargetState, at: Stamp)
    | ConsumedProof(session: Session, finalSha: string, target: TargetState, at: Stamp)
    | RecoveryProof(
        cutoverId: string, revision: string, version: string, finalSha: string, target: TargetState,
        armedSha: string, consumedSha: Option<string>, reconciled: bool, at: Stamp)
    | IngressState(
        cutoverId: string, revision: string, version: string, finalSha: string,
        sourceRevision: string, ingress: IngressStatus, at: Stamp)
    | Drill(fields: map<string, string>)

  datatype Marker =
    | InProgressMark
    | PostgresMark
    | RedisMark
    | SeedMark
    | FinalMark
    | ArmedMark
    | ConsumedMark
    | RecoveryMark
    | IngressMark

  type Store = map<Marker, Evidence>

  /** SHA-256 of a file, as a function of the fields that determine its bytes. */
  type Sha = Evidence -> string

  /** The recovery-drill directory: file name to fields.  Other tools write it. */
  type Drills = map<string, map<string, string>>

  function Field(fields: map<string, string>, name: string): Option<string> {
    if name in fields then Some(fields[name]) else None
  }

  datatype FileOp = Write(marker: Marker, evidence: Evidence) | Unlink(marker: Marker)

  function Apply(s: Store, op: FileOp): Store {
    match op
    case Write(m, e) => s[m := e]
    case Unlink(m) => s - {m}
  }

  function ApplyAll(s: Store, ops: seq<FileOp>): Store
    decreases |ops|
  {
    if ops == [] then s else ApplyAll(Apply(s, ops[0]), ops[1..])
  }

  lemma {:induction false} ApplyAllAppend(s: Store, first: seq<FileOp>, second: seq<FileOp>)
    ensures ApplyAll(s, first + second) == ApplyAll(ApplyAll(s, first), second)
    decreases |first|
  {
    if first == [] {
      assert first + second == second;
    } else {
      assert (first + second)[1..] == first[1..] + second;
      ApplyAllAppend(Apply(s, first[0]), first[1..], second);
    }
  }
}
