/**
 The cutover commands as they run: guards, then file operations one at a time.  The
 journal lists the operations performed so far, so a crash at any point leaves the files
 of some prefix of the plan.
 */
module EvidenceCommands {
  import opened Patterns
  import opened EvidenceStore
  import opened CutoverPlan

  class EvidenceRoot {
    var files: Store
    ghost var journal: seq<FileOp>

    constructor ()
      ensures files == map[] && journal == []
    {
      files, journal := map[], [];
    }

    /** Since the given state the root performed exactly these operations. */
    twostate predicate Performed(ops: seq<FileOp>)
      reads this
    {
      files == ApplyAll(old(files), ops) && journal == old(journal) + ops
    }

    method AtomicWrite(marker: Marker, evidence: Evidence)
      modifies this
      ensures Performed([Write(marker, evidence)])
      ensures files == old(files)[marker := evidence]
    {
      files := files[marker := evidence];
      journal := journal + [Write(marker, evidence)];
      assert ApplyAll(old(files), [Write(marker, evidence)]) == ApplyAll(old(files)[marker := evidence], []);
    }

    method RemoveFile(marker: Marker)
      modifies this
      ensures Performed([Unlink(marker)])
      ensures files == old(files) - {marker}
    {
      files := files - {marker};
      journal := journal + [Unlink(marker)];
      assert ApplyAll(old(files), [Unlink(marker)]) == ApplyAll(old(files) - {marker}, []);
    }

    /** Writes the first record and then the second. */
    method WriteBoth(first: Marker, firstEvidence: Evidence, second: Marker, secondEvidence: Evidence)
      modifies this
      ensures Performed([Write(first, firstEvidence), Write(second, secondEvidence)])
    {
      AtomicWrite(first, firstEvidence);
      ghost var middle := files;
      AtomicWrite(second, secondEvidence);
      ghost var one, two := [Write(first, firstEvidence)], [Write(second, secondEvidence)];
      ApplyAllAppend(old(files), one, two);
      assert one + two == [Write(first, firstEvidence), Write(second, secondEvidence)];
    }

    /** Publishes a proof and only then removes the fence that hid it. */
    method WriteThenRemove(marker: Marker, evidence: Evidence, fence: Marker)
      modifies this
      ensures Performed([Write(marker, evidence), Unlink(fence)])
    {
      AtomicWrite(marker, evidence);
      RemoveFile(fence);
      ghost var one, two := [Write(marker, evidence)], [Unlink(fence)];
      ApplyAllAppend(old(files), one, two);
      assert one + two == [Write(marker, evidence), Unlink(fence)];
    }

    method RemoveAll(markers: seq<Marker>)
      modifies this
      ensures Performed(Unlinks(markers))
    {
      var i := 0;
      while i < |markers|
        invariant 0 <= i <= |markers|
        invariant Performed(Unlinks(markers)[..i])
      {
        ghost var done := Unlinks(markers)[..i];
        RemoveFile(markers[i]);
        ApplyAllAppend(old(files), done, [Unlink(markers[i])]);
        assert done + [Unlink(markers[i])] == Unlinks(markers)[..i + 1];
        i := i + 1;
      }
      assert Unlinks(markers)[..i] == Unlinks(markers);
    }

    /** Raises the fence of a new phase before the files it outdates are removed. */
    method FenceThenRemove(evidence: Evidence, markers: seq<Marker>)
      modifies this
      ensures Performed([Write(InProgressMark, evidence)] + Unlinks(markers))
    {
      AtomicWrite(InProgressMark, evidence);
      RemoveAll(markers);
      ApplyAllAppend(old(files), [Write(InProgressMark, evidence)], Unlinks(markers));
    }

    method BeginPostgresCommand(id: Identity, now: Stamp) returns (ok: bool)
      modifies this
      ensures ok == PlanBeginPostgres(old(files), id, now).Perform?
      ensures Performed(PlanBeginPostgres(old(files), id, now).Ops())
    {
      var common := CommonFields(id);
      if common.None? || InProgressMark in files {
        return false;
      }
      FenceThenRemove(Progress(common.value, PostgresInProgress, now), CLEARED_BY_BEGIN);
      return true;
    }

    method WritePostgresCommand(id: Identity, a: PostgresArgs, now: Stamp) returns (ok: bool)
      modifies this
      ensures ok == PlanWritePostgres(old(files), id, a, now).Perform?
      ensures Performed(PlanWritePostgres(old(files), id, a, now).Ops())
    {
      var common := CommonFields(id);
      if common.None? || !ValidPostgresArgs(a) || !HasProgress(files, common.value, PostgresInProgress) {
        return false;
      }
      var c := common.value;
      WriteBoth(PostgresMark, NewPostgresProof(c, a, now), InProgressMark, Progress(c, PostgresVerified, now));
      return true;
    }

    method BeginRedisCommand(id: Identity, now: Stamp) returns (ok: bool)
      modifies this
      ensures ok == PlanBeginRedis(old(files), id, now).Perform?
      ensures Performed(PlanBeginRedis(old(files), id, now).Ops())
    {
      var common := CommonFields(id);
      if common.None? || !HasProgress(files, common.value, PostgresVerified)
         || !PostgresMatches(files, common.value)
      {
        return false;
      }
      FenceThenRemove(Progress(common.value, RedisInProgress, now), CLEARED_BY_REDIS);
      return true;
    }

    method WriteRedisCommand(id: Identity, a: RedisArgs, now: Stamp) returns (ok: bool)
      modifies this
      ensures ok == PlanWriteRedis(old(files), id, a, now).Perform?
      ensures Performed(PlanWriteRedis(old(files), id, a, now).Ops())
    {
      var common := CommonFields(id);
      if common.None? || !ValidRedisArgs(a) || !HasProgress(files, common.value, RedisInProgress) {
        return false;
      }
      var c := common.value;
      if !PostgresMatches(files, c) || files[PostgresMark].workerStop != a.workerStop {
        return false;
      }
      WriteBoth(RedisMark, NewRedisProof(c, a, now), InProgressMark, Progress(c, RedisVerified, now));
      return true;
    }

    method WriteSeedCommand(h: Sha, id: Identity, a: SeedArgs, now: Stamp) returns (ok: bool)
      modifies this
      ensures ok == PlanWriteSeed(h, old(files), id, a, now).Perform?
      ensures Performed(PlanWriteSeed(h, old(files), id, a, now).Ops())
    {
      var common := CommonFields(id);
      if !ValidSeedArgs(a) || common.None? {
        return false;
      }
      var c := common.value;
      if !SeedReady(files, c, a.workerStop, a.target.redisManifest)
         || a.contract != files[PostgresMark].contract
         || a.target.postgres != files[PostgresMark].postgres
      {
        return false;
      }
      WriteBoth(SeedMark, NewSeedProof(h, files, c, a, now), InProgressMark, Progress(c, SeedVerified, now));
      return true;
    }

    method FinalizeCommand(h: Sha, drills: Drills, id: Identity, a: FinalArgs, now: Stamp) returns (ok: bool)
      modifies this
      ensures ok == PlanFinalize(h, drills, old(files), id, a, now).Perform?
      ensures Performed(PlanFinalize(h, drills, old(files), id, a, now).Ops())
    {
      var common := CommonFields(id);
      if common.None? || !FinalReady(h, drills, files, common.value, a) {
        return false;
      }
      WriteThenRemove(FinalMark, NewFinalProof(h, files, common.value, a, now), InProgressMark);
      return true;
    }

    method FirstStartStatusCommand(h: Sha, drills: Drills, revision: string) returns (ok: bool, reply: Reply)
      ensures ok == PlanFirstStartStatus(h, drills, files, revision).Perform?
      ensures ok ==> PlanFirstStartStatus(h, drills, files, revision) == Perform([], reply)
    {
      reply := Silent;
      if !FinalValid(h, drills, files, revision) || ArmedMark in files {
        return false, reply;
      }
      if ConsumedMark in files {
        return ConsumedValid(h, files), FirstStartConsumed;
      }
      return true, FirstStartRequired;
    }

    method ArmFirstStartCommand(h: Sha, drills: Drills, revision: string, target: TargetState, now: Stamp)
      returns (ok: bool, reply: Reply)
      modifies this
      ensures ok == PlanArm(h, drills, old(files), revision, target, now).Perform?
      ensures ok ==> reply == PlanArm(h, drills, old(files), revision, target, now).reply
      ensures Performed(PlanArm(h, drills, old(files), revision, target, now).Ops())
    {
      reply := Silent;
      if !ValidTargetState(target) {
        return false, reply;
      }
      ok, reply := FirstStartStatusCommand(h, drills, revision);
      if !ok || reply == FirstStartConsumed {
        return;
      }
      var f := files[FinalMark];
      if target != f.target {
        return false, Silent;
      }
      AtomicWrite(ArmedMark, ArmedProof(f.session, h(f), target, now));
      reply := FirstStartArmed;
    }

    method CompleteFirstStartCommand(h: Sha, drills: Drills, revision: string, now: Stamp)
      returns (ok: bool)
      modifies this
      ensures ok == PlanComplete(h, drills, old(files), revision, now).Perform?
      ensures Performed(PlanComplete(h, drills, old(files), revision, now).Ops())
    {
      if !FinalValid(h, drills, files, revision) {
        return false;
      }
      if ConsumedMark in files {
        return ArmedMark !in files && ConsumedValid(h, files);
      }
      if !ArmedValid(h, files) {
        return false;
      }
      var f := files[FinalMark];
      WriteThenRemove(ConsumedMark, ConsumedProof(f.session, h(f), f.target, now), ArmedMark);
      return true;
    }

    method RecoverFirstStartCommand(h: Sha, drills: Drills, revision: string, target: TargetState, now: Stamp)
      returns (ok: bool, reply: Reply)
      modifies this
      ensures ok == PlanRecover(h, drills, old(files), revision, target, now).Perform?
      ensures ok ==> reply == PlanRecover(h, drills, old(files), revision, target, now).reply
      ensures Performed(PlanRecover(h, drills, old(files), revision, target, now).Ops())
    {
      reply := RecoveredForRetry;
      if !ValidTargetState(target) || !FinalValid(h, drills, files, revision) || !ArmedValid(h, files) {
        return false, reply;
      }
      var f := files[FinalMark];
      if target != f.target {
        return false, reply;
      }
      var consumedSha: Option<string> := None;
      if ConsumedMark in files {
        if !ConsumedValid(h, files) {
          return false, reply;
        }
        reply := ConsumedReconciled;
        consumedSha := Some(h(files[ConsumedMark]));
      }
      WriteThenRemove(
        RecoveryMark,
        RecoveryProof(f.session.cutoverId, f.session.revision, VERSION, h(f), target,
                      h(files[ArmedMark]), consumedSha, reply == ConsumedReconciled, now),
        ArmedMark);
      ok := true;
    }

    method EnsureIngressFreezeCommand(h: Sha, drills: Drills, revision: string, now: Stamp)
      returns (ok: bool, status: IngressStatus)
      modifies this
      ensures ok == PlanEnsureFreeze(h, drills, old(files), revision, now).Perform?
      ensures ok ==> PlanEnsureFreeze(h, drills, old(files), revision, now).reply == Ingress(status)
      ensures Performed(PlanEnsureFreeze(h, drills, old(files), revision, now).Ops())
      ensures ok ==> IngressValid(h, drills, files, revision) && files[IngressMark].ingress == status
    {
      status := Required;
      if IngressMark in files {
        if !IngressValid(h, drills, files, revision) {
          return false, status;
        }
        return true, files[IngressMark].ingress;
      }
      if !FinalValid(h, drills, files, revision) {
        return false, status;
      }
      AtomicWrite(IngressMark, NewIngressState(h, files, files[FinalMark].sourceRevision, Required, now));
      ok := true;
    }

    method BeginIngressHandoffCommand(h: Sha, drills: Drills, revision: string, now: Stamp) returns (ok: bool)
      modifies this
      ensures ok == PlanBeginHandoff(h, drills, old(files), revision, now).Perform?
      ensures Performed(PlanBeginHandoff(h, drills, old(files), revision, now).Ops())
    {
      var current;
      ok, current := EnsureIngressFreezeCommand(h, drills, revision, now);
      if !ok || current == HandoffInProgress {
        return;
      }
      ghost var freeze := PlanEnsureFreeze(h, drills, old(files), revision, now).Ops();
      if current != Required && current != RenderRestored {
        return false;
      }
      var handoff := NewIngressState(h, files, files[FinalMark].sourceRevision, HandoffInProgress, now);
      AtomicWrite(IngressMark, handoff);
      ApplyAllAppend(old(files), freeze, [Write(IngressMark, handoff)]);
    }

    method TransitionIngressCommand(h: Sha, drills: Drills, revision: string, action: IngressAction, now: Stamp)
      returns (ok: bool)
      modifies this
      ensures ok == PlanTransition(h, drills, old(files), revision, action, now).Perform?
      ensures Performed(PlanTransition(h, drills, old(files), revision, action, now).Ops())
    {
      if !IngressValid(h, drills, files, revision) {
        return false;
      }
      var current, target := files[IngressMark].ingress, Target(action);
      if current == target {
        return true;
      }
      if !AllowedFrom(action, current) {
        return false;
      }
      AtomicWrite(IngressMark, NewIngressState(h, files, files[IngressMark].sourceRevision, target, now));
      return true;
    }

    /** One read-only gate of the running release. */
    method ReadOnlyGateCommand(h: Sha, drills: Drills, gate: Gate, release: string, now: Stamp)
      returns (ok: bool, reply: Reply)
      modifies this
      ensures ok == PlanGate(h, drills, old(files), gate, release, now).Perform?
      ensures ok ==> reply == PlanGate(h, drills, old(files), gate, release, now).reply
      ensures Performed(PlanGate(h, drills, old(files), gate, release, now).Ops())
    {
      reply := Silent;
      var revision := CutoverRevision(h, drills, files, release);
      if revision.None? {
        return false, reply;
      }
      match gate
      case ValidateFinal =>
        ok := FinalValid(h, drills, files, revision.value);
      case FirstStartStatus =>
        ok, reply := FirstStartStatusCommand(h, drills, revision.value);
      case EnsureIngressFreeze =>
        var status;
        ok, status := EnsureIngressFreezeCommand(h, drills, revision.value, now);
        reply := Ingress(status);
      case IngressStatusGate =>
        ok := IngressValid(h, drills, files, revision.value);
        if ok {
          reply := Ingress(files[IngressMark].ingress);
        }
    }
  }
}
