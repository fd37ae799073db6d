/**
 What a crash inside begin-postgres does to the first start of the cutover that follows.
 The fence goes up first and the old first-start markers are removed after the old
 proofs; nothing stops the new session from carrying on with them still on disk.
 */
module InterruptedBegin {
  import opened Patterns
  import opened EvidenceStore
  import opened CutoverPlan
  import opened CutoverRuns
  import opened CutoverInvariant
  import opened CutoverFinality
  import opened FirstStart

  lemma {:induction false} UnlinksRemove(w: World, markers: seq<Marker>, m: Marker)
    ensures m in ObserveAll(w, Unlinks(markers)).files <==> m in w.files && m !in markers
    ensures m in w.files && m !in markers ==> ObserveAll(w, Unlinks(markers)).files[m] == w.files[m]
    decreases |markers|
  {
    if markers == [] {
    } else {
      assert Unlinks(markers)[0] == Unlink(markers[0]);
      assert Unlinks(markers)[1..] == Unlinks(markers[1..]);
      assert m in markers <==> m == markers[0] || m in markers[1..];
      UnlinksRemove(Observe(w, Unlink(markers[0])), markers[1..], m);
    }
  }

  lemma PhaseCommandOps(h: Sha, w: World, a: Action, m: Marker)
    requires PhaseCommand(a.command) && (m == ArmedMark || m == ConsumedMark)
    ensures var ops := PlanOf(h, a.drills, w.files, a.command, a.now).Ops();
            forall i :: 0 <= i < |ops| ==> !Touches(ops[i], m)
  {
  }

  lemma {:induction false} PhaseRunUntouched(h: Sha, w: World, actions: seq<Action>, m: Marker)
    requires forall i :: 0 <= i < |actions| ==> PhaseCommand(actions[i].command)
    requires m == ArmedMark || m == ConsumedMark
    ensures m in Run(h, w, actions).files <==> m in w.files
    ensures m in w.files ==> Run(h, w, actions).files[m] == w.files[m]
    decreases |actions|
  {
    if actions == [] {
    } else {
      var a := actions[0];
      assert PhaseCommand(a.command);
      PhaseCommandOps(h, w, a, m);
      UntouchedMarker(w, Prefix(PlanOf(h, a.drills, w.files, a.command, a.now).Ops(), a.cut), m);
      PhaseRunUntouched(h, Execute(h, w, a), actions[1..], m);
    }
  }

  /** A begin-postgres that ran to its end leaves the fence and, if any, the ingress state. */
  lemma CompletedBeginClears(h: Sha, w: World, begin: Action, m: Marker)
    requires begin.command.BeginPostgres? && Completes(h, w, begin)
    ensures var s' := Execute(h, w, begin).files;
            m in s' <==> m == InProgressMark || (m == IngressMark && m in w.files)
  {
    var c := CommonFields(begin.command.id).value;
    var fence := Write(InProgressMark, Progress(c, PostgresInProgress, begin.now));
    FenceOperations(w, fence, CLEARED_BY_BEGIN, begin.cut);
    UnlinksRemove(Observe(w, fence), CLEARED_BY_BEGIN, m);
    EveryOldMarkerCleared(m);
  }

  lemma EveryOldMarkerCleared(m: Marker)
    ensures m in CLEARED_BY_BEGIN <==> m != InProgressMark && m != IngressMark
  {
    assert CLEARED_BY_BEGIN[0] == FinalMark && CLEARED_BY_BEGIN[1] == PostgresMark;
    assert CLEARED_BY_BEGIN[2] == RedisMark && CLEARED_BY_BEGIN[3] == SeedMark;
    assert CLEARED_BY_BEGIN[4] == ArmedMark && CLEARED_BY_BEGIN[5] == ConsumedMark;
    assert CLEARED_BY_BEGIN[6] == RecoveryMark;
  }

  /** A marker left by a first start of some other session. */
  predicate ForeignMarkers(s: Store, c: Session) {
    && (ArmedMark in s ==> s[ArmedMark].ArmedProof? && s[ArmedMark].session != c)
    && (ConsumedMark in s ==> s[ConsumedMark].ConsumedProof? && s[ConsumedMark].session != c)
  }

  /** The markers that the first `cut` operations of begin-postgres remove. */
  function RemovedBy(cut: nat): seq<Marker>
    requires 1 <= cut
  {
    if cut <= 7 then CLEARED_BY_BEGIN[..cut - 1] else CLEARED_BY_BEGIN
  }

  lemma RemovedSoFar(cut: nat)
    requires 1 <= cut
    ensures InProgressMark !in RemovedBy(cut)
    ensures ArmedMark in RemovedBy(cut) <==> 6 <= cut
    ensures ConsumedMark in RemovedBy(cut) <==> 7 <= cut
  {
    var removed := RemovedBy(cut);
    if 6 <= cut {
      assert removed[4] == ArmedMark;
    }
    if 7 <= cut {
      assert removed[5] == ConsumedMark;
    }
  }

  function FenceOf(begin: Action): FileOp
    requires begin.command.BeginPostgres? && CommonFields(begin.command.id).Some?
  {
    Write(InProgressMark, Progress(CommonFields(begin.command.id).value, PostgresInProgress, begin.now))
  }

  lemma BeginWorld(h: Sha, w: World, begin: Action)
    requires InProgressMark !in w.files
    requires begin.command.BeginPostgres? && CommonFields(begin.command.id).Some? && 1 <= begin.cut
    ensures Execute(h, w, begin) == ObserveAll(Observe(w, FenceOf(begin)), Unlinks(RemovedBy(begin.cut)))
  {
    var fence := FenceOf(begin);
    assert PlanOf(h, begin.drills, w.files, begin.command, begin.now).Ops() == [fence] + Unlinks(CLEARED_BY_BEGIN);
    FenceOperations(w, fence, CLEARED_BY_BEGIN, begin.cut);
  }

  /** The world after the first `cut` operations of begin-postgres. */
  lemma BeginPrefix(h: Sha, w: World, begin: Action)
    requires InProgressMark !in w.files
    requires begin.command.BeginPostgres? && CommonFields(begin.command.id).Some? && 1 <= begin.cut
    ensures var s' := Execute(h, w, begin).files;
            && HasProgress(s', CommonFields(begin.command.id).value, PostgresInProgress)
            && (ArmedMark in s' <==> ArmedMark in w.files && begin.cut < 6)
            && (ArmedMark in s' ==> s'[ArmedMark] == w.files[ArmedMark])
            && (ConsumedMark in s' <==> ConsumedMark in w.files && begin.cut < 7)
            && (ConsumedMark in s' ==> s'[ConsumedMark] == w.files[ConsumedMark])
  {
    var fenced, removed := Observe(w, FenceOf(begin)), RemovedBy(begin.cut);
    BeginWorld(h, w, begin);
    UnlinksRemove(fenced, removed, InProgressMark);
    UnlinksRemove(fenced, removed, ArmedMark);
    UnlinksRemove(fenced, removed, ConsumedMark);
    RemovedSoFar(begin.cut);
  }

  // ---- a marker of another session ---------------------------------------------------

  predicate StartMarker(m: Marker) {
    m == ArmedMark || m == ConsumedMark
  }

  /** A first-start marker on disk that names another session. */
  predicate Foreign(s: Store, c: Session, m: Marker) {
    && StartMarker(m) && m in s
    && (s[m].ArmedProof? || s[m].ConsumedProof?) && s[m].session != c
  }

  /** An accepted final proof is of the session begun last. */
  lemma FinalOfBegun(h: Sha, w: World, drills: Drills, revision: string)
    requires PhaseInvariant(h, w) && FinalValid(h, drills, w.files, revision)
    ensures w.begun == Some(w.files[FinalMark].session)
  {
  }

  /** While another session's marker is there, no first-start command does anything. */
  lemma ForeignBlocksFirstStart(h: Sha, w: World, c: Session, m: Marker, a: Action)
    requires PhaseInvariant(h, w) && w.begun == Some(c) && Foreign(w.files, c, m)
    requires FirstStartCommand(a.command)
    ensures PlanOf(h, a.drills, w.files, a.command, a.now).Ops() == []
  {
    if FinalValid(h, a.drills, w.files, a.command.revision) {
      FinalOfBegun(h, w, a.drills, a.command.revision);
    }
  }

  lemma BegunIsKept(h: Sha, w: World, a: Action)
    requires !a.command.BeginPostgres?
    ensures Execute(h, w, a).begun == w.begun
  {
    var ops := PlanOf(h, a.drills, w.files, a.command, a.now).Ops();
    if FirstStartCommand(a.command) || IngressOrGate(a.command) {
      OuterCommandOps(h, w, a);
      OuterKeepsCore(w, Prefix(ops, a.cut));
    } else {
      assert forall i :: 0 <= i < |ops| ==> BeginsNothing(ops[i]);
      NothingBegun(w, Prefix(ops, a.cut));
    }
  }

  predicate BeginsNothing(op: FileOp) {
    op.Write? && op.evidence.Progress? ==> op.evidence.phase != PostgresInProgress
  }

  lemma {:induction false} NothingBegun(w: World, ops: seq<FileOp>)
    requires forall i :: 0 <= i < |ops| ==> BeginsNothing(ops[i])
    ensures ObserveAll(w, ops).begun == w.begun
    decreases |ops|
  {
    if ops == [] {
    } else {
      assert BeginsNothing(ops[0]);
      NothingBegun(Observe(w, ops[0]), ops[1..]);
    }
  }

  /** Without a new cutover another session's marker stays where it is. */
  lemma ForeignStep(h: Sha, w: World, c: Session, m: Marker, a: Action)
    requires PrintsSha256(h) && PhaseInvariant(h, w) && w.begun == Some(c) && Foreign(w.files, c, m)
    requires !a.command.BeginPostgres?
    ensures var w' := Execute(h, w, a);
            PhaseInvariant(h, w') && w'.begun == Some(c) && Foreign(w'.files, c, m)
  {
    var ops := PlanOf(h, a.drills, w.files, a.command, a.now).Ops();
    StepKeepsPhase(h, w, a);
    BegunIsKept(h, w, a);
    if FirstStartCommand(a.command) {
      ForeignBlocksFirstStart(h, w, c, m, a);
    } else if IngressOrGate(a.command) {
      IngressCommandOps(h, w, a);
    } else {
      PhaseCommandOps(h, w, a, m);
    }
    UntouchedMarker(w, Prefix(ops, a.cut), m);
  }

  /** Whatever follows without a new cutover, another session's marker blocks the first start. */
  lemma {:induction false} ForeignMarkerBlocks(
      h: Sha, w: World, c: Session, m: Marker, actions: seq<Action>, drills: Drills, revision: string)
    requires PrintsSha256(h) && PhaseInvariant(h, w) && w.begun == Some(c) && Foreign(w.files, c, m)
    requires NoNewCutover(actions)
    ensures !Consumed(h, drills, Run(h, w, actions).files, revision)
    decreases |actions|
  {
    if actions == [] {
      if FinalValid(h, drills, w.files, revision) {
        FinalOfBegun(h, w, drills, revision);
      }
    } else {
      ForeignStep(h, w, c, m, actions[0]);
      ForeignMarkerBlocks(h, Execute(h, w, actions[0]), c, m, actions[1..], drills, revision);
    }
  }

  // ---- the crash ------------------------------------------------------------------------

  /** After begin-postgres stopped at any of its operations, the session still finalizes. */
  lemma CrashedBeginFinalizes(h: Sha, w: World, o: Operator, begin: Action) returns (actions: seq<Action>)
    requires PrintsSha256(h) && PhaseInvariant(h, w) && InProgressMark !in w.files
    requires begin.command.BeginPostgres? && CommonFields(begin.command.id).Some? && 1 <= begin.cut
    requires ValidOperator(o) && DrillsFor(o, o.snapshotId, o.backupSet, o.repositoryId)
    ensures AllComplete(h, Execute(h, w, begin), actions) && NoNewCutover(actions)
    ensures var s' := Run(h, Execute(h, w, begin), actions).files;
            && FinalValid(h, o.drills, s', begin.command.id.revision)
            && (ArmedMark in s' <==> ArmedMark in w.files && begin.cut < 6)
            && (ConsumedMark in s' <==> ConsumedMark in w.files && begin.cut < 7)
  {
    var started := Execute(h, w, begin);
    BeginPrefix(h, w, begin);
    StepKeepsPhase(h, w, begin);
    actions := NoStrandedSession(h, started, o);
    PhaseRunUntouched(h, started, actions, ArmedMark);
    PhaseRunUntouched(h, started, actions, ConsumedMark);
  }

  /** The crash came after the removal of every first-start marker that was there. */
  predicate MarkersRemoved(s: Store, cut: nat) {
    (ArmedMark in s ==> 6 <= cut) && (ConsumedMark in s ==> 7 <= cut)
  }

  lemma RemovedMeansConsumable(h: Sha, w: World, o: Operator, begin: Action)
    requires PrintsSha256(h) && PhaseInvariant(h, w) && InProgressMark !in w.files
    requires begin.command.BeginPostgres? && CommonFields(begin.command.id).Some? && 1 <= begin.cut
    requires ValidOperator(o) && DrillsFor(o, o.snapshotId, o.backupSet, o.repositoryId)
    requires MarkersRemoved(w.files, begin.cut)
    ensures CanConsume(h, Execute(h, w, begin), o.drills, begin.command.id.revision)
  {
    var started, revision := Execute(h, w, begin), begin.command.id.revision;
    var finish := CrashedBeginFinalizes(h, w, o, begin);
    var final := Run(h, started, finish);
    FinishingConsumes(h, final, revision, 0, o.drills);
    var consume := FinishFirstStart(final.files, revision, 0, o.drills);
    RunAppend(h, started, finish, consume);
    assert NoNewCutover(finish + consume);
  }

  lemma LeftMarkerBlocks(h: Sha, w: World, begin: Action, drills: Drills, revision: string)
    requires PrintsSha256(h) && PhaseInvariant(h, w) && InProgressMark !in w.files
    requires begin.command.BeginPostgres? && CommonFields(begin.command.id).Some? && 1 <= begin.cut
    requires ForeignMarkers(w.files, CommonFields(begin.command.id).value)
    requires !MarkersRemoved(w.files, begin.cut)
    ensures !CanConsume(h, Execute(h, w, begin), drills, revision)
  {
    var c := CommonFields(begin.command.id).value;
    var started := Execute(h, w, begin);
    BeginPrefix(h, w, begin);
    StepKeepsPhase(h, w, begin);
    var m := if ArmedMark in started.files then ArmedMark else ConsumedMark;
    forall actions | NoNewCutover(actions)
      ensures !Consumed(h, drills, Run(h, started, actions).files, revision)
    {
      ForeignMarkerBlocks(h, started, c, m, actions, drills, revision);
    }
  }

  /**
   After begin-postgres stopped at any of its operations, the first start of the new
   session can be consumed without another new cutover if and only if the crash came after
   the removal of every first-start marker that an earlier session had left.  Otherwise no
   run, no drill evidence and no revision consumes it.
   */
  lemma BeginCrashAndFirstStart(h: Sha, w: World, o: Operator, begin: Action)
    requires PrintsSha256(h) && PhaseInvariant(h, w) && InProgressMark !in w.files
    requires begin.command.BeginPostgres? && CommonFields(begin.command.id).Some? && 1 <= begin.cut
    requires ForeignMarkers(w.files, CommonFields(begin.command.id).value)
    requires ValidOperator(o) && DrillsFor(o, o.snapshotId, o.backupSet, o.repositoryId)
    ensures CanConsume(h, Execute(h, w, begin), o.drills, begin.command.id.revision) <==>
            MarkersRemoved(w.files, begin.cut)
    ensures (exists drills, revision :: CanConsume(h, Execute(h, w, begin), drills, revision)) <==>
            MarkersRemoved(w.files, begin.cut)
  {
    if MarkersRemoved(w.files, begin.cut) {
      RemovedMeansConsumable(h, w, o, begin);
    } else {
      forall drills, revision
        ensures !CanConsume(h, Execute(h, w, begin), drills, revision)
      {
        LeftMarkerBlocks(h, w, begin, drills, revision);
      }
    }
  }
}
