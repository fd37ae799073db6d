/** The one-time first start over whole runs. */
module FirstStart {
  import opened Patterns
  import opened EvidenceStore
  import opened CutoverPlan
  import opened CutoverRuns
  import opened CutoverInvariant
  import opened CutoverFinality

  /** The marker's digests are those an earlier arming finalized for that final proof. */
  predicate ArmedBefore(h: Sha, a: Arming, finalSha: string, target: TargetState) {
    a.final.FinalProof? && h(a.final) == finalSha && a.target == target
  }

  ghost predicate FirstStartHistory(h: Sha, w: World) {
    && (forall a :: a in w.armed ==> a.final.FinalProof? && a.target == a.final.target)
    && (ArmedMark in w.files ==>
          var m := w.files[ArmedMark];
          m.ArmedProof? && exists a :: a in w.armed && ArmedBefore(h, a, m.finalSha, m.target))
    && (ConsumedMark in w.files ==>
          var m := w.files[ConsumedMark];
          m.ConsumedProof? && exists a :: a in w.armed && ArmedBefore(h, a, m.finalSha, m.target))
  }

  /** The operation creates no first-start marker. */
  predicate CreatesNothing(op: FileOp) {
    op.Unlink? || (op.marker != ArmedMark && op.marker != ConsumedMark)
  }

  lemma {:induction false} CreatesNothingKeepsHistory(h: Sha, w: World, ops: seq<FileOp>)
    requires FirstStartHistory(h, w)
    requires forall i :: 0 <= i < |ops| ==> CreatesNothing(ops[i])
    ensures FirstStartHistory(h, ObserveAll(w, ops))
    decreases |ops|
  {
    if ops == [] {
    } else {
      var next := Observe(w, ops[0]);
      assert CreatesNothing(ops[0]);
      assert next.armed == w.armed;
      CreatesNothingKeepsHistory(h, next, ops[1..]);
    }
  }

  lemma FenceCommandsCreateNothing(h: Sha, w: World, a: Action)
    requires !FirstStartCommand(a.command) && !IngressOrGate(a.command)
    ensures var ops := PlanOf(h, a.drills, w.files, a.command, a.now).Ops();
            forall i :: 0 <= i < |ops| ==> CreatesNothing(ops[i])
  {
  }

  lemma RecoveryCreatesNothing(h: Sha, w: World, a: Action)
    requires a.command.RecoverFirstStart?
    ensures var ops := PlanOf(h, a.drills, w.files, a.command, a.now).Ops();
            forall i :: 0 <= i < |ops| ==> CreatesNothing(ops[i])
  {
  }

  lemma OthersCreateNothing(h: Sha, w: World, a: Action)
    requires !a.command.ArmFirstStart? && !a.command.CompleteFirstStart?
    ensures var ops := PlanOf(h, a.drills, w.files, a.command, a.now).Ops();
            forall i :: 0 <= i < |ops| ==> CreatesNothing(ops[i])
  {
    if IngressOrGate(a.command) {
      IngressCommandOps(h, w, a);
    } else if a.command.RecoverFirstStart? {
      RecoveryCreatesNothing(h, w, a);
    } else {
      FenceCommandsCreateNothing(h, w, a);
    }
  }

  lemma ArmKeepsHistory(h: Sha, w: World, a: Action)
    requires FirstStartHistory(h, w) && a.command.ArmFirstStart?
    ensures FirstStartHistory(h, Execute(h, w, a))
  {
    var plan := PlanOf(h, a.drills, w.files, a.command, a.now);
    if plan.Ops() != [] {
      var op := plan.ops[0];
      assert plan.ops == [op];
      OneOperation(w, op, a.cut);
      var arming := Arming(w.files[FinalMark], op.evidence.target);
      assert ArmedBefore(h, arming, op.evidence.finalSha, op.evidence.target);
      assert arming in Observe(w, op).armed;
    }
  }

  lemma CompleteKeepsHistory(h: Sha, w: World, a: Action)
    requires FirstStartHistory(h, w) && a.command.CompleteFirstStart?
    ensures FirstStartHistory(h, Execute(h, w, a))
  {
    var plan := PlanOf(h, a.drills, w.files, a.command, a.now);
    if plan.Ops() != [] {
      assert plan.ops == [plan.ops[0], plan.ops[1]];
      TwoOperations(w, plan.ops[0], plan.ops[1], a.cut);
    }
  }

  lemma {:induction false} RunKeepsHistory(h: Sha, w: World, actions: seq<Action>)
    requires FirstStartHistory(h, w)
    ensures FirstStartHistory(h, Run(h, w, actions))
    decreases |actions|
  {
    if actions == [] {
    } else {
      var a := actions[0];
      if a.command.ArmFirstStart? {
        ArmKeepsHistory(h, w, a);
      } else if a.command.CompleteFirstStart? {
        CompleteKeepsHistory(h, w, a);
      } else {
        OthersCreateNothing(h, w, a);
        CreatesNothingKeepsHistory(h, w, Prefix(PlanOf(h, a.drills, w.files, a.command, a.now).Ops(), a.cut));
      }
      RunKeepsHistory(h, Execute(h, w, a), actions[1..]);
    }
  }

  predicate Consumed(h: Sha, drills: Drills, s: Store, revision: string) {
    PlanFirstStartStatus(h, drills, s, revision) == Perform([], FirstStartConsumed)
  }

  /**
   The first start is consumed only after it was armed, for a final proof with the hash
   of the one on disk, with exactly the four digests that proof finalizes.
   */
  lemma ConsumedOnlyAfterArming(h: Sha, actions: seq<Action>, drills: Drills, revision: string)
    requires Consumed(h, drills, Run(h, EMPTY_WORLD, actions).files, revision)
    ensures var w := Run(h, EMPTY_WORLD, actions);
            var f := w.files[FinalMark];
            exists a :: a in w.armed && ArmedBefore(h, a, h(f), f.target) && a.final.target == f.target
  {
    RunKeepsHistory(h, EMPTY_WORLD, actions);
    var w := Run(h, EMPTY_WORLD, actions);
    var m := w.files[ConsumedMark];
    var a :| a in w.armed && ArmedBefore(h, a, m.finalSha, m.target);
    assert ArmedBefore(h, a, h(w.files[FinalMark]), w.files[FinalMark].target);
  }

  // ---- without a new cutover ---------------------------------------------------------

  /** No command but begin-postgres touches the cutover proofs once the fence is gone. */
  lemma CoreIsFrozen(h: Sha, w: World, a: Action)
    requires InProgressMark !in w.files && !a.command.BeginPostgres?
    ensures Core(Execute(h, w, a).files) == Core(w.files)
  {
    var ops := PlanOf(h, a.drills, w.files, a.command, a.now).Ops();
    if FirstStartCommand(a.command) || IngressOrGate(a.command) {
      OuterCommandOps(h, w, a);
      OuterKeepsCore(w, Prefix(ops, a.cut));
    } else {
      FenceCommandsRefused(h, w, a);
      assert Prefix(ops, a.cut) == [];
    }
  }

  lemma FenceCommandsRefused(h: Sha, w: World, a: Action)
    requires InProgressMark !in w.files
    requires !a.command.BeginPostgres? && !FirstStartCommand(a.command) && !IngressOrGate(a.command)
    ensures PlanOf(h, a.drills, w.files, a.command, a.now) == Refused
  {
  }

  lemma CoreDecidesFinal(h: Sha, drills: Drills, s: Store, s': Store, revision: string)
    requires Core(s) == Core(s')
    ensures SameCore(s, s')
    ensures FinalMark in s <==> FinalMark in s'
    ensures FinalMark in s ==> s[FinalMark] == s'[FinalMark]
    ensures FinalValid(h, drills, s, revision) == FinalValid(h, drills, s', revision)
  {
    CoreIsSame(s, s');
    CoreMarkers();
  }

  predicate Touches(op: FileOp, m: Marker) {
    op.marker == m
  }

  lemma {:induction false} UntouchedMarker(w: World, ops: seq<FileOp>, m: Marker)
    requires forall i :: 0 <= i < |ops| ==> !Touches(ops[i], m)
    ensures m in ObserveAll(w, ops).files <==> m in w.files
    ensures m in w.files ==> ObserveAll(w, ops).files[m] == w.files[m]
    decreases |ops|
  {
    if ops == [] {
    } else {
      assert !Touches(ops[0], m);
      UntouchedMarker(Observe(w, ops[0]), ops[1..], m);
    }
  }

  lemma OthersTouchNoStartMarker(h: Sha, w: World, a: Action)
    requires InProgressMark !in w.files && !a.command.BeginPostgres?
    requires !a.command.ArmFirstStart? && !a.command.CompleteFirstStart? && !a.command.RecoverFirstStart?
    ensures var ops := PlanOf(h, a.drills, w.files, a.command, a.now).Ops();
            forall i :: 0 <= i < |ops| ==> !Touches(ops[i], ArmedMark) && !Touches(ops[i], ConsumedMark)
  {
    if IngressOrGate(a.command) {
      IngressCommandOps(h, w, a);
    } else {
      FenceCommandsRefused(h, w, a);
    }
  }

  /** The audit record of a recovery binds the final proof and both markers as they were. */
  predicate RecoveryRecorded(h: Sha, s: Store, s': Store)
    requires FinalMark in s && ArmedMark in s
  {
    && RecoveryMark in s' && s'[RecoveryMark].RecoveryProof?
    && (var r := s'[RecoveryMark];
        && r.finalSha == h(s[FinalMark]) && r.armedSha == h(s[ArmedMark])
        && r.consumedSha == (if ConsumedMark in s then Some(h(s[ConsumedMark])) else None)
        && (r.reconciled <==> ConsumedMark in s)
        && s[FinalMark].FinalProof? && r.target == s[FinalMark].target)
  }

  /**
   What a command, cut off anywhere, does to the first-start markers once the fence is
   gone: the consumed proof is never removed and appears only from a valid armed marker,
   and a valid armed marker goes only in favour of the consumed proof or by recovery,
   which has left its audit record by then.
   */
  predicate FirstStartMove(h: Sha, s: Store, s': Store, command: Command) {
    && (ConsumedMark in s ==> ConsumedMark in s' && s'[ConsumedMark] == s[ConsumedMark])
    && (ArmedMark in s && ArmedMark in s' ==> s'[ArmedMark] == s[ArmedMark])
    && (ConsumedMark in s' && ConsumedMark !in s ==>
          && FinalMark in s && s[FinalMark].FinalProof? && ArmedValid(h, s)
          && FinalMark in s' && s'[FinalMark].FinalProof? && ConsumedValid(h, s'))
    && (ArmedMark in s && ArmedMark !in s' ==>
          && FinalMark in s && s[FinalMark].FinalProof? && ArmedValid(h, s)
          && (ConsumedMark in s ==> ConsumedValid(h, s))
          && if command.RecoverFirstStart? then RecoveryRecorded(h, s, s') else ConsumedMark in s')
  }

  lemma ArmMove(h: Sha, w: World, a: Action)
    requires a.command.ArmFirstStart?
    ensures FirstStartMove(h, w.files, Execute(h, w, a).files, a.command)
  {
    var ops := PlanOf(h, a.drills, w.files, a.command, a.now).Ops();
    if ops == [] {
      assert Prefix(ops, a.cut) == [];
    } else {
      assert ops == [ops[0]];
      OneOperation(w, ops[0], a.cut);
    }
  }

  lemma CompleteMove(h: Sha, w: World, a: Action)
    requires a.command.CompleteFirstStart?
    ensures FirstStartMove(h, w.files, Execute(h, w, a).files, a.command)
  {
    var ops := PlanOf(h, a.drills, w.files, a.command, a.now).Ops();
    if ops == [] {
      assert Prefix(ops, a.cut) == [];
    } else {
      assert ops == [ops[0], ops[1]];
      TwoOperations(w, ops[0], ops[1], a.cut);
    }
  }

  lemma RecoverMove(h: Sha, w: World, a: Action)
    requires a.command.RecoverFirstStart?
    ensures FirstStartMove(h, w.files, Execute(h, w, a).files, a.command)
  {
    var ops := PlanOf(h, a.drills, w.files, a.command, a.now).Ops();
    if ops == [] {
      assert Prefix(ops, a.cut) == [];
    } else {
      assert ops == [ops[0], ops[1]];
      TwoOperations(w, ops[0], ops[1], a.cut);
    }
  }

  lemma FirstStartStep(h: Sha, w: World, a: Action)
    requires InProgressMark !in w.files && !a.command.BeginPostgres?
    ensures FirstStartMove(h, w.files, Execute(h, w, a).files, a.command)
  {
    match a.command
    case ArmFirstStart(_, _) => ArmMove(h, w, a);
    case CompleteFirstStart(_) => CompleteMove(h, w, a);
    case RecoverFirstStart(_, _) => RecoverMove(h, w, a);
    case _ =>
      var ops := Prefix(PlanOf(h, a.drills, w.files, a.command, a.now).Ops(), a.cut);
      OthersTouchNoStartMarker(h, w, a);
      UntouchedMarker(w, ops, ArmedMark);
      UntouchedMarker(w, ops, ConsumedMark);
  }

  /** With the first start consumed, only ingress commands still write anything. */
  lemma ConsumedCommandOps(h: Sha, w: World, a: Action, drills: Drills, revision: string)
    requires Consumed(h, drills, w.files, revision) && !a.command.BeginPostgres?
    ensures var ops := PlanOf(h, a.drills, w.files, a.command, a.now).Ops();
            forall i :: 0 <= i < |ops| ==> Touches(ops[i], IngressMark)
  {
  }

  /** Never lost: only a new cutover ends the consumed state of a valid final proof. */
  lemma ConsumedIsKept(h: Sha, w: World, a: Action, drills: Drills, revision: string)
    requires Consumed(h, drills, w.files, revision) && !a.command.BeginPostgres?
    ensures Consumed(h, drills, Execute(h, w, a).files, revision)
  {
    ConsumedCommandOps(h, w, a, drills, revision);
    CoreIsFrozen(h, w, a);
    CoreDecidesFinal(h, drills, w.files, Execute(h, w, a).files, revision);
    var ops := Prefix(PlanOf(h, a.drills, w.files, a.command, a.now).Ops(), a.cut);
    assert forall i :: 0 <= i < |ops| ==> Touches(ops[i], IngressMark);
    UntouchedMarker(w, ops, ArmedMark);
    UntouchedMarker(w, ops, ConsumedMark);
    assert !Outer(FinalMark);
  }

  /** Never lost: whatever commands follow and wherever they crash, it stays consumed. */
  lemma {:induction false} RunKeepsConsumed(h: Sha, w: World, actions: seq<Action>, drills: Drills, revision: string)
    requires Consumed(h, drills, w.files, revision) && NoNewCutover(actions)
    ensures Consumed(h, drills, Run(h, w, actions).files, revision)
    decreases |actions|
  {
    if actions == [] {
    } else {
      ConsumedIsKept(h, w, actions[0], drills, revision);
      RunKeepsConsumed(h, Execute(h, w, actions[0]), actions[1..], drills, revision);
    }
  }

  /** The only operation that arming with the finalized digests may perform. */
  function ArmingOf(h: Sha, s: Store, now: Stamp): Plan
    requires FinalMark in s && s[FinalMark].FinalProof?
  {
    var f := s[FinalMark];
    Perform([Write(ArmedMark, ArmedProof(f.session, h(f), f.target, now))], FirstStartArmed)
  }

  predicate ReportsStatus(h: Sha, drills: Drills, s: Store, revision: string, reply: Reply) {
    PlanFirstStartStatus(h, drills, s, revision) == Perform([], reply)
  }

  /**
   What a status of a finalized cutover tells a caller about the commands.  It is required
   exactly when arming with the finalized digests would arm, and consumed exactly when
   arming and completing would each reply so and write nothing.  Recovery is refused under
   both, and completing is refused while the start is required.
   */
  lemma StatusForetells(h: Sha, s: Store, drills: Drills, revision: string, now: Stamp)
    requires FinalValid(h, drills, s, revision)
    ensures var target := s[FinalMark].target;
            var required := ReportsStatus(h, drills, s, revision, FirstStartRequired);
            var consumed := ReportsStatus(h, drills, s, revision, FirstStartConsumed);
            && (required <==> PlanArm(h, drills, s, revision, target, now) == ArmingOf(h, s, now))
            && (consumed <==> PlanArm(h, drills, s, revision, target, now) == Perform([], FirstStartConsumed))
            && (consumed <==> PlanComplete(h, drills, s, revision, now) == Perform([], FirstStartConsumed))
            && (required ==> PlanComplete(h, drills, s, revision, now) == Refused)
            && (required || consumed ==> PlanRecover(h, drills, s, revision, target, now) == Refused)
  {
  }

  /** The first-start markers on disk, if any, belong to the finalized cutover. */
  predicate FirstStartUnspoilt(h: Sha, s: Store)
    requires FinalMark in s && s[FinalMark].FinalProof?
  {
    && (ArmedMark in s ==> ArmedValid(h, s))
    && (ConsumedMark in s ==> ConsumedValid(h, s))
  }

  predicate NoNewCutover(actions: seq<Action>) {
    forall i :: 0 <= i < |actions| ==> !actions[i].command.BeginPostgres?
  }

  lemma {:induction false} SpoiltStaysSpoilt(h: Sha, w: World, actions: seq<Action>, drills: Drills, revision: string)
    requires FinalValid(h, drills, w.files, revision) && !FirstStartUnspoilt(h, w.files)
    requires NoNewCutover(actions)
    ensures FinalValid(h, drills, Run(h, w, actions).files, revision)
    ensures !FirstStartUnspoilt(h, Run(h, w, actions).files)
    decreases |actions|
  {
    if actions == [] {
    } else {
      var a := actions[0];
      var next := Execute(h, w, a);
      CoreIsFrozen(h, w, a);
      CoreDecidesFinal(h, drills, w.files, next.files, revision);
      FirstStartStep(h, w, a);
      assert !Outer(FinalMark);
      SpoiltStaysSpoilt(h, next, actions[1..], drills, revision);
    }
  }

  /** An audit record of a recovery for the finalized cutover. */
  predicate RecoveryOnRecord(h: Sha, s: Store) {
    && FinalMark in s && RecoveryMark in s && s[RecoveryMark].RecoveryProof?
    && s[RecoveryMark].finalSha == h(s[FinalMark])
  }

  lemma RecoveryRecordIsKept(h: Sha, w: World, a: Action)
    requires InProgressMark !in w.files && !a.command.BeginPostgres?
    requires RecoveryOnRecord(h, w.files)
    ensures RecoveryOnRecord(h, Execute(h, w, a).files)
  {
    var ops := PlanOf(h, a.drills, w.files, a.command, a.now).Ops();
    if a.command.RecoverFirstStart? {
      if ops == [] {
        assert Prefix(ops, a.cut) == [];
      } else {
        assert ops == [ops[0], ops[1]];
        TwoOperations(w, ops[0], ops[1], a.cut);
      }
    } else {
      OthersLeaveRecovery(h, w, a);
      UntouchedMarker(w, Prefix(ops, a.cut), RecoveryMark);
      UntouchedMarker(w, Prefix(ops, a.cut), FinalMark);
    }
  }

  lemma OthersLeaveRecovery(h: Sha, w: World, a: Action)
    requires InProgressMark !in w.files && !a.command.BeginPostgres? && !a.command.RecoverFirstStart?
    ensures var ops := PlanOf(h, a.drills, w.files, a.command, a.now).Ops();
            forall i :: 0 <= i < |ops| ==> !Touches(ops[i], RecoveryMark) && !Touches(ops[i], FinalMark)
  {
    if IngressOrGate(a.command) {
      IngressCommandOps(h, w, a);
    } else if !FirstStartCommand(a.command) {
      FenceCommandsRefused(h, w, a);
    }
  }

  /** A first start that was armed has left a trace: a marker, or the record of a recovery. */
  predicate ArmingTraced(h: Sha, s: Store) {
    ArmedMark in s || ConsumedMark in s || RecoveryOnRecord(h, s)
  }

  /**
   Once armed, however commands are cut off, the first start is reported as still required
   only after a recovery whose audit record binds the final proof on disk.
   */
  lemma {:induction false} RequiredOnlyAfterRecovery(
      h: Sha, w: World, actions: seq<Action>, drills: Drills, revision: string)
    requires FinalValid(h, drills, w.files, revision) && ArmingTraced(h, w.files)
    requires NoNewCutover(actions)
    ensures var s := Run(h, w, actions).files;
            && ArmingTraced(h, s)
            && (ReportsStatus(h, drills, s, revision, FirstStartRequired) ==> RecoveryOnRecord(h, s))
    decreases |actions|
  {
    if actions == [] {
    } else {
      var a := actions[0];
      var next := Execute(h, w, a);
      CoreIsFrozen(h, w, a);
      CoreDecidesFinal(h, drills, w.files, next.files, revision);
      FirstStartStep(h, w, a);
      if RecoveryOnRecord(h, w.files) {
        RecoveryRecordIsKept(h, w, a);
      }
      assert !Outer(FinalMark);
      RequiredOnlyAfterRecovery(h, next, actions[1..], drills, revision);
    }
  }

  /** The commands that consume the first start from whatever a crash left. */
  function FinishFirstStart(s: Store, revision: string, now: Stamp, drills: Drills): seq<Action>
    requires FinalMark in s && s[FinalMark].FinalProof?
  {
    var target := s[FinalMark].target;
    var arm := Action(ArmFirstStart(revision, target), now, drills, 2);
    var complete := Action(CompleteFirstStart(revision), now, drills, 2);
    var recover := Action(RecoverFirstStart(revision, target), now, drills, 2);
    if ArmedMark in s && ConsumedMark in s then [recover]
    else if ArmedMark in s then [complete]
    else if ConsumedMark in s then []
    else [arm, complete]
  }

  /** Changing first-start files only leaves the finalized chain accepted. */
  lemma StillFinal(h: Sha, drills: Drills, s: Store, op: FileOp, next: Store, revision: string)
    requires FinalValid(h, drills, s, revision) && OuterOp(op) && next == Apply(s, op)
    ensures FinalValid(h, drills, next, revision) && next[FinalMark] == s[FinalMark]
  {
    assert Core(next) == Core(s);
    CoreDecidesFinal(h, drills, s, next, revision);
  }

  /** A crash after the consumed proof: recovery keeps the proof and ends consumed. */
  lemma RecoveryReconciles(h: Sha, w: World, revision: string, now: Stamp, drills: Drills)
    requires FinalValid(h, drills, w.files, revision)
    requires ArmedMark in w.files && ConsumedMark in w.files && FirstStartUnspoilt(h, w.files)
    ensures var a := Action(RecoverFirstStart(revision, w.files[FinalMark].target), now, drills, 2);
            && Completes(h, w, a)
            && PlanOf(h, drills, w.files, a.command, now).reply == ConsumedReconciled
            && Consumed(h, drills, Execute(h, w, a).files, revision)
  {
    var a := Action(RecoverFirstStart(revision, w.files[FinalMark].target), now, drills, 2);
    var ops := PlanRecover(h, drills, w.files, revision, w.files[FinalMark].target, now).ops;
    assert ops == [ops[0], ops[1]];
    TwoOperations(w, ops[0], ops[1], 2);
    var written := Apply(w.files, ops[0]);
    StillFinal(h, drills, w.files, ops[0], written, revision);
    StillFinal(h, drills, written, ops[1], Apply(written, ops[1]), revision);
  }

  /** A crash before the consumed proof: recovery ends with the start required again, on record. */
  lemma RecoveryRetries(h: Sha, w: World, revision: string, now: Stamp, drills: Drills)
    requires FinalValid(h, drills, w.files, revision)
    requires ConsumedMark !in w.files && ArmedValid(h, w.files)
    ensures var a := Action(RecoverFirstStart(revision, w.files[FinalMark].target), now, drills, 2);
            var s' := Execute(h, w, a).files;
            && Completes(h, w, a)
            && PlanOf(h, drills, w.files, a.command, now).reply == RecoveredForRetry
            && ReportsStatus(h, drills, s', revision, FirstStartRequired) && RecoveryOnRecord(h, s')
  {
    var a := Action(RecoverFirstStart(revision, w.files[FinalMark].target), now, drills, 2);
    var ops := PlanRecover(h, drills, w.files, revision, w.files[FinalMark].target, now).ops;
    assert ops == [ops[0], ops[1]];
    TwoOperations(w, ops[0], ops[1], 2);
    var written := Apply(w.files, ops[0]);
    StillFinal(h, drills, w.files, ops[0], written, revision);
    StillFinal(h, drills, written, ops[1], Apply(written, ops[1]), revision);
  }

  lemma CompletionConsumes(h: Sha, w: World, revision: string, now: Stamp, drills: Drills)
    requires FinalValid(h, drills, w.files, revision)
    requires ConsumedMark !in w.files && ArmedValid(h, w.files)
    ensures var a := Action(CompleteFirstStart(revision), now, drills, 2);
            Completes(h, w, a) && Consumed(h, drills, Execute(h, w, a).files, revision)
  {
    var a := Action(CompleteFirstStart(revision), now, drills, 2);
    var ops := PlanComplete(h, drills, w.files, revision, now).ops;
    assert ops == [ops[0], ops[1]];
    TwoOperations(w, ops[0], ops[1], 2);
    var written := Apply(w.files, ops[0]);
    StillFinal(h, drills, w.files, ops[0], written, revision);
    StillFinal(h, drills, written, ops[1], Apply(written, ops[1]), revision);
  }

  lemma ArmingArms(h: Sha, w: World, revision: string, now: Stamp, drills: Drills)
    requires FinalValid(h, drills, w.files, revision)
    requires ConsumedMark !in w.files && ArmedMark !in w.files
    ensures var a := Action(ArmFirstStart(revision, w.files[FinalMark].target), now, drills, 2);
            var s' := Execute(h, w, a).files;
            && Completes(h, w, a)
            && FinalValid(h, drills, s', revision) && ArmedValid(h, s') && ConsumedMark !in s'
            && s'[FinalMark] == w.files[FinalMark]
  {
    var a := Action(ArmFirstStart(revision, w.files[FinalMark].target), now, drills, 2);
    var ops := PlanArm(h, drills, w.files, revision, w.files[FinalMark].target, now).ops;
    assert ops == [ops[0]];
    OneOperation(w, ops[0], 2);
    StillFinal(h, drills, w.files, ops[0], Apply(w.files, ops[0]), revision);
  }

  lemma FinishingConsumes(h: Sha, w: World, revision: string, now: Stamp, drills: Drills)
    requires FinalValid(h, drills, w.files, revision) && FirstStartUnspoilt(h, w.files)
    ensures var actions := FinishFirstStart(w.files, revision, now, drills);
            && AllComplete(h, w, actions)
            && NoNewCutover(actions)
            && Consumed(h, drills, Run(h, w, actions).files, revision)
  {
    var actions := FinishFirstStart(w.files, revision, now, drills);
    if ArmedMark in w.files && ConsumedMark in w.files {
      RecoveryReconciles(h, w, revision, now, drills);
      assert Run(h, w, actions) == Run(h, Execute(h, w, actions[0]), []);
      assert AllComplete(h, Execute(h, w, actions[0]), []);
    } else if ArmedMark in w.files {
      CompletionConsumes(h, w, revision, now, drills);
      assert Run(h, w, actions) == Run(h, Execute(h, w, actions[0]), []);
      assert AllComplete(h, Execute(h, w, actions[0]), []);
    } else if ConsumedMark !in w.files {
      ArmingArms(h, w, revision, now, drills);
      var armed := Execute(h, w, actions[0]);
      CompletionConsumes(h, armed, revision, now, drills);
      assert actions[1..] == [actions[1]];
      assert Run(h, w, actions) == Run(h, armed, [actions[1]]) == Run(h, Execute(h, armed, actions[1]), []);
      assert AllComplete(h, armed, [actions[1]]) by {
        assert AllComplete(h, Execute(h, armed, actions[1]), []);
      }
    }
  }

  /** Some commands without a new cutover consume the first start. */
  ghost predicate CanConsume(h: Sha, w: World, drills: Drills, revision: string) {
    exists actions :: NoNewCutover(actions) && Consumed(h, drills, Run(h, w, actions).files, revision)
  }

  /**
   A finalized cutover can have its first start consumed, without beginning a new cutover,
   if and only if the first-start markers on disk belong to it.
   */
  lemma FirstStartPossibleIffUnspoilt(h: Sha, w: World, revision: string, drills: Drills)
    requires FinalValid(h, drills, w.files, revision)
    ensures FirstStartUnspoilt(h, w.files) <==> CanConsume(h, w, drills, revision)
  {
    if FirstStartUnspoilt(h, w.files) {
      FinishingConsumes(h, w, revision, 0, drills);
      var actions := FinishFirstStart(w.files, revision, 0, drills);
      assert NoNewCutover(actions) && Consumed(h, drills, Run(h, w, actions).files, revision);
    } else {
      forall actions | NoNewCutover(actions)
        ensures !Consumed(h, drills, Run(h, w, actions).files, revision)
      {
        SpoiltStaysSpoilt(h, w, actions, drills, revision);
      }
    }
  }
}
