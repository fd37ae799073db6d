/**
 Runs from an empty evidence directory that show each unexpected condition to be real:
 every command in them is accepted and, but for one crash, runs to its end.
 */
module Counterexamples {
  import opened Patterns
  import opened EvidenceStore
  import opened CutoverPlan
  import opened CutoverRuns
  import opened CutoverInvariant
  import opened CutoverFinality
  import opened FirstStart
  import opened InterruptedBegin
  import opened IngressRuns

  // ---- inputs ----------------------------------------------------------------------------

  function Repeat(c: char, n: nat): (s: string)
    ensures IsHexDigit(c) ==> IsHex(s, n)
    ensures n > 0 ==> s != "" && s[0] == c
  {
    seq(n, _ => c)
  }

  /** The identity of a session all of whose digits are the same. */
  function IdentityFrom(c: char): (id: Identity)
    ensures IsHexDigit(c) ==> CommonFields(id).Some?
  {
    Identity(Repeat(c, 32), Repeat(c, 40), Repeat(c, 64))
  }

  function RecoveryFields(digest: string): map<string, string> {
    map["status" := "success", "drill_scope" := "current-latest", "postgres_restore" := "verified",
        "redis_restore" := "verified", "restored_payload_removed" := "true", "live_services_touched" := "false",
        "repository_id_sha256" := digest, "snapshot_id" := digest, "backup_set_sha256" := digest]
  }

  function RetentionFields(digest: string): map<string, string> {
    map["status" := "immutable-retention-verified", "repository_id_sha256" := digest]
  }

  const ACCEPTED_NAME := "restic-restore-1.ok"
  const REFUSED_NAME := "restore-1.ok"

  /** Inputs that every guard accepts, with the given name of the recovery evidence. */
  function OperatorWith(name: string): Operator {
    var d := Repeat('a', 64);
    var postgres := PostgresArgs("r", "4", PostgresState(d, d, d), d, d, d, d);
    Operator(0, map[name := RecoveryFields(d), RETENTION_MARKER_NAME := RetentionFields(d)], postgres,
             RedisArgs("r", d, d, d, d), "r", d, d, d, d, d, d, Repeat('a', 40), name, RETENTION_MARKER_NAME)
  }

  lemma InputsAreValid(name: string)
    requires name != RETENTION_MARKER_NAME
    ensures ValidInputs(OperatorWith(name))
    ensures var o := OperatorWith(name); DrillsFor(o, o.snapshotId, o.backupSet, o.repositoryId)
  {
    ArgumentsAreValid(name);
    DrillsAreThere(name);
  }

  lemma ArgumentsAreValid(name: string)
    ensures ValidInputs(OperatorWith(name))
  {
    assert IsRunId("r");
  }

  lemma DrillsAreThere(name: string)
    requires name != RETENTION_MARKER_NAME
    ensures var o := OperatorWith(name); DrillsFor(o, o.snapshotId, o.backupSet, o.repositoryId)
  {
  }

  lemma NameIsAccepted()
    ensures IsRecoveryMarkerName(ACCEPTED_NAME) && ACCEPTED_NAME != RETENTION_MARKER_NAME
  {
    assert |ACCEPTED_NAME| == 19 && |RETENTION_MARKER_NAME| == 20;
  }

  lemma NameIsRefused()
    ensures !IsRecoveryMarkerName(REFUSED_NAME) && REFUSED_NAME != RETENTION_MARKER_NAME
    ensures IsBasename(REFUSED_NAME) && IsSafeValue(REFUSED_NAME)
  {
    assert |REFUSED_NAME| == 12 && |RETENTION_MARKER_NAME| == 20;
  }

  lemma RetentionNameIsRecordable()
    ensures IsBasename(RETENTION_MARKER_NAME) && IsSafeValue(RETENTION_MARKER_NAME)
  {
    PlainNameIsSafe(RETENTION_MARKER_NAME);
  }

  // ---- a whole cutover ---------------------------------------------------------------------

  function Begin(id: Identity, o: Operator, cut: nat): Action {
    Action(BeginPostgres(id), o.now, o.drills, cut)
  }

  const WHOLE_BEGIN: nat := 8

  /** From any state without the fence, a session begins and reaches its last phase. */
  lemma BeginAndReachLastPhase(h: Sha, w: World, id: Identity, o: Operator) returns (actions: seq<Action>)
    requires PrintsSha256(h) && PhaseInvariant(h, w) && InProgressMark !in w.files
    requires CommonFields(id).Some?
    requires ValidInputs(o) && DrillsFor(o, o.snapshotId, o.backupSet, o.repositoryId)
    ensures AllComplete(h, w, actions) && CutoverCommands(actions)
    ensures var w' := Run(h, w, actions);
            && w'.begun == CommonFields(id) && PhaseInvariant(h, w')
            && InProgressMark in w'.files && w'.files[InProgressMark].phase == SeedVerified
            && EvidenceMatches(w'.files, o)
            && ArmedMark !in w'.files && ConsumedMark !in w'.files
  {
    var begin := Begin(id, o, WHOLE_BEGIN);
    var started := Execute(h, w, begin);
    BeginPrefix(h, w, begin);
    StepKeepsPhase(h, w, begin);
    assert Completes(h, w, begin);
    var rest := ReachLastPhase(h, started, o);
    PhaseRunUntouched(h, started, rest, ArmedMark);
    PhaseRunUntouched(h, started, rest, ConsumedMark);
    actions := [begin] + rest;
    assert actions[1..] == rest;
  }

  /** The session with this identity was begun last and is finalized. */
  ghost predicate Finalized(h: Sha, w: World, id: Identity) {
    && PhaseInvariant(h, w)
    && w.begun.Some? && w.begun == CommonFields(id)
    && FinalValid(h, OperatorWith(ACCEPTED_NAME).drills, w.files, id.revision)
  }

  predicate CutoverCommands(actions: seq<Action>) {
    forall i :: 0 <= i < |actions| ==> actions[i].command.BeginPostgres? || PhaseCommand(actions[i].command)
  }

  lemma {:induction false} CutoverTouchesNoIngress(h: Sha, w: World, actions: seq<Action>)
    requires CutoverCommands(actions)
    ensures IngressMark in Run(h, w, actions).files <==> IngressMark in w.files
    decreases |actions|
  {
    if actions == [] {
    } else {
      var a := actions[0];
      OthersTouchNoIngress(h, w, a);
      UntouchedMarker(w, Prefix(PlanOf(h, a.drills, w.files, a.command, a.now).Ops(), a.cut), IngressMark);
      CutoverTouchesNoIngress(h, Execute(h, w, a), actions[1..]);
    }
  }

  /** A whole cutover with accepted names, from any state without the fence. */
  lemma WholeCutover(h: Sha, w: World, id: Identity) returns (actions: seq<Action>)
    requires PrintsSha256(h) && PhaseInvariant(h, w) && InProgressMark !in w.files && CommonFields(id).Some?
    ensures AllComplete(h, w, actions)
    ensures var w' := Run(h, w, actions);
            && Finalized(h, w', id)
            && ArmedMark !in w'.files && ConsumedMark !in w'.files
            && (IngressMark in w'.files <==> IngressMark in w.files)
  {
    var o := OperatorWith(ACCEPTED_NAME);
    NameIsAccepted();
    InputsAreValid(ACCEPTED_NAME);
    var before := BeginAndReachLastPhase(h, w, id, o);
    var last := Run(h, w, before);
    FinalizeAfter(h, last, id);
    OneMoreAction(h, w, before, NextAction(h, last, o));
    actions := before + [NextAction(h, last, o)];
    CutoverTouchesNoIngress(h, w, actions);
  }

  lemma FinalizeAfter(h: Sha, w: World, id: Identity)
    requires PrintsSha256(h) && PhaseInvariant(h, w) && w.begun == CommonFields(id)
    requires InProgressMark in w.files && w.files[InProgressMark].phase == SeedVerified
    requires EvidenceMatches(w.files, OperatorWith(ACCEPTED_NAME))
    ensures var a := NextAction(h, w, OperatorWith(ACCEPTED_NAME));
            var s' := Execute(h, w, a).files;
            && Completes(h, w, a) && PhaseCommand(a.command)
            && Finalized(h, Execute(h, w, a), id)
            && (ArmedMark in s' <==> ArmedMark in w.files) && (ConsumedMark in s' <==> ConsumedMark in w.files)
  {
    var o := OperatorWith(ACCEPTED_NAME);
    NameIsAccepted();
    InputsAreValid(ACCEPTED_NAME);
    FinishSeed(h, w, o);
    StepKeepsPhase(h, w, NextAction(h, w, o));
    FinalizeTouchesNoStartMarker(h, w, o);
  }

  lemma FinalizeTouchesNoStartMarker(h: Sha, w: World, o: Operator)
    requires PhaseInvariant(h, w) && InProgressMark in w.files
    ensures var s' := Execute(h, w, NextAction(h, w, o)).files;
            && (ArmedMark in s' <==> ArmedMark in w.files) && (ConsumedMark in s' <==> ConsumedMark in w.files)
  {
    var a := NextAction(h, w, o);
    var ops := Prefix(PlanOf(h, a.drills, w.files, a.command, a.now).Ops(), a.cut);
    PhaseCommandOps(h, w, a, ArmedMark);
    PhaseCommandOps(h, w, a, ConsumedMark);
    UntouchedMarker(w, ops, ArmedMark);
    UntouchedMarker(w, ops, ConsumedMark);
  }

  // ---- names that only validate-final refuses ------------------------------------------------

  /** No command but begin-postgres makes any validation of the final chain succeed. */
  ghost predicate OnlyNewCutoverHelps(h: Sha, w: World) {
    forall actions, drills, revision ::
      NoNewCutover(actions) ==> !FinalValid(h, drills, Run(h, w, actions).files, revision)
  }

  predicate RefusedNames(s: Store) {
    && InProgressMark !in s && FinalMark in s && s[FinalMark].FinalProof?
    && !MarkerNamesAccepted(s[FinalMark].recoveryName, s[FinalMark].retentionName)
  }

  /** A final proof with refused names stays, and stays refused, until a new cutover. */
  lemma {:induction false} RefusedNamesStay(
      h: Sha, w: World, actions: seq<Action>, drills: Drills, revision: string)
    requires RefusedNames(w.files) && NoNewCutover(actions)
    ensures !FinalValid(h, drills, Run(h, w, actions).files, revision)
    decreases |actions|
  {
    if actions == [] {
    } else {
      var next := Execute(h, w, actions[0]);
      CoreIsFrozen(h, w, actions[0]);
      CoreDecidesFinal(h, drills, w.files, next.files, revision);
      CoreMarkers();
      RefusedNamesStay(h, next, actions[1..], drills, revision);
    }
  }

  lemma RefusedNamesNeedNewCutover(h: Sha, w: World)
    requires RefusedNames(w.files)
    ensures OnlyNewCutoverHelps(h, w)
  {
    forall actions, drills, revision | NoNewCutover(actions)
      ensures !FinalValid(h, drills, Run(h, w, actions).files, revision)
    {
      RefusedNamesStay(h, w, actions, drills, revision);
    }
  }

  /** The commands are all accepted and lead to a finalized session that only a new cutover helps. */
  ghost predicate DeadEnd(h: Sha, actions: seq<Action>) {
    var w := Run(h, EMPTY_WORLD, actions);
    && AllComplete(h, EMPTY_WORLD, actions)
    && w.begun.Some? && InProgressMark !in w.files && FinalMark in w.files
    && OnlyNewCutoverHelps(h, w)
  }

  lemma CutoverWithRefusedNames(h: Sha) returns (actions: seq<Action>)
    requires PrintsSha256(h)
    ensures AllComplete(h, EMPTY_WORLD, actions)
    ensures Run(h, EMPTY_WORLD, actions).begun.Some? && RefusedNames(Run(h, EMPTY_WORLD, actions).files)
  {
    var o := OperatorWith(REFUSED_NAME);
    NameIsRefused();
    InputsAreValid(REFUSED_NAME);
    var before := BeginAndReachLastPhase(h, EMPTY_WORLD, IdentityFrom('a'), o);
    var last := Run(h, EMPTY_WORLD, before);
    RefusedNamesAfter(h, last);
    OneMoreAction(h, EMPTY_WORLD, before, NextAction(h, last, o));
    actions := before + [NextAction(h, last, o)];
  }

  /** A cutover whose finalize is given a name that validate-final refuses ends in a dead end. */
  lemma RefusedNamesHappen(h: Sha)
    requires PrintsSha256(h)
    ensures exists actions :: DeadEnd(h, actions)
  {
    var actions := CutoverWithRefusedNames(h);
    RefusedNamesNeedNewCutover(h, Run(h, EMPTY_WORLD, actions));
    assert DeadEnd(h, actions);
  }

  lemma RefusedNamesAfter(h: Sha, w: World)
    requires PrintsSha256(h) && PhaseInvariant(h, w) && w.begun.Some?
    requires InProgressMark in w.files && w.files[InProgressMark].phase == SeedVerified
    requires EvidenceMatches(w.files, OperatorWith(REFUSED_NAME))
    ensures var a := NextAction(h, w, OperatorWith(REFUSED_NAME));
            && Completes(h, w, a) && RefusedNames(Execute(h, w, a).files) && Execute(h, w, a).begun == w.begun
  {
    var o := OperatorWith(REFUSED_NAME);
    NameIsRefused();
    RetentionNameIsRecordable();
    InputsAreValid(REFUSED_NAME);
    FinalizeCompletes(h, w, o);
    FinalizeRecordsNames(h, w, NextAction(h, w, o));
  }

  lemma FinalizeRecordsNames(h: Sha, w: World, a: Action)
    requires a.command.Finalize? && Completes(h, w, a)
    ensures var s' := Execute(h, w, a).files;
            && InProgressMark !in s' && FinalMark in s' && s'[FinalMark].FinalProof?
            && s'[FinalMark].recoveryName == a.command.final.recoveryName
            && s'[FinalMark].retentionName == a.command.final.retentionName
  {
    var ops := PlanOf(h, a.drills, w.files, a.command, a.now).ops;
    assert ops == [ops[0], ops[1]];
    TwoOperations(w, ops[0], ops[1], a.cut);
  }

  // ---- a first start that is impossible --------------------------------------------------------

  /** Of the two first-start markers only the consumed, or only the armed one is on disk. */
  predicate OnlyMarker(s: Store, complete: bool) {
    (ArmedMark in s <==> !complete) && (ConsumedMark in s <==> complete)
  }

  /** A run that leaves a valid final chain whose first start nothing but a new cutover helps. */
  ghost predicate FirstStartLost(h: Sha, actions: seq<Action>, drills: Drills, revision: string, complete: bool) {
    var w := Run(h, EMPTY_WORLD, actions);
    && FinalValid(h, drills, w.files, revision)
    && OnlyMarker(w.files, complete)
    && forall later, again :: !CanConsume(h, w, later, again)
  }

  lemma ArmedAfter(h: Sha, w: World, id: Identity) returns (arm: Action)
    requires PrintsSha256(h) && Finalized(h, w, id) && ArmedMark !in w.files && ConsumedMark !in w.files
    ensures Completes(h, w, arm)
    ensures var w' := Execute(h, w, arm);
            Finalized(h, w', id) && ArmedValid(h, w'.files) && ConsumedMark !in w'.files
  {
    var drills := OperatorWith(ACCEPTED_NAME).drills;
    arm := Action(ArmFirstStart(id.revision, w.files[FinalMark].target), 0, drills, 2);
    ArmingArms(h, w, id.revision, 0, drills);
    StepKeepsPhase(h, w, arm);
    BegunIsKept(h, w, arm);
  }

  lemma ConsumedAfter(h: Sha, w: World, id: Identity) returns (complete: Action)
    requires PrintsSha256(h) && Finalized(h, w, id) && ArmedValid(h, w.files) && ConsumedMark !in w.files
    ensures Completes(h, w, complete)
    ensures var w' := Execute(h, w, complete);
            Finalized(h, w', id) && ArmedMark !in w'.files && ConsumedMark in w'.files && ConsumedValid(h, w'.files)
  {
    var drills := OperatorWith(ACCEPTED_NAME).drills;
    complete := Action(CompleteFirstStart(id.revision), 0, drills, 2);
    CompletionConsumes(h, w, id.revision, 0, drills);
    StepKeepsPhase(h, w, complete);
    BegunIsKept(h, w, complete);
  }

  /** A first-start marker of another session is on disk, and no fence. */
  ghost predicate LeftOver(h: Sha, w: World, c: Session, complete: bool) {
    && PhaseInvariant(h, w) && InProgressMark !in w.files
    && ForeignMarkers(w.files, c)
    && OnlyMarker(w.files, complete)
  }

  lemma StartIsLeftOver(h: Sha, w: World, id: Identity, c: Session, complete: bool)
    requires Finalized(h, w, id) && CommonFields(id) != Some(c)
    requires if complete then ArmedMark !in w.files && ConsumedMark in w.files && ConsumedValid(h, w.files)
             else ConsumedMark !in w.files && ArmedValid(h, w.files)
    ensures LeftOver(h, w, c, complete)
  {
    FinalOfBegun(h, w, OperatorWith(ACCEPTED_NAME).drills, id.revision);
  }

  /** The first start of a whole cutover, armed and, if asked for, consumed. */
  lemma StartedCutover(h: Sha, complete: bool) returns (actions: seq<Action>)
    requires PrintsSha256(h)
    ensures AllComplete(h, EMPTY_WORLD, actions)
    ensures LeftOver(h, Run(h, EMPTY_WORLD, actions), CommonFields(IdentityFrom('b')).value, complete)
  {
    var id, c := IdentityFrom('a'), CommonFields(IdentityFrom('b')).value;
    SessionsDiffer();
    actions := WholeCutover(h, EMPTY_WORLD, id);
    var w := Run(h, EMPTY_WORLD, actions);
    var arm := ArmedAfter(h, w, id);
    var armed := Execute(h, w, arm);
    OneMoreAction(h, EMPTY_WORLD, actions, arm);
    actions := actions + [arm];
    if complete {
      var consume := ConsumedAfter(h, armed, id);
      OneMoreAction(h, EMPTY_WORLD, actions, consume);
      actions := actions + [consume];
      StartIsLeftOver(h, Execute(h, armed, consume), id, c, true);
    } else {
      StartIsLeftOver(h, armed, id, c, false);
    }
  }

  lemma SessionsDiffer()
    ensures CommonFields(IdentityFrom('a')) != CommonFields(IdentityFrom('b'))
    ensures IdentityFrom('a').cutoverId != IdentityFrom('b').cutoverId
  {
    assert Repeat('a', 32)[0] == 'a' && Repeat('b', 32)[0] == 'b';
  }

  /** A begin that stops right after the fence loses the first start of the session it begins. */
  lemma CrashLosesFirstStart(h: Sha, w: World, complete: bool) returns (actions: seq<Action>)
    requires PrintsSha256(h) && LeftOver(h, w, CommonFields(IdentityFrom('b')).value, complete)
    ensures var w' := Run(h, w, actions);
            && FinalValid(h, OperatorWith(ACCEPTED_NAME).drills, w'.files, IdentityFrom('b').revision)
            && OnlyMarker(w'.files, complete)
            && forall later, again :: !CanConsume(h, w', later, again)
  {
    var o, id := OperatorWith(ACCEPTED_NAME), IdentityFrom('b');
    NameIsAccepted();
    InputsAreValid(ACCEPTED_NAME);
    var crash := Begin(id, o, 1);
    var started := Execute(h, w, crash);
    var finish := CrashedBeginFinalizes(h, w, o, crash);
    actions := [crash] + finish;
    assert actions[1..] == finish;
    forall later, again
      ensures !CanConsume(h, Run(h, started, finish), later, again)
    {
      LeftMarkerBlocks(h, w, crash, later, again);
      LostStaysLost(h, started, finish, later, again);
    }
  }

  /** Either marker alone, an armed or a consumed one, loses a first start in some run. */
  lemma LostFirstStartHappens(h: Sha, complete: bool)
    requires PrintsSha256(h)
    ensures exists actions, drills, revision :: FirstStartLost(h, actions, drills, revision, complete)
  {
    var first := StartedCutover(h, complete);
    var second := CrashLosesFirstStart(h, Run(h, EMPTY_WORLD, first), complete);
    RunAppend(h, EMPTY_WORLD, first, second);
    assert FirstStartLost(
        h, first + second, OperatorWith(ACCEPTED_NAME).drills, IdentityFrom('b').revision, complete);
  }

  lemma LostStaysLost(h: Sha, w: World, actions: seq<Action>, drills: Drills, revision: string)
    requires !CanConsume(h, w, drills, revision) && NoNewCutover(actions)
    ensures !CanConsume(h, Run(h, w, actions), drills, revision)
  {
    forall more | NoNewCutover(more)
      ensures !Consumed(h, drills, Run(h, Run(h, w, actions), more).files, revision)
    {
      RunAppend(h, w, actions, more);
      assert NoNewCutover(actions + more);
    }
  }

  // ---- an ingress state that outlives its cutover -------------------------------------------------

  ghost predicate IngressLost(h: Sha, actions: seq<Action>, drills: Drills, revision: string) {
    var w := Run(h, EMPTY_WORLD, actions);
    && AllComplete(h, EMPTY_WORLD, actions)
    && FinalValid(h, drills, w.files, revision)
    && IngressBlocked(h, drills, w.files, revision)
  }

  /** The ingress state on disk is of the session with this identity. */
  ghost predicate HandedOff(h: Sha, w: World, id: Identity) {
    && PhaseInvariant(h, w) && IngressHistory(w) && InProgressMark !in w.files
    && IngressMark in w.files && IngressIdentity(w.files[IngressMark]).0 == id.cutoverId
  }

  lemma HandoffAfter(h: Sha, w: World, id: Identity) returns (handoff: Action)
    requires PrintsSha256(h) && Finalized(h, w, id) && IngressHistory(w) && IngressMark !in w.files
    ensures Completes(h, w, handoff) && HandedOff(h, Execute(h, w, handoff), id)
  {
    var drills := OperatorWith(ACCEPTED_NAME).drills;
    handoff := Action(BeginIngressHandoff(id.revision), 0, drills, 2);
    HandoffWrites(h, w, id.revision, drills);
    StepKeepsPhase(h, w, handoff);
    StepKeepsIngress(h, w, handoff);
    BegunIsKept(h, w, handoff);
    FinalOfBegun(h, Execute(h, w, handoff), drills, id.revision);
  }

  lemma HandoffWrites(h: Sha, w: World, revision: string, drills: Drills)
    requires FinalValid(h, drills, w.files, revision) && IngressMark !in w.files
    ensures var a := Action(BeginIngressHandoff(revision), 0, drills, 2);
            Completes(h, w, a) && IngressValid(h, drills, Execute(h, w, a).files, revision)
  {
    var ops := PlanOf(h, drills, w.files, BeginIngressHandoff(revision), 0).Ops();
    HandoffReply(h, drills, w.files, revision, 0);
    assert Prefix(ops, 2) == ops;
    ObservedFiles(w, ops);
  }

  lemma SecondIngressIsBlocked(h: Sha, w: World, id: Identity, again: Identity, second: seq<Action>)
    requires HandedOff(h, w, id) && Finalized(h, Run(h, w, second), again) && id.cutoverId != again.cutoverId
    ensures IngressBlocked(h, OperatorWith(ACCEPTED_NAME).drills, Run(h, w, second).files, again.revision)
  {
    var drills := OperatorWith(ACCEPTED_NAME).drills;
    FinalOfBegun(h, Run(h, w, second), drills, again.revision);
    IngressOutlivesCutover(h, w, second, again.revision, drills);
  }

  /** A whole cutover with an ingress handoff. */
  lemma CutoverWithHandoff(h: Sha, id: Identity) returns (actions: seq<Action>)
    requires PrintsSha256(h) && CommonFields(id).Some?
    ensures AllComplete(h, EMPTY_WORLD, actions)
    ensures HandedOff(h, Run(h, EMPTY_WORLD, actions), id)
  {
    var first := WholeCutover(h, EMPTY_WORLD, id);
    RunKeepsIngress(h, EMPTY_WORLD, first);
    var handoff := HandoffAfter(h, Run(h, EMPTY_WORLD, first), id);
    OneMoreAction(h, EMPTY_WORLD, first, handoff);
    actions := first + [handoff];
  }

  /** Two whole cutovers, the first with an ingress handoff: the second finds its ingress blocked. */
  lemma BlockedIngressHappens(h: Sha)
    requires PrintsSha256(h)
    ensures exists actions, drills, revision :: IngressLost(h, actions, drills, revision)
  {
    var id, again := IdentityFrom('a'), IdentityFrom('b');
    SessionsDiffer();
    var first := CutoverWithHandoff(h, id);
    var handed := Run(h, EMPTY_WORLD, first);
    var second := WholeCutover(h, handed, again);
    SecondIngressIsBlocked(h, handed, id, again, second);
    AllCompleteAppend(h, EMPTY_WORLD, first, second);
    RunAppend(h, EMPTY_WORLD, first, second);
    assert IngressLost(h, first + second, OperatorWith(ACCEPTED_NAME).drills, again.revision);
  }
}
