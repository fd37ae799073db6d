/** The ingress handoff over whole runs. */
module IngressRuns {
  import opened Patterns
  import opened EvidenceStore
  import opened CutoverPlan
  import opened CutoverRuns
  import opened CutoverInvariant
  import opened CutoverFinality
  import opened FirstStart

  /** One write may follow another in the ingress state file. */
  predicate IngressEdge(before: IngressStatus, after: IngressStatus) {
    match after
    case Required => false
    case HandoffInProgress => before == Required || before == RenderRestored
    case AwaitingActivation => before == HandoffInProgress
    case Activated => before == AwaitingActivation
    case RestoreInProgress => before == HandoffInProgress || before == AwaitingActivation
    case RenderRestored => before == RestoreInProgress
  }

  predicate IngressPath(p: seq<IngressStatus>) {
    && (p != [] ==> p[0] == Required)
    && forall i :: 0 <= i < |p| - 1 ==> IngressEdge(p[i], p[i + 1])
  }

  /** The statuses ever written form a path, and the file holds the last one. */
  predicate IngressHistory(w: World) {
    && IngressPath(w.ingress)
    && (IngressMark in w.files <==> w.ingress != [])
    && (IngressMark in w.files ==>
          && w.files[IngressMark].IngressState?
          && w.files[IngressMark].version == VERSION
          && w.files[IngressMark].ingress == w.ingress[|w.ingress| - 1])
  }

  /** The parts of the ingress state that no command may change. */
  function IngressIdentity(e: Evidence): (string, string, string, string)
    requires e.IngressState?
  {
    (e.cutoverId, e.revision, e.finalSha, e.sourceRevision)
  }

  /** What one action may do to the ingress state. */
  predicate IngressMove(w: World, w': World) {
    && IngressHistory(w')
    && (IngressMark in w.files && w.files[IngressMark].IngressState? ==>
          && IngressMark in w'.files
          && IngressIdentity(w'.files[IngressMark]) == IngressIdentity(w.files[IngressMark]))
  }

  lemma {:induction false} UntouchedIngress(w: World, ops: seq<FileOp>)
    requires forall i :: 0 <= i < |ops| ==> !Touches(ops[i], IngressMark)
    ensures ObserveAll(w, ops).ingress == w.ingress
    decreases |ops|
  {
    if ops == [] {
    } else {
      assert !Touches(ops[0], IngressMark);
      UntouchedIngress(Observe(w, ops[0]), ops[1..]);
    }
  }

  lemma OthersTouchNoIngress(h: Sha, w: World, a: Action)
    requires !a.command.BeginIngressHandoff? && !a.command.TransitionIngress? && !a.command.ReadOnlyGate?
    ensures var ops := PlanOf(h, a.drills, w.files, a.command, a.now).Ops();
            forall i :: 0 <= i < |ops| ==> !Touches(ops[i], IngressMark)
  {
  }

  lemma IngressWrite(h: Sha, w: World, status: IngressStatus, now: Stamp)
    requires IngressHistory(w)
    requires FinalMark in w.files && w.files[FinalMark].FinalProof?
    requires if IngressMark in w.files then
               && IngressEdge(w.files[IngressMark].ingress, status)
               && IngressIdentity(w.files[IngressMark])
                  == IngressIdentity(NewIngressState(h, w.files, w.files[FinalMark].sourceRevision, status, now))
             else status == Required
    ensures var state := NewIngressState(h, w.files, w.files[FinalMark].sourceRevision, status, now);
            IngressMove(w, Observe(w, Write(IngressMark, state)))
  {
  }

  lemma GateKeepsIngress(h: Sha, w: World, a: Action)
    requires IngressHistory(w) && (a.command.ReadOnlyGate? || a.command.TransitionIngress?)
    ensures IngressMove(w, Execute(h, w, a))
  {
    var ops := PlanOf(h, a.drills, w.files, a.command, a.now).Ops();
    if ops == [] {
      assert Prefix(ops, a.cut) == [];
    } else {
      assert ops == [ops[0]];
      OneOperation(w, ops[0], a.cut);
      IngressWrite(h, w, ops[0].evidence.ingress, a.now);
    }
  }

  lemma HandoffKeepsIngress(h: Sha, w: World, a: Action)
    requires IngressHistory(w) && a.command.BeginIngressHandoff?
    ensures IngressMove(w, Execute(h, w, a))
  {
    var ops := PlanOf(h, a.drills, w.files, a.command, a.now).Ops();
    if ops == [] {
      assert Prefix(ops, a.cut) == [];
    } else {
      IngressWrite(h, w, ops[0].evidence.ingress, a.now);
      if IngressMark in w.files {
        assert ops == [ops[0]];
        OneOperation(w, ops[0], a.cut);
      } else {
        assert ops == [ops[0], ops[1]];
        TwoOperations(w, ops[0], ops[1], a.cut);
        IngressWrite(h, Observe(w, ops[0]), HandoffInProgress, a.now);
      }
    }
  }

  /** Every action keeps the path and, once there is a state, its identity. */
  lemma StepKeepsIngress(h: Sha, w: World, a: Action)
    requires IngressHistory(w)
    ensures IngressMove(w, Execute(h, w, a))
  {
    if a.command.BeginIngressHandoff? {
      HandoffKeepsIngress(h, w, a);
    } else if a.command.TransitionIngress? || a.command.ReadOnlyGate? {
      GateKeepsIngress(h, w, a);
    } else {
      OthersTouchNoIngress(h, w, a);
      var ops := Prefix(PlanOf(h, a.drills, w.files, a.command, a.now).Ops(), a.cut);
      UntouchedIngress(w, ops);
      UntouchedMarker(w, ops, IngressMark);
    }
  }

  /**
   Over any run: once there is an ingress state, the cutover, release, final-proof hash
   and source revision it names never change again, not even by a later cutover.
   */
  lemma {:induction false} RunKeepsIngress(h: Sha, w: World, actions: seq<Action>)
    requires IngressHistory(w)
    ensures IngressMove(w, Run(h, w, actions))
    decreases |actions|
  {
    if actions == [] {
    } else {
      StepKeepsIngress(h, w, actions[0]);
      RunKeepsIngress(h, Execute(h, w, actions[0]), actions[1..]);
    }
  }

  /**
   Activation: in any run, an activated status is the last one ever written, and the two
   before it are a handoff and awaiting activation, so no restore came in between.
   */
  lemma ActivatedOnlyAfterHandoff(h: Sha, actions: seq<Action>, i: nat)
    requires var p := Run(h, EMPTY_WORLD, actions).ingress; i < |p| && p[i] == Activated
    ensures var p := Run(h, EMPTY_WORLD, actions).ingress;
            i == |p| - 1 && 3 <= |p| && p[i - 1] == AwaitingActivation && p[i - 2] == HandoffInProgress
  {
    RunKeepsIngress(h, EMPTY_WORLD, actions);
    var p := Run(h, EMPTY_WORLD, actions).ingress;
    if i < |p| - 1 {
      assert IngressEdge(p[i], p[i + 1]);
    }
    assert IngressEdge(p[i - 1], p[i]);
    assert IngressEdge(p[i - 2], p[i - 1]);
  }

  predicate IngressCommand(c: Command) {
    c.BeginIngressHandoff? || c.TransitionIngress?
  }

  /** The state that a command writes for the finalized cutover is valid. */
  lemma WrittenIngressIsValid(h: Sha, drills: Drills, s: Store, revision: string, status: IngressStatus, now: Stamp)
    requires FinalValid(h, drills, s, revision)
    ensures var s' := s[IngressMark := NewIngressState(h, s, s[FinalMark].sourceRevision, status, now)];
            IngressValid(h, drills, s', revision)
  {
    var s' := s[IngressMark := NewIngressState(h, s, s[FinalMark].sourceRevision, status, now)];
    assert Core(s') == Core(s);
    CoreDecidesFinal(h, drills, s, s', revision);
  }

  /** The plan's operations leave a valid state with the status it replies. */
  predicate ReplyIsState(h: Sha, drills: Drills, s: Store, plan: Plan, revision: string, status: IngressStatus) {
    && plan.Perform? && plan.reply == Ingress(status)
    && IngressValid(h, drills, ApplyAll(s, plan.Ops()), revision)
    && ApplyAll(s, plan.Ops())[IngressMark].ingress == status
  }

  lemma TransitionReply(h: Sha, drills: Drills, s: Store, revision: string, action: IngressAction, now: Stamp)
    requires PlanTransition(h, drills, s, revision, action, now).Perform?
    ensures ReplyIsState(h, drills, s, PlanTransition(h, drills, s, revision, action, now), revision, Target(action))
  {
    var ops := PlanTransition(h, drills, s, revision, action, now).ops;
    if ops != [] {
      assert ops == [ops[0]];
      assert ApplyAll(s, ops) == ApplyAll(Apply(s, ops[0]), []);
      WrittenIngressIsValid(h, drills, s, revision, Target(action), now);
    }
  }

  lemma HandoffReply(h: Sha, drills: Drills, s: Store, revision: string, now: Stamp)
    requires PlanBeginHandoff(h, drills, s, revision, now).Perform?
    ensures ReplyIsState(h, drills, s, PlanBeginHandoff(h, drills, s, revision, now), revision, HandoffInProgress)
  {
    var ops := PlanBeginHandoff(h, drills, s, revision, now).ops;
    if ops != [] {
      WrittenIngressIsValid(h, drills, s, revision, HandoffInProgress, now);
      var last := ops[|ops| - 1];
      if |ops| == 1 {
        assert ops == [last];
        assert ApplyAll(s, ops) == ApplyAll(Apply(s, last), []);
      } else {
        assert ops == [ops[0], last];
        ApplyAllAppend(s, [ops[0]], [last]);
        assert [ops[0]] + [last] == ops;
        assert ApplyAll(s, ops) == Apply(Apply(s, ops[0]), last) == Apply(s, last);
      }
    }
  }

  /** A completed handoff or transition repeated at once writes nothing and replies the same. */
  lemma IngressIdempotent(h: Sha, w: World, a: Action, later: Stamp)
    requires IngressCommand(a.command) && Completes(h, w, a)
    ensures PlanOf(h, a.drills, Execute(h, w, a).files, a.command, later)
            == Perform([], PlanOf(h, a.drills, w.files, a.command, a.now).reply)
  {
    var ops := PlanOf(h, a.drills, w.files, a.command, a.now).Ops();
    assert Prefix(ops, a.cut) == ops;
    ObservedFiles(w, ops);
    match a.command
    case BeginIngressHandoff(revision) => HandoffReply(h, a.drills, w.files, revision, a.now);
    case TransitionIngress(revision, action) => TransitionReply(h, a.drills, w.files, revision, action, a.now);
  }

  /** An action's target is reached at once, or along an edge; nothing else is accepted. */
  lemma TransitionIffEdge(
      h: Sha, drills: Drills, s: Store, revision: string, action: IngressAction, now: Stamp)
    requires IngressValid(h, drills, s, revision)
    ensures var current := s[IngressMark].ingress;
            var plan := PlanTransition(h, drills, s, revision, action, now);
            && (plan.Perform? <==> current == Target(action) || IngressEdge(current, Target(action)))
            && (plan.Perform? ==> plan.reply == Ingress(Target(action)))
            && (plan.Ops() == [] <==> plan.Refused? || current == Target(action))
    ensures Target(AwaitActivation) == AwaitingActivation && Target(Activate) == Activated
    ensures Target(BeginRestore) == RestoreInProgress && Target(CompleteRestore) == RenderRestored
  {
  }

  /** A handoff begins from the first status or after a restore, and repeats itself. */
  lemma HandoffIffEdge(h: Sha, drills: Drills, s: Store, revision: string, now: Stamp)
    requires IngressValid(h, drills, s, revision)
    ensures var current := s[IngressMark].ingress;
            var plan := PlanBeginHandoff(h, drills, s, revision, now);
            && (plan.Perform? <==> current == HandoffInProgress || IngressEdge(current, HandoffInProgress))
            && (plan.Perform? ==> plan.reply == Ingress(HandoffInProgress))
  {
  }

  /** From any valid status, the step that brings activation closer is accepted. */
  function NextIngress(current: IngressStatus, revision: string): Command
    requires current != Activated
  {
    match current
    case Required => BeginIngressHandoff(revision)
    case HandoffInProgress => TransitionIngress(revision, AwaitActivation)
    case AwaitingActivation => TransitionIngress(revision, Activate)
    case RestoreInProgress => TransitionIngress(revision, CompleteRestore)
    case RenderRestored => BeginIngressHandoff(revision)
  }

  function Distance(current: IngressStatus): nat {
    match current
    case Activated => 0
    case AwaitingActivation => 1
    case HandoffInProgress => 2
    case Required => 3
    case RenderRestored => 3
    case RestoreInProgress => 4
  }

  lemma IngressAdvance(h: Sha, w: World, revision: string, now: Stamp, drills: Drills)
    requires IngressValid(h, drills, w.files, revision) && w.files[IngressMark].ingress != Activated
    ensures var a := Action(NextIngress(w.files[IngressMark].ingress, revision), now, drills, 2);
            var s' := Execute(h, w, a).files;
            && Completes(h, w, a)
            && IngressValid(h, drills, s', revision)
            && Distance(s'[IngressMark].ingress) < Distance(w.files[IngressMark].ingress)
  {
    var a := Action(NextIngress(w.files[IngressMark].ingress, revision), now, drills, 2);
    var ops := PlanOf(h, drills, w.files, a.command, now).Ops();
    assert Prefix(ops, a.cut) == ops;
    ObservedFiles(w, ops);
    match a.command
    case BeginIngressHandoff(_) => HandoffReply(h, drills, w.files, revision, now);
    case TransitionIngress(_, action) => TransitionReply(h, drills, w.files, revision, action, now);
  }

  /** Activation stays reachable from every status of a valid ingress state. */
  lemma {:induction false} ActivationReachable(h: Sha, w: World, revision: string, now: Stamp, drills: Drills)
    returns (actions: seq<Action>)
    requires IngressValid(h, drills, w.files, revision)
    ensures |actions| <= 4 && AllComplete(h, w, actions)
    ensures PlanIngressStatus(h, drills, Run(h, w, actions).files, revision) == Perform([], Ingress(Activated))
    ensures |actions| <= Distance(w.files[IngressMark].ingress)
    decreases Distance(w.files[IngressMark].ingress)
  {
    if w.files[IngressMark].ingress == Activated {
      actions := [];
    } else {
      var a := Action(NextIngress(w.files[IngressMark].ingress, revision), now, drills, 2);
      IngressAdvance(h, w, revision, now, drills);
      var rest := ActivationReachable(h, Execute(h, w, a), revision, now, drills);
      actions := [a] + rest;
      assert actions[1..] == rest;
    }
  }

  /** No ingress command is accepted. */
  ghost predicate IngressBlocked(h: Sha, drills: Drills, s: Store, revision: string) {
    && (forall now :: PlanBeginHandoff(h, drills, s, revision, now).Refused?)
    && (forall now :: PlanEnsureFreeze(h, drills, s, revision, now).Refused?)
    && (forall action, now :: PlanTransition(h, drills, s, revision, action, now).Refused?)
    && PlanIngressStatus(h, drills, s, revision).Refused?
  }

  /**
   An ingress state outlives its cutover.  However the run goes on from there, a finalized
   cutover finds every ingress command refused if and only if the state that was on disk
   names another cutover, release, final-proof hash or source revision than its own.
   */
  lemma IngressOutlivesCutover(h: Sha, w: World, actions: seq<Action>, revision: string, drills: Drills)
    requires IngressHistory(w) && IngressMark in w.files
    requires FinalValid(h, drills, Run(h, w, actions).files, revision)
    ensures var f := Run(h, w, actions).files[FinalMark];
            IngressBlocked(h, drills, Run(h, w, actions).files, revision) <==>
            IngressIdentity(w.files[IngressMark])
            != (f.session.cutoverId, f.session.revision, h(f), f.sourceRevision)
  {
    RunKeepsIngress(h, w, actions);
    var s := Run(h, w, actions).files;
    if IngressValid(h, drills, s, revision) {
      assert PlanIngressStatus(h, drills, s, revision).Perform?;
    }
  }
}
