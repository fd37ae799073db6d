/** A settled cutover: what later releases rely on, and that nothing but a new cutover unsettles it. */
module SettledCutover {
  import opened Patterns
  import opened EvidenceStore
  import opened CutoverPlan
  import opened CutoverRuns
  import opened CutoverInvariant
  import opened FirstStart

  /** Final chain valid, first start consumed, ingress activated. */
  predicate Settled(h: Sha, drills: Drills, s: Store, revision: string) {
    && FinalValid(h, drills, s, revision)
    && Consumed(h, drills, s, revision)
    && PlanIngressStatus(h, drills, s, revision) == Perform([], Ingress(Activated))
  }

  /** In a settled cutover every command but begin-postgres performs no operation at all. */
  lemma SettledPlansNothing(
      h: Sha, s: Store, drills: Drills, revision: string, command: Command, now: Stamp, later: Drills)
    requires Settled(h, drills, s, revision) && !command.BeginPostgres?
    ensures PlanOf(h, later, s, command, now).Ops() == []
  {
  }

  /** Settled is absorbing: such runs, whatever crashes, leave the world exactly as it was. */
  lemma {:induction false} SettledIsAbsorbing(h: Sha, w: World, actions: seq<Action>, drills: Drills, revision: string)
    requires Settled(h, drills, w.files, revision) && NoNewCutover(actions)
    ensures Run(h, w, actions) == w
    decreases |actions|
  {
    if actions == [] {
    } else {
      var a := actions[0];
      SettledPlansNothing(h, w.files, drills, revision, a.command, a.now, a.drills);
      assert Prefix(PlanOf(h, a.drills, w.files, a.command, a.now).Ops(), a.cut) == [];
      SettledIsAbsorbing(h, w, actions[1..], drills, revision);
    }
  }

  /** The first operation of an accepted new cutover unsettles it: no release passes. */
  lemma NewCutoverUnsettles(h: Sha, w: World, a: Action, drills: Drills, release: string)
    requires a.command.BeginPostgres? && 1 <= a.cut
    requires PlanOf(h, a.drills, w.files, a.command, a.now).Perform?
    ensures CutoverRevision(h, drills, Execute(h, w, a).files, release) == None
    ensures forall revision :: !FinalValid(h, drills, Execute(h, w, a).files, revision)
  {
    var c := CommonFields(a.command.id).value;
    var fence := Write(InProgressMark, Progress(c, PostgresInProgress, a.now));
    var kept := if a.cut <= 7 then CLEARED_BY_BEGIN[..a.cut - 1] else CLEARED_BY_BEGIN;
    assert PlanOf(h, a.drills, w.files, a.command, a.now).ops == [fence] + Unlinks(CLEARED_BY_BEGIN);
    FenceOperations(w, fence, CLEARED_BY_BEGIN, a.cut);
    assert InProgressMark !in CLEARED_BY_BEGIN;
    assert InProgressMark !in kept;
    assert forall i :: 0 <= i < |Unlinks(kept)| ==> !Touches(Unlinks(kept)[i], InProgressMark);
    UntouchedMarker(Observe(w, fence), Unlinks(kept), InProgressMark);
  }

  /**
   A release other than the cutover release passes if and only if the cutover is settled,
   and then it is given the cutover's own revision.
   */
  lemma LaterReleaseIffSettled(h: Sha, s: Store, drills: Drills, release: string)
    requires IsRevision(release)
    requires FinalMark in s && s[FinalMark].FinalProof? && s[FinalMark].session.revision != release
    ensures var cutover := s[FinalMark].session.revision;
            && (CutoverRevision(h, drills, s, release).Some? <==> Settled(h, drills, s, cutover))
            && (Settled(h, drills, s, cutover) ==> CutoverRevision(h, drills, s, release) == Some(cutover))
  {
  }

  /** What a gate replies once the cutover is settled. */
  function SettledReply(gate: Gate): Reply {
    match gate
    case ValidateFinal => Silent
    case FirstStartStatus => FirstStartConsumed
    case EnsureIngressFreeze => Ingress(Activated)
    case IngressStatusGate => Ingress(Activated)
  }

  /**
   Once one later release has passed, then after any commands but begin-postgres, whatever
   crashes, every release resolves to the same cutover revision, and every gate of it gives
   the settled reply and writes nothing.
   */
  lemma OneLaterReleaseMeansAll(
      h: Sha, w: World, actions: seq<Action>, drills: Drills, passed: string, release: string, gate: Gate, now: Stamp)
    requires CutoverRevision(h, drills, w.files, passed).Some?
    requires w.files[FinalMark].session.revision != passed
    requires NoNewCutover(actions) && IsRevision(release)
    ensures var s := Run(h, w, actions).files;
            && CutoverRevision(h, drills, s, release) == CutoverRevision(h, drills, w.files, passed)
            && PlanGate(h, drills, s, gate, release, now) == Perform([], SettledReply(gate))
  {
    var cutover := w.files[FinalMark].session.revision;
    LaterReleaseIffSettled(h, w.files, drills, passed);
    SettledIsAbsorbing(h, w, actions, drills, cutover);
  }

  /** The gates of every later release write no file and agree on the settled answers. */
  lemma LaterGatesWriteNothing(h: Sha, s: Store, drills: Drills, gate: Gate, release: string, now: Stamp)
    requires FinalMark in s ==> s[FinalMark].FinalProof? && s[FinalMark].session.revision != release
    ensures PlanGate(h, drills, s, gate, release, now).Ops() == []
    ensures PlanGate(h, drills, s, gate, release, now).Perform? ==>
              && FinalMark in s && Settled(h, drills, s, s[FinalMark].session.revision)
              && PlanGate(h, drills, s, gate, release, now).reply == SettledReply(gate)
  {
  }

  /** The one gate that may write, and only for the cutover release itself. */
  lemma GateWritesOnlyFreeze(h: Sha, s: Store, drills: Drills, gate: Gate, release: string, now: Stamp)
    requires PlanGate(h, drills, s, gate, release, now).Ops() != []
    ensures gate == EnsureIngressFreeze && IngressMark !in s
    ensures FinalValid(h, drills, s, release) && s[FinalMark].session.revision == release
  {
  }
}
