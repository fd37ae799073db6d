/**
 What each read-only gate replies after any run, for the cutover release itself as well as
 for a later one, in terms of the files and of the session begun last.
 */
module ReleaseGates {
  import opened Patterns
  import opened EvidenceStore
  import opened CutoverPlan
  import opened CutoverRuns
  import opened CutoverInvariant
  import opened CutoverFinality
  import opened FirstStart
  import opened IngressRuns

  /** The finalized session was begun last, and the drill evidence it names is there unchanged. */
  ghost predicate ChainStands(h: Sha, drills: Drills, w: World, cutover: string) {
    && InProgressMark !in w.files
    && w.begun.Some? && w.begun.value.revision == cutover
    && FinalMark in w.files && w.files[FinalMark].FinalProof?
    && MarkerNamesAccepted(w.files[FinalMark].recoveryName, w.files[FinalMark].retentionName)
    && DrillsUnchanged(h, drills, w.files[FinalMark])
  }

  /** The release is the one that the final proof names. */
  predicate OwnRelease(s: Store, release: string) {
    FinalMark in s && s[FinalMark].FinalProof? && s[FinalMark].session.revision == release
  }

  lemma StandsIffValid(h: Sha, actions: seq<Action>, drills: Drills, cutover: string)
    requires PrintsSha256(h) && NoSecondPreimage(h, drills)
    ensures var w := Run(h, EMPTY_WORLD, actions);
            && (ChainStands(h, drills, w, cutover) <==> FinalValid(h, drills, w.files, cutover))
            && (ChainStands(h, drills, w, cutover) ==>
                  IsRevision(cutover) && w.files[FinalMark].session == w.begun.value)
  {
    FinalityCharacterised(h, actions, drills, cutover);
    RunKeepsPhase(h, EMPTY_WORLD, actions);
  }

  /** Before any gate the release is resolved; its own release stays itself unless a check fails. */
  lemma OwnRevision(h: Sha, s: Store, drills: Drills, release: string)
    requires OwnRelease(s, release)
    ensures CutoverRevision(h, drills, s, release) ==
            if IsRevision(release) && InProgressMark !in s then Some(release) else None
  {
  }

  /**
   The validate-final gate passes no release whose chain does not stand, not even the
   cutover's own, and passes that one exactly when it stands.
   */
  lemma ValidateFinalGate(h: Sha, actions: seq<Action>, drills: Drills, release: string, now: Stamp)
    requires PrintsSha256(h) && NoSecondPreimage(h, drills)
    ensures var w := Run(h, EMPTY_WORLD, actions);
            var plan := PlanGate(h, drills, w.files, ValidateFinal, release, now);
            && (plan.Perform? ==>
                  && FinalMark in w.files && w.files[FinalMark].FinalProof?
                  && ChainStands(h, drills, w, w.files[FinalMark].session.revision))
            && (OwnRelease(w.files, release) ==>
                  (plan == Perform([], Silent) <==> ChainStands(h, drills, w, release))
                  && (plan.Perform? <==> ChainStands(h, drills, w, release)))
  {
    var s := Run(h, EMPTY_WORLD, actions).files;
    if FinalMark in s && s[FinalMark].FinalProof? {
      StandsIffValid(h, actions, drills, s[FinalMark].session.revision);
      if OwnRelease(s, release) {
        OwnRevision(h, s, drills, release);
      }
    }
  }

  /** The consumed marker repeats the final proof's identity, hash and digests. */
  predicate ConsumedFor(h: Sha, e: Evidence, f: Evidence)
    requires f.FinalProof?
  {
    e.ConsumedProof? && e.session == f.session && e.finalSha == h(f) && e.target == f.target
  }

  /** The first-start gate of the cutover release. */
  lemma FirstStartGate(h: Sha, actions: seq<Action>, drills: Drills, release: string, now: Stamp)
    requires PrintsSha256(h) && NoSecondPreimage(h, drills)
    requires OwnRelease(Run(h, EMPTY_WORLD, actions).files, release)
    ensures var w := Run(h, EMPTY_WORLD, actions);
            var s, plan := w.files, PlanGate(h, drills, w.files, FirstStartStatus, release, now);
            && (plan == Perform([], FirstStartRequired) <==>
                  ChainStands(h, drills, w, release) && ArmedMark !in s && ConsumedMark !in s)
            && (plan == Perform([], FirstStartConsumed) <==>
                  && ChainStands(h, drills, w, release) && ArmedMark !in s
                  && ConsumedMark in s && ConsumedFor(h, s[ConsumedMark], s[FinalMark]))
            && (plan.Perform? ==> plan == Perform([], FirstStartRequired) || plan == Perform([], FirstStartConsumed))
  {
    StandsIffValid(h, actions, drills, release);
    OwnRevision(h, Run(h, EMPTY_WORLD, actions).files, drills, release);
  }

  /** The ingress state repeats the final proof's cutover, release, hash and source revision. */
  predicate IngressFor(h: Sha, e: Evidence, f: Evidence)
    requires f.FinalProof?
  {
    && e.IngressState?
    && e.cutoverId == f.session.cutoverId && e.revision == f.session.revision
    && e.finalSha == h(f) && e.sourceRevision == f.sourceRevision
  }

  lemma IngressStands(h: Sha, actions: seq<Action>, drills: Drills, release: string)
    requires PrintsSha256(h) && NoSecondPreimage(h, drills)
    requires OwnRelease(Run(h, EMPTY_WORLD, actions).files, release)
    ensures var w := Run(h, EMPTY_WORLD, actions);
            IngressValid(h, drills, w.files, release) <==>
            && ChainStands(h, drills, w, release)
            && IngressMark in w.files && IngressFor(h, w.files[IngressMark], w.files[FinalMark])
  {
    StandsIffValid(h, actions, drills, release);
    RunKeepsIngress(h, EMPTY_WORLD, actions);
  }

  /** The two ingress gates of the cutover release. */
  lemma IngressGates(h: Sha, actions: seq<Action>, drills: Drills, release: string, now: Stamp)
    requires PrintsSha256(h) && NoSecondPreimage(h, drills)
    requires OwnRelease(Run(h, EMPTY_WORLD, actions).files, release)
    ensures var w := Run(h, EMPTY_WORLD, actions);
            var s, f := w.files, w.files[FinalMark];
            var status := PlanGate(h, drills, s, IngressStatusGate, release, now);
            var freeze := PlanGate(h, drills, s, EnsureIngressFreeze, release, now);
            var stands := ChainStands(h, drills, w, release);
            && (status.Perform? <==> stands && IngressMark in s && IngressFor(h, s[IngressMark], f))
            && (status.Perform? ==> status == freeze == Perform([], Ingress(s[IngressMark].ingress)))
            && (freeze.Perform? <==> stands && (IngressMark in s ==> IngressFor(h, s[IngressMark], f)))
            && (freeze.Perform? && IngressMark !in s ==>
                  freeze == Perform(
                    [Write(IngressMark, IngressState(f.session.cutoverId, f.session.revision, VERSION, h(f),
                                                     f.sourceRevision, Required, now))], Ingress(Required)))
  {
    StandsIffValid(h, actions, drills, release);
    IngressStands(h, actions, drills, release);
    OwnRevision(h, Run(h, EMPTY_WORLD, actions).files, drills, release);
  }
}
