/**
 Runs of the cutover tool: any commands from any sessions, each possibly cut off between
 two of its file operations.  The world carries, beside the files, what happened so far.
 */
module CutoverRuns {
  import opened Patterns
  import opened EvidenceStore
  import opened CutoverPlan

  /** A first start was armed for this final proof with these digests. */
  datatype Arming = Arming(final: Evidence, target: TargetState)

  datatype World = World(
    files: Store,
    begun: Option<Session>,
    armed: set<Arming>,
    ingress: seq<IngressStatus>)

  const EMPTY_WORLD := World(map[], None, {}, [])

  /** One file operation, and what the history learns from it. */
  function Observe(w: World, op: FileOp): World {
    var files := Apply(w.files, op);
    match op
    case Write(InProgressMark, Progress(c, PostgresInProgress, _)) => w.(files := files, begun := Some(c))
    case Write(ArmedMark, ArmedProof(_, _, target, _)) =>
      if FinalMark in w.files
      then w.(files := files, armed := w.armed + {Arming(w.files[FinalMark], target)})
      else w.(files := files)
    case Write(IngressMark, state) =>
      if state.IngressState? then w.(files := files, ingress := w.ingress + [state.ingress])
      else w.(files := files)
    case _ => w.(files := files)
  }

  function ObserveAll(w: World, ops: seq<FileOp>): World
    decreases |ops|
  {
    if ops == [] then w else ObserveAll(Observe(w, ops[0]), ops[1..])
  }

  /** A command at some moment; `cut` operations happen before a crash, if that many exist. */
  datatype Action = Action(command: Command, now: Stamp, drills: Drills, cut: nat)

  function Prefix(ops: seq<FileOp>, cut: nat): seq<FileOp> {
    if cut <= |ops| then ops[..cut] else ops
  }

  function Execute(h: Sha, w: World, a: Action): World {
    ObserveAll(w, Prefix(PlanOf(h, a.drills, w.files, a.command, a.now).Ops(), a.cut))
  }

  function Run(h: Sha, w: World, actions: seq<Action>): World
    decreases |actions|
  {
    if actions == [] then w else Run(h, Execute(h, w, actions[0]), actions[1..])
  }

  /** The command was accepted and ran to its end. */
  predicate Completes(h: Sha, w: World, a: Action) {
    var plan := PlanOf(h, a.drills, w.files, a.command, a.now);
    plan.Perform? && |plan.ops| <= a.cut
  }

  lemma {:induction false} RunAppend(h: Sha, w: World, first: seq<Action>, second: seq<Action>)
    ensures Run(h, w, first + second) == Run(h, Run(h, w, first), second)
    decreases |first|
  {
    if first == [] {
      assert first + second == second;
    } else {
      assert (first + second)[1..] == first[1..] + second;
      RunAppend(h, Execute(h, w, first[0]), first[1..], second);
    }
  }

  lemma {:induction false} ObservedFiles(w: World, ops: seq<FileOp>)
    ensures ObserveAll(w, ops).files == ApplyAll(w.files, ops)
    decreases |ops|
  {
    if ops == [] {
    } else {
      ObservedFiles(Observe(w, ops[0]), ops[1..]);
    }
  }

  /** The three worlds a crash can leave inside a list of two operations. */
  lemma TwoOperations(w: World, a: FileOp, b: FileOp, cut: nat)
    ensures ObserveAll(w, Prefix([a, b], cut)) ==
            if cut == 0 then w else if cut == 1 then Observe(w, a) else Observe(Observe(w, a), b)
  {
    if cut == 1 {
      assert [a, b][..1] == [a];
      assert ObserveAll(w, [a]) == ObserveAll(Observe(w, a), []);
    } else if cut != 0 {
      assert Prefix([a, b], cut) == [a, b];
      assert ObserveAll(w, [a, b]) == ObserveAll(Observe(w, a), [b]);
      assert ObserveAll(Observe(w, a), [b]) == ObserveAll(Observe(Observe(w, a), b), []);
    }
  }

  lemma OneOperation(w: World, a: FileOp, cut: nat)
    ensures ObserveAll(w, Prefix([a], cut)) == if cut == 0 then w else Observe(w, a)
  {
    if cut != 0 {
      assert Prefix([a], cut) == [a];
      assert ObserveAll(w, [a]) == ObserveAll(Observe(w, a), []);
    }
  }

  /** The worlds a crash can leave inside a fence followed by removals. */
  lemma FenceOperations(w: World, fence: FileOp, markers: seq<Marker>, cut: nat)
    ensures ObserveAll(w, Prefix([fence] + Unlinks(markers), cut)) ==
            if cut == 0 then w
            else ObserveAll(Observe(w, fence), Unlinks(if cut <= |markers| then markers[..cut - 1] else markers))
  {
    if cut != 0 {
      var ops := [fence] + Unlinks(markers);
      var kept := if cut <= |markers| then markers[..cut - 1] else markers;
      assert Prefix(ops, cut) == [fence] + Unlinks(kept);
      assert ([fence] + Unlinks(kept))[1..] == Unlinks(kept);
    }
  }
}
