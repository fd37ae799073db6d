# Cutover, schema and alert tooling: a Dafny model

This project models the deployment tooling under `deploy/` of LectureSift and proves what
that tooling promises over whole runs: crashes between two file operations, several
sessions, failing saves and sends, and an environment that moves while it is being read.
`dafny verify dfyconfig.toml` checks everything.

## How the model is built

**Evidence files.** A store maps marker names to records. `CutoverPlan` gives for each
command its guard and its ordered list of atomic operations; `EvidenceCommands` holds the
commands as methods that change the store one operation at a time and are proved to perform
exactly the plan. `CutoverRuns` defines runs: any commands of any sessions, each cut off
after any number of its operations, with arbitrary time stamps and with drill files that may
change between commands. SHA-256 is a function of a record's fields. Finality needs only
that it prints 64 hexadecimal digits; the one equivalence about drill files also needs that
no other content hashes like a drill file that is present. On this base stand
`CutoverInvariant` and `CutoverFinality` (phases), `SafeWrites` (no planned write is refused),
`Provenance` (where finalized values come from), `FirstStart` and `InterruptedBegin`,
`IngressRuns`, `SettledCutover` and `ReleaseGates`. `EvidenceBinding` says what the guards
promise of a directory that some other hand has changed. `Counterexamples` holds runs from an empty directory that
show the unexpected conditions below to be reachable.

**Executor stop.** `ExecutorStop` is the reader: six reads in their order, then the checks.
`StopTimeline` is the environment: cron runs and worker instances, suspensions and
resumptions in any interleaving with the reads.

**Schema transition.** `SchemaManifest` is the integrity check, `SchemaTransition` the three
acceptance relations, `SchemaVerifier` the verifier's loops, `SchemaRelease` the transaction
that the three psql drivers share, `ManifestMeaning` what acceptance says line by line,
`ContractState` the choice of the contract. `ManifestRendering`, `DatabaseContent` and
`IntendedMigration` print the manifests of databases and show that what should be accepted is. One `Contract`
record stands for verifiers v3 to v6, which run the same algorithm on different table sets.

**Alerts.** `FailureAlert` is delivery within a deadline and the hourly record; `StatusAlert`
is the daily check with its state file.

**Codecs.** `RespCodec`, `RespReader` and `RespReplies` (both Redis clients, by their limits),
`KeyspaceManifest`, `EvidenceText` and `Pgpass`.

## What the code does not do

Three places where the code does less than one might expect. Each is proved as an exact
condition, and each is reached by a run of accepted commands from an empty directory.

1. `finalize` does not check the form of the two marker names, but `validate-final` does. A
   finalize with other names removes the fence and leaves a chain that `validate-final`
   refuses (`CutoverFinality.FinalizeAcceptedIffNames`), and no command but a new begin ever
   changes that (`Counterexamples.RefusedNamesNeedNewCutover`,
   `Counterexamples.RefusedNamesHappen`).
2. A comment in `begin_postgres` calls a crash before the removal of old evidence safe, since
   production preflight rejects the fence. The fence does protect production, but the same
   session can go on from there, and then nothing removes the first-start markers any more.
   The session still finalizes, but no commands without a new begin ever consume its first
   start, unless the crash came after the operation that removed the last marker
   (`InterruptedBegin.BeginCrashAndFirstStart`, `Counterexamples.LostFirstStartHappens`).
3. No command removes the ingress state. A later cutover finds every ingress command refused
   if and only if the state on disk names another cutover, release, final proof or source
   revision (`IngressRuns.IngressOutlivesCutover`, `Counterexamples.BlockedIngressHappens`).

One thing the code does right is shown to be needed: with the two event reads of the stop
proof in the other order, the same checks accept truthful responses while a run is active
(`StopTimeline.StartedFirstIsUnsound`).

## Model

| member | source | states |
|---|---|---|
| CutoverInvariant.StepKeepsPhase | deploy/provider_cutover_evidence.py:414-1056 | Every command, cut off after any number of its file operations, keeps the invariant that ties each phase value to the proofs that must exist, match and be consistent, and the absence of the fence to a complete final chain. |
| CutoverInvariant.FenceKeepsPhase | deploy/provider_cutover_evidence.py:420-435 | Raising the fence first makes a crash at any of the removals behind it harmless to the phase invariant. |
| CutoverInvariant.OuterCommandKeepsPhase | deploy/provider_cutover_evidence.py:1274-1666 | First-start, ingress and gate commands, cut off anywhere, cannot disturb the cutover proofs. |
| CutoverFinality.RunKeepsPhase | deploy/provider_cutover_evidence.py:414-1056 | The phase invariant holds after any run of whole or truncated commands of any sessions. |
| CutoverFinality.Finality | deploy/provider_cutover_evidence.py:1059-1163 | After any run, an accepted final proof belongs to the session begun last, the four proofs share its identity, and every recorded proof hash is that of the file now on disk. |
| CutoverFinality.FinalityCharacterised | deploy/provider_cutover_evidence.py:1059-1163 | After any run, validate-final accepts if and only if the fence is gone, the last session has this revision, the marker names have the accepted form and the drill files are unchanged: no run makes another check fail. |
| CutoverFinality.FinalizeAcceptedIffNames | deploy/provider_cutover_evidence.py:914-1056 | A completed finalize is accepted afterwards if and only if the two marker names have the form that only validate-final checks. |
| CutoverFinality.AdvancePhase | deploy/provider_cutover_evidence.py:445-766 | In every phase that a crash can leave, the command that the phase calls for passes its guards and brings the next phase. |
| CutoverFinality.NoStrandedSession | deploy/provider_cutover_evidence.py:438-1056 | From every state that keeps the invariant and has the fence, the remaining commands of that session (at most five) pass all guards and leave an accepted final proof, given matching drill evidence. |
| CutoverFinality.NoStrandedRun | deploy/provider_cutover_evidence.py:438-1056 | The same for every state that any run can reach. |
| Provenance.RunKeepsSourced | deploy/provider_cutover_evidence.py:445-1056 | Over any run, each value of each proof on disk was an argument of some command of the session that the proof names. |
| Provenance.FinalizedValuesWereGiven | deploy/provider_cutover_evidence.py:914-1163 | The four digests of an accepted final proof come from the PostgreSQL and Redis writes of the session begun last, its snapshot, backup set and repository from its seed write. |
| Provenance.GivenDigestsAreFinalized | deploy/provider_cutover_evidence.py:1298-1310 | In any directory, an arming that writes and an accepted recovery were given exactly the four digests of the final proof on disk. |
| Provenance.ConsumedDigestsWereGiven | deploy/provider_cutover_evidence.py:1274-1383 | After any run, a consumed first start means that some arming of that release was itself given the finalized digests. |
| Provenance.RecoveredDigestsWereGiven | deploy/provider_cutover_evidence.py:1386-1458 | After any run, the digests in the audit record of a recovery were given to a recovery of that release. |
| EvidenceBinding.FenceExcludes | deploy/provider_cutover_evidence.py:414-442 | In any directory, while the fence is up only the command its phase waits for, with the fence's own identity, changes a file; without the fence no phase command does. |
| EvidenceBinding.BeginsIffFree | deploy/provider_cutover_evidence.py:414-419 | A new cutover begins if and only if no fence is up and its identity is well formed. |
| EvidenceBinding.CompletedRedisBeginClears | deploy/provider_cutover_evidence.py:520-525 | A completed begin-redis removes exactly the final, Redis and seed proofs and keeps every other record. |
| EvidenceBinding.AcceptedRedisBuildsOnPostgres | deploy/provider_cutover_evidence.py:509-560 | In any directory, an accepted begin-redis or write-redis has a sound PostgreSQL proof of its own session, with the given worker-stop digest. |
| EvidenceBinding.AcceptedSeedBuildsOnSteps | deploy/provider_cutover_evidence.py:584-732 | In any directory, an accepted seed has sound proofs of both steps at rest and repeats their contract and digests. |
| EvidenceBinding.AcceptedFinalBuildsOnSeed | deploy/provider_cutover_evidence.py:914-1021 | In any directory, an accepted finalize has a seed bound to both steps by hash and digest, and drill evidence that restored this seed completely. |
| EvidenceBinding.AcceptedChainBinds | deploy/provider_cutover_evidence.py:1059-1163 | In any directory, an accepted chain is of one session throughout, with every hash, digest and drill field as on disk. |
| EvidenceBinding.ProofTamperIsNoticed | deploy/provider_cutover_evidence.py:1082-1096 | Replacing a step proof of an accepted chain by one with another hash, or removing it, is noticed. |
| EvidenceBinding.DrillTamperIsNoticed | deploy/provider_cutover_evidence.py:1142-1147 | Changing or removing a drill file that an accepted chain names is noticed. |
| EvidenceBinding.AcceptedDrillIsComplete | deploy/provider_cutover_evidence.py:971-988 | After any run, an accepted chain names a drill with all five completeness fields, although validate-final does not read them. |
| EvidenceCommands.EvidenceRoot.BeginPostgresCommand | deploy/provider_cutover_evidence.py:414-435 | The method performs exactly the planned operations in order, and none when it refuses. |
| EvidenceCommands.EvidenceRoot.WritePostgresCommand | deploy/provider_cutover_evidence.py:445-506 | Proof first, phase second; nothing when a guard refuses. |
| EvidenceCommands.EvidenceRoot.BeginRedisCommand | deploy/provider_cutover_evidence.py:509-525 | New phase first, outdated proofs removed after it; nothing when refused. |
| EvidenceCommands.EvidenceRoot.WriteRedisCommand | deploy/provider_cutover_evidence.py:528-581 | Proof first, phase second, only for the worker-stop digest of the PostgreSQL proof. |
| EvidenceCommands.EvidenceRoot.WriteSeedCommand | deploy/provider_cutover_evidence.py:584-766 | Seed proof first, phase second, only when all digests repeat the two step proofs. |
| EvidenceCommands.EvidenceRoot.FinalizeCommand | deploy/provider_cutover_evidence.py:914-1056 | Final proof first, fence removed after it, only when seed, steps and drill evidence agree. |
| FirstStart.StatusForetells | deploy/provider_cutover_evidence.py:1253-1458 | Status required means exactly that arming with the finalized digests would write the armed marker; consumed exactly that arming and completing would each reply so and write nothing; recovery is refused under both. |
| EvidenceCommands.EvidenceRoot.ArmFirstStartCommand | deploy/provider_cutover_evidence.py:1274-1327 | Writes the armed marker only for exactly the finalized digests and only when the start is still required. |
| EvidenceCommands.EvidenceRoot.CompleteFirstStartCommand | deploy/provider_cutover_evidence.py:1330-1383 | Consumed proof first, armed marker removed after it. |
| EvidenceCommands.EvidenceRoot.RecoverFirstStartCommand | deploy/provider_cutover_evidence.py:1386-1458 | Audit record first, armed marker removed after it, only for re-proved state. |
| EvidenceCommands.EvidenceRoot.EnsureIngressFreezeCommand | deploy/provider_cutover_evidence.py:1529-1549 | Creates the state when there is none; either way a reply names the status of a valid state. |
| EvidenceCommands.EvidenceRoot.BeginIngressHandoffCommand | deploy/provider_cutover_evidence.py:1596-1622 | Freeze and handoff, or the handoff alone, or nothing, as planned. |
| EvidenceCommands.EvidenceRoot.TransitionIngressCommand | deploy/provider_cutover_evidence.py:1625-1666 | One write, and only along an allowed transition. |
| EvidenceCommands.EvidenceRoot.ReadOnlyGateCommand | deploy/provider_cutover_evidence.py:1677-1730 | Reply and operations are those of the planned gate. |
| ReleaseGates.ValidateFinalGate | deploy/provider_cutover_evidence.py:1711-1723 | After any run no release passes unless the final chain stands (fence gone, session begun last, accepted names, drill files unchanged), and the cutover's own release passes exactly then. |
| ReleaseGates.FirstStartGate | deploy/provider_cutover_evidence.py:1724-1725 | For the cutover release, required exactly when the chain stands with no marker, consumed exactly with a matching proof and no armed marker, refused otherwise. |
| ReleaseGates.IngressGates | deploy/provider_cutover_evidence.py:1726-1730 | For the cutover release, status and freeze reply the state on disk exactly when it belongs to the standing chain; without a state only the freeze passes, and writes it. |
| EvidenceCommands.EvidenceRoot.RemoveAll | deploy/provider_cutover_evidence.py:426-435 | Removes the markers one at a time, in the given order. |
| FirstStart.ConsumedOnlyAfterArming | deploy/provider_cutover_evidence.py:1274-1383 | After any run, a consumed first start was armed before, for a final proof with the hash on disk and with exactly its four digests. |
| FirstStart.FirstStartStep | deploy/provider_cutover_evidence.py:1274-1458 | Without a new cutover, no command at any crash point removes the consumed proof, creates one without a valid armed marker, or drops an armed marker without the consumed proof or the audit record of a recovery. |
| FirstStart.RunKeepsConsumed | deploy/provider_cutover_evidence.py:1253-1458 | Over any run without a new cutover, whatever crashes, consumed is never lost. |
| FirstStart.RequiredOnlyAfterRecovery | deploy/provider_cutover_evidence.py:1253-1458 | Once armed, over any crashes, status says required again only when the audit record of a recovery binds the final proof on disk. |
| FirstStart.RecoveryReconciles | deploy/provider_cutover_evidence.py:1386-1458 | Recovery with both markers present always ends in consumed. |
| FirstStart.RecoveryRetries | deploy/provider_cutover_evidence.py:1386-1458 | Recovery with only the armed marker always ends with the start required again and the recovery on record. |
| FirstStart.FinishingConsumes | deploy/provider_cutover_evidence.py:1274-1458 | From whatever a crash left of this cutover's first start, at most two commands consume it. |
| FirstStart.FirstStartPossibleIffUnspoilt | deploy/provider_cutover_evidence.py:1253-1458 | A finalized cutover can still have its first start consumed if and only if the first-start markers on disk belong to it. |
| InterruptedBegin.CompletedBeginClears | deploy/provider_cutover_evidence.py:414-435 | A completed begin leaves the fence and, if there was one, the ingress state, and nothing else. |
| InterruptedBegin.ForeignMarkerBlocks | deploy/provider_cutover_evidence.py:1174-1458 | While a first-start marker of another session is on disk, no run without a new cutover consumes the first start of the session begun last. |
| InterruptedBegin.CrashedBeginFinalizes | deploy/provider_cutover_evidence.py:420-435 | After begin stopped at any operation the session still finalizes, with exactly the first-start markers that the crash left. |
| InterruptedBegin.BeginCrashAndFirstStart | deploy/provider_cutover_evidence.py:420-435 | After begin stopped at any operation, some run without a new cutover consumes the first start if and only if the crash came after the removal of every first-start marker of an earlier session. |
| Counterexamples.RefusedNamesNeedNewCutover | deploy/provider_cutover_evidence.py:1134-1139 | A final proof with refused marker names is never validated by any run without a new cutover. |
| Counterexamples.RefusedNamesHappen | deploy/provider_cutover_evidence.py:914-1056 | Accepted commands from an empty directory lead to such a final proof. |
| Counterexamples.LostFirstStartHappens | deploy/provider_cutover_evidence.py:420-435 | For an armed and for a consumed marker alike, some run from an empty directory leaves a valid final chain whose first start only a new cutover can help. |
| Counterexamples.BlockedIngressHappens | deploy/provider_cutover_evidence.py:1468-1666 | Two whole cutovers of accepted commands, the first with an ingress handoff, leave the second with every ingress command refused. |
| SafeWrites.PlannedWritesAreSafe | deploy/provider_cutover_evidence.py:166-173 | After any run, every value that any command plans to record passes the check of the atomic write, so a command stops between two operations only by a crash. |
| IngressRuns.StepKeepsIngress | deploy/provider_cutover_evidence.py:1529-1666 | Every command, cut off anywhere, extends the written statuses only along allowed edges and never changes what the state identifies. |
| IngressRuns.RunKeepsIngress | deploy/provider_cutover_evidence.py:1503-1666 | Over any run the cutover, release, final-proof hash and source revision of the ingress state never change. |
| IngressRuns.ActivatedOnlyAfterHandoff | deploy/provider_cutover_evidence.py:1632-1666 | In any run, activated is the last status ever written, directly after handoff and awaiting activation, so with no restore since the handoff. |
| IngressRuns.IngressIdempotent | deploy/provider_cutover_evidence.py:1596-1666 | A completed ingress action repeated at once writes nothing and replies the same. |
| IngressRuns.TransitionIffEdge | deploy/provider_cutover_evidence.py:1632-1666 | For a valid state, an action is accepted if and only if its target is reached already or along an allowed edge, and writes exactly in the latter case. |
| IngressRuns.HandoffIffEdge | deploy/provider_cutover_evidence.py:1602-1622 | For a valid state, a handoff is accepted if and only if it is in progress already or allowed next. |
| IngressRuns.ActivationReachable | deploy/provider_cutover_evidence.py:1596-1666 | From every status of a valid state, at most four accepted commands reach activated. |
| IngressRuns.IngressOutlivesCutover | deploy/provider_cutover_evidence.py:1468-1549 | A finalized cutover finds every ingress command refused if and only if an earlier state names another cutover, release, final proof or source revision. |
| SettledCutover.SettledIsAbsorbing | deploy/provider_cutover_evidence.py:1669-1730 | In a settled cutover every run without begin-postgres, whatever crashes, leaves everything exactly as it was. |
| SettledCutover.NewCutoverUnsettles | deploy/provider_cutover_evidence.py:414-425 | The first operation of a new cutover already makes every release and every validation fail. |
| SettledCutover.OneLaterReleaseMeansAll | deploy/provider_cutover_evidence.py:1669-1730 | Once one later release has passed, after any run without begin-postgres every release resolves to the same cutover revision, and every gate of it gives the settled reply and writes nothing. |
| SettledCutover.LaterGatesWriteNothing | deploy/provider_cutover_evidence.py:1711-1730 | The gates of a later release write no file and can only give the settled answers. |
| SettledCutover.GateWritesOnlyFreeze | deploy/provider_cutover_evidence.py:1711-1730 | A gate writes only as the freeze of the cutover release itself, when there is no state yet. |
| ExecutorStop.CronRunIds | deploy/render_worker_stop_evidence.py:208-234 | Accepts exactly the lists below the page limit of exact events of distinct runs, and returns their run IDs. |
| ExecutorStop.WorkerStopDigest | deploy/render_worker_stop_evidence.py:237-346 | Sends the six reads in order, accepts exactly the accepted responses, and digests only what was observed. |
| ExecutorStop.AcceptedExactly | deploy/render_worker_stop_evidence.py:208-340 | Spelled out in the responses' own fields: accepted are exactly those of the two suspended executors, without instances, with fewer than a hundred exact events of distinct runs each and every started run ended, where both cron reads show one owner and the same reasons. |
| ExecutorStop.ObservedShows | deploy/render_worker_stop_evidence.py:327-346 | The digest covers the two executors with the owner and reasons that every read of them showed. |
| ExecutorStop.WindowStart | deploy/render_worker_stop_evidence.py:37-40 | The whole-second window start is never later than 13 hours before the clock, and less than a second earlier. |
| StopTimeline.AcceptedMeansIdle | deploy/render_worker_stop_evidence.py:254-327 | Under any interleaving, with runs of at most 12 hours and complete event lists, an accepted proof means no run was active at any moment from the ended read to the started read, even with a clock up to an hour ahead. |
| StopTimeline.AcceptedIffIdle | deploy/render_worker_stop_evidence.py:261-327 | For exact responses the proof is accepted if and only if no run was active between the two event reads. |
| StopTimeline.AcceptedMeansSuspended | deploy/render_worker_stop_evidence.py:258-277 | With truthful responses, an accepted proof means the job was suspended at the first and at the last cron read. |
| StopTimeline.IdleWhileSuspended | deploy/render_worker_stop_evidence.py:260-340 | Where runs start only while the job is not suspended, an accepted proof rules out any active run up to the first resumption after the first cron read. |
| StopTimeline.AcceptedMeansWorkerStopped | deploy/render_worker_stop_evidence.py:258-326 | With truthful responses, an accepted proof means the worker was suspended at the first read and had no instance at the second. |
| StopTimeline.NoInstanceWhileSuspended | deploy/render_worker_stop_evidence.py:258-326 | Where instances come up only while the worker is not suspended, an accepted proof rules out any instance until it is resumed. |
| StopTimeline.StartedFirstIsUnsound | deploy/render_worker_stop_evidence.py:261-266 | With started events read first, the same checks accept truthful responses of a well-behaved environment while a run is active at the later event read. |
| ManifestTamper.ExactlyOneFamily | deploy/verify_schema_transition_v6.py:250-257 | Every record of an accepted manifest belongs to exactly one family. |
| ManifestTamper.OrderDoesNotMatter | deploy/verify_schema_transition_v6.py:243-404 | Acceptance is invariant under any permutation of the lines before the terminal record. |
| ManifestTamper.SingleLineTamperIsNoticed | deploy/verify_schema_transition_v6.py:243-277 | Inserting or deleting any single non-blank line of an accepted manifest makes it rejected. |
| ManifestMeaning.ObjectTamperIsNoticed | deploy/verify_schema_transition_v6.py:308-327 | Replacing a schema object of an accepted manifest by one that changes the digest is noticed. |
| ManifestMeaning.VersionSeparates | deploy/verify_schema_transition_v6.py:258-264 | A manifest is accepted under one version only. |
| ManifestMeaning.AcceptedAnomalies | deploy/verify_schema_transition_v6.py:355-399 | The anomaly lines of an accepted manifest are exactly those of the due checks, each with a zero count. |
| ManifestMeaning.AcceptedHasNoFailures | deploy/verify_schema_transition_v6.py:388-404 | An accepted manifest has no difference and no unvalidated key, and a strict one no legacy marker. |
| ManifestMeaning.StatusesAgree | deploy/verify_schema_transition_v6.py:375-386 | No status is counted twice. |
| ManifestMeaning.PreservedByLines | deploy/verify_schema_transition_v6.py:447-458 | The preserved table's lines of an accepted manifest are exactly the reviewed ones. |
| ManifestText.CanonicalIsNumeral | deploy/verify_schema_transition_v6.py:48-49 | A canonical count is the one numeral of its value. |
| SchemaTransition.IntegrityFingerprints | deploy/verify_schema_transition_v6.py:329-404 | Integrity makes the markers exactly those of the tables without fingerprint, and table names unique and expected. |
| SchemaTransition.ExactDifference | deploy/verify_schema_transition_v6.py:474-537 | An accepted transition adds exactly the tables missing before, with exactly their reviewed objects and one empty fingerprint each; all other objects and data lines are unchanged. |
| SchemaTransition.TransitionIffExact | deploy/verify_schema_transition_v6.py:412-537 | A transition is accepted if and only if its source is accepted as legacy, its target as current, and they differ by exactly the tables the source was missing. |
| ManifestMeaning.TransitionByLines | deploy/verify_schema_transition_v6.py:507-535 | Line by line: every database, table, status and schema line of the source is in the target, and the others there are one empty fingerprint and the reviewed records of each table the source was missing. |
| DatabaseContent.GoodContentIsAccepted | deploy/verify_schema_transition_v6.py:243-404 | The manifest of every database with a good identity, expected tables, every due check at zero and a marker per missing release table is accepted, whatever its rows, fingerprints, objects and statuses are. |
| IntendedMigration.ReviewedIsAccepted | deploy/verify_schema_transition_v6.py:412-471 | Every such database with reviewed records is accepted as legacy, and as current when no table is missing. |
| IntendedMigration.MigrationIsAccepted | deploy/verify_schema_transition_v6.py:474-537 | From every such database, adding exactly the missing tables, empty and as reviewed, and changing nothing else is an accepted transition. |
| SchemaTransition.TransitionsCompose | deploy/verify_schema_transition_v6.py:474-537 | Accepted transitions compose, and the second of two changes nothing. |
| SchemaTransition.SelfTransitionIffCurrent | deploy/verify_schema_transition_v6.py:412-537 | A manifest is a transition of itself if and only if it is current. |
| SchemaTransition.CurrentIsLegacy | deploy/verify_schema_transition_v6.py:412-471 | A current manifest passes the legacy check in the current state. |
| SchemaTransition.ExpectedOfTable | deploy/verify_schema_transition_v6.py:178-203 | Of the union of all contracts, the records of one table are exactly that table's contract. |
| RowConservation.TransitionConservesRows | deploy/verify_schema_transition_v6.py:523-535 | The total row count is the same before and after an accepted transition. |
| SchemaTransition.CurrentIffNothingMissing | deploy/verify_schema_transition_v6.py:412-471 | A manifest is current if and only if it is accepted as legacy and fingerprints every expected table; then every release table has exactly its reviewed objects and no marker. |
| SchemaVerifier.VerifyCurrent | deploy/verify_schema_transition_v6.py:412-435 | For loaded contracts, returns the digest if and only if the manifest is accepted as legacy and misses no table, and then every release table is exactly as reviewed. |
| SchemaVerifier.AbsentTables | deploy/verify_schema_transition_v6.py:459-468 | The loop fails exactly when a release table is neither absent nor current, and otherwise returns the absent ones. |
| SchemaVerifier.VerifyLegacy | deploy/verify_schema_transition_v6.py:438-471 | Accepts exactly the legacy manifests, with their state. |
| SchemaVerifier.VerifyTransition | deploy/verify_schema_transition_v6.py:474-537 | Accepts exactly the permitted transitions, with their label and the same digest. |
| SchemaRelease.Session.Migrate | deploy/psql_product_release.py:80-137 | For every failing request the database afterwards is the source or a verified transition of it, made by the missing tables' statements and the grants; a count is reported if and only if no request fails, the guards hold, the statements take effect and the transition is accepted; evidence of the result is kept only then. |
| SchemaRelease.Session.Prepare | deploy/workspace_schema_release.py:40-63 | Statements are produced if and only if the source manifest is read and accepted as legacy, its inventory is expected and misses only releasable tables, and the script is reviewed; they are those of the tables it lacks. |
| SchemaRelease.SelectStatements | deploy/feedback_schema_release.py:54-68 | Refuses exactly the scripts with a statement outside the reviewed tables; otherwise the statements are those of the missing tables, as often and in the order of the scripts, and then the grants. |
| SchemaRelease.SentIffOfMissing | deploy/psql_product_release.py:113-126 | What is sent is the one list that holds each missing table's statements as often and in the order of the scripts, no others, and then the grants. |
| SchemaRelease.GuardedMeans | deploy/feedback_schema_release.py:49-62 | The guards hold if and only if the source is accepted as legacy, has only expected tables, misses only releasable ones, and the script names only reviewed ones. |
| SchemaRelease.ReleasableMeans | deploy/psql_product_release.py:113-130 | A guarded release goes through if and only if its statements turn the source into something that the verifier accepts. |
| SchemaRelease.CountIsTablesAdded | deploy/feedback_schema_release.py:50-75 | The reported count is the number of tables the transition added. |
| SchemaRelease.SecondRunAddsNothing | deploy/workspace_schema_release.py:45-70 | On the result of an accepted transition no table is missing, and only the grants are sent. |
| SchemaRelease.SecondRunReportsZero | deploy/psql_product_release.py:108-133 | A second finished run reports zero and has sent only grants. |
| ContractState.FamiliesAreNested | deploy/schema_contract_state.py:61-66 | The four table sets are strictly nested, so no inventory matches two of them. |
| ContractState.Classify | deploy/schema_contract_state.py:149-155 | Finds the one family with exactly this table set, or fails when there is none. |
| ContractState.ParseInventory | deploy/schema_contract_state.py:122-146 | Accepts exactly the inventories of distinct valid names with a matching terminal count, blank lines aside. |
| ContractState.InventoryIsAccepted | deploy/schema_contract_state.py:122-146 | Every list of distinct proper table names with its number is read as exactly those tables. |
| ContractState.Detect | deploy/schema_contract_state.py:158-164 | Returns a version if and only if the inventory is exact, is that version's table set, and the version is accepted. |
| FailureAlert.Sender.Deliver | deploy/service_failure_alert.py:360-408 | Reached, refused and not tried sum to the recipients and are the outcomes of exactly the requests made, to the first recipients in order; recipients are left out only when under 5 seconds remain; the callback runs right after the first acceptance; each request gets what is left of the 60 seconds, between 5 and 20; the loop ends by the deadline plus one pause. |
| FailureAlert.AcceptedIffInTime | deploy/service_failure_alert.py:391-399 | A request is accepted exactly when its attempt succeeds within the limit of the request, and otherwise counted under the name of its failure. |
| FailureAlert.DeliveryTimes | deploy/service_failure_alert.py:52-62 | In milliseconds: requests of 5000 to 20000 that end within 60000 of the start, an end by 60600, and recipients left out only after 55000. |
| FailureAlert.CallbackRunsOnce | deploy/service_failure_alert.py:376-399 | The first-delivery callback runs at most once. |
| FailureAlert.AlertRecord.Run | deploy/service_failure_alert.py:439-511 | Suppressed if and only if the last recorded alert, to whole seconds, is less than 3600 seconds ago and not ahead of now; stopped after any event, an alert that someone accepted goes unrecorded only when the save fails or the stop comes right after the first acceptance; recorded alerts stay more than 3599 seconds apart unless the clock moved back. |
| FailureAlert.LaterIsDelivered | deploy/service_failure_alert.py:415-421 | An hour after the last recorded alert, or with the clock a second behind it, nothing is suppressed; up to 3599 seconds after it everything is. |
| StatusAlert.ChangedFields | deploy/adsense_status_alert.py:430-431 | Lists exactly the differing fields, and none if and only if the snapshots are equal. |
| StatusAlert.Checker.RunCheck | deploy/adsense_status_alert.py:796-831 | Performs exactly the modelled effects in order; a daily check exits clean if and only if it left nothing undone. |
| StatusAlert.Checker.AfterSuccess | deploy/adsense_status_alert.py:721-752 | Reset saved before any email; the new snapshot saved at the first acceptance, before the next one. |
| StatusAlert.Checker.AfterFailure | deploy/adsense_status_alert.py:755-775 | Count saved before any email; an email only from the third failure on, once per streak. |
| StatusAlert.Checker.Send | deploy/adsense_status_alert.py:677-701 | The record is saved right after the first acceptance and only then. |
| StatusAlert.ReportChain | deploy/adsense_status_alert.py:721-793 | Over any checks, readings, send results, failing saves and stops, the saved snapshot moves from one value to another only right after an operator accepted the email composed from exactly those two, or the baseline. |
| StatusAlert.EveryoneIsToldOnce | deploy/adsense_status_alert.py:677-793 | A check that is not stopped is accepted once by every operator who can be reached, with exactly the email it owes for its reading and file, and no other. |
| StatusAlert.QuietChecksKeepSnapshot | deploy/adsense_status_alert.py:755-793 | Failed readings, and manual tests once a snapshot is saved, never move it. |
| StatusAlert.OneNoticePerStreak | deploy/adsense_status_alert.py:755-775 | Each failure streak without failing saves gets at most one accepted unreadable email. |
| StatusAlert.NoNoticeBeforeThird | deploy/adsense_status_alert.py:755-775 | No such email before the third failed reading. |
| StatusAlert.NoticeWhenReached | deploy/adsense_status_alert.py:755-775 | From the third failure on, the first check that reaches an operator notifies. |
| RespCodec.EncodeCommand | deploy/source_redis_guard.py:193-207 | The part-by-part loop builds exactly the command's frame. |
| RespCodec.ParseExtends | deploy/source_redis_guard.py:288-323 | A complete response is taken off identically whatever follows it in the stream. |
| RespCodec.CommandRoundTrip | deploy/source_redis_guard.py:193-323 | Parsing an encoded command within the limits returns exactly its parts and consumes exactly its bytes. |
| RespCodec.BothClientsRoundTrip | deploy/redis_logical_manifest.py:86-147 | The round trip holds for each client for every command within its own full limits. |
| RespReplies.ReplyOutcome | deploy/source_redis_guard.py:288-323 | For every reply a server can frame, nested arrays, nulls and errors included, both clients return exactly its meaning, leave exactly what follows, and refuse exactly what is beyond their limits. |
| RespReplies.SpacesDoNotMatter | deploy/redis_logical_manifest.py:112-132 | As in Python, white space around a number does not matter. |
| RespReplies.PlusDoesNotMatter | deploy/redis_logical_manifest.py:112-132 | A plus sign before a number does not matter either. |
| RespReplies.Underscores | deploy/redis_logical_manifest.py:112-132 | Single underscores between digits are read, any others and empty numbers refused. |
| RespCodec.CommandsArePrefixFree | deploy/source_redis_guard.py:193-207 | No encoded command is a prefix of another's encoding. |
| RespCodec.ParseDecimal | deploy/source_redis_guard.py:295-317 | Python's integer reading returns the number that was written. |
| RespReader.Stream.Exact | deploy/redis_logical_manifest.py:86-95 | Reading chunk by chunk gives the next bytes whatever the chunking was. |
| RespReader.Stream.Line | deploy/redis_logical_manifest.py:97-101 | Taking bytes up to a line feed, at most one over the limit, gives exactly the line or a protocol error. |
| RespReader.Stream.BulkResponse | deploy/redis_logical_manifest.py:117-127 | Payload and terminator, read chunk by chunk, give exactly the bulk string or a protocol error. |
| RespReader.Stream.Response | deploy/redis_logical_manifest.py:103-136 | The stateful reader returns exactly the parsed response and leaves exactly the bytes after it, whatever the chunking; it ends because unread input decreases. |
| RespReader.Stream.Items | deploy/source_redis_guard.py:313-322 | The element loop reads exactly the declared number of responses, in order. |
| KeyspaceManifest.FrameInjective | deploy/redis_logical_manifest.py:320-325 | Length-prefixed framing never maps two part lists to the same bytes. |
| KeyspaceManifest.FramedIsFaithful | deploy/redis_logical_manifest.py:320-325 | With a collision-free keyed hash, equal hashes mean equal keys, types and dumps. |
| KeyspaceManifest.ScanKeys | deploy/redis_logical_manifest.py:342-356 | Returns exactly the keys of all batches up to the zero cursor, within the limit. |
| KeyspaceManifest.ScannedUntilZero | deploy/redis_logical_manifest.py:342-356 | A scan ends at the first zero cursor with exactly the keys of the batches until then. |
| KeyspaceManifest.CaptureConditions | deploy/redis_logical_manifest.py:328-388 | A capture succeeds in steady operation exactly without the lock, and during a migration exactly with a string lock of the expected token and time left, over usable values. |
| KeyspaceManifest.Collect | deploy/redis_logical_manifest.py:359-410 | Succeeds exactly when lock and values allow it, with the manifest of the keyspace. |
| KeyspaceManifest.LogicalManifest | deploy/redis_logical_manifest.py:413-437 | On an unchanging keyspace a capturable one always gives the digest of its one manifest, whatever the two scans returned and even if key hashes collide; with a collision-free hash two captures agree if and only if they show the same. |
| KeyspaceManifest.ManifestUnique | deploy/redis_logical_manifest.py:359-410 | A keyspace has one manifest whatever the scan order, batching and duplication, for any keyed hash. |
| KeyspaceManifest.ManifestOrder | deploy/redis_logical_manifest.py:400-407 | The records rise by key hash, those of one key hash stay in key order, and they are exactly the covered keys' records. |
| KeyspaceManifest.ManifestIffView | deploy/redis_logical_manifest.py:372-410 | Equal manifests if and only if equal keys, types, dumps and expiries outside the ignored names. |
| KeyspaceManifest.IgnoresExactly | deploy/redis_logical_manifest.py:373-377 | Setting or removing a key goes unnoticed if and only if it is an ignored name or nothing changed. |
| EvidenceText.Payload | deploy/provider_cutover_evidence.py:166-188 | Refuses exactly the invalid fields and otherwise builds the sorted text. |
| EvidenceText.LoadFields | deploy/provider_cutover_evidence.py:296-313 | The loop refuses exactly the texts with a line without separator, a repeated key or invalid fields. |
| EvidenceText.LoadSpells | deploy/provider_cutover_evidence.py:306-313 | A loaded text has one line per field with its value, and no two lines name the same field. |
| EvidenceText.DistinctLinesLoad | deploy/provider_cutover_evidence.py:306-311 | Lines with separators and distinct keys are never refused as malformed. |
| EvidenceText.LoadOfPayload | deploy/provider_cutover_evidence.py:166-313 | Loading what an atomic write leaves returns exactly the written fields. |
| EvidenceText.PayloadIffFields | deploy/provider_cutover_evidence.py:166-313 | The bytes determine the fields and the fields determine the bytes. |
| Pgpass.TwoPassesAreOne | deploy/source_postgres_transport.py:287-288 | The two replacement passes equal one pass over the characters. |
| Pgpass.RecordRoundTrip | deploy/source_postgres_transport.py:291-299 | Splitting the written record at unescaped colons returns the five fields. |
| Pgpass.RecordInjective | deploy/source_postgres_transport.py:291-299 | Two configurations have the same record if and only if they are equal. |

## Left out

- Evidence records are typed: the constructor stands for the `status` field, so a file of
  the right name with a foreign status counts as the wrong record. Fields that no command
  ever reads are omitted, and time stamps are natural numbers, so the format check of
  `updated_at_utc` is not modelled.
- InterruptedBegin.BeginCrashAndFirstStart: is about markers of another session than the one being begun; a session begun again under its own identity is not covered.
- The spelling of each record's fields: `SafeWrites` covers the values, `EvidenceText` the bytes of any field map.
- SHA-256, HMAC and MD5 are function parameters. Collision freedom is assumed only where a
  lemma says so.
- File modes, ownership, symbolic links, fsync and temporary files: a write is one atomic
  replacement of a named record.
- `validate_seed_snapshot_document`, the source fingerprint and the command-line parser are
  not modelled; they decide nothing about the state machine.
- StopTimeline.AcceptedMeansIdle: assumes that runs last at most 12 hours and that a list below the page limit is complete, which only the remote service can guarantee.
- StopTimeline.IdleWhileSuspended: assumes besides that the remote service starts no run while the job is suspended.
- StopTimeline.NoInstanceWhileSuspended: assumes that no worker instance comes up while the worker is suspended.
- Control file parsing, JSON decoding, TLS and HTTP of the stop proof: responses arrive as JSON values or as a failed request.
- Reading a contract file is represented by what it guarantees (`ContractLoaded`), and splitting a manifest file into lines is taken as given.
- SQL text and PostgreSQL: a server is two functions, from a database to its manifests and from statements to their effect. Timeouts, roles, feature flags and the check of the evidence directory are outside the model.
- SchemaRelease.SecondRunReportsZero: needs that the printed manifest no longer depends on the legacy switch once nothing is missing, which only the manifest SQL can show.
- `manifest_contract_version` only compares one token with the route table.
- FailureAlert.Sender.Deliver: times are whole milliseconds, a request is cut off exactly at its limit and a pause takes exactly 0.6 seconds.
- FailureAlert.AlertRecord.Run: the record file is always a canonical number or absent; a foreign unreadable file, which counts as absent, is not modelled.
- Email text, settings parsing and recipients of both alerts. Loading a damaged state file as a fresh state and the validation of snapshots are not modelled, and the state lock is a flag.
- StatusAlert.Checker.RunCheck: the statement about the clean exit needs that the clock shows another time than the last saved check.
- Redis connections: sockets, TLS, authentication, PING and salt files. Text and integer arguments of commands arrive encoded.
- KeyspaceManifest.LogicalManifest: assumes that the keyspace does not change within one pass; between the two passes it may.
- KeyspaceManifest.ScanKeys: a scan that never returns to cursor zero is a script without end, which the model refuses and the source keeps reading.
- Encoding of texts as UTF-8: evidence and password records are sequences of characters.
- Rollback, rehearsal, supply-chain, role and configuration-snapshot tools, the R2 probes, the application package and the frontend: flat checks or user interface that would add only easier members.
