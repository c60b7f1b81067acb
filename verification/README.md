# Verified model of the release protocols

This project models the parts of the repository that decide whether a release is safe, and proves what
they are for. To verify: `dafny verify dfyconfig.toml` (Dafny 4.11).

| Modules | What they model |
|---|---|
| `LeaseRow`, `LeaseProtocol`, `LeaseInvariant`, `LeaseTheorems` | The remote mutation lease: one D1 row changed by guarded UPDATEs. A state machine with any number of operators (one live process per token), statements that are executed late or never, lost replies, crashes and resumption, arbitrary clocks, and migration processes that outlive their operators. |
| `LeaseClient` | The operator's code, function by function, as methods of a class whose history is a run of that machine; between any two of its actions everybody else may take any number of steps. |
| `StagingPrep` | `--prepare-staging-schema` on top of the same machine, with its flags and its cleanup. |
| `CutoverRows`, `CutoverControl` | Run rows and the control row under racing, crashed and delayed `_continue` callers. |
| `CutoverSurface` | Cron, Queue and the create-only control intents, one per source SHA, over repeated, crashing `--activate`, `--resume`, `--prepare-staging-schema` and `--repair-staging-schema-incident` at any sources: every command that touches them. |
| `Timeline`, `LiveAcceptance` | The two live collectors that read all Workers, work, and read all Workers again, with a log of what was read when. |
| `PredeployGate` | The bookmark-bracketed verification of the active projection generation. |
| `ProjectionStore`, `Projection`, `Publication` | Rendering a bundle to SQL statements, and any interleaving of such scripts with lost statements and abandoned scripts. |
| `TextScan`, `Multipart`, `MultipartPrinting`, `BundleMeaning` | The upload-bundle parser (section 5.1.1 of RFC 2046, section 4.2 of RFC 7578), printed bundles, and what bundles mean byte by byte. |
| `DdlNormaliser`, `ByteOrder`, `Fingerprint` | The quote-aware DDL normaliser and the order-insensitive table fingerprint with its reconciliation. |
| `Receipts` | Latest-receipt selection for the raw and product projections. |
| `ExportProtocol` | Every sequence of calls on the acquire / open / authenticate / consume capability, with any answers from outside. |
| `ExportAuthority` | The capability's code, as classes whose fields are tied to that sequence of calls. |
| `BackupContainer` | The encrypted backup file: framing, chunk loops, verification, publication. |
| `Outcomes` | `Option` and `Result`. |

What lies outside (Wrangler, HTTP, git, processes, files, clocks) appears as nondeterministic choice.
Hashes, signatures, the cipher and JSON codecs are parameters. Where a proof needs something of them it is
a `requires` of that member: a decrypting inverse and a fixed tag length for the cipher, no collision among
the rows that actually occur for row digests and canonical rows, a fresh deployment id for every deployment change, a fresh
bookmark for every database write.

## Where the code does less than one might expect

- **Restoration after a cutover.** A run is marked activated only when Cron and Queue have the values of its
  own intent, however often the operator crashed and at whatever source. But these need not be the values
  from before the first Cron stop. `CutoverSurface.OriginalIffCareful` gives the exact condition: every
  `--activate` and every `--prepare-staging-schema` that creates an intent does so while the live surface
  agrees with all intents and receipts on disk, of whatever source. Three ways to fail it are shown,
  each ending with an activated run and an empty schedule: resuming an already activated run while a later
  `--activate` holds the surface stopped (`CutoverSurface.EmptiedCronIsRestored`); activating at the next
  source after an activation stopped half-way (`CutoverSurface.NextSourceCapturesEmptied`); and preparing at
  the next source, which leaves an intent behind even if it is refused
  (`CutoverSurface.PreparationCapturesEmptied`). Two operating rules keep the condition
  (`CutoverSurface.DisciplineIsCareful`).
- **Module names with parameters in them.** The parser looks for `; name=` anywhere in the disposition, also
  inside quoted values. A safe module name such as `a;name=b` is printed correctly and refused.
  `MultipartPrinting.PrintThenParse` states exactly which names survive.
- **Late identity failures.** A failed identity check ends an export for good exactly if the identity was lost
  already before the call; if it is lost while `authenticate_local` runs, the call fails and the export stays
  (`ExportProtocol.FailedCheckIsFinalIffAtEntry`). If the identity is back at the next call, the export can
  still be certified (`ExportProtocol.CertifiedAfterFailure`).
- **Public surfaces.** Deployments carry ids, public surfaces do not. If no surface of the chain comes back
  between the opening and the closing read of it, the accepted surfaces existed together, in the same window
  as the deployments (`LiveAcceptance.ChainTogether`). Otherwise any evidence can be collected from an account
  that never shows its surfaces together (`LiveAcceptance.SurfacesNeverTogether`).
- **Projection cursors.** A bundle without equal positive cursors replaces whatever is active; and if its
  cursors are unequal, no exact bundle can replace it afterwards (`Publication.ActivationTakesEffect`).

## Model

| member | source | states |
|---|---|---|
| LeaseTheorems.LeaseExclusion | scripts/apply_ingestion_d1_migrations.py:738-791 | In every run, a launched migration that has not exited 0 has its own token in the row, in migrating or recovery_required, and there is never a second such process, of the same or another token. |
| LeaseTheorems.ForeignStepsKeepRow | scripts/apply_ingestion_d1_migrations.py:494-502 | A step on behalf of any other token leaves a row in migrating, verifying or recovery_required unchanged, whatever the clocks say. |
| LeaseTheorems.ClaimTakesExpired | scripts/apply_ingestion_d1_migrations.py:494-502 | One executed claim takes the row exactly if it is vacant, or acquired, unspawned and run out at the server's clock; then it writes token, identity, acquired, the new expiry and a cleared flag, and otherwise nothing. |
| LeaseTheorems.ChangeTakesOwn | scripts/apply_ingestion_d1_migrations.py:570-608 | One executed phase change takes exactly the sender's own row in a source phase, with time left where that is asked, and writes phase, flag and expiry only. |
| LeaseTheorems.ReleaseTakesOwn | scripts/apply_ingestion_d1_migrations.py:675-693 | One executed release vacates exactly the sender's own unspawned row, acquired or verifying, or recovery_required where that is allowed. |
| LeaseTheorems.TakeoverOnlyAfterExpiry | scripts/apply_ingestion_d1_migrations.py:494-502 | In every run a lease passes from one token to another only by a claim that is executed when the lease has run out, while it is acquired and unspawned. |
| LeaseTheorems.PhasesInOrder | scripts/apply_ingestion_d1_migrations.py:738-770 | In every run a lease that stays with its token keeps its phase, or goes from acquired to migrating with a cleared flag, or from migrating to verifying or recovery_required. |
| LeaseTheorems.RowInvariant | scripts/apply_ingestion_d1_migrations.py:592-608 | In every reachable state vacant, acquired and verifying imply remote_spawned=0, recovery_required implies remote_spawned=1, and the row is vacant exactly when it names no token, although renewals write back what they read earlier. |
| LeaseTheorems.UnfinishedStep | scripts/apply_ingestion_d1_migrations.py:657-693 | No single step of anybody takes the row from a migration that has not exited 0. |
| LeaseTheorems.OneLaunchPerTenure | scripts/apply_ingestion_d1_migrations.py:773-791 | Between one acquisition and the next at most one migration process is launched, also across crash and resume. |
| LeaseTheorems.VacatedOnlyWhenFinished | scripts/apply_ingestion_d1_migrations.py:657-693 | The row becomes vacant or passes to another tenure only if every process launched in this tenure exited 0. |
| LeaseTheorems.FailurePins | scripts/apply_ingestion_d1_migrations.py:759-770 | After a failed migration, in every later state of the run, the same token holds the row in migrating or recovery_required, the tenure is the same and nothing was launched again. |
| LeaseTheorems.TenureIdentity | scripts/apply_ingestion_d1_migrations.py:494-502 | Token and identity fields are constant over a whole tenure, and tenures never come back. |
| LeaseTheorems.DuringIsHistory | scripts/apply_ingestion_d1_migrations.py:536-567 | Every (phase, flag) pair recorded for an operator was shown by the row at an instant since its last statement was sent. |
| LeaseTheorems.LostReplyRecovery | scripts/apply_ingestion_d1_migrations.py:592-639 | When a phase transition returns normally, with or without its reply, there is the step at which this very transition sent its statement, and the row held the caller's token, the target phase and the requested flag at an instant after that step and not after the return. |
| LeaseTheorems.ReleaseVacated | scripts/apply_ingestion_d1_migrations.py:675-693 | A release that reports one changed row vacated the row after the release was called and before it returned. |
| LeaseTheorems.ChangesSent | scripts/apply_ingestion_d1_migrations.py:738-770 | In every run the phase changes under way are the claim, the acceptance and the surrender of a migration, and renewals, of which only those of an acquired or verifying unspawned lease ignore its expiry. |
| LeaseTheorems.LaunchAnnounced | scripts/apply_ingestion_d1_migrations.py:738-757 | A process is launched only after the row showed migrating with remote_spawned=1 under the launching token, since it last sent a statement. |
| LeaseTheorems.ConfirmedByRow | scripts/apply_ingestion_d1_migrations.py:536-567 | A call is confirmed only by a row with the caller's token and identity that is not vacant, shows the target phase if it was looked at a second time, and for an acquisition has not run out. |
| LeaseTheorems.RenewedByRow | scripts/apply_ingestion_d1_migrations.py:642-672 | A lease is renewed only from a row of the caller that has not run out, and resumed only from one that is acquired or verifying and unspawned. |
| LeaseTheorems.AcquireDecides | scripts/apply_ingestion_d1_migrations.py:472-493 | The first read of an acquisition: one's own lease that has run out is renewed, one's own that has not is confirmed, and any other is claimed. |
| LeaseTheorems.SecondLook | scripts/apply_ingestion_d1_migrations.py:609-629 | After an uncertain reply the call goes on only if the row already shows what was asked for, and is then confirmed strictly. |
| LeaseTheorems.ArmedByGuard | scripts/apply_ingestion_d1_migrations.py:391-432 | Migrations can begin only after a read that found the lease vacant, or one's own, acquired and unspawned. |
| LeaseTheorems.DeadlineKills | scripts/apply_ingestion_d1_migrations.py:717-735 | At the deadline a process that still runs is killed, which counts as a failure, and the recovery_required transition comes next. |
| LeaseInvariant.StepKeepsInv | scripts/apply_ingestion_d1_migrations.py:459-791 | Every enabled step of any operator, server or process keeps the protocol invariant. |
| LeaseInvariant.RunKeepsInv | scripts/apply_ingestion_d1_migrations.py:459-791 | The invariant holds in every state of every run. |
| LeaseClient.Remote.ObserveLease | scripts/apply_ingestion_d1_migrations.py:435-456 | A successful read is the row at its instant; the operator's own control state is unaffected by what others did meanwhile. |
| LeaseClient.Remote.Execute | scripts/apply_ingestion_d1_migrations.py:592-608 | Sending a pending statement and waiting: a reply, if there is one, is the server's own record of whether the statement changed the row. |
| LeaseClient.Remote.Revalidate | scripts/apply_ingestion_d1_migrations.py:536-567 | Success means that the row named the caller's token and identity, in the target phase if the confirmation is strict and otherwise in any phase but vacant, at an instant inside the call. |
| LeaseClient.Remote.LookAgain | scripts/apply_ingestion_d1_migrations.py:609-629 | After the module's own error the transition goes on only if the row showed the target phase and flag, and is then confirmed strictly in that phase; otherwise the error goes where the program raises it to. |
| LeaseClient.Remote.Claim | scripts/apply_ingestion_d1_migrations.py:494-526 | The claim by UPDATE ends ready to be confirmed against the row, or refused, under an unchanged identity. |
| LeaseClient.Remote.Transition | scripts/apply_ingestion_d1_migrations.py:570-639 | A normal return means the target phase and flag were reached under the caller's token and identity during the call; a failure goes where the program raises it to. |
| LeaseClient.Remote.AcquireAuthorized | scripts/apply_ingestion_d1_migrations.py:459-533 | A normal return means that the row named the caller's token and identity, not vacant, at an instant inside the call, whether the lease was renewed, confirmed or claimed and whether or not the reply arrived. |
| LeaseClient.Remote.Renew | scripts/apply_ingestion_d1_migrations.py:642-654 | A renewal re-establishes the phase and flag that it read, under the caller's token and identity. |
| LeaseClient.Remote.ResumeOwned | scripts/apply_ingestion_d1_migrations.py:657-672 | Only an acquired or verifying lease without a recorded process is resumed, under the caller's token and identity. |
| LeaseClient.Remote.ReleaseLease | scripts/apply_ingestion_d1_migrations.py:675-693 | A reported release vacated the row during the call. |
| LeaseClient.Remote.HeartbeatRenew | scripts/apply_ingestion_d1_migrations.py:728-733 | A heartbeat either leaves the poll loop running or puts the failure on its way to the recovery_required transition. |
| LeaseClient.Remote.Poll | scripts/apply_ingestion_d1_migrations.py:717-735 | The poll loop ends with success only if the launched process exited 0; otherwise the recovery transition comes next; and it polls on only within 600 seconds of its beginning and 20 seconds of the last renewal. |
| LeaseClient.Remote.RunApplyProcess | scripts/apply_ingestion_d1_migrations.py:696-735 | Success means a process launched in this call for this token exited 0. |
| LeaseClient.Remote.RunFenced | scripts/apply_ingestion_d1_migrations.py:738-770 | Success means a process of this call exited 0 and the row then showed verifying with the flag cleared. |
| LeaseClient.Remote.ApplyRemoteMigrations | scripts/apply_ingestion_d1_migrations.py:773-791 | Success means a new process of this token exited 0 and the row reached verifying; at every exit an unfinished migration of the token keeps the lease non-vacant. |
| StagingPrep.Site.ControlIntent | scripts/activate_jsda_v3_cutover.py:267-305 | The control intent is created once from the observed surface and never changed by a later call. |
| StagingPrep.RequireDrained | scripts/activate_jsda_v3_cutover.py:176-195 | The loop accepts exactly an empty Queue with no waiting job, where a table that is not there yet counts only before the migration, and after it exact migrations. |
| StagingPrep.Site.Restore | scripts/activate_jsda_v3_cutover.py:750-787 | Without collected errors Cron and Queue have the intent's values, each confirmed by reading it back. |
| StagingPrep.Site.Bootstrap | scripts/apply_ingestion_d1_migrations.py:391-432 | It succeeds only after reading the lease as vacant or as the caller's own unspawned one. |
| StagingPrep.Site.Quiesce | scripts/activate_jsda_v3_cutover.py:1061-1081 | Success means Cron stopped and Queue paused as read back, and all three observations drained. |
| StagingPrep.Site.QuiesceAndMigrate | scripts/activate_jsda_v3_cutover.py:1061-1136 | It goes on to verification only with the surface stopped, the lease acquired and the receipt saved. |
| StagingPrep.Site.Attempt | scripts/activate_jsda_v3_cutover.py:1046-1197 | The try with its finally: prepared only if migrations are exact, control is bridge, the surface has the intent's values and the lease was released. |
| StagingPrep.Site.Prepare | scripts/activate_jsda_v3_cutover.py:921-1197 | Prepared implies exact migrations, control in bridge, Cron and Queue equal to their values at the call, the lease released and the intent removed; the surface is touched only if control was not v3_active, the observation fits the intent, and the lease was vacant or one's own and unspawned; at every exit an unfinished migration keeps the lease non-vacant. |
| CutoverControl.StepKeepsInv | scripts/activate_jsda_v3_cutover.py:473-556 | Every step of any caller keeps the agreement invariant and undoes nothing. |
| CutoverControl.ControlAgreesWithRuns | scripts/activate_jsda_v3_cutover.py:529-556 | In every reachable state, with any number of runs and racing or crashed callers, control is v3_active if and only if some run is v3_active or activated, and then such a run carries control's drain evidence and source SHA, and its receipt control's configuration. |
| CutoverControl.ActivationFacts | scripts/activate_jsda_v3_cutover.py:529-556 | The step that takes control out of bridge is an activation batch, and control then has its instant and evidence and the source and configuration of its run's receipt. |
| CutoverControl.StartEffect | scripts/activate_jsda_v3_cutover.py:473-497 | Starting inserts the row once, in queue_paused, with owner, fence and source of the receipt. |
| CutoverControl.AdvanceEffect | scripts/activate_jsda_v3_cutover.py:499-527 | Advancing moves exactly the row that has the expected phase and the receipt's owner and fence, and no other. |
| CutoverControl.ActivateEffect | scripts/activate_jsda_v3_cutover.py:529-556 | Activating moves the deployed row of its owner and fence to v3_active with the evidence, and control out of bridge if it is there. |
| CutoverControl.SentForPhase | scripts/activate_jsda_v3_cutover.py:603-678 | Which batch a caller sends for each phase that it read. |
| CutoverControl.NothingIsUndone | scripts/activate_jsda_v3_cutover.py:499-556 | Control leaves bridge at most once, its activation fields are never overwritten, and no run goes back a phase or changes its owner, fence or source. |
| CutoverSurface.ActivatedOnlyWhenRestored | scripts/activate_jsda_v3_cutover.py:654-668 | Over any number of crashes, reruns, preparations and checkouts a run becomes activated only while Cron and Queue have the values of its own intent. |
| CutoverSurface.IntentsCreateOnly | scripts/activate_jsda_v3_cutover.py:267-315 | On every step of every trace intents stay as they are, a new one is that of the current source with the live surface, and one that goes is named by the digest in a receipt of its source. |
| CutoverSurface.ReceiptsCreateOnly | scripts/activate_jsda_v3_cutover.py:346-349 | Receipts stay as they are, and each is written for the intent on disk of its source while the Queue is paused. |
| CutoverSurface.SurfaceMoves | scripts/activate_jsda_v3_cutover.py:603-787 | Cron changes only to nothing, or to what an intent or receipt has on record, the Queue only to paused or to what is on record, and never without an intent or receipt. |
| CutoverSurface.MovesOnlyStopped | scripts/activate_jsda_v3_cutover.py:603-678 | A run leaves queue_paused only with Cron stopped and the Queue paused, moves up to v3_active only with its own source checked out, and always only under its receipt's owner and fence. |
| CutoverSurface.PreparesAsRecorded | scripts/activate_jsda_v3_cutover.py:921-1197 | A preparation begins only with control in bridge and the live surface equal to its intent, and gets to removing the intent only verified, with control in bridge and both halves read back. |
| CutoverSurface.OriginalIffCareful | scripts/activate_jsda_v3_cutover.py:267-316 | Every intent that an activation or a preparation creates, at whatever source, captures the surface from before the first Cron stop if and only if each one is created while the live surface agrees with every intent and every receipt on disk. |
| CutoverSurface.CrashSafeRestoration | scripts/activate_jsda_v3_cutover.py:603-725 | Under that condition every step that marks a run activated finds the values from before the first Cron stop put back. |
| CutoverSurface.DisciplineIsCareful | scripts/activate_jsda_v3_cutover.py:267-316 | The condition is kept by two rules: no activation and no preparation that creates an intent while another source's intent is on disk, and an activated run whose source's intent is on disk is resumed only while the live surface is the one in that intent. |
| CutoverSurface.UncarefulCreationLoses | scripts/activate_jsda_v3_cutover.py:267-305 | After any history that kept the condition, every activation or preparation that breaks it has a continuation in which a run is marked activated on a surface that is not the original one. |
| CutoverSurface.EmptiedCronIsRestored | scripts/activate_jsda_v3_cutover.py:1200-1224 | For every surface with a schedule there is a history at one source, of crashes and reruns, in which a run is marked activated while the schedule is gone. |
| CutoverSurface.NextSourceCapturesEmptied | scripts/activate_jsda_v3_cutover.py:211-213 | There is also one in which no intent is ever removed: an activation stops half-way, another source is checked out and activated. |
| CutoverSurface.PreparationCapturesEmptied | scripts/activate_jsda_v3_cutover.py:921-1033 | And one in which every activation keeps the condition and only a preparation breaks it: it creates an intent on the stopped surface and gives up, and the next activation uses that intent. |
| CutoverSurface.Operator.Quiesce | scripts/activate_jsda_v3_cutover.py:691-711 | A recorded activation has stopped Cron, paused the Queue, and holds intent and receipt of the current source; no other source's intent changed. |
| CutoverSurface.Operator.Continue | scripts/activate_jsda_v3_cutover.py:603-678 | The phase loop returns only on an activated run, and if it activated the run itself, the surface has the values of the run's intent; it stops when another source is checked out. |
| CutoverSurface.Operator.Activate | scripts/activate_jsda_v3_cutover.py:681-725 | A completed activation leaves the captured surface restored and its own source's intent removed. |
| CutoverSurface.Operator.Resume | scripts/activate_jsda_v3_cutover.py:1200-1224 | A completed resumption of a run that was not activated leaves the surface of its intent; the intent of the run's source is removed. |
| CutoverSurface.Operator.RemoveControlIntent | scripts/activate_jsda_v3_cutover.py:308-315 | Only the intent of the receipt's source is removed, and only when it is the one of the receipt; surface and rows stay. |
| CutoverSurface.Operator.Prepare | scripts/activate_jsda_v3_cutover.py:921-1197 | A completed preparation leaves the surface as it was and its source's intent removed; one that fails leaves all intents that were there, and at most its own besides. |
| CutoverSurface.Operator.Repair | scripts/activate_jsda_v3_cutover.py:858-875 | A completed incident repair leaves the surface of the incident's intent and removes that intent; otherwise all intents stay. |
| Timeline.NoReturn | scripts/receipt_authority_pending_live_acceptance.py:1734-1737 | If every change brings a stamp never seen before, two equal stamped readings mean that nothing changed in between. |
| LiveAcceptance.LiveThroughout | scripts/receipt_authority_pending_live_acceptance.py:1820-1862 | A deployment read before and after a window was live at every instant of the window. |
| LiveAcceptance.ChainTogether | scripts/receipt_authority_pending_live_acceptance.py:1706-1872 | For every log of a successful collection: from the last opening to the first closing read all recorded deployments were live together, and, if no surface of the chain returns to an earlier value between the opening and the closing read of it, so were all recorded surfaces. |
| LiveAcceptance.SourceProvenance | scripts/receipt_authority_pending_live_acceptance.py:1552-1611 | Provenance is returned only if the live version's verified module inventory is the one that the local bundle parses to. |
| LiveAcceptance.UuidIff | scripts/receipt_authority_pending_live_acceptance.py:58-60 | A version id is well-named exactly if it has five dashed groups of 8, 4, 4, 4 and 12 small hexadecimal digits. |
| LiveAcceptance.CollectChain | scripts/receipt_authority_pending_live_acceptance.py:1706-1872 | Success means that the 27 reads of the chain were made in the program's order, each showing the recorded value, and implies a window of the collection during which all Workers of the chain at once had the recorded deployments, each selecting one version whose modules are those of the reviewed build, and, if no surface comes back between its reads, the recorded surfaces. |
| LiveAcceptance.SurfacesNeverTogether | scripts/receipt_authority_pending_live_acceptance.py:1706-1872 | For any complete evidence there is an account with constant deployments and a log of a successful collection of this evidence such that the accepted surfaces never existed at one instant. |
| LiveAcceptance.SameBrackets | scripts/quant_ops_mcp_live_module_acceptance.py:117-134 | The validator's loop accepts exactly when every Worker's deployment and version are equal before and after. |
| LiveAcceptance.SelectedIff | scripts/quant_ops_mcp_live_module_acceptance.py:62-84 | A deployment selects a version exactly if it routes 100 percent to this one, well-named version. |
| LiveAcceptance.CollectQuantOps | scripts/quant_ops_mcp_live_module_acceptance.py:261-346 | Success implies a window during which all active Workers at once had the recorded deployments, each routing one version at 100 percent, and the Quant Ops modules are those of the reviewed build. |
| PredeployGate.RequireBound | scripts/predeploy_ops_projection_gate.py:319-399 | The row and envelope checks succeed exactly when row and envelope are bound to each other, the key, the deployment SHA and the time window. |
| PredeployGate.ManifestRearranged | scripts/predeploy_ops_projection_gate.py:402-412 | The recomputed manifest of a table does not depend on the order of its rows. |
| PredeployGate.ManifestIff | scripts/predeploy_ops_projection_gate.py:402-412 | Without collisions two manifests agree exactly if the rows are the same up to their order. |
| PredeployGate.VerifiedRows | scripts/predeploy_ops_projection_gate.py:400-433 | A verified state holds, in all 17 tables, exactly the rows whose manifests were signed. |
| PredeployGate.RequireTable | scripts/predeploy_ops_projection_gate.py:402-420 | One round accepts only if signed manifest and row count equal those recomputed from the rows that the database held at that instant. |
| PredeployGate.RequireTables | scripts/predeploy_ops_projection_gate.py:400-421 | For each of the 17 tables the signed manifest and row count equal those recomputed from rows that the database held at some instant of the loop. |
| PredeployGate.RequireContents | scripts/predeploy_ops_projection_gate.py:400-433 | Success means that in any window without writes around the call the tables, the signed content digest and the emptiness rules fit its one state; in a quiet database a fitting state is never refused. |
| PredeployGate.VerifyUnderBookmark | scripts/predeploy_ops_projection_gate.py:308-454 | Success means one database state, unchanged from the first to the second reading of the bookmark, in which everything fits; a quiet database is refused only if nothing in it is verifiable. |
| PredeployGate.RequireSealedActiveGeneration | scripts/predeploy_ops_projection_gate.py:278-464 | Acceptance implies one database state, unchanged through the whole verification, in which pointer, SEALED generation row and all 17 tables fit the signed envelope, the tables hold exactly the rows that were signed, and the returned content digest is the one recomputed from them, timely at the first and at the last reading of the clock; while nobody writes, the gate accepts exactly such states. |
| Projection.RenderRows | scripts/export_ops_projection.py:131-142 | One insert statement for each row, in order. |
| Projection.Render | scripts/export_ops_projection.py:1829-1903 | The statement list is: open the generation, every row of every table once, then seal and activate with the bundle's own counts; the activation is guarded by n if all cursors are at a positive n, and by nothing otherwise. |
| Projection.ScriptGood | scripts/export_ops_projection.py:1829-1903 | A script writes for its own generation only, inserts exactly the bundle's rows, and inserts nothing after the seal. |
| Publication.StepKeepsInv | scripts/export_ops_projection.py:1885-1903 | Every executed or lost statement of any script keeps the publication invariant. |
| Publication.OnlyCompleteVisible | scripts/export_ops_projection.py:1885-1903 | In every reachable state, whatever was interleaved, lost or abandoned, the active generation is SEALED, was rendered to be activated, and holds exactly its bundle's rows, with the promised count, in all 17 tables. |
| Publication.SealedImmutable | scripts/export_ops_projection.py:1885-1890 | A sealed generation keeps its status and its rows at every later point of the run. |
| Publication.AppliedNeverDecreases | scripts/export_ops_projection.py:1860-1884 | If every bundle that is to be activated carries three times the same positive cursor, the applied cursor of the active generation never decreases over a run. |
| Publication.UndisturbedPublishes | scripts/export_ops_projection.py:1829-1903 | An undisturbed script for a new generation seals it with exactly the bundle's rows, leaves all other generations alone, and exposes it, unless its cursors are all at a positive n and the active generation shows none at or below n. |
| Publication.ActivationTakesEffect | scripts/export_ops_projection.py:1860-1903 | Once sealed, a bundle with all cursors at a positive n takes effect if and only if nothing is active or the active bundle has equal cursors not ahead of n; any other bundle takes effect always; and nothing that is not sealed ever does. |
| TextScan.JoinSplit | scripts/receipt_authority_pending_live_acceptance.py:1246 | Joining the pieces of a split gives the text back. |
| TextScan.SplitJoin | scripts/receipt_authority_pending_live_acceptance.py:1246 | Splitting joined pieces gives the pieces back when the delimiter occurs in none of them, across the seams included. |
| TextScan.TwoMatches | scripts/receipt_authority_pending_live_acceptance.py:1178-1189 | Two match positions, the first not reaching past the second, make the parameter count as duplicated. |
| Multipart.ParseMultipartHeaders | scripts/receipt_authority_pending_live_acceptance.py:1192-1218 | It returns a header map exactly when the block is plain ASCII, every line that is not empty names a header with its stripped value, no name occurs twice, and these are all the headers. |
| Multipart.ParseWorkerUploadBundle | scripts/receipt_authority_pending_live_acceptance.py:1221-1357 | The parser accepts exactly the bodies that the specification accepts and returns the entry module with the one listing of the modules in name order. |
| Multipart.ListingUnique | scripts/receipt_authority_pending_live_acceptance.py:1354-1357 | There is only one listing of a set of modules in name order. |
| Multipart.PlainNormalized | scripts/receipt_authority_pending_live_acceptance.py:1165-1175 | The allowed content types normalize to themselves. |
| Multipart.ParsedIsVerified | scripts/receipt_authority_pending_live_acceptance.py:1360-1410 | Whatever the parser returns passes the inventory verification unchanged, so the comparison succeeds exactly when the live inventory verifies to the same inventory. |
| BundleMeaning.StripMeaning | scripts/receipt_authority_pending_live_acceptance.py:1165-1218 | Stripping takes the ten white-space bytes off both ends and leaves none there. |
| BundleMeaning.ParamMeaning | scripts/receipt_authority_pending_live_acceptance.py:1178-1189 | A parameter begins the header or follows a semicolon, in any case and with white space in front, and has a quoted value or else a token; none, exactly one, or refused because there are more. |
| BundleMeaning.SafeNameIff | scripts/receipt_authority_pending_live_acceptance.py:1149-1163 | The safe module names: relative, not empty, not a dot name, not `metadata`, without a part `..`, backslash or NUL. |
| BundleMeaning.NormalizedIff | scripts/receipt_authority_pending_live_acceptance.py:1165-1175 | A content type counts up to its first semicolon, stripped and in small letters, and must be one of the eight allowed. |
| BundleMeaning.HeaderLineIff | scripts/receipt_authority_pending_live_acceptance.py:1205-1217 | A header line is cut at its first colon; its name is stripped and in small letters and must not be empty. |
| BundleMeaning.BreaksMeaning | scripts/receipt_authority_pending_live_acceptance.py:1258-1272 | A chunk must begin with a line break and loses it and one at its end. |
| BundleMeaning.CutMeaning | scripts/receipt_authority_pending_live_acceptance.py:1273-1284 | Headers end at the first blank line; bare line feeds count only if there is no other. |
| BundleMeaning.DescribedIff | scripts/receipt_authority_pending_live_acceptance.py:1285-1325 | A part is the metadata if its name says so and it has no file name, and a module if its name is safe, its file name absent or the same, its type allowed and its body not empty; size and digest are those of the body. |
| BundleMeaning.BoundaryIff | scripts/receipt_authority_pending_live_acceptance.py:1229-1244 | The first line announces the boundary: two dashes, visible ASCII without quotes, perhaps carriage returns. |
| BundleMeaning.PartsIff | scripts/receipt_authority_pending_live_acceptance.py:1221-1257 | A body of one byte to 32 MiB is cut at its delimiter, with only line breaks in front, at least one part, and two dashes and only line breaks behind. |
| BundleMeaning.DeclaredIff | scripts/receipt_authority_pending_live_acceptance.py:1336-1353 | The entry module is the safe text of the one metadata field that is there. |
| BundleMeaning.VerifiedIff | scripts/receipt_authority_pending_live_acceptance.py:1360-1398 | An inventory verifies exactly if its entry is one of its modules, and these are safely named, not empty, of allowed types and in strictly ascending order; only the types are normalised. |
| BundleMeaning.ComparedIff | scripts/receipt_authority_pending_live_acceptance.py:1399-1410 | The comparison succeeds exactly if both inventories verify to the same one. |
| MultipartPrinting.NameParam | scripts/receipt_authority_pending_live_acceptance.py:78-81 | A printed part name is read back exactly when the name holds no parameter pattern of its own, and is refused otherwise. |
| MultipartPrinting.FilenameParam | scripts/receipt_authority_pending_live_acceptance.py:82-85 | The same for the file name, which is printed after the part name. |
| MultipartPrinting.PartRead | scripts/receipt_authority_pending_live_acceptance.py:1258-1325 | A printed part, whatever line breaks its body holds, is understood exactly when its name is clear. |
| MultipartPrinting.PrintThenParse | scripts/receipt_authority_pending_live_acceptance.py:1221-1357 | Printing one metadata part and any safely named, non-empty modules in any order and parsing the result succeeds if and only if all names are clear, the size is in bounds and the metadata declares one of the modules; and then yields exactly that entry and these modules. |
| MultipartPrinting.OrderIndependent | scripts/receipt_authority_pending_live_acceptance.py:1354-1357 | Rearranging the parts, or choosing another boundary, does not change the result. |
| MultipartPrinting.TrappedNameRefused | scripts/receipt_authority_pending_live_acceptance.py:1178-1189 | The safe name `a;name=b`, correctly printed, is refused. |
| DdlNormaliser.CanonicalSchemaSql | scripts/_private_d1_export.py:814-848 | The index loop equals: split into gaps, quoted runs and characters, squeeze the gaps, put together again. |
| DdlNormaliser.LexSound | scripts/_private_d1_export.py:820-846 | The token view loses nothing of the text. |
| DdlNormaliser.LexText | scripts/_private_d1_export.py:820-846 | Well-formed tokens are read back from their text. |
| DdlNormaliser.RenderedTokens | scripts/_private_d1_export.py:814-848 | The result has the same meaningful tokens in order, closed quoted runs verbatim, and single interior spaces as its only gaps; it ends inside a quote exactly when the input does. |
| DdlNormaliser.CanonicalIdempotent | scripts/_private_d1_export.py:814-848 | Normalising twice is normalising once, on every string. |
| DdlNormaliser.SameRendering | scripts/_private_d1_export.py:814-848 | Two definitions are rendered alike if and only if they differ only in the extent of their gaps. |
| DdlNormaliser.GapRendered | scripts/_private_d1_export.py:814-848 | Whatever ASCII white space stands between two ordinary characters, one space is rendered. |
| DdlNormaliser.QuotedVerbatim | scripts/_private_d1_export.py:820-846 | A quoted run is left alone, white space and all, in each of the four kinds of quotes. |
| DdlNormaliser.DoubledQuote | scripts/_private_d1_export.py:820-846 | A doubled quote does not end the run. |
| DdlNormaliser.BracketEnds | scripts/_private_d1_export.py:820-846 | A closing bracket ends the run even if another one follows. |
| ByteOrder.SortUnique | scripts/_private_d1_export.py:1154-1155 | Two lists sort alike if and only if they are rearrangements of each other. |
| ByteOrder.ConcatInjective | scripts/_private_d1_export.py:1154-1155 | Blocks of one width can be cut apart again. |
| ByteOrder.LeqMeaning | scripts/_private_d1_export.py:1154-1155 | The order of byte strings is that of dictionaries. |
| ByteOrder.MappedBack | scripts/_private_d1_export.py:1140-1156 | If no two elements share an image, lists whose images are rearrangements of each other are rearrangements themselves. |
| Fingerprint.TableFingerprint | scripts/_private_d1_export.py:1131-1156 | The two loops compute count and digest of the rows, every value normalised as a value of its own column; no columns is an error. |
| Fingerprint.FingerprintIff | scripts/_private_d1_export.py:1131-1156 | Without collisions count and digest agree if and only if the normalised rows are equal as multisets. |
| Fingerprint.RowsAlikeIff | scripts/_private_d1_export.py:1131-1156 | The normalised rows are equal as multisets if and only if the rows can be paired off so that paired rows agree column by column, up to the column's normalisation. |
| Fingerprint.DecimalDigits | scripts/_private_d1_export.py:1154-1156 | The count enters the digest in decimal digits that stand for it. |
| Fingerprint.ContentInventory | scripts/_private_d1_export.py:1159-1197 | The inventory holds the fingerprint of every governed table, and exists exactly when all tables do. |
| Fingerprint.CompareTable | scripts/_private_d1_export.py:1208-1231 | One round accepts exactly when schemas agree as far as replicated and the rows can be paired off so that paired rows agree in every column up to its normalisation. |
| Fingerprint.ExactReconciliation | scripts/_private_d1_export.py:1200-1242 | Reconciliation succeeds exactly when nothing is shadowed and every governed table is reconciled in this sense, and returns the fingerprints of the source. |
| Receipts.OrderBy | scripts/export_ops_projection.py:803-815 | The query result is a rearrangement of the table in source, dataset, segment and descending run order, with the diagnostic tie-breakers. |
| Receipts.ShowReceipt | scripts/export_ops_projection.py:830-841 | A failed receipt is shown as FAILED with its error whatever its manifest says; a successful one shows its manifest's completeness, or NOT_CAPTURED; the manifest's key and counts are shown as they are, and the creation time falls back to the time of the check. |
| Receipts.SelectRaw | scripts/export_ops_projection.py:816-861 | The loop keeps one row for each segment with an operational receipt, it shows the latest one, and the rows come in segment order. |
| Receipts.CheckReceipts | scripts/export_ops_projection.py:665-752 | The receipts pass exactly when no identity occurs twice and each is bound to one run of its source, named in full, routed as the inventory says and readable; then it knows exactly which are recovered-only and which runs may have a manifest. |
| Receipts.CheckReceipt | scripts/export_ops_projection.py:673-747 | One receipt passes exactly if its run is positive, the run log has it once and under its source, its names are not empty, its dataset is known with this source, and its digests can be read. |
| Receipts.ReadRawSegments | scripts/export_ops_projection.py:622-861 | It succeeds exactly when the receipts pass these checks and every manifest belongs to an operational receipt, and selects the receipt with the highest run for each segment: failed ones as FAILED, successful ones with their manifest. |
| Receipts.NewerFailureShows | scripts/export_ops_projection.py:832-841 | A segment whose latest operational receipt failed is shown as FAILED, whatever succeeded before. |
| Receipts.LatestSuccessShows | scripts/export_ops_projection.py:842-855 | A segment whose latest operational receipt succeeded is shown with the manifest of that acquisition, or as NOT_CAPTURED if there is none. |
| Receipts.SelectionDetermined | scripts/export_ops_projection.py:803-861 | The result does not depend on how the receipts are stored: the same list of rows in the same order. |
| Receipts.SelectCurrent | scripts/export_ops_projection.py:878-1026 | For any input order the loop fails exactly on a receipt that is neither active for its own run nor revoked, and otherwise keeps the highest active run of each segment. |
| Receipts.CollectProducts | scripts/export_ops_projection.py:1047-1220 | The loop succeeds exactly when each product has a receipt, the wanted ones match theirs, none is wanted twice and none is missing. |
| Receipts.ReadProducts | scripts/export_ops_projection.py:864-1224 | It publishes one product for each segment with an active receipt, that of its highest run, and succeeds exactly when receipts are sound and products and current receipts match one to one, or there is no active receipt at all. |
| ExportProtocol.OneShot | scripts/_private_d1_export.py:1286-1449 | Over every call sequence with any outside answers an export is opened at most once, certified at most once and not opened after that, and a certificate is consumed at most once. |
| ExportProtocol.EntryFailureIsFinal | scripts/_private_d1_export.py:1319-1334 | After a call on a registered export whose identity was lost before the call nothing is granted on this export in the rest of the sequence, whether or not the identity comes back. |
| ExportProtocol.ConsumptionHistory | scripts/_private_d1_export.py:1286-1449 | Every consumption was preceded by the opening and then the authentication of one export, and hands out facts that carry the sync kind of that authentication and the content digest, counts, schema and cursor of source, local mirror and acquisition baseline. |
| ExportProtocol.OneConsumption | scripts/_private_d1_export.py:1286-1297 | Two consumptions never stem from the same export. |
| ExportProtocol.NeverAgainIff | scripts/_private_d1_export.py:1286-1449 | In every reachable state exactly the exports that are no longer registered can never be granted anything again. |
| ExportProtocol.FailedCheckIsFinalIffAtEntry | scripts/_private_d1_export.py:1319-1449 | A failed identity check ends the export for good if and only if the identity was lost already before the call. |
| ExportProtocol.NextCallDecides | scripts/_private_d1_export.py:1319-1449 | After a late failure the export is still registered at the next call on it, and if this call does not certify it, it ends the export if and only if the identity is still lost. |
| ExportProtocol.CertifiedAfterFailure | scripts/_private_d1_export.py:1343-1449 | A sequence of five calls in which an export is certified after an identity check on it failed. |
| ExportAuthority.Reconcile | scripts/_private_d1_export.py:1384-1389 | It returns readings of source and local mirror exactly when every governed table reconciles, and they have equal content and counts. |
| ExportAuthority.Authority.Acquire | scripts/_private_d1_export.py:1451-1541 | An acquired export is a new registered object; the call joins the sequence. |
| ExportAuthority.Authority.RequireAcquired | scripts/_private_d1_export.py:1319-1334 | A failed identity check at the start of a call revokes and closes the export; an export that is not registered is refused without effect. |
| ExportAuthority.Authority.OpenSource | scripts/_private_d1_export.py:1336-1341 | The code answers as the protocol does and leaves fields and registries in the state that the protocol reaches; an object that was never acquired is refused without effect. |
| ExportAuthority.Authority.Examine | scripts/_private_d1_export.py:1364-1411 | The readings pass exactly when they have the baseline's content, counts, schema and cursor, and they are reconciled only if every governed table is. |
| ExportAuthority.Authority.AuthenticateLocal | scripts/_private_d1_export.py:1343-1449 | For some outside answers the code answers as the protocol does and leaves the state that the protocol reaches; a certificate exists exactly when it is granted, and then all governed tables reconcile. |
| ExportAuthority.Authority.Consume | scripts/_private_d1_export.py:1286-1297 | The code answers as the protocol does and hands out the facts of the certificate; a forged certificate is refused without effect. |
| BackupContainer.BigEndianRoundTrip | scripts/encrypt_d1_backup.py:546-547 | The 32-bit big-endian length is read back. |
| BackupContainer.EncryptStream | scripts/encrypt_d1_backup.py:538-554 | The file is the container of header and plaintext, however the source was cut into chunks. |
| BackupContainer.ContainerHeader | scripts/encrypt_d1_backup.py:546-554 | Header, ciphertext and tag lie at their exact offsets in a container. |
| BackupContainer.FileLayout | scripts/encrypt_d1_backup.py:538-554 | The file byte by byte: eight letters, four bytes of header length with the highest first, the header, every plaintext byte masked at its own offset, and sixteen bytes of tag over all that comes before. |
| BackupContainer.HeaderContainer | scripts/encrypt_d1_backup.py:567-610 | A file with a well-formed header and a matching tag is a container. |
| BackupContainer.EncryptsUnique | scripts/encrypt_d1_backup.py:557-630 | A file is the encryption of at most one header and plaintext. |
| BackupContainer.DecryptStream | scripts/encrypt_d1_backup.py:594-606 | The chunk loop yields the decryption of exactly the ciphertext bytes. |
| BackupContainer.VerifyEncrypted | scripts/encrypt_d1_backup.py:557-630 | Verification succeeds exactly on encryptions whose header and plaintext are together longer than 12 bytes, as with every real header, and reports that header, length and digest. |
| BackupContainer.RoundTrip | scripts/encrypt_d1_backup.py:538-630 | For every plaintext and every header longer than 12 bytes that states its facts, the answer of verification to the encryption is exactly that header, length and digest. |
| BackupContainer.Store.EncryptBackup | scripts/encrypt_d1_backup.py:633-719 | What is published encrypts bytes of the measured length and digest under the measured header, after a trial restore; an existing or rival target is never overwritten; the source is removed only after the target is there and synced. |

## Left out

- The frozen incident repair of the lease (relaunch from recovery_required): its ids are not protocol, and exclusion is claimed without it.
- LeaseClient.Remote.ObserveLease: the swallowed read error and the missing row are one failing read; which error text leads to which is not modelled.
- LeaseClient.Remote.Claim: says where the claim ends, not what the row is then; that the row was claimable is the guard of the protocol's statement, and what a confirmed claim means is stated by `LeaseClient.Remote.AcquireAuthorized`.
- CutoverSurface.Operator.Continue: lease calls, observations, drains and deployments appear only as the possibility to stop; the lease side of the same code is in `LeaseClient`, and the release at the end of an activated run is not repeated here.
- CutoverSurface.Operator.Activate: the same holds of staging admission, drain and lease steps.
- CutoverSurface.Operator.Resume: renewal and resumption of the lease appear only as the possibility to stop.
- CutoverSurface.Operator.Prepare: the same holds of lease, drains and migrations, which `StagingPrep` has.
- CutoverSurface.Operator.Repair: the incident's frozen version, schema and lease facts appear only as the possibility to stop.
- StagingPrep.Site.Prepare: assumes that nobody else changes this Worker's Cron and Queue during the call; the released lease is an instant inside the call, not a claim about later holders.
- LiveAcceptance.CollectChain: version documents are compared as in the code but get no common instant, because they are first read after the opening; the five requests of one surface reading are one reading here. Module bytes of an uploaded version are taken as immutable, so their download is not in the log.
- LiveAcceptance.CollectQuantOps: binding, handler and manifest comparisons are one parameter.
- PredeployGate.RequireSealedActiveGeneration: key registry and SPKI parsing are reduced to key ids and a validity window; the signature check is a parameter.
- Projection.Render: SQL text, column lists and literals are not modelled; statements are values. Database triggers are not needed and not modelled.
- Publication.OnlyCompleteVisible: an SQL transaction is the case in which a script is not interleaved; a rolled-back one is a script that never started. A statement is executed at most once.
- Receipts.OrderBy: the status is compared as bytes and also read as success or failure; that these two agree is not stated.
- Receipts.ReadRawSegments: all refusals are one; column and type checks of the tables are left out.
- Receipts.CollectProducts: the chain of checks of one product is one parameter.
- Receipts.ReadProducts: the checks of one product against its run, raw evidence and catalogue are one parameter; the products come as a map, their final sort by identity is left out.
- ExportAuthority.Authority.Examine: the identity readings before and after the reconciliation are arbitrary; only the reconciliation in between looks at tables. The snapshot policy is one answer from outside.
- BackupContainer.VerifyEncrypted: header facts other than key id, nonce, length and digest are part of the header parameter; digests of file and header are left out because the header bytes themselves are reported.
- Multipart.ParseWorkerUploadBundle: all refusals are one; header text is kept as ASCII bytes; metadata names that are not ASCII are treated as never naming a part.
- SQL import buffering, migration SQL, bootstrap SQL and PRAGMA manifests.
- Binding manifests, contract generators, finding ledgers, policy tables and the coverage, recovery and status commands: long constant comparisons, or logic in packages not shown.
- Credentials, permissions and file ownership.
