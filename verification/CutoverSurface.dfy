/**
  One operator who runs `--activate`, `--resume`, `--prepare-staging-schema` and
  `--repair-staging-schema-incident` any number of times, at any source SHA, with a crash possible before
  every outside effect, and what that does to Cron and Queue.  Control intents are files named by the source
  SHA.  Nobody else changes the surface.  Lease calls, observations, migrations and deployments only ever
  decide whether the process goes on, so they appear as the possibility to stop.
 */
module CutoverSurface {
  import opened Outcomes
  import opened CutoverRows

  /** How far the `try` of a preparation has come. */
  datatype Stage = ToStop | ToPause | ToRecord | ToVerify

  /** The operator's process between two effects.  A preparation knows the receipt for its intent, if there
      is one, and in its cleanup only if all before has succeeded. */
  datatype Op =
    | NoProcess
    | Stopping(sha: string)
    | Pausing(sha: string)
    | Recording(sha: string)
    | Starting(run: string)
    | Looping(run: string, resumedDone: bool)
    | PauseRestored(run: string)
    | CronRestored(run: string)
    | Removing(run: string, resumedDone: bool)
    | Preparing(sha: string, stage: Stage, found: Option<string>)
    | CleaningQueue(sha: string, found: Option<string>)
    | CleaningCron(sha: string, found: Option<string>)

  /** `head` is the checked-out source; intents are on disk by source SHA, receipts by run. */
  datatype State = State(
    db: Db, surface: Surface, head: string,
    intents: map<string, Intent>, receipts: map<string, Receipt>, op: Op)

  datatype Step =
    | Checkout(sha: string)
    | BeginActivate(captured: Intent)
    | StopCron
    | PauseQueue
    | Record(run: string, receipt: Receipt)
    | StartRun
    | BeginResume(run: string)
    | Move(evidence: string, at: string)
    | RestorePause
    | RestoreCron
    | FinishRun
    | ReturnActivated
    | RemoveIntent
    | BeginPrepare(captured: Intent, found: Option<string>)
    | BeginRepair(found: Option<string>)
    | PrepareStop
    | PrepareSkip
    | PreparePause
    | PrepareRecord(run: string, receipt: Receipt)
    | PrepareEnds(verified: bool)
    | CleanQueue(reached: bool, confirmed: bool)
    | CleanCron(reached: bool, confirmed: bool)
    | Crash

  const STOPPED: seq<string> := []

  /** `STAGING_SCHEMA_INCIDENT_SOURCE_SHA` */
  const INCIDENT: string := "d9de3fbcd227eaef8feff99455fb99d6d1ed7c0f"

  /** The intent of the current source is used as it is; without one the live surface is captured. */
  predicate Captures(s: State, captured: Intent) {
    if s.head in s.intents then captured == s.intents[s.head] else captured.prior == s.surface
  }

  /** The run's receipt carries the digest of the intent of that source, and so all of the intent. */
  predicate ReceiptFor(s: State, sha: string, intent: Intent, run: string) {
    run in s.receipts && s.receipts[run].sourceSha == sha && s.receipts[run].intent == intent
  }

  /** `_receipt_for_intent`: none, or the only one. */
  predicate Finds(s: State, sha: string, intent: Intent, found: Option<string>) {
    if found.Some?
    then ReceiptFor(s, sha, intent, found.value)
         && forall run | run in s.receipts && ReceiptFor(s, sha, intent, run) :: run == found.value
    else forall run | run in s.receipts :: !ReceiptFor(s, sha, intent, run)
  }

  function PhaseOf(s: State, run: string): RunPhase
    requires run in s.db.runs
  {
    s.db.runs[run].phase
  }

  /** One round of the loop: the run's own source is checked out and its phase is one of these. */
  predicate LoopsAt(s: State, phases: set<RunPhase>) {
    && s.op.Looping? && s.op.run in s.receipts && s.op.run in s.db.runs && PhaseOf(s, s.op.run) in phases
    && s.head == s.receipts[s.op.run].sourceSha
  }

  predicate Enabled(s: State, step: Step) {
    match step
    case Checkout(_) => true
    case BeginActivate(captured) => s.op.NoProcess? && Captures(s, captured)
    case StopCron => s.op.Stopping?
    case PauseQueue => s.op.Pausing? && s.surface.cron == STOPPED
    case Record(run, receipt) =>
      && s.op.Recording? && s.surface.paused && run !in s.receipts
      && s.op.sha in s.intents && receipt.intent == s.intents[s.op.sha] && receipt.sourceSha == s.op.sha
    case StartRun => s.op.Starting? && s.op.run in s.receipts
    case BeginResume(run) => s.op.NoProcess? && run in s.receipts && run in s.db.runs
    case Move(_, _) =>
      && LoopsAt(s, {QueuePaused, BridgeEstablished, Deployed})
      && (PhaseOf(s, s.op.run).QueuePaused? ==> s.surface.cron == STOPPED && s.surface.paused)
    case RestorePause => LoopsAt(s, {V3Active})
    case RestoreCron => s.op.PauseRestored? && s.op.run in s.receipts
    case FinishRun =>
      s.op.CronRestored? && s.op.run in s.receipts && RunMatches(s.db, s.op.run, s.receipts[s.op.run], V3Active)
    case ReturnActivated => LoopsAt(s, {Activated})
    case RemoveIntent =>
      && s.op.Removing? && s.op.run in s.receipts
      && var receipt := s.receipts[s.op.run];
         receipt.sourceSha in s.intents ==> s.intents[receipt.sourceSha].digest == receipt.intent.digest
    case BeginPrepare(captured, found) =>
      && s.op.NoProcess? && s.db.control.Bridge? && Captures(s, captured) && captured.prior == s.surface
      && Finds(s, s.head, captured, found)
    case BeginRepair(found) =>
      && s.op.NoProcess? && s.db.control.Bridge? && s.head != INCIDENT && INCIDENT in s.intents
      && s.intents[INCIDENT].prior.cron == s.surface.cron && found.Some? && Finds(s, INCIDENT, s.intents[INCIDENT], found)
    case PrepareStop => s.op.Preparing? && s.op.stage.ToStop?
    case PrepareSkip => s.op.Preparing? && s.op.stage.ToStop? && s.op.found.Some?
    case PreparePause => s.op.Preparing? && s.op.stage.ToPause?
    case PrepareRecord(run, receipt) =>
      && s.op.Preparing? && s.op.stage.ToRecord? && s.surface == Surface(STOPPED, true) && run !in s.receipts
      && s.op.sha in s.intents && receipt.intent == s.intents[s.op.sha] && receipt.sourceSha == s.op.sha
    case PrepareEnds(verified) =>
      s.op.Preparing? && (verified ==> s.op.stage.ToVerify? && s.op.found.Some? && s.db.control.Bridge?)
    case CleanQueue(reached, confirmed) =>
      s.op.CleaningQueue? && s.op.sha in s.intents && (confirmed ==> reached)
    case CleanCron(reached, confirmed) =>
      s.op.CleaningCron? && s.op.sha in s.intents && (confirmed ==> reached)
    case Crash => true
  }

  function Apply(s: State, step: Step): State
    requires Enabled(s, step)
  {
    match step
    case Checkout(sha) => s.(head := sha)
    case BeginActivate(captured) => s.(intents := s.intents[s.head := captured], op := Stopping(s.head))
    case StopCron => s.(surface := s.surface.(cron := STOPPED), op := Pausing(s.op.sha))
    case PauseQueue => s.(surface := s.surface.(paused := true), op := Recording(s.op.sha))
    case Record(run, receipt) => s.(receipts := s.receipts[run := receipt], op := Starting(run))
    case StartRun =>
      s.(db := Execute(s.db, Start(s.op.run, s.receipts[s.op.run])), op := Looping(s.op.run, false))
    case BeginResume(run) => s.(op := Looping(run, PhaseOf(s, run).Activated?))
    case Move(evidence, at) =>
      var batch := NextBatch(s.op.run, s.receipts[s.op.run], PhaseOf(s, s.op.run), evidence, at);
      s.(db := Execute(s.db, batch), op := if Accepted(s.db, batch) then s.op else NoProcess)
    case RestorePause =>
      s.(surface := s.surface.(paused := s.receipts[s.op.run].intent.prior.paused), op := PauseRestored(s.op.run))
    case RestoreCron =>
      s.(surface := s.surface.(cron := s.receipts[s.op.run].intent.prior.cron), op := CronRestored(s.op.run))
    case FinishRun =>
      s.(db := Execute(s.db, Advance(s.op.run, s.receipts[s.op.run], V3Active, Activated, None)),
         op := Looping(s.op.run, false))
    case ReturnActivated => s.(op := Removing(s.op.run, s.op.resumedDone))
    case RemoveIntent => s.(intents := s.intents - {s.receipts[s.op.run].sourceSha}, op := NoProcess)
    case BeginPrepare(captured, found) =>
      s.(intents := s.intents[s.head := captured], op := Preparing(s.head, ToStop, found))
    case BeginRepair(found) => s.(op := Preparing(INCIDENT, ToStop, found))
    case PrepareStop => s.(surface := s.surface.(cron := STOPPED), op := s.op.(stage := ToPause))
    case PrepareSkip => s.(op := s.op.(stage := ToVerify))
    case PreparePause =>
      s.(surface := s.surface.(paused := true), op := s.op.(stage := if s.op.found.Some? then ToVerify else ToRecord))
    case PrepareRecord(run, receipt) =>
      s.(receipts := s.receipts[run := receipt], op := Preparing(s.op.sha, ToVerify, Some(run)))
    case PrepareEnds(verified) => s.(op := CleaningQueue(s.op.sha, if verified then s.op.found else None))
    case CleanQueue(reached, confirmed) =>
      s.(surface := if reached then s.surface.(paused := s.intents[s.op.sha].prior.paused) else s.surface,
         op := CleaningCron(s.op.sha, if confirmed then s.op.found else None))
    case CleanCron(reached, confirmed) =>
      s.(surface := if reached then s.surface.(cron := s.intents[s.op.sha].prior.cron) else s.surface,
         op := if confirmed && s.op.found.Some? then Removing(s.op.found.value, false) else NoProcess)
    case Crash => s.(op := NoProcess)
  }

  /** Nothing was attempted yet; the surface is as its owners left it. */
  predicate Init(s: State) {
    s.db.runs == map[] && s.intents == map[] && s.receipts == map[] && s.op.NoProcess?
  }

  predicate IsTrace(trace: seq<State>, steps: seq<Step>) {
    && |trace| == |steps| + 1 && Init(trace[0])
    && forall i | 0 <= i < |steps| :: Enabled(trace[i], steps[i]) && trace[i + 1] == Apply(trace[i], steps[i])
  }

  // ----- what every trace keeps

  /** The surface a process is about to mark as restored is the one in its run's intent. */
  predicate Restored(s: State, run: string) {
    run in s.receipts && s.surface == s.receipts[run].intent.prior
  }

  ghost predicate Ordered(s: State) {
    && (forall run | run in s.db.runs :: run in s.receipts)
    && match s.op
       case NoProcess => true
       case Stopping(sha) => sha in s.intents
       case Pausing(sha) => sha in s.intents
       case Recording(sha) => sha in s.intents
       case Starting(run) => run in s.receipts && run !in s.db.runs && s.receipts[run].sourceSha in s.intents
       case Looping(run, done) =>
         && run in s.receipts && run in s.db.runs && (done ==> PhaseOf(s, run).Activated?)
         && (PhaseOf(s, run).Activated? && !done ==> Restored(s, run))
       case PauseRestored(run) => run in s.receipts && s.surface.paused == s.receipts[run].intent.prior.paused
       case CronRestored(run) => Restored(s, run)
       case Removing(run, done) => run in s.receipts && (!done ==> Restored(s, run))
       case Preparing(sha, _, found) => Known(s, sha, found)
       case CleaningQueue(sha, found) => Known(s, sha, found)
       case CleaningCron(sha, found) =>
         Known(s, sha, found) && (found.Some? ==> s.surface.paused == s.intents[sha].prior.paused)
  }

  /** The intent of a preparation is on disk, and its receipt is one for that intent. */
  predicate Known(s: State, sha: string, found: Option<string>) {
    sha in s.intents && (found.Some? ==> ReceiptFor(s, sha, s.intents[sha], found.value))
  }

  lemma StepOrdered(s: State, step: Step)
    requires Ordered(s) && Enabled(s, step)
    ensures Ordered(Apply(s, step))
  {}

  lemma {:induction false} TraceOrdered(trace: seq<State>, steps: seq<Step>, i: nat)
    requires IsTrace(trace, steps) && i < |trace|
    ensures Ordered(trace[i])
  {
    hide Ordered;
    if i == 0 {
      InitOrdered(trace[0]);
    } else {
      TraceOrdered(trace, steps, i - 1);
      StepOrdered(trace[i - 1], steps[i - 1]);
    }
  }

  lemma InitOrdered(s: State)
    requires Init(s)
    ensures Ordered(s)
  {}

  /** The step marks the run as activated. */
  predicate Activates(s: State, s': State, run: string) {
    && run in s'.db.runs && PhaseOf(s', run).Activated?
    && (run in s.db.runs ==> !PhaseOf(s, run).Activated?)
  }

  /** However often the operator crashed and came back, at whatever source: a run is marked activated
      only while Cron and Queue have exactly the values of its own control intent. */
  lemma ActivatedOnlyWhenRestored(trace: seq<State>, steps: seq<Step>, i: nat, run: string)
    requires IsTrace(trace, steps) && i < |steps| && Activates(trace[i], trace[i + 1], run)
    ensures Restored(trace[i], run)
  {
    hide Ordered, Apply, Enabled, Activates, Restored;
    TraceOrdered(trace, steps, i);
    ActivatingStep(trace[i], steps[i], run);
  }

  lemma ActivatingStep(s: State, step: Step, run: string)
    requires Ordered(s) && Enabled(s, step) && Activates(s, Apply(s, step), run)
    ensures Restored(s, run)
  {}

  // ----- what steps do to intents, receipts, surface and runs

  /** The receipt names the intent of that source by its digest. */
  predicate NamesIntent(s: State, run: string, sha: string) {
    && run in s.receipts && s.receipts[run].sourceSha == sha
    && sha in s.intents && s.receipts[run].intent.digest == s.intents[sha].digest
  }

  /** Intents are create-only: one that stays is unchanged, a new one is that of the current source and holds the
      live surface, and one that goes is that of the receipt that names its digest. */
  lemma IntentsCreateOnly(trace: seq<State>, steps: seq<Step>, i: nat, sha: string)
    requires IsTrace(trace, steps) && i < |steps|
    ensures var s, s' := trace[i], trace[i + 1];
            && (sha in s.intents && sha in s'.intents ==> s'.intents[sha] == s.intents[sha])
            && (sha !in s.intents && sha in s'.intents ==> sha == s.head && s'.intents[sha].prior == s.surface)
            && (sha in s.intents && sha !in s'.intents ==> exists run :: NamesIntent(s, run, sha))
  {
    if steps[i].RemoveIntent? && sha in trace[i].intents && sha !in trace[i + 1].intents {
      assert NamesIntent(trace[i], trace[i].op.run, sha);
    }
  }

  /** Receipts are create-only too, and each is written for the intent that is on disk for its source, while the
      Queue is paused. */
  lemma ReceiptsCreateOnly(trace: seq<State>, steps: seq<Step>, i: nat, run: string)
    requires IsTrace(trace, steps) && i < |steps|
    ensures var s, s' := trace[i], trace[i + 1];
            && (run in s.receipts ==> run in s'.receipts && s'.receipts[run] == s.receipts[run])
            && (run !in s.receipts && run in s'.receipts ==>
                  && s'.receipts[run].sourceSha in s.intents
                  && s'.receipts[run].intent == s.intents[s'.receipts[run].sourceSha] && s.surface.paused)
  {}

  ghost predicate CronOnRecord(s: State, cron: seq<string>) {
    || (exists sha | sha in s.intents :: s.intents[sha].prior.cron == cron)
    || (exists run | run in s.receipts :: s.receipts[run].intent.prior.cron == cron)
  }

  ghost predicate PauseOnRecord(s: State, paused: bool) {
    || (exists sha | sha in s.intents :: s.intents[sha].prior.paused == paused)
    || (exists run | run in s.receipts :: s.receipts[run].intent.prior.paused == paused)
  }

  /** Cron changes only to nothing, or to what an intent or a receipt has on record, and the Queue only to paused, or
      to what is on record; and all that only while an intent or a receipt is there. */
  lemma SurfaceMoves(trace: seq<State>, steps: seq<Step>, i: nat)
    requires IsTrace(trace, steps) && i < |steps|
    ensures var s, s' := trace[i], trace[i + 1];
            && (s'.surface.cron != s.surface.cron ==>
                  (s'.surface.cron == [] && s.intents != map[]) || CronOnRecord(s, s'.surface.cron))
            && (s'.surface.paused != s.surface.paused ==>
                  (s'.surface.paused && s.intents != map[]) || PauseOnRecord(s, s'.surface.paused))
  {
    hide Ordered, Apply, Enabled, CronOnRecord, PauseOnRecord;
    TraceOrdered(trace, steps, i);
    SurfaceStep(trace[i], steps[i]);
  }

  lemma SurfaceStep(s: State, step: Step)
    requires Ordered(s) && Enabled(s, step)
    ensures var s' := Apply(s, step);
            && (s'.surface.cron != s.surface.cron ==>
                  (s'.surface.cron == [] && s.intents != map[]) || CronOnRecord(s, s'.surface.cron))
            && (s'.surface.paused != s.surface.paused ==>
                  (s'.surface.paused && s.intents != map[]) || PauseOnRecord(s, s'.surface.paused))
  {
    RecordsHave(s);
    hide CronOnRecord, PauseOnRecord;
  }

  lemma RecordsHave(s: State)
    ensures forall sha | sha in s.intents ::
              CronOnRecord(s, s.intents[sha].prior.cron) && PauseOnRecord(s, s.intents[sha].prior.paused)
    ensures forall run | run in s.receipts ::
              CronOnRecord(s, s.receipts[run].intent.prior.cron) && PauseOnRecord(s, s.receipts[run].intent.prior.paused)
  {}

  /** The database moves a run out of queue_paused only with Cron stopped and the Queue paused, up to v3_active only
      with its own source checked out, and always only under its receipt's owner and fence. */
  lemma MovesOnlyStopped(trace: seq<State>, steps: seq<Step>, i: nat, run: string)
    requires IsTrace(trace, steps) && i < |steps| && run in trace[i].db.runs && run in trace[i + 1].db.runs
    requires PhaseOf(trace[i + 1], run) != PhaseOf(trace[i], run)
    ensures run in trace[i].receipts
    ensures PhaseOf(trace[i], run) == QueuePaused ==> trace[i].surface == Surface([], true)
    ensures PhaseOf(trace[i + 1], run) != Activated ==> trace[i].head == trace[i].receipts[run].sourceSha
    ensures trace[i].db.runs[run].owner == trace[i].receipts[run].intent.owner
            && trace[i].db.runs[run].fence == trace[i].receipts[run].intent.fence
  {
    hide Apply, Enabled;
    MoveStep(trace[i], steps[i], run);
  }

  lemma MoveStep(s: State, step: Step, run: string)
    requires Enabled(s, step) && run in s.db.runs && run in Apply(s, step).db.runs
    requires PhaseOf(Apply(s, step), run) != PhaseOf(s, run)
    ensures run in s.receipts
    ensures PhaseOf(s, run) == QueuePaused ==> s.surface == Surface([], true)
    ensures PhaseOf(Apply(s, step), run) != Activated ==> s.head == s.receipts[run].sourceSha
    ensures s.db.runs[run].owner == s.receipts[run].intent.owner && s.db.runs[run].fence == s.receipts[run].intent.fence
  {}

  /** A preparation begins only while control is in bridge and the live surface is the one in its intent; its intent
      is removed only after it was verified, with control in bridge, and both halves were read back. */
  lemma PreparesAsRecorded(trace: seq<State>, steps: seq<Step>, i: nat)
    requires IsTrace(trace, steps) && i < |steps|
    ensures steps[i].BeginPrepare? ==>
              && trace[i].db.control == Bridge
              && trace[i + 1].intents == trace[i].intents[trace[i].head := steps[i].captured]
              && steps[i].captured.prior == trace[i].surface
              && forall run | run in trace[i].receipts && trace[i].receipts[run].sourceSha == trace[i].head
                              && trace[i].receipts[run].intent == steps[i].captured :: steps[i].found == Some(run)
    ensures steps[i].BeginRepair? ==>
              && trace[i].db.control == Bridge && INCIDENT in trace[i].intents && trace[i].head != INCIDENT
              && trace[i].intents[INCIDENT].prior.cron == trace[i].surface.cron
    ensures steps[i].PrepareEnds? && trace[i + 1].op.found.Some? ==> steps[i].verified && trace[i].db.control == Bridge
    ensures steps[i].CleanQueue? && trace[i + 1].op.found.Some? ==> steps[i].confirmed
    ensures steps[i].CleanCron? && trace[i + 1].op.Removing? ==> steps[i].confirmed
  {}

  // ----- when intents hold the original values

  /** The step creates an intent, for an activation or a preparation: none is on disk for the current source. */
  predicate Creates(s: State, step: Step) {
    (step.BeginActivate? || step.BeginPrepare?) && s.head !in s.intents
  }

  /** Every intent that is created captures the surface from before the first Cron stop. */
  ghost predicate CapturesOriginal(trace: seq<State>, steps: seq<Step>)
    requires IsTrace(trace, steps)
  {
    forall i | 0 <= i < |steps| && Creates(trace[i], steps[i]) :: steps[i].captured.prior == trace[0].surface
  }

  /** The live surface is the prior surface of every intent and every receipt on disk. */
  predicate AgreesWithRecords(s: State) {
    && (forall sha | sha in s.intents :: s.intents[sha].prior == s.surface)
    && (forall run | run in s.receipts :: s.receipts[run].intent.prior == s.surface)
  }

  /** The condition to check before an activation or a preparation at a source without an intent. */
  ghost predicate Careful(trace: seq<State>, steps: seq<Step>)
    requires IsTrace(trace, steps)
  {
    forall i | 0 <= i < |steps| && Creates(trace[i], steps[i]) :: AgreesWithRecords(trace[i])
  }

  ghost predicate AllOriginal(s: State, original: Surface) {
    && (forall run | run in s.receipts :: s.receipts[run].intent.prior == original)
    && (forall sha | sha in s.intents :: s.intents[sha].prior == original)
    && (s.intents == map[] && s.receipts == map[] ==> s.surface == original)
  }

  lemma StepOriginal(s: State, step: Step, original: Surface)
    requires Ordered(s) && AllOriginal(s, original) && Enabled(s, step)
    requires Creates(s, step) ==> step.captured.prior == original
    ensures AllOriginal(Apply(s, step), original)
  {
    if step.RemoveIntent? { assert s.op.run in s.receipts; }
  }

  /** With all records original, agreement with the records is the same as capturing the original. */
  lemma CreationOriginal(s: State, step: Step, original: Surface)
    requires AllOriginal(s, original) && Enabled(s, step) && Creates(s, step)
    ensures step.captured.prior == original <==> AgreesWithRecords(s)
  {
    if AgreesWithRecords(s) && s.intents != map[] {
      var sha :| sha in s.intents;
      assert s.intents[sha].prior == s.surface;
    }
    if AgreesWithRecords(s) && s.receipts != map[] {
      var run :| run in s.receipts;
      assert s.receipts[run].intent.prior == s.surface;
    }
  }

  ghost predicate CarefulUpTo(trace: seq<State>, steps: seq<Step>, n: nat)
    requires IsTrace(trace, steps) && n <= |steps|
  {
    forall i | 0 <= i < n && Creates(trace[i], steps[i]) :: AgreesWithRecords(trace[i])
  }

  lemma {:induction false} CarefulOriginal(trace: seq<State>, steps: seq<Step>, n: nat)
    requires IsTrace(trace, steps) && n <= |steps| && CarefulUpTo(trace, steps, n)
    ensures AllOriginal(trace[n], trace[0].surface)
  {
    hide Ordered, AllOriginal, AgreesWithRecords;
    if n == 0 {
      InitOriginal(trace[0]);
    } else {
      CarefulOriginal(trace, steps, n - 1);
      TraceOrdered(trace, steps, n - 1);
      if Creates(trace[n - 1], steps[n - 1]) { CreationOriginal(trace[n - 1], steps[n - 1], trace[0].surface); }
      StepOriginal(trace[n - 1], steps[n - 1], trace[0].surface);
    }
  }

  lemma InitOriginal(s: State)
    requires Init(s)
    ensures AllOriginal(s, s.surface)
  {}

  lemma {:induction false} CapturedUpTo(trace: seq<State>, steps: seq<Step>, n: nat)
    requires IsTrace(trace, steps) && n <= |steps| && CapturesOriginal(trace, steps)
    ensures CarefulUpTo(trace, steps, n)
  {
    hide AgreesWithRecords;
    if n > 0 {
      CapturedUpTo(trace, steps, n - 1);
      CarefulOriginal(trace, steps, n - 1);
      if Creates(trace[n - 1], steps[n - 1]) { CreationOriginal(trace[n - 1], steps[n - 1], trace[0].surface); }
    }
  }

  /** Every intent captures the original surface if and only if each one is created while the live surface
      agrees with every intent and every receipt that is on disk, of whatever source. */
  lemma OriginalIffCareful(trace: seq<State>, steps: seq<Step>)
    requires IsTrace(trace, steps)
    ensures CapturesOriginal(trace, steps) <==> Careful(trace, steps)
  {
    hide AgreesWithRecords;
    if CapturesOriginal(trace, steps) { CapturedUpTo(trace, steps, |steps|); }
    if Careful(trace, steps) {
      forall i | 0 <= i < |steps| && Creates(trace[i], steps[i]) ensures steps[i].captured.prior == trace[0].surface {
        CarefulOriginal(trace, steps, i);
        CreationOriginal(trace[i], steps[i], trace[0].surface);
      }
    }
  }

  /** Crash-safe restoration: under that condition every run that becomes activated has put back the Cron
      and Queue values from before the first stop. */
  lemma CrashSafeRestoration(trace: seq<State>, steps: seq<Step>, i: nat, run: string)
    requires IsTrace(trace, steps) && Careful(trace, steps) && i < |steps| && Activates(trace[i], trace[i + 1], run)
    ensures trace[i].surface == trace[0].surface
  {
    ActivatedOnlyWhenRestored(trace, steps, i, run);
    CarefulOriginal(trace, steps, i);
  }

  // ----- two rules that are enough

  /** Resuming a run that is activated already, while its source's intent is on disk. */
  predicate ResumesDone(s: State, step: Step) {
    && step.BeginResume? && step.run in s.db.runs && PhaseOf(s, step.run).Activated?
    && step.run in s.receipts && s.receipts[step.run].sourceSha in s.intents
  }

  /** No activation and no preparation at a source without an intent while another source's intent is on
      disk; and an activated run is resumed only while the surface is as its source's intent has it. */
  ghost predicate Disciplined(trace: seq<State>, steps: seq<Step>)
    requires IsTrace(trace, steps)
  {
    forall i | 0 <= i < |steps| ::
      && (Creates(trace[i], steps[i]) ==> trace[i].intents == map[])
      && (ResumesDone(trace[i], steps[i]) ==>
            trace[i].surface == trace[i].intents[trace[i].receipts[steps[i].run].sourceSha].prior)
  }

  /** An activated run is being resumed and its source's intent is on disk. */
  predicate ResumedOnDisk(s: State) {
    && (s.op.Looping? || s.op.Removing?) && s.op.resumedDone
    && s.op.run in s.receipts && s.receipts[s.op.run].sourceSha in s.intents
  }

  ghost predicate Settled(s: State, original: Surface) {
    && AllOriginal(s, original)
    && (s.intents == map[] ==> s.surface == original)
    && (ResumedOnDisk(s) ==> s.surface == original)
  }

  lemma StepSettled(s: State, step: Step, original: Surface)
    requires Ordered(s) && Settled(s, original) && Enabled(s, step)
    requires Creates(s, step) ==> s.intents == map[]
    requires ResumesDone(s, step) ==> s.surface == s.intents[s.receipts[step.run].sourceSha].prior
    ensures Settled(Apply(s, step), original)
  {
    StepOriginal(s, step, original);
    if step.RemoveIntent? {
      assert Apply(s, step).intents == map[] ==> s.intents == map[] || s.receipts[s.op.run].sourceSha in s.intents;
    }
  }

  lemma {:induction false} DisciplineSettles(trace: seq<State>, steps: seq<Step>, n: nat)
    requires IsTrace(trace, steps) && n <= |steps| && Disciplined(trace, steps)
    ensures Settled(trace[n], trace[0].surface)
  {
    hide Ordered, Settled;
    if n == 0 {
      InitSettled(trace[0]);
    } else {
      DisciplineSettles(trace, steps, n - 1);
      TraceOrdered(trace, steps, n - 1);
      StepSettled(trace[n - 1], steps[n - 1], trace[0].surface);
    }
  }

  lemma InitSettled(s: State)
    requires Init(s)
    ensures Settled(s, s.surface)
  {}

  /** Keeping the two rules keeps the condition. */
  lemma DisciplineIsCareful(trace: seq<State>, steps: seq<Step>)
    requires IsTrace(trace, steps) && Disciplined(trace, steps)
    ensures Careful(trace, steps)
  {
    forall i | 0 <= i < |steps| && Creates(trace[i], steps[i]) ensures AgreesWithRecords(trace[i]) {
      DisciplineSettles(trace, steps, i);
    }
  }

  // ----- the condition is needed

  /** A history and a later state of the same history. */
  ghost predicate Extends(trace: seq<State>, steps: seq<Step>, trace': seq<State>, steps': seq<Step>) {
    && IsTrace(trace, steps) && IsTrace(trace', steps') && trace <= trace' && steps <= steps'
    && |trace| == |steps| + 1 && |trace'| == |steps'| + 1
  }

  /** From step n on no intent is removed, and no activation or preparation begins. */
  ghost predicate KeepsIntents(steps: seq<Step>, n: nat) {
    forall i | n <= i < |steps| :: !steps[i].RemoveIntent? && !steps[i].BeginActivate? && !steps[i].BeginPrepare?
  }

  lemma Extend(trace: seq<State>, steps: seq<Step>, step: Step) returns (trace': seq<State>, steps': seq<Step>)
    requires IsTrace(trace, steps) && Enabled(trace[|steps|], step)
    ensures Extends(trace, steps, trace', steps')
    ensures trace' == trace + [Apply(trace[|steps|], step)] && steps' == steps + [step]
  {
    trace', steps' := trace + [Apply(trace[|steps|], step)], steps + [step];
  }

  lemma ExtendsFurther(trace: seq<State>, steps: seq<Step>, trace': seq<State>, steps': seq<Step>,
                       trace'': seq<State>, steps'': seq<Step>)
    requires Extends(trace, steps, trace', steps') && Extends(trace', steps', trace'', steps'')
    ensures Extends(trace, steps, trace'', steps'')
  {
    hide IsTrace;
  }

  /** `--activate` up to the paused Queue. */
  lemma ActivateToPaused(trace: seq<State>, steps: seq<Step>, captured: Intent)
    returns (trace': seq<State>, steps': seq<Step>)
    requires IsTrace(trace, steps)
    requires var s := trace[|steps|]; s.op.NoProcess? && Captures(s, captured)
    ensures KeepsIntents(steps', |steps| + 1)
    ensures Extends(trace, steps, trace', steps') && |steps| < |steps'| && steps'[|steps|] == BeginActivate(captured)
    ensures var s := trace[|steps|];
            trace'[|steps'|] == s.(surface := Surface(STOPPED, true), intents := s.intents[s.head := captured],
                                   op := Recording(s.head))
  {
    var traceA, stepsA := Extend(trace, steps, BeginActivate(captured));
    var traceB, stepsB := Extend(traceA, stepsA, StopCron);
    trace', steps' := Extend(traceB, stepsB, PauseQueue);
  }

  /** `--activate` up to the started run. */
  lemma ActivateToStart(trace: seq<State>, steps: seq<Step>, run: string, receipt: Receipt)
    returns (trace': seq<State>, steps': seq<Step>)
    requires IsTrace(trace, steps)
    requires var s := trace[|steps|];
             && s.op.NoProcess? && Captures(s, receipt.intent) && receipt.sourceSha == s.head
             && run !in s.receipts && run !in s.db.runs
    ensures KeepsIntents(steps', |steps| + 1)
    ensures Extends(trace, steps, trace', steps') && |steps| < |steps'| && steps'[|steps|] == BeginActivate(receipt.intent)
    ensures var s, s' := trace[|steps|], trace'[|steps'|];
            && s'.surface == Surface(STOPPED, true) && s'.intents == s.intents[s.head := receipt.intent]
            && s'.head == s.head && s'.receipts == s.receipts[run := receipt] && s'.db.control == s.db.control
            && RunMatches(s'.db, run, receipt, QueuePaused) && s'.op == Looping(run, false)
  {
    var traceA, stepsA := ActivateToPaused(trace, steps, receipt.intent);
    var traceB, stepsB := Extend(traceA, stepsA, Record(run, receipt));
    trace', steps' := Extend(traceB, stepsB, StartRun);
  }

  /** The phases up to v3_active; the process ends there when control was active already. */
  lemma MoveToV3(trace: seq<State>, steps: seq<Step>, run: string, receipt: Receipt)
    returns (trace': seq<State>, steps': seq<Step>)
    requires IsTrace(trace, steps)
    requires var s := trace[|steps|];
             && s.op == Looping(run, false) && run in s.receipts && s.receipts[run] == receipt
             && s.head == receipt.sourceSha
             && s.surface == Surface(STOPPED, true) && RunMatches(s.db, run, receipt, QueuePaused)
    ensures KeepsIntents(steps', |steps|)
    ensures Extends(trace, steps, trace', steps')
    ensures var s, s' := trace[|steps|], trace'[|steps'|];
            && s'.surface == s.surface && s'.intents == s.intents && s'.head == s.head && s'.receipts == s.receipts
            && RunMatches(s'.db, run, receipt, V3Active) && s'.db.control.Active?
            && s'.op == (if s.db.control.Bridge? then Looping(run, false) else NoProcess)
  {
    var traceA, stepsA := Extend(trace, steps, Move("", ""));
    var traceB, stepsB := Extend(traceA, stepsA, Move("", ""));
    trace', steps' := Extend(traceB, stepsB, Move("", ""));
  }

  /** The rest of the loop: restore and mark as activated. */
  lemma FinishFromV3(trace: seq<State>, steps: seq<Step>, run: string, receipt: Receipt)
    returns (trace': seq<State>, steps': seq<Step>)
    requires IsTrace(trace, steps)
    requires var s := trace[|steps|];
             && s.op == Looping(run, false) && run in s.receipts && s.receipts[run] == receipt
             && s.head == receipt.sourceSha && RunMatches(s.db, run, receipt, V3Active)
    ensures KeepsIntents(steps', |steps|)
    ensures Extends(trace, steps, trace', steps') && |steps| < |steps'|
    ensures Activates(trace'[|steps'| - 1], trace'[|steps'|], run)
    ensures trace'[|steps'| - 1].surface == receipt.intent.prior
    ensures var s, s' := trace[|steps|], trace'[|steps'|];
            && s'.surface == receipt.intent.prior && s'.intents == s.intents && s'.receipts == s.receipts
            && s'.head == s.head && RunMatches(s'.db, run, receipt, Activated) && s'.db.control == s.db.control
            && s'.op == Looping(run, false)
  {
    var traceA, stepsA := Extend(trace, steps, RestorePause);
    var traceB, stepsB := Extend(traceA, stepsA, RestoreCron);
    trace', steps' := Extend(traceB, stepsB, FinishRun);
  }

  /** Whatever an intent holds is what some continuation restores and marks as activated. */
  lemma IntentIsRestored(trace: seq<State>, steps: seq<Step>, run: string, receipt: Receipt)
    returns (trace': seq<State>, steps': seq<Step>)
    requires IsTrace(trace, steps)
    requires var s := trace[|steps|];
             && s.op.NoProcess? && Captures(s, receipt.intent) && receipt.sourceSha == s.head
             && run !in s.receipts && run !in s.db.runs
    ensures KeepsIntents(steps', |steps| + 1)
    ensures Extends(trace, steps, trace', steps') && |steps| < |steps'| && steps'[|steps|] == BeginActivate(receipt.intent)
    ensures Activates(trace'[|steps'| - 1], trace'[|steps'|], run)
    ensures trace'[|steps'| - 1].surface == receipt.intent.prior
    ensures var s, s' := trace[|steps|], trace'[|steps'|];
            && s'.surface == receipt.intent.prior && s'.intents == s.intents[s.head := receipt.intent]
            && s'.receipts == s.receipts[run := receipt] && s'.head == s.head && s'.db.control.Active?
            && RunMatches(s'.db, run, receipt, Activated) && s'.op == Looping(run, false)
  {
    hide IsTrace, Enabled, Apply, RunMatches, Captures, Activates;
    var traceA, stepsA := ActivateToStart(trace, steps, run, receipt);
    var traceB, stepsB := MoveToV3(traceA, stepsA, run, receipt);
    ExtendsFurther(trace, steps, traceA, stepsA, traceB, stepsB);
    var traceC, stepsC := traceB, stepsB;
    if traceB[|stepsB|].op.NoProcess? {
      traceC, stepsC := ResumeAtV3(traceB, stepsB, run, receipt);
      ExtendsFurther(trace, steps, traceB, stepsB, traceC, stepsC);
    }
    trace', steps' := FinishFromV3(traceC, stepsC, run, receipt);
    ExtendsFurther(trace, steps, traceC, stepsC, trace', steps');
  }

  lemma ResumeAtV3(trace: seq<State>, steps: seq<Step>, run: string, receipt: Receipt)
    returns (trace': seq<State>, steps': seq<Step>)
    requires IsTrace(trace, steps)
    requires var s := trace[|steps|];
             s.op.NoProcess? && run in s.receipts && s.receipts[run] == receipt && RunMatches(s.db, run, receipt, V3Active)
    ensures KeepsIntents(steps', |steps|)
    ensures Extends(trace, steps, trace', steps')
    ensures trace'[|steps'|] == trace[|steps|].(op := Looping(run, false))
  {
    trace', steps' := Extend(trace, steps, BeginResume(run));
  }

  /** The condition is exact for every single intent: after any careful history, an activation or preparation
      that creates an intent while the surface disagrees with the records can be continued until a run is
      marked activated on a surface that is not the original one. */
  lemma UncarefulCreationLoses(trace: seq<State>, steps: seq<Step>, step: Step, run: string, receipt: Receipt)
    returns (trace': seq<State>, steps': seq<Step>)
    requires IsTrace(trace, steps) && Careful(trace, steps)
    requires var s := trace[|steps|];
             && Enabled(s, step) && Creates(s, step) && !AgreesWithRecords(s)
             && receipt.intent == step.captured && receipt.sourceSha == s.head && run !in s.receipts
    ensures Extends(trace, steps, trace', steps') && |steps| < |steps'| && steps'[|steps|] == step
    ensures Activates(trace'[|steps'| - 1], trace'[|steps'|], run) && trace'[|steps'| - 1].surface != trace[0].surface
  {
    hide AllOriginal, AgreesWithRecords;
    CarefulOriginal(trace, steps, |steps|);
    TraceOrdered(trace, steps, |steps|);
    CreationOriginal(trace[|steps|], step, trace[0].surface);
    var traceA, stepsA := AbandonedCreation(trace, steps, step);
    trace', steps' := IntentIsRestored(traceA, stepsA, run, receipt);
    ExtendsFurther(trace, steps, traceA, stepsA, trace', steps');
  }

  lemma AbandonedCreation(trace: seq<State>, steps: seq<Step>, step: Step)
    returns (trace': seq<State>, steps': seq<Step>)
    requires IsTrace(trace, steps)
    requires Enabled(trace[|steps|], step) && Creates(trace[|steps|], step)
    ensures Extends(trace, steps, trace', steps') && KeepsIntents(steps', |steps| + 1)
    ensures |steps'| == |steps| + 2 && steps'[|steps|] == step
    ensures var s := trace[|steps|]; trace'[|steps'|] == s.(intents := s.intents[s.head := step.captured], op := NoProcess)
  {
    var traceA, stepsA := Extend(trace, steps, step);
    trace', steps' := Extend(traceA, stepsA, Crash);
  }

  // ----- three such histories

  /** `--activate` that stops Cron and then stops itself. */
  lemma AbandonedActivation(trace: seq<State>, steps: seq<Step>, captured: Intent)
    returns (trace': seq<State>, steps': seq<Step>)
    requires IsTrace(trace, steps)
    requires var s := trace[|steps|]; s.op.NoProcess? && Captures(s, captured)
    ensures KeepsIntents(steps', |steps| + 1)
    ensures Extends(trace, steps, trace', steps') && |steps'| == |steps| + 3 && steps'[|steps|] == BeginActivate(captured)
    ensures var s := trace[|steps|];
            trace'[|steps'|] == s.(surface := s.surface.(cron := STOPPED), intents := s.intents[s.head := captured])
  {
    var traceA, stepsA := Extend(trace, steps, BeginActivate(captured));
    var traceB, stepsB := Extend(traceA, stepsA, StopCron);
    trace', steps' := Extend(traceB, stepsB, Crash);
  }

  lemma CrashedRun(trace: seq<State>, steps: seq<Step>) returns (trace': seq<State>, steps': seq<Step>)
    requires IsTrace(trace, steps)
    ensures Extends(trace, steps, trace', steps') && trace'[|steps'|] == trace[|steps|].(op := NoProcess)
  {
    trace', steps' := Extend(trace, steps, Crash);
  }

  lemma CheckedOut(trace: seq<State>, steps: seq<Step>, sha: string) returns (trace': seq<State>, steps': seq<Step>)
    requires IsTrace(trace, steps)
    ensures KeepsIntents(steps', |steps|)
    ensures |steps'| == |steps| + 1
    ensures Extends(trace, steps, trace', steps') && trace'[|steps'|] == trace[|steps|].(head := sha)
  {
    trace', steps' := Extend(trace, steps, Checkout(sha));
  }

  /** `--resume` of an activated run, which removes the intent. */
  lemma ResumedDone(trace: seq<State>, steps: seq<Step>, run: string, receipt: Receipt)
    returns (trace': seq<State>, steps': seq<Step>)
    requires IsTrace(trace, steps)
    requires var s := trace[|steps|];
             && s.op.NoProcess? && run in s.receipts && s.receipts[run] == receipt
             && RunMatches(s.db, run, receipt, Activated)
             && s.head == receipt.sourceSha && s.head in s.intents && s.intents[s.head] == receipt.intent
    ensures Extends(trace, steps, trace', steps')
    ensures trace'[|steps'|] == trace[|steps|].(intents := trace[|steps|].intents - {receipt.sourceSha})
  {
    var traceA, stepsA := Extend(trace, steps, BeginResume(run));
    var traceB, stepsB := Extend(traceA, stepsA, ReturnActivated);
    trace', steps' := Extend(traceB, stepsB, RemoveIntent);
  }

  /** The history ends with `run` being marked activated while Cron is empty. */
  ghost predicate LosesCron(trace: seq<State>, steps: seq<Step>, run: string, original: Surface) {
    && IsTrace(trace, steps) && trace[0].surface == original && |steps| > 0
    && Activates(trace[|steps| - 1], trace[|steps|], run) && trace[|steps| - 1].surface.cron == STOPPED
  }

  /** Once Cron is stopped and no intent is on disk for the current source, the next activation loses it. */
  lemma LoseCron(trace: seq<State>, steps: seq<Step>, run: string) returns (trace': seq<State>, steps': seq<Step>)
    requires IsTrace(trace, steps) && trace[0].surface.cron != STOPPED
    requires var s := trace[|steps|];
             && s.op.NoProcess? && s.head !in s.intents && s.surface.cron == STOPPED
             && run !in s.receipts
    ensures LosesCron(trace', steps', run, trace[0].surface) && !Careful(trace', steps')
    ensures steps < steps' && KeepsIntents(steps', |steps| + 1) && steps'[|steps|].BeginActivate?
  {
    hide Enabled, Apply, RunMatches, Activates, Restored;
    var s := trace[|steps|];
    TraceOrdered(trace, steps, |steps|);
    var receipt := Receipt(Intent("later", s.surface, "p", "g"), s.head, "config");
    trace', steps' := IntentIsRestored(trace, steps, run, receipt);
    if Careful(trace', steps') { CrashSafeRestoration(trace', steps', |steps'| - 1, run); }
  }

  /** One source.  A crash between `activated` and the removal of the intent, a second `--activate` that
      stops Cron and stops itself, and `--resume` of the first run: the intent is gone and Cron is empty.
      The third activation captures that. */
  lemma EmptiedCronIsRestored(original: Surface) returns (trace: seq<State>, steps: seq<Step>)
    requires original.cron != STOPPED
    ensures LosesCron(trace, steps, "r2", original) && !Careful(trace, steps)
  {
    hide IsTrace, Enabled, Apply, RunMatches, Activates;
    var receipt := Receipt(Intent("first", original, "o", "f"), "sha", "config");
    trace, steps := Beginning(original, "sha");
    trace, steps := IntentIsRestored(trace, steps, "r1", receipt);
    trace, steps := CrashedRun(trace, steps);
    trace, steps := AbandonedActivation(trace, steps, receipt.intent);
    trace, steps := ResumedDone(trace, steps, "r1", receipt);
    Different();
    trace, steps := LoseCron(trace, steps, "r2");
  }

  lemma Different()
    ensures "r1" != "r2" && "a" != "b"
  {
    assert "r1"[1] != "r2"[1] && "a"[0] != "b"[0];
  }

  /** Two sources.  An activation at the first stops Cron and fails; the fix is committed; the activation
      at the second finds no intent of its own and captures the empty schedule. */
  lemma NextSourceCapturesEmptied(original: Surface) returns (trace: seq<State>, steps: seq<Step>)
    requires original.cron != STOPPED
    ensures LosesCron(trace, steps, "r2", original) && !Careful(trace, steps)
    ensures forall i | 0 <= i < |steps| :: !steps[i].RemoveIntent?
  {
    hide IsTrace, Enabled, Apply, RunMatches, Activates;
    trace, steps := Beginning(original, "a");
    trace, steps := AbandonedActivation(trace, steps, Intent("first", original, "o", "f"));
    trace, steps := CheckedOut(trace, steps, "b");
    Different();
    trace, steps := LoseCron(trace, steps, "r2");
  }

  /** The intent that the step creates is the only one that breaks the condition. */
  ghost predicate OnlyBreach(trace: seq<State>, steps: seq<Step>, n: nat)
    requires IsTrace(trace, steps)
  {
    && n < |steps| && Creates(trace[n], steps[n]) && !AgreesWithRecords(trace[n])
    && forall i | 0 <= i < |steps| && i != n && Creates(trace[i], steps[i]) :: AgreesWithRecords(trace[i])
  }

  /** A preparation in between.  An activation at the first source stops Cron and fails; the preparation at the
      second creates an intent for the empty schedule and is refused because the lease is held; the activation
      at the second source then creates none.  Only the preparation breaks the condition. */
  lemma PreparationCapturesEmptied(original: Surface) returns (trace: seq<State>, steps: seq<Step>, n: nat)
    requires original.cron != STOPPED
    ensures LosesCron(trace, steps, "r1", original)
    ensures OnlyBreach(trace, steps, n) && steps[n].BeginPrepare?
  {
    var first := Intent("first", original, "o", "f");
    var second := Intent("second", Surface(STOPPED, original.paused), "p", "g");
    Different();
    trace, steps := Beginning(original, "a");
    assert AgreesWithRecords(trace[0]);
    trace, steps := AbandonedActivation(trace, steps, first);
    trace, steps := CheckedOut(trace, steps, "b");
    n := |steps|;
    var prepare := BeginPrepare(second, None);
    assert !AgreesWithRecords(trace[n]) by { assert "a" in trace[n].intents; }
    var traceA, stepsA := AbandonedCreation(trace, steps, prepare);
    hide IsTrace, Enabled, Apply, RunMatches, Activates, AgreesWithRecords;
    var traceB, stepsB := IntentIsRestored(traceA, stepsA, "r1", Receipt(second, "b", "config"));
    ExtendsFurther(trace, steps, traceA, stepsA, traceB, stepsB);
    trace, steps := traceB, stepsB;
  }

  lemma Beginning(original: Surface, sha: string) returns (trace: seq<State>, steps: seq<Step>)
    ensures IsTrace(trace, steps) && steps == []
    ensures trace == [State(Db(map[], Bridge), original, sha, map[], map[], NoProcess)]
  {
    trace, steps := [State(Db(map[], Bridge), original, sha, map[], map[], NoProcess)], [];
  }

  // ----- the operator's code

  /** One machine on which `activate` and `resume` are called; `Valid()` ties its history to a trace. */
  class Operator {
    var s: State
    ghost var trace: seq<State>
    ghost var steps: seq<Step>

    ghost predicate Valid()
      reads this
    {
      IsTrace(trace, steps) && trace[|steps|] == s
    }

    constructor (surface: Surface, head: string)
      ensures Valid() && s.surface == surface && s.head == head && s.op.NoProcess? && trace[0].surface == surface
    {
      s := State(Db(map[], Bridge), surface, head, map[], map[], NoProcess);
      trace, steps := [State(Db(map[], Bridge), surface, head, map[], map[], NoProcess)], [];
    }

    method Take(step: Step)
      requires Valid() && Enabled(s, step)
      modifies this
      ensures Valid() && s == Apply(old(s), step) && trace[0] == old(trace[0])
    {
      s := Apply(s, step);
      trace, steps := trace + [s], steps + [step];
    }

    /** Another source may be checked out at any time. */
    method Elsewhere()
      requires Valid()
      modifies this
      ensures Valid() && trace[0] == old(trace[0]) && s == old(s).(head := s.head)
    {
      var moved: bool := *;
      var sha: string := *;
      if moved { Take(Checkout(sha)); }
    }

    /** The phases up to v3_active: one batch, which may be refused. */
    method AdvancePhase(run: string) returns (accepted: bool)
      requires Valid() && LoopsAt(s, {QueuePaused, BridgeEstablished, Deployed}) && s.op.run == run
      modifies this
      ensures Valid() && trace[0] == old(trace[0]) && s.receipts == old(s.receipts) && s.surface == old(s.surface)
      ensures accepted ==> s.op == old(s.op) && run in s.db.runs
      ensures accepted ==> Rank(PhaseOf(s, run)) == old(Rank(PhaseOf(s, run))) + 1 && !PhaseOf(s, run).Activated?
    {
      hide IsTrace;
      if PhaseOf(s, run).QueuePaused? && (s.surface.cron != STOPPED || !s.surface.paused) { return false; }
      var evidence: string := *;
      var at: string := *;
      Take(Move(evidence, at));
      accepted := !s.op.NoProcess?;
    }

    /** The phase v3_active: Queue, then Cron, then the row. */
    method RestoreSurface(run: string) returns (finished: bool)
      requires Valid() && LoopsAt(s, {V3Active}) && s.op.run == run
      modifies this
      ensures Valid() && trace[0] == old(trace[0]) && s.receipts == old(s.receipts)
      ensures finished ==> s.op == Looping(run, false) && run in s.db.runs && PhaseOf(s, run).Activated?
      ensures finished ==> s.surface == s.receipts[run].intent.prior
    {
      hide IsTrace;
      Take(Step.RestorePause);
      var stopped: bool := *;
      if stopped { return false; }
      Take(Step.RestoreCron);
      stopped := *;
      if stopped || !RunMatches(s.db, run, s.receipts[run], V3Active) { return false; }
      Take(FinishRun);
      finished := true;
    }

    /** `_continue`: loop over the stored phase until the run is activated or something stops it. */
    method Continue(run: string) returns (activated: bool)
      requires Valid() && s.op.Looping? && s.op.run == run && run in s.receipts && run in s.db.runs
      modifies this
      ensures Valid() && trace[0] == old(trace[0]) && s.receipts == old(s.receipts)
      ensures activated ==> s.op.Removing? && s.op.run == run && run in s.db.runs && PhaseOf(s, run).Activated?
      ensures activated && !old(PhaseOf(s, run)).Activated? ==> s.surface == s.receipts[run].intent.prior
    {
      while true
        invariant Valid() && trace[0] == old(trace[0]) && s.receipts == old(s.receipts)
        invariant s.op.Looping? && s.op.run == run && run in s.receipts && run in s.db.runs
        invariant PhaseOf(s, run).Activated? && !old(PhaseOf(s, run)).Activated? ==>
                  s.surface == s.receipts[run].intent.prior
        decreases 4 - Rank(PhaseOf(s, run))
      {
        Elsewhere();
        var stopped: bool := *;
        if stopped || s.head != s.receipts[run].sourceSha { return false; }
        if PhaseOf(s, run).Activated? {
          Take(ReturnActivated);
          return true;
        }
        var advanced: bool;
        if PhaseOf(s, run).V3Active? {
          advanced := RestoreSurface(run);
        } else {
          advanced := AdvancePhase(run);
        }
        if !advanced { return false; }
      }
    }

    method RemoveControlIntent(run: string) returns (ok: bool)
      requires Valid() && s.op.Removing? && s.op.run == run && run in s.receipts
      modifies this
      ensures Valid() && trace[0] == old(trace[0]) && s.surface == old(s.surface) && s.op.NoProcess?
      ensures s.receipts == old(s.receipts) && s.db == old(s.db)
      ensures ok ==> s.intents == old(s.intents) - {s.receipts[run].sourceSha}
      ensures !ok ==> s.intents == old(s.intents)
    {
      var sha := s.receipts[run].sourceSha;
      ok := sha in s.intents ==> s.intents[sha].digest == s.receipts[run].intent.digest;
      Take(if ok then RemoveIntent else Crash);
    }

    /** The first half of `activate`: intent, stop, pause, receipt. */
    method Quiesce(run: string, captured: Intent, receipt: Receipt) returns (recorded: bool)
      requires Valid() && s.op.NoProcess? && run !in s.receipts
      requires Captures(s, captured) && receipt.intent == captured && receipt.sourceSha == s.head
      modifies this
      ensures Valid() && trace[0] == old(trace[0])
      ensures recorded ==> s == old(s).(surface := Surface(STOPPED, true), op := Starting(run),
                                        intents := old(s.intents)[receipt.sourceSha := captured],
                                        receipts := old(s.receipts)[run := receipt])
    {
      hide IsTrace;
      Take(BeginActivate(captured));
      var stopped: bool := *;
      if stopped { return false; }
      Take(StopCron);
      stopped := *;
      if stopped { return false; }
      Take(PauseQueue);
      stopped := *;
      if stopped { return false; }
      Take(Record(run, receipt));
      stopped := *;
      recorded := !stopped;
    }

    /** `activate`: on return the process is gone, wherever it stopped. */
    method Activate(run: string, captured: Intent, receipt: Receipt) returns (activated: bool)
      requires Valid() && s.op.NoProcess? && run !in s.receipts
      requires Captures(s, captured) && receipt.intent == captured && receipt.sourceSha == s.head
      modifies this
      ensures Valid() && trace[0] == old(trace[0]) && s.op.NoProcess?
      ensures activated ==> s.surface == captured.prior && receipt.sourceSha !in s.intents
    {
      activated := Quiesce(run, captured, receipt);
      if activated {
        TraceOrdered(trace, steps, |steps|);
        hide IsTrace;
        Take(StartRun);
        activated := Continue(run);
        if activated { activated := RemoveControlIntent(run); }
      }
      if !activated { Take(Crash); }
    }

    /** Stop, pause and record, unless all that is left is to verify. */
    method PrepareQuiesce(receipt: Receipt, run: string)
      requires Valid() && s.op.Preparing? && s.op.stage.ToStop? && s.op.sha in s.intents
      requires s.op.found.None? ==>
                 run !in s.receipts && receipt.intent == s.intents[s.op.sha] && receipt.sourceSha == s.op.sha
      modifies this
      ensures Valid() && trace[0] == old(trace[0]) && s.intents == old(s.intents) && s.db == old(s.db)
      ensures s.op.Preparing? && s.op.sha == old(s.op.sha) && s.head == old(s.head)
      ensures s.op.stage.ToVerify? ==> s.op.found.Some?
    {
      hide IsTrace;
      var skip: bool := *;
      if skip && s.op.found.Some? {
        Take(PrepareSkip);
        return;
      }
      Take(PrepareStop);
      var stopped: bool := *;
      if stopped { return; }
      Take(PreparePause);
      if s.op.stage.ToRecord? && s.surface == Surface(STOPPED, true) { Take(PrepareRecord(run, receipt)); }
    }

    /** The `try` of a preparation; what it does with lease and migrations decides how it ends. */
    method PrepareTry(receipt: Receipt, run: string)
      requires Valid() && s.op.Preparing? && s.op.stage.ToStop? && s.op.sha in s.intents
      requires s.op.found.None? ==>
                 run !in s.receipts && receipt.intent == s.intents[s.op.sha] && receipt.sourceSha == s.op.sha
      modifies this
      ensures Valid() && trace[0] == old(trace[0]) && s.intents == old(s.intents) && s.db == old(s.db)
      ensures s.op.CleaningQueue? && s.op.sha == old(s.op.sha)
    {
      var stopped: bool := *;
      if !stopped { PrepareQuiesce(receipt, run); }
      stopped := *;
      hide IsTrace;
      Take(PrepareEnds(!stopped && s.op.stage.ToVerify? && s.db.control.Bridge?));
    }

    /** Both halves are tried and read back. */
    method PrepareRestore()
      requires Valid() && s.op.CleaningQueue? && s.op.sha in s.intents
      modifies this
      ensures Valid() && trace[0] == old(trace[0]) && s.receipts == old(s.receipts) && s.db == old(s.db)
      ensures s.intents == old(s.intents) && (s.op.Removing? || s.op.NoProcess?)
      ensures s.op.Removing? ==> old(s.op.found) == Some(s.op.run) && s.surface == old(s.intents[s.op.sha].prior)
    {
      hide IsTrace;
      var reached: bool := *;
      var confirmed: bool := *;
      Take(CleanQueue(reached, reached && confirmed));
      reached, confirmed := *, *;
      Take(CleanCron(reached, reached && confirmed));
    }

    /** The `finally` of a preparation: the intent is removed only if all went well. */
    method PrepareFinally() returns (ok: bool)
      requires Valid() && s.op.CleaningQueue? && s.op.sha in s.intents
      modifies this
      ensures Valid() && trace[0] == old(trace[0]) && s.op.NoProcess? && s.receipts == old(s.receipts) && s.db == old(s.db)
      ensures ok ==> s.surface == old(s.intents[s.op.sha].prior) && s.intents == old(s.intents) - {old(s.op.sha)}
      ensures !ok ==> s.intents == old(s.intents)
    {
      TraceOrdered(trace, steps, |steps|);
      hide IsTrace;
      PrepareRestore();
      ok := *;
      if ok && s.op.Removing? {
        ok := RemoveControlIntent(s.op.run);
      } else {
        ok := false;
        Take(Crash);
      }
    }

    /** `prepare_staging_schema` as far as Cron, Queue, intent and receipt go. */
    method Prepare(captured: Intent, found: Option<string>, receipt: Receipt, run: string) returns (prepared: bool)
      requires Valid() && s.op.NoProcess? && Captures(s, captured) && Finds(s, s.head, captured, found)
      requires run !in s.receipts && receipt.intent == captured && receipt.sourceSha == s.head
      modifies this
      ensures Valid() && trace[0] == old(trace[0]) && s.op.NoProcess? && s.db == old(s.db)
      ensures prepared ==> s.surface == old(s.surface) && s.intents == old(s.intents) - {old(s.head)}
      ensures !prepared ==> s.intents == old(s.intents) || s.intents == old(s.intents)[old(s.head) := captured]
    {
      prepared := false;
      if s.db.control.Active? { return; }
      if captured.prior != s.surface { return; }
      Take(BeginPrepare(captured, found));
      var held: bool := *;
      if held {
        Take(Crash);
        return;
      }
      PrepareTry(receipt, run);
      prepared := PrepareFinally();
    }

    /** `repair_staging_schema_incident`, likewise: it uses the incident's own intent and receipt, and before
        it pauses the Queue a failure restores nothing. */
    method Repair(found: string) returns (repaired: bool)
      requires Valid() && s.op.NoProcess? && INCIDENT in s.intents && Finds(s, INCIDENT, s.intents[INCIDENT], Some(found))
      modifies this
      ensures Valid() && trace[0] == old(trace[0]) && s.op.NoProcess? && s.db == old(s.db)
      ensures repaired ==> s.surface == old(s.intents[INCIDENT].prior) && s.intents == old(s.intents) - {INCIDENT}
      ensures !repaired ==> s.intents == old(s.intents)
    {
      repaired := false;
      if s.db.control.Active? || s.head == INCIDENT || s.intents[INCIDENT].prior.cron != s.surface.cron { return; }
      var receipt := s.receipts[found];
      Take(BeginRepair(Some(found)));
      var held: bool := *;
      if !held { PrepareQuiesce(receipt, found); }
      hide IsTrace;
      var paused: bool := *;
      if held || s.op.stage.ToStop? || (s.op.stage.ToPause? && !paused) {
        Take(Crash);
        return;
      }
      var verified: bool := *;
      Take(PrepareEnds(verified && s.op.stage.ToVerify? && s.db.control.Bridge?));
      repaired := PrepareFinally();
    }

    /** `resume`. */
    method Resume(run: string) returns (activated: bool)
      requires Valid() && s.op.NoProcess? && run in s.receipts && run in s.db.runs
      modifies this
      ensures Valid() && trace[0] == old(trace[0]) && s.op.NoProcess? && s.receipts == old(s.receipts)
      ensures activated ==> s.receipts[run].sourceSha !in s.intents
      ensures activated && !old(PhaseOf(s, run)).Activated? ==> s.surface == s.receipts[run].intent.prior
    {
      Take(BeginResume(run));
      activated := Continue(run);
      if activated { activated := RemoveControlIntent(run); }
      if !activated { Take(Crash); }
    }
  }
}
