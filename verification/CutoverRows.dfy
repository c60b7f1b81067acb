/** The D1 rows of a cutover and the batches that are executed on them, each as one transaction. */
module CutoverRows {
  import opened Outcomes

  datatype RunPhase = QueuePaused | BridgeEstablished | Deployed | V3Active | Activated

  function Rank(phase: RunPhase): nat {
    match phase
    case QueuePaused => 0
    case BridgeEstablished => 1
    case Deployed => 2
    case V3Active => 3
    case Activated => 4
  }

  /** The Cron schedules and the delivery pause of the JSDA Worker. */
  datatype Surface = Surface(cron: seq<string>, paused: bool)

  /** The create-only control intent: what was live before the first Cron stop, and the lease token. */
  datatype Intent = Intent(digest: string, prior: Surface, owner: string, fence: string)

  /** A receipt is named by the digest of its content, which includes that of its intent. */
  datatype Receipt = Receipt(intent: Intent, sourceSha: string, configDigest: string)

  datatype RunRow = RunRow(owner: string, fence: string, sourceSha: string, phase: RunPhase, drain: Option<string>)

  datatype Control = Bridge | Active(activatedAt: string, sourceSha: string, configDigest: string, drain: string)

  datatype Db = Db(runs: map<string, RunRow>, control: Control)

  datatype Batch =
    | Start(run: string, receipt: Receipt)
    | Advance(run: string, receipt: Receipt, from: RunPhase, to: RunPhase, drain: Option<string>)
    | Activate(run: string, receipt: Receipt, evidence: string, at: string)

  /** `WHERE run_id=? AND phase=? AND owner=? AND fence=?` */
  predicate RunMatches(db: Db, run: string, receipt: Receipt, phase: RunPhase) {
    && run in db.runs && db.runs[run].phase == phase
    && db.runs[run].owner == receipt.intent.owner && db.runs[run].fence == receipt.intent.fence
  }

  function Moved(row: RunRow, to: RunPhase, drain: Option<string>): RunRow {
    row.(phase := to, drain := if drain.Some? then drain else row.drain)
  }

  /** The statements of a batch have separate guards; one that matches no row is not an error. */
  function Execute(db: Db, b: Batch): Db {
    match b
    case Start(run, receipt) =>
      if run in db.runs then db else
      db.(runs := db.runs[run := RunRow(receipt.intent.owner, receipt.intent.fence, receipt.sourceSha, QueuePaused, None)])
    case Advance(run, receipt, from, to, drain) =>
      if RunMatches(db, run, receipt, from)
      then db.(runs := db.runs[run := Moved(db.runs[run], to, drain)])
      else db
    case Activate(run, receipt, evidence, at) =>
      var control :=
        if db.control.Bridge? then Active(at, receipt.sourceSha, receipt.configDigest, evidence) else db.control;
      var runs := if RunMatches(db, run, receipt, Deployed)
                  then db.runs[run := Moved(db.runs[run], V3Active, Some(evidence))] else db.runs;
      Db(runs, control)
  }

  /** What the client checks afterwards: every guarded UPDATE changed exactly one row. */
  predicate Accepted(db: Db, b: Batch) {
    match b
    case Start(run, receipt) => true
    case Advance(run, receipt, from, _, _) => RunMatches(db, run, receipt, from)
    case Activate(run, receipt, _, _) => db.control.Bridge? && RunMatches(db, run, receipt, Deployed)
  }

  /** The next phase that `_continue` asks for. */
  function NextBatch(run: string, receipt: Receipt, phase: RunPhase, drain: string, at: string): Batch
    requires !phase.Activated?
  {
    match phase
    case QueuePaused => Advance(run, receipt, QueuePaused, BridgeEstablished, None)
    case BridgeEstablished => Advance(run, receipt, BridgeEstablished, Deployed, None)
    case Deployed => Activate(run, receipt, drain, at)
    case V3Active => Advance(run, receipt, V3Active, Activated, None)
  }
}
