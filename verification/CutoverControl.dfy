/**
  Any number of runs and of racing or crashed `_continue` callers on the rows of `CutoverRows`.
  Callers read a run's phase, later send the batch for it, and a batch that was sent may be
  executed at any time or never.
 */
module CutoverControl {
  import opened Outcomes
  import opened CutoverRows

  datatype Session = Session(run: string, read: Option<RunPhase>)

  datatype State = State(
    db: Db, receipts: map<string, Receipt>,
    net: map<nat, Batch>, nextId: nat, sessions: map<nat, Session>)

  datatype Step =
    | Save(run: string, receipt: Receipt)
    | SendStart(run: string)
    | Open(session: nat, run: string)
    | Read(session: nat)
    | Send(session: nat, drain: string, at: string)
    | Close(session: nat)
    | Deliver(id: nat)

  predicate Enabled(s: State, step: Step) {
    match step
    case Save(run, _) => run !in s.receipts
    case SendStart(run) => run in s.receipts
    case Open(c, run) => c !in s.sessions && run in s.receipts
    case Read(c) => c in s.sessions && s.sessions[c].run in s.db.runs
    case Send(c, _, _) =>
      && c in s.sessions && s.sessions[c].read.Some? && !s.sessions[c].read.value.Activated?
      && s.sessions[c].run in s.receipts
    case Close(c) => c in s.sessions
    case Deliver(id) => id in s.net
  }

  function Post(s: State, b: Batch): State {
    s.(net := s.net[s.nextId := b], nextId := s.nextId + 1)
  }

  function Apply(s: State, step: Step): State
    requires Enabled(s, step)
  {
    match step
    case Save(run, receipt) => s.(receipts := s.receipts[run := receipt])
    case SendStart(run) => Post(s, Start(run, s.receipts[run]))
    case Open(c, run) => s.(sessions := s.sessions[c := Session(run, None)])
    case Read(c) =>
      s.(sessions := s.sessions[c := s.sessions[c].(read := Some(s.db.runs[s.sessions[c].run].phase))])
    case Send(c, drain, at) =>
      var run := s.sessions[c].run;
      Post(s.(sessions := s.sessions[c := s.sessions[c].(read := None)]),
           NextBatch(run, s.receipts[run], s.sessions[c].read.value, drain, at))
    case Close(c) => s.(sessions := s.sessions - {c})
    case Deliver(id) => s.(db := Execute(s.db, s.net[id]), net := s.net - {id})
  }

  predicate Init(s: State) {
    s.db == Db(map[], Bridge) && s.receipts == map[] && s.net == map[] && s.sessions == map[]
  }

  ghost predicate Next(s: State, s': State) {
    exists step :: Enabled(s, step) && s' == Apply(s, step)
  }

  ghost predicate IsRun(run: seq<State>) {
    |run| > 0 && Init(run[0]) && forall i :: 0 <= i < |run| - 1 ==> Next(run[i], run[i + 1])
  }

  // ----- the invariant

  predicate PastDeployed(db: Db, run: string) {
    run in db.runs && Rank(db.runs[run].phase) >= 2
  }

  predicate IsActive(db: Db, run: string) {
    run in db.runs && Rank(db.runs[run].phase) >= 3
  }

  ghost predicate SomeActive(db: Db) {
    exists run :: IsActive(db, run)
  }

  /** The facts that admit a later production cutover: an active run with the control's evidence and source,
      and a receipt with its configuration. */
  predicate Backs(s: State, run: string) {
    && IsActive(s.db, run) && s.db.control.Active?
    && s.db.runs[run].drain == Some(s.db.control.drain) && s.db.runs[run].sourceSha == s.db.control.sourceSha
    && run in s.receipts && s.receipts[run].configDigest == s.db.control.configDigest
  }

  predicate BatchOk(s: State, b: Batch) {
    && b.run in s.receipts && b.receipt == s.receipts[b.run]
    && match b
       case Start(_, _) => true
       case Advance(_, _, from, to, drain) =>
         drain.None? && ((Rank(to) == Rank(from) + 1 && to != V3Active))
       case Activate(run, _, _, _) => PastDeployed(s.db, run)
  }

  predicate RowOk(s: State, run: string)
    requires run in s.db.runs
  {
    && run in s.receipts
    && var row := s.db.runs[run]; var receipt := s.receipts[run];
       row.owner == receipt.intent.owner && row.fence == receipt.intent.fence && row.sourceSha == receipt.sourceSha
  }

  predicate SessionOk(s: State, c: Session) {
    && c.run in s.receipts
    && (c.read.Some? ==> c.run in s.db.runs && Rank(c.read.value) <= Rank(s.db.runs[c.run].phase))
  }

  ghost predicate Inv(s: State) {
    && (forall run | run in s.db.runs :: RowOk(s, run))
    && (forall id | id in s.net :: id < s.nextId && BatchOk(s, s.net[id]))
    && (forall c | c in s.sessions :: SessionOk(s, s.sessions[c]))
    && (s.db.control.Active? ==> exists run :: Backs(s, run))
    && (forall run :: IsActive(s.db, run) ==> s.db.control.Active?)
  }

  // ----- one batch

  /** Rows only appear, and phases only rise. */
  predicate Grows(db: Db, db': Db) {
    && (forall run | run in db.runs ::
          && run in db'.runs && Rank(db.runs[run].phase) <= Rank(db'.runs[run].phase)
          && db'.runs[run].(phase := db.runs[run].phase, drain := db.runs[run].drain) == db.runs[run])
    && (db.control.Active? ==> db'.control == db.control)
  }

  lemma ExecuteGrows(s: State, b: Batch)
    requires Inv(s) && BatchOk(s, b)
    ensures Grows(s.db, Execute(s.db, b))
  {}

  lemma ActivateBacks(s: State, b: Batch)
    requires Inv(s) && BatchOk(s, b) && b.Activate? && s.db.control.Bridge?
    ensures Backs(s.(db := Execute(s.db, b)), b.run)
  {
    assert !IsActive(s.db, b.run);
    assert RowOk(s, b.run);
  }

  lemma ExecuteControl(s: State, b: Batch)
    requires Inv(s) && BatchOk(s, b)
    ensures var s' := s.(db := Execute(s.db, b));
            && (s'.db.control.Active? ==> exists run :: Backs(s', run))
            && (forall run :: IsActive(s'.db, run) ==> s'.db.control.Active?)
  {
    var db' := Execute(s.db, b);
    var s' := s.(db := db');
    ExecuteGrows(s, b);
    if s.db.control.Active? {
      var run :| Backs(s, run);
      assert Backs(s', run);
    } else if b.Activate? {
      ActivateBacks(s, b);
    } else {
      assert forall run :: IsActive(db', run) ==> IsActive(s.db, run);
    }
  }

  lemma DeliverStep(s: State, id: nat)
    requires Inv(s) && id in s.net
    ensures Inv(Apply(s, Deliver(id)))
  {
    var s' := Apply(s, Deliver(id));
    var b := s.net[id];
    assert BatchOk(s, b);
    ExecuteGrows(s, b);
    ExecuteControl(s, b);
    if s'.db.control.Active? {
      var run :| Backs(s.(db := s'.db), run);
      assert Backs(s', run);
    }
    forall run | run in s'.db.runs ensures RowOk(s', run) {
      if run in s.db.runs { assert RowOk(s, run); }
    }
    forall i | i in s'.net ensures i < s'.nextId && BatchOk(s', s'.net[i]) {
      assert BatchOk(s, s.net[i]);
    }
    forall c | c in s'.sessions ensures SessionOk(s', s'.sessions[c]) {
      assert SessionOk(s, s.sessions[c]);
    }
  }

  /** Receipts are only added. */
  lemma StillBacked(s: State, s': State)
    requires s'.db == s.db && forall run | run in s.receipts :: run in s'.receipts && s'.receipts[run] == s.receipts[run]
    requires s.db.control.Active? ==> exists run :: Backs(s, run)
    ensures s'.db.control.Active? ==> exists run :: Backs(s', run)
  {
    if s.db.control.Active? {
      var run :| Backs(s, run);
      assert Backs(s', run);
    }
  }

  lemma SendStep(s: State, step: Step)
    requires Inv(s) && Enabled(s, step) && step.Send?
    ensures Inv(Apply(s, step))
  {
    var s' := Apply(s, step);
    StillBacked(s, s');
    assert SessionOk(s, s.sessions[step.session]);
    forall c | c in s'.sessions ensures SessionOk(s', s'.sessions[c]) {
      assert SessionOk(s, s.sessions[c]);
    }
    forall run | run in s'.db.runs ensures RowOk(s', run) { assert RowOk(s, run); }
    forall i | i in s'.net ensures i < s'.nextId && BatchOk(s', s'.net[i]) {
      if i != s.nextId { assert BatchOk(s, s.net[i]); }
    }
  }

  lemma LocalStep(s: State, step: Step)
    requires Inv(s) && Enabled(s, step) && !step.Send? && !step.Deliver?
    ensures Inv(Apply(s, step))
  {
    var s' := Apply(s, step);
    StillBacked(s, s');
    forall run | run in s'.db.runs ensures RowOk(s', run) { assert RowOk(s, run); }
    forall i | i in s'.net ensures i < s'.nextId && BatchOk(s', s'.net[i]) {
      if i in s.net && i != s.nextId { assert BatchOk(s, s.net[i]); }
    }
    forall c | c in s'.sessions ensures SessionOk(s', s'.sessions[c]) {
      if c in s.sessions { assert SessionOk(s, s.sessions[c]); }
    }
  }

  lemma StepKeepsInv(s: State, step: Step)
    requires Inv(s) && Enabled(s, step)
    ensures Inv(Apply(s, step)) && Grows(s.db, Apply(s, step).db)
  {
    match step
    case Deliver(id) =>
      DeliverStep(s, id);
      ExecuteGrows(s, s.net[id]);
    case Send(_, _, _) => SendStep(s, step);
    case _ => LocalStep(s, step);
  }

  lemma NextKeepsInv(s: State, s': State)
    requires Inv(s) && Next(s, s')
    ensures Inv(s') && Grows(s.db, s'.db)
  {
    var step :| Enabled(s, step) && s' == Apply(s, step);
    StepKeepsInv(s, step);
  }

  lemma {:induction false} RunKeepsInv(run: seq<State>, i: nat)
    requires IsRun(run) && i < |run|
    ensures Inv(run[i])
  {
    hide Inv, Next;
    if i == 0 {
      InitInv(run[0]);
    } else {
      RunKeepsInv(run, i - 1);
      NextKeepsInv(run[i - 1], run[i]);
    }
  }

  lemma InitInv(s: State)
    requires Init(s)
    ensures Inv(s)
  {}

  // ----- what a batch does

  /** A run row is inserted once, with owner, fence and source of its receipt, in queue_paused. */
  lemma StartEffect(db: Db, run: string, receipt: Receipt)
    ensures var db' := Execute(db, Start(run, receipt));
            && db'.control == db.control && db'.runs.Keys == db.runs.Keys + {run}
            && (forall r | r in db.runs :: db'.runs[r] == db.runs[r])
            && (run !in db.runs ==>
                  db'.runs[run] == RunRow(receipt.intent.owner, receipt.intent.fence, receipt.sourceSha, QueuePaused, None))
  {}

  /** A phase is advanced exactly when the row has that phase and the receipt's owner and fence. */
  lemma AdvanceEffect(db: Db, run: string, receipt: Receipt, from: RunPhase, to: RunPhase, drain: Option<string>)
    ensures var db' := Execute(db, Advance(run, receipt, from, to, drain));
            && db'.control == db.control && db'.runs.Keys == db.runs.Keys
            && (forall r | r in db.runs && r != run :: db'.runs[r] == db.runs[r])
            && (run in db.runs ==> db'.runs[run] == var row := db.runs[run];
                if row.phase == from && row.owner == receipt.intent.owner && row.fence == receipt.intent.fence
                then RunRow(row.owner, row.fence, row.sourceSha, to, if drain.Some? then drain else row.drain) else row)
  {}

  /** An activation moves the deployed row of its owner and fence to v3_active, with the evidence, and control out
      of bridge if it is there. */
  lemma ActivateEffect(db: Db, run: string, receipt: Receipt, evidence: string, at: string)
    ensures var db' := Execute(db, Batch.Activate(run, receipt, evidence, at));
            && db'.control == (if db.control == Bridge
                               then Control.Active(at, receipt.sourceSha, receipt.configDigest, evidence) else db.control)
            && db'.runs.Keys == db.runs.Keys
            && (forall r | r in db.runs && r != run :: db'.runs[r] == db.runs[r])
            && (run in db.runs ==> db'.runs[run] == var row := db.runs[run];
                if row.phase == Deployed && row.owner == receipt.intent.owner && row.fence == receipt.intent.fence
                then RunRow(row.owner, row.fence, row.sourceSha, V3Active, Some(evidence)) else row)
  {}

  /** Over every run: what callers send next for the phase they read. */
  lemma SentForPhase(run: seq<State>, i: nat, c: nat, drain: string, at: string)
    requires IsRun(run) && i < |run| && Enabled(run[i], Send(c, drain, at))
    ensures var s, s' := run[i], Apply(run[i], Send(c, drain, at));
            var r, phase := s.sessions[c].run, s.sessions[c].read.value;
            && s.nextId in s'.net && s'.net[s.nextId] ==
               (match phase
                case QueuePaused => Advance(r, s.receipts[r], QueuePaused, BridgeEstablished, None)
                case BridgeEstablished => Advance(r, s.receipts[r], BridgeEstablished, Deployed, None)
                case Deployed => Batch.Activate(r, s.receipts[r], drain, at)
                case _ => Advance(r, s.receipts[r], V3Active, Activated, None))
  {}

  // ----- whole runs

  /** Control says v3_active exactly when some run is v3_active or activated, however callers race. */
  lemma ControlAgreesWithRuns(run: seq<State>, i: nat)
    requires IsRun(run) && i < |run|
    ensures run[i].db.control.Active? <==> SomeActive(run[i].db)
    ensures run[i].db.control.Active? ==> exists r :: Backs(run[i], r)
  {
    RunKeepsInv(run, i);
    if run[i].db.control.Active? {
      var r :| Backs(run[i], r);
      assert IsActive(run[i].db, r);
    }
  }

  /** The batch that takes control out of bridge: control carries the batch's own instant and evidence, and the
      source and configuration of its run's receipt. */
  lemma ActivationFacts(run: seq<State>, i: nat)
    requires IsRun(run) && i + 1 < |run| && run[i].db.control == Bridge && run[i + 1].db.control != Bridge
    ensures exists id ::
              && id in run[i].net && run[i].net[id].Activate?
              && var b, control := run[i].net[id], run[i + 1].db.control;
                 && b.run in run[i].receipts && b.receipt == run[i].receipts[b.run]
                 && control.activatedAt == b.at && control.drain == b.evidence
                 && control.sourceSha == b.receipt.sourceSha && control.configDigest == b.receipt.configDigest
  {
    RunKeepsInv(run, i);
    assert Next(run[i], run[i + 1]);
    var step :| Enabled(run[i], step) && run[i + 1] == Apply(run[i], step);
    assert BatchOk(run[i], run[i].net[step.id]);
  }

  /** Control leaves bridge at most once, its activation facts are never overwritten, no run goes
      back a phase or changes its identity. */
  lemma {:induction false} NothingIsUndone(run: seq<State>, i: nat, j: nat)
    requires IsRun(run) && i <= j < |run|
    ensures Grows(run[i].db, run[j].db)
  {
    hide Grows, Next, Inv;
    if i < j {
      NothingIsUndone(run, i, j - 1);
      RunKeepsInv(run, j - 1);
      NextKeepsInv(run[j - 1], run[j]);
      GrowsFurther(run[i].db, run[j - 1].db, run[j].db);
    } else {
      GrowsNone(run[i].db);
    }
  }

  lemma GrowsNone(db: Db)
    ensures Grows(db, db)
  {}

  lemma GrowsFurther(a: Db, b: Db, c: Db)
    requires Grows(a, b) && Grows(b, c)
    ensures Grows(a, c)
  {}
}
