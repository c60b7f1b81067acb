/**
  The operator's own code, function by function.  Every method does what the program's function does and acts on
  the protocol of `LeaseProtocol`: what it sends, reads and decides are protocol steps, and between
  any two of them the server, the processes and all other operators may take any number of steps.
  `Valid()` says that the whole history is a run, so everything proved about runs holds of this code.
 */
module LeaseClient {
  import opened Outcomes
  import opened LeaseRow
  import opened LeaseProtocol
  import opened LeaseInvariant
  import opened LeaseTheorems

  const APPLY_TIMEOUT_SECONDS := 600
  const HEARTBEAT_SECONDS := 20

  predicate OwnStep(step: Step, t: Token) {
    !step.Deliver? && !step.Exit? && step.t == t
  }

  /** Everything an operator knows about itself survives the steps of the others. */
  predicate SameControl(c: Client, c': Client) {
    c'.pc == c.pc && c'.identity == c.identity && c'.armed == c.armed && c.during <= c'.during
  }

  ghost predicate ProcessesGrow(s: State, s': State) {
    && |s.processes| <= |s'.processes|
    && forall p | 0 <= p < |s.processes| ::
         && s'.processes[p].token == s.processes[p].token
         && (s.processes[p].exit.Running? || s'.processes[p] == s.processes[p])
  }

  lemma DeliveryKeepsControl(s: State, id: nat, now: int, t: Token)
    requires id in s.net
    ensures SameControl(At(s, t), At(Delivered(s, id, now), t))
  {}

  lemma ForeignKeepsControl(s: State, step: Step, t: Token)
    requires Enabled(s, step) && !step.Deliver? && !step.Exit? && step.t != t
    ensures At(Apply(s, step), t) == At(s, t)
  {}

  lemma OthersKeepControl(s: State, step: Step, t: Token)
    requires Enabled(s, step) && !OwnStep(step, t)
    ensures SameControl(At(s, t), At(Apply(s, step), t))
  {
    hide Delivered, ClientApply, ClientEnabled;
    if step.Deliver? {
      DeliveryKeepsControl(s, step.id, step.now, t);
    } else if !step.Exit? {
      ForeignKeepsControl(s, step, t);
    }
  }

  lemma MostKeepProcesses(s: State, step: Step)
    requires Enabled(s, step) && !step.Exit? && !step.Launch? && !step.Terminate?
    ensures Apply(s, step).processes == s.processes
  {}

  lemma ProcessStepGrows(s: State, step: Step)
    requires Enabled(s, step) && (step.Exit? || step.Launch? || step.Terminate?)
    ensures ProcessesGrow(s, Apply(s, step))
  {}

  lemma StepGrows(s: State, step: Step)
    requires Enabled(s, step)
    ensures ProcessesGrow(s, Apply(s, step))
  {
    hide Apply;
    if step.Exit? || step.Launch? || step.Terminate? { ProcessStepGrows(s, step); } else { MostKeepProcesses(s, step); }
  }

  /** The phases that the confirmation of a call accepts. */
  function Confirmed(c: Client): set<Phase> {
    match c.pc
    case Confirming(change, true, _) => {change.to}
    case ConfirmingAcquire(true) => {Acquired}
    case _ => HELD
  }

  lemma ConfirmableNames(row: Row, t: Token, c: Client, now: int)
    requires Confirmable(row, t, c, now)
    ensures row.token == t && row.identity == c.identity && row.phase in Confirmed(c)
  {}

  /** What a transition that is about to be confirmed, or a release that was answered, has seen. */
  lemma ConfirmingShown(run: seq<State>, t: Token)
    requires IsRun(run) && IsToken(t) && At(run[|run| - 1], t).pc.Confirming?
    ensures var c := At(run[|run| - 1], t); (c.pc.change.to, c.pc.change.spawned) in c.during
  {
    RunKeepsInv(run, |run| - 1);
    ClientKnown(run[|run| - 1], t);
  }

  lemma ReleaseShown(run: seq<State>, t: Token)
    requires IsRun(run) && IsToken(t)
    requires var s := run[|run| - 1]; var c := At(s, t); c.pc.ReleaseSent? && c.pc.id in s.done && s.done[c.pc.id]
    ensures (Vacant, false) in At(run[|run| - 1], t).during
  {
    RunKeepsInv(run, |run| - 1);
    ClientKnown(run[|run| - 1], t);
  }

  lemma ConfirmedHeld(run: seq<State>, t: Token)
    requires IsRun(run) && IsToken(t) && At(run[|run| - 1], t).pc.Confirming?
    ensures Confirmed(At(run[|run| - 1], t)) <= HELD
  {
    RunKeepsInv(run, |run| - 1);
    ClientKnown(run[|run| - 1], t);
  }

  /** It polled on within 600 seconds of the beginning and 20 seconds of the last beat before. */
  ghost predicate InTime(polled: seq<int>, beats: seq<int>) {
    beats != [] && forall i | 0 <= i < |polled| ::
      polled[i] < beats[0] + 600 && exists b :: b in beats && b <= polled[i] < b + 20
  }

  lemma NonePolled(beats: seq<int>)
    requires beats != []
    ensures InTime([], beats)
  {}

  lemma StillInTime(polled: seq<int>, beats: seq<int>, clock: int)
    requires InTime(polled, beats)
    ensures InTime(polled, beats + [clock])
  {
    assert forall b | b in beats :: b in beats + [clock];
  }

  lemma PolledInTime(polled: seq<int>, beats: seq<int>, clock: int)
    requires InTime(polled, beats) && clock < beats[0] + 600
    requires beats[|beats| - 1] <= clock < beats[|beats| - 1] + 20
    ensures InTime(polled + [clock], beats)
  {
    assert beats[|beats| - 1] in beats;
  }

  /** As long as one of its migrations has not exited 0, the operator's lease is not vacant. */
  ghost predicate UnfinishedHolds(s: State, t: Token) {
    forall q | 0 <= q < |s.processes| && s.processes[q].token == t && s.processes[q].Unfinished() :: Holds(s, t)
  }

  lemma UnfinishedHeld(run: seq<State>, s: State, t: Token)
    requires IsRun(run) && run[|run| - 1] == s
    ensures UnfinishedHolds(s, t)
  {
    RunKeepsInv(run, |run| - 1);
    forall q | 0 <= q < |s.processes| && s.processes[q].token == t && s.processes[q].Unfinished() ensures Holds(s, t) {
      assert ProcessOk(s, s.processes[q]);
    }
  }

  /** At some instant from state `from` on, the row named this holder in one of these phases. */
  ghost predicate HeldIn(run: seq<State>, from: int, identity: Identity, t: Token, phases: set<Phase>) {
    exists m | from <= m && 0 <= m < |run| ::
      run[m].row.token == t && run[m].row.identity == identity && run[m].row.phase in phases
  }

  const HELD: set<Phase> := {Acquired, Migrating, Verifying, RecoveryRequired}

  ghost predicate HeldSince(run: seq<State>, from: int, identity: Identity, t: Token) {
    HeldIn(run, from, identity, t, HELD)
  }

  lemma HeldNow(run: seq<State>, from: int, identity: Identity, t: Token, phases: set<Phase>)
    requires |run| > 0 && from <= |run| - 1 && run[|run| - 1].row.phase in phases
    requires run[|run| - 1].row.token == t && run[|run| - 1].row.identity == identity
    ensures HeldIn(run, from, identity, t, phases)
  {}

  lemma HeldLater(run: seq<State>, run': seq<State>, from': int, from: int, identity: Identity, t: Token,
                  phases: set<Phase>)
    requires run <= run' && from <= from' && HeldIn(run, from', identity, t, phases)
    ensures HeldIn(run', from, identity, t, phases)
    ensures phases <= HELD ==> HeldSince(run', from, identity, t)
  {
    var m :| from' <= m && 0 <= m < |run|
             && run[m].row.token == t && run[m].row.identity == identity && run[m].row.phase in phases;
    assert run'[m] == run[m];
  }

  class Remote {
    var s: State
    ghost var run: seq<State>

    ghost predicate Valid()
      reads this
    {
      IsRun(run) && run[|run| - 1] == s
    }

    ghost predicate Continues(before: seq<State>)
      reads this
      requires |before| > 0
    {
      Valid() && before <= run && ProcessesGrow(before[|before| - 1], s)
    }

    constructor ()
      ensures Valid() && Init(s)
    {
      s := State(VACANT_ROW, 0, map[], map[], 0, [], map[]);
      run := [State(VACANT_ROW, 0, map[], map[], 0, [], map[])];
    }

    method Take(step: Step)
      requires Valid() && Enabled(s, step)
      modifies this
      ensures Continues(old(run)) && s == Apply(old(s), step) && run == old(run) + [s]
    {
      StepGrows(s, step);
      var s' := Apply(s, step);
      assert Next(s, s');
      s := s';
      run := run + [s'];
    }

    /** A step of the operator itself. */
    method Act(t: Token, step: Step)
      requires Valid() && OwnStep(step, t) && IsToken(t) && ClientEnabled(s, t, step)
      modifies this
      ensures Continues(old(run)) && s == ClientApply(old(s), t, step) && run == old(run) + [s]
    {
      Take(step);
    }

    /** Any number of steps of anybody but the operator of `t`. */
    method Others(t: Token)
      requires Valid()
      modifies this
      ensures Continues(old(run)) && SameControl(At(old(s), t), At(s, t))
    {
      var n: nat := *;
      while n > 0
        invariant Continues(old(run)) && SameControl(At(old(s), t), At(s, t))
      {
        var step: Step := *;
        if Enabled(s, step) && !OwnStep(step, t) {
          OthersKeepControl(s, step, t);
          Take(step);
        }
        n := n - 1;
      }
    }

    /** A read shows the row as it is at the end of the call, or fails. */
    method ObserveLease(t: Token) returns (row: Option<Row>)
      requires Valid()
      modifies this
      ensures Continues(old(run)) && SameControl(At(old(s), t), At(s, t))
      ensures row.Some? ==> row.value == s.row
    {
      Others(t);
      var readable: bool := *;
      row := if readable then Some(s.row) else None;
    }

    /** Sends the statement of the pending call and waits: `None` is a lost or unusable reply. */
    method Execute(t: Token) returns (changed: Option<bool>)
      requires Valid() && IsToken(t) && (At(s, t).pc.Called? || At(s, t).pc.AcquireCalled?)
      modifies this
      ensures Continues(old(run)) && At(s, t).identity == At(old(s), t).identity && At(s, t).armed == At(old(s), t).armed
      ensures At(old(s), t).pc.Called? ==>
                At(s, t).pc.Sent? && At(s, t).pc.change == At(old(s), t).pc.change && At(s, t).pc.k == At(old(s), t).pc.k
      ensures At(old(s), t).pc.AcquireCalled? ==> At(s, t).pc.AcquireSent?
      ensures changed.Some? ==> At(s, t).pc.id in s.done && s.done[At(s, t).pc.id] == changed.value
    {
      hide Next, Apply, Enabled;
      Others(t);
      var expiresAt: int := *;
      Act(t, Emit(t, expiresAt));
      Others(t);
      var answered: bool := *;
      changed := if answered && At(s, t).pc.id in s.done then Some(s.done[At(s, t).pc.id]) else None;
    }

    /** `revalidate_mutation_lease` at the end of a transition. */
    method Revalidate(t: Token) returns (ok: bool)
      requires Valid() && IsToken(t) && At(s, t).pc.Confirming?
      modifies this
      ensures Continues(old(run))
      ensures ok ==> SameControl(Returned(At(old(s), t), At(old(s), t).pc.k), At(s, t))
      ensures !ok ==> SameControl(RaisedTo(At(old(s), t), At(old(s), t).pc.k), At(s, t))
      ensures ok ==> HeldIn(run, |old(run)| - 1, At(old(s), t).identity, t, Confirmed(At(old(s), t)))
      ensures ok ==> HeldSince(run, |old(run)| - 1, At(old(s), t).identity, t)
    {
      hide Next, Apply, Enabled, Confirmable, HeldIn;
      var row := ObserveLease(t);
      var now: int := *;
      if row.Some? && Confirmable(row.value, t, At(s, t), now) {
        ConfirmableNames(s.row, t, At(s, t), now);
        HeldNow(run, |old(run)| - 1, At(old(s), t).identity, t, Confirmed(At(s, t)));
        ghost var phases := Confirmed(At(s, t));
        ConfirmedHeld(run, t);
        ghost var seen := run;
        Act(t, Confirm(t, now));
        HeldLater(seen, run, |old(run)| - 1, |old(run)| - 1, At(old(s), t).identity, t, phases);
        ok := true;
      } else {
        Act(t, Abandon(t));
        ok := false;
      }
    }

    /** After the module's own error the row is looked at: it may show the target already. */
    method LookAgain(t: Token) returns (ok: bool)
      requires Valid() && IsToken(t) && At(s, t).pc.Uncertain?
      modifies this
      ensures Continues(old(run)) && At(s, t).identity == At(old(s), t).identity
      ensures ok ==> At(s, t).pc == Confirming(At(old(s), t).pc.change, true, At(old(s), t).pc.k)
      ensures ok ==> (At(old(s), t).pc.change.to, At(old(s), t).pc.change.spawned) in At(s, t).during
      ensures ok ==> At(s, t).armed == At(old(s), t).armed
      ensures !ok ==> SameControl(RaisedTo(At(old(s), t), At(old(s), t).pc.k), At(s, t))
    {
      hide Next, Apply, Enabled;
      var observed := ObserveLease(t);
      ok := observed.Some? && Matches(observed.value, t, At(s, t).pc.change);
      if ok {
        Act(t, Observe(t));
      } else {
        Act(t, Abandon(t));
      }
    }

    /** An answer is believed, another exception propagates. */
    method Settle(t: Token, changed: Option<bool>) returns (ok: bool)
      requires Valid() && IsToken(t) && At(s, t).pc.Sent?
      requires changed.Some? ==> At(s, t).pc.id in s.done && s.done[At(s, t).pc.id] == changed.value
      modifies this
      ensures Continues(old(run)) && At(s, t).identity == At(old(s), t).identity
      ensures ok ==> At(s, t).pc.Confirming? && At(s, t).armed == At(old(s), t).armed
      ensures ok ==> At(s, t).pc.change == At(old(s), t).pc.change && At(s, t).pc.k == At(old(s), t).pc.k
      ensures !ok ==> At(s, t).pc == RaisedTo(At(old(s), t), At(old(s), t).pc.k).pc
    {
      hide Next, Apply, Enabled;
      if changed.Some? {
        Act(t, Reply(t));
        return changed.value;
      }
      var guarded: bool := *;
      Act(t, Fault(t, guarded));
      if !guarded { return false; }
      ok := LookAgain(t);
    }

    /** `_transition_mutation_lease`: a normal return means that the target phase was reached. */
    method Transition(t: Token, change: Change, k: Kont) returns (ok: bool)
      requires Valid() && IsToken(t) && At(s, t).pc == Called(change, k)
      modifies this
      ensures Continues(old(run)) && At(s, t).identity == At(old(s), t).identity
      ensures ok ==> At(s, t).pc == Returned(At(old(s), t), k).pc && At(s, t).armed == At(old(s), t).armed
      ensures ok ==> (change.to, change.spawned) in At(s, t).during
      ensures ok ==> HeldSince(run, |old(run)| - 1, At(old(s), t).identity, t)
      ensures !ok ==> At(s, t).pc == RaisedTo(At(old(s), t), k).pc
    {
      hide Next, Apply, Enabled, HeldIn;
      var changed := Execute(t);
      ok := Settle(t, changed);
      if ok {
        ConfirmingShown(run, t);
        ghost var settled := run;
        ok := Revalidate(t);
        if ok { HeldLater(run, run, |settled| - 1, |old(run)| - 1, At(old(s), t).identity, t, HELD); }
      }
    }

    /** The second look of an acquisition whose reply was lost. */
    method LookAgainAcquired(t: Token) returns (ok: bool)
      requires Valid() && IsToken(t) && At(s, t).pc.AcquireUncertain?
      modifies this
      ensures Continues(old(run)) && At(s, t).armed == At(old(s), t).armed && At(s, t).identity == At(old(s), t).identity
      ensures if ok then At(s, t).pc.ConfirmingAcquire? else At(s, t).pc.Idle?
    {
      hide Next, Apply, Enabled;
      var observed := ObserveLease(t);
      ok := observed.Some? && observed.value.phase.Acquired? && !observed.value.spawned;
      if ok {
        Act(t, Observe(t));
      } else {
        Act(t, Abandon(t));
      }
    }

    method SettleAcquisition(t: Token, changed: Option<bool>) returns (ok: bool)
      requires Valid() && IsToken(t) && At(s, t).pc.AcquireSent?
      requires changed.Some? ==> At(s, t).pc.id in s.done && s.done[At(s, t).pc.id] == changed.value
      modifies this
      ensures Continues(old(run)) && At(s, t).armed == At(old(s), t).armed && At(s, t).identity == At(old(s), t).identity
      ensures if ok then At(s, t).pc.ConfirmingAcquire? else At(s, t).pc.Idle?
    {
      hide Next, Apply, Enabled;
      if changed.Some? {
        Act(t, Reply(t));
        return changed.value;
      }
      var guarded: bool := *;
      Act(t, Fault(t, guarded));
      if !guarded { return false; }
      ok := LookAgainAcquired(t);
    }

    /** The claim by UPDATE, up to the point where it is confirmed. */
    method Claim(t: Token) returns (ok: bool)
      requires Valid() && IsToken(t) && At(s, t).pc.AcquireCalled?
      modifies this
      ensures Continues(old(run)) && At(s, t).armed == At(old(s), t).armed && At(s, t).identity == At(old(s), t).identity
      ensures if ok then At(s, t).pc.ConfirmingAcquire? else At(s, t).pc.Idle?
    {
      hide Next, Apply, Enabled;
      var changed := Execute(t);
      ok := SettleAcquisition(t, changed);
    }

    method ConfirmAcquisition(t: Token) returns (ok: bool)
      requires Valid() && IsToken(t) && At(s, t).pc.ConfirmingAcquire?
      modifies this
      ensures Continues(old(run)) && At(s, t).pc.Idle? && At(s, t).armed == At(old(s), t).armed
      ensures ok ==> HeldIn(run, |old(run)| - 1, At(old(s), t).identity, t, Confirmed(At(old(s), t)))
      ensures ok ==> HeldSince(run, |old(run)| - 1, At(old(s), t).identity, t)
    {
      hide Next, Apply, Enabled, Confirmable, HeldIn;
      var row := ObserveLease(t);
      var now: int := *;
      if row.Some? && Confirmable(row.value, t, At(s, t), now) {
        ConfirmableNames(s.row, t, At(s, t), now);
        HeldNow(run, |old(run)| - 1, At(old(s), t).identity, t, Confirmed(At(s, t)));
        ghost var phases := Confirmed(At(s, t));
        ghost var seen := run;
        Act(t, Confirm(t, now));
        HeldLater(seen, run, |old(run)| - 1, |old(run)| - 1, At(old(s), t).identity, t, phases);
        ok := true;
      } else {
        Act(t, Abandon(t));
        ok := false;
      }
    }

    /** The first read of an acquisition and the decision it leads to. */
    method BeginAcquire(t: Token, identity: Identity)
      requires Valid() && IsToken(t) && At(s, t).pc.Idle?
      modifies this
      ensures Continues(old(run)) && At(s, t).armed == At(old(s), t).armed && At(s, t).identity == identity
      ensures At(s, t).pc in {Called(Keep(Acquired, false, false), ToCaller), ConfirmingAcquire(false), AcquireCalled}
    {
      hide Next, Apply, Enabled;
      var current := ObserveLease(t);
      var now: int := *;
      Act(t, CallAcquire(t, identity, current.Some?, now));
    }

    /** `acquire_authorized_mutation_lease`: on success the row named the caller, under its identity, at an
        instant inside the call. */
    method AcquireAuthorized(t: Token, identity: Identity) returns (ok: bool)
      requires Valid() && IsToken(t) && At(s, t).pc.Idle?
      modifies this
      ensures Continues(old(run)) && At(s, t).pc.Idle?
      ensures ok ==> At(s, t).armed == At(old(s), t).armed
      ensures ok ==> HeldSince(run, |old(run)| - 1, identity, t)
    {
      hide Next, HeldIn, Apply, Enabled;
      BeginAcquire(t, identity);
      ghost var begun := run;
      if At(s, t).pc.Called? {
        ok := Transition(t, Keep(Acquired, false, false), ToCaller);
        if ok { HeldLater(run, run, |begun| - 1, |old(run)| - 1, identity, t, HELD); }
        return;
      }
      if At(s, t).pc.AcquireCalled? {
        ok := Claim(t);
        if !ok { return; }
      }
      ghost var settled := run;
      ok := ConfirmAcquisition(t);
      if ok { HeldLater(run, run, |settled| - 1, |old(run)| - 1, identity, t, HELD); }
    }

    /** `renew_mutation_lease`, called between other operations: it writes back what it read. */
    method Renew(t: Token, identity: Identity) returns (ok: bool, kept: (Phase, bool))
      requires Valid() && IsToken(t) && At(s, t).pc.Idle?
      modifies this
      ensures Continues(old(run)) && At(s, t).pc.Idle?
      ensures ok ==> At(s, t).armed == At(old(s), t).armed
      ensures ok ==> kept.0 in ACTIVE && kept in At(s, t).during && HeldSince(run, |old(run)| - 1, identity, t)
    {
      hide Next, HeldIn, Apply, Enabled;
      kept := (Vacant, false);
      var row := ObserveLease(t);
      var now: int := *;
      if row.None? || !LeaseRow.Valid(row.value, identity, t, ACTIVE) || row.value.expiresAt <= now { return false, kept; }
      kept := (row.value.phase, row.value.spawned);
      Act(t, CallRenew(t, identity, now));
      ghost var called := run;
      ok := Transition(t, Keep(row.value.phase, row.value.spawned, true), ToCaller);
      if ok { HeldLater(run, run, |called| - 1, |old(run)| - 1, identity, t, HELD); }
    }

    /** `resume_owned_mutation_lease`: only an acquired or verifying lease without a process is resumed. */
    method ResumeOwned(t: Token, identity: Identity) returns (ok: bool)
      requires Valid() && IsToken(t) && At(s, t).pc.Idle?
      modifies this
      ensures Continues(old(run)) && At(s, t).pc.Idle?
      ensures ok ==> At(s, t).armed == At(old(s), t).armed
      ensures ok ==> ((Acquired, false) in At(s, t).during || (Verifying, false) in At(s, t).during)
                     && HeldSince(run, |old(run)| - 1, identity, t)
    {
      hide Next, HeldIn, Apply, Enabled;
      var row := ObserveLease(t);
      if row.None? || !LeaseRow.Valid(row.value, identity, t, {Acquired, Verifying}) || row.value.spawned { return false; }
      Act(t, CallResume(t, identity));
      ghost var called := run;
      ok := Transition(t, Keep(row.value.phase, false, false), ToCaller);
      if ok { HeldLater(run, run, |called| - 1, |old(run)| - 1, identity, t, HELD); }
    }

    /** `release_mutation_lease`. */
    method ReleaseLease(t: Token, allowRecovery: bool) returns (ok: bool)
      requires Valid() && IsToken(t) && At(s, t).pc.Idle?
      modifies this
      ensures Continues(old(run)) && At(s, t).pc.Idle?
      ensures ok ==> (Vacant, false) in At(s, t).during
    {
      hide Next, Apply, Enabled;
      Act(t, CallRelease(t, allowRecovery));
      Others(t);
      var answered: bool := *;
      if answered && At(s, t).pc.id in s.done {
        ok := s.done[At(s, t).pc.id];
        if ok { ReleaseShown(run, t); }
        Act(t, Reply(t));
      } else {
        var guarded: bool := *;
        Act(t, Fault(t, guarded));
        ok := false;
      }
    }

    /** The renewal inside the poll loop. */
    method HeartbeatRenew(t: Token, p: nat) returns (ok: bool)
      requires Valid() && IsToken(t) && At(s, t).pc == Polling(p)
      modifies this
      ensures Continues(old(run))
      ensures ok ==> At(s, t).pc == Polling(p)
      ensures !ok ==> At(s, t).pc == Called(RECOVER, ToRaise)
    {
      hide Next, Apply, Enabled;
      var row := ObserveLease(t);
      var now: int := *;
      if row.None? || !LeaseRow.Valid(row.value, At(s, t).identity, t, ACTIVE) || row.value.expiresAt <= now {
        Act(t, HeartbeatFails(t));
        return false;
      }
      Act(t, Heartbeat(t, now));
      ok := Transition(t, Keep(row.value.phase, row.value.spawned, true), ToPoll(p));
    }

    /** `_run_apply_process`: start the process, poll it, renew the lease, give up at the deadline.
        `ok` is exit code 0; otherwise the failure is on its way to the handler of the caller. */
    method RunApplyProcess(t: Token) returns (ok: bool, p: nat)
      requires Valid() && IsToken(t) && At(s, t).pc.Launching?
      modifies this
      ensures Continues(old(run))
      ensures ok ==> At(s, t).pc == Called(VERIFY, ToVerified)
      ensures ok ==> |old(s).processes| <= p < |s.processes| && s.processes[p].token == t && s.processes[p].exit.ExitedZero?
      ensures !ok ==> At(s, t).pc == Called(RECOVER, ToRaise)
    {
      hide Next, Apply, Enabled;
      Others(t);
      p := |s.processes|;
      var starts: bool := *;
      if !starts {
        Act(t, LaunchFails(t));
        return false, p;
      }
      Act(t, Launch(t));
      ghost var polled: seq<int>, beats: seq<int>;
      ok, polled, beats := Poll(t, p);
    }

    /** The deadline has passed: the process is stopped. */
    method GiveUp(t: Token)
      requires Valid() && IsToken(t) && At(s, t).pc.Polling? && At(s, t).pc.process < |s.processes|
      modifies this
      ensures Continues(old(run)) && At(s, t).pc == Called(RECOVER, ToRaise)
    {
      hide Next, Apply, Enabled;
      Act(t, Terminate(t));
    }

    /** The process has ended. */
    method Reap(t: Token) returns (ok: bool)
      requires Valid() && IsToken(t) && At(s, t).pc.Polling? && At(s, t).pc.process < |s.processes|
      requires !s.processes[At(s, t).pc.process].exit.Running?
      modifies this
      ensures Continues(old(run)) && s.processes == old(s).processes
      ensures ok == s.processes[At(old(s), t).pc.process].exit.ExitedZero?
      ensures At(s, t).pc == if ok then Called(VERIFY, ToVerified) else Called(RECOVER, ToRaise)
    {
      hide Next, Apply, Enabled;
      ok := s.processes[At(s, t).pc.process].exit.ExitedZero?;
      Act(t, SeeExit(t));
    }

    /** The poll loop with its deadline and heartbeat.  `polled` and `beats` are the instants, by the operator's own
        clock, at which it went on polling and at which it began or renewed the lease: it goes on only within 600
        seconds of the beginning and 20 seconds of the last of these. */
    method Poll(t: Token, p: nat) returns (ok: bool, ghost polled: seq<int>, ghost beats: seq<int>)
      requires Valid() && IsToken(t) && At(s, t).pc == Polling(p)
      requires p < |s.processes| && s.processes[p].token == t
      modifies this
      ensures Continues(old(run))
      ensures ok ==> At(s, t).pc == Called(VERIFY, ToVerified)
      ensures ok ==> p < |s.processes| && s.processes[p].token == t && s.processes[p].exit.ExitedZero?
      ensures !ok ==> At(s, t).pc == Called(RECOVER, ToRaise)
      ensures InTime(polled, beats)
    {
      hide Next, Apply, Enabled, ClientApply, ClientEnabled, InTime;
      var clock: int := *;
      var deadline := clock + APPLY_TIMEOUT_SECONDS;
      var heartbeat := clock + HEARTBEAT_SECONDS;
      polled, beats := [], [clock];
      NonePolled(beats);
      Others(t);
      while s.processes[p].exit.Running?
        invariant Continues(old(run)) && At(s, t).pc == Polling(p)
        invariant p < |s.processes| && s.processes[p].token == t
        invariant beats != [] && deadline == beats[0] + 600 && clock >= beats[|beats| - 1]
        invariant heartbeat == beats[|beats| - 1] + 20
        invariant InTime(polled, beats)
        decreases deadline - clock
      {
        if clock >= deadline {
          GiveUp(t);
          ok := false;
          return;
        }
        if clock >= heartbeat {
          ok := HeartbeatRenew(t, p);
          if !ok { return; }
          heartbeat := clock + HEARTBEAT_SECONDS;
          StillInTime(polled, beats, clock);
          beats := beats + [clock];
        }
        PolledInTime(polled, beats, clock);
        polled := polled + [clock];
        var late: int := *;
        clock := clock + if late > 0 then 1 + late else 1;
        Others(t);
      }
      ok := Reap(t);
    }

    /** `_run_fenced_remote_migrations`: whatever goes wrong is recorded in the row and raised again. */
    method RunFenced(t: Token) returns (ok: bool, p: nat)
      requires Valid() && IsToken(t) && At(s, t).pc.Launching?
      modifies this
      ensures Continues(old(run)) && At(s, t).pc.Idle?
      ensures ok ==> |old(s).processes| <= p < |s.processes| && s.processes[p].token == t && s.processes[p].exit.ExitedZero?
      ensures ok ==> (Verifying, false) in At(s, t).during
    {
      hide Next, Apply, Enabled;
      ok, p := RunApplyProcess(t);
      if ok {
        ok := Transition(t, VERIFY, ToVerified);
      }
      if !ok {
        var recorded := Transition(t, RECOVER, ToRaise);
      }
    }

    /** `_apply_remote_migrations`, reached only after the lease was read as vacant or as one's own. */
    method ApplyRemoteMigrations(t: Token, identity: Identity) returns (ok: bool, p: nat)
      requires Valid() && IsToken(t) && At(s, t).pc.Idle? && At(s, t).armed
      modifies this
      ensures Continues(old(run)) && At(s, t).pc.Idle?
      ensures ok ==> |old(s).processes| <= p < |s.processes| && s.processes[p].token == t && s.processes[p].exit.ExitedZero?
      ensures ok ==> (Verifying, false) in At(s, t).during
      ensures UnfinishedHolds(s, t)
    {
      hide Next, Apply, Enabled;
      p := 0;
      Act(t, CallApply(t, identity));
      ok := Transition(t, MARK, ToMarkSpawned);
      if ok {
        ok := Transition(t, MARK_SPAWNED, ToLaunch);
      }
      if ok {
        ok, p := RunFenced(t);
      }
      UnfinishedHeld(run, s, t);
    }
  }
}
