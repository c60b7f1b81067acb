/** What every run of the lease protocol keeps. */
module LeaseTheorems {
  import opened LeaseRow
  import opened LeaseProtocol
  import opened LeaseInvariant

  ghost function StepAt(run: seq<State>, i: nat): (step: Step)
    requires IsRun(run) && i + 1 < |run|
    ensures Enabled(run[i], step) && run[i + 1] == Apply(run[i], step)
  {
    assert Next(run[i], run[i + 1]);
    var step :| Enabled(run[i], step) && run[i + 1] == Apply(run[i], step);
    step
  }

  // ----- exclusion

  /** A launched migration that has not exited 0 holds the row under its own token, and there is
      never a second one, of the same or of another operator. */
  lemma LeaseExclusion(run: seq<State>, i: nat, p: nat, q: nat)
    requires IsRun(run) && i < |run| && p < |run[i].processes| && q < |run[i].processes|
    requires run[i].processes[p].Unfinished() && run[i].processes[q].Unfinished()
    ensures p == q
    ensures run[i].row.token == run[i].processes[p].token
    ensures run[i].row.phase.Migrating? || run[i].row.phase.RecoveryRequired?
  {
    RunKeepsInv(run, i);
    assert ProcessOk(run[i], run[i].processes[p]) && ProcessOk(run[i], run[i].processes[q]);
    assert p < q || q < p || p == q;
  }

  /** On whose behalf a step is taken. */
  function Actor(s: State, step: Step): Token
    requires Enabled(s, step)
  {
    match step
    case Deliver(id, _) => s.net[id].token
    case Exit(p, _) => s.processes[p].token
    case _ => step.t
  }

  /** Only the server writes the row. */
  lemma OperatorsKeepRow(s: State, step: Step)
    requires Enabled(s, step) && !step.Deliver?
    ensures Apply(s, step).row == s.row && Apply(s, step).tenure == s.tenure
  {}

  lemma ForeignDelivery(s: State, id: nat, now: int)
    requires Inv(s) && id in s.net && s.row.phase in {Migrating, Verifying, RecoveryRequired}
    requires s.net[id].token != s.row.token
    ensures Delivered(s, id, now).row == s.row && Delivered(s, id, now).tenure == s.tenure
  {}

  /** A sticky row is out of reach of every other token, whatever the clocks say. */
  lemma ForeignStepsKeepRow(run: seq<State>, i: nat)
    requires IsRun(run) && i + 1 < |run|
    requires run[i].row.phase in {Migrating, Verifying, RecoveryRequired}
    requires Actor(run[i], StepAt(run, i)) != run[i].row.token
    ensures run[i + 1].row == run[i].row && run[i + 1].tenure == run[i].tenure
  {
    hide Inv, Delivered, ClientApply, Next;
    RunKeepsInv(run, i);
    var step := StepAt(run, i);
    if step.Deliver? { ForeignDelivery(run[i], step.id, step.now); } else { OperatorsKeepRow(run[i], step); }
  }

  // ----- who gets the row

  /** One claim, executed at the server's clock: it takes a vacant row, or an acquired and unspawned one whose
      lease has run out, and it takes no other. */
  lemma ClaimTakesExpired(s: State, id: nat, now: int)
    requires Enabled(s, Deliver(id, now)) && s.net[id].Acquire?
    ensures var s' := Apply(s, Deliver(id, now));
            && id in s'.done
            && (s'.done[id] <==>
                s.row.phase == Vacant || (s.row.phase == Acquired && !s.row.spawned && s.row.expiresAt <= now))
            && (s'.done[id] ==>
                s'.row == Row(s.net[id].identity, s.net[id].token, Acquired, s.net[id].expiresAt, false)
                && s'.tenure == s.tenure + 1)
            && (!s'.done[id] ==> s'.row == s.row && s'.tenure == s.tenure)
  {}

  /** A phase change, executed: it needs the sender's own token, a source phase, and time left if it says so;
      it writes phase, flag and expiry, and nothing else. */
  lemma ChangeTakesOwn(s: State, id: nat, now: int)
    requires Enabled(s, Deliver(id, now)) && s.net[id].Set?
    ensures var st, s' := s.net[id], Apply(s, Deliver(id, now));
            && id in s'.done
            && (s'.done[id] <==>
                s.row.token == st.token && s.row.phase in st.change.from
                && (st.change.unexpiredOnly ==> now < s.row.expiresAt))
            && (s'.done[id] ==>
                s'.row == Row(s.row.identity, s.row.token, st.change.to, st.expiresAt, st.change.spawned))
            && (!s'.done[id] ==> s'.row == s.row)
            && s'.tenure == s.tenure
  {}

  /** A release, executed: it vacates the sender's own unspawned lease, and never one that is migrating. */
  lemma ReleaseTakesOwn(s: State, id: nat, now: int)
    requires Enabled(s, Deliver(id, now)) && s.net[id].Release?
    ensures var st, s' := s.net[id], Apply(s, Deliver(id, now));
            && id in s'.done
            && (s'.done[id] <==>
                && s.row.token == st.token && !s.row.spawned
                && (s.row.phase in {Acquired, Verifying} || (s.row.phase == RecoveryRequired && st.allowRecovery)))
            && (s'.done[id] ==> s'.row.phase == Vacant && !IsToken(s'.row.token) && !s'.row.spawned)
            && (!s'.done[id] ==> s'.row == s.row)
            && s'.tenure == s.tenure
  {}

  /** Over every run: a lease passes from one token to another only by a claim that the server executes when the
      lease has run out, and only before it was used for a migration. */
  lemma TakeoverOnlyAfterExpiry(run: seq<State>, i: nat)
    requires IsRun(run) && i + 1 < |run| && run[i].row.phase != Vacant && run[i + 1].row.phase != Vacant
    requires run[i + 1].row.token != run[i].row.token
    ensures StepAt(run, i).Deliver? && StepAt(run, i).id in run[i].net
    ensures var st := run[i].net[StepAt(run, i).id];
            st.Acquire? && run[i + 1].row == Row(st.identity, st.token, Acquired, st.expiresAt, false)
    ensures run[i].row.expiresAt <= StepAt(run, i).now && run[i].row.phase == Acquired && !run[i].row.spawned
  {
    hide Next, Apply;
    var step := StepAt(run, i);
    if step.Deliver? && run[i].net[step.id].Acquire? {
      ClaimTakesExpired(run[i], step.id, step.now);
    } else {
      OnlyClaimsPass(run[i], step);
    }
  }

  lemma OnlyClaimsPass(s: State, step: Step)
    requires Enabled(s, step) && (step.Deliver? ==> !s.net[step.id].Acquire?)
    ensures Apply(s, step).row.token == s.row.token || Apply(s, step).row.phase == Vacant
  {
    hide ClientApply, ClientEnabled;
    if !step.Deliver? { OperatorsKeepRow(s, step); }
  }

  /** Over every run: the phases that a lease goes through while it stays with its token. */
  lemma PhasesInOrder(run: seq<State>, i: nat)
    requires IsRun(run) && i + 1 < |run| && run[i + 1].row.token == run[i].row.token
    ensures var (a, b) := (run[i].row.phase, run[i + 1].row.phase);
            a == b || (a, b) in {(Acquired, Migrating), (Migrating, Verifying), (Migrating, RecoveryRequired)}
    ensures run[i].row.phase == Acquired && run[i + 1].row.phase == Migrating ==> !run[i + 1].row.spawned
  {
    hide Next, Inv;
    RunKeepsInv(run, i);
    RunKeepsInv(run, i + 1);
    var step := StepAt(run, i);
    if step.Deliver? { PhaseDelivery(run[i], step.id, step.now); } else { OperatorsKeepRow(run[i], step); }
  }

  lemma PhaseDelivery(s: State, id: nat, now: int)
    requires Inv(s) && id in s.net && Inv(Delivered(s, id, now)) && Delivered(s, id, now).row.token == s.row.token
    ensures var (a, b) := (s.row.phase, Delivered(s, id, now).row.phase);
            a == b || (a, b) in {(Acquired, Migrating), (Migrating, Verifying), (Migrating, RecoveryRequired)}
    ensures s.row.phase == Acquired && Delivered(s, id, now).row.phase == Migrating ==> !Delivered(s, id, now).row.spawned
  {
    assert ShapedStatement(s.net[id]);
  }

  // ----- row invariant

  lemma RowInvariant(run: seq<State>, i: nat)
    requires IsRun(run) && i < |run|
    ensures run[i].row.phase in {Vacant, Acquired, Verifying} ==> !run[i].row.spawned
    ensures run[i].row.phase.RecoveryRequired? ==> run[i].row.spawned
    ensures run[i].row.phase.Vacant? <==> !IsToken(run[i].row.token)
  {
    RunKeepsInv(run, i);
  }

  // ----- spawn fence

  /** Between an acquisition and the next one at most one migration is launched, also across crashes. */
  lemma OneLaunchPerTenure(run: seq<State>, i: nat, p: nat, q: nat)
    requires IsRun(run) && i < |run| && p < q < |run[i].processes|
    ensures run[i].processes[p].tenure != run[i].processes[q].tenure
  {
    RunKeepsInv(run, i);
  }

  lemma UnfinishedDelivery(s: State, id: nat, now: int, p: nat)
    requires Inv(s) && id in s.net && p < |s.processes| && s.processes[p].Unfinished()
    ensures var s' := Delivered(s, id, now); s'.tenure == s.tenure && Holds(s', s.processes[p].token)
  {
    assert ProcessOk(s, s.processes[p]);
    HoldsStable(s, id, now, s.processes[p].token);
    assert IsVerify(s.net[id]) ==> AllFinished(s, s.net[id].token);
  }

  /** No single step takes the row from a migration that has not exited 0. */
  lemma UnfinishedStep(s: State, step: Step, p: nat)
    requires Inv(s) && Enabled(s, step) && p < |s.processes| && s.processes[p].Unfinished()
    ensures Apply(s, step).tenure == s.tenure && Holds(Apply(s, step), s.processes[p].token)
  {
    hide Delivered, ClientApply;
    if step.Deliver? {
      UnfinishedDelivery(s, step.id, step.now, p);
    } else {
      assert ProcessOk(s, s.processes[p]);
      OperatorsKeepRow(s, step);
    }
  }

  /** The row is released or taken over only when nothing was launched or the launched process exited 0. */
  lemma VacatedOnlyWhenFinished(run: seq<State>, i: nat, p: nat)
    requires IsRun(run) && i + 1 < |run| && p < |run[i].processes|
    requires run[i].processes[p].tenure == run[i].tenure
    requires run[i + 1].row.phase.Vacant? || run[i + 1].tenure != run[i].tenure
    ensures run[i].processes[p].exit.ExitedZero?
  {
    hide Inv, Apply, Enabled, Next;
    RunKeepsInv(run, i);
    if run[i].processes[p].Unfinished() { UnfinishedStep(run[i], StepAt(run, i), p); }
  }

  predicate Pinned(s: State, s': State, p: nat) {
    && p < |s.processes| && |s'.processes| == |s.processes| && s'.processes[p] == s.processes[p]
    && s'.tenure == s.tenure && Holds(s', s.processes[p].token)
  }

  lemma FailureDelivery(s: State, id: nat, now: int, p: nat)
    requires Inv(s) && id in s.net && p < |s.processes| && s.processes[p].exit.Failed?
    ensures Pinned(s, Delivered(s, id, now), p)
  {
    assert ProcessOk(s, s.processes[p]);
    HoldsStable(s, id, now, s.processes[p].token);
    assert IsVerify(s.net[id]) ==> AllFinished(s, s.net[id].token);
  }

  lemma FailureNoLaunch(s: State, t: Token, p: nat)
    requires Inv(s) && IsToken(t) && At(s, t).pc.Launching? && p < |s.processes|
    ensures !s.processes[p].exit.Failed?
  {
    ClientKnown(s, t);
    assert ProcessOk(s, s.processes[p]);
  }

  lemma OthersKeepFailures(s: State, step: Step, p: nat)
    requires Enabled(s, step) && !step.Deliver? && !step.Launch? && p < |s.processes| && s.processes[p].exit.Failed?
    ensures |Apply(s, step).processes| == |s.processes| && Apply(s, step).processes[p] == s.processes[p]
  {}

  /** A step keeps a failed process, its tenure and the row's holder, and launches nothing. */
  lemma FailurePinsStep(s: State, step: Step, p: nat)
    requires Inv(s) && Enabled(s, step) && p < |s.processes| && s.processes[p].exit.Failed?
    ensures Pinned(s, Apply(s, step), p)
  {
    hide Delivered, ClientApply;
    if step.Deliver? {
      FailureDelivery(s, step.id, step.now, p);
    } else {
      if step.Launch? { FailureNoLaunch(s, step.t, p); }
      assert ProcessOk(s, s.processes[p]);
      OthersKeepFailures(s, step, p);
      OperatorsKeepRow(s, step);
    }
  }

  lemma FailurePinsNext(run: seq<State>, i: nat, p: nat)
    requires IsRun(run) && i + 1 < |run| && p < |run[i].processes| && run[i].processes[p].exit.Failed?
    ensures Pinned(run[i], run[i + 1], p)
  {
    hide Inv, Apply, Enabled, Next;
    RunKeepsInv(run, i);
    FailurePinsStep(run[i], StepAt(run, i), p);
  }

  /** A migration that failed pins the row: its token keeps it in migrating or recovery_required in
      every later state, and nobody launches anything again. */
  lemma {:induction false} FailurePins(run: seq<State>, i: nat, j: nat, p: nat)
    requires IsRun(run) && i < j < |run| && p < |run[i].processes|
    requires run[i].processes[p].exit.Failed?
    ensures Pinned(run[i], run[j], p)
  {
    hide Next;
    if i + 1 < j {
      FailurePins(run, i, j - 1, p);
      FailurePinsNext(run, j - 1, p);
    } else {
      FailurePinsNext(run, i, p);
    }
  }

  // ----- tenure

  /** The later state belongs to a later tenure, or the row still names the same holder. */
  predicate SameTenure(s: State, s': State) {
    && s.tenure <= s'.tenure
    && (s.tenure == s'.tenure && !s'.row.phase.Vacant? ==>
          !s.row.phase.Vacant? && s.row.token == s'.row.token && s.row.identity == s'.row.identity)
  }

  lemma TenureDelivery(s: State, id: nat, now: int)
    requires Inv(s) && id in s.net
    ensures SameTenure(s, Delivered(s, id, now))
  {
    assert ShapedStatement(s.net[id]);
  }

  lemma TenureStep(s: State, step: Step)
    requires Inv(s) && Enabled(s, step)
    ensures SameTenure(s, Apply(s, step))
  {
    hide Inv, Delivered, ClientApply, ClientEnabled;
    if step.Deliver? {
      TenureDelivery(s, step.id, step.now);
    } else {
      OperatorsKeepRow(s, step);
    }
  }

  lemma TenureNext(run: seq<State>, i: nat)
    requires IsRun(run) && i + 1 < |run|
    ensures SameTenure(run[i], run[i + 1])
  {
    RunKeepsInv(run, i);
    TenureStep(run[i], StepAt(run, i));
  }

  /** Token and identity fields are constant over a whole tenure, and tenures never come back. */
  lemma {:induction false} TenureIdentity(run: seq<State>, i: nat, j: nat)
    requires IsRun(run) && i <= j < |run|
    ensures SameTenure(run[i], run[j])
  {
    hide Next;
    if i < j {
      TenureIdentity(run, i, j - 1);
      TenureNext(run, j - 1);
    }
  }

  // ----- lost replies

  /** The row shows the pair under token `t`; the vacant pair stands for the row after a release. */
  predicate Shows(row: Row, t: Token, pair: (Phase, bool)) {
    (row.phase, row.spawned) == pair && (row.token == t || row.phase.Vacant?)
  }

  /** The row showed the pair at state `m`, and operator `t` sent nothing between `m` and `i`. */
  ghost predicate ShownSince(run: seq<State>, m: nat, i: nat, t: Token, pair: (Phase, bool)) {
    && m <= i < |run| && Shows(run[m].row, t, pair)
    && forall l | m <= l <= i :: pair in At(run[l], t).during
  }

  lemma DuringDelivery(s: State, id: nat, now: int, t: Token, pair: (Phase, bool))
    requires Inv(s) && id in s.net && IsToken(t) && pair in At(Delivered(s, id, now), t).during
    ensures pair in At(s, t).during || Shows(Delivered(s, id, now).row, t, pair)
  {
    assert ShapedStatement(s.net[id]);
  }

  lemma DuringObserve(s: State, step: Step, t: Token, pair: (Phase, bool))
    requires Enabled(s, step) && step.Observe? && pair in At(Apply(s, step), t).during
    ensures pair in At(s, t).during || Shows(s.row, t, pair)
  {}

  lemma DuringOther(s: State, step: Step, t: Token)
    requires Enabled(s, step) && !step.Deliver? && !step.Observe?
    requires !step.Reply? && !step.Fault? && !step.Confirm? && !step.Abandon?
    ensures At(Apply(s, step), t).during <= At(s, t).during
  {}

  lemma DuringStep(s: State, step: Step, t: Token, pair: (Phase, bool))
    requires Inv(s) && Enabled(s, step) && IsToken(t) && pair in At(Apply(s, step), t).during
    ensures pair in At(s, t).during || Shows(Apply(s, step).row, t, pair)
  {
    hide Delivered, ClientApply, Inv, ClientEnabled;
    if step.Deliver? {
      DuringDelivery(s, step.id, step.now, t, pair);
    } else if step.Observe? {
      DuringObserve(s, step, t, pair);
      OperatorsKeepRow(s, step);
    } else if step.Reply? || step.Fault? || step.Confirm? || step.Abandon? {
      KontsKeepDuring(s, step);
      if step.t != t { OthersUntouched(s, step, t); }
    } else {
      DuringOther(s, step, t);
    }
  }

  lemma OthersUntouched(s: State, step: Step, t: Token)
    requires Enabled(s, step) && (step.Reply? || step.Fault? || step.Confirm? || step.Abandon?) && step.t != t
    ensures At(Apply(s, step), t) == At(s, t)
  {}

  lemma KontsKeepDuring(s: State, step: Step)
    requires Enabled(s, step) && (step.Reply? || step.Fault? || step.Confirm? || step.Abandon?)
    ensures At(Apply(s, step), step.t).during == At(s, step.t).during
  {}

  lemma {:induction false} DuringIsHistory(run: seq<State>, i: nat, t: Token, pair: (Phase, bool)) returns (m: nat)
    requires IsRun(run) && i < |run| && IsToken(t) && pair in At(run[i], t).during
    ensures ShownSince(run, m, i, t, pair)
  {
    hide Inv, Apply, Enabled, Next, Shows;
    if i > 0 && pair in At(run[i - 1], t).during {
      m := DuringIsHistory(run, i - 1, t, pair);
    } else {
      if i > 0 {
        RunKeepsInv(run, i - 1);
        DuringStep(run[i - 1], StepAt(run, i - 1), t, pair);
      }
      m := i;
    }
  }

  /** Sending a statement starts a new record. */
  lemma SendingForgets(s: State, t: Token, expiresAt: int)
    requires Enabled(s, Emit(t, expiresAt))
    ensures At(Apply(s, Emit(t, expiresAt)), t).during == {}
  {}

  /** Between sending the statement of a transition and the end of the transition. */
  predicate Pending(pc: Pc, change: Change) {
    (pc.Sent? || pc.Uncertain? || pc.Confirming?) && pc.change == change
  }

  /** The transition that is pending in state `i` sent its statement at step `emit`. */
  ghost predicate SentAt(run: seq<State>, emit: nat, i: nat, t: Token, change: Change)
    requires IsRun(run)
  {
    && emit < i < |run| && StepAt(run, emit).Emit? && StepAt(run, emit).t == t
    && At(run[emit], t).pc.Called? && At(run[emit], t).pc.change == change
    && forall l | emit < l <= i :: Pending(At(run[l], t).pc, change)
  }

  lemma PendingStep(s: State, step: Step, t: Token, change: Change)
    requires Enabled(s, step) && IsToken(t) && Pending(At(Apply(s, step), t).pc, change)
    ensures Pending(At(s, t).pc, change) || (step.Emit? && step.t == t && At(s, t).pc == Called(change, At(s, t).pc.k))
  {
    hide ClientApply, ClientEnabled;
    if !step.Deliver? && !step.Exit? { PendingClientStep(s, step, t, change); }
  }

  lemma PendingClientStep(s: State, step: Step, t: Token, change: Change)
    requires !step.Deliver? && !step.Exit? && ClientEnabled(s, step.t, step)
    requires Pending(At(ClientApply(s, step.t, step), t).pc, change)
    ensures Pending(At(s, t).pc, change) || (step.Emit? && step.t == t && At(s, t).pc == Called(change, At(s, t).pc.k))
  {
    hide Valid, Matches, Confirmable;
  }

  lemma {:induction false} TransitionBegan(run: seq<State>, i: nat, t: Token, change: Change) returns (emit: nat)
    requires IsRun(run) && i < |run| && IsToken(t) && Pending(At(run[i], t).pc, change)
    ensures SentAt(run, emit, i, t, change)
  {
    hide Apply, Enabled, Next;
    PendingStep(run[i - 1], StepAt(run, i - 1), t, change);
    if Pending(At(run[i - 1], t).pc, change) {
      emit := TransitionBegan(run, i - 1, t, change);
    } else {
      emit := i - 1;
    }
  }

  /** Whenever a phase transition returns normally, with or without its reply, the row held the
      caller's token, the target phase and the requested flag after the transition sent its statement. */
  lemma LostReplyRecovery(run: seq<State>, i: nat, t: Token) returns (emit: nat, m: nat)
    requires IsRun(run) && i + 1 < |run| && IsToken(t)
    requires At(run[i], t).pc.Confirming? && StepAt(run, i).Confirm? && StepAt(run, i).t == t
    ensures SentAt(run, emit, i, t, At(run[i], t).pc.change) && emit < m <= i
    ensures Matches(run[m].row, t, At(run[i], t).pc.change)
  {
    RunKeepsInv(run, i);
    ClientKnown(run[i], t);
    var change := At(run[i], t).pc.change;
    assert KontOk(run[i], t, At(run[i], t), change, At(run[i], t).pc.k);
    emit := TransitionBegan(run, i, t, change);
    m := DuringIsHistory(run, i, t, (change.to, change.spawned));
    hide Apply, Enabled, Next, Inv, KontOk;
    SendingForgets(run[emit], t, StepAt(run, emit).expiresAt);
    assert At(run[emit + 1], t).during == {};
  }

  lemma ReleaseStep(s: State, step: Step, t: Token)
    requires Enabled(s, step) && IsToken(t) && At(Apply(s, step), t).pc.ReleaseSent?
    ensures At(s, t).pc == At(Apply(s, step), t).pc ||
            (step.CallRelease? && step.t == t && At(Apply(s, step), t).during == {})
  {
    hide ClientApply, ClientEnabled;
    if !step.Deliver? && !step.Exit? { ReleaseClientStep(s, step, t); }
  }

  lemma ReleaseClientStep(s: State, step: Step, t: Token)
    requires !step.Deliver? && !step.Exit? && ClientEnabled(s, step.t, step)
    requires At(ClientApply(s, step.t, step), t).pc.ReleaseSent?
    ensures At(s, t).pc == At(ClientApply(s, step.t, step), t).pc ||
            (step.CallRelease? && step.t == t && At(ClientApply(s, step.t, step), t).during == {})
  {
    hide Valid, Matches, Confirmable;
  }

  lemma {:induction false} ReleaseBegan(run: seq<State>, i: nat, t: Token) returns (call: nat)
    requires IsRun(run) && i < |run| && IsToken(t) && At(run[i], t).pc.ReleaseSent?
    ensures call < i && StepAt(run, call).CallRelease? && StepAt(run, call).t == t && At(run[call + 1], t).during == {}
    ensures forall l | call < l <= i :: At(run[l], t).pc == At(run[i], t).pc
  {
    hide Apply, Enabled, Next;
    ReleaseStep(run[i - 1], StepAt(run, i - 1), t);
    if At(run[i - 1], t).pc == At(run[i], t).pc {
      call := ReleaseBegan(run, i - 1, t);
    } else {
      call := i - 1;
    }
  }

  /** A release that reports one changed row did vacate the row inside the call. */
  lemma ReleaseVacated(run: seq<State>, i: nat, t: Token) returns (call: nat, m: nat)
    requires IsRun(run) && i < |run| && IsToken(t)
    requires At(run[i], t).pc.ReleaseSent? && At(run[i], t).pc.id in run[i].done && run[i].done[At(run[i], t).pc.id]
    ensures call < m <= i && StepAt(run, call).CallRelease? && StepAt(run, call).t == t
    ensures forall l | call < l <= i :: At(run[l], t).pc == At(run[i], t).pc
    ensures run[m].row.phase.Vacant? && !run[m].row.spawned
  {
    RunKeepsInv(run, i);
    ClientKnown(run[i], t);
    call := ReleaseBegan(run, i, t);
    m := DuringIsHistory(run, i, t, (Vacant, false));
  }

  // ----- what operators send and when

  /** Over every run: every phase change that is under way is one of these. */
  lemma ChangesSent(run: seq<State>, i: nat, id: nat)
    requires IsRun(run) && i < |run| && id in run[i].net && run[i].net[id].Set?
    ensures var c := run[i].net[id].change;
            || c == Change({Acquired}, Migrating, false, true)
            || c == Change({Migrating}, Verifying, false, false)
            || c == Change({Migrating}, RecoveryRequired, true, false)
            || (c.from == {c.to} && c.to != Vacant && (c.unexpiredOnly || (c.to in {Acquired, Verifying} && !c.spawned)))
  {
    RunKeepsInv(run, i);
    assert ShapedStatement(run[i].net[id]);
  }

  /** A process is launched only after the row showed, since the operator last sent a statement, that its
      launch is announced. */
  lemma LaunchAnnounced(run: seq<State>, i: nat) returns (m: nat)
    requires IsRun(run) && i + 1 < |run| && StepAt(run, i).Launch?
    ensures ShownSince(run, m, i, StepAt(run, i).t, (Migrating, true)) && run[m].row.token == StepAt(run, i).t
  {
    RunKeepsInv(run, i);
    var t := StepAt(run, i).t;
    ClientKnown(run[i], t);
    m := DuringIsHistory(run, i, t, (Migrating, true));
  }

  /** What the row shows when a call is confirmed. */
  lemma ConfirmedByRow(run: seq<State>, i: nat)
    requires IsRun(run) && i + 1 < |run| && StepAt(run, i).Confirm?
    ensures var (row, t, now) := (run[i].row, StepAt(run, i).t, StepAt(run, i).now);
            var c := At(run[i], t);
            && row.token == t && row.identity == c.identity && row.phase != Vacant
            && (c.pc.Confirming? && c.pc.strict ==> row.phase == c.pc.change.to)
            && (c.pc.ConfirmingAcquire? ==> now < row.expiresAt && (c.pc.strict ==> row.phase == Acquired))
  {
    hide Apply;
    RunKeepsInv(run, i);
    ClientKnown(run[i], StepAt(run, i).t);
  }

  /** What the row shows when a lease is renewed, resumed or renewed by the heartbeat. */
  lemma RenewedByRow(run: seq<State>, i: nat)
    requires IsRun(run) && i + 1 < |run|
    requires StepAt(run, i).CallRenew? || StepAt(run, i).CallResume? || StepAt(run, i).Heartbeat?
    ensures var (row, step) := (run[i].row, StepAt(run, i));
            && row.token == step.t && row.phase != Vacant
            && row.identity == (if step.Heartbeat? then At(run[i], step.t).identity else step.identity)
            && (!step.CallResume? ==> step.now < row.expiresAt)
            && (step.CallResume? ==> row.phase in {Acquired, Verifying} && !row.spawned)
  {
    hide Apply;
  }

  /** The first read of an acquisition: a lease of one's own that has run out is renewed, one's own that has not is
      confirmed, and any other is claimed. */
  lemma AcquireDecides(run: seq<State>, i: nat)
    requires IsRun(run) && i + 1 < |run| && StepAt(run, i).CallAcquire?
    ensures var (row, step) := (run[i].row, StepAt(run, i));
            var own := step.seen && row.token == step.t;
            At(run[i + 1], step.t).pc ==
            if !own then AcquireCalled
            else if row.phase == Acquired && !row.spawned && row.expiresAt <= step.now
            then Called(Change({Acquired}, Acquired, false, false), ToCaller)
            else ConfirmingAcquire(false)
  {
    hide Next;
  }

  /** A second look goes on only with a row that already shows what was asked for. */
  lemma SecondLook(run: seq<State>, i: nat)
    requires IsRun(run) && i + 1 < |run| && StepAt(run, i).Observe?
    ensures var (row, t) := (run[i].row, StepAt(run, i).t);
            var pc := At(run[i], t).pc;
            if pc.Uncertain? then
              && row.token == t && row.phase == pc.change.to && row.spawned == pc.change.spawned
              && At(run[i + 1], t).pc == Confirming(pc.change, true, pc.k)
            else row.phase == Acquired && !row.spawned && At(run[i + 1], t).pc == ConfirmingAcquire(true)
  {
    hide Next;
  }

  /** Migrations begin only after a guard read that found the lease vacant or one's own and unspawned. */
  lemma ArmedByGuard(run: seq<State>, i: nat)
    requires IsRun(run) && i + 1 < |run| && StepAt(run, i).ReadGuard?
    ensures var (row, t) := (run[i].row, StepAt(run, i).t);
            At(run[i + 1], t).armed <==>
            row.phase == Vacant || (row.token == t && row.phase == Acquired && !row.spawned)
  {
    hide Next;
  }

  /** At the deadline a process that still runs is killed, which counts as a failure, and the recovery comes next. */
  lemma DeadlineKills(run: seq<State>, i: nat)
    requires IsRun(run) && i + 1 < |run| && StepAt(run, i).Terminate?
    ensures var t := StepAt(run, i).t;
            var p := At(run[i], t).pc.process;
            && p < |run[i].processes| && |run[i + 1].processes| == |run[i].processes|
            && run[i + 1].processes[p].exit ==
               (if run[i].processes[p].exit == Running then Failed else run[i].processes[p].exit)
            && At(run[i + 1], t).pc == Called(Change({Migrating}, RecoveryRequired, true, false), ToRaise)
  {
    hide Next;
  }
}
