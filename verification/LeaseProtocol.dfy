/**
  Every interleaving of operators, the D1 server and migration processes.

  Statements travel: one that was sent may be executed at any later time or never,
  also after its sender gave up on the reply or crashed.  Clocks are arbitrary: the
  server's and each client's clock value is chosen afresh at every use.  There is at
  most one live operator per token; after a crash it is replaced by a resumed one.
 */
module LeaseProtocol {
  import opened LeaseRow

  datatype Exit = Running | ExitedZero | Failed

  /** A launched migration process; it keeps running when its operator is gone. */
  datatype Process = Process(token: Token, tenure: nat, exit: Exit) {
    predicate Unfinished() { !exit.ExitedZero? }
  }

  /** Where a phase transition hands control when it is over. */
  datatype Kont = ToCaller | ToMarkSpawned | ToLaunch | ToPoll(process: nat) | ToVerified | ToRaise

  datatype Pc =
    | Idle
    | AcquireCalled
    | AcquireSent(id: nat)
    | AcquireUncertain
    | ConfirmingAcquire(strict: bool)
    | Called(change: Change, k: Kont)
    | Sent(id: nat, change: Change, k: Kont)
    | Uncertain(change: Change, k: Kont)
    | Confirming(change: Change, strict: bool, k: Kont)
    | ReleaseSent(id: nat)
    | Launching
    | Polling(process: nat)

  /** `armed`: since the last crash the operator has read the lease as vacant or as its own and
      unspawned, which both cutover paths do before they apply migrations.  `during` records the
      (phase, flag) pairs that the operator's own statements, or its own reads, established since
      the current call sent its statement. */
  datatype Client = Client(pc: Pc, identity: Identity, armed: bool, during: set<(Phase, bool)>)

  /** `tenure` counts acquisitions; `done` says for each executed statement whether it changed the row. */
  datatype State = State(
    row: Row, tenure: nat,
    net: map<nat, Statement>, done: map<nat, bool>, nextId: nat,
    processes: seq<Process>, clients: map<Token, Client>)

  datatype Step =
    | Deliver(id: nat, now: int)
    | Exit(process: nat, zero: bool)
    | Crash(t: Token)
    | ReadGuard(t: Token)
    | CallAcquire(t: Token, identity: Identity, seen: bool, now: int)
    | CallRenew(t: Token, identity: Identity, now: int)
    | CallResume(t: Token, identity: Identity)
    | CallRelease(t: Token, allowRecovery: bool)
    | CallApply(t: Token, identity: Identity)
    | Emit(t: Token, expiresAt: int)
    | Reply(t: Token)
    | Fault(t: Token, guarded: bool)
    | Observe(t: Token)
    | Confirm(t: Token, now: int)
    | Abandon(t: Token)
    | Launch(t: Token)
    | LaunchFails(t: Token)
    | Heartbeat(t: Token, now: int)
    | HeartbeatFails(t: Token)
    | SeeExit(t: Token)
    | Terminate(t: Token)

  const FRESH_CLIENT := Client(Idle, NO_IDENTITY, false, {})

  function At(s: State, t: Token): Client {
    if t in s.clients then s.clients[t] else FRESH_CLIENT
  }

  // ----- control flow of a transition

  function Returned(c: Client, k: Kont): Client {
    match k
    case ToCaller => c.(pc := Idle)
    case ToMarkSpawned => c.(pc := Called(MARK_SPAWNED, ToLaunch))
    case ToLaunch => c.(pc := Launching)
    case ToPoll(p) => c.(pc := Polling(p))
    case ToVerified => c.(pc := Idle)
    case ToRaise => c.(pc := Idle)
  }

  /** A failure before the launch reaches the caller; one after it is answered by `recovery_required`. */
  function RaisedTo(c: Client, k: Kont): Client {
    match k
    case ToCaller => c.(pc := Idle)
    case ToMarkSpawned => c.(pc := Idle, armed := false)
    case ToLaunch => c.(pc := Idle, armed := false)
    case ToPoll(_) => c.(pc := Called(RECOVER, ToRaise))
    case ToVerified => c.(pc := Called(RECOVER, ToRaise))
    case ToRaise => c.(pc := Idle)
  }

  // ----- steps

  function With(s: State, t: Token, c: Client): State {
    s.(clients := s.clients[t := c])
  }

  function Post(s: State, t: Token, st: Statement, pc: Pc): State {
    s.(net := s.net[s.nextId := st], nextId := s.nextId + 1,
       clients := s.clients[t := At(s, t).(pc := pc, during := {})])
  }

  function Delivered(s: State, id: nat, now: int): State
    requires id in s.net
  {
    var st := s.net[id];
    var hit := Guard(s.row, st, now);
    var row := Execute(s.row, st, now);
    s.(row := row,
       tenure := if hit && st.Acquire? then s.tenure + 1 else s.tenure,
       net := s.net - {id},
       done := s.done[id := hit],
       clients := if hit then s.clients[st.token := Noting(At(s, st.token), row)] else s.clients)
  }

  function Noting(c: Client, row: Row): Client {
    c.(during := c.during + {(row.phase, row.spawned)})
  }

  /** The first read of an acquisition decides between renewing, confirming and claiming. */
  function AcquirePc(row: Row, t: Token, seen: bool, now: int): Pc {
    if seen && row.token == t then
      if row.phase.Acquired? && !row.spawned && row.expiresAt <= now
      then Called(Keep(Acquired, false, false), ToCaller)
      else ConfirmingAcquire(false)
    else AcquireCalled
  }

  predicate Waiting(pc: Pc) {
    pc.Sent? || pc.AcquireSent? || pc.ReleaseSent?
  }

  predicate Matches(row: Row, t: Token, change: Change) {
    row.token == t && row.phase == change.to && row.spawned == change.spawned
  }

  predicate Confirmable(row: Row, t: Token, c: Client, now: int) {
    match c.pc
    case Confirming(change, strict, _) => Valid(row, c.identity, t, if strict then {change.to} else ACTIVE)
    case ConfirmingAcquire(strict) =>
      Valid(row, c.identity, t, if strict then {Acquired} else ACTIVE) && now < row.expiresAt
    case _ => false
  }

  predicate ClientEnabled(s: State, t: Token, step: Step) {
    var c := At(s, t);
    match step
    case Deliver(_, _) => false
    case Exit(_, _) => false
    case Crash(_) => true
    case ReadGuard(_) => c.pc.Idle?
    case CallAcquire(_, _, _, _) => c.pc.Idle?
    case CallRenew(_, identity, now) => c.pc.Idle? && Valid(s.row, identity, t, ACTIVE) && now < s.row.expiresAt
    case CallResume(_, identity) => c.pc.Idle? && Valid(s.row, identity, t, {Acquired, Verifying}) && !s.row.spawned
    case CallRelease(_, _) => c.pc.Idle?
    case CallApply(_, _) => c.pc.Idle? && c.armed
    case Emit(_, _) => c.pc.Called? || c.pc.AcquireCalled?
    case Reply(_) => Waiting(c.pc) && c.pc.id in s.done
    case Fault(_, _) => Waiting(c.pc)
    case Observe(_) =>
      || (c.pc.Uncertain? && Matches(s.row, t, c.pc.change))
      || (c.pc.AcquireUncertain? && s.row.phase.Acquired? && !s.row.spawned)
    case Confirm(_, now) => Confirmable(s.row, t, c, now)
    case Abandon(_) => c.pc.Uncertain? || c.pc.AcquireUncertain? || c.pc.Confirming? || c.pc.ConfirmingAcquire?
    case Launch(_) => c.pc.Launching?
    case LaunchFails(_) => c.pc.Launching?
    case Heartbeat(_, now) => c.pc.Polling? && Valid(s.row, c.identity, t, ACTIVE) && now < s.row.expiresAt
    case HeartbeatFails(_) => c.pc.Polling?
    case SeeExit(_) => c.pc.Polling? && c.pc.process < |s.processes| && !s.processes[c.pc.process].exit.Running?
    case Terminate(_) => c.pc.Polling? && c.pc.process < |s.processes|
  }

  predicate Enabled(s: State, step: Step) {
    match step
    case Deliver(id, _) => id in s.net
    case Exit(p, _) => p < |s.processes| && s.processes[p].exit.Running?
    case _ => IsToken(step.t) && ClientEnabled(s, step.t, step)
  }

  function AfterReply(s: State, t: Token, c: Client): Client
    requires Waiting(c.pc) && c.pc.id in s.done
  {
    var changed := s.done[c.pc.id];
    match c.pc
    case Sent(_, change, k) => if changed then c.(pc := Confirming(change, false, k)) else RaisedTo(c, k)
    case AcquireSent(_) => c.(pc := if changed then ConfirmingAcquire(false) else Idle)
    case _ => c.(pc := Idle)
  }

  /** Only the module's own error leads to a second look at the row; any other exception propagates. */
  function AfterFault(c: Client, guarded: bool): Client
    requires Waiting(c.pc)
  {
    match c.pc
    case Sent(_, change, k) => if guarded then c.(pc := Uncertain(change, k)) else RaisedTo(c, k)
    case AcquireSent(_) => c.(pc := if guarded then AcquireUncertain else Idle)
    case _ => c.(pc := Idle)
  }

  function AfterAbandon(c: Client): Client {
    match c.pc
    case Uncertain(_, k) => RaisedTo(c, k)
    case Confirming(_, _, k) => RaisedTo(c, k)
    case _ => c.(pc := Idle)
  }

  function AfterConfirm(c: Client): Client {
    match c.pc
    case Confirming(_, _, k) => Returned(c, k)
    case _ => c.(pc := Idle)
  }

  function Stop(ps: seq<Process>, p: nat): seq<Process>
    requires p < |ps|
  {
    if ps[p].exit.Running? then ps[p := ps[p].(exit := Failed)] else ps
  }

  function ClientApply(s: State, t: Token, step: Step): State
    requires ClientEnabled(s, t, step)
  {
    var c := At(s, t);
    match step
    case Crash(_) => With(s, t, FRESH_CLIENT)
    case ReadGuard(_) =>
      With(s, t, c.(armed := s.row.phase.Vacant? || (s.row.token == t && s.row.phase.Acquired? && !s.row.spawned)))
    case CallAcquire(_, identity, seen, now) =>
      With(s, t, c.(pc := AcquirePc(s.row, t, seen, now), identity := identity))
    case CallRenew(_, identity, _) =>
      With(s, t, c.(pc := Called(Keep(s.row.phase, s.row.spawned, true), ToCaller), identity := identity))
    case CallResume(_, identity) =>
      With(s, t, c.(pc := Called(Keep(s.row.phase, false, false), ToCaller), identity := identity))
    case CallRelease(_, allowRecovery) => Post(s, t, Release(t, allowRecovery), ReleaseSent(s.nextId))
    case CallApply(_, identity) => With(s, t, c.(pc := Called(MARK, ToMarkSpawned), identity := identity))
    case Emit(_, expiresAt) =>
      if c.pc.Called?
      then Post(s, t, Set(t, c.pc.change, expiresAt), Sent(s.nextId, c.pc.change, c.pc.k))
      else Post(s, t, Acquire(t, c.identity, expiresAt), AcquireSent(s.nextId))
    case Reply(_) => With(s, t, AfterReply(s, t, c))
    case Fault(_, guarded) => With(s, t, AfterFault(c, guarded))
    case Observe(_) =>
      With(s, t, if c.pc.Uncertain?
                 then Noting(c, s.row).(pc := Confirming(c.pc.change, true, c.pc.k))
                 else c.(pc := ConfirmingAcquire(true)))
    case Confirm(_, _) => With(s, t, AfterConfirm(c))
    case Abandon(_) => With(s, t, AfterAbandon(c))
    case Launch(_) =>
      With(s.(processes := s.processes + [Process(t, s.tenure, Running)]), t,
           c.(pc := Polling(|s.processes|), armed := false))
    case LaunchFails(_) => With(s, t, c.(pc := Called(RECOVER, ToRaise), armed := false))
    case Heartbeat(_, _) => With(s, t, c.(pc := Called(Keep(s.row.phase, s.row.spawned, true), ToPoll(c.pc.process))))
    case HeartbeatFails(_) => With(s, t, c.(pc := Called(RECOVER, ToRaise)))
    case SeeExit(_) =>
      With(s, t, c.(pc := if s.processes[c.pc.process].exit.ExitedZero?
                          then Called(VERIFY, ToVerified) else Called(RECOVER, ToRaise)))
    case Terminate(_) =>
      With(s.(processes := Stop(s.processes, c.pc.process)), t, c.(pc := Called(RECOVER, ToRaise)))
  }

  function Apply(s: State, step: Step): State
    requires Enabled(s, step)
  {
    match step
    case Deliver(id, now) => Delivered(s, id, now)
    case Exit(p, zero) =>
      s.(processes := s.processes[p := s.processes[p].(exit := if zero then ExitedZero else Failed)])
    case _ => ClientApply(s, step.t, step)
  }

  // ----- runs

  predicate Init(s: State) {
    s == State(VACANT_ROW, 0, map[], map[], 0, [], map[])
  }

  ghost predicate Next(s: State, s': State) {
    exists step :: Enabled(s, step) && s' == Apply(s, step)
  }

  ghost predicate IsRun(run: seq<State>) {
    && |run| > 0
    && Init(run[0])
    && forall i :: 0 <= i < |run| - 1 ==> Next(run[i], run[i + 1])
  }
}
