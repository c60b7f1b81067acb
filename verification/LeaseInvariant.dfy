/** The inductive invariant of the lease protocol: one lemma for each kind of step. */
module LeaseInvariant {
  import opened LeaseRow
  import opened LeaseProtocol

  // ----- shapes

  predicate PairOk(phase: Phase, spawned: bool) {
    && (phase in {Vacant, Acquired, Verifying} ==> !spawned)
    && (phase == RecoveryRequired ==> spawned)
  }

  predicate RowShaped(row: Row) {
    PairOk(row.phase, row.spawned) && (row.phase.Vacant? <==> !IsToken(row.token))
  }

  /** Renewals write back a phase, and only those of a resumed or expired lease ignore the expiry; the other
      changes are the claim, the acceptance and the surrender of a migration. */
  predicate ShapedChange(c: Change) {
    || (c.from == {c.to} && c.to != Vacant && PairOk(c.to, c.spawned)
        && (c.unexpiredOnly || (c.to in {Acquired, Verifying} && !c.spawned)))
    || c == Change({Acquired}, Migrating, false, true)
    || c == Change({Migrating}, Verifying, false, false)
    || c == Change({Migrating}, RecoveryRequired, true, false)
  }

  predicate ShapedStatement(st: Statement) {
    IsToken(st.token) && (st.Set? ==> ShapedChange(st.change))
  }

  predicate IsVerify(st: Statement) {
    st.Set? && st.change == VERIFY
  }

  // ----- what holds of one token

  predicate Holds(s: State, t: Token) {
    s.row.token == t && (s.row.phase.Migrating? || s.row.phase.RecoveryRequired?)
  }

  ghost predicate NoVerify(s: State, t: Token) {
    forall id | id in s.net :: s.net[id].token == t ==> !IsVerify(s.net[id])
  }

  ghost predicate AllFinished(s: State, t: Token) {
    forall p | 0 <= p < |s.processes| :: s.processes[p].token == t ==> !s.processes[p].Unfinished()
  }

  ghost predicate NotLaunched(s: State, t: Token) {
    s.row.token == t ==> forall p | 0 <= p < |s.processes| :: s.processes[p].tenure != s.tenure
  }

  ghost predicate Clear(s: State, t: Token) {
    NoVerify(s, t) && AllFinished(s, t) && NotLaunched(s, t)
  }

  ghost predicate Watches(s: State, t: Token, c: Client, p: nat) {
    && !c.armed && Holds(s, t) && NoVerify(s, t)
    && p < |s.processes| && s.processes[p].token == t && s.processes[p].tenure == s.tenure
  }

  ghost predicate KontOk(s: State, t: Token, c: Client, change: Change, k: Kont) {
    && ShapedChange(change)
    && match k
       case ToCaller => change.from == {change.to}
       case ToMarkSpawned => change == MARK && c.armed
       case ToLaunch => change == MARK_SPAWNED && c.armed && Holds(s, t)
       case ToPoll(p) => change.from == {change.to} && Watches(s, t, c, p)
       case ToVerified => change == VERIFY && !c.armed
       case ToRaise => change == RECOVER && !c.armed
  }

  ghost predicate PcOk(s: State, t: Token, c: Client) {
    match c.pc
    case Idle => true
    case AcquireCalled => true
    case AcquireSent(id) =>
      && (id in s.net || id in s.done)
      && (id in s.net ==> s.net[id].Acquire? && s.net[id].token == t)
      && (id in s.done && s.done[id] ==> (Acquired, false) in c.during)
    case AcquireUncertain => true
    case ConfirmingAcquire(_) => true
    case Called(change, k) =>
      && KontOk(s, t, c, change, k)
      && (k.ToVerified? ==> Holds(s, t) && NoVerify(s, t) && AllFinished(s, t))
    case Sent(id, change, k) =>
      && KontOk(s, t, c, change, k)
      && (id in s.net || id in s.done)
      && (id in s.net ==> s.net[id].Set? && s.net[id].token == t && s.net[id].change == change)
      && (id in s.done && s.done[id] ==>
            (change.to, change.spawned) in c.during && (k.ToMarkSpawned? ==> Holds(s, t)))
    case Uncertain(change, k) => KontOk(s, t, c, change, k)
    case Confirming(change, _, k) =>
      && KontOk(s, t, c, change, k)
      && (change.to, change.spawned) in c.during && (k.ToMarkSpawned? ==> Holds(s, t))
    case ReleaseSent(id) =>
      && (id in s.net || id in s.done)
      && (id in s.net ==> s.net[id].Release? && s.net[id].token == t)
      && (id in s.done && s.done[id] ==> (Vacant, false) in c.during)
    case Launching => c.armed && Holds(s, t) && (Migrating, true) in c.during
    case Polling(p) => Watches(s, t, c, p)
  }

  ghost predicate ClientOk(s: State, t: Token, c: Client) {
    IsToken(t) && (c.armed ==> Clear(s, t)) && PcOk(s, t, c)
  }

  // ----- the invariant

  ghost predicate Numbered(s: State) {
    && (forall id | id in s.net :: id < s.nextId && id !in s.done)
    && (forall id | id in s.done :: id < s.nextId)
  }

  ghost predicate StatementsOk(s: State) {
    && (forall id | id in s.net :: ShapedStatement(s.net[id]))
    && (forall id | id in s.net && IsVerify(s.net[id]) ::
          Holds(s, s.net[id].token) && AllFinished(s, s.net[id].token))
    && (forall i, j | i in s.net && j in s.net && IsVerify(s.net[i]) && IsVerify(s.net[j]) ::
          s.net[i].token == s.net[j].token ==> i == j)
  }

  ghost predicate ProcessesOk(s: State) {
    && (forall p | 0 <= p < |s.processes| :: ProcessOk(s, s.processes[p]))
    && (forall p, q | 0 <= p < q < |s.processes| :: s.processes[p].tenure != s.processes[q].tenure)
  }

  predicate ProcessOk(s: State, p: Process) {
    && IsToken(p.token) && p.tenure <= s.tenure
    && (p.Unfinished() ==> p.tenure == s.tenure && Holds(s, p.token))
    && (p.tenure == s.tenure ==> !s.row.phase.Acquired? && (s.row.phase.Vacant? || s.row.token == p.token))
  }

  ghost predicate ClientsOk(s: State) {
    forall t | t in s.clients :: ClientOk(s, t, s.clients[t])
  }

  ghost predicate Inv(s: State) {
    && RowShaped(s.row) && Numbered(s) && StatementsOk(s) && ProcessesOk(s) && ClientsOk(s)
  }

  // ----- steps

  lemma ClientKnown(s: State, t: Token)
    requires Inv(s) && IsToken(t)
    ensures ClientOk(s, t, At(s, t))
  {}

  /** What is required of an operator depends on its own state and on what is outside of operators. */
  lemma SameOutside(s: State, s': State, u: Token, c: Client)
    requires s'.(clients := s.clients) == s && ClientOk(s, u, c)
    ensures ClientOk(s', u, c)
  {}

  lemma SameOutsideWorld(s: State, s': State)
    requires s'.(clients := s.clients) == s
    requires RowShaped(s.row) && Numbered(s) && StatementsOk(s) && ProcessesOk(s)
    ensures RowShaped(s'.row) && Numbered(s') && StatementsOk(s') && ProcessesOk(s')
  {}

  /** A step of one operator that leaves the row, the processes and the statements alone. */
  lemma LocalStep(s: State, t: Token, c: Client)
    requires Inv(s) && ClientOk(s, t, c)
    ensures Inv(With(s, t, c))
  {
    hide ClientOk, StatementsOk, ProcessesOk, Numbered, RowShaped;
    var s' := With(s, t, c);
    SameOutsideWorld(s, s');
    forall u | u in s'.clients ensures ClientOk(s', u, s'.clients[u]) {
      SameOutside(s, s', u, s'.clients[u]);
    }
  }

  /** What a statement must satisfy to be sent by the operator of `t`. */
  ghost predicate Sendable(s: State, t: Token, st: Statement) {
    && st.token == t && ShapedStatement(st)
    && (IsVerify(st) ==> Holds(s, t) && AllFinished(s, t) && NoVerify(s, t) && !At(s, t).armed)
  }

  ghost predicate PostedPc(s: State, t: Token, st: Statement, pc: Pc) {
    match pc
    case Sent(id, change, k) =>
      && id == s.nextId && st.Set? && st.change == change
      && KontOk(s, t, At(s, t), change, k) && (IsVerify(st) ==> k.ToVerified?)
    case AcquireSent(id) => id == s.nextId && st.Acquire?
    case ReleaseSent(id) => id == s.nextId && st.Release?
    case _ => false
  }

  lemma PostStatements(s: State, t: Token, st: Statement, pc: Pc)
    requires Inv(s) && IsToken(t) && Sendable(s, t, st)
    ensures var s' := Post(s, t, st, pc); Numbered(s') && StatementsOk(s') && ProcessesOk(s')
  {
    var s' := Post(s, t, st, pc);
    forall p | 0 <= p < |s'.processes| ensures ProcessOk(s', s'.processes[p]) {
      assert ProcessOk(s, s.processes[p]);
    }
    forall id | id in s'.net && IsVerify(s'.net[id])
      ensures Holds(s', s'.net[id].token) && AllFinished(s', s'.net[id].token)
    {
      assert AllFinished(s, s'.net[id].token);
    }
  }

  lemma PostNoVerify(s: State, t: Token, st: Statement, pc: Pc, u: Token)
    requires st.token != u && NoVerify(s, u)
    ensures NoVerify(Post(s, t, st, pc), u)
  {}

  lemma PostPc(s: State, t: Token, st: Statement, pc: Pc, u: Token, c: Client)
    requires Numbered(s) && st.token != u && PcOk(s, u, c)
    requires NoVerify(s, u) ==> NoVerify(Post(s, t, st, pc), u)
    ensures PcOk(Post(s, t, st, pc), u, c)
  {
    hide NoVerify;
  }

  lemma PostOther(s: State, t: Token, st: Statement, pc: Pc, u: Token)
    requires Inv(s) && IsToken(t) && Sendable(s, t, st) && u in s.clients && u != t
    ensures ClientOk(Post(s, t, st, pc), u, s.clients[u])
  {
    hide PcOk, StatementsOk, ProcessesOk, NoVerify;
    assert ClientOk(s, u, s.clients[u]);
    if NoVerify(s, u) { PostNoVerify(s, t, st, pc, u); }
    PostPc(s, t, st, pc, u, s.clients[u]);
  }

  lemma PostSelf(s: State, t: Token, st: Statement, pc: Pc)
    requires Inv(s) && IsToken(t) && Sendable(s, t, st) && PostedPc(s, t, st, pc)
    ensures var s' := Post(s, t, st, pc); ClientOk(s', t, s'.clients[t])
  {
    var s' := Post(s, t, st, pc);
    ClientKnown(s, t);
    assert !IsVerify(st) && NoVerify(s, t) ==> NoVerify(s', t);
    if pc.Sent? {
      assert KontOk(s, t, At(s, t), pc.change, pc.k);
      assert KontOk(s', t, s'.clients[t], pc.change, pc.k);
    }
  }

  lemma PostStep(s: State, t: Token, st: Statement, pc: Pc)
    requires Inv(s) && IsToken(t) && Sendable(s, t, st) && PostedPc(s, t, st, pc)
    ensures Inv(Post(s, t, st, pc))
  {
    var s' := Post(s, t, st, pc);
    PostStatements(s, t, st, pc);
    forall u | u in s'.clients ensures ClientOk(s', u, s'.clients[u]) {
      if u == t { PostSelf(s, t, st, pc); } else { PostOther(s, t, st, pc, u); }
    }
  }

  // Delivery of one statement.

  lemma DeliveredRow(s: State, id: nat, now: int)
    requires Inv(s) && id in s.net
    ensures RowShaped(Delivered(s, id, now).row)
  {}

  /** Only the holder's own acceptance moves a row out of migrating or recovery_required. */
  lemma HoldsStable(s: State, id: nat, now: int, u: Token)
    requires Inv(s) && id in s.net && Holds(s, u)
    ensures var s' := Delivered(s, id, now);
            s'.tenure == s.tenure && (Holds(s', u) || (s.net[id].token == u && IsVerify(s.net[id])))
  {
    assert ShapedStatement(s.net[id]);
  }

  lemma DeliveredStatements(s: State, id: nat, now: int)
    requires Inv(s) && id in s.net
    ensures StatementsOk(Delivered(s, id, now)) && Numbered(Delivered(s, id, now))
  {
    var s' := Delivered(s, id, now);
    forall i | i in s'.net && IsVerify(s'.net[i])
      ensures Holds(s', s'.net[i].token) && AllFinished(s', s'.net[i].token)
    {
      HoldsStable(s, id, now, s.net[i].token);
      assert AllFinished(s, s.net[i].token);
    }
  }

  lemma DeliveredProcesses(s: State, id: nat, now: int)
    requires Inv(s) && id in s.net
    ensures ProcessesOk(Delivered(s, id, now))
  {
    var s' := Delivered(s, id, now);
    assert ShapedStatement(s.net[id]);
    assert IsVerify(s.net[id]) ==> AllFinished(s, s.net[id].token);
    forall p | 0 <= p < |s'.processes| ensures ProcessOk(s', s'.processes[p]) {
      var q := s.processes[p];
      assert ProcessOk(s, q);
      if q.Unfinished() { HoldsStable(s, id, now, q.token); }
    }
  }

  lemma DeliveredClear(s: State, id: nat, now: int, t: Token)
    requires Inv(s) && id in s.net && IsToken(t) && Clear(s, t)
    ensures Clear(Delivered(s, id, now), t)
  {
    var s' := Delivered(s, id, now);
    assert NoVerify(s', t);
    assert forall p | 0 <= p < |s.processes| :: ProcessOk(s, s.processes[p]);
    if s'.row.token == t {
      assert s'.tenure != s.tenure || s.row.token == t || s'.row == s.row;
    }
  }

  lemma DeliveredWatches(s: State, id: nat, now: int, t: Token, c: Client, c': Client, p: nat)
    requires Inv(s) && id in s.net && Watches(s, t, c, p) && c'.armed == c.armed
    ensures Watches(Delivered(s, id, now), t, c', p)
  {
    HoldsStable(s, id, now, t);
  }

  lemma DeliveredKont(s: State, id: nat, now: int, t: Token, c: Client, c': Client, change: Change, k: Kont)
    requires Inv(s) && id in s.net && ClientOk(s, t, c) && KontOk(s, t, c, change, k)
    requires c' == c || c' == Noting(c, Delivered(s, id, now).row)
    ensures KontOk(Delivered(s, id, now), t, c', change, k)
  {
    match k
    case ToLaunch => HoldsStable(s, id, now, t);
    case ToPoll(p) => DeliveredWatches(s, id, now, t, c, c', p);
    case _ =>
  }

  lemma DeliveredMark(s: State, id: nat, now: int, t: Token, c: Client, change: Change)
    requires Inv(s) && id in s.net && Holds(s, t) && ClientOk(s, t, c) && KontOk(s, t, c, change, ToMarkSpawned)
    ensures Holds(Delivered(s, id, now), t)
  {
    HoldsStable(s, id, now, t);
  }

  lemma DeliveredVerified(s: State, id: nat, now: int, t: Token)
    requires Inv(s) && id in s.net && Holds(s, t) && NoVerify(s, t) && AllFinished(s, t)
    ensures var s' := Delivered(s, id, now); Holds(s', t) && NoVerify(s', t) && AllFinished(s', t)
  {
    HoldsStable(s, id, now, t);
    hide Holds, IsVerify;
  }

  /** A delivery touches an operator only by what it records as shown. */
  lemma DeliveredClient(s: State, id: nat, now: int, t: Token)
    requires id in s.net
    ensures var s' := Delivered(s, id, now);
            (At(s', t) == At(s, t) || At(s', t) == Noting(At(s, t), s'.row)) && At(s, t).during <= At(s', t).during
    ensures At(Delivered(s, id, now), t).pc == At(s, t).pc
  {}

  /** A statement of the operator that is delivered now shows what it wrote. */
  lemma DeliveredAnswer(s: State, id: nat, now: int, t: Token, i: nat)
    requires Inv(s) && id in s.net && (i in s.net || i in s.done)
    ensures var s' := Delivered(s, id, now);
            && (i in s'.net || i in s'.done)
            && (i in s'.net ==> i in s.net && s'.net[i] == s.net[i])
            && (i in s'.done && i != id ==> i in s.done && s'.done[i] == s.done[i])
            && (i == id && s'.done[i] && s.net[i].token == t ==>
                  var row := Written(s.row, s.net[i]); (row.phase, row.spawned) in At(s', t).during)
  {}

  lemma DeliveredPc(s: State, id: nat, now: int, t: Token, c: Client)
    requires Inv(s) && id in s.net && ClientOk(s, t, c) && c == At(s, t)
    ensures var s' := Delivered(s, id, now); PcOk(s', t, At(s', t))
  {
    var s' := Delivered(s, id, now);
    var c' := At(s', t);
    DeliveredClient(s, id, now, t);
    match c.pc
    case Called(change, k) => DeliveredCalled(s, id, now, t, c, change, k);
    case Sent(i, change, k) => DeliveredSent(s, id, now, t, c, i, change, k);
    case Uncertain(change, k) => DeliveredKont(s, id, now, t, c, c', change, k);
    case Confirming(change, _, k) =>
      DeliveredKont(s, id, now, t, c, c', change, k);
      if k.ToMarkSpawned? { DeliveredMark(s, id, now, t, c, change); }
    case Launching => HoldsStable(s, id, now, t);
    case Polling(p) => DeliveredWatches(s, id, now, t, c, c', p);
    case AcquireSent(i) => DeliveredAnswer(s, id, now, t, i);
    case ReleaseSent(i) => DeliveredAnswer(s, id, now, t, i);
    case _ =>
  }

  lemma DeliveredCalled(s: State, id: nat, now: int, t: Token, c: Client, change: Change, k: Kont)
    requires Inv(s) && id in s.net && ClientOk(s, t, c) && c == At(s, t) && c.pc == Called(change, k)
    ensures var s' := Delivered(s, id, now); PcOk(s', t, At(s', t))
  {
    DeliveredClient(s, id, now, t);
    DeliveredKont(s, id, now, t, c, At(Delivered(s, id, now), t), change, k);
    if k.ToVerified? { DeliveredVerified(s, id, now, t); }
    hide Delivered, Inv;
  }

  lemma DeliveredSent(s: State, id: nat, now: int, t: Token, c: Client, i: nat, change: Change, k: Kont)
    requires Inv(s) && id in s.net && ClientOk(s, t, c) && c == At(s, t) && c.pc == Sent(i, change, k)
    ensures var s' := Delivered(s, id, now); PcOk(s', t, At(s', t))
  {
    var s' := Delivered(s, id, now);
    DeliveredClient(s, id, now, t);
    DeliveredKont(s, id, now, t, c, At(s', t), change, k);
    DeliveredAnswer(s, id, now, t, i);
    if k.ToMarkSpawned? { SentMark(s, id, now, t, c, i, change); }
    hide Inv, KontOk;
  }

  /** The claim of a migration that is answered with success holds the row. */
  lemma SentMark(s: State, id: nat, now: int, t: Token, c: Client, i: nat, change: Change)
    requires Inv(s) && id in s.net && ClientOk(s, t, c) && c == At(s, t) && c.pc == Sent(i, change, ToMarkSpawned)
    ensures var s' := Delivered(s, id, now); i in s'.done && s'.done[i] ==> Holds(s', t)
  {
    if Holds(s, t) { DeliveredMark(s, id, now, t, c, change); }
  }

  lemma DeliverStep(s: State, id: nat, now: int)
    requires Inv(s) && id in s.net
    ensures Inv(Delivered(s, id, now))
  {
    var s' := Delivered(s, id, now);
    DeliveredRow(s, id, now);
    DeliveredStatements(s, id, now);
    DeliveredProcesses(s, id, now);
    forall t | t in s'.clients ensures ClientOk(s', t, s'.clients[t]) {
      assert ShapedStatement(s.net[id]);
      ClientKnown(s, t);
      DeliveredPc(s, id, now, t, At(s, t));
      if At(s, t).armed { DeliveredClear(s, id, now, t); }
    }
  }

  // Processes.

  ghost predicate Later(ps: seq<Process>, qs: seq<Process>) {
    && |ps| == |qs|
    && forall p | 0 <= p < |ps| ::
         qs[p] == ps[p] || (ps[p].exit.Running? && qs[p] == ps[p].(exit := qs[p].exit))
  }

  lemma LaterFinished(s: State, qs: seq<Process>, t: Token)
    requires Later(s.processes, qs) && AllFinished(s, t)
    ensures AllFinished(s.(processes := qs), t)
  {
    forall p | 0 <= p < |qs| && qs[p].token == t ensures !qs[p].Unfinished() {
      assert !s.processes[p].Unfinished();
    }
  }

  lemma LaterProcesses(s: State, qs: seq<Process>)
    requires ProcessesOk(s) && Later(s.processes, qs)
    ensures ProcessesOk(s.(processes := qs))
  {
    forall p | 0 <= p < |qs| ensures ProcessOk(s.(processes := qs), qs[p]) {
      assert ProcessOk(s, s.processes[p]);
    }
  }

  lemma LaterStatements(s: State, qs: seq<Process>)
    requires StatementsOk(s) && Numbered(s) && Later(s.processes, qs)
    ensures StatementsOk(s.(processes := qs)) && Numbered(s.(processes := qs))
  {
    hide AllFinished, Later;
    forall id | id in s.net && IsVerify(s.net[id]) ensures AllFinished(s.(processes := qs), s.net[id].token) {
      LaterFinished(s, qs, s.net[id].token);
    }
  }

  lemma LaterClient(s: State, qs: seq<Process>, t: Token, c: Client)
    requires Later(s.processes, qs) && ClientOk(s, t, c)
    ensures ClientOk(s.(processes := qs), t, c)
  {
    hide AllFinished;
    if AllFinished(s, t) { LaterFinished(s, qs, t); }
    assert NoVerify(s, t) ==> NoVerify(s.(processes := qs), t);
  }

  /** Processes ending does not disturb anything else. */
  lemma ExitStep(s: State, qs: seq<Process>)
    requires Inv(s) && Later(s.processes, qs)
    ensures Inv(s.(processes := qs))
  {
    hide ClientOk, StatementsOk, ProcessesOk, Numbered, RowShaped, Later;
    LaterProcesses(s, qs);
    LaterStatements(s, qs);
    forall t | t in s.clients ensures ClientOk(s.(processes := qs), t, s.clients[t]) {
      LaterClient(s, qs, t, s.clients[t]);
    }
  }

  lemma LaunchProcesses(s: State, t: Token)
    requires Inv(s) && IsToken(t) && At(s, t).pc.Launching?
    ensures ProcessesOk(ClientApply(s, t, Launch(t)))
  {
    ClientKnown(s, t);
    var s' := ClientApply(s, t, Launch(t));
    assert s'.processes == s.processes + [Process(t, s.tenure, Running)];
    forall p | 0 <= p < |s'.processes| ensures ProcessOk(s', s'.processes[p]) {
      if p < |s.processes| { assert ProcessOk(s, s.processes[p]); }
    }
  }

  lemma LaunchOther(s: State, t: Token, u: Token)
    requires Inv(s) && IsToken(t) && At(s, t).pc.Launching? && u in s.clients && u != t
    ensures ClientOk(ClientApply(s, t, Launch(t)), u, s.clients[u])
  {
    ClientKnown(s, t);
    var s' := ClientApply(s, t, Launch(t));
    assert ClientOk(s, u, s.clients[u]);
    assert NoVerify(s, u) ==> NoVerify(s', u);
    assert AllFinished(s, u) ==> AllFinished(s', u);
    assert s'.row.token != u;
  }

  lemma LaunchSelf(s: State, t: Token)
    requires Inv(s) && IsToken(t) && At(s, t).pc.Launching?
    ensures var s' := ClientApply(s, t, Launch(t)); ClientOk(s', t, s'.clients[t])
  {
    ClientKnown(s, t);
    assert NoVerify(ClientApply(s, t, Launch(t)), t);
  }

  lemma LaunchStatements(s: State, t: Token)
    requires Inv(s) && IsToken(t) && At(s, t).pc.Launching?
    ensures var s' := ClientApply(s, t, Launch(t)); RowShaped(s'.row) && Numbered(s') && StatementsOk(s')
  {
    ClientKnown(s, t);
    assert forall id | id in s.net :: !IsVerify(s.net[id]);
  }

  lemma LaunchStep(s: State, t: Token)
    requires Inv(s) && IsToken(t) && At(s, t).pc.Launching?
    ensures Inv(ClientApply(s, t, Launch(t)))
  {
    hide ClientOk, ProcessesOk, StatementsOk, Numbered, RowShaped;
    var s' := ClientApply(s, t, Launch(t));
    LaunchStatements(s, t);
    LaunchProcesses(s, t);
    forall u | u in s'.clients ensures ClientOk(s', u, s'.clients[u]) {
      if u == t { LaunchSelf(s, t); } else { LaunchOther(s, t, u); }
    }
  }

  // Operators.

  lemma ReadGuardStep(s: State, t: Token)
    requires Inv(s) && IsToken(t) && At(s, t).pc.Idle?
    ensures Inv(ClientApply(s, t, ReadGuard(t)))
  {
    ClientKnown(s, t);
    assert forall p | 0 <= p < |s.processes| :: ProcessOk(s, s.processes[p]);
    if s.row.phase.Vacant? || (s.row.token == t && s.row.phase.Acquired?) {
      assert NoVerify(s, t);
      assert AllFinished(s, t);
      assert NotLaunched(s, t);
    }
    LocalStep(s, t, ClientApply(s, t, ReadGuard(t)).clients[t]);
  }

  lemma SeeExitStep(s: State, t: Token)
    requires Inv(s) && IsToken(t) && ClientEnabled(s, t, SeeExit(t))
    ensures Inv(ClientApply(s, t, SeeExit(t)))
  {
    ClientKnown(s, t);
    var c := At(s, t);
    var p := c.pc.process;
    if s.processes[p].exit.ExitedZero? {
      forall q | 0 <= q < |s.processes| && s.processes[q].token == t ensures !s.processes[q].Unfinished() {
        assert ProcessOk(s, s.processes[q]);
        assert p < q || q < p || p == q;
      }
    }
    LocalStep(s, t, ClientApply(s, t, SeeExit(t)).clients[t]);
  }

  lemma EmitStep(s: State, t: Token, expiresAt: int)
    requires Inv(s) && IsToken(t) && ClientEnabled(s, t, Emit(t, expiresAt))
    ensures Inv(ClientApply(s, t, Emit(t, expiresAt)))
  {
    ClientKnown(s, t);
    var c := At(s, t);
    if c.pc.Called? {
      assert KontOk(s, t, c, c.pc.change, c.pc.k);
      PostStep(s, t, Set(t, c.pc.change, expiresAt), Sent(s.nextId, c.pc.change, c.pc.k));
    } else {
      PostStep(s, t, Acquire(t, c.identity, expiresAt), AcquireSent(s.nextId));
    }
  }

  lemma ReleaseStep(s: State, t: Token, allowRecovery: bool)
    requires Inv(s) && IsToken(t) && ClientEnabled(s, t, CallRelease(t, allowRecovery))
    ensures Inv(ClientApply(s, t, CallRelease(t, allowRecovery)))
  {
    hide Inv;
    PostStep(s, t, Release(t, allowRecovery), ReleaseSent(s.nextId));
  }

  lemma RaisedOk(s: State, t: Token, c: Client, change: Change, k: Kont)
    requires Inv(s) && ClientOk(s, t, c) && KontOk(s, t, c, change, k)
    ensures ClientOk(s, t, RaisedTo(c, k))
  {}

  lemma ReturnedOk(s: State, t: Token, c: Client, change: Change, k: Kont)
    requires Inv(s) && ClientOk(s, t, c) && KontOk(s, t, c, change, k) && (k.ToMarkSpawned? ==> Holds(s, t))
    requires (change.to, change.spawned) in c.during
    ensures ClientOk(s, t, Returned(c, k))
  {}

  lemma ReplyStep(s: State, t: Token)
    requires Inv(s) && IsToken(t) && ClientEnabled(s, t, Reply(t))
    ensures Inv(ClientApply(s, t, Reply(t)))
  {
    ClientKnown(s, t);
    var c := At(s, t);
    match c.pc {
      case Sent(_, change, k) => RaisedOk(s, t, c, change, k);
      case _ =>
    }
    LocalStep(s, t, AfterReply(s, t, c));
  }

  lemma FaultStep(s: State, t: Token, guarded: bool)
    requires Inv(s) && IsToken(t) && ClientEnabled(s, t, Fault(t, guarded))
    ensures Inv(ClientApply(s, t, Fault(t, guarded)))
  {
    ClientKnown(s, t);
    var c := At(s, t);
    match c.pc {
      case Sent(_, change, k) => RaisedOk(s, t, c, change, k);
      case _ =>
    }
    LocalStep(s, t, AfterFault(c, guarded));
  }

  lemma ReadingStep(s: State, t: Token, step: Step)
    requires Inv(s) && IsToken(t) && ClientEnabled(s, t, step)
    requires step.Observe? || step.Confirm? || step.Abandon?
    ensures Inv(ClientApply(s, t, step))
  {
    hide ClientsOk, StatementsOk, ProcessesOk;
    ClientKnown(s, t);
    var c := At(s, t);
    var c' := ClientApply(s, t, step).clients[t];
    match c.pc {
      case Uncertain(change, k) =>
        RaisedOk(s, t, c, change, k);
        if step.Observe? {
          assert Noting(c, s.row).armed == c.armed;
          assert KontOk(s, t, c', change, k);
        }
      case Confirming(change, strict, k) =>
        RaisedOk(s, t, c, change, k);
        if step.Confirm? { ReturnedOk(s, t, c, change, k); }
      case _ =>
    }
    LocalStep(s, t, c');
  }

  lemma CallStep(s: State, t: Token, step: Step)
    requires Inv(s) && IsToken(t) && ClientEnabled(s, t, step)
    requires step.CallAcquire? || step.CallRenew? || step.CallResume? || step.CallApply? || step.Heartbeat?
    ensures Inv(ClientApply(s, t, step))
  {
    hide ClientsOk, StatementsOk, ProcessesOk;
    ClientKnown(s, t);
    LocalStep(s, t, ClientApply(s, t, step).clients[t]);
  }

  lemma OtherStep(s: State, t: Token, step: Step)
    requires Inv(s) && IsToken(t) && ClientEnabled(s, t, step)
    requires step.Crash? || step.LaunchFails? || step.HeartbeatFails?
    ensures Inv(ClientApply(s, t, step))
  {
    ClientKnown(s, t);
    LocalStep(s, t, ClientApply(s, t, step).clients[t]);
  }

  lemma TerminateStep(s: State, t: Token)
    requires Inv(s) && IsToken(t) && ClientEnabled(s, t, Terminate(t))
    ensures Inv(ClientApply(s, t, Terminate(t)))
  {
    ClientKnown(s, t);
    var c := At(s, t);
    var c' := c.(pc := Called(RECOVER, ToRaise));
    LocalStep(s, t, c');
    ExitStep(With(s, t, c'), Stop(s.processes, c.pc.process));
  }

  lemma StepKeepsInv(s: State, step: Step)
    requires Inv(s) && Enabled(s, step)
    ensures Inv(Apply(s, step))
  {
    hide Inv, ClientApply, Delivered;
    match step
    case Deliver(id, now) => DeliverStep(s, id, now);
    case Exit(p, zero) =>
      ExitStep(s, s.processes[p := s.processes[p].(exit := if zero then ExitedZero else Failed)]);
    case ReadGuard(t) => ReadGuardStep(s, t);
    case CallRelease(t, allow) => ReleaseStep(s, t, allow);
    case Emit(t, e) => EmitStep(s, t, e);
    case Reply(t) => ReplyStep(s, t);
    case Fault(t, guarded) => FaultStep(s, t, guarded);
    case Observe(t) => ReadingStep(s, t, step);
    case Confirm(t, _) => ReadingStep(s, t, step);
    case Abandon(t) => ReadingStep(s, t, step);
    case Launch(t) => LaunchStep(s, t);
    case SeeExit(t) => SeeExitStep(s, t);
    case Terminate(t) => TerminateStep(s, t);
    case Crash(t) => OtherStep(s, t, step);
    case LaunchFails(t) => OtherStep(s, t, step);
    case HeartbeatFails(t) => OtherStep(s, t, step);
    case _ => CallStep(s, step.t, step);
  }

  lemma {:induction false} RunKeepsInv(run: seq<State>, i: nat)
    requires IsRun(run) && i < |run|
    ensures Inv(run[i])
  {
    if i > 0 {
      RunKeepsInv(run, i - 1);
      assert Next(run[i - 1], run[i]);
      var step :| Enabled(run[i - 1], step) && run[i] == Apply(run[i - 1], step);
      StepKeepsInv(run[i - 1], step);
    }
  }
}
