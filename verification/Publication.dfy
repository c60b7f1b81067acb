/**
  Running the scripts of `Projection` against one database: any number of bundles with different
  generation ids, their statements interleaved, single statements lost, scripts abandoned.
 */
module Publication {
  import opened Outcomes
  import opened ProjectionStore
  import opened Projection

  datatype Db = Db(generations: map<string, Status>, entries: seq<Entry>, active: Option<string>)

  /** A script under way: its bundle and how many statements are behind it. */
  datatype Job = Job(bundle: Bundle, pos: nat)

  datatype State = State(db: Db, jobs: map<string, Job>)

  datatype Step = Start(bundle: Bundle) | Execute(generation: string) | Lose(generation: string)

  // ----- statements

  ghost predicate CountsHold(db: Db, g: string, counts: map<Table, nat>) {
    forall t: Table :: t in counts && |RowsOf(db.entries, t, g)| == counts[t]
  }

  /** `cursor_guard`; without a cursor it is `1=1`. */
  ghost predicate CursorAllows(db: Db, cursor: Option<int>) {
    cursor.Some? && db.active.Some? ==>
      var meta := RowsOf(db.entries, OpsProjectionMetadata, db.active.value);
      exists i | 0 <= i < |meta| :: Aligned(meta[i].cursors) && meta[i].cursors.applied.value <= cursor.value
  }

  /** The effect of one statement; an insert that violates the key of `ops_projection_generation` has none. */
  ghost function Effect(db: Db, x: Statement): Db {
    match x
    case Begin => db
    case Commit => db
    case OpenGeneration(g) => if g in db.generations then db else db.(generations := db.generations[g := Open])
    case Insert(table, row) => db.(entries := db.entries + [Entry(table, row)])
    case Seal(g, counts) =>
      if g in db.generations && db.generations[g] == Open && CountsHold(db, g, counts)
      then db.(generations := db.generations[g := Sealed]) else db
    case Activate(g, counts, cursor) =>
      if g in db.generations && db.generations[g] == Sealed && CountsHold(db, g, counts) && CursorAllows(db, cursor)
      then db.(active := Some(g)) else db
  }

  // ----- runs

  ghost predicate Init(s: State) {
    s == State(Db(map[], [], None), map[])
  }

  ghost predicate Running(s: State, g: string) {
    g in s.jobs && Rendered(s.jobs[g].bundle) && s.jobs[g].pos < |Script(s.jobs[g].bundle)|
  }

  ghost predicate Next(s: State, step: Step, s': State) {
    match step
    case Start(b) => Rendered(b) && b.generation !in s.jobs && s' == s.(jobs := s.jobs[b.generation := Job(b, 0)])
    case Execute(g) =>
      Running(s, g)
          && s' == State(Effect(s.db, Script(s.jobs[g].bundle)[s.jobs[g].pos]), s.jobs[g := Job(s.jobs[g].bundle,
              s.jobs[g].pos + 1)])
    case Lose(g) =>
      Running(s, g) && s' == s.(jobs := s.jobs[g := Job(s.jobs[g].bundle, s.jobs[g].pos + 1)])
  }

  ghost predicate IsRun(run: seq<State>, steps: seq<Step>) {
    |run| == |steps| + 1 && Init(run[0]) && forall i | 0 <= i < |steps| :: Next(run[i], steps[i], run[i + 1])
  }

  // ----- the invariant

  ghost predicate JobOk(g: string, job: Job) {
    Rendered(job.bundle) && job.bundle.generation == g && job.pos <= |Script(job.bundle)|
  }

  /** Rows come from the part of the generation's own script that is behind it. */
  ghost predicate RowsFrom(s: State, g: string, t: Table)
    requires g in s.jobs ==> JobOk(g, s.jobs[g])
  {
    if g in s.jobs
    then multiset(RowsOf(s.db.entries, t, g)) <= multiset(Inserted(Script(s.jobs[g].bundle)[..s.jobs[g].pos], t))
    else RowsOf(s.db.entries, t, g) == []
  }

  ghost predicate SealBehind(script: seq<Statement>, pos: nat) {
    exists i | 0 <= i < pos && i < |script| :: script[i].Seal?
  }

  ghost predicate SealedOk(s: State, g: string)
    requires g in s.jobs && JobOk(g, s.jobs[g])
  {
    CountsHold(s.db, g, Counts(s.jobs[g].bundle)) && SealBehind(Script(s.jobs[g].bundle), s.jobs[g].pos)
  }

  ghost predicate Inv(s: State) {
    && (forall g | g in s.jobs :: JobOk(g, s.jobs[g]))
    && (forall g, t: Table :: RowsFrom(s, g, t))
    && (forall g | g in s.db.generations :: g in s.jobs && (s.db.generations[g] == Sealed ==> SealedOk(s, g)))
    && (s.db.active.Some? ==> s.db.active.value in s.db.generations && s.db.generations[s.db.active.value] == Sealed)
  }

  lemma MovedRows(s: State, g: string, h: string, t: Table)
    requires g in s.jobs && JobOk(g, s.jobs[g]) && s.jobs[g].pos < |Script(s.jobs[g].bundle)|
    requires (h in s.jobs ==> JobOk(h, s.jobs[h])) && RowsFrom(s, h, t)
    ensures RowsFrom(s.(jobs := s.jobs[g := Job(s.jobs[g].bundle, s.jobs[g].pos + 1)]), h, t)
  {
    hide Script, RowsOf, Inserted;
    if h == g { PrefixStep(Script(s.jobs[g].bundle), s.jobs[g].pos, t); }
  }

  /** Moving past a statement without effect. */
  lemma LoseKeepsInv(s: State, g: string, s': State)
    requires Inv(s) && Next(s, Lose(g), s')
    ensures Inv(s')
  {
    hide Script, CountsHold, RowsFrom, Rendered;
    forall h, t: Table ensures RowsFrom(s', h, t) {
      MovedRows(s, g, h, t);
    }
  }

  lemma PrefixStep(script: seq<Statement>, pos: nat, t: Table)
    requires pos < |script|
    ensures Inserted(script[..pos + 1], t) == Inserted(script[..pos], t)
              + if script[pos].Insert? && script[pos].table == t then [script[pos].row] else []
  {
    assert script[..pos + 1][..pos] == script[..pos];
  }

  /** Executing is moving past the statement together with its effect. */
  lemma ExecuteKeepsInv(s: State, g: string, s': State)
    requires Inv(s) && Next(s, Execute(g), s')
    ensures Inv(s')
  {
    hide Script, CountsHold, Inv;
    JobFacts(s, g);
    var script, pos := Script(s.jobs[g].bundle), s.jobs[g].pos;
    var moved := s.(jobs := s.jobs[g := Job(s.jobs[g].bundle, pos + 1)]);
    LoseKeepsInv(s, g, moved);
    JobFacts(s, g);
    if script[pos].Insert? {
      InsertKeepsInv(s, g, s');
    } else {
      StatusKeepsInv(moved, s', script[pos], g);
    }
  }

  lemma JobFacts(s: State, g: string)
    requires Inv(s) && g in s.jobs
    ensures JobOk(g, s.jobs[g]) && GoodScript(Script(s.jobs[g].bundle), s.jobs[g].bundle)
  {
    ScriptGood(s.jobs[g].bundle);
  }

  lemma StatusKeepsInv(s: State, s': State, x: Statement, g: string)
    requires Inv(s) && g in s.jobs && !x.Insert? && GoodStatement(x, s.jobs[g].bundle)
    requires x.Seal? ==> SealBehind(Script(s.jobs[g].bundle), s.jobs[g].pos)
    requires s' == s.(db := Effect(s.db, x))
    ensures Inv(s')
  {
    hide Script, Rendered, Inserted, RowsOf;
    assert s'.db.entries == s.db.entries;
    forall h, t: Table ensures RowsFrom(s', h, t) {
      assert RowsFrom(s, h, t);
    }
    forall h | h in s'.db.generations ensures h in s'.jobs && (s'.db.generations[h] == Sealed ==> SealedOk(s', h)) {
      if h in s.db.generations && s.db.generations[h] == Sealed { assert SealedOk(s, h); }
    }
  }

  /** The state after the insert `e` of script `g`. */
  function Grown(s: State, g: string, e: Entry): State
    requires g in s.jobs
  {
    State(s.db.(entries := s.db.entries + [e]), s.jobs[g := Job(s.jobs[g].bundle, s.jobs[g].pos + 1)])
  }

  lemma InsertRowsFrom(s: State, g: string, e: Entry, h: string, t: Table)
    requires g in s.jobs && JobOk(g, s.jobs[g]) && (h in s.jobs ==> JobOk(h, s.jobs[h])) && RowsFrom(s, h, t)
    requires s.jobs[g].pos < |Script(s.jobs[g].bundle)| && Script(s.jobs[g].bundle)[s.jobs[g].pos] == Insert(e.table, e.row)
    requires e.row.generation == g
    ensures RowsFrom(Grown(s, g, e), h, t)
  {
    hide Script, Inserted, RowsOf;
    RowsOfAppend(s.db.entries, e, t, h);
    if h == g { PrefixStep(Script(s.jobs[g].bundle), s.jobs[g].pos, t); }
  }

  lemma InsertKeepsInv(s: State, g: string, s': State)
    requires Inv(s) && Next(s, Execute(g), s') && Script(s.jobs[g].bundle)[s.jobs[g].pos].Insert?
    requires GoodScript(Script(s.jobs[g].bundle), s.jobs[g].bundle)
    ensures Inv(s')
  {
    hide Script, GoodStatement, CountsHold, RowsFrom, Rendered, Inserted;
    var b, pos := s.jobs[g].bundle, s.jobs[g].pos;
    var x := Script(b)[pos];
    assert x.row.generation == g by { InsertTag(x, b); }
    var e := Entry(x.table, x.row);
    assert s' == Grown(s, g, e);
    forall h, t: Table ensures RowsFrom(s', h, t) {
      InsertRowsFrom(s, g, e, h, t);
    }
    forall h | h in s'.db.generations ensures h in s'.jobs && (s'.db.generations[h] == Sealed ==> SealedOk(s', h)) {
      if s.db.generations[h] == Sealed {
        assert SealedOk(s, h);
        assert h != g;
        OthersCounted(s.db, e, h, Counts(s.jobs[h].bundle));
      }
    }
  }

  lemma InsertTag(x: Statement, b: Bundle)
    requires x.Insert? && GoodStatement(x, b)
    ensures x.row.generation == b.generation
  {}

  lemma OthersCounted(db: Db, e: Entry, g: string, counts: map<Table, nat>)
    requires CountsHold(db, g, counts) && e.row.generation != g
    ensures CountsHold(db.(entries := db.entries + [e]), g, counts)
  {
    forall t: Table ensures t in counts && |RowsOf(db.entries + [e], t, g)| == counts[t] {
      RowsOfAppend(db.entries, e, t, g);
    }
  }

  lemma StartKeepsInv(s: State, b: Bundle, s': State)
    requires Inv(s) && Next(s, Start(b), s')
    ensures Inv(s')
  {
    hide Script, CountsHold, Rendered;
    forall h, t: Table ensures RowsFrom(s', h, t) {
      assert RowsFrom(s, h, t);
    }
  }

  lemma StepKeepsInv(s: State, step: Step, s': State)
    requires Inv(s) && Next(s, step, s')
    ensures Inv(s')
  {
    hide Inv, Script;
    match step
    case Start(b) => StartKeepsInv(s, b, s');
    case Execute(g) => ExecuteKeepsInv(s, g, s');
    case Lose(g) => LoseKeepsInv(s, g, s');
  }

  lemma {:induction false} RunKeepsInv(run: seq<State>, steps: seq<Step>, n: nat)
    requires IsRun(run, steps) && n < |run|
    ensures Inv(run[n])
  {
    hide Inv, Next;
    if n == 0 {
      InitInv(run[0]);
    } else {
      RunKeepsInv(run, steps, n - 1);
      StepKeepsInv(run[n - 1], steps[n - 1], run[n]);
    }
  }

  lemma InitInv(s: State)
    requires Init(s)
    ensures Inv(s)
  {}

  // ----- what readers see

  /** The generation holds exactly the bundle's rows, in every table. */
  ghost predicate Holds(db: Db, b: Bundle) {
    forall t: Table :: t in b.rows && multiset(RowsOf(db.entries, t, b.generation)) == multiset(b.rows[t])
  }

  lemma SameSize<T>(a: multiset<T>, b: multiset<T>)
    requires a <= b && |a| == |b|
    ensures a == b
  {
    assert b == a + (b - a);
    assert |b - a| == 0;
  }

  lemma SealedHolds(s: State, g: string)
    requires Inv(s) && g in s.db.generations && s.db.generations[g] == Sealed
    ensures g in s.jobs && Holds(s.db, s.jobs[g].bundle) && CountsHold(s.db, g, Counts(s.jobs[g].bundle))
  {
    hide Script, RowsOf, Inserted;
    JobFacts(s, g);
    var b, script, pos := s.jobs[g].bundle, Script(s.jobs[g].bundle), s.jobs[g].pos;
    forall t: Table ensures t in b.rows && multiset(RowsOf(s.db.entries, t, g)) == multiset(b.rows[t]) {
      assert RowsFrom(s, g, t);
      assert script == script[..pos] + script[pos..];
      InsertedConcat(script[..pos], script[pos..], t);
      SameSize(multiset(RowsOf(s.db.entries, t, g)), multiset(b.rows[t]));
    }
  }

  /** In every reachable state, whatever was interleaved, lost or abandoned: the active generation is
      sealed, was rendered to be sealed and activated, and holds exactly its bundle's rows in all tables. */
  lemma OnlyCompleteVisible(run: seq<State>, steps: seq<Step>, n: nat)
    requires IsRun(run, steps) && n < |run| && run[n].db.active.Some?
    ensures var g := run[n].db.active.value;
            && g in run[n].db.generations && run[n].db.generations[g] == Sealed
            && g in run[n].jobs && run[n].jobs[g].bundle.sealAndActivate
            && Holds(run[n].db, run[n].jobs[g].bundle)
            && CountsHold(run[n].db, g, Counts(run[n].jobs[g].bundle))
  {
    hide Next, Holds, CountsHold;
    RunKeepsInv(run, steps, n);
    var g := run[n].db.active.value;
    SealedHolds(run[n], g);
    SealedRendered(run[n], g);
  }

  lemma SealedRendered(s: State, g: string)
    requires Inv(s) && g in s.db.generations && s.db.generations[g] == Sealed
    ensures g in s.jobs && s.jobs[g].bundle.sealAndActivate
  {
    hide Counts, CountsHold;
    assert SealedOk(s, g);
    var b := s.jobs[g].bundle;
    var i :| 0 <= i < s.jobs[g].pos && i < |Script(b)| && Script(b)[i].Seal?;
    AllAreInserts(b, TABLE_ORDER);
    ScriptParts(b);
  }

  lemma SealedForever(s: State, step: Step, s': State, g: string)
    requires Inv(s) && Next(s, step, s') && g in s.db.generations && s.db.generations[g] == Sealed
    ensures g in s'.db.generations && s'.db.generations[g] == Sealed && s'.jobs[g].bundle == s.jobs[g].bundle
  {
    hide Script, CountsHold, RowsFrom, SealedOk, Rendered;
  }

  /** A sealed generation never changes again: same bundle, same rows, at every later point of the run. */
  lemma {:induction false} SealedImmutable(run: seq<State>, steps: seq<Step>, i: nat, j: nat, g: string)
    requires IsRun(run, steps) && i <= j < |run| && g in run[i].db.generations && run[i].db.generations[g] == Sealed
    ensures g in run[j].db.generations && run[j].db.generations[g] == Sealed
    ensures g in run[i].jobs && g in run[j].jobs && run[j].jobs[g].bundle == run[i].jobs[g].bundle
    ensures forall t: Table :: multiset(RowsOf(run[j].db.entries, t, g)) == multiset(RowsOf(run[i].db.entries, t, g))
    decreases j
  {
    hide Next, Inv, CountsHold;
    RunKeepsInv(run, steps, j);
    RunKeepsInv(run, steps, i);
    if i < j {
      SealedImmutable(run, steps, i, j - 1, g);
      RunKeepsInv(run, steps, j - 1);
      SealedForever(run[j - 1], steps[j - 1], run[j], g);
    }
    SealedHolds(run[i], g);
    SealedHolds(run[j], g);
    BundleTag(run[i], g);
  }

  lemma BundleTag(s: State, g: string)
    requires Inv(s) && g in s.jobs
    ensures s.jobs[g].bundle.generation == g
  {}

  // ----- the applied cursor

  /** Every bundle that is to be activated carries three times the same positive cursor. */
  ghost predicate AllPositive(run: seq<State>) {
    forall n, g | 0 <= n < |run| && g in run[n].jobs && run[n].jobs[g].bundle.sealAndActivate ::
        exists c :: AllAt(run[n].jobs[g].bundle.cursors, c)
  }

  /** The applied cursor that readers of the active generation see. */
  ghost predicate ActiveApplied(db: Db, c: int) {
    && db.active.Some?
    && var meta := RowsOf(db.entries, OpsProjectionMetadata, db.active.value);
       |meta| == 1 && meta[0].cursors.applied == Some(c)
  }

  lemma HoldsMetadata(db: Db, b: Bundle)
    requires Rendered(b) && Holds(db, b)
    ensures RowsOf(db.entries, OpsProjectionMetadata, b.generation) == b.rows[OpsProjectionMetadata]
  {
    var meta, row := RowsOf(db.entries, OpsProjectionMetadata, b.generation), b.rows[OpsProjectionMetadata][0];
    assert b.rows[OpsProjectionMetadata] == [row];
    assert multiset(meta) == multiset([row]);
    assert |multiset(meta)| == |meta| == 1;
    assert meta[0] in multiset(meta);
    assert meta == [meta[0]];
  }

  /** What readers see of the active bundle's cursors is what the bundle carries. */
  lemma ActiveCursor(s: State)
    requires Inv(s) && s.db.active.Some?
    ensures var g := s.db.active.value;
            && g in s.jobs && g == s.jobs[g].bundle.generation
            && RowsOf(s.db.entries, OpsProjectionMetadata, g) == s.jobs[g].bundle.rows[OpsProjectionMetadata]
            && |s.jobs[g].bundle.rows[OpsProjectionMetadata]| == 1
            && s.jobs[g].bundle.rows[OpsProjectionMetadata][0].cursors == s.jobs[g].bundle.cursors
  {
    hide Script, CountsHold;
    var g := s.db.active.value;
    SealedHolds(s, g);
    BundleTag(s, g);
    HoldsMetadata(s.db, s.jobs[g].bundle);
  }

  /** Where the pointer moves, only its own script moves it, and under the cursor guard. */
  lemma PointerMoves(s: State, step: Step, s': State)
    requires Inv(s) && Next(s, step, s') && s'.db.active != s.db.active
    ensures step.Execute? && step.generation in s.jobs && s'.db.active == Some(step.generation)
    ensures s'.db.entries == s.db.entries && s'.jobs[step.generation].bundle == s.jobs[step.generation].bundle
    ensures var c := s.jobs[step.generation].bundle.cursors; Exact(c) ==> CursorAllows(s.db, c.source)
  {
    hide Script, CountsHold, CursorAllows, RowsOf;
    if step.Execute? { JobFacts(s, step.generation); }
  }

  lemma GuardOrder(db: Db, cursor: Option<int>, c: int)
    requires ActiveApplied(db, c) && CursorAllows(db, cursor) && cursor.Some?
    ensures c <= cursor.value
  {}

  /** One activation by an exact bundle: readers' applied cursor does not go back. */
  lemma ActivationOrder(s: State, step: Step, s': State, c: int)
    requires Inv(s) && Next(s, step, s') && s'.db.active != s.db.active && ActiveApplied(s.db, c)
    requires Inv(s') && s'.db.active.Some? && s'.db.active.value in s'.jobs
             && Exact(s'.jobs[s'.db.active.value].bundle.cursors)
    ensures exists c' :: c <= c' && ActiveApplied(s'.db, c')
  {
    hide Inv, Next, CursorAllows;
    PointerMoves(s, step, s');
    ActiveCursor(s');
    var b := s'.jobs[step.generation].bundle;
    assert ActiveApplied(s'.db, b.cursors.source.value);
    GuardOrder(s.db, b.cursors.source, c);
  }

  /** One step of a run whose activating bundles are exact. */
  lemma CursorStep(s: State, step: Step, s': State, c: int)
    requires Inv(s) && Inv(s') && Next(s, step, s') && ActiveApplied(s.db, c)
    requires forall g | g in s'.jobs && s'.jobs[g].bundle.sealAndActivate :: Exact(s'.jobs[g].bundle.cursors)
    ensures exists c' :: c <= c' && ActiveApplied(s'.db, c')
  {
    hide Inv, Next, RowsOf, ActiveApplied;
    if s'.db.active == s.db.active {
      SameCursor(s, step, s', c);
    } else {
      PointerMoves(s, step, s');
      ActiveSealed(s');
      SealedRendered(s', step.generation);
      ActivationOrder(s, step, s', c);
    }
  }

  lemma ActiveSealed(s: State)
    requires Inv(s) && s.db.active.Some?
    ensures s.db.active.value in s.db.generations && s.db.generations[s.db.active.value] == Sealed
            && s.db.active.value in s.jobs
  {}

  lemma SameCursor(s: State, step: Step, s': State, c: int)
    requires Inv(s) && Inv(s') && Next(s, step, s') && s'.db.active == s.db.active && ActiveApplied(s.db, c)
    ensures ActiveApplied(s'.db, c)
  {
    hide Inv, Next, RowsOf;
    ActiveCursor(s);
    ActiveCursor(s');
    ActiveSealed(s);
    SealedForever(s, step, s', s.db.active.value);
  }

  /** When every activating bundle carries equal positive cursors, the applied cursor of the active
      generation never decreases over a run. */
  lemma {:induction false} AppliedNeverDecreases(run: seq<State>, steps: seq<Step>, i: nat, j: nat, c: int)
    requires IsRun(run, steps) && AllPositive(run) && i <= j < |run| && ActiveApplied(run[i].db, c)
    ensures exists c' :: c <= c' && ActiveApplied(run[j].db, c')
    decreases j
  {
    hide Next, Inv, ActiveApplied;
    if i < j {
      AppliedNeverDecreases(run, steps, i, j - 1, c);
      var d :| c <= d && ActiveApplied(run[j - 1].db, d);
      RunKeepsInv(run, steps, j - 1);
      RunKeepsInv(run, steps, j);
      forall g | g in run[j].jobs && run[j].jobs[g].bundle.sealAndActivate
        ensures Exact(run[j].jobs[g].bundle.cursors)
      {
        ExactIff(run[j].jobs[g].bundle.cursors);
      }
      CursorStep(run[j - 1], steps[j - 1], run[j], d);
    }
  }

  /** The active bundle has all its cursors at one number that is not ahead of n. */
  ghost predicate ActiveNotAhead(s: State, n: int) {
    && s.db.active.Some? && s.db.active.value in s.jobs
    && exists m :: m <= n && s.jobs[s.db.active.value].bundle.cursors == Cursors(Some(m), Some(m), Some(m))
  }

  /** When exactly an activation takes effect.  A bundle with all cursors at a positive n needs a predecessor with
      equal cursors that are not ahead of n; any other bundle replaces whatever is active, and so can lower the
      applied cursor; and once a bundle with unequal cursors is active, no bundle of the first kind can replace it. */
  lemma ActivationTakesEffect(s: State, g: string, s': State)
    requires Inv(s) && Next(s, Execute(g), s') && Script(s.jobs[g].bundle)[s.jobs[g].pos].Activate?
    ensures s'.db.active == Some(g) || s'.db.active == s.db.active
    ensures s'.db.active == Some(g) && s.db.active != Some(g) ==> g in s.db.generations && s.db.generations[g] == Sealed
    ensures s.db.active != Some(g) && g in s.db.generations && s.db.generations[g] == Sealed ==>
              && (forall n | AllAt(s.jobs[g].bundle.cursors, n) ::
                    s'.db.active == Some(g) <==> s.db.active.None? || ActiveNotAhead(s, n))
              && ((forall n :: !AllAt(s.jobs[g].bundle.cursors, n)) ==> s'.db.active == Some(g))
  {
    hide Inv, Script, CountsHold, RowsOf, CursorAllows, Holds, Rendered, Counts, ActiveNotAhead, Exact;
    StatementGood(s, g);
    BundleTag(s, g);
    ExactIff(s.jobs[g].bundle.cursors);
    if Exact(s.jobs[g].bundle.cursors) {
      ExactSource(s.jobs[g].bundle.cursors);
      GuardIsOrder(s, s.jobs[g].bundle.cursors.source.value);
    } else {
      NoGuard(s.db);
    }
    if g in s.db.generations && s.db.generations[g] == Sealed { SealedHolds(s, g); }
  }

  lemma ExactSource(c: Cursors)
    requires Exact(c)
    ensures c.source.Some? && AllAt(c, c.source.value)
  {}

  lemma NoGuard(db: Db)
    ensures CursorAllows(db, None)
  {}

  lemma StatementGood(s: State, g: string)
    requires Inv(s) && Running(s, g)
    ensures GoodStatement(Script(s.jobs[g].bundle)[s.jobs[g].pos], s.jobs[g].bundle)
  {
    JobFacts(s, g);
  }

  lemma GuardIsOrder(s: State, n: int)
    requires Inv(s)
    ensures CursorAllows(s.db, Some(n)) <==> s.db.active.None? || ActiveNotAhead(s, n)
  {
    hide Inv, RowsOf;
    if s.db.active.Some? {
      ActiveCursor(s);
      var meta := RowsOf(s.db.entries, OpsProjectionMetadata, s.db.active.value);
      assert meta[0].cursors == s.jobs[s.db.active.value].bundle.cursors;
    }
  }

  // ----- an undisturbed script

  ghost function Ran(db: Db, script: seq<Statement>): Db {
    if script == [] then db else Effect(Ran(db, script[..|script| - 1]), script[|script| - 1])
  }

  lemma {:induction false} RanConcat(db: Db, a: seq<Statement>, b: seq<Statement>)
    ensures Ran(db, a + b) == Ran(Ran(db, a), b)
  {
    hide Effect;
    if b == [] {
      assert a + b == a;
    } else {
      assert (a + b)[..|a + b| - 1] == a + b[..|b| - 1];
      RanConcat(db, a, b[..|b| - 1]);
    }
  }

  /** `db'` has the given rows of `g` in addition to those of `db`. */
  ghost predicate Adds(db: Db, db': Db, g: string, inserts: seq<Statement>) {
    && db'.generations == db.generations && db'.active == db.active
    && forall t: Table, h ::
        RowsOf(db'.entries, t, h) == RowsOf(db.entries, t, h) + if h == g then Inserted(inserts, t) else []
  }

  lemma {:induction false} RanInserts(db: Db, g: string, inserts: seq<Statement>)
    requires forall i | 0 <= i < |inserts| :: inserts[i].Insert? && inserts[i].row.generation == g
    ensures Adds(db, Ran(db, inserts), g, inserts)
  {
    if inserts != [] {
      var front, last := inserts[..|inserts| - 1], inserts[|inserts| - 1];
      RanInserts(db, g, front);
      forall t: Table, h
        ensures RowsOf(Ran(db, inserts).entries, t, h) == RowsOf(db.entries, t, h) + if h == g then Inserted(inserts,
                t) else []
      {
        RowsOfAppend(Ran(db, front).entries, Entry(last.table, last.row), t, h);
      }
    }
  }

  lemma RanOne(db: Db, x: Statement)
    ensures Ran(db, [x]) == Effect(db, x)
  {
    assert [x][..0] == [];
    assert Ran(db, []) == db;
  }

  lemma RanHead(db: Db, b: Bundle)
    requires b.generation !in db.generations
    ensures Ran(db, Head(b)) == db.(generations := db.generations[b.generation := Open])
  {
    RanOne(db, OpenGeneration(b.generation));
    if b.transaction {
      RanOne(db, Begin);
      RanConcat(db, [Begin], [OpenGeneration(b.generation)]);
    } else {
      assert Head(b) == [OpenGeneration(b.generation)];
    }
  }

  lemma RanTail(db: Db, b: Bundle)
    requires b.sealAndActivate && b.generation in db.generations && db.generations[b.generation] == Open
    requires CountsHold(db, b.generation, Counts(b))
    ensures var cursor := if Exact(b.cursors) then b.cursors.source else None;
            Ran(db, Tail(b)) == Db(db.generations[b.generation := Sealed], db.entries,
                                   if CursorAllows(db, cursor) then Some(b.generation) else db.active)
  {
    hide CountsHold, CursorAllows, RowsOf;
    var cursor := if Exact(b.cursors) then b.cursors.source else None;
    var seal, activate := Seal(b.generation, Counts(b)), Activate(b.generation, Counts(b), cursor);
    var sealed := Effect(db, seal);
    GuardsSeeRows(db, sealed, b.generation, Counts(b), cursor);
    RanOne(db, seal);
    RanOne(sealed, activate);
    RanConcat(db, [seal], [activate]);
    assert Publishing(b) == [seal] + [activate];
    var active := Effect(sealed, activate);
    RanOne(active, Commit);
    RanConcat(db, Publishing(b), [Commit]);
    assert Publishing(b) + [] == Publishing(b);
  }

  lemma GuardsSeeRows(db: Db, db': Db, g: string, counts: map<Table, nat>, cursor: Option<int>)
    requires db'.entries == db.entries && db'.active == db.active
    ensures CountsHold(db', g, counts) == CountsHold(db, g, counts) && CursorAllows(db', cursor) == CursorAllows(db, cursor)
  {}

  lemma AddsGuard(db: Db, db': Db, g: string, inserts: seq<Statement>, cursor: Option<int>)
    requires Adds(db, db', g, inserts) && db.active != Some(g)
    ensures CursorAllows(db', cursor) == CursorAllows(db, cursor)
  {
    if db.active.Some? {
      assert RowsOf(db'.entries, OpsProjectionMetadata, db.active.value) == RowsOf(db.entries, OpsProjectionMetadata,
          db.active.value);
    }
  }

  /** Of the active generation a metadata row is visible with all cursors at one number not ahead of n. */
  ghost predicate VisibleNotAhead(db: Db, n: int) {
    && db.active.Some?
    && exists row, m ::
        && row in RowsOf(db.entries, OpsProjectionMetadata, db.active.value)
        && row.cursors == Cursors(Some(m), Some(m), Some(m)) && m <= n
  }

  lemma GuardMeaning(db: Db, c: Cursors)
    ensures forall n | AllAt(c, n) :: CursorAllows(db, c.source) <==> db.active.None? || VisibleNotAhead(db, n)
    ensures CursorAllows(db, None)
  {
    hide RowsOf;
    if db.active.Some? {
      forall n | AllAt(c, n) ensures CursorAllows(db, c.source) <==> VisibleNotAhead(db, n) {
        var meta := RowsOf(db.entries, OpsProjectionMetadata, db.active.value);
        if CursorAllows(db, c.source) {
          var i :| 0 <= i < |meta| && Aligned(meta[i].cursors) && meta[i].cursors.applied.value <= n;
          var m := meta[i].cursors.applied.value;
          assert meta[i] in meta && meta[i].cursors == Cursors(Some(m), Some(m), Some(m));
        }
      }
    }
  }

  /** A script for a new generation that nothing disturbs seals it with exactly the bundle's rows, leaves
      all other generations alone, and exposes it, unless its cursors are all at a positive n and the generation
      that is active shows none at or below n. */
  lemma UndisturbedPublishes(db: Db, b: Bundle)
    requires Rendered(b) && b.sealAndActivate && b.generation !in db.generations && db.active != Some(b.generation)
    requires forall t: Table :: RowsOf(db.entries, t, b.generation) == []
    ensures var end := Ran(db, Script(b));
            && end.generations == db.generations[b.generation := Sealed]
            && (forall n | AllAt(b.cursors, n) :: end.active ==
                  if db.active.None? || VisibleNotAhead(db, n) then Some(b.generation) else db.active)
            && ((forall n :: !AllAt(b.cursors, n)) ==> end.active == Some(b.generation))
            && (forall t: Table :: RowsOf(end.entries, t, b.generation) == b.rows[t])
            && (forall t: Table, h | h != b.generation :: RowsOf(end.entries, t, h) == RowsOf(db.entries, t, h))
  {
    hide VisibleNotAhead, CursorAllows, RowsOf, Ran, Script, Rendered;
    ScriptPublishes(db, b);
    ExactIff(b.cursors);
    GuardMeaning(db, b.cursors);
  }

  lemma ScriptPublishes(db: Db, b: Bundle)
    requires Rendered(b) && b.sealAndActivate && b.generation !in db.generations && db.active != Some(b.generation)
    requires forall t: Table :: RowsOf(db.entries, t, b.generation) == []
    ensures var end := Ran(db, Script(b));
            var cursor := if Exact(b.cursors) then b.cursors.source else None;
            && end.generations == db.generations[b.generation := Sealed]
            && end.active == (if CursorAllows(db, cursor) then Some(b.generation) else db.active)
            && (forall t: Table :: RowsOf(end.entries, t, b.generation) == b.rows[t])
            && (forall t: Table, h | h != b.generation :: RowsOf(end.entries, t, h) == RowsOf(db.entries, t, h))
  {
    hide Ran, Effect, RowsOf, Inserted, AllInserts, Head, Tail, CursorAllows, Script;
    var g, inserts := b.generation, AllInserts(b, TABLE_ORDER);
    var cursor := if Exact(b.cursors) then b.cursors.source else None;
    ScriptParts(b);
    RanConcat(db, Head(b) + inserts, Tail(b));
    RanConcat(db, Head(b), inserts);
    RanHead(db, b);
    var begun := Ran(db, Head(b));
    AllAreInserts(b, TABLE_ORDER);
    RanInserts(begun, g, inserts);
    var filled := Ran(begun, inserts);
    forall t: Table ensures RowsOf(filled.entries, t, g) == b.rows[t] {
      OrdersDistinct();
      EveryTable(t);
      InsertedAll(b, TABLE_ORDER, t);
    }
    assert CountsHold(filled, g, Counts(b));
    RanTail(filled, b);
    AddsGuard(begun, filled, g, inserts, cursor);
    GuardsSeeRows(db, begun, g, Counts(b), cursor);
  }
}
