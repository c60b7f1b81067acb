/**
  Publication of a projection generation: a bundle renders to a list of SQL statements that open a
  generation, fill it row by row, seal it under a row-count guard and point the active row at it.
  Bundles run side by side; a statement may be lost, and a script may stop anywhere.  (A script run as
  one SQL transaction is the special case in which its statements are not interleaved with others.)
 */
module Projection {
  import opened Outcomes
  import opened ProjectionStore

  /** What a renderer call publishes.  `rows` are already tagged with the generation. */
  datatype Bundle = Bundle(
    generation: string, rows: map<Table, seq<DbRow>>, cursors: Cursors,
    transaction: bool, sealAndActivate: bool)

  /** The renderer's own facts: every table has rows (perhaps none), tagged with the generation, and the
      metadata table holds the one row with the cursors. */
  ghost predicate Rendered(b: Bundle) {
    && (forall t: Table :: t in b.rows && forall i | 0 <= i < |b.rows[t]| :: b.rows[t][i].generation == b.generation)
    && |b.rows[OpsProjectionMetadata]| == 1 && b.rows[OpsProjectionMetadata][0].cursors == b.cursors
  }

  /** `exact_current_cursor` */
  predicate Exact(c: Cursors) {
    c.source.Some? && c.source.value > 0 && c.exported == c.source && c.applied == c.source
  }

  /** All three cursors are the same positive number. */
  ghost predicate AllAt(c: Cursors, n: int) {
    n > 0 && c == Cursors(Some(n), Some(n), Some(n))
  }

  lemma ExactIff(c: Cursors)
    ensures Exact(c) <==> exists n :: AllAt(c, n)
  {
    if Exact(c) { assert AllAt(c, c.source.value); }
  }

  datatype Statement =
    | Begin
    | Commit
    | OpenGeneration(generation: string)
    | Insert(table: Table, row: DbRow)
    | Seal(generation: string, counts: map<Table, nat>)
    | Activate(generation: string, counts: map<Table, nat>, cursor: Option<int>)

  // ----- rendering

  function Counts(b: Bundle): (counts: map<Table, nat>)
    ensures counts.Keys == b.rows.Keys && forall t | t in counts :: counts[t] == |b.rows[t]|
  {
    map t | t in b.rows :: |b.rows[t]|
  }

  function Inserts(table: Table, rows: seq<DbRow>): (r: seq<Statement>)
    ensures |r| == |rows| && forall i | 0 <= i < |r| :: r[i] == Insert(table, rows[i])
  {
    seq(|rows|, i requires 0 <= i < |rows| => Insert(table, rows[i]))
  }

  function AllInserts(b: Bundle, tables: seq<Table>): seq<Statement>
    requires forall t | t in tables :: t in b.rows
  {
    if tables == [] then []
    else AllInserts(b, tables[..|tables| - 1]) + Inserts(tables[|tables| - 1], b.rows[tables[|tables| - 1]])
  }

  function Publishing(b: Bundle): seq<Statement> {
    if b.sealAndActivate
    then [Seal(b.generation, Counts(b)), Activate(b.generation, Counts(b),
        if Exact(b.cursors) then b.cursors.source else None)]
    else []
  }

  function Script(b: Bundle): seq<Statement>
    requires forall t | t in TABLE_ORDER :: t in b.rows
  {
    (if b.transaction then [Begin] else []) + [OpenGeneration(b.generation)] + AllInserts(b, TABLE_ORDER)
    + Publishing(b) + if b.transaction then [Commit] else []
  }

  /** `_insert_sql`: one statement for each row. */
  method RenderRows(table: Table, rows: seq<DbRow>) returns (statements: seq<Statement>)
    ensures statements == Inserts(table, rows)
  {
    statements := [];
    for i := 0 to |rows|
      invariant |statements| == i && forall k | 0 <= k < i :: statements[k] == Insert(table, rows[k])
    {
      statements := statements + [Insert(table, rows[i])];
    }
  }

  method RenderTables(b: Bundle) returns (statements: seq<Statement>)
    requires forall t | t in TABLE_ORDER :: t in b.rows
    ensures statements == AllInserts(b, TABLE_ORDER)
  {
    hide Inserts;
    var order := TABLE_ORDER;
    statements := [];
    for n := 0 to |order|
      invariant statements == AllInserts(b, order[..n])
    {
      var inserts := RenderRows(order[n], b.rows[order[n]]);
      AllInsertsStep(b, order, n);
      statements := statements + inserts;
    }
    assert order[..|order|] == order;
  }

  lemma AllInsertsStep(b: Bundle, tables: seq<Table>, n: nat)
    requires n < |tables| && forall t | t in tables :: t in b.rows
    ensures AllInserts(b, tables[..n + 1]) == AllInserts(b, tables[..n]) + Inserts(tables[n], b.rows[tables[n]])
  {
    assert tables[..n + 1][..n] == tables[..n];
  }

  /** The statement list of `_render_projection_bundle`. */
  method Render(b: Bundle) returns (statements: seq<Statement>)
    requires Rendered(b)
    ensures statements == Script(b)
    ensures forall i | 0 <= i < |statements| && statements[i].Activate? :: GuardFits(statements[i].cursor, b.cursors)
  {
    ActivateGuards(b);
    hide AllInserts, Counts, GuardFits, Script;
    statements := if b.transaction then [Begin] else [];
    statements := statements + [OpenGeneration(b.generation)];
    var inserts := RenderTables(b);
    statements := statements + inserts;
    var cursor := if Exact(b.cursors) then b.cursors.source else None;
    if b.sealAndActivate {
      statements := statements + [Seal(b.generation, Counts(b))];
      statements := statements + [Activate(b.generation, Counts(b), cursor)];
    }
    if b.transaction { statements := statements + [Commit]; }
  }

  /** A bundle whose cursors are all at n is guarded by n, any other bundle is not guarded. */
  ghost predicate GuardFits(cursor: Option<int>, c: Cursors) {
    && (forall n | AllAt(c, n) :: cursor == Some(n))
    && ((forall n :: !AllAt(c, n)) ==> cursor == None)
  }

  lemma ActivateGuards(b: Bundle)
    requires Rendered(b)
    ensures forall i | 0 <= i < |Script(b)| && Script(b)[i].Activate? :: GuardFits(Script(b)[i].cursor, b.cursors)
  {
    hide Script;
    ScriptShape(b);
    ExactIff(b.cursors);
    assert forall i | 0 <= i < |Script(b)| :: GoodStatement(Script(b)[i], b);
  }

  /** The rows that a list of statements inserts into a table. */
  function Inserted(statements: seq<Statement>, table: Table): seq<DbRow> {
    if statements == [] then []
    else
      var last := statements[|statements| - 1];
      Inserted(statements[..|statements| - 1], table) + if last.Insert? && last.table == table then [last.row] else []
  }

  lemma {:induction false} InsertedConcat(a: seq<Statement>, b: seq<Statement>, table: Table)
    ensures Inserted(a + b, table) == Inserted(a, table) + Inserted(b, table)
  {
    if b == [] {
      assert a + b == a;
    } else {
      assert (a + b)[..|a + b| - 1] == a + b[..|b| - 1];
      InsertedConcat(a, b[..|b| - 1], table);
    }
  }

  lemma {:induction false} InsertedRows(table: Table, rows: seq<DbRow>, t: Table)
    ensures Inserted(Inserts(table, rows), t) == if t == table then rows else []
  {
    if rows != [] {
      InsertedRows(table, rows[..|rows| - 1], t);
      assert Inserts(table, rows)[..|rows| - 1] == Inserts(table, rows[..|rows| - 1]);
      assert rows == rows[..|rows| - 1] + [rows[|rows| - 1]];
    }
  }

  lemma {:induction false} InsertedAll(b: Bundle, tables: seq<Table>, t: Table)
    requires forall u | u in tables :: u in b.rows
    requires forall i, j | 0 <= i < j < |tables| :: tables[i] != tables[j]
    ensures Inserted(AllInserts(b, tables), t) == if t in tables then b.rows[t] else []
  {
    if tables != [] {
      var front, last := tables[..|tables| - 1], tables[|tables| - 1];
      assert tables == front + [last];
      InsertedAll(b, front, t);
      InsertedConcat(AllInserts(b, front), Inserts(last, b.rows[last]), t);
      InsertedRows(last, b.rows[last], t);
    }
  }

  lemma {:induction false} AllAreInserts(b: Bundle, tables: seq<Table>)
    requires Rendered(b)
    ensures forall i | 0 <= i < |AllInserts(b, tables)| ::
              AllInserts(b, tables)[i].Insert? && AllInserts(b, tables)[i].row.generation == b.generation
  {
    if tables != [] { AllAreInserts(b, tables[..|tables| - 1]); }
  }

  /** What the protocol needs to know of a script: it writes for its own generation only, inserts each of
      the bundle's rows once, seals and activates with the bundle's own counts, and inserts nothing after
      the seal. */
  ghost predicate GoodScript(script: seq<Statement>, b: Bundle) {
    && (forall t: Table :: t in b.rows && b.rows[t] == Inserted(script, t))
    && (forall i | 0 <= i < |script| :: GoodStatement(script[i], b))
    && (forall i, j | 0 <= i < j < |script| && script[i].Seal? :: !script[j].Insert?)
  }

  ghost predicate GoodStatement(x: Statement, b: Bundle) {
    match x
    case Begin => true
    case Commit => true
    case OpenGeneration(g) => g == b.generation
    case Insert(_, row) => row.generation == b.generation
    case Seal(g, counts) => g == b.generation && counts == Counts(b)
    case Activate(g, counts, cursor) =>
      g == b.generation && counts == Counts(b) && cursor == if Exact(b.cursors) then b.cursors.source else None
  }

  function Head(b: Bundle): seq<Statement> {
    (if b.transaction then [Begin] else []) + [OpenGeneration(b.generation)]
  }

  function Tail(b: Bundle): seq<Statement> {
    Publishing(b) + if b.transaction then [Commit] else []
  }

  lemma ScriptParts(b: Bundle)
    requires Rendered(b)
    ensures Script(b) == Head(b) + AllInserts(b, TABLE_ORDER) + Tail(b)
  {
    hide AllInserts;
  }

  lemma TablesInsert(b: Bundle, t: Table)
    requires Rendered(b)
    ensures Inserted(AllInserts(b, TABLE_ORDER), t) == b.rows[t]
  {
    hide Inserted, AllInserts;
    OrdersDistinct();
    EveryTable(t);
    InsertedAll(b, TABLE_ORDER, t);
  }

  lemma FrameInsertsNothing(b: Bundle, t: Table)
    ensures Inserted(Head(b), t) == [] && Inserted(Tail(b), t) == []
  {
    hide Inserted;
    NoneInserted(Head(b), t);
    NoneInserted(Tail(b), t);
  }

  lemma ScriptInserts(b: Bundle, t: Table)
    requires Rendered(b)
    ensures Inserted(Script(b), t) == b.rows[t]
  {
    hide Inserted, AllInserts, Script, Head, Tail;
    ScriptParts(b);
    var inserts := AllInserts(b, TABLE_ORDER);
    InsertedConcat(Head(b) + inserts, Tail(b), t);
    InsertedConcat(Head(b), inserts, t);
    TablesInsert(b, t);
    FrameInsertsNothing(b, t);
  }

  lemma ScriptShape(b: Bundle)
    requires Rendered(b)
    ensures forall i | 0 <= i < |Script(b)| :: GoodStatement(Script(b)[i], b)
    ensures forall i, j | 0 <= i < j < |Script(b)| && Script(b)[i].Seal? :: !Script(b)[j].Insert?
  {
    hide AllInserts, Counts;
    var inserts := AllInserts(b, TABLE_ORDER);
    AllAreInserts(b, TABLE_ORDER);
    ScriptParts(b);
    assert forall i | 0 <= i < |Head(b)| :: GoodStatement(Head(b)[i], b) && !Head(b)[i].Seal?;
    assert forall i | 0 <= i < |Tail(b)| :: GoodStatement(Tail(b)[i], b) && !Tail(b)[i].Insert?;
  }

  lemma ScriptGood(b: Bundle)
    requires Rendered(b)
    ensures GoodScript(Script(b), b)
  {
    hide Script, Inserted, GoodStatement;
    ScriptShape(b);
    forall t: Table ensures t in b.rows && b.rows[t] == Inserted(Script(b), t) {
      ScriptInserts(b, t);
    }
  }

  lemma {:induction false} NoneInserted(statements: seq<Statement>, t: Table)
    requires forall i | 0 <= i < |statements| :: !statements[i].Insert?
    ensures Inserted(statements, t) == []
  {
    if statements != [] { NoneInserted(statements[..|statements| - 1], t); }
  }
}
