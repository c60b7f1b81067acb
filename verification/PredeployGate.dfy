/**
  The predeploy gate: pointer, generation row and all tables are read between two reads of the
  database's bookmark.  The database is a timeline that other writers control.  Signature check, JSON codec and
  hashes are parameters.
 */
module PredeployGate {
  import opened Outcomes
  import opened ByteOrder
  import opened Timeline
  import opened ProjectionStore

  const MAX_GENERATION_AGE := 30 * 60
  const MAX_FUTURE_SKEW := 60

  datatype Pointer = Pointer(generation: string, activatedAt: string)

  /** The selected columns of `ops_projection_generation`. */
  datatype GenerationRow = GenerationRow(
    status: Status, signature: string, contentDigest: string, sourceDbDigest: string, contractDigest: string,
    registryDigest: string, issuerKeyId: string, envelopeJson: string, policyVersion: string, producer: string)

  datatype Database = Database(
    bookmark: string, active: Option<Pointer>, generations: map<string, GenerationRow>, entries: seq<Entry>)

  datatype Manifest = Manifest(rowCount: nat, contentDigest: string)

  datatype Envelope = Envelope(
    generation: string, contentDigest: string, sourceDbDigest: string, contractDigest: string,
    environment: string, producer: string, generatedAt: Option<int>, projectionStatus: string,
    cursors: Cursors, coverageListed: bool, rowCounts: Option<map<Table, nat>>, manifest: Option<map<Table, Manifest>>)

  /** Configuration, keys and codecs.  `envelope` is the parsed envelope of the stored document, if it has
      one; `signed` is the Ed25519 check of the document against the pinned key. */
  datatype Gate = Gate(
    environment: string, keyId: string, otherKeyId: string, keyNotBefore: int, keyNotAfter: int,
    headSha: string, intendedSha: Option<string>, contractDigest: string,
    envelope: string -> Option<Envelope>,
    signed: (string, string) -> bool,
    canonical: DbRow -> Bytes,
    rowsDigest: seq<Bytes> -> string,
    manifestDigest: map<Table, Manifest> -> string)

  // ----- what one database state must satisfy

  function ManifestOf(gate: Gate, rows: seq<DbRow>): Manifest {
    Manifest(|rows|, gate.rowsDigest(Sort(Mapped(gate.canonical, rows))))
  }

  function Contents(gate: Gate, db: Database, generation: string): map<Table, Manifest> {
    map t: Table | t in TABLES :: ManifestOf(gate, RowsOf(db.entries, t, generation))
  }

  const TABLES: set<Table> := set t: Table | true

  /** The generation row and its envelope agree with each other and with the deployment. */
  ghost predicate Bound(gate: Gate, generation: string, row: GenerationRow, e: Envelope) {
    && row.status == Sealed && row.issuerKeyId == gate.keyId && row.producer == gate.headSha
    && gate.envelope(row.envelopeJson) == Some(e) && gate.signed(row.envelopeJson, row.signature)
    && e.generation == generation && e.contentDigest == row.contentDigest && e.sourceDbDigest == row.sourceDbDigest
    && e.contractDigest == row.contractDigest == gate.contractDigest && e.environment == gate.environment
        && e.producer == row.producer
    && e.projectionStatus == "FRESH" && Aligned(e.cursors) && e.coverageListed
    && e.generatedAt.Some? && gate.keyNotBefore <= e.generatedAt.value <= gate.keyNotAfter
  }

  /** The signed manifest and row count of a table are those of the rows that the database holds. */
  ghost predicate TableFits(gate: Gate, db: Database, generation: string, e: Envelope, t: Table) {
    && e.manifest.Some? && e.rowCounts.Some?
    && t in e.manifest.value && e.manifest.value[t] == ManifestOf(gate, RowsOf(db.entries, t, generation))
    && t in e.rowCounts.value && e.rowCounts.value[t] == |RowsOf(db.entries, t, generation)|
  }

  /** All tables fit, the signed content digest is that of all their manifests, and the three tables
      without which there is nothing to monitor are not empty. */
  ghost predicate ContentsFit(gate: Gate, db: Database, generation: string, e: Envelope) {
    && (forall t: Table :: TableFits(gate, db, generation, e, t))
    && e.contentDigest == gate.manifestDigest(Contents(gate, db, generation))
    && RowsOf(db.entries, EndpointInventory, generation) != []
    && RowsOf(db.entries, DatasetCoverage, generation) != []
    && RowsOf(db.entries, OpsProjectionMetadata, generation) != []
  }

  /** Pointer, generation row and the contents of all tables fit together in one database state, and the
      signed digests are those of the rows that this state holds. */
  ghost predicate Verifiable(gate: Gate, db: Database, generation: string, e: Envelope) {
    && db.active.Some? && db.active.value.generation == generation
    && generation in db.generations && Bound(gate, generation, db.generations[generation], e)
    && ContentsFit(gate, db, generation, e)
  }

  /** The gate does not see the order in which rows arrive. */
  lemma ManifestRearranged(gate: Gate, a: seq<DbRow>, b: seq<DbRow>)
    requires multiset(a) == multiset(b)
    ensures ManifestOf(gate, a) == ManifestOf(gate, b)
  {
    MappedRearranged(gate.canonical, a, b);
    SortUnique(Mapped(gate.canonical, a), Mapped(gate.canonical, b));
  }

  /** No two different rows of the lists have one canonical form, and no two different sorted lists of these
      one digest. */
  ghost predicate NoCollision(gate: Gate, a: seq<DbRow>, b: seq<DbRow>) {
    && Distinguishes(gate.canonical, a, b)
    && (gate.rowsDigest(Sort(Mapped(gate.canonical, a))) == gate.rowsDigest(Sort(Mapped(gate.canonical, b))) ==>
          Sort(Mapped(gate.canonical, a)) == Sort(Mapped(gate.canonical, b)))
  }

  /** Manifests agree exactly when the rows are the same up to their order. */
  lemma ManifestIff(gate: Gate, a: seq<DbRow>, b: seq<DbRow>)
    requires NoCollision(gate, a, b)
    ensures ManifestOf(gate, a) == ManifestOf(gate, b) <==> multiset(a) == multiset(b)
  {
    if multiset(a) == multiset(b) { ManifestRearranged(gate, a, b); }
    if ManifestOf(gate, a) == ManifestOf(gate, b) {
      SortUnique(Mapped(gate.canonical, a), Mapped(gate.canonical, b));
      MappedBack(gate.canonical, a, b);
    }
  }

  /** The manifests that were signed are those of these rows, which do not collide with the rows of the database. */
  ghost predicate SignedFor(gate: Gate, db: Database, generation: string, e: Envelope, signed: map<Table, seq<DbRow>>) {
    e.manifest.Some? && forall t: Table ::
      && t in signed && t in e.manifest.value && e.manifest.value[t] == ManifestOf(gate, signed[t])
      && NoCollision(gate, signed[t], RowsOf(db.entries, t, generation))
  }

  ghost predicate HoldsRows(db: Database, generation: string, signed: map<Table, seq<DbRow>>) {
    forall t: Table :: t in signed && multiset(RowsOf(db.entries, t, generation)) == multiset(signed[t])
  }

  /** What is verified holds exactly the rows that were signed, in every table. */
  lemma VerifiedRows(gate: Gate, db: Database, generation: string, e: Envelope, signed: map<Table, seq<DbRow>>)
    requires Verifiable(gate, db, generation, e) && SignedFor(gate, db, generation, e, signed)
    ensures HoldsRows(db, generation, signed)
  {
    hide ManifestOf, RowsOf, NoCollision;
    forall t: Table ensures multiset(RowsOf(db.entries, t, generation)) == multiset(signed[t]) {
      assert TableFits(gate, db, generation, e, t);
      ManifestIff(gate, signed[t], RowsOf(db.entries, t, generation));
    }
  }

  // ----- the database as the gate reads it

  function Bookmark(db: Database): seq<string> {
    [db.bookmark]
  }

  class Remote {
    const timeline: seq<Database>
    var now: nat

    ghost predicate Valid()
      reads this
    {
      now < |timeline|
    }

    constructor (timeline: seq<Database>)
      requires timeline != []
      ensures Valid() && now == 0 && this.timeline == timeline
    {
      this.timeline, this.now := timeline, 0;
    }

    method Pass()
      requires Valid()
      modifies this
      ensures Valid() && old(now) <= now
    {
      var later: int := *;
      if now <= later < |timeline| { now := later; }
    }

    method ReadBookmark() returns (bookmark: string)
      requires Valid()
      modifies this
      ensures Valid() && old(now) <= now && bookmark == timeline[now].bookmark
    {
      Pass();
      bookmark := timeline[now].bookmark;
    }

    method ReadPointer() returns (pointer: Option<Pointer>)
      requires Valid()
      modifies this
      ensures Valid() && old(now) <= now && pointer == timeline[now].active
    {
      Pass();
      pointer := timeline[now].active;
    }

    /** The active pointer joined with its generation row. */
    method ReadGeneration() returns (r: Option<(string, GenerationRow)>)
      requires Valid()
      modifies this
      ensures Valid() && old(now) <= now && r == Joined(timeline[now])
    {
      Pass();
      r := Joined(timeline[now]);
    }

    method ReadTable(table: Table, generation: string) returns (rows: seq<DbRow>)
      requires Valid()
      modifies this
      ensures Valid() && old(now) <= now && multiset(rows) == multiset(RowsOf(timeline[now].entries, table, generation))
    {
      Pass();
      rows := Rearrange(RowsOf(timeline[now].entries, table, generation));
    }
  }

  function Joined(db: Database): Option<(string, GenerationRow)> {
    if db.active.Some? && db.active.value.generation in db.generations
    then Some((db.active.value.generation, db.generations[db.active.value.generation])) else None
  }

  /** Any order. */
  method Rearrange(rows: seq<DbRow>) returns (r: seq<DbRow>)
    ensures multiset(r) == multiset(rows)
  {
    r := [];
    for n := 0 to |rows|
      invariant multiset(r) == multiset(rows[..n])
    {
      var at: int := *;
      if at < 0 || at > |r| { at := 0; }
      assert r == r[..at] + r[at..];
      assert rows[..n + 1] == rows[..n] + [rows[n]];
      r := r[..at] + [rows[n]] + r[at..];
    }
    assert rows[..|rows|] == rows;
  }

  // ----- the gate

  /** Generated at most half an hour ago, and at most one minute ahead of the clock, in seconds. */
  predicate Timely(e: Envelope, at: int) {
    e.generatedAt.Some? && e.generatedAt.value - 60 <= at <= e.generatedAt.value + 1800
  }

  /** Nobody writes while the gate looks. */
  ghost predicate Quiet(timeline: seq<Database>) {
    forall i | 0 <= i < |timeline| :: timeline[i] == timeline[0]
  }

  /** Configuration and clock allow a deployment at all. */
  predicate Configured(gate: Gate, at: int) {
    && gate.otherKeyId != "" && gate.otherKeyId != gate.keyId
    && (gate.intendedSha.Some? ==> gate.intendedSha.value == gate.headSha)
    && gate.keyNotBefore <= at <= gate.keyNotAfter
  }

  ghost predicate Acceptable(gate: Gate, db: Database, at: int) {
    Configured(gate, at) && exists g, e :: Verifiable(gate, db, g, e) && Timely(e, at)
  }

  /** The checks on the selected row and its envelope. */
  method RequireBound(gate: Gate, generation: string, row: GenerationRow, at: int) returns (r: Option<Envelope>)
    ensures r.Some? <==> gate.envelope(row.envelopeJson).Some?
                         && Bound(gate, generation, row, gate.envelope(row.envelopeJson).value)
                         && Timely(gate.envelope(row.envelopeJson).value, at)
    ensures r.Some? ==> gate.envelope(row.envelopeJson) == r
  {
    if row.status != Sealed || row.issuerKeyId != gate.keyId { return None; }
    if row.producer != gate.headSha { return None; }
    var envelope := gate.envelope(row.envelopeJson);
    if envelope.None? { return None; }
    var e := envelope.value;
    if e.generation != generation || e.contentDigest != row.contentDigest || e.sourceDbDigest != row.sourceDbDigest
       || e.contractDigest != row.contractDigest || e.environment != gate.environment || e.producer != row.producer {
      return None;
    }
    if e.generatedAt.None? { return None; }
    var generatedAt := e.generatedAt.value;
    if generatedAt < gate.keyNotBefore || generatedAt > gate.keyNotAfter { return None; }
    if generatedAt > at + MAX_FUTURE_SKEW { return None; }
    if at - generatedAt > MAX_GENERATION_AGE { return None; }
    if !gate.signed(row.envelopeJson, row.signature) { return None; }
    if e.contractDigest != gate.contractDigest { return None; }
    if e.projectionStatus != "FRESH" { return None; }
    if e.cursors.source.None? || e.cursors.exported.None? || e.cursors.applied.None?
       || e.cursors.source != e.cursors.exported || e.cursors.exported != e.cursors.applied { return None; }
    if !e.coverageListed { return None; }
    r := Some(e);
  }

  ghost predicate SeenTable(gate: Gate, timeline: seq<Database>, t: Table, generation: string, m: Manifest,
                            from: nat, to: nat) {
    exists i | from <= i <= to && i < |timeline| :: m == ManifestOf(gate, RowsOf(timeline[i].entries, t, generation))
  }

  ghost predicate Observed(gate: Gate, timeline: seq<Database>, e: Envelope, generation: string,
                           observed: map<Table, Manifest>, tables: seq<Table>, from: nat, to: nat)
  {
    e.manifest.Some? && e.rowCounts.Some? &&
    forall t | t in tables ::
      && t in observed && SeenTable(gate, timeline, t, generation, observed[t], from, to)
      && t in e.manifest.value && e.manifest.value[t] == observed[t]
      && t in e.rowCounts.value && e.rowCounts.value[t] == observed[t].rowCount
  }

  lemma ObservedStep(gate: Gate, timeline: seq<Database>, e: Envelope, generation: string, observed: map<Table, Manifest>,
                     tables: seq<Table>, from: nat, now: nat, now': nat, t: Table, m: Manifest)
    requires Observed(gate, timeline, e, generation, observed, tables, from, now) && now <= now' && t !in tables
    requires SeenTable(gate, timeline, t, generation, m, from, now')
    requires t in e.manifest.value && e.manifest.value[t] == m && t in e.rowCounts.value
             && e.rowCounts.value[t] == m.rowCount
    ensures Observed(gate, timeline, e, generation, observed[t := m], tables + [t], from, now')
  {
    hide ManifestOf, RowsOf;
    forall u | u in tables ensures SeenTable(gate, timeline, u, generation, observed[u], from, now') {
      assert SeenTable(gate, timeline, u, generation, observed[u], from, now);
    }
  }

  /** One round of the table loop: recompute the manifest from the rows read and compare it with the
      signed one. */
  method RequireTable(remote: Remote, gate: Gate, generation: string, e: Envelope, t: Table) returns (r: Option<Manifest>)
    requires remote.Valid() && e.rowCounts.Some? && e.manifest.Some?
    modifies remote
    ensures remote.Valid() && old(remote.now) <= remote.now
    ensures r.Some? ==>
              && SeenTable(gate, remote.timeline, t, generation, r.value, old(remote.now), remote.now)
              && t in e.manifest.value && e.manifest.value[t] == r.value
              && t in e.rowCounts.value && e.rowCounts.value[t] == r.value.rowCount
    ensures Quiet(remote.timeline) ==> (r.Some? <==> TableFits(gate, remote.timeline[0], generation, e, t))
    ensures Quiet(remote.timeline) && r.Some? ==>
            r.value == ManifestOf(gate, RowsOf(remote.timeline[0].entries, t, generation))
  {
    hide ManifestOf, RowsOf;
    var rows := remote.ReadTable(t, generation);
    ManifestRearranged(gate, rows, RowsOf(remote.timeline[remote.now].entries, t, generation));
    ManifestCounts(gate, rows);
    SameCount(rows, RowsOf(remote.timeline[remote.now].entries, t, generation));
    assert Quiet(remote.timeline) ==> remote.timeline[remote.now] == remote.timeline[0];
    var m := ManifestOf(gate, rows);
    if t !in e.manifest.value || e.manifest.value[t] != m { return None; }
    if t !in e.rowCounts.value || e.rowCounts.value[t] != |rows| { return None; }
    r := Some(m);
  }

  /** The table loop. */
  method RequireTables(remote: Remote, gate: Gate, generation: string, e: Envelope)
    returns (r: Option<map<Table, Manifest>>)
    requires remote.Valid()
    modifies remote
    ensures remote.Valid() && old(remote.now) <= remote.now
    ensures r.Some? ==> Observed(gate, remote.timeline, e, generation, r.value, READ_ORDER, old(remote.now), remote.now)
    ensures r.Some? ==> forall t: Table :: t in r.value
    ensures Quiet(remote.timeline) ==>
            (r.Some? <==> forall t: Table :: TableFits(gate, remote.timeline[0], generation, e, t))
    ensures Quiet(remote.timeline) && r.Some? ==> r.value == Contents(gate, remote.timeline[0], generation)
  {
    hide ManifestOf, SeenTable, RowsOf, TableFits, Quiet;
    if e.rowCounts.None? || e.manifest.None? {
      Unfit(gate, remote.timeline[0], generation, e);
      return None;
    }
    OrdersDistinct();
    var order := READ_ORDER;
    var observed: map<Table, Manifest> := map[];
    for n := 0 to |order|
      invariant remote.Valid() && old(remote.now) <= remote.now
      invariant Observed(gate, remote.timeline, e, generation, observed, order[..n], old(remote.now), remote.now)
      invariant Quiet(remote.timeline) ==> forall i | 0 <= i < n ::
                  TableFits(gate, remote.timeline[0], generation, e, order[i])
                  && observed[order[i]] == ManifestOf(gate, RowsOf(remote.timeline[0].entries, order[i], generation))
    {
      ghost var before := remote.now;
      var m := RequireTable(remote, gate, generation, e, order[n]);
      if m.None? { return None; }
      SeenEarlier(gate, remote.timeline, order[n], generation, m.value, old(remote.now), before, remote.now);
      ObservedStep(gate, remote.timeline, e, generation, observed, order[..n], old(remote.now), before, remote.now,
          order[n], m.value);
      observed := observed[order[n] := m.value];
      assert order[..n + 1] == order[..n] + [order[n]];
    }
    assert order[..|order|] == order;
    forall t: Table
      ensures t in observed
      ensures Quiet(remote.timeline) ==>
                TableFits(gate, remote.timeline[0], generation, e, t)
                && observed[t] == ManifestOf(gate, RowsOf(remote.timeline[0].entries, t, generation))
    {
      EveryTable(t);
      var i :| 0 <= i < |order| && order[i] == t;
    }
    r := Some(observed);
  }

  lemma Unfit(gate: Gate, db: Database, generation: string, e: Envelope)
    requires e.rowCounts.None? || e.manifest.None?
    ensures !TableFits(gate, db, generation, e, OpsAlerts)
  {}

  lemma SeenEarlier(gate: Gate, timeline: seq<Database>, t: Table, generation: string, m: Manifest, from': nat,
                    from: nat, to: nat)
    requires SeenTable(gate, timeline, t, generation, m, from, to) && from' <= from
    ensures SeenTable(gate, timeline, t, generation, m, from', to)
  {
    hide ManifestOf, RowsOf;
  }

  lemma SameCount(a: seq<DbRow>, b: seq<DbRow>)
    requires multiset(a) == multiset(b)
    ensures |a| == |b|
  {
    assert |multiset(a)| == |a| && |multiset(b)| == |b|;
  }

  lemma ManifestCounts(gate: Gate, rows: seq<DbRow>)
    ensures ManifestOf(gate, rows).rowCount == |rows|
  {}

  lemma ObservedLater(gate: Gate, timeline: seq<Database>, e: Envelope, generation: string, observed: map<Table, Manifest>,
                      from': nat, from: nat, to: nat, to': nat)
    requires Observed(gate, timeline, e, generation, observed, READ_ORDER, from, to) && from' <= from && to <= to'
    ensures Observed(gate, timeline, e, generation, observed, READ_ORDER, from', to')
  {
    hide ManifestOf, RowsOf;
  }

  ghost predicate VerifiableDuring(gate: Gate, timeline: seq<Database>, generation: string, e: Envelope, from: nat,
                                   to: nat) {
    forall i | from <= i <= to && i < |timeline| :: Verifiable(gate, timeline[i], generation, e)
  }

  /** Every write changes the bookmark to one that was never there. */
  ghost predicate FreshBookmarks(timeline: seq<Database>) {
    Stamped(timeline, Bookmark)
  }

  /** The assumption in full. */
  lemma FreshBookmarksIff(timeline: seq<Database>)
    ensures FreshBookmarks(timeline) <==>
            forall i, j | 0 <= i < j < |timeline| && timeline[j] != timeline[j - 1] ::
              timeline[i].bookmark != timeline[j].bookmark
  {
    assert forall i, j | 0 <= i < j < |timeline| ::
        Bookmark(timeline[i]) == Bookmark(timeline[j]) <==> timeline[i].bookmark == timeline[j].bookmark;
  }

  lemma Unchanged(timeline: seq<Database>, from: nat, to: nat)
    requires FreshBookmarks(timeline) && from <= to < |timeline| && timeline[from].bookmark == timeline[to].bookmark
    ensures Constant(timeline, from, to)
  {
    Settled(timeline, Bookmark, from, to);
  }

  lemma FitCounts(gate: Gate, db: Database, generation: string, e: Envelope)
    requires ContentsFit(gate, db, generation, e)
    ensures Contents(gate, db, generation)[EndpointInventory].rowCount > 0
            && Contents(gate, db, generation)[DatasetCoverage].rowCount > 0
    ensures Contents(gate, db, generation)[OpsProjectionMetadata].rowCount > 0
    ensures forall t: Table :: TableFits(gate, db, generation, e, t)
    ensures e.contentDigest == gate.manifestDigest(Contents(gate, db, generation))
  {}

  /** Tables, content digest and the three emptiness checks.  In a window without writes around the call
      success means that the contents of its one state fit; in a quiet database that is enough. */
  method RequireContents(remote: Remote, gate: Gate, generation: string, row: GenerationRow, e: Envelope) returns (ok: bool)
    requires remote.Valid() && e.contentDigest == row.contentDigest
    modifies remote
    ensures remote.Valid() && old(remote.now) <= remote.now
    ensures ok ==> forall opening: nat, closing: nat
                     | opening <= old(remote.now) && remote.now <= closing && Constant(remote.timeline, opening, closing) ::
                     ContentsFit(gate, remote.timeline[opening], generation, e)
    ensures Quiet(remote.timeline) && ContentsFit(gate, remote.timeline[0], generation, e) ==> ok
  {
    hide ManifestOf, RowsOf, TableFits, ContentsFit, Observed, Quiet;
    ghost var start := remote.now;
    if ContentsFit(gate, remote.timeline[0], generation, e) { FitCounts(gate, remote.timeline[0], generation, e); }
    var observed := RequireTables(remote, gate, generation, e);
    if observed.None? { return false; }
    var expected := gate.manifestDigest(observed.value);
    if e.contentDigest != expected || row.contentDigest != expected { return false; }
    if observed.value[EndpointInventory].rowCount == 0 || observed.value[DatasetCoverage].rowCount == 0
       || observed.value[OpsProjectionMetadata].rowCount == 0 { return false; }
    forall opening: nat, closing: nat | opening <= start && remote.now <= closing
        && Constant(remote.timeline, opening, closing)
      ensures ContentsFit(gate, remote.timeline[opening], generation, e)
    {
      ObservedLater(gate, remote.timeline, e, generation, observed.value, opening, start, remote.now, closing);
      ObservedContents(gate, remote.timeline, opening, closing, generation, e, observed.value);
    }
    ok := true;
  }

  lemma BoundFacts(gate: Gate, generation: string, row: GenerationRow, e: Envelope)
    requires Bound(gate, generation, row, e)
    ensures e.contentDigest == row.contentDigest && e.generatedAt.Some? && gate.envelope(row.envelopeJson) == Some(e)
  {}

  lemma OneEnvelope(gate: Gate, generation: string, row: GenerationRow, e: Envelope)
    requires Bound(gate, generation, row, e)
    ensures forall e' :: Bound(gate, generation, row, e') ==> e' == e
  {}

  lemma NoEnvelope(gate: Gate, generation: string, row: GenerationRow, at: int)
    requires !(gate.envelope(row.envelopeJson).Some? && Bound(gate, generation, row, gate.envelope(row.envelopeJson).value)
               && Timely(gate.envelope(row.envelopeJson).value, at))
    ensures forall e :: !(Bound(gate, generation, row, e) && Timely(e, at))
  {}

  /** Everything between the two readings of the bookmark. */
  method VerifyUnderBookmark(remote: Remote, gate: Gate, at: int) returns (r: Option<(string, GenerationRow, Envelope)>)
    requires remote.Valid() && FreshBookmarks(remote.timeline)
    modifies remote
    ensures remote.Valid() && old(remote.now) <= remote.now
    ensures r.Some? ==> r.value.1.contentDigest == r.value.2.contentDigest && Timely(r.value.2, at)
                        && r.value.2.generatedAt.Some? && exists opening: nat, closing: nat ::
                             old(remote.now) <= opening <= closing <= remote.now
                             && VerifiableDuring(gate, remote.timeline, r.value.0, r.value.2, opening, closing)
    ensures Quiet(remote.timeline) && r.None? ==> forall g, e ::
            !(Verifiable(gate, remote.timeline[0], g, e) && Timely(e, at))
  {
    hide Bound, FreshBookmarks, ContentsFit, Timely;
    var openingBookmark := remote.ReadBookmark();
    ghost var opening := remote.now;
    var selected := remote.ReadGeneration();
    if selected.None? { return None; }
    ghost var atRow := remote.now;
    var (generation, row) := selected.value;
    var bound := RequireBound(gate, generation, row, at);
    if bound.None? {
      NoEnvelope(gate, generation, row, at);
      return None;
    }
    var e := bound.value;
    BoundFacts(gate, generation, row, e);
    var pointer := remote.ReadPointer();
    if pointer.None? || pointer.value.generation != generation { return None; }
    var fits := RequireContents(remote, gate, generation, row, e);
    if !fits {
      OneEnvelope(gate, generation, row, e);
      return None;
    }
    var finalPointer := remote.ReadPointer();
    if finalPointer != pointer { return None; }
    var finalRow := remote.ReadGeneration();
    if finalRow != selected { return None; }
    var closingBookmark := remote.ReadBookmark();
    if closingBookmark != openingBookmark { return None; }
    ghost var closing := remote.now;
    Unchanged(remote.timeline, opening, closing);
    assert remote.timeline[atRow] == remote.timeline[opening];
    assert Verifiable(gate, remote.timeline[opening], generation, e);
    assert Constant(remote.timeline, opening, closing);
    assert VerifiableDuring(gate, remote.timeline, generation, e, opening, closing);
    r := Some((generation, row, e));
  }

  /** At every instant of the window the tables hold exactly the rows that were signed, whatever these were. */
  ghost predicate SignedRowsDuring(gate: Gate, timeline: seq<Database>, generation: string, e: Envelope, from: nat,
                                   to: nat)
  {
    forall i, signed | from <= i <= to && i < |timeline| && SignedFor(gate, timeline[i], generation, e, signed) ::
      HoldsRows(timeline[i], generation, signed)
  }

  lemma VerifiedRowsDuring(gate: Gate, timeline: seq<Database>, generation: string, e: Envelope, from: nat, to: nat)
    requires VerifiableDuring(gate, timeline, generation, e, from, to)
    ensures SignedRowsDuring(gate, timeline, generation, e, from, to)
  {
    hide Verifiable, SignedFor, HoldsRows;
    forall i, signed | from <= i <= to && i < |timeline| && SignedFor(gate, timeline[i], generation, e, signed)
      ensures HoldsRows(timeline[i], generation, signed)
    {
      VerifiedRows(gate, timeline[i], generation, e, signed);
    }
  }

  /** `require_sealed_active_generation`: acceptance means that one database state, the same during the
      whole verification, holds pointer, row and contents that fit together and the rows that were signed; and
      while nobody writes, the gate accepts exactly the acceptable states. */
  method RequireSealedActiveGeneration(remote: Remote, gate: Gate, fixedNow: Option<int>)
    returns (r: Option<(string, string)>, ghost evaluatedAt: int, ghost finishedAt: int)
    requires remote.Valid() && FreshBookmarks(remote.timeline)
    modifies remote
    ensures remote.Valid() && old(remote.now) <= remote.now
    ensures r.Some? ==> exists e, opening: nat, closing: nat ::
              && old(remote.now) <= opening <= closing <= remote.now
              && VerifiableDuring(gate, remote.timeline, r.value.0, e, opening, closing)
              && SignedRowsDuring(gate, remote.timeline, r.value.0, e, opening, closing)
              && e.contentDigest == r.value.1 && Timely(e, evaluatedAt)
              && e.generatedAt.Some? && finishedAt <= e.generatedAt.value + 1800
    ensures r.Some? ==> Configured(gate, evaluatedAt) && finishedAt <= gate.keyNotAfter
    ensures fixedNow.Some? ==> evaluatedAt == finishedAt == fixedNow.value
    ensures Quiet(remote.timeline) && fixedNow.Some? ==> (r.Some? <==> Acceptable(gate, remote.timeline[0], fixedNow.value))
  {
    hide Verifiable, FreshBookmarks, SignedRowsDuring;
    r := None;
    var startClock: int := *;
    var endClock: int := *;
    var started := if fixedNow.Some? then fixedNow.value else startClock;
    var finished := if fixedNow.Some? then fixedNow.value else endClock;
    evaluatedAt, finishedAt := started, finished;
    if gate.otherKeyId == "" || gate.otherKeyId == gate.keyId { return; }
    if gate.intendedSha.Some? && gate.intendedSha.value != gate.headSha { return; }
    if started < gate.keyNotBefore || started > gate.keyNotAfter { return; }
    assert Configured(gate, started);
    var verified := VerifyUnderBookmark(remote, gate, started);
    if verified.None? { return; }
    var (generation, row, e) := verified.value;
    ghost var opening: nat, closing: nat :|
      old(remote.now) <= opening <= closing <= remote.now
          && VerifiableDuring(gate, remote.timeline, generation, e, opening, closing);
    assert Verifiable(gate, remote.timeline[opening], generation, e);
    VerifiedRowsDuring(gate, remote.timeline, generation, e, opening, closing);
    if finished > gate.keyNotAfter || finished - e.generatedAt.value > MAX_GENERATION_AGE { return; }
    r := Some((generation, row.contentDigest));
  }

  ghost predicate Constant(timeline: seq<Database>, from: nat, to: nat) {
    from <= to < |timeline| && forall i | from <= i <= to :: timeline[i] == timeline[from]
  }

  /** In a constant window the recomputed manifests are those of its one database state. */
  lemma ObservedTable(gate: Gate, timeline: seq<Database>, opening: nat, closing: nat, generation: string,
                      e: Envelope, observed: map<Table, Manifest>, t: Table)
    requires Constant(timeline, opening, closing)
    requires Observed(gate, timeline, e, generation, observed, READ_ORDER, opening, closing)
    ensures t in observed && t in e.manifest.value && t in e.rowCounts.value
    ensures observed[t] == e.manifest.value[t] == ManifestOf(gate, RowsOf(timeline[opening].entries, t, generation))
    ensures observed[t].rowCount == e.rowCounts.value[t] == |RowsOf(timeline[opening].entries, t, generation)|
  {
    hide ManifestOf, RowsOf;
    EveryTable(t);
    assert SeenTable(gate, timeline, t, generation, observed[t], opening, closing);
    ManifestCounts(gate, RowsOf(timeline[opening].entries, t, generation));
  }

  lemma ObservedContents(gate: Gate, timeline: seq<Database>, opening: nat, closing: nat, generation: string,
                         e: Envelope, observed: map<Table, Manifest>)
    requires Constant(timeline, opening, closing)
    requires Observed(gate, timeline, e, generation, observed, READ_ORDER, opening, closing)
    requires EndpointInventory in observed && observed[EndpointInventory].rowCount > 0
    requires DatasetCoverage in observed && observed[DatasetCoverage].rowCount > 0
    requires OpsProjectionMetadata in observed && observed[OpsProjectionMetadata].rowCount > 0
    requires e.contentDigest == gate.manifestDigest(observed)
    ensures ContentsFit(gate, timeline[opening], generation, e)
  {
    hide ManifestOf, RowsOf, Observed;
    var db := timeline[opening];
    ObservedPublished(gate, timeline, e, generation, observed, opening, closing);
    forall t: Table
      ensures t in observed && TableFits(gate, db, generation, e, t)
      ensures observed[t] == ManifestOf(gate, RowsOf(db.entries, t, generation))
              && observed[t].rowCount == |RowsOf(db.entries, t, generation)|
    {
      ObservedTable(gate, timeline, opening, closing, generation, e, observed, t);
    }
    assert observed == Contents(gate, db, generation);
  }

  ghost predicate Published(e: Envelope) {
    e.manifest.Some? && e.rowCounts.Some?
  }

  lemma ObservedPublished(gate: Gate, timeline: seq<Database>, e: Envelope, generation: string,
                          observed: map<Table, Manifest>, opening: nat, closing: nat)
    requires Observed(gate, timeline, e, generation, observed, READ_ORDER, opening, closing)
    ensures Published(e)
  {}
}
