/** The projection database: generations, projected rows and the pointer to the active generation. */
module ProjectionStore {
  import opened Outcomes

  /** `PROJECTED_CONTENT_TABLES` */
  datatype Table =
    | DatasetCoverage | CoverageSegments | EndpointInventory | CollectionSlaStatus | IngestionRunLog
    | IngestionValidation | RawRetentionManifests | ReceiptProductMaterializations | IngestionWatermarks
    | OpsSyncFeed | OpsProjectionMetadata | OpsB0Status | OpsReadyState | OpsReadySnapshots
    | OpsSnapshotQuality | OpsStoragePlaneStatus | OpsAlerts

  /** The order in which a script writes them. */
  const TABLE_ORDER: seq<Table> := [
    DatasetCoverage, CoverageSegments, EndpointInventory, CollectionSlaStatus, IngestionRunLog, IngestionValidation,
    RawRetentionManifests, ReceiptProductMaterializations, IngestionWatermarks, OpsSyncFeed, OpsProjectionMetadata,
    OpsB0Status, OpsReadyState, OpsReadySnapshots, OpsSnapshotQuality, OpsStoragePlaneStatus, OpsAlerts
  ]

  /** The order in which the gate reads them, by name. */
  const READ_ORDER: seq<Table> := [
    CollectionSlaStatus, CoverageSegments, DatasetCoverage, EndpointInventory, IngestionRunLog, IngestionValidation,
    IngestionWatermarks, OpsAlerts, OpsB0Status, OpsProjectionMetadata, OpsReadySnapshots, OpsReadyState,
    OpsSnapshotQuality, OpsStoragePlaneStatus, OpsSyncFeed, RawRetentionManifests, ReceiptProductMaterializations
  ]

  lemma OrdersDistinct()
    ensures forall i, j | 0 <= i < j < |TABLE_ORDER| :: TABLE_ORDER[i] != TABLE_ORDER[j]
    ensures forall i, j | 0 <= i < j < |READ_ORDER| :: READ_ORDER[i] != READ_ORDER[j]
  {}

  lemma EveryTable(t: Table)
    ensures t in TABLE_ORDER && t in READ_ORDER
  {
    var (i, j) := match t
      case DatasetCoverage => (0, 2) case CoverageSegments => (1, 1) case EndpointInventory => (2, 3)
      case CollectionSlaStatus => (3, 0) case IngestionRunLog => (4, 4) case IngestionValidation => (5, 5)
      case RawRetentionManifests => (6, 15) case ReceiptProductMaterializations => (7, 16)
      case IngestionWatermarks => (8, 6) case OpsSyncFeed => (9, 14) case OpsProjectionMetadata => (10, 9)
      case OpsB0Status => (11, 8) case OpsReadyState => (12, 11) case OpsReadySnapshots => (13, 10)
      case OpsSnapshotQuality => (14, 12) case OpsStoragePlaneStatus => (15, 13) case OpsAlerts => (16, 7);
    assert TABLE_ORDER[i] == t && READ_ORDER[j] == t;
  }

  datatype Cursors = Cursors(source: Option<int>, exported: Option<int>, applied: Option<int>)

  /** All cursors known and equal. */
  predicate Aligned(c: Cursors) {
    c.source.Some? && c.source == c.exported && c.exported == c.applied
  }

  /** A row: the generation it belongs to, its cursors (`ops_projection_metadata` only) and the rest. */
  datatype DbRow = DbRow(generation: string, cursors: Cursors, fields: string)

  datatype Status = Open | Sealed

  datatype Entry = Entry(table: Table, row: DbRow)

  /** `SELECT * FROM table WHERE projection_generation_id = generation`, in insertion order. */
  function RowsOf(entries: seq<Entry>, table: Table, generation: string): seq<DbRow> {
    if entries == [] then []
    else
      var last := entries[|entries| - 1];
      RowsOf(entries[..|entries| - 1], table, generation)
      + if last.table == table && last.row.generation == generation then [last.row] else []
  }

  lemma RowsOfAppend(entries: seq<Entry>, e: Entry, table: Table, generation: string)
    ensures RowsOf(entries + [e], table, generation)
         == RowsOf(entries, table, generation) + if e.table == table && e.row.generation == generation then [e.row] else []
  {
    assert (entries + [e])[..|entries|] == entries;
  }

  lemma {:induction false} RowsOfTagged(entries: seq<Entry>, table: Table, generation: string)
    ensures forall i | 0 <= i < |RowsOf(entries, table, generation)| ::
            RowsOf(entries, table, generation)[i].generation == generation
  {
    if entries != [] { RowsOfTagged(entries[..|entries| - 1], table, generation); }
  }
}
