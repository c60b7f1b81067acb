/**
  Choosing receipts for a projection: the latest operational receipt of every segment for the raw
  acquisition table, and the latest active signed receipt of every segment for the products.
  Signature checks, digests and catalogue reads are parameters.
 */
module Receipts {
  import opened Outcomes
  import opened ByteOrder

  datatype Segment = Segment(source: Bytes, dataset: Bytes, id: Bytes)

  /** One row of `collection_receipts`; `success` is read off the status, `recovered` and `trusted` are
      read off the digests if these can be `decoded`. */
  datatype Receipt = Receipt(
    segment: Segment, run: int, status: Bytes, success: bool, error: Option<string>, checkedAt: Bytes,
    decoded: bool, recovered: bool, trusted: bool)

  /** `PRIMARY KEY (source, dataset, segment_id, run_id)` */
  ghost predicate Keyed(table: seq<Receipt>) {
    forall i, j | 0 <= i < j < |table| && table[i].segment == table[j].segment :: table[i].run != table[j].run
  }

  // ----- ORDER BY source, dataset, segment_id, run_id DESC, checked_at DESC, status DESC

  predicate SegmentLeq(a: Segment, b: Segment) {
    if a.source != b.source then Leq(a.source, b.source)
    else if a.dataset != b.dataset then Leq(a.dataset, b.dataset)
    else Leq(a.id, b.id)
  }

  predicate RowLeq(a: Receipt, b: Receipt) {
    if a.segment != b.segment then SegmentLeq(a.segment, b.segment)
    else if a.run != b.run then a.run > b.run
    else if a.checkedAt != b.checkedAt then Leq(b.checkedAt, a.checkedAt)
    else Leq(b.status, a.status)
  }

  lemma SegmentOrder(a: Segment, b: Segment, c: Segment)
    ensures SegmentLeq(a, b) || SegmentLeq(b, a)
    ensures SegmentLeq(a, b) && SegmentLeq(b, a) ==> a == b
    ensures SegmentLeq(a, b) && SegmentLeq(b, c) ==> SegmentLeq(a, c)
  {
    BytesOrder(a.source, b.source, c.source);
    BytesOrder(a.dataset, b.dataset, c.dataset);
    BytesOrder(a.id, b.id, c.id);
  }

  lemma BytesOrder(a: Bytes, b: Bytes, c: Bytes)
    ensures Leq(a, b) || Leq(b, a)
    ensures Leq(a, b) && Leq(b, a) ==> a == b
    ensures Leq(a, b) && Leq(b, c) ==> Leq(a, c)
  {
    LeqTotal(a, b);
    if Leq(a, b) && Leq(b, a) { LeqAntisymmetric(a, b); }
    if Leq(a, b) && Leq(b, c) { LeqTransitive(a, b, c); }
  }

  lemma RowOrder(a: Receipt, b: Receipt, c: Receipt)
    ensures RowLeq(a, b) || RowLeq(b, a)
    ensures RowLeq(a, b) && RowLeq(b, c) ==> RowLeq(a, c)
  {
    hide SegmentLeq;
    SegmentOrder(a.segment, b.segment, c.segment);
    SegmentOrder(b.segment, a.segment, c.segment);
    BytesOrder(c.checkedAt, b.checkedAt, a.checkedAt);
    BytesOrder(b.checkedAt, a.checkedAt, b.checkedAt);
    BytesOrder(c.status, b.status, a.status);
    BytesOrder(b.status, a.status, b.status);
  }

  ghost predicate Arranged(rows: seq<Receipt>) {
    forall i, j | 0 <= i < j < |rows| :: RowLeq(rows[i], rows[j])
  }

  /** The query result: all rows, ordered. */
  method OrderBy(table: seq<Receipt>) returns (rows: seq<Receipt>)
    ensures Arranged(rows) && multiset(rows) == multiset(table)
  {
    rows := [];
    for n := 0 to |table|
      invariant Arranged(rows) && multiset(rows) == multiset(table[..n])
    {
      assert table[..n + 1] == table[..n] + [table[n]];
      rows := InsertRow(table[n], rows);
    }
    assert table[..|table|] == table;
  }

  method InsertRow(x: Receipt, rows: seq<Receipt>) returns (r: seq<Receipt>)
    requires Arranged(rows)
    ensures Arranged(r) && multiset(r) == multiset(rows) + multiset{x}
  {
    hide RowLeq;
    var n := 0;
    while n < |rows| && RowLeq(rows[n], x)
      invariant n <= |rows|
      invariant forall i | 0 <= i < n :: RowLeq(rows[i], x)
    {
      n := n + 1;
    }
    forall i | n <= i < |rows| ensures RowLeq(x, rows[i]) {
      RowOrder(x, rows[n], rows[i]);
      RowOrder(rows[n], x, x);
    }
    assert rows == rows[..n] + rows[n..];
    r := rows[..n] + [x] + rows[n..];
  }

  // ----- raw acquisition

  datatype Manifest = Manifest(
    key: string, pages: int, rows: int, bytes: int, digest: string, completeness: string, createdAt: Bytes)

  /** The manifest stands for its key, counts and digest, which are shown as they are. */
  datatype RawRow = RawRow(
    segment: Segment, run: int, manifest: Option<Manifest>, completeness: string, createdAt: Bytes, reason: string)

  /** The newest receipt of its segment that is not recovered-only. */
  ghost predicate Latest(table: seq<Receipt>, r: Receipt) {
    r in table && !r.recovered && forall x | x in table && !x.recovered && x.segment == r.segment :: x.run <= r.run
  }

  function Lookup(manifests: map<(Bytes, int), Manifest>, r: Receipt): Option<Manifest> {
    if (r.segment.dataset, r.run) in manifests then Some(manifests[(r.segment.dataset, r.run)]) else None
  }

  /** A failed receipt shows as FAILED with its error, whatever its manifest says; a successful one shows
      its manifest, or that there is none. */
  ghost predicate Shows(row: RawRow, r: Receipt, manifests: map<(Bytes, int), Manifest>) {
    && row.segment == r.segment && row.run == r.run && row.manifest == Lookup(manifests, r)
    && (!r.success ==> row.completeness == "FAILED"
                       && row.reason == if r.error.Some? && r.error.value != "" then r.error.value
                                        else "latest operational acquisition receipt failed")
    && (r.success && row.manifest.None? ==>
        row.completeness == "NOT_CAPTURED" && row.reason == "latest successful receipt has no raw retention manifest")
    && (r.success && row.manifest.Some? ==>
        row.completeness == row.manifest.value.completeness && row.reason == "latest operational raw acquisition receipt")
    && row.createdAt == if row.manifest.Some? && row.manifest.value.createdAt != [] then row.manifest.value.createdAt
                        else r.checkedAt
  }

  ghost predicate Justified(row: RawRow, table: seq<Receipt>, manifests: map<(Bytes, int), Manifest>) {
    exists r :: Latest(table, r) && Shows(row, r, manifests)
  }

  ghost predicate Covered(rows: seq<RawRow>, s: Segment) {
    exists i | 0 <= i < |rows| :: rows[i].segment == s
  }

  /** One row for each segment with an operational receipt, and it shows the latest one. */
  ghost predicate Selection(rows: seq<RawRow>, table: seq<Receipt>, manifests: map<(Bytes, int), Manifest>) {
    && (forall i, j | 0 <= i < j < |rows| :: rows[i].segment != rows[j].segment)
    && (forall i | 0 <= i < |rows| :: Justified(rows[i], table, manifests))
    && (forall r | r in table && !r.recovered :: Covered(rows, r.segment))
  }

  ghost predicate InOrder(rows: seq<RawRow>) {
    forall i, j | 0 <= i < j < |rows| :: SegmentLeq(rows[i].segment, rows[j].segment)
  }

  /** Every manifest belongs to an operational receipt. */
  ghost predicate Anchored(table: seq<Receipt>, manifests: map<(Bytes, int), Manifest>) {
    forall k | k in manifests :: exists r | r in table :: !r.recovered && (r.segment.dataset, r.run) == k
  }

  /** The row for a receipt: a failed one is shown as failed, whatever its manifest says. */
  method ShowReceipt(r: Receipt, manifests: map<(Bytes, int), Manifest>) returns (row: RawRow)
    ensures Shows(row, r, manifests) && row.segment == r.segment
  {
    var manifest := Lookup(manifests, r);
    var completeness, reason;
    if !r.success {
      completeness := "FAILED";
      reason := "latest operational acquisition receipt failed";
      if r.error.Some? && r.error.value != "" { reason := r.error.value; }
    } else if manifest.None? {
      completeness, reason := "NOT_CAPTURED", "latest successful receipt has no raw retention manifest";
    } else {
      completeness, reason := manifest.value.completeness, "latest operational raw acquisition receipt";
    }
    var createdAt := r.checkedAt;
    if manifest.Some? && manifest.value.createdAt != [] { createdAt := manifest.value.createdAt; }
    row := RawRow(r.segment, r.run, manifest, completeness, createdAt, reason);
  }

  /** The loop over the ordered rows. */
  method SelectRaw(rows: seq<Receipt>, manifests: map<(Bytes, int), Manifest>, recovered: set<(Segment, int)>)
    returns (projected: seq<RawRow>)
    requires Arranged(rows) && forall r | r in rows :: r.recovered <==> (r.segment, r.run) in recovered
    ensures Selection(projected, rows, manifests) && InOrder(projected)
  {
    hide RowLeq, SegmentLeq, Covered, Justified, Shows, Latest;
    projected := [];
    var selected: set<Segment> := {};
    for n := 0 to |rows|
      invariant forall i | 0 <= i < |projected| :: projected[i].segment in selected
      invariant forall i, j | 0 <= i < j < |projected| :: projected[i].segment != projected[j].segment
      invariant forall i | 0 <= i < |projected| :: Justified(projected[i], rows, manifests)
      invariant forall i | 0 <= i < n && !rows[i].recovered :: rows[i].segment in selected
      invariant forall s | s in selected :: Covered(projected, s)
      invariant InOrder(projected)
      invariant forall i | 0 <= i < |projected| :: exists l | 0 <= l < n :: rows[l].segment == projected[i].segment
    {
      var r := rows[n];
      assert r in rows;
      if (r.segment, r.run) in recovered { continue; }
      if r.segment in selected { continue; }
      FirstIsLatest(rows, n);
      var row := ShowReceipt(r, manifests);
      ShownIsJustified(row, r, rows, manifests);
      ghost var before := projected;
      RowsInOrder(rows, n);
      selected := selected + {r.segment};
      projected := projected + [row];
      CoveredGrows(before, row);
    }
    forall r | r in rows && !r.recovered ensures Covered(projected, r.segment) {
      var i :| 0 <= i < |rows| && rows[i] == r;
      assert rows[i].segment in selected;
    }
  }

  lemma RowsInOrder(rows: seq<Receipt>, n: nat)
    requires Arranged(rows) && n < |rows|
    ensures forall l | 0 <= l < n :: SegmentLeq(rows[l].segment, rows[n].segment)
  {
    hide SegmentLeq;
    forall l | 0 <= l < n ensures SegmentLeq(rows[l].segment, rows[n].segment) {
      assert RowLeq(rows[l], rows[n]);
      SegmentOrder(rows[l].segment, rows[n].segment, rows[n].segment);
    }
  }

  lemma ShownIsJustified(row: RawRow, r: Receipt, table: seq<Receipt>, manifests: map<(Bytes, int), Manifest>)
    requires Latest(table, r) && Shows(row, r, manifests)
    ensures Justified(row, table, manifests)
  {}

  lemma CoveredGrows(rows: seq<RawRow>, row: RawRow)
    ensures forall s :: Covered(rows + [row], s) <==> Covered(rows, s) || s == row.segment
  {
    forall s ensures Covered(rows + [row], s) <==> Covered(rows, s) || s == row.segment {
      assert forall i | 0 <= i < |rows| :: (rows + [row])[i] == rows[i];
      assert (rows + [row])[|rows|] == row;
      if Covered(rows, s) {
        var i :| 0 <= i < |rows| && rows[i].segment == s;
        assert (rows + [row])[i].segment == s;
      }
    }
  }

  /** In query order, the first operational row of a segment is its latest. */
  lemma FirstIsLatest(rows: seq<Receipt>, n: nat)
    requires Arranged(rows) && n < |rows| && !rows[n].recovered
    requires forall i | 0 <= i < n && !rows[i].recovered :: rows[i].segment != rows[n].segment
    ensures Latest(rows, rows[n])
  {
    forall x | x in rows && !x.recovered && x.segment == rows[n].segment ensures x.run <= rows[n].run {
      var i :| 0 <= i < |rows| && rows[i] == x;
      if i > n { assert RowLeq(rows[n], rows[i]); }
    }
  }

  /** The run log has the receipt's run once, under its source. */
  ghost predicate BoundToRun(log: seq<(int, Bytes)>, r: Receipt) {
    exists i | 0 <= i < |log| ::
      log[i] == (r.run, r.segment.source) && forall j | 0 <= j < |log| && log[j].0 == r.run :: j == i
  }

  /** What is required of every receipt; `sources` is the frozen inventory of datasets. */
  ghost predicate Authorised(sources: map<Bytes, Bytes>, log: seq<(int, Bytes)>, r: Receipt) {
    && r.run > 0 && BoundToRun(log, r)
    && r.segment.source != [] && r.segment.dataset != [] && r.segment.id != []
    && r.segment.dataset in sources && sources[r.segment.dataset] == r.segment.source
    && r.decoded
  }

  /** The positions below n that satisfy the condition. */
  ghost function Places(log: seq<(int, Bytes)>, n: nat, wanted: ((int, Bytes)) -> bool): (places: set<int>)
    requires n <= |log|
  {
    set i | 0 <= i < n && wanted(log[i])
  }

  lemma PlacesStep(log: seq<(int, Bytes)>, n: nat, wanted: ((int, Bytes)) -> bool)
    requires n < |log|
    ensures |Places(log, n + 1, wanted)| == |Places(log, n, wanted)| + if wanted(log[n]) then 1 else 0
  {
    assert Places(log, n + 1, wanted) == Places(log, n, wanted) + if wanted(log[n]) then {n} else {};
  }

  method CountWhere(log: seq<(int, Bytes)>, wanted: ((int, Bytes)) -> bool) returns (count: nat)
    ensures count == |Places(log, |log|, wanted)|
  {
    count := 0;
    for n := 0 to |log|
      invariant count == |Places(log, n, wanted)|
    {
      PlacesStep(log, n, wanted);
      if wanted(log[n]) { count := count + 1; }
    }
  }

  lemma OnlyElement<T>(s: set<T>, x: T)
    requires x in s && |s| == 1
    ensures s == {x}
  {
    assert |s - {x}| == 0;
  }

  /** One place has the run, and one has the run under the source, exactly when the run is bound. */
  lemma CountedOnce(log: seq<(int, Bytes)>, r: Receipt, runs: set<int>, own: set<int>)
    requires runs == set i | 0 <= i < |log| && log[i].0 == r.run
    requires own == set i | 0 <= i < |log| && log[i] == (r.run, r.segment.source)
    ensures BoundToRun(log, r) <==> |runs| == 1 && |own| == 1
  {
    if BoundToRun(log, r) {
      var i :| 0 <= i < |log| && log[i] == (r.run, r.segment.source)
               && forall j | 0 <= j < |log| && log[j].0 == r.run :: j == i;
      assert runs == {i} && own == {i};
    }
    if |runs| == 1 && |own| == 1 {
      var i :| i in own;
      OnlyElement(runs, i);
      assert forall j | 0 <= j < |log| && log[j].0 == r.run :: j in runs;
    }
  }

  /** The checks of one receipt, in the program's order. */
  method CheckReceipt(x: Receipt, sources: map<Bytes, Bytes>, log: seq<(int, Bytes)>) returns (ok: bool)
    ensures ok <==> Authorised(sources, log, x)
  {
    if x.run <= 0 { return false; }
    var ofRun := (row: (int, Bytes)) => row.0 == x.run;
    var ofSource := (row: (int, Bytes)) => row == (x.run, x.segment.source);
    var runs := CountWhere(log, ofRun);
    var own := CountWhere(log, ofSource);
    CountedOnce(log, x, Places(log, |log|, ofRun), Places(log, |log|, ofSource));
    if runs != 1 || own != 1 { return false; }
    if x.segment.source == [] || x.segment.dataset == [] || x.segment.id == [] { return false; }
    if x.segment.dataset !in sources { return false; }
    if x.segment.source != sources[x.segment.dataset] { return false; }
    ok := x.decoded;
  }

  /** The checks of all receipts.  It also collects which are recovered-only and which runs can have a manifest. */
  method CheckReceipts(table: seq<Receipt>, sources: map<Bytes, Bytes>, log: seq<(int, Bytes)>)
    returns (r: Option<(set<(Segment, int)>, set<(Bytes, int)>)>)
    ensures r.Some? <==> Keyed(table) && forall i | 0 <= i < |table| :: Authorised(sources, log, table[i])
    ensures r.Some? ==> forall x | x in table :: x.recovered <==> (x.segment, x.run) in r.value.0
    ensures r.Some? ==> forall k :: k in r.value.1 <==>
              exists x | x in table :: !x.recovered && (x.segment.dataset, x.run) == k
  {
    hide Authorised;
    var known: set<(Segment, int)>, recovered: set<(Segment, int)>, operational: set<(Bytes, int)> := {}, {}, {};
    for n := 0 to |table|
      invariant forall i | 0 <= i < n :: Authorised(sources, log, table[i])
      invariant forall k :: k in known <==> exists i | 0 <= i < n :: (table[i].segment, table[i].run) == k
      invariant forall i, j | 0 <= i < j < n :: (table[i].segment, table[i].run) != (table[j].segment, table[j].run)
      invariant forall k | k in recovered :: k in known
      invariant forall i | 0 <= i < n :: table[i].recovered <==> (table[i].segment, table[i].run) in recovered
      invariant forall k :: k in operational <==> exists i | 0 <= i < n ::
                  !table[i].recovered && (table[i].segment.dataset, table[i].run) == k
    {
      var x := table[n];
      if (x.segment, x.run) in known {
        ghost var i :| 0 <= i < n && (table[i].segment, table[i].run) == (x.segment, x.run);
        assert !Keyed(table);
        return None;
      }
      var ok := CheckReceipt(x, sources, log);
      if !ok { return None; }
      known := known + {(x.segment, x.run)};
      if x.recovered {
        recovered := recovered + {(x.segment, x.run)};
      } else {
        operational := operational + {(x.segment.dataset, x.run)};
      }
    }
    r := Some((recovered, operational));
  }

  /** `_read_current_raw_acquisition_segments`, from the receipt, run-log and manifest tables. */
  method ReadRawSegments(table: seq<Receipt>, sources: map<Bytes, Bytes>, log: seq<(int, Bytes)>,
                         manifests: map<(Bytes, int), Manifest>)
    returns (r: Option<seq<RawRow>>)
    ensures r.Some? <==>
            && Keyed(table) && (forall i | 0 <= i < |table| :: Authorised(sources, log, table[i]))
            && Anchored(table, manifests)
    ensures r.Some? ==> Selection(r.value, table, manifests) && InOrder(r.value)
  {
    hide Selection, RowLeq, SegmentLeq, Authorised, Keyed;
    var checked := CheckReceipts(table, sources, log);
    if checked.None? { return None; }
    var (recovered, operational) := checked.value;
    if exists k | k in manifests :: k !in operational { return None; }
    var rows := OrderBy(table);
    SameRows(rows, table);
    var projected := SelectRaw(rows, manifests, recovered);
    SelectionMoves(projected, rows, table, manifests);
    r := Some(projected);
  }

  lemma SameRows(rows: seq<Receipt>, table: seq<Receipt>)
    requires multiset(rows) == multiset(table)
    ensures forall r :: r in rows <==> r in table
  {
    forall r ensures r in rows <==> r in table {
      assert r in multiset(rows) <==> r in multiset(table);
    }
  }

  lemma SelectionMoves(projected: seq<RawRow>, rows: seq<Receipt>, table: seq<Receipt>,
                       manifests: map<(Bytes, int), Manifest>)
    requires Selection(projected, rows, manifests) && forall r :: r in rows <==> r in table
    ensures Selection(projected, table, manifests)
  {
    hide Shows;
    forall i | 0 <= i < |projected| ensures Justified(projected[i], table, manifests) {
      assert Justified(projected[i], rows, manifests);
      var r :| Latest(rows, r) && Shows(projected[i], r, manifests);
      assert Latest(table, r);
    }
  }

  /** An older success never hides a newer failure. */
  lemma NewerFailureShows(projected: seq<RawRow>, table: seq<Receipt>, manifests: map<(Bytes, int), Manifest>, r: Receipt)
    requires Keyed(table) && Selection(projected, table, manifests) && Latest(table, r) && !r.success
    ensures exists i | 0 <= i < |projected| ::
              projected[i].segment == r.segment && projected[i].run == r.run && projected[i].completeness == "FAILED"
  {
    assert Covered(projected, r.segment);
    var i :| 0 <= i < |projected| && projected[i].segment == r.segment;
    assert Justified(projected[i], table, manifests);
    var x :| Latest(table, x) && Shows(projected[i], x, manifests);
    OneLatest(table, x, r);
  }

  /** A segment whose latest operational receipt succeeded is shown with the manifest of that acquisition, or as
      not captured when there is none. */
  lemma LatestSuccessShows(projected: seq<RawRow>, table: seq<Receipt>, manifests: map<(Bytes, int), Manifest>, r: Receipt)
    requires Keyed(table) && Selection(projected, table, manifests) && Latest(table, r) && r.success
    ensures exists i | 0 <= i < |projected| ::
              && projected[i].segment == r.segment && projected[i].run == r.run
              && var key := (r.segment.dataset, r.run);
                 if key in manifests
                 then
                   && projected[i].manifest == Some(manifests[key])
                   && projected[i].completeness == manifests[key].completeness
                 else projected[i].manifest.None? && projected[i].completeness == "NOT_CAPTURED"
  {
    assert Covered(projected, r.segment);
    var i :| 0 <= i < |projected| && projected[i].segment == r.segment;
    assert Justified(projected[i], table, manifests);
    var x :| Latest(table, x) && Shows(projected[i], x, manifests);
    OneLatest(table, x, r);
  }

  lemma OneLatest(table: seq<Receipt>, a: Receipt, b: Receipt)
    requires Keyed(table) && Latest(table, a) && Latest(table, b) && a.segment == b.segment
    ensures a == b
  {
    var i :| 0 <= i < |table| && table[i] == a;
    var j :| 0 <= j < |table| && table[j] == b;
  }

  lemma SelectedInBoth(a: seq<RawRow>, b: seq<RawRow>, table: seq<Receipt>, manifests: map<(Bytes, int), Manifest>, i: nat)
    requires Keyed(table) && Selection(a, table, manifests) && Selection(b, table, manifests) && i < |a|
    ensures a[i] in b
  {
    hide Shows, Keyed;
    assert Justified(a[i], table, manifests);
    var x :| Latest(table, x) && Shows(a[i], x, manifests);
    ShowsFacts(a[i], x, manifests);
    assert Covered(b, x.segment);
    var j :| 0 <= j < |b| && b[j].segment == x.segment;
    assert Justified(b[j], table, manifests);
    var y :| Latest(table, y) && Shows(b[j], y, manifests);
    ShowsFacts(b[j], y, manifests);
    OneLatest(table, x, y);
    ShowsAlike(a[i], b[j], x, manifests);
    assert b[j] == a[i];
  }

  /** The result does not depend on how the receipts were stored. */
  lemma SelectionDetermined(a: seq<RawRow>, b: seq<RawRow>, table: seq<Receipt>, table': seq<Receipt>,
                            manifests: map<(Bytes, int), Manifest>)
    requires Keyed(table) && multiset(table) == multiset(table')
    requires Selection(a, table, manifests) && InOrder(a) && Selection(b, table', manifests) && InOrder(b)
    ensures a == b
  {
    hide Justified, Covered, SegmentLeq;
    SameRows(table, table');
    SelectionMoves(b, table', table, manifests);
    forall i | 0 <= i < |a| ensures a[i] in b { SelectedInBoth(a, b, table, manifests, i); }
    forall i | 0 <= i < |b| ensures b[i] in a { SelectedInBoth(b, a, table, manifests, i); }
    SameOrder(a, b);
  }

  ghost predicate Within(a: seq<RawRow>, b: seq<RawRow>) {
    forall i | 0 <= i < |a| :: a[i] in b
  }

  ghost predicate Ascending(rows: seq<RawRow>) {
    InOrder(rows) && forall i, j | 0 <= i < j < |rows| :: rows[i].segment != rows[j].segment
  }

  lemma {:induction false} SameOrder(a: seq<RawRow>, b: seq<RawRow>)
    requires Ascending(a) && Ascending(b) && Within(a, b) && Within(b, a)
    ensures a == b
  {
    assert a != [] ==> a[|a| - 1] in b;
    assert b != [] ==> b[|b| - 1] in a;
    if a != [] && b != [] {
      SameLast(a, b);
      AllButLast(a, b);
      AllButLast(b, a);
      var c, d := a[..|a| - 1], b[..|b| - 1];
      assert Ascending(c) && Ascending(d);
      hide Within, Ascending;
      SameOrder(c, d);
      assert a == c + [a[|a| - 1]] && b == d + [b[|b| - 1]];
    }
  }

  lemma SameLast(a: seq<RawRow>, b: seq<RawRow>)
    requires Ascending(a) && Ascending(b) && Within(a, b) && Within(b, a) && a != [] && b != []
    ensures a[|a| - 1] == b[|b| - 1]
  {
    hide SegmentLeq;
    var x, y := a[|a| - 1], b[|b| - 1];
    assert x in b && y in a;
    var i :| 0 <= i < |b| && b[i] == x;
    var j :| 0 <= j < |a| && a[j] == y;
    SegmentOrder(x.segment, y.segment, x.segment);
  }

  lemma AllButLast(a: seq<RawRow>, b: seq<RawRow>)
    requires a != [] && b != [] && a[|a| - 1] == b[|b| - 1] && Within(a, b)
    requires Ascending(a)
    ensures Within(a[..|a| - 1], b[..|b| - 1])
  {
    hide SegmentLeq;
    forall i | 0 <= i < |a| - 1 ensures a[i] in b[..|b| - 1] {
      assert b == b[..|b| - 1] + [b[|b| - 1]];
      assert a[i] in b && a[i] != b[|b| - 1];
    }
  }

  lemma ShowsFacts(row: RawRow, r: Receipt, manifests: map<(Bytes, int), Manifest>)
    requires Shows(row, r, manifests)
    ensures row.segment == r.segment && row.run == r.run
  {}

  lemma ShowsAlike(a: RawRow, b: RawRow, r: Receipt, manifests: map<(Bytes, int), Manifest>)
    requires Shows(a, r, manifests) && Shows(b, r, manifests)
    ensures b == a
  {}

  // ----- products

  /** What verification says of a trusted-marked receipt: a closure, revoked but auditable, or corrupt. */
  datatype Verdict = Active(run: int, generation: int) | Revoked | Corrupt

  datatype Product = Product(segment: Segment, run: int, body: string)

  /** A receipt that can vouch for a product. */
  ghost predicate Eligible(table: seq<Receipt>, verdict: Receipt -> Verdict, r: Receipt) {
    r in table && r.trusted && verdict(r).Active?
  }

  /** The eligible receipt of the segment with the highest run. */
  ghost predicate Current(table: seq<Receipt>, verdict: Receipt -> Verdict, r: Receipt) {
    Eligible(table, verdict, r) && forall x | Eligible(table, verdict, x) && x.segment == r.segment :: x.run <= r.run
  }

  predicate ReceiptOk(verdict: Receipt -> Verdict, r: Receipt) {
    r.run > 0 && (r.trusted ==> verdict(r).Revoked? || verdict(r) == Active(r.run, r.run))
  }

  /** The receipt loop: any input order gives the current receipt of every segment. */
  method SelectCurrent(table: seq<Receipt>, verdict: Receipt -> Verdict) returns (r: Option<map<Segment, Receipt>>)
    requires Keyed(table)
    ensures r.Some? <==> forall i | 0 <= i < |table| :: ReceiptOk(verdict, table[i])
    ensures r.Some? ==> forall s | s in r.value :: r.value[s].segment == s && Current(table, verdict, r.value[s])
    ensures r.Some? ==> forall x | Eligible(table, verdict, x) :: x.segment in r.value
  {
    var eligible: map<Segment, Receipt> := map[];
    for n := 0 to |table|
      invariant forall i | 0 <= i < n :: ReceiptOk(verdict, table[i])
      invariant forall s | s in eligible :: eligible[s].segment == s && Eligible(table, verdict, eligible[s])
      invariant forall i | 0 <= i < n && table[i].trusted && verdict(table[i]).Active? ::
                  table[i].segment in eligible && table[i].run <= eligible[table[i].segment].run
    {
      var r := table[n];
      if r.run <= 0 { return None; }
      if !r.trusted { continue; }
      match verdict(r)
      case Corrupt => return None;
      case Revoked =>
      case Active(run, generation) =>
        if run != r.run || generation != r.run { return None; }
        if r.segment !in eligible || run > eligible[r.segment].run {
          eligible := eligible[r.segment := r];
        }
    }
    forall x | Eligible(table, verdict, x) ensures x.segment in eligible && x.run <= eligible[x.segment].run {
      var i :| 0 <= i < |table| && table[i] == x;
    }
    r := Some(eligible);
  }

  ghost predicate SameIdentity(p: Product, r: Receipt) {
    p.segment == r.segment && p.run == r.run
  }

  /** Every materialization has its receipt, and each current receipt has exactly one, which matches it. */
  ghost predicate Materialized(table: seq<Receipt>, verdict: Receipt -> Verdict, products: seq<Product>,
                               matches: (Receipt, Product) -> bool) {
    && (forall i | 0 <= i < |products| :: HasReceipt(table, products[i]))
    && (forall r | Current(table, verdict, r) :: HasProduct(products, r))
    && (forall r, i | Current(table, verdict, r) && 0 <= i < |products| && SameIdentity(products[i], r) ::
        matches(r, products[i]))
    && (forall r, i, j | Current(table, verdict, r) && 0 <= i < j < |products| && SameIdentity(products[i], r) ::
        !SameIdentity(products[j], r))
  }

  ghost predicate HasReceipt(table: seq<Receipt>, p: Product) {
    exists i | 0 <= i < |table| :: table[i].segment == p.segment && table[i].run == p.run
  }

  ghost predicate HasProduct(products: seq<Product>, r: Receipt) {
    exists i | 0 <= i < |products| :: SameIdentity(products[i], r)
  }

  /** The products published: one for each segment with an eligible receipt, that of its current run. */
  ghost predicate Published(published: map<Segment, Product>, table: seq<Receipt>, verdict: Receipt -> Verdict,
                            products: seq<Product>, matches: (Receipt, Product) -> bool)
  {
    && (forall r | Eligible(table, verdict, r) :: r.segment in published)
    && (forall s | s in published :: exists r ::
        Current(table, verdict, r) && r.segment == s && SameIdentity(published[s], r)
                                             && published[s] in products && matches(r, published[s]))
  }

  predicate Wanted(current: map<Segment, Receipt>, p: Product) {
    p.segment in current && current[p.segment].run == p.run
  }

  ghost predicate Supplied(current: map<Segment, Receipt>, products: seq<Product>, s: Segment) {
    exists i | 0 <= i < |products| :: Wanted(current, products[i]) && products[i].segment == s
  }

  /** Each product has a receipt, the wanted ones match theirs, and none is wanted twice. */
  ghost predicate Consistent(table: seq<Receipt>, current: map<Segment, Receipt>, products: seq<Product>,
                             matches: (Receipt, Product) -> bool) {
    && (forall i | 0 <= i < |products| :: HasReceipt(table, products[i]))
    && (forall i | 0 <= i < |products| && Wanted(current, products[i]) ::
        matches(current[products[i].segment], products[i]))
    && (forall i, j | 0 <= i < j < |products| && Wanted(current, products[i]) && Wanted(current, products[j]) ::
          products[i].segment != products[j].segment)
  }

  lemma ConsistentStep(table: seq<Receipt>, current: map<Segment, Receipt>, seen: seq<Product>, p: Product,
                       matches: (Receipt, Product) -> bool)
    ensures Consistent(table, current, seen + [p], matches) <==>
      && Consistent(table, current, seen, matches) && HasReceipt(table, p)
      && (Wanted(current, p) ==> matches(current[p.segment], p) && !Supplied(current, seen, p.segment))
  {
    hide HasReceipt;
    assert forall i | 0 <= i < |seen| :: (seen + [p])[i] == seen[i];
    assert (seen + [p])[|seen|] == p;
  }

  lemma SuppliedStep(current: map<Segment, Receipt>, seen: seq<Product>, p: Product, s: Segment)
    ensures Supplied(current, seen + [p], s) <==> Supplied(current, seen, s) || (Wanted(current, p) && p.segment == s)
  {
    assert forall i | 0 <= i < |seen| :: (seen + [p])[i] == seen[i];
    assert (seen + [p])[|seen|] == p;
    if Supplied(current, seen, s) {
      var i :| 0 <= i < |seen| && Wanted(current, seen[i]) && seen[i].segment == s;
      assert Wanted(current, (seen + [p])[i]);
    }
  }

  lemma ConsistentPrefix(table: seq<Receipt>, current: map<Segment, Receipt>, products: seq<Product>, n: nat,
                         matches: (Receipt, Product) -> bool)
    requires n <= |products| && Consistent(table, current, products, matches)
    ensures Consistent(table, current, products[..n], matches)
  {
    hide HasReceipt;
  }

  /** The identities of all receipts. */
  method Identities(table: seq<Receipt>) returns (known: set<(Segment, int)>)
    ensures forall p: Product :: (p.segment, p.run) in known <==> HasReceipt(table, p)
  {
    known := {};
    for n := 0 to |table|
      invariant forall k :: k in known <==> exists i | 0 <= i < n :: (table[i].segment, table[i].run) == k
    {
      known := known + {(table[n].segment, table[n].run)};
    }
    forall p: Product ensures (p.segment, p.run) in known <==> HasReceipt(table, p) {
      if HasReceipt(table, p) {
        var i :| 0 <= i < |table| && table[i].segment == p.segment && table[i].run == p.run;
        assert (table[i].segment, table[i].run) == (p.segment, p.run);
      }
    }
  }

  /** The materialization loop, against the current receipts. */
  method CollectProducts(table: seq<Receipt>, current: map<Segment, Receipt>, products: seq<Product>,
                         matches: (Receipt, Product) -> bool)
    returns (r: Option<map<Segment, Product>>)
    ensures r.Some? <==>
            Consistent(table, current, products, matches) && forall s | s in current :: Supplied(current, products, s)
    ensures r.Some? ==> r.value.Keys == current.Keys
    ensures r.Some? ==> forall s | s in r.value ::
            r.value[s].segment == s && Wanted(current, r.value[s]) && r.value[s] in products
                                                   && matches(current[s], r.value[s])
  {
    hide HasReceipt, Consistent, Supplied;
    var receipts := Identities(table);
    var observed: map<Segment, Product> := map[];
    assert Consistent(table, current, products[..0], matches) by { NothingSeen(table, current, products[..0], matches); }
    assert forall s :: !Supplied(current, products[..0], s) by { NothingSeen(table, current, products[..0], matches); }
    for n := 0 to |products|
      invariant Consistent(table, current, products[..n], matches)
      invariant forall s | s in observed ::
                observed[s].segment == s && Wanted(current, observed[s]) && observed[s] in products[..n]
                                            && matches(current[s], observed[s])
      invariant forall s :: s in observed <==> Supplied(current, products[..n], s)
    {
      var p := products[n];
      assert products[..n + 1] == products[..n] + [p];
      ConsistentStep(table, current, products[..n], p, matches);
      forall s { SuppliedStep(current, products[..n], p, s); }
      if Consistent(table, current, products, matches) { ConsistentPrefix(table, current, products, n + 1, matches); }
      if p.segment in observed && observed[p.segment].run == p.run { return None; }
      if (p.segment, p.run) !in receipts { return None; }
      if !Wanted(current, p) { continue; }
      if !matches(current[p.segment], p) { return None; }
      observed := observed[p.segment := p];
    }
    assert products[..|products|] == products;
    if exists s | s in current :: s !in observed { return None; }
    r := Some(observed);
  }

  lemma NothingSeen(table: seq<Receipt>, current: map<Segment, Receipt>, seen: seq<Product>,
                    matches: (Receipt, Product) -> bool)
    requires seen == []
    ensures Consistent(table, current, seen, matches) && forall s :: !Supplied(current, seen, s)
  {}

  /** `_read_receipt_product_materializations`: with no eligible receipt nothing is published and the
      materializations are not looked at; otherwise products and current receipts match one to one. */
  method ReadProducts(table: seq<Receipt>, verdict: Receipt -> Verdict, products: seq<Product>,
                      matches: (Receipt, Product) -> bool)
    returns (r: Option<map<Segment, Product>>)
    requires Keyed(table)
    ensures r.Some? <==>
      && (forall i | 0 <= i < |table| :: ReceiptOk(verdict, table[i]))
      && ((forall x :: !Eligible(table, verdict, x)) || Materialized(table, verdict, products, matches))
    ensures r.Some? ==> Published(r.value, table, verdict, products, matches)
  {
    hide HasReceipt, Keyed, Consistent, Supplied, Materialized;
    var selected := SelectCurrent(table, verdict);
    if selected.None? { return None; }
    var current := selected.value;
    if current == map[] { return Some(map[]); }
    ghost var s :| s in current;
    assert Eligible(table, verdict, current[s]);
    r := CollectProducts(table, current, products, matches);
    CurrentMaterialized(table, verdict, current, products, matches);
    assert r.Some? ==> forall s | s in r.value ::
        Current(table, verdict, current[s]) && SameIdentity(r.value[s], current[s]);
  }

  /** The loop's checks, against the receipts they stand for. */
  lemma CurrentMaterialized(table: seq<Receipt>, verdict: Receipt -> Verdict, current: map<Segment, Receipt>,
                            products: seq<Product>, matches: (Receipt, Product) -> bool)
    requires Keyed(table)
    requires forall s | s in current :: current[s].segment == s && Current(table, verdict, current[s])
    requires forall x | Eligible(table, verdict, x) :: x.segment in current
    ensures Materialized(table, verdict, products, matches) <==>
            Consistent(table, current, products, matches) && forall s | s in current :: Supplied(current, products, s)
  {
    hide HasReceipt, Keyed;
    forall x | Current(table, verdict, x) ensures x.segment in current && current[x.segment] == x {
      OneCurrent(table, verdict, x, current[x.segment]);
    }
    forall i | 0 <= i < |products| && Wanted(current, products[i])
      ensures Current(table, verdict, current[products[i].segment])
              && SameIdentity(products[i], current[products[i].segment])
    {
    }
    forall r | Current(table, verdict, r) ensures HasProduct(products, r) <==> Supplied(current, products, r.segment) {
      forall i | 0 <= i < |products|
        ensures SameIdentity(products[i], r) <==> Wanted(current, products[i]) && products[i].segment == r.segment
      {
      }
    }
  }

  lemma OneCurrent(table: seq<Receipt>, verdict: Receipt -> Verdict, a: Receipt, b: Receipt)
    requires Keyed(table) && Current(table, verdict, a) && Current(table, verdict, b) && a.segment == b.segment
    ensures a == b
  {
    var i :| 0 <= i < |table| && table[i] == a;
    var j :| 0 <= j < |table| && table[j] == b;
  }
}
