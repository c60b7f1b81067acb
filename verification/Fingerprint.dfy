/**
  The order-insensitive table fingerprint and the source/local reconciliation built on it.
  Row digests and the outer hash are parameters; all that is asked of them is one width for row
  digests, and no collision between inputs that actually occur.
 */
module Fingerprint {
  import opened Outcomes
  import opened ByteOrder

  /** The hashes and the per-column value normalisation that a fingerprint uses. */
  datatype Hashing<!V(==), !D(==)> = Hashing(
    normalise: (string, V) -> V,
    row: seq<V> -> Bytes, width: nat,
    outer: Bytes -> D)

  function Decimal(n: nat): Bytes {
    if n < 10 then [48 + n] else Decimal(n / 10) + [48 + n % 10]
  }

  /** The number that a list of decimal digits stands for. */
  function Value(digits: Bytes): int {
    if digits == [] then 0 else 10 * Value(digits[..|digits| - 1]) + (digits[|digits| - 1] as int - 48)
  }

  lemma {:induction false} DecimalDigits(n: nat)
    ensures Value(Decimal(n)) == n && Decimal(n) != [] && (n > 0 ==> Decimal(n)[0] != 48)
    ensures forall i | 0 <= i < |Decimal(n)| :: 48 <= Decimal(n)[i] <= 57
  {
    if n >= 10 {
      DecimalDigits(n / 10);
      assert Decimal(n)[..|Decimal(n)| - 1] == Decimal(n / 10);
    } else {
      assert Decimal(n)[..0] == [];
    }
  }

  function NormalRow<V, D>(h: Hashing<V, D>, columns: seq<string>, row: seq<V>): seq<V>
    requires |row| == |columns|
  {
    seq(|columns|, i requires 0 <= i < |columns| => h.normalise(columns[i], row[i]))
  }

  predicate Rectangular<V>(columns: seq<string>, rows: seq<seq<V>>) {
    forall i | 0 <= i < |rows| :: |rows[i]| == |columns|
  }

  /** Every value of every row, normalised as a value of its column. */
  function NormalRows<V, D>(h: Hashing<V, D>, columns: seq<string>, rows: seq<seq<V>>): (ns: seq<seq<V>>)
    requires Rectangular(columns, rows)
    ensures |ns| == |rows|
    ensures forall i | 0 <= i < |rows| :: ns[i] == NormalRow(h, columns, rows[i]) && |ns[i]| == |columns|
    ensures forall i, k | 0 <= i < |rows| && 0 <= k < |columns| :: ns[i][k] == h.normalise(columns[k], rows[i][k])
  {
    seq(|rows|, i requires 0 <= i < |rows| => NormalRow(h, columns, rows[i]))
  }

  function Preimage<V, D>(h: Hashing<V, D>, rows: seq<seq<V>>): Bytes {
    Decimal(|rows|) + [0] + Concat(Sort(Mapped(h.row, rows)))
  }

  /** Count and digest of a list of normalised rows. */
  function FingerprintOf<V, D>(h: Hashing<V, D>, rows: seq<seq<V>>): (nat, D) {
    (|rows|, h.outer(Preimage(h, rows)))
  }

  /** No two different inputs that occur while the two row lists are fingerprinted share a digest. */
  ghost predicate NoCollision<V, D>(h: Hashing<V, D>, a: seq<seq<V>>, b: seq<seq<V>>) {
    && (forall v | v in a + b :: |h.row(v)| == h.width)
    && Distinguishes(h.row, a, b)
    && (h.outer(Preimage(h, a)) == h.outer(Preimage(h, b)) ==> Preimage(h, a) == Preimage(h, b))
  }

  /** `_table_fingerprint`. */
  method TableFingerprint<V, D>(h: Hashing<V, D>, columns: seq<string>, rows: seq<seq<V>>) returns (r: Result<(nat, D)>)
    requires Rectangular(columns, rows)
    ensures columns == [] ==> r.Err?
    ensures columns != [] ==> r == Ok(FingerprintOf(h, NormalRows(h, columns, rows)))
  {
    if columns == [] { return Err("governed table has no columns"); }
    var rowDigests: seq<Bytes> := [];
    var count := 0;
    ghost var normal := NormalRows(h, columns, rows);
    for i := 0 to |rows|
      invariant count == i && |rowDigests| == i
      invariant forall k | 0 <= k < i :: rowDigests[k] == h.row(normal[k])
    {
      rowDigests := rowDigests + [h.row(NormalRow(h, columns, rows[i]))];
      count := count + 1;
    }
    assert rowDigests == Mapped(h.row, normal);
    var hashed := Decimal(count) + [0];
    var ordered := Sort(rowDigests);
    for i := 0 to |ordered|
      invariant hashed == Decimal(count) + [0] + Concat(ordered[..i])
    {
      hashed := hashed + ordered[i];
      assert ordered[..i + 1] == ordered[..i] + [ordered[i]];
      ConcatAppend(ordered[..i], [ordered[i]]);
      assert Concat([ordered[i]]) == ordered[i];
    }
    assert ordered[..|ordered|] == ordered;
    return Ok((count, h.outer(hashed)));
  }

  // ----- soundness and completeness

  /** Equal fingerprints mean equal rows up to their order, and the other way round. */
  lemma FingerprintIff<V, D>(h: Hashing<V, D>, a: seq<seq<V>>, b: seq<seq<V>>)
    requires NoCollision(h, a, b)
    ensures FingerprintOf(h, a) == FingerprintOf(h, b) <==> multiset(a) == multiset(b)
  {
    var da, db := Mapped(h.row, a), Mapped(h.row, b);
    SortUnique(da, db);
    SortSound(da);
    SortSound(db);
    SortedWidth(h, a);
    SortedWidth(h, b);
    hide Mapped, Sort, Decimal, Ordered, Width, Distinguishes;
    if multiset(a) == multiset(b) {
      MappedRearranged(h.row, a, b);
    }
    if FingerprintOf(h, a) == FingerprintOf(h, b) {
      HeadCut(Decimal(|a|) + [0], Concat(Sort(da)), Concat(Sort(db)));
      ConcatInjective(Sort(da), Sort(db), h.width);
      MappedBack(h.row, a, b);
    }
  }

  lemma HeadCut(head: Bytes, x: Bytes, y: Bytes)
    requires head + x == head + y
    ensures x == y
  {
    assert (head + x)[|head|..] == x && (head + y)[|head|..] == y;
  }

  lemma SortedWidth<V, D>(h: Hashing<V, D>, rows: seq<seq<V>>)
    requires forall v | v in rows :: |h.row(v)| == h.width
    ensures Width(Sort(Mapped(h.row, rows)), h.width)
  {
    var ds := Mapped(h.row, rows);
    SortSound(ds);
    forall i | 0 <= i < |Sort(ds)| ensures |Sort(ds)[i]| == h.width {
      assert Sort(ds)[i] in multiset(ds);
    }
  }

  // ----- reconciliation

  /** The governed part of a table: its column names, the rest of its schema manifest, its rows. */
  datatype Table<V, S> = Table(columns: seq<string>, shape: S, rows: seq<seq<V>>)

  /** The manifest of a local table without the local invalidation triggers, when those are canonical. */
  type Replicate<!S> = S -> Result<S>

  ghost predicate Wellformed<V, S>(db: map<string, Table<V, S>>) {
    forall name | name in db :: db[name].columns != [] && Rectangular(db[name].columns, db[name].rows)
  }

  /** The values of two rows agree column by column, up to the column's normalisation. */
  ghost predicate Alike<V, D>(h: Hashing<V, D>, columns: seq<string>, a: seq<V>, b: seq<V>) {
    && |a| == |b| == |columns|
    && forall k | 0 <= k < |columns| :: h.normalise(columns[k], a[k]) == h.normalise(columns[k], b[k])
  }

  /** The rows of two tables can be paired off so that paired rows are alike. */
  ghost predicate RowsAlike<V, D>(h: Hashing<V, D>, columns: seq<string>, a: seq<seq<V>>, b: seq<seq<V>>) {
    && |a| == |b|
    && exists p :: Permutes(p, |a|) && forall i | 0 <= i < |a| :: Alike(h, columns, a[i], b[p[i]])
  }

  lemma RowsAlikeIff<V, D>(h: Hashing<V, D>, columns: seq<string>, a: seq<seq<V>>, b: seq<seq<V>>)
    requires Rectangular(columns, a) && Rectangular(columns, b)
    ensures RowsAlike(h, columns, a, b) <==> multiset(NormalRows(h, columns, a)) == multiset(NormalRows(h, columns, b))
  {
    var x, y := NormalRows(h, columns, a), NormalRows(h, columns, b);
    forall i, j | 0 <= i < |a| && 0 <= j < |b| ensures Alike(h, columns, a[i], b[j]) <==> x[i] == y[j] {
      assert Alike(h, columns, a[i], b[j]) ==> forall k | 0 <= k < |columns| :: x[i][k] == y[j][k];
    }
    if RowsAlike(h, columns, a, b) {
      var p :| Permutes(p, |a|) && forall i | 0 <= i < |a| :: Alike(h, columns, a[i], b[p[i]]);
      PairedOffBack(p, x, y);
    }
    if multiset(x) == multiset(y) {
      var p := PairedOff(x, y);
      assert Permutes(p, |a|);
    }
  }

  /** Same schema as far as it is replicated, and rows that are alike up to their order. */
  ghost predicate Reconciled<V, S, D>(
    h: Hashing<V, D>, replicate: Replicate<S>, source: map<string, Table<V, S>>, local: map<string, Table<V, S>>,
        name: string)
    requires Wellformed(source) && Wellformed(local)
  {
    && name in source && name in local
    && source[name].columns == local[name].columns && replicate(local[name].shape) == Ok(source[name].shape)
    && RowsAlike(h, source[name].columns, source[name].rows, local[name].rows)
  }

  /** `governed_content_identity`: the fingerprints of all governed tables, before they are hashed. */
  method ContentInventory<V, S, D>(h: Hashing<V, D>, db: map<string, Table<V, S>>, tables: seq<string>)
    returns (r: Result<map<string, (nat, D)>>)
    requires Wellformed(db)
    ensures r.Ok? <==> forall i | 0 <= i < |tables| :: tables[i] in db
    ensures r.Ok? ==> forall name :: name in r.value <==> name in tables
    ensures r.Ok? ==> forall name | name in tables ::
              r.value[name] == FingerprintOf(h, NormalRows(h, db[name].columns, db[name].rows))
  {
    var inventory: map<string, (nat, D)> := map[];
    for i := 0 to |tables|
      invariant forall k | 0 <= k < i :: tables[k] in db
      invariant forall name :: name in inventory <==> name in tables[..i]
      invariant forall name | name in tables[..i] ::
                  inventory[name] == FingerprintOf(h, NormalRows(h, db[name].columns, db[name].rows))
    {
      var table := tables[i];
      if table !in db { return Err("governed mirror is missing a table"); }
      var fingerprint := TableFingerprint(h, db[table].columns, db[table].rows);
      inventory := inventory[table := fingerprint.value];
      assert tables[..i + 1] == tables[..i] + [table];
    }
    assert tables[..|tables|] == tables;
    r := Ok(inventory);
  }

  ghost predicate CollisionFree<V, S, D>(h: Hashing<V, D>, source: map<string, Table<V, S>>,
                                         local: map<string, Table<V, S>>)
    requires Wellformed(source) && Wellformed(local)
  {
    forall name | name in source && name in local ::
      NoCollision(h, NormalRows(h, source[name].columns, source[name].rows),
                  NormalRows(h, local[name].columns, local[name].rows))
  }

  /** One round of the reconciliation loop. */
  method CompareTable<V, S(==), D>(
    h: Hashing<V, D>, replicate: Replicate<S>, source: map<string, Table<V, S>>, local: map<string, Table<V, S>>,
    table: string)
    returns (ok: bool)
    requires Wellformed(source) && Wellformed(local) && CollisionFree(h, source, local)
    ensures ok <==> Reconciled(h, replicate, source, local, table)
  {
    if table !in source || table !in local { return false; }
    var theirs, ours := source[table], local[table];
    if theirs.columns != ours.columns || replicate(ours.shape) != Ok(theirs.shape) { return false; }
    var theirPrint := TableFingerprint(h, theirs.columns, theirs.rows);
    var ourPrint := TableFingerprint(h, ours.columns, ours.rows);
    FingerprintIff(h, NormalRows(h, theirs.columns, theirs.rows), NormalRows(h, ours.columns, ours.rows));
    RowsAlikeIff(h, theirs.columns, theirs.rows, ours.rows);
    hide NoCollision, FingerprintOf, NormalRows, RowsAlike;
    ok := theirPrint.value.0 == ourPrint.value.0 && theirPrint.value.1 == ourPrint.value.1;
    assert ok <==> theirPrint.value == ourPrint.value;
  }

  lemma ReconciledPrints<V, S, D>(
    h: Hashing<V, D>, replicate: Replicate<S>, source: map<string, Table<V, S>>, local: map<string, Table<V, S>>,
    name: string)
    requires Wellformed(source) && Wellformed(local) && CollisionFree(h, source, local)
             && Reconciled(h, replicate, source, local, name)
    ensures FingerprintOf(h, NormalRows(h, source[name].columns, source[name].rows))
            == FingerprintOf(h, NormalRows(h, local[name].columns, local[name].rows))
  {
    FingerprintIff(h, NormalRows(h, source[name].columns, source[name].rows),
                   NormalRows(h, local[name].columns, local[name].rows));
    RowsAlikeIff(h, source[name].columns, source[name].rows, local[name].rows);
  }

  /** `_exact_source_local_reconciliation`: it succeeds exactly when every governed table is reconciled.
      The comparison of the two whole inventories at the end can then no longer fail. */
  method ExactReconciliation<V, S(==), D>(
    h: Hashing<V, D>, replicate: Replicate<S>, shadowed: bool,
    source: map<string, Table<V, S>>, local: map<string, Table<V, S>>, tables: seq<string>)
    returns (r: Result<map<string, (nat, D)>>)
    requires Wellformed(source) && Wellformed(local) && CollisionFree(h, source, local)
    ensures r.Ok? <==> !shadowed && forall i | 0 <= i < |tables| :: Reconciled(h, replicate, source, local, tables[i])
    ensures r.Ok? ==> forall name :: name in r.value <==> name in tables
    ensures r.Ok? ==> forall name | name in tables ::
              name in source && r.value[name] == FingerprintOf(h, NormalRows(h, source[name].columns, source[name].rows))
  {
    hide NoCollision, FingerprintOf, NormalRows, RowsAlike;
    if shadowed { return Err("temporary object shadows governed D1 state"); }
    for i := 0 to |tables|
      invariant forall k | 0 <= k < i :: Reconciled(h, replicate, source, local, tables[k])
    {
      var same := CompareTable(h, replicate, source, local, tables[i]);
      if !same { return Err("source/local mismatch"); }
    }
    var theirInventory := ContentInventory(h, source, tables);
    var ourInventory := ContentInventory(h, local, tables);
    forall name | name in tables ensures theirInventory.value[name] == ourInventory.value[name] {
      assert Reconciled(h, replicate, source, local, name);
      ReconciledPrints(h, replicate, source, local, name);
    }
    assert theirInventory.value == ourInventory.value;
    if theirInventory.value != ourInventory.value { return Err("governed inventory reconciliation failed"); }
    r := theirInventory;
  }
}
