/**
  The parser of a Worker upload bundle: a `multipart/form-data` body (section 5.1.1 of RFC 2046,
  section 4.2 of RFC 7578) with one JSON metadata part and one part for each module.  Every refusal
  of the program is `None`.  Header text is ASCII, so names and content types stay byte strings.  The
  JSON codec and the hash are parameters.
 */
module Multipart {
  import opened Outcomes
  import opened ByteOrder
  import opened TextScan

  const MAX_BUNDLE_BYTES: nat := 32 * 1024 * 1024
  const NEWLINE: Bytes := [CR, LF]
  const BLANK_LINE: Bytes := [CR, LF, CR, LF]
  const DASHES: Bytes := [45, 45]
  const SLASH: Byte := 47
  const DOT: Byte := 46
  const BACKSLASH: Byte := 92

  const METADATA: Bytes := Ascii("metadata")
  const FORM_DATA: Bytes := Ascii("form-data")
  const DISPOSITION: Bytes := Ascii("content-disposition")
  const CONTENT_TYPE: Bytes := Ascii("content-type")
  const NAME: Bytes := Ascii("name=")
  const FILENAME: Bytes := Ascii("filename=")

  const ALLOWED_CONTENT_TYPES: set<Bytes> := {
    Ascii("application/javascript+module"), Ascii("application/javascript"), Ascii("application/wasm"),
    Ascii("application/octet-stream"), Ascii("text/plain"), Ascii("text/x-python"),
    Ascii("text/x-python-requirement"), Ascii("application/source-map")
  }

  datatype Row<D> = Row(name: Bytes, contentType: Bytes, bytes: nat, digest: D)

  datatype Inventory<D> = Inventory(mainModule: Bytes, modules: seq<Row<D>>)

  /** A metadata field; text that is not ASCII cannot name a part and is `NotText`. */
  datatype Field = Absent | NotText | Text(value: Bytes)

  datatype Metadata = Metadata(mainModule: Field, bodyPart: Field)

  // ----- single values

  /** `_safe_module_name` */
  predicate SafeName(name: Bytes) {
    && name != [] && name != [DOT] && name != [DOT, DOT] && name != METADATA
    && [DOT, DOT] !in SplitOn(name, [SLASH])
    && BACKSLASH !in name && 0 !in name
    && name[0] != SLASH && !([DOT, SLASH] <= name)
  }

  /** `_normalize_content_type` */
  function Normalized(value: Bytes): (r: Option<Bytes>)
    ensures r.Some? ==> r.value in ALLOWED_CONTENT_TYPES
  {
    if Strip(value) == [] then None
    else
      var kind := match Find(value, [SEMICOLON]) case Some(i) => value[..i] case None => value;
      var normalized := Lower(Strip(kind));
      if normalized in ALLOWED_CONTENT_TYPES then Some(normalized) else None
  }

  /** `_disposition_param`: refused when duplicated, otherwise the value if there is one. */
  function Param(header: Bytes, word: Bytes): Option<Option<Bytes>> {
    var found := Matches(header, word, 0);
    if |found| > 1 then None else if found == [] then Some(None) else Some(Some(found[0]))
  }

  // ----- headers

  function HeaderLine(line: Bytes): Option<(Bytes, Bytes)> {
    match Find(line, [COLON])
    case None => None
    case Some(i) =>
      var name := Lower(Strip(line[..i]));
      if name == [] then None else Some((name, Strip(line[i + 1..])))
  }

  function HeadersFrom(lines: seq<Bytes>, headers: map<Bytes, Bytes>): Option<map<Bytes, Bytes>> {
    if lines == [] then Some(headers)
    else if lines[0] == [] then HeadersFrom(lines[1..], headers)
    else
      match HeaderLine(lines[0])
      case None => None
      case Some(h) => if h.0 in headers then None else HeadersFrom(lines[1..], headers[h.0 := h.1])
  }

  predicate AsciiText(block: Bytes) {
    forall i | 0 <= i < |block| :: 0 < block[i] < 128
  }

  function Headers(block: Bytes): Option<map<Bytes, Bytes>> {
    if AsciiText(block) then HeadersFrom(SplitOn(block, NEWLINE), map[]) else None
  }

  /** Every line that is not empty names a header, none twice, and these are all the headers. */
  ghost predicate Lists(lines: seq<Bytes>, headers: map<Bytes, Bytes>) {
    && (forall i | 0 <= i < |lines| && lines[i] != [] ::
        HeaderLine(lines[i]).Some? && HeaderLine(lines[i]).value.0 in headers
        && headers[HeaderLine(lines[i]).value.0] == HeaderLine(lines[i]).value.1)
    && (forall i, j | 0 <= i < j < |lines| && lines[i] != [] && lines[j] != [] ::
        HeaderLine(lines[i]).value.0 != HeaderLine(lines[j]).value.0)
    && (forall name | name in headers :: Named(lines, name))
  }

  ghost predicate Named(lines: seq<Bytes>, name: Bytes) {
    exists i | 0 <= i < |lines| :: lines[i] != [] && HeaderLine(lines[i]).Some? && HeaderLine(lines[i]).value.0 == name
  }

  function NextHeader(line: Bytes, headers: map<Bytes, Bytes>): Option<map<Bytes, Bytes>> {
    if line == [] then Some(headers)
    else
      match HeaderLine(line)
      case None => None
      case Some(h) => if h.0 in headers then None else Some(headers[h.0 := h.1])
  }

  lemma {:induction false} HeadersSnoc(lines: seq<Bytes>, line: Bytes, headers: map<Bytes, Bytes>)
    ensures HeadersFrom(lines + [line], headers) ==
            match HeadersFrom(lines, headers) case None => None case Some(m) => NextHeader(line, m)
  {
    hide HeaderLine;
    if lines == [] {
      assert [] + [line] == [line] && [line][1..] == [];
    } else {
      assert (lines + [line])[1..] == lines[1..] + [line];
      var next := NextHeader(lines[0], headers);
      if next.Some? { HeadersSnoc(lines[1..], line, next.value); }
    }
  }

  lemma NextListed(lines: seq<Bytes>, line: Bytes, before: map<Bytes, Bytes>)
    requires Lists(lines, before) && NextHeader(line, before).Some?
    ensures Lists(lines + [line], NextHeader(line, before).value)
  {
    hide HeaderLine;
    var all, after := lines + [line], NextHeader(line, before).value;
    assert forall i | 0 <= i < |lines| :: all[i] == lines[i];
    forall name | name in after ensures Named(all, name) {
      if name in before {
        var i :| 0 <= i < |lines| && lines[i] != [] && HeaderLine(lines[i]).Some? && HeaderLine(lines[i]).value.0 == name;
        assert all[i] == lines[i];
      } else {
        assert all[|lines|] == line;
      }
    }
  }

  lemma ListedBefore(lines: seq<Bytes>, line: Bytes, after: map<Bytes, Bytes>) returns (before: map<Bytes, Bytes>)
    requires Lists(lines + [line], after)
    ensures Lists(lines, before) && NextHeader(line, before) == Some(after)
  {
    hide HeaderLine;
    var all := lines + [line];
    assert forall i | 0 <= i < |lines| :: all[i] == lines[i];
    assert all[|lines|] == line;
    before := if line == [] then after else after - {HeaderLine(line).value.0};
    forall name | name in before ensures Named(lines, name) {
      assert Named(all, name);
      var i :| 0 <= i < |all| && all[i] != [] && HeaderLine(all[i]).Some? && HeaderLine(all[i]).value.0 == name;
      assert i < |lines|;
    }
    if line != [] {
      assert before[HeaderLine(line).value.0 := HeaderLine(line).value.1] == after;
    }
  }

  lemma {:induction false} HeadersListed(lines: seq<Bytes>, headers: map<Bytes, Bytes>)
    ensures HeadersFrom(lines, map[]) == Some(headers) <==> Lists(lines, headers)
    decreases |lines|
  {
    hide HeaderLine;
    if lines == [] {
      if Lists(lines, headers) {
        assert forall name | name in headers :: Named(lines, name);
        assert headers == map[];
      }
    } else {
      var most, last := lines[..|lines| - 1], lines[|lines| - 1];
      assert lines == most + [last];
      HeadersSnoc(most, last, map[]);
      hide Lists, NextHeader;
      var r := HeadersFrom(most, map[]);
      if r.Some? {
        HeadersListed(most, r.value);
        if NextHeader(last, r.value) == Some(headers) { NextListed(most, last, r.value); }
      }
      if Lists(lines, headers) {
        var before := ListedBefore(most, last, headers);
        HeadersListed(most, before);
      }
    }
  }

  /** `_parse_multipart_headers` */
  method ParseMultipartHeaders(block: Bytes) returns (r: Option<map<Bytes, Bytes>>)
    ensures r == Headers(block)
    ensures forall headers :: r == Some(headers) <==> AsciiText(block) && Lists(SplitOn(block, NEWLINE), headers)
  {
    hide Lists;
    forall headers { HeadersListed(SplitOn(block, NEWLINE), headers); }
    if exists i | 0 <= i < |block| :: block[i] == 0 { return None; }
    if exists i | 0 <= i < |block| :: block[i] >= 128 { return None; }
    var headers: map<Bytes, Bytes> := map[];
    var lines := SplitOn(block, NEWLINE);
    var n := 0;
    while n < |lines|
      invariant n <= |lines|
      invariant HeadersFrom(lines, map[]) == HeadersFrom(lines[n..], headers)
    {
      var line := lines[n];
      assert lines[n..][1..] == lines[n + 1..];
      n := n + 1;
      if line == [] { continue; }
      var colon := Find(line, [COLON]);
      if colon.None? { return None; }
      var name := Lower(Strip(line[..colon.value]));
      if name == [] || name in headers { return None; }
      headers := headers[name := Strip(line[colon.value + 1..])];
    }
    r := Some(headers);
  }

  // ----- one part

  predicate StartsWith(h: Bytes, prefix: Bytes) {
    prefix <= h
  }

  predicate EndsWith(h: Bytes, suffix: Bytes) {
    |suffix| <= |h| && h[|h| - |suffix|..] == suffix
  }

  function WithoutBreaks(chunk: Bytes): Option<Bytes> {
    var afterBreak :=
      if StartsWith(chunk, NEWLINE) then Some(chunk[2..])
      else if StartsWith(chunk, [LF]) then Some(chunk[1..]) else None;
    match afterBreak
    case None => None
    case Some(payload) =>
      Some(if EndsWith(payload, NEWLINE) then payload[..|payload| - 2]
           else if EndsWith(payload, [LF]) then payload[..|payload| - 1] else payload)
  }

  /** Header block and body. */
  function Cut(payload: Bytes): Option<(Bytes, Bytes)> {
    match Find(payload, BLANK_LINE)
    case Some(i) => Some((payload[..i], payload[i + 4..]))
    case None =>
      match Find(payload, [LF, LF])
      case Some(i) => Some((payload[..i], payload[i + 2..]))
      case None => None
  }

  function Header(headers: map<Bytes, Bytes>, name: Bytes): Bytes {
    if name in headers then headers[name] else []
  }

  datatype Piece<D> = MetadataPart(json: Bytes) | ModulePart(row: Row<D>)

  /** What a part is by its headers alone. */
  function Described<D>(headers: map<Bytes, Bytes>, body: Bytes, sha: Bytes -> D): Option<Piece<D>> {
    var disposition := Header(headers, DISPOSITION);
    if !StartsWith(Lower(disposition), FORM_DATA) then None
    else
      var name, filename := Param(disposition, NAME), Param(disposition, FILENAME);
      if name.None? || filename.None? || name.value.None? then None
      else if name.value.value == METADATA then
        if filename.value.Some? then None else Some(MetadataPart(body))
      else if !SafeName(name.value.value) then None
      else if filename.value.Some? && filename.value.value != name.value.value then None
      else
        var contentType := Normalized(Header(headers, CONTENT_TYPE));
        if contentType.None? || body == [] then None
        else Some(ModulePart(Row(name.value.value, contentType.value, |body|, sha(body))))
  }

  function PieceOf<D>(chunk: Bytes, sha: Bytes -> D): Option<Piece<D>> {
    var payload := WithoutBreaks(chunk);
    if payload.None? || Cut(payload.value).None? then None
    else
      var (block, body) := Cut(payload.value).value;
      var headers := Headers(block);
      if headers.None? then None else Described(headers.value, body, sha)
  }

  // ----- the whole body

  datatype Collected<D> = Collected(metadata: Option<Bytes>, modules: map<Bytes, Row<D>>)

  function Absorb<D>(state: Collected<D>, piece: Piece<D>): Option<Collected<D>> {
    match piece
    case MetadataPart(json) => if state.metadata.Some? then None else Some(state.(metadata := Some(json)))
    case ModulePart(row) =>
      if row.name in state.modules then None else Some(state.(modules := state.modules[row.name := row]))
  }

  function AbsorbAll<D>(state: Collected<D>, chunks: seq<Bytes>, sha: Bytes -> D): Option<Collected<D>>
    decreases |chunks|
  {
    if chunks == [] then Some(state)
    else
      var piece := PieceOf(chunks[0], sha);
      var next := if piece.Some? then Absorb(state, piece.value) else None;
      if next.None? then None else AbsorbAll(next.value, chunks[1..], sha)
  }

  predicate Blank(t: Bytes) {
    forall i | 0 <= i < |t| :: t[i] == CR || t[i] == LF
  }

  function WithoutTrailing(t: Bytes, b: Byte): Bytes {
    if t != [] && t[|t| - 1] == b then WithoutTrailing(t[..|t| - 1], b) else t
  }

  predicate BoundaryText(boundary: Bytes) {
    boundary != [] && forall i | 0 <= i < |boundary| :: 33 <= boundary[i] < 127 && boundary[i] != QUOTE
  }

  /** The boundary that the first line announces. */
  function BoundaryOf(raw: Bytes): Option<Bytes> {
    match Find(raw, [LF])
    case None => None
    case Some(newline) =>
      if newline < 4 then None
      else
        var line := WithoutTrailing(raw[..newline], CR);
        if !StartsWith(line, DASHES) || !BoundaryText(line[2..]) then None else Some(line[2..])
  }

  /** The parts of a closed body. */
  function Parts(raw: Bytes): Option<seq<Bytes>> {
    if raw == [] || |raw| > MAX_BUNDLE_BYTES || BoundaryOf(raw).None? then None
    else
      var chunks := SplitOn(raw, DASHES + BoundaryOf(raw).value);
      if |chunks| < 3 || !Blank(chunks[0]) then None
      else
        var terminator := chunks[|chunks| - 1];
        if !StartsWith(terminator, DASHES) || !Blank(terminator[2..]) then None
        else Some(chunks[1..|chunks| - 1])
  }

  /** The entry module that the metadata declares. */
  function Declared(metadata: Metadata): Option<Bytes> {
    if metadata.mainModule.Absent? == metadata.bodyPart.Absent? then None
    else
      var field := if metadata.mainModule.Absent? then metadata.bodyPart else metadata.mainModule;
      if field.Text? && SafeName(field.value) then Some(field.value) else None
  }

  /** Entry module and modules by name. */
  function Bundle<D>(raw: Bytes, json: Bytes -> Option<Metadata>, sha: Bytes -> D): Option<(Bytes, map<Bytes, Row<D>>)> {
    var parts := Parts(raw);
    var state := if parts.Some? then AbsorbAll(Collected(None, map[]), parts.value, sha) else None;
    if state.None? || state.value.metadata.None? || json(state.value.metadata.value).None? then None
    else
      var declared := Declared(json(state.value.metadata.value).value);
      if declared.None? || declared.value !in state.value.modules then None
      else Some((declared.value, state.value.modules))
  }

  function Names<D>(rows: seq<Row<D>>): (names: seq<Bytes>)
    ensures |names| == |rows| && forall i | 0 <= i < |rows| :: names[i] == rows[i].name
  {
    seq(|rows|, i requires 0 <= i < |rows| => rows[i].name)
  }

  /** The rows of `modules` in the order of their names: the one list with this property. */
  ghost predicate Listing<D>(rows: seq<Row<D>>, modules: map<Bytes, Row<D>>) {
    && Ordered(Names(rows)) && multiset(Names(rows)) == multiset(modules.Keys)
    && forall i | 0 <= i < |rows| :: rows[i].name in modules && modules[rows[i].name] == rows[i]
  }

  lemma ListingUnique<D>(a: seq<Row<D>>, b: seq<Row<D>>, modules: map<Bytes, Row<D>>)
    requires Listing(a, modules) && Listing(b, modules)
    ensures a == b
  {
    OrderedUnique(Names(a), Names(b));
    forall i | 0 <= i < |a| ensures a[i] == b[i] {
      assert Names(a)[i] == Names(b)[i];
    }
  }

  method SortedNames(keys: set<Bytes>) returns (names: seq<Bytes>)
    ensures Ordered(names) && multiset(names) == multiset(keys)
  {
    var pending, listed := keys, [];
    while pending != {}
      invariant pending <= keys && multiset(listed) + multiset(pending) == multiset(keys)
      decreases |pending|
    {
      var key :| key in pending;
      pending, listed := pending - {key}, listed + [key];
    }
    SortSound(listed);
    names := Sort(listed);
  }

  method ReadPart<D>(chunk: Bytes, sha: Bytes -> D) returns (r: Option<Piece<D>>)
    ensures r == PieceOf(chunk, sha)
  {
    hide Param, SafeName, Normalized, Cut, Headers;
    var payload := WithoutBreaks(chunk);
    if payload.None? { return None; }
    var cut := Cut(payload.value);
    if cut.None? { return None; }
    var (block, body) := cut.value;
    var headers := ParseMultipartHeaders(block);
    if headers.None? { return None; }
    r := Described(headers.value, body, sha);
  }

  /** `parse_worker_upload_bundle` */
  method ParseWorkerUploadBundle<D(==)>(raw: Bytes, json: Bytes -> Option<Metadata>, sha: Bytes -> D)
    returns (r: Option<Inventory<D>>)
    ensures r.Some? <==> Bundle(raw, json, sha).Some?
    ensures r.Some? ==> r.value.mainModule == Bundle(raw, json, sha).value.0
                        && Listing(r.value.modules, Bundle(raw, json, sha).value.1)
  {
    hide Parts, PieceOf, Declared;
    var chunks := Parts(raw);
    if chunks.None? { return None; }
    var metadata: Option<Bytes> := None;
    var modules: map<Bytes, Row<D>> := map[];
    var n := 0;
    while n < |chunks.value|
      invariant n <= |chunks.value|
      invariant AbsorbAll(Collected(None, map[]), chunks.value, sha)
             == AbsorbAll(Collected(metadata, modules), chunks.value[n..], sha)
    {
      assert chunks.value[n..][0] == chunks.value[n] && chunks.value[n..][1..] == chunks.value[n + 1..];
      var piece := ReadPart(chunks.value[n], sha);
      n := n + 1;
      if piece.None? { return None; }
      match piece.value
      case MetadataPart(body) =>
        if metadata.Some? { return None; }
        metadata := Some(body);
      case ModulePart(row) =>
        if row.name in modules { return None; }
        modules := modules[row.name := row];
    }
    if metadata.None? || json(metadata.value).None? { return None; }
    var declared := Declared(json(metadata.value).value);
    if declared.None? || declared.value !in modules { return None; }
    assert Bundle(raw, json, sha) == Some((declared.value, modules));
    NamesKept(Collected(None, map[]), chunks.value, sha);
    var rows := SortedRows(modules);
    r := Some(Inventory(declared.value, rows));
  }

  method SortedRows<D>(modules: map<Bytes, Row<D>>) returns (rows: seq<Row<D>>)
    requires forall k | k in modules :: modules[k].name == k
    ensures Listing(rows, modules)
  {
    var names := SortedNames(modules.Keys);
    rows := [];
    assert forall i | 0 <= i < |names| :: names[i] in multiset(names);
    for n := 0 to |names|
      invariant |rows| == n
      invariant forall i | 0 <= i < n :: rows[i] == modules[names[i]]
    {
      rows := rows + [modules[names[n]]];
    }
    assert Names(rows) == names;
  }

  /** What every collected row satisfies. */
  ghost predicate SoundRow<D>(row: Row<D>) {
    SafeName(row.name) && row.contentType in ALLOWED_CONTENT_TYPES && row.bytes > 0
  }

  ghost predicate SoundModules<D>(modules: map<Bytes, Row<D>>) {
    forall k | k in modules :: modules[k].name == k && SoundRow(modules[k])
  }

  lemma {:induction false} NamesKept<D>(state: Collected<D>, chunks: seq<Bytes>, sha: Bytes -> D)
    requires SoundModules(state.modules) && AbsorbAll(state, chunks, sha).Some?
    ensures SoundModules(AbsorbAll(state, chunks, sha).value.modules)
    decreases |chunks|
  {
    if chunks != [] {
      var piece := PieceOf(chunks[0], sha).value;
      assert piece.ModulePart? ==> SoundRow(piece.row);
      NamesKept(Absorb(state, piece).value, chunks[1..], sha);
    }
  }

  // ----- reading an inventory back

  /** `_require_verified_module_inventory`: the inventory with its content types normalized. */
  function Verified<D>(inventory: Inventory<D>): Option<Inventory<D>> {
    var rows := inventory.modules;
    if !SafeName(inventory.mainModule) || rows == [] then None
    else if exists i | 0 <= i < |rows| ::
        !SafeName(rows[i].name) || Normalized(rows[i].contentType).None? || rows[i].bytes == 0 then None
    else if Sort(Names(rows)) != Names(rows) then None
    else if exists i, j | 0 <= i < j < |rows| :: rows[i].name == rows[j].name then None
    else if inventory.mainModule !in Names(rows) then None
    else Some(Inventory(inventory.mainModule,
                        seq(|rows|,
                            i requires 0 <= i < |rows| => rows[i].(contentType := Normalized(rows[i].contentType).value))))
  }

  /** `_compare_module_inventories` */
  function Compared<D(==)>(local: Inventory<D>, live: Inventory<D>): Option<Inventory<D>> {
    if Verified(local).None? || Verified(live).None? || Verified(local) != Verified(live) then None else Verified(live)
  }

  ghost predicate PlainByte(b: Byte) {
    TokenByte(b) && b != COLON && !(65 <= b <= 90) && 0 < b < 128
  }

  ghost predicate Plain(t: Bytes) {
    t != [] && forall i | 0 <= i < |t| :: PlainByte(t[i])
  }

  predicate PlainText(s: string) {
    s != "" && forall i | 0 <= i < |s| :: 'a' <= s[i] <= 'z' || s[i] == '/' || s[i] == '+' || s[i] == '-'
  }

  lemma AsciiPlain(s: string)
    requires PlainText(s)
    ensures Plain(Ascii(s))
  {}

  lemma AllowedPlain(kind: Bytes)
    requires kind in ALLOWED_CONTENT_TYPES
    ensures Plain(kind)
  {
    hide Plain, Ascii, PlainText;
    assert PlainText("application/javascript+module") by { JavascriptModule(); }
    AsciiPlain("application/javascript+module");
    assert PlainText("application/javascript") by { Javascript(); }
    AsciiPlain("application/javascript");
    assert PlainText("application/wasm") by { Wasm(); }
    AsciiPlain("application/wasm");
    assert PlainText("application/octet-stream") by { OctetStream(); }
    AsciiPlain("application/octet-stream");
    assert PlainText("text/plain") by { TextPlain(); }
    AsciiPlain("text/plain");
    assert PlainText("text/x-python") by { Python(); }
    AsciiPlain("text/x-python");
    assert PlainText("text/x-python-requirement") by { PythonRequirement(); }
    AsciiPlain("text/x-python-requirement");
    assert PlainText("application/source-map") by { SourceMap(); }
    AsciiPlain("application/source-map");
  }

  lemma JavascriptModule()
    ensures PlainText("application/javascript+module")
  {}

  lemma Javascript()
    ensures PlainText("application/javascript")
  {}

  lemma Wasm()
    ensures PlainText("application/wasm")
  {}

  lemma OctetStream()
    ensures PlainText("application/octet-stream")
  {}

  lemma TextPlain()
    ensures PlainText("text/plain")
  {}

  lemma Python()
    ensures PlainText("text/x-python")
  {}

  lemma PythonRequirement()
    ensures PlainText("text/x-python-requirement")
  {}

  lemma SourceMap()
    ensures PlainText("application/source-map")
  {}

  lemma PlainNormalized(kind: Bytes)
    requires kind in ALLOWED_CONTENT_TYPES
    ensures Strip(kind) == kind && Normalized(kind) == Some(kind)
  {
    AllowedPlain(kind);
    SeparatesWithoutFirst([SEMICOLON], kind);
    assert Lower(kind) == kind;
  }

  lemma ListingVerified<D>(entry: Bytes, rows: seq<Row<D>>, modules: map<Bytes, Row<D>>)
    requires SoundModules(modules) && entry in modules && Listing(rows, modules)
    ensures Verified(Inventory(entry, rows)) == Some(Inventory(entry, rows))
  {
    hide SafeName, Normalized, Sort;
    var names := Names(rows);
    forall i | 0 <= i < |rows|
      ensures SafeName(rows[i].name) && Normalized(rows[i].contentType) == Some(rows[i].contentType) && rows[i].bytes > 0
    {
      assert SoundRow(modules[rows[i].name]);
      PlainNormalized(rows[i].contentType);
    }
    SortSound(names);
    OrderedUnique(Sort(names), names);
    assert SoundRow(modules[entry]);
    assert entry in multiset(modules.Keys);
    assert entry in multiset(names);
    forall i, j | 0 <= i < j < |rows| ensures rows[i].name != rows[j].name {
      TwiceCounted(names, i, j);
      assert multiset(names)[names[i]] == multiset(modules.Keys)[names[i]] <= 1;
    }
    assert rows != [] && entry in names && SafeName(entry);
    assert seq(|rows|,
        i requires 0 <= i < |rows| => rows[i].(contentType := Normalized(rows[i].contentType).value)) == rows;
  }

  /** Whatever the parser returns is an inventory that `_require_verified_module_inventory` accepts
      unchanged; so comparing it succeeds exactly when the live inventory is verified and equal. */
  lemma ParsedIsVerified<D>(raw: Bytes, json: Bytes -> Option<Metadata>, sha: Bytes -> D, inventory: Inventory<D>)
    requires Bundle(raw, json, sha).Some?
    requires inventory.mainModule == Bundle(raw, json, sha).value.0
             && Listing(inventory.modules, Bundle(raw, json, sha).value.1)
    ensures Verified(inventory) == Some(inventory)
    ensures forall live :: Compared(inventory, live).Some? <==> Verified(live) == Some(inventory)
  {
    hide Parts, AbsorbAll, Verified, Listing;
    NamesKept(Collected(None, map[]), Parts(raw).value, sha);
    ListingVerified(inventory.mainModule, inventory.modules, Bundle(raw, json, sha).value.1);
  }

  lemma TwiceCounted(names: seq<Bytes>, i: nat, j: nat)
    requires i < j < |names|
    ensures names[i] == names[j] ==> multiset(names)[names[i]] >= 2
  {
    assert names == names[..j] + [names[j]] + names[j + 1..];
    assert names[..j][i] == names[i];
    assert names[i] in multiset(names[..j]);
  }
}
