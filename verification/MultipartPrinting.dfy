/**
  Upload bundles as `multipart/form-data` writers print them, and what the parser makes of them.
  Writers escape quotes and line breaks in names, so names here contain none.
 */
module MultipartPrinting {
  import opened Outcomes
  import opened ByteOrder
  import opened TextScan
  import opened Multipart

  datatype Item = MetadataItem(json: Bytes) | ModuleItem(name: Bytes, contentType: Bytes, content: Bytes)

  const DISPOSITION_KEY: Bytes := Ascii("Content-Disposition")
  const CONTENT_TYPE_KEY: Bytes := Ascii("Content-Type")
  const OPENING: Bytes := Ascii("form-data; name=\"")
  const MIDDLE: Bytes := Ascii("; filename=\"")

  function Disposition(item: Item): Bytes {
    match item
    case MetadataItem(_) => OPENING + METADATA + [QUOTE]
    case ModuleItem(name, _, _) => OPENING + name + [QUOTE] + (MIDDLE + name + [QUOTE])
  }

  function Line(key: Bytes, value: Bytes): Bytes {
    key + [COLON] + ([32] + value)
  }

  function HeaderLines(item: Item): (lines: seq<Bytes>)
    ensures lines != []
  {
    [Line(DISPOSITION_KEY, Disposition(item))]
    + if item.ModuleItem? then [Line(CONTENT_TYPE_KEY, item.contentType)] else []
  }

  function Body(item: Item): Bytes {
    if item.ModuleItem? then item.content else item.json
  }

  /** One part with the line breaks around it. */
  function Chunk(item: Item): Bytes {
    NEWLINE + Join(HeaderLines(item), NEWLINE) + BLANK_LINE + Body(item) + NEWLINE
  }

  function AfterDelimiter(delimiter: Bytes, items: seq<Item>): Bytes {
    if items == [] then DASHES + NEWLINE
    else Chunk(items[0]) + delimiter + AfterDelimiter(delimiter, items[1..])
  }

  function Printed(boundary: Bytes, items: seq<Item>): Bytes {
    DASHES + boundary + AfterDelimiter(DASHES + boundary, items)
  }

  // ----- names that survive the disposition patterns

  /** A semicolon in the name at which the parameter pattern for `word` matches. */
  predicate Trap(name: Bytes, word: Bytes, p: nat) {
    && p < |name| && name[p] == SEMICOLON
    && var w := SkipSpaces(name, p + 1);
       Occurs(Lower(name), word, w) && (w + |word| == |name| || TokenByte(name[w + |word|]))
  }

  predicate Clear(name: Bytes) {
    && (forall i | 0 <= i < |name| :: name[i] < 128)
    && (forall p | 0 <= p < |name| :: !Trap(name, NAME, p) && !Trap(name, FILENAME, p))
  }

  predicate Unescaped(name: Bytes) {
    QUOTE !in name && CR !in name && LF !in name
  }

  ghost predicate Printable(item: Item) {
    item.ModuleItem? ==>
      && SafeName(item.name) && Unescaped(item.name)
      && item.contentType in ALLOWED_CONTENT_TYPES && item.content != []
  }

  lemma SpacesInName(h: Bytes, start: nat, name: Bytes, p: nat)
    requires p <= |name| && Occurs(h, name, start) && start + |name| < |h| && h[start + |name|] == QUOTE
    ensures SkipSpaces(h, start + p) == start + SkipSpaces(name, p)
    decreases |name| - p
  {
    assert p < |name| ==> h[start..start + |name|][p] == h[start + p];
    if p < |name| && IsSpace(name[p]) { SpacesInName(h, start, name, p + 1); }
  }

  lemma WordInName(h: Bytes, start: nat, name: Bytes, word: Bytes, w: nat)
    requires w <= |name| && Occurs(h, name, start) && start + |name| < |h| && h[start + |name|] == QUOTE
    requires QUOTE !in word && word != []
    ensures Occurs(Lower(h), word, start + w) <==> Occurs(Lower(name), word, w)
  {
    var low := Lower(h);
    assert forall i | 0 <= i < |name| :: name[i] == h[start + i];
    if w + |word| <= |name| {
      assert low[start + w..start + w + |word|] == Lower(name)[w..w + |word|];
    } else {
      var k := |name| - w;
      assert low[start + w + k] == QUOTE && word[k] != QUOTE;
      assert start + w + |word| <= |h| ==> low[start + w..start + w + |word|][k] == low[start + w + k];
    }
  }

  lemma ValueIsToken(h: Bytes, v: nat)
    requires v < |h|
    ensures h[v] == QUOTE || TokenByte(h[v]) ==> MatchValue(h, v).Hit?
    ensures h[v] != QUOTE && !TokenByte(h[v]) ==> MatchValue(h, v).Miss?
  {
    hide FindFrom;
  }

  lemma TrapIsMatch(h: Bytes, start: nat, name: Bytes, word: Bytes, p: nat)
    requires Occurs(h, name, start) && start + |name| < |h| && h[start + |name|] == QUOTE
    requires QUOTE !in name && QUOTE !in word && word != []
    requires p < |name| && name[p] == SEMICOLON
    ensures MatchTail(h, word, start + p + 1).Hit? <==> Trap(name, word, p)
  {
    hide Lower, SkipSpaces, MatchValue, TokenByte;
    var w := SkipSpaces(name, p + 1);
    SpacesInName(h, start, name, p + 1);
    WordInName(h, start, name, word, w);
    if Occurs(Lower(name), word, w) {
      var v := w + |word|;
      if v < |name| { assert name[v] == h[start..start + |name|][v] == h[start + v]; }
      ValueIsToken(h, start + v);
    }
  }

  // ----- the two patterns on a printed disposition

  /** Every match in the printed disposition begins at a semicolon after the first word. */
  lemma Opening(h: Bytes, word: Bytes, p: nat)
    requires OPENING <= h && p < |OPENING| && p != 9 && (word == NAME || word == FILENAME)
    ensures MatchAt(h, word, p).Miss?
  {
    assert h[..|OPENING|] == OPENING;
    assert h[p] == OPENING[p] != SEMICOLON;
    assert Lower(h)[1] == 111 != word[1];
    assert |word| <= |h| ==> Lower(h)[0..|word|][1] == Lower(h)[1];
  }

  lemma OpeningText()
    ensures |OPENING| == 17 && OPENING[9] == SEMICOLON && OPENING[10] == 32 && OPENING[16] == QUOTE
    ensures |NAME| == 5 && OPENING[11..16] == NAME && Lower(NAME) == NAME && !IsSpace(NAME[0])
  {}

  lemma LowerOccurs(h: Bytes, word: Bytes, i: nat)
    requires Occurs(h, word, i) && Lower(word) == word
    ensures Occurs(Lower(h), word, i)
  {
    assert forall k | 0 <= k < |word| :: word[k] == h[i + k];
    assert Lower(h)[i..i + |word|] == Lower(word);
  }

  lemma FindByte(h: Bytes, b: Byte, from: nat, i: nat)
    requires from <= i < |h| && h[i] == b && forall j | from <= j < i :: h[j] != b
    ensures FindFrom(h, [b], from) == Some(i)
  {
    assert h[i..i + 1] == [b];
    forall j | from <= j < i ensures !Occurs(h, [b], j) {
      assert h[j..j + 1][0] == h[j];
    }
    FindFirst(h, [b], from, i);
  }

  /** A parameter written as `; word="value"` is matched and its value read back. */
  lemma QuotedParameter(h: Bytes, word: Bytes, p: nat, value: Bytes)
    requires word != [] && Lower(word) == word && !IsSpace(word[0]) && QUOTE !in value
    requires p > 0 && p + 3 + |word| + |value| < |h| && h[p] == SEMICOLON && h[p + 1] == 32
    requires Occurs(h, word, p + 2) && h[p + 2 + |word|] == QUOTE
    requires Occurs(h, value, p + 3 + |word|) && h[p + 3 + |word| + |value|] == QUOTE
    ensures MatchAt(h, word, p) == Hit(value, p + 4 + |word| + |value|)
  {
    hide Lower, FindFrom, SkipToken;
    LowerOccurs(h, word, p + 2);
    var v := p + 2 + |word|;
    assert h[p + 2..v][0] == h[p + 2];
    assert forall k | 0 <= k < |value| :: value[k] == h[v + 1 + k];
    assert SkipSpaces(h, p + 1) == p + 2;
    assert forall j | v + 1 <= j < v + 1 + |value| :: h[j] == value[j - v - 1];
    FindByte(h, QUOTE, v + 1, v + 1 + |value|);
  }

  lemma Slices(h: Bytes, name: Bytes, rest: Bytes)
    requires h == OPENING + name + [QUOTE] + rest && |OPENING| == 17
    ensures OPENING <= h && h[11..16] == OPENING[11..16] && h[9] == OPENING[9] && h[10] == OPENING[10]
            && h[16] == OPENING[16]
    ensures h[17..17 + |name|] == name && h[17 + |name|] == QUOTE
  {
    assert h[..17] == OPENING;
  }

  /** The part name is the value of the first match of the name pattern. */
  lemma OuterName(h: Bytes, name: Bytes, rest: Bytes)
    requires QUOTE !in name && h == OPENING + name + [QUOTE] + rest
    ensures MatchAt(h, NAME, 9) == Hit(name, |OPENING| + |name| + 1)
    ensures Matches(h, NAME, 0) == [name] + Matches(h, NAME, |OPENING| + |name| + 1)
  {
    hide Ascii, Lower, MatchAt, Matches;
    OpeningText();
    Slices(h, name, rest);
    QuotedParameter(h, NAME, 9, name);
    forall p | 0 <= p < 9 ensures MatchAt(h, NAME, p).Miss? {
      Opening(h, NAME, p);
    }
    MatchesSkip(h, NAME, 0, 9);
    MatchesHit(h, NAME, 9);
  }

  lemma InName(h: Bytes, start: nat, name: Bytes, word: Bytes, q: nat)
    requires start > 0 && Occurs(h, name, start) && start + |name| < |h| && h[start + |name|] == QUOTE
    requires QUOTE !in name && QUOTE !in word && word != [] && q < |name|
    ensures MatchAt(h, word, start + q).Hit? <==> Trap(name, word, q)
  {
    hide MatchTail;
    assert name[q] == h[start..start + |name|][q] == h[start + q];
    if name[q] == SEMICOLON { TrapIsMatch(h, start, name, word, q); }
  }

  lemma MiddleText()
    ensures |MIDDLE| == 12 && MIDDLE[0] == SEMICOLON && MIDDLE[1] == 32 && MIDDLE[11] == QUOTE
    ensures |FILENAME| == 9 && MIDDLE[2..11] == FILENAME && Lower(FILENAME) == FILENAME && !IsSpace(FILENAME[0])
    ensures QUOTE !in NAME && QUOTE !in FILENAME && MIDDLE[2] != NAME[0] && !IsSpace(MIDDLE[2])
            && LowerByte(MIDDLE[2]) == MIDDLE[2]
    ensures forall i | 0 < i < |MIDDLE| :: MIDDLE[i] != SEMICOLON
    ensures OPENING[11] != FILENAME[0] && LowerByte(OPENING[11]) == OPENING[11]
  {}

  /** The two copies of the name in a printed module disposition. */
  ghost predicate Twice(h: Bytes, name: Bytes) {
    && QUOTE !in name && |h| == 31 + 2 * |name|
    && OPENING <= h && Occurs(h, name, 17) && h[17 + |name|] == QUOTE
    && Occurs(h, MIDDLE, 18 + |name|)
    && Occurs(h, name, 30 + |name|) && h[30 + 2 * |name|] == QUOTE
  }

  lemma ModuleDisposition(name: Bytes)
    requires QUOTE !in name
    ensures Twice(OPENING + name + [QUOTE] + (MIDDLE + name + [QUOTE]), name)
  {
    hide Ascii;
    OpeningText();
    MiddleText();
    var h := OPENING + name + [QUOTE] + (MIDDLE + name + [QUOTE]);
    assert h[17..17 + |name|] == name;
    assert h[18 + |name|..30 + |name|] == MIDDLE;
    assert h[30 + |name|..30 + 2 * |name|] == name;
  }

  lemma WordMiss(h: Bytes, word: Bytes, p: nat)
    requires 0 < p && p + 2 < |h| && word != [] && h[p] == SEMICOLON && h[p + 1] == 32 && !IsSpace(h[p + 2])
    requires LowerByte(h[p + 2]) != word[0]
    ensures MatchAt(h, word, p).Miss?
  {
    assert SkipSpaces(h, p + 1) == p + 2;
    assert p + 2 + |word| <= |h| ==> Lower(h)[p + 2..p + 2 + |word|][0] == Lower(h)[p + 2];
  }

  /** Outside the names, only the two written parameters match. */
  lemma MiddleMisses(h: Bytes, name: Bytes, p: nat)
    requires Twice(h, name) && 17 + |name| <= p < 30 + |name|
    ensures MatchAt(h, NAME, p).Miss?
    ensures p != 18 + |name| ==> MatchAt(h, FILENAME, p).Miss?
  {
    hide Ascii, Lower, LowerByte, MatchTail;
    MiddleText();
    var m := 18 + |name|;
    assert forall i | 0 <= i < 12 :: MIDDLE[i] == h[m..m + 12][i] == h[m + i];
    if p == m { WordMiss(h, NAME, p); }
    if p > m { assert h[p] == MIDDLE[p - m]; }
  }

  lemma FilenameOpening(h: Bytes, p: nat)
    requires OPENING <= h && p < 17
    ensures MatchAt(h, FILENAME, p).Miss?
  {
    hide Ascii, Lower, LowerByte;
    OpeningText();
    MiddleText();
    assert forall i | 0 <= i < 17 :: OPENING[i] == h[i];
    assert NAME[0] == OPENING[11..16][0] == OPENING[11];
    if p == 9 { WordMiss(h, FILENAME, 9); } else { Opening(h, FILENAME, p); }
  }

  predicate Trapped(name: Bytes, word: Bytes) {
    exists q | 0 <= q < |name| :: Trap(name, word, q)
  }

  lemma SecondCopy(h: Bytes, name: Bytes, word: Bytes)
    requires Twice(h, name) && (word == NAME || word == FILENAME) && !Trapped(name, word)
    ensures NoMatch(h, word, 30 + |name|, |h| + 1)
  {
    hide Ascii, MatchAt;
    MiddleText();
    OpeningText();
    forall p | 30 + |name| <= p < |h| + 1 ensures MatchAt(h, word, p).Miss? {
      if p < 30 + 2 * |name| {
        assert !Trap(name, word, p - 30 - |name|);
        InName(h, 30 + |name|, name, word, p - 30 - |name|);
      } else {
        EndMiss(h, word, p);
      }
    }
  }

  lemma EndMiss(h: Bytes, word: Bytes, p: nat)
    requires 0 < p <= |h| && (p < |h| ==> h[p] == QUOTE)
    ensures MatchAt(h, word, p).Miss?
  {}

  lemma OuterOf(h: Bytes, name: Bytes)
    requires Twice(h, name)
    ensures MatchAt(h, NAME, 9) == Hit(name, 18 + |name|)
    ensures Matches(h, NAME, 0) == [name] + Matches(h, NAME, 18 + |name|)
  {
    hide Ascii, MatchAt, Matches;
    OpeningText();
    var rest := h[18 + |name|..];
    assert h == OPENING + name + [QUOTE] + rest by {
      assert h == h[..17] + h[17..17 + |name|] + h[17 + |name|..18 + |name|] + rest;
    }
    OuterName(h, name, rest);
  }

  /** The part name is read back exactly when the name holds no trap for its own pattern. */
  lemma NameParam(h: Bytes, name: Bytes)
    requires Twice(h, name)
    ensures Param(h, NAME) == if Trapped(name, NAME) then None else Some(Some(name))
  {
    hide Ascii, MatchAt, Matches, Trap;
    OuterOf(h, name);
    MiddleText();
    OpeningText();
    if Trapped(name, NAME) {
      var q :| 0 <= q < |name| && Trap(name, NAME, q);
      InName(h, 30 + |name|, name, NAME, q);
      SomeMatch(h, NAME, 18 + |name|, 30 + |name| + q);
    } else {
      forall p | 18 + |name| <= p < 30 + |name| ensures MatchAt(h, NAME, p).Miss? {
        MiddleMisses(h, name, p);
      }
      SecondCopy(h, name, NAME);
      MatchesEnd(h, NAME, 18 + |name|);
    }
  }

  lemma ValueEnd(h: Bytes, name: Bytes, v: nat)
    requires Twice(h, name) && 17 <= v <= 17 + |name| && MatchValue(h, v).Hit?
    ensures MatchValue(h, v).end <= 30 + |name|
  {
    hide Ascii;
    MiddleText();
    var m := 18 + |name|;
    assert forall i | 0 <= i < 12 :: MIDDLE[i] == h[m..m + 12][i] == h[m + i];
    assert v < 17 + |name| ==> h[v] == h[17..17 + |name|][v - 17] == name[v - 17];
    assert h[m + 11..m + 12] == [QUOTE] && h[m] == SEMICOLON;
    assert Occurs(h, [QUOTE], m + 11);
  }

  /** A match inside the first copy of the name never reaches into the second copy. */
  lemma FirstCopyEnd(h: Bytes, name: Bytes, q: nat)
    requires Twice(h, name) && q < |name| && MatchAt(h, FILENAME, 17 + q).Hit?
    ensures MatchAt(h, FILENAME, 17 + q).end <= 30 + |name|
  {
    hide Ascii, Lower, LowerByte, MatchValue;
    MiddleText();
    var w := SkipSpaces(name, q + 1);
    SpacesInName(h, 17, name, q + 1);
    WordInName(h, 17, name, FILENAME, w);
    ValueEnd(h, name, 17 + w + |FILENAME|);
  }

  lemma FilenameParam(h: Bytes, name: Bytes)
    requires Twice(h, name)
    ensures Param(h, FILENAME) == if Trapped(name, FILENAME) then None else Some(Some(name))
  {
    hide Ascii, MatchAt, Matches, Trap;
    MiddleText();
    OpeningText();
    forall p | 0 <= p < 17 ensures MatchAt(h, FILENAME, p).Miss? {
      FilenameOpening(h, p);
    }
    if Trapped(name, FILENAME) {
      TrappedTwice(h, name);
    } else {
      var m := 18 + |name|;
      forall p | 17 <= p < m ensures MatchAt(h, FILENAME, p).Miss? {
        if p < 17 + |name| { InName(h, 17, name, FILENAME, p - 17); } else { MiddleMisses(h, name, p); }
      }
      MatchesSkip(h, FILENAME, 0, m);
      FilenameAt(h, name);
      SecondCopy(h, name, FILENAME);
      MatchesEnd(h, FILENAME, |h|);
      assert Matches(h, FILENAME, m) == [name] + Matches(h, FILENAME, |h|) by { MatchesHit(h, FILENAME, m); }
    }
  }

  lemma MatchesHit(h: Bytes, word: Bytes, p: nat)
    requires p <= |h| && MatchAt(h, word, p).Hit?
    ensures Matches(h, word, p) == [MatchAt(h, word, p).value] + Matches(h, word, MatchAt(h, word, p).end)
  {}

  lemma FilenameAt(h: Bytes, name: Bytes)
    requires Twice(h, name)
    ensures MatchAt(h, FILENAME, 18 + |name|) == Hit(name, |h|)
  {
    hide Ascii, MatchAt;
    MiddleText();
    var m := 18 + |name|;
    assert forall i | 0 <= i < 12 :: MIDDLE[i] == h[m..m + 12][i] == h[m + i];
    assert h[m + 2..m + 11] == MIDDLE[2..11];
    QuotedParameter(h, FILENAME, m, name);
  }

  lemma TrappedTwice(h: Bytes, name: Bytes)
    requires Twice(h, name) && Trapped(name, FILENAME)
    ensures |Matches(h, FILENAME, 0)| > 1
  {
    hide Ascii, MatchAt, Matches, Trap;
    MiddleText();
    var q :| 0 <= q < |name| && Trap(name, FILENAME, q);
    InName(h, 17, name, FILENAME, q);
    InName(h, 30 + |name|, name, FILENAME, q);
    forall p | 0 <= p <= 17 + q && MatchAt(h, FILENAME, p).Hit? ensures MatchAt(h, FILENAME, p).end <= 30 + |name| + q {
      if p < 17 { FilenameOpening(h, p); } else { FirstCopyEnd(h, name, p - 17); }
    }
    TwoMatches(h, FILENAME, 0, 17 + q, 30 + |name| + q);
  }

  lemma MetadataText()
    ensures |METADATA| == 8 && QUOTE !in METADATA && SEMICOLON !in METADATA
    ensures forall i | 0 <= i < |METADATA| :: PlainByte(METADATA[i])
  {}

  lemma MetadataParams(h: Bytes)
    requires h == OPENING + METADATA + [QUOTE]
    ensures Param(h, NAME) == Some(Some(METADATA)) && Param(h, FILENAME) == Some(None)
  {
    hide Ascii, MatchAt, Matches;
    MetadataText();
    OpeningText();
    assert h == h + [];
    OuterName(h, METADATA, []);
    EndMiss(h, NAME, |h|);
    MatchesEnd(h, NAME, |h|);
    forall p | 0 <= p < |h| + 1 ensures MatchAt(h, FILENAME, p).Miss? {
      if p < 17 { FilenameOpening(h, p); } else { NoSemicolonMiss(h, FILENAME, p); }
    }
    MatchesEnd(h, FILENAME, 0);
  }

  lemma NoSemicolonMiss(h: Bytes, word: Bytes, p: nat)
    requires 0 < p <= |h| && (p < |h| ==> h[p] != SEMICOLON)
    ensures MatchAt(h, word, p).Miss?
  {}

  // ----- header lines

  ghost predicate Trimmed(t: Bytes) {
    t != [] && !IsSpace(t[0]) && !IsSpace(t[|t| - 1])
  }

  lemma Stripped(value: Bytes)
    requires Trimmed(value)
    ensures Strip([32] + value) == value && Strip(value) == value
  {
    hide IsSpace;
    SpaceByte();
    assert ([32] + value)[1..] == value;
    assert StripLeft([32] + value) == StripLeft(value) == value;
    assert StripRight(value) == value;
  }

  lemma SpaceByte()
    ensures IsSpace(32)
  {}

  lemma LineRead(key: Bytes, value: Bytes)
    requires Trimmed(key) && COLON !in key && Trimmed(value)
    ensures HeaderLine(Line(key, value)) == Some((Lower(key), value))
  {
    hide Strip, Lower, FindFrom;
    var line := Line(key, value);
    FindByte(line, COLON, 0, |key|);
    assert line[..|key|] == key && line[|key| + 1..] == [32] + value;
    Stripped(key);
    Stripped(value);
    assert Lower(key) != [];
  }

  lemma KeyText()
    ensures Trimmed(DISPOSITION_KEY) && COLON !in DISPOSITION_KEY && Lower(DISPOSITION_KEY) == DISPOSITION
    ensures Trimmed(CONTENT_TYPE_KEY) && COLON !in CONTENT_TYPE_KEY && Lower(CONTENT_TYPE_KEY) == CONTENT_TYPE
    ensures DISPOSITION != CONTENT_TYPE
  {}

  ghost predicate HeaderText(t: Bytes) {
    forall i | 0 <= i < |t| :: 0 < t[i] < 128 && t[i] != CR && t[i] != LF
  }

  lemma FixedText()
    ensures HeaderText(DISPOSITION_KEY) && HeaderText(CONTENT_TYPE_KEY)
    ensures HeaderText(OPENING) && HeaderText(MIDDLE) && HeaderText(METADATA)
  {}

  lemma AsciiConcat(a: Bytes, b: Bytes)
    ensures AsciiText(a + b) <==> AsciiText(a) && AsciiText(b)
  {
    assert forall i | 0 <= i < |a| :: (a + b)[i] == a[i];
    assert forall i | 0 <= i < |b| :: (a + b)[|a| + i] == b[i];
  }

  predicate NoBreaks(t: Bytes) {
    CR !in t && LF !in t
  }

  predicate AsciiName(item: Item) {
    item.MetadataItem? || forall i | 0 <= i < |item.name| :: item.name[i] < 128
  }

  lemma LineText(key: Bytes, value: Bytes)
    requires HeaderText(key)
    ensures AsciiText(Line(key, value)) <==> AsciiText(value)
    ensures NoBreaks(value) ==> NoBreaks(Line(key, value))
  {
    AsciiConcat(key + [COLON], [32] + value);
    AsciiConcat(key, [COLON]);
    AsciiConcat([32], value);
  }

  lemma DispositionText(item: Item)
    requires Printable(item)
    ensures NoBreaks(Disposition(item)) && (AsciiText(Disposition(item)) <==> AsciiName(item))
  {
    hide Ascii;
    FixedText();
    match item
    case MetadataItem(_) =>
      AsciiConcat(OPENING + METADATA, [QUOTE]);
      AsciiConcat(OPENING, METADATA);
    case ModuleItem(name, _, _) =>
      AsciiConcat(OPENING + name + [QUOTE], MIDDLE + name + [QUOTE]);
      AsciiConcat(OPENING + name, [QUOTE]);
      AsciiConcat(OPENING, name);
      AsciiConcat(MIDDLE + name, [QUOTE]);
      AsciiConcat(MIDDLE, name);
      assert AsciiText(name) <==> forall i | 0 <= i < |name| :: name[i] < 128;
  }

  lemma LineOk(key: Bytes, value: Bytes)
    requires HeaderText(key) && NoBreaks(value)
    ensures Line(key, value) != [] && NoBreaks(Line(key, value))
  {
    LineText(key, value);
  }

  lemma TextOfLines(item: Item)
    requires Printable(item)
    ensures forall i | 0 <= i < |HeaderLines(item)| :: HeaderLines(item)[i] != [] && NoBreaks(HeaderLines(item)[i])
    ensures AsciiText(Join(HeaderLines(item), NEWLINE)) <==> AsciiName(item)
  {
    hide Ascii, Line, Disposition, NoBreaks;
    FixedText();
    DispositionText(item);
    LineText(DISPOSITION_KEY, Disposition(item));
    LineOk(DISPOSITION_KEY, Disposition(item));
    if item.ModuleItem? {
      AllowedPlain(item.contentType);
      PlainBytes(item.contentType);
      LineText(CONTENT_TYPE_KEY, item.contentType);
      LineOk(CONTENT_TYPE_KEY, item.contentType);
      var first, second := Line(DISPOSITION_KEY, Disposition(item)), Line(CONTENT_TYPE_KEY, item.contentType);
      assert HeaderLines(item) == [first, second];
      assert Join(HeaderLines(item), NEWLINE) == first + NEWLINE + second;
      AsciiConcat(first + NEWLINE, second);
      AsciiConcat(first, NEWLINE);
    } else {
      assert HeaderLines(item) == [Line(DISPOSITION_KEY, Disposition(item))];
    }
  }

  lemma PlainBytes(t: Bytes)
    requires Plain(t)
    ensures AsciiText(t) && NoBreaks(t) && Trimmed(t)
  {}

  function HeadersOf(item: Item): map<Bytes, Bytes> {
    if item.MetadataItem? then map[DISPOSITION := Disposition(item)]
    else map[DISPOSITION := Disposition(item), CONTENT_TYPE := item.contentType]
  }

  lemma LinesRead(item: Item)
    requires Printable(item) && forall i | 0 <= i < |HeaderLines(item)| :: HeaderLines(item)[i] != []
    ensures HeadersFrom(HeaderLines(item), map[]) == Some(HeadersOf(item))
  {
    hide Ascii, HeaderLine, Line, Disposition;
    KeyText();
    DispositionTrimmed(item);
    LineRead(DISPOSITION_KEY, Disposition(item));
    var lines := HeaderLines(item);
    if item.ModuleItem? {
      AllowedPlain(item.contentType);
      PlainBytes(item.contentType);
      LineRead(CONTENT_TYPE_KEY, item.contentType);
      assert lines[1..] == [lines[1]];
      assert HeadersFrom(lines[1..], map[DISPOSITION := Disposition(item)]) == Some(HeadersOf(item));
    }
  }

  /** The header block of a printed part is read back, unless its name is not ASCII. */
  lemma BlockRead(item: Item)
    requires Printable(item)
    ensures Headers(Join(HeaderLines(item), NEWLINE)) == if AsciiName(item) then Some(HeadersOf(item)) else None
  {
    hide Ascii, HeaderLines, HeadersFrom;
    TextOfLines(item);
    var lines := HeaderLines(item);
    forall i | 0 <= i < |lines| ensures Separates(NEWLINE, lines[i]) && Free(NEWLINE, lines[i]) {
      SeparatesWithoutFirst(NEWLINE, lines[i]);
    }
    SplitJoin(lines, NEWLINE);
    LinesRead(item);
  }

  lemma DispositionTrimmed(item: Item)
    ensures Trimmed(Disposition(item))
  {
    assert Disposition(item)[0] == OPENING[0];
  }

  // ----- one printed part

  ghost predicate BreaksSingle(block: Bytes) {
    forall i | 0 <= i < |block| && block[i] == CR :: i + 2 < |block| && block[i + 2] != CR
  }

  lemma BlankLineFirst(block: Bytes, body: Bytes)
    requires BreaksSingle(block)
    ensures Cut(block + BLANK_LINE + body) == Some((block, body))
  {
    var payload := block + BLANK_LINE + body;
    assert payload[|block|..|block| + 4] == BLANK_LINE;
    forall i | 0 <= i < |block| ensures !Occurs(payload, BLANK_LINE, i) {
      assert i + 4 <= |payload| ==> payload[i..i + 4][0] == payload[i] && payload[i..i + 4][2] == payload[i + 2];
      assert payload[i] == block[i];
      assert i + 2 < |block| ==> payload[i + 2] == block[i + 2];
    }
    FindFirst(payload, BLANK_LINE, 0, |block|);
    assert payload[..|block|] == block && payload[|block| + 4..] == body;
  }

  lemma BlockBreaks(item: Item)
    requires Printable(item)
    ensures BreaksSingle(Join(HeaderLines(item), NEWLINE))
  {
    hide Line, Disposition;
    TextOfLines(item);
    var lines := HeaderLines(item);
    var block := Join(lines, NEWLINE);
    if item.ModuleItem? {
      assert block == lines[0] + NEWLINE + lines[1];
      assert forall i | 0 <= i < |lines[0]| :: block[i] == lines[0][i];
      assert forall i | 0 <= i < |lines[1]| :: block[|lines[0]| + 2 + i] == lines[1][i];
    }
  }

  lemma BreaksDropped(inner: Bytes)
    ensures WithoutBreaks(NEWLINE + inner + NEWLINE) == Some(inner)
  {
    var chunk := NEWLINE + inner + NEWLINE;
    assert chunk[2..] == inner + NEWLINE;
    assert (inner + NEWLINE)[|inner|..] == NEWLINE && (inner + NEWLINE)[..|inner|] == inner;
  }

  /** A printed part is cut into its header block and its body, whatever line breaks the body holds. */
  lemma ChunkCut(item: Item)
    requires Printable(item)
    ensures WithoutBreaks(Chunk(item)).Some?
    ensures Cut(WithoutBreaks(Chunk(item)).value) == Some((Join(HeaderLines(item), NEWLINE), Body(item)))
  {
    hide HeaderLines, Join, WithoutBreaks, Cut;
    var block := Join(HeaderLines(item), NEWLINE);
    var inner := block + BLANK_LINE + Body(item);
    assert Chunk(item) == NEWLINE + inner + NEWLINE;
    BreaksDropped(inner);
    BlockBreaks(item);
    BlankLineFirst(block, Body(item));
  }

  function RowOf<D>(item: Item, sha: Bytes -> D): Row<D>
    requires item.ModuleItem?
  {
    Row(item.name, item.contentType, |item.content|, sha(item.content))
  }

  function PieceFor<D>(item: Item, sha: Bytes -> D): Piece<D> {
    if item.ModuleItem? then ModulePart(RowOf(item, sha)) else MetadataPart(item.json)
  }

  lemma FormDataText(item: Item)
    ensures StartsWith(Lower(Disposition(item)), FORM_DATA)
  {
    var d := Disposition(item);
    FormDataOpening();
    assert forall i | 0 <= i < |FORM_DATA| :: Lower(d)[i] == Lower(OPENING)[i];
    assert Lower(d)[..|FORM_DATA|] == FORM_DATA;
  }

  lemma FormDataOpening()
    ensures |FORM_DATA| == 9 && |OPENING| == 17 && Lower(OPENING)[..9] == FORM_DATA
  {}

  /** A printed part is understood exactly when its name is clear. */
  lemma PartRead<D>(item: Item, sha: Bytes -> D)
    requires Printable(item)
    ensures PieceOf(Chunk(item), sha) ==
            if item.ModuleItem? && !Clear(item.name) then None else Some(PieceFor(item, sha))
  {
    hide Ascii, HeaderLines, Join, WithoutBreaks, Cut, Headers, Matches, Trap, Normalized, Disposition, Lower;
    ChunkCut(item);
    BlockRead(item);
    FormDataText(item);
    KeyText();
    if item.ModuleItem? {
      ModuleParams(item);
      PlainNormalized(item.contentType);
    } else {
      MetadataItemParams(item);
    }
  }

  lemma ModuleParams(item: Item)
    requires item.ModuleItem? && QUOTE !in item.name
    ensures Param(Disposition(item), NAME) == if Trapped(item.name, NAME) then None else Some(Some(item.name))
    ensures Param(Disposition(item), FILENAME) == if Trapped(item.name, FILENAME) then None else Some(Some(item.name))
  {
    ModuleDisposition(item.name);
    NameParam(Disposition(item), item.name);
    FilenameParam(Disposition(item), item.name);
  }

  lemma MetadataItemParams(item: Item)
    requires item.MetadataItem?
    ensures Param(Disposition(item), NAME) == Some(Some(METADATA)) && Param(Disposition(item), FILENAME) == Some(None)
  {
    MetadataParams(Disposition(item));
  }

  // ----- the whole body

  lemma DelimiterInside(delimiter: Bytes, item: Item)
    requires delimiter != [] && LF !in delimiter && Free(delimiter, Chunk(item))
    ensures Separates(delimiter, Chunk(item))
  {
    hide HeaderLines, Join;
    var chunk := Chunk(item);
    assert chunk[|chunk| - 1] == LF;
    forall i | 0 <= i < |chunk| ensures !Occurs(chunk + delimiter, delimiter, i) {
      if i + |delimiter| <= |chunk| {
        assert !Occurs(chunk, delimiter, i);
        assert chunk[i..i + |delimiter|] == (chunk + delimiter)[i..i + |delimiter|];
      } else {
        var k := |chunk| - 1 - i;
        assert i + |delimiter| <= |chunk + delimiter| ==>
                 (chunk + delimiter)[i..i + |delimiter|][k] == (chunk + delimiter)[i + k] == LF;
        assert delimiter[k] != LF;
      }
    }
  }

  function Chunks(items: seq<Item>): (chunks: seq<Bytes>)
    ensures |chunks| == |items|
  {
    seq(|items|, i requires 0 <= i < |items| => Chunk(items[i]))
  }

  lemma {:induction false} AfterIsJoin(delimiter: Bytes, items: seq<Item>)
    ensures AfterDelimiter(delimiter, items) == Join(Chunks(items) + [DASHES + NEWLINE], delimiter)
  {
    hide Chunk;
    var pieces := Chunks(items) + [DASHES + NEWLINE];
    if items != [] {
      AfterIsJoin(delimiter, items[1..]);
      assert pieces[1..] == Chunks(items[1..]) + [DASHES + NEWLINE];
    }
  }

  /** The delimiter occurs in no printed part. */
  ghost predicate Undisturbed(boundary: Bytes, items: seq<Item>) {
    forall i | 0 <= i < |items| :: Free(DASHES + boundary, Chunk(items[i]))
  }

  lemma DelimiterBytes(boundary: Bytes)
    requires BoundaryText(boundary)
    ensures CR !in DASHES + boundary && LF !in DASHES + boundary && |DASHES + boundary| >= 3
    ensures Free(DASHES + boundary, DASHES + NEWLINE)
  {
    var delimiter := DASHES + boundary;
    assert forall i | 0 <= i < |boundary| :: boundary[i] != CR && boundary[i] != LF;
    var terminator := DASHES + NEWLINE;
    forall i | 0 <= i <= |terminator| ensures !Occurs(terminator, delimiter, i) {
      assert i + |delimiter| <= 4 && i <= 2 ==> terminator[i..i + |delimiter|][2 - i] == terminator[2] == CR;
      assert i <= 2 ==> delimiter[2 - i] != CR;
    }
  }

  lemma SplitLeading(delimiter: Bytes, rest: Bytes)
    requires delimiter != []
    ensures SplitOn(delimiter + rest, delimiter) == [[]] + SplitOn(rest, delimiter)
  {
    var h := delimiter + rest;
    assert h[0..|delimiter|] == delimiter && h[|delimiter|..] == rest;
    FindFirst(h, delimiter, 0, 0);
  }

  lemma PrintedSplit(boundary: Bytes, items: seq<Item>)
    requires BoundaryText(boundary) && Undisturbed(boundary, items)
    ensures SplitOn(Printed(boundary, items), DASHES + boundary) == [[]] + Chunks(items) + [DASHES + NEWLINE]
  {
    hide Chunk, Separates, Free, Occurs, SplitOn, Join;
    var delimiter := DASHES + boundary;
    var pieces := Chunks(items) + [DASHES + NEWLINE];
    AfterIsJoin(delimiter, items);
    DelimiterBytes(boundary);
    forall i | 0 <= i < |pieces| - 1 ensures Separates(delimiter, pieces[i]) {
      DelimiterInside(delimiter, items[i]);
    }
    SplitJoin(pieces, delimiter);
    SplitLeading(delimiter, AfterDelimiter(delimiter, items));
    assert [[]] + pieces == [[]] + Chunks(items) + [DASHES + NEWLINE];
  }

  lemma PrintedBoundary(boundary: Bytes, items: seq<Item>)
    requires BoundaryText(boundary) && items != []
    ensures BoundaryOf(Printed(boundary, items)) == Some(boundary)
  {
    hide HeaderLines, Join;
    var delimiter := DASHES + boundary;
    var raw := Printed(boundary, items);
    DelimiterBytes(boundary);
    assert Chunk(items[0])[0] == CR && Chunk(items[0])[1] == LF;
    assert raw[..|delimiter|] == delimiter && raw[|delimiter|] == CR && raw[|delimiter| + 1] == LF;
    FindByte(raw, LF, 0, |delimiter| + 1);
    var line := raw[..|delimiter| + 1];
    assert line[..|line| - 1] == delimiter;
    assert WithoutTrailing(line, CR) == WithoutTrailing(delimiter, CR) == delimiter;
    assert delimiter[2..] == boundary;
  }

  lemma PrintedParts(boundary: Bytes, items: seq<Item>)
    requires BoundaryText(boundary) && items != [] && Undisturbed(boundary, items)
    requires |Printed(boundary, items)| <= MAX_BUNDLE_BYTES
    ensures Parts(Printed(boundary, items)) == Some(Chunks(items))
  {
    hide Chunk, Printed, BoundaryOf;
    PrintedBoundary(boundary, items);
    PrintedSplit(boundary, items);
    var chunks := [[]] + Chunks(items) + [DASHES + NEWLINE];
    assert chunks[1..|chunks| - 1] == Chunks(items);
    assert (DASHES + NEWLINE)[2..] == NEWLINE;
  }

  ghost predicate AllPrintable(items: seq<Item>) {
    forall i | 0 <= i < |items| :: Printable(items[i])
  }

  ghost predicate AllClear(items: seq<Item>) {
    forall i | 0 <= i < |items| && items[i].ModuleItem? :: Clear(items[i].name)
  }

  /** At most one metadata part, and no name twice. */
  ghost predicate NoRepeats(items: seq<Item>) {
    && (forall i, j | 0 <= i < j < |items| :: items[i].ModuleItem? || items[j].ModuleItem?)
    && (forall i, j | 0 <= i < j < |items| && items[i].ModuleItem? && items[j].ModuleItem? ::
        items[i].name != items[j].name)
  }

  ghost predicate New<D>(state: Collected<D>, items: seq<Item>) {
    forall i | 0 <= i < |items| :: if items[i].ModuleItem? then items[i].name !in state.modules else state.metadata.None?
  }

  function Added<D>(state: Collected<D>, item: Item, sha: Bytes -> D): Collected<D> {
    if item.ModuleItem? then state.(modules := state.modules[item.name := RowOf(item, sha)])
    else state.(metadata := Some(item.json))
  }

  function Gathered<D>(state: Collected<D>, items: seq<Item>, sha: Bytes -> D): Collected<D>
    decreases |items|
  {
    if items == [] then state else Gathered(Added(state, items[0], sha), items[1..], sha)
  }

  lemma {:induction false} AbsorbPrinted<D>(state: Collected<D>, items: seq<Item>, sha: Bytes -> D)
    requires AllPrintable(items) && NoRepeats(items) && New(state, items)
    ensures AbsorbAll(state, Chunks(items), sha) == if AllClear(items) then Some(Gathered(state, items, sha)) else None
    decreases |items|
  {
    hide Chunk, Printable, Clear, PieceOf;
    if items != [] {
      PartRead(items[0], sha);
      assert Chunks(items)[1..] == Chunks(items[1..]);
      assert forall i | 0 <= i < |items[1..]| :: items[1..][i] == items[i + 1];
      if !(items[0].ModuleItem? && !Clear(items[0].name)) {
        AbsorbPrinted(Added(state, items[0], sha), items[1..], sha);
        assert AllClear(items) <==> AllClear(items[1..]) by {
          assert AllClear(items[1..]) ==>
              forall i | 1 <= i < |items| && items[i].ModuleItem? :: Clear(items[1..][i - 1].name);
        }
      }
    }
  }

  lemma {:induction false} GatheredFacts<D>(state: Collected<D>, items: seq<Item>, sha: Bytes -> D)
    requires NoRepeats(items) && New(state, items)
    ensures var end := Gathered(state, items, sha);
      && (forall n :: n in end.modules <==>
                      n in state.modules || exists i | 0 <= i < |items| :: items[i].ModuleItem? && items[i].name == n)
      && (forall n | n in state.modules :: n in end.modules && end.modules[n] == state.modules[n])
      && (forall i | 0 <= i < |items| && items[i].ModuleItem? ::
          items[i].name in end.modules && end.modules[items[i].name] == RowOf(items[i], sha))
      && (forall i | 0 <= i < |items| && items[i].MetadataItem? :: end.metadata == Some(items[i].json))
      && ((forall i | 0 <= i < |items| :: items[i].ModuleItem?) ==> end.metadata == state.metadata)
    decreases |items|
  {
    if items != [] {
      var next := Added(state, items[0], sha);
      assert forall i | 0 <= i < |items[1..]| :: items[1..][i] == items[i + 1];
      GatheredFacts(next, items[1..], sha);
      assert forall i | 1 <= i < |items| :: items[i] == items[1..][i - 1];
    }
  }

  predicate HasModule(items: seq<Item>, name: Bytes) {
    exists i | 0 <= i < |items| :: items[i].ModuleItem? && items[i].name == name
  }

  /** The modules of a body, whatever the order of its parts. */
  ghost predicate ModulesOf<D>(modules: map<Bytes, Row<D>>, items: seq<Item>, sha: Bytes -> D) {
    && (forall n :: n in modules <==> HasModule(items, n))
    && (forall i | 0 <= i < |items| && items[i].ModuleItem? ::
        items[i].name in modules && modules[items[i].name] == RowOf(items[i], sha))
  }

  /** Printing and parsing.  For one metadata part and any safely named, non-empty modules with
      different names, in any order, under a boundary whose delimiter occurs in no part: the parser
      accepts exactly when every name is clear, the body is within the bound and the metadata declares
      one of the modules; and then it yields that entry module and exactly these modules. */
  lemma PrintThenParse<D>(boundary: Bytes, items: seq<Item>, k: nat, json: Bytes -> Option<Metadata>, sha: Bytes -> D)
    requires BoundaryText(boundary) && Undisturbed(boundary, items)
    requires AllPrintable(items) && NoRepeats(items) && k < |items| && items[k].MetadataItem?
    ensures var raw := Printed(boundary, items);
            var metadata := json(items[k].json);
            var entry := if metadata.Some? then Declared(metadata.value) else None;
            && (Bundle(raw, json, sha).Some? <==>
                  AllClear(items) && |raw| <= MAX_BUNDLE_BYTES && entry.Some?
                  && HasModule(items, entry.value))
            && (Bundle(raw, json, sha).Some? ==>
                  Bundle(raw, json, sha).value.0 == entry.value && ModulesOf(Bundle(raw, json, sha).value.1, items, sha))
  {
    hide Chunk, Printable, Clear, PieceOf, Printed, Declared, Parts, AbsorbAll;
    var raw := Printed(boundary, items);
    if |raw| <= MAX_BUNDLE_BYTES {
      PrintedParts(boundary, items);
      AbsorbPrinted(Collected(None, map[]), items, sha);
      GatheredFacts(Collected(None, map[]), items, sha);
    } else {
      PartsBounded(raw);
    }
  }

  lemma PartsBounded(raw: Bytes)
    requires |raw| > MAX_BUNDLE_BYTES
    ensures Parts(raw).None?
  {}

  ghost predicate SameMembers(items: seq<Item>, items': seq<Item>) {
    forall item :: item in items <==> item in items'
  }

  lemma Rearranged(items: seq<Item>, items': seq<Item>)
    requires multiset(items) == multiset(items')
    ensures SameMembers(items, items')
  {
    forall item ensures item in items <==> item in items' {
      assert item in multiset(items) <==> item in multiset(items');
    }
  }

  lemma MembersAlike(items: seq<Item>, items': seq<Item>, name: Bytes)
    requires SameMembers(items, items') && HasModule(items, name)
    ensures HasModule(items', name)
  {
    var i :| 0 <= i < |items| && items[i].ModuleItem? && items[i].name == name;
    assert items[i] in items';
    var j :| 0 <= j < |items'| && items'[j] == items[i];
  }

  lemma ModulesUnique<D>(a: map<Bytes, Row<D>>, b: map<Bytes, Row<D>>, items: seq<Item>, items': seq<Item>, sha: Bytes -> D)
    requires SameMembers(items, items') && ModulesOf(a, items, sha) && ModulesOf(b, items', sha)
    ensures a == b
  {
    hide SameMembers, HasModule;
    forall n | n in a || n in b ensures n in a && n in b {
      if n in a { MembersAlike(items, items', n); } else { SameBack(items, items'); MembersAlike(items', items, n); }
    }
    forall n | n in a && n in b ensures a[n] == b[n] {
      OneRow(a, b, items, items', sha, n);
    }
  }

  lemma SameBack(items: seq<Item>, items': seq<Item>)
    requires SameMembers(items, items')
    ensures SameMembers(items', items)
  {}

  lemma OneRow<D>(a: map<Bytes, Row<D>>, b: map<Bytes, Row<D>>, items: seq<Item>, items': seq<Item>, sha: Bytes -> D,
                  n: Bytes)
    requires SameMembers(items, items') && ModulesOf(a, items, sha) && ModulesOf(b, items', sha) && n in a && n in b
    ensures a[n] == b[n]
  {
    assert HasModule(items, n);
    var i :| 0 <= i < |items| && items[i].ModuleItem? && items[i].name == n;
    assert items[i] in items';
    var j :| 0 <= j < |items'| && items'[j] == items[i];
  }

  lemma AlikeClear(items: seq<Item>, items': seq<Item>)
    requires SameMembers(items, items')
    ensures AllPrintable(items) ==> AllPrintable(items')
    ensures AllClear(items) ==> AllClear(items')
  {
    hide Printable, Clear;
    assert forall i | 0 <= i < |items'| :: items'[i] in items;
  }

  /** The order of the parts does not matter. */
  lemma OrderIndependent<D>(boundary: Bytes, boundary': Bytes, items: seq<Item>, items': seq<Item>, k: nat, k': nat,
                            json: Bytes -> Option<Metadata>, sha: Bytes -> D)
    requires BoundaryText(boundary) && Undisturbed(boundary, items) && BoundaryText(boundary')
             && Undisturbed(boundary', items')
    requires AllPrintable(items) && NoRepeats(items) && NoRepeats(items') && k < |items| && items[k].MetadataItem?
    requires multiset(items) == multiset(items') && k' < |items'| && items'[k'] == items[k]
    requires |Printed(boundary, items)| <= MAX_BUNDLE_BYTES && |Printed(boundary', items')| <= MAX_BUNDLE_BYTES
    ensures Bundle(Printed(boundary, items), json, sha) == Bundle(Printed(boundary', items'), json, sha)
  {
    hide Chunk, Printable, Clear, Printed, Declared, Bundle, Undisturbed, NoRepeats, ModulesOf, AllPrintable,
        AllClear, SameMembers, HasModule;
    Rearranged(items, items');
    SameBack(items, items');
    AlikeClear(items, items');
    AlikeClear(items', items);
    forall n ensures HasModule(items, n) <==> HasModule(items', n) {
      if HasModule(items, n) { MembersAlike(items, items', n); }
      if HasModule(items', n) { MembersAlike(items', items, n); }
    }
    PrintThenParse(boundary, items, k, json, sha);
    PrintThenParse(boundary', items', k', json, sha);
    var one, other := Bundle(Printed(boundary, items), json, sha), Bundle(Printed(boundary', items'), json, sha);
    if one.Some? && other.Some? { ModulesUnique(one.value.1, other.value.1, items, items', sha); }
  }

  /** `a;name=b` */
  const TRAPPED: Bytes := [97, SEMICOLON, 110, 97, 109, 101, 61, 98]

  /** A safe module name, free of quotes and line breaks, that the parser nevertheless refuses:
      the name pattern finds a second parameter inside the quoted file name. */
  lemma TrappedNameRefused<D>(contentType: Bytes, body: Bytes, sha: Bytes -> D)
    requires contentType in ALLOWED_CONTENT_TYPES && body != []
    ensures var item := ModuleItem(TRAPPED, contentType, body); Printable(item) && PieceOf(Chunk(item), sha).None?
  {
    hide PieceOf, Chunk, SafeName, Clear;
    TrappedName();
    PartRead(ModuleItem(TRAPPED, contentType, body), sha);
  }

  lemma TrappedName()
    ensures SafeName(TRAPPED) && Unescaped(TRAPPED) && !Clear(TRAPPED)
  {
    SeparatesWithoutFirst([SLASH], TRAPPED);
    SplitFree(TRAPPED, [SLASH]);
    assert |METADATA| == 8 && METADATA[1] != SEMICOLON;
    assert SkipSpaces(TRAPPED, 2) == 2;
    assert Lower(TRAPPED)[2..7] == NAME;
    assert Trap(TRAPPED, NAME, 1);
  }
}
