/**
  The string operations the upload-bundle parser uses, on byte strings: `find`, `split`, `strip`,
  `lower`, and `finditer` of a disposition-parameter pattern.
 */
module TextScan {
  import opened Outcomes
  import opened ByteOrder

  const CR: Byte := 13
  const LF: Byte := 10
  const QUOTE: Byte := 34
  const SEMICOLON: Byte := 59
  const COLON: Byte := 58

  /** The byte of an ASCII character. */
  function AsciiByte(c: char): Byte {
    if c < 128 as char then c as int else 0
  }

  function Ascii(s: string): (b: Bytes)
    ensures |b| == |s|
  {
    seq(|s|, i requires 0 <= i < |s| => AsciiByte(s[i]))
  }

  // ----- find and split

  predicate Occurs(h: Bytes, needle: Bytes, i: nat) {
    i + |needle| <= |h| && h[i..i + |needle|] == needle
  }

  function FindFrom(h: Bytes, needle: Bytes, from: nat): (r: Option<nat>)
    requires from <= |h|
    ensures r.Some? ==> from <= r.value && Occurs(h, needle, r.value)
    ensures r.Some? ==> forall i | from <= i < r.value :: !Occurs(h, needle, i)
    ensures r.None? ==> forall i | from <= i <= |h| :: !Occurs(h, needle, i)
    decreases |h| - from
  {
    if Occurs(h, needle, from) then Some(from)
    else if from == |h| then None
    else FindFrom(h, needle, from + 1)
  }

  function Find(h: Bytes, needle: Bytes): Option<nat> {
    FindFrom(h, needle, 0)
  }

  /** The first occurrence is the one `find` reports. */
  lemma FindFirst(h: Bytes, needle: Bytes, from: nat, i: nat)
    requires from <= i && Occurs(h, needle, i)
    requires forall j | from <= j < i :: !Occurs(h, needle, j)
    ensures FindFrom(h, needle, from) == Some(i)
  {}

  function SplitOn(h: Bytes, delimiter: Bytes): (pieces: seq<Bytes>)
    requires delimiter != []
    ensures pieces != []
    decreases |h|
  {
    match Find(h, delimiter)
    case None => [h]
    case Some(i) => [h[..i]] + SplitOn(h[i + |delimiter|..], delimiter)
  }

  function Join(pieces: seq<Bytes>, delimiter: Bytes): Bytes
    requires pieces != []
  {
    if |pieces| == 1 then pieces[0] else pieces[0] + delimiter + Join(pieces[1..], delimiter)
  }

  lemma {:induction false} JoinSplit(h: Bytes, delimiter: Bytes)
    requires delimiter != []
    ensures Join(SplitOn(h, delimiter), delimiter) == h
    decreases |h|
  {
    match Find(h, delimiter)
    case None =>
    case Some(i) =>
      JoinSplit(h[i + |delimiter|..], delimiter);
      assert h == h[..i] + delimiter + h[i + |delimiter|..];
      assert SplitOn(h, delimiter)[1..] == SplitOn(h[i + |delimiter|..], delimiter);
  }

  ghost predicate Free(delimiter: Bytes, piece: Bytes) {
    forall i | 0 <= i <= |piece| :: !Occurs(piece, delimiter, i)
  }

  /** In `piece + delimiter` the delimiter occurs at the end only. */
  ghost predicate Separates(delimiter: Bytes, piece: Bytes) {
    forall i | 0 <= i < |piece| :: !Occurs(piece + delimiter, delimiter, i)
  }

  /** The first delimiter of `piece + delimiter + rest` is the one in the middle. */
  lemma SplitFirst(piece: Bytes, delimiter: Bytes, rest: Bytes)
    requires delimiter != [] && Separates(delimiter, piece)
    ensures SplitOn(piece + delimiter + rest, delimiter) == [piece] + SplitOn(rest, delimiter)
  {
    hide FindFrom;
    var h := piece + delimiter + rest;
    forall i | 0 <= i < |piece| ensures !Occurs(h, delimiter, i) {
      assert !Occurs(piece + delimiter, delimiter, i);
      assert i + |delimiter| <= |piece + delimiter| ==> h[i..i + |delimiter|] == (piece + delimiter)[i..i + |delimiter|];
    }
    assert h[|piece|..|piece| + |delimiter|] == delimiter;
    FindFirst(h, delimiter, 0, |piece|);
    assert h[..|piece|] == piece && h[|piece| + |delimiter|..] == rest;
  }

  lemma {:induction false} SplitJoin(pieces: seq<Bytes>, delimiter: Bytes)
    requires delimiter != [] && pieces != []
    requires forall i | 0 <= i < |pieces| - 1 :: Separates(delimiter, pieces[i])
    requires Free(delimiter, pieces[|pieces| - 1])
    ensures SplitOn(Join(pieces, delimiter), delimiter) == pieces
  {
    hide Separates, Occurs;
    if |pieces| == 1 {
      SplitFree(pieces[0], delimiter);
    } else {
      SplitJoin(pieces[1..], delimiter);
      SplitFirst(pieces[0], delimiter, Join(pieces[1..], delimiter));
      assert pieces == [pieces[0]] + pieces[1..];
    }
  }

  lemma SplitFree(piece: Bytes, delimiter: Bytes)
    requires delimiter != [] && Free(delimiter, piece)
    ensures SplitOn(piece, delimiter) == [piece]
  {}

  /** A piece without the delimiter's first byte cannot overlap it. */
  lemma SeparatesWithoutFirst(delimiter: Bytes, piece: Bytes)
    requires delimiter != [] && delimiter[0] !in piece
    ensures Separates(delimiter, piece)
    ensures Free(delimiter, piece)
  {
    forall i | 0 <= i < |piece| ensures !Occurs(piece + delimiter, delimiter, i) {
      assert (piece + delimiter)[i] == piece[i] != delimiter[0];
    }
    forall i | 0 <= i <= |piece| ensures !Occurs(piece, delimiter, i) {
      assert i + |delimiter| <= |piece| ==> piece[i..i + |delimiter|][0] == piece[i] != delimiter[0];
    }
  }

  // ----- strip and lower

  predicate IsSpace(b: Byte) {
    9 <= b <= 13 || 28 <= b <= 32
  }

  function StripLeft(t: Bytes): Bytes {
    if t != [] && IsSpace(t[0]) then StripLeft(t[1..]) else t
  }

  function StripRight(t: Bytes): Bytes {
    if t != [] && IsSpace(t[|t| - 1]) then StripRight(t[..|t| - 1]) else t
  }

  function Strip(t: Bytes): Bytes {
    StripRight(StripLeft(t))
  }

  function LowerByte(b: Byte): Byte {
    if 65 <= b <= 90 then b + 32 else b
  }

  function Lower(t: Bytes): (r: Bytes)
    ensures |r| == |t|
  {
    seq(|t|, i requires 0 <= i < |t| => LowerByte(t[i]))
  }

  // ----- disposition parameters

  function SkipSpaces(h: Bytes, from: nat): (p: nat)
    requires from <= |h|
    ensures from <= p <= |h| && (forall i | from <= i < p :: IsSpace(h[i])) && (p < |h| ==> !IsSpace(h[p]))
    decreases |h| - from
  {
    if from < |h| && IsSpace(h[from]) then SkipSpaces(h, from + 1) else from
  }

  predicate TokenByte(b: Byte) {
    b != SEMICOLON && !IsSpace(b)
  }

  function SkipToken(h: Bytes, from: nat): (p: nat)
    requires from <= |h|
    ensures from <= p <= |h| && (forall i | from <= i < p :: TokenByte(h[i])) && (p < |h| ==> !TokenByte(h[p]))
    decreases |h| - from
  {
    if from < |h| && TokenByte(h[from]) then SkipToken(h, from + 1) else from
  }

  datatype Hit = Miss | Hit(value: Bytes, end: nat)

  /** `("([^"]*)"|([^;\s]+))` */
  function MatchValue(h: Bytes, v: nat): (m: Hit)
    requires v <= |h|
    ensures m.Hit? ==> v < m.end <= |h|
  {
    var close := if v < |h| && h[v] == QUOTE then FindFrom(h, [QUOTE], v + 1) else None;
    if close.Some? then Hit(h[v + 1..close.value], close.value + 1)
    else
      var e := SkipToken(h, v);
      if e > v then Hit(h[v..e], e) else Miss
  }

  /** `\s*word=value`, with `word` given in lower case together with its `=`. */
  function MatchTail(h: Bytes, word: Bytes, from: nat): (m: Hit)
    requires from <= |h|
    ensures m.Hit? ==> from + |word| < m.end <= |h|
  {
    var w := SkipSpaces(h, from);
    if Occurs(Lower(h), word, w) then MatchValue(h, w + |word|) else Miss
  }

  /** The pattern anchored at the start of the header or at a semicolon. */
  function MatchAt(h: Bytes, word: Bytes, p: nat): (m: Hit)
    requires p <= |h|
    ensures m.Hit? ==> p < m.end <= |h|
  {
    if p == 0 && MatchTail(h, word, 0).Hit? then MatchTail(h, word, 0)
    else if p < |h| && h[p] == SEMICOLON then MatchTail(h, word, p + 1)
    else Miss
  }

  /** The values `finditer` yields from a position on. */
  function Matches(h: Bytes, word: Bytes, from: nat): seq<Bytes>
    requires from <= |h|
    decreases |h| - from
  {
    match MatchAt(h, word, from)
    case Hit(value, end) => [value] + Matches(h, word, end)
    case Miss => if from == |h| then [] else Matches(h, word, from + 1)
  }

  ghost predicate NoMatch(h: Bytes, word: Bytes, from: nat, to: nat)
    requires to <= |h| + 1
  {
    forall p | from <= p < to :: MatchAt(h, word, p).Miss?
  }

  lemma {:induction false} MatchesSkip(h: Bytes, word: Bytes, from: nat, m: nat)
    requires from <= m <= |h| && NoMatch(h, word, from, m)
    ensures Matches(h, word, from) == Matches(h, word, m)
    decreases m - from
  {
    hide MatchAt;
    if from < m {
      assert MatchAt(h, word, from).Miss?;
      MatchesSkip(h, word, from + 1, m);
    }
  }

  lemma MatchesEnd(h: Bytes, word: Bytes, from: nat)
    requires from <= |h| && NoMatch(h, word, from, |h| + 1)
    ensures Matches(h, word, from) == []
  {
    MatchesSkip(h, word, from, |h|);
  }

  lemma {:induction false} SomeMatch(h: Bytes, word: Bytes, from: nat, m: nat)
    requires from <= m <= |h| && MatchAt(h, word, m).Hit?
    ensures Matches(h, word, from) != []
    decreases m - from
  {
    hide MatchAt;
    if from < m && MatchAt(h, word, from).Miss? { SomeMatch(h, word, from + 1, m); }
  }

  /** Two matches are counted as two when none that starts by the first reaches past the second. */
  lemma {:induction false} TwoMatches(h: Bytes, word: Bytes, from: nat, first: nat, second: nat)
    requires from <= first <= second <= |h| && MatchAt(h, word, first).Hit? && MatchAt(h, word, second).Hit?
    requires forall p | from <= p <= first && MatchAt(h, word, p).Hit? :: MatchAt(h, word, p).end <= second
    ensures |Matches(h, word, from)| > 1
    decreases first - from
  {
    hide MatchAt;
    match MatchAt(h, word, from)
    case Hit(_, end) => SomeMatch(h, word, end, second);
    case Miss => TwoMatches(h, word, from + 1, first, second);
  }
}
