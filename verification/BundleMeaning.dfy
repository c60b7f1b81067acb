/**
  What upload bundles mean, said in terms of the bytes: which spaces are stripped, which parameters a
  disposition has, which names and content types are allowed, how a part is cut and what it describes, and
  which bodies have parts at all.
 */
module BundleMeaning {
  import opened Outcomes
  import opened ByteOrder
  import opened TextScan
  import opened Multipart

  // ----- single bytes

  /** Tab to carriage return, the four separators, and the blank. */
  predicate White(b: Byte) {
    b in {9, 10, 11, 12, 13, 28, 29, 30, 31, 32}
  }

  ghost predicate Spaces(t: Bytes) {
    forall i | 0 <= i < |t| :: White(t[i])
  }

  lemma SameWhite()
    ensures forall b: Byte :: IsSpace(b) <==> White(b)
  {}

  lemma {:induction false} StripLeftMeaning(t: Bytes) returns (a: Bytes)
    ensures t == a + StripLeft(t) && Spaces(a) && (StripLeft(t) != [] ==> !White(StripLeft(t)[0]))
  {
    SameWhite();
    a := [];
    if t != [] && IsSpace(t[0]) {
      var rest := StripLeftMeaning(t[1..]);
      a := [t[0]] + rest;
      assert t == [t[0]] + t[1..];
    }
  }

  lemma {:induction false} StripRightMeaning(t: Bytes) returns (b: Bytes)
    ensures t == StripRight(t) + b && Spaces(b)
    ensures StripRight(t) != [] ==> StripRight(t)[0] == t[0] && !White(StripRight(t)[|StripRight(t)| - 1])
  {
    SameWhite();
    b := [];
    if t != [] && IsSpace(t[|t| - 1]) {
      var rest := StripRightMeaning(t[..|t| - 1]);
      b := rest + [t[|t| - 1]];
      assert t == t[..|t| - 1] + [t[|t| - 1]];
    }
  }

  /** Stripping takes white space off both ends and leaves none there. */
  lemma StripMeaning(t: Bytes) returns (a: Bytes, b: Bytes)
    ensures t == a + Strip(t) + b && Spaces(a) && Spaces(b)
    ensures Strip(t) != [] ==> !White(Strip(t)[0]) && !White(Strip(t)[|Strip(t)| - 1])
  {
    hide StripLeft, StripRight;
    a := StripLeftMeaning(t);
    b := StripRightMeaning(StripLeft(t));
  }

  /** Capital letters become small ones; every other byte stays. */
  lemma LowerMeaning(t: Bytes, i: nat)
    requires i < |t|
    ensures Lower(t)[i] as int == if 65 <= t[i] <= 90 then t[i] as int + 32 else t[i] as int
  {}

  // ----- parameters of a disposition

  /** A quote, then everything up to the next one. */
  ghost predicate QuotedValue(h: Bytes, v: nat, value: Bytes, end: nat) {
    && v + 1 < end <= |h| && h[v] == 34 && h[end - 1] == 34
    && value == h[v + 1..end - 1] && forall i | 0 <= i < |value| :: value[i] != 34
  }

  ghost predicate HasQuoted(h: Bytes, v: nat) {
    v < |h| && h[v] == 34 && exists i | v < i < |h| :: h[i] == 34
  }

  /** As many bytes as there are without a semicolon and white space, at least one. */
  ghost predicate TokenValue(h: Bytes, v: nat, value: Bytes, end: nat) {
    && v < end <= |h| && value == h[v..end] && (forall i | 0 <= i < |value| :: value[i] != 59 && !White(value[i]))
    && (end < |h| ==> h[end] == 59 || White(h[end]))
  }

  /** A quoted value is preferred; without one there is a token, or nothing if not even one byte of it. */
  lemma ValueMeaning(h: Bytes, v: nat)
    requires v <= |h|
    ensures match MatchValue(h, v)
            case Hit(value, end) =>
              if HasQuoted(h, v) then QuotedValue(h, v, value, end) else TokenValue(h, v, value, end)
            case Miss => !HasQuoted(h, v) && (v < |h| ==> h[v] == 59 || White(h[v]))
  {
    SameWhite();
    forall i | 0 <= i < |h| ensures h[i] == 34 <==> Occurs(h, [QUOTE], i) {
      assert h[i..i + 1] == [h[i]];
    }
  }

  /** From position q on there is white space, then the word in any case, then its value. */
  ghost predicate ParamAfter(h: Bytes, word: Bytes, q: nat, w: nat, value: Bytes, end: nat) {
    && word != [] && q <= w && w + |word| <= |h| && Spaces(h[q..w]) && !White(h[w])
    && Lower(h)[w..w + |word|] == word
    && if HasQuoted(h, w + |word|) then QuotedValue(h, w + |word|, value, end) else TokenValue(h, w + |word|, value, end)
  }

  /** White space ends in one place only. */
  lemma OneStart(h: Bytes, word: Bytes, q: nat, w: nat, value: Bytes, end: nat)
    requires q <= |h| && ParamAfter(h, word, q, w, value, end)
    ensures w == SkipSpaces(h, q)
  {
    SameWhite();
    assert forall i | q <= i < w :: White(h[q..w][i - q]) && h[q..w][i - q] == h[i];
  }

  lemma SkippedSpaces(h: Bytes, q: nat)
    requires q <= |h|
    ensures var w := SkipSpaces(h, q); q <= w <= |h| && Spaces(h[q..w]) && (w < |h| ==> !White(h[w]))
  {
    SameWhite();
  }

  lemma TailMeaning(h: Bytes, word: Bytes, q: nat)
    requires q <= |h| && word != []
    requires !White(word[0])
    ensures match MatchTail(h, word, q)
            case Hit(value, end) => HasParam(h, word, q, value, end)
            case Miss => forall value, end: nat :: !HasParam(h, word, q, value, end)
  {
    hide MatchTail, HasParam;
    if MatchTail(h, word, q).Hit? {
      TailHit(h, word, q);
    } else {
      forall value, end: nat ensures !HasParam(h, word, q, value, end) {
        if HasParam(h, word, q, value, end) { TailHits(h, word, q, value, end); }
      }
    }
  }

  lemma TailHit(h: Bytes, word: Bytes, q: nat)
    requires q <= |h| && word != []
    requires !White(word[0]) && MatchTail(h, word, q).Hit?
    ensures HasParam(h, word, q, MatchTail(h, word, q).value, MatchTail(h, word, q).end)
  {
    var w := SkipSpaces(h, q);
    SkippedSpaces(h, q);
    ValueMeaning(h, w + |word|);
    hide SkipSpaces, MatchValue, HasQuoted, QuotedValue, TokenValue, White, Spaces, HasParam, Lower, ParamAfter;
    ParamThere(h, word, q, w, MatchTail(h, word, q).value, MatchTail(h, word, q).end);
  }

  lemma TailHits(h: Bytes, word: Bytes, q: nat, value: Bytes, end: nat)
    requires q <= |h| && HasParam(h, word, q, value, end)
    ensures MatchTail(h, word, q).Hit?
  {
    hide MatchTail, MatchValue, HasQuoted, QuotedValue, TokenValue, White, HasParam, Lower, Occurs, SkipSpaces;
    var w := SkipSpaces(h, q);
    NoParam(h, word, q, w, value, end);
    ValueMeaning(h, w + |word|);
    TailIs(h, word, q);
  }

  lemma TailIs(h: Bytes, word: Bytes, q: nat)
    requires q <= |h| && Occurs(Lower(h), word, SkipSpaces(h, q))
    ensures SkipSpaces(h, q) + |word| <= |h| && MatchTail(h, word, q) == MatchValue(h, SkipSpaces(h, q) + |word|)
  {
    hide MatchValue;
  }

  lemma ParamThere(h: Bytes, word: Bytes, q: nat, w: nat, value: Bytes, end: nat)
    requires word != [] && q <= w
    requires w + |word| <= |h|
    requires Spaces(h[q..w])
    requires !White(h[w])
    requires Occurs(Lower(h), word, w)
    requires HasQuoted(h, w + |word|) ==> QuotedValue(h, w + |word|, value, end)
    requires !HasQuoted(h, w + |word|) ==> TokenValue(h, w + |word|, value, end)
    ensures HasParam(h, word, q, value, end)
  {
    hide QuotedValue, TokenValue, HasQuoted, White, Spaces, Lower;
    assert ParamAfter(h, word, q, w, value, end);
  }

  lemma NoParam(h: Bytes, word: Bytes, q: nat, w: nat, value: Bytes, end: nat)
    requires q <= |h| && w == SkipSpaces(h, q) && HasParam(h, word, q, value, end)
    ensures w + |word| <= |h| && Occurs(Lower(h), word, w)
    ensures HasQuoted(h, w + |word|) || (w + |word| < |h| && h[w + |word|] != 59 && !White(h[w + |word|]))
  {
    var w': nat :| ParamAfter(h, word, q, w', value, end);
    OneStart(h, word, q, w', value, end);
    if !HasQuoted(h, w + |word|) { FirstOfToken(h, w + |word|, value, end); }
  }

  lemma FirstOfToken(h: Bytes, v: nat, value: Bytes, end: nat)
    requires TokenValue(h, v, value, end)
    ensures h[v] != 59 && !White(h[v])
  {
    assert value[0] == h[v];
  }

  ghost predicate HasParam(h: Bytes, word: Bytes, q: nat, value: Bytes, end: nat) {
    exists w: nat :: ParamAfter(h, word, q, w, value, end)
  }

  /** The parameter begins at p: at the very start of the header, or with a semicolon there. */
  ghost predicate ParamAt(h: Bytes, word: Bytes, p: nat, value: Bytes, end: nat) {
    || (p == 0 && HasParam(h, word, 0, value, end))
    || (p < |h| && h[p] == 59 && HasParam(h, word, p + 1, value, end))
  }

  lemma AtMeaning(h: Bytes, word: Bytes, p: nat)
    requires p <= |h| && word != [] && !White(word[0])
    ensures match MatchAt(h, word, p)
            case Hit(value, end) => ParamAt(h, word, p, value, end)
            case Miss => forall value, end: nat :: !ParamAt(h, word, p, value, end)
  {
    hide MatchTail, HasParam;
    if p == 0 { TailMeaning(h, word, 0); }
    if p < |h| { TailMeaning(h, word, p + 1); }
  }

  ghost predicate NowhereFrom(h: Bytes, word: Bytes, from: nat) {
    forall p, value, end: nat | from <= p <= |h| :: !ParamAt(h, word, p, value, end)
  }

  /** The first parameter at or after a position. */
  ghost predicate FirstFrom(h: Bytes, word: Bytes, from: nat, p: nat, value: Bytes, end: nat) {
    && from <= p <= |h| && ParamAt(h, word, p, value, end)
    && forall q, x, e: nat | from <= q < p :: !ParamAt(h, word, q, x, e)
  }

  /** `finditer`: the first parameter, and those behind it; nothing if there is none. */
  lemma MatchesMeaning(h: Bytes, word: Bytes, from: nat)
    requires from <= |h| && word != [] && !White(word[0])
    ensures Matches(h, word, from) == [] ==> NowhereFrom(h, word, from)
    ensures Matches(h, word, from) != [] ==> exists p: nat, end: nat ::
              && FirstFrom(h, word, from, p, Matches(h, word, from)[0], end) && end <= |h|
              && Matches(h, word, from)[1..] == Matches(h, word, end)
    decreases |h| - from
  {
    hide MatchAt, ParamAt;
    AtMeaning(h, word, from);
    match MatchAt(h, word, from)
    case Hit(value, end) =>
      assert FirstFrom(h, word, from, from, value, end);
    case Miss =>
      if from < |h| {
        MatchesMeaning(h, word, from + 1);
        if Matches(h, word, from) != [] {
          var p: nat, end: nat :| FirstFrom(h, word, from + 1, p, Matches(h, word, from)[0], end) && end <= |h|
                        && Matches(h, word, from)[1..] == Matches(h, word, end);
          assert FirstFrom(h, word, from, p, Matches(h, word, from)[0], end);
        }
      }
  }

  /** No parameter, exactly one, or refused because there are more. */
  lemma ParamMeaning(h: Bytes, word: Bytes)
    requires word != []
    requires !White(word[0])
    ensures match Param(h, word)
            case Some(None) => NowhereFrom(h, word, 0)
            case Some(Some(value)) =>
              exists p: nat, end: nat :: FirstFrom(h, word, 0, p, value, end) && end <= |h| && NowhereFrom(h, word, end)
            case None =>
              exists p: nat, value, end: nat ::
                FirstFrom(h, word, 0, p, value, end) && end <= |h| && !NowhereFrom(h, word, end)
  {
    hide NowhereFrom, FirstFrom;
    MatchesMeaning(h, word, 0);
    if Matches(h, word, 0) != [] {
      var value := Matches(h, word, 0)[0];
      var p: nat, end: nat :| FirstFrom(h, word, 0, p, value, end) && end <= |h|
                              && Matches(h, word, 0)[1..] == Matches(h, word, end);
      MatchesMeaning(h, word, end);
      if Matches(h, word, end) != [] { SomewhereFrom(h, word, end); }
    }
  }

  lemma SomewhereFrom(h: Bytes, word: Bytes, from: nat)
    requires from <= |h| && word != []
    requires !White(word[0]) && Matches(h, word, from) != []
    ensures !NowhereFrom(h, word, from)
  {
    MatchesMeaning(h, word, from);
    var p: nat, end: nat :| FirstFrom(h, word, from, p, Matches(h, word, from)[0], end);
    assert ParamAt(h, word, p, Matches(h, word, from)[0], end);
  }

  // ----- names and content types

  /** Between slashes, or an end of the name, there are exactly two dots. */
  ghost predicate DotDotAt(name: Bytes, i: int) {
    && 0 <= i && i + 2 <= |name| && name[i] == 46 && name[i + 1] == 46
    && (i == 0 || name[i - 1] == 47) && (i + 2 == |name| || name[i + 2] == 47)
  }

  ghost predicate DotDotPart(name: Bytes) {
    exists i :: DotDotAt(name, i)
  }

  lemma DotDotAlone(name: Bytes)
    requires forall i | 0 <= i < |name| :: name[i] != 47
    ensures DotDotPart(name) <==> name == [46, 46]
  {
    if DotDotPart(name) {
      var i :| DotDotAt(name, i);
    }
    if name == [46, 46] { assert DotDotAt(name, 0); }
  }

  lemma DotDotBehind(head: Bytes, rest: Bytes)
    requires forall i | 0 <= i < |head| :: head[i] != 47
    ensures DotDotPart(head + [47] + rest) <==> head == [46, 46] || DotDotPart(rest)
  {
    var name, n := head + [47] + rest, |head| + 1;
    if head == [46, 46] { assert DotDotAt(name, 0); }
    if DotDotPart(rest) {
      var i :| DotDotAt(rest, i);
      assert DotDotAt(name, n + i);
    }
    if DotDotPart(name) {
      var i :| DotDotAt(name, i);
      if i < n {
        assert forall k | 0 <= k < |head| :: name[k] == head[k];
        assert head == name[..|head|];
        assert |head| == 2;
      } else {
        assert DotDotAt(rest, i - n);
      }
    }
  }

  lemma {:induction false} DotDotIff(name: Bytes)
    ensures [DOT, DOT] in SplitOn(name, [SLASH]) <==> DotDotPart(name)
    decreases |name|
  {
    forall i | 0 <= i < |name| ensures name[i] == 47 <==> Occurs(name, [SLASH], i) {
      assert name[i..i + 1] == [name[i]];
    }
    match Find(name, [SLASH])
    case None => DotDotAlone(name);
    case Some(n) =>
      var head, rest := name[..n], name[n + 1..];
      assert name == head + [47] + rest;
      hide DotDotPart;
      DotDotIff(rest);
      DotDotBehind(head, rest);
  }

  /** Which module names are safe: not empty, no dot names, not `metadata`, relative, without a part `..`, without
      backslash and without NUL. */
  lemma SafeNameIff(name: Bytes)
    ensures SafeName(name) <==>
      && name !in {[], [46], [46, 46], Ascii("metadata")}
      && !DotDotPart(name) && (forall i | 0 <= i < |name| :: name[i] != 92 && name[i] != 0)
      && name[0] != 47 && !(|name| >= 2 && name[0] == 46 && name[1] == 47)
  {
    DotDotIff(name);
    hide SplitOn;
  }

  /** A content type counts up to its first semicolon, stripped and in small letters, and must be one of eight. */
  lemma NormalizedIff(head: Bytes, rest: Bytes, kind: Bytes)
    requires forall i | 0 <= i < |head| :: head[i] != 59
    ensures Normalized(head) == Some(kind) <==> Strip(head) != [] && kind == Lower(Strip(head)) && Listed(kind)
    ensures Normalized(head + [59] + rest) == Some(kind) <==>
            Strip(head + [59] + rest) != [] && kind == Lower(Strip(head)) && Listed(kind)
  {
    hide Strip, Lower, Ascii;
    forall i | 0 <= i < |head| ensures !Occurs(head, [SEMICOLON], i) && !Occurs(head + [59] + rest, [SEMICOLON], i) {
      assert head[i..i + 1] == [head[i]] == (head + [59] + rest)[i..i + 1];
    }
    assert (head + [59] + rest)[|head|..|head| + 1] == [59];
    FindFirst(head + [59] + rest, [SEMICOLON], 0, |head|);
    assert (head + [59] + rest)[..|head|] == head;
  }

  predicate Listed(kind: Bytes) {
    || kind == Ascii("application/javascript+module") || kind == Ascii("application/javascript")
    || kind == Ascii("application/wasm") || kind == Ascii("application/octet-stream")
    || kind == Ascii("text/plain") || kind == Ascii("text/x-python") || kind == Ascii("text/x-python-requirement")
    || kind == Ascii("application/source-map")
  }

  // ----- headers and parts

  /** A header line is cut at its first colon. */
  lemma HeaderLineIff(before: Bytes, after: Bytes)
    requires forall i | 0 <= i < |before| :: before[i] != 58
    ensures HeaderLine(before).None?
    ensures HeaderLine(before + [58] + after) ==
            if Strip(before) == [] then None else Some((Lower(Strip(before)), Strip(after)))
  {
    hide Strip;
    var line := before + [58] + after;
    forall i | 0 <= i < |before| ensures !Occurs(before, [COLON], i) && !Occurs(line, [COLON], i) {
      assert before[i..i + 1] == [before[i]] == line[i..i + 1];
    }
    assert line[|before|..|before| + 1] == [58];
    FindFirst(line, [COLON], 0, |before|);
    assert line[..|before|] == before && line[|before| + 1..] == after;
  }

  /** A chunk begins with a line break, and loses it and one at its end. */
  lemma BreaksMeaning(x: Bytes)
    ensures WithoutBreaks([13, 10] + x) == WithoutBreaks([10] + x) == Some(
              if |x| >= 2 && x[|x| - 2..] == [13, 10] then x[..|x| - 2]
              else if x != [] && x[|x| - 1] == 10 then x[..|x| - 1] else x)
    ensures !([13, 10] <= x) && !([10] <= x) ==> WithoutBreaks(x).None?
  {
    EndsIn(x);
    BeginsWith(x);
    hide StartsWith, EndsWith;
  }

  lemma EndsIn(x: Bytes)
    ensures EndsWith(x, NEWLINE) <==> |x| >= 2 && x[|x| - 2..] == [13, 10]
    ensures EndsWith(x, [LF]) <==> x != [] && x[|x| - 1] == 10
  {
    if x != [] {
      var last := x[|x| - 1..];
      assert |last| == 1 && last[0] == x[|x| - 1];
      if last[0] == 10 { assert last == [LF]; }
    }
  }

  lemma BeginsWith(x: Bytes)
    ensures StartsWith([13, 10] + x, NEWLINE) && ([13, 10] + x)[2..] == x
    ensures !StartsWith([10] + x, NEWLINE) && StartsWith([10] + x, [LF]) && ([10] + x)[1..] == x
    ensures StartsWith(x, NEWLINE) <==> [13, 10] <= x
    ensures StartsWith(x, [LF]) <==> [10] <= x
  {
    assert ([10] + x)[0] == 10;
  }

  ghost predicate HasBlank(t: Bytes, blank: Bytes, before: int) {
    exists i: nat :: i < before && Occurs(t, blank, i)
  }

  /** Headers end at the first blank line; bare line feeds count only if there is no other. */
  lemma CutMeaning(t: Bytes, n: nat)
    requires n <= |t|
    ensures n + 4 <= |t| && t[n..n + 4] == [13, 10, 13, 10] && !HasBlank(t, [13, 10, 13, 10], n) ==>
              Cut(t) == Some((t[..n], t[n + 4..]))
    ensures n + 2 <= |t| && t[n..n + 2] == [10, 10] && !HasBlank(t, [10, 10], n)
            && !HasBlank(t, [13, 10, 13, 10], |t|) ==>
              Cut(t) == Some((t[..n], t[n + 2..]))
    ensures !HasBlank(t, [13, 10, 13, 10], |t|) && !HasBlank(t, [10, 10], |t|) ==> Cut(t).None?
  {
    hide FindFrom;
    if Occurs(t, BLANK_LINE, n) && !HasBlank(t, [13, 10, 13, 10], n) { FindFirst(t, BLANK_LINE, 0, n); }
    if Occurs(t, [LF, LF], n) && !HasBlank(t, [10, 10], n) { FindFirst(t, [LF, LF], 0, n); }
    FoundIs(t, BLANK_LINE);
    FoundIs(t, [LF, LF]);
  }

  lemma FoundIs(h: Bytes, needle: Bytes)
    ensures match Find(h, needle)
            case Some(i) => i <= |h| && Occurs(h, needle, i)
            case None => forall i | 0 <= i <= |h| :: !Occurs(h, needle, i)
  {}

  function Value(headers: map<Bytes, Bytes>, name: string): Bytes {
    if Ascii(name) in headers then headers[Ascii(name)] else []
  }

  /** The headers of a form-data part with this name and this file name. */
  ghost predicate FormPart(headers: map<Bytes, Bytes>, name: Bytes, filename: Option<Bytes>) {
    var disposition := Value(headers, "content-disposition");
    && |disposition| >= 9 && Lower(disposition)[..9] == Ascii("form-data")
    && Param(disposition, Ascii("name=")) == Some(Some(name)) && Param(disposition, Ascii("filename=")) == Some(filename)
  }

  /** What a part is: the metadata, which has no file name, or a module, whose file name can only be its name. */
  lemma DescribedIff<D>(headers: map<Bytes, Bytes>, body: Bytes, sha: Bytes -> D, piece: Piece<D>)
    ensures Described(headers, body, sha) == Some(piece) <==>
      match piece
      case MetadataPart(json) => json == body && FormPart(headers, Ascii("metadata"), None)
      case ModulePart(row) =>
        && row.name != Ascii("metadata") && SafeName(row.name)
        && (FormPart(headers, row.name, None) || FormPart(headers, row.name, Some(row.name)))
        && Normalized(Value(headers, "content-type")) == Some(row.contentType)
        && body != [] && row.bytes == |body| && row.digest == sha(body)
  {
    hide Ascii, Param, SafeName, Normalized, Lower;
    NineLetters();
    var disposition := Value(headers, "content-disposition");
    assert StartsWith(Lower(disposition), FORM_DATA) <==> |Lower(disposition)| >= 9 && Lower(disposition)[..9] == FORM_DATA;
  }

  lemma NineLetters()
    ensures |FORM_DATA| == 9 && forall t: Bytes :: |Lower(t)| == |t|
  {}

  // ----- whole bodies

  /** The entry module comes from the one of the two metadata fields that is there. */
  lemma DeclaredIff(m: Metadata, name: Bytes)
    ensures Declared(m) == Some(name) <==>
            SafeName(name) && (m == Metadata(Text(name), Absent) || m == Metadata(Absent, Text(name)))
  {
    hide SafeName;
  }

  /** The first line announces the boundary: two dashes, visible ASCII without quotes, perhaps carriage returns. */
  lemma BoundaryIff(boundary: Bytes, returns': Bytes, rest: Bytes)
    requires boundary != [] && forall i | 0 <= i < |boundary| :: boundary[i] != 10 && boundary[i] != 13
    requires forall i | 0 <= i < |returns'| :: returns'[i] == 13
    ensures BoundaryOf([45, 45] + boundary + returns' + [10] + rest) ==
            if |boundary| + |returns'| >= 2
               && (forall i | 0 <= i < |boundary| :: 33 <= boundary[i] <= 126 && boundary[i] != 34)
            then Some(boundary) else None
  {
    var raw, line := [45, 45] + boundary + returns' + [10] + rest, [45, 45] + boundary + returns';
    forall i | 0 <= i < |line| ensures !Occurs(raw, [LF], i) {
      assert raw[i..i + 1] == [raw[i]] && raw[i] == line[i] != 10;
    }
    assert raw[|line|..|line| + 1] == [10];
    FindFirst(raw, [LF], 0, |line|);
    assert raw[..|line|] == line;
    TrailingReturns([45, 45] + boundary, returns');
    assert ([45, 45] + boundary)[2..] == boundary;
  }

  lemma {:induction false} TrailingReturns(t: Bytes, returns': Bytes)
    requires t != [] && t[|t| - 1] != 13 && forall i | 0 <= i < |returns'| :: returns'[i] == 13
    ensures WithoutTrailing(t + returns', CR) == t
    decreases |returns'|
  {
    if returns' == [] {
      assert t + returns' == t;
    } else {
      assert (t + returns')[..|t + returns'| - 1] == t + returns'[..|returns'| - 1];
      TrailingReturns(t, returns'[..|returns'| - 1]);
    }
  }

  ghost predicate OnlyBreaks(t: Bytes) {
    forall i | 0 <= i < |t| :: t[i] == 13 || t[i] == 10
  }

  /** A body is cut at its delimiter: nothing but line breaks in front, at least one part, two dashes and nothing but
      line breaks behind; and it has between one byte and 32 MiB. */
  lemma PartsIff(raw: Bytes, parts: seq<Bytes>)
    ensures Parts(raw) == Some(parts) <==>
      && 0 < |raw| <= 33554432 && BoundaryOf(raw).Some? && parts != []
      && exists front, back :: OnlyBreaks(front) && OnlyBreaks(back)
           && SplitOn(raw, [45, 45] + BoundaryOf(raw).value) == [front] + parts + [[45, 45] + back]
  {
    hide BoundaryOf, SplitOn;
    if BoundaryOf(raw).Some? {
      var chunks := SplitOn(raw, [45, 45] + BoundaryOf(raw).value);
      if Parts(raw) == Some(parts) {
        var last := chunks[|chunks| - 1];
        assert last == [45, 45] + last[2..];
        assert chunks == [chunks[0]] + parts + [last];
      }
      if front, back :| OnlyBreaks(front) && OnlyBreaks(back) && chunks == [front] + parts + [[45, 45] + back]
                        && parts != []
      {
        assert chunks[|chunks| - 1] == [45, 45] + back && ([45, 45] + back)[2..] == back && chunks[0] == front;
        assert chunks[1..|chunks| - 1] == parts;
      }
    }
  }

  // ----- inventories

  /** An inventory verifies when its entry is safe and one of its modules, and these are safely named, not empty, of
      allowed types and in strictly ascending order of their names; only the types are normalised. */
  lemma VerifiedIff<D>(inventory: Inventory<D>, result: Inventory<D>)
    ensures Verified(inventory) == Some(result) <==>
      var rows := inventory.modules;
      && SafeName(inventory.mainModule) && result.mainModule == inventory.mainModule
      && (exists i :: 0 <= i < |rows| && rows[i].name == inventory.mainModule)
      && (forall i | 0 <= i < |rows| ::
            SafeName(rows[i].name) && rows[i].bytes > 0 && Normalized(rows[i].contentType).Some?)
      && (forall i, j | 0 <= i < j < |rows| :: Leq(rows[i].name, rows[j].name) && rows[i].name != rows[j].name)
      && |result.modules| == |rows|
      && forall i | 0 <= i < |rows| :: result.modules[i] ==
           Row(rows[i].name, Normalized(rows[i].contentType).value, rows[i].bytes, rows[i].digest)
  {
    hide SafeName, Normalized;
    var rows := inventory.modules;
    SortedIff(Names(rows));
    hide Sort;
    if Verified(inventory) == Some(result) {
      var i :| 0 <= i < |rows| && Names(rows)[i] == inventory.mainModule;
      assert rows[i].name == inventory.mainModule;
      forall i, j | 0 <= i < j < |rows| ensures Leq(rows[i].name, rows[j].name) {
        assert Leq(Names(rows)[i], Names(rows)[j]);
      }
    }
    if i :| 0 <= i < |rows| && rows[i].name == inventory.mainModule { assert Names(rows)[i] == inventory.mainModule; }
    if Verified(inventory).Some? && |result.modules| == |rows|
       && (forall i | 0 <= i < |rows| :: result.modules[i] == Verified(inventory).value.modules[i])
    {
      assert result.modules == Verified(inventory).value.modules;
    }
  }

  lemma SortedIff(xs: seq<Bytes>)
    ensures Sort(xs) == xs <==> forall i, j | 0 <= i < j < |xs| :: Leq(xs[i], xs[j])
  {
    SortSound(xs);
    if Ordered(xs) { OrderedUnique(Sort(xs), xs); }
  }

  /** The comparison succeeds exactly when both inventories verify to the same one, which it returns. */
  lemma ComparedIff<D>(local: Inventory<D>, live: Inventory<D>, result: Inventory<D>)
    ensures Compared(local, live) == Some(result) <==> Verified(local) == Some(result) && Verified(live) == Some(result)
  {
    hide Verified;
  }
}
