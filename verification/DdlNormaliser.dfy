/**
  Whitespace normalisation of stored DDL.  The index loop is proved equal to: split the text into
  gaps, quoted runs and single characters, squeeze the gaps, put the text together again.
 */
module DdlNormaliser {
  import opened Outcomes

  // ----- characters

  /** `str.isspace` for one character. */
  predicate UnicodeSpace(c: char) {
    var n := c as int;
    || 0x09 <= n <= 0x0d || 0x1c <= n <= 0x20 || n == 0x85 || n == 0xa0 || n == 0x1680
    || 0x2000 <= n <= 0x200a || n == 0x2028 || n == 0x2029 || n == 0x202f || n == 0x205f || n == 0x3000
  }

  predicate Opens(c: char) {
    c == '\'' || c == '"' || c == '`' || c == '['
  }

  function Closer(c: char): char {
    if c == '[' then ']' else c
  }

  predicate AllSpace(s: string) {
    forall i | 0 <= i < |s| :: UnicodeSpace(s[i])
  }

  function TrimStart(s: string): string {
    if s != [] && UnicodeSpace(s[0]) then TrimStart(s[1..]) else s
  }

  function TrimEnd(s: string): string {
    if s != [] && UnicodeSpace(s[|s| - 1]) then TrimEnd(s[..|s| - 1]) else s
  }

  function Strip(s: string): string {
    TrimEnd(TrimStart(s))
  }

  // ----- lexer

  datatype Token = Gap(text: string) | Plain(c: char) | Quoted(text: string, closed: bool)

  function TokenText(t: Token): string {
    if t.Plain? then [t.c] else t.text
  }

  function Text(ts: seq<Token>): string {
    if ts == [] then "" else TokenText(ts[0]) + Text(ts[1..])
  }

  function GapLength(s: string): (n: nat)
    ensures n <= |s|
  {
    if s != [] && UnicodeSpace(s[0]) then 1 + GapLength(s[1..]) else 0
  }

  /** How much of the text after an opening quote belongs to the run, and whether it is closed there. */
  function Scan(s: string, q: char): (r: (nat, bool))
    ensures r.0 <= |s|
    ensures !r.1 ==> r.0 == |s|
    ensures r.1 ==> r.0 > 0 && s[r.0 - 1] == q
  {
    if s == [] then (0, false)
    else if s[0] != q then var r := Scan(s[1..], q); (r.0 + 1, r.1)
    else if q != ']' && |s| > 1 && s[1] == q then var r := Scan(s[2..], q); (r.0 + 2, r.1)
    else (1, true)
  }

  function Lex(s: string): (ts: seq<Token>)
    decreases |s|
  {
    if s == [] then []
    else if UnicodeSpace(s[0]) then
      var n := GapLength(s);
      [Gap(s[..n])] + Lex(s[n..])
    else if Opens(s[0]) then
      var (n, closed) := Scan(s[1..], Closer(s[0]));
      [Quoted(s[..n + 1], closed)] + Lex(s[n + 1..])
    else [Plain(s[0])] + Lex(s[1..])
  }

  // ----- specification

  /** An unterminated run loses the whitespace at the very end of the text. */
  function Tidy(t: Token): Token {
    if t.Quoted? && !t.closed then Quoted(TrimEnd(t.text), false) else t
  }

  /** Interior gaps become one space, a gap at the end disappears. */
  function Squeeze(ts: seq<Token>): seq<Token> {
    if ts == [] then []
    else if ts[0].Gap? then if |ts| == 1 then [] else [Gap(" ")] + Squeeze(ts[1..])
    else [Tidy(ts[0])] + Squeeze(ts[1..])
  }

  function Normal(ts: seq<Token>): seq<Token> {
    Squeeze(if ts != [] && ts[0].Gap? then ts[1..] else ts)
  }

  function Canonical(s: string): string {
    Text(Normal(Lex(s)))
  }

  /** The tokens that carry meaning. */
  function Significant(ts: seq<Token>): seq<Token> {
    if ts == [] then []
    else (if ts[0].Gap? then [] else [Tidy(ts[0])]) + Significant(ts[1..])
  }

  // ----- the loop

  /** What the loop still has to render of the given tokens. */
  function Emit(ts: seq<Token>, pending: bool, started: bool): string {
    if ts == [] then ""
    else if ts[0].Gap? then Emit(ts[1..], started, started)
    else (if pending then " " else "") + TokenText(ts[0]) + Emit(ts[1..], false, true)
  }

  /** Inside a run: its rest is copied, then rendering goes on behind it. */
  function EmitQuoted(s: string, q: char): string {
    var (n, _) := Scan(s, q);
    s[..n] + Emit(Lex(s[n..]), false, true)
  }

  lemma EmitQuotedStep(s: string, q: char)
    requires s != []
    ensures s[0] != q ==> EmitQuoted(s, q) == [s[0]] + EmitQuoted(s[1..], q)
    ensures s[0] == q && q != ']' && |s| > 1 && s[1] == q ==> EmitQuoted(s, q) == [s[0], s[1]] + EmitQuoted(s[2..], q)
    ensures s[0] == q && !(q != ']' && |s| > 1 && s[1] == q) ==> EmitQuoted(s, q) == [q] + Emit(Lex(s[1..]), false, true)
  {
    hide Emit, Lex;
    var (n, _) := Scan(s, q);
    if s[0] != q {
      assert s[n..] == s[1..][n - 1..];
      assert s[..n] == [s[0]] + s[1..][..n - 1];
    } else if q != ']' && |s| > 1 && s[1] == q {
      assert s[n..] == s[2..][n - 2..];
      assert s[..n] == [s[0], s[1]] + s[2..][..n - 2];
    } else {
      assert s[..1] == [q];
    }
  }

  lemma EmitCons(t: Token, ts: seq<Token>, pending: bool, started: bool)
    ensures Emit([t] + ts, pending, started) ==
            if t.Gap? then Emit(ts, started, started)
            else (if pending then " " else "") + TokenText(t) + Emit(ts, false, true)
  {
    assert ([t] + ts)[1..] == ts;
  }

  lemma LexOfGap(s: string)
    requires s != [] && UnicodeSpace(s[0])
    ensures var n := GapLength(s); 0 < n <= |s| && Lex(s) == [Gap(s[..n])] + Lex(s[n..])
    ensures GapLength(s) > 1 ==> |s| > 1 && UnicodeSpace(s[1]) && GapLength(s[1..]) == GapLength(s) - 1
  {
    hide UnicodeSpace, Scan;
  }

  lemma LexOfQuote(s: string)
    requires s != [] && !UnicodeSpace(s[0]) && Opens(s[0])
    ensures var (n, closed) := Scan(s[1..], Closer(s[0]));
            Lex(s) == [Quoted(s[..n + 1], closed)] + Lex(s[n + 1..])
  {
    hide UnicodeSpace, Scan;
  }

  lemma LexOfPlain(s: string)
    requires s != [] && !UnicodeSpace(s[0]) && !Opens(s[0])
    ensures Lex(s) == [Plain(s[0])] + Lex(s[1..])
  {
    hide UnicodeSpace, Scan;
  }

  /** Consuming the first space of a gap or the gap as a whole renders the same. */
  lemma EmitGapStep(s: string, pending: bool, started: bool)
    requires s != [] && UnicodeSpace(s[0])
    ensures Emit(Lex(s), pending, started) == Emit(Lex(s[1..]), started, started)
  {
    hide UnicodeSpace, Emit, Lex, GapLength;
    var n := GapLength(s);
    LexOfGap(s);
    EmitCons(Gap(s[..n]), Lex(s[n..]), pending, started);
    if n > 1 {
      LexOfGap(s[1..]);
      assert s[1..][n - 1..] == s[n..];
      EmitCons(Gap(s[1..][..n - 1]), Lex(s[n..]), started, started);
    }
  }

  lemma EmitPlainStep(s: string, pending: bool, started: bool)
    requires s != [] && !UnicodeSpace(s[0]) && !Opens(s[0])
    ensures Emit(Lex(s), pending, started) ==
            (if pending then " " else "") + [s[0]] + Emit(Lex(s[1..]), false, true)
  {
    hide UnicodeSpace, Emit;
    EmitCons(Plain(s[0]), Lex(s[1..]), pending, started);
  }

  lemma EmitOpenStep(s: string, pending: bool, started: bool)
    requires s != [] && !UnicodeSpace(s[0]) && Opens(s[0])
    ensures Emit(Lex(s), pending, started) ==
            (if pending then " " else "") + [s[0]] + EmitQuoted(s[1..], Closer(s[0]))
  {
    hide UnicodeSpace, Emit, Scan, Lex;
    var (n, closed) := Scan(s[1..], Closer(s[0]));
    LexOfQuote(s);
    EmitCons(Quoted(s[..n + 1], closed), Lex(s[n + 1..]), pending, started);
    assert s[..n + 1] == [s[0]] + s[1..][..n];
    assert s[n + 1..] == s[1..][n..];
    var mark := if pending then " " else "";
    Assoc(mark, [s[0]], s[1..][..n], Emit(Lex(s[n + 1..]), false, true));
  }

  lemma Assoc(a: string, b: string, c: string, d: string)
    ensures a + (b + c) + d == (a + b) + (c + d)
  {}

  lemma EmitNothing(q: char, pending: bool, started: bool)
    ensures Emit(Lex(""), pending, started) == "" && EmitQuoted("", q) == ""
  {}

  /** What the loop, having rendered a prefix, will end up with. */
  ghost function Outlook(rendered: string, pending: bool, quoteEnd: Option<char>, rest: string): string {
    rendered + if quoteEnd.Some? then EmitQuoted(rest, quoteEnd.value) else Emit(Lex(rest), pending, rendered != [])
  }

  lemma OutlookInside(rendered: string, q: char, head: string, rest: string, rest': string)
    requires EmitQuoted(rest, q) == head + EmitQuoted(rest', q)
    ensures Outlook(rendered, false, Some(q), rest) == Outlook(rendered + head, false, Some(q), rest')
  {
    hide EmitQuoted, Emit, Lex;
    Prepend(rendered, head, EmitQuoted(rest', q));
  }

  lemma Prepend(a: string, b: string, c: string)
    ensures a + (b + c) == (a + b) + c
  {}

  lemma OutlookQuoted(rendered: string, q: char, rest: string)
    requires rest != [] && rendered != []
    ensures rest[0] != q ==>
              Outlook(rendered, false, Some(q), rest) == Outlook(rendered + [rest[0]], false, Some(q), rest[1..])
    ensures rest[0] == q && q != ']' && |rest| > 1 && rest[1] == q ==>
              Outlook(rendered, false, Some(q), rest) == Outlook(rendered + [q] + [q], false, Some(q), rest[2..])
    ensures rest[0] == q && !(q != ']' && |rest| > 1 && rest[1] == q) ==>
              Outlook(rendered, false, Some(q), rest) == Outlook(rendered + [q], false, None, rest[1..])
  {
    hide EmitQuoted, Emit, Lex;
    EmitQuotedStep(rest, q);
    if rest[0] != q {
      OutlookInside(rendered, q, [rest[0]], rest, rest[1..]);
    } else if q != ']' && |rest| > 1 && rest[1] == q {
      OutlookInside(rendered, q, [rest[0], rest[1]], rest, rest[2..]);
      assert rendered + [rest[0], rest[1]] == rendered + [q] + [q];
    } else {
      Prepend(rendered, [q], Emit(Lex(rest[1..]), false, true));
    }
  }

  lemma OutlookGap(rendered: string, pending: bool, rest: string)
    requires rest != [] && UnicodeSpace(rest[0])
    ensures Outlook(rendered, pending, None, rest) == Outlook(rendered, rendered != [], None, rest[1..])
  {
    hide EmitQuoted, Emit, UnicodeSpace, Lex;
    EmitGapStep(rest, pending, rendered != []);
  }

  lemma OutlookOpen(rendered: string, pending: bool, rest: string)
    requires rest != [] && !UnicodeSpace(rest[0]) && Opens(rest[0])
    ensures var next := rendered + (if pending then " " else "") + [rest[0]];
            Outlook(rendered, pending, None, rest) == Outlook(next, false, Some(Closer(rest[0])), rest[1..])
  {
    hide EmitQuoted, Emit, UnicodeSpace, Lex, Opens, Closer;
    EmitOpenStep(rest, pending, rendered != []);
  }

  lemma OutlookPlain(rendered: string, pending: bool, rest: string)
    requires rest != [] && !UnicodeSpace(rest[0]) && !Opens(rest[0])
    ensures var next := rendered + (if pending then " " else "") + [rest[0]];
            Outlook(rendered, pending, None, rest) == Outlook(next, false, None, rest[1..])
  {
    hide EmitQuoted, Emit, UnicodeSpace, Lex, Opens;
    EmitPlainStep(rest, pending, rendered != []);
  }

  lemma OutlookUnquoted(rendered: string, pending: bool, rest: string)
    requires rest != []
    ensures UnicodeSpace(rest[0]) ==>
              Outlook(rendered, pending, None, rest) == Outlook(rendered, rendered != [], None, rest[1..])
    ensures !UnicodeSpace(rest[0]) ==>
              var next := rendered + (if pending then " " else "") + [rest[0]];
              Outlook(rendered, pending, None, rest) ==
              Outlook(next, false, if Opens(rest[0]) then Some(Closer(rest[0])) else None, rest[1..])
  {
    hide Outlook, UnicodeSpace, Opens, Closer;
    if UnicodeSpace(rest[0]) {
      OutlookGap(rendered, pending, rest);
    } else if Opens(rest[0]) {
      OutlookOpen(rendered, pending, rest);
    } else {
      OutlookPlain(rendered, pending, rest);
    }
  }

  /** `_canonical_schema_sql`. */
  method CanonicalSchemaSql(value: Option<string>) returns (result: Option<string>)
    ensures value.None? ==> result.None?
    ensures value.Some? ==> result == Some(Canonical(value.value))
  {
    hide UnicodeSpace, Outlook, Emit, EmitQuoted, Lex;
    if value.None? { return None; }
    var text := value.value;
    var rendered: string := "";
    var pendingSpace := false;
    var quoteEnd: Option<char> := None;
    var index := 0;
    ghost var total := Outlook("", false, None, text);
    assert text[0..] == text;
    while index < |text|
      invariant 0 <= index <= |text|
      invariant quoteEnd.Some? ==> !pendingSpace && rendered != []
      invariant Outlook(rendered, pendingSpace, quoteEnd, text[index..]) == total
    {
      var character := text[index];
      ghost var rest := text[index..];
      assert rest[1..] == text[index + 1..];
      if quoteEnd.Some? {
        OutlookQuoted(rendered, quoteEnd.value, rest);
        rendered := rendered + [character];
        if character == quoteEnd.value {
          if quoteEnd.value != ']' && index + 1 < |text| && text[index + 1] == quoteEnd.value {
            assert rest[2..] == text[index + 2..];
            rendered := rendered + [text[index + 1]];
            index := index + 1;
          } else {
            quoteEnd := None;
          }
        }
        index := index + 1;
        continue;
      }
      OutlookUnquoted(rendered, pendingSpace, rest);
      if UnicodeSpace(character) {
        pendingSpace := rendered != [];
        index := index + 1;
        continue;
      }
      ghost var mark := if pendingSpace then " " else "";
      ghost var before := rendered;
      if pendingSpace {
        rendered := rendered + " ";
        pendingSpace := false;
      }
      assert rendered == before + mark;
      rendered := rendered + [character];
      if character == '\'' || character == '"' || character == '`' {
        quoteEnd := Some(character);
      } else if character == '[' {
        quoteEnd := Some(']');
      }
      index := index + 1;
    }
    OutlookEnds(rendered, pendingSpace, quoteEnd, text[index..]);
    StripOutlook(text);
    return Some(Strip(rendered));
  }

  lemma OutlookEnds(rendered: string, pending: bool, quoteEnd: Option<char>, rest: string)
    requires rest == []
    ensures Outlook(rendered, pending, quoteEnd, rest) == rendered
  {
    EmitNothing(if quoteEnd.Some? then quoteEnd.value else ' ', pending, rendered != []);
  }

  lemma NothingBefore(s: string)
    ensures "" + s == s
  {}

  lemma StripOutlook(text: string)
    ensures Strip(Outlook("", false, None, text)) == Canonical(text)
  {
    hide Strip, Canonical, Emit, EmitQuoted, Lex;
    StripEmitted(text);
    NothingBefore(Emit(Lex(text), false, false));
  }

  // ----- shape of what the lexer produces

  predicate QuoteShape(text: string, closed: bool) {
    && text != [] && Opens(text[0])
    && Scan(text[1..], Closer(text[0])) == (|text| - 1, closed)
  }

  predicate TokenShape(t: Token) {
    match t
    case Gap(text) => text != [] && AllSpace(text)
    case Plain(c) => !UnicodeSpace(c) && !Opens(c)
    case Quoted(text, closed) => QuoteShape(text, closed)
  }

  /** No two gaps meet, an open run is last, and nothing re-opens the quote that was just closed. */
  predicate Fits(t: Token, next: Token) {
    && !(t.Gap? && next.Gap?)
    && (t.Quoted? ==> t.closed)
    && (t.Quoted? && t.text != [] && t.text[0] != '[' && next.Quoted? && next.text != [] ==> next.text[0] != t.text[0])
  }

  predicate WellFormed(ts: seq<Token>) {
    && (forall i | 0 <= i < |ts| :: TokenShape(ts[i]))
    && (forall i | 0 <= i < |ts| - 1 :: Fits(ts[i], ts[i + 1]))
  }

  lemma WellFormedTail(ts: seq<Token>)
    requires WellFormed(ts) && ts != []
    ensures WellFormed(ts[1..])
  {
    forall i | 0 <= i < |ts[1..]| - 1 ensures Fits(ts[1..][i], ts[1..][i + 1]) {
      assert Fits(ts[i + 1], ts[i + 2]);
    }
  }

  lemma WellFormedCons(t: Token, ts: seq<Token>)
    requires TokenShape(t) && WellFormed(ts) && (ts != [] ==> Fits(t, ts[0]))
    ensures WellFormed([t] + ts)
  {
    var us := [t] + ts;
    forall i | 0 <= i < |us| - 1 ensures Fits(us[i], us[i + 1]) {
      if i > 0 { assert Fits(ts[i - 1], ts[i]); }
    }
  }

  lemma {:induction false} GapIsSpace(s: string)
    ensures var n := GapLength(s); AllSpace(s[..n]) && (n < |s| ==> !UnicodeSpace(s[n]))
  {
    if s != [] && UnicodeSpace(s[0]) { GapIsSpace(s[1..]); }
  }

  lemma {:induction false} ScanPrefix(s: string, q: char)
    requires Scan(s, q).1
    ensures var n := Scan(s, q).0;
            Scan(s[..n], q) == (n, true) && (q != ']' && n < |s| ==> s[n] != q)
    decreases |s|
  {
    var n := Scan(s, q).0;
    if s[0] != q {
      ScanPrefix(s[1..], q);
      assert s[..n][1..] == s[1..][..n - 1];
    } else if q != ']' && |s| > 1 && s[1] == q {
      ScanPrefix(s[2..], q);
      assert s[..n][2..] == s[2..][..n - 2];
    }
  }

  lemma LexHead(s: string)
    requires s != []
    ensures Lex(s) != []
    ensures Lex(s)[0].Gap? <==> UnicodeSpace(s[0])
    ensures Lex(s)[0].Quoted? ==> Lex(s)[0].text != [] && Lex(s)[0].text[0] == s[0]
  {}

  lemma LexSoundStep(t: Token, ts: seq<Token>, text: string)
    requires WellFormed(ts) && Text(ts) == text && TokenShape(t) && (ts != [] ==> Fits(t, ts[0]))
    ensures Text([t] + ts) == TokenText(t) + text && WellFormed([t] + ts)
  {
    WellFormedCons(t, ts);
    assert ([t] + ts)[1..] == ts;
  }

  lemma QuotedShape(s: string, n: nat, closed: bool)
    requires s != [] && Opens(s[0]) && (n, closed) == Scan(s[1..], Closer(s[0]))
    ensures QuoteShape(s[..n + 1], closed) && (!closed ==> n + 1 == |s|)
    ensures closed && n + 1 < |s| && s[0] != '[' ==> s[n + 1] != s[0]
  {
    assert s[..n + 1][1..] == s[1..][..n];
    if closed { ScanPrefix(s[1..], Closer(s[0])); } else { assert s[..n + 1] == s; }
  }

  /** The lexer loses nothing and its tokens are well formed. */
  lemma {:induction false} LexSound(s: string)
    ensures Text(Lex(s)) == s && WellFormed(Lex(s))
    decreases |s|
  {
    hide UnicodeSpace, Text, WellFormed, Scan, QuoteShape, Lex, Opens;
    EmptyText();
    if s == [] {
    } else if UnicodeSpace(s[0]) {
      var n := GapLength(s);
      LexOfGap(s);
      GapIsSpace(s);
      LexSound(s[n..]);
      if n < |s| { LexHead(s[n..]); }
      LexSoundStep(Gap(s[..n]), Lex(s[n..]), s[n..]);
      assert s[..n] + s[n..] == s;
    } else if Opens(s[0]) {
      var (n, closed) := Scan(s[1..], Closer(s[0]));
      LexOfQuote(s);
      LexSound(s[n + 1..]);
      QuotedShape(s, n, closed);
      if n + 1 < |s| { LexHead(s[n + 1..]); }
      LexSoundStep(Quoted(s[..n + 1], closed), Lex(s[n + 1..]), s[n + 1..]);
      assert s[..n + 1] + s[n + 1..] == s;
    } else {
      LexOfPlain(s);
      LexSound(s[1..]);
      LexSoundStep(Plain(s[0]), Lex(s[1..]), s[1..]);
    }
  }

  lemma EmptyText()
    ensures Lex("") == [] && Text([]) == "" && WellFormed([])
  {}

  // ----- re-reading well-formed tokens

  lemma {:induction false} GapAppend(g: string, s: string)
    requires AllSpace(g) && (s != [] ==> !UnicodeSpace(s[0]))
    ensures GapLength(g + s) == |g|
  {
    if g == [] {
      assert g + s == s;
    } else {
      assert (g + s)[1..] == g[1..] + s;
      GapAppend(g[1..], s);
    }
  }

  lemma {:induction false} ScanAppend(u: string, s: string, q: char)
    requires Scan(u, q) == (|u|, true) && (q != ']' && s != [] ==> s[0] != q)
    ensures Scan(u + s, q) == (|u|, true)
    decreases |u|
  {
    if u[0] != q {
      assert (u + s)[1..] == u[1..] + s;
      ScanAppend(u[1..], s, q);
    } else if q != ']' && |u| > 1 && u[1] == q {
      assert (u + s)[2..] == u[2..] + s;
      ScanAppend(u[2..], s, q);
    }
  }

  lemma TextHead(ts: seq<Token>)
    requires WellFormed(ts) && ts != []
    ensures Text(ts) != [] && Text(ts)[0] == TokenText(ts[0])[0]
    ensures UnicodeSpace(Text(ts)[0]) <==> ts[0].Gap?
    ensures Opens(Text(ts)[0]) <==> ts[0].Quoted?
  {
    assert TokenShape(ts[0]);
  }

  lemma LexGap(text: string, tail: string)
    requires text != [] && AllSpace(text) && (tail != [] ==> !UnicodeSpace(tail[0]))
    ensures Lex(text + tail) == [Gap(text)] + Lex(tail)
  {
    GapAppend(text, tail);
    var s := text + tail;
    assert UnicodeSpace(s[0]);
    assert s[..|text|] == text && s[|text|..] == tail;
  }

  lemma LexQuoted(text: string, closed: bool, tail: string)
    requires QuoteShape(text, closed)
    requires if closed then text[0] != '[' && tail != [] ==> tail[0] != text[0] else tail == []
    ensures Lex(text + tail) == [Quoted(text, closed)] + Lex(tail)
  {
    var s := text + tail;
    assert s[1..] == text[1..] + tail;
    if closed {
      ScanAppend(text[1..], tail, Closer(text[0]));
    } else {
      assert s[1..] == text[1..];
    }
    assert s[..|text|] == text && s[|text|..] == tail;
    assert !UnicodeSpace(s[0]);
  }

  /** Reading back the text of well-formed tokens gives the same tokens. */
  lemma {:induction false} LexText(ts: seq<Token>)
    requires WellFormed(ts)
    ensures Lex(Text(ts)) == ts
    decreases |ts|
  {
    if ts != [] {
      var t, rest := ts[0], ts[1..];
      var tail := Text(rest);
      WellFormedTail(ts);
      LexText(rest);
      assert TokenShape(t);
      assert ts == [t] + rest;
      if rest != [] {
        TextHead(rest);
        assert Fits(t, ts[1]);
      }
      hide UnicodeSpace, Opens, Scan, WellFormed;
      match t
      case Gap(text) => LexGap(text, tail);
      case Plain(c) => assert Text(ts)[1..] == tail;
      case Quoted(text, closed) => LexQuoted(text, closed, tail);
    }
  }

  // ----- the normal form

  lemma AllSpaceAppend(s: string, c: char)
    requires AllSpace(s) && UnicodeSpace(c)
    ensures AllSpace(s + [c])
  {
    hide UnicodeSpace;
  }

  lemma {:induction false} TrimEndSplit(s: string)
    ensures |TrimEnd(s)| <= |s| && TrimEnd(s) == s[..|TrimEnd(s)|] && AllSpace(s[|TrimEnd(s)|..])
    ensures TrimEnd(s) != [] ==> !UnicodeSpace(TrimEnd(s)[|TrimEnd(s)| - 1])
    ensures TrimEnd(TrimEnd(s)) == TrimEnd(s)
    ensures s != [] && !UnicodeSpace(s[0]) ==> TrimEnd(s) != [] && TrimEnd(s)[0] == s[0]
  {
    hide UnicodeSpace;
    if s != [] && UnicodeSpace(s[|s| - 1]) {
      var t := s[..|s| - 1];
      TrimEndSplit(t);
      AllSpaceAppend(t[|TrimEnd(t)|..], s[|s| - 1]);
      assert s[|TrimEnd(t)|..] == t[|TrimEnd(t)|..] + [s[|s| - 1]];
      assert t[..|TrimEnd(t)|] == s[..|TrimEnd(t)|];
    } else {
      assert s == s[..|s|] && s[|s|..] == [];
    }
  }

  /** An open run stays open when trailing whitespace is cut off. */
  lemma {:induction false} ScanTrimmed(v: string, w: string, q: char)
    requires Scan(v + w, q) == (|v + w|, false) && AllSpace(w) && !UnicodeSpace(q)
    ensures Scan(v, q) == (|v|, false)
    decreases |v|
  {
    var u := v + w;
    if v != [] {
      if v[0] != q {
        assert u[1..] == v[1..] + w;
        ScanTrimmed(v[1..], w, q);
      } else {
        assert q != ']' && |u| > 1 && u[1] == q;
        assert |v| > 1;
        assert u[2..] == v[2..] + w;
        ScanTrimmed(v[2..], w, q);
      }
    }
  }

  lemma TidyShape(t: Token)
    requires TokenShape(t) && !t.Gap?
    ensures TokenShape(Tidy(t)) && !Tidy(t).Gap? && Tidy(Tidy(t)) == Tidy(t)
    ensures Tidy(t).Quoted? == t.Quoted?
    ensures t.Quoted? ==> Tidy(t).closed == t.closed && Tidy(t).text != [] && Tidy(t).text[0] == t.text[0]
  {
    if t.Quoted? && !t.closed {
      var v := TrimEnd(t.text);
      TrimEndSplit(t.text);
      var w := t.text[|v|..];
      assert t.text[1..] == v[1..] + w;
      ScanTrimmed(v[1..], w, Closer(t.text[0]));
    }
  }

  lemma {:induction false} SqueezeWellFormed(ts: seq<Token>)
    requires WellFormed(ts)
    ensures WellFormed(Squeeze(ts))
    ensures Squeeze(ts) != [] ==> ts != [] && (Squeeze(ts)[0].Gap? <==> ts[0].Gap?)
    ensures ts != [] && !ts[0].Gap? ==> Squeeze(ts) != [] && Squeeze(ts)[0] == Tidy(ts[0])
  {
    if ts != [] {
      WellFormedTail(ts);
      SqueezeWellFormed(ts[1..]);
      if |ts| > 1 {
        assert Fits(ts[0], ts[1]);
        if !ts[1].Gap? { TidyShape(ts[1]); }
      }
      if ts[0].Gap? {
        if |ts| > 1 { WellFormedCons(Gap(" "), Squeeze(ts[1..])); }
      } else {
        TidyShape(ts[0]);
        WellFormedCons(Tidy(ts[0]), Squeeze(ts[1..]));
      }
    }
  }

  lemma {:induction false} SqueezeIdempotent(ts: seq<Token>)
    requires WellFormed(ts)
    ensures Squeeze(Squeeze(ts)) == Squeeze(ts)
  {
    if ts != [] {
      WellFormedTail(ts);
      SqueezeIdempotent(ts[1..]);
      if ts[0].Gap? {
        if |ts| > 1 {
          assert Fits(ts[0], ts[1]);
          SqueezeWellFormed(ts[1..]);
          assert Squeeze(ts)[1..] == Squeeze(ts[1..]);
        }
      } else {
        TidyShape(ts[0]);
        assert Squeeze(ts)[1..] == Squeeze(ts[1..]);
      }
    }
  }

  lemma NormalWellFormed(ts: seq<Token>)
    requires WellFormed(ts)
    ensures WellFormed(Normal(ts)) && Normal(Normal(ts)) == Normal(ts)
    ensures Normal(ts) != [] ==> !Normal(ts)[0].Gap?
  {
    var us := if ts != [] && ts[0].Gap? then ts[1..] else ts;
    if ts != [] { WellFormedTail(ts); }
    if |ts| > 1 { assert Fits(ts[0], ts[1]); }
    SqueezeWellFormed(us);
    SqueezeIdempotent(us);
  }

  lemma {:induction false} SqueezeKeeps(ts: seq<Token>)
    requires WellFormed(ts)
    ensures Significant(Squeeze(ts)) == Significant(ts)
    ensures forall i | 0 <= i < |Squeeze(ts)| :: Squeeze(ts)[i].Gap? ==> Squeeze(ts)[i].text == " " && i < |Squeeze(ts)| - 1
  {
    if ts != [] {
      WellFormedTail(ts);
      SqueezeKeeps(ts[1..]);
      if ts[0].Gap? {
        if |ts| > 1 {
          assert Fits(ts[0], ts[1]);
          SqueezeWellFormed(ts[1..]);
          assert Squeeze(ts)[1..] == Squeeze(ts[1..]);
        }
      } else {
        TidyShape(ts[0]);
        assert Squeeze(ts)[1..] == Squeeze(ts[1..]);
      }
    }
  }

  // ----- stripping what the loop rendered

  lemma SqueezeCons(t: Token, ts: seq<Token>)
    ensures Text(Squeeze([t] + ts)) ==
            if !t.Gap? then TokenText(Tidy(t)) + Text(Squeeze(ts))
            else if ts == [] then "" else " " + Text(Squeeze(ts))
  {
    var us := [t] + ts;
    assert us[1..] == ts;
    if !t.Gap? || ts != [] {
      assert Squeeze(us)[1..] == Squeeze(ts);
    }
  }

  lemma EmitSqueezedToken(t: Token, rest: seq<Token>, pending: bool)
    requires TokenShape(t) && !t.Gap? && (t.Quoted? && !t.closed ==> rest == [])
    requires TrimEnd(Emit(rest, false, true)) == Text(Squeeze(rest))
    ensures TrimEnd(Emit([t] + rest, pending, true)) == (if pending then " " else "") + Text(Squeeze([t] + rest))
  {
    var mark := if pending then " " else "";
    var tail := Emit(rest, false, true);
    assert rest == [] ==> tail == "";
    hide Squeeze, Text, TrimEnd, TokenShape, Emit, TokenText, Tidy;
    SqueezeCons(t, rest);
    EmitCons(t, rest, pending, true);
    TrimLastToken(t, mark, tail);
    Prepend(mark, TokenText(Tidy(t)), Text(Squeeze(rest)));
  }

  lemma EmitSqueezedGap(t: Token, rest: seq<Token>)
    requires t.Gap?
    requires rest != [] ==> TrimEnd(Emit(rest, true, true)) == " " + Text(Squeeze(rest))
    ensures TrimEnd(Emit([t] + rest, false, true)) == Text(Squeeze([t] + rest))
  {
    hide Squeeze, Text, TrimEnd;
    SqueezeCons(t, rest);
    EmitCons(t, rest, false, true);
    if rest == [] { TrimEndEmpty(); }
  }

  lemma {:induction false} EmitSqueezed(ts: seq<Token>, pending: bool)
    requires WellFormed(ts) && (pending ==> ts != [] && !ts[0].Gap?)
    ensures TrimEnd(Emit(ts, pending, true)) == (if pending then " " else "") + Text(Squeeze(ts))
    decreases |ts|
  {
    if ts != [] {
      var t, rest := ts[0], ts[1..];
      WellFormedTail(ts);
      if rest != [] { assert Fits(t, ts[1]); }
      assert TokenShape(t);
      EmitSqueezed(rest, t.Gap? && rest != []);
      assert ts == [t] + rest;
      hide Emit, Squeeze, Text, TrimEnd, TokenShape, WellFormed;
      if t.Gap? {
        EmitSqueezedGap(t, rest);
        assert "" + Text(Squeeze(ts)) == Text(Squeeze(ts));
      } else {
        assert "" + Text(Squeeze(rest)) == Text(Squeeze(rest));
        EmitSqueezedToken(t, rest, pending);
      }
    }
  }

  lemma TrimEndEmpty()
    ensures TrimEnd("") == ""
  {}

  lemma {:induction false} TrimEndAppend(a: string, b: string)
    ensures TrimEnd(a + b) == if TrimEnd(b) == [] then TrimEnd(a) else a + TrimEnd(b)
    decreases |b|
  {
    if b == [] {
      assert a + b == a;
    } else if UnicodeSpace(b[|b| - 1]) {
      assert (a + b)[..|a + b| - 1] == a + b[..|b| - 1];
      TrimEndAppend(a, b[..|b| - 1]);
    }
  }

  /** The text of a token ends in the text of the tidied token, and is not trimmed any further. */
  lemma TrimToken(t: Token)
    requires TokenShape(t) && !t.Gap?
    ensures TrimEnd(TokenText(t)) == TokenText(Tidy(t)) != []
  {
    var text := TokenText(t);
    TrimEndSplit(text);
    if t.Quoted? && t.closed {
      var q := Closer(t.text[0]);
      assert Scan(text[1..], q) == (|text| - 1, true);
      assert text[|text| - 1] == text[1..][|text| - 2] == q;
    }
  }

  lemma TrimLastToken(t: Token, mark: string, tail: string)
    requires TokenShape(t) && !t.Gap? && (t.Quoted? && !t.closed ==> tail == "")
    ensures TrimEnd(mark + TokenText(t) + tail) == mark + TokenText(Tidy(t)) + TrimEnd(tail)
  {
    hide TrimEnd, TokenShape, TokenText;
    TrimEndAppend(mark + TokenText(t), tail);
    TrimEndAppend(mark, TokenText(t));
    TrimToken(t);
    TrimEndEmpty();
    assert mark + TokenText(Tidy(t)) + "" == mark + TokenText(Tidy(t));
  }

  lemma StripEmitted(text: string)
    ensures Strip(Emit(Lex(text), false, false)) == Canonical(text)
  {
    LexSound(text);
    var ts := Lex(text);
    var us := if ts != [] && ts[0].Gap? then ts[1..] else ts;
    if ts != [] { WellFormedTail(ts); }
    if |ts| > 1 { assert Fits(ts[0], ts[1]); }
    assert Emit(ts, false, false) == Emit(us, false, true);
    EmitSqueezed(us, false);
    if us != [] {
      var e := Emit(us, false, true);
      assert TokenShape(us[0]);
      assert e[0] == TokenText(us[0])[0];
      assert TrimStart(e) == e;
    }
  }

  // ----- main results

  /** The text ends inside a quoted run. */
  predicate OpenAtEnd(ts: seq<Token>) {
    ts != [] && ts[|ts| - 1].Quoted? && !ts[|ts| - 1].closed
  }

  lemma {:induction false} OpenIsSignificant(ts: seq<Token>)
    requires WellFormed(ts)
    ensures OpenAtEnd(Significant(ts)) == OpenAtEnd(ts)
  {
    if |ts| > 1 {
      WellFormedTail(ts);
      OpenIsSignificant(ts[1..]);
      assert Fits(ts[0], ts[1]);
    }
  }

  /** The rendered text lexes to the normal form: single interior spaces, no gap at either end, the
      same meaningful tokens in the same order.  Closed runs are meaningful tokens, so they are copied
      verbatim.  The rendering ends inside a quote exactly when the text does. */
  lemma RenderedTokens(s: string)
    ensures Lex(Canonical(s)) == Normal(Lex(s))
    ensures Significant(Lex(Canonical(s))) == Significant(Lex(s))
    ensures var ts := Lex(Canonical(s));
            forall i | 0 <= i < |ts| :: ts[i].Gap? ==> ts[i].text == " " && 0 < i < |ts| - 1
    ensures OpenAtEnd(Lex(Canonical(s))) == OpenAtEnd(Lex(s))
  {
    LexSound(s);
    LexSound(Canonical(s));
    OpenIsSignificant(Lex(s));
    OpenIsSignificant(Lex(Canonical(s)));
    NormalWellFormed(Lex(s));
    LexText(Normal(Lex(s)));
    var ts := Lex(s);
    var us := if ts != [] && ts[0].Gap? then ts[1..] else ts;
    if ts != [] { WellFormedTail(ts); }
    SqueezeKeeps(us);
  }

  lemma CanonicalIdempotent(s: string)
    ensures Canonical(Canonical(s)) == Canonical(s)
  {
    RenderedTokens(s);
    LexSound(s);
    NormalWellFormed(Lex(s));
  }

  /** Two definitions render alike exactly when they differ only in the extent of their gaps. */
  lemma SameRendering(s: string, t: string)
    ensures Canonical(s) == Canonical(t) <==> Normal(Lex(s)) == Normal(Lex(t))
  {
    RenderedTokens(s);
    RenderedTokens(t);
  }

  /** A visible ASCII character that opens no quote. */
  predicate Ordinary(c: char) {
    '!' <= c <= '~' && c !in {'\'', '"', '`', '['}
  }

  /** Space, tab, line feed, vertical tab, form feed, carriage return. */
  predicate AsciiSpace(c: char) {
    c == ' ' || (9 as char) <= c <= (13 as char)
  }

  /** Whatever ASCII white space stands between two ordinary characters, one space is rendered. */
  lemma GapRendered(c: char, gap: string, d: char)
    requires Ordinary(c) && Ordinary(d) && gap != "" && forall i | 0 <= i < |gap| :: AsciiSpace(gap[i])
    ensures Canonical([c] + gap + [d]) == [c] + " " + [d]
  {
    var last := [Plain(d)] + [];
    var most := [Gap(gap)] + last;
    var ts := [Plain(c)] + most;
    GapShape(c, gap, d);
    hide UnicodeSpace, WellFormed, Text, Squeeze, Lex, AsciiSpace, Ordinary;
    TextCons(Plain(d), []);
    TextCons(Gap(gap), last);
    TextCons(Plain(c), most);
    NoTokens();
    assert [d] + "" == [d] && [c] + (gap + [d]) == [c] + gap + [d];
    LexText(ts);
    SqueezeCons(Plain(d), []);
    SqueezeCons(Gap(gap), last);
    SqueezeCons(Plain(c), most);
    assert [c] + (" " + [d]) == [c] + " " + [d];
  }

  lemma GapShape(c: char, gap: string, d: char)
    requires Ordinary(c) && Ordinary(d) && gap != "" && forall i | 0 <= i < |gap| :: AsciiSpace(gap[i])
    ensures WellFormed([Plain(c)] + ([Gap(gap)] + ([Plain(d)] + [])))
  {
    assert UnicodeSpace(gap[0]) && AllSpace(gap);
  }

  lemma NoTokens()
    ensures Text([]) == "" && Text(Squeeze([])) == ""
  {}

  lemma TextCons(t: Token, ts: seq<Token>)
    ensures Text([t] + ts) == TokenText(t) + Text(ts)
  {
    assert ([t] + ts)[1..] == ts;
  }

  lemma {:induction false} ScanOver(a: string, rest: string, q: char)
    requires q !in a
    ensures Scan(a + rest, q) == (|a| + Scan(rest, q).0, Scan(rest, q).1)
  {
    if a == "" {
      assert a + rest == rest;
    } else {
      assert (a + rest)[1..] == a[1..] + rest;
      ScanOver(a[1..], rest, q);
    }
  }

  lemma RunVerbatim(text: string)
    requires QuoteShape(text, true)
    ensures Canonical(text) == text
  {
    var ts := [Quoted(text, true)];
    assert WellFormed(ts);
    assert ts[1..] == [] && text + "" == text;
    assert Text(ts) == text;
    LexText(ts);
    assert Squeeze(ts) == [ts[0]] + [];
  }

  /** A quoted run is left alone, white space and all, in each of the four kinds of quotes. */
  lemma QuotedVerbatim(opening: char, closing: char, body: string)
    requires (opening, closing) in {('\'', '\''), ('"', '"'), ('`', '`'), ('[', ']')} && closing !in body
    ensures Canonical([opening] + body + [closing]) == [opening] + body + [closing]
  {
    var text := [opening] + body + [closing];
    assert text[1..] == body + [closing];
    ScanOver(body, [closing], closing);
    RunVerbatim(text);
  }

  /** A doubled quote does not end the run; a bracket always does, even if another one follows. */
  lemma DoubledQuote(q: char, a: string, b: string)
    requires q in {'\'', '"', '`'} && q !in a && q !in b
    ensures Canonical([q] + a + [q, q] + b + [q]) == [q] + a + [q, q] + b + [q]
  {
    var text, tail := [q] + a + [q, q] + b + [q], b + [q];
    assert text[1..] == a + ([q, q] + tail);
    assert ([q, q] + tail)[2..] == tail;
    ScanOver(b, [q], q);
    ScanOver(a, [q, q] + tail, q);
    RunVerbatim(text);
  }

  lemma BracketEnds(a: string, rest: string)
    requires ']' !in a
    ensures Lex("[" + a + "]" + rest) == [Quoted("[" + a + "]", true)] + Lex(rest)
  {
    var text := "[" + a + "]";
    assert text[1..] == a + "]";
    ScanOver(a, "]", ']');
    LexQuoted(text, true, rest);
  }
}
