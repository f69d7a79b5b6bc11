/**
 * What the lexer makes of the serialisers' text: the indented form, and the
 * compact form once empty containers are closed, read back as exactly the
 * tokens of the element, so parsing the text gives the element back. Strings
 * and keys must be ones the lexer can delimit (nothing is escaped when
 * printing) and numbers must print in the shape `ReadNumber` reads.
 */
module RenderText {
  import opened Wrappers
  import opened TokenTypes
  import opened Tokens
  import opened LexerSpec
  import opened LexerProperties
  import opened Elements
  import opened ParserSpec
  import opened Serializer
  import opened RenderTokens
  import opened Slices

  /** Every string and key can be read back as printed, and every number prints in number shape. */
  predicate Printable(e: Element, fmt: Double -> string)
    decreases e, 1
  {
    match e
    case Str(s) => StringSafe(s)
    case Number(d) => NumberShaped(fmt(d))
    case Arr(items) => ItemsPrintable(items, fmt)
    case Obj(ms) => MembersPrintable(ms, fmt)
    case _ => true
  }

  predicate ItemsPrintable(items: seq<Element>, fmt: Double -> string)
    decreases items, 0
  {
    items == [] || (Printable(items[0], fmt) && ItemsPrintable(items[1..], fmt))
  }

  predicate MembersPrintable(ms: seq<Member>, fmt: Double -> string)
    decreases ms, 0
  {
    ms == [] || (StringSafe(ms[0].key) && Printable(ms[0].value, fmt) && MembersPrintable(ms[1..], fmt))
  }

  // ------------------------------------------------------------- stretches

  /**
   * Scanning `s` from `pos` emits exactly `ts` and arrives at `end`:
   * whitespace is skipped and each token is read where the previous one ended.
   */
  predicate LexesTo(s: string, pos: nat, ts: seq<Token>, end: nat)
    decreases end - pos, 2
  {
    pos <= end <= |s| && (if pos == end then ts == [] else LexesFrom(s, pos, ts, end))
  }

  /** `LexesTo` from a position before `end`: one character skipped or one token read, then the rest. */
  predicate LexesFrom(s: string, pos: nat, ts: seq<Token>, end: nat)
    requires pos < end <= |s|
    decreases end - pos, 1
  {
    if IsWhitespace(s[pos]) then LexesTo(s, pos + 1, ts, end) else ReadsThen(s, pos, ts, end)
  }

  /** The lexer reads `ts[0]` at `pos`, and the rest of `ts` from where that token ends. */
  predicate ReadsThen(s: string, pos: nat, ts: seq<Token>, end: nat)
    requires pos < end <= |s|
    decreases end - pos, 0
  {
    ts != [] && 0 < |ts[0].lexeme| && pos + |ts[0].lexeme| <= end
    && TokenAt(s, pos) == Ok(Emit(ts[0], pos + |ts[0].lexeme|))
    && LexesTo(s, pos + |ts[0].lexeme|, ts[1..], end)
  }

  /** A stretch that reaches the end of the text is what the scanning loop returns. */
  lemma {:induction false} LexesToEnd(s: string, pos: nat, ts: seq<Token>)
    requires LexesTo(s, pos, ts, |s|)
    ensures TokensFrom(s, pos) == Ok(ts)
    decreases |s| - pos
  {
    if pos < |s| {
      if IsWhitespace(s[pos]) {
        LexesToEnd(s, pos + 1, ts);
        TokensFromSkip(s, pos);
      } else {
        assert ReadsThen(s, pos, ts, |s|);
        LexesToEnd(s, pos + |ts[0].lexeme|, ts[1..]);
        TokensFromEmit(s, pos, ts[0], pos + |ts[0].lexeme|);
        assert ts == [ts[0]] + ts[1..];
      }
    }
  }

  /** Two stretches in a row are one stretch emitting both token sequences. */
  lemma {:induction false} LexesToJoin(s: string, a: nat, t1: seq<Token>, b: nat, t2: seq<Token>, c: nat)
    requires LexesTo(s, a, t1, b) && LexesTo(s, b, t2, c)
    ensures LexesTo(s, a, t1 + t2, c)
    decreases b - a
  {
    if a == b {
      assert t1 + t2 == t2;
    } else if IsWhitespace(s[a]) {
      LexesToJoin(s, a + 1, t1, b, t2, c);
    } else {
      assert ReadsThen(s, a, t1, b);
      LexesToJoin(s, a + |t1[0].lexeme|, t1[1..], b, t2, c);
      assert (t1 + t2)[0] == t1[0] && (t1 + t2)[1..] == t1[1..] + t2;
      assert ReadsThen(s, a, t1 + t2, c);
    }
  }

  /** Whitespace alone emits nothing. */
  lemma {:induction false} LexesToBlank(s: string, pos: nat, w: string)
    requires SliceAt(s, pos, w) && forall k :: 0 <= k < |w| ==> IsWhitespace(w[k])
    ensures LexesTo(s, pos, [], pos + |w|)
    decreases |w|
  {
    if w != [] {
      SliceAtConcat(s, pos, w[..1], w[1..]);
      assert w[..1] + w[1..] == w;
      SliceAtIndex(s, pos, w, 0);
      LexesToBlank(s, pos + 1, w[1..]);
    }
  }

  /** A token the lexer reads at `pos`, ending where its lexeme ends. */
  lemma LexesToToken(s: string, pos: nat, t: Token)
    requires pos < |s| && TokenAt(s, pos) == Ok(Emit(t, pos + |t.lexeme|))
    ensures LexesTo(s, pos, [t], pos + |t.lexeme|)
  {
    assert [t][1..] == [];
    assert ReadsThen(s, pos, [t], pos + |t.lexeme|);
  }

  /** One punctuation character. */
  lemma PunctLexes(s: string, pos: nat, c: char, k: TokenType)
    requires pos < |s| && s[pos] == c && PunctuationType(c) == Some(k)
    ensures LexesTo(s, pos, [PunctToken(k, c)], pos + 1)
  {
    LexesToToken(s, pos, PunctToken(k, c));
  }

  /** Punctuation `c` at `pos` followed by the whitespace `w`. */
  lemma PunctThenBlank(s: string, pos: nat, c: char, k: TokenType, w: string)
    requires SliceAt(s, pos, [c] + w) && PunctuationType(c) == Some(k)
    requires forall i :: 0 <= i < |w| ==> IsWhitespace(w[i])
    ensures LexesTo(s, pos, [PunctToken(k, c)], pos + 1 + |w|)
  {
    SliceAtConcat(s, pos, [c], w);
    SliceAtIndex(s, pos, [c], 0);
    PunctLexes(s, pos, c, k);
    LexesToBlank(s, pos + 1, w);
    LexesToJoin(s, pos, [PunctToken(k, c)], pos + 1, [], pos + 1 + |w|);
    assert [PunctToken(k, c)] + [] == [PunctToken(k, c)];
  }

  /** The whitespace `w` followed by punctuation `c`. */
  lemma BlankThenPunct(s: string, pos: nat, w: string, c: char, k: TokenType)
    requires SliceAt(s, pos, w + [c]) && PunctuationType(c) == Some(k)
    requires forall i :: 0 <= i < |w| ==> IsWhitespace(w[i])
    ensures LexesTo(s, pos, [PunctToken(k, c)], pos + |w| + 1)
  {
    SliceAtConcat(s, pos, w, [c]);
    SliceAtIndex(s, pos + |w|, [c], 0);
    LexesToBlank(s, pos, w);
    PunctLexes(s, pos + |w|, c, k);
    LexesToJoin(s, pos, [], pos + |w|, [PunctToken(k, c)], pos + |w| + 1);
    assert [] + [PunctToken(k, c)] == [PunctToken(k, c)];
  }

  // ------------------------------------------------------------- scalars

  /** Where `text` ends when it lies in `s` from `pos` on. */
  function Stretch(s: string, pos: nat, text: string): Option<nat> {
    if SliceAt(s, pos, text) then Some(pos + |text|) else None
  }

  /** Where `text` ends when it lies in `s` from `pos` on and nothing that continues a number follows it. */
  function Delimited(s: string, pos: nat, text: string): Option<nat> {
    if SliceAt(s, pos, text) && Delimits(PeekAt(s, pos + |text|)) then Some(pos + |text|) else None
  }

  /** `true`, `false` and `null` printed in lower case are read back as their tokens. */
  lemma KeywordLexes(s: string, pos: nat, t: Token)
    requires t == NullToken || t == BoolToken(true) || t == BoolToken(false)
    requires SliceAt(s, pos, t.lexeme)
    ensures LexesTo(s, pos, [t], pos + |t.lexeme|)
  {
    var w := t.lexeme;
    SliceAtIndex(s, pos, w, 0);
    KeywordTokens(s, pos);
    assert SameIgnoringCase(s[pos..pos + |w|], w);
    LexesToToken(s, pos, t);
  }

  /** A printable scalar's text is read back as its one token. */
  lemma ScalarLexes(s: string, pos: nat, e: Element, fmt: Double -> string, n: nat)
    requires !e.Obj? && !e.Arr? && Printable(e, fmt)
    requires Delimited(s, pos, Compact(e, fmt)) == Some(n)
    ensures LexesTo(s, pos, ValueTokens(e, fmt), n)
  {
    if e.Str? {
      StrScalarLexes(s, pos, e, fmt, n);
    } else if e.Number? {
      NumberScalarLexes(s, pos, e, fmt, n);
    } else {
      KeywordScalarLexes(s, pos, e, fmt, n);
    }
  }

  lemma StrScalarLexes(s: string, pos: nat, e: Element, fmt: Double -> string, n: nat)
    requires e.Str? && Printable(e, fmt) && Delimited(s, pos, Compact(e, fmt)) == Some(n)
    ensures LexesTo(s, pos, ValueTokens(e, fmt), n)
  {
    QuotedLexes(s, pos, e.text);
    assert ValueTokens(e, fmt) == [RenderTokens.StringToken(e.text)] && n == pos + |e.text| + 2;
  }

  lemma NumberScalarLexes(s: string, pos: nat, e: Element, fmt: Double -> string, n: nat)
    requires e.Number? && Printable(e, fmt) && Delimited(s, pos, Compact(e, fmt)) == Some(n)
    ensures LexesTo(s, pos, ValueTokens(e, fmt), n)
  {
    NumberLexes(s, pos, fmt(e.number));
    assert ValueTokens(e, fmt) == [RenderTokens.NumberToken(fmt(e.number))] && n == pos + |fmt(e.number)|;
  }

  lemma KeywordScalarLexes(s: string, pos: nat, e: Element, fmt: Double -> string, n: nat)
    requires (e.Null? || e.Bool?) && Delimited(s, pos, Compact(e, fmt)) == Some(n)
    ensures LexesTo(s, pos, ValueTokens(e, fmt), n)
  {
    var t := if e.Null? then NullToken else BoolToken(e.flag);
    assert ValueTokens(e, fmt) == [t] && Compact(e, fmt) == t.lexeme;
    KeywordLexes(s, pos, t);
  }

  /** A number's printed text, with nothing number-like after it, is read back as its NUMBER token. */
  lemma NumberLexes(s: string, pos: nat, w: string)
    requires NumberShaped(w) && Delimited(s, pos, w).Some?
    ensures LexesTo(s, pos, [RenderTokens.NumberToken(w)], pos + |w|)
  {
    NumberTokenShaped(s, pos, w);
    LexesToToken(s, pos, RenderTokens.NumberToken(w));
  }

  /** A key printed in quotes, then `: `, is read back as the key's STRING token and a COLON. */
  lemma KeyLexes(s: string, pos: nat, key: string)
    requires StringSafe(key) && SliceAt(s, pos, Quote(key) + ": ")
    ensures LexesTo(s, pos, [RenderTokens.StringToken(key), PunctToken(Colon, ':')], pos + |key| + 4)
  {
    SliceAtConcat(s, pos, Quote(key), ": ");
    QuotedLexes(s, pos, key);
    ColonLexes(s, pos + |key| + 2);
    LexesToJoin(s, pos, [RenderTokens.StringToken(key)], pos + |key| + 2, [PunctToken(Colon, ':')], pos + |key| + 4);
    assert [RenderTokens.StringToken(key)] + [PunctToken(Colon, ':')] == [RenderTokens.StringToken(key), PunctToken(Colon, ':')];
  }

  /** A string printed in quotes is read back as its STRING token. */
  lemma QuotedLexes(s: string, pos: nat, p: string)
    requires StringSafe(p) && SliceAt(s, pos, Quote(p))
    ensures LexesTo(s, pos, [RenderTokens.StringToken(p)], pos + |p| + 2)
  {
    QuotedStringToken(s, pos, p);
    LexesToToken(s, pos, RenderTokens.StringToken(p));
  }

  /** The `: ` after a key is read back as a COLON. */
  lemma ColonLexes(s: string, pos: nat)
    requires SliceAt(s, pos, ": ")
    ensures LexesTo(s, pos, [PunctToken(Colon, ':')], pos + 2)
  {
    assert ": " == [':'] + " ";
    PunctThenBlank(s, pos, ':', Colon, " ");
  }

  // ------------------------------------------------------------- pieces of text

  /** A stretch that emits nothing, then one that emits `t`. */
  lemma LexesToAfterBlank(s: string, a: nat, b: nat, t: seq<Token>, c: nat)
    requires LexesTo(s, a, [], b) && LexesTo(s, b, t, c)
    ensures LexesTo(s, a, t, c)
  {
    LexesToJoin(s, a, [], b, t, c);
    assert [] + t == t;
  }

  /** A stretch that emits `t`, then one that emits nothing. */
  lemma LexesToBeforeBlank(s: string, a: nat, t: seq<Token>, b: nat, c: nat)
    requires LexesTo(s, a, t, b) && LexesTo(s, b, [], c)
    ensures LexesTo(s, a, t, c)
  {
    LexesToJoin(s, a, t, b, [], c);
    assert t + [] == t;
  }

  /** As `LexesToAround`, with `y` read after `t2`. */
  lemma LexesToAroundThen(s: string, a: nat, t1: seq<Token>, b: nat, x: Token, c: nat, t2: seq<Token>,
                          y: seq<Token>, d: nat)
    requires LexesTo(s, a, t1, b) && LexesTo(s, b, [x], c) && LexesTo(s, c, t2 + y, d)
    ensures LexesTo(s, a, t1 + ([x] + t2) + y, d)
  {
    LexesToAround(s, a, t1, b, x, c, t2 + y, d);
    AppendAround(t1, x, t2, y);
  }

  /** The first item, a comma, then the other items. */
  lemma ItemsJoin(s: string, pos: nat, items: seq<Element>, fmt: Double -> string, m: nat, n: nat)
    requires |items| > 1 && LexesTo(s, pos, ValueTokens(items[0], fmt), m)
    requires LexesTo(s, m, [PunctToken(Comma, ',')], m + 2) && LexesTo(s, m + 2, ItemsTokens(items[1..], fmt), n)
    ensures LexesTo(s, pos, ItemsTokens(items, fmt), n)
  {
    LexesToAround(s, pos, ValueTokens(items[0], fmt), m, PunctToken(Comma, ','), m + 2, ItemsTokens(items[1..], fmt), n);
  }

  /** As `ItemsJoin`, with `y` read after the items. */
  lemma ItemsJoinThen(s: string, pos: nat, items: seq<Element>, fmt: Double -> string, m: nat, y: seq<Token>, n: nat)
    requires |items| > 1 && LexesTo(s, pos, ValueTokens(items[0], fmt), m)
    requires LexesTo(s, m, [PunctToken(Comma, ',')], m + 2) && LexesTo(s, m + 2, ItemsTokens(items[1..], fmt) + y, n)
    ensures LexesTo(s, pos, ItemsTokens(items, fmt) + y, n)
  {
    LexesToAroundThen(s, pos, ValueTokens(items[0], fmt), m, PunctToken(Comma, ','), m + 2,
                      ItemsTokens(items[1..], fmt), y, n);
  }

  /** The first member, a comma, then the other members. */
  lemma MembersJoin(s: string, pos: nat, ms: seq<Member>, fmt: Double -> string, m: nat, n: nat)
    requires |ms| > 1 && LexesTo(s, pos, MemberTokens(ms[0], fmt), m)
    requires LexesTo(s, m, [PunctToken(Comma, ',')], m + 2) && LexesTo(s, m + 2, MembersTokens(ms[1..], fmt), n)
    ensures LexesTo(s, pos, MembersTokens(ms, fmt), n)
  {
    LexesToAround(s, pos, MemberTokens(ms[0], fmt), m, PunctToken(Comma, ','), m + 2, MembersTokens(ms[1..], fmt), n);
  }

  /** As `MembersJoin`, with `y` read after the members. */
  lemma MembersJoinThen(s: string, pos: nat, ms: seq<Member>, fmt: Double -> string, m: nat, y: seq<Token>, n: nat)
    requires |ms| > 1 && LexesTo(s, pos, MemberTokens(ms[0], fmt), m)
    requires LexesTo(s, m, [PunctToken(Comma, ',')], m + 2) && LexesTo(s, m + 2, MembersTokens(ms[1..], fmt) + y, n)
    ensures LexesTo(s, pos, MembersTokens(ms, fmt) + y, n)
  {
    LexesToAroundThen(s, pos, MemberTokens(ms[0], fmt), m, PunctToken(Comma, ','), m + 2,
                      MembersTokens(ms[1..], fmt), y, n);
  }

  /** Three stretches in a row, the middle one a single token. */
  lemma LexesToAround(s: string, a: nat, t1: seq<Token>, b: nat, x: Token, c: nat, t2: seq<Token>, d: nat)
    requires LexesTo(s, a, t1, b) && LexesTo(s, b, [x], c) && LexesTo(s, c, t2, d)
    ensures LexesTo(s, a, t1 + ([x] + t2), d)
  {
    LexesToJoin(s, b, [x], c, t2, d);
    LexesToJoin(s, a, t1, b, [x] + t2, d);
  }

  /** `text` is `v`, then a piece starting with a character that no number continues over. */
  lemma SplitBeforeDelimiter(s: string, pos: nat, text: string, v: string, tail: string, n: nat)
    requires Stretch(s, pos, text) == Some(n) && text == v + tail && |tail| > 0 && Delimits(tail[0])
    ensures Delimited(s, pos, v) == Some(pos + |v|)
    ensures Stretch(s, pos + |v|, tail) == Some(n)
  {
    SliceAtConcat(s, pos, v, tail);
    SliceAtIndex(s, pos + |v|, tail, 0);
  }

  /** `text` is the spaces `lead`, then `v`, then a piece starting with a delimiter. */
  lemma SplitIndentedText(s: string, pos: nat, text: string, lead: string, v: string, tail: string, n: nat)
    requires Stretch(s, pos, text) == Some(n) && text == lead + v + tail && |tail| > 0 && Delimits(tail[0])
    ensures SliceAt(s, pos, lead)
    ensures Delimited(s, pos + |lead|, v) == Some(pos + |lead| + |v|)
    ensures Stretch(s, pos + |lead| + |v|, tail) == Some(n)
  {
    assert text == lead + (v + tail);
    SliceAtConcat(s, pos, lead, v + tail);
    SplitBeforeDelimiter(s, pos + |lead|, v + tail, v, tail, n);
  }

  /** The spaces `lead`, then a quoted key and `: `. */
  lemma LeadKeyLexes(s: string, pos: nat, lead: string, key: string)
    requires SliceAt(s, pos, lead + Quote(key) + ": ")
    requires StringSafe(key) && forall i :: 0 <= i < |lead| ==> lead[i] == ' '
    ensures LexesTo(s, pos, [RenderTokens.StringToken(key), PunctToken(Colon, ':')], pos + |lead| + |key| + 4)
  {
    assert lead + Quote(key) + ": " == lead + (Quote(key) + ": ");
    SliceAtConcat(s, pos, lead, Quote(key) + ": ");
    assert forall i :: 0 <= i < |lead| ==> IsWhitespace(lead[i]);
    LexesToBlank(s, pos, lead);
    KeyLexes(s, pos + |lead|, key);
    LexesToAfterBlank(s, pos, pos + |lead|, [RenderTokens.StringToken(key), PunctToken(Colon, ':')],
                      pos + |lead| + |key| + 4);
  }

  /** `text` is the two characters `c` and `w`, then `body`. */
  lemma SplitPair(s: string, pos: nat, text: string, c: char, w: char, body: string, n: nat)
    requires Stretch(s, pos, text) == Some(n) && text == [c, w] + body
    ensures SliceAt(s, pos, [c] + [w]) && Stretch(s, pos + 2, body) == Some(n)
  {
    assert [c, w] == [c] + [w];
    SliceAtConcat(s, pos, [c, w], body);
  }

  /** `text` is an opener `c` and the whitespace character `w`, then `body`. */
  lemma SplitOpen(s: string, pos: nat, text: string, c: char, w: char, k: TokenType, body: string, n: nat)
    requires PunctuationType(c) == Some(k) && IsWhitespace(w)
    requires Stretch(s, pos, text) == Some(n) && text == [c, w] + body
    ensures LexesTo(s, pos, [PunctToken(k, c)], pos + 2)
    ensures Stretch(s, pos + 2, body) == Some(n)
  {
    SplitPair(s, pos, text, c, w, body, n);
    PunctThenBlank(s, pos, c, k, [w]);
  }

  /** `text` is `[c, w]`, `body`, the spaces `lead`, then `d`. */
  lemma SplitBlockText(s: string, pos: nat, text: string, c: char, w: char, body: string, lead: string, d: char,
                       n: nat)
    requires Delimited(s, pos, text) == Some(n) && text == [c, w] + body + lead + [d]
    ensures SliceAt(s, pos, [c] + [w]) && Stretch(s, pos + 2, body) == Some(pos + 2 + |body|)
    ensures SliceAt(s, pos + 2 + |body|, lead + [d]) && n == pos + 2 + |body| + |lead| + 1
  {
    assert text == [c, w] + (body + (lead + [d]));
    assert [c, w] == [c] + [w];
    SliceAtConcat(s, pos, [c, w], body + (lead + [d]));
    SliceAtConcat(s, pos + 2, body, lead + [d]);
  }

  /** `text` is an opener `c` and the whitespace character `w`, `body`, the spaces `lead`, then a closer `d`. */
  lemma SplitBlock(s: string, pos: nat, text: string, c: char, w: char, k: TokenType, body: string,
                   lead: string, d: char, kc: TokenType, n: nat)
    requires PunctuationType(c) == Some(k) && IsWhitespace(w) && PunctuationType(d) == Some(kc)
    requires forall i :: 0 <= i < |lead| ==> lead[i] == ' '
    requires Delimited(s, pos, text) == Some(n) && text == [c, w] + body + lead + [d]
    ensures LexesTo(s, pos, [PunctToken(k, c)], pos + 2)
    ensures Stretch(s, pos + 2, body) == Some(pos + 2 + |body|)
    ensures LexesTo(s, pos + 2 + |body|, [PunctToken(kc, d)], n)
  {
    SplitBlockText(s, pos, text, c, w, body, lead, d, n);
    PunctThenBlank(s, pos, c, k, [w]);
    BlankThenPunct(s, pos + 2 + |body|, lead, d, kc);
  }

  /** `text` is the two punctuation characters `c` and `d`. */
  lemma PairLexes(s: string, pos: nat, text: string, c: char, k: TokenType, d: char, kc: TokenType, n: nat)
    requires text == [c, d] && PunctuationType(c) == Some(k) && PunctuationType(d) == Some(kc)
    requires Delimited(s, pos, text) == Some(n)
    ensures LexesTo(s, pos, [PunctToken(k, c), PunctToken(kc, d)], n)
  {
    SliceAtIndex(s, pos, text, 0);
    SliceAtIndex(s, pos, text, 1);
    PunctPair(s, pos, c, k, d, kc);
  }

  lemma PunctPair(s: string, pos: nat, c: char, k: TokenType, d: char, kc: TokenType)
    requires pos + 1 < |s| && s[pos] == c && s[pos + 1] == d
    requires PunctuationType(c) == Some(k) && PunctuationType(d) == Some(kc)
    ensures LexesTo(s, pos, [PunctToken(k, c), PunctToken(kc, d)], pos + 2)
  {
    PunctLexes(s, pos, c, k);
    PunctLexes(s, pos + 1, d, kc);
    LexesToJoin(s, pos, [PunctToken(k, c)], pos + 1, [PunctToken(kc, d)], pos + 2);
    assert [PunctToken(k, c)] + [PunctToken(kc, d)] == [PunctToken(k, c), PunctToken(kc, d)];
  }

  /** `text` is a comma and the whitespace character `w`, then `rest`. */
  lemma CommaThenBlank(s: string, pos: nat, text: string, w: char, rest: string, n: nat)
    requires IsWhitespace(w) && Stretch(s, pos, text) == Some(n) && text == [',', w] + rest
    ensures LexesTo(s, pos, [PunctToken(Comma, ',')], pos + 2) && Stretch(s, pos + 2, rest) == Some(n)
  {
    SplitOpen(s, pos, text, ',', w, Comma, rest, n);
  }

  /** `text` is a space, then the closer `d`. */
  lemma SpaceThenCloser(s: string, pos: nat, text: string, d: char, kc: TokenType, n: nat)
    requires text == [' ', d] && PunctuationType(d) == Some(kc) && Stretch(s, pos, text) == Some(n)
    ensures LexesTo(s, pos, [PunctToken(kc, d)], n)
  {
    assert text == " " + [d];
    BlankThenPunct(s, pos, " ", d, kc);
  }

  /** `text` is a line break. */
  lemma LineBreakLexes(s: string, pos: nat, text: string, n: nat)
    requires text == "\n" && Stretch(s, pos, text) == Some(n)
    ensures LexesTo(s, pos, [], n)
  {
    LexesToBlank(s, pos, text);
  }

  // ------------------------------------------------------------- indented form

  function FormattedSpan(s: string, pos: nat, e: Element, indent: nat, offset: nat, fmt: Double -> string): Option<nat> {
    if Printable(e, fmt) then Delimited(s, pos, Formatted(e, indent, offset, fmt)) else None
  }

  function FormattedItemsSpan(s: string, pos: nat, items: seq<Element>, indent: nat, offset: nat,
                              fmt: Double -> string): Option<nat> {
    if ItemsPrintable(items, fmt) then Stretch(s, pos, FormattedItems(items, indent, offset, fmt)) else None
  }

  function FormattedMembersSpan(s: string, pos: nat, ms: seq<Member>, indent: nat, offset: nat,
                                fmt: Double -> string): Option<nat> {
    if MembersPrintable(ms, fmt) then Stretch(s, pos, FormattedMembers(ms, indent, offset, fmt)) else None
  }

  /** What ends a child's line: `,` and a line break before the next child, a line break after the last. */
  function FormattedItemsTail(items: seq<Element>, indent: nat, offset: nat, fmt: Double -> string): string
    requires items != []
  {
    if |items| > 1 then ",\n" + FormattedItems(items[1..], indent, offset, fmt) else "\n"
  }

  function FormattedMembersTail(ms: seq<Member>, indent: nat, offset: nat, fmt: Double -> string): string
    requires ms != []
  {
    if |ms| > 1 then ",\n" + FormattedMembers(ms[1..], indent, offset, fmt) else "\n"
  }

  lemma FormattedItemsTailStart(items: seq<Element>, indent: nat, offset: nat, fmt: Double -> string)
    requires items != []
    ensures var t := FormattedItemsTail(items, indent, offset, fmt); |t| > 0 && Delimits(t[0])
    ensures FormattedItems(items, indent, offset, fmt)
            == Indents(indent + offset) + Formatted(items[0], indent + offset, offset, fmt)
               + FormattedItemsTail(items, indent, offset, fmt)
  {
  }

  lemma FormattedMembersTailStart(ms: seq<Member>, indent: nat, offset: nat, fmt: Double -> string)
    requires ms != []
    ensures var t := FormattedMembersTail(ms, indent, offset, fmt); |t| > 0 && Delimits(t[0])
    ensures FormattedMembers(ms, indent, offset, fmt)
            == Indents(indent + offset) + Quote(ms[0].key) + ": " + Formatted(ms[0].value, indent + offset, offset, fmt)
               + FormattedMembersTail(ms, indent, offset, fmt)
  {
  }

  /** The indented text of a printable element is read back as the element's tokens. */
  lemma {:induction false} FormattedLexes(s: string, pos: nat, e: Element, indent: nat, offset: nat,
                                          fmt: Double -> string, n: nat)
    requires FormattedSpan(s, pos, e, indent, offset, fmt) == Some(n)
    ensures LexesTo(s, pos, ValueTokens(e, fmt), n)
    decreases e, 2
  {
    match e
    case Arr(items) => FormattedArrayLexes(s, pos, items, indent, offset, fmt, n);
    case Obj(ms) => FormattedObjectLexes(s, pos, ms, indent, offset, fmt, n);
    case _ =>
      assert Formatted(e, indent, offset, fmt) == Compact(e, fmt);
      ScalarLexes(s, pos, e, fmt, n);
  }

  /** `[\n`, the item lines, then the indented `]`; or `[]` when there are no items. */
  lemma {:induction false} FormattedArrayLexes(s: string, pos: nat, items: seq<Element>, indent: nat, offset: nat,
                                               fmt: Double -> string, n: nat)
    requires FormattedSpan(s, pos, Arr(items), indent, offset, fmt) == Some(n)
    ensures LexesTo(s, pos, ValueTokens(Arr(items), fmt), n)
    decreases items, 2
  {
    var open, close := PunctToken(LBracket, '['), PunctToken(RBracket, ']');
    if items == [] {
      PairLexes(s, pos, "[]", '[', LBracket, ']', RBracket, n);
      assert ValueTokens(Arr(items), fmt) == [open, close];
    } else {
      var k := FormattedArraySplit(s, pos, items, indent, offset, fmt, n);
      FormattedItemsLexes(s, pos + 2, items, indent, offset, fmt, k);
      LexesToJoin(s, pos, [open], pos + 2, ItemsTokens(items, fmt), k);
      LexesToJoin(s, pos, [open] + ItemsTokens(items, fmt), k, [close], n);
    }
  }

  lemma {:induction false} FormattedArraySplit(s: string, pos: nat, items: seq<Element>, indent: nat, offset: nat,
                                               fmt: Double -> string, n: nat)
    returns (k: nat)
    requires items != [] && FormattedSpan(s, pos, Arr(items), indent, offset, fmt) == Some(n)
    ensures LexesTo(s, pos, [PunctToken(LBracket, '[')], pos + 2)
    ensures FormattedItemsSpan(s, pos + 2, items, indent, offset, fmt) == Some(k)
    ensures LexesTo(s, k, [PunctToken(RBracket, ']')], n)
  {
    var body := FormattedItems(items, indent, offset, fmt);
    SplitBlock(s, pos, Formatted(Arr(items), indent, offset, fmt), '[', '\n', LBracket, body, Indents(indent),
               ']', RBracket, n);
    k := pos + 2 + |body|;
  }

  /** The item lines: each item after `indent + offset` spaces, then `,` and a line break, or a line break alone. */
  lemma {:induction false} FormattedItemsLexes(s: string, pos: nat, items: seq<Element>, indent: nat, offset: nat,
                                               fmt: Double -> string, n: nat)
    requires FormattedItemsSpan(s, pos, items, indent, offset, fmt) == Some(n)
    ensures LexesTo(s, pos, ItemsTokens(items, fmt), n)
    decreases items, 1
  {
    if items != [] {
      FormattedItemsTailStart(items, indent, offset, fmt);
      var m := FormattedItemLexes(s, pos, Indents(indent + offset), items[0], indent + offset, offset, fmt,
                                  FormattedItemsTail(items, indent, offset, fmt), n);
      if |items| == 1 {
        FormattedItemsLast(s, pos, items, indent, offset, fmt, m, n);
      } else {
        FormattedItemsMore(s, pos, items, indent, offset, fmt, m, n);
      }
    }
  }

  lemma FormattedItemsLast(s: string, pos: nat, items: seq<Element>, indent: nat, offset: nat,
                           fmt: Double -> string, m: nat, n: nat)
    requires |items| == 1 && LexesTo(s, pos, ValueTokens(items[0], fmt), m)
    requires Stretch(s, m, FormattedItemsTail(items, indent, offset, fmt)) == Some(n)
    ensures LexesTo(s, pos, ItemsTokens(items, fmt), n)
  {
    var head := ValueTokens(items[0], fmt);
    LineBreakLexes(s, m, FormattedItemsTail(items, indent, offset, fmt), n);
    LexesToBeforeBlank(s, pos, head, m, n);
    assert head + [] == head;
    assert ItemsTokens(items, fmt) == head;
  }

  lemma {:induction false} FormattedItemsMore(s: string, pos: nat, items: seq<Element>, indent: nat, offset: nat,
                                              fmt: Double -> string, m: nat, n: nat)
    requires |items| > 1 && ItemsPrintable(items, fmt) && LexesTo(s, pos, ValueTokens(items[0], fmt), m)
    requires Stretch(s, m, FormattedItemsTail(items, indent, offset, fmt)) == Some(n)
    ensures LexesTo(s, pos, ItemsTokens(items, fmt), n)
    decreases items, 0
  {
    FormattedItemsNext(s, m, items, indent, offset, fmt, n);
    FormattedItemsLexes(s, m + 2, items[1..], indent, offset, fmt, n);
    ItemsJoin(s, pos, items, fmt, m, n);
  }

  /** One item line: the spaces `lead`, then the item indented by `indent`. */
  lemma {:induction false} FormattedItemLexes(s: string, pos: nat, lead: string, e: Element, indent: nat, offset: nat,
                                              fmt: Double -> string, tail: string, n: nat)
    returns (m: nat)
    requires Printable(e, fmt) && |tail| > 0 && Delimits(tail[0]) && forall i :: 0 <= i < |lead| ==> lead[i] == ' '
    requires Stretch(s, pos, lead + Formatted(e, indent, offset, fmt) + tail) == Some(n)
    ensures LexesTo(s, pos, ValueTokens(e, fmt), m)
    ensures Stretch(s, m, tail) == Some(n)
    decreases e, 4
  {
    var v := Formatted(e, indent, offset, fmt);
    SplitIndentedText(s, pos, lead + v + tail, lead, v, tail, n);
    m := pos + |lead| + |v|;
    ItemAfterLead(s, pos, lead, e, indent, offset, fmt, m);
  }

  lemma {:induction false} ItemAfterLead(s: string, pos: nat, lead: string, e: Element, indent: nat, offset: nat,
                                         fmt: Double -> string, m: nat)
    requires Printable(e, fmt) && SliceAt(s, pos, lead) && forall i :: 0 <= i < |lead| ==> lead[i] == ' '
    requires Delimited(s, pos + |lead|, Formatted(e, indent, offset, fmt)) == Some(m)
    ensures LexesTo(s, pos, ValueTokens(e, fmt), m)
    decreases e, 3
  {
    LexesToBlank(s, pos, lead);
    FormattedLexes(s, pos + |lead|, e, indent, offset, fmt, m);
    LexesToAfterBlank(s, pos, pos + |lead|, ValueTokens(e, fmt), m);
  }

  lemma {:induction false} FormattedItemsNext(s: string, m: nat, items: seq<Element>, indent: nat, offset: nat,
                                              fmt: Double -> string, n: nat)
    requires |items| > 1 && ItemsPrintable(items, fmt)
    requires Stretch(s, m, FormattedItemsTail(items, indent, offset, fmt)) == Some(n)
    ensures LexesTo(s, m, [PunctToken(Comma, ',')], m + 2)
    ensures FormattedItemsSpan(s, m + 2, items[1..], indent, offset, fmt) == Some(n)
  {
    CommaThenBlank(s, m, FormattedItemsTail(items, indent, offset, fmt), '\n',
                   FormattedItems(items[1..], indent, offset, fmt), n);
  }

  /** `{\n`, the member lines, then the indented `}`; or `{}` when there are no members. */
  lemma {:induction false} FormattedObjectLexes(s: string, pos: nat, ms: seq<Member>, indent: nat, offset: nat,
                                                fmt: Double -> string, n: nat)
    requires FormattedSpan(s, pos, Obj(ms), indent, offset, fmt) == Some(n)
    ensures LexesTo(s, pos, ValueTokens(Obj(ms), fmt), n)
    decreases ms, 2
  {
    var open, close := PunctToken(LBrace, '{'), PunctToken(RBrace, '}');
    if ms == [] {
      PairLexes(s, pos, "{}", '{', LBrace, '}', RBrace, n);
      assert ValueTokens(Obj(ms), fmt) == [open, close];
    } else {
      var k := FormattedObjectSplit(s, pos, ms, indent, offset, fmt, n);
      FormattedMembersLexes(s, pos + 2, ms, indent, offset, fmt, k);
      LexesToJoin(s, pos, [open], pos + 2, MembersTokens(ms, fmt), k);
      LexesToJoin(s, pos, [open] + MembersTokens(ms, fmt), k, [close], n);
    }
  }

  lemma {:induction false} FormattedObjectSplit(s: string, pos: nat, ms: seq<Member>, indent: nat, offset: nat,
                                                fmt: Double -> string, n: nat)
    returns (k: nat)
    requires ms != [] && FormattedSpan(s, pos, Obj(ms), indent, offset, fmt) == Some(n)
    ensures LexesTo(s, pos, [PunctToken(LBrace, '{')], pos + 2)
    ensures FormattedMembersSpan(s, pos + 2, ms, indent, offset, fmt) == Some(k)
    ensures LexesTo(s, k, [PunctToken(RBrace, '}')], n)
  {
    var body := FormattedMembers(ms, indent, offset, fmt);
    SplitBlock(s, pos, Formatted(Obj(ms), indent, offset, fmt), '{', '\n', LBrace, body, Indents(indent),
               '}', RBrace, n);
    k := pos + 2 + |body|;
  }

  /** The member lines: each `"key": value` after `indent + offset` spaces, then `,` and a line break, or a line break alone. */
  lemma {:induction false} FormattedMembersLexes(s: string, pos: nat, ms: seq<Member>, indent: nat, offset: nat,
                                                 fmt: Double -> string, n: nat)
    requires FormattedMembersSpan(s, pos, ms, indent, offset, fmt) == Some(n)
    ensures LexesTo(s, pos, MembersTokens(ms, fmt), n)
    decreases ms, 1
  {
    if ms != [] {
      FormattedMembersTailStart(ms, indent, offset, fmt);
      assert MembersPrintable(ms, fmt) && Stretch(s, pos, FormattedMembers(ms, indent, offset, fmt)) == Some(n);
      assert StringSafe(ms[0].key) && Printable(ms[0].value, fmt);
      var m := FormattedMemberLexes(s, pos, Indents(indent + offset), ms[0].key, ms[0].value, indent + offset, offset,
                                    fmt, FormattedMembersTail(ms, indent, offset, fmt), n);
      if |ms| == 1 {
        FormattedMembersLast(s, pos, ms, indent, offset, fmt, m, n);
      } else {
        FormattedMembersMore(s, pos, ms, indent, offset, fmt, m, n);
      }
    }
  }

  lemma FormattedMembersLast(s: string, pos: nat, ms: seq<Member>, indent: nat, offset: nat,
                             fmt: Double -> string, m: nat, n: nat)
    requires |ms| == 1 && LexesTo(s, pos, MemberTokens(ms[0], fmt), m)
    requires Stretch(s, m, FormattedMembersTail(ms, indent, offset, fmt)) == Some(n)
    ensures LexesTo(s, pos, MembersTokens(ms, fmt), n)
  {
    var head := MemberTokens(ms[0], fmt);
    LineBreakLexes(s, m, FormattedMembersTail(ms, indent, offset, fmt), n);
    LexesToBeforeBlank(s, pos, head, m, n);
    assert head + [] == head;
    assert MembersTokens(ms, fmt) == head;
  }

  lemma {:induction false} FormattedMembersMore(s: string, pos: nat, ms: seq<Member>, indent: nat, offset: nat,
                                                fmt: Double -> string, m: nat, n: nat)
    requires |ms| > 1 && MembersPrintable(ms, fmt) && LexesTo(s, pos, MemberTokens(ms[0], fmt), m)
    requires Stretch(s, m, FormattedMembersTail(ms, indent, offset, fmt)) == Some(n)
    ensures LexesTo(s, pos, MembersTokens(ms, fmt), n)
    decreases ms, 0
  {
    FormattedMembersNext(s, m, ms, indent, offset, fmt, n);
    FormattedMembersLexes(s, m + 2, ms[1..], indent, offset, fmt, n);
    MembersJoin(s, pos, ms, fmt, m, n);
  }

  /** One member line: the spaces `lead`, the quoted key and `: `, then the value indented by `indent`. */
  lemma {:induction false} FormattedMemberLexes(s: string, pos: nat, lead: string, key: string, e: Element,
                                                indent: nat, offset: nat, fmt: Double -> string, tail: string, n: nat)
    returns (m: nat)
    requires StringSafe(key) && Printable(e, fmt) && forall i :: 0 <= i < |lead| ==> lead[i] == ' '
    requires |tail| > 0 && Delimits(tail[0])
    requires Stretch(s, pos, lead + Quote(key) + ": " + Formatted(e, indent, offset, fmt) + tail) == Some(n)
    ensures LexesTo(s, pos, [RenderTokens.StringToken(key), PunctToken(Colon, ':')] + ValueTokens(e, fmt), m)
    ensures Stretch(s, m, tail) == Some(n)
    decreases e, 3
  {
    var a;
    a, m := FormattedMemberText(s, pos, lead, key, e, indent, offset, fmt, tail, n);
    LeadKeyLexes(s, pos, lead, key);
    FormattedLexes(s, a, e, indent, offset, fmt, m);
    LexesToJoin(s, pos, [RenderTokens.StringToken(key), PunctToken(Colon, ':')], a, ValueTokens(e, fmt), m);
  }

  lemma FormattedMemberText(s: string, pos: nat, lead: string, key: string, e: Element,
                            indent: nat, offset: nat, fmt: Double -> string, tail: string, n: nat)
    returns (a: nat, m: nat)
    requires Printable(e, fmt) && |tail| > 0 && Delimits(tail[0])
    requires Stretch(s, pos, lead + Quote(key) + ": " + Formatted(e, indent, offset, fmt) + tail) == Some(n)
    ensures SliceAt(s, pos, lead + Quote(key) + ": ") && a == pos + |lead| + |key| + 4
    ensures FormattedSpan(s, a, e, indent, offset, fmt) == Some(m) && Stretch(s, m, tail) == Some(n)
  {
    var v := Formatted(e, indent, offset, fmt);
    SplitIndentedText(s, pos, lead + Quote(key) + ": " + v + tail, lead + Quote(key) + ": ", v, tail, n);
    a := pos + |lead + Quote(key) + ": "|;
    m := a + |v|;
  }

  lemma {:induction false} FormattedMembersNext(s: string, m: nat, ms: seq<Member>, indent: nat, offset: nat,
                                                fmt: Double -> string, n: nat)
    requires |ms| > 1 && MembersPrintable(ms, fmt)
    requires Stretch(s, m, FormattedMembersTail(ms, indent, offset, fmt)) == Some(n)
    ensures LexesTo(s, m, [PunctToken(Comma, ',')], m + 2)
    ensures FormattedMembersSpan(s, m + 2, ms[1..], indent, offset, fmt) == Some(n)
  {
    CommaThenBlank(s, m, FormattedMembersTail(ms, indent, offset, fmt), '\n',
                   FormattedMembers(ms[1..], indent, offset, fmt), n);
  }

  // ------------------------------------------------------------- compact form

  function CompactSpan(s: string, pos: nat, e: Element, fmt: Double -> string): Option<nat> {
    if Printable(e, fmt) then Delimited(s, pos, CompactFixed(e, fmt)) else None
  }

  function CompactItemsSpan(s: string, pos: nat, items: seq<Element>, fmt: Double -> string): Option<nat> {
    if ItemsPrintable(items, fmt) then Stretch(s, pos, CompactFixedItems(items, fmt)) else None
  }

  function CompactMembersSpan(s: string, pos: nat, ms: seq<Member>, fmt: Double -> string): Option<nat> {
    if MembersPrintable(ms, fmt) then Stretch(s, pos, CompactFixedMembers(ms, fmt)) else None
  }

  /** What follows a child: `, ` and the next child, or ` ]` / ` }` after the last. */
  function CompactItemsTail(items: seq<Element>, fmt: Double -> string): string
    requires items != []
  {
    if |items| > 1 then ", " + CompactFixedItems(items[1..], fmt) else " ]"
  }

  function CompactMembersTail(ms: seq<Member>, fmt: Double -> string): string
    requires ms != []
  {
    if |ms| > 1 then ", " + CompactFixedMembers(ms[1..], fmt) else " }"
  }

  lemma CompactItemsTailStart(items: seq<Element>, fmt: Double -> string)
    requires items != []
    ensures var t := CompactItemsTail(items, fmt); |t| > 0 && Delimits(t[0])
    ensures CompactFixedItems(items, fmt) == CompactFixed(items[0], fmt) + CompactItemsTail(items, fmt)
  {
  }

  lemma CompactMembersTailStart(ms: seq<Member>, fmt: Double -> string)
    requires ms != []
    ensures var t := CompactMembersTail(ms, fmt); |t| > 0 && Delimits(t[0])
    ensures CompactFixedMembers(ms, fmt)
            == Quote(ms[0].key) + ": " + CompactFixed(ms[0].value, fmt) + CompactMembersTail(ms, fmt)
  {
  }

  /** The compact text, empty containers closed, of a printable element is read back as the element's tokens. */
  lemma {:induction false} CompactLexes(s: string, pos: nat, e: Element, fmt: Double -> string, n: nat)
    requires CompactSpan(s, pos, e, fmt) == Some(n)
    ensures LexesTo(s, pos, ValueTokens(e, fmt), n)
    decreases e, 2
  {
    match e
    case Arr(items) => CompactArrayLexes(s, pos, items, fmt, n);
    case Obj(ms) => CompactObjectLexes(s, pos, ms, fmt, n);
    case _ =>
      assert CompactFixed(e, fmt) == Compact(e, fmt);
      ScalarLexes(s, pos, e, fmt, n);
  }

  /** `[ ` and the items, the last one followed by ` ]`; or `[]`. */
  lemma {:induction false} CompactArrayLexes(s: string, pos: nat, items: seq<Element>, fmt: Double -> string, n: nat)
    requires CompactSpan(s, pos, Arr(items), fmt) == Some(n)
    ensures LexesTo(s, pos, ValueTokens(Arr(items), fmt), n)
    decreases items, 2
  {
    var open, close := PunctToken(LBracket, '['), PunctToken(RBracket, ']');
    if items == [] {
      PairLexes(s, pos, "[]", '[', LBracket, ']', RBracket, n);
      assert ValueTokens(Arr(items), fmt) == [open, close];
    } else {
      SplitOpen(s, pos, CompactFixed(Arr(items), fmt), '[', ' ', LBracket, CompactFixedItems(items, fmt), n);
      CompactItemsLexes(s, pos + 2, items, fmt, n);
      LexesToJoin(s, pos, [open], pos + 2, ItemsTokens(items, fmt) + [close], n);
      assert ValueTokens(Arr(items), fmt) == [open] + (ItemsTokens(items, fmt) + [close]);
    }
  }

  /** Each item, then `, ` before the next one or ` ]` after the last. */
  lemma {:induction false} CompactItemsLexes(s: string, pos: nat, items: seq<Element>, fmt: Double -> string, n: nat)
    requires items != [] && CompactItemsSpan(s, pos, items, fmt) == Some(n)
    ensures LexesTo(s, pos, ItemsTokens(items, fmt) + [PunctToken(RBracket, ']')], n)
    decreases items, 1
  {
    CompactItemsTailStart(items, fmt);
    var m := CompactItemText(s, pos, items[0], fmt, CompactItemsTail(items, fmt), n);
    CompactLexes(s, pos, items[0], fmt, m);
    if |items| == 1 {
      CompactItemsLast(s, pos, items, fmt, m, n);
    } else {
      CompactItemsMore(s, pos, items, fmt, m, n);
    }
  }

  lemma CompactItemsLast(s: string, pos: nat, items: seq<Element>, fmt: Double -> string, m: nat, n: nat)
    requires |items| == 1 && LexesTo(s, pos, ValueTokens(items[0], fmt), m)
    requires Stretch(s, m, CompactItemsTail(items, fmt)) == Some(n)
    ensures LexesTo(s, pos, ItemsTokens(items, fmt) + [PunctToken(RBracket, ']')], n)
  {
    var head := ValueTokens(items[0], fmt);
    SpaceThenCloser(s, m, CompactItemsTail(items, fmt), ']', RBracket, n);
    LexesToJoin(s, pos, head, m, [PunctToken(RBracket, ']')], n);
    assert head + [] == head;
    assert ItemsTokens(items, fmt) == head;
  }

  lemma {:induction false} CompactItemsMore(s: string, pos: nat, items: seq<Element>, fmt: Double -> string,
                                            m: nat, n: nat)
    requires |items| > 1 && ItemsPrintable(items, fmt) && LexesTo(s, pos, ValueTokens(items[0], fmt), m)
    requires Stretch(s, m, CompactItemsTail(items, fmt)) == Some(n)
    ensures LexesTo(s, pos, ItemsTokens(items, fmt) + [PunctToken(RBracket, ']')], n)
    decreases items, 0
  {
    CompactItemsNext(s, m, items, fmt, n);
    CompactItemsLexes(s, m + 2, items[1..], fmt, n);
    ItemsJoinThen(s, pos, items, fmt, m, [PunctToken(RBracket, ']')], n);
  }

  /** One item, followed by a piece starting with a delimiter. */
  lemma CompactItemText(s: string, pos: nat, e: Element, fmt: Double -> string, tail: string, n: nat)
    returns (m: nat)
    requires Printable(e, fmt) && |tail| > 0 && Delimits(tail[0])
    requires Stretch(s, pos, CompactFixed(e, fmt) + tail) == Some(n)
    ensures CompactSpan(s, pos, e, fmt) == Some(m) && Stretch(s, m, tail) == Some(n)
  {
    SplitBeforeDelimiter(s, pos, CompactFixed(e, fmt) + tail, CompactFixed(e, fmt), tail, n);
    m := pos + |CompactFixed(e, fmt)|;
  }

  lemma {:induction false} CompactItemsNext(s: string, m: nat, items: seq<Element>, fmt: Double -> string, n: nat)
    requires |items| > 1 && ItemsPrintable(items, fmt) && Stretch(s, m, CompactItemsTail(items, fmt)) == Some(n)
    ensures LexesTo(s, m, [PunctToken(Comma, ',')], m + 2)
    ensures CompactItemsSpan(s, m + 2, items[1..], fmt) == Some(n)
  {
    CommaThenBlank(s, m, CompactItemsTail(items, fmt), ' ', CompactFixedItems(items[1..], fmt), n);
  }

  /** `{ ` and the members, the last one followed by ` }`; or `{}`. */
  lemma {:induction false} CompactObjectLexes(s: string, pos: nat, ms: seq<Member>, fmt: Double -> string, n: nat)
    requires CompactSpan(s, pos, Obj(ms), fmt) == Some(n)
    ensures LexesTo(s, pos, ValueTokens(Obj(ms), fmt), n)
    decreases ms, 2
  {
    var open, close := PunctToken(LBrace, '{'), PunctToken(RBrace, '}');
    if ms == [] {
      PairLexes(s, pos, "{}", '{', LBrace, '}', RBrace, n);
      assert ValueTokens(Obj(ms), fmt) == [open, close];
    } else {
      SplitOpen(s, pos, CompactFixed(Obj(ms), fmt), '{', ' ', LBrace, CompactFixedMembers(ms, fmt), n);
      CompactMembersLexes(s, pos + 2, ms, fmt, n);
      LexesToJoin(s, pos, [open], pos + 2, MembersTokens(ms, fmt) + [close], n);
      assert ValueTokens(Obj(ms), fmt) == [open] + (MembersTokens(ms, fmt) + [close]);
    }
  }

  /** Each `"key": value`, then `, ` before the next member or ` }` after the last. */
  lemma {:induction false} CompactMembersLexes(s: string, pos: nat, ms: seq<Member>, fmt: Double -> string, n: nat)
    requires ms != [] && CompactMembersSpan(s, pos, ms, fmt) == Some(n)
    ensures LexesTo(s, pos, MembersTokens(ms, fmt) + [PunctToken(RBrace, '}')], n)
    decreases ms, 1
  {
    CompactMembersTailStart(ms, fmt);
    var m := CompactMemberLexes(s, pos, ms[0].key, ms[0].value, fmt, CompactMembersTail(ms, fmt), n);
    if |ms| == 1 {
      CompactMembersLast(s, pos, ms, fmt, m, n);
    } else {
      CompactMembersMore(s, pos, ms, fmt, m, n);
    }
  }

  lemma CompactMembersLast(s: string, pos: nat, ms: seq<Member>, fmt: Double -> string, m: nat, n: nat)
    requires |ms| == 1 && LexesTo(s, pos, MemberTokens(ms[0], fmt), m)
    requires Stretch(s, m, CompactMembersTail(ms, fmt)) == Some(n)
    ensures LexesTo(s, pos, MembersTokens(ms, fmt) + [PunctToken(RBrace, '}')], n)
  {
    var head := MemberTokens(ms[0], fmt);
    SpaceThenCloser(s, m, CompactMembersTail(ms, fmt), '}', RBrace, n);
    LexesToJoin(s, pos, head, m, [PunctToken(RBrace, '}')], n);
    assert head + [] == head;
    assert MembersTokens(ms, fmt) == head;
  }

  lemma {:induction false} CompactMembersMore(s: string, pos: nat, ms: seq<Member>, fmt: Double -> string,
                                              m: nat, n: nat)
    requires |ms| > 1 && MembersPrintable(ms, fmt) && LexesTo(s, pos, MemberTokens(ms[0], fmt), m)
    requires Stretch(s, m, CompactMembersTail(ms, fmt)) == Some(n)
    ensures LexesTo(s, pos, MembersTokens(ms, fmt) + [PunctToken(RBrace, '}')], n)
    decreases ms, 0
  {
    CompactMembersNext(s, m, ms, fmt, n);
    CompactMembersLexes(s, m + 2, ms[1..], fmt, n);
    MembersJoinThen(s, pos, ms, fmt, m, [PunctToken(RBrace, '}')], n);
  }

  /** One member: the quoted key and `: `, then the value. */
  lemma {:induction false} CompactMemberLexes(s: string, pos: nat, key: string, e: Element, fmt: Double -> string,
                                              tail: string, n: nat)
    returns (m: nat)
    requires StringSafe(key) && Printable(e, fmt) && |tail| > 0 && Delimits(tail[0])
    requires Stretch(s, pos, Quote(key) + ": " + CompactFixed(e, fmt) + tail) == Some(n)
    ensures LexesTo(s, pos, [RenderTokens.StringToken(key), PunctToken(Colon, ':')] + ValueTokens(e, fmt), m)
    ensures Stretch(s, m, tail) == Some(n)
    decreases e, 3
  {
    var a;
    a, m := CompactMemberText(s, pos, key, e, fmt, tail, n);
    KeyLexes(s, pos, key);
    CompactLexes(s, a, e, fmt, m);
    LexesToJoin(s, pos, [RenderTokens.StringToken(key), PunctToken(Colon, ':')], a, ValueTokens(e, fmt), m);
  }

  lemma CompactMemberText(s: string, pos: nat, key: string, e: Element, fmt: Double -> string, tail: string, n: nat)
    returns (a: nat, m: nat)
    requires Printable(e, fmt) && |tail| > 0 && Delimits(tail[0])
    requires Stretch(s, pos, Quote(key) + ": " + CompactFixed(e, fmt) + tail) == Some(n)
    ensures SliceAt(s, pos, Quote(key) + ": ") && a == pos + |key| + 4
    ensures CompactSpan(s, a, e, fmt) == Some(m) && Stretch(s, m, tail) == Some(n)
  {
    var v := CompactFixed(e, fmt);
    SplitIndentedText(s, pos, Quote(key) + ": " + v + tail, Quote(key) + ": ", v, tail, n);
    a := pos + |Quote(key) + ": "|;
    m := a + |v|;
  }

  lemma {:induction false} CompactMembersNext(s: string, m: nat, ms: seq<Member>, fmt: Double -> string, n: nat)
    requires |ms| > 1 && MembersPrintable(ms, fmt) && Stretch(s, m, CompactMembersTail(ms, fmt)) == Some(n)
    ensures LexesTo(s, m, [PunctToken(Comma, ',')], m + 2)
    ensures CompactMembersSpan(s, m + 2, ms[1..], fmt) == Some(n)
  {
    CommaThenBlank(s, m, CompactMembersTail(ms, fmt), ' ', CompactFixedMembers(ms[1..], fmt), n);
  }

  // ------------------------------------------------------------- round trips

  /** Text that lexes, as a whole, to `ts` is parsed as `ts` followed by END_OF_FILE. */
  lemma ParseWholeText(s: string, ts: seq<Token>)
    requires LexesTo(s, 0, ts, |s|)
    ensures ParseJson(s) == ParseLexed(Ok(ts + [EofToken]))
  {
    LexesToEnd(s, 0, ts);
  }

  /**
   * `ToString(indent)` of a well-formed object or array whose strings and
   * numbers print readably parses back to the element, each number being
   * what `atof` reads from its printed text.
   */
  lemma ParseIndented(e: Element, indent: nat, fmt: Double -> string)
    requires WellFormed(e) && (e.Obj? || e.Arr?) && Printable(e, fmt)
    ensures ParseJson(ToStringIndented(e, indent, fmt)) == Ok(Normalize(e, fmt))
  {
    var s := ToStringIndented(e, indent, fmt);
    assert s[0..|s|] == s;
    FormattedLexes(s, 0, e, 0, indent, fmt, |s|);
    ParseWholeText(s, ValueTokens(e, fmt));
    ParseRendered(e, fmt);
  }

  /** The same for the compact form once empty containers are closed. */
  lemma ParseCompactFixed(e: Element, fmt: Double -> string)
    requires WellFormed(e) && (e.Obj? || e.Arr?) && Printable(e, fmt)
    ensures ParseJson(CompactFixed(e, fmt)) == Ok(Normalize(e, fmt))
  {
    var s := CompactFixed(e, fmt);
    assert s[0..|s|] == s;
    CompactLexes(s, 0, e, fmt, |s|);
    ParseWholeText(s, ValueTokens(e, fmt));
    ParseRendered(e, fmt);
  }

  /** With numbers printed as the text they were read from, the indented form reproduces the element exactly. */
  lemma ParseIndentedExact(e: Element, indent: nat)
    requires WellFormed(e) && NullsUnboxed(e) && (e.Obj? || e.Arr?) && Printable(e, TextOf)
    ensures ParseJson(ToStringIndented(e, indent, TextOf)) == Ok(e)
  {
    ParseIndented(e, indent, TextOf);
    NormalizeTextOf(e);
  }

  /** As written, the compact form of an empty array is `[ `, which does not parse. */
  lemma CompactEmptyArrayUnreadable(fmt: Double -> string)
    ensures Compact(Arr([]), fmt) == "[ "
    ensures ParseJson(Compact(Arr([]), fmt)) == Err(ParseFailure(UnexpectedToken))
  {
    var s := Compact(Arr([]), fmt);
    assert s == ['['] + " ";
    PunctThenBlank(s, 0, '[', LBracket, " ");
    ParseWholeText(s, [PunctToken(LBracket, '[')]);
    var ts := [PunctToken(LBracket, '['), EofToken];
    assert [PunctToken(LBracket, '[')] + [EofToken] == ts;
    assert ts[1].tokenType == EndOfFile && ParseValue(ts, 2, ts[1]) == Err(UnexpectedToken);
    assert ParseRoot(ts) == ArrayLoop(ts, 1, []);
  }

  /** As written, the compact form of an empty object is `{ `, which does not parse. */
  lemma CompactEmptyObjectUnreadable(fmt: Double -> string)
    ensures Compact(Obj([]), fmt) == "{ "
    ensures ParseJson(Compact(Obj([]), fmt)) == Err(ParseFailure(ReadPastEnd))
  {
    var s := Compact(Obj([]), fmt);
    assert s == ['{'] + " ";
    PunctThenBlank(s, 0, '{', LBrace, " ");
    ParseWholeText(s, [PunctToken(LBrace, '{')]);
    var ts := [PunctToken(LBrace, '{'), EofToken];
    assert [PunctToken(LBrace, '{')] + [EofToken] == ts;
    assert ts[1].tokenType != RBrace && MemberAt(ts, 1) == Err(ReadPastEnd);
    assert ParseRoot(ts) == ObjectLoop(ts, 1, []);
  }
}
