/**
 * The tokens a serialised element reads back as, and what the parser builds
 * from them. Both serialisers differ only in whitespace, so both produce the
 * same tokens; the parser turns them back into the element, with each number
 * replaced by what `atof` makes of its printed text.
 */
module RenderTokens {
  import opened Wrappers
  import opened TokenTypes
  import opened Tokens
  import opened LexerSpec
  import opened LexerProperties
  import opened Elements
  import opened ParserSpec
  import opened Serializer
  import opened Slices

  function PunctToken(k: TokenType, c: char): Token {
    Token(k, [c], None)
  }

  function StringToken(s: string): Token {
    Token(StringLit, Quote(s), Some(StringLiteral(s)))
  }

  function NumberToken(w: string): Token {
    Token(NumberLit, w, Some(DoubleLiteral(Atof(w))))
  }

  function BoolToken(b: bool): Token {
    if b then Token(TrueLit, "true", Some(BoolLiteral(true))) else Token(FalseLit, "false", Some(BoolLiteral(false)))
  }

  const NullToken: Token := Token(NullLit, "null", None)

  /** The tokens of `e` printed with `fmt`: scalars are one token, containers are bracketed and comma separated. */
  function ValueTokens(e: Element, fmt: Double -> string): (ts: seq<Token>)
    ensures |ts| > 0
    decreases e, 1
  {
    match e
    case Null(_) => [NullToken]
    case Str(s) => [StringToken(s)]
    case Number(d) => [NumberToken(fmt(d))]
    case Bool(b) => [BoolToken(b)]
    case Arr(items) => [PunctToken(LBracket, '[')] + ItemsTokens(items, fmt) + [PunctToken(RBracket, ']')]
    case Obj(ms) => [PunctToken(LBrace, '{')] + MembersTokens(ms, fmt) + [PunctToken(RBrace, '}')]
  }

  function ItemsTokens(items: seq<Element>, fmt: Double -> string): seq<Token>
    decreases items, 0
  {
    if items == [] then []
    else ValueTokens(items[0], fmt)
         + (if |items| > 1 then [PunctToken(Comma, ',')] + ItemsTokens(items[1..], fmt) else [])
  }

  /** One member: its key, the colon, then its value's tokens. */
  function MemberTokens(m: Member, fmt: Double -> string): (ts: seq<Token>)
    ensures |ts| == 2 + |ValueTokens(m.value, fmt)|
    decreases m, 2
  {
    [StringToken(m.key), PunctToken(Colon, ':')] + ValueTokens(m.value, fmt)
  }

  function MembersTokens(ms: seq<Member>, fmt: Double -> string): seq<Token>
    decreases ms, 0
  {
    if ms == [] then []
    else MemberTokens(ms[0], fmt)
         + (if |ms| > 1 then [PunctToken(Comma, ',')] + MembersTokens(ms[1..], fmt) else [])
  }

  /**
   * `e` after printing with `fmt` and reading back: every number becomes
   * `atof` of its printed text, and every null loses its payload.
   */
  function Normalize(e: Element, fmt: Double -> string): (r: Element)
    ensures TypeOf(r) == TypeOf(e)
    decreases e, 1
  {
    match e
    case Number(d) => Number(Atof(fmt(d)))
    case Null(_) => Null(false)
    case Arr(items) => Arr(NormalizeItems(items, fmt))
    case Obj(ms) => Obj(NormalizeMembers(ms, fmt))
    case _ => e
  }

  function NormalizeItems(items: seq<Element>, fmt: Double -> string): (r: seq<Element>)
    ensures |r| == |items|
    decreases items, 0
  {
    if items == [] then [] else [Normalize(items[0], fmt)] + NormalizeItems(items[1..], fmt)
  }

  function NormalizeMembers(ms: seq<Member>, fmt: Double -> string): (r: seq<Member>)
    ensures |r| == |ms|
    decreases ms, 0
  {
    if ms == [] then [] else [Member(ms[0].key, Normalize(ms[0].value, fmt))] + NormalizeMembers(ms[1..], fmt)
  }

  /** Prints every number as the text it was read from, as a printer that loses nothing would. */
  function TextOf(d: Double): string {
    d.text
  }

  /** Printing numbers as their own text and reading them back changes nothing. */
  lemma {:induction false} NormalizeTextOf(e: Element)
    requires NullsUnboxed(e)
    ensures Normalize(e, TextOf) == e
    decreases e, 1
  {
    match e
    case Arr(items) => NormalizeItemsTextOf(items);
    case Obj(ms) => NormalizeMembersTextOf(ms);
    case _ =>
  }

  lemma {:induction false} NormalizeItemsTextOf(items: seq<Element>)
    requires forall i :: 0 <= i < |items| ==> NullsUnboxed(items[i])
    ensures NormalizeItems(items, TextOf) == items
    decreases items, 0
  {
    if items != [] {
      NormalizeTextOf(items[0]);
      NormalizeItemsTextOf(items[1..]);
      assert items == [items[0]] + items[1..];
    }
  }

  lemma {:induction false} NormalizeMembersTextOf(ms: seq<Member>)
    requires forall i :: 0 <= i < |ms| ==> NullsUnboxed(ms[i].value)
    ensures NormalizeMembers(ms, TextOf) == ms
    decreases ms, 0
  {
    if ms != [] {
      NormalizeTextOf(ms[0].value);
      NormalizeMembersTextOf(ms[1..]);
      assert ms == [ms[0]] + ms[1..];
    }
  }

  // ------------------------------------------------------------- keys

  lemma {:induction false} KeysAppend(a: seq<Member>, b: seq<Member>)
    ensures Keys(a + b) == Keys(a) + Keys(b)
  {
    if a != [] {
      KeysAppend(a[1..], b);
      assert (a + b)[1..] == a[1..] + b;
    } else {
      assert a + b == b;
    }
  }

  lemma {:induction false} NormalizeMembersKeys(ms: seq<Member>, fmt: Double -> string)
    ensures Keys(NormalizeMembers(ms, fmt)) == Keys(ms)
  {
    if ms != [] {
      NormalizeMembersKeys(ms[1..], fmt);
    }
  }

  // ------------------------------------------------------------- layout

  /**
   * Where the tokens of a well-formed `e` end when they lie in `ts` from
   * `start` on; `None` when they do not lie there or `e` is not well formed.
   */
  function ValueSpan(ts: seq<Token>, start: nat, e: Element, fmt: Double -> string): Option<nat> {
    if WellFormed(e) && SliceAt(ts, start, ValueTokens(e, fmt)) then Some(start + |ValueTokens(e, fmt)|) else None
  }

  /** Where the tokens of `items` and the closing `]` after them end, when they lie in `ts` from `start` on. */
  function ItemsSpan(ts: seq<Token>, start: nat, items: seq<Element>, fmt: Double -> string): Option<nat> {
    if ItemsWellFormed(items) && SliceAt(ts, start, ItemsTokens(items, fmt) + [PunctToken(RBracket, ']')])
    then Some(start + |ItemsTokens(items, fmt)| + 1)
    else None
  }

  /** Where the tokens of one member end, when they lie in `ts` from `start` on. */
  function MemberSpan(ts: seq<Token>, start: nat, m: Member, fmt: Double -> string): Option<nat> {
    if WellFormed(m.value) && SliceAt(ts, start, MemberTokens(m, fmt)) then Some(start + |MemberTokens(m, fmt)|) else None
  }

  /** Where the tokens of `ms` and the closing `}` after them end, when they lie in `ts` from `start` on. */
  function MembersSpan(ts: seq<Token>, start: nat, ms: seq<Member>, fmt: Double -> string): Option<nat> {
    if MembersWellFormed(ms) && SliceAt(ts, start, MembersTokens(ms, fmt) + [PunctToken(RBrace, '}')])
    then Some(start + |MembersTokens(ms, fmt)| + 1)
    else None
  }

  /** A value's span starts with its first token. */
  lemma {:induction false} ValueSpanFirst(ts: seq<Token>, start: nat, e: Element, fmt: Double -> string, n: nat)
    requires ValueSpan(ts, start, e, fmt) == Some(n)
    ensures start < n <= |ts| && ts[start] == ValueTokens(e, fmt)[0]
  {
    SliceAtIndex(ts, start, ValueTokens(e, fmt), 0);
  }

  /** An array's span: the opener, then the span of its items and the closer. */
  lemma {:induction false} ArraySpan(ts: seq<Token>, start: nat, items: seq<Element>, fmt: Double -> string, n: nat)
    requires ValueSpan(ts, start, Arr(items), fmt) == Some(n)
    ensures start < |ts| && ts[start] == PunctToken(LBracket, '[')
    ensures ItemsSpan(ts, start + 1, items, fmt) == Some(n)
  {
    var body := ItemsTokens(items, fmt) + [PunctToken(RBracket, ']')];
    assert ValueTokens(Arr(items), fmt) == [PunctToken(LBracket, '[')] + body;
    SliceAtConcat(ts, start, [PunctToken(LBracket, '[')], body);
    SliceAtIndex(ts, start, [PunctToken(LBracket, '[')], 0);
  }

  /** An object's span: the opener, then the span of its members and the closer; its keys are distinct. */
  lemma {:induction false} ObjectSpan(ts: seq<Token>, start: nat, ms: seq<Member>, fmt: Double -> string, n: nat)
    requires ValueSpan(ts, start, Obj(ms), fmt) == Some(n)
    ensures start < |ts| && ts[start] == PunctToken(LBrace, '{')
    ensures MembersSpan(ts, start + 1, ms, fmt) == Some(n) && DistinctKeys(ms)
  {
    var body := MembersTokens(ms, fmt) + [PunctToken(RBrace, '}')];
    assert ValueTokens(Obj(ms), fmt) == [PunctToken(LBrace, '{')] + body;
    SliceAtConcat(ts, start, [PunctToken(LBrace, '{')], body);
    SliceAtIndex(ts, start, [PunctToken(LBrace, '{')], 0);
  }

  /** No items: the span is the closer alone. */
  lemma {:induction false} ItemsSpanEmpty(ts: seq<Token>, start: nat, fmt: Double -> string, n: nat)
    requires ItemsSpan(ts, start, [], fmt) == Some(n)
    ensures n == start + 1 && start < |ts| && ts[start] == PunctToken(RBracket, ']')
  {
    SliceAtIndex(ts, start, ItemsTokens([], fmt) + [PunctToken(RBracket, ']')], 0);
  }

  /** No members: the span is the closer alone. */
  lemma {:induction false} MembersSpanEmpty(ts: seq<Token>, start: nat, fmt: Double -> string, n: nat)
    requires MembersSpan(ts, start, [], fmt) == Some(n)
    ensures n == start + 1 && start < |ts| && ts[start] == PunctToken(RBrace, '}')
  {
    SliceAtIndex(ts, start, MembersTokens([], fmt) + [PunctToken(RBrace, '}')], 0);
  }

  /** One item: its span, then the closer, which ends at `last + 1`. */
  lemma {:induction false} ItemsSpanLast(ts: seq<Token>, start: nat, e: Element, fmt: Double -> string, n: nat)
    returns (last: nat)
    requires ItemsSpan(ts, start, [e], fmt) == Some(n)
    ensures ValueSpan(ts, start, e, fmt) == Some(last)
    ensures n == last + 1 && last < |ts| && ts[last] == PunctToken(RBracket, ']')
  {
    assert ItemsTokens([e], fmt) == ValueTokens(e, fmt);
    assert [e][0] == e;
    SliceAtConcat(ts, start, ValueTokens(e, fmt), [PunctToken(RBracket, ']')]);
    last := start + |ValueTokens(e, fmt)|;
    SliceAtIndex(ts, last, [PunctToken(RBracket, ']')], 0);
  }

  /** One member: its span, then the closer, which ends at `last + 1`. */
  lemma {:induction false} MembersSpanLast(ts: seq<Token>, start: nat, m: Member, fmt: Double -> string, n: nat)
    returns (last: nat)
    requires MembersSpan(ts, start, [m], fmt) == Some(n)
    ensures MemberSpan(ts, start, m, fmt) == Some(last)
    ensures n == last + 1 && last < |ts| && ts[last] == PunctToken(RBrace, '}')
  {
    assert MembersTokens([m], fmt) == MemberTokens(m, fmt);
    assert [m][0] == m;
    SliceAtConcat(ts, start, MemberTokens(m, fmt), [PunctToken(RBrace, '}')]);
    last := start + |MemberTokens(m, fmt)|;
    SliceAtIndex(ts, last, [PunctToken(RBrace, '}')], 0);
  }

  /** Several items: the first one's span ends at a comma, and the rest's span follows it. */
  lemma {:induction false} ItemsSpanFirst(ts: seq<Token>, start: nat, items: seq<Element>, fmt: Double -> string,
                                          n: nat)
    returns (next: nat)
    requires |items| > 1 && ItemsSpan(ts, start, items, fmt) == Some(n)
    ensures ValueSpan(ts, start, items[0], fmt) == Some(next)
    ensures next < |ts| && ts[next] == PunctToken(Comma, ',')
    ensures ItemsSpan(ts, next + 1, items[1..], fmt) == Some(n)
  {
    var vt := ValueTokens(items[0], fmt);
    var rest := ItemsTokens(items[1..], fmt) + [PunctToken(RBracket, ']')];
    assert ItemsTokens(items, fmt) + [PunctToken(RBracket, ']')] == vt + ([PunctToken(Comma, ',')] + rest);
    SliceAtAround(ts, start, vt, PunctToken(Comma, ','), rest);
    ItemsWellFormedTail(items);
    next := start + |vt|;
  }

  /** Several members: the first one's span ends at a comma, and the rest's span follows it. */
  lemma {:induction false} MembersSpanFirst(ts: seq<Token>, start: nat, ms: seq<Member>, fmt: Double -> string,
                                            n: nat)
    returns (next: nat)
    requires |ms| > 1 && MembersSpan(ts, start, ms, fmt) == Some(n)
    ensures MemberSpan(ts, start, ms[0], fmt) == Some(next)
    ensures next < |ts| && ts[next] == PunctToken(Comma, ',')
    ensures MembersSpan(ts, next + 1, ms[1..], fmt) == Some(n)
  {
    var mt := MemberTokens(ms[0], fmt);
    var rest := MembersTokens(ms[1..], fmt) + [PunctToken(RBrace, '}')];
    assert MembersTokens(ms, fmt) + [PunctToken(RBrace, '}')] == mt + ([PunctToken(Comma, ',')] + rest);
    SliceAtAround(ts, start, mt, PunctToken(Comma, ','), rest);
    MembersWellFormedSplit(ms);
    next := start + |mt|;
  }

  /** A member's span: the key, the colon, then the value's span. */
  lemma {:induction false} MemberSpanValue(ts: seq<Token>, start: nat, m: Member, fmt: Double -> string, n: nat)
    requires MemberSpan(ts, start, m, fmt) == Some(n)
    ensures start + 2 < |ts| && ts[start] == StringToken(m.key) && ts[start + 1] == PunctToken(Colon, ':')
    ensures ValueSpan(ts, start + 2, m.value, fmt) == Some(n)
  {
    var head := [StringToken(m.key), PunctToken(Colon, ':')];
    SliceAtConcat(ts, start, head, ValueTokens(m.value, fmt));
    SliceAtIndex(ts, start, head, 0);
    SliceAtIndex(ts, start, head, 1);
    SliceAtIndex(ts, start + 2, ValueTokens(m.value, fmt), 0);
  }

  lemma {:induction false} ItemsWellFormedTail(items: seq<Element>)
    requires ItemsWellFormed(items) && items != []
    ensures WellFormed(items[0]) && ItemsWellFormed(items[1..])
  {
    assert forall i :: 0 <= i < |items[1..]| ==> items[1..][i] == items[i + 1];
  }

  lemma {:induction false} MembersWellFormedSplit(ms: seq<Member>)
    requires MembersWellFormed(ms) && ms != []
    ensures WellFormed(ms[0].value) && MembersWellFormed(ms[1..])
  {
    assert forall i :: 0 <= i < |ms[1..]| ==> ms[1..][i] == ms[i + 1];
  }

  /** Appending the first normalised item, then the rest, appends all of them. */
  lemma {:induction false} AppendNormalizedItem(acc: seq<Element>, items: seq<Element>, fmt: Double -> string)
    requires items != []
    ensures acc + [Normalize(items[0], fmt)] + NormalizeItems(items[1..], fmt) == acc + NormalizeItems(items, fmt)
  {
    AppendAssoc(acc, [Normalize(items[0], fmt)], NormalizeItems(items[1..], fmt));
  }

  /** Appending the first normalised member, then the rest, appends all of them. */
  lemma {:induction false} AppendNormalizedMember(acc: seq<Member>, ms: seq<Member>, fmt: Double -> string)
    requires ms != []
    ensures acc + [Member(ms[0].key, Normalize(ms[0].value, fmt))] + NormalizeMembers(ms[1..], fmt)
            == acc + NormalizeMembers(ms, fmt)
  {
    AppendAssoc(acc, [Member(ms[0].key, Normalize(ms[0].value, fmt))], NormalizeMembers(ms[1..], fmt));
  }

  // ------------------------------------------------------------- fresh keys

  /** No key of `ms` is in `seen` or earlier in `ms`: each `emplace` of them appends. */
  predicate FreshKeys(seen: seq<string>, ms: seq<Member>)
    decreases |ms|
  {
    ms == [] || (ms[0].key !in seen && FreshKeys(seen + [ms[0].key], ms[1..]))
  }

  /** Keys that are pairwise distinct are fresh one after the other. */
  lemma {:induction false} NoDuplicatesFresh(seen: seq<string>, ms: seq<Member>)
    requires NoDuplicates(seen + Keys(ms))
    ensures FreshKeys(seen, ms)
    decreases |ms|
  {
    if ms != [] {
      var ks := seen + Keys(ms);
      assert ks[|seen|] == ms[0].key;
      forall i | 0 <= i < |seen| ensures seen[i] != ms[0].key {
        assert ks[i] == seen[i];
      }
      assert (seen + [ms[0].key]) + Keys(ms[1..]) == ks;
      NoDuplicatesFresh(seen + [ms[0].key], ms[1..]);
    }
  }

  /** Distinct keys are fresh one after the other, starting from an empty object. */
  lemma {:induction false} DistinctKeysFresh(ms: seq<Member>)
    requires DistinctKeys(ms)
    ensures FreshKeys(Keys([]), ms)
  {
    DistinctKeysByKeys(ms);
    assert Keys([]) + Keys(ms) == Keys(ms);
    NoDuplicatesFresh([], ms);
  }

  /** The first key is new, so `emplace` appends it, and the rest stay fresh afterwards. */
  lemma {:induction false} FreshKeysStep(acc: seq<Member>, ms: seq<Member>, v: Element)
    requires ms != [] && FreshKeys(Keys(acc), ms)
    ensures Emplace(acc, ms[0].key, v) == acc + [Member(ms[0].key, v)]
    ensures FreshKeys(Keys(acc + [Member(ms[0].key, v)]), ms[1..])
  {
    KeysAppend(acc, [Member(ms[0].key, v)]);
    assert Keys([Member(ms[0].key, v)]) == [ms[0].key];
  }

  // ------------------------------------------------------------- parsing

  /**
   * A well-formed element's tokens, lying from `start` on and ending at `n`,
   * parse back to the element with its numbers normalised, ending at `n`.
   */
  lemma {:induction false} ParseValueRendered(ts: seq<Token>, start: nat, e: Element, fmt: Double -> string, n: nat)
    requires ValueSpan(ts, start, e, fmt) == Some(n)
    ensures start < |ts| && ParseValue(ts, start + 1, ts[start]) == Ok((Normalize(e, fmt), n))
    decreases n - start, 2
  {
    match e
    case Arr(items) => ParseArrayRendered(ts, start, items, fmt, n);
    case Obj(ms) => ParseObjectRendered(ts, start, ms, fmt, n);
    case _ => ParseLeafRendered(ts, start, e, fmt, n);
  }

  /** A scalar's one token parses back to the scalar, a number to `atof` of its printed text. */
  lemma {:induction false} ParseLeafRendered(ts: seq<Token>, start: nat, e: Element, fmt: Double -> string, n: nat)
    requires !e.Obj? && !e.Arr? && ValueSpan(ts, start, e, fmt) == Some(n)
    ensures start < |ts| && ParseValue(ts, start + 1, ts[start]) == Ok((Normalize(e, fmt), n))
  {
    ValueSpanFirst(ts, start, e, fmt, n);
    var tok := ts[start];
    assert IsLeaf(tok.tokenType);
    assert ParseValue(ts, start + 1, tok) == match LeafElement(tok) case Ok(v) => Ok((v, start + 1)) case Err(err) => Err(err);
  }

  lemma {:induction false} ParseArrayRendered(ts: seq<Token>, start: nat, items: seq<Element>, fmt: Double -> string,
                                              n: nat)
    requires ValueSpan(ts, start, Arr(items), fmt) == Some(n)
    ensures start < |ts| && ParseValue(ts, start + 1, ts[start]) == Ok((Normalize(Arr(items), fmt), n))
    decreases n - start, 1
  {
    ArraySpan(ts, start, items, fmt, n);
    assert ParseValue(ts, start + 1, ts[start]) == ArrayLoop(ts, start + 1, []);
    ArrayLoopRendered(ts, start + 1, [], items, fmt, n);
    assert [] + NormalizeItems(items, fmt) == NormalizeItems(items, fmt);
  }

  lemma {:induction false} ParseObjectRendered(ts: seq<Token>, start: nat, ms: seq<Member>, fmt: Double -> string,
                                               n: nat)
    requires ValueSpan(ts, start, Obj(ms), fmt) == Some(n)
    ensures start < |ts| && ParseValue(ts, start + 1, ts[start]) == Ok((Normalize(Obj(ms), fmt), n))
    decreases n - start, 1
  {
    ObjectSpan(ts, start, ms, fmt, n);
    assert ParseValue(ts, start + 1, ts[start]) == ObjectLoop(ts, start + 1, []);
    DistinctKeysFresh(ms);
    ObjectLoopRendered(ts, start + 1, [], ms, fmt, n);
    assert [] + NormalizeMembers(ms, fmt) == NormalizeMembers(ms, fmt);
  }

  /**
   * The array loop over the tokens of `items` and the closing `]`, which
   * ends at `n`, appends the normalised items to those read so far.
   */
  lemma {:induction false} ArrayLoopRendered(ts: seq<Token>, pos: nat, acc: seq<Element>, items: seq<Element>,
                                             fmt: Double -> string, n: nat)
    requires ItemsSpan(ts, pos, items, fmt) == Some(n)
    ensures pos <= |ts| && ArrayLoop(ts, pos, acc) == Ok((Arr(acc + NormalizeItems(items, fmt)), n))
    decreases n - pos, 4
  {
    if items == [] {
      ItemsSpanEmpty(ts, pos, fmt, n);
      assert acc + [] == acc;
    } else if |items| == 1 {
      ArrayOneItemRendered(ts, pos, acc, items, fmt, n);
    } else {
      ArrayMoreItemsRendered(ts, pos, acc, items, fmt, n);
    }
  }

  /** A single item, then the closer. */
  lemma {:induction false} ArrayOneItemRendered(ts: seq<Token>, pos: nat, acc: seq<Element>, items: seq<Element>,
                                                fmt: Double -> string, n: nat)
    requires |items| == 1 && ItemsSpan(ts, pos, items, fmt) == Some(n)
    ensures pos <= |ts| && ArrayLoop(ts, pos, acc) == Ok((Arr(acc + NormalizeItems(items, fmt)), n))
    decreases n - pos, 3
  {
    assert items == [items[0]];
    var last := ItemsSpanLast(ts, pos, items[0], fmt, n);
    ArrayLastItemRendered(ts, pos, acc, items[0], fmt, last);
    assert NormalizeItems(items, fmt) == [Normalize(items[0], fmt)];
  }

  /** The last item: parse it, then take the closer after it. */
  lemma {:induction false} ArrayLastItemRendered(ts: seq<Token>, pos: nat, acc: seq<Element>, e: Element,
                                                 fmt: Double -> string, last: nat)
    requires ValueSpan(ts, pos, e, fmt) == Some(last) && last < |ts| && ts[last] == PunctToken(RBracket, ']')
    ensures pos <= |ts| && ArrayLoop(ts, pos, acc) == Ok((Arr(acc + [Normalize(e, fmt)]), last + 1))
    decreases last + 1 - pos, 2
  {
    ParseValueRendered(ts, pos, e, fmt, last);
    ArrayLoopClose(ts, pos, acc, Normalize(e, fmt), last);
  }

  /** An item followed by a comma: parse it, take the comma, and carry on with the next item. */
  lemma {:induction false} ArrayNextItemRendered(ts: seq<Token>, pos: nat, acc: seq<Element>, e: Element,
                                                 fmt: Double -> string, next: nat)
    requires ValueSpan(ts, pos, e, fmt) == Some(next) && next < |ts| && ts[next] == PunctToken(Comma, ',')
    ensures pos <= |ts| && ArrayLoop(ts, pos, acc) == ArrayLoop(ts, next + 1, acc + [Normalize(e, fmt)])
    decreases next - pos, 3
  {
    ParseValueRendered(ts, pos, e, fmt, next);
    ArrayLoopComma(ts, pos, acc, Normalize(e, fmt), next);
  }

  /** Several items: the first one and its comma, then the loop over the rest. */
  lemma {:induction false} ArrayMoreItemsRendered(ts: seq<Token>, pos: nat, acc: seq<Element>, items: seq<Element>,
                                                  fmt: Double -> string, n: nat)
    requires |items| > 1 && ItemsSpan(ts, pos, items, fmt) == Some(n)
    ensures pos <= |ts| && ArrayLoop(ts, pos, acc) == Ok((Arr(acc + NormalizeItems(items, fmt)), n))
    decreases n - pos, 2
  {
    var next := ItemsSpanFirst(ts, pos, items, fmt, n);
    ArrayNextItemRendered(ts, pos, acc, items[0], fmt, next);
    ArrayLoopRendered(ts, next + 1, acc + [Normalize(items[0], fmt)], items[1..], fmt, n);
    AppendNormalizedItem(acc, items, fmt);
  }

  /** A member's key, colon and value tokens read back as the key and the normalised value. */
  lemma {:induction false} MemberRendered(ts: seq<Token>, pos: nat, m: Member, fmt: Double -> string, next: nat)
    requires MemberSpan(ts, pos, m, fmt) == Some(next)
    ensures pos <= |ts| && MemberAt(ts, pos) == Ok((m.key, Normalize(m.value, fmt), next))
    decreases next - pos, 3
  {
    MemberSpanValue(ts, pos, m, fmt, next);
    ParseValueRendered(ts, pos + 2, m.value, fmt, next);
  }

  /**
   * The object loop over the tokens of `ms` and the closing `}`, which ends at
   * `n`, appends the normalised members: each key is new to the object, so
   * `emplace` appends it.
   */
  lemma {:induction false} ObjectLoopRendered(ts: seq<Token>, pos: nat, acc: seq<Member>, ms: seq<Member>,
                                              fmt: Double -> string, n: nat)
    requires MembersSpan(ts, pos, ms, fmt) == Some(n) && FreshKeys(Keys(acc), ms) && (ms == [] ==> acc == [])
    ensures pos <= |ts| && ObjectLoop(ts, pos, acc) == Ok((Obj(acc + NormalizeMembers(ms, fmt)), n))
    decreases n - pos, 4
  {
    if ms == [] {
      MembersSpanEmpty(ts, pos, fmt, n);
      assert acc + [] == acc;
    } else if |ms| == 1 {
      ObjectOneMemberRendered(ts, pos, acc, ms, fmt, n);
    } else {
      ObjectMoreMembersRendered(ts, pos, acc, ms, fmt, n);
    }
  }

  /** A single member: it is new to the object, so `emplace` appends it before the closer. */
  lemma {:induction false} ObjectOneMemberRendered(ts: seq<Token>, pos: nat, acc: seq<Member>, ms: seq<Member>,
                                                   fmt: Double -> string, n: nat)
    requires |ms| == 1 && MembersSpan(ts, pos, ms, fmt) == Some(n) && FreshKeys(Keys(acc), ms)
    ensures pos <= |ts| && ObjectLoop(ts, pos, acc) == Ok((Obj(acc + NormalizeMembers(ms, fmt)), n))
    decreases n - pos, 3
  {
    assert ms == [ms[0]];
    var last := MembersSpanLast(ts, pos, ms[0], fmt, n);
    FreshKeysStep(acc, ms, Normalize(ms[0].value, fmt));
    ObjectLastMemberRendered(ts, pos, acc, ms[0], fmt, last);
    assert NormalizeMembers(ms, fmt) == [Member(ms[0].key, Normalize(ms[0].value, fmt))];
  }

  /** The last member: read it, add it, then take the closer after it. */
  lemma {:induction false} ObjectLastMemberRendered(ts: seq<Token>, pos: nat, acc: seq<Member>, m: Member,
                                                    fmt: Double -> string, last: nat)
    requires MemberSpan(ts, pos, m, fmt) == Some(last) && last < |ts| && ts[last] == PunctToken(RBrace, '}')
    ensures pos <= |ts|
    ensures ObjectLoop(ts, pos, acc) == Ok((Obj(Emplace(acc, m.key, Normalize(m.value, fmt))), last + 1))
    decreases last + 1 - pos, 2
  {
    MemberRendered(ts, pos, m, fmt, last);
    ObjectLoopClose(ts, pos, acc, m.key, Normalize(m.value, fmt), last);
  }

  /** A member followed by a comma: read it, add it, take the comma, and carry on. */
  lemma {:induction false} ObjectNextMemberRendered(ts: seq<Token>, pos: nat, acc: seq<Member>, m: Member,
                                                    fmt: Double -> string, next: nat)
    requires MemberSpan(ts, pos, m, fmt) == Some(next) && next < |ts| && ts[next] == PunctToken(Comma, ',')
    ensures pos <= |ts|
    ensures ObjectLoop(ts, pos, acc) == ObjectLoop(ts, next + 1, Emplace(acc, m.key, Normalize(m.value, fmt)))
    decreases next - pos, 4
  {
    MemberRendered(ts, pos, m, fmt, next);
    ObjectLoopComma(ts, pos, acc, m.key, Normalize(m.value, fmt), next);
  }

  /** Several members: the first one and its comma, then the loop over the rest. */
  lemma {:induction false} ObjectMoreMembersRendered(ts: seq<Token>, pos: nat, acc: seq<Member>, ms: seq<Member>,
                                                     fmt: Double -> string, n: nat)
    requires |ms| > 1 && MembersSpan(ts, pos, ms, fmt) == Some(n) && FreshKeys(Keys(acc), ms)
    ensures pos <= |ts| && ObjectLoop(ts, pos, acc) == Ok((Obj(acc + NormalizeMembers(ms, fmt)), n))
    decreases n - pos, 2
  {
    var next := MembersSpanFirst(ts, pos, ms, fmt, n);
    FreshKeysStep(acc, ms, Normalize(ms[0].value, fmt));
    ObjectConsRendered(ts, pos, acc, ms[0], ms[1..], fmt, next, n,
                       acc + [Member(ms[0].key, Normalize(ms[0].value, fmt))]);
    AppendNormalizedMember(acc, ms, fmt);
  }

  /** The member `m`, its comma, then the loop over the members `tail` after it. */
  lemma {:induction false} ObjectConsRendered(ts: seq<Token>, pos: nat, acc: seq<Member>, m: Member,
                                              tail: seq<Member>, fmt: Double -> string, next: nat, n: nat,
                                              acc2: seq<Member>)
    requires MemberSpan(ts, pos, m, fmt) == Some(next) && next < |ts| && ts[next] == PunctToken(Comma, ',')
    requires MembersSpan(ts, next + 1, tail, fmt) == Some(n) && tail != []
    requires Emplace(acc, m.key, Normalize(m.value, fmt)) == acc2 && FreshKeys(Keys(acc2), tail)
    ensures pos <= |ts| && ObjectLoop(ts, pos, acc) == Ok((Obj(acc2 + NormalizeMembers(tail, fmt)), n))
    decreases n - pos, 1
  {
    ObjectNextMemberRendered(ts, pos, acc, m, fmt, next);
    ObjectLoopRendered(ts, next + 1, acc2, tail, fmt, n);
  }

  /** A well-formed container's tokens, then END_OF_FILE, parse back to the container with its numbers normalised. */
  lemma {:induction false} ParseRendered(e: Element, fmt: Double -> string)
    requires WellFormed(e) && (e.Obj? || e.Arr?)
    ensures ParseTokens(ValueTokens(e, fmt) + [EofToken]) == Ok(Normalize(e, fmt))
  {
    var ts := ValueTokens(e, fmt) + [EofToken];
    assert ts[..|ValueTokens(e, fmt)|] == ValueTokens(e, fmt);
    ParseValueRendered(ts, 0, e, fmt, |ValueTokens(e, fmt)|);
  }
}
