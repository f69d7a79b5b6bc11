/**
 * The recursive-descent parser as functions of the token sequence and a
 * cursor: what `BeginParseObject`, `BeginParseArray` and `_parse` return and
 * where they leave the cursor. The parser object in module Parser is proved
 * to compute exactly these.
 */
module ParserSpec {
  import opened Wrappers
  import opened TokenTypes
  import opened Tokens
  import opened LexerSpec
  import opened Elements

  /** Why parsing threw. */
  datatype ParseError =
    | InvalidStart                // the first token is neither `{` nor `[`
    | EarlyClose                  // `}` where a key should follow a comma
    | UnexpectedToken             // a key that is not a string, a missing colon, or a token that starts no value
    | ReadPastEnd                 // a key's colon or value would be read past the last token
    | LiteralError(e: TokenError) // a token without the payload its kind needs

  /** Why reading a document failed: in the lexer or in the parser. */
  datatype Error = LexFailure(lex: LexError) | ParseFailure(parse: ParseError)

  /** The token `Peek` returns past the end. */
  const EmptyToken: Token := Token(Invalid, "", None)

  /** `Peek`: the token at `pos`, or the INVALID empty token past the end. */
  function PeekToken(ts: seq<Token>, pos: nat): (t: Token)
    ensures pos >= |ts| ==> t.tokenType == Invalid
  {
    if pos < |ts| then ts[pos] else EmptyToken
  }

  /** The token kinds that are a whole value on their own. */
  predicate IsLeaf(k: TokenType) {
    k == StringLit || k == NumberLit || k == TrueLit || k == FalseLit || k == NullLit
  }

  /** The element a leaf token stands for. `true`/`false` ignore the payload; `null` has none. */
  function LeafElement(tok: Token): (r: Result<Element, ParseError>)
    requires IsLeaf(tok.tokenType)
    ensures r.Ok? ==> WellFormed(r.value)
    ensures tok.tokenType == TrueLit ==> r == Ok(Bool(true))
    ensures tok.tokenType == FalseLit ==> r == Ok(Bool(false))
    ensures tok.tokenType == NullLit ==> r == Ok(Null(false))
    ensures tok.tokenType == StringLit ==>
              (r.Ok? <==> LiteralAsString(tok).Ok?) && (r.Ok? ==> r.value == Str(LiteralAsString(tok).value))
    ensures tok.tokenType == NumberLit ==>
              (r.Ok? <==> LiteralAsDouble(tok).Ok?) && (r.Ok? ==> r.value == Number(LiteralAsDouble(tok).value))
  {
    match tok.tokenType
    case StringLit =>
      (match LiteralAsString(tok)
       case Ok(s) => Ok(Str(s))
       case Err(e) => Err(LiteralError(e)))
    case NumberLit =>
      (match LiteralAsDouble(tok)
       case Ok(d) => Ok(Number(d))
       case Err(e) => Err(LiteralError(e)))
    case TrueLit => Ok(Bool(true))
    case FalseLit => Ok(Bool(false))
    case NullLit => Ok(Null(false))
  }

  /**
   * The value switch: `tok` has just been consumed and the cursor is at
   * `pos`. Returns the element and where the cursor ends.
   */
  function ParseValue(ts: seq<Token>, pos: nat, tok: Token): (r: Result<(Element, nat), ParseError>)
    requires pos <= |ts|
    ensures r.Ok? ==> pos <= r.value.1 <= |ts|
    decreases |ts| - pos, 3
  {
    if tok.tokenType == LBrace then ObjectLoop(ts, pos, [])
    else if tok.tokenType == LBracket then ArrayLoop(ts, pos, [])
    else if IsLeaf(tok.tokenType) then
      match LeafElement(tok)
      case Ok(e) => Ok((e, pos))
      case Err(err) => Err(err)
    else Err(UnexpectedToken)
  }

  /**
   * One member of an object, with the cursor on its key: the key string, the
   * colon, then the value. Colon and value are read before the key is checked.
   */
  function MemberAt(ts: seq<Token>, pos: nat): (r: Result<(string, Element, nat), ParseError>)
    requires pos <= |ts|
    ensures r.Ok? ==> pos + 3 <= r.value.2 <= |ts|
    decreases |ts| - pos, 1
  {
    if pos + 2 >= |ts| then Err(ReadPastEnd)
    else if ts[pos].tokenType != StringLit || ts[pos + 1].tokenType != Colon then Err(UnexpectedToken)
    else match LiteralAsString(ts[pos])
      case Err(e) => Err(LiteralError(e))
      case Ok(key) =>
        match ParseValue(ts, pos + 3, ts[pos + 2])
        case Err(e) => Err(e)
        case Ok((v, next)) => Ok((key, v, next))
  }

  /**
   * The loop of `BeginParseObject` with the cursor at `pos` and the members
   * `acc` read so far. A repeated key keeps its first value (`emplace`), and
   * a token other than `,` or `}` after a value is passed over silently.
   */
  function ObjectLoop(ts: seq<Token>, pos: nat, acc: seq<Member>): (r: Result<(Element, nat), ParseError>)
    requires pos <= |ts|
    ensures r.Ok? ==> pos <= r.value.1 <= |ts| && r.value.0.Obj?
    ensures r.Ok? && pos < |ts| ==> pos < r.value.1
    decreases |ts| - pos, 2
  {
    if pos >= |ts| then Ok((Obj(acc), pos))
    else if ts[pos].tokenType == RBrace then
      if |acc| != 0 then Err(EarlyClose) else Ok((Obj(acc), pos + 1))
    else match MemberAt(ts, pos)
      case Err(e) => Err(e)
      case Ok((key, v, next)) => ObjectNext(ts, next, Emplace(acc, key, v))
  }

  /**
   * The object loop once a member has been read and its value ended at
   * `next`: a `,` is consumed and the loop goes on, a `}` is consumed and
   * ends the object, and any other token is left for the next iteration.
   */
  function ObjectNext(ts: seq<Token>, next: nat, members: seq<Member>): (r: Result<(Element, nat), ParseError>)
    requires next <= |ts|
    ensures r.Ok? ==> next <= r.value.1 <= |ts| && r.value.0.Obj?
    decreases |ts| - next, 3
  {
    var after := PeekToken(ts, next).tokenType;
    if after == Comma then ObjectLoop(ts, next + 1, members)
    else if after == RBrace then Ok((Obj(members), next + 1))
    else ObjectLoop(ts, next, members)
  }

  /**
   * The loop of `BeginParseArray` with the cursor at `pos` and the items
   * `acc` read so far. `]` ends the array wherever a value may start, so a
   * trailing comma is accepted; a missing comma is passed over silently.
   */
  function ArrayLoop(ts: seq<Token>, pos: nat, acc: seq<Element>): (r: Result<(Element, nat), ParseError>)
    requires pos <= |ts|
    ensures r.Ok? ==> pos <= r.value.1 <= |ts| && r.value.0.Arr?
    ensures r.Ok? && pos < |ts| ==> pos < r.value.1
    decreases |ts| - pos, 2
  {
    if pos >= |ts| then Ok((Arr(acc), pos))
    else if ts[pos].tokenType == RBracket then Ok((Arr(acc), pos + 1))
    else match ParseValue(ts, pos + 1, ts[pos])
      case Err(e) => Err(e)
      case Ok((v, next)) => ArrayNext(ts, next, acc + [v])
  }

  /** The array loop once an item has been read and ended at `next`; `,` and `]` as for objects. */
  function ArrayNext(ts: seq<Token>, next: nat, items: seq<Element>): (r: Result<(Element, nat), ParseError>)
    requires next <= |ts|
    ensures r.Ok? ==> next <= r.value.1 <= |ts| && r.value.0.Arr?
    decreases |ts| - next, 3
  {
    var after := PeekToken(ts, next).tokenType;
    if after == Comma then ArrayLoop(ts, next + 1, items)
    else if after == RBracket then Ok((Arr(items), next + 1))
    else ArrayLoop(ts, next, items)
  }

  /** What the object loop does once a member `key: v` has been read and the value ended at `next`. */
  lemma ObjectLoopAfterMember(ts: seq<Token>, pos: nat, acc: seq<Member>, key: string, v: Element, next: nat)
    requires pos < |ts| && ts[pos].tokenType != RBrace
    requires MemberAt(ts, pos) == Ok((key, v, next))
    ensures var members := Emplace(acc, key, v);
            var after := PeekToken(ts, next).tokenType;
            ObjectLoop(ts, pos, acc) ==
              if after == Comma then ObjectLoop(ts, next + 1, members)
              else if after == RBrace then Ok((Obj(members), next + 1))
              else ObjectLoop(ts, next, members)
  {
  }

  /** What the array loop does once an item `v` has been read and the value ended at `next`. */
  lemma ArrayLoopAfterValue(ts: seq<Token>, pos: nat, acc: seq<Element>, v: Element, next: nat)
    requires pos < |ts| && pos + 1 <= next <= |ts| && ts[pos].tokenType != RBracket
    requires ParseValue(ts, pos + 1, ts[pos]) == Ok((v, next))
    ensures var items := acc + [v];
            var after := PeekToken(ts, next).tokenType;
            ArrayLoop(ts, pos, acc) ==
              if after == Comma then ArrayLoop(ts, next + 1, items)
              else if after == RBracket then Ok((Arr(items), next + 1))
              else ArrayLoop(ts, next, items)
  {
  }

  /** An item followed by `,`: the array loop carries on after the comma. */
  lemma ArrayLoopComma(ts: seq<Token>, pos: nat, acc: seq<Element>, v: Element, next: nat)
    requires pos < |ts| && ts[pos].tokenType != RBracket
    requires ParseValue(ts, pos + 1, ts[pos]) == Ok((v, next)) && PeekToken(ts, next).tokenType == Comma
    ensures ArrayLoop(ts, pos, acc) == ArrayLoop(ts, next + 1, acc + [v])
  {
  }

  /** An item followed by `]`: the array loop returns after the closer. */
  lemma ArrayLoopClose(ts: seq<Token>, pos: nat, acc: seq<Element>, v: Element, next: nat)
    requires pos < |ts| && ts[pos].tokenType != RBracket
    requires ParseValue(ts, pos + 1, ts[pos]) == Ok((v, next)) && PeekToken(ts, next).tokenType == RBracket
    ensures ArrayLoop(ts, pos, acc) == Ok((Arr(acc + [v]), next + 1))
  {
  }

  /** A member followed by `,`: the object loop carries on after the comma. */
  lemma ObjectLoopComma(ts: seq<Token>, pos: nat, acc: seq<Member>, key: string, v: Element, next: nat)
    requires pos < |ts| && ts[pos].tokenType != RBrace
    requires MemberAt(ts, pos) == Ok((key, v, next)) && PeekToken(ts, next).tokenType == Comma
    ensures ObjectLoop(ts, pos, acc) == ObjectLoop(ts, next + 1, Emplace(acc, key, v))
  {
  }

  /** A member followed by `}`: the object loop returns after the closer. */
  lemma ObjectLoopClose(ts: seq<Token>, pos: nat, acc: seq<Member>, key: string, v: Element, next: nat)
    requires pos < |ts| && ts[pos].tokenType != RBrace
    requires MemberAt(ts, pos) == Ok((key, v, next)) && PeekToken(ts, next).tokenType == RBrace
    ensures ObjectLoop(ts, pos, acc) == Ok((Obj(Emplace(acc, key, v)), next + 1))
  {
  }

  /** `_parse` on a token sequence: the root must be an object or an array. */
  function ParseRoot(ts: seq<Token>): (r: Result<(Element, nat), ParseError>)
    ensures r.Ok? ==> 1 <= r.value.1 <= |ts| && (r.value.0.Obj? || r.value.0.Arr?)
  {
    var first := PeekToken(ts, 0).tokenType;
    if first == LBrace then ObjectLoop(ts, 1, [])
    else if first == LBracket then ArrayLoop(ts, 1, [])
    else Err(InvalidStart)
  }

  /** The parsed document, without the final cursor. */
  function ParseTokens(ts: seq<Token>): (r: Result<Element, ParseError>)
    ensures r.Ok? ==> r.value.Obj? || r.value.Arr?
    ensures r.Err? <==> ParseRoot(ts).Err?
  {
    match ParseRoot(ts)
    case Ok((e, _)) => Ok(e)
    case Err(err) => Err(err)
  }

  /** Parses what the lexer returned, passing a lexing failure through. */
  function ParseLexed(lexed: Result<seq<Token>, LexError>): (r: Result<Element, Error>)
    ensures lexed.Err? ==> r == Err(LexFailure(lexed.error))
    ensures lexed.Ok? ==> (r.Ok? <==> ParseTokens(lexed.value).Ok?)
    ensures r.Ok? ==> Ok(r.value) == ParseTokens(lexed.value)
    ensures lexed.Ok? && r.Err? ==> r.error == ParseFailure(ParseTokens(lexed.value).error)
  {
    match lexed
    case Err(e) => Err(LexFailure(e))
    case Ok(ts) =>
      match ParseTokens(ts)
      case Ok(e) => Ok(e)
      case Err(err) => Err(ParseFailure(err))
  }

  /** `Parse`: lex the whole text, then parse the tokens. */
  function ParseJson(source: string): (r: Result<Element, Error>)
    ensures r.Ok? ==> r.value.Obj? || r.value.Arr?
    ensures Lex(source).Err? ==> r == Err(LexFailure(Lex(source).error))
  {
    ParseLexed(Lex(source))
  }
}
