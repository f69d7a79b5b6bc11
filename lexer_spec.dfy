/**
 * The lexer as functions of the source text and a position: what one call of
 * `scanToken` does from a token start, and what the scanning loop produces.
 * The imperative lexer in module Lexer is proved to compute exactly these.
 */
module LexerSpec {
  import opened Wrappers
  import opened TokenTypes
  import opened Tokens

  /** Why lexing threw. */
  datatype LexError =
    | UnexpectedCharacter  // a character that starts no token
    | MalformedTrue        // a letter of `true` is wrong
    | MalformedFalse
    | MalformedNull
    | UnterminatedString   // end of input before the closing quote

  /** The terminating NUL that `std::string` keeps after its last character. */
  const NUL: char := 0 as char

  /** `Peek`/`PeekNext`: the character at `i`, or NUL past the end. */
  function PeekAt(s: string, i: nat): char {
    if i < |s| then s[i] else NUL
  }

  /** `PeekPrev`: the character before `i`, read only when `i - 1 > 0`, so never the first one. */
  function PeekPrevAt(s: string, i: nat): char {
    if i - 1 > 0 && i - 1 < |s| then s[i - 1] else NUL
  }

  /** `isDigit`: a decimal digit, or a minus sign. */
  predicate IsDigit(c: char): (b: bool)
    ensures c == '-' ==> b
    ensures c == '+' || c == '.' || c == 'e' || c == 'E' ==> !b
  {
    '0' <= c <= '9' || c == '-'
  }

  /** Space, carriage return, tab and line feed produce no token. */
  predicate IsWhitespace(c: char) {
    c == ' ' || c == '\r' || c == '\t' || c == '\n'
  }

  /** The characters `scanToken` dispatches on; any other character that is not a digit fails. */
  predicate IsTokenStart(c: char) {
    c in {'[', ']', '{', '}', ',', ':', '"', 't', 'T', 'f', 'F', 'n', 'N'} || IsWhitespace(c) || IsDigit(c)
  }

  /** The one-character tokens. */
  function PunctuationType(c: char): Option<TokenType> {
    match c
    case '[' => Some(LBracket)
    case ']' => Some(RBracket)
    case '{' => Some(LBrace)
    case '}' => Some(RBrace)
    case ',' => Some(Comma)
    case ':' => Some(Colon)
    case _ => None
  }

  /** `while(isDigit(Peek())) GetNext();` started at `i`: where the cursor stops. */
  function DigitRunEnd(s: string, i: nat): (j: nat)
    ensures i <= j
    ensures i <= |s| ==> j <= |s|
    ensures !IsDigit(PeekAt(s, j))
    decreases |s| - i
  {
    if IsDigit(PeekAt(s, i)) then DigitRunEnd(s, i + 1) else i
  }

  /**
   * `ReadNumber` started with the cursor at `i`, just after the first digit:
   * the digit run, then `.` and a run only if a digit follows the dot, then
   * `e`/`E` only if a digit follows it, then a final digit run.
   */
  function NumberEnd(s: string, i: nat): (j: nat)
    requires i <= |s|
    ensures i <= j <= |s|
    ensures !IsDigit(PeekAt(s, j))
  {
    FractionEnd(s, DigitRunEnd(s, i))
  }

  /** Where `ReadNumber` stops when the integer part ended at `b` and no fraction followed. */
  function ExponentEnd(s: string, b: nat): (j: nat)
    requires b <= |s|
    ensures b <= j <= |s| && !IsDigit(PeekAt(s, j))
  {
    var c := if (PeekAt(s, b) == 'e' || PeekAt(s, b) == 'E') && IsDigit(PeekAt(s, b + 1)) then b + 1 else b;
    DigitRunEnd(s, c)
  }

  /** Where `ReadNumber` stops when the integer part ended at `a`. */
  function FractionEnd(s: string, a: nat): (j: nat)
    requires a <= |s|
    ensures a <= j <= |s| && !IsDigit(PeekAt(s, j))
  {
    var b := if PeekAt(s, a) == '.' && IsDigit(PeekAt(s, a + 1)) then DigitRunEnd(s, a + 1) else a;
    ExponentEnd(s, b)
  }

  /** Position `k` closes a string: a quote that `PeekPrev` does not see a backslash before. */
  predicate Closes(s: string, k: nat) {
    k < |s| && s[k] == '"' && PeekPrevAt(s, k) != '\\'
  }

  /** The scanning loop of `ReadString` started at `i`: the closing quote, or `None` at end of input. */
  function ClosingQuote(s: string, i: nat): (r: Option<nat>)
    ensures r.Some? ==> i <= r.value && Closes(s, r.value)
    ensures r.Some? ==> forall k :: i <= k < r.value ==> !Closes(s, k)
    ensures r.None? ==> forall k :: i <= k < |s| ==> !Closes(s, k)
    decreases |s| - i
  {
    if i >= |s| then None
    else if s[i] != '"' || PeekPrevAt(s, i) == '\\' then ClosingQuote(s, i + 1)
    else Some(i)
  }

  /** `c` is the lower-case letter `lower` or its upper-case form (`c != 'r' && c != 'R'` fails). */
  predicate LetterIs(c: char, lower: char) {
    c == lower || ('a' <= lower <= 'z' && c == (lower as int - 32) as char)
  }

  /** The letters `rest` follow at `i`, each in either case. */
  predicate KeywordAt(s: string, i: nat, rest: string) {
    i + |rest| <= |s| && forall k :: 0 <= k < |rest| ==> LetterIs(s[i + k], rest[k])
  }

  /** Reading a keyword letter by letter: the first letter, then the rest. */
  lemma KeywordAtStep(s: string, i: nat, rest: string)
    requires |rest| > 0
    ensures KeywordAt(s, i, rest) <==>
              i < |s| && LetterIs(s[i], rest[0]) && KeywordAt(s, i + 1, rest[1..])
  {
    if i < |s| && LetterIs(s[i], rest[0]) && KeywordAt(s, i + 1, rest[1..]) {
      forall k | 0 <= k < |rest| ensures LetterIs(s[i + k], rest[k]) {
        if k > 0 {
          assert s[i + k] == s[i + 1 + (k - 1)];
        }
      }
    }
    if KeywordAt(s, i, rest) {
      assert LetterIs(s[i + 0], rest[0]);
      forall k | 0 <= k < |rest| - 1 ensures LetterIs(s[i + 1 + k], rest[1..][k]) {
        assert s[i + 1 + k] == s[i + (k + 1)];
      }
    }
  }

  /** What one call of `scanToken` does: skip a character or emit a token, and where the cursor ends. */
  datatype Step = Skip(next: nat) | Emit(token: Token, next: nat)

  function StringTokenAt(s: string, start: nat): (r: Result<Step, LexError>)
    requires start < |s|
  {
    match ClosingQuote(s, start + 1)
    case None => Err(UnterminatedString)
    case Some(q) => Ok(Emit(Token(StringLit, s[start..q + 1], Some(StringLiteral(s[start + 1..q]))), q + 1))
  }

  function KeywordTokenAt(s: string, start: nat, rest: string, kind: TokenType,
                          literal: Option<Literal>, failure: LexError): (r: Result<Step, LexError>)
    requires start < |s|
  {
    if KeywordAt(s, start + 1, rest)
    then Ok(Emit(Token(kind, s[start..start + 1 + |rest|], literal), start + 1 + |rest|))
    else Err(failure)
  }

  function NumberTokenAt(s: string, start: nat): (r: Result<Step, LexError>)
    requires start < |s|
  {
    var e := NumberEnd(s, start + 1);
    Ok(Emit(Token(NumberLit, s[start..e], Some(DoubleLiteral(Atof(s[start..e])))), e))
  }

  /** `scanToken` with the token starting at `start`. */
  function TokenAt(s: string, start: nat): (r: Result<Step, LexError>)
    requires start < |s|
    ensures r.Ok? ==> start < r.value.next <= |s|
    ensures r.Ok? && r.value.Emit? ==> r.value.token.lexeme == s[start..r.value.next]
    ensures r.Ok? && r.value.Emit? ==> r.value.token.tokenType !in {EndOfFile, Invalid}
    ensures r.Ok? && r.value.Skip? <==> IsWhitespace(s[start])
    ensures IsWhitespace(s[start]) ==> r == Ok(Skip(start + 1))
    ensures PunctuationType(s[start]).Some? ==>
              r == Ok(Emit(Token(PunctuationType(s[start]).value, [s[start]], None), start + 1))
    ensures !IsTokenStart(s[start]) ==> r == Err(UnexpectedCharacter)
  {
    var c := s[start];
    assert s[start..start + 1] == [c];
    match c
    case '[' => Ok(Emit(Token(LBracket, s[start..start + 1], None), start + 1))
    case ']' => Ok(Emit(Token(RBracket, s[start..start + 1], None), start + 1))
    case '{' => Ok(Emit(Token(LBrace, s[start..start + 1], None), start + 1))
    case '}' => Ok(Emit(Token(RBrace, s[start..start + 1], None), start + 1))
    case ',' => Ok(Emit(Token(Comma, s[start..start + 1], None), start + 1))
    case ':' => Ok(Emit(Token(Colon, s[start..start + 1], None), start + 1))
    case '"' => StringTokenAt(s, start)
    case 't' => KeywordTokenAt(s, start, "rue", TrueLit, Some(BoolLiteral(true)), MalformedTrue)
    case 'T' => KeywordTokenAt(s, start, "rue", TrueLit, Some(BoolLiteral(true)), MalformedTrue)
    case 'f' => KeywordTokenAt(s, start, "alse", FalseLit, Some(BoolLiteral(false)), MalformedFalse)
    case 'F' => KeywordTokenAt(s, start, "alse", FalseLit, Some(BoolLiteral(false)), MalformedFalse)
    case 'n' => KeywordTokenAt(s, start, "ull", NullLit, None, MalformedNull)
    case 'N' => KeywordTokenAt(s, start, "ull", NullLit, None, MalformedNull)
    case ' ' => Ok(Skip(start + 1))
    case '\r' => Ok(Skip(start + 1))
    case '\t' => Ok(Skip(start + 1))
    case '\n' => Ok(Skip(start + 1))
    case _ => if IsDigit(c) then NumberTokenAt(s, start) else Err(UnexpectedCharacter)
  }

  /** Puts `ts` in front of a successful result; a failure stays as it is. */
  function Prepend(ts: seq<Token>, r: Result<seq<Token>, LexError>): Result<seq<Token>, LexError> {
    match r
    case Ok(rest) => Ok(ts + rest)
    case Err(e) => Err(e)
  }

  lemma PrependTwice(a: seq<Token>, b: seq<Token>, r: Result<seq<Token>, LexError>)
    ensures Prepend(a, Prepend(b, r)) == Prepend(a + b, r)
  {
    if r.Ok? {
      assert a + (b + r.value) == (a + b) + r.value;
    }
  }

  /** The loop of `scanTokens` from cursor `pos`: the tokens it appends, or the first failure. */
  function TokensFrom(s: string, pos: nat): (r: Result<seq<Token>, LexError>)
    ensures r.Ok? ==> forall i :: 0 <= i < |r.value| ==> r.value[i].tokenType != EndOfFile
    decreases |s| - pos
  {
    if pos >= |s| then Ok([])
    else match TokenAt(s, pos)
      case Err(e) => Err(e)
      case Ok(Skip(next)) => TokensFrom(s, next)
      case Ok(Emit(t, next)) => Prepend([t], TokensFrom(s, next))
  }

  /** The token `scanTokens` appends after the loop. */
  const EofToken: Token := Token(EndOfFile, "", None)

  /**
   * `scanTokens` on a lexer that already holds `tokens` and whose cursor is
   * at `pos`: the tokens it holds, the ones scanned from `pos`, then
   * END_OF_FILE; or the first failure.
   */
  function ScanResult(s: string, tokens: seq<Token>, pos: nat): (r: Result<seq<Token>, LexError>)
    ensures r.Ok? ==> |r.value| > |tokens| && r.value[..|tokens|] == tokens && r.value[|r.value| - 1] == EofToken
    ensures r.Err? <==> TokensFrom(s, pos).Err?
    ensures r.Err? ==> r.error == TokensFrom(s, pos).error
    ensures r.Ok? ==> r.value[|tokens|..|r.value| - 1] == TokensFrom(s, pos).value
    ensures r.Ok? ==> forall i :: |tokens| <= i < |r.value| - 1 ==> r.value[i].tokenType != EndOfFile
  {
    match TokensFrom(s, pos)
    case Ok(ts) =>
      assert (tokens + ts + [EofToken])[|tokens|..|tokens| + |ts|] == ts;
      Ok(tokens + ts + [EofToken])
    case Err(e) => Err(e)
  }

  /** `scanTokens` on a fresh lexer: the scanned tokens followed by exactly one END_OF_FILE. */
  function Lex(s: string): (r: Result<seq<Token>, LexError>)
    ensures r.Ok? ==> |r.value| > 0 && r.value[|r.value| - 1] == EofToken
    ensures r.Ok? ==> forall i :: 0 <= i < |r.value| - 1 ==> r.value[i].tokenType != EndOfFile
    ensures r == ScanResult(s, [], 0)
  {
    match TokensFrom(s, 0)
    case Ok(ts) =>
      assert [] + ts == ts;
      Ok(ts + [EofToken])
    case Err(e) => Err(e)
  }
}
