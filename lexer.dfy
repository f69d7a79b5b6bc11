/**
 * The lexer object: a cursor over the source text that appends tokens to its
 * token list, one `scanToken` at a time. Every method is proved to do what the
 * functional lexer in module LexerSpec says.
 */
module Lexer {
  import opened Wrappers
  import opened TokenTypes
  import opened Tokens
  import opened LexerSpec

  class JsonLexer {
    /** The text `ReadSourceFile` loaded. */
    const source: string
    var tokens: seq<Token>
    /** Where the token being scanned began. */
    var curserStart: nat
    var curser: nat

    constructor(source: string)
      ensures this.source == source
      ensures tokens == [] && curserStart == 0 && curser == 0
    {
      this.source := source;
      tokens := [];
      curserStart := 0;
      curser := 0;
    }

    function Peek(): (c: char)
      reads this
      ensures c == PeekAt(source, curser)
    {
      if curser < |source| then source[curser] else NUL
    }

    function PeekPrev(): (c: char)
      reads this
      ensures c == PeekPrevAt(source, curser)
    {
      if curser - 1 > 0 && curser - 1 < |source| then source[curser - 1] else NUL
    }

    function PeekNext(): (c: char)
      reads this
      ensures c == PeekAt(source, curser + 1)
    {
      if curser + 1 < |source| then source[curser + 1] else NUL
    }

    function IsEnd(): (b: bool)
      reads this
      ensures b <==> curser >= |source|
    {
      curser >= |source|
    }

    /** Reads the current character (NUL at the end, as `std::string` keeps one there) and advances. */
    method GetNext() returns (c: char)
      requires curser <= |source|
      modifies this`curser
      ensures c == PeekAt(source, old(curser))
      ensures curser == old(curser) + 1
    {
      c := if curser < |source| then source[curser] else NUL;
      curser := curser + 1;
    }

    /** Appends a token whose lexeme is the text scanned since `curserStart`. */
    method AddToken(kind: TokenType, literal: Option<Literal>)
      requires curserStart <= curser <= |source|
      modifies this`tokens
      ensures tokens == old(tokens) + [Token(kind, source[curserStart..curser], literal)]
    {
      tokens := tokens + [Token(kind, source[curserStart..curser], literal)];
    }

    /** Scans the whole rest of the source, then appends END_OF_FILE. */
    method ScanTokens() returns (r: Result<seq<Token>, LexError>)
      requires curser <= |source|
      modifies this
      ensures r == ScanResult(source, old(tokens), old(curser))
      ensures r.Ok? ==> tokens == r.value
    {
      ghost var expected := Prepend(tokens, TokensFrom(source, curser));
      while !IsEnd()
        invariant curser <= |source|
        invariant Prepend(tokens, TokensFrom(source, curser)) == expected
        decreases |source| - curser
      {
        curserStart := curser;
        ghost var before := tokens;
        var step := ScanToken();
        if step.Fail? {
          return Err(step.error);
        }
        match TokenAt(source, curserStart)
        case Ok(Skip(_)) =>
        case Ok(Emit(t, _)) =>
          PrependTwice(before, [t], TokensFrom(source, curser));
      }
      assert TokensFrom(source, curser) == Ok([]);
      assert tokens + [] == tokens;
      tokens := tokens + [EofToken];
      return Ok(tokens);
    }

    /** `scanToken`: consumes one character and whatever token it starts. */
    method ScanToken() returns (r: Outcome<LexError>)
      requires curserStart == curser < |source|
      modifies this`tokens, this`curser
      ensures match TokenAt(source, old(curser))
              case Err(e) => r == Fail(e)
              case Ok(Skip(next)) => r == Pass && curser == next && tokens == old(tokens)
              case Ok(Emit(t, next)) => r == Pass && curser == next && tokens == old(tokens) + [t]
    {
      var c := GetNext();
      assert source[old(curser)..curser] == [c];
      match c
      case '[' => AddToken(LBracket, None); r := Pass;
      case ']' => AddToken(RBracket, None); r := Pass;
      case '{' => AddToken(LBrace, None); r := Pass;
      case '}' => AddToken(RBrace, None); r := Pass;
      case ',' => AddToken(Comma, None); r := Pass;
      case ':' => AddToken(Colon, None); r := Pass;
      case '"' => r := ReadString();
      case 't' => r := ReadTrueLiteral();
      case 'T' => r := ReadTrueLiteral();
      case 'f' => r := ReadFalseLiteral();
      case 'F' => r := ReadFalseLiteral();
      case 'n' => r := ReadNullLiteral();
      case 'N' => r := ReadNullLiteral();
      case ' ' => r := Pass;
      case '\r' => r := Pass;
      case '\t' => r := Pass;
      case '\n' => r := Pass;
      case _ =>
        if IsDigit(c) {
          ReadNumber();
          r := Pass;
        } else {
          r := Fail(UnexpectedCharacter);
        }
    }

    /** `while (isDigit(Peek())) GetNext();`, the digit run `ReadNumber` reads three times. */
    method SkipDigits()
      requires curser <= |source|
      modifies this`curser
      ensures curser == DigitRunEnd(source, old(curser))
    {
      while IsDigit(Peek())
        invariant old(curser) <= curser <= |source|
        invariant DigitRunEnd(source, curser) == DigitRunEnd(source, old(curser))
        decreases |source| - curser
      {
        var _ := GetNext();
      }
    }

    /** `ReadNumber`, entered just after the first digit or minus sign. */
    method ReadNumber()
      requires curserStart < |source| && curser == curserStart + 1
      modifies this`tokens, this`curser
      ensures curser == NumberEnd(source, old(curser))
      ensures tokens == old(tokens) +
                [Token(NumberLit, source[curserStart..curser], Some(DoubleLiteral(Atof(source[curserStart..curser]))))]
    {
      SkipDigits();
      ghost var a := curser;
      if Peek() == '.' && IsDigit(PeekNext()) {
        var _ := GetNext();
        SkipDigits();
      }
      assert ExponentEnd(source, curser) == FractionEnd(source, a);
      ghost var b := curser;
      if (Peek() == 'e' || Peek() == 'E') && IsDigit(PeekNext()) {
        var _ := GetNext();
      }
      assert DigitRunEnd(source, curser) == ExponentEnd(source, b);
      SkipDigits();
      AddToken(NumberLit, Some(DoubleLiteral(Atof(source[curserStart..curser]))));
    }

    /** `ReadTrueLiteral`, entered just after `t` or `T`. */
    method ReadTrueLiteral() returns (r: Outcome<LexError>)
      requires curserStart < |source| && curser == curserStart + 1
      modifies this`tokens, this`curser
      ensures r.Pass? <==> KeywordAt(source, old(curser), "rue")
      ensures r.Fail? ==> r.error == MalformedTrue
      ensures r.Pass? ==> curser == old(curser) + 3
                          && tokens == old(tokens) + [Token(TrueLit, source[curserStart..curser], Some(BoolLiteral(true)))]
    {
      KeywordAtStep(source, curser, "rue");
      assert "rue"[1..] == "ue";
      KeywordAtStep(source, curser + 1, "ue");
      assert "ue"[1..] == "e";
      KeywordAtStep(source, curser + 2, "e");
      assert "e"[1..] == "";
      var c := GetNext();
      if c != 'r' && c != 'R' { return Fail(MalformedTrue); }
      c := GetNext();
      if c != 'u' && c != 'U' { return Fail(MalformedTrue); }
      c := GetNext();
      if c != 'e' && c != 'E' { return Fail(MalformedTrue); }
      AddToken(TrueLit, Some(BoolLiteral(true)));
      r := Pass;
    }

    /** `ReadFalseLiteral`, entered just after `f` or `F`. */
    method ReadFalseLiteral() returns (r: Outcome<LexError>)
      requires curserStart < |source| && curser == curserStart + 1
      modifies this`tokens, this`curser
      ensures r.Pass? <==> KeywordAt(source, old(curser), "alse")
      ensures r.Fail? ==> r.error == MalformedFalse
      ensures r.Pass? ==> curser == old(curser) + 4
                          && tokens == old(tokens) + [Token(FalseLit, source[curserStart..curser], Some(BoolLiteral(false)))]
    {
      KeywordAtStep(source, curser, "alse");
      assert "alse"[1..] == "lse";
      KeywordAtStep(source, curser + 1, "lse");
      assert "lse"[1..] == "se";
      KeywordAtStep(source, curser + 2, "se");
      assert "se"[1..] == "e";
      KeywordAtStep(source, curser + 3, "e");
      assert "e"[1..] == "";
      var c := GetNext();
      if c != 'a' && c != 'A' { return Fail(MalformedFalse); }
      c := GetNext();
      if c != 'l' && c != 'L' { return Fail(MalformedFalse); }
      c := GetNext();
      if c != 's' && c != 'S' { return Fail(MalformedFalse); }
      c := GetNext();
      if c != 'e' && c != 'E' { return Fail(MalformedFalse); }
      AddToken(FalseLit, Some(BoolLiteral(false)));
      r := Pass;
    }

    /** `ReadNullLiteral`, entered just after `n` or `N`. */
    method ReadNullLiteral() returns (r: Outcome<LexError>)
      requires curserStart < |source| && curser == curserStart + 1
      modifies this`tokens, this`curser
      ensures r.Pass? <==> KeywordAt(source, old(curser), "ull")
      ensures r.Fail? ==> r.error == MalformedNull
      ensures r.Pass? ==> curser == old(curser) + 3
                          && tokens == old(tokens) + [Token(NullLit, source[curserStart..curser], None)]
    {
      KeywordAtStep(source, curser, "ull");
      assert "ull"[1..] == "ll";
      KeywordAtStep(source, curser + 1, "ll");
      assert "ll"[1..] == "l";
      KeywordAtStep(source, curser + 2, "l");
      assert "l"[1..] == "";
      var c := GetNext();
      if c != 'u' && c != 'U' { return Fail(MalformedNull); }
      c := GetNext();
      if c != 'l' && c != 'L' { return Fail(MalformedNull); }
      c := GetNext();
      if c != 'l' && c != 'L' { return Fail(MalformedNull); }
      AddToken(NullLit, None);
      r := Pass;
    }

    /** `ReadString`, entered just after the opening quote. */
    method ReadString() returns (r: Outcome<LexError>)
      requires curserStart < |source| && curser == curserStart + 1
      modifies this`tokens, this`curser
      ensures match ClosingQuote(source, old(curser))
              case None => r == Fail(UnterminatedString)
              case Some(q) =>
                r == Pass && curser == q + 1
                && tokens == old(tokens) + [Token(StringLit, source[curserStart..q + 1], Some(StringLiteral(source[curserStart + 1..q])))]
    {
      ghost var q := ClosingQuote(source, curser);
      while (Peek() != '"' || PeekPrev() == '\\') && !IsEnd()
        modifies this`curser
        invariant curser <= |source| && ClosingQuote(source, curser) == q
        decreases |source| - curser
      {
        var _ := GetNext();
      }
      if IsEnd() {
        return Fail(UnterminatedString);
      }
      var _ := GetNext();
      var value := source[curserStart + 1..curser - 1];
      AddToken(StringLit, Some(StringLiteral(value)));
      r := Pass;
    }
  }
}
