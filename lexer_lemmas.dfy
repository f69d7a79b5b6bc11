/** What the lexer promises about its output, proved on the functional lexer. */
module LexerProperties {
  import opened Wrappers
  import opened TokenTypes
  import opened Tokens
  import opened LexerSpec

  /**
   * Reading `s` from `pos`, whitespace is skipped between tokens and every
   * other character belongs to exactly one lexeme of `ts`, in order: the
   * lexemes are consecutive slices of the source.
   */
  predicate Tiles(s: string, pos: nat, ts: seq<Token>)
    decreases |s| - pos
  {
    if pos >= |s| then ts == []
    else if IsWhitespace(s[pos]) then Tiles(s, pos + 1, ts)
    else
      |ts| > 0 && 0 < |ts[0].lexeme| && pos + |ts[0].lexeme| <= |s|
      && s[pos..pos + |ts[0].lexeme|] == ts[0].lexeme
      && Tiles(s, pos + |ts[0].lexeme|, ts[1..])
  }

  lemma {:induction false} TokensFromTiles(s: string, pos: nat)
    requires TokensFrom(s, pos).Ok?
    ensures Tiles(s, pos, TokensFrom(s, pos).value)
    decreases |s| - pos
  {
    if pos < |s| {
      var step := TokenAt(s, pos).value;
      TokensFromTiles(s, step.next);
      var rest := TokensFrom(s, step.next).value;
      if step.Skip? {
        assert TokensFrom(s, pos).value == rest;
        TilesSkip(s, pos, rest);
      } else {
        assert TokensFrom(s, pos).value == [step.token] + rest;
        TilesEmit(s, pos, step.token, step.next, rest);
      }
    }
  }

  lemma TilesSkip(s: string, pos: nat, ts: seq<Token>)
    requires pos < |s| && IsWhitespace(s[pos]) && Tiles(s, pos + 1, ts)
    ensures Tiles(s, pos, ts)
  {
  }

  lemma TilesEmit(s: string, pos: nat, t: Token, next: nat, ts: seq<Token>)
    requires pos < next <= |s| && !IsWhitespace(s[pos]) && t.lexeme == s[pos..next] && Tiles(s, next, ts)
    ensures Tiles(s, pos, [t] + ts)
  {
    assert ([t] + ts)[1..] == ts;
  }

  /** `scanTokens` passes over whitespace. */
  lemma TokensFromSkip(s: string, pos: nat)
    requires pos < |s| && IsWhitespace(s[pos])
    ensures TokensFrom(s, pos) == TokensFrom(s, pos + 1)
  {
  }

  /** `scanTokens` appends the token `scanToken` reads, then goes on where it ends. */
  lemma TokensFromEmit(s: string, pos: nat, t: Token, next: nat)
    requires pos < |s| && TokenAt(s, pos) == Ok(Emit(t, next))
    ensures TokensFrom(s, pos) == Prepend([t], TokensFrom(s, next))
  {
  }

  /** The tokens before END_OF_FILE tile the whole source. */
  lemma LexTiles(s: string)
    requires Lex(s).Ok?
    ensures Tiles(s, 0, Lex(s).value[..|Lex(s).value| - 1])
  {
    TokensFromTiles(s, 0);
    assert Lex(s).value[..|Lex(s).value| - 1] == TokensFrom(s, 0).value;
  }

  /** The three keywords, each with its token type, its literal and its error. */
  datatype Keyword = Keyword(word: string, kind: TokenType, literal: Option<Literal>, failure: LexError)

  function KeywordOf(c: char): Option<Keyword> {
    if c == 't' || c == 'T' then Some(Keyword("true", TrueLit, Some(BoolLiteral(true)), MalformedTrue))
    else if c == 'f' || c == 'F' then Some(Keyword("false", FalseLit, Some(BoolLiteral(false)), MalformedFalse))
    else if c == 'n' || c == 'N' then Some(Keyword("null", NullLit, None, MalformedNull))
    else None
  }

  /** `a` spells `w` with each letter in either case. */
  predicate SameIgnoringCase(a: string, w: string) {
    |a| == |w| && forall k :: 0 <= k < |a| ==> LetterIs(a[k], w[k])
  }

  /**
   * A keyword is recognised exactly when all its letters follow, each in
   * either case; otherwise lexing fails with the keyword's own error.
   */
  lemma KeywordTokens(s: string, start: nat)
    requires start < |s| && KeywordOf(s[start]).Some?
    ensures var k := KeywordOf(s[start]).value;
            var n := start + |k.word|;
            TokenAt(s, start) ==
              if n <= |s| && SameIgnoringCase(s[start..n], k.word)
              then Ok(Emit(Token(k.kind, s[start..n], k.literal), n))
              else Err(k.failure)
  {
    var k := KeywordOf(s[start]).value;
    KeywordDispatch(s, start);
    KeywordRead(s, start, k.word, k.kind, k.literal, k.failure);
  }

  /** `scanToken` on a keyword's first letter, in either case, reads the keyword's other letters. */
  lemma KeywordDispatch(s: string, start: nat)
    requires start < |s| && KeywordOf(s[start]).Some?
    ensures var k := KeywordOf(s[start]).value;
            |k.word| > 0 && LetterIs(s[start], k.word[0])
            && TokenAt(s, start) == KeywordTokenAt(s, start, k.word[1..], k.kind, k.literal, k.failure)
  {
    assert "true"[1..] == "rue" && "false"[1..] == "alse" && "null"[1..] == "ull";
  }

  /** Reading the letters after the first: all of them, each in either case, or the keyword's error. */
  lemma KeywordRead(s: string, start: nat, word: string, kind: TokenType, literal: Option<Literal>, failure: LexError)
    requires start < |s| && |word| > 0 && LetterIs(s[start], word[0])
    ensures var n := start + |word|;
            KeywordTokenAt(s, start, word[1..], kind, literal, failure) ==
              if n <= |s| && SameIgnoringCase(s[start..n], word)
              then Ok(Emit(Token(kind, s[start..n], literal), n))
              else Err(failure)
  {
    KeywordLetters(s, start, word);
  }

  /** The letters after the first follow in either case exactly when the whole word does. */
  lemma KeywordLetters(s: string, start: nat, word: string)
    requires start < |s| && |word| > 0 && LetterIs(s[start], word[0])
    ensures KeywordAt(s, start + 1, word[1..]) <==>
              start + |word| <= |s| && SameIgnoringCase(s[start..start + |word|], word)
  {
    var n := start + |word|;
    var rest := word[1..];
    if KeywordAt(s, start + 1, rest) {
      var a := s[start..n];
      forall i | 0 <= i < |a| ensures LetterIs(a[i], word[i]) {
        if i > 0 {
          assert a[i] == s[start + 1 + (i - 1)];
          assert word[i] == rest[i - 1];
        }
      }
    }
    if n <= |s| && SameIgnoringCase(s[start..n], word) {
      var a := s[start..n];
      forall i | 0 <= i < |rest| ensures LetterIs(s[start + 1 + i], rest[i]) {
        assert s[start + 1 + i] == a[i + 1];
      }
    }
  }

  /** A string payload the lexer can produce: every quote is escaped and the text does not end in a backslash. */
  predicate StringSafe(p: string) {
    (forall k :: 0 <= k < |p| && p[k] == '"' ==> k > 0 && p[k - 1] == '\\')
    && (|p| > 0 ==> p[|p| - 1] != '\\')
  }

  /**
   * A string token runs from its opening quote to the first quote that a
   * backslash does not precede; the literal is the text between the quotes,
   * kept verbatim. Without such a quote, lexing fails.
   */
  lemma StringToken(s: string, start: nat)
    requires start < |s| && s[start] == '"'
    ensures TokenAt(s, start).Ok? <==> exists q :: start < q && Closes(s, q)
    ensures TokenAt(s, start).Err? ==> TokenAt(s, start).error == UnterminatedString
    ensures TokenAt(s, start).Ok? ==>
              var q := TokenAt(s, start).value.next - 1;
              start < q && Closes(s, q) && (forall k :: start < k < q ==> !Closes(s, k))
              && TokenAt(s, start).value ==
                   Emit(Token(StringLit, s[start..q + 1], Some(StringLiteral(s[start + 1..q]))), q + 1)
              && StringSafe(s[start + 1..q])
  {
    match ClosingQuote(s, start + 1)
    case None =>
      forall q | start < q && Closes(s, q) ensures false {
      }
    case Some(q) =>
      var p := s[start + 1..q];
      forall k | 0 <= k < |p| && p[k] == '"' ensures k > 0 && p[k - 1] == '\\' {
        assert !Closes(s, start + 1 + k);
      }
      if |p| > 0 {
        assert PeekPrevAt(s, q) == p[|p| - 1];
      }
  }

  /** The literal text of a number: one or more digits, then an optional fraction, then an optional exponent. */
  predicate NumberShaped(w: string) {
    DigitsThen(w, 0)
  }

  /**
   * `w` is a run of digits (here a digit is `0`-`9` or `-`), followed at stage
   * 0 by an optional `.` and a run, and at stage 0 or 1 by an optional `e`/`E`
   * and a run.
   */
  predicate DigitsThen(w: string, stage: nat)
    decreases |w|
  {
    |w| > 0 && IsDigit(w[0]) &&
    (|w| == 1
     || DigitsThen(w[1..], stage)
     || (stage == 0 && w[1] == '.' && DigitsThen(w[2..], 1))
     || (stage <= 1 && (w[1] == 'e' || w[1] == 'E') && DigitsThen(w[2..], 2)))
  }

  /** What may follow a digit run at `stage`: a fraction (stage 0) or an exponent (stage 0 or 1). */
  predicate RunTail(t: string, stage: nat) {
    |t| >= 2 &&
    ((stage == 0 && t[0] == '.' && DigitsThen(t[1..], 1))
     || (stage <= 1 && (t[0] == 'e' || t[0] == 'E') && DigitsThen(t[1..], 2)))
  }

  lemma {:induction false} RunShape(s: string, i: nat, n: nat, stage: nat)
    requires i < |s| && IsDigit(s[i])
    requires DigitRunEnd(s, i) <= n <= |s|
    requires DigitRunEnd(s, i) == n || RunTail(s[DigitRunEnd(s, i)..n], stage)
    ensures DigitsThen(s[i..n], stage)
    decreases |s| - i
  {
    var j := DigitRunEnd(s, i);
    var w := s[i..n];
    if i + 1 == j {
      if j < n {
        assert w[1..] == s[j..n];
        assert w[2..] == s[j..n][1..];
      }
    } else {
      RunShape(s, i + 1, n, stage);
      assert w[1..] == s[i + 1..n];
    }
  }

  lemma ExponentShape(s: string, b: nat)
    requires b <= |s| && !IsDigit(PeekAt(s, b))
    ensures b <= ExponentEnd(s, b) <= |s|
    ensures ExponentEnd(s, b) == b || RunTail(s[b..ExponentEnd(s, b)], 1)
  {
    var e := ExponentEnd(s, b);
    if (PeekAt(s, b) == 'e' || PeekAt(s, b) == 'E') && IsDigit(PeekAt(s, b + 1)) {
      RunShape(s, b + 1, e, 2);
      assert s[b..e][1..] == s[b + 1..e];
    }
  }

  lemma FractionShape(s: string, a: nat)
    requires a <= |s| && !IsDigit(PeekAt(s, a))
    ensures a <= FractionEnd(s, a) <= |s|
    ensures FractionEnd(s, a) == a || RunTail(s[a..FractionEnd(s, a)], 0)
  {
    var e := FractionEnd(s, a);
    if PeekAt(s, a) == '.' && IsDigit(PeekAt(s, a + 1)) {
      var b := DigitRunEnd(s, a + 1);
      ExponentShape(s, b);
      RunShape(s, a + 1, e, 1);
      assert s[a..e][1..] == s[a + 1..e];
    } else {
      ExponentShape(s, a);
    }
  }

  /** The text `ReadNumber` consumes from a digit at `start` has the number shape. */
  lemma NumberEndShape(s: string, start: nat)
    requires start < |s| && IsDigit(s[start])
    ensures NumberShaped(s[start..NumberEnd(s, start + 1)])
  {
    var a := DigitRunEnd(s, start + 1);
    assert DigitRunEnd(s, start) == a;
    assert NumberEnd(s, start + 1) == FractionEnd(s, a);
    FractionShape(s, a);
    RunShape(s, start, FractionEnd(s, a), 0);
  }

  /**
   * `ReadNumber` from a digit or minus sign: a NUMBER token whose lexeme has
   * the number shape, whose literal is `atof` of the lexeme, and which no
   * further digit follows.
   */
  lemma NumberToken(s: string, start: nat)
    requires start < |s| && IsDigit(s[start])
    ensures TokenAt(s, start).Ok? && TokenAt(s, start).value.Emit?
    ensures var st := TokenAt(s, start).value;
            st.token.tokenType == NumberLit
            && st.token.literal == Some(DoubleLiteral(Atof(st.token.lexeme)))
            && NumberShaped(st.token.lexeme)
            && !IsDigit(PeekAt(s, st.next))
  {
    assert TokenAt(s, start) == NumberTokenAt(s, start);
    NumberEndShape(s, start);
  }

  /** What may follow a number for `ReadNumber` to stop right before it: no digit, dot or exponent letter. */
  predicate Delimits(c: char) {
    !IsDigit(c) && c != '.' && c != 'e' && c != 'E'
  }

  /**
   * Where `ReadNumber` stops when it is inside a digit run at `j`: at stage 0
   * a fraction and an exponent may still follow, at stage 1 only an
   * exponent, at stage 2 neither.
   */
  function StageEnd(s: string, j: nat, stage: nat): nat
    requires j <= |s|
  {
    var a := DigitRunEnd(s, j);
    if stage == 0 then FractionEnd(s, a) else if stage == 1 then ExponentEnd(s, a) else a
  }

  lemma {:induction false} StageEndShaped(s: string, i: nat, w: string, stage: nat)
    requires DigitsThen(w, stage) && i + |w| <= |s| && s[i..i + |w|] == w && Delimits(PeekAt(s, i + |w|))
    ensures StageEnd(s, i + 1, stage) == i + |w|
    decreases |w|, 1
  {
    assert s[i] == w[0];
    if |w| == 1 {
      assert DigitRunEnd(s, i + 1) == i + 1;
      assert ExponentEnd(s, i + 1) == i + 1;
    } else if IsDigit(w[1]) {
      StageEndDigit(s, i, w, stage);
    } else {
      StageEndMark(s, i, w, stage);
    }
  }

  /** A digit follows the first one: the run goes on. */
  lemma {:induction false} StageEndDigit(s: string, i: nat, w: string, stage: nat)
    requires DigitsThen(w, stage) && i + |w| <= |s| && s[i..i + |w|] == w && Delimits(PeekAt(s, i + |w|))
    requires |w| > 1 && IsDigit(w[1])
    ensures StageEnd(s, i + 1, stage) == i + |w|
    decreases |w|, 0
  {
    assert s[i + 1] == w[1];
    assert s[i + 1..i + 1 + |w[1..]|] == w[1..];
    assert w[1..][0] == w[1];
    assert DigitsThen(w[1..], stage);
    StageEndShaped(s, i + 1, w[1..], stage);
    assert DigitRunEnd(s, i + 1) == DigitRunEnd(s, i + 2);
  }

  /** A `.` or an exponent letter follows the first digit: the run ends and the next stage begins. */
  lemma {:induction false} StageEndMark(s: string, i: nat, w: string, stage: nat)
    requires DigitsThen(w, stage) && i + |w| <= |s| && s[i..i + |w|] == w && Delimits(PeekAt(s, i + |w|))
    requires |w| > 1 && !IsDigit(w[1])
    ensures StageEnd(s, i + 1, stage) == i + |w|
    decreases |w|, 0
  {
    assert s[i + 1] == w[1];
    assert w[1..][0] == w[1];
    assert !DigitsThen(w[1..], stage);
    var next := if w[1] == '.' then 1 else 2;
    assert DigitsThen(w[2..], next);
    assert w[2..][0] == w[2];
    assert s[i + 2..i + 2 + |w[2..]|] == w[2..];
    assert s[i + 2] == w[2];
    assert DigitRunEnd(s, i + 1) == i + 1;
    assert DigitRunEnd(s, i + 2) == DigitRunEnd(s, i + 3);
    StageEndShaped(s, i + 2, w[2..], next);
  }

  /**
   * The converse of `NumberToken`: a number-shaped text that nothing
   * number-like follows is read as one NUMBER token with exactly that lexeme.
   */
  lemma NumberTokenShaped(s: string, start: nat, w: string)
    requires NumberShaped(w) && start + |w| <= |s| && s[start..start + |w|] == w && Delimits(PeekAt(s, start + |w|))
    ensures TokenAt(s, start) == Ok(Emit(Token(NumberLit, w, Some(DoubleLiteral(Atof(w)))), start + |w|))
  {
    StageEndShaped(s, start, w, 0);
    assert NumberEnd(s, start + 1) == StageEnd(s, start + 1, 0);
    assert s[start] == w[0];
    assert TokenAt(s, start) == NumberTokenAt(s, start);
  }

  /**
   * The converse of `StringToken`: a quoted text whose inner quotes are all
   * escaped and which does not end in a backslash is read as one STRING token
   * whose literal is the text between the quotes.
   */
  lemma QuotedStringToken(s: string, start: nat, p: string)
    requires StringSafe(p) && start + |p| + 2 <= |s| && s[start..start + |p| + 2] == "\"" + p + "\""
    ensures TokenAt(s, start) == Ok(Emit(Token(StringLit, "\"" + p + "\"", Some(StringLiteral(p))), start + |p| + 2))
  {
    var text := "\"" + p + "\"";
    var q := start + |p| + 1;
    forall k | start + 1 <= k < q ensures !Closes(s, k) {
      assert s[k] == text[k - start] == p[k - start - 1];
      if s[k] == '"' {
        assert s[k - 1] == text[k - 1 - start] == p[k - start - 2];
      }
    }
    assert s[q] == text[|p| + 1];
    assert s[q - 1] == text[|p|];
    assert Closes(s, q);
    assert ClosingQuote(s, start + 1) == Some(q);
    forall k | 0 <= k < |p| ensures s[start + 1..q][k] == p[k] {
      assert s[start + 1 + k] == text[k + 1];
    }
    assert s[start + 1..q] == p;
    assert s[start] == '"';
    assert TokenAt(s, start) == StringTokenAt(s, start);
  }

  /** `1e-5` is one number: the minus sign after `e` counts as a digit. */
  lemma ExponentWithMinus()
    ensures Lex("1e-5") == Ok([Token(NumberLit, "1e-5", Some(DoubleLiteral(Atof("1e-5")))), EofToken])
  {
    var s := "1e-5";
    assert DigitRunEnd(s, 4) == 4;
    assert DigitRunEnd(s, 3) == 4;
    assert DigitRunEnd(s, 2) == 4;
    assert DigitRunEnd(s, 1) == 1;
    assert NumberEnd(s, 1) == 4;
    assert s[0..4] == s;
    var t := Token(NumberLit, s, Some(DoubleLiteral(Atof(s))));
    assert TokenAt(s, 0) == NumberTokenAt(s, 0) == Ok(Emit(t, 4));
    assert TokensFrom(s, 4) == Ok([]);
    assert [t] + [] == [t];
    assert TokensFrom(s, 0) == Ok([t]);
    assert [t] + [EofToken] == [t, EofToken];
  }

  /** `1e+5` stops after `1`, and `e` then starts no token. */
  lemma ExponentWithPlusFails()
    ensures Lex("1e+5") == Err(UnexpectedCharacter)
  {
    var s := "1e+5";
    assert DigitRunEnd(s, 1) == 1;
    assert NumberEnd(s, 1) == 1;
    assert TokenAt(s, 0) == NumberTokenAt(s, 0);
    assert TokenAt(s, 1) == Err(UnexpectedCharacter);
    assert TokensFrom(s, 1) == Err(UnexpectedCharacter);
  }

  /** `--` is read as one NUMBER token. */
  lemma MinusSignsAreANumber()
    ensures Lex("--") == Ok([Token(NumberLit, "--", Some(DoubleLiteral(Atof("--")))), EofToken])
  {
    var s := "--";
    assert DigitRunEnd(s, 2) == 2;
    assert DigitRunEnd(s, 1) == 2;
    assert NumberEnd(s, 1) == 2;
    assert s[0..2] == s;
    var t := Token(NumberLit, s, Some(DoubleLiteral(Atof(s))));
    assert TokenAt(s, 0) == NumberTokenAt(s, 0) == Ok(Emit(t, 2));
    assert TokensFrom(s, 2) == Ok([]);
    assert [t] + [] == [t];
    assert TokensFrom(s, 0) == Ok([t]);
    assert [t] + [EofToken] == [t, EofToken];
  }

  /** Keywords are read in any mix of cases. */
  lemma MixedCaseKeyword()
    ensures Lex(" TrUe") == Ok([Token(TrueLit, "TrUe", Some(BoolLiteral(true))), EofToken])
  {
    var s := " TrUe";
    assert LetterIs(s[2], 'r') && LetterIs(s[3], 'u') && LetterIs(s[4], 'e');
    assert KeywordAt(s, 2, "rue");
    assert s[1..5] == "TrUe";
    var t := Token(TrueLit, "TrUe", Some(BoolLiteral(true)));
    assert TokenAt(s, 1) == Ok(Emit(t, 5));
    assert TokensFrom(s, 5) == Ok([]);
    assert [t] + [] == [t];
    assert TokensFrom(s, 1) == Ok([t]);
    assert TokensFrom(s, 0) == Ok([t]);
    assert [t] + [EofToken] == [t, EofToken];
  }

  /** An escaped quote does not close a string, and the backslash stays in the literal. */
  lemma EscapedQuoteStaysInString()
    ensures Lex("\"a\\\"b\"") ==
              Ok([Token(StringLit, "\"a\\\"b\"", Some(StringLiteral("a\\\"b"))), EofToken])
  {
    var s := "\"a\\\"b\"";
    assert !Closes(s, 1) && !Closes(s, 2) && !Closes(s, 3) && !Closes(s, 4) && Closes(s, 5);
    assert ClosingQuote(s, 5) == Some(5);
    assert ClosingQuote(s, 1) == Some(5);
    assert s[0..6] == s && s[1..5] == "a\\\"b";
    var t := Token(StringLit, s, Some(StringLiteral("a\\\"b")));
    assert TokenAt(s, 0) == StringTokenAt(s, 0) == Ok(Emit(t, 6));
    assert TokensFrom(s, 6) == Ok([]);
    assert [t] + [] == [t];
    assert TokensFrom(s, 0) == Ok([t]);
    assert [t] + [EofToken] == [t, EofToken];
  }
}
