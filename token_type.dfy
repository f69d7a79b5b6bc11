/** The token kinds produced by the lexer and their printable names. */
module TokenTypes {
  import opened Wrappers

  datatype TokenType =
    // punctuation
    | LBrace | RBrace | LBracket | RBracket | Comma | Colon
    // literals
    | StringLit | NumberLit | TrueLit | FalseLit | NullLit
    // end
    | EndOfFile | Invalid

  /** Every kind, in declaration order. */
  const AllTokenTypes: seq<TokenType> :=
    [LBrace, RBrace, LBracket, RBracket, Comma, Colon,
     StringLit, NumberLit, TrueLit, FalseLit, NullLit,
     EndOfFile, Invalid]

  predicate IsPunctuation(t: TokenType) {
    t in {LBrace, RBrace, LBracket, RBracket, Comma, Colon}
  }

  predicate IsLiteralKind(t: TokenType) {
    t in {StringLit, NumberLit, TrueLit, FalseLit, NullLit}
  }

  /** The enumeration is closed: six punctuation kinds, five literal kinds, the end marker and INVALID. */
  lemma ThirteenTokenTypes()
    ensures |AllTokenTypes| == 13
    ensures forall i, j :: 0 <= i < j < |AllTokenTypes| ==> AllTokenTypes[i] != AllTokenTypes[j]
    ensures forall t: TokenType :: t in AllTokenTypes
    ensures forall i :: 0 <= i < |AllTokenTypes| ==> (IsPunctuation(AllTokenTypes[i]) <==> i < 6)
    ensures forall i :: 0 <= i < |AllTokenTypes| ==> (IsLiteralKind(AllTokenTypes[i]) <==> 6 <= i < 11)
  {
    forall t: TokenType ensures t in AllTokenTypes {
      match t
      case LBrace => assert AllTokenTypes[0] == t;
      case RBrace => assert AllTokenTypes[1] == t;
      case LBracket => assert AllTokenTypes[2] == t;
      case RBracket => assert AllTokenTypes[3] == t;
      case Comma => assert AllTokenTypes[4] == t;
      case Colon => assert AllTokenTypes[5] == t;
      case StringLit => assert AllTokenTypes[6] == t;
      case NumberLit => assert AllTokenTypes[7] == t;
      case TrueLit => assert AllTokenTypes[8] == t;
      case FalseLit => assert AllTokenTypes[9] == t;
      case NullLit => assert AllTokenTypes[10] == t;
      case EndOfFile => assert AllTokenTypes[11] == t;
      case Invalid => assert AllTokenTypes[12] == t;
    }
  }

  /** The name of a kind: the enumerator's own spelling. */
  function TokenTypeToString(t: TokenType): (name: string)
    ensures name != "UNKNOWN"
    ensures |name| > 0 && ' ' !in name
    ensures TokenTypeFromString(name) == Some(t)
  {
    match t
    case LBrace => "LBRACE"
    case RBrace => "RBRACE"
    case LBracket => "LBRACKET"
    case RBracket => "RBRACKET"
    case Comma => "COMMA"
    case Colon => "COLON"
    case StringLit => "STRING"
    case NumberLit => "NUMBER"
    case TrueLit => "TRUE_LITERAL"
    case FalseLit => "FALSE_LITERAL"
    case NullLit => "NULL_LITERAL"
    case EndOfFile => "END_OF_FILE"
    case Invalid => "INVALID"
  }

  /** Reads a kind back from its name; `None` for any other text. */
  function TokenTypeFromString(name: string): (r: Option<TokenType>)
    ensures name == "UNKNOWN" ==> r == None
  {
    if name == "LBRACE" then Some(LBrace)
    else if name == "RBRACE" then Some(RBrace)
    else if name == "LBRACKET" then Some(LBracket)
    else if name == "RBRACKET" then Some(RBracket)
    else if name == "COMMA" then Some(Comma)
    else if name == "COLON" then Some(Colon)
    else if name == "STRING" then Some(StringLit)
    else if name == "NUMBER" then Some(NumberLit)
    else if name == "TRUE_LITERAL" then Some(TrueLit)
    else if name == "FALSE_LITERAL" then Some(FalseLit)
    else if name == "NULL_LITERAL" then Some(NullLit)
    else if name == "END_OF_FILE" then Some(EndOfFile)
    else if name == "INVALID" then Some(Invalid)
    else None
  }

  /** Distinct kinds have distinct names. */
  lemma TokenTypeNamesDistinct(a: TokenType, b: TokenType)
    ensures a != b ==> TokenTypeToString(a) != TokenTypeToString(b)
  {
    assert TokenTypeFromString(TokenTypeToString(a)) == Some(a);
    assert TokenTypeFromString(TokenTypeToString(b)) == Some(b);
  }
}
