/** The token record the lexer emits and the parser consumes. */
module Tokens {
  import opened Wrappers
  import opened TokenTypes

  /**
   * A double-precision number. The library never inspects a number: it
   * converts a lexeme with `atof` and prints it back with `std::to_string`.
   * A number is therefore kept as the decimal text it was converted from,
   * and printing is a parameter of the serialisers.
   */
  datatype Double = Atof(text: string)

  /** The payload a token may carry: the converted number, the string body, or a boolean. */
  datatype Literal = DoubleLiteral(number: Double) | StringLiteral(text: string) | BoolLiteral(flag: bool)

  /** Kind, source text, and the optional literal payload. */
  datatype Token = Token(tokenType: TokenType, lexeme: string, literal: Option<Literal>)

  /** Why a checked literal extraction threw. */
  datatype TokenError =
    | NotOfType     // "Value is not of type number" (the message of both specialisations)
    | WrongLiteral  // "Wrong type": the payload is absent or of another kind
    | NoOverload    // "No overload for this type exists"

  /** `LiteralValue<T>::clone`: a new payload holding the same value. */
  function CloneLiteral(l: Literal): (r: Literal)
    ensures r == l
  {
    match l
    case DoubleLiteral(d) => DoubleLiteral(d)
    case StringLiteral(s) => StringLiteral(s)
    case BoolLiteral(b) => BoolLiteral(b)
  }

  /** The copy constructor: same kind and lexeme, the payload cloned, an absent payload stays absent. */
  function Copy(other: Token): (r: Token)
    ensures r == other
  {
    Token(other.tokenType, other.lexeme,
          match other.literal
          case None => None
          case Some(l) => Some(CloneLiteral(l)))
  }

  /**
   * Copy assignment `target = source`. `sameObject` says whether both sides
   * are one object (the `this != &other` test); then nothing changes.
   */
  function CopyAssign(target: Token, source: Token, sameObject: bool): (r: Token)
    requires sameObject ==> target == source
    ensures r == source
    ensures sameObject ==> r == target
  {
    if sameObject then target else Copy(source)
  }

  /** `toString`: the kind's name, one space, the lexeme. */
  function ToString(t: Token): (r: string)
    ensures |r| == |TokenTypeToString(t.tokenType)| + 1 + |t.lexeme|
    ensures r[|TokenTypeToString(t.tokenType)|] == ' '
    ensures forall k :: 0 <= k < |TokenTypeToString(t.tokenType)| ==> r[k] != ' '
  {
    TokenTypeToString(t.tokenType) + " " + t.lexeme
  }

  /** Index of the first space in `s`, or `|s|` when there is none. */
  function FirstSpace(s: string): (i: nat)
    ensures i <= |s|
    ensures i < |s| ==> s[i] == ' '
    ensures forall k :: 0 <= k < i ==> s[k] != ' '
  {
    if s == [] then 0
    else if s[0] == ' ' then 0
    else 1 + FirstSpace(s[1..])
  }

  /** Reads a `toString` text back into kind and lexeme. */
  function SplitTokenString(s: string): Option<(TokenType, string)> {
    var i := FirstSpace(s);
    if i == |s| then None
    else match TokenTypeFromString(s[..i])
      case None => None
      case Some(k) => Some((k, s[i + 1..]))
  }

  /** `toString` loses nothing: kind and lexeme can be read back from it. */
  lemma ToStringRoundTrip(t: Token)
    ensures SplitTokenString(ToString(t)) == Some((t.tokenType, t.lexeme))
  {
    var name := TokenTypeToString(t.tokenType);
    var s := ToString(t);
    assert s == name + " " + t.lexeme;
    assert s[|name|] == ' ';
    assert forall k :: 0 <= k < |name| ==> s[k] == name[k] && s[k] != ' ';
    var i := FirstSpace(s);
    assert i == |name|;
    assert s[..i] == name;
    assert s[i + 1..] == t.lexeme;
  }

  /** `GetLiteralValueAs<double>`: only a NUMBER token carrying a double payload yields it. */
  function LiteralAsDouble(t: Token): (r: Result<Double, TokenError>)
    ensures r.Ok? <==> t.tokenType == NumberLit && t.literal.Some? && t.literal.value.DoubleLiteral?
    ensures r.Ok? ==> t.literal == Some(DoubleLiteral(r.value))
    ensures t.tokenType != NumberLit ==> r == Err(NotOfType)
  {
    if t.tokenType != NumberLit then Err(NotOfType)
    else match t.literal
      case Some(DoubleLiteral(d)) => Ok(d)
      case _ => Err(WrongLiteral)
  }

  /** `GetLiteralValueAs<std::string>`: only a STRING token carrying a string payload yields it. */
  function LiteralAsString(t: Token): (r: Result<string, TokenError>)
    ensures r.Ok? <==> t.tokenType == StringLit && t.literal.Some? && t.literal.value.StringLiteral?
    ensures r.Ok? ==> t.literal == Some(StringLiteral(r.value))
    ensures t.tokenType != StringLit ==> r == Err(NotOfType)
  {
    if t.tokenType != StringLit then Err(NotOfType)
    else match t.literal
      case Some(StringLiteral(s)) => Ok(s)
      case _ => Err(WrongLiteral)
  }

  /** `GetLiteralValueAs<T>` for any other `T`: always throws. */
  function LiteralAsOther<T>(t: Token): (r: Result<T, TokenError>)
    ensures r.Err? && r.error == NoOverload
  {
    Err(NoOverload)
  }
}
