/**
 * The parser object: it runs its lexer, then walks the tokens with a cursor,
 * one recursive call per nested object or array. Every method is proved to
 * return what the functional parser in module ParserSpec returns.
 */
module Parser {
  import opened Wrappers
  import opened TokenTypes
  import opened Tokens
  import opened LexerSpec
  import opened Lexer
  import opened Elements
  import opened ParserSpec

  class JsonParser {
    const lexer: JsonLexer
    var tokens: seq<Token>
    var curser: nat

    /** A parser over the given text (the file contents `ReadSourceFile` would load). */
    constructor(source: string)
      ensures fresh(lexer)
      ensures lexer.source == source && lexer.tokens == [] && lexer.curser == 0 && lexer.curserStart == 0
      ensures tokens == [] && curser == 0
    {
      lexer := new JsonLexer(source);
      tokens := [];
      curser := 0;
    }

    function Peek(): (t: Token)
      reads this
      ensures t == PeekToken(tokens, curser)
    {
      if curser < |tokens| then tokens[curser] else EmptyToken
    }

    function IsEnd(): (b: bool)
      reads this
      ensures b <==> curser >= |tokens|
    {
      curser >= |tokens|
    }

    method GetNext() returns (t: Token)
      requires curser < |tokens|
      modifies this`curser
      ensures t == tokens[old(curser)] && curser == old(curser) + 1
    {
      t := tokens[curser];
      curser := curser + 1;
    }

    /** `_parse`: scan all tokens, then read the root object or array. */
    method Parse() returns (r: Result<Element, Error>)
      requires lexer.curser <= |lexer.source|
      modifies this, lexer
      ensures r == ParseLexed(ScanResult(lexer.source, old(lexer.tokens), old(lexer.curser)))
      ensures old(lexer.tokens) == [] && old(lexer.curser) == 0 ==> r == ParseJson(lexer.source)
    {
      curser := 0;
      var scanned := lexer.ScanTokens();
      if scanned.Err? {
        return Err(LexFailure(scanned.error));
      }
      tokens := scanned.value;
      var root: Result<Element, ParseError>;
      if Peek().tokenType != LBrace && Peek().tokenType != LBracket {
        root := Err(InvalidStart);
      } else if Peek().tokenType == LBrace {
        var _ := GetNext();
        root := BeginParseObject();
      } else {
        var _ := GetNext();
        root := BeginParseArray();
      }
      match root
      case Ok(e) => r := Ok(e);
      case Err(err) => r := Err(ParseFailure(err));
    }

    /** The value switch of both loops, for the token `tok` just consumed. */
    method ParseValue(tok: Token) returns (r: Result<Element, ParseError>)
      requires curser <= |tokens|
      modifies this`curser
      ensures match ParserSpec.ParseValue(tokens, old(curser), tok)
              case Ok((e, p)) => r == Ok(e) && curser == p
              case Err(err) => r == Err(err)
      decreases |tokens| - curser, 3
    {
      if tok.tokenType == LBrace {
        r := BeginParseObject();
      } else if tok.tokenType == LBracket {
        r := BeginParseArray();
      } else if IsLeaf(tok.tokenType) {
        r := LeafElement(tok);
      } else {
        r := Err(UnexpectedToken);
      }
    }

    /** The body of the `BeginParseObject` loop up to the value switch: key, colon, value. */
    method ReadMember(key: Token) returns (r: Result<(string, Element), ParseError>)
      requires 0 < curser <= |tokens| && key == tokens[curser - 1]
      modifies this`curser
      ensures match MemberAt(tokens, old(curser) - 1)
              case Ok((k, v, p)) => r == Ok((k, v)) && curser == p
              case Err(err) => r == Err(err)
      decreases |tokens| - curser, 1
    {
      if curser + 1 >= |tokens| {
        return Err(ReadPastEnd);
      }
      var delimiter := GetNext();
      var value := GetNext();
      if key.tokenType != StringLit || delimiter.tokenType != Colon {
        return Err(UnexpectedToken);
      }
      var keyStr := LiteralAsString(key);
      if keyStr.Err? {
        return Err(LiteralError(keyStr.error));
      }
      var element := ParseValue(value);
      if element.Err? {
        return Err(element.error);
      }
      r := Ok((keyStr.value, element.value));
    }

    /** `BeginParseObject`, entered just after `{`. */
    method BeginParseObject() returns (r: Result<Element, ParseError>)
      requires curser <= |tokens|
      modifies this`curser
      ensures match ObjectLoop(tokens, old(curser), [])
              case Ok((e, p)) => r == Ok(e) && curser == p
              case Err(err) => r == Err(err)
      decreases |tokens| - curser, 2
    {
      var container: seq<Member> := [];
      while !IsEnd()
        invariant old(curser) <= curser <= |tokens|
        invariant ObjectLoop(tokens, curser, container) == ObjectLoop(tokens, old(curser), [])
        decreases |tokens| - curser
      {
        ghost var pos := curser;
        ghost var acc := container;
        var key := GetNext();
        if key.tokenType == RBrace {
          if |container| != 0 {
            return Err(EarlyClose);
          }
          return Ok(Obj(container));
        }
        var member := ReadMember(key);
        if member.Err? {
          return Err(member.error);
        }
        ghost var next := curser;
        container := Emplace(container, member.value.0, member.value.1);
        ObjectLoopAfterMember(tokens, pos, acc, member.value.0, member.value.1, next);
        var after := Peek().tokenType;
        if after == Comma {
          var _ := GetNext();
        } else if after == RBrace {
          var _ := GetNext();
          return Ok(Obj(container));
        }
      }
      return Ok(Obj(container));
    }

    /** `BeginParseArray`, entered just after `[`. */
    method BeginParseArray() returns (r: Result<Element, ParseError>)
      requires curser <= |tokens|
      modifies this`curser
      ensures match ArrayLoop(tokens, old(curser), [])
              case Ok((e, p)) => r == Ok(e) && curser == p
              case Err(err) => r == Err(err)
      decreases |tokens| - curser, 2
    {
      var container: seq<Element> := [];
      while !IsEnd()
        invariant old(curser) <= curser <= |tokens|
        invariant ArrayLoop(tokens, curser, container) == ArrayLoop(tokens, old(curser), [])
        decreases |tokens| - curser
      {
        ghost var pos := curser;
        ghost var acc := container;
        var value := GetNext();
        assert value == tokens[pos];
        if value.tokenType == RBracket {
          return Ok(Arr(container));
        }
        var element := ParseValue(value);
        if element.Err? {
          assert ArrayLoop(tokens, pos, acc) == Err(element.error);
          return Err(element.error);
        }
        ghost var next := curser;
        container := container + [element.value];
        ArrayLoopAfterValue(tokens, pos, acc, element.value, next);
        var after := Peek().tokenType;
        if after == Comma {
          var _ := GetNext();
          assert ArrayLoop(tokens, curser, container) == ArrayLoop(tokens, pos, acc);
        } else if after == RBracket {
          var _ := GetNext();
          return Ok(Arr(container));
        } else {
          assert ArrayLoop(tokens, curser, container) == ArrayLoop(tokens, pos, acc);
        }
      }
      return Ok(Arr(container));
    }
  }
}
