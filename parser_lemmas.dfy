/**
 * What the recursive-descent parser guarantees: when `_parse` reports an
 * invalid start, where a successful parse stops, that nothing after the root
 * container's closer is read, that the tree it builds is well formed, and
 * that a repeated key keeps its first value. The last part pins the quirks of
 * the object and array loops down on small token sequences.
 */
module ParserProperties {
  import opened Wrappers
  import opened TokenTypes
  import opened Tokens
  import opened LexerSpec
  import opened Elements
  import opened ParserSpec

  // ------------------------------------------------------------ invalid start

  /** Only `_parse` itself reports an invalid start: the value switch never does. */
  lemma {:induction false} ValueNotInvalidStart(ts: seq<Token>, pos: nat, tok: Token)
    requires pos <= |ts|
    ensures ParseValue(ts, pos, tok) != Err(InvalidStart)
    decreases |ts| - pos, 3
  {
    if tok.tokenType == LBrace {
      ObjectNotInvalidStart(ts, pos, []);
    } else if tok.tokenType == LBracket {
      ArrayNotInvalidStart(ts, pos, []);
    }
  }

  lemma {:induction false} MemberNotInvalidStart(ts: seq<Token>, pos: nat)
    requires pos <= |ts|
    ensures MemberAt(ts, pos) != Err(InvalidStart)
    decreases |ts| - pos, 1
  {
    if pos + 2 < |ts| {
      ValueNotInvalidStart(ts, pos + 3, ts[pos + 2]);
    }
  }

  lemma {:induction false} ObjectNotInvalidStart(ts: seq<Token>, pos: nat, acc: seq<Member>)
    requires pos <= |ts|
    ensures ObjectLoop(ts, pos, acc) != Err(InvalidStart)
    decreases |ts| - pos, 2
  {
    if pos < |ts| && ts[pos].tokenType != RBrace {
      MemberNotInvalidStart(ts, pos);
      if MemberAt(ts, pos).Ok? {
        var (key, v, next) := MemberAt(ts, pos).value;
        ObjectNextNotInvalidStart(ts, next, Emplace(acc, key, v));
      }
    }
  }

  lemma {:induction false} ObjectNextNotInvalidStart(ts: seq<Token>, next: nat, members: seq<Member>)
    requires next <= |ts|
    ensures ObjectNext(ts, next, members) != Err(InvalidStart)
    decreases |ts| - next, 3
  {
    var after := PeekToken(ts, next).tokenType;
    if after == Comma {
      ObjectNotInvalidStart(ts, next + 1, members);
    } else if after != RBrace {
      ObjectNotInvalidStart(ts, next, members);
    }
  }

  lemma {:induction false} ArrayNotInvalidStart(ts: seq<Token>, pos: nat, acc: seq<Element>)
    requires pos <= |ts|
    ensures ArrayLoop(ts, pos, acc) != Err(InvalidStart)
    decreases |ts| - pos, 2
  {
    if pos < |ts| && ts[pos].tokenType != RBracket {
      ValueNotInvalidStart(ts, pos + 1, ts[pos]);
      if ParseValue(ts, pos + 1, ts[pos]).Ok? {
        var (v, next) := ParseValue(ts, pos + 1, ts[pos]).value;
        ArrayNextNotInvalidStart(ts, next, acc + [v]);
      }
    }
  }

  lemma {:induction false} ArrayNextNotInvalidStart(ts: seq<Token>, next: nat, items: seq<Element>)
    requires next <= |ts|
    ensures ArrayNext(ts, next, items) != Err(InvalidStart)
    decreases |ts| - next, 3
  {
    var after := PeekToken(ts, next).tokenType;
    if after == Comma {
      ArrayNotInvalidStart(ts, next + 1, items);
    } else if after != RBracket {
      ArrayNotInvalidStart(ts, next, items);
    }
  }

  /** `_parse` fails with an invalid start exactly when the first token is neither `{` nor `[`. */
  lemma ParseRootInvalidStart(ts: seq<Token>)
    ensures ParseRoot(ts) == Err(InvalidStart) <==>
              PeekToken(ts, 0).tokenType != LBrace && PeekToken(ts, 0).tokenType != LBracket
  {
    if PeekToken(ts, 0).tokenType == LBrace {
      ObjectNotInvalidStart(ts, 1, []);
    } else if PeekToken(ts, 0).tokenType == LBracket {
      ArrayNotInvalidStart(ts, 1, []);
    }
  }

  // ------------------------------------------------- where a parse stops

  /** Ends in END_OF_FILE, as every token sequence the lexer returns does. */
  predicate EofTerminated(ts: seq<Token>) {
    |ts| > 0 && ts[|ts| - 1].tokenType == EndOfFile
  }

  /**
   * With an END_OF_FILE terminator a value never ends past the last real
   * token. `tok` is the token just consumed, so it sits at `pos - 1`.
   */
  lemma {:induction false} ValueEndsBeforeEof(ts: seq<Token>, pos: nat, tok: Token)
    requires EofTerminated(ts) && 0 < pos <= |ts| && tok == ts[pos - 1]
    ensures ParseValue(ts, pos, tok).Ok? ==> ParseValue(ts, pos, tok).value.1 < |ts|
    decreases |ts| - pos, 3
  {
    if tok.tokenType == LBrace {
      ObjectEndsAtBrace(ts, pos, []);
    } else if tok.tokenType == LBracket {
      ArrayEndsAtBracket(ts, pos, []);
    }
  }

  lemma {:induction false} MemberEndsBeforeEof(ts: seq<Token>, pos: nat)
    requires EofTerminated(ts) && pos < |ts|
    ensures MemberAt(ts, pos).Ok? ==> MemberAt(ts, pos).value.2 < |ts|
    decreases |ts| - pos, 1
  {
    if pos + 2 < |ts| {
      ValueEndsBeforeEof(ts, pos + 3, ts[pos + 2]);
    }
  }

  /**
   * With an END_OF_FILE terminator, the object loop succeeds only by
   * consuming a `}` before the terminator. The loop's own end-of-tokens
   * return (`BeginParseObject`'s last line) would leave the cursor at the end
   * of the tokens, so it is never taken.
   */
  lemma {:induction false} ObjectEndsAtBrace(ts: seq<Token>, pos: nat, acc: seq<Member>)
    requires EofTerminated(ts) && pos < |ts|
    ensures var r := ObjectLoop(ts, pos, acc);
            r.Ok? ==> r.value.1 < |ts| && ts[r.value.1 - 1].tokenType == RBrace
    decreases |ts| - pos, 2
  {
    if ts[pos].tokenType != RBrace {
      MemberEndsBeforeEof(ts, pos);
      if MemberAt(ts, pos).Ok? {
        var (key, v, next) := MemberAt(ts, pos).value;
        ObjectNextEndsAtBrace(ts, next, Emplace(acc, key, v));
      }
    }
  }

  lemma {:induction false} ObjectNextEndsAtBrace(ts: seq<Token>, next: nat, members: seq<Member>)
    requires EofTerminated(ts) && next < |ts|
    ensures var r := ObjectNext(ts, next, members);
            r.Ok? ==> r.value.1 < |ts| && ts[r.value.1 - 1].tokenType == RBrace
    decreases |ts| - next, 3
  {
    var after := ts[next].tokenType;
    if after == Comma {
      ObjectEndsAtBrace(ts, next + 1, members);
    } else if after != RBrace {
      ObjectEndsAtBrace(ts, next, members);
    }
  }

  /** The same for the array loop and `]`; its end-of-tokens return is never taken either. */
  lemma {:induction false} ArrayEndsAtBracket(ts: seq<Token>, pos: nat, acc: seq<Element>)
    requires EofTerminated(ts) && pos < |ts|
    ensures var r := ArrayLoop(ts, pos, acc);
            r.Ok? ==> r.value.1 < |ts| && ts[r.value.1 - 1].tokenType == RBracket
    decreases |ts| - pos, 2
  {
    if ts[pos].tokenType != RBracket {
      ValueEndsBeforeEof(ts, pos + 1, ts[pos]);
      if ParseValue(ts, pos + 1, ts[pos]).Ok? {
        var (v, next) := ParseValue(ts, pos + 1, ts[pos]).value;
        ArrayNextEndsAtBracket(ts, next, acc + [v]);
      }
    }
  }

  lemma {:induction false} ArrayNextEndsAtBracket(ts: seq<Token>, next: nat, items: seq<Element>)
    requires EofTerminated(ts) && next < |ts|
    ensures var r := ArrayNext(ts, next, items);
            r.Ok? ==> r.value.1 < |ts| && ts[r.value.1 - 1].tokenType == RBracket
    decreases |ts| - next, 3
  {
    var after := ts[next].tokenType;
    if after == Comma {
      ArrayEndsAtBracket(ts, next + 1, items);
    } else if after != RBracket {
      ArrayEndsAtBracket(ts, next, items);
    }
  }

  // ------------------------------------------- nothing after the closer is read

  /** `ts` and `ts2` both have at least `n` tokens and agree on the first `n`. */
  predicate Agree(ts: seq<Token>, ts2: seq<Token>, n: nat) {
    n <= |ts| && n <= |ts2| && ts[..n] == ts2[..n]
  }

  lemma AgreeShorter(ts: seq<Token>, ts2: seq<Token>, n: nat, m: nat)
    requires Agree(ts, ts2, n) && m <= n
    ensures Agree(ts, ts2, m)
    ensures forall i :: 0 <= i < n ==> ts[i] == ts2[i]
  {
    assert ts[..m] == ts[..n][..m];
    assert ts2[..m] == ts2[..n][..m];
    forall i | 0 <= i < n ensures ts[i] == ts2[i] {
      assert ts[i] == ts[..n][i];
      assert ts2[i] == ts2[..n][i];
    }
  }

  /**
   * A value that ends at `p` before the end of `ts` reads only the first `p`
   * tokens: any token sequence agreeing with `ts` on them gives the same result.
   */
  lemma {:induction false} ValuePrefix(ts: seq<Token>, ts2: seq<Token>, pos: nat, tok: Token)
    requires pos <= |ts| && ParseValue(ts, pos, tok).Ok?
    requires ParseValue(ts, pos, tok).value.1 < |ts| && Agree(ts, ts2, ParseValue(ts, pos, tok).value.1)
    ensures pos <= |ts2| && ParseValue(ts2, pos, tok) == ParseValue(ts, pos, tok)
    decreases |ts| - pos, 3
  {
    if tok.tokenType == LBrace {
      ObjectPrefix(ts, ts2, pos, []);
    } else if tok.tokenType == LBracket {
      ArrayPrefix(ts, ts2, pos, []);
    }
  }

  lemma {:induction false} MemberPrefix(ts: seq<Token>, ts2: seq<Token>, pos: nat)
    requires pos <= |ts| && MemberAt(ts, pos).Ok?
    requires MemberAt(ts, pos).value.2 < |ts| && Agree(ts, ts2, MemberAt(ts, pos).value.2)
    ensures pos <= |ts2| && MemberAt(ts2, pos) == MemberAt(ts, pos)
    decreases |ts| - pos, 1
  {
    var next := MemberAt(ts, pos).value.2;
    AgreeShorter(ts, ts2, next, next);
    ValuePrefix(ts, ts2, pos + 3, ts[pos + 2]);
  }

  lemma {:induction false} ObjectPrefix(ts: seq<Token>, ts2: seq<Token>, pos: nat, acc: seq<Member>)
    requires pos <= |ts| && ObjectLoop(ts, pos, acc).Ok?
    requires ObjectLoop(ts, pos, acc).value.1 < |ts| && Agree(ts, ts2, ObjectLoop(ts, pos, acc).value.1)
    ensures pos <= |ts2| && ObjectLoop(ts2, pos, acc) == ObjectLoop(ts, pos, acc)
    decreases |ts| - pos, 2
  {
    var p := ObjectLoop(ts, pos, acc).value.1;
    AgreeShorter(ts, ts2, p, p);
    if ts[pos].tokenType != RBrace {
      var (key, v, next) := MemberAt(ts, pos).value;
      AgreeShorter(ts, ts2, p, next);
      MemberPrefix(ts, ts2, pos);
      ObjectNextPrefix(ts, ts2, next, Emplace(acc, key, v));
    }
  }

  lemma {:induction false} ObjectNextPrefix(ts: seq<Token>, ts2: seq<Token>, next: nat, members: seq<Member>)
    requires next <= |ts| && ObjectNext(ts, next, members).Ok?
    requires ObjectNext(ts, next, members).value.1 < |ts| && Agree(ts, ts2, ObjectNext(ts, next, members).value.1)
    ensures next <= |ts2| && ObjectNext(ts2, next, members) == ObjectNext(ts, next, members)
    decreases |ts| - next, 3
  {
    var p := ObjectNext(ts, next, members).value.1;
    AgreeShorter(ts, ts2, p, p);
    var after := PeekToken(ts, next).tokenType;
    if after == Comma {
      ObjectPrefix(ts, ts2, next + 1, members);
    } else if after != RBrace {
      ObjectPrefix(ts, ts2, next, members);
    }
  }

  lemma {:induction false} ArrayPrefix(ts: seq<Token>, ts2: seq<Token>, pos: nat, acc: seq<Element>)
    requires pos <= |ts| && ArrayLoop(ts, pos, acc).Ok?
    requires ArrayLoop(ts, pos, acc).value.1 < |ts| && Agree(ts, ts2, ArrayLoop(ts, pos, acc).value.1)
    ensures pos <= |ts2| && ArrayLoop(ts2, pos, acc) == ArrayLoop(ts, pos, acc)
    decreases |ts| - pos, 2
  {
    var p := ArrayLoop(ts, pos, acc).value.1;
    AgreeShorter(ts, ts2, p, p);
    if ts[pos].tokenType != RBracket {
      var (v, next) := ParseValue(ts, pos + 1, ts[pos]).value;
      AgreeShorter(ts, ts2, p, next);
      ValuePrefix(ts, ts2, pos + 1, ts[pos]);
      ArrayNextPrefix(ts, ts2, next, acc + [v]);
    }
  }

  lemma {:induction false} ArrayNextPrefix(ts: seq<Token>, ts2: seq<Token>, next: nat, items: seq<Element>)
    requires next <= |ts| && ArrayNext(ts, next, items).Ok?
    requires ArrayNext(ts, next, items).value.1 < |ts| && Agree(ts, ts2, ArrayNext(ts, next, items).value.1)
    ensures next <= |ts2| && ArrayNext(ts2, next, items) == ArrayNext(ts, next, items)
    decreases |ts| - next, 3
  {
    var p := ArrayNext(ts, next, items).value.1;
    AgreeShorter(ts, ts2, p, p);
    var after := PeekToken(ts, next).tokenType;
    if after == Comma {
      ArrayPrefix(ts, ts2, next + 1, items);
    } else if after != RBracket {
      ArrayPrefix(ts, ts2, next, items);
    }
  }

  /**
   * `_parse` on the lexer's output: a success stops at the root container's
   * closer, before END_OF_FILE, and whatever follows that closer is never
   * read, so replacing it leaves the result unchanged.
   */
  lemma ParseRootStopsAtCloser(ts: seq<Token>, ts2: seq<Token>)
    requires EofTerminated(ts) && ParseRoot(ts).Ok?
    ensures var (e, p) := ParseRoot(ts).value;
            p < |ts| && ts[p - 1].tokenType == (if e.Obj? then RBrace else RBracket)
    ensures var p := ParseRoot(ts).value.1;
            Agree(ts, ts2, p) ==> ParseRoot(ts2) == ParseRoot(ts)
  {
    var p := ParseRoot(ts).value.1;
    if ts[0].tokenType == LBrace {
      ObjectEndsAtBrace(ts, 1, []);
      if Agree(ts, ts2, p) {
        ObjectPrefix(ts, ts2, 1, []);
        AgreeShorter(ts, ts2, p, p);
      }
    } else {
      ArrayEndsAtBracket(ts, 1, []);
      if Agree(ts, ts2, p) {
        ArrayPrefix(ts, ts2, 1, []);
        AgreeShorter(ts, ts2, p, p);
      }
    }
  }

  // ------------------------------------------------------------ well formed

  lemma {:induction false} ValueWellFormed(ts: seq<Token>, pos: nat, tok: Token)
    requires pos <= |ts|
    ensures ParseValue(ts, pos, tok).Ok? ==> WellFormed(ParseValue(ts, pos, tok).value.0)
    decreases |ts| - pos, 3
  {
    if tok.tokenType == LBrace {
      ObjectWellFormed(ts, pos, []);
    } else if tok.tokenType == LBracket {
      ArrayWellFormed(ts, pos, []);
    }
  }

  lemma {:induction false} MemberWellFormed(ts: seq<Token>, pos: nat)
    requires pos <= |ts|
    ensures MemberAt(ts, pos).Ok? ==> WellFormed(MemberAt(ts, pos).value.1)
    decreases |ts| - pos, 1
  {
    if pos + 2 < |ts| {
      ValueWellFormed(ts, pos + 3, ts[pos + 2]);
    }
  }

  /** Starting from well-formed members, the object loop builds a well-formed object. */
  lemma {:induction false} ObjectWellFormed(ts: seq<Token>, pos: nat, acc: seq<Member>)
    requires pos <= |ts| && WellFormed(Obj(acc))
    ensures ObjectLoop(ts, pos, acc).Ok? ==> WellFormed(ObjectLoop(ts, pos, acc).value.0)
    decreases |ts| - pos, 2
  {
    if pos < |ts| && ts[pos].tokenType != RBrace {
      MemberWellFormed(ts, pos);
      if MemberAt(ts, pos).Ok? {
        var (key, v, next) := MemberAt(ts, pos).value;
        EmplaceWellFormed(acc, key, v);
        ObjectNextWellFormed(ts, next, Emplace(acc, key, v));
      }
    }
  }

  lemma {:induction false} ObjectNextWellFormed(ts: seq<Token>, next: nat, members: seq<Member>)
    requires next <= |ts| && WellFormed(Obj(members))
    ensures ObjectNext(ts, next, members).Ok? ==> WellFormed(ObjectNext(ts, next, members).value.0)
    decreases |ts| - next, 3
  {
    var after := PeekToken(ts, next).tokenType;
    if after == Comma {
      ObjectWellFormed(ts, next + 1, members);
    } else if after != RBrace {
      ObjectWellFormed(ts, next, members);
    }
  }

  /** Starting from well-formed items, the array loop builds a well-formed array. */
  lemma {:induction false} ArrayWellFormed(ts: seq<Token>, pos: nat, acc: seq<Element>)
    requires pos <= |ts| && WellFormed(Arr(acc))
    ensures ArrayLoop(ts, pos, acc).Ok? ==> WellFormed(ArrayLoop(ts, pos, acc).value.0)
    decreases |ts| - pos, 2
  {
    if pos < |ts| && ts[pos].tokenType != RBracket {
      ValueWellFormed(ts, pos + 1, ts[pos]);
      if ParseValue(ts, pos + 1, ts[pos]).Ok? {
        var (v, next) := ParseValue(ts, pos + 1, ts[pos]).value;
        AppendItemWellFormed(acc, v);
        ArrayNextWellFormed(ts, next, acc + [v]);
      }
    }
  }

  lemma {:induction false} ArrayNextWellFormed(ts: seq<Token>, next: nat, items: seq<Element>)
    requires next <= |ts| && WellFormed(Arr(items))
    ensures ArrayNext(ts, next, items).Ok? ==> WellFormed(ArrayNext(ts, next, items).value.0)
    decreases |ts| - next, 3
  {
    var after := PeekToken(ts, next).tokenType;
    if after == Comma {
      ArrayWellFormed(ts, next + 1, items);
    } else if after != RBracket {
      ArrayWellFormed(ts, next, items);
    }
  }

  /** Every document `Parse` returns has distinct keys in each of its objects. */
  lemma ParseJsonWellFormed(source: string)
    ensures ParseJson(source).Ok? ==> WellFormed(ParseJson(source).value)
  {
    var lexed := Lex(source);
    if lexed.Ok? {
      var ts := lexed.value;
      if PeekToken(ts, 0).tokenType == LBrace {
        ObjectWellFormed(ts, 1, []);
      } else if PeekToken(ts, 0).tokenType == LBracket {
        ArrayWellFormed(ts, 1, []);
      }
    }
  }

  // ------------------------------------------------------- null payloads

  lemma {:induction false} ValueNullsUnboxed(ts: seq<Token>, pos: nat, tok: Token)
    requires pos <= |ts|
    ensures ParseValue(ts, pos, tok).Ok? ==> NullsUnboxed(ParseValue(ts, pos, tok).value.0)
    decreases |ts| - pos, 3
  {
    if tok.tokenType == LBrace {
      ObjectNullsUnboxed(ts, pos, []);
    } else if tok.tokenType == LBracket {
      ArrayNullsUnboxed(ts, pos, []);
    }
  }

  lemma {:induction false} MemberNullsUnboxed(ts: seq<Token>, pos: nat)
    requires pos <= |ts|
    ensures MemberAt(ts, pos).Ok? ==> NullsUnboxed(MemberAt(ts, pos).value.1)
    decreases |ts| - pos, 1
  {
    if pos + 2 < |ts| {
      ValueNullsUnboxed(ts, pos + 3, ts[pos + 2]);
    }
  }

  /** Starting from members without boxed nulls, the object loop adds none. */
  lemma {:induction false} ObjectNullsUnboxed(ts: seq<Token>, pos: nat, acc: seq<Member>)
    requires pos <= |ts| && NullsUnboxed(Obj(acc))
    ensures ObjectLoop(ts, pos, acc).Ok? ==> NullsUnboxed(ObjectLoop(ts, pos, acc).value.0)
    decreases |ts| - pos, 2
  {
    if pos < |ts| && ts[pos].tokenType != RBrace {
      MemberNullsUnboxed(ts, pos);
      if MemberAt(ts, pos).Ok? {
        var (key, v, next) := MemberAt(ts, pos).value;
        if NullsUnboxed(v) {
          var ms := Emplace(acc, key, v);
          assert forall i :: 0 <= i < |ms| ==> (i < |acc| && ms[i] == acc[i]) || ms[i] == Member(key, v);
          ObjectNextNullsUnboxed(ts, next, ms);
        }
      }
    }
  }

  lemma {:induction false} ObjectNextNullsUnboxed(ts: seq<Token>, next: nat, members: seq<Member>)
    requires next <= |ts| && NullsUnboxed(Obj(members))
    ensures ObjectNext(ts, next, members).Ok? ==> NullsUnboxed(ObjectNext(ts, next, members).value.0)
    decreases |ts| - next, 3
  {
    var after := PeekToken(ts, next).tokenType;
    if after == Comma {
      ObjectNullsUnboxed(ts, next + 1, members);
    } else if after != RBrace {
      ObjectNullsUnboxed(ts, next, members);
    }
  }

  /** Starting from items without boxed nulls, the array loop adds none. */
  lemma {:induction false} ArrayNullsUnboxed(ts: seq<Token>, pos: nat, acc: seq<Element>)
    requires pos <= |ts| && NullsUnboxed(Arr(acc))
    ensures ArrayLoop(ts, pos, acc).Ok? ==> NullsUnboxed(ArrayLoop(ts, pos, acc).value.0)
    decreases |ts| - pos, 2
  {
    if pos < |ts| && ts[pos].tokenType != RBracket {
      ValueNullsUnboxed(ts, pos + 1, ts[pos]);
      if ParseValue(ts, pos + 1, ts[pos]).Ok? {
        var (v, next) := ParseValue(ts, pos + 1, ts[pos]).value;
        var items := acc + [v];
        assert forall i :: 0 <= i < |items| ==> items[i] == if i < |acc| then acc[i] else v;
        ArrayNextNullsUnboxed(ts, next, items);
      }
    }
  }

  lemma {:induction false} ArrayNextNullsUnboxed(ts: seq<Token>, next: nat, items: seq<Element>)
    requires next <= |ts| && NullsUnboxed(Arr(items))
    ensures ArrayNext(ts, next, items).Ok? ==> NullsUnboxed(ArrayNext(ts, next, items).value.0)
    decreases |ts| - next, 3
  {
    var after := PeekToken(ts, next).tokenType;
    if after == Comma {
      ArrayNullsUnboxed(ts, next + 1, items);
    } else if after != RBracket {
      ArrayNullsUnboxed(ts, next, items);
    }
  }

  /**
   * Every null in a parsed document has a null-pointer payload, so asking it
   * for a `nullptr_t` throws "Wrong type" and `TryGetValueAs` returns false.
   */
  lemma ParseJsonNullsUnboxed(source: string)
    ensures ParseJson(source).Ok? ==> NullsUnboxed(ParseJson(source).value)
  {
    var lexed := Lex(source);
    if lexed.Ok? {
      var ts := lexed.value;
      if PeekToken(ts, 0).tokenType == LBrace {
        ObjectNullsUnboxed(ts, 1, []);
      } else if PeekToken(ts, 0).tokenType == LBracket {
        ArrayNullsUnboxed(ts, 1, []);
      }
    }
  }

  // ------------------------------------------------- the first key wins

  /** The members read so far stay, in order, at the front of the object. */
  lemma {:induction false} ObjectKeepsEarlierMembers(ts: seq<Token>, pos: nat, acc: seq<Member>)
    requires pos <= |ts| && ObjectLoop(ts, pos, acc).Ok?
    ensures var ms := ObjectLoop(ts, pos, acc).value.0.members;
            |acc| <= |ms| && ms[..|acc|] == acc
    decreases |ts| - pos, 2
  {
    if pos < |ts| && ts[pos].tokenType != RBrace {
      var (key, v, next) := MemberAt(ts, pos).value;
      var members := Emplace(acc, key, v);
      assert |acc| <= |members| && members[..|acc|] == acc;
      ObjectNextKeepsMembers(ts, next, members);
      var ms := ObjectLoop(ts, pos, acc).value.0.members;
      assert ms[..|acc|] == ms[..|members|][..|acc|];
    }
  }

  lemma {:induction false} ObjectNextKeepsMembers(ts: seq<Token>, next: nat, members: seq<Member>)
    requires next <= |ts| && ObjectNext(ts, next, members).Ok?
    ensures var ms := ObjectNext(ts, next, members).value.0.members;
            |members| <= |ms| && ms[..|members|] == members
    decreases |ts| - next, 3
  {
    var after := PeekToken(ts, next).tokenType;
    if after == Comma {
      ObjectKeepsEarlierMembers(ts, next + 1, members);
    } else if after != RBrace {
      ObjectKeepsEarlierMembers(ts, next, members);
    }
  }

  /** `Lookup` finds a key of the front part of an object there. */
  lemma {:induction false} LookupInPrefix(ms: seq<Member>, n: nat, key: string)
    requires n <= |ms| && key in Keys(ms[..n])
    ensures Lookup(ms, key) == Lookup(ms[..n], key)
  {
    if ms[0].key != key {
      assert ms[..n][1..] == ms[1..][..n - 1];
      LookupInPrefix(ms[1..], n - 1, key);
    }
  }

  /**
   * A key already read keeps the value it was first given: whatever later
   * members of the same object say, the parsed object maps it as before.
   */
  lemma FirstValueWins(ts: seq<Token>, pos: nat, acc: seq<Member>, key: string)
    requires pos <= |ts| && ObjectLoop(ts, pos, acc).Ok? && key in Keys(acc)
    ensures Lookup(ObjectLoop(ts, pos, acc).value.0.members, key) == Lookup(acc, key)
  {
    ObjectKeepsEarlierMembers(ts, pos, acc);
    var ms := ObjectLoop(ts, pos, acc).value.0.members;
    LookupInPrefix(ms, |acc|, key);
  }

  // ------------------------------------------------------------ shapes

  /** A value starts with `{`, `[` or a literal token; the value switch rejects any other token. */
  lemma ValueStart(ts: seq<Token>, pos: nat, tok: Token)
    requires pos <= |ts|
    ensures ParseValue(ts, pos, tok).Ok? ==>
              tok.tokenType == LBrace || tok.tokenType == LBracket || IsLeaf(tok.tokenType)
    ensures !(tok.tokenType == LBrace || tok.tokenType == LBracket || IsLeaf(tok.tokenType)) ==>
              ParseValue(ts, pos, tok) == Err(UnexpectedToken)
  {
  }

  /**
   * An object member is a STRING key, a colon, then a value; a key of another
   * kind or a missing colon is rejected once the three tokens are there.
   */
  lemma MemberShape(ts: seq<Token>, pos: nat)
    requires pos <= |ts|
    ensures MemberAt(ts, pos).Ok? ==>
              pos + 2 < |ts| && ts[pos].tokenType == StringLit && ts[pos + 1].tokenType == Colon
              && ParseValue(ts, pos + 3, ts[pos + 2]).Ok?
    ensures pos + 2 < |ts| && (ts[pos].tokenType != StringLit || ts[pos + 1].tokenType != Colon) ==>
              MemberAt(ts, pos) == Err(UnexpectedToken)
  {
  }

  // ------------------------------------------------------ small documents

  function P(k: TokenType, c: char): Token { Token(k, [c], None) }
  function NumTok(text: string): Token { Token(NumberLit, text, Some(DoubleLiteral(Atof(text)))) }
  function StrTok(s: string): Token { Token(StringLit, "\"" + s + "\"", Some(StringLiteral(s))) }
  function One(): Element { Number(Atof("1")) }
  function Two(): Element { Number(Atof("2")) }

  /** `[1 2]`: the missing comma goes unnoticed and both items are kept. */
  lemma MissingCommaIgnored()
    ensures ParseTokens([P(LBracket, '['), NumTok("1"), NumTok("2"), P(RBracket, ']'), EofToken])
            == Ok(Arr([One(), Two()]))
  {
    var ts := [P(LBracket, '['), NumTok("1"), NumTok("2"), P(RBracket, ']'), EofToken];
    assert ParseValue(ts, 3, ts[2]) == Ok((Two(), 3));
    assert [One()] + [Two()] == [One(), Two()];
    assert ArrayNext(ts, 3, [One(), Two()]) == Ok((Arr([One(), Two()]), 4));
    assert ArrayLoop(ts, 2, [One()]) == Ok((Arr([One(), Two()]), 4));
    assert ArrayNext(ts, 2, [One()]) == Ok((Arr([One(), Two()]), 4));
    assert ParseValue(ts, 2, ts[1]) == Ok((One(), 2));
    assert [] + [One()] == [One()];
  }

  /**
   * `[null]` holds a null without payload: `GetValueAs<nullptr_t>` throws
   * "Wrong type", `TryGetValueAs` returns false and `operator>>` throws, while
   * the boxed null `Remove()` leaves behind is read as a `nullptr_t`.
   */
  lemma ParsedNullAccess()
    ensures ParseTokens([P(LBracket, '['), Token(NullLit, "null", None), P(RBracket, ']'), EofToken])
            == Ok(Arr([Null(false)]))
    ensures GetValueAs(Null(false), HostNull) == Err(WrongType)
    ensures TryGetValueAs(Null(false), HostNull) == None
    ensures Extract(Null(false), HostNull) == Err(WrongType)
    ensures GetValueAs(Null(true), HostNull) == Ok(Null(true))
  {
    var ts := [P(LBracket, '['), Token(NullLit, "null", None), P(RBracket, ']'), EofToken];
    assert ParseValue(ts, 2, ts[1]) == Ok((Null(false), 2));
    assert [] + [Null(false)] == [Null(false)];
    assert ArrayNext(ts, 2, [Null(false)]) == Ok((Arr([Null(false)]), 3));
    assert ArrayLoop(ts, 1, []) == Ok((Arr([Null(false)]), 3));
  }

  /** `[1,]` is accepted: `]` closes the array where the next item would start. */
  lemma TrailingCommaInArray()
    ensures ParseTokens([P(LBracket, '['), NumTok("1"), P(Comma, ','), P(RBracket, ']'), EofToken])
            == Ok(Arr([One()]))
  {
    var ts := [P(LBracket, '['), NumTok("1"), P(Comma, ','), P(RBracket, ']'), EofToken];
    assert ArrayLoop(ts, 3, [One()]) == Ok((Arr([One()]), 4));
    assert ArrayNext(ts, 2, [One()]) == Ok((Arr([One()]), 4));
    assert ParseValue(ts, 2, ts[1]) == Ok((One(), 2));
    assert [] + [One()] == [One()];
  }

  /** `[]` and `{}` are the empty array and object. */
  lemma EmptyContainers()
    ensures ParseTokens([P(LBracket, '['), P(RBracket, ']'), EofToken]) == Ok(Arr([]))
    ensures ParseTokens([P(LBrace, '{'), P(RBrace, '}'), EofToken]) == Ok(Obj([]))
  {
  }

  /** `{"a":1,}` fails: after a comma, `}` where a key belongs is rejected. */
  lemma TrailingCommaInObject()
    ensures ParseTokens([P(LBrace, '{'), StrTok("a"), P(Colon, ':'), NumTok("1"), P(Comma, ','),
                         P(RBrace, '}'), EofToken]) == Err(EarlyClose)
  {
    var ts := [P(LBrace, '{'), StrTok("a"), P(Colon, ':'), NumTok("1"), P(Comma, ','),
               P(RBrace, '}'), EofToken];
    assert ParseValue(ts, 4, ts[3]) == Ok((One(), 4));
    assert MemberAt(ts, 1) == Ok(("a", One(), 4));
    assert Keys([]) == [];
    var first := Emplace([], "a", One());
    assert |first| == 1;
    assert ObjectLoop(ts, 5, first) == Err(EarlyClose);
    assert ObjectNext(ts, 4, first) == Err(EarlyClose);
  }

  /** `{1:2}` fails: a key must be a string. */
  lemma NonStringKey()
    ensures ParseTokens([P(LBrace, '{'), NumTok("1"), P(Colon, ':'), NumTok("2"), P(RBrace, '}'), EofToken])
            == Err(UnexpectedToken)
  {
    var ts := [P(LBrace, '{'), NumTok("1"), P(Colon, ':'), NumTok("2"), P(RBrace, '}'), EofToken];
    assert ts[1].tokenType == NumberLit;
    assert MemberAt(ts, 1) == Err(UnexpectedToken);
  }

  /** `{"a":1,"a":2}`: the second `"a"` is dropped and the first value kept. */
  lemma DuplicateKeyKeepsFirst()
    ensures ParseTokens([P(LBrace, '{'), StrTok("a"), P(Colon, ':'), NumTok("1"), P(Comma, ','),
                         StrTok("a"), P(Colon, ':'), NumTok("2"), P(RBrace, '}'), EofToken])
            == Ok(Obj([Member("a", One())]))
  {
    var ts := [P(LBrace, '{'), StrTok("a"), P(Colon, ':'), NumTok("1"), P(Comma, ','),
               StrTok("a"), P(Colon, ':'), NumTok("2"), P(RBrace, '}'), EofToken];
    var first := [Member("a", One())];
    assert Keys(first) == ["a"];
    assert ParseValue(ts, 8, ts[7]) == Ok((Two(), 8));
    assert MemberAt(ts, 5) == Ok(("a", Two(), 8));
    assert Emplace(first, "a", Two()) == first;
    assert ObjectNext(ts, 8, first) == Ok((Obj(first), 9));
    assert ObjectLoop(ts, 5, first) == Ok((Obj(first), 9));
    assert ObjectNext(ts, 4, first) == Ok((Obj(first), 9));
    assert ParseValue(ts, 4, ts[3]) == Ok((One(), 4));
    assert MemberAt(ts, 1) == Ok(("a", One(), 4));
    assert Keys([]) == [];
    assert Emplace([], "a", One()) == first;
  }

  /** `{"a":[]}` at the root, then `]`: the stray token after the closer is never read. */
  lemma TrailingTokensIgnored()
    ensures ParseTokens([P(LBrace, '{'), StrTok("a"), P(Colon, ':'), P(LBracket, '['), P(RBracket, ']'),
                         P(RBrace, '}'), P(RBracket, ']'), EofToken])
            == Ok(Obj([Member("a", Arr([]))]))
  {
    var ts := [P(LBrace, '{'), StrTok("a"), P(Colon, ':'), P(LBracket, '['), P(RBracket, ']'),
               P(RBrace, '}'), P(RBracket, ']'), EofToken];
    assert ArrayLoop(ts, 4, []) == Ok((Arr([]), 5));
    assert ObjectNext(ts, 5, [Member("a", Arr([]))]) == Ok((Obj([Member("a", Arr([]))]), 6));
    assert ParseValue(ts, 4, ts[3]) == Ok((Arr([]), 5));
    assert MemberAt(ts, 1) == Ok(("a", Arr([]), 5));
    assert Keys([]) == [];
    assert Emplace([], "a", Arr([])) == [Member("a", Arr([]))];
  }
}
