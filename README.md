# JsonCPP in Dafny

A model of the core of JsonCPP, a header-only C++ JSON library, with proofs
about it. The library reads JSON in three stages:

- **Lexer.** `JsonLexer` moves a cursor over the source text and turns it into a
  vector of tokens that ends in END_OF_FILE.
- **Parser.** `JSONParser` is a recursive-descent parser over that vector. It
  builds a tree of `Element`s bottom-up.
- **Value model.** An `Element` is a tag plus a payload: a string, a number,
  a boolean, null, an object (a map from keys to elements) or an array. A
  null's payload is either a null pointer (what the parser and `Element()`
  build) or a boxed `nullptr_t` (what `From<nullptr_t>` and `Remove()`
  build); the model keeps that distinction as `Null(boxed)`, because only a
  boxed null can be read as a `nullptr_t`. Its
  typed accessors are checked; `Add`, `operator[]`, `operator<<` and the three
  `Remove`s change it in place. It prints in a compact form and in an
  indented form.

The model has the source's own shape:

- **Lexer and parser** are classes: `Lexer.JsonLexer` and `Parser.JsonParser`.
  Their cursor and token-list fields are updated by methods with `while`
  loops. Each method is proved to compute exactly what a functional
  specification computes: `LexerSpec` for the lexer, `ParserSpec` for the
  parser. The library's promises are then proved as lemmas about those
  functions, in `LexerProperties` and `ParserProperties`.
- **Token kinds and tokens** are datatypes with pure functions: `TokenTypes`
  and `Tokens`.
- **Elements** are a datatype (`Elements`). An object keeps its members as a
  sequence with distinct keys, in insertion order.
- **Element mutators** are methods of the class `Mutation.ElementSlot`, which
  holds one element.
- **Serialisers** are recursive functions (`Serializer`).
- **Round trips.** `RenderTokens` and `RenderText` prove that printing a
  well-formed object or array and parsing the text back gives the element
  with every number replaced by `atof` of its printed text and every null
  without payload (`Normalize`). This needs strings the lexer can delimit
  and numbers printed in the shape the lexer reads (`Printable`). It holds
  for the indented form and for the compact form with empty containers
  closed (`CompactFixed`); the compact form as written does not round-trip
  when a container is empty (see Findings).

Numbers are opaque. `Double = Atof(text)` stands for the double that `atof`
makes of `text`, and the serialisers take the number printer
(`std::to_string`) as a parameter `fmt`.

The model follows the code where the library's own description of itself
says otherwise:

- A repeated key keeps its first value, because the parser uses `emplace`.
  The description says the last one wins.
- `[1,]` is accepted.
- A token other than a comma or a closer after a value is passed over, because
  the error at `include/JsonParser.hpp` lines 553 and 642 is built but never
  thrown. So `[1 2]` is a two-item array.
- `-` counts as a digit anywhere in a number. So `1e-5` and `--` are each one
  number, and `1e+5` fails at `e`.
- `Remove(key)` and `Remove(at)` throw on an element of the wrong type. They
  do not return false.
- The compact form of an empty array or object has no closer (see Findings).

## Model

| member | source | states |
|---|---|---|
| TokenTypes.ThirteenTokenTypes | include/TokenType.hpp:6-26 | There are exactly 13 token kinds, pairwise distinct and covering every kind. The first six are the punctuation kinds and the next five the literal kinds, then END_OF_FILE and INVALID. |
| TokenTypes.TokenTypeToString | include/TokenType.hpp:29-51 | Every kind's name is non-empty and has no space. It reads back to the kind it names and is never the "UNKNOWN" fallback. |
| TokenTypes.TokenTypeNamesDistinct | include/TokenType.hpp:33-47 | Distinct kinds have distinct names. |
| Tokens.CloneLiteral | include/Token.hpp:37-39 | A cloned payload holds the same value of the same type. |
| Tokens.Copy | include/Token.hpp:55-59 | A copied token has the original's kind, lexeme and payload. An absent payload stays absent. |
| Tokens.CopyAssign | include/Token.hpp:62-69 | After assignment the target equals the source. Assigning a token to itself leaves it unchanged. |
| Tokens.ToStringRoundTrip | include/Token.hpp:81-83 | `toString` is the kind's name, one space, then the lexeme. Kind and lexeme can both be read back from it. |
| Tokens.ToString | include/Token.hpp:81-83 | `toString` is one character longer than the kind's name and the lexeme together, and its first space is the one right after the name. |
| Tokens.LiteralAsDouble | include/Token.hpp:105-112 | Yields the payload exactly when the token is a NUMBER with a double payload. Any other kind throws "not of type"; a NUMBER without such a payload throws "Wrong type". |
| Tokens.LiteralAsString | include/Token.hpp:114-121 | The same, for STRING tokens and string payloads. |
| Tokens.LiteralAsOther | include/Token.hpp:97-101 | Extraction as any other type always throws. |
| LexerSpec.TokenAt | include/Lexer.hpp:44-76 | One `scanToken` step. Space, CR, tab and LF are skipped without a token, and nothing else is skipped. Each of `[ ] { } , :` becomes one token whose lexeme is that character. A character that starts no token fails. Every lexeme is the slice of the source from the token start to the cursor, and no token is END_OF_FILE or INVALID. |
| LexerSpec.KeywordAtStep | include/Lexer.hpp:101-107 | Checking a keyword letter by letter, each letter in either case, is the same as checking the whole rest of the word. |
| LexerSpec.NumberEnd | include/Lexer.hpp:78-92 | `ReadNumber` stops within the text, at a character that is not a digit. |
| LexerSpec.IsDigit | include/Lexer.hpp:137-140 | `-` counts as a digit; `+`, `.`, `e` and `E` do not. |
| LexerSpec.ClosingQuote | include/Lexer.hpp:145-147 | Finds the first quote that `PeekPrev` does not see a backslash before. It returns none exactly when no such quote follows. |
| LexerSpec.TokensFrom | include/Lexer.hpp:33-36 | The scanning loop never emits END_OF_FILE. |
| LexerSpec.ScanResult | include/Lexer.hpp:32-40 | `scanTokens` keeps the tokens already held, then appends exactly the tokens scanned from the cursor, none of which is END_OF_FILE, and then exactly one END_OF_FILE. It fails exactly when the scanning loop fails, with the loop's error. |
| LexerSpec.Lex | include/Lexer.hpp:32-40 | On a fresh lexer, the result ends in END_OF_FILE and no earlier token is END_OF_FILE. |
| Lexer.JsonLexer.constructor | include/Lexer.hpp:17-21 | A new lexer over the given text has no tokens and both cursors at 0. |
| Lexer.JsonLexer.Peek | include/Lexer.hpp:181-183 | The character under the cursor, or NUL past the end. |
| Lexer.JsonLexer.PeekPrev | include/Lexer.hpp:185-187 | The character before the cursor, read only when the cursor is past 1; NUL otherwise. |
| Lexer.JsonLexer.PeekNext | include/Lexer.hpp:189-191 | The character after the cursor, or NUL past the end. |
| Lexer.JsonLexer.IsEnd | include/Lexer.hpp:197-199 | True exactly when the cursor has reached the end of the text. |
| Lexer.JsonLexer.GetNext | include/Lexer.hpp:193-195 | Returns the character under the cursor (NUL at the end) and advances the cursor by one. |
| Lexer.JsonLexer.AddToken | include/Lexer.hpp:172-179 | Appends one token whose lexeme is the text from the token start to the cursor. The tokens already held are unchanged. |
| Lexer.JsonLexer.ScanTokens | include/Lexer.hpp:32-40 | Returns, and keeps as its token list, exactly `ScanResult` of its text, old tokens and old cursor. |
| Lexer.JsonLexer.ScanToken | include/Lexer.hpp:44-76 | Does exactly what `TokenAt` says: it fails, or skips, or appends the one token. The cursor ends where `TokenAt` ends. |
| Lexer.JsonLexer.SkipDigits | include/Lexer.hpp:79 | The digit loop moves the cursor to `DigitRunEnd`. |
| Lexer.JsonLexer.ReadNumber | include/Lexer.hpp:78-99 | Moves the cursor to `NumberEnd`. Appends one NUMBER token whose lexeme is the consumed text and whose payload is `atof` of that lexeme. |
| Lexer.JsonLexer.ReadTrueLiteral | include/Lexer.hpp:101-111 | Succeeds exactly when `r`, `u`, `e` follow, each in either case; it then appends TRUE_LITERAL with payload true. Otherwise it fails with the malformed-true error. |
| Lexer.JsonLexer.ReadFalseLiteral | include/Lexer.hpp:113-125 | The same for `a`, `l`, `s`, `e` and FALSE_LITERAL with payload false. |
| Lexer.JsonLexer.ReadNullLiteral | include/Lexer.hpp:127-135 | The same for `u`, `l`, `l` and NULL_LITERAL without a payload. |
| Lexer.JsonLexer.ReadString | include/Lexer.hpp:142-160 | Fails as unterminated exactly when no closing quote follows. Otherwise the cursor ends after that quote, and one STRING token is appended: the quoted text, with the raw text between the quotes as payload. |
| LexerProperties.LexTiles | include/Lexer.hpp:32-40 | The tokens before END_OF_FILE cover the whole text in order. Each lexeme is the next slice of the source, with only whitespace between lexemes. |
| LexerProperties.TokensFromTiles | include/Lexer.hpp:33-36 | The same, for the scanning loop started anywhere. |
| LexerProperties.TokensFromSkip | include/Lexer.hpp:61-66 | Whitespace adds no token. |
| LexerProperties.TokensFromEmit | include/Lexer.hpp:33-36 | The loop's output is the token `scanToken` reads, then what it scans from where that token ends. |
| LexerProperties.KeywordDispatch | include/Lexer.hpp:55-60 | `t`/`T`, `f`/`F` and `n`/`N` start the reader of their keyword. |
| LexerProperties.KeywordTokens | include/Lexer.hpp:101-135 | A keyword is read exactly when all its letters follow, each in either case. The lexeme is the text as written. Any wrong or missing letter gives the keyword's own error. |
| LexerProperties.StringToken | include/Lexer.hpp:142-160 | A string token succeeds exactly when a closing quote follows, and it ends at the first one. The payload is the raw text between the quotes: every quote inside it is escaped, and it does not end in a backslash. |
| LexerProperties.QuotedStringToken | include/Lexer.hpp:142-160 | The converse: a quoted text that meets those conditions is read as one STRING token with exactly that payload. |
| LexerProperties.NumberToken | include/Lexer.hpp:78-99 | From a digit or `-`, exactly one NUMBER token is read. Its lexeme has the number shape, its payload is `atof` of the lexeme, and no digit follows it. |
| LexerProperties.NumberTokenShaped | include/Lexer.hpp:78-92 | The converse: a number-shaped text that no digit, `.` or exponent letter follows is read as one NUMBER token with exactly that lexeme. |
| LexerProperties.ExponentWithMinus | include/Lexer.hpp:87-91 | `1e-5` is one NUMBER token. |
| LexerProperties.ExponentWithPlusFails | include/Lexer.hpp:87-91 | `1e+5` fails with an unexpected character. |
| LexerProperties.MinusSignsAreANumber | include/Lexer.hpp:137-140 | `--` is one NUMBER token. |
| LexerProperties.MixedCaseKeyword | include/Lexer.hpp:101-111 | ` TrUe` is one TRUE_LITERAL token. |
| LexerProperties.EscapedQuoteStaysInString | include/Lexer.hpp:145-147 | A quote after a backslash does not close a string, and the backslash stays in the payload. |
| Elements.ValueTypeToString | include/JsonParser.hpp:95-109 | Every tag has a non-empty name. |
| Elements.ValueTypeNamesDistinct | include/JsonParser.hpp:95-109 | Distinct tags have distinct names. |
| Elements.TypeOf | include/JsonParser.hpp:174-183 | An element's tag names its kind, and it is never INVALID. |
| Elements.TypeName | include/JsonParser.hpp:229-232 | An element's type name is never "INVALID". |
| Elements.CanCastTo | include/JsonParser.hpp:185-186 | True exactly when the element's kind is the requested type's: a number for `double`, `int`, `long` and `float`, and each other kind for its own host type. |
| Elements.GetValueAs | include/JsonParser.hpp:188-197 | Yields the value exactly when the tag matches the requested type and the payload is stored as that type. A tag mismatch throws. A matching tag with another stored payload throws "Wrong type": a number asked as int, long or float, or a null without payload (as the parser builds it) asked as `nullptr_t`. |
| Elements.TryGetValueAs | include/JsonParser.hpp:202-214 | Never throws. Returns the value exactly when `GetValueAs` would, and reports failure otherwise, so a null without payload asked as `nullptr_t` gives false. |
| Elements.Extract | include/JsonParser.hpp:345-351 | `operator>>` returns false exactly when the tags differ. On a matching tag it yields a value whenever the cast is allowed, and otherwise throws exactly the error `GetValueAs` throws, including "Wrong type" for a null without payload. |
| Elements.FromDefault | include/JsonParser.hpp:242-249 | For each stored type, a value-initialised element: the number `atof("0")`, the empty string, `false`, a boxed null, an empty object and an empty array. Each payload is stored as that type. |
| Elements.ItemAt | include/JsonParser.hpp:330-334 | On an array, the item at the index; on anything else it throws. |
| Elements.SetMember | include/JsonParser.hpp:264 | `map[key] = v` adds one member exactly when the key is new. |
| Elements.Emplace | include/JsonParser.hpp:495 | `emplace` never changes an existing member: the old members stay in place, and a new key adds one member at the end. |
| Elements.RemoveMember | include/JsonParser.hpp:371 | `erase(key)` never adds a member: every member left was there before, and none has the key. |
| Elements.SetMemberLookup | include/JsonParser.hpp:264 | After `map[key] = v`, the key maps to `v` and every other key to its old value. |
| Elements.SetMemberKeys | include/JsonParser.hpp:264 | `map[key] = v` keeps the keys in place and adds the key at the end when it is new. |
| Elements.SetMemberDistinct | include/JsonParser.hpp:264 | `map[key] = v` keeps keys distinct. |
| Elements.SetMemberAppends | include/JsonParser.hpp:495 | For a new key, `emplace` and `map[key] = v` agree: both append the member. |
| Elements.EmplaceLookup | include/JsonParser.hpp:495 | `emplace` gives a new key the value `v`, keeps an existing key's value, and changes no other key. |
| Elements.EmplaceDistinct | include/JsonParser.hpp:495 | `emplace` keeps keys distinct. |
| Elements.RemoveMemberLookup | include/JsonParser.hpp:371 | After `erase(key)` the key is absent and every other key keeps its value. |
| Elements.RemoveMemberKeys | include/JsonParser.hpp:371 | `erase(key)` keeps keys distinct. It removes one member when the key was there and nothing otherwise. |
| Elements.SetMemberWellFormed | include/JsonParser.hpp:264 | Setting a member keeps a tree well formed, that is, with distinct keys in every object. |
| Elements.EmplaceWellFormed | include/JsonParser.hpp:495 | `emplace` keeps a tree well formed. |
| Elements.RemoveMemberWellFormed | include/JsonParser.hpp:371 | Erasing a key keeps a tree well formed. |
| Elements.AppendItemWellFormed | include/JsonParser.hpp:297 | Appending a well-formed item keeps an array well formed. |
| Elements.EraseItemWellFormed | include/JsonParser.hpp:377-378 | Erasing an item keeps an array well formed. |
| Mutation.ElementSlot.constructor | include/JsonParser.hpp:163-166 | The slot holds the given element. |
| Mutation.ElementSlot.AddMember | include/JsonParser.hpp:259-266 | On an object, sets exactly that key and returns true. On anything else, returns false and changes nothing. Keeps the tree well formed. |
| Mutation.ElementSlot.AddItem | include/JsonParser.hpp:292-299 | On an array, appends exactly one item and returns true. On anything else, returns false and changes nothing. Keeps the tree well formed. |
| Mutation.ElementSlot.Index | include/JsonParser.hpp:324-328 | On an object, returns the member under the key, first inserting `Element()`, a null without payload, when the key is new; nothing else changes. On anything else it throws and nothing changes. |
| Mutation.ElementSlot.Push | include/JsonParser.hpp:336-343 | `operator<<` appends to an array and replaces a null. It leaves any other element unchanged. |
| Mutation.ElementSlot.RemoveKey | include/JsonParser.hpp:368-372 | On an object, erases only that key and reports whether it was there. On anything else it throws, because the guard has no effect. |
| Mutation.ElementSlot.RemoveAt | include/JsonParser.hpp:374-380 | On an array, erases only the item at the index and returns true. On anything else it throws. |
| Mutation.ElementSlot.RemoveKeyChecked | include/JsonParser.hpp:368-372 | `Remove(key)` with a guard that returns: false, and nothing changes, on a non-object; otherwise as above. |
| Mutation.ElementSlot.RemoveAtChecked | include/JsonParser.hpp:374-380 | `Remove(at)` with a guard that returns: false, and nothing changes, on a non-array; otherwise as above. |
| Mutation.ElementSlot.Remove | include/JsonParser.hpp:382-387 | The element becomes a boxed null, which `GetValueAs<nullptr_t>` reads, and the call returns true. |
| Mutation.RemoveKeyOnArrayThrows | include/JsonParser.hpp:368-372 | As written, `Remove("a")` on an empty array throws. |
| Mutation.RemoveKeyCheckedOnArray | include/JsonParser.hpp:368-372 | With the guard returning, the same call returns false and leaves the array unchanged. |
| ParserSpec.PeekToken | include/JsonParser.hpp:649-651 | Past the end, the parser sees the INVALID empty token. |
| ParserSpec.LeafElement | include/JsonParser.hpp:571-612 | `true`/`false` become the boolean element and `null` a null without payload. A string or number token becomes its checked payload, or the extraction's error. The result is well formed. |
| ParserSpec.ParseValue | include/JsonParser.hpp:486-543 | The value switch leaves the cursor within the tokens, never before where it started. |
| ParserSpec.MemberAt | include/JsonParser.hpp:469-543 | A member consumes at least key, colon and value token, and ends within the tokens. |
| ParserSpec.ObjectLoop | include/JsonParser.hpp:462-558 | The object loop yields an object and ends within the tokens. It consumes at least one token when one is left. |
| ParserSpec.ObjectNext | include/JsonParser.hpp:545-554 | After a member, the object loop yields an object and ends within the tokens. |
| ParserSpec.ArrayLoop | include/JsonParser.hpp:562-647 | The array loop yields an array and ends within the tokens. It consumes at least one token when one is left. |
| ParserSpec.ArrayNext | include/JsonParser.hpp:632-643 | After an item, the array loop yields an array and ends within the tokens. |
| ParserSpec.ObjectLoopAfterMember | include/JsonParser.hpp:545-554 | After a member: a comma is consumed and the loop goes on, and `}` is consumed and ends the object. Any other token is left for the next round. |
| ParserSpec.ArrayLoopAfterValue | include/JsonParser.hpp:632-643 | The same after an array item, with `]`. |
| ParserSpec.ObjectLoopComma | include/JsonParser.hpp:547 | A member then a comma: the loop goes on after the comma. |
| ParserSpec.ObjectLoopClose | include/JsonParser.hpp:548-551 | A member then `}`: the object ends after the closer, with the member emplaced. |
| ParserSpec.ArrayLoopComma | include/JsonParser.hpp:634-636 | An item then a comma: the loop goes on after the comma. |
| ParserSpec.ArrayLoopClose | include/JsonParser.hpp:637-640 | An item then `]`: the array ends after the closer, with the item appended. |
| ParserSpec.ParseRoot | include/JsonParser.hpp:451-460 | A successful parse yields an object or an array and consumes at least one token. |
| ParserSpec.ParseLexed | include/JsonParser.hpp:410-414 | A lexing failure is passed through. Otherwise the result is what parsing the tokens gives, and a parse error is reported as a parse failure carrying that error. |
| ParserSpec.ParseTokens | include/JsonParser.hpp:451-460 | A parsed document is an object or an array; it fails exactly when `_parse` fails. |
| ParserSpec.ParseJson | include/JsonParser.hpp:410-414 | A parsed document is an object or an array, and a lexing failure is passed through. |
| Parser.JsonParser.constructor | include/JsonParser.hpp:398-400 | A new parser has a new lexer over the given text, no tokens, and its cursor at 0. |
| Parser.JsonParser.Peek | include/JsonParser.hpp:649-651 | The token under the cursor, or the INVALID empty token past the end. |
| Parser.JsonParser.IsEnd | include/JsonParser.hpp:665-667 | True exactly when the cursor has reached the end of the tokens. |
| Parser.JsonParser.GetNext | include/JsonParser.hpp:661-663 | Returns the token under the cursor and advances the cursor by one. |
| Parser.JsonParser.Parse | include/JsonParser.hpp:451-460 | `_parse` returns exactly what the functional parser gives on the tokens `scanTokens` returns. On a fresh lexer, that is `ParseJson` of the text. |
| Parser.JsonParser.ParseValue | include/JsonParser.hpp:486-543 | The value switch returns the functional result and leaves the cursor where it says. |
| Parser.JsonParser.ReadMember | include/JsonParser.hpp:469-543 | Reading key, colon and value returns the functional result and leaves the cursor where it says. |
| Parser.JsonParser.BeginParseObject | include/JsonParser.hpp:462-558 | The object loop returns `ObjectLoop`'s element or error and leaves the cursor where it says. |
| Parser.JsonParser.BeginParseArray | include/JsonParser.hpp:562-647 | The array loop returns `ArrayLoop`'s element or error and leaves the cursor where it says. |
| ParserProperties.ParseRootInvalidStart | include/JsonParser.hpp:455-456 | `_parse` reports an invalid start exactly when the first token is neither `{` nor `[`. |
| ParserProperties.ParseRootStopsAtCloser | include/JsonParser.hpp:455-458 | On the lexer's output, a successful parse stops right after the root container's own closer, before END_OF_FILE. Nothing after that closer is read: changing it does not change the result. |
| ParserProperties.ObjectEndsAtBrace | include/JsonParser.hpp:556-557 | With an END_OF_FILE terminator, the object loop succeeds only by consuming `}`. Its fall-through return is never taken. |
| ParserProperties.ArrayEndsAtBracket | include/JsonParser.hpp:645-646 | With an END_OF_FILE terminator, the array loop succeeds only by consuming `]`. Its fall-through return is never taken. |
| ParserProperties.ParseJsonWellFormed | include/JsonParser.hpp:495 | Every parsed document has distinct keys in every object. |
| ParserProperties.ParseJsonNullsUnboxed | include/JsonParser.hpp:522-527 | Every null in a parsed document has a null-pointer payload, at every depth. |
| ParserProperties.ParsedNullAccess | include/JsonParser.hpp:202-214 | `[null]` holds a null without payload: `GetValueAs<nullptr_t>` throws "Wrong type", `TryGetValueAs` returns false and `operator>>` throws, while the boxed null of `Remove()` is read. |
| ParserProperties.FirstValueWins | include/JsonParser.hpp:495-537 | A key already read keeps its first value, whatever later members say. |
| ParserProperties.ObjectKeepsEarlierMembers | include/JsonParser.hpp:495-537 | The members read so far stay, in order, at the front of the object. |
| ParserProperties.ValueStart | include/JsonParser.hpp:486-543 | A value starts with `{`, `[`, a string, a number, `true`, `false` or `null`. Any other token is rejected. |
| ParserProperties.MemberShape | include/JsonParser.hpp:478-482 | A member is a STRING key, a colon and a value. A key of another kind or a missing colon is rejected. |
| ParserProperties.MissingCommaIgnored | include/JsonParser.hpp:632-643 | `[1 2]` parses as a two-item array. |
| ParserProperties.TrailingCommaInArray | include/JsonParser.hpp:624-626 | `[1,]` parses as `[1]`. |
| ParserProperties.EmptyContainers | include/JsonParser.hpp:471-476 | `[]` and `{}` parse as the empty array and the empty object. |
| ParserProperties.TrailingCommaInObject | include/JsonParser.hpp:471-473 | `{"a":1,}` fails with an early close. |
| ParserProperties.NonStringKey | include/JsonParser.hpp:481 | `{1:2}` fails: a key must be a string. |
| ParserProperties.DuplicateKeyKeepsFirst | include/JsonParser.hpp:495 | `{"a":1,"a":2}` parses as `{"a":1}`. |
| ParserProperties.TrailingTokensIgnored | include/JsonParser.hpp:455-458 | A stray `]` after the root object's closer is never read. |
| Serializer.Quote | include/JsonParser.hpp:687 | A string prints as itself between two quotes, nothing escaped. |
| Serializer.Indents | include/JsonParser.hpp:679-682 | `GetIndents(n)` is exactly `n` spaces. |
| Serializer.Compact | include/JsonParser.hpp:216-222 | `ToString()` opens an array with `[ ` and an object with `{ `, and ends them with ` ]` / ` }` exactly when they are non-empty. |
| Serializer.CompactItems | include/JsonParser.hpp:699-709 | The array loop writes nothing for no items, and ends with ` ]` after the last one. |
| Serializer.CompactMembers | include/JsonParser.hpp:711-722 | The object loop writes nothing for no members, and ends with ` }` after the last one. |
| Serializer.Formatted | include/JsonParser.hpp:739-770 | The indented form (`GetStringFormated`, which calls these formatters) always opens and closes a container with its brackets. An empty array is exactly `[]` and an empty object exactly `{}`. A non-empty one has a line break right after the opener and another right before the `indent` spaces that precede the closer. |
| Serializer.FormattedItems | include/JsonParser.hpp:739-753 | The lines of a non-empty array's items are longer than their indentation and end with a line break, so the closer starts a line of its own. |
| Serializer.FormattedMembers | include/JsonParser.hpp:755-770 | The same for an object's member lines. |
| Serializer.ToStringIndented | include/JsonParser.hpp:224-227 | `ToString(indent)` brackets a container, and the closer of a non-empty one comes right after a line break, with no indentation. |
| Serializer.FormattedItemsIndented | include/JsonParser.hpp:741-749 | The item lines of a non-empty array start with `indent + offset` spaces. |
| Serializer.FormattedMembersIndented | include/JsonParser.hpp:759-767 | The member lines of a non-empty object start with `indent + offset` spaces. |
| Serializer.FormattedItemsSeparator | include/JsonParser.hpp:746-750 | When another item follows, the first item line is its indentation and the item at depth `indent + offset`, then `,` and a line break, then the remaining item lines, which start with the same indentation. |
| Serializer.FormattedItemsLast | include/JsonParser.hpp:746-750 | The last item line is its indentation, the item, and a line break with no comma. |
| Serializer.FormattedMembersSeparator | include/JsonParser.hpp:762-766 | When another member follows, the first member line is its indentation, the quoted key, `: ` and the value at depth `indent + offset`, then `,` and a line break, then the remaining member lines, which start with the same indentation. |
| Serializer.FormattedMembersLast | include/JsonParser.hpp:762-766 | The last member line is its indentation, `"key": value`, and a line break with no comma. |
| Serializer.FormattedArrayLayout | include/JsonParser.hpp:741-752 | A non-empty array: the opener and a line break, the first item after `indent + offset` spaces, and at the end a line break, `indent` spaces and `]`. |
| Serializer.FormattedObjectLayout | include/JsonParser.hpp:757-769 | A non-empty object: the opener and a line break, the first member after `indent + offset` spaces, and at the end a line break, `indent` spaces and `}`. |
| Serializer.ToStringIndentedLayout | include/JsonParser.hpp:224-227 | For `ToString(indent)` of a non-empty container: the opener and a line break, the first child after `indent` spaces, then a closer on a line of its own with no indentation. |
| Serializer.CompactFixedAgrees | include/JsonParser.hpp:699-722 | The corrected compact form equals the original on every element without an empty array or object. |
| RenderTokens.ParseRendered | include/JsonParser.hpp:699-770 | The tokens of a well-formed object or array, then END_OF_FILE, parse back to it. Each number becomes what `atof` reads from its printed text. |
| RenderTokens.NormalizeTextOf | include/JsonParser.hpp:689 | With numbers printed as the text they were read from, reading back changes nothing in an element whose nulls have no payload. |
| RenderText.ParseWholeText | include/JsonParser.hpp:410-414 | Text that lexes to the tokens `ts` parses as `ts` followed by END_OF_FILE. |
| RenderText.ParseIndented | include/JsonParser.hpp:739-770 | The indented form (`ToString(indent)`) of a well-formed object or array parses back to the element. This needs strings it can delimit and numbers printed in number shape; each number becomes `atof` of its printed text. |
| RenderText.ParseIndentedExact | include/JsonParser.hpp:224-227 | With numbers printed as their own text, the indented form reproduces exactly an element whose nulls have no payload, as every parsed element's are. |
| RenderText.ParseCompactFixed | include/JsonParser.hpp:699-722 | The compact form, with empty containers closed, parses back to the element under the same conditions. |
| RenderText.CompactEmptyArrayUnreadable | include/JsonParser.hpp:699-709 | As written, the compact form of an empty array is `[ `, and parsing it fails. |
| RenderText.CompactEmptyObjectUnreadable | include/JsonParser.hpp:711-722 | As written, the compact form of an empty object is `{ `, and parsing it fails. |

## Left out

- File I/O is not modelled. This covers `ReadSourceFile`, the path-taking constructors and `Parse` overloads, and `SaveToFile`. The lexer and parser start from the text in memory.
- The conversions `atof` and `std::to_string` are not computed. A number is the text it was read from, and printing is the parameter `fmt`.
- Only `double` is modelled as a number's stored type. The `int`/`long`/`float` instantiations appear only as requested types: asking for them on a parsed number throws "Wrong type", as `dynamic_cast` makes it.
- The `Jsonify` hooks (`AddObject`, `operator=(Jsonify&)`) call into user types and are not modelled.
- `Add` with a host value is modelled as `Add` with an element (`From` then `Add`). The generic `From(value)` is the element holding that value.
- The const overload of `GetValueAs`, which always throws, is not modelled.
- The INVALID element tag is not modelled. No parse produces it, so `_parse`'s last line is never reached.
- The parser's unused `PeekPrev`/`PeekNext` are not modelled.
- The text of error messages is not modelled; `GetRangeArroundCurrent` only builds message text. Each failure is a constructor of an error datatype.
- `unordered_map` iteration order is unspecified. The model keeps members in insertion order, and the serialisers print them in that order.
- Move semantics, ownership and recursion depth are not modelled.
- Neither serialiser escapes anything, and the lexer decodes no escapes. The round trips therefore require strings and keys in which every quote follows a backslash and which do not end in a backslash. They also require numbers printed in the shape `ReadNumber` reads.
- ParserSpec.MemberAt: reading the colon or value past the last token is undefined in the source; here it fails with ReadPastEnd. Ordinary text reaches it: `{` lexes to `{` and END_OF_FILE, and `{"a"` to `{`, a string and END_OF_FILE, and for both the source reads past the end of the token vector.
- Lexer.JsonLexer.GetNext: reading at the end returns the NUL that `std::string` keeps there. Reading beyond that is undefined, and the precondition excludes it.
- Elements.ItemAt: an index past the end is undefined in the source, and the precondition excludes it.
- Mutation.ElementSlot.RemoveAt: erasing past the end is undefined in the source, and the precondition excludes it.
- Mutation.ElementSlot.Index: the source returns `Element&`, and callers write through it (`e["k"] = v`, `e["a"]["b"] << x`). The model returns a copy of the member, so that write-through and the in-place update of nested members are not captured; `AddMember` models the one-level `e["k"] = v`.
- Serializer.Formatted: its own contract states the brackets, the exact `[]` and `{}`, and where the line breaks around a non-empty container's children sit. The indentation of the child lines and of the closer is stated by `Serializer.FormattedArrayLayout` and `Serializer.FormattedObjectLayout` rather than by the function's contract. Slice facts there would be drawn into every proof that unfolds the function and would push the round-trip proofs past the solver budget.
- Serializer.FormattedItems: its own contract states only that the item lines are longer than their indentation and end with a line break. Their indentation, the `,` and line break between items and the final line without a comma are stated by `Serializer.FormattedItemsIndented`, `Serializer.FormattedItemsSeparator` and `Serializer.FormattedItemsLast`, for the same solver-budget reason.
- Serializer.FormattedMembers: the same as `Serializer.FormattedItems`. The member-line facts are stated by `Serializer.FormattedMembersIndented`, `Serializer.FormattedMembersSeparator` and `Serializer.FormattedMembersLast`.
- Serializer.ToStringIndented: its own contract states the brackets and the line break before the closer. The indentation of the first child is stated by `Serializer.ToStringIndentedLayout`.
- Serializer.Indents: the indent and offset are `nat`. The source takes `int`; a negative count makes `std::string(n, ' ')` throw `std::length_error` inside the `noexcept` serialisers, which ends the program. That path is not modelled.
- Lexer.JsonLexer.constructor: takes the text instead of a path to read it from.

## Findings

| source | as written | input that shows it | evidently intended | confidence | as-written member | corrected member |
|---|---|---|---|---|---|---|
| include/JsonParser.hpp:699-722 | The compact array and object printers write `[ ` / `{ ` and add the closer only after the last child. An empty container is therefore never closed. | `Element::From<JArray>().ToString()` gives `[ `, which the parser rejects | `[]` / `{}`, as the indented printer writes them | high; not executed | RenderText.CompactEmptyArrayUnreadable | RenderText.ParseCompactFixed |
| include/JsonParser.hpp:370 | The type guard's consequence is the bare expression `false`, with no `return`, so it has no effect. `Remove(key)` on a non-object goes on to `GetValueAs`, which throws. | `Remove("a")` on an empty array | `return false;`, reporting the failure without throwing | high; not executed | Mutation.RemoveKeyOnArrayThrows | Mutation.RemoveKeyCheckedOnArray |
