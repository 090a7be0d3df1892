# rudin-lang front end in Dafny

This project models the front end of the rudin compiler: the lexer driver,
the token vocabulary, the diagnostics it reports, the hand-off of the token
list to the parser, and the data types these stages build (positions, tokens,
type annotations and the syntax tree).

- `wrappers.dfy` (`Wrappers`): the `Option` type.
- `internals.dfy` (`Internals`): `Position` and `Position::new`.
- `types.dfy` (`InternalTypes`): the `Types` annotation type. A `HashMap` payload
  becomes a `map`, and the insertion sequence that builds it is modelled too.
- `tokens.dfy` (`Tokens`): the closed `TokenKind` enumeration.
  - Its fixed spellings form one function, `KindOfSpelling`, so each spelling
    gives at most one kind. One lemma per section of the attribute list shows
    that each declared spelling gives its kind. `OnlyDeclaredSpellings` shows
    that nothing else is recognised.
  - The Identifier, Number, CharLiteral and StringLiteral regular languages are
    predicates on strings.
  - `Token::new` and `get_position` are modelled too.
- `handling.dfy` (`Handling`): `MessageKind`, `Message` and the three diagnostic
  factories, with their exact texts.
- `lexer.dfy` (`Lexing`): the driver `Lexer::lex`.
  - The `logos` scanner is its input: a sequence of raw items. Each item is
    `Ok(kind, start, end, slice)` or `Err(start, end, slice)`.
  - Spans are byte offsets into the input's UTF-8 encoding, as `logos`
    reports them on a `&str`. So columns count bytes, not characters.
    `ByteLength` gives a string's length in UTF-8 bytes.
  - `WellFormedScan` states what the scanner guarantees for the input text:
    the slices make up the input in order, and each span is its slice's byte
    range.
  - A `Scanner` object hands the items out and runs `newline_callback` on its
    extras.
  - `Lexer` holds `tokens`, `input` and `output` as fields. `Lex` and the loop
    body `Handle` update the fields in place.
  - `StripLayout` is the index-counting removal pass. It removes layout tokens
    from `tokens` in place.
  - Each method is proved against the specification functions `StateAt`,
    `Emitted`, `Diagnostics` and `LexTokens`. Each takes the item sequence and
    the number `n` of items handled so far.
- `lexer_facts.dfy` (`LexerFacts`): what the driver's output is, stated against
  reference definitions that count items directly: `NewLineCount`,
  `LastNewlineEnd`, `KeptCount`, `ErrCount` and `LastOk`. It covers:
  - which token each kept item becomes, at which index and position;
  - that every token comes from a kept item, in scan order, and that no layout
    token survives;
  - one diagnostic per unmatched slice, and where it is reported;
  - where the final `Eof` goes;
  - that a NUL character yields an early `Eof` token.
- `statements.dfy` (`Statements`): the `Statement`, `Expression`, `ArrayAccess`
  and `FuncParam` syntax tree. The datatype declarations carry the source's
  shapes, and the type checker enforces them:
  - every statement has a `start` position except `VariableAlteration` and
    `FunctionCall`;
  - a `ConstantDeclaration` always has a `value`, while a
    `VariableDeclaration`'s `initializer` is an `Option`;
  - the operands of `Binary`, `Logical` and `Unary` nodes are subtrees held by
    value, so each is a proper part of its node and every expression is finite.
- `parser.dfy` (`Parsing`): the `Parser` object.
  - Its constructor takes the first token.
  - The `parse` stub loop is modelled with a fuel bound.
  - `LexThenParse` lexes, starts a parser on a clean result and runs it. It
    shows that the lexer's output always satisfies the constructor's non-empty
    precondition, and when the parser halts.

Some choices follow the code exactly:
- `Types` has exactly the eleven variants rudin declares, with no `Double`,
  `Custom` or `Unknown`:
  - `Void`, `Int`, `Float`, `String`, `Bool` and `Char`;
  - `Array`, `Tuple` and `Vector`;
  - `Struct` and `Function`.
- `Parser` has no `output` field, because rudin's `Parser` declares none.

Dafny requires one type per field name across a datatype's variants, so some
fields are renamed:
- `Program::body` is `statements`.
- `VariableDeclaration::value` is `initializer`.
- `For::condition` is `guard`.
- `r#type` is `ty`, or `literalKind` on literals.
- `Literal::value` is `text`.
- `FunctionCall`'s unnamed payload is the field `call`.
- `Message::message` is `text`.
- The misspelt `ArrayAcess`/`Acess`/`NestedAcess` are
  `ArrayAccess`/`Access`/`NestedAccess`, and `NestedAcess::acess` is `access`.
- The `Expression::ArrayAcess` variant is `ArrayAccessExpr`, because a
  variant may not share its name with the `ArrayAccess` type.

## Model

| member | source | states |
|---|---|---|
| Internals.NewPosition | src/rudin/src/internals/mod.rs:10-12 | the new position has exactly the given line and column |
| Internals.PositionEquality | src/rudin/src/internals/mod.rs:3-7 | positions are equal iff their lines and their columns are equal; a position is rebuilt from its coordinates |
| InternalTypes.FromEntries | src/rudin/src/internals/types.rs:12-13 | the map built by successive inserts has exactly the inserted names as keys |
| InternalTypes.LastInsertWins | src/rudin/src/internals/types.rs:12-13 | a name maps to the type of the last entry inserted under it; earlier inserts of that name are replaced |
| InternalTypes.FromEntriesLookup | src/rudin/src/internals/types.rs:12-13 | with distinct names, every inserted name maps to the type inserted with it |
| InternalTypes.StructIgnoresInsertionOrder | src/rudin/src/internals/types.rs:12-13 | `Struct`/`Function` types built from the same distinct entries in any order are equal |
| Tokens.SpecialTokenSpellings | src/rudin/src/lexer/tokens.rs:7-24 | each special-token spelling (newline, space, `-#`, `#-`, `::`, NUL) gives its kind |
| Tokens.DelimiterSpellings | src/rudin/src/lexer/tokens.rs:26-56 | each delimiter and punctuation spelling gives its kind |
| Tokens.DeclarationKeywordSpellings | src/rudin/src/lexer/tokens.rs:58-88 | each declaration and visibility keyword gives its kind |
| Tokens.FlowKeywordSpellings | src/rudin/src/lexer/tokens.rs:90-137 | each logical, loop, control-flow and special keyword gives its kind |
| Tokens.TypeNameSpellings | src/rudin/src/lexer/tokens.rs:139-159 | each built-in type name gives its kind |
| Tokens.BinaryOperatorSpellings | src/rudin/src/lexer/tokens.rs:161-175 | each arithmetic operator gives its kind |
| Tokens.LogicalOperatorSpellings | src/rudin/src/lexer/tokens.rs:177-206 | each comparison and logical operator, both spellings of `OpAnd`/`OpOr`/`OpNot` included, gives its kind |
| Tokens.AssignmentOperatorSpellings | src/rudin/src/lexer/tokens.rs:208-235 | each assignment and special operator gives its kind |
| Tokens.BooleanSpellings | src/rudin/src/lexer/tokens.rs:250-254 | `true` and `false` give `True` and `False` |
| Tokens.KindOfSpelling | src/rudin/src/lexer/tokens.rs:8-254 | the fixed-spelling lookup gives each spelling at most one kind, and only spellings of one to eight characters are recognised |
| Tokens.OnlyDeclaredSpellings | src/rudin/src/lexer/tokens.rs:8-254 | every string the lookup recognises is one of the 76 declared spellings, and its kind is never a literal kind; with the rows above, the lookup is exactly the attribute table |
| Tokens.Matches | src/rudin/src/lexer/tokens.rs:238-248 | a slice a kind matches is never empty |
| Tokens.LiteralLanguagesDisjoint | src/rudin/src/lexer/tokens.rs:238-248 | the char-literal and string-literal languages are disjoint from each other and from the identifier and number languages |
| Tokens.SpellingsAreNotLiterals | src/rudin/src/lexer/tokens.rs:8-248 | no fixed spelling is a number, a char literal or a string literal |
| Tokens.OnlyKeywordsAreAmbiguous | src/rudin/src/lexer/tokens.rs:8-254 | two different kinds match the same slice only when one is `Identifier` and the slice is the other's keyword |
| Tokens.DoubledSpellings | src/rudin/src/lexer/tokens.rs:184-194 | `&&` and `and` both give `OpAnd`, `\|\|` and `or` give `OpOr`, `!` and `not` give `OpNot` |
| Tokens.TwoCharacterComparisons | src/rudin/src/lexer/tokens.rs:20-206 | `::`, `==`, `!=`, `<=`, `>=` are kinds of their own, different from their one-character prefixes `:`, `=`, `!`, `<`, `>` |
| Tokens.TwoCharacterArithmetic | src/rudin/src/lexer/tokens.rs:212-235 | `+=`, `++`, `-=`, `--`, `->` are kinds of their own, different from `+` and `-` |
| Tokens.EofIsSpeltNul | src/rudin/src/lexer/tokens.rs:23-24 | NUL is the only spelling that gives `Eof` |
| Tokens.NulSpellsEof | src/rudin/src/lexer/tokens.rs:23-24 | `"\0"` is the spelling of `Eof`, and no other kind's spelling or word |
| Tokens.IdentifierShape | src/rudin/src/lexer/tokens.rs:238-239 | an identifier is non-empty and does not start with a digit |
| Tokens.NumberShape | src/rudin/src/lexer/tokens.rs:241-242 | a number is non-empty and starts with `-` or a digit; a `-` is followed by a digit; the integer part has no leading zero unless it is a lone `0` |
| Tokens.IdentifierNumberDisjoint | src/rudin/src/lexer/tokens.rs:238-242 | no slice is both an identifier and a number |
| Tokens.NewToken | src/rudin/src/lexer/tokens.rs:265-271 | the token stores kind, position and value unchanged |
| Tokens.GetPosition | src/rudin/src/lexer/tokens.rs:273-275 | returns (line, column) of the token's position, which rebuild that position |
| Handling.NewMessage | src/rudin/src/handling/mod.rs:21-27 | the message stores kind, text and position unchanged |
| Handling.ExpectedError | src/rudin/src/handling/mod.rs:29-35 | a code error at the found token's position whose text is "Expected ", the expected text, " but found ", then the found lexeme |
| Handling.ExpectedOrError | src/rudin/src/handling/mod.rs:37-51 | `None` exactly when the expected kind is the found kind; otherwise the very message `expected_error` builds |
| Handling.UnexpectedError | src/rudin/src/handling/mod.rs:53-59 | a code error at the found token's position whose text is "Unexpected token: " then the found lexeme |
| Handling.FactoriesAreLocated | src/rudin/src/handling/mod.rs:21-59 | all three factories give a `CodeError` at `Some(found.position)`; only `new` can give a message with no position |
| Handling.ExpectedDiffersFromUnexpected | src/rudin/src/handling/mod.rs:29-59 | the text of an "expected" diagnostic never equals that of an "unexpected" one |
| Statements.AccessIndices | src/rudin/src/parser/statements.rs:88-97 | an access has at least one index, and its last index is the outermost one |
| Statements.BuildAccess | src/rudin/src/parser/statements.rs:88-97 | the access built from indices has the last index outermost, and is a plain access iff there is one index |
| Statements.AccessRoundTrip | src/rudin/src/parser/statements.rs:88-97 | rebuilding an access from its base name and indices gives the same access, so nesting is well founded |
| Statements.BuildAccessRoundTrip | src/rudin/src/parser/statements.rs:88-97 | an access built from a name and indices gives back that name and those indices |
| Lexing.ByteLength | src/rudin/src/lexer/mod.rs:34-35 | a string's UTF-8 length is between its character count and four times it |
| Lexing.SpansAreByteOffsets | src/rudin/src/lexer/mod.rs:34-38 | on a well-formed scan, the slices so far form a prefix of the input; each span starts at that prefix's byte length; the last span ends at the input's byte length |
| Lexing.WellFormedScanIsOrdered | src/rudin/src/lexer/mod.rs:34-38 | the scanner's spans tile the input, so they are ordered and do not overlap |
| Lexing.Scanner.constructor | src/rudin/src/lexer/mod.rs:34-35 | the scanner starts before the first item with extras (0, 0) |
| Lexing.NewlineCallback | src/rudin/src/lexer/mod.rs:7-10 | the newline count goes up by one, and the offset just past the last newline becomes the end of the current span |
| Lexing.Scanner.Next | src/rudin/src/lexer/mod.rs:38 | hands out the next item, or `None` at the end; it runs the newline callback exactly for a recognised newline |
| Lexing.Step | src/rudin/src/lexer/mod.rs:39-50 | an unmatched slice leaves the cursor alone; a newline goes to the next line at column 0 and records its end; any other item keeps the line and the extras; the line always equals the newline count |
| Lexing.UndefinedSymbolText | src/rudin/src/lexer/mod.rs:65-69 | the diagnostic text is the slice in double quotes followed by ` -> Undefined symbol` |
| Lexing.EofToken | src/rudin/src/lexer/mod.rs:89-93 | the end marker has kind `Eof`, value "EOF", and is one column past the cursor |
| Lexing.StateAtBounded | src/rudin/src/lexer/mod.rs:48 | on an ordered scan, the offset just past the last newline never exceeds the end of the last span handled |
| Lexing.OrderedNoUnderflow | src/rudin/src/lexer/mod.rs:48 | on an ordered scan, `span().start - extras.1` never underflows |
| Lexing.Lexer.constructor | src/rudin/src/lexer/mod.rs:25-31 | a new lexer keeps its input and has no tokens and no messages |
| Lexing.Lexer.Lex | src/rudin/src/lexer/mod.rs:33-94 | on a well-formed scan, appends `LexTokens` (the kept tokens, then `Eof`) to `tokens` and one diagnostic per unmatched slice to `output`; no layout token is left |
| Lexing.Lexer.Drive | src/rudin/src/lexer/mod.rs:36-93 | the scanning loop and the `Eof` push: on any scan without underflow, the fields grow by `LexTokens` and `Diagnostics` and stay free of layout tokens |
| Lexing.Lexer.Handle | src/rudin/src/lexer/mod.rs:39-85 | one loop step: the cursor moves as `Step` says (a newline goes to the next line at column 0; another recognised item takes its offset from the last newline's end); a kept item appends exactly its token at the new cursor, with its slice as value; an unmatched slice appends exactly one "Undefined symbol" `CodeError` at the old cursor; no layout token is left |
| Lexing.Lexer.PushEof | src/rudin/src/lexer/mod.rs:89-93 | appends `Eof` valued "EOF" one column past the cursor, completing `LexTokens` |
| Lexing.Lexer.StripLayout | src/rudin/src/lexer/mod.rs:75-85 | when only the last token can be layout, the in-place removal drops exactly a trailing layout token, and no layout token is left |
| LexerFacts.CursorAt | src/rudin/src/lexer/mod.rs:36-50 | after any number of items, the cursor line is the number of newlines; the column is that of the last recognised item, or 0; the extras hold the newline count and the offset just past the last newline |
| LexerFacts.EmittedCount | src/rudin/src/lexer/mod.rs:52-58 | exactly one token per recognised non-layout item |
| LexerFacts.KeptOrder | src/rudin/src/lexer/mod.rs:52-58 | a later kept item's token comes after an earlier one's, so tokens stay in scan order |
| LexerFacts.EmittedAt | src/rudin/src/lexer/mod.rs:43-58 | the kept item at `i` becomes the token whose index is the number of kept items before `i`; it has the item's kind and its slice as value; its line is the number of newlines before it; its column is its start minus the offset just past the last newline before it, or its start if there is none |
| LexerFacts.EmittedOrigin | src/rudin/src/lexer/mod.rs:52-58 | every token before `Eof` is the token of some kept item |
| LexerFacts.EmittedHasNoLayout | src/rudin/src/lexer/mod.rs:75-85 | no Whitespace or NewLine token is among the emitted tokens |
| LexerFacts.EmittedMatch | src/rudin/src/lexer/mod.rs:52-56 | on a well-formed scan, every token's value is a spelling or word of its kind |
| LexerFacts.EofLast | src/rudin/src/lexer/mod.rs:89-93 | the token list is never empty; it ends with `Eof` valued "EOF" at (cursor line, cursor column + 1), a cursor that still counts the layout items that were removed |
| LexerFacts.NulGivesEarlyEof | src/rudin/src/lexer/tokens.rs:23-24 | a recognised NUL slice gives an `Eof`-kind token ahead of the final one |
| LexerFacts.NonAsciiScanIsWellFormed | src/rudin/src/lexer/mod.rs:34-38 | the byte-span scan of `"é" x` (`é` takes two bytes) is a well-formed scan |
| LexerFacts.NonAsciiColumns | src/rudin/src/lexer/mod.rs:48 | on that scan, `x` is at column 5 and the final `Eof` at column 6: columns count bytes |
| LexerFacts.DiagnosticsCount | src/rudin/src/lexer/mod.rs:60-72 | exactly one diagnostic per unmatched slice; scanning never stops early |
| LexerFacts.DiagnosticAt | src/rudin/src/lexer/mod.rs:60-72 | the unmatched slice at `i` gives a `CodeError` with text `"<slice>" -> Undefined symbol`, at the cursor of the last recognised item before it rather than at the slice |
| LexerFacts.DiagnosticOrigin | src/rudin/src/lexer/mod.rs:60-72 | every diagnostic comes from some unmatched slice |
| Parsing.EmptyProgram | src/rudin/src/parser/mod.rs:15-18 | the initial tree is a `Program` at (0, 0) with no statements |
| Parsing.Parser.constructor | src/rudin/src/parser/mod.rs:12-25 | needs a non-empty list; the current token is its first element, the rest stays in order for the iterator, and the tree is the empty program |
| Parsing.Parser.Parse | src/rudin/src/parser/mod.rs:27-29 | returns iff the current token is `Eof`; otherwise it spins through all the fuel; it changes no field |
| Parsing.FirstTokenIsEof | src/rudin/src/parser/mod.rs:27-29 | on a well-formed scan, the lexer's first token is `Eof` iff no item is kept, or the first kept item's slice is NUL |
| Parsing.LexThenParse | src/compiler/src/compiler.rs:38-47 | lexing then starting a parser on a clean result never violates the constructor's precondition; a parser starts iff there were no unmatched slices, on the lexer's full token list; running it halts iff the lexer's first token is `Eof` (by `FirstTokenIsEof`, iff only layout precedes the first NUL or the end) |

## Left out

- The `logos` DFA is not modelled: maximal munch, priority between fixed
  spellings and regular expressions, and span computation are library
  behaviour. The scanner is an input sequence constrained by `WellFormedScan`.
  So the model does not say which of several matching kinds the scanner picks.
- `word_callback` is not modelled. It computes two locals and discards them,
  so it has no observable effect.
- The regular languages of CharLiteral and StringLiteral follow the
  patterns as written, including the unescaped `u` alternative.
- `Lexing.Lexer.StripLayout` requires that only the last token can be layout.
  The source's index is not adjusted after a removal. With two layout tokens
  in a row followed by another token, it would remove the wrong element. With
  two layout tokens at the end of the list, the second `remove` would be out
  of bounds and panic. `Lex` runs it after every push, so neither list
  reaches it, and those cases are not modelled.
- `Lexing.Step`: the column is computed by `Offset`, which yields 0 where the
  `usize` subtraction would underflow. An underflow panics in a build with
  overflow checks, such as a debug build, and wraps to a huge column in a
  default release build.
  `Lexing.OrderedNoUnderflow` shows that this case never arises on a scan
  the driver can receive.
- `Lexing.Lexer.Lex`: `IsDigit` accepts only the ASCII digits. The `\d` in the
  Number pattern may also match other Unicode decimal digits, which the model's
  Number language does not include.
- `Lexing.ByteLength` gives only the length of the UTF-8 encoding, computed from
  each character's code point. The encoded bytes themselves are not modelled.
- Lines, columns and offsets are unbounded naturals. `usize` overflow is not
  modelled.
- `Parsing.Parser.Parse`: the loop that never ends when the current token is
  not `Eof` is bounded by a fuel argument. Divergence is shown as "spins
  through all the fuel", and the tree is left unchanged.
- Expression precedence, declaration parsing and any statement grammar are
  not modelled, because the parser is a stub.
- src/compiler/src/compiler.rs is not part of this model: file reading,
  progress output and message collection are I/O. It also reads a
  `parser.output` field that `Parser` does not declare. Only its lex-then-parse
  order is reflected, in `Parsing.LexThenParse`.
- src/compiler/src/main.rs, src/compiler/src/state.rs and
  src/rudin/src/evaluator/mod.rs are not part of this model. They hold argument
  handling, process exit, an empty constructor and an empty `evaluate`.
- The `Loop` and `LiteralType` enumerations are not modelled, because nothing
  uses them.
- `Message` has private fields and no mutator. In Dafny it is an immutable
  datatype value, so "never changes after construction" holds by
  construction and has no lemma.
- `Clone` of a `Position` is a value copy. Datatype values have no identity,
  so it has no lemma.
