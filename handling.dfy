/**
 * Diagnostics (`handling`): a severity, a text and an optional position.  A
 * `Message` is a value whose fields are private and never reassigned, so it
 * is modelled as an immutable datatype.
 */
module Handling {

  import opened Wrappers
  import opened Internals
  import opened Tokens

  datatype MessageKind = Error | CodeError | CodeWarning | Warning | CodeInfo | Info

  datatype Message = Message(kind: MessageKind, text: string, position: Option<Position>)

  /** A source-attributable error that says where it is. */
  predicate IsLocatedCodeError(m: Message)
  {
    m.kind == CodeError && m.position.Some?
  }

  /** `Message::new`: stores kind, text and position unchanged; the only way to build a position-less message. */
  function NewMessage(kind: MessageKind, text: string, position: Option<Position>): (m: Message)
    ensures m.kind == kind && m.text == text && m.position == position
  {
    Message(kind, text, position)
  }

  const ExpectedPrefix := "Expected "
  const FoundInfix := " but found "
  const UnexpectedPrefix := "Unexpected token: "

  /**
   * `Message::expected_error`: a located code error at the found token whose
   * text reads "Expected <expected> but found <lexeme>".
   */
  function ExpectedError(expected: string, found: Token): (m: Message)
    ensures IsLocatedCodeError(m) && m.position.value == found.position
    ensures |m.text| == |ExpectedPrefix| + |expected| + |FoundInfix| + |found.value|
    ensures m.text[..|ExpectedPrefix|] == ExpectedPrefix
    ensures m.text[|ExpectedPrefix|..|ExpectedPrefix| + |expected|] == expected
    ensures m.text[|ExpectedPrefix| + |expected|..|m.text| - |found.value|] == FoundInfix
    ensures m.text[|m.text| - |found.value|..] == found.value
  {
    Message(CodeError, ExpectedPrefix + expected + FoundInfix + found.value, Some(found.position))
  }

  /**
   * `Message::expected_or_error`: the assertion-with-diagnostic.  No message
   * exactly when the found token has the expected kind; otherwise the same
   * message `expected_error` builds (the source writes that message out again
   * rather than calling it).
   */
  function ExpectedOrError(expectedKind: TokenKind, expected: string, found: Token): (r: Option<Message>)
    ensures r.None? <==> expectedKind == found.kind
    ensures r.Some? ==> r.value == ExpectedError(expected, found)
  {
    if expectedKind == found.kind then None
    else Some(Message(CodeError, "Expected " + expected + " but found " + found.value, Some(found.position)))
  }

  /** `Message::unexpected_error`: a located code error "Unexpected token: <lexeme>" at the found token. */
  function UnexpectedError(found: Token): (m: Message)
    ensures IsLocatedCodeError(m) && m.position.value == found.position
    ensures |m.text| == |UnexpectedPrefix| + |found.value|
    ensures m.text[..|UnexpectedPrefix|] == UnexpectedPrefix
    ensures m.text[|UnexpectedPrefix|..] == found.value
  {
    Message(CodeError, UnexpectedPrefix + found.value, Some(found.position))
  }

  /**
   * Every message the three factories build is a located code error, while
   * `Message::new` can build one without a position.
   */
  lemma FactoriesAreLocated(kind: TokenKind, expected: string, found: Token, m: Message)
    requires m == ExpectedError(expected, found) || m == UnexpectedError(found) ||
             ExpectedOrError(kind, expected, found) == Some(m)
    ensures IsLocatedCodeError(m) && m.position == Some(found.position)
    ensures !IsLocatedCodeError(NewMessage(Error, m.text, None))
  {
  }

  /**
   * The text of an "expected" diagnostic is never that of an "unexpected" one:
   * they start differently, so a reader of `output` can tell them apart.
   */
  lemma ExpectedDiffersFromUnexpected(expected: string, found: Token, other: Token)
    ensures ExpectedError(expected, found).text != UnexpectedError(other).text
  {
    var e, u := ExpectedError(expected, found), UnexpectedError(other);
    assert e.text[0] == 'E' && u.text[0] == 'U';
  }
}
