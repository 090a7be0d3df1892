/**
 * The hand-off from the lexer to the parser (`parser::Parser`).  The parser
 * holds the remaining tokens, the token under consideration and the tree built
 * so far; `parse` is still a stub that only waits for `Eof`.
 */
module Parsing {

  import opened Wrappers
  import opened Internals
  import opened Tokens
  import opened Statements
  import opened Lexing
  import opened LexerFacts

  /** The tree a parser starts from: a `Program` at (0, 0) with no statements. */
  function EmptyProgram(): (s: Statement)
    ensures s.Program? && s.start == Position(0, 0) && s.statements == []
  {
    Program(NewPosition(0, 0), [])
  }

  class Parser {
    /** What the peekable iterator still yields, in order. */
    var tokens: seq<Token>
    var currentToken: Token
    var ast: Statement

    /**
     * `Parser::new`: takes the first token as the current one (the source
     * unwraps it, so the list must not be empty) and leaves the rest, in
     * order, to the iterator.
     */
    constructor (tokens: seq<Token>)
      requires |tokens| > 0
      ensures [currentToken] + this.tokens == tokens
      ensures ast == EmptyProgram()
    {
      this.tokens := tokens[1..];
      currentToken := tokens[0];
      ast := EmptyProgram();
    }

    /**
     * `Parser::parse`: a loop with an empty body that exits as soon as the
     * current token is `Eof`.  Nothing in the loop changes the current token,
     * so it either returns at once or never: `fuel` bounds the iterations that
     * stand for "never", and `spent` says how many ran.  It changes no field.
     */
    method Parse(fuel: nat) returns (halted: bool, spent: nat)
      ensures halted <==> currentToken.kind.Eof?
      ensures spent == if halted then 0 else fuel
    {
      spent := 0;
      while !currentToken.kind.Eof? && spent < fuel
        invariant spent <= fuel
        invariant currentToken.kind.Eof? ==> spent == 0
        decreases fuel - spent
      {
        spent := spent + 1;
      }
      halted := currentToken.kind.Eof?;
    }
  }

  /**
   * On a well-formed scan, the first token of the lexed input is `Eof` exactly
   * when the scanner kept no item at all, or the first item it kept is a NUL.
   */
  lemma FirstTokenIsEof(input: string, items: seq<RawItem>)
    requires WellFormedScan(input, items)
    ensures |LexTokens(items)| > 0
    ensures LexTokens(items)[0].kind.Eof? <==>
              (forall i :: 0 <= i < |items| ==> !Kept(items[i])) ||
              (exists i :: 0 <= i < |items| && Kept(items[i]) && KeptCount(items, i) == 0 && items[i].slice == "\0")
  {
    EofLast(items);
    EmittedCount(items, |items|);
    if KeptCount(items, |items|) == 0 {
      forall i | 0 <= i < |items| && Kept(items[i])
        ensures false
      {
        EmittedAt(items, |items|, i);
      }
    } else {
      EmittedOrigin(items, |items|, 0);
      var i :| 0 <= i < |items| && Kept(items[i]) && KeptCount(items, i) == 0;
      EmittedAt(items, |items|, i);
      assert Matches(items[i].kind, items[i].slice);
      if items[i].kind.Eof? {
        EofIsSpeltNul(items[i].slice);
      }
      if exists j :: 0 <= j < |items| && Kept(items[j]) && KeptCount(items, j) == 0 && items[j].slice == "\0" {
        var j :| 0 <= j < |items| && Kept(items[j]) && KeptCount(items, j) == 0 && items[j].slice == "\0";
        NulGivesEarlyEof(input, items, j);
      }
    }
  }

  /**
   * The driver's sequence: lex the input and, only when the lexer reported
   * nothing, start a parser on its tokens and run it.  The lexer's token list
   * always ends with `Eof`, so starting the parser never fails; the parser
   * starts on the first token the lexer kept (or on `Eof`), and it halts
   * exactly when that token is `Eof`, that is, when nothing but layout comes
   * before the first NUL or the end of the input.
   */
  method LexThenParse(input: string, items: seq<RawItem>, fuel: nat)
    returns (lexer: Lexer, parser: Option<Parser>, halted: bool)
    requires WellFormedScan(input, items)
    ensures lexer.input == input
    ensures lexer.tokens == LexTokens(items) && lexer.output == Diagnostics(items, |items|)
    ensures parser.Some? <==> ErrCount(items, |items|) == 0
    ensures parser.Some? ==> [parser.value.currentToken] + parser.value.tokens == LexTokens(items)
    ensures parser.Some? ==> parser.value.ast == EmptyProgram()
    ensures parser.Some? ==> (halted <==> LexTokens(items)[0].kind.Eof?)
    ensures parser.None? ==> !halted
  {
    lexer := new Lexer(input);
    lexer.Lex(items);
    DiagnosticsCount(items, |items|);
    EofLast(items);
    if |lexer.output| != 0 {
      return lexer, None, false;
    }
    var p := new Parser(lexer.tokens);
    var spent;
    halted, spent := p.Parse(fuel);
    parser := Some(p);
  }
}
