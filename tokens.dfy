/**
 * The token vocabulary (`lexer::tokens`): the closed set of token kinds, the
 * fixed spelling of each keyword/operator kind, the regular languages of the
 * four literal kinds, and the `Token` record.
 */
module Tokens {

  import opened Wrappers
  import opened Internals

  /** Every kind the scanner can produce; `Eof` is also the kind of the synthetic end marker. */
  datatype TokenKind =
    | NewLine
    | Whitespace
    | OpenComment
    | CloseComment
    | ColonColon
    | Eof
    | LeftParen
    | RightParen
    | LeftBracket
    | RightBracket
    | LeftBrace
    | RightBrace
    | Dot
    | Comma
    | Semicolon
    | Colon
    | KwFunc
    | KwVar
    | KwConst
    | KwStruct
    | KwEnum
    | KwClass
    | KwTrait
    | KwPub
    | KwPriv
    | KwProt
    | KwIf
    | KwElse
    | KwElif
    | KwWhile
    | KwLoop
    | KwFor
    | KwReturn
    | KwBreak
    | KwContinue
    | KwUse
    | KwOver
    | KwExtends
    | KwImpl
    | KwNew
    | KwDestroy
    | TyVoid
    | TyInt
    | TyFloat
    | TyDouble
    | TyBool
    | TyChar
    | TyString
    | OpAdd
    | OpSub
    | OpMul
    | OpDiv
    | OpMod
    | OpEq
    | OpNeq
    | OpAnd
    | OpOr
    | OpNot
    | OpLt
    | OpGt
    | OpLe
    | OpGe
    | OpAssign
    | OpAddAssign
    | OpSubAssign
    | OpMulAssign
    | OpDivAssign
    | OpModAssign
    | OpInc
    | OpDec
    | OpArrow
    | Identifier
    | Number
    | CharLiteral
    | StringLiteral
    | True
    | False

  /** The layout kinds, which only drive position tracking. */
  predicate IsLayout(k: TokenKind)
  {
    k.Whitespace? || k.NewLine?
  }

  /** The kinds matched by a regular expression rather than by fixed text. */
  predicate IsRegexKind(k: TokenKind)
  {
    k.Identifier? || k.Number? || k.CharLiteral? || k.StringLiteral?
  }

  /**
   * The `#[token(...)]` table: the kind a fixed spelling stands for, if any.
   * Being a function, it gives each spelling at most one kind.  The lookup is
   * arranged by length and then by character; only the four literal kinds,
   * which are matched by a regular expression, have no spelling.  Every
   * spelling is one to eight characters long (`continue` is the longest).
   */
  function KindOfSpelling(s: string): (r: Option<TokenKind>)
    ensures r.Some? ==> 1 <= |s| <= 8
  {
    if |s| == 1 then KindOfChar(s[0])
    else if |s| == 2 then KindOfPair(s[0], s[1])
    else if |s| > 2 then KindOfWord(s)
    else None
  }

  /** One-character spellings. */
  function KindOfChar(c: char): Option<TokenKind>
  {
    match c
    case '\n' => Some(NewLine)
    case ' ' => Some(Whitespace)
    case '\0' => Some(Eof)
    case '(' => Some(LeftParen)
    case ')' => Some(RightParen)
    case '[' => Some(LeftBracket)
    case ']' => Some(RightBracket)
    case '{' => Some(LeftBrace)
    case '}' => Some(RightBrace)
    case '.' => Some(Dot)
    case ',' => Some(Comma)
    case ';' => Some(Semicolon)
    case ':' => Some(Colon)
    case '+' => Some(OpAdd)
    case '-' => Some(OpSub)
    case '*' => Some(OpMul)
    case '/' => Some(OpDiv)
    case '%' => Some(OpMod)
    case '!' => Some(OpNot)
    case '<' => Some(OpLt)
    case '>' => Some(OpGt)
    case '=' => Some(OpAssign)
    case _ => None
  }

  /** Two-character spellings, by first and then second character. */
  function KindOfPair(a: char, b: char): Option<TokenKind>
  {
    match a
    case '-' =>
      (match b
       case '#' => Some(OpenComment)
       case '=' => Some(OpSubAssign)
       case '-' => Some(OpDec)
       case '>' => Some(OpArrow)
       case _ => None)
    case '#' => if b == '-' then Some(CloseComment) else None
    case ':' => if b == ':' then Some(ColonColon) else None
    case 'i' => if b == 'f' then Some(KwIf) else None
    case '=' => if b == '=' then Some(OpEq) else None
    case '!' => if b == '=' then Some(OpNeq) else None
    case '&' => if b == '&' then Some(OpAnd) else None
    case '|' => if b == '|' then Some(OpOr) else None
    case 'o' => if b == 'r' then Some(OpOr) else None
    case '<' => if b == '=' then Some(OpLe) else None
    case '>' => if b == '=' then Some(OpGe) else None
    case '+' =>
      (match b
       case '=' => Some(OpAddAssign)
       case '+' => Some(OpInc)
       case _ => None)
    case '*' => if b == '=' then Some(OpMulAssign) else None
    case '/' => if b == '=' then Some(OpDivAssign) else None
    case '%' => if b == '=' then Some(OpModAssign) else None
    case _ => None
  }

  /** Keyword spellings of three or more letters, grouped by their first letter. */
  function KindOfWord(s: string): (r: Option<TokenKind>)
    requires |s| > 2
    ensures r.Some? ==> |s| <= 8
  {
    match s[0]
    case 'a' =>
      if s == "and" then Some(OpAnd)
      else None
    case 'b' =>
      if s == "break" then Some(KwBreak)
      else if s == "bool" then Some(TyBool)
      else None
    case 'c' =>
      if s == "const" then Some(KwConst)
      else if s == "class" then Some(KwClass)
      else if s == "continue" then Some(KwContinue)
      else if s == "char" then Some(TyChar)
      else None
    case 'd' =>
      if s == "destroy" then Some(KwDestroy)
      else if s == "double" then Some(TyDouble)
      else None
    case 'e' =>
      if s == "enum" then Some(KwEnum)
      else if s == "else" then Some(KwElse)
      else if s == "elif" then Some(KwElif)
      else if s == "extends" then Some(KwExtends)
      else None
    case 'f' =>
      if s == "func" then Some(KwFunc)
      else if s == "for" then Some(KwFor)
      else if s == "float" then Some(TyFloat)
      else if s == "false" then Some(False)
      else None
    case 'i' =>
      if s == "impl" then Some(KwImpl)
      else if s == "int" then Some(TyInt)
      else None
    case 'l' =>
      if s == "loop" then Some(KwLoop)
      else None
    case 'n' =>
      if s == "new" then Some(KwNew)
      else if s == "not" then Some(OpNot)
      else None
    case 'o' =>
      if s == "over" then Some(KwOver)
      else None
    case 'p' =>
      if s == "pub" then Some(KwPub)
      else if s == "priv" then Some(KwPriv)
      else if s == "prot" then Some(KwProt)
      else None
    case 'r' =>
      if s == "return" then Some(KwReturn)
      else None
    case 's' =>
      if s == "struct" then Some(KwStruct)
      else if s == "str" then Some(TyString)
      else None
    case 't' =>
      if s == "trait" then Some(KwTrait)
      else if s == "true" then Some(True)
      else None
    case 'u' =>
      if s == "use" then Some(KwUse)
      else None
    case 'v' =>
      if s == "var" then Some(KwVar)
      else if s == "void" then Some(TyVoid)
      else None
    case 'w' =>
      if s == "while" then Some(KwWhile)
      else None
    case _ => None
  }

  /** Every spelling a `#[token(...)]` attribute declares, in declaration order. */
  const Declared: set<string> :=
    {"\n", " ", "-#", "#-", "::", "\0", "(", ")", "[", "]", "{", "}", ".", ",", ";", ":", "func",
     "var", "const", "struct", "enum", "class", "trait", "pub", "priv", "prot", "if", "else",
     "elif", "while", "loop", "for", "return", "break", "continue", "use", "over", "extends",
     "impl", "new", "destroy", "void", "int", "float", "double", "bool", "char", "str", "+", "-",
     "*", "/", "%", "==", "!=", "&&", "and", "||", "or", "!", "not", "<", ">", "<=", ">=", "=",
     "+=", "-=", "*=", "/=", "%=", "++", "--", "->", "true", "false"}

  /**
   * The lookup recognises nothing the attributes do not declare, and never
   * gives one of the four literal kinds.  With the
   * section lemmas below, which give each declared spelling its kind, this
   * makes `KindOfSpelling` exactly the `#[token(...)]` table.
   */
  lemma OnlyDeclaredSpellings(s: string)
    requires KindOfSpelling(s).Some?
    ensures s in Declared
    ensures !IsRegexKind(KindOfSpelling(s).value)
  {
    if |s| == 1 {
      assert s == [s[0]];
    } else if |s| == 2 {
      assert s == [s[0], s[1]];
    }
  }

  /** The `#[token(...)]` rows for the special tokens: newline, space, the comment markers, `::` and NUL. */
  lemma SpecialTokenSpellings()
    ensures KindOfSpelling("\n") == Some(NewLine)
    ensures KindOfSpelling(" ") == Some(Whitespace)
    ensures KindOfSpelling("-#") == Some(OpenComment)
    ensures KindOfSpelling("#-") == Some(CloseComment)
    ensures KindOfSpelling("::") == Some(ColonColon)
    ensures KindOfSpelling("\0") == Some(Eof)
  {
  }

  /** The `#[token(...)]` rows for the delimiters and punctuation. */
  lemma DelimiterSpellings()
    ensures KindOfSpelling("(") == Some(LeftParen)
    ensures KindOfSpelling(")") == Some(RightParen)
    ensures KindOfSpelling("[") == Some(LeftBracket)
    ensures KindOfSpelling("]") == Some(RightBracket)
    ensures KindOfSpelling("{") == Some(LeftBrace)
    ensures KindOfSpelling("}") == Some(RightBrace)
    ensures KindOfSpelling(".") == Some(Dot)
    ensures KindOfSpelling(",") == Some(Comma)
    ensures KindOfSpelling(";") == Some(Semicolon)
    ensures KindOfSpelling(":") == Some(Colon)
  {
  }

  /** The `#[token(...)]` rows for the declaration and visibility keywords. */
  lemma DeclarationKeywordSpellings()
    ensures KindOfSpelling("func") == Some(KwFunc)
    ensures KindOfSpelling("var") == Some(KwVar)
    ensures KindOfSpelling("const") == Some(KwConst)
    ensures KindOfSpelling("struct") == Some(KwStruct)
    ensures KindOfSpelling("enum") == Some(KwEnum)
    ensures KindOfSpelling("class") == Some(KwClass)
    ensures KindOfSpelling("trait") == Some(KwTrait)
    ensures KindOfSpelling("pub") == Some(KwPub)
    ensures KindOfSpelling("priv") == Some(KwPriv)
    ensures KindOfSpelling("prot") == Some(KwProt)
  {
  }

  /** The `#[token(...)]` rows for the logical, loop, control-flow and special keywords. */
  lemma FlowKeywordSpellings()
    ensures KindOfSpelling("if") == Some(KwIf)
    ensures KindOfSpelling("else") == Some(KwElse)
    ensures KindOfSpelling("elif") == Some(KwElif)
    ensures KindOfSpelling("while") == Some(KwWhile)
    ensures KindOfSpelling("loop") == Some(KwLoop)
    ensures KindOfSpelling("for") == Some(KwFor)
    ensures KindOfSpelling("return") == Some(KwReturn)
    ensures KindOfSpelling("break") == Some(KwBreak)
    ensures KindOfSpelling("continue") == Some(KwContinue)
    ensures KindOfSpelling("use") == Some(KwUse)
    ensures KindOfSpelling("over") == Some(KwOver)
    ensures KindOfSpelling("extends") == Some(KwExtends)
    ensures KindOfSpelling("impl") == Some(KwImpl)
    ensures KindOfSpelling("new") == Some(KwNew)
    ensures KindOfSpelling("destroy") == Some(KwDestroy)
  {
  }

  /** The `#[token(...)]` rows for the built-in type names. */
  lemma TypeNameSpellings()
    ensures KindOfSpelling("void") == Some(TyVoid)
    ensures KindOfSpelling("int") == Some(TyInt)
    ensures KindOfSpelling("float") == Some(TyFloat)
    ensures KindOfSpelling("double") == Some(TyDouble)
    ensures KindOfSpelling("bool") == Some(TyBool)
    ensures KindOfSpelling("char") == Some(TyChar)
    ensures KindOfSpelling("str") == Some(TyString)
  {
  }

  /** The `#[token(...)]` rows for the arithmetic operators. */
  lemma BinaryOperatorSpellings()
    ensures KindOfSpelling("+") == Some(OpAdd)
    ensures KindOfSpelling("-") == Some(OpSub)
    ensures KindOfSpelling("*") == Some(OpMul)
    ensures KindOfSpelling("/") == Some(OpDiv)
    ensures KindOfSpelling("%") == Some(OpMod)
  {
  }

  /** The `#[token(...)]` rows for the comparison and logical operators. */
  lemma LogicalOperatorSpellings()
    ensures KindOfSpelling("==") == Some(OpEq)
    ensures KindOfSpelling("!=") == Some(OpNeq)
    ensures KindOfSpelling("&&") == Some(OpAnd)
    ensures KindOfSpelling("and") == Some(OpAnd)
    ensures KindOfSpelling("||") == Some(OpOr)
    ensures KindOfSpelling("or") == Some(OpOr)
    ensures KindOfSpelling("!") == Some(OpNot)
    ensures KindOfSpelling("not") == Some(OpNot)
    ensures KindOfSpelling("<") == Some(OpLt)
    ensures KindOfSpelling(">") == Some(OpGt)
    ensures KindOfSpelling("<=") == Some(OpLe)
    ensures KindOfSpelling(">=") == Some(OpGe)
  {
  }

  /** The `#[token(...)]` rows for the assignment and special operators. */
  lemma AssignmentOperatorSpellings()
    ensures KindOfSpelling("=") == Some(OpAssign)
    ensures KindOfSpelling("+=") == Some(OpAddAssign)
    ensures KindOfSpelling("-=") == Some(OpSubAssign)
    ensures KindOfSpelling("*=") == Some(OpMulAssign)
    ensures KindOfSpelling("/=") == Some(OpDivAssign)
    ensures KindOfSpelling("%=") == Some(OpModAssign)
    ensures KindOfSpelling("++") == Some(OpInc)
    ensures KindOfSpelling("--") == Some(OpDec)
    ensures KindOfSpelling("->") == Some(OpArrow)
  {
  }

  /** The `#[token(...)]` rows for the boolean literals. */
  lemma BooleanSpellings()
    ensures KindOfSpelling("true") == Some(True)
    ensures KindOfSpelling("false") == Some(False)
  {
  }

  /** The doubled spellings: `&&`/`and`, `||`/`or` and `!`/`not`. */
  lemma DoubledSpellings()
    ensures KindOfSpelling("&&") == KindOfSpelling("and") == Some(OpAnd)
    ensures KindOfSpelling("||") == KindOfSpelling("or") == Some(OpOr)
    ensures KindOfSpelling("!") == KindOfSpelling("not") == Some(OpNot)
  {
  }

  /**
   * Each two-character operator is a kind of its own, different from the kind
   * of its one-character prefix (`==` is not two `=`).
   */
  lemma TwoCharacterComparisons()
    ensures KindOfSpelling("::") == Some(ColonColon) && KindOfSpelling(":") == Some(Colon)
    ensures KindOfSpelling("==") == Some(OpEq) && KindOfSpelling("=") == Some(OpAssign)
    ensures KindOfSpelling("!=") == Some(OpNeq) && KindOfSpelling("!") == Some(OpNot)
    ensures KindOfSpelling("<=") == Some(OpLe) && KindOfSpelling("<") == Some(OpLt)
    ensures KindOfSpelling(">=") == Some(OpGe) && KindOfSpelling(">") == Some(OpGt)
  {
  }

  /** The same for the arithmetic prefixes `+` and `-`. */
  lemma TwoCharacterArithmetic()
    ensures KindOfSpelling("+=") == Some(OpAddAssign) && KindOfSpelling("++") == Some(OpInc)
    ensures KindOfSpelling("-=") == Some(OpSubAssign) && KindOfSpelling("--") == Some(OpDec)
    ensures KindOfSpelling("->") == Some(OpArrow)
    ensures KindOfSpelling("+") == Some(OpAdd) && KindOfSpelling("-") == Some(OpSub)
  {
  }

  /**
   * A NUL character is the spelling of `Eof` and of no other kind, so a NUL in
   * the source scans as an `Eof` token.
   */
  lemma NulSpellsEof()
    ensures KindOfSpelling("\0") == Some(Eof)
    ensures forall k :: Matches(k, "\0") <==> k == Eof
  {
  }

  /** Conversely, NUL is the only spelling of `Eof`. */
  lemma EofIsSpeltNul(s: string)
    requires KindOfSpelling(s) == Some(Eof)
    ensures s == "\0"
  {
    assert s == [s[0]];
  }

  // ---- The literal kinds' regular languages --------------------------------

  predicate IsDigit(c: char) { '0' <= c <= '9' }

  predicate IsIdentifierStart(c: char) { 'a' <= c <= 'z' || 'A' <= c <= 'Z' || c == '_' }

  predicate IsIdentifierChar(c: char) { IsIdentifierStart(c) || IsDigit(c) }

  /** `[a-zA-Z_][a-zA-Z0-9_]*` */
  predicate IsIdentifierLexeme(s: string)
  {
    |s| > 0 && IsIdentifierStart(s[0]) && forall i :: 1 <= i < |s| ==> IsIdentifierChar(s[i])
  }

  /** `\d+` */
  predicate IsDigits(s: string)
  {
    |s| > 0 && forall i :: 0 <= i < |s| ==> IsDigit(s[i])
  }

  /** `0|[1-9]\d*` */
  predicate IsIntegerPart(s: string)
  {
    s == "0" || (|s| > 0 && '1' <= s[0] <= '9' && forall i :: 1 <= i < |s| ==> IsDigit(s[i]))
  }

  /** `(?:\.\d+)?` */
  predicate IsFractionPart(s: string)
  {
    s == [] || (|s| >= 2 && s[0] == '.' && IsDigits(s[1..]))
  }

  /** `(?:[eE][+-]?\d+)?` */
  predicate IsExponentPart(s: string)
  {
    s == [] ||
    (|s| >= 2 && (s[0] == 'e' || s[0] == 'E') &&
     (IsDigits(s[1..]) || (|s| >= 3 && (s[1] == '+' || s[1] == '-') && IsDigits(s[2..]))))
  }

  /** The unsigned part of a number: an integer part, then an optional fraction, then an optional exponent. */
  predicate IsUnsignedNumber(s: string)
  {
    exists i, j :: 0 < i <= j <= |s| && IsIntegerPart(s[..i]) && IsFractionPart(s[i..j]) && IsExponentPart(s[j..])
  }

  /** `-?(?:0|[1-9]\d*)(?:\.\d+)?(?:[eE][+-]?\d+)?` */
  predicate IsNumberLexeme(s: string)
  {
    IsUnsignedNumber(s) || (|s| > 0 && s[0] == '-' && IsUnsignedNumber(s[1..]))
  }

  /** The body of a quoted literal: `([^q\\]|\\[q\\bnfrt]|u[a-fA-F0-9]{4})*` for quote `q`. */
  predicate IsQuotedBody(s: string, quote: char)
    decreases |s|
  {
    s == [] ||
    (s[0] != quote && s[0] != '\\' && IsQuotedBody(s[1..], quote)) ||
    (|s| >= 2 && s[0] == '\\' && s[1] in {quote, '\\', 'b', 'n', 'f', 'r', 't'} && IsQuotedBody(s[2..], quote)) ||
    (|s| >= 5 && s[0] == 'u' && (forall i :: 1 <= i < 5 ==> IsHexDigit(s[i])) && IsQuotedBody(s[5..], quote))
  }

  predicate IsHexDigit(c: char) { IsDigit(c) || 'a' <= c <= 'f' || 'A' <= c <= 'F' }

  /** `'...'` */
  predicate IsCharLiteralLexeme(s: string)
  {
    |s| >= 2 && s[0] == '\'' && s[|s| - 1] == '\'' && IsQuotedBody(s[1..|s| - 1], '\'')
  }

  /** `"..."` */
  predicate IsStringLiteralLexeme(s: string)
  {
    |s| >= 2 && s[0] == '"' && s[|s| - 1] == '"' && IsQuotedBody(s[1..|s| - 1], '"')
  }

  /**
   * A slice the scanner may report for kind `k`: one of its spellings, or a
   * word of its regular language.  No kind matches the empty slice.
   */
  predicate Matches(k: TokenKind, slice: string): (b: bool)
    ensures b ==> |slice| > 0
  {
    match k
    case Identifier => IsIdentifierLexeme(slice)
    case Number => IsNumberLexeme(slice)
    case CharLiteral => IsCharLiteralLexeme(slice)
    case StringLiteral => IsStringLiteralLexeme(slice)
    case _ => KindOfSpelling(slice) == Some(k)
  }

  /** An identifier lexeme is non-empty and never starts with a digit. */
  lemma IdentifierShape(s: string)
    requires IsIdentifierLexeme(s)
    ensures |s| > 0 && !IsDigit(s[0]) && s[0] != '-'
  {
  }

  /**
   * A number lexeme is non-empty, starts with `-` or a digit, and has no
   * leading zero: after a leading `0` (past the optional sign) no digit follows.
   */
  lemma NumberShape(s: string)
    requires IsNumberLexeme(s)
    ensures |s| > 0 && (s[0] == '-' || IsDigit(s[0]))
    ensures s[0] == '-' ==> |s| > 1 && IsDigit(s[1])
    ensures s[0] == '0' && |s| > 1 ==> !IsDigit(s[1])
    ensures s[0] == '-' && s[1] == '0' && |s| > 2 ==> !IsDigit(s[2])
  {
    var u := if IsUnsignedNumber(s) then s else s[1..];
    assert IsUnsignedNumber(u);
    UnsignedNumberShape(u);
  }

  lemma UnsignedNumberShape(u: string)
    requires IsUnsignedNumber(u)
    ensures |u| > 0 && IsDigit(u[0])
    ensures u[0] == '0' && |u| > 1 ==> !IsDigit(u[1])
  {
    var i, j :| 0 < i <= j <= |u| && IsIntegerPart(u[..i]) && IsFractionPart(u[i..j]) && IsExponentPart(u[j..]);
    assert u[..i][0] == u[0];
    if u[0] == '0' && |u| > 1 {
      assert u[..i] == "0";
      if j > i {
        assert u[i..j][0] == u[1];
      } else if j < |u| {
        assert u[j..][0] == u[1];
      }
    }
  }

  /** No lexeme belongs to both the Identifier and the Number language. */
  lemma IdentifierNumberDisjoint(s: string)
    ensures !(IsIdentifierLexeme(s) && IsNumberLexeme(s))
  {
    if IsNumberLexeme(s) {
      NumberShape(s);
    }
  }

  /**
   * The quoted literal languages are disjoint from each other and from the
   * identifier and number languages: a char literal starts with `'`, a string
   * literal with `"`, an identifier with a letter or `_`, and a number with
   * `-` or a digit.
   */
  lemma LiteralLanguagesDisjoint(s: string)
    ensures !(IsCharLiteralLexeme(s) && IsStringLiteralLexeme(s))
    ensures !(IsIdentifierLexeme(s) && (IsCharLiteralLexeme(s) || IsStringLiteralLexeme(s)))
    ensures !(IsNumberLexeme(s) && (IsCharLiteralLexeme(s) || IsStringLiteralLexeme(s)))
  {
    if IsNumberLexeme(s) {
      NumberShape(s);
    }
  }

  /** No fixed spelling is a number, a char literal or a string literal. */
  lemma SpellingsAreNotLiterals(s: string)
    requires KindOfSpelling(s).Some?
    ensures !IsNumberLexeme(s) && !IsCharLiteralLexeme(s) && !IsStringLiteralLexeme(s)
  {
    if IsNumberLexeme(s) {
      NumberShape(s);
    }
  }

  /**
   * Two kinds match the same slice only when one is `Identifier` and the
   * slice is the other's keyword: that is the only ambiguity the scanner's
   * priorities settle.
   */
  lemma OnlyKeywordsAreAmbiguous(k1: TokenKind, k2: TokenKind, s: string)
    requires Matches(k1, s) && Matches(k2, s) && k1 != k2
    ensures (k1.Identifier? && KindOfSpelling(s) == Some(k2)) || (k2.Identifier? && KindOfSpelling(s) == Some(k1))
  {
    LiteralLanguagesDisjoint(s);
    IdentifierNumberDisjoint(s);
    if KindOfSpelling(s).Some? {
      SpellingsAreNotLiterals(s);
    }
  }

  // ---- Tokens ---------------------------------------------------------------

  /** A recognised token: its kind, where it starts, and its text (`value`). */
  datatype Token = Token(kind: TokenKind, position: Position, value: string)

  /** `Token::new`: stores kind, position and text unchanged. */
  function NewToken(kind: TokenKind, position: Position, value: string): (t: Token)
    ensures t.kind == kind && t.position == position && t.value == value
  {
    Token(kind, position, value)
  }

  /** `Token::get_position`: the (line, column) pair, from which `Position::new` rebuilds the position. */
  function GetPosition(t: Token): (r: (nat, nat))
    ensures r.0 == t.position.line && r.1 == t.position.column
    ensures NewPosition(r.0, r.1) == t.position
  {
    (t.position.line, t.position.column)
  }
}
