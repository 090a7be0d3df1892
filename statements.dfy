/**
 * The syntax tree (`parser::statements`).  Rust's `Box` and `Vec` become plain
 * values and sequences; Dafny datatypes are finite trees, so every node has one
 * owner and no node can contain itself.
 *
 * Dafny requires one type per field name across a datatype's variants, so
 * three Rust field names are changed: `Program::body` (a list, where the other
 * bodies are optional lists) is `statements`, the optional
 * `VariableDeclaration::value` is `initializer`, and the optional
 * `For::condition` is `guard`.  `r#type` is `ty` (`literalKind` on literals).
 */
module Statements {

  import opened Wrappers
  import opened Internals
  import opened InternalTypes
  import opened Tokens

  datatype Statement =
    | Program(start: Position, statements: seq<Statement>)
    | VariableDeclaration(start: Position, name: string, ty: Types, initializer: Option<Expression>)
    | ConstantDeclaration(start: Position, name: string, ty: Types, value: Expression)
    | FunctionDeclaration(start: Position, name: string, ty: Types,
                          params: Option<seq<FuncParam>>, body: Option<seq<Statement>>)
    | If(start: Position, condition: Expression, body: Option<seq<Statement>>,
         alternate: Option<seq<Statement>>)
    | ElseIf(start: Position, condition: Expression, body: Option<seq<Statement>>,
             alternate: Option<seq<Statement>>)
    | Else(start: Position, body: Option<seq<Statement>>)
    | While(start: Position, condition: Expression, body: Option<seq<Statement>>)
    | For(start: Position, variable: Option<Statement>, guard: Option<Expression>,
          variableUpdate: Option<Statement>, body: Option<seq<Statement>>,
          alternate: Option<seq<Statement>>)
    | Break(start: Position)
    | Continue(start: Position)
    | Return(start: Position, expression: Option<Expression>)
    | VariableAlteration(name: string, operator: TokenKind, value: Expression)
    | FunctionCall(call: Expression)

  datatype FuncParam = FuncParam(name: string, ty: Types)

  /** `a[i]`, or a further index applied to an access (`a[i][j]`). */
  datatype ArrayAccess =
    | Access(name: string, index: Expression)
    | NestedAccess(access: ArrayAccess, index: Expression)

  datatype Expression =
    | Identifier(name: string)
    | Binary(operator: TokenKind, left: Expression, right: Expression)
    | Logical(operator: TokenKind, left: Expression, right: Expression)
    | Unary(operator: TokenKind, operand: Expression)
    | Literal(literalKind: TokenKind, text: string)
    | ArrayLiteral(elements: Option<seq<Expression>>)
    | ArrayAccessExpr(access: ArrayAccess)
    | Call(name: string, arguments: Option<seq<Expression>>)

  /** The array an access starts from. */
  function AccessBase(a: ArrayAccess): string
  {
    match a
    case Access(name, _) => name
    case NestedAccess(inner, _) => AccessBase(inner)
  }

  /** The index expressions of an access, innermost first (`a[i][j]` gives `[i, j]`). */
  function AccessIndices(a: ArrayAccess): (r: seq<Expression>)
    ensures |r| >= 1 && r[|r| - 1] == a.index
  {
    match a
    case Access(_, i) => [i]
    case NestedAccess(inner, i) => AccessIndices(inner) + [i]
  }

  /** Builds `name[i0][i1]...` from a name and its non-empty list of indices. */
  function BuildAccess(name: string, indices: seq<Expression>): (a: ArrayAccess)
    requires |indices| >= 1
    ensures a.index == indices[|indices| - 1]
    ensures a.Access? <==> |indices| == 1
  {
    if |indices| == 1 then Access(name, indices[0])
    else NestedAccess(BuildAccess(name, indices[..|indices| - 1]), indices[|indices| - 1])
  }

  /**
   * Nesting is well founded: every access is its base name with its indices,
   * and those two determine it.
   */
  lemma {:induction false} AccessRoundTrip(a: ArrayAccess)
    ensures BuildAccess(AccessBase(a), AccessIndices(a)) == a
  {
    match a
    case Access(_, _) =>
    case NestedAccess(inner, i) =>
      var xs := AccessIndices(inner);
      assert (xs + [i])[..|xs + [i]| - 1] == xs;
      AccessRoundTrip(inner);
  }

  /** The other direction: a name and a list of indices are recovered from the access they build. */
  lemma {:induction false} BuildAccessRoundTrip(name: string, indices: seq<Expression>)
    requires |indices| >= 1
    ensures AccessBase(BuildAccess(name, indices)) == name
    ensures AccessIndices(BuildAccess(name, indices)) == indices
  {
    if |indices| > 1 {
      BuildAccessRoundTrip(name, indices[..|indices| - 1]);
      assert indices[..|indices| - 1] + [indices[|indices| - 1]] == indices;
    }
  }
}
