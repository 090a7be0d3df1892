/**
 * Source locations (`internals::Position`).  Lines and columns are Rust `usize`
 * values; they are modelled as `nat`, which keeps them non-negative.
 */
module Internals {

  /** A (line, column) source location, both counted from 0. */
  datatype Position = Position(line: nat, column: nat)

  /** `Position::new`: stores the two coordinates unchanged. */
  function NewPosition(line: nat, column: nat): (p: Position)
    ensures p.line == line && p.column == column
  {
    Position(line, column)
  }

  /**
   * The derived `PartialEq`: two positions are equal exactly when their lines
   * and their columns are, so a position is determined by its coordinates.
   */
  lemma PositionEquality(p: Position, q: Position)
    ensures p == q <==> (p.line == q.line && p.column == q.column)
    ensures p == NewPosition(p.line, p.column)
  {
  }
}
