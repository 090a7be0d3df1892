/**
 * The lexer driver (`lexer::Lexer`).  The `logos` scanner itself is not
 * modelled: its output is taken as a sequence of raw items, each a recognised
 * kind or an unmatched slice, with the span and text it covers.  What is
 * modelled is everything the driver does with that stream: the newline
 * callback, the (line, column) cursor, the "Undefined symbol" diagnostics, the
 * in-place removal of layout tokens and the final `Eof` token.
 */
module Lexing {

  import opened Wrappers
  import opened Internals
  import opened Tokens
  import opened Handling

  // ---- The scanner's output --------------------------------------------------

  /**
   * One item of the `logos` stream: `Ok(kind)` or `Err(())`, with `span()` and
   * `slice()`.  The span counts bytes of the input's UTF-8 encoding, as `logos`
   * does on a `&str`; the slice is the text it covers.
   */
  datatype RawItem =
    | Ok(kind: TokenKind, start: nat, end: nat, slice: string)
    | Err(start: nat, end: nat, slice: string)

  /** Spans are ordered and do not overlap. */
  predicate Ordered(items: seq<RawItem>)
  {
    (forall i :: 0 <= i < |items| ==> items[i].start <= items[i].end) &&
    (forall i, j :: 0 <= i < j < |items| ==> items[i].end <= items[j].start)
  }

  // ---- Byte offsets -------------------------------------------------------------

  /** How many bytes the UTF-8 encoding of `c` takes. */
  function Utf8Width(c: char): (w: nat)
    ensures 1 <= w <= 4
    ensures w == 1 <==> c as int < 0x80
  {
    if c as int < 0x80 then 1
    else if c as int < 0x800 then 2
    else if c as int < 0x1_0000 then 3
    else 4
  }

  /** The length of `s` in UTF-8 bytes, the unit `span()` counts in. */
  function ByteLength(s: string): (r: nat)
    ensures |s| <= r <= 4 * |s|
  {
    if s == [] then 0 else ByteLength(s[..|s| - 1]) + Utf8Width(s[|s| - 1])
  }

  lemma {:induction false} ByteLengthAppend(a: string, b: string)
    ensures ByteLength(a + b) == ByteLength(a) + ByteLength(b)
  {
    if b != [] {
      var c := a + b;
      assert c[..|c| - 1] == a + b[..|b| - 1] && c[|c| - 1] == b[|b| - 1];
      ByteLengthAppend(a, b[..|b| - 1]);
    } else {
      assert a + b == a;
    }
  }

  /** The text the first `n` items cover: their slices, one after the other. */
  function TextOf(items: seq<RawItem>, n: nat): string
    requires n <= |items|
  {
    if n == 0 then [] else TextOf(items, n - 1) + items[n - 1].slice
  }

  /**
   * What the scanner guarantees about its output for `input`: the slices are
   * non-empty and, one after the other, make up the input; the spans are
   * their byte ranges, tiling the input's bytes from offset 0 in order; and a
   * recognised slice is a spelling or a word of the regular language of its
   * kind.
   */
  predicate WellFormedScan(input: string, items: seq<RawItem>)
  {
    (forall i :: 0 <= i < |items| ==>
      items[i].start < items[i].end &&
      items[i].end - items[i].start == ByteLength(items[i].slice) &&
      (items[i].Ok? ==> Matches(items[i].kind, items[i].slice))) &&
    (forall i, j :: 0 <= i < |items| && j == i + 1 && j < |items| ==> items[i].end == items[j].start) &&
    (|items| > 0 ==> items[0].start == 0) &&
    TextOf(items, |items|) == input
  }

  /**
   * On a well-formed scan, the text of the first `n` items is a prefix of the
   * input, and spans are byte offsets into it: the item at `n` starts at the
   * byte length of that prefix, and the last span ends at the input's byte
   * length.
   */
  lemma {:induction false} SpansAreByteOffsets(input: string, items: seq<RawItem>, n: nat)
    requires WellFormedScan(input, items) && n <= |items|
    ensures TextOf(items, n) <= input
    ensures n < |items| ==> items[n].start == ByteLength(TextOf(items, n))
    ensures n == |items| ==> (if n == 0 then 0 else items[n - 1].end) == ByteLength(input)
  {
    TextPrefix(items, n, |items|);
    if n > 0 {
      SpansAreByteOffsets(input, items, n - 1);
      ByteLengthAppend(TextOf(items, n - 1), items[n - 1].slice);
      if n < |items| {
        assert items[n - 1].end == items[n].start;
      }
    }
  }

  lemma {:induction false} TextPrefix(items: seq<RawItem>, n: nat, m: nat)
    requires n <= m <= |items|
    ensures TextOf(items, n) <= TextOf(items, m)
  {
    if n < m {
      TextPrefix(items, n, m - 1);
    }
  }

  /** Tiling spans are ordered. */
  lemma {:induction false} WellFormedScanIsOrdered(input: string, items: seq<RawItem>)
    requires WellFormedScan(input, items)
    ensures Ordered(items)
  {
    forall i, j | 0 <= i < j < |items| ensures items[i].end <= items[j].start {
      SpansIncrease(items, i, j);
    }
  }

  lemma {:induction false} SpansIncrease(items: seq<RawItem>, i: nat, j: nat)
    requires forall k :: 0 <= k < |items| ==> items[k].start <= items[k].end
    requires forall k, l :: 0 <= k < |items| && l == k + 1 && l < |items| ==> items[k].end == items[l].start
    requires i < j < |items|
    ensures items[i].end <= items[j].start
  {
    if i + 1 < j {
      SpansIncrease(items, i, j - 1);
      assert items[j - 1].end == items[j].start;
    }
  }

  // ---- The newline callback and the cursor -----------------------------------

  /** The scanner's `extras`: how many newlines it has seen, and the offset just past the last one. */
  datatype Extras = Extras(newlines: nat, lastNewlineEnd: nat)

  /** The `logos` lexer as the driver sees it: the items it hands out, how many so far, and its extras. */
  class Scanner {
    const items: seq<RawItem>
    var pos: nat
    var extras: Extras

    constructor (items: seq<RawItem>)
      ensures this.items == items && pos == 0 && extras == Extras(0, 0)
    {
      this.items := items;
      pos := 0;
      extras := Extras(0, 0);
    }

    /** `lex.span()` of the item handed out last. */
    function Span(): (nat, nat)
      reads this
      requires 0 < pos <= |items|
    {
      (items[pos - 1].start, items[pos - 1].end)
    }

    /** `lex.slice()` of the item handed out last. */
    function Slice(): string
      reads this
      requires 0 < pos <= |items|
    {
      items[pos - 1].slice
    }

    /**
     * `lex.next()`: hands out the next item, if any, running the newline
     * callback of a recognised newline before returning it.
     */
    method Next() returns (r: Option<RawItem>)
      requires pos <= |items|
      modifies this
      ensures old(pos) < |items| ==> r == Some(items[old(pos)]) && pos == old(pos) + 1
      ensures old(pos) == |items| ==> r == None && pos == old(pos)
      ensures extras == if r.Some? && r.value.Ok? && r.value.kind.NewLine?
                        then Extras(old(extras).newlines + 1, r.value.end)
                        else old(extras)
    {
      if pos == |items| {
        return None;
      }
      r := Some(items[pos]);
      pos := pos + 1;
      if r.value.Ok? && r.value.kind.NewLine? {
        NewlineCallback(this);
      }
    }
  }

  /** `newline_callback`: counts the newline and records the offset just past it. */
  method NewlineCallback(lex: Scanner)
    requires 0 < lex.pos <= |lex.items|
    modifies lex`extras
    ensures lex.extras == Extras(old(lex.extras).newlines + 1, lex.Span().1)
  {
    lex.extras := Extras(lex.extras.newlines + 1, lex.Span().1);
  }

  /** The driver's cursor (`token_position`) together with the scanner's extras. */
  datatype CursorState = CursorState(line: nat, column: nat, extras: Extras)

  /**
   * One item's effect on the cursor: a newline moves to the next line at column
   * 0, any other recognised item sets the column to its offset from the end of
   * the last newline, and an unmatched slice changes nothing.
   */
  function Step(st: CursorState, item: RawItem): (r: CursorState)
    ensures item.Err? ==> r == st
    ensures item.Ok? && !item.kind.NewLine? ==> r.line == st.line && r.extras == st.extras
    ensures item.Ok? && item.kind.NewLine? ==> r.line == st.line + 1 && r.column == 0 && r.extras.lastNewlineEnd == item.end
    ensures st.line == st.extras.newlines ==> r.line == r.extras.newlines
  {
    match item
    case Ok(kind, start, end, _) =>
      if kind.NewLine? then CursorState(st.line + 1, 0, Extras(st.extras.newlines + 1, end))
      else CursorState(st.line, Offset(start, st.extras.lastNewlineEnd), st.extras)
    case Err(_, _, _) => st
  }

  /**
   * `start - lastNewlineEnd` on offsets.  The subtraction underflows only if a
   * span starts before the last newline ended, which an ordered scan rules
   * out (`StateAtBounded`), so the 0 is never used.
   */
  function Offset(start: nat, lastNewlineEnd: nat): nat
  {
    if lastNewlineEnd <= start then start - lastNewlineEnd else 0
  }

  /** The cursor after the driver has handled the first `n` items. */
  function StateAt(items: seq<RawItem>, n: nat): CursorState
    requires n <= |items|
  {
    if n == 0 then CursorState(0, 0, Extras(0, 0))
    else Step(StateAt(items, n - 1), items[n - 1])
  }

  /** The last newline never ends past the end of the last span handled. */
  lemma {:induction false} StateAtBounded(items: seq<RawItem>, n: nat)
    requires Ordered(items) && n <= |items|
    ensures StateAt(items, n).extras.lastNewlineEnd <= if n == 0 then 0 else items[n - 1].end
  {
    if n > 0 {
      StateAtBounded(items, n - 1);
      if n > 1 {
        assert items[n - 2].end <= items[n - 1].start;
      }
    }
  }

  function PositionOf(st: CursorState): Position
  {
    Position(st.line, st.column)
  }

  // ---- What the driver produces -----------------------------------------------

  /** The text of the diagnostic for an unmatched slice. */
  function UndefinedSymbolText(slice: string): (r: string)
    ensures |r| == |slice| + 22
    ensures r[0] == '"' && r[1..|slice| + 1] == slice
    ensures r[|slice| + 1..] == "\" -> Undefined symbol"
  {
    "\"" + slice + "\" -> Undefined symbol"
  }

  /** Layout tokens are dropped; every other recognised item becomes a token with its slice. */
  predicate Kept(item: RawItem)
  {
    item.Ok? && !IsLayout(item.kind)
  }

  /** The tokens the driver keeps for the first `n` items, in scan order. */
  function Emitted(items: seq<RawItem>, n: nat): seq<Token>
    requires n <= |items|
  {
    if n == 0 then []
    else
      Emitted(items, n - 1) +
      (if Kept(items[n - 1]) then [Token(items[n - 1].kind, PositionOf(StateAt(items, n)), items[n - 1].slice)]
       else [])
  }

  /** The diagnostics for the first `n` items: one per unmatched slice, at the cursor as it stood before it. */
  function Diagnostics(items: seq<RawItem>, n: nat): seq<Message>
    requires n <= |items|
  {
    if n == 0 then []
    else
      Diagnostics(items, n - 1) +
      (if items[n - 1].Err?
       then [Message(CodeError, UndefinedSymbolText(items[n - 1].slice), Some(PositionOf(StateAt(items, n - 1))))]
       else [])
  }

  /** The synthetic end marker: one column past the cursor. */
  function EofToken(st: CursorState): (t: Token)
    ensures t.kind.Eof? && t.value == "EOF"
    ensures GetPosition(t) == (st.line, st.column + 1)
  {
    Token(Eof, Position(st.line, st.column + 1), "EOF")
  }

  /** The full token list `lex` leaves: the kept tokens, then `Eof`. */
  function LexTokens(items: seq<RawItem>): seq<Token>
  {
    Emitted(items, |items|) + [EofToken(StateAt(items, |items|))]
  }

  predicate NoLayout(tokens: seq<Token>)
  {
    forall i :: 0 <= i < |tokens| ==> !IsLayout(tokens[i].kind)
  }

  /** `tokens` without its last element when that element is layout. */
  function DropTrailingLayout(tokens: seq<Token>): seq<Token>
  {
    if |tokens| > 0 && IsLayout(tokens[|tokens| - 1].kind) then tokens[..|tokens| - 1] else tokens
  }

  /** How the specification functions grow by one item. */
  lemma StepFacts(items: seq<RawItem>, n: nat)
    requires n < |items|
    ensures StateAt(items, n + 1) == Step(StateAt(items, n), items[n])
    ensures Emitted(items, n + 1) == Emitted(items, n) +
              if Kept(items[n]) then [Token(items[n].kind, PositionOf(StateAt(items, n + 1)), items[n].slice)] else []
    ensures Diagnostics(items, n + 1) == Diagnostics(items, n) +
              if items[n].Err? then [Message(CodeError, UndefinedSymbolText(items[n].slice), Some(PositionOf(StateAt(items, n))))]
              else []
  {
  }

  /** The driver's `span().start - extras.1` does not underflow at the item at `n`. */
  predicate NoUnderflowAt(items: seq<RawItem>, n: nat)
    requires n < |items|
  {
    items[n].Ok? && !items[n].kind.NewLine? ==> StateAt(items, n).extras.lastNewlineEnd <= items[n].start
  }

  /** ... nor anywhere in `items`. */
  predicate NoUnderflow(items: seq<RawItem>)
  {
    forall n :: 0 <= n < |items| ==> NoUnderflowAt(items, n)
  }

  /** An ordered scan never makes the driver's cursor arithmetic underflow. */
  lemma OrderedNoUnderflow(items: seq<RawItem>)
    requires Ordered(items)
    ensures NoUnderflow(items)
  {
    forall n | 0 <= n < |items|
      ensures NoUnderflowAt(items, n)
    {
      StateAtBounded(items, n);
      if n > 0 {
        assert items[n - 1].end <= items[n].start;
      }
    }
  }

  // ---- The driver -------------------------------------------------------------

  class Lexer {
    var tokens: seq<Token>
    const input: string
    var output: seq<Message>

    /** Between calls, no layout token is left in `tokens`. */
    predicate Valid()
      reads this
    {
      NoLayout(tokens)
    }

    /** `Lexer::new`: no tokens and no diagnostics yet. */
    constructor (input: string)
      ensures this.input == input && tokens == [] && output == []
      ensures Valid()
    {
      tokens := [];
      this.input := input;
      output := [];
    }

    /**
     * `Lexer::lex`, over the items the scanner yields for `input`.  It appends
     * the kept tokens and the final `Eof` to `tokens`, and one diagnostic per
     * unmatched slice to `output`, without ever stopping early.
     */
    method Lex(items: seq<RawItem>)
      requires Valid()
      requires WellFormedScan(input, items)
      modifies this
      ensures Valid()
      ensures tokens == old(tokens) + LexTokens(items)
      ensures output == old(output) + Diagnostics(items, |items|)
    {
      WellFormedScanIsOrdered(input, items);
      OrderedNoUnderflow(items);
      Drive(items);
    }

    /** The loop of `Lexer::lex`, over any ordered sequence of scanned items. */
    method Drive(items: seq<RawItem>)
      requires Valid()
      requires NoUnderflow(items)
      modifies this`tokens, this`output
      ensures Valid()
      ensures tokens == old(tokens) + LexTokens(items)
      ensures output == old(output) + Diagnostics(items, |items|)
    {
      var lex := new Scanner(items);
      var line, column := 0, 0;
      ghost var done: nat := 0;
      while true
        invariant lex.items == items && lex.pos == done <= |items|
        invariant CursorState(line, column, lex.extras) == StateAt(items, done)
        invariant tokens == old(tokens) + Emitted(items, done)
        invariant output == old(output) + Diagnostics(items, done)
        invariant Valid()
        decreases |items| - done
      {
        var next := lex.Next();
        if next.None? {
          break;
        }
        assert NoUnderflowAt(items, done);
        StepFacts(items, done);
        line, column := Handle(lex, next.value, line, column, StateAt(items, done).extras);
        assert CursorState(line, column, lex.extras) == StateAt(items, done + 1);
        done := done + 1;
      }
      PushEof(line, column, items, old(tokens));
    }

    /** The last step of `Lexer::lex`: the `Eof` token, one column past the cursor. */
    method PushEof(line: nat, column: nat, ghost items: seq<RawItem>, ghost tokens0: seq<Token>)
      requires line == StateAt(items, |items|).line && column == StateAt(items, |items|).column
      requires tokens == tokens0 + Emitted(items, |items|)
      requires Valid()
      modifies this`tokens
      ensures tokens == tokens0 + LexTokens(items)
      ensures Valid()
    {
      tokens := tokens + [NewToken(Eof, NewPosition(line, column + 1), "EOF")];
    }

    /**
     * The body of the driver's loop for the item the scanner handed out last:
     * move the cursor, then push a token (and strip it again if it is layout)
     * or record an undefined-symbol diagnostic.  `extras` is what the
     * scanner's extras were before the newline callback ran for `item`.
     */
    method Handle(lex: Scanner, item: RawItem, line: nat, column: nat, ghost extras: Extras)
      returns (line': nat, column': nat)
      requires 0 < lex.pos <= |lex.items| && lex.items[lex.pos - 1] == item
      requires lex.extras == Step(CursorState(line, column, extras), item).extras
      requires item.Ok? && !item.kind.NewLine? ==> extras.lastNewlineEnd <= item.start
      requires Valid()
      modifies this`tokens, this`output
      ensures CursorState(line', column', lex.extras) == Step(CursorState(line, column, extras), item)
      ensures tokens == old(tokens) + if Kept(item) then [Token(item.kind, Position(line', column'), item.slice)] else []
      ensures output == old(output) +
                if item.Err? then [Message(CodeError, UndefinedSymbolText(item.slice), Some(Position(line, column)))]
                else []
      ensures Valid()
    {
      line', column' := line, column;
      match item {
        case Ok(kind, _, _, _) =>
          if kind.NewLine? {
            line' := line + 1;
            column' := 0;
          } else {
            column' := lex.Span().0 - lex.extras.lastNewlineEnd;
          }
          tokens := tokens + [NewToken(kind, NewPosition(line', column'), lex.Slice())];
        case Err(_, _, _) =>
          var symbol := lex.Slice();
          var position := NewPosition(line, column);
          var error := NewMessage(CodeError, UndefinedSymbolText(symbol), Some(position));
          output := output + [error];
      }
      StripLayout();
    }

    /**
     * The removal pass run after every item: it walks a copy of `tokens` with
     * an index and removes, in place, every element whose copy is layout.
     * Removal shifts the later elements without adjusting the index, so the
     * pass is only right because at most the last token can be layout when it
     * runs, which `Lex` ensures.
     */
    method StripLayout()
      requires |tokens| > 0 ==> NoLayout(tokens[..|tokens| - 1])
      modifies this`tokens
      ensures tokens == DropTrailingLayout(old(tokens))
      ensures NoLayout(tokens)
    {
      var snapshot := tokens;
      assert forall k :: 0 <= k < |snapshot| - 1 ==> snapshot[k] == snapshot[..|snapshot| - 1][k];
      var index := 0;
      while index < |snapshot|
        invariant 0 <= index <= |snapshot|
        invariant forall k :: 0 <= k < |snapshot| - 1 ==> !IsLayout(snapshot[k].kind)
        invariant tokens == if index == |snapshot| then DropTrailingLayout(snapshot) else snapshot
      {
        if snapshot[index].kind.Whitespace? || snapshot[index].kind.NewLine? {
          tokens := tokens[..index] + tokens[index + 1..];
        }
        index := index + 1;
      }
    }
  }
}
