/**
 * What `Lexer::lex` produces, stated against reference definitions that
 * count and look up items directly instead of running the cursor: which
 * tokens and diagnostics come out, in which order, and at which positions.
 * As in the driver's specification, `n` counts the items handled so far.
 */
module LexerFacts {

  import opened Wrappers
  import opened Internals
  import opened Tokens
  import opened Handling
  import opened Lexing

  // ---- Reference definitions ---------------------------------------------------

  predicate IsNewLineItem(item: RawItem)
  {
    item.Ok? && item.kind.NewLine?
  }

  /** How many recognised newlines the first `n` items hold. */
  function NewLineCount(items: seq<RawItem>, n: nat): nat
    requires n <= |items|
  {
    if n == 0 then 0
    else NewLineCount(items, n - 1) + (if IsNewLineItem(items[n - 1]) then 1 else 0)
  }

  /** The offset just past the last recognised newline among the first `n` items, or 0 if there is none. */
  function LastNewlineEnd(items: seq<RawItem>, n: nat): nat
    requires n <= |items|
  {
    if n == 0 then 0
    else if IsNewLineItem(items[n - 1]) then items[n - 1].end
    else LastNewlineEnd(items, n - 1)
  }

  /** How many of the first `n` items become tokens. */
  function KeptCount(items: seq<RawItem>, n: nat): nat
    requires n <= |items|
  {
    if n == 0 then 0
    else KeptCount(items, n - 1) + (if Kept(items[n - 1]) then 1 else 0)
  }

  /** How many of the first `n` items are slices the scanner could not match. */
  function ErrCount(items: seq<RawItem>, n: nat): nat
    requires n <= |items|
  {
    if n == 0 then 0
    else ErrCount(items, n - 1) + (if items[n - 1].Err? then 1 else 0)
  }

  /** The index of the last recognised item among the first `n`, if any. */
  function LastOk(items: seq<RawItem>, n: nat): (r: Option<nat>)
    requires n <= |items|
    ensures r.Some? ==> r.value < n && items[r.value].Ok?
    ensures r.Some? ==> forall i :: r.value < i < n ==> items[i].Err?
    ensures r.None? ==> forall i :: 0 <= i < n ==> items[i].Err?
  {
    if n == 0 then None
    else if items[n - 1].Ok? then Some(n - 1)
    else LastOk(items, n - 1)
  }

  /**
   * The column the item at `i` is given: 0 for a newline, otherwise its
   * offset from the end of the last newline before it (from the start of the
   * input when there is none).
   */
  function ColumnOf(items: seq<RawItem>, i: nat): nat
    requires i < |items|
  {
    if IsNewLineItem(items[i]) then 0 else Offset(items[i].start, LastNewlineEnd(items, i))
  }

  /** The column of the cursor after the first `n` items: that of the last recognised one, or 0. */
  function CursorColumn(items: seq<RawItem>, n: nat): nat
    requires n <= |items|
  {
    match LastOk(items, n)
    case None => 0
    case Some(i) => ColumnOf(items, i)
  }

  // ---- The cursor ---------------------------------------------------------------

  /**
   * The cursor after the first `n` items: the line is the number of newlines,
   * the column is that of the last recognised item, and the extras are the
   * newline count and the offset just past the last newline.
   */
  lemma {:induction false} CursorAt(items: seq<RawItem>, n: nat)
    requires n <= |items|
    ensures StateAt(items, n) ==
              CursorState(NewLineCount(items, n), CursorColumn(items, n),
                          Extras(NewLineCount(items, n), LastNewlineEnd(items, n)))
  {
    if n > 0 {
      CursorAt(items, n - 1);
    }
  }

  // ---- Tokens -------------------------------------------------------------------

  /** One token per kept item. */
  lemma {:induction false} EmittedCount(items: seq<RawItem>, n: nat)
    requires n <= |items|
    ensures |Emitted(items, n)| == KeptCount(items, n)
  {
    if n > 0 {
      EmittedCount(items, n - 1);
    }
  }

  /** Kept items keep their scan order: a later item's token comes later. */
  lemma {:induction false} KeptOrder(items: seq<RawItem>, i: nat, j: nat)
    requires i < j <= |items| && Kept(items[i])
    ensures KeptCount(items, i) < KeptCount(items, j)
  {
    if j > i + 1 {
      KeptOrder(items, i, j - 1);
    }
  }

  /**
   * The kept item at `i` becomes the token at index `KeptCount(items, i)`:
   * same kind, its slice as value, on the line given by the newlines before
   * it, at its offset from the end of the last of them.
   */
  lemma {:induction false} EmittedAt(items: seq<RawItem>, n: nat, i: nat)
    requires i < n <= |items| && Kept(items[i])
    ensures KeptCount(items, i) < |Emitted(items, n)|
    ensures Emitted(items, n)[KeptCount(items, i)] ==
              Token(items[i].kind,
                    Position(NewLineCount(items, i), Offset(items[i].start, LastNewlineEnd(items, i))),
                    items[i].slice)
  {
    EmittedCount(items, n - 1);
    if i < n - 1 {
      EmittedAt(items, n - 1, i);
    } else {
      CursorAt(items, i);
    }
  }

  /** Every token before `Eof` comes from a kept item. */
  lemma {:induction false} EmittedOrigin(items: seq<RawItem>, n: nat, k: nat)
    requires n <= |items| && k < |Emitted(items, n)|
    ensures exists i :: 0 <= i < n && Kept(items[i]) && KeptCount(items, i) == k
  {
    EmittedCount(items, n - 1);
    if k < |Emitted(items, n - 1)| {
      EmittedOrigin(items, n - 1, k);
    } else {
      assert Kept(items[n - 1]) && KeptCount(items, n - 1) == k;
    }
  }

  /** No Whitespace or NewLine token survives. */
  lemma EmittedHasNoLayout(items: seq<RawItem>, n: nat)
    requires n <= |items|
    ensures NoLayout(Emitted(items, n))
  {
    forall k | 0 <= k < |Emitted(items, n)|
      ensures !IsLayout(Emitted(items, n)[k].kind)
    {
      EmittedOrigin(items, n, k);
      var i :| 0 <= i < n && Kept(items[i]) && KeptCount(items, i) == k;
      EmittedAt(items, n, i);
    }
  }

  /** On a well-formed scan, every token's value is a word of its kind's language. */
  lemma EmittedMatch(input: string, items: seq<RawItem>)
    requires WellFormedScan(input, items)
    ensures forall t :: t in Emitted(items, |items|) ==> Matches(t.kind, t.value)
  {
    var ts := Emitted(items, |items|);
    forall t | t in ts
      ensures Matches(t.kind, t.value)
    {
      var k :| 0 <= k < |ts| && ts[k] == t;
      EmittedOrigin(items, |items|, k);
      var i :| 0 <= i < |items| && Kept(items[i]) && KeptCount(items, i) == k;
      EmittedAt(items, |items|, i);
    }
  }

  /** The synthetic `Eof` closes the list, one column past the cursor. */
  lemma EofLast(items: seq<RawItem>)
    ensures |LexTokens(items)| == KeptCount(items, |items|) + 1
    ensures LexTokens(items)[KeptCount(items, |items|)] ==
              Token(Eof, Position(NewLineCount(items, |items|), CursorColumn(items, |items|) + 1), "EOF")
  {
    EmittedCount(items, |items|);
    CursorAt(items, |items|);
  }

  /**
   * A NUL character is the spelling of `Eof`, so a NUL the scanner recognises
   * becomes an `Eof` token ahead of the final one.
   */
  lemma NulGivesEarlyEof(input: string, items: seq<RawItem>, i: nat)
    requires WellFormedScan(input, items)
    requires i < |items| && items[i].Ok? && items[i].slice == "\0"
    ensures KeptCount(items, i) < |LexTokens(items)| - 1
    ensures LexTokens(items)[KeptCount(items, i)].kind.Eof?
  {
    assert Matches(items[i].kind, items[i].slice);
    NulSpellsEof();
    EmittedAt(items, |items|, i);
  }

  // ---- Diagnostics --------------------------------------------------------------

  /** One diagnostic per unmatched slice: scanning never stops at an error. */
  lemma {:induction false} DiagnosticsCount(items: seq<RawItem>, n: nat)
    requires n <= |items|
    ensures |Diagnostics(items, n)| == ErrCount(items, n)
  {
    if n > 0 {
      DiagnosticsCount(items, n - 1);
    }
  }

  /**
   * The unmatched slice at `i` gives the diagnostic at index `ErrCount(items, i)`:
   * an "Undefined symbol" `CodeError` located at the cursor as the last
   * recognised item before it left it, not at the slice itself.
   */
  lemma {:induction false} DiagnosticAt(items: seq<RawItem>, n: nat, i: nat)
    requires i < n <= |items| && items[i].Err?
    ensures ErrCount(items, i) < |Diagnostics(items, n)|
    ensures Diagnostics(items, n)[ErrCount(items, i)] ==
              Message(CodeError, "\"" + items[i].slice + "\" -> Undefined symbol",
                      Some(Position(NewLineCount(items, i), CursorColumn(items, i))))
  {
    DiagnosticsCount(items, n - 1);
    if i < n - 1 {
      DiagnosticAt(items, n - 1, i);
    } else {
      CursorAt(items, i);
    }
  }

  /** Every diagnostic comes from an unmatched slice. */
  lemma {:induction false} DiagnosticOrigin(items: seq<RawItem>, n: nat, k: nat)
    requires n <= |items| && k < |Diagnostics(items, n)|
    ensures exists i :: 0 <= i < n && items[i].Err? && ErrCount(items, i) == k
  {
    DiagnosticsCount(items, n - 1);
    if k < |Diagnostics(items, n - 1)| {
      DiagnosticOrigin(items, n - 1, k);
    } else {
      assert items[n - 1].Err? && ErrCount(items, n - 1) == k;
    }
  }

  // ---- Byte columns -------------------------------------------------------------

  /** The input `"é" x`, whose `é` takes two bytes in UTF-8. */
  const NonAsciiInput: string := "\"\U{E9}\" x"

  /** What the scanner yields for it: a string literal, a space and an identifier, with byte spans. */
  const NonAsciiItems: seq<RawItem> :=
    [Ok(StringLiteral, 0, 4, "\"\U{E9}\""), Ok(Whitespace, 4, 5, " "), Ok(Identifier, 5, 6, "x")]

  /** The quoted `é` takes four bytes and is a string literal. */
  lemma NonAsciiLiteral()
    ensures ByteLength("\"\U{E9}\"") == 4
    ensures Matches(StringLiteral, "\"\U{E9}\"")
  {
    var quoted := "\"\U{E9}\"";
    assert quoted[..2] == "\"\U{E9}" && quoted[..1] == "\"" && quoted[..0] == "";
    assert quoted[1..|quoted| - 1] == "\U{E9}" && "\U{E9}"[1..] == "";
  }

  /** Each item's span is as long as its slice in bytes, and a recognised slice matches its kind. */
  lemma NonAsciiItem(i: nat)
    requires i < |NonAsciiItems|
    ensures NonAsciiItems[i].start < NonAsciiItems[i].end
    ensures NonAsciiItems[i].end - NonAsciiItems[i].start == ByteLength(NonAsciiItems[i].slice)
    ensures NonAsciiItems[i].Ok? ==> Matches(NonAsciiItems[i].kind, NonAsciiItems[i].slice)
  {
    if i == 0 {
      NonAsciiLiteral();
    } else {
      assert NonAsciiItems[i].slice[..0] == "";
    }
  }

  /** Those byte spans are a well-formed scan of the input. */
  lemma NonAsciiScanIsWellFormed()
    ensures WellFormedScan(NonAsciiInput, NonAsciiItems)
  {
    var items := NonAsciiItems;
    forall i | 0 <= i < |items|
      ensures items[i].start < items[i].end
      ensures items[i].end - items[i].start == ByteLength(items[i].slice)
      ensures items[i].Ok? ==> Matches(items[i].kind, items[i].slice)
    {
      NonAsciiItem(i);
    }
    assert TextOf(items, 2) == "\"\U{E9}\" ";
  }

  /**
   * Columns count bytes, as `span()` does: the two-byte `é` puts `x` at
   * column 5 and the final `Eof` at column 6.
   */
  lemma NonAsciiColumns()
    ensures LexTokens(NonAsciiItems) == [Token(StringLiteral, Position(0, 0), "\"\U{E9}\""),
                                         Token(Identifier, Position(0, 5), "x"),
                                         Token(Eof, Position(0, 6), "EOF")]
  {
    var items := NonAsciiItems;
    assert StateAt(items, 1) == CursorState(0, 0, Extras(0, 0));
    assert StateAt(items, 2) == CursorState(0, 4, Extras(0, 0));
    assert StateAt(items, 3) == CursorState(0, 5, Extras(0, 0));
    assert Emitted(items, 2) == [Token(StringLiteral, Position(0, 0), "\"\U{E9}\"")];
  }
}
