/** Whole-screen laws of text: soft wrap is hard wrap, and rendered lines come back. */
module VtLayout {
  import opened Prelude
  import opened VtScreen
  import opened VtStrict
  import opened VtControl
  import opened VtText

  const CRLF: seq<Byte> := [0x0D, 0x0A]

  /** Printable characters one cell wide; every printable ASCII character is one. */
  predicate IsNarrow(table: Unicode, text: string) {
    forall i | 0 <= i < |text| :: IsTextual(text[i]) && CellWidth(table, text[i]) == 1
  }

  predicate IsPrintableAscii(text: string) { forall i | 0 <= i < |text| :: 0x20 <= text[i] as int < 0x7F }

  lemma AsciiIsNarrow(table: Unicode, text: string)
    requires IsPrintableAscii(text)
    ensures IsNarrow(table, text)
  {
  }

  lemma RunCrlf(c: Control)
    requires ValidControl(c) && c.mode == Ground
    ensures After(c, CRLF) == c && Ops(c, CRLF) == [CarriageReturn, LineFeed]
  {
    assert CRLF == [0x0D] + [0x0A];
    RunAppend(c, [0x0D], [0x0A]);
    RunOne(c, 0x0D);
    RunOne(c, 0x0A);
  }

  lemma ApplyTwo(s: State, a: Op, b: Op)
    requires Valid(s) && Valid(Apply(s, a))
    ensures ApplyAll(s, [a, b]) == Apply(Apply(s, a), b)
  {
    ApplyValid(Apply(s, a), b);
    assert [a, b][1..] == [b] && [b][1..] == [];
    assert ApplyAll(Apply(Apply(s, a), b), []) == Apply(Apply(s, a), b);
  }

  lemma ApplyCrlf(s: State)
    requires Valid(s)
    ensures ApplyAll(s, [CarriageReturn, LineFeed]) == Linefeed(s.(col := 0))
  {
    hide Linefeed, ApplyAll, PutChar, PutMany, Edit;
    assert Apply(s, CarriageReturn) == s.(col := 0);
    ApplyTwo(s, CarriageReturn, LineFeed);
  }

  lemma FeedCrlf(p: Parser)
    requires ValidParser(p) && p.control.mode == Ground
    ensures Feed(p, CRLF) == p.(screen := Linefeed(p.screen.(col := 0)))
  {
    hide Feed, ApplyAll, Ops, After, Apply, Linefeed;
    FeedIsRun(p, CRLF);
    RunCrlf(p.control);
    ApplyCrlf(p.screen);
  }

  // ----- soft wrap -----

  /** How many characters go on a row from a column on; marks of width 0 stay with the cell before them. */
  function Fill(table: Unicode, cols: int, col: int, text: string): (n: nat)
    requires cols >= 1 && 0 <= col <= cols
    ensures n <= |text|
    ensures col < cols && text != "" ==> n >= 1
    decreases text
  {
    if text == "" then 0 else
    var w := CellWidth(table, text[0]);
    if w == 0 then 1 + Fill(table, cols, col, text[1..])
    else if col == cols then 0
    else 1 + Fill(table, cols, Min(col + w, cols), text[1..])
  }

  /** The text cut where rows are full, the pieces joined by CR LF. */
  function HardWrap(table: Unicode, cols: int, text: string): seq<Byte>
    requires cols >= 1
    decreases |text|
  {
    var n := Fill(table, cols, 0, text);
    if n == |text| then EncodeText(text)
    else EncodeText(text[..n]) + (CRLF + HardWrap(table, cols, text[n..]))
  }

  /** The row is exactly full where the cut is. */
  lemma {:induction false} FillFills(s: State, text: string)
    requires Valid(s) && Fill(s.table, s.cols, s.col, text) < |text|
    ensures var n := Fill(s.table, s.cols, s.col, text);
            PutText(s, text[..n]).col == s.cols && CellWidth(s.table, text[n]) != 0
    decreases text
  {
    hide PutChar;
    var n := Fill(s.table, s.cols, s.col, text);
    if n > 0 {
      PutAdvances(s, text[0]);
      FillFills(PutChar(s, text[0]), text[1..]);
      assert text[..n][1..] == text[1..][..n - 1];
    }
  }

  /** At a full row, the deferred wrap does what CR LF would have done. */
  lemma DeferredWrap(s: State, text: string)
    requires Valid(s) && s.col == s.cols && text != "" && CellWidth(s.table, text[0]) != 0
    requires Valid(Linefeed(s.(col := 0)))
    ensures PutText(s, text) == PutText(Linefeed(s.(col := 0)), text)
  {
    assert Linefeed(s.(col := 0)) == Linefeed(s).(col := 0);
    assert Wrap(s) == Linefeed(s).(col := 0) == Wrap(Linefeed(s.(col := 0)));
    assert PutChar(s, text[0]) == PutChar(Linefeed(s.(col := 0)), text[0]);
  }

  lemma WrapOnScreen(s: State, text: string, n: nat)
    requires Valid(s) && s.col == 0 && n == Fill(s.table, s.cols, 0, text) < |text|
    ensures var full := PutText(s, text[..n]).(col := 0);
            Valid(Linefeed(full)) && PutText(s, text) == PutText(Linefeed(full), text[n..])
  {
    var (head, rest) := (text[..n], text[n..]);
    assert text == head + rest;
    PutTextAppend(s, head, rest);
    FillFills(s, text);
    LinefeedValid(PutText(s, head).(col := 0));
    DeferredWrap(PutText(s, head), rest);
  }

  lemma FeedHardLine(p: Parser, head: string, more: seq<Byte>)
    requires ValidParser(p) && p.control.mode == Ground && IsText(head)
    requires ValidParser(NextLine(p, head))
    ensures Alike(Feed(p, EncodeText(head) + (CRLF + more)), Feed(NextLine(p, head), more))
  {
    var q := Typed(p, head);
    FeedText(p, head);
    FeedAppend(p, EncodeText(head), CRLF + more);
    FeedAlike(Feed(p, EncodeText(head)), q, CRLF + more);
    FeedAppend(q, CRLF, more);
    FeedCrlf(q);
  }

  function NextLine(p: Parser, head: string): Parser
    requires ValidParser(p)
  {
    var q := Typed(p, head);
    q.(screen := Linefeed(q.screen.(col := 0)))
  }

  lemma TypedWraps(p: Parser, text: string, n: nat)
    requires ValidParser(p) && p.control.mode == Ground && p.screen.col == 0
    requires n == Fill(p.screen.table, p.screen.cols, 0, text) < |text|
    ensures ValidParser(NextLine(p, text[..n])) && NextLine(p, text[..n]).screen.col == 0
    ensures SameSize(p.screen, NextLine(p, text[..n]).screen)
    ensures Typed(p, text) == Typed(NextLine(p, text[..n]), text[n..])
  {
    hide PutText, Linefeed, Fill;
    var head := text[..n];
    WrapOnScreen(p.screen, text, n);
    LinefeedValid(Typed(p, head).screen.(col := 0));
  }

  /**
   From any ground state with the cursor in column 0, whatever the margins, any
   text, wide characters and combining marks included, and its hard-wrapped
   form give the same screen.
   */
  lemma {:induction false} SoftWrapIsHardWrap(p: Parser, text: string)
    requires ValidParser(p) && p.control.mode == Ground && p.screen.col == 0 && IsText(text)
    ensures Alike(Feed(p, EncodeText(text)), Feed(p, HardWrap(p.screen.table, p.screen.cols, text)))
    decreases |text|
  {
    var (table, cols) := (p.screen.table, p.screen.cols);
    var n := Fill(table, cols, 0, text);
    if n < |text| {
      var (head, rest) := (text[..n], text[n..]);
      TypedWraps(p, text, n);
      var h := NextLine(p, head);
      FeedText(p, text);
      FeedText(h, rest);
      SoftWrapIsHardWrap(h, rest);
      FeedHardLine(p, head, HardWrap(table, cols, rest));
    }
  }

  // ----- where every character is one cell wide, the pieces are `cols` characters long -----

  /** The text cut into pieces of `cols` characters joined by CR LF. */
  function Chunked(text: string, cols: int): seq<Byte>
    requires cols >= 1
    decreases |text|
  {
    if |text| <= cols then EncodeText(text)
    else EncodeText(text[..cols]) + (CRLF + Chunked(text[cols..], cols))
  }

  lemma {:induction false} NarrowFill(table: Unicode, cols: int, col: int, text: string)
    requires cols >= 1 && 0 <= col <= cols && IsNarrow(table, text)
    ensures Fill(table, cols, col, text) == Min(|text|, cols - col)
    decreases text
  {
    if text != "" && col < cols {
      NarrowFill(table, cols, col + 1, text[1..]);
    }
  }

  lemma {:induction false} NarrowHardWrap(table: Unicode, cols: int, text: string)
    requires cols >= 1 && IsNarrow(table, text)
    ensures HardWrap(table, cols, text) == Chunked(text, cols)
    decreases |text|
  {
    NarrowFill(table, cols, 0, text);
    if |text| > cols {
      NarrowHardWrap(table, cols, text[cols..]);
    }
  }

  /** For printable ASCII: feeding a text is feeding its `cols`-wide pieces joined by CR LF. */
  lemma AsciiSoftWrapIsHardWrap(p: Parser, text: string)
    requires ValidParser(p) && p.control.mode == Ground && p.screen.col == 0 && IsPrintableAscii(text)
    ensures Alike(Feed(p, EncodeText(text)), Feed(p, Chunked(text, p.screen.cols)))
  {
    AsciiIsNarrow(p.screen.table, text);
    NarrowHardWrap(p.screen.table, p.screen.cols, text);
    SoftWrapIsHardWrap(p, text);
  }

  // ----- rendering -----

  function Padded(line: string, cols: int): (cells: seq<Cell>)
    requires |line| <= cols
    ensures |cells| == cols
  {
    seq(cols, c requires 0 <= c < cols => if c < |line| then [line[c]] else BLANK)
  }

  predicate Fits(table: Unicode, cols: int, lines: seq<string>) {
    forall i | 0 <= i < |lines| :: |lines[i]| <= cols && IsNarrow(table, lines[i])
  }

  function LinesBytes(lines: seq<string>): seq<Byte> {
    if lines == [] then []
    else if |lines| == 1 then EncodeText(lines[0])
    else LinesBytes(lines[..|lines| - 1]) + (CRLF + EncodeText(lines[|lines| - 1]))
  }

  /** The rows a screen shows of some lines: the last ones, blanks below. */
  function Shown(lines: seq<string>, rows: int, r: int): string
    requires 0 <= r < rows
  {
    var i := Max(0, |lines| - rows) + r;
    if i < |lines| then lines[i] else ""
  }

  function Picture(table: Unicode, rows: int, cols: int, lines: seq<string>): (s: State)
    requires rows >= 1 && cols >= 1 && lines != [] && Fits(table, cols, lines)
    ensures Valid(s)
  {
    var k := |lines|;
    State(table, rows, cols,
          seq(rows, r requires 0 <= r < rows => Padded(Shown(lines, rows, r), cols)),
          Min(k, rows) - 1, |lines[k - 1]|, 0, rows - 1, (0, 0), Max(0, k - rows))
  }

  lemma {:induction false} TypeLine(s: State, line: string, j: nat)
    requires Valid(s) && |line| <= s.cols && IsNarrow(s.table, line) && j <= |line|
    requires s.col == j && s.grid[s.row] == Padded(line[..j], s.cols)
    ensures PutText(s, line[j..]) == SetRow(s, s.row, Padded(line, s.cols)).(col := |line|)
    decreases |line| - j
  {
    if j == |line| {
      assert line[..j] == line;
      assert s.grid[s.row := s.grid[s.row]] == s.grid;
    } else {
      var t := PutChar(s, line[j]);
      ApplyValid(s, Put(line[j]));
      assert t.grid[t.row] == Padded(line[..j + 1], s.cols);
      assert line[j..][1..] == line[j + 1..];
      TypeLine(t, line, j + 1);
      assert t.grid[s.row := Padded(line, s.cols)] == s.grid[s.row := Padded(line, s.cols)];
    }
  }

  lemma TypeFreshLine(s: State, line: string)
    requires Valid(s) && |line| <= s.cols && IsNarrow(s.table, line) && s.col == 0
    requires s.grid[s.row] == Blanks(s.cols)
    ensures PutText(s, line) == SetRow(s, s.row, Padded(line, s.cols)).(col := |line|)
  {
    assert Padded(line[..0], s.cols) == Blanks(s.cols);
    assert line[0..] == line;
    TypeLine(s, line, 0);
  }

  /** After CR LF the next line is blank and everything above is in place. */
  lemma PictureBelow(table: Unicode, rows: int, cols: int, lines: seq<string>, line: string)
    requires rows >= 1 && cols >= 1 && lines != [] && Fits(table, cols, lines)
    ensures var s := Linefeed(Picture(table, rows, cols, lines).(col := 0));
            && s == Picture(table, rows, cols, lines).(
                      grid := s.grid, row := Min(|lines| + 1, rows) - 1, col := 0,
                      history := Max(0, |lines| + 1 - rows))
            && |s.grid| == rows
            && forall r | 0 <= r < rows ::
                 s.grid[r] == if r == s.row then Blanks(cols) else Padded(Shown(lines + [line], rows, r), cols)
  {
    hide Linefeed;
    var before := Picture(table, rows, cols, lines).(col := 0);
    assert Padded("", cols) == Blanks(cols);
    if |lines| < rows {
      LinefeedAboveBottom(before);
    } else {
      LinefeedAtBottom(before);
    }
  }

  lemma LinefeedAboveBottom(s: State)
    requires Valid(s) && s.row < s.bottom
    ensures Linefeed(s) == s.(row := s.row + 1)
  {
  }

  lemma LinefeedAtBottom(s: State)
    requires Valid(s) && s.row == s.bottom == s.rows - 1 && s.top == 0
    ensures Linefeed(s) == s.(grid := Linefeed(s).grid, history := s.history + 1)
    ensures Linefeed(s).grid == s.grid[1..] + [Blanks(s.cols)]
  {
  }

  lemma NextPicture(table: Unicode, rows: int, cols: int, lines: seq<string>, line: string)
    requires rows >= 1 && cols >= 1 && lines != [] && Fits(table, cols, lines)
    requires Fits(table, cols, lines + [line])
    ensures var s := Linefeed(Picture(table, rows, cols, lines).(col := 0));
            Valid(s) && PutText(s, line) == Picture(table, rows, cols, lines + [line])
  {
    var s := Linefeed(Picture(table, rows, cols, lines).(col := 0));
    LinefeedValid(Picture(table, rows, cols, lines).(col := 0));
    PictureBelow(table, rows, cols, lines, line);
    assert (lines + [line])[|lines|] == line;
    TypeFreshLine(s, line);
    assert SetRow(s, s.row, Padded(line, cols)).grid == Picture(table, rows, cols, lines + [line]).grid;
  }

  lemma {:induction false} LinesPicture(table: Unicode, rows: int, cols: int, lines: seq<string>)
    requires rows >= 1 && cols >= 1 && lines != [] && Fits(table, cols, lines)
    ensures var p := Feed(Start(table, rows, cols), LinesBytes(lines));
            p.screen == Picture(table, rows, cols, lines) && p.control.mode == Ground
    decreases |lines|
  {
    var start := Start(table, rows, cols);
    var n := |lines| - 1;
    var line := lines[n];
    if n == 0 {
      FeedText(start, line);
      TypeFreshLine(start.screen, line);
      assert Padded("", cols) == Blanks(cols);
      assert SetRow(start.screen, 0, Padded(line, cols)).grid == Picture(table, rows, cols, lines).grid;
    } else {
      var init := lines[..n];
      assert lines == init + [line];
      LinesPicture(table, rows, cols, init);
      var p := Feed(start, LinesBytes(init));
      FeedAppend(start, LinesBytes(init), CRLF + EncodeText(line));
      FeedAppend(p, CRLF, EncodeText(line));
      FeedCrlf(p);
      LinefeedValid(p.screen.(col := 0));
      FeedText(Feed(p, CRLF), line);
      NextPicture(table, rows, cols, init, line);
    }
  }

  predicate NoTrailingSpace(line: string) { line == "" || line[|line| - 1] != ' ' }

  lemma {:induction false} PaddedShows(line: string, cols: int)
    requires |line| <= cols && NoTrailingSpace(line)
    ensures TrimRight(Join(Padded(line, cols)), ' ') == line
    decreases cols
  {
    if cols == |line| {
      JoinSingletons(line);
    } else {
      assert Padded(line, cols) == Padded(line, cols - 1) + [BLANK];
      JoinAppendBlank(Padded(line, cols - 1));
      var text := Join(Padded(line, cols - 1));
      assert (text + " ")[..|text|] == text;
      PaddedShows(line, cols - 1);
    }
  }

  lemma {:induction false} JoinSingletons(line: string)
    ensures Join(Padded(line, |line|)) == line
    decreases line
  {
    if line != "" {
      assert Padded(line, |line|)[1..] == Padded(line[1..], |line| - 1);
      JoinSingletons(line[1..]);
      assert [line[0]] + line[1..] == line;
    }
  }

  /**
   Feeding k lines joined by CR LF to a fresh interpreter shows exactly the
   last `rows` of them and counts the others as scrolled away.
   */
  lemma RenderRoundTrip(table: Unicode, rows: int, cols: int, lines: seq<string>)
    requires rows >= 1 && cols >= 1 && Fits(table, cols, lines)
    requires forall i | 0 <= i < |lines| :: NoTrailingSpace(lines[i])
    ensures var s := Feed(Start(table, rows, cols), LinesBytes(lines)).screen;
            && s.history == Max(0, |lines| - rows)
            && |VisibleRows(s)| == rows
            && forall r | 0 <= r < rows :: VisibleRows(s)[r] == Shown(lines, rows, r)
  {
    var s := Feed(Start(table, rows, cols), LinesBytes(lines)).screen;
    if lines != [] {
      LinesPicture(table, rows, cols, lines);
    }
    forall r | 0 <= r < rows ensures VisibleRows(s)[r] == Shown(lines, rows, r) {
      assert Padded("", cols) == Blanks(cols);
      assert s.grid[r] == Padded(Shown(lines, rows, r), cols);
      PaddedShows(Shown(lines, rows, r), cols);
    }
  }

  /** The same for lines of printable ASCII. */
  lemma AsciiRenderRoundTrip(table: Unicode, rows: int, cols: int, lines: seq<string>)
    requires rows >= 1 && cols >= 1
    requires forall i | 0 <= i < |lines| :: |lines[i]| <= cols && IsPrintableAscii(lines[i]) && NoTrailingSpace(lines[i])
    ensures var s := Feed(Start(table, rows, cols), LinesBytes(lines)).screen;
            && s.history == Max(0, |lines| - rows)
            && |VisibleRows(s)| == rows
            && forall r | 0 <= r < rows :: VisibleRows(s)[r] == Shown(lines, rows, r)
  {
    forall i | 0 <= i < |lines| ensures IsNarrow(table, lines[i]) {
      AsciiIsNarrow(table, lines[i]);
    }
    RenderRoundTrip(table, rows, cols, lines);
  }
}
