/**
 An independent reference for the screen: a strict `rows` x `cols` matrix,
 where every operation is defined by what each single cell (r, c) holds
 afterwards.  There are no slices, no clamped ranges and no surplus cells here.
 The list-splicing operations of VtScreen are proved to compute exactly this.
 */
module VtStrict {
  import opened Prelude
  import opened VtScreen

  predicate Exact(g: State) {
    Valid(g) && forall r | 0 <= r < g.rows :: |g.grid[r]| == g.cols
  }

  datatype Change =
    | Shift(lo: int, hi: int, dy: int)        // rows lo..hi move up by dy (down when negative)
    | Slide(dx: int)                          // cells from the cursor rightwards move left by dx
    | Erase(mode: int, display: bool)         // ED and EL
    | Fill(count: int)                        // ECH
    | Stamp(cells: seq<Cell>)                 // text written at the cursor
    | Mark(ch: char)                          // combining mark left of the cursor

  predicate Erased(g: State, mode: int, display: bool, r: int, c: int) {
    if mode == 2 || (display && mode == 3) then display || r == g.row
    else if mode == 1 then (display && r < g.row) || (r == g.row && c <= g.col)
    else (display && r > g.row) || (r == g.row && c >= g.col)
  }

  function CellAfter(g: State, e: Change, r: int, c: int): Cell
    requires Exact(g) && 0 <= r < g.rows && 0 <= c < g.cols
  {
    match e
    case Shift(lo, hi, dy) =>
      if !(lo <= r <= hi) then g.grid[r][c]
      else if lo <= r + dy <= hi && 0 <= r + dy < g.rows then g.grid[r + dy][c]
      else BLANK
    case Slide(dx) =>
      if !(r == g.row && c >= g.col) then g.grid[r][c]
      else if g.col <= c + dx < g.cols then g.grid[r][c + dx]
      else BLANK
    case Erase(mode, display) =>
      if Erased(g, mode, display, r, c) then BLANK else g.grid[r][c]
    case Fill(count) =>
      if r == g.row && g.col <= c < g.col + count then BLANK else g.grid[r][c]
    case Stamp(cells) =>
      if r == g.row && g.col <= c < g.col + |cells| then cells[c - g.col] else g.grid[r][c]
    case Mark(ch) =>
      if r == g.row && c == g.col - 1 then g.grid[r][c] + [ch] else g.grid[r][c]
  }

  function Redraw(g: State, e: Change): (t: State)
    requires Exact(g)
    ensures Exact(t) && t == g.(grid := t.grid)
    ensures forall r, c | 0 <= r < g.rows && 0 <= c < g.cols :: t.grid[r][c] == CellAfter(g, e, r, c)
  {
    g.(grid := seq(g.rows, r requires 0 <= r < g.rows =>
                   seq(g.cols, c requires 0 <= c < g.cols => CellAfter(g, e, r, c))))
  }

  /** How many rows of lo..hi leave the region when it moves up by n. */
  function Lost(lo: int, hi: int, n: nat): nat {
    if hi < lo then 0 else Min(n, hi - lo + 1)
  }

  function StrictRoll(g: State, lo: int, hi: int, n: nat): (t: State)
    requires Exact(g)
    ensures Exact(t)
  {
    Redraw(g, Shift(lo, hi, n)).(history := g.history + Lost(lo, hi, n))
  }

  function StrictLinefeed(g: State): (t: State)
    requires Exact(g)
    ensures Exact(t)
  {
    if g.row == g.bottom then StrictRoll(g, g.top, g.bottom, 1)
    else g.(row := Clamp(g.row + 1, g.rows - 1))
  }

  function Clamp(x: int, hi: int): int { if x < 0 then 0 else if x > hi then hi else x }

  function StrictPut(g: State, c: char): (t: State)
    requires Exact(g)
    ensures Exact(t)
  {
    var width := CellWidth(g.table, c);
    if width == 0 then Redraw(g, Mark(c)) else
    var h := if g.col == g.cols then StrictLinefeed(g).(col := 0) else g;
    var text := if width == 2 && h.col + 1 < h.cols then [[c], BLANK] else [[c]];
    Redraw(h, Stamp(text)).(col := h.col + |text|)
  }

  function StrictPutMany(g: State, n: nat, c: char): (t: State)
    requires Exact(g)
    ensures Exact(t)
    decreases n
  {
    if n == 0 then g else StrictPutMany(StrictPut(g, c), n - 1, c)
  }

  function StrictMove(g: State, op: Op): (t: State)
    requires Exact(g)
    ensures Exact(t)
  {
    var (lastRow, lastCol) := (g.rows - 1, g.cols - 1);
    match op
    case CarriageReturn => g.(col := 0)
    case Backspace => g.(col := Clamp(g.col - 1, g.cols))
    case Tab => g.(col := Clamp(g.col - g.col % 8 + 8, lastCol))
    case MoveTo(r, c) => g.(row := Clamp(r - 1, lastRow), col := Clamp(c - 1, lastCol))
    case Up(n) => g.(row := Clamp(g.row - n, lastRow))
    case Down(n) => g.(row := Clamp(g.row + n, lastRow))
    case Right(n) => g.(col := Clamp(g.col + n, lastCol))
    case Left(n) => g.(col := Clamp(g.col - n, g.cols))
    case NextLine(n) => g.(row := Clamp(g.row + n, lastRow), col := 0)
    case PreviousLine(n) => g.(row := Clamp(g.row - n, lastRow), col := 0)
    case Column(n) => g.(col := Clamp(n - 1, lastCol))
    case Line(n) => g.(row := Clamp(n - 1, lastRow))
    case Margins(first, last) =>
      // An upper margin below the screen leaves the scrolling region empty.
      var t := if first == 0 then 0 else first - 1;
      var b := if last.None? || last.value > g.rows then lastRow else last.value - 1;
      g.(top := t, bottom := Clamp(if b < t then t else b, lastRow))
    case Save => g.(saved := (g.row, g.col))
    case Restore => g.(row := g.saved.0, col := g.saved.1)
    case _ => g
  }

  function StrictScroll(g: State, op: Op): (t: State)
    requires Exact(g)
    ensures Exact(t)
  {
    match op
    case LineFeed => StrictLinefeed(g)
    case NewLine => StrictLinefeed(g).(col := 0)
    case Reverse =>
      if g.row == g.top then Redraw(g, Shift(g.top, g.bottom, -1)) else g.(row := Clamp(g.row - 1, g.rows - 1))
    case AddLines(n) => Redraw(g, Shift(g.row, g.bottom, 0 - n))
    case DropLines(n) => StrictRoll(g, g.row, g.bottom, n)
    case RollUp(n) => StrictRoll(g, g.top, g.bottom, n)
    case RollDown(n) => Redraw(g, Shift(g.top, g.bottom, 0 - n))
    case _ => g
  }

  function StrictEdit(g: State, op: Op): (t: State)
    requires Exact(g)
    ensures Exact(t)
  {
    match op
    case ClearDisplay(m) => Redraw(g, Erase(m, true))
    case ClearLine(m) => Redraw(g, Erase(m, false))
    case AddChars(n) => Redraw(g, Slide(0 - n))
    case DropChars(n) => Redraw(g, Slide(n))
    case ClearChars(n) => Redraw(g, Fill(n))
    case _ => g
  }

  function StrictApply(g: State, op: Op): (t: State)
    requires Exact(g)
    ensures Exact(t)
  {
    if op.Put? then StrictPut(g, op.ch)
    else if op.Repeat? then StrictPutMany(g, op.n, op.ch)
    else if IsScroll(op) then StrictScroll(g, op)
    else if IsEdit(op) then StrictEdit(g, op)
    else StrictMove(g, op)
  }

  // ----- abstraction: cut every row to `cols` cells -----

  function Cut(s: State): (g: State)
    requires Valid(s)
    ensures Exact(g) && g == s.(grid := g.grid)
    ensures forall r | 0 <= r < s.rows :: g.grid[r] == s.grid[r][..s.cols]
    ensures forall r, c | 0 <= r < s.rows && 0 <= c < s.cols :: g.grid[r][c] == s.grid[r][c]
  {
    s.(grid := seq(s.rows, r requires 0 <= r < s.rows => s.grid[r][..s.cols]))
  }

  /** Two strict screens that agree on every cell and every scalar are equal. */
  lemma SameCells(g: State, h: State)
    requires Exact(g) && Exact(h) && h == g.(grid := h.grid)
    requires forall r, c | 0 <= r < g.rows && 0 <= c < g.cols :: g.grid[r][c] == h.grid[r][c]
    ensures g == h
  {
    forall r | 0 <= r < g.rows ensures g.grid[r] == h.grid[r] {
    }
  }

  /** The common shape of all refinement proofs: `t` is `s` with its cells redrawn. */
  lemma Refines(s: State, t: State, e: Change)
    requires Valid(s) && Valid(t) && SameSize(s, t)
    requires forall r, c | 0 <= r < s.rows && 0 <= c < s.cols :: t.grid[r][c] == CellAfter(Cut(s), e, r, c)
    ensures Cut(t).grid == Redraw(Cut(s), e).grid
  {
    SameCells(Cut(t), Redraw(Cut(s), e).(
      row := t.row, col := t.col, top := t.top, bottom := t.bottom, saved := t.saved, history := t.history));
  }

  // ----- refinement, operation by operation -----

  lemma ScrollUpRefines(s: State, top: int, bottom: int, n: nat)
    requires Valid(s) && 0 <= top && bottom < s.rows
    ensures Valid(ScrollUp(s, top, bottom, n))
    ensures Cut(ScrollUp(s, top, bottom, n)) == StrictRoll(Cut(s), top, bottom, n)
  {
    ScrollUpValid(s, top, bottom, n);
    Refines(s, ScrollUp(s, top, bottom, n), Shift(top, bottom, n));
  }

  lemma ScrollDownRefines(s: State, top: int, bottom: int, n: nat)
    requires Valid(s) && 0 <= top && bottom < s.rows
    ensures Valid(ScrollDown(s, top, bottom, n))
    ensures Cut(ScrollDown(s, top, bottom, n)) == Redraw(Cut(s), Shift(top, bottom, 0 - n))
  {
    ScrollDownValid(s, top, bottom, n);
    Refines(s, ScrollDown(s, top, bottom, n), Shift(top, bottom, 0 - n));
  }

  lemma LinefeedRefines(s: State)
    requires Valid(s)
    ensures Valid(Linefeed(s)) && Cut(Linefeed(s)) == StrictLinefeed(Cut(s))
  {
    if s.row == s.bottom {
      ScrollUpRefines(s, s.top, s.bottom, 1);
    } else if s.row < s.rows - 1 {
      SameCells(Cut(Linefeed(s)), StrictLinefeed(Cut(s)));
    }
  }

  lemma WriteRefines(s: State, c: char, width: int)
    requires Valid(s) && s.col < s.cols && 1 <= width <= 2
    ensures Valid(Write(s, c, width))
    ensures var text := if width == 2 && s.col + 1 < s.cols then [[c], BLANK] else [[c]];
            Cut(Write(s, c, width)) == Redraw(Cut(s), Stamp(text)).(col := s.col + |text|)
  {
    var text := if width == 2 && s.col + 1 < s.cols then [[c], BLANK] else [[c]];
    Refines(s, Write(s, c, width), Stamp(text));
  }

  lemma CombineRefines(s: State, c: char)
    requires Valid(s)
    ensures Valid(Combine(s, c)) && Cut(Combine(s, c)) == Redraw(Cut(s), Mark(c))
  {
    Refines(s, Combine(s, c), Mark(c));
  }

  lemma PutCharRefines(s: State, c: char)
    requires Valid(s)
    ensures Valid(PutChar(s, c)) && Cut(PutChar(s, c)) == StrictPut(Cut(s), c)
  {
    var width := CellWidth(s.table, c);
    if width == 0 {
      CombineRefines(s, c);
    } else {
      LinefeedRefines(s);
      WriteRefines(Wrap(s), c, width);
      SameCells(Cut(Linefeed(s).(col := 0)), Cut(Linefeed(s)).(col := 0));
    }
  }

  lemma {:induction false} PutManyRefines(s: State, n: nat, c: char)
    requires Valid(s)
    ensures Valid(PutMany(s, n, c)) && Cut(PutMany(s, n, c)) == StrictPutMany(Cut(s), n, c)
    decreases n
  {
    if n > 0 {
      PutCharRefines(s, c);
      PutManyRefines(PutChar(s, c), n - 1, c);
    }
  }

  lemma EraseDisplayRefines(s: State, mode: nat)
    requires Valid(s)
    ensures Valid(EraseDisplay(s, mode)) && Cut(EraseDisplay(s, mode)) == Redraw(Cut(s), Erase(mode, true))
  {
    EraseDisplayValid(s, mode);
    Refines(s, EraseDisplay(s, mode), Erase(mode, true));
  }

  lemma EraseLineRefines(s: State, mode: nat)
    requires Valid(s)
    ensures Valid(EraseLine(s, mode)) && Cut(EraseLine(s, mode)) == Redraw(Cut(s), Erase(mode, false))
  {
    EraseLineValid(s, mode);
    Refines(s, EraseLine(s, mode), Erase(mode, false));
  }

  lemma InsertCharsRefines(s: State, n: nat)
    requires Valid(s)
    ensures Valid(InsertChars(s, n)) && Cut(InsertChars(s, n)) == Redraw(Cut(s), Slide(0 - n))
  {
    InsertCharsValid(s, n);
    Refines(s, InsertChars(s, n), Slide(0 - n));
  }

  lemma DeleteCharsRefines(s: State, n: nat)
    requires Valid(s)
    ensures Valid(DeleteChars(s, n)) && Cut(DeleteChars(s, n)) == Redraw(Cut(s), Slide(n))
  {
    DeleteCharsValid(s, n);
    Refines(s, DeleteChars(s, n), Slide(n));
  }

  lemma EraseCharsRefines(s: State, n: nat)
    requires Valid(s)
    ensures Valid(EraseChars(s, n)) && Cut(EraseChars(s, n)) == Redraw(Cut(s), Fill(n))
  {
    EraseCharsValid(s, n);
    Refines(s, EraseChars(s, n), Fill(n));
  }

  lemma MoveRefines(s: State, op: Op)
    requires Valid(s)
    ensures Valid(Move(s, op)) && Cut(Move(s, op)) == StrictMove(Cut(s), op)
  {
    MoveValid(s, op);
    SameCells(Cut(Move(s, op)), StrictMove(Cut(s), op));
  }

  lemma NewLineRefines(s: State)
    requires Valid(s)
    ensures Valid(Linefeed(s.(col := 0))) && Cut(Linefeed(s.(col := 0))) == StrictLinefeed(Cut(s)).(col := 0)
  {
    LinefeedRefines(s.(col := 0));
    SameCells(Cut(s.(col := 0)), Cut(s).(col := 0));
    StrictLinefeedIgnoresColumn(Cut(s));
  }

  lemma ScrollOpRefines(s: State, op: Op)
    requires Valid(s)
    ensures Valid(Scroll(s, op)) && Cut(Scroll(s, op)) == StrictScroll(Cut(s), op)
  {
    hide ScrollUp, ScrollDown, Linefeed, ReverseIndex, Redraw, StrictRoll, StrictLinefeed, GridOk;
    match op {
      case LineFeed => LinefeedRefines(s);
      case NewLine => NewLineRefines(s);
      case Reverse => ReverseRefines(s);
      case AddLines(n) => ScrollDownRefines(s, s.row, s.bottom, n);
      case DropLines(n) => ScrollUpRefines(s, s.row, s.bottom, n);
      case RollUp(n) => ScrollUpRefines(s, s.top, s.bottom, n);
      case RollDown(n) => ScrollDownRefines(s, s.top, s.bottom, n);
      case _ =>
    }
  }

  lemma EditOpRefines(s: State, op: Op)
    requires Valid(s)
    ensures Valid(Edit(s, op)) && Cut(Edit(s, op)) == StrictEdit(Cut(s), op)
  {
    match op {
      case ClearDisplay(m) => EraseDisplayRefines(s, m);
      case ClearLine(m) => EraseLineRefines(s, m);
      case AddChars(n) => InsertCharsRefines(s, n);
      case DropChars(n) => DeleteCharsRefines(s, n);
      case ClearChars(n) => EraseCharsRefines(s, n);
      case _ =>
    }
  }

  /**
   Every operation of the interpreter, on every reachable screen, computes the
   strict operation; surplus cells never reach a cell inside the matrix.
   */
  lemma ApplyRefines(s: State, op: Op)
    requires Valid(s)
    ensures Valid(Apply(s, op)) && Cut(Apply(s, op)) == StrictApply(Cut(s), op)
  {
    if op.Put? {
      PutCharRefines(s, op.ch);
    } else if op.Repeat? {
      PutManyRefines(s, op.n, op.ch);
    } else if IsScroll(op) {
      ScrollOpRefines(s, op);
    } else if IsEdit(op) {
      EditOpRefines(s, op);
    } else {
      MoveRefines(s, op);
    }
  }

  lemma ReverseRefines(s: State)
    requires Valid(s)
    ensures Valid(ReverseIndex(s)) && Cut(ReverseIndex(s)) == StrictScroll(Cut(s), Reverse)
  {
    ReverseIndexValid(s);
    if s.row == s.top {
      ScrollDownRefines(s, s.top, s.bottom, 1);
    } else if s.row > 0 {
      SameCells(Cut(ReverseIndex(s)), StrictScroll(Cut(s), Reverse));
    }
  }

  lemma StrictLinefeedIgnoresColumn(g: State)
    requires Exact(g)
    ensures StrictLinefeed(g.(col := 0)) == StrictLinefeed(g).(col := 0)
  {
    if g.row == g.bottom {
      SameCells(StrictLinefeed(g.(col := 0)), StrictLinefeed(g).(col := 0));
    }
  }

  // ----- when a surplus cell appears -----

  /** Mode 1 erases up to and including the cursor cell, which is not in the row when a wrap is pending. */
  predicate ErasesPastTheEnd(s: State, op: Op) {
    s.col == s.cols && (op.ClearLine? || op.ClearDisplay?) && op.mode == 1
  }

  lemma PutCharStaysExact(s: State, c: char)
    requires Exact(s)
    ensures Exact(PutChar(s, c))
  {
    PutCharValid(s, c);
  }

  lemma {:induction false} PutManyStaysExact(s: State, n: nat, c: char)
    requires Exact(s)
    ensures Exact(PutMany(s, n, c))
    decreases n
  {
    if n > 0 {
      PutCharStaysExact(s, c);
      PutManyStaysExact(PutChar(s, c), n - 1, c);
    }
  }

  lemma EditStaysExactIff(s: State, op: Op)
    requires Exact(s) && IsEdit(op)
    ensures Exact(Edit(s, op)) <==> !ErasesPastTheEnd(s, op)
  {
    EditOpValid(s, op);
    assert (op.ClearLine? || op.ClearDisplay?) && op.mode == 1 ==> |Edit(s, op).grid[s.row]| == Max(s.cols, s.col + 1);
  }

  lemma ScrollUpStaysExact(s: State, top: int, bottom: int, count: int)
    requires Exact(s) && 0 <= top && bottom < s.rows
    ensures Exact(ScrollUp(s, top, bottom, count))
  {
    ScrollUpValid(s, top, bottom, count);
  }

  lemma ScrollDownStaysExact(s: State, top: int, bottom: int, count: int)
    requires Exact(s) && 0 <= top && bottom < s.rows
    ensures Exact(ScrollDown(s, top, bottom, count))
  {
    ScrollDownValid(s, top, bottom, count);
  }

  lemma ScrollStaysExact(s: State, op: Op)
    requires Exact(s) && IsScroll(op)
    ensures Exact(Scroll(s, op))
  {
    hide ScrollUp, ScrollDown;
    match op {
      case LineFeed => ScrollUpStaysExact(s, s.top, s.bottom, 1);
      case NewLine => ScrollUpStaysExact(s.(col := 0), s.top, s.bottom, 1);
      case Reverse => ScrollDownStaysExact(s, s.top, s.bottom, 1);
      case AddLines(n) => ScrollDownStaysExact(s, s.row, s.bottom, n);
      case DropLines(n) => ScrollUpStaysExact(s, s.row, s.bottom, n);
      case RollUp(n) => ScrollUpStaysExact(s, s.top, s.bottom, n);
      case RollDown(n) => ScrollDownStaysExact(s, s.top, s.bottom, n);
    }
  }

  /** On a screen without surplus cells, an erase to the left at a pending wrap is the only operation that adds one. */
  lemma StaysExactIff(s: State, op: Op)
    requires Exact(s)
    ensures Exact(Apply(s, op)) <==> !ErasesPastTheEnd(s, op)
  {
    hide PutChar, PutMany, Scroll, Edit;
    if op.Put? {
      PutCharStaysExact(s, op.ch);
    } else if op.Repeat? {
      PutManyStaysExact(s, op.n, op.ch);
    } else if IsScroll(op) {
      ScrollStaysExact(s, op);
    } else if IsEdit(op) {
      EditStaysExactIff(s, op);
    } else {
      MoveValid(s, op);
    }
  }

  // ----- the surplus cell is invisible -----

  lemma {:induction false} JoinAppendBlank(cells: seq<Cell>)
    ensures Join(cells + [BLANK]) == Join(cells) + " "
  {
    if cells == [] {
      assert cells + [BLANK] == [BLANK];
      assert [BLANK][1..] == [];
    } else {
      JoinAppendBlank(cells[1..]);
      assert (cells + [BLANK])[1..] == cells[1..] + [BLANK];
    }
  }

  lemma VisibleRowsOfCut(s: State)
    requires Valid(s)
    ensures VisibleRows(Cut(s)) == VisibleRows(s)
  {
    forall r | 0 <= r < s.rows ensures VisibleRows(Cut(s))[r] == VisibleRows(s)[r] {
      var row := s.grid[r];
      if |row| == s.cols {
        assert row[..s.cols] == row;
      } else {
        assert row == row[..s.cols] + [BLANK];
        JoinAppendBlank(row[..s.cols]);
        var text := Join(row[..s.cols]);
        assert (text + " ")[..|text|] == text;
      }
    }
  }
}
