/**
 The screen grid of the VT interpreter as a value, operation by operation as
 the code performs it: rows are lists of cells that slice assignments may
 lengthen or shorten.
 */
module VtScreen {
  import opened Prelude

  // A cell holds one character, possibly followed by combining marks.
  type Cell = string

  const BLANK: Cell := " "

  /** The two Unicode facts the interpreter asks for. */
  datatype WidthTable = WidthTable(combining: set<char>, wide: set<char>)

  // ASCII characters are neither combining nor wide.
  type Unicode = t: WidthTable | forall c :: c in t.combining + t.wide ==> c as int >= 0x80
    witness WidthTable({}, {})

  function CellWidth(t: Unicode, c: char): (w: int)
    ensures 0 <= w <= 2
    ensures c as int < 0x80 ==> w == 1
  {
    assert c in t.combining || c in t.wide ==> c in t.combining + t.wide;
    if c in t.combining then 0 else if c in t.wide then 2 else 1
  }

  datatype State = State(
    table: Unicode, rows: int, cols: int,
    grid: seq<seq<Cell>>,
    row: int, col: int, top: int, bottom: int,
    saved: (int, int), history: int)

  /** A row may carry one surplus cell, which is then blank. */
  predicate RowOk(cells: seq<Cell>, cols: nat) {
    |cells| == cols || (|cells| == cols + 1 && cells[cols] == BLANK)
  }

  predicate GridOk(grid: seq<seq<Cell>>, rows: int, cols: nat) {
    |grid| == rows && forall r | 0 <= r < rows :: RowOk(grid[r], cols)
  }

  predicate SameSize(s: State, t: State) {
    s.table == t.table && s.rows == t.rows && s.cols == t.cols
  }

  predicate CursorOk(s: State) {
    && s.rows >= 1 && s.cols >= 1
    && 0 <= s.row < s.rows && 0 <= s.col <= s.cols
    && 0 <= s.top && 0 <= s.bottom < s.rows
    && 0 <= s.saved.0 < s.rows && 0 <= s.saved.1 <= s.cols
    && 0 <= s.history
  }

  predicate Valid(s: State) {
    CursorOk(s) && GridOk(s.grid, s.rows, s.cols)
  }

  function Blanks(n: nat): (cells: seq<Cell>)
    ensures |cells| == n && forall i | 0 <= i < n :: cells[i] == BLANK
  {
    seq(n, _ => BLANK)
  }

  function BlankRows(n: nat, cols: nat): (rows: seq<seq<Cell>>)
    ensures |rows| == n && forall i | 0 <= i < n :: rows[i] == Blanks(cols)
  {
    seq(n, _ => Blanks(cols))
  }

  function Init(table: Unicode, rows: int, cols: int): (s: State)
    requires rows >= 1 && cols >= 1
    ensures Valid(s)
  {
    State(table, rows, cols, BlankRows(rows, cols), 0, 0, 0, rows - 1, (0, 0), 0)
  }

  /** Python's `row[lo:hi] = cells`, whose bounds are clamped to the row. */
  function Splice(row: seq<Cell>, lo: int, hi: int, cells: seq<Cell>): seq<Cell>
    requires 0 <= lo <= hi
  {
    row[..Min(lo, |row|)] + cells + row[Min(hi, |row|)..]
  }

  function SetRow(s: State, row: int, cells: seq<Cell>): State
    requires 0 <= row < |s.grid|
  {
    s.(grid := s.grid[row := cells])
  }

  // ----- text primitives -----

  /** Rows first..last moved up by k; `blank` enters at the bottom. */
  function RolledUp<T>(g: seq<T>, first: int, last: int, k: int, blank: seq<T>): seq<T> {
    if 0 <= first <= first + k <= last + 1 <= |g| then
      g[..first] + (g[first + k..last + 1] + blank) + g[last + 1..]
    else g
  }

  function RolledDown<T>(g: seq<T>, first: int, last: int, k: int, blank: seq<T>): seq<T> {
    if 0 <= first <= last + 1 - k <= last + 1 <= |g| then
      g[..first] + (blank + g[first..last + 1 - k]) + g[last + 1..]
    else g
  }

  function ScrollUp(s: State, top: int, bottom: int, count: int): State
    requires Valid(s) && 0 <= top && bottom < s.rows
  {
    if count <= 0 || top > bottom then s else
    var k := Min(count, bottom - top + 1);
    s.(grid := RolledUp(s.grid, top, bottom, k, BlankRows(k, s.cols)),
       history := s.history + k)
  }

  function ScrollDown(s: State, top: int, bottom: int, count: int): State
    requires Valid(s) && 0 <= top && bottom < s.rows
  {
    if count <= 0 || top > bottom then s else
    var k := Min(count, bottom - top + 1);
    s.(grid := RolledDown(s.grid, top, bottom, k, BlankRows(k, s.cols)))
  }

  function Linefeed(s: State): State
    requires Valid(s)
  {
    if s.row == s.bottom then ScrollUp(s, s.top, s.bottom, 1)
    else if s.row < s.rows - 1 then s.(row := s.row + 1)
    else s
  }

  function ReverseIndex(s: State): State
    requires Valid(s)
  {
    if s.row == s.top then ScrollDown(s, s.top, s.bottom, 1)
    else if s.row > 0 then s.(row := s.row - 1)
    else s
  }

  /** A combining mark joins the cell left of the cursor, if there is one. */
  function Combine(s: State, c: char): State
    requires Valid(s)
  {
    if s.col > 0 then
      SetRow(s, s.row, s.grid[s.row][s.col - 1 := s.grid[s.row][s.col - 1] + [c]])
    else s
  }

  /** Writes a character of width 1 or 2 at a cursor that is inside the row. */
  function Write(s: State, c: char, width: int): State
    requires Valid(s) && s.col < s.cols && 1 <= width <= 2
  {
    var w := if width == 2 && s.col >= s.cols - 1 then 1 else width;
    SetRow(s, s.row, Splice(s.grid[s.row], s.col, s.col + w, [[c]] + Blanks(w - 1))).(col := s.col + w)
  }

  lemma LinefeedValid(s: State)
    requires Valid(s)
    ensures Valid(Linefeed(s)) && Linefeed(s).col == s.col && SameSize(s, Linefeed(s))
  {
  }

  function Wrap(s: State): (t: State)
    requires Valid(s)
    ensures Valid(t) && t.col < t.cols
  {
    LinefeedValid(s);
    if s.col >= s.cols then Linefeed(s).(col := 0) else s
  }

  function PutChar(s: State, c: char): State
    requires Valid(s)
  {
    var width := CellWidth(s.table, c);
    if width == 0 then Combine(s, c) else Write(Wrap(s), c, width)
  }

  // ----- erasing and editing -----

  function EraseDisplay(s: State, mode: int): State
    requires Valid(s)
  {
    if mode == 2 || mode == 3 then s.(grid := BlankRows(s.rows, s.cols))
    else if mode == 1 then
      s.(grid := BlankRows(s.row, s.cols)
               + [Splice(s.grid[s.row], 0, s.col + 1, Blanks(s.col + 1))]
               + s.grid[s.row + 1..])
    else
      s.(grid := s.grid[..s.row]
               + [Splice(s.grid[s.row], s.col, |s.grid[s.row]|, Blanks(s.cols - s.col))]
               + BlankRows(s.rows - s.row - 1, s.cols))
  }

  function EraseLine(s: State, mode: int): State
    requires Valid(s)
  {
    SetRow(s, s.row,
           if mode == 2 then Blanks(s.cols)
           else if mode == 1 then Splice(s.grid[s.row], 0, s.col + 1, Blanks(s.col + 1))
           else Splice(s.grid[s.row], s.col, |s.grid[s.row]|, Blanks(s.cols - s.col)))
  }

  function InsertChars(s: State, count: nat): State
    requires Valid(s)
  {
    var n := Min(count, s.cols - s.col);
    var row := s.grid[s.row];
    SetRow(s, s.row, Splice(row, s.col, |row|, Blanks(n) + row[s.col..s.cols - n]))
  }

  function DeleteChars(s: State, count: nat): State
    requires Valid(s)
  {
    var n := Min(count, s.cols - s.col);
    var row := s.grid[s.row];
    SetRow(s, s.row, Splice(row, s.col, |row|, row[s.col + n..s.cols] + Blanks(n)))
  }

  function EraseChars(s: State, count: nat): State
    requires Valid(s)
  {
    var n := Min(count, s.cols - s.col);
    SetRow(s, s.row, Splice(s.grid[s.row], s.col, s.col + n, Blanks(n)))
  }

  function SetMargins(s: State, top: nat, bottom: nat): State {
    var t := Max(0, top - 1);
    s.(top := t, bottom := Min(Max(bottom - 1, t), s.rows - 1))
  }

  // ----- the operations a byte can trigger -----

  datatype Op =
    | Nop
    | Put(ch: char)
    | LineFeed
    | CarriageReturn
    | Backspace
    | Tab
    | NewLine
    | Reverse
    | MoveTo(r: nat, c: nat)
    | Up(n: nat) | Down(n: nat) | Right(n: nat) | Left(n: nat)
    | NextLine(n: nat) | PreviousLine(n: nat)
    | Column(n: nat) | Line(n: nat)
    | ClearDisplay(mode: nat) | ClearLine(mode: nat)
    | AddLines(n: nat) | DropLines(n: nat)
    | AddChars(n: nat) | DropChars(n: nat) | ClearChars(n: nat)
    | RollUp(n: nat) | RollDown(n: nat)
    | Margins(first: nat, last: Option<nat>)
    | Save
    | Restore
    | Repeat(n: nat, ch: char)

  function PutMany(s: State, n: nat, c: char): (t: State)
    requires Valid(s)
    ensures Valid(t)
    decreases n
  {
    if n == 0 then s else
    PutCharValid(s, c);
    PutMany(PutChar(s, c), n - 1, c)
  }

  /** Operations that touch nothing but the cursor, the margins and the saved cursor. */
  function Move(s: State, op: Op): State
    requires Valid(s)
  {
    match op
    case CarriageReturn => s.(col := 0)
    case Backspace => if s.col > 0 then s.(col := s.col - 1) else s
    case Tab => s.(col := Min(s.cols - 1, (s.col / 8 + 1) * 8))
    case MoveTo(r, c) => s.(row := Min(Max(r - 1, 0), s.rows - 1), col := Min(Max(c - 1, 0), s.cols - 1))
    case Up(n) => s.(row := Max(s.row - n, 0))
    case Down(n) => s.(row := Min(s.row + n, s.rows - 1))
    case Right(n) => s.(col := Min(s.col + n, s.cols - 1))
    case Left(n) => s.(col := Max(s.col - n, 0))
    case NextLine(n) => s.(row := Min(s.row + n, s.rows - 1), col := 0)
    case PreviousLine(n) => s.(row := Max(s.row - n, 0), col := 0)
    case Column(n) => s.(col := Min(Max(n - 1, 0), s.cols - 1))
    case Line(n) => s.(row := Min(Max(n - 1, 0), s.rows - 1))
    case Margins(t, b) => SetMargins(s, t, if b.Some? then b.value else s.rows)
    case Save => s.(saved := (s.row, s.col))
    case Restore => s.(row := s.saved.0, col := s.saved.1)
    case _ => s
  }

  predicate IsScroll(op: Op) {
    op.LineFeed? || op.NewLine? || op.Reverse? || op.AddLines? || op.DropLines? || op.RollUp? || op.RollDown?
  }

  predicate IsEdit(op: Op) {
    op.ClearDisplay? || op.ClearLine? || op.AddChars? || op.DropChars? || op.ClearChars?
  }

  function Scroll(s: State, op: Op): State
    requires Valid(s)
  {
    match op
    case LineFeed => Linefeed(s)
    case NewLine => Linefeed(s.(col := 0))
    case Reverse => ReverseIndex(s)
    case AddLines(n) => ScrollDown(s, s.row, s.bottom, n)
    case DropLines(n) => ScrollUp(s, s.row, s.bottom, n)
    case RollUp(n) => ScrollUp(s, s.top, s.bottom, n)
    case RollDown(n) => ScrollDown(s, s.top, s.bottom, n)
    case _ => s
  }

  function Edit(s: State, op: Op): State
    requires Valid(s)
  {
    match op
    case ClearDisplay(m) => EraseDisplay(s, m)
    case ClearLine(m) => EraseLine(s, m)
    case AddChars(n) => InsertChars(s, n)
    case DropChars(n) => DeleteChars(s, n)
    case ClearChars(n) => EraseChars(s, n)
    case _ => s
  }

  function Apply(s: State, op: Op): State
    requires Valid(s)
  {
    if op.Put? then PutChar(s, op.ch)
    else if op.Repeat? then PutMany(s, op.n, op.ch)
    else if IsScroll(op) then Scroll(s, op)
    else if IsEdit(op) then Edit(s, op)
    else Move(s, op)
  }

  // ----- every operation keeps the screen valid -----

  lemma PutCharValid(s: State, c: char)
    requires Valid(s)
    ensures Valid(PutChar(s, c)) && SameSize(s, PutChar(s, c))
  {
  }

  lemma ScrollUpValid(s: State, top: int, bottom: int, count: int)
    requires Valid(s) && 0 <= top && bottom < s.rows
    ensures Valid(ScrollUp(s, top, bottom, count))
  {
  }

  lemma ScrollDownValid(s: State, top: int, bottom: int, count: int)
    requires Valid(s) && 0 <= top && bottom < s.rows
    ensures Valid(ScrollDown(s, top, bottom, count))
  {
  }

  lemma ReverseIndexValid(s: State)
    requires Valid(s)
    ensures Valid(ReverseIndex(s))
  {
  }

  lemma EraseDisplayValid(s: State, mode: int)
    requires Valid(s)
    ensures Valid(EraseDisplay(s, mode))
  {
  }

  lemma InsertCharsValid(s: State, n: nat)
    requires Valid(s)
    ensures Valid(InsertChars(s, n))
  {
  }

  lemma DeleteCharsValid(s: State, n: nat)
    requires Valid(s)
    ensures Valid(DeleteChars(s, n))
  {
  }

  lemma EraseCharsValid(s: State, n: nat)
    requires Valid(s)
    ensures Valid(EraseChars(s, n))
  {
  }

  lemma EraseLineValid(s: State, mode: int)
    requires Valid(s)
    ensures Valid(EraseLine(s, mode))
  {
  }

  lemma MoveValid(s: State, op: Op)
    requires Valid(s)
    ensures Valid(Move(s, op)) && Move(s, op).grid == s.grid && SameSize(s, Move(s, op))
  {
  }

  lemma ScrollOpValid(s: State, op: Op)
    requires Valid(s)
    ensures Valid(Scroll(s, op)) && SameSize(s, Scroll(s, op))
  {
    match op {
      case LineFeed => LinefeedValid(s);
      case NewLine => LinefeedValid(s.(col := 0));
      case Reverse => ReverseIndexValid(s);
      case AddLines(n) => ScrollDownValid(s, s.row, s.bottom, n);
      case DropLines(n) => ScrollUpValid(s, s.row, s.bottom, n);
      case RollUp(n) => ScrollUpValid(s, s.top, s.bottom, n);
      case RollDown(n) => ScrollDownValid(s, s.top, s.bottom, n);
      case _ =>
    }
  }

  lemma EditOpValid(s: State, op: Op)
    requires Valid(s)
    ensures Valid(Edit(s, op)) && SameSize(s, Edit(s, op))
  {
    match op {
      case ClearDisplay(m) => EraseDisplayValid(s, m);
      case ClearLine(m) => EraseLineValid(s, m);
      case AddChars(n) => InsertCharsValid(s, n);
      case DropChars(n) => DeleteCharsValid(s, n);
      case ClearChars(n) => EraseCharsValid(s, n);
      case _ =>
    }
  }

  lemma ApplyValid(s: State, op: Op)
    requires Valid(s)
    ensures Valid(Apply(s, op)) && SameSize(s, Apply(s, op))
  {
    if op.Put? {
      PutCharValid(s, op.ch);
    } else if op.Repeat? {
      PutManyFrame(s, op.n, op.ch);
    } else if IsScroll(op) {
      ScrollOpValid(s, op);
    } else if IsEdit(op) {
      EditOpValid(s, op);
    } else {
      MoveValid(s, op);
    }
  }

  lemma {:induction false} PutManyFrame(s: State, n: nat, c: char)
    requires Valid(s)
    ensures SameSize(s, PutMany(s, n, c))
    decreases n
  {
    if n > 0 {
      PutCharValid(s, c);
      PutManyFrame(PutChar(s, c), n - 1, c);
    }
  }

  // ----- what a reader of the screen sees -----

  function Join(cells: seq<Cell>): string {
    if cells == [] then "" else cells[0] + Join(cells[1..])
  }

  function VisibleRows(s: State): seq<string> {
    seq(|s.grid|, r requires 0 <= r < |s.grid| => TrimRight(Join(s.grid[r]), ' '))
  }
}
