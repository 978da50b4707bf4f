/**
 The screen as the program holds it: a list of row objects that are edited in
 place.  No two positions of the grid ever hold the same row object, so an edit
 of the cursor row touches nothing else; every method is tied to the
 corresponding operation on values.
 */
module VtScreenObject {
  import opened Prelude
  import opened VtScreen

  class Row {
    var cells: seq<Cell>

    constructor (cells: seq<Cell>)
      ensures this.cells == cells
    {
      this.cells := cells;
    }
  }

  ghost predicate Distinct(g: seq<Row>) {
    forall i, j | 0 <= i < j < |g| :: g[i] != g[j]
  }

  ghost function Contents(g: seq<Row>): (c: seq<seq<Cell>>)
    reads g
    ensures |c| == |g| && forall i | 0 <= i < |g| :: c[i] == g[i].cells
  {
    seq(|g|, i requires 0 <= i < |g| reads g => g[i].cells)
  }

  method BlankLines(n: nat, cols: nat) returns (g: seq<Row>)
    ensures |g| == n && Distinct(g) && Contents(g) == BlankRows(n, cols)
    ensures forall i | 0 <= i < |g| :: fresh(g[i])
  {
    g := [];
    for i := 0 to n
      invariant |g| == i && Distinct(g)
      invariant forall k | 0 <= k < i :: g[k].cells == Blanks(cols) && fresh(g[k])
    {
      var r := new Row(Blanks(cols));
      g := g + [r];
    }
  }

  ghost function Objects(g: seq<Row>): set<Row> { set r | r in g }

  ghost predicate Disjoint(a: seq<Row>, b: seq<Row>) {
    forall i, j | 0 <= i < |a| && 0 <= j < |b| :: a[i] != b[j]
  }

  lemma ContentsConcat(a: seq<Row>, b: seq<Row>)
    ensures Contents(a + b) == Contents(a) + Contents(b)
  {
  }

  lemma ContentsSlice(g: seq<Row>, i: int, j: int)
    requires 0 <= i <= j <= |g|
    ensures Contents(g[i..j]) == Contents(g)[i..j]
  {
  }

  lemma DistinctConcat(a: seq<Row>, b: seq<Row>)
    requires Distinct(a) && Distinct(b) && Disjoint(a, b)
    ensures Distinct(a + b)
  {
  }

  lemma RolledUpDistinct(g: seq<Row>, first: int, last: int, k: int, blank: seq<Row>)
    requires 0 <= first <= first + k <= last + 1 <= |g| && |blank| == k >= 0
    requires Distinct(g) && Distinct(blank) && Disjoint(g, blank)
    ensures Distinct(RolledUp(g, first, last, k, blank))
  {
    var (a, b, c) := (g[..first], g[first + k..last + 1], g[last + 1..]);
    DistinctConcat(b, blank);
    DistinctConcat(a, b + blank);
    DistinctConcat(a + (b + blank), c);
  }

  lemma RolledUpContents(g: seq<Row>, first: int, last: int, k: int, blank: seq<Row>)
    requires 0 <= first <= first + k <= last + 1 <= |g| && |blank| == k >= 0
    ensures Contents(RolledUp(g, first, last, k, blank)) == RolledUp(Contents(g), first, last, k, Contents(blank))
  {
    var (a, b, c) := (g[..first], g[first + k..last + 1], g[last + 1..]);
    ContentsSlice(g, 0, first);
    ContentsSlice(g, first + k, last + 1);
    ContentsSlice(g, last + 1, |g|);
    ContentsConcat(b, blank);
    ContentsConcat(a, b + blank);
    ContentsConcat(a + (b + blank), c);
  }

  lemma RolledDownDistinct(g: seq<Row>, first: int, last: int, k: int, blank: seq<Row>)
    requires 0 <= first <= last + 1 - k <= last + 1 <= |g| && |blank| == k >= 0
    requires Distinct(g) && Distinct(blank) && Disjoint(g, blank)
    ensures Distinct(RolledDown(g, first, last, k, blank))
  {
    var (a, b, c) := (g[..first], g[first..last + 1 - k], g[last + 1..]);
    DistinctConcat(blank, b);
    DistinctConcat(a, blank + b);
    DistinctConcat(a + (blank + b), c);
  }

  lemma RolledDownContents(g: seq<Row>, first: int, last: int, k: int, blank: seq<Row>)
    requires 0 <= first <= last + 1 - k <= last + 1 <= |g| && |blank| == k >= 0
    ensures Contents(RolledDown(g, first, last, k, blank)) == RolledDown(Contents(g), first, last, k, Contents(blank))
  {
    var (a, b, c) := (g[..first], g[first..last + 1 - k], g[last + 1..]);
    ContentsSlice(g, 0, first);
    ContentsSlice(g, first, last + 1 - k);
    ContentsSlice(g, last + 1, |g|);
    ContentsConcat(blank, b);
    ContentsConcat(a, blank + b);
    ContentsConcat(a + (blank + b), c);
  }

  /** Rolling brings in no row objects but the blank ones. */
  lemma RolledWithin(g: seq<Row>, first: int, last: int, k: int, blank: seq<Row>, repr: set<Row>)
    requires |blank| == k >= 0 && forall i | 0 <= i < |g| :: g[i] in repr
    ensures var up := RolledUp(g, first, last, k, blank); forall i | 0 <= i < |up| :: up[i] in repr + Objects(blank)
    ensures var down := RolledDown(g, first, last, k, blank);
            forall i | 0 <= i < |down| :: down[i] in repr + Objects(blank)
  {
  }

  /** Some rows with those from lo to hi replaced by blanks. */
  function BlankedOut(g: seq<seq<Cell>>, lo: int, hi: int, cols: int): (b: seq<seq<Cell>>)
    requires 0 <= lo <= hi <= |g| && cols >= 0
    ensures |b| == |g|
  {
    g[..lo] + BlankRows(hi - lo, cols) + g[hi..]
  }

  lemma BlankedAbove(before: seq<seq<Cell>>, n: int, cols: int, cells: seq<Cell>)
    requires 0 <= n < |before| && cols >= 0
    ensures BlankedOut(before, 0, n, cols)[n] == before[n]
    ensures BlankedOut(before, 0, n, cols)[n := cells] == BlankRows(n, cols) + [cells] + before[n + 1..]
  {
  }

  lemma BlankedBelow(before: seq<seq<Cell>>, n: int, cols: int, cells: seq<Cell>)
    requires 0 <= n < |before| && cols >= 0
    ensures BlankedOut(before[n := cells], n + 1, |before|, cols) ==
            before[..n] + [cells] + BlankRows(|before| - n - 1, cols)
  {
  }

  class Screen {
    const table: Unicode
    const rows: int
    const cols: int
    var grid: seq<Row>
    var cursorRow: int
    var cursorCol: int
    var marginTop: int
    var marginBottom: int
    var savedCursor: (int, int)
    var scrollHistory: int
    ghost var Repr: set<Row>  // every row object this screen has created

    ghost function View(): State
      reads this, grid
    {
      State(table, rows, cols, Contents(grid), cursorRow, cursorCol, marginTop, marginBottom,
            savedCursor, scrollHistory)
    }

    ghost predicate Owned()
      reads this
    {
      Distinct(grid) && forall i | 0 <= i < |grid| :: grid[i] in Repr
    }

    ghost predicate Valid()
      reads this, grid
    {
      Owned() && VtScreen.Valid(View())
    }

    constructor (table: Unicode, rows: int, cols: int)
      requires rows >= 1 && cols >= 1
      ensures Valid() && View() == Init(table, rows, cols)
      ensures fresh(Repr)
    {
      this.table, this.rows, this.cols := table, rows, cols;
      cursorRow, cursorCol := 0, 0;
      marginTop, marginBottom := 0, rows - 1;
      savedCursor := (0, 0);
      scrollHistory := 0;
      grid, Repr := [], {};
      new;
      grid := BlankLines(rows, cols);
      Repr := Objects(grid);
    }

    // ----- scrolling: row objects move, none is written -----

    /** The slice assignment of _scroll_up: row objects move, none is written. */
    method SpliceUp(first: int, last: int, k: int) returns (blank: seq<Row>)
      requires Owned() && cols >= 0 && k >= 0 && 0 <= first <= first + k <= last + 1 <= |grid|
      modifies this`grid, this`Repr
      ensures grid == RolledUp(old(grid), first, last, k, blank)
      ensures Owned() && fresh(Repr - old(Repr))
      ensures Contents(grid) == RolledUp(old(Contents(grid)), first, last, k, BlankRows(k, cols))
      ensures forall i | 0 <= i < |blank| :: fresh(blank[i])
    {
      hide Distinct, Contents;
      blank := BlankLines(k, cols);
      RolledUpDistinct(grid, first, last, k, blank);
      RolledUpContents(grid, first, last, k, blank);
      RolledWithin(grid, first, last, k, blank, Repr);
      grid := grid[..first] + (grid[first + k..last + 1] + blank) + grid[last + 1..];
      Repr := Repr + Objects(blank);
    }

    method ScrollUpRegion(first: int, last: int, count: int)
      requires Valid() && 0 <= first && last < rows
      modifies this`grid, this`Repr, this`scrollHistory
      ensures Valid() && View() == VtScreen.ScrollUp(old(View()), first, last, count)
      ensures fresh(Repr - old(Repr))
    {
      ScrollUpValid(View(), first, last, count);
      if count > 0 && first <= last {
        var k := Min(count, last - first + 1);
        var blank := SpliceUp(first, last, k);
        scrollHistory := scrollHistory + k;
      }
    }

    /** The slice assignment of _scroll_down: row objects move, none is written. */
    method SpliceDown(first: int, last: int, k: int) returns (blank: seq<Row>)
      requires Owned() && cols >= 0 && k >= 0 && 0 <= first <= last + 1 - k <= last + 1 <= |grid|
      modifies this`grid, this`Repr
      ensures grid == RolledDown(old(grid), first, last, k, blank)
      ensures Owned() && fresh(Repr - old(Repr))
      ensures Contents(grid) == RolledDown(old(Contents(grid)), first, last, k, BlankRows(k, cols))
      ensures forall i | 0 <= i < |blank| :: fresh(blank[i])
    {
      hide Distinct, Contents;
      blank := BlankLines(k, cols);
      RolledDownDistinct(grid, first, last, k, blank);
      RolledDownContents(grid, first, last, k, blank);
      RolledWithin(grid, first, last, k, blank, Repr);
      grid := grid[..first] + (blank + grid[first..last + 1 - k]) + grid[last + 1..];
      Repr := Repr + Objects(blank);
    }

    method ScrollDownRegion(first: int, last: int, count: int)
      requires Valid() && 0 <= first && last < rows
      modifies this`grid, this`Repr
      ensures Valid() && View() == VtScreen.ScrollDown(old(View()), first, last, count)
      ensures fresh(Repr - old(Repr))
    {
      ScrollDownValid(View(), first, last, count);
      if count > 0 && first <= last {
        var k := Min(count, last - first + 1);
        var blank := SpliceDown(first, last, k);
      }
    }

    // ----- in-place edits of the cursor row -----

    method AssignSlice(lo: int, hi: int, cells: seq<Cell>)
      requires Valid() && 0 <= lo <= hi
      modifies grid[cursorRow]
      ensures Owned()
      ensures View() == SetRow(old(View()), cursorRow, Splice(old(View()).grid[cursorRow], lo, hi, cells))
    {
      var row := grid[cursorRow];
      row.cells := row.cells[..Min(lo, |row.cells|)] + cells + row.cells[Min(hi, |row.cells|)..];
      assert Contents(grid) == old(Contents(grid))[cursorRow := row.cells];
    }

    method PutChar(c: char)
      requires Valid()
      modifies this, Repr
      ensures Valid() && View() == VtScreen.PutChar(old(View()), c)
      ensures fresh(Repr - old(Repr))
      ensures forall r: Row | r in old(Repr) && r != grid[cursorRow] :: r.cells == old(r.cells)
    {
      PutCharValid(View(), c);
      var width := CellWidth(table, c);
      if width == 0 {
        CombineAtCursor(c);
        return;
      }
      if cursorCol >= cols {
        Linefeed();
        cursorCol := 0;
      }
      assert View() == Wrap(old(View()));
      WriteAtCursor(c, width);
    }

    /** The in-place append that begins put_char. */
    method CombineAtCursor(c: char)
      requires Valid()
      modifies grid[cursorRow]
      ensures Owned() && View() == Combine(old(View()), c)
    {
      if cursorCol > 0 {
        var row := grid[cursorRow];
        row.cells := row.cells[cursorCol - 1 := row.cells[cursorCol - 1] + [c]];
        assert Contents(grid) == old(Contents(grid))[cursorRow := row.cells];
      }
    }

    /** The slice assignment that ends put_char. */
    method WriteAtCursor(c: char, width: int)
      requires Valid() && cursorCol < cols && 1 <= width <= 2
      modifies this`cursorCol, grid[cursorRow]
      ensures Owned() && View() == Write(old(View()), c, width)
    {
      var w := if width == 2 && cursorCol >= cols - 1 then 1 else width;
      AssignSlice(cursorCol, cursorCol + w, [[c]] + Blanks(w - 1));
      cursorCol := cursorCol + w;
    }

    method Newline()
      requires Valid()
      modifies this`grid, this`Repr, this`cursorRow, this`cursorCol, this`scrollHistory
      ensures Valid() && View() == Apply(old(View()), NewLine)
      ensures fresh(Repr - old(Repr))
    {
      cursorCol := 0;
      Linefeed();
    }

    method Linefeed()
      requires Valid()
      modifies this`grid, this`Repr, this`cursorRow, this`scrollHistory
      ensures Valid() && View() == VtScreen.Linefeed(old(View()))
      ensures fresh(Repr - old(Repr))
    {
      if cursorRow == marginBottom {
        ScrollUpRegion(marginTop, marginBottom, 1);
      } else if cursorRow < rows - 1 {
        cursorRow := cursorRow + 1;
      }
    }

    method ReverseIndex()
      requires Valid()
      modifies this`grid, this`Repr, this`cursorRow
      ensures Valid() && View() == VtScreen.ReverseIndex(old(View()))
      ensures fresh(Repr - old(Repr))
    {
      if cursorRow == marginTop {
        ScrollDownRegion(marginTop, marginBottom, 1);
      } else if cursorRow > 0 {
        cursorRow := cursorRow - 1;
      }
    }

    // ----- cursor -----

    method CarriageReturn()
      requires Valid()
      modifies this`cursorCol
      ensures Valid() && View() == Apply(old(View()), VtScreen.CarriageReturn)
    {
      cursorCol := 0;
    }

    method Backspace()
      requires Valid()
      modifies this`cursorCol
      ensures Valid() && View() == Apply(old(View()), VtScreen.Backspace)
    {
      if cursorCol > 0 {
        cursorCol := cursorCol - 1;
      }
    }

    method Tab()
      requires Valid()
      modifies this`cursorCol
      ensures Valid() && View() == Apply(old(View()), VtScreen.Tab)
    {
      cursorCol := Min(cols - 1, (cursorCol / 8 + 1) * 8);
    }

    method MoveTo(row: nat, col: nat)
      requires Valid()
      modifies this`cursorRow, this`cursorCol
      ensures Valid() && View() == Apply(old(View()), VtScreen.MoveTo(row, col))
    {
      cursorRow := Min(Max(row - 1, 0), rows - 1);
      cursorCol := Min(Max(col - 1, 0), cols - 1);
    }

    method MoveUp(n: nat)
      requires Valid()
      modifies this`cursorRow
      ensures Valid() && View() == Apply(old(View()), Up(n))
    {
      cursorRow := Max(cursorRow - n, 0);
    }

    method MoveDown(n: nat)
      requires Valid()
      modifies this`cursorRow
      ensures Valid() && View() == Apply(old(View()), Down(n))
    {
      cursorRow := Min(cursorRow + n, rows - 1);
    }

    method MoveRight(n: nat)
      requires Valid()
      modifies this`cursorCol
      ensures Valid() && View() == Apply(old(View()), Right(n))
    {
      cursorCol := Min(cursorCol + n, cols - 1);
    }

    method MoveLeft(n: nat)
      requires Valid()
      modifies this`cursorCol
      ensures Valid() && View() == Apply(old(View()), Left(n))
    {
      cursorCol := Max(cursorCol - n, 0);
    }

    method SetColumn(n: nat)
      requires Valid()
      modifies this`cursorCol
      ensures Valid() && View() == Apply(old(View()), Column(n))
    {
      cursorCol := Min(Max(n - 1, 0), cols - 1);
    }

    method SetLine(n: nat)
      requires Valid()
      modifies this`cursorRow
      ensures Valid() && View() == Apply(old(View()), Line(n))
    {
      cursorRow := Min(Max(n - 1, 0), rows - 1);
    }

    method SetMargins(first: nat, last: nat)
      requires Valid()
      modifies this`marginTop, this`marginBottom
      ensures Valid() && View() == VtScreen.SetMargins(old(View()), first, last)
    {
      marginTop := Max(0, first - 1);
      marginBottom := Min(Max(last - 1, marginTop), rows - 1);
    }

    method SaveCursor()
      requires Valid()
      modifies this`savedCursor
      ensures Valid() && View() == Apply(old(View()), Save)
    {
      savedCursor := (cursorRow, cursorCol);
    }

    method RestoreCursor()
      requires Valid()
      modifies this`cursorRow, this`cursorCol
      ensures Valid() && View() == Apply(old(View()), Restore)
    {
      cursorRow := savedCursor.0;
      cursorCol := savedCursor.1;
    }

    // ----- erasing and editing -----

    /** Rows lo..hi-1 are replaced by new blank row objects. */
    method BlankOut(lo: int, hi: int)
      requires Owned() && 0 <= lo <= hi <= |grid| && cols >= 0
      modifies this`grid, this`Repr
      ensures Owned()
      ensures Contents(grid) == BlankedOut(old(Contents(grid)), lo, hi, cols)
      ensures |grid| == |old(grid)| && forall i | 0 <= i < |grid| && !(lo <= i < hi) :: grid[i] == old(grid)[i]
      ensures fresh(Repr - old(Repr))
    {
      for i := lo to hi
        invariant |grid| == |old(grid)| && Owned() && fresh(Repr - old(Repr))
        invariant forall k | 0 <= k < |grid| && !(lo <= k < i) :: grid[k] == old(grid)[k]
        invariant forall k | lo <= k < i :: fresh(grid[k]) && grid[k].cells == Blanks(cols)
      {
        var r := new Row(Blanks(cols));
        grid, Repr := grid[i := r], Repr + {r};
      }
    }

    method EraseDisplay(mode: nat)
      requires Valid()
      modifies this`grid, this`Repr, grid[cursorRow]
      ensures Valid() && View() == VtScreen.EraseDisplay(old(View()), mode)
      ensures fresh(Repr - old(Repr))
    {
      EraseDisplayValid(View(), mode);
      if mode == 2 || mode == 3 {
        grid := BlankLines(rows, cols);
        Repr := Repr + Objects(grid);
      } else if mode == 1 {
        EraseAbove();
      } else {
        EraseBelow();
      }
    }

    /** Mode 1: the rows above are replaced, the cursor row is edited in place. */
    method EraseAbove()
      requires Valid()
      modifies this`grid, this`Repr, grid[cursorRow]
      ensures Owned() && Contents(grid) == VtScreen.EraseDisplay(old(View()), 1).grid
      ensures fresh(Repr - old(Repr))
    {
      hide Contents, Distinct, Splice, RowOk, BlankedOut;
      ghost var before := Contents(grid);
      ghost var cells := Splice(before[cursorRow], 0, cursorCol + 1, Blanks(cursorCol + 1));
      BlankAbove();
      EraseInRow(0, cursorCol + 1, Blanks(cursorCol + 1));
      BlankedAbove(before, cursorRow, cols, cells);
    }

    /** The rows above the cursor are replaced; the cursor row is the object it was. */
    method BlankAbove()
      requires Owned() && 0 <= cursorRow < |grid| && cols >= 0
      modifies this`grid, this`Repr
      ensures Owned() && fresh(Repr - old(Repr)) && |grid| == |old(grid)|
      ensures grid[cursorRow] == old(grid)[cursorRow]
      ensures Contents(grid) == BlankedOut(old(Contents(grid)), 0, cursorRow, cols)
    {
      hide Distinct;
      BlankOut(0, cursorRow);
    }

    /** Mode 0: the cursor row is edited in place, the rows below are replaced. */
    method EraseBelow()
      requires Valid()
      modifies this`grid, this`Repr, grid[cursorRow]
      ensures Owned() && Contents(grid) == VtScreen.EraseDisplay(old(View()), 0).grid
      ensures fresh(Repr - old(Repr))
    {
      hide Contents, Distinct, Splice, BlankedOut;
      ghost var before := Contents(grid);
      ghost var cells := Splice(before[cursorRow], cursorCol, |before[cursorRow]|, Blanks(cols - cursorCol));
      EraseInRow(cursorCol, |grid[cursorRow].cells|, Blanks(cols - cursorCol));
      BlankOut(cursorRow + 1, rows);
      BlankedBelow(before, cursorRow, cols, cells);
    }

    /** AssignSlice for a grid whose other rows may be in the middle of an update. */
    method EraseInRow(lo: int, hi: int, cells: seq<Cell>)
      requires Owned() && 0 <= cursorRow < |grid| && 0 <= lo <= hi
      modifies grid[cursorRow]
      ensures Contents(grid) == old(Contents(grid))[cursorRow := Splice(old(grid[cursorRow].cells), lo, hi, cells)]
    {
      var row := grid[cursorRow];
      row.cells := row.cells[..Min(lo, |row.cells|)] + cells + row.cells[Min(hi, |row.cells|)..];
    }

    method EraseLine(mode: nat)
      requires Valid()
      modifies this`grid, this`Repr, grid[cursorRow]
      ensures Valid() && View() == VtScreen.EraseLine(old(View()), mode)
      ensures fresh(Repr - old(Repr))
      ensures forall i | 0 <= i < rows && i != cursorRow :: grid[i] == old(grid)[i]
    {
      EraseLineValid(View(), mode);
      if mode == 2 {
        RenewRow();
      } else {
        ErasePart(mode);
      }
    }

    /** The two modes that edit the cursor row in place. */
    method ErasePart(mode: nat)
      requires Valid() && mode != 2
      modifies grid[cursorRow]
      ensures Owned() && Contents(grid) == VtScreen.EraseLine(old(View()), mode).grid
    {
      hide Contents, Distinct, Splice;
      if mode == 1 {
        EraseInRow(0, cursorCol + 1, Blanks(cursorCol + 1));
      } else {
        EraseInRow(cursorCol, |grid[cursorRow].cells|, Blanks(cols - cursorCol));
      }
    }

    /** Mode 2 assigns a new blank list to the cursor row. */
    method RenewRow()
      requires Owned() && 0 <= cursorRow < |grid| && cols >= 0
      modifies this`grid, this`Repr
      ensures Owned() && fresh(Repr - old(Repr)) && |grid| == |old(grid)|
      ensures Contents(grid) == old(Contents(grid))[cursorRow := Blanks(cols)]
      ensures forall i | 0 <= i < |grid| && i != cursorRow :: grid[i] == old(grid)[i]
    {
      var r := new Row(Blanks(cols));
      grid, Repr := grid[cursorRow := r], Repr + {r};
    }

    method InsertLines(n: nat)
      requires Valid()
      modifies this`grid, this`Repr
      ensures Valid() && View() == Apply(old(View()), AddLines(n))
      ensures fresh(Repr - old(Repr))
    {
      ScrollDownRegion(cursorRow, marginBottom, n);
    }

    method DeleteLines(n: nat)
      requires Valid()
      modifies this`grid, this`Repr, this`scrollHistory
      ensures Valid() && View() == Apply(old(View()), DropLines(n))
      ensures fresh(Repr - old(Repr))
    {
      ScrollUpRegion(cursorRow, marginBottom, n);
    }

    method InsertChars(count: nat)
      requires Valid()
      modifies grid[cursorRow]
      ensures Valid() && View() == VtScreen.InsertChars(old(View()), count)
    {
      InsertCharsValid(View(), count);
      var n := Min(count, cols - cursorCol);
      var cells := grid[cursorRow].cells;
      AssignSlice(cursorCol, |cells|, Blanks(n) + cells[cursorCol..cols - n]);
    }

    method DeleteChars(count: nat)
      requires Valid()
      modifies grid[cursorRow]
      ensures Valid() && View() == VtScreen.DeleteChars(old(View()), count)
    {
      DeleteCharsValid(View(), count);
      var n := Min(count, cols - cursorCol);
      var cells := grid[cursorRow].cells;
      AssignSlice(cursorCol, |cells|, cells[cursorCol + n..cols] + Blanks(n));
    }

    method EraseChars(count: nat)
      requires Valid()
      modifies grid[cursorRow]
      ensures Valid() && View() == VtScreen.EraseChars(old(View()), count)
    {
      EraseCharsValid(View(), count);
      var n := Min(count, cols - cursorCol);
      AssignSlice(cursorCol, cursorCol + n, Blanks(n));
    }

    method ScrollUp(n: nat)
      requires Valid()
      modifies this`grid, this`Repr, this`scrollHistory
      ensures Valid() && View() == Apply(old(View()), RollUp(n))
      ensures fresh(Repr - old(Repr))
    {
      ScrollUpRegion(marginTop, marginBottom, n);
    }

    method ScrollDown(n: nat)
      requires Valid()
      modifies this`grid, this`Repr
      ensures Valid() && View() == Apply(old(View()), RollDown(n))
      ensures fresh(Repr - old(Repr))
    {
      ScrollDownRegion(marginTop, marginBottom, n);
    }

    method RepeatChar(n: nat, c: char)
      requires Valid()
      modifies this, Repr
      ensures Valid() && View() == PutMany(old(View()), n, c)
      ensures fresh(Repr - old(Repr))
    {
      hide Contents, GridOk, VtScreen.PutChar;
      ghost var start := View();
      for i := 0 to n
        invariant Valid()
        invariant PutMany(View(), n - i, c) == PutMany(start, n, c)
        invariant fresh(Repr - old(Repr))
      {
        ghost var s := View();
        PutCharValid(s, c);
        PutChar(c);
        assert PutMany(s, n - i, c) == PutMany(View(), n - i - 1, c);
      }
    }
  }
}
