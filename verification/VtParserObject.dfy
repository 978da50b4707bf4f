/**
 The parser object: mutable fields, a byte queue, and direct calls on the
 screen object.  `Feed` is proved to compute the value-level run.
 */
module VtParserObject {
  import opened Prelude
  import opened VtScreen
  import opened VtScreenObject
  import opened VtControl

  lemma FeedCons(p: Parser, bytes: seq<Byte>)
    requires ValidParser(p) && bytes != []
    ensures Feed(p, bytes) == Feed(Step(p, bytes[0]), bytes[1..])
  {
  }

  predicate Moves(final: char) { 'A' <= final <= 'H' || final == 'f' || final == '`' || final == 'd' }

  predicate Edits(final: char) { final == 'J' || final == 'K' || final == 'P' || final == 'X' }

  predicate Scrolls(final: char) { final == 'L' || final == 'M' || final == 'S' || final == 'T' }

  // ----- what Apply does for the operations whose screen method is stated without it -----

  lemma ApplyPlain(s: State)
    requires VtScreen.Valid(s)
    ensures Apply(s, Nop) == s && Apply(s, LineFeed) == Linefeed(s) && Apply(s, Reverse) == ReverseIndex(s)
  {
  }

  lemma ApplyPut(s: State, c: char)
    requires VtScreen.Valid(s)
    ensures Apply(s, Put(c)) == PutChar(s, c)
  {
  }

  lemma ApplyRepeat(s: State, n: nat, c: char)
    requires VtScreen.Valid(s)
    ensures Apply(s, Repeat(n, c)) == PutMany(s, n, c)
  {
  }

  lemma ApplyMargins(s: State, first: nat, last: Option<nat>)
    requires VtScreen.Valid(s)
    ensures Apply(s, Margins(first, last)) == SetMargins(s, first, if last.Some? then last.value else s.rows)
  {
  }

  class VTParser {
    var screen: Screen
    var state: Mode
    var queue: seq<Byte>
    var paramBuf: string
    var priv: string
    var inter: string
    var osc: seq<Byte>
    var lastChar: char
    var utf8Pending: seq<Byte>
    var utf8Needed: int

    ghost function Ctl(): Control
      reads this
    {
      Control(state, paramBuf, priv, inter, osc, lastChar, utf8Pending, utf8Needed)
    }

    ghost function View(): Parser
      reads this, screen, screen.grid
    {
      Parser(screen.View(), Ctl())
    }

    ghost predicate Valid()
      reads this, screen, screen.grid
    {
      screen.Valid() && ValidControl(Ctl())
    }

    constructor (table: Unicode, rows: int, cols: int)
      requires rows >= 1 && cols >= 1
      ensures Valid() && queue == [] && View() == Start(table, rows, cols)
      ensures fresh(screen) && fresh(screen.Repr)
    {
      screen := new Screen(table, rows, cols);
      state, queue := Ground, [];
      paramBuf, priv, inter, osc := "", "", "", [];
      lastChar := ' ';
      utf8Pending, utf8Needed := [], 0;
    }

    /** Consumes the data byte by byte through the queue. */
    method Feed(data: seq<Byte>)
      requires Valid() && queue == []
      modifies this, screen, screen.Repr
      ensures Valid() && queue == []
      ensures View() == VtControl.Feed(old(View()), data)
      ensures screen == old(screen) && fresh(screen.Repr - old(screen.Repr))
    {
      hide Contents, Apply, Step, ControlStep;
      ghost var start := View();
      queue := queue + data;
      assert queue == data;
      while queue != []
        invariant Valid() && screen == old(screen) && fresh(screen.Repr - old(screen.Repr))
        invariant VtControl.Feed(View(), queue) == VtControl.Feed(start, data)
        decreases |queue|
      {
        var byte := queue[0];
        FeedCons(View(), queue);
        queue := queue[1..];
        FeedQueued(byte);
      }
    }

    /** One turn of the loop: the two states the loop handles itself, then the dispatch. */
    method FeedQueued(byte: Byte)
      requires Valid()
      modifies this, screen, screen.Repr
      ensures Valid() && queue == old(queue) && View() == Step(old(View()), byte)
      ensures screen == old(screen) && fresh(screen.Repr - old(screen.Repr))
    {
      hide Contents, Apply;
      ghost var (s, c) := (screen.View(), Ctl());
      ApplyValid(s, ControlStep(c, byte).1);
      ApplyPlain(s);
      if state == Utf8 {
        Utf8Byte(byte);
      } else if state == OscEsc {
        if byte == 0x5C {
          state := Ground;
        } else {
          osc := osc + [0x1B];
          osc := osc + [byte];
          state := Osc;
        }
        assert c.osc + [0x1B] + [byte] == c.osc + [0x1B, byte];
      } else {
        FeedByte(byte);
      }
    }

    method Utf8Byte(byte: Byte)
      requires Valid() && state == Utf8
      modifies this, screen, screen.Repr
      ensures screen.Valid() && queue == old(queue) && screen == old(screen)
      ensures fresh(screen.Repr - old(screen.Repr))
      ensures Ctl() == Utf8Step(old(Ctl()), byte).0
      ensures screen.View() == Apply(old(screen.View()), Utf8Step(old(Ctl()), byte).1)
    {
      hide Contents, Apply, DecodeUtf8;
      ApplyPlain(screen.View());
      utf8Pending := utf8Pending + [byte];
      utf8Needed := utf8Needed - 1;
      if utf8Needed == 0 {
        EmitUtf8(utf8Pending);
        utf8Pending := [];
        state := Ground;
      }
    }

    method EmitUtf8(raw: seq<Byte>)
      requires screen.Valid()
      modifies this`lastChar, screen, screen.Repr
      ensures screen.Valid() && fresh(screen.Repr - old(screen.Repr))
      ensures match DecodeUtf8(raw)
              case None => screen.View() == old(screen.View()) && lastChar == old(lastChar)
              case Some(c) => screen.View() == Apply(old(screen.View()), Put(c)) && lastChar == c
    {
      var text := DecodeUtf8(raw);
      if text.Some? {
        screen.PutChar(text.value);
        lastChar := text.value;
      }
    }

    method FeedByte(byte: Byte)
      requires Valid() && state != Utf8 && state != OscEsc
      modifies this, screen, screen.Repr
      ensures screen.Valid() && queue == old(queue) && screen == old(screen)
      ensures fresh(screen.Repr - old(screen.Repr))
      ensures Ctl() == ControlStep(old(Ctl()), byte).0
      ensures screen.View() == Apply(old(screen.View()), ControlStep(old(Ctl()), byte).1)
    {
      hide Screen.View, Screen.Valid;
      if state == Osc {
        if byte == 0x07 {
          state := Ground;
        } else if byte == 0x1B {
          state := OscEsc;
        } else {
          osc := osc + [byte];
        }
      } else if state == Esc {
        EscByte(byte);
      } else if state == Csi {
        CsiByte(byte);
      } else if state == Charset {
        state := Ground;
      } else {
        GroundByte(byte);
      }
    }

    method GroundByte(byte: Byte)
      requires Valid() && state == Ground
      modifies this, screen, screen.Repr
      ensures screen.Valid() && queue == old(queue) && screen == old(screen)
      ensures fresh(screen.Repr - old(screen.Repr))
      ensures Ctl() == GroundStep(old(Ctl()), byte).0
      ensures screen.View() == Apply(old(screen.View()), GroundStep(old(Ctl()), byte).1)
    {
      hide Contents, Apply;
      ApplyPlain(screen.View());
      if byte == 0x1B {
        state := Esc;
      } else if byte == 0x0A || byte == 0x0B || byte == 0x0C {
        screen.Linefeed();
      } else if byte == 0x0D {
        screen.CarriageReturn();
      } else if byte == 0x08 {
        screen.Backspace();
      } else if byte == 0x09 {
        screen.Tab();
      } else if 0x20 <= byte < 0x7F {
        var c := byte as char;
        ApplyPut(screen.View(), c);
        screen.PutChar(c);
        lastChar := c;
      } else if byte >= 0x80 {
        utf8Pending := [byte];
        if 0xC2 <= byte <= 0xDF {
          utf8Needed := 1;
        } else if 0xE0 <= byte <= 0xEF {
          utf8Needed := 2;
        } else if 0xF0 <= byte <= 0xF4 {
          utf8Needed := 3;
        } else {
          state := Ground;
          return;
        }
        state := Utf8;
      }
    }

    method EscByte(byte: Byte)
      requires Valid() && state == Esc
      modifies this, screen, screen.Repr
      ensures screen.Valid() && queue == old(queue) && screen == old(screen)
      ensures fresh(screen.Repr - old(screen.Repr))
      ensures Ctl() == EscStep(old(Ctl()), byte).0
      ensures screen.View() == Apply(old(screen.View()), EscStep(old(Ctl()), byte).1)
    {
      hide Contents, Apply;
      ApplyPlain(screen.View());
      if byte == 0x5B {
        BeginCsi();
      } else if byte == 0x5D {
        state := Osc;
        osc := [];
      } else if 0x28 <= byte <= 0x2B {
        state := Charset;
      } else {
        EscFunction(byte, EscStep(Ctl(), byte).1);
        state := Ground;
      }
    }

    /** The two-byte sequences that act on the screen; any other is ignored. */
    method EscFunction(byte: Byte, ghost op: Op)
      requires screen.Valid() && op == EscStep(INITIAL, byte).1
      modifies screen`grid, screen`Repr, screen`cursorRow, screen`cursorCol, screen`scrollHistory, screen`savedCursor
      ensures screen.Valid() && fresh(screen.Repr - old(screen.Repr))
      ensures screen.View() == Apply(old(screen.View()), op)
    {
      hide Contents, Apply;
      ApplyPlain(screen.View());
      if byte == 0x37 {
        screen.SaveCursor();
      } else if byte == 0x38 {
        screen.RestoreCursor();
      } else if byte == 0x4D {
        screen.ReverseIndex();
      } else if byte == 0x44 {
        screen.Linefeed();
      } else if byte == 0x45 {
        screen.Newline();
      }
    }

    method BeginCsi()
      modifies this`state, this`paramBuf, this`priv, this`inter
      ensures Ctl() == old(Ctl()).(mode := Csi, params := "", priv := "", inter := "")
    {
      state := Csi;
      paramBuf := "";
      priv := "";
      inter := "";
    }

    method CsiByte(byte: Byte)
      requires Valid() && state == Csi
      modifies this, screen, screen.Repr
      ensures screen.Valid() && queue == old(queue) && screen == old(screen)
      ensures fresh(screen.Repr - old(screen.Repr))
      ensures Ctl() == CsiStep(old(Ctl()), byte).0
      ensures screen.View() == Apply(old(screen.View()), CsiStep(old(Ctl()), byte).1)
    {
      hide Screen.View, Screen.Valid;
      if IsParamByte(byte) {
        paramBuf := paramBuf + [byte as char];
      } else if IsPrivateByte(byte) {
        priv := [byte as char];
      } else if IsInterByte(byte) {
        inter := inter + [byte as char];
      } else {
        DispatchCsi(byte as char);
      }
    }

    method DispatchCsi(final: char)
      requires Valid()
      modifies this`state, screen, screen.Repr
      ensures screen.Valid() && fresh(screen.Repr - old(screen.Repr))
      ensures Ctl() == old(Ctl()).(mode := Ground)
      ensures screen.View() ==
              Apply(old(screen.View()), DispatchOp(priv, CsiParams(paramBuf), lastChar, final))
    {
      hide Screen.View, Screen.Valid, CsiParams, SplitParams;
      var params := CsiParams(paramBuf);
      ghost var op := DispatchOp(priv, params, lastChar, final);
      if !IsMarker(priv) {
        if Moves(final) {
          MoveCursor(final, params, op);
        } else if Edits(final) {
          EditScreen(final, params[0], op);
        } else {
          OtherFunction(final, params, op);
        }
      }
      state := Ground;
    }

    /** The cursor movement branches of the dispatch. */
    method MoveCursor(final: char, params: seq<nat>, ghost op: Op)
      requires screen.Valid() && |params| >= 1 && Moves(final)
      requires op == DispatchOp("", params, lastChar, final)
      modifies screen`cursorRow, screen`cursorCol
      ensures screen.Valid() && screen.View() == Apply(old(screen.View()), op)
    {
      hide Contents, Apply;
      var n := params[0];
      if final == 'H' || final == 'f' {
        screen.MoveTo(n, if |params| > 1 then params[1] else 1);
      } else if final == 'A' {
        screen.MoveUp(n);
      } else if final == 'B' {
        screen.MoveDown(n);
      } else if final == 'C' {
        screen.MoveRight(n);
      } else if final == 'D' {
        screen.MoveLeft(n);
      } else if final == 'E' || final == 'F' {
        MoveLines(final, n, op);
      } else if final == 'G' || final == '`' {
        screen.SetColumn(n);
      } else if final == 'd' {
        screen.SetLine(n);
      }
    }

    /** The two movements that the dispatch performs on the fields itself. */
    method MoveLines(final: char, n: nat, ghost op: Op)
      requires screen.Valid() && (final == 'E' || final == 'F')
      requires op == if final == 'E' then NextLine(n) else PreviousLine(n)
      modifies screen`cursorRow, screen`cursorCol
      ensures screen.Valid() && screen.View() == Apply(old(screen.View()), op)
    {
      if final == 'E' {
        screen.cursorRow := Min(screen.cursorRow + n, screen.rows - 1);
        screen.cursorCol := 0;
      } else {
        screen.cursorRow := Max(screen.cursorRow - n, 0);
        screen.cursorCol := 0;
      }
    }

    /** The branches of the dispatch that edit cells in place. */
    method EditScreen(final: char, n: nat, ghost op: Op)
      requires screen.Valid() && Edits(final)
      requires op == (match final
                      case 'J' => ClearDisplay(n)
                      case 'K' => ClearLine(n)
                      case 'P' => DropChars(n)
                      case _ => ClearChars(n))
      modifies screen, screen.Repr
      ensures screen.Valid() && fresh(screen.Repr - old(screen.Repr))
      ensures screen.View() == Apply(old(screen.View()), op)
    {
      hide Contents;
      if final == 'J' {
        screen.EraseDisplay(n);
      } else if final == 'K' {
        screen.EraseLine(n);
      } else {
        EditCells(final, n, op);
      }
    }

    method EditCells(final: char, n: nat, ghost op: Op)
      requires screen.Valid() && (final == 'P' || final == 'X')
      requires op == if final == 'P' then DropChars(n) else ClearChars(n)
      modifies screen, screen.grid[screen.cursorRow]
      ensures screen.Valid() && screen.Repr == old(screen.Repr)
      ensures screen.View() == Apply(old(screen.View()), op)
    {
      if final == 'P' {
        screen.DeleteChars(n);
      } else {
        screen.EraseChars(n);
      }
    }

    /** Scrolling, margins, saved cursor and repetition; everything else is ignored. */
    method OtherFunction(final: char, params: seq<nat>, ghost op: Op)
      requires screen.Valid() && |params| >= 1 && !Moves(final) && !Edits(final)
      requires op == DispatchOp("", params, lastChar, final)
      modifies screen, screen.Repr
      ensures screen.Valid() && fresh(screen.Repr - old(screen.Repr))
      ensures screen.View() == Apply(old(screen.View()), op)
    {
      hide Contents, Apply;
      if Scrolls(final) {
        ScrollLines(final, params[0], op);
      } else if final == 'b' {
        ApplyRepeat(screen.View(), params[0], lastChar);
        screen.RepeatChar(params[0], lastChar);
      } else {
        KeepPosition(final, params, op);
      }
    }

    /** The branches that set margins or keep the cursor position. */
    method KeepPosition(final: char, params: seq<nat>, ghost op: Op)
      requires screen.Valid() && |params| >= 1 && !Moves(final) && !Edits(final) && !Scrolls(final) && final != 'b'
      requires op == DispatchOp("", params, lastChar, final)
      modifies screen`marginTop, screen`marginBottom, screen`savedCursor, screen`cursorRow, screen`cursorCol
      ensures screen.Valid() && screen.View() == Apply(old(screen.View()), op)
    {
      hide Contents, Apply;
      ApplyPlain(screen.View());
      if final == 'r' {
        ApplyMargins(screen.View(), params[0], if |params| > 1 then Some(params[1]) else None);
        screen.SetMargins(params[0], if |params| > 1 then params[1] else screen.rows);
      } else if final == 's' {
        screen.SaveCursor();
      } else if final == 'u' {
        screen.RestoreCursor();
      }
    }

    /** The branches that move row objects. */
    method ScrollLines(final: char, n: nat, ghost op: Op)
      requires screen.Valid() && Scrolls(final)
      requires op == (match final
                      case 'L' => AddLines(n)
                      case 'M' => DropLines(n)
                      case 'S' => RollUp(n)
                      case _ => RollDown(n))
      modifies screen`grid, screen`Repr, screen`scrollHistory
      ensures screen.Valid() && fresh(screen.Repr - old(screen.Repr))
      ensures screen.View() == Apply(old(screen.View()), op)
    {
      if final == 'L' {
        screen.InsertLines(n);
      } else if final == 'M' {
        screen.DeleteLines(n);
      } else if final == 'S' {
        screen.ScrollUp(n);
      } else {
        screen.ScrollDown(n);
      }
    }

    /** Back to power-on, with a new screen object of the same size. */
    method Reset()
      requires Valid()
      modifies this
      ensures Valid() && queue == []
      ensures View() == Start(old(screen).table, old(screen).rows, old(screen).cols)
      ensures fresh(screen) && fresh(screen.Repr)
    {
      hide Contents, Init;
      var (table, rows, cols) := (screen.table, screen.rows, screen.cols);
      ClearControl();
      screen := new Screen(table, rows, cols);
    }

    method ClearControl()
      modifies this`state, this`queue, this`paramBuf, this`priv, this`inter, this`osc, this`lastChar,
               this`utf8Pending, this`utf8Needed
      ensures Ctl() == INITIAL && queue == []
    {
      state, queue := Ground, [];
      paramBuf, priv, inter, osc := "", "", "", [];
      lastChar := ' ';
      utf8Pending, utf8Needed := [], 0;
    }
  }
}
