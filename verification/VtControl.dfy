/**
 The byte-driven half of the interpreter as a value.  Each byte changes the
 control state and triggers at most one screen operation.
 */
module VtControl {
  import opened Prelude
  import opened Decimal
  import opened VtScreen
  import opened VtStrict

  datatype Mode = Ground | Esc | Csi | Osc | OscEsc | Charset | Utf8

  datatype Control = Control(
    mode: Mode, params: string, priv: string, inter: string, osc: seq<Byte>,
    last: char, pending: seq<Byte>, needed: int)

  const INITIAL: Control := Control(Ground, "", "", "", [], ' ', [], 0)

  predicate IsParamChar(c: char) { IsDigit(c) || c == ';' }

  predicate IsParamByte(b: Byte) { 0x30 <= b <= 0x39 || b == 0x3B }

  predicate IsPrivateByte(b: Byte) { b == 0x3F || b == 0x3E || b == 0x21 || b == 0x3C }

  predicate IsInterByte(b: Byte) { 0x20 <= b <= 0x2F }

  predicate IsParamText(s: string) { forall i | 0 <= i < |s| :: IsParamChar(s[i]) }

  /** Length of the UTF-8 sequence a lead byte announces; 0 when it announces none. */
  function SequenceLength(lead: Byte): nat {
    if 0xC2 <= lead <= 0xDF then 2
    else if 0xE0 <= lead <= 0xEF then 3
    else if 0xF0 <= lead <= 0xF4 then 4
    else 0
  }

  predicate ValidControl(c: Control) {
    && IsParamText(c.params)
    && (c.mode == Utf8 ==>
          |c.pending| >= 1 && c.needed >= 1 && |c.pending| + c.needed == SequenceLength(c.pending[0]))
  }

  // ----- UTF-8 -----

  predicate IsContinuation(b: Byte) { 0x80 <= b < 0xC0 }

  predicate IsScalar(v: int) { 0 <= v < 0xD800 || 0xE000 <= v < 0x11_0000 }

  function Bits(b: Byte, marker: int): int { b - marker }

  function Scalar(v: int, floor: int): Option<char> {
    if v >= floor && IsScalar(v) then Some(v as char) else None
  }

  /** Strict decoding of one multi-byte sequence; None where Python raises UnicodeDecodeError. */
  function DecodeUtf8(raw: seq<Byte>): Option<char> {
    if |raw| == 2 && SequenceLength(raw[0]) == 2 && IsContinuation(raw[1]) then
      Scalar(Bits(raw[0], 0xC0) * 64 + Bits(raw[1], 0x80), 0x80)
    else if |raw| == 3 && SequenceLength(raw[0]) == 3 && IsContinuation(raw[1]) && IsContinuation(raw[2]) then
      Scalar(Bits(raw[0], 0xE0) * 4096 + Bits(raw[1], 0x80) * 64 + Bits(raw[2], 0x80), 0x800)
    else if |raw| == 4 && SequenceLength(raw[0]) == 4
            && IsContinuation(raw[1]) && IsContinuation(raw[2]) && IsContinuation(raw[3]) then
      Scalar(Bits(raw[0], 0xF0) * 262144 + Bits(raw[1], 0x80) * 4096 + Bits(raw[2], 0x80) * 64 + Bits(raw[3], 0x80), 0x1_0000)
    else None
  }

  // ----- CSI parameters -----

  function FirstSemicolon(s: string): (i: nat)
    ensures i <= |s| && ';' !in s[..i]
    ensures i < |s| ==> s[i] == ';'
  {
    if s == "" || s[0] == ';' then 0 else
    var i := 1 + FirstSemicolon(s[1..]);
    assert s[..i] == [s[0]] + s[1..][..i - 1];
    i
  }

  /** `int(p) if p != "" else 1` */
  function ParamValue(p: string): nat
    requires IsParamText(p) && ';' !in p
  {
    if p == "" then 1 else
    assert IsNumeral(p) by {
      forall i | 0 <= i < |p| ensures IsDigit(p[i]) {
        assert p[i] in p;
      }
    }
    Value(p)
  }

  function SplitParams(s: string): (ps: seq<nat>)
    requires IsParamText(s)
    ensures |ps| >= 1
    decreases |s|
  {
    var i := FirstSemicolon(s);
    if i == |s| then
      assert s[..i] == s;
      [ParamValue(s)]
    else [ParamValue(s[..i])] + SplitParams(s[i + 1..])
  }

  function CsiParams(s: string): (ps: seq<nat>)
    requires IsParamText(s)
    ensures |ps| >= 1
  {
    if s == "" then [1] else SplitParams(s)
  }

  predicate IsMarker(priv: string) { priv == "?" || priv == ">" || priv == "<" || priv == "!" || priv == "=" }

  /** The operation a CSI sequence performs once its final byte arrives. */
  function DispatchOp(priv: string, params: seq<nat>, last: char, final: char): Op
    requires |params| >= 1
  {
    var n := params[0];
    var second := if |params| > 1 then Some(params[1]) else None;
    if IsMarker(priv) then Nop else
    match final
    case 'H' => MoveTo(n, if second.Some? then second.value else 1)
    case 'f' => MoveTo(n, if second.Some? then second.value else 1)
    case 'A' => Up(n)
    case 'B' => Down(n)
    case 'C' => Right(n)
    case 'D' => Left(n)
    case 'E' => NextLine(n)
    case 'F' => PreviousLine(n)
    case 'G' => Column(n)
    case '`' => Column(n)
    case 'd' => Line(n)
    case 'J' => ClearDisplay(n)
    case 'K' => ClearLine(n)
    case 'L' => AddLines(n)
    case 'M' => DropLines(n)
    case 'P' => DropChars(n)
    case 'X' => ClearChars(n)
    case 'S' => RollUp(n)
    case 'T' => RollDown(n)
    case 'r' => Margins(n, second)
    case 's' => Save
    case 'u' => Restore
    case 'b' => Repeat(n, last)
    case _ => Nop
  }

  // ----- one byte -----

  function Utf8Step(c: Control, b: Byte): (Control, Op)
    requires c.mode == Utf8
  {
    var raw := c.pending + [b];
    if c.needed - 1 != 0 then (c.(pending := raw, needed := c.needed - 1), Nop)
    else
      var idle := c.(mode := Ground, pending := [], needed := 0);
      var text := DecodeUtf8(raw);
      if text.None? then (idle, Nop) else (idle.(last := text.value), Put(text.value))
  }

  function GroundStep(c: Control, b: Byte): (Control, Op)
  {
    if b == 0x1B then (c.(mode := Esc), Nop)
    else if b == 0x0A || b == 0x0B || b == 0x0C then (c, LineFeed)
    else if b == 0x0D then (c, CarriageReturn)
    else if b == 0x08 then (c, Backspace)
    else if b == 0x09 then (c, Tab)
    else if 0x20 <= b < 0x7F then (c.(last := b as char), Put(b as char))
    else if b >= 0x80 then
      var start := c.(pending := [b]);
      if SequenceLength(b) == 0 then (start, Nop)
      else (start.(mode := Utf8, needed := SequenceLength(b) - 1), Nop)
    else (c, Nop)
  }

  function EscStep(c: Control, b: Byte): (Control, Op)
  {
    var idle := c.(mode := Ground);
    if b == 0x5B then (c.(mode := Csi, params := "", priv := "", inter := ""), Nop)
    else if b == 0x5D then (c.(mode := Osc, osc := []), Nop)
    else if 0x28 <= b <= 0x2B then (c.(mode := Charset), Nop)
    else if b == 0x37 then (idle, Save)
    else if b == 0x38 then (idle, Restore)
    else if b == 0x4D then (idle, Reverse)
    else if b == 0x44 then (idle, LineFeed)
    else if b == 0x45 then (idle, NewLine)
    else (idle, Nop)
  }

  function CsiStep(c: Control, b: Byte): (Control, Op)
    requires IsParamText(c.params)
  {
    if IsParamByte(b) then (c.(params := c.params + [b as char]), Nop)
    else if IsPrivateByte(b) then (c.(priv := [b as char]), Nop)
    else if IsInterByte(b) then (c.(inter := c.inter + [b as char]), Nop)
    else (c.(mode := Ground), DispatchOp(c.priv, CsiParams(c.params), c.last, b as char))
  }

  function OscStep(c: Control, b: Byte): (Control, Op) {
    if b == 0x07 then (c.(mode := Ground), Nop)
    else if b == 0x1B then (c.(mode := OscEsc), Nop)
    else (c.(osc := c.osc + [b]), Nop)
  }

  function OscEscStep(c: Control, b: Byte): (Control, Op) {
    if b == 0x5C then (c.(mode := Ground), Nop)
    else (c.(mode := Osc, osc := c.osc + [0x1B, b]), Nop)
  }

  function ControlStep(c: Control, b: Byte): (r: (Control, Op))
    requires ValidControl(c)
    ensures ValidControl(r.0)
  {
    match c.mode
    case Utf8 => Utf8Step(c, b)
    case OscEsc => OscEscStep(c, b)
    case Osc => OscStep(c, b)
    case Esc => EscStep(c, b)
    case Csi => CsiStep(c, b)
    case Charset => (c.(mode := Ground), Nop)
    case Ground => GroundStep(c, b)
  }

  // ----- the whole interpreter -----

  datatype Parser = Parser(screen: State, control: Control)

  predicate ValidParser(p: Parser) { Valid(p.screen) && ValidControl(p.control) }

  function Start(table: Unicode, rows: int, cols: int): (p: Parser)
    requires rows >= 1 && cols >= 1
    ensures ValidParser(p)
  {
    Parser(Init(table, rows, cols), INITIAL)
  }

  function Step(p: Parser, b: Byte): (q: Parser)
    requires ValidParser(p)
    ensures ValidParser(q)
    ensures SameSize(p.screen, q.screen)
  {
    var (c, op) := ControlStep(p.control, b);
    ApplyValid(p.screen, op);
    Parser(Apply(p.screen, op), c)
  }

  function Feed(p: Parser, bytes: seq<Byte>): (q: Parser)
    requires ValidParser(p)
    ensures ValidParser(q)
    ensures SameSize(p.screen, q.screen)
    decreases bytes
  {
    if bytes == [] then p else Feed(Step(p, bytes[0]), bytes[1..])
  }

  /** The control state after a run; the screen plays no part in it. */
  function After(c: Control, bytes: seq<Byte>): (d: Control)
    requires ValidControl(c)
    ensures ValidControl(d)
    decreases bytes
  {
    if bytes == [] then c else After(ControlStep(c, bytes[0]).0, bytes[1..])
  }

  function Visible(op: Op): seq<Op> { if op == Nop then [] else [op] }

  /** The operations a run triggers, in order. */
  function Ops(c: Control, bytes: seq<Byte>): seq<Op>
    requires ValidControl(c)
    decreases bytes
  {
    if bytes == [] then []
    else Visible(ControlStep(c, bytes[0]).1) + Ops(ControlStep(c, bytes[0]).0, bytes[1..])
  }

  lemma {:induction false} RunAppend(c: Control, a: seq<Byte>, b: seq<Byte>)
    requires ValidControl(c)
    ensures After(c, a + b) == After(After(c, a), b)
    ensures Ops(c, a + b) == Ops(c, a) + Ops(After(c, a), b)
    decreases a
  {
    if a == [] {
      assert a + b == b;
    } else {
      var (d, op) := ControlStep(c, a[0]);
      assert (a + b)[1..] == a[1..] + b;
      RunAppend(d, a[1..], b);
      ConcatAssociative(Visible(op), Ops(d, a[1..]), Ops(After(d, a[1..]), b));
    }
  }

  lemma RunOne(c: Control, b: Byte)
    requires ValidControl(c)
    ensures After(c, [b]) == ControlStep(c, b).0 && Ops(c, [b]) == Visible(ControlStep(c, b).1)
  {
    var (d, op) := ControlStep(c, b);
    assert [b][1..] == [];
    assert After(d, []) == d && Ops(d, []) == [];
    assert Visible(op) + [] == Visible(op);
  }

  /** A byte without an operation only changes the control state. */
  lemma RunNop(c: Control, bytes: seq<Byte>)
    requires ValidControl(c) && bytes != [] && ControlStep(c, bytes[0]).1 == Nop
    ensures var d := ControlStep(c, bytes[0]).0;
            After(c, bytes) == After(d, bytes[1..]) && Ops(c, bytes) == Ops(d, bytes[1..])
  {
    assert [] + Ops(ControlStep(c, bytes[0]).0, bytes[1..]) == Ops(ControlStep(c, bytes[0]).0, bytes[1..]);
  }

  lemma RunTwo(c: Control, a: Byte, b: Byte)
    requires ValidControl(c) && ControlStep(c, a).1 == Nop
    ensures var (d, op) := ControlStep(ControlStep(c, a).0, b);
            After(c, [a, b]) == d && Ops(c, [a, b]) == Visible(op)
  {
    assert [a, b][1..] == [b];
    RunNop(c, [a, b]);
    RunOne(ControlStep(c, a).0, b);
  }

  function ApplyAll(s: State, ops: seq<Op>): (t: State)
    requires Valid(s)
    ensures Valid(t) && SameSize(s, t)
    decreases ops
  {
    if ops == [] then s else
    ApplyValid(s, ops[0]);
    ApplyAll(Apply(s, ops[0]), ops[1..])
  }

  /** A run of the interpreter is its operations, performed in order. */
  lemma {:induction false} FeedIsRun(p: Parser, bytes: seq<Byte>)
    requires ValidParser(p)
    ensures Feed(p, bytes) == Parser(ApplyAll(p.screen, Ops(p.control, bytes)), After(p.control, bytes))
    decreases bytes
  {
    if bytes != [] {
      var (d, op) := ControlStep(p.control, bytes[0]);
      FeedIsRun(Step(p, bytes[0]), bytes[1..]);
      if op != Nop {
        assert ([op] + Ops(d, bytes[1..]))[1..] == Ops(d, bytes[1..]);
      } else {
        RunNop(p.control, bytes);
      }
    }
  }

  /** Chunking does not matter: feeding in two parts is feeding the whole. */
  lemma {:induction false} FeedAppend(p: Parser, a: seq<Byte>, b: seq<Byte>)
    requires ValidParser(p)
    ensures Feed(p, a + b) == Feed(Feed(p, a), b)
    decreases a
  {
    if a == [] {
      assert a + b == b;
    } else {
      assert (a + b)[1..] == a[1..] + b;
      FeedAppend(Step(p, a[0]), a[1..], b);
    }
  }

  /** Any number of chunks. */
  lemma {:induction false} FeedChunks(p: Parser, chunks: seq<seq<Byte>>)
    requires ValidParser(p)
    ensures Feed(p, Concat(chunks)) == FeedEach(p, chunks)
    decreases chunks
  {
    if chunks != [] {
      FeedAppend(p, chunks[0], Concat(chunks[1..]));
      FeedChunks(Feed(p, chunks[0]), chunks[1..]);
    }
  }

  function FeedEach(p: Parser, chunks: seq<seq<Byte>>): (q: Parser)
    requires ValidParser(p)
    ensures ValidParser(q)
    decreases chunks
  {
    if chunks == [] then p else FeedEach(Feed(p, chunks[0]), chunks[1..])
  }

  /** The same control driving the strict reference screen. */
  function StrictFeed(p: Parser, bytes: seq<Byte>): (q: Parser)
    requires Exact(p.screen) && ValidControl(p.control)
    ensures Exact(q.screen)
    decreases bytes
  {
    if bytes == [] then p else
    var (c, op) := ControlStep(p.control, bytes[0]);
    StrictFeed(Parser(StrictApply(p.screen, op), c), bytes[1..])
  }

  /**
   For every byte stream the interpreter is total, keeps a well-formed screen,
   and shows what the strict reference screen shows.
   */
  lemma {:induction false} StreamRefines(p: Parser, bytes: seq<Byte>)
    requires ValidParser(p)
    ensures ValidParser(Feed(p, bytes))
    ensures var q := StrictFeed(p.(screen := Cut(p.screen)), bytes);
            && q == Feed(p, bytes).(screen := Cut(Feed(p, bytes).screen))
            && VisibleRows(q.screen) == VisibleRows(Feed(p, bytes).screen)
    decreases bytes
  {
    VisibleRowsOfCut(Feed(p, bytes).screen);
    if bytes != [] {
      ApplyRefines(p.screen, ControlStep(p.control, bytes[0]).1);
      StreamRefines(Step(p, bytes[0]), bytes[1..]);
    }
  }

  /** The same, from power-on: the exact shape of every reachable screen. */
  lemma ReachableScreens(table: Unicode, rows: int, cols: int, bytes: seq<Byte>)
    requires rows >= 1 && cols >= 1
    ensures var s := Feed(Start(table, rows, cols), bytes).screen;
            && |s.grid| == rows && 0 <= s.row < rows && 0 <= s.col <= cols
            && (forall r | 0 <= r < rows ::
                  |s.grid[r]| == cols || (|s.grid[r]| == cols + 1 && s.grid[r][cols] == BLANK))
            && VisibleRows(s) == VisibleRows(StrictFeed(Start(table, rows, cols), bytes).screen)
  {
    var p := Start(table, rows, cols);
    StreamRefines(p, bytes);
    SameCells(Cut(p.screen), p.screen);
  }
}
