/**
 What bytes do, said without the interpreter's own tables: which byte strings
 are interchangeable, which leave no trace, and where they put the cursor.
 */
module VtAliases {
  import opened Prelude
  import opened Decimal
  import opened VtScreen
  import opened VtStrict
  import opened VtControl
  import opened VtText
  import opened VtSequences

  /** In ground the two strings leave parsers that no continuation tells apart. */
  predicate Interchangeable(p: Parser, a: seq<Byte>, b: seq<Byte>)
    requires ValidParser(p)
  {
    Alike(Feed(p, a), Feed(p, b))
  }

  /** `CSI` with one number, or two, and a final byte. */
  function Csi1(n: nat, final: char): seq<Byte>
    requires final as int < 256
  {
    CsiBytes(ParamTextBytes(Digits(n)), final as int)
  }

  function Csi2(m: nat, n: nat, final: char): seq<Byte>
    requires final as int < 256
  {
    assert IsParamText(Digits(m) + ";" + Digits(n));
    CsiBytes(ParamTextBytes(Digits(m) + ";" + Digits(n)), final as int)
  }

  lemma Csi1Performs(c: Control, n: nat, final: char)
    requires ValidControl(c) && c.mode == Ground && final as int < 256 && !IsBodyByte(final as int)
    ensures Performs(c, Csi1(n, final), DispatchOp("", [n], c.last, final))
  {
    hide Performs, DispatchOp, CsiBytes, Digits;
    var out := Printout([Some(n)], final);
    PrintoutPerforms(c, out);
    assert PrintParams(out.params) == Digits(n) && Meant(out.params) == [n];
  }

  lemma Csi2Performs(c: Control, m: nat, n: nat, final: char)
    requires ValidControl(c) && c.mode == Ground && final as int < 256 && !IsBodyByte(final as int)
    ensures Performs(c, Csi2(m, n, final), DispatchOp("", [m, n], c.last, final))
  {
    hide Performs, DispatchOp, CsiBytes, Digits;
    var out := Printout([Some(m), Some(n)], final);
    PrintoutPerforms(c, out);
    assert out.params[1..] == [Some(n)];
    assert PrintParams(out.params) == Digits(m) + ";" + Digits(n) && Meant(out.params) == [m, n];
  }

  lemma OnlyFinalPerforms(c: Control, final: char)
    requires ValidControl(c) && c.mode == Ground && final as int < 256 && !IsBodyByte(final as int)
    ensures Performs(c, CsiBytes([], final as int), DispatchOp("", [1], c.last, final))
  {
    hide Performs, DispatchOp;
    CsiPerforms(c, [], final as int);
    assert ParamsOf([]) == "" && MarkerOf([], "") == "" && CsiParams("") == [1];
  }

  lemma SameEffect(p: Parser, a: seq<Byte>, b: seq<Byte>, op: Op, op': Op)
    requires ValidParser(p) && Performs(p.control, a, op) && Performs(p.control, b, op')
    requires !op.Put? && !op'.Put? && Apply(p.screen, op) == Apply(p.screen, op')
    ensures Interchangeable(p, a, b)
  {
    hide Performs, Feed, Apply;
    FeedPerforms(p, a, op);
    FeedPerforms(p, b, op');
  }

  lemma NoEffect(p: Parser, a: seq<Byte>)
    requires ValidParser(p) && Performs(p.control, a, Nop)
    ensures Interchangeable(p, a, [])
  {
    FeedPerforms(p, a, Nop);
  }

  // ----- two spellings of the same thing -----

  lemma CsiSpellings(p: Parser, a: seq<Byte>, op: Op, body: seq<Byte>, final: Byte)
    requires ValidParser(p) && p.control.mode == Ground && IsCsiBody(body) && !IsBodyByte(final)
    requires Performs(p.control, a, op) && CsiMeaning(body, final, p.control.last) == op && !op.Put?
    ensures Interchangeable(p, a, CsiBytes(body, final))
  {
    hide Performs, Feed, Apply, CsiMeaning;
    CsiPerforms(p.control, body, final);
    SameEffect(p, a, CsiBytes(body, final), op, op);
  }

  lemma EscapesPerform(c: Control)
    requires ValidControl(c) && c.mode == Ground
    ensures Performs(c, [ESC, '7' as Byte], Save) && Performs(c, [ESC, '8' as Byte], Restore)
    ensures Performs(c, [ESC, 'D' as Byte], LineFeed) && Performs(c, [ESC, 'E' as Byte], NewLine)
    ensures Performs(c, [ESC, 'M' as Byte], Reverse)
  {
    hide Performs;
    EscapePerforms(c, 0x37, Save);
    EscapePerforms(c, 0x38, Restore);
    EscapePerforms(c, 0x44, LineFeed);
    EscapePerforms(c, 0x45, NewLine);
    EscapePerforms(c, 0x4D, Reverse);
  }

  /** ESC 7 is `CSI s` and ESC 8 is `CSI u`. */
  lemma SaveSpellings(p: Parser)
    requires ValidParser(p) && p.control.mode == Ground
    ensures Interchangeable(p, [ESC, '7' as Byte], CsiBytes([], 's' as Byte))
    ensures Interchangeable(p, [ESC, '8' as Byte], CsiBytes([], 'u' as Byte))
  {
    hide Performs, Feed, Apply;
    EscapesPerform(p.control);
    OnlyFinalPerforms(p.control, 's');
    OnlyFinalPerforms(p.control, 'u');
    SameEffect(p, [ESC, 0x37], CsiBytes([], 's' as Byte), Save, Save);
    SameEffect(p, [ESC, 0x38], CsiBytes([], 'u' as Byte), Restore, Restore);
  }

  lemma VerticalPerforms(c: Control)
    requires ValidControl(c) && c.mode == Ground
    ensures Performs(c, [0x0B], LineFeed) && Performs(c, [0x0C], LineFeed)
  {
    hide Ops, After;
    RunOne(c, 0x0B);
    RunOne(c, 0x0C);
  }

  /** VT, FF and ESC D are line feeds. */
  lemma LineFeedSpellings(p: Parser)
    requires ValidParser(p) && p.control.mode == Ground
    ensures Interchangeable(p, [0x0B], [0x0A]) && Interchangeable(p, [0x0C], [0x0A])
    ensures Interchangeable(p, [ESC, 'D' as Byte], [0x0A])
  {
    hide Feed, Apply, Performs;
    ControlsPerform(p.control);
    VerticalPerforms(p.control);
    EscapesPerform(p.control);
    SameEffect(p, [0x0B], [0x0A], LineFeed, LineFeed);
    SameEffect(p, [0x0C], [0x0A], LineFeed, LineFeed);
    SameEffect(p, [ESC, 0x44], [0x0A], LineFeed, LineFeed);
  }

  /** With any body at all, `f` ends a sequence as `H` does, and the backquote as `G` does. */
  lemma FinalSpellings(p: Parser, body: seq<Byte>)
    requires ValidParser(p) && p.control.mode == Ground && IsCsiBody(body)
    ensures Interchangeable(p, CsiBytes(body, 'f' as Byte), CsiBytes(body, 'H' as Byte))
    ensures Interchangeable(p, CsiBytes(body, '`' as Byte), CsiBytes(body, 'G' as Byte))
  {
    hide Performs, Feed, Apply, CsiParams;
    var last := p.control.last;
    CsiPerforms(p.control, body, 'f' as Byte);
    CsiPerforms(p.control, body, '`' as Byte);
    CsiSpellings(p, CsiBytes(body, 'f' as Byte), CsiMeaning(body, 'f' as Byte, last), body, 'H' as Byte);
    CsiSpellings(p, CsiBytes(body, '`' as Byte), CsiMeaning(body, '`' as Byte, last), body, 'G' as Byte);
  }

  /** An absent column is 1, and an absent lower margin is the last row. */
  lemma DefaultSpellings(p: Parser, n: nat)
    requires ValidParser(p) && p.control.mode == Ground
    ensures Interchangeable(p, Csi1(n, 'H'), Csi2(n, 1, 'H'))
    ensures Interchangeable(p, CsiBytes([], 'H' as Byte), Csi2(1, 1, 'H'))
    ensures Interchangeable(p, Csi1(n, 'r'), Csi2(n, p.screen.rows, 'r'))
  {
    hide Performs, Feed, Csi1, Csi2;
    var c := p.control;
    Csi1Performs(c, n, 'H');
    Csi2Performs(c, n, 1, 'H');
    Csi2Performs(c, 1, 1, 'H');
    OnlyFinalPerforms(c, 'H');
    Csi1Performs(c, n, 'r');
    Csi2Performs(c, n, p.screen.rows, 'r');
    SameEffect(p, Csi1(n, 'H'), Csi2(n, 1, 'H'), MoveTo(n, 1), MoveTo(n, 1));
    SameEffect(p, CsiBytes([], 'H' as Byte), Csi2(1, 1, 'H'), MoveTo(1, 1), MoveTo(1, 1));
    SameEffect(p, Csi1(n, 'r'), Csi2(n, p.screen.rows, 'r'), Margins(n, None), Margins(n, Some(p.screen.rows)));
  }

  lemma ControlsPerform(c: Control)
    requires ValidControl(c) && c.mode == Ground
    ensures Performs(c, [0x08], Backspace) && Performs(c, [0x0D], CarriageReturn) && Performs(c, [0x0A], LineFeed)
    ensures Performs(c, [0x09], Tab)
  {
    hide Ops, After;
    RunOne(c, 0x08);
    RunOne(c, 0x09);
    RunOne(c, 0x0D);
    RunOne(c, 0x0A);
  }

  /** BS is `CSI 1 D`, and CR is `CSI 1 G`. */
  lemma ControlSpellings(p: Parser)
    requires ValidParser(p) && p.control.mode == Ground
    ensures Interchangeable(p, [0x08], Csi1(1, 'D')) && Interchangeable(p, [0x0D], Csi1(1, 'G'))
  {
    hide Performs, Feed, Csi1;
    ControlsPerform(p.control);
    Csi1Performs(p.control, 1, 'D');
    Csi1Performs(p.control, 1, 'G');
    SameEffect(p, [0x08], Csi1(1, 'D'), Backspace, Left(1));
    SameEffect(p, [0x0D], Csi1(1, 'G'), CarriageReturn, Column(1));
  }

  lemma TwoPerform(p: Parser, a: seq<Byte>, op: Op, b: seq<Byte>, op': Op)
    requires ValidParser(p) && Performs(p.control, a, op) && Performs(AfterOp(p, op).control, b, op')
    ensures Alike(Feed(p, a + b), AfterOp(AfterOp(p, op), op'))
  {
    hide Performs, Apply;
    FeedAppend(p, a, b);
    FeedPerforms(p, a, op);
    FeedAlike(Feed(p, a), AfterOp(p, op), b);
    FeedPerforms(AfterOp(p, op), b, op');
  }

  /** ESC E is CR LF; `CSI n E` and `CSI n F` are `CSI n B` and `CSI n A` with a CR. */
  lemma LineSpellings(p: Parser, n: nat)
    requires ValidParser(p) && p.control.mode == Ground
    ensures Interchangeable(p, [ESC, 'E' as Byte], [0x0D] + [0x0A])
    ensures Interchangeable(p, Csi1(n, 'E'), Csi1(n, 'B') + [0x0D])
    ensures Interchangeable(p, Csi1(n, 'F'), Csi1(n, 'A') + [0x0D])
  {
    hide Performs, Feed, Csi1;
    NewLineBytes(p);
    WithReturn(p, n, 'E', 'B', NextLine(n), Down(n));
    WithReturn(p, n, 'F', 'A', PreviousLine(n), Up(n));
  }

  lemma NewLineBytes(p: Parser)
    requires ValidParser(p) && p.control.mode == Ground
    ensures Interchangeable(p, [ESC, 'E' as Byte], [0x0D] + [0x0A])
  {
    hide Performs, Feed;
    ControlsPerform(p.control);
    EscapesPerform(p.control);
    FeedPerforms(p, [ESC, 0x45], NewLine);
    TwoPerform(p, [0x0D], CarriageReturn, [0x0A], LineFeed);
  }

  lemma ReturnAfter(s: State, n: nat)
    requires Valid(s)
    ensures Valid(Apply(s, Down(n))) && Apply(Apply(s, Down(n)), CarriageReturn) == Apply(s, NextLine(n))
    ensures Valid(Apply(s, Up(n))) && Apply(Apply(s, Up(n)), CarriageReturn) == Apply(s, PreviousLine(n))
  {
    hide Valid, Scroll, Edit, PutChar, PutMany;
    ApplyValid(s, Down(n));
    ApplyValid(s, Up(n));
  }

  lemma WithReturn(p: Parser, n: nat, final: char, plain: char, op: Op, op': Op)
    requires ValidParser(p) && p.control.mode == Ground
    requires (final, plain, op, op') == ('E', 'B', NextLine(n), Down(n)) || (final, plain, op, op') == ('F', 'A', PreviousLine(n), Up(n))
    ensures Interchangeable(p, Csi1(n, final), Csi1(n, plain) + [0x0D])
  {
    hide Performs, Feed, Csi1, Apply;
    ControlsPerform(p.control);
    ReturnAfter(p.screen, n);
    Csi1Performs(p.control, n, final);
    Csi1Performs(p.control, n, plain);
    FeedPerforms(p, Csi1(n, final), op);
    TwoPerform(p, Csi1(n, plain), op', [0x0D], CarriageReturn);
  }

  // ----- bytes without effect -----

  /** Designating a character set swallows the byte that names it, whatever it is. */
  lemma DesignatorsVanish(p: Parser, d: Byte, x: Byte)
    requires ValidParser(p) && p.control.mode == Ground && '(' as Byte <= d <= '+' as Byte
    ensures Interchangeable(p, [ESC, d, x], [])
  {
    hide Feed, Apply, Ops, After;
    var c := p.control;
    assert [ESC, d, x] == [ESC, d] + [x];
    RunTwo(c, ESC, d);
    RunAppend(c, [ESC, d], [x]);
    RunOne(c.(mode := Charset), x);
    NoEffect(p, [ESC, d, x]);
  }

  /** ESC and any byte but `[`, `]`, `(` to `+`, `7`, `8`, `D`, `E` and `M`. */
  lemma OtherEscapesVanish(p: Parser, b: Byte)
    requires ValidParser(p) && p.control.mode == Ground
    requires !('(' as Byte <= b <= '+' as Byte)
    requires b != '[' as Byte && b != ']' as Byte && b != '7' as Byte && b != '8' as Byte
    requires b != 'D' as Byte && b != 'E' as Byte && b != 'M' as Byte
    ensures Interchangeable(p, [ESC, b], [])
  {
    hide Feed, Apply;
    EscapePerforms(p.control, b, Nop);
    NoEffect(p, [ESC, b]);
  }

  /** Control characters but BS, HT, LF, VT, FF, CR and ESC; DEL; and bytes that start no UTF-8 sequence. */
  lemma StrayBytesVanish(p: Parser, b: Byte)
    requires ValidParser(p) && p.control.mode == Ground
    requires b < 0x08 || 0x0D < b < ESC || ESC < b < 0x20 || 0x7F <= b < 0xC2 || b > 0xF4
    ensures Interchangeable(p, [b], [])
  {
    hide Feed, Apply;
    RunOne(p.control, b);
    NoEffect(p, [b]);
  }

  lemma RestOfBadSequence(lead: Control, raw: seq<Byte>)
    requires ValidControl(lead) && lead.mode == Utf8 && |raw| >= 2
    requires lead.pending == [raw[0]] && lead.needed == |raw| - 1 && DecodeUtf8(raw).None?
    ensures After(lead, raw[1..]) == lead.(mode := Ground, pending := [], needed := 0) && Ops(lead, raw[1..]) == []
  {
    hide DecodeUtf8, Ops, After;
    var n := |raw|;
    var (middle, final) := (raw[1..n - 1], raw[n - 1]);
    assert raw[1..] == middle + [final];
    assert [raw[0]] + middle + [final] == raw;
    RunAppend(lead, middle, [final]);
    RunPending(lead, middle);
    RunOne(After(lead, middle), final);
  }

  lemma BadSequencePerforms(c: Control, raw: seq<Byte>)
    requires ValidControl(c) && c.mode == Ground
    requires |raw| >= 2 && SequenceLength(raw[0]) == |raw| && DecodeUtf8(raw).None?
    ensures Performs(c, raw, Nop)
  {
    hide DecodeUtf8, Ops, After;
    var lead := c.(mode := Utf8, pending := [raw[0]], needed := |raw| - 1);
    assert raw == [raw[0]] + raw[1..];
    RunAppend(c, [raw[0]], raw[1..]);
    RunOne(c, raw[0]);
    RestOfBadSequence(lead, raw);
  }

  /** Bytes as long as their lead announces that encode no character. */
  lemma BadSequencesVanish(p: Parser, raw: seq<Byte>)
    requires ValidParser(p) && p.control.mode == Ground
    requires |raw| >= 2 && SequenceLength(raw[0]) == |raw| && forall ch: char :: EncodeChar(ch) != raw
    ensures Interchangeable(p, raw, [])
  {
    hide DecodeUtf8, Performs, EncodeChar, Feed;
    if DecodeUtf8(raw).Some? {
      EncodeDecoded(raw);
    }
    BadSequencePerforms(p.control, raw);
    NoEffect(p, raw);
  }

  predicate IsPrivateMark(b: Byte) { b == '!' as Byte || b == '<' as Byte || b == '>' as Byte || b == '?' as Byte }

  /** A final byte that no control sequence acts on. */
  predicate DoesNothing(final: Byte) {
    var f := final as char;
    && (final < 0x20 || final >= 0x40 || f == ':' || f == '=')
    && f != 'A' && f != 'B' && f != 'C' && f != 'D' && f != 'E' && f != 'F' && f != 'G' && f != 'H'
    && f != 'J' && f != 'K' && f != 'L' && f != 'M' && f != 'P' && f != 'S' && f != 'T' && f != 'X'
    && f != '`' && f != 'b' && f != 'd' && f != 'f' && f != 'r' && f != 's' && f != 'u'
  }

  /** A control sequence with one of `!`, `<`, `>`, `?` in it. */
  lemma PrivateSequencesVanish(p: Parser, body: seq<Byte>, i: nat, final: Byte)
    requires ValidParser(p) && p.control.mode == Ground && IsCsiBody(body) && !IsBodyByte(final)
    requires i < |body| && IsPrivateMark(body[i])
    ensures Interchangeable(p, CsiBytes(body, final), [])
  {
    hide Feed, Performs, DispatchOp, IsCsiBody;
    assert IsPrivateByte(body[i]);
    CsiPerforms(p.control, body, final);
    InvisibleCsiIsNop(body, final, p.control.last);
    NoEffect(p, CsiBytes(body, final));
  }

  lemma NothingIsInvisible(final: Byte)
    requires DoesNothing(final)
    ensures !IsBodyByte(final) && final as char !in EFFECTS
  {
  }

  /** A control sequence that ends in none of the letters that do something. */
  lemma OtherSequencesVanish(p: Parser, body: seq<Byte>, final: Byte)
    requires ValidParser(p) && p.control.mode == Ground && IsCsiBody(body) && DoesNothing(final)
    ensures Interchangeable(p, CsiBytes(body, final), [])
  {
    hide Feed, Performs, DispatchOp, DoesNothing, IsCsiBody, IsBodyByte;
    NothingIsInvisible(final);
    CsiPerforms(p.control, body, final);
    InvisibleCsiIsNop(body, final, p.control.last);
    NoEffect(p, CsiBytes(body, final));
  }

  /** The bytes a sequence may have before its final one. */
  lemma BodyBytes(b: Byte)
    ensures IsBodyByte(b) <==> 0x20 <= b < 0x40 && b != ':' as Byte && b != '=' as Byte
  {
  }

  lemma {:induction false} WithoutIntermediate(a: seq<Byte>, x: Byte, b: seq<Byte>, before: string)
    requires 0x20 <= x <= 0x2F && x != '!' as Byte
    ensures ParamsOf(a + [x] + b) == ParamsOf(a + b)
    ensures MarkerOf(a + [x] + b, before) == MarkerOf(a + b, before)
    decreases a
  {
    if a == [] {
      assert a + [x] + b == [x] + b && a + b == b && ([x] + b)[1..] == b;
      assert "" + ParamsOf(b) == ParamsOf(b);
    } else {
      assert (a + [x] + b)[1..] == a[1..] + [x] + b && (a + b)[1..] == a[1..] + b;
      WithoutIntermediate(a[1..], x, b, if IsPrivateByte(a[0]) then [a[0] as char] else before);
    }
  }

  /** Intermediate bytes make no difference. */
  lemma IntermediatesIgnored(p: Parser, a: seq<Byte>, x: Byte, b: seq<Byte>, final: Byte)
    requires ValidParser(p) && p.control.mode == Ground && IsCsiBody(a + b) && !IsBodyByte(final)
    requires 0x20 <= x <= 0x2F && x != '!' as Byte
    ensures Interchangeable(p, CsiBytes(a + [x] + b, final), CsiBytes(a + b, final))
  {
    hide Feed, Performs, DispatchOp, ParamsOf, MarkerOf, CsiBytes, CsiParams;
    forall i | 0 <= i < |a + [x] + b| ensures IsBodyByte((a + [x] + b)[i]) {
      assert i < |a| ==> (a + b)[i] == a[i];
      assert i > |a| ==> (a + b)[i - 1] == (a + [x] + b)[i];
    }
    WithoutIntermediate(a, x, b, "");
    CsiPerforms(p.control, a + [x] + b, final);
    DispatchKeepsLast(MarkerOf(a + b, ""), CsiParams(ParamsOf(a + b)), p.control.last, final as char);
    CsiSpellings(p, CsiBytes(a + [x] + b, final), CsiMeaning(a + b, final, p.control.last), a + b, final);
  }

  // ----- where the cursor goes -----

  /** The screen after some bytes is this one. */
  predicate Gives(p: Parser, bytes: seq<Byte>, s: State)
    requires ValidParser(p)
  {
    Feed(p, bytes).screen == s
  }

  lemma PerformsGives(p: Parser, bytes: seq<Byte>, op: Op)
    requires ValidParser(p) && Performs(p.control, bytes, op)
    ensures Gives(p, bytes, Apply(p.screen, op))
  {
    hide Performs, Feed, Apply;
    FeedPerforms(p, bytes, op);
  }

  function AtMost(x: nat, most: nat): nat { if x <= most then x else most }

  function Less(x: nat, n: nat): nat { if n <= x then x - n else 0 }

  /** Relative movements stop at the edges of the screen. */
  lemma RelativeMoves(p: Parser, n: nat)
    requires ValidParser(p) && p.control.mode == Ground
    ensures var s := p.screen;
            && Gives(p, Csi1(n, 'A'), s.(row := Less(s.row, n)))
            && Gives(p, Csi1(n, 'B'), s.(row := AtMost(s.row + n, s.rows - 1)))
            && Gives(p, Csi1(n, 'C'), s.(col := AtMost(s.col + n, s.cols - 1)))
            && Gives(p, Csi1(n, 'D'), s.(col := Less(s.col, n)))
  {
    hide Performs, Gives, Csi1;
    var c := p.control;
    Csi1Performs(c, n, 'A');
    Csi1Performs(c, n, 'B');
    Csi1Performs(c, n, 'C');
    Csi1Performs(c, n, 'D');
    PerformsGives(p, Csi1(n, 'A'), Up(n));
    PerformsGives(p, Csi1(n, 'B'), Down(n));
    PerformsGives(p, Csi1(n, 'C'), Right(n));
    PerformsGives(p, Csi1(n, 'D'), Left(n));
  }

  /** Absolute positions count from 1, take 0 for 1, and stop at the last row or column. */
  lemma AbsoluteMoves(p: Parser, m: nat, n: nat)
    requires ValidParser(p) && p.control.mode == Ground
    ensures var s := p.screen;
            && Gives(p, Csi2(m, n, 'H'), s.(row := AtMost(Less(m, 1), s.rows - 1), col := AtMost(Less(n, 1), s.cols - 1)))
            && Gives(p, Csi1(m, 'd'), s.(row := AtMost(Less(m, 1), s.rows - 1)))
            && Gives(p, Csi1(n, 'G'), s.(col := AtMost(Less(n, 1), s.cols - 1)))
  {
    hide Performs, Gives, Csi1, Csi2;
    Csi2Performs(p.control, m, n, 'H');
    Csi1Performs(p.control, m, 'd');
    Csi1Performs(p.control, n, 'G');
    PerformsGives(p, Csi2(m, n, 'H'), MoveTo(m, n));
    PerformsGives(p, Csi1(m, 'd'), Line(m));
    PerformsGives(p, Csi1(n, 'G'), Column(n));
  }

  /** HT goes to the next multiple of 8, or to the last column when that is no farther. */
  lemma TabStops(p: Parser)
    requires ValidParser(p) && p.control.mode == Ground
    ensures var (s, t) := (p.screen, Feed(p, [0x09]).screen);
            && t == s.(col := t.col)
            && (t.col == s.cols - 1 <= s.col + 8 || (t.col % 8 == 0 && s.col < t.col <= s.col + 8 && t.col < s.cols - 1))
  {
    hide Performs, Feed, Scroll, Edit, PutChar, PutMany;
    ControlsPerform(p.control);
    PerformsGives(p, [0x09], Tab);
  }

  // ----- the saved cursor -----

  lemma PutKeepsSaved(s: State, c: char)
    requires Valid(s)
    ensures PutChar(s, c).saved == s.saved
  {
  }

  lemma {:induction false} PutManyKeepsSaved(s: State, n: nat, c: char)
    requires Valid(s)
    ensures PutMany(s, n, c).saved == s.saved
    decreases n
  {
    if n > 0 {
      PutCharValid(s, c);
      PutKeepsSaved(s, c);
      PutManyKeepsSaved(PutChar(s, c), n - 1, c);
    }
  }

  lemma OthersKeepSaved(s: State, op: Op)
    requires Valid(s) && op != Save
    ensures Apply(s, op).saved == s.saved
  {
    if op.Put? {
      PutKeepsSaved(s, op.ch);
    } else if op.Repeat? {
      PutManyKeepsSaved(s, op.n, op.ch);
    }
  }

  predicate NeverSaves(ops: seq<Op>) { forall i | 0 <= i < |ops| :: ops[i] != Save }

  lemma {:induction false} AllKeepSaved(s: State, ops: seq<Op>)
    requires Valid(s) && NeverSaves(ops)
    ensures ApplyAll(s, ops).saved == s.saved
    decreases ops
  {
    hide Apply;
    if ops != [] {
      ApplyValid(s, ops[0]);
      OthersKeepSaved(s, ops[0]);
      AllKeepSaved(Apply(s, ops[0]), ops[1..]);
    }
  }

  lemma EscapeCursor(p: Parser)
    requires ValidParser(p) && p.control.mode == Ground
    ensures var q := Feed(p, [ESC, '7' as Byte]);
            q.screen == p.screen.(saved := (p.screen.row, p.screen.col)) && Live(q.control) == Live(p.control)
    ensures var q := Feed(p, [ESC, '8' as Byte]);
            && q.screen == p.screen.(row := p.screen.saved.0, col := p.screen.saved.1)
            && Live(q.control) == Live(p.control)
  {
    hide Performs, Feed, Valid, ValidControl, Scroll, Edit, PutChar, PutMany;
    EscapesPerform(p.control);
    FeedPerforms(p, [ESC, 0x37], Save);
    FeedPerforms(p, [ESC, 0x38], Restore);
  }

  /** ESC 7, bytes that do not save the cursor and end in ground, ESC 8: the cursor is back. */
  lemma SavedCursorReturns(p: Parser, bytes: seq<Byte>)
    requires ValidParser(p) && p.control.mode == Ground
    requires NeverSaves(Ops(p.control, bytes)) && After(p.control, bytes).mode == Ground
    ensures var q := Feed(p, [ESC, '7' as Byte] + bytes + [ESC, '8' as Byte]);
            q.screen.row == p.screen.row && q.screen.col == p.screen.col && q.control.mode == Ground
  {
    hide Feed, ApplyAll, Ops, After, NeverSaves, ValidControl, Valid;
    EscapeCursor(p);
    var q := Feed(p, [ESC, 0x37]);
    OpsAlike(p.control, q.control, bytes);
    FeedIsRun(q, bytes);
    AllKeepSaved(q.screen, Ops(p.control, bytes));
    var r := Feed(q, bytes);
    EscapeCursor(r);
    FeedAppend(p, [ESC, 0x37], bytes);
    FeedAppend(p, [ESC, 0x37] + bytes, [ESC, 0x38]);
  }

  // ----- what happens to the cells -----

  /** Seen through the strict screen, the bytes redraw the cells and leave everything else. */
  lemma PerformsStrictly(p: Parser, bytes: seq<Byte>, op: Op)
    requires ValidParser(p) && Performs(p.control, bytes, op)
    ensures Cut(Feed(p, bytes).screen) == StrictApply(Cut(p.screen), op)
  {
    hide Performs, Feed, Apply, StrictApply;
    FeedPerforms(p, bytes, op);
    ApplyRefines(p.screen, op);
  }

  /** `CSI n K` blanks the row from the cursor on; with 1 up to the cursor, with 2 all of it. */
  lemma LineErased(p: Parser, n: nat, r: nat, c: nat)
    requires ValidParser(p) && p.control.mode == Ground && r < p.screen.rows && c < p.screen.cols
    ensures var (g, h) := (Cut(p.screen), Cut(Feed(p, Csi1(n, 'K')).screen));
            && h == g.(grid := h.grid)
            && h.grid[r][c] ==
               if r == g.row && (n == 2 || (n == 1 && c <= g.col) || (n != 1 && c >= g.col)) then " " else g.grid[r][c]
  {
    hide Performs, Feed, Csi1, Cut;
    Csi1Performs(p.control, n, 'K');
    PerformsStrictly(p, Csi1(n, 'K'), ClearLine(n));
  }

  /** `CSI n J` blanks everything from the cursor on; with 1 up to the cursor, with 2 or 3 the screen. */
  lemma DisplayErased(p: Parser, n: nat, r: nat, c: nat)
    requires ValidParser(p) && p.control.mode == Ground && r < p.screen.rows && c < p.screen.cols
    ensures var (g, h) := (Cut(p.screen), Cut(Feed(p, Csi1(n, 'J')).screen));
            var (before, after) := (r < g.row || (r == g.row && c <= g.col), r > g.row || (r == g.row && c >= g.col));
            && h == g.(grid := h.grid)
            && h.grid[r][c] ==
               if n == 2 || n == 3 || (n == 1 && before) || (n != 1 && after) then " " else g.grid[r][c]
  {
    hide Performs, Feed, Csi1, Cut;
    Csi1Performs(p.control, n, 'J');
    PerformsStrictly(p, Csi1(n, 'J'), ClearDisplay(n));
  }

  /** `CSI n P` pulls the rest of the row n cells to the left; `CSI n X` blanks n cells in place. */
  lemma CharsEdited(p: Parser, n: nat, r: nat, c: nat)
    requires ValidParser(p) && p.control.mode == Ground && r < p.screen.rows && c < p.screen.cols
    ensures var (g, h) := (Cut(p.screen), Cut(Feed(p, Csi1(n, 'P')).screen));
            && h == g.(grid := h.grid)
            && h.grid[r][c] ==
               if r != g.row || c < g.col then g.grid[r][c] else if c + n < g.cols then g.grid[r][c + n] else " "
    ensures var (g, h) := (Cut(p.screen), Cut(Feed(p, Csi1(n, 'X')).screen));
            && h == g.(grid := h.grid)
            && h.grid[r][c] == if r == g.row && g.col <= c < g.col + n then " " else g.grid[r][c]
  {
    hide Performs, Feed, Csi1, Cut;
    Csi1Performs(p.control, n, 'P');
    Csi1Performs(p.control, n, 'X');
    PerformsStrictly(p, Csi1(n, 'P'), DropChars(n));
    PerformsStrictly(p, Csi1(n, 'X'), ClearChars(n));
  }

  /** The cell of row r after rows lo..hi have moved up by n, blank rows entering below. */
  function MovedUp(g: State, lo: int, hi: int, n: nat, r: nat, c: nat): Cell
    requires Exact(g) && hi < g.rows && r < g.rows && c < g.cols
  {
    if !(lo <= r <= hi) then g.grid[r][c] else if r + n <= hi then g.grid[r + n][c] else " "
  }

  /** The same downwards, blank rows entering above. */
  function MovedDown(g: State, lo: int, hi: int, n: nat, r: nat, c: nat): Cell
    requires Exact(g) && 0 <= lo && r < g.rows && c < g.cols
  {
    if !(lo <= r <= hi) then g.grid[r][c] else if lo <= r - n then g.grid[r - n][c] else " "
  }

  /** `CSI n S` moves the rows between the margins up, and the history counts the lost ones. */
  lemma RegionRolledUp(p: Parser, n: nat, r: nat, c: nat)
    requires ValidParser(p) && p.control.mode == Ground && r < p.screen.rows && c < p.screen.cols
    ensures var (g, h) := (Cut(p.screen), Cut(Feed(p, Csi1(n, 'S')).screen));
            && h == g.(grid := h.grid, history := h.history)
            && h.history == g.history + AtMost(n, Less(g.bottom + 1, g.top))
            && h.grid[r][c] == MovedUp(g, g.top, g.bottom, n, r, c)
  {
    hide Performs, Feed, Csi1, Cut;
    Csi1Performs(p.control, n, 'S');
    PerformsStrictly(p, Csi1(n, 'S'), RollUp(n));
  }

  /** `CSI n M` does so from the cursor row on. */
  lemma LinesDropped(p: Parser, n: nat, r: nat, c: nat)
    requires ValidParser(p) && p.control.mode == Ground && r < p.screen.rows && c < p.screen.cols
    ensures var (g, h) := (Cut(p.screen), Cut(Feed(p, Csi1(n, 'M')).screen));
            && h == g.(grid := h.grid, history := h.history)
            && h.history == g.history + AtMost(n, Less(g.bottom + 1, g.row))
            && h.grid[r][c] == MovedUp(g, g.row, g.bottom, n, r, c)
  {
    hide Performs, Feed, Csi1, Cut;
    Csi1Performs(p.control, n, 'M');
    PerformsStrictly(p, Csi1(n, 'M'), DropLines(n));
  }

  /** `CSI n T` and `CSI n L` move rows down. */
  lemma RowsRolledDown(p: Parser, n: nat, r: nat, c: nat)
    requires ValidParser(p) && p.control.mode == Ground && r < p.screen.rows && c < p.screen.cols
    ensures var (g, h) := (Cut(p.screen), Cut(Feed(p, Csi1(n, 'T')).screen));
            h == g.(grid := h.grid) && h.grid[r][c] == MovedDown(g, g.top, g.bottom, n, r, c)
    ensures var (g, h) := (Cut(p.screen), Cut(Feed(p, Csi1(n, 'L')).screen));
            h == g.(grid := h.grid) && h.grid[r][c] == MovedDown(g, g.row, g.bottom, n, r, c)
  {
    hide Performs, Feed, Csi1, Cut;
    Csi1Performs(p.control, n, 'T');
    Csi1Performs(p.control, n, 'L');
    PerformsStrictly(p, Csi1(n, 'T'), RollDown(n));
    PerformsStrictly(p, Csi1(n, 'L'), AddLines(n));
  }

  lemma DownByOne(s: State)
    requires Valid(s)
    ensures Apply(s, LineFeed) == Apply(s, if s.row == s.bottom then RollUp(1) else Down(1))
  {
    hide Edit, PutChar, PutMany, GridOk;
  }

  lemma UpByOne(s: State)
    requires Valid(s)
    ensures Apply(s, Reverse) == Apply(s, if s.row == s.top then RollDown(1) else Up(1))
  {
    hide Edit, PutChar, PutMany, GridOk;
  }

  /** LF is `CSI 1 S` at the lower margin and `CSI 1 B` elsewhere; ESC M is `CSI 1 T` at the upper margin and `CSI 1 A` elsewhere. */
  lemma ScrollSpellings(p: Parser)
    requires ValidParser(p) && p.control.mode == Ground
    ensures Interchangeable(p, [0x0A], Csi1(1, if p.screen.row == p.screen.bottom then 'S' else 'B'))
    ensures Interchangeable(p, [ESC, 'M' as Byte], Csi1(1, if p.screen.row == p.screen.top then 'T' else 'A'))
  {
    hide Performs, Feed, Csi1, Apply;
    var s := p.screen;
    DownByOne(s);
    UpByOne(s);
    var (down, up) := (if s.row == s.bottom then RollUp(1) else Down(1), if s.row == s.top then RollDown(1) else Up(1));
    ControlsPerform(p.control);
    EscapesPerform(p.control);
    Csi1Performs(p.control, 1, if s.row == s.bottom then 'S' else 'B');
    Csi1Performs(p.control, 1, if s.row == s.top then 'T' else 'A');
    SameEffect(p, [0x0A], Csi1(1, if s.row == s.bottom then 'S' else 'B'), LineFeed, down);
    SameEffect(p, [ESC, 0x4D], Csi1(1, if s.row == s.top then 'T' else 'A'), Reverse, up);
  }

  /** `CSI m;n r` sets the margins, of which the lower is never above the upper, except that it stays on the screen. */
  lemma MarginsSet(p: Parser, m: nat, n: nat)
    requires ValidParser(p) && p.control.mode == Ground
    ensures var s := p.screen;
            var upper := Less(m, 1);
            var lower := if Less(n, 1) < upper then upper else Less(n, 1);
            Gives(p, Csi2(m, n, 'r'), s.(top := upper, bottom := AtMost(lower, s.rows - 1)))
  {
    hide Performs, Gives, Csi2;
    Csi2Performs(p.control, m, n, 'r');
    PerformsGives(p, Csi2(m, n, 'r'), Margins(m, Some(n)));
  }

  // ----- repetition -----

  lemma {:induction false} PutManyIsText(s: State, n: nat, ch: char)
    requires Valid(s)
    ensures PutMany(s, n, ch) == PutText(s, seq(n, _ => ch))
    decreases n
  {
    if n > 0 {
      PutCharValid(s, ch);
      PutManyIsText(PutChar(s, ch), n - 1, ch);
      assert seq(n, _ => ch)[1..] == seq(n - 1, _ => ch);
    }
  }

  /** After some character `CSI n b` is that character n times more. */
  lemma RepeatIsTyping(p: Parser, ch: char, n: nat)
    requires ValidParser(p) && p.control.mode == Ground && IsTextual(ch)
    ensures Alike(Feed(p, EncodeChar(ch) + Csi1(n, 'b')), Feed(p, EncodeChar(ch) + EncodeText(seq(n, _ => ch))))
  {
    hide Performs, Feed, Csi1, PutChar, EncodeChar;
    var text := seq(n, _ => ch);
    CharPerforms(p.control, ch);
    FeedPerforms(p, EncodeChar(ch), Put(ch));
    var q := AfterOp(p, Put(ch));
    Csi1Performs(q.control, n, 'b');
    FeedPerforms(q, Csi1(n, 'b'), Repeat(n, ch));
    FeedText(q, text);
    PutManyIsText(q.screen, n, ch);
    FeedAppend(p, EncodeChar(ch), Csi1(n, 'b'));
    FeedAppend(p, EncodeChar(ch), EncodeText(text));
    FeedAlike(Feed(p, EncodeChar(ch)), q, Csi1(n, 'b'));
    FeedAlike(Feed(p, EncodeChar(ch)), q, EncodeText(text));
  }

  // ----- text in the cells -----

  /** A character fills the cell under the cursor, a wide one also blanks the next; the wrap at the end of the row is apart. */
  lemma CharInCells(p: Parser, ch: char, r: nat, c: nat)
    requires ValidParser(p) && p.control.mode == Ground && IsTextual(ch) && ch !in p.screen.table.combining
    requires p.screen.col < p.screen.cols && r < p.screen.rows && c < p.screen.cols
    ensures var (g, h) := (Cut(p.screen), Cut(Feed(p, EncodeChar(ch)).screen));
            && h == g.(grid := h.grid, col := h.col)
            && h.grid[r][c] ==
               if r == g.row && c == g.col then [ch]
               else if r == g.row && c == g.col + 1 && ch in g.table.wide then " "
               else g.grid[r][c]
  {
    hide Performs, Feed, EncodeChar;
    CharPerforms(p.control, ch);
    PerformsStrictly(p, EncodeChar(ch), Put(ch));
  }

  /** A combining mark joins the cell left of the cursor. */
  lemma MarkInCells(p: Parser, ch: char, r: nat, c: nat)
    requires ValidParser(p) && p.control.mode == Ground && IsTextual(ch) && ch in p.screen.table.combining
    requires r < p.screen.rows && c < p.screen.cols
    ensures var (g, h) := (Cut(p.screen), Cut(Feed(p, EncodeChar(ch)).screen));
            && h == g.(grid := h.grid)
            && h.grid[r][c] == if r == g.row && c == g.col - 1 then g.grid[r][c] + [ch] else g.grid[r][c]
  {
    hide Performs, Feed, EncodeChar;
    CharPerforms(p.control, ch);
    PerformsStrictly(p, EncodeChar(ch), Put(ch));
  }

  // ----- the width of a character -----

  /** A combining mark stays with the cell before the cursor; a wide character takes two columns where there are two. */
  lemma WidthOfText(p: Parser, c: char)
    requires ValidParser(p) && p.control.mode == Ground && IsTextual(c)
    ensures var (s, t) := (p.screen, Feed(p, EncodeChar(c)).screen);
            && (c in s.table.combining ==> t == s.(grid := t.grid))
            && (c !in s.table.combining && s.col < s.cols ==>
                  && t.row == s.row && t.history == s.history
                  && t.col == if c in s.table.wide && s.col + 2 <= s.cols then s.col + 2 else s.col + 1)
  {
    hide Feed;
    CharPerforms(p.control, c);
    FeedPerforms(p, EncodeChar(c), Put(c));
  }
}
