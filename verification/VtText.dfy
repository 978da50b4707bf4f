/** UTF-8 text: from ground, encoded characters reach the screen once each, in order. */
module VtText {
  import opened Prelude
  import opened VtScreen
  import opened VtControl

  /** The encoding table of RFC 3629, section 3. */
  function EncodeChar(c: char): (raw: seq<Byte>)
    ensures 1 <= |raw| <= 4
  {
    var v := c as int;
    if v < 0x80 then [v]
    else if v < 0x800 then [0xC0 + v / 64, 0x80 + v % 64]
    else if v < 0x1_0000 then [0xE0 + v / 4096, 0x80 + v / 64 % 64, 0x80 + v % 64]
    else [0xF0 + v / 262144, 0x80 + v / 4096 % 64, 0x80 + v / 64 % 64, 0x80 + v % 64]
  }

  function EncodeText(text: string): seq<Byte> {
    if text == "" then [] else EncodeChar(text[0]) + EncodeText(text[1..])
  }

  lemma Regroup(v: nat)
    ensures v / 4096 == v / 64 / 64 && v / 262144 == v / 64 / 64 / 64
  {
  }

  lemma {:induction false} Base64Digits(v: nat)
    ensures v == v / 64 * 64 + v % 64
    ensures v == v / 4096 * 4096 + v / 64 % 64 * 64 + v % 64
    ensures v == v / 262144 * 262144 + v / 4096 % 64 * 4096 + v / 64 % 64 * 64 + v % 64
  {
    Regroup(v);
    var (a, b) := (v / 64, v / 64 / 64);
    assert v == a * 64 + v % 64;
    assert a == b * 64 + a % 64;
    assert b == b / 64 * 64 + b % 64;
  }

  lemma DecodeEncoded(c: char)
    requires c as int >= 0x80
    ensures DecodeUtf8(EncodeChar(c)) == Some(c)
  {
    Base64Digits(c as int);
  }

  predicate IsEncodingOfResult(raw: seq<Byte>) {
    && DecodeUtf8(raw).Some? && DecodeUtf8(raw).value as int >= 0x80
    && EncodeChar(DecodeUtf8(raw).value) == raw
  }

  lemma TwoBytesDecoded(raw: seq<Byte>)
    requires |raw| == 2 && DecodeUtf8(raw).Some?
    ensures IsEncodingOfResult(raw)
  {
    Split64(Bits(raw[0], 0xC0), Bits(raw[1], 0x80));
  }

  lemma ThreeBytesDecoded(raw: seq<Byte>)
    requires |raw| == 3 && DecodeUtf8(raw).Some?
    ensures IsEncodingOfResult(raw)
  {
    var (a, b, c) := (Bits(raw[0], 0xE0), Bits(raw[1], 0x80), Bits(raw[2], 0x80));
    Split64(a * 64 + b, c);
    Split64(a, b);
  }

  lemma {:induction false} FourBytesDecoded(raw: seq<Byte>)
    requires |raw| == 4 && DecodeUtf8(raw).Some?
    ensures IsEncodingOfResult(raw)
  {
    var (a, b, c, d) := (Bits(raw[0], 0xF0), Bits(raw[1], 0x80), Bits(raw[2], 0x80), Bits(raw[3], 0x80));
    Split64(a * 4096 + b * 64 + c, d);
    Split64(a * 64 + b, c);
    Split64(a, b);
  }

  /** The decoder accepts nothing else: no overlong form, no surrogate, no stray byte. */
  lemma EncodeDecoded(raw: seq<Byte>)
    requires DecodeUtf8(raw).Some?
    ensures DecodeUtf8(raw).value as int >= 0x80 && EncodeChar(DecodeUtf8(raw).value) == raw
  {
    hide EncodeChar;
    assert 2 <= |raw| <= 4;
    if |raw| == 2 {
      TwoBytesDecoded(raw);
    } else if |raw| == 3 {
      ThreeBytesDecoded(raw);
    } else {
      FourBytesDecoded(raw);
    }
  }

  lemma Split64(hi: int, lo: int)
    requires 0 <= lo < 64 && 0 <= hi
    ensures (hi * 64 + lo) / 64 == hi && (hi * 64 + lo) % 64 == lo
    ensures (hi * 64 + lo) / 4096 == hi / 64 && (hi * 64 + lo) / 262144 == hi / 4096
  {
  }

  // ----- what still matters of the control state -----

  /** Forgets the fields that the current mode will never read again. */
  function Live(c: Control): Control {
    c.(params := if c.mode == Csi then c.params else "",
       priv := if c.mode == Csi then c.priv else "",
       inter := "", osc := [],
       pending := if c.mode == Utf8 then c.pending else [],
       needed := if c.mode == Utf8 then c.needed else 0)
  }

  predicate Alike(p: Parser, q: Parser) {
    p.screen == q.screen && Live(p.control) == Live(q.control)
  }

  lemma ControlAlike(c: Control, d: Control, b: Byte)
    requires ValidControl(c) && ValidControl(d) && Live(c) == Live(d)
    ensures ControlStep(c, b).1 == ControlStep(d, b).1
    ensures Live(ControlStep(c, b).0) == Live(ControlStep(d, b).0)
  {
    if c.mode == Csi {
      CsiAlike(c, d, b);
    } else if c.mode == Utf8 {
      assert c.pending == d.pending && c.needed == d.needed;
    }
  }

  lemma CsiAlike(c: Control, d: Control, b: Byte)
    requires ValidControl(c) && ValidControl(d) && Live(c) == Live(d) && c.mode == Csi
    ensures CsiStep(c, b).1 == CsiStep(d, b).1
    ensures Live(CsiStep(c, b).0) == Live(CsiStep(d, b).0)
  {
    assert c.params == d.params && c.priv == d.priv;
  }

  /** Alike parsers stay alike under every continuation. */
  lemma {:induction false} FeedAlike(p: Parser, q: Parser, bytes: seq<Byte>)
    requires ValidParser(p) && ValidParser(q) && Alike(p, q)
    ensures Alike(Feed(p, bytes), Feed(q, bytes))
    decreases bytes
  {
    if bytes != [] {
      ControlAlike(p.control, q.control, bytes[0]);
      FeedAlike(Step(p, bytes[0]), Step(q, bytes[0]), bytes[1..]);
    }
  }

  // ----- text -----

  predicate IsTextual(c: char) { 0x20 <= c as int < 0x7F || c as int >= 0x80 }

  predicate IsText(text: string) { forall i | 0 <= i < |text| :: IsTextual(text[i]) }

  function PutText(s: State, text: string): (t: State)
    requires Valid(s)
    ensures Valid(t) && SameSize(s, t)
    decreases text
  {
    if text == "" then s else
    ApplyValid(s, Put(text[0]));
    PutText(PutChar(s, text[0]), text[1..])
  }

  lemma {:induction false} PutTextAppend(s: State, a: string, b: string)
    requires Valid(s)
    ensures PutText(s, a + b) == PutText(PutText(s, a), b)
    decreases a
  {
    if a == "" {
      assert a + b == b;
    } else {
      assert (a + b)[1..] == a[1..] + b;
      ApplyValid(s, Put(a[0]));
      PutTextAppend(PutChar(s, a[0]), a[1..], b);
    }
  }

  lemma PutAdvances(s: State, c: char)
    requires Valid(s)
    ensures var (t, w) := (PutChar(s, c), CellWidth(s.table, c));
            && Valid(t) && SameSize(s, t)
            && (w == 0 ==> t.col == s.col) && (w > 0 && s.col < s.cols ==> t.col == Min(s.col + w, s.cols))
  {
    PutCharValid(s, c);
  }

  /** Where a parser in ground stands after showing some text. */
  function Typed(p: Parser, text: string): (q: Parser)
    requires ValidParser(p)
    ensures ValidParser(q)
  {
    Parser(PutText(p.screen, text), p.control.(last := if text == "" then p.control.last else text[|text| - 1]))
  }

  // ----- byte sequences that perform one operation -----

  function LastAfter(op: Op, last: char): char { if op.Put? then op.ch else last }

  function AfterOp(p: Parser, op: Op): (q: Parser)
    requires ValidParser(p)
    ensures ValidParser(q)
  {
    ApplyValid(p.screen, op);
    Parser(Apply(p.screen, op), p.control.(last := LastAfter(op, p.control.last)))
  }

  /** The bytes trigger exactly `op` and bring the control state back. */
  predicate Performs(c: Control, bytes: seq<Byte>, op: Op)
    requires ValidControl(c)
  {
    && Ops(c, bytes) == Visible(op)
    && Live(After(c, bytes)) == Live(c.(last := LastAfter(op, c.last)))
  }

  lemma FeedPerforms(p: Parser, bytes: seq<Byte>, op: Op)
    requires ValidParser(p) && Performs(p.control, bytes, op)
    ensures Alike(Feed(p, bytes), AfterOp(p, op))
  {
    FeedIsRun(p, bytes);
    ApplyAllOne(p.screen, op);
  }

  lemma ApplyAllOne(s: State, op: Op)
    requires Valid(s)
    ensures ApplyAll(s, Visible(op)) == Apply(s, op)
  {
    if op != Nop {
      ApplyValid(s, op);
      assert [op][1..] == [];
      assert ApplyAll(Apply(s, op), []) == Apply(s, op);
    }
  }

  /** Collecting: every byte of a sequence but the last is only remembered. */
  lemma {:induction false} RunPending(c: Control, more: seq<Byte>)
    requires ValidControl(c) && c.mode == Utf8 && |more| < c.needed
    ensures After(c, more) == c.(pending := c.pending + more, needed := c.needed - |more|)
    ensures Ops(c, more) == []
    decreases more
  {
    if more != [] {
      RunNop(c, more);
      RunPending(ControlStep(c, more[0]).0, more[1..]);
      assert c.pending + [more[0]] + more[1..] == c.pending + more;
    } else {
      assert c.pending + more == c.pending;
    }
  }

  lemma SequencePerforms(c: Control, raw: seq<Byte>)
    requires ValidControl(c) && c.mode == Ground
    requires |raw| >= 2 && SequenceLength(raw[0]) == |raw| && DecodeUtf8(raw).Some?
    ensures Performs(c, raw, Put(DecodeUtf8(raw).value))
  {
    hide DecodeUtf8, Ops, After;
    var n := |raw|;
    var lead := c.(mode := Utf8, pending := [raw[0]], needed := n - 1);
    assert raw == [raw[0]] + raw[1..];
    RunAppend(c, [raw[0]], raw[1..]);
    RunOne(c, raw[0]);
    RestOfSequence(lead, raw);
  }

  lemma RestOfSequence(lead: Control, raw: seq<Byte>)
    requires ValidControl(lead) && lead.mode == Utf8 && |raw| >= 2
    requires lead.pending == [raw[0]] && lead.needed == |raw| - 1 && DecodeUtf8(raw).Some?
    ensures var ch := DecodeUtf8(raw).value;
            && After(lead, raw[1..]) == lead.(mode := Ground, pending := [], needed := 0, last := ch)
            && Ops(lead, raw[1..]) == [Put(ch)]
  {
    hide DecodeUtf8, Ops, After;
    var n := |raw|;
    var (middle, final) := (raw[1..n - 1], raw[n - 1]);
    assert raw[1..] == middle + [final];
    assert [raw[0]] + middle + [final] == raw;
    RunAppend(lead, middle, [final]);
    RunPending(lead, middle);
    RunOne(After(lead, middle), final);
  }

  lemma CharPerforms(c: Control, ch: char)
    requires ValidControl(c) && c.mode == Ground && IsTextual(ch)
    ensures Performs(c, EncodeChar(ch), Put(ch))
  {
    if ch as int < 0x80 {
      RunOne(c, ch as int);
    } else {
      DecodeEncoded(ch);
      SequencePerforms(c, EncodeChar(ch));
    }
  }

  /**
   For any text of scalar values outside the controls, feeding its UTF-8
   encoding puts each character exactly once, in order, and ends in ground.
   */
  lemma {:induction false} FeedText(p: Parser, text: string)
    requires ValidParser(p) && p.control.mode == Ground && IsText(text)
    ensures Alike(Feed(p, EncodeText(text)), Typed(p, text))
    decreases text
  {
    if text != "" {
      FeedAppend(p, EncodeChar(text[0]), EncodeText(text[1..]));
      CharPerforms(p.control, text[0]);
      FeedPerforms(p, EncodeChar(text[0]), Put(text[0]));
      var q := AfterOp(p, Put(text[0]));
      FeedAlike(Feed(p, EncodeChar(text[0])), q, EncodeText(text[1..]));
      FeedText(q, text[1..]);
      assert Typed(q, text[1..]) == Typed(p, text);
    }
  }

  /** Alike control states trigger the same operations. */
  lemma {:induction false} OpsAlike(c: Control, d: Control, bytes: seq<Byte>)
    requires ValidControl(c) && ValidControl(d) && Live(c) == Live(d)
    ensures Ops(c, bytes) == Ops(d, bytes) && Live(After(c, bytes)) == Live(After(d, bytes))
    decreases bytes
  {
    if bytes != [] {
      ControlAlike(c, d, bytes[0]);
      OpsAlike(ControlStep(c, bytes[0]).0, ControlStep(d, bytes[0]).0, bytes[1..]);
    }
  }

  function Puts(text: string): seq<Op> { seq(|text|, i requires 0 <= i < |text| => Put(text[i])) }

  lemma OpsOfChar(c: Control, ch: char, rest: seq<Byte>)
    requires ValidControl(c) && c.mode == Ground && IsTextual(ch)
    ensures var d := c.(last := ch);
            && Ops(c, EncodeChar(ch) + rest) == [Put(ch)] + Ops(d, rest)
            && Live(After(c, EncodeChar(ch) + rest)) == Live(After(d, rest))
  {
    hide EncodeChar, ControlStep;
    RunAppend(c, EncodeChar(ch), rest);
    CharPerforms(c, ch);
    OpsAlike(After(c, EncodeChar(ch)), c.(last := ch), rest);
  }

  /** The same seen from the control: the only operations are one Put per character, in order. */
  lemma {:induction false} TextOps(c: Control, text: string)
    requires ValidControl(c) && c.mode == Ground && IsText(text)
    ensures Ops(c, EncodeText(text)) == Puts(text) && After(c, EncodeText(text)).mode == Ground
    decreases text
  {
    hide EncodeChar, ControlStep;
    if text != "" {
      OpsOfChar(c, text[0], EncodeText(text[1..]));
      assert Puts(text) == [Put(text[0])] + Puts(text[1..]);
      TextOps(c.(last := text[0]), text[1..]);
    }
  }
}
