/**
 Control sequences: what a complete sequence does, which ones are invisible,
 and that printing an operation and feeding the bytes performs the operation.
 */
module VtSequences {
  import opened Prelude
  import opened Decimal
  import opened VtScreen
  import opened VtStrict
  import opened VtControl
  import opened VtText

  const ESC: Byte := 0x1B
  const BEL: Byte := 0x07

  predicate IsBodyByte(b: Byte) { IsParamByte(b) || IsPrivateByte(b) || IsInterByte(b) }

  predicate IsCsiBody(body: seq<Byte>) { forall i | 0 <= i < |body| :: IsBodyByte(body[i]) }

  function CsiBytes(body: seq<Byte>, final: Byte): seq<Byte> { [ESC, 0x5B] + body + [final] }

  function ParamOf(b: Byte): (s: string)
    ensures IsParamText(s)
  {
    if IsParamByte(b) then [b as char] else ""
  }

  function InterOf(b: Byte): string {
    if !IsParamByte(b) && !IsPrivateByte(b) && IsInterByte(b) then [b as char] else ""
  }

  function ParamsOf(body: seq<Byte>): (s: string)
    ensures IsParamText(s)
  {
    if body == [] then "" else ParamOf(body[0]) + ParamsOf(body[1..])
  }

  function IntersOf(body: seq<Byte>): string {
    if body == [] then "" else InterOf(body[0]) + IntersOf(body[1..])
  }

  /** The last private marker of the body, or `before` when there is none. */
  function MarkerOf(body: seq<Byte>, before: string): string {
    if body == [] then before
    else MarkerOf(body[1..], if IsPrivateByte(body[0]) then [body[0] as char] else before)
  }

  /** What one body byte leaves behind. */
  function AfterBodyByte(c: Control, b: Byte): Control {
    c.(params := c.params + ParamOf(b), priv := if IsPrivateByte(b) then [b as char] else c.priv,
       inter := c.inter + InterOf(b))
  }

  lemma BodyByteStep(c: Control, b: Byte)
    requires ValidControl(c) && c.mode == Csi && IsBodyByte(b)
    ensures ControlStep(c, b) == (AfterBodyByte(c, b), Nop)
  {
    assert c.params + "" == c.params && c.inter + "" == c.inter;
  }

  function AfterBody(c: Control, body: seq<Byte>): Control {
    c.(params := c.params + ParamsOf(body), priv := MarkerOf(body, c.priv), inter := c.inter + IntersOf(body))
  }

  lemma AfterBodyCons(c: Control, body: seq<Byte>)
    requires body != [] && IsCsiBody(body)
    ensures AfterBody(AfterBodyByte(c, body[0]), body[1..]) == AfterBody(c, body)
  {
    ConcatAssociative(c.params, ParamOf(body[0]), ParamsOf(body[1..]));
    ConcatAssociative(c.inter, InterOf(body[0]), IntersOf(body[1..]));
  }

  lemma {:induction false} RunBody(c: Control, body: seq<Byte>)
    requires ValidControl(c) && c.mode == Csi && IsCsiBody(body)
    ensures After(c, body) == AfterBody(c, body) && Ops(c, body) == []
    decreases body
  {
    if body != [] {
      BodyByteStep(c, body[0]);
      RunNop(c, body);
      RunBody(AfterBodyByte(c, body[0]), body[1..]);
      AfterBodyCons(c, body);
    } else {
      assert c.params + "" == c.params;
      assert c.inter + "" == c.inter;
    }
  }

  /** The operation a complete sequence stands for. */
  function CsiMeaning(body: seq<Byte>, final: Byte, last: char): Op {
    DispatchOp(MarkerOf(body, ""), CsiParams(ParamsOf(body)), last, final as char)
  }

  /** The two introducer bytes lead into the mode of the sequence. */
  lemma Introduced(c: Control, b: Byte, rest: seq<Byte>, started: Control)
    requires ValidControl(c) && c.mode == Ground && EscStep(c.(mode := Esc), b) == (started, Nop)
    requires ValidControl(started)
    ensures After(c, [ESC, b] + rest) == After(started, rest) && Ops(c, [ESC, b] + rest) == Ops(started, rest)
  {
    RunAppend(c, [ESC, b], rest);
    RunTwo(c, ESC, b);
  }

  lemma CsiEnds(c: Control, body: seq<Byte>, final: Byte)
    requires ValidControl(c) && c.mode == Csi && c.params == "" && c.priv == ""
    requires IsCsiBody(body) && !IsBodyByte(final)
    ensures After(c, body + [final]) == AfterBody(c, body).(mode := Ground)
    ensures Ops(c, body + [final]) == Visible(CsiMeaning(body, final, c.last))
  {
    RunAppend(c, body, [final]);
    RunBody(c, body);
    assert "" + ParamsOf(body) == ParamsOf(body);
    RunOne(AfterBody(c, body), final);
  }

  /** From ground, a whole CSI sequence performs one operation and ends in ground. */
  lemma CsiPerforms(c: Control, body: seq<Byte>, final: Byte)
    requires ValidControl(c) && c.mode == Ground && IsCsiBody(body) && !IsBodyByte(final)
    ensures Performs(c, CsiBytes(body, final), CsiMeaning(body, final, c.last))
  {
    var started := c.(mode := Csi, params := "", priv := "", inter := "");
    assert CsiBytes(body, final) == [ESC, 0x5B] + (body + [final]);
    Introduced(c, 0x5B, body + [final], started);
    CsiEnds(started, body, final);
    DispatchKeepsLast(MarkerOf(body, ""), CsiParams(ParamsOf(body)), c.last, final as char);
  }

  lemma DispatchKeepsLast(priv: string, params: seq<nat>, last: char, final: char)
    requires |params| >= 1
    ensures !DispatchOp(priv, params, last, final).Put?
  {
  }

  // ----- invisible sequences -----

  const EFFECTS: set<char> := {'H', 'f', 'A', 'B', 'C', 'D', 'E', 'F', 'G', '`', 'd', 'J', 'K', 'L', 'M', 'P', 'X',
                               'S', 'T', 'r', 's', 'u', 'b'}

  predicate HasMarker(body: seq<Byte>) { exists i | 0 <= i < |body| :: IsPrivateByte(body[i]) }

  /** CSI sequences with a private marker, SGR ('m'), and final bytes the interpreter does not act on. */
  predicate InvisibleCsi(body: seq<Byte>, final: Byte) {
    IsCsiBody(body) && !IsBodyByte(final) && (HasMarker(body) || final as char !in EFFECTS)
  }

  lemma {:induction false} MarkerIsPrivate(body: seq<Byte>, before: string)
    requires IsMarker(before) || HasMarker(body)
    ensures IsMarker(MarkerOf(body, before))
    decreases body
  {
    if body != [] {
      if !IsPrivateByte(body[0]) && !IsMarker(before) {
        var i :| 0 <= i < |body| && IsPrivateByte(body[i]);
        assert IsPrivateByte(body[1..][i - 1]);
      }
      MarkerIsPrivate(body[1..], if IsPrivateByte(body[0]) then [body[0] as char] else before);
    }
  }

  lemma InvisibleCsiIsNop(body: seq<Byte>, final: Byte, last: char)
    requires InvisibleCsi(body, final)
    ensures CsiMeaning(body, final, last) == Nop
  {
    if HasMarker(body) {
      MarkerIsPrivate(body, "");
    }
  }

  /** An OSC payload: anything but BEL, and no ESC that is followed by a backslash. */
  predicate IsOscBody(body: seq<Byte>)
    decreases |body|
  {
    if body == [] then true
    else if body[0] == ESC then |body| >= 2 && body[1] != 0x5C && IsOscBody(body[2..])
    else body[0] != BEL && IsOscBody(body[1..])
  }

  function OscBytes(body: seq<Byte>, ended: seq<Byte>): seq<Byte> { [ESC, 0x5D] + body + ended }

  lemma {:induction false} RunOscBody(c: Control, body: seq<Byte>)
    requires ValidControl(c) && c.mode == Osc && IsOscBody(body)
    ensures After(c, body) == c.(osc := After(c, body).osc) && Ops(c, body) == []
    decreases |body|
  {
    if body == [] {
    } else if body[0] == ESC {
      assert body == [ESC, body[1]] + body[2..];
      RunAppend(c, [ESC, body[1]], body[2..]);
      RunTwo(c, ESC, body[1]);
      RunOscBody(c.(osc := c.osc + [0x1B, body[1]]), body[2..]);
    } else {
      RunNop(c, body);
      RunOscBody(c.(osc := c.osc + [body[0]]), body[1..]);
    }
  }

  lemma OscEnds(c: Control, ended: seq<Byte>)
    requires ValidControl(c) && c.mode == Osc
    requires ended == [BEL] || ended == [ESC, 0x5C]
    ensures After(c, ended) == c.(mode := Ground) && Ops(c, ended) == []
  {
    if ended == [BEL] {
      RunOne(c, BEL);
    } else {
      RunTwo(c, ESC, 0x5C);
    }
  }

  lemma OscPerforms(c: Control, body: seq<Byte>, ended: seq<Byte>)
    requires ValidControl(c) && c.mode == Ground && IsOscBody(body)
    requires ended == [BEL] || ended == [ESC, 0x5C]
    ensures Performs(c, OscBytes(body, ended), Nop)
  {
    hide Ops, After, ControlStep;
    var started := c.(mode := Osc, osc := []);
    assert OscBytes(body, ended) == [ESC, 0x5D] + (body + ended);
    Introduced(c, 0x5D, body + ended, started);
    RunAppend(started, body, ended);
    RunOscBody(started, body);
    OscEnds(After(started, body), ended);
  }

  ghost predicate Invisible(bytes: seq<Byte>) {
    || (exists body, final :: InvisibleCsi(body, final) && bytes == CsiBytes(body, final))
    || (exists body :: IsOscBody(body) && (bytes == OscBytes(body, [BEL]) || bytes == OscBytes(body, [ESC, 0x5C])))
  }

  lemma InvisiblePerforms(c: Control, bytes: seq<Byte>)
    requires ValidControl(c) && c.mode == Ground && Invisible(bytes)
    ensures Performs(c, bytes, Nop)
  {
    if body, final :| InvisibleCsi(body, final) && bytes == CsiBytes(body, final) {
      CsiPerforms(c, body, final);
      InvisibleCsiIsNop(body, final, c.last);
    } else {
      var body :| IsOscBody(body) && (bytes == OscBytes(body, [BEL]) || bytes == OscBytes(body, [ESC, 0x5C]));
      OscPerforms(c, body, if bytes == OscBytes(body, [BEL]) then [BEL] else [ESC, 0x5C]);
    }
  }

  lemma FeedInvisible(p: Parser, bytes: seq<Byte>)
    requires ValidParser(p) && p.control.mode == Ground && Invisible(bytes)
    ensures Alike(Feed(p, bytes), p)
  {
    InvisiblePerforms(p.control, bytes);
    FeedPerforms(p, bytes, Nop);
  }

  /** A stream in which an invisible sequence follows each visible part. */
  function Interleave(parts: seq<(seq<Byte>, seq<Byte>)>): seq<Byte> {
    if parts == [] then [] else parts[0].0 + (parts[0].1 + Interleave(parts[1..]))
  }

  function VisibleOnly(parts: seq<(seq<Byte>, seq<Byte>)>): seq<Byte> {
    if parts == [] then [] else parts[0].0 + VisibleOnly(parts[1..])
  }

  /** Each insertion point is one where the parser is in ground. */
  ghost predicate InsertedInGround(p: Parser, parts: seq<(seq<Byte>, seq<Byte>)>)
    requires ValidParser(p)
    decreases parts
  {
    parts == [] ||
    (var q := Feed(p, parts[0].0);
     q.control.mode == Ground && Invisible(parts[0].1) && InsertedInGround(q, parts[1..]))
  }

  lemma {:induction false} InvisibleSequencesErasedFrom(p: Parser, p': Parser, parts: seq<(seq<Byte>, seq<Byte>)>)
    requires ValidParser(p) && ValidParser(p') && Alike(p', p) && InsertedInGround(p, parts)
    ensures Alike(Feed(p', Interleave(parts)), Feed(p, VisibleOnly(parts)))
    decreases parts
  {
    if parts != [] {
      var (seen, hidden) := parts[0];
      FeedAppend(p, seen, VisibleOnly(parts[1..]));
      FeedAppend(p', seen, hidden + Interleave(parts[1..]));
      FeedAlike(p', p, seen);
      var (q, q') := (Feed(p, seen), Feed(p', seen));
      FeedAppend(q', hidden, Interleave(parts[1..]));
      FeedInvisible(q', hidden);
      InvisibleSequencesErasedFrom(q, Feed(q', hidden), parts[1..]);
    }
  }

  /**
   SGR, private-marked CSI and OSC sequences inserted anywhere the parser is in
   ground leave the screen unchanged under every continuation.
   */
  lemma InvisibleSequencesErased(p: Parser, parts: seq<(seq<Byte>, seq<Byte>)>, rest: seq<Byte>)
    requires ValidParser(p) && InsertedInGround(p, parts)
    ensures Feed(p, Interleave(parts) + rest).screen == Feed(p, VisibleOnly(parts) + rest).screen
  {
    InvisibleSequencesErasedFrom(p, p, parts);
    FeedAppend(p, Interleave(parts), rest);
    FeedAppend(p, VisibleOnly(parts), rest);
    FeedAlike(Feed(p, Interleave(parts)), Feed(p, VisibleOnly(parts)), rest);
  }

  // ----- the marker that is listed but not collected -----

  const EQUALS: Byte := 0x3D

  predicate AllParamBytes(ps: seq<Byte>) { forall i | 0 <= i < |ps| :: IsParamByte(ps[i]) }

  predicate IsPrintable(bytes: seq<Byte>) { forall i | 0 <= i < |bytes| :: 0x20 <= bytes[i] < 0x7F }

  function Typing(bytes: seq<Byte>): seq<Op> {
    seq(|bytes|, i requires 0 <= i < |bytes| => Put(bytes[i] as char))
  }

  lemma {:induction false} PrintableOps(c: Control, bytes: seq<Byte>)
    requires ValidControl(c) && c.mode == Ground && IsPrintable(bytes)
    ensures Ops(c, bytes) == Typing(bytes)
    decreases bytes
  {
    if bytes != [] {
      PrintableOps(c.(last := bytes[0] as char), bytes[1..]);
      assert Typing(bytes) == [Put(bytes[0] as char)] + Typing(bytes[1..]);
    }
  }

  /** '=' ends the sequence at once, and the rest of it is typed on the screen. */
  lemma EqualsTypesTheRest(c: Control, rest: seq<Byte>)
    requires ValidControl(c) && c.mode == Ground && IsPrintable(rest)
    ensures Ops(c, [ESC, 0x5B, EQUALS] + rest) == Typing(rest)
  {
    hide Ops, After, ControlStep, Typing;
    var head := CsiBytes([], EQUALS);
    assert head == [ESC, 0x5B, EQUALS];
    RunAppend(c, head, rest);
    CsiPerforms(c, [], EQUALS);
    InvisibleCsiIsNop([], EQUALS, c.last);
    OpsAlike(After(c, head), c, rest);
    PrintableOps(c, rest);
  }

  /** For instance `CSI = 5 u`. */
  lemma KittyPushIsTyped(c: Control)
    requires ValidControl(c) && c.mode == Ground
    ensures Ops(c, [ESC, 0x5B, EQUALS, 0x35, 0x75]) == [Put('5'), Put('u')]
  {
    EqualsTypesTheRest(c, [0x35, 0x75]);
    assert [ESC, 0x5B, EQUALS] + [0x35, 0x75] == [ESC, 0x5B, EQUALS, 0x35, 0x75];
    assert Typing([0x35, 0x75]) == [Put('5'), Put('u')];
  }

  /** Of the markers the dispatch lists, exactly '=' does not make the sequence invisible. */
  lemma ListedMarkerInvisibleIff(c: Control, marker: Byte, ps: seq<Byte>, final: Byte)
    requires ValidControl(c) && c.mode == Ground && IsMarker([marker as char])
    requires AllParamBytes(ps) && 0x40 <= final <= 0x7E
    ensures Ops(c, CsiBytes([marker] + ps, final)) == [] <==> marker != EQUALS
  {
    if marker == EQUALS {
      assert CsiBytes([marker] + ps, final) == [ESC, 0x5B, EQUALS] + (ps + [final]);
      EqualsTypesTheRest(c, ps + [final]);
    } else {
      var body := [marker] + ps;
      assert IsPrivateByte(body[0]);
      CsiPerforms(c, body, final);
      InvisibleCsiIsNop(body, final, c.last);
    }
  }

  // ----- parameters -----

  function PrintParam(p: Option<nat>): (s: string)
    ensures IsNumeral(s)
  {
    if p.None? then "" else Digits(p.value)
  }

  function PrintParams(ps: seq<Option<nat>>): (s: string)
    requires |ps| >= 1
    ensures IsParamText(s)
  {
    assert forall i | 0 <= i < |PrintParam(ps[0])| :: IsDigit(PrintParam(ps[0])[i]);
    if |ps| == 1 then PrintParam(ps[0]) else PrintParam(ps[0]) + ";" + PrintParams(ps[1..])
  }

  function Meant(ps: seq<Option<nat>>): seq<nat> {
    seq(|ps|, i requires 0 <= i < |ps| => if ps[i].None? then 1 else ps[i].value)
  }

  lemma SemicolonAt(a: string, b: string)
    requires IsNumeral(a)
    ensures FirstSemicolon(a + ";" + b) == |a|
    ensures FirstSemicolon(a) == |a|
  {
    var s := a + ";" + b;
    assert forall k | 0 <= k < |a| :: s[k] == a[k] && IsDigit(a[k]);
    assert s[|a|] == ';';
    assert forall k | |a| < k <= |s| :: s[..k][|a|] == ';';
  }

  lemma ParamReadBack(p: Option<nat>)
    ensures IsNumeral(PrintParam(p)) && ';' !in PrintParam(p)
    ensures ParamValue(PrintParam(p)) == if p.None? then 1 else p.value
  {
    if p.Some? {
      DigitsReadBack(p.value);
    }
  }

  /** Any list of parameters, empty ones included, reads back with 1 for each empty one. */
  lemma {:induction false} ParamsReadBack(ps: seq<Option<nat>>)
    requires |ps| >= 1
    ensures CsiParams(PrintParams(ps)) == Meant(ps)
    decreases ps
  {
    SplitPrinted(ps);
    if PrintParams(ps) == "" {
      assert Meant(ps) == [1];
    }
  }

  lemma SplitOnce(s: string, first: string, rest: string)
    requires IsNumeral(first) && s == first + ";" + rest && IsParamText(s) && IsParamText(rest)
    ensures IsParamText(first) && ';' !in first
    ensures SplitParams(s) == [ParamValue(first)] + SplitParams(rest)
  {
    SemicolonAt(first, rest);
    assert s[..|first|] == first && s[|first| + 1..] == rest;
  }

  lemma SplitNone(first: string)
    requires IsNumeral(first) && ';' !in first
    ensures IsParamText(first) && SplitParams(first) == [ParamValue(first)]
  {
    SemicolonAt(first, "");
    assert first[..|first|] == first;
  }

  lemma MeantCons(ps: seq<Option<nat>>)
    ensures ps != [] ==> Meant(ps) == [if ps[0].None? then 1 else ps[0].value] + Meant(ps[1..])
  {
  }

  lemma PrintedCons(ps: seq<Option<nat>>)
    requires |ps| >= 2
    ensures SplitParams(PrintParams(ps)) ==
            [if ps[0].None? then 1 else ps[0].value] + SplitParams(PrintParams(ps[1..]))
  {
    var (s, first, rest) := (PrintParams(ps), PrintParam(ps[0]), PrintParams(ps[1..]));
    assert s == first + ";" + rest;
    SplitOnce(s, first, rest);
    ParamReadBack(ps[0]);
  }

  lemma {:induction false} SplitPrinted(ps: seq<Option<nat>>)
    requires |ps| >= 1
    ensures SplitParams(PrintParams(ps)) == Meant(ps)
    decreases ps
  {
    MeantCons(ps);
    if |ps| == 1 {
      ParamReadBack(ps[0]);
      SplitNone(PrintParam(ps[0]));
    } else {
      PrintedCons(ps);
      SplitPrinted(ps[1..]);
    }
  }

  function ParamTextBytes(s: string): (bytes: seq<Byte>)
    requires IsParamText(s)
  {
    seq(|s|, i requires 0 <= i < |s| => assert IsParamChar(s[i]); s[i] as int)
  }

  lemma {:induction false} ParamBytes(s: string)
    requires IsParamText(s)
    ensures var bytes := ParamTextBytes(s);
            IsCsiBody(bytes) && ParamsOf(bytes) == s && MarkerOf(bytes, "") == ""
    decreases s
  {
    if s != "" {
      assert ParamTextBytes(s)[1..] == ParamTextBytes(s[1..]);
      ParamBytes(s[1..]);
      assert IsParamChar(s[0]);
      assert [s[0]] + s[1..] == s;
    } else {
      assert ParamTextBytes(s) == [];
    }
  }

  // ----- printing operations -----

  datatype Printout = Printout(params: seq<Option<nat>>, final: char)

  /** The control function of ECMA-48 section 8.3 (and the REP, SCP, RCP, DECSTBM forms) for an operation. */
  function Printed(op: Op, last: char): (r: Option<Printout>)
    ensures r.Some? ==> |r.value.params| >= 1 && r.value.final as int < 256
  {
    match op
    case MoveTo(r, c) => Some(Printout([Some(r), Some(c)], 'H'))
    case Up(n) => Some(Printout([Some(n)], 'A'))
    case Down(n) => Some(Printout([Some(n)], 'B'))
    case Right(n) => Some(Printout([Some(n)], 'C'))
    case Left(n) => Some(Printout([Some(n)], 'D'))
    case NextLine(n) => Some(Printout([Some(n)], 'E'))
    case PreviousLine(n) => Some(Printout([Some(n)], 'F'))
    case Column(n) => Some(Printout([Some(n)], 'G'))
    case Line(n) => Some(Printout([Some(n)], 'd'))
    case ClearDisplay(m) => Some(Printout([Some(m)], 'J'))
    case ClearLine(m) => Some(Printout([Some(m)], 'K'))
    case AddLines(n) => Some(Printout([Some(n)], 'L'))
    case DropLines(n) => Some(Printout([Some(n)], 'M'))
    case DropChars(n) => Some(Printout([Some(n)], 'P'))
    case ClearChars(n) => Some(Printout([Some(n)], 'X'))
    case RollUp(n) => Some(Printout([Some(n)], 'S'))
    case RollDown(n) => Some(Printout([Some(n)], 'T'))
    case Margins(first, None) => Some(Printout([Some(first)], 'r'))
    case Margins(first, Some(end)) => Some(Printout([Some(first), Some(end)], 'r'))
    case Save => Some(Printout([None], 's'))
    case Restore => Some(Printout([None], 'u'))
    case Repeat(n, c) => if c == last then Some(Printout([Some(n)], 'b')) else None
    case _ => None
  }

  function PrintoutBytes(p: Printout): seq<Byte>
    requires |p.params| >= 1 && p.final as int < 256
  {
    CsiBytes(ParamTextBytes(PrintParams(p.params)), p.final as int)
  }

  /** The bytes that ask for an operation, when there are any. */
  function OpBytes(op: Op, last: char): Option<seq<Byte>> {
    match op
    case Put(c) => if IsTextual(c) then Some(EncodeChar(c)) else None
    case LineFeed => Some([0x0A])
    case CarriageReturn => Some([0x0D])
    case Backspace => Some([0x08])
    case Tab => Some([0x09])
    case NewLine => Some([ESC, 0x45])
    case Reverse => Some([ESC, 0x4D])
    case _ =>
      var printed := Printed(op, last);
      if printed.None? then None else
      Some(PrintoutBytes(printed.value))
  }

  lemma DispatchPrinted(op: Op, last: char)
    requires Printed(op, last).Some?
    ensures var p := Printed(op, last).value;
            DispatchOp("", Meant(p.params), last, p.final) == op && !IsBodyByte(p.final as int)
  {
  }

  lemma PrintoutPerforms(c: Control, out: Printout)
    requires ValidControl(c) && c.mode == Ground
    requires |out.params| >= 1 && out.final as int < 256 && !IsBodyByte(out.final as int)
    ensures Performs(c, PrintoutBytes(out), DispatchOp("", Meant(out.params), c.last, out.final))
  {
    var text := PrintParams(out.params);
    ParamsReadBack(out.params);
    ParamBytes(text);
    CsiPerforms(c, ParamTextBytes(text), out.final as int);
  }

  lemma EscapePerforms(c: Control, b: Byte, op: Op)
    requires ValidControl(c) && c.mode == Ground && !op.Put?
    requires EscStep(c.(mode := Esc), b) == (c, op)
    ensures Performs(c, [ESC, b], op)
  {
    RunTwo(c, ESC, b);
  }

  /** Printing an operation and feeding it performs that operation and returns to ground. */
  lemma OpPerforms(c: Control, op: Op)
    requires ValidControl(c) && c.mode == Ground && OpBytes(op, c.last).Some?
    ensures Performs(c, OpBytes(op, c.last).value, op)
  {
    if op.Put? {
      CharPerforms(c, op.ch);
    } else if op.LineFeed? {
      RunOne(c, 0x0A);
    } else if op.CarriageReturn? {
      RunOne(c, 0x0D);
    } else if op.Backspace? {
      RunOne(c, 0x08);
    } else if op.Tab? {
      RunOne(c, 0x09);
    } else if op.NewLine? {
      EscapePerforms(c, 0x45, op);
    } else if op.Reverse? {
      EscapePerforms(c, 0x4D, op);
    } else {
      DispatchPrinted(op, c.last);
      PrintoutPerforms(c, Printed(op, c.last).value);
    }
  }

  /** A drawing program: the bytes of its operations one after another. */
  function ProgramBytes(ops: seq<Op>, last: char): Option<seq<Byte>>
    decreases ops
  {
    if ops == [] then Some([]) else
    var first := OpBytes(ops[0], last);
    var rest := ProgramBytes(ops[1..], LastAfter(ops[0], last));
    if first.Some? && rest.Some? then Some(first.value + rest.value) else None
  }

  function StrictRun(g: State, ops: seq<Op>): (t: State)
    requires Exact(g)
    ensures Exact(t)
    decreases ops
  {
    if ops == [] then g else StrictRun(StrictApply(g, ops[0]), ops[1..])
  }

  /**
   Feeding the bytes of any drawing program shows what the strict screen shows
   after performing its operations one by one.
   */
  lemma {:induction false} ProgramRuns(p: Parser, ops: seq<Op>)
    requires ValidParser(p) && p.control.mode == Ground && ProgramBytes(ops, p.control.last).Some?
    ensures var q := Feed(p, ProgramBytes(ops, p.control.last).value);
            Cut(q.screen) == StrictRun(Cut(p.screen), ops) && q.control.mode == Ground
    decreases ops
  {
    if ops != [] {
      var last := p.control.last;
      var first := OpBytes(ops[0], last).value;
      var rest := ProgramBytes(ops[1..], LastAfter(ops[0], last)).value;
      FeedAppend(p, first, rest);
      OpPerforms(p.control, ops[0]);
      FeedPerforms(p, first, ops[0]);
      ApplyRefines(p.screen, ops[0]);
      var q := AfterOp(p, ops[0]);
      FeedAlike(Feed(p, first), q, rest);
      ProgramRuns(q, ops[1..]);
    }
  }

  /** A full row followed by `CSI 1 K`: two columns, three cells. */
  lemma FullRowGrows(table: Unicode)
    ensures var bytes := EncodeText("ab") + OpBytes(ClearLine(1), 'b').value;
            |Feed(Start(table, 1, 2), bytes).screen.grid[0]| == 3
  {
    hide Feed, Apply, OpBytes, PutChar;
    EraseIsPrinted(1, 'b');
    var p := Start(table, 1, 2);
    var erase := OpBytes(ClearLine(1), 'b').value;
    var full := Typed(p, "ab");
    FullRow(p);
    FeedAppend(p, EncodeText("ab"), erase);
    FeedText(p, "ab");
    FeedAlike(Feed(p, EncodeText("ab")), full, erase);
    OpPerforms(full.control, ClearLine(1));
    FeedPerforms(full, erase, ClearLine(1));
    StaysExactIff(full.screen, ClearLine(1));
    ApplyValid(full.screen, ClearLine(1));
  }

  lemma EraseIsPrinted(mode: nat, last: char)
    ensures OpBytes(ClearLine(mode), last).Some?
  {
  }

  lemma FullRow(p: Parser)
    requires ValidParser(p) && Exact(p.screen) && p.screen.col == 0 && p.screen.cols == 2
    ensures var q := Typed(p, "ab"); Exact(q.screen) && q.screen.col == 2 && q.control == p.control.(last := 'b')
    ensures SameSize(p.screen, Typed(p, "ab").screen)
  {
    hide PutChar;
    var s := PutChar(p.screen, 'a');
    assert "ab"[1..] == "b" && "b"[1..] == "";
    PutAdvances(p.screen, 'a');
    PutAdvances(s, 'b');
    PutCharStaysExact(p.screen, 'a');
    PutCharStaysExact(s, 'b');
    assert PutText(s, "b") == PutText(PutChar(s, 'b'), "") == PutChar(s, 'b');
  }

  // ----- the default parameter -----

  function EraseOp(final: char, mode: nat): Op {
    if final == 'K' then ClearLine(mode) else ClearDisplay(mode)
  }

  lemma BareEraseMeans(final: char, last: char)
    requires final == 'K' || final == 'J'
    ensures CsiMeaning([], final as int, last) == EraseOp(final, 1)
  {
    assert ParamsOf([]) == "" && MarkerOf([], "") == "" && CsiParams("") == [1];
  }

  /** An erase without a parameter runs mode 1, where ECMA-48 (8.3.39, 8.3.41) has mode 0. */
  lemma BareEraseIsModeOne(p: Parser, final: char)
    requires ValidParser(p) && p.control.mode == Ground && (final == 'K' || final == 'J')
    ensures Alike(Feed(p, CsiBytes([], final as int)), AfterOp(p, EraseOp(final, 1)))
  {
    hide Apply, Feed;
    BareEraseMeans(final, p.control.last);
    CsiPerforms(p.control, [], final as int);
    FeedPerforms(p, CsiBytes([], final as int), EraseOp(final, 1));
  }

  /** Everything the two modes erase, except the cell under the cursor that both erase, is blank already. */
  predicate NothingToErase(g: State, display: bool)
    requires Exact(g)
  {
    forall r, c | 0 <= r < g.rows && 0 <= c < g.cols && (display || r == g.row) && (r, c) != (g.row, g.col) ::
      g.grid[r][c] == BLANK
  }

  lemma ErasesAgreeIff(g: State, display: bool)
    requires Exact(g)
    ensures Redraw(g, Erase(1, display)) == Redraw(g, Erase(0, display)) <==> NothingToErase(g, display)
  {
    var (one, zero) := (Redraw(g, Erase(1, display)), Redraw(g, Erase(0, display)));
    if NothingToErase(g, display) {
      SameCells(one, zero);
    } else if one == zero {
      forall r, c | 0 <= r < g.rows && 0 <= c < g.cols && (display || r == g.row) && (r, c) != (g.row, g.col)
        ensures g.grid[r][c] == BLANK
      {
        assert one.grid[r][c] == zero.grid[r][c];
      }
    }
  }

  lemma ZeroEraseShows(p: Parser, final: char)
    requires ValidParser(p) && p.control.mode == Ground && (final == 'K' || final == 'J')
    ensures OpBytes(EraseOp(final, 0), p.control.last).Some?
    ensures Cut(Feed(p, OpBytes(EraseOp(final, 0), p.control.last).value).screen) ==
            StrictApply(Cut(p.screen), EraseOp(final, 0))
  {
    hide Apply, Feed, StrictApply, Ops, After;
    OpPerforms(p.control, EraseOp(final, 0));
    FeedPerforms(p, OpBytes(EraseOp(final, 0), p.control.last).value, EraseOp(final, 0));
    ApplyRefines(p.screen, EraseOp(final, 0));
  }

  lemma BareEraseShows(p: Parser, final: char)
    requires ValidParser(p) && p.control.mode == Ground && (final == 'K' || final == 'J')
    ensures Cut(Feed(p, CsiBytes([], final as int)).screen) == StrictApply(Cut(p.screen), EraseOp(final, 1))
  {
    hide Apply, Feed, StrictApply;
    BareEraseIsModeOne(p, final);
    ApplyRefines(p.screen, EraseOp(final, 1));
  }

  lemma StrictErase(g: State, final: char, mode: nat)
    requires Exact(g) && (final == 'K' || final == 'J')
    ensures StrictApply(g, EraseOp(final, mode)) == Redraw(g, Erase(mode, final == 'J'))
  {
  }

  /** The bare form and the explicit mode 0 show the same screen exactly when there is nothing to erase. */
  lemma BareEraseIsStandardIff(p: Parser, final: char)
    requires ValidParser(p) && p.control.mode == Ground && (final == 'K' || final == 'J')
    ensures var standard := OpBytes(EraseOp(final, 0), p.control.last).value;
            Cut(Feed(p, CsiBytes([], final as int)).screen) == Cut(Feed(p, standard).screen) <==>
            NothingToErase(Cut(p.screen), final == 'J')
  {
    hide Feed, NothingToErase, OpBytes, CsiBytes, StrictApply, Redraw, Cut;
    BareEraseShows(p, final);
    ZeroEraseShows(p, final);
    StrictErase(Cut(p.screen), final, 1);
    StrictErase(Cut(p.screen), final, 0);
    ErasesAgreeIff(Cut(p.screen), final == 'J');
  }
}
