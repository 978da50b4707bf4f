/**
 The catalog code generator on source text: the lines it writes, a parser for
 them, and the proof that the parser finds the statements again.  Quoted
 arguments may hold commas, brackets and newlines.
 */
module CatalogSource {
  import opened Prelude
  import opened Decimal
  import opened CatalogText
  import opened CatalogEmit

  // ----- values inside fixed text -----

  /** A value is a quoted literal, a number, or a word (a variable name or a truth value). */
  datatype Kind = Quoted | Number | Word

  predicate IsNumberChar(c: char) { IsDigit(c) || c == '.' || c == '-' }

  predicate IsWordChar(c: char) { IsDigit(c) || 'a' <= c <= 'z' }

  predicate InKind(kind: Kind, c: char) { if kind.Number? then IsNumberChar(c) else IsWordChar(c) }

  predicate AllIn(kind: Kind, s: string) { forall i | 0 <= i < |s| :: InKind(kind, s[i]) }

  /** How many characters at the front are of the kind. */
  function Span(kind: Kind, text: string): (n: nat)
    ensures n <= |text|
  {
    if text == "" || !InKind(kind, text[0]) then 0 else 1 + Span(kind, text[1..])
  }

  /** How long the value at the front of the text is. */
  function Extent(kind: Kind, text: string): (r: Option<nat>)
    ensures r.Some? ==> r.value <= |text|
  {
    if kind != Quoted then Some(Span(kind, text)) else
    var r := ReadString(text);
    if r.Some? && |r.value.1| <= |text| then Some(|text| - |r.value.1|) else None
  }

  /** A value with the fixed text before and after it. */
  datatype Slot = Slot(before: string, kind: Kind, after: string)

  function ReadSlot(slot: Slot, text: string): (r: Option<(string, string)>)
    ensures r.Some? ==> |r.value.1| + |slot.before| <= |text|
  {
    if !(slot.before <= text) then None else
    var t := text[|slot.before|..];
    var n := Extent(slot.kind, t);
    if n.None? || !(slot.after <= t[n.value..]) then None
    else Some((t[..n.value], t[n.value..][|slot.after|..]))
  }

  function ReadSlots(slots: seq<Slot>, text: string): (r: Option<(seq<string>, string)>)
    ensures r.Some? ==> |r.value.0| == |slots| && |r.value.1| <= |text|
  {
    if slots == [] then Some(([], text)) else
    var first := ReadSlot(slots[0], text);
    if first.None? then None else
    var more := ReadSlots(slots[1..], first.value.1);
    if more.None? then None else Some(([first.value.0] + more.value.0, more.value.1))
  }

  function PrintSlots(slots: seq<Slot>, values: seq<string>): string {
    if slots == [] || values == [] then ""
    else slots[0].before + (values[0] + (slots[0].after + PrintSlots(slots[1..], values[1..])))
  }

  lemma PrintCons(slots: seq<Slot>, values: seq<string>, k: nat)
    requires |slots| == |values| && k < |slots|
    ensures PrintSlots(slots[k..], values[k..]) ==
            slots[k].before + (values[k] + (slots[k].after + PrintSlots(slots[k + 1..], values[k + 1..])))
    ensures PrintSlots(slots[|slots|..], values[|slots|..]) == ""
  {
    assert slots[k..][1..] == slots[k + 1..] && values[k..][1..] == values[k + 1..];
  }

  /** Numbers and words must be followed by something else. */
  predicate Closed(slot: Slot) { slot.kind == Quoted || (slot.after != "" && !InKind(slot.kind, slot.after[0])) }

  ghost predicate IsLiteral(s: string) { exists value :: s == NatString(value) }

  ghost predicate Suits(kind: Kind, value: string) { if kind == Quoted then IsLiteral(value) else AllIn(kind, value) }

  lemma {:induction false} SpanStops(kind: Kind, value: string, rest: string)
    requires AllIn(kind, value) && rest != "" && !InKind(kind, rest[0])
    ensures Span(kind, value + rest) == |value|
    decreases value
  {
    if value == "" {
      assert value + rest == rest;
    } else {
      assert (value + rest)[1..] == value[1..] + rest;
      SpanStops(kind, value[1..], rest);
    }
  }

  lemma ExtentStops(slot: Slot, value: string, rest: string)
    requires Suits(slot.kind, value) && Closed(slot)
    ensures Extent(slot.kind, value + (slot.after + rest)) == Some(|value|)
  {
    if slot.kind == Quoted {
      var v :| value == NatString(v);
      StringReadsBack(v, slot.after + rest);
    } else {
      assert (slot.after + rest)[0] == slot.after[0];
      SpanStops(slot.kind, value, slot.after + rest);
    }
  }

  lemma SlotReadsBack(slot: Slot, value: string, rest: string)
    requires Suits(slot.kind, value) && Closed(slot)
    ensures ReadSlot(slot, slot.before + (value + (slot.after + rest))) == Some((value, rest))
  {
    hide Extent, Suits;
    var text := slot.before + (value + (slot.after + rest));
    assert text[|slot.before|..] == value + (slot.after + rest);
    ExtentStops(slot, value, rest);
    assert (value + (slot.after + rest))[|value|..] == slot.after + rest;
    assert (slot.after + rest)[|slot.after|..] == rest;
  }

  ghost predicate AllSuit(slots: seq<Slot>, values: seq<string>) {
    |slots| == |values| && forall i | 0 <= i < |slots| :: Closed(slots[i]) && Suits(slots[i].kind, values[i])
  }

  lemma {:induction false} SlotsReadBack(slots: seq<Slot>, values: seq<string>, rest: string)
    requires AllSuit(slots, values)
    ensures ReadSlots(slots, PrintSlots(slots, values) + rest) == Some((values, rest))
    decreases slots
  {
    hide ReadSlot, Suits, Closed;
    if slots == [] {
      assert PrintSlots(slots, values) + rest == rest;
    } else {
      var (slot, value) := (slots[0], values[0]);
      var more := PrintSlots(slots[1..], values[1..]);
      assert PrintSlots(slots, values) + rest == slot.before + (value + (slot.after + (more + rest)));
      SlotReadsBack(slot, value, more + rest);
      SlotsReadBack(slots[1..], values[1..], rest);
      assert [value] + values[1..] == values;
    }
  }

  /** Python's `sep.join(parts)`. */
  function Join(sep: string, parts: seq<string>): string {
    if parts == [] then ""
    else if |parts| == 1 then parts[0]
    else parts[0] + (sep + Join(sep, parts[1..]))
  }

  // ----- arguments -----

  const COMMA := ", "

  /** The arguments of `build` up to the tiers. */
  const ARGUMENTS: seq<Slot> := [
    Slot("", Quoted, COMMA), Slot("", Quoted, COMMA), Slot("", Quoted, COMMA), Slot("", Quoted, COMMA),
    Slot("", Quoted, COMMA), Slot("", Word, COMMA), Slot("", Number, COMMA), Slot("", Number, COMMA),
    Slot("", Number, COMMA), Slot("", Number, COMMA), Slot("", Number, COMMA), Slot("", Number, COMMA)
  ]

  function Arguments(b: BuildText): seq<string> {
    [b.names.id, b.names.name, b.names.api, b.names.provider, b.names.baseUrl,
     b.reasoning, b.contextWindow, b.maxTokens,
     b.prices.input, b.prices.output, b.prices.cacheRead, b.prices.cacheWrite]
  }

  function FromArguments(a: seq<string>, tiers: seq<TierText>): BuildText
    requires |a| == |ARGUMENTS|
  {
    BuildText(Names(a[0], a[1], a[2], a[3], a[4]), a[5], a[6], a[7], PricesText(a[8], a[9], a[10], a[11]), tiers)
  }

  /** The format string of a tier. */
  const TIER: seq<Slot> := [
    Slot("types.cost_tier_t {input_tokens_above: ", Number, ", input: "), Slot("", Number, ", output: "),
    Slot("", Number, ", cache_read: "), Slot("", Number, ", cache_write: "), Slot("", Number, ",}")
  ]

  function TierValues(t: TierText): seq<string> {
    [t.above, t.prices.input, t.prices.output, t.prices.cacheRead, t.prices.cacheWrite]
  }

  function FromTierValues(a: seq<string>): TierText
    requires |a| == |TIER|
  {
    TierText(a[0], PricesText(a[1], a[2], a[3], a[4]))
  }

  /** The tiers after the opening bracket. */
  function TiersSource(tiers: seq<TierText>): string {
    if tiers == [] then "]"
    else PrintSlots(TIER, TierValues(tiers[0])) + (if |tiers| == 1 then "]" else COMMA + TiersSource(tiers[1..]))
  }

  function ReadTierList(text: string): (r: Option<(seq<TierText>, string)>)
    ensures r.Some? ==> |r.value.1| <= |text|
    decreases |text|
  {
    if "]" <= text then Some(([], text[1..])) else
    var first := ReadSlots(TIER, text);
    if first.None? then None else
    var (tier, rest) := (FromTierValues(first.value.0), first.value.1);
    if "]" <= rest then Some(([tier], rest[1..]))
    else if !(COMMA <= rest) then None else
    var more := ReadTierList(rest[|COMMA|..]);
    if more.None? then None else Some(([tier] + more.value.0, more.value.1))
  }

  function BuildSource(b: BuildText): string { PrintSlots(ARGUMENTS, Arguments(b)) + ("[" + TiersSource(b.tiers)) }

  function ReadBuild(text: string): (r: Option<(BuildText, string)>)
    ensures r.Some? ==> |r.value.1| <= |text|
  {
    var a := ReadSlots(ARGUMENTS, text);
    if a.None? || !("[" <= a.value.1) then None else
    var tiers := ReadTierList(a.value.1[1..]);
    if tiers.None? then None else Some((FromArguments(a.value.0, tiers.value.0), tiers.value.1))
  }

  ghost predicate IsNumberText(s: string) { AllIn(Number, s) }

  ghost predicate PricesPrinted(p: PricesText) {
    IsNumberText(p.input) && IsNumberText(p.output) && IsNumberText(p.cacheRead) && IsNumberText(p.cacheWrite)
  }

  ghost predicate TierPrinted(t: TierText) { IsNumberText(t.above) && PricesPrinted(t.prices) }

  ghost predicate BuildPrinted(b: BuildText) {
    && IsLiteral(b.names.id) && IsLiteral(b.names.name) && IsLiteral(b.names.api)
    && IsLiteral(b.names.provider) && IsLiteral(b.names.baseUrl)
    && AllIn(Word, b.reasoning) && IsNumberText(b.contextWindow) && IsNumberText(b.maxTokens)
    && PricesPrinted(b.prices) && forall i | 0 <= i < |b.tiers| :: TierPrinted(b.tiers[i])
  }

  lemma TierReadsBack(t: TierText, rest: string)
    requires TierPrinted(t)
    ensures ReadSlots(TIER, PrintSlots(TIER, TierValues(t)) + rest) == Some((TierValues(t), rest))
    ensures !("]" <= PrintSlots(TIER, TierValues(t)) + rest)
  {
    hide ReadSlots, AllIn;
    SlotsReadBack(TIER, TierValues(t), rest);
    assert (PrintSlots(TIER, TierValues(t)) + rest)[0] == 't';
  }

  lemma {:induction false} TierListReadsBack(tiers: seq<TierText>, rest: string)
    requires forall i | 0 <= i < |tiers| :: TierPrinted(tiers[i])
    ensures ReadTierList(TiersSource(tiers) + rest) == Some((tiers, rest))
    decreases tiers
  {
    hide ReadSlots, PrintSlots, TierPrinted;
    var text := TiersSource(tiers) + rest;
    if tiers == [] {
      assert text[1..] == rest;
    } else {
      var more := if |tiers| == 1 then "]" else COMMA + TiersSource(tiers[1..]);
      assert text == PrintSlots(TIER, TierValues(tiers[0])) + (more + rest);
      TierReadsBack(tiers[0], more + rest);
      assert FromTierValues(TierValues(tiers[0])) == tiers[0];
      if |tiers| == 1 {
        assert (more + rest)[1..] == rest;
        assert [tiers[0]] == tiers;
      } else {
        assert (more + rest)[0] == ',';
        assert (more + rest)[|COMMA|..] == TiersSource(tiers[1..]) + rest;
        TierListReadsBack(tiers[1..], rest);
        assert [tiers[0]] + tiers[1..] == tiers;
      }
    }
  }

  lemma ArgumentsReadBack(b: BuildText, rest: string)
    requires BuildPrinted(b)
    ensures ReadSlots(ARGUMENTS, PrintSlots(ARGUMENTS, Arguments(b)) + rest) == Some((Arguments(b), rest))
  {
    hide ReadSlots, PrintSlots, AllIn, IsLiteral;
    SlotsReadBack(ARGUMENTS, Arguments(b), rest);
  }

  lemma BuildSourceReadsBack(b: BuildText, rest: string)
    requires BuildPrinted(b)
    ensures ReadBuild(BuildSource(b) + rest) == Some((b, rest))
  {
    hide ReadSlots, PrintSlots, ReadTierList, TiersSource, AllIn, IsLiteral;
    var tail := "[" + (TiersSource(b.tiers) + rest);
    assert BuildSource(b) + rest == PrintSlots(ARGUMENTS, Arguments(b)) + tail;
    ArgumentsReadBack(b, tail);
    assert tail[1..] == TiersSource(b.tiers) + rest;
    TierListReadsBack(b.tiers, rest);
  }

  // ----- statements -----

  const BUILD := "model_builder.build("
  const PUSH := "    result.push("
  const VAR: Slot := Slot("    var ", Word, " = model_builder.build(")
  const PUSHED: Slot := Slot("    result.push(", Word, ")")
  const THINKING: seq<Slot> :=
    [Slot("    ", Word, ".thinking_level_map["), Slot("", Quoted, "] = "), Slot("", Quoted, "")]
  const HEADER: seq<Slot> := [Slot("    ", Word, ".headers["), Slot("", Quoted, "] = "), Slot("", Quoted, "")]

  function StmtSource(stmt: Stmt): string {
    match stmt
    case PushBuilt(b) => PUSH + (BUILD + (BuildSource(b) + "))"))
    case Declare(name, b) => VAR.before + (name + (VAR.after + (BuildSource(b) + ")")))
    case SetThinking(name, k, v) => PrintSlots(THINKING, [name, k, v])
    case SetHeader(name, k, v) => PrintSlots(HEADER, [name, k, v])
    case PushVar(name) => PUSHED.before + (name + PUSHED.after)
  }

  function ReadStmt(text: string): (r: Option<(Stmt, string)>)
    ensures r.Some? ==> |r.value.1| < |text|
  {
    if PUSH + BUILD <= text then ReadPushBuilt(text)
    else if PUSH <= text then
      var r := ReadSlot(PUSHED, text);
      if r.None? then None else Some((PushVar(r.value.0), r.value.1))
    else if VAR.before <= text then ReadDeclare(text)
    else ReadAssignment(text)
  }

  function ReadPushBuilt(text: string): (r: Option<(Stmt, string)>)
    ensures r.Some? ==> |r.value.1| < |text|
  {
    if !(PUSH + BUILD <= text) then None else
    var b := ReadBuild(text[|PUSH + BUILD|..]);
    if b.None? || !("))" <= b.value.1) then None else Some((PushBuilt(b.value.0), b.value.1[2..]))
  }

  function ReadDeclare(text: string): (r: Option<(Stmt, string)>)
    ensures r.Some? ==> |r.value.1| < |text|
  {
    var name := ReadSlot(VAR, text);
    if name.None? then None else
    var b := ReadBuild(name.value.1);
    if b.None? || !(")" <= b.value.1) then None else Some((Declare(name.value.0, b.value.0), b.value.1[1..]))
  }

  function ReadAssignment(text: string): (r: Option<(Stmt, string)>)
    ensures r.Some? ==> |r.value.1| < |text|
  {
    if text == "" then None else
    var thinking := ReadSlots(THINKING, text);
    if thinking.Some? && |thinking.value.1| < |text| then
      Some((SetThinking(thinking.value.0[0], thinking.value.0[1], thinking.value.0[2]), thinking.value.1)) else
    var header := ReadSlots(HEADER, text);
    if header.Some? && |header.value.1| < |text| then
      Some((SetHeader(header.value.0[0], header.value.0[1], header.value.0[2]), header.value.1))
    else None
  }

  /** m followed by digits. */
  predicate IsVariableName(name: string) { |name| >= 2 && name[0] == 'm' && IsNumeral(name[1..]) }

  ghost predicate StmtPrinted(stmt: Stmt) {
    match stmt
    case PushBuilt(b) => BuildPrinted(b)
    case Declare(name, b) => IsVariableName(name) && BuildPrinted(b)
    case SetThinking(name, k, v) => IsVariableName(name) && IsLiteral(k) && IsLiteral(v)
    case SetHeader(name, k, v) => IsVariableName(name) && IsLiteral(k) && IsLiteral(v)
    case PushVar(name) => IsVariableName(name)
  }

  lemma NameIsWord(name: string)
    requires IsVariableName(name)
    ensures AllIn(Word, name)
  {
    forall i | 0 <= i < |name| ensures IsWordChar(name[i]) {
      assert i > 0 ==> IsDigit(name[1..][i - 1]);
    }
  }

  lemma PushBuiltReadsBack(b: BuildText, rest: string)
    requires BuildPrinted(b)
    ensures ReadStmt(StmtSource(PushBuilt(b)) + rest) == Some((PushBuilt(b), rest))
  {
    hide ReadBuild, BuildSource, BuildPrinted;
    var text := StmtSource(PushBuilt(b)) + rest;
    var tail := "))" + rest;
    assert text == (PUSH + BUILD) + (BuildSource(b) + tail);
    assert text[|PUSH + BUILD|..] == BuildSource(b) + tail;
    BuildSourceReadsBack(b, tail);
    assert tail[2..] == rest;
  }

  lemma DeclareReadsBack(name: string, b: BuildText, rest: string)
    requires IsVariableName(name) && BuildPrinted(b)
    ensures ReadStmt(StmtSource(Declare(name, b)) + rest) == Some((Declare(name, b), rest))
  {
    hide ReadBuild, BuildSource, BuildPrinted, ReadSlot, ReadDeclare, IsVariableName;
    var text := VAR.before + (name + (VAR.after + (BuildSource(b) + (")" + rest))));
    assert StmtSource(Declare(name, b)) + rest == text;
    assert text[4] == 'v' && PUSH[4] == 'r' && (PUSH + BUILD)[4] == 'r';
    DeclarationReadsBack(name, b, rest);
  }

  lemma DeclarationReadsBack(name: string, b: BuildText, rest: string)
    requires IsVariableName(name) && BuildPrinted(b)
    ensures ReadDeclare(VAR.before + (name + (VAR.after + (BuildSource(b) + (")" + rest))))) ==
            Some((Declare(name, b), rest))
  {
    hide ReadBuild, BuildSource, BuildPrinted, ReadSlot, IsVariableName;
    NameIsWord(name);
    SlotReadsBack(VAR, name, BuildSource(b) + (")" + rest));
    BuildSourceReadsBack(b, ")" + rest);
    assert (")" + rest)[1..] == rest;
  }

  lemma PushVarReadsBack(name: string, rest: string)
    requires IsVariableName(name)
    ensures ReadStmt(StmtSource(PushVar(name)) + rest) == Some((PushVar(name), rest))
  {
    hide ReadSlot;
    var text := StmtSource(PushVar(name)) + rest;
    assert text == PUSHED.before + (name + (PUSHED.after + rest));
    var k := |PUSH| + 1;
    assert text[k] == name[1] == name[1..][0] && (PUSH + BUILD)[k] == 'o';
    NameIsWord(name);
    SlotReadsBack(PUSHED, name, rest);
  }

  lemma AssignmentReadsBack(stmt: Stmt, rest: string)
    requires (stmt.SetThinking? || stmt.SetHeader?) && StmtPrinted(stmt)
    ensures ReadStmt(StmtSource(stmt) + rest) == Some((stmt, rest))
  {
    hide ReadSlot, ReadSlots, PrintSlots, IsLiteral;
    var slots := if stmt.SetThinking? then THINKING else HEADER;
    var values := [stmt.name, stmt.key, stmt.value];
    var text := StmtSource(stmt) + rest;
    assert text == PrintSlots(slots, values) + rest;
    AssignmentStarts(slots, values);
    assert text[4] == 'm' && PUSH[4] == 'r' && (PUSH + BUILD)[4] == 'r' && VAR.before[4] == 'v';
    NameIsWord(stmt.name);
    SlotsReadBack(slots, values, rest);
    if stmt.SetHeader? {
      HeaderIsNotThinking(values, rest);
    }
  }

  lemma AssignmentStarts(slots: seq<Slot>, values: seq<string>)
    requires (slots == THINKING || slots == HEADER) && |values| == 3 && IsVariableName(values[0])
    ensures |PrintSlots(slots, values)| > 4 && PrintSlots(slots, values)[4] == 'm'
  {
    PrintCons(slots, values, 0);
    assert slots[0..] == slots && values[0..] == values;
  }

  lemma HeaderIsNotThinking(values: seq<string>, rest: string)
    requires |values| == 3 && IsVariableName(values[0])
    ensures ReadSlots(THINKING, PrintSlots(HEADER, values) + rest).None?
  {
    hide PrintSlots, Extent;
    var tail := PrintSlots(HEADER[1..], values[1..]) + rest;
    var text := PrintSlots(HEADER, values) + rest;
    PrintCons(HEADER, values, 0);
    assert HEADER[0..] == HEADER && values[0..] == values;
    assert text == "    " + (values[0] + (".headers[" + tail));
    assert text[4..] == values[0] + (".headers[" + tail);
    NameIsWord(values[0]);
    ExtentStops(HEADER[0], values[0], tail);
    assert text[4..][|values[0]|..] == ".headers[" + tail;
    assert (".headers[" + tail)[1] == 'h' && THINKING[0].after[1] == 't';
  }

  lemma StmtReadsBack(stmt: Stmt, rest: string)
    requires StmtPrinted(stmt)
    ensures ReadStmt(StmtSource(stmt) + rest) == Some((stmt, rest))
  {
    hide ReadStmt, StmtSource, BuildPrinted, IsLiteral;
    match stmt {
      case PushBuilt(b) => PushBuiltReadsBack(b, rest);
      case Declare(name, b) => DeclareReadsBack(name, b, rest);
      case PushVar(name) => PushVarReadsBack(name, rest);
      case _ => AssignmentReadsBack(stmt, rest);
    }
  }

  // ----- programs -----

  function Sources(stmts: seq<Stmt>): (lines: seq<string>)
    ensures |lines| == |stmts|
  {
    seq(|stmts|, i requires 0 <= i < |stmts| => StmtSource(stmts[i]))
  }

  function ProgramSource(stmts: seq<Stmt>): string { Join("\n", Sources(stmts)) }

  function ReadProgram(text: string): Option<seq<Stmt>>
    decreases |text|
  {
    if text == "" then Some([]) else
    var first := ReadStmt(text);
    if first.None? then None
    else if first.value.1 == "" then Some([first.value.0])
    else if first.value.1[0] != '\n' then None else
    var more := ReadProgram(first.value.1[1..]);
    if more.None? then None else Some([first.value.0] + more.value)
  }

  lemma SourceIsNotEmpty(stmt: Stmt)
    ensures StmtSource(stmt) != ""
  {
  }

  ghost predicate AllPrinted(stmts: seq<Stmt>) { forall i | 0 <= i < |stmts| :: StmtPrinted(stmts[i]) }

  lemma {:induction false} ProgramReadsBack(stmts: seq<Stmt>)
    requires AllPrinted(stmts)
    ensures ReadProgram(ProgramSource(stmts)) == Some(stmts)
    decreases stmts
  {
    hide ReadStmt, StmtSource, StmtPrinted;
    if stmts != [] {
      var (stmt, lines) := (stmts[0], Sources(stmts));
      SourceIsNotEmpty(stmt);
      if |stmts| == 1 {
        StmtReadsBack(stmt, "");
        assert StmtSource(stmt) + "" == StmtSource(stmt);
        assert [stmt] == stmts;
      } else {
        var more := ProgramSource(stmts[1..]);
        assert lines[1..] == Sources(stmts[1..]);
        StmtReadsBack(stmt, "\n" + more);
        ProgramReadsBack(stmts[1..]);
        assert ("\n" + more)[1..] == more;
        SourceIsNotEmpty(stmts[1]);
        assert more != "";
        assert [stmt] + stmts[1..] == stmts;
      }
    }
  }

  // ----- what the generator prints is of this form -----

  lemma {:induction false} TrimRightAllIn(s: string, c: char)
    requires AllIn(Number, s)
    ensures AllIn(Number, TrimRight(s, c))
    decreases s
  {
    if s != "" && s[|s| - 1] == c {
      TrimRightAllIn(s[..|s| - 1], c);
    }
  }

  lemma FloatIsNumberText(n: CatalogText.Number)
    requires !n.Truth?
    ensures AllIn(Number, NatFloat(n))
  {
    if n.Units? {
      var fixed := Fixed10(n.negative, n.units);
      TrimRightAllIn(fixed, '0');
      TrimRightAllIn(TrimRight(fixed, '0'), '.');
    }
  }

  lemma PricesArePrinted(p: Prices)
    requires AreNumbers(p)
    ensures PricesPrinted(PrintPrices(p))
  {
    hide NatFloat, AllIn;
    FloatIsNumberText(p.input);
    FloatIsNumberText(p.output);
    FloatIsNumberText(p.cacheRead);
    FloatIsNumberText(p.cacheWrite);
  }

  lemma DigitsAreNumberText(n: nat)
    ensures IsNumberText(Digits(n))
  {
  }

  lemma BuildIsPrinted(m: Model)
    requires Priced(m)
    ensures BuildPrinted(PrintBuild(m))
  {
    hide PrintPrices, PricesPrinted, Digits, NatString;
    PricesArePrinted(m.prices);
    DigitsAreNumberText(m.contextWindow);
    DigitsAreNumberText(m.maxTokens);
    forall i | 0 <= i < |m.tiers| ensures TierPrinted(PrintTiers(m.tiers)[i]) {
      PricesArePrinted(m.tiers[i].prices);
      DigitsAreNumberText(m.tiers[i].above);
    }
  }

  lemma VariableIsName(counter: nat)
    ensures IsVariableName(Variable(counter))
  {
    assert Variable(counter)[1..] == Digits(counter);
  }

  lemma {:induction false} AssignmentsArePrinted(name: string, items: seq<(string, string)>)
    requires IsVariableName(name)
    ensures AllPrinted(ThinkingStmts(name, items)) && AllPrinted(HeaderStmts(name, items))
    decreases items
  {
    hide NatString;
    if items != [] {
      AssignmentsArePrinted(name, items[..|items| - 1]);
    }
  }

  lemma OneIsPrinted(m: Model, counter: nat)
    requires Priced(m)
    ensures AllPrinted(EmitOne(m, counter))
  {
    hide BuildPrinted, PrintBuild, ThinkingStmts, HeaderStmts, Variable, IsVariableName;
    BuildIsPrinted(m);
    VariableIsName(counter);
    AssignmentsArePrinted(Variable(counter), Encoded(m.thinking));
    AssignmentsArePrinted(Variable(counter), m.headers);
  }

  lemma {:induction false} AllArePrinted(models: seq<Model>)
    requires forall i | 0 <= i < |models| :: Priced(models[i])
    ensures AllPrinted(EmitAll(models))
    decreases models
  {
    hide StmtPrinted, Priced, EmitOne;
    if models != [] {
      var init := models[..|models| - 1];
      AllArePrinted(init);
      OneIsPrinted(models[|models| - 1], Counter(init));
    }
  }

  /**
   The emitted text can be read, and running what it says returns exactly the
   input models, in order.
   */
  lemma EmittedTextMeansTheModels(models: seq<Model>)
    requires forall i | 0 <= i < |models| :: Priced(models[i])
    ensures var program := ReadProgram(ProgramSource(EmitAll(models)));
            && program.Some?
            && var end := Run(START, program.value);
               end.Some? && Returned(end.value) == MeantAll(models) && AreModels(Returned(end.value), models)
  {
    hide EmitAll, StmtPrinted, AllPrinted, ReadProgram, ProgramSource, Run, Returned, MeantAll, Priced, AreModels;
    AllArePrinted(models);
    ProgramReadsBack(EmitAll(models));
    EmittedCodeMeansTheModels(models);
  }

  // ----- the generator as the code runs it -----

  lemma SourcesConcat(a: seq<Stmt>, b: seq<Stmt>)
    ensures Sources(a + b) == Sources(a) + Sources(b)
  {
  }

  function TierSources(tiers: seq<TierText>): seq<string> {
    seq(|tiers|, i requires 0 <= i < |tiers| => PrintSlots(TIER, TierValues(tiers[i])))
  }

  lemma {:induction false} JoinTiers(tiers: seq<TierText>)
    ensures Join(COMMA, TierSources(tiers)) + "]" == TiersSource(tiers)
    decreases tiers
  {
    hide PrintSlots;
    if |tiers| > 1 {
      assert TierSources(tiers)[1..] == TierSources(tiers[1..]);
      JoinTiers(tiers[1..]);
    }
  }

  lemma Flattened(head: string, v: seq<string>, a: seq<string>)
    requires |v| == |a| == 5
    ensures head + (v[0] + (a[0] + (v[1] + (a[1] + (v[2] + (a[2] + (v[3] + (a[3] + (v[4] + a[4]))))))))) ==
            head + v[0] + a[0] + v[1] + a[1] + v[2] + a[2] + v[3] + a[3] + v[4] + a[4]
  {
    var two := head + v[0] + a[0] + v[1] + a[1];
    var four := two + v[2] + a[2] + v[3] + a[3];
    ConcatAssociative(four, v[4], a[4]);
    Regrouped(two, v[2], a[2], v[3], a[3], v[4] + a[4]);
    Regrouped(head, v[0], a[0], v[1], a[1], v[2] + (a[2] + (v[3] + (a[3] + (v[4] + a[4])))));
  }

  lemma NextSlot(slots: seq<Slot>, values: seq<string>, k: nat)
    requires |slots| == |values| && k < |slots| && slots[k].before == ""
    ensures PrintSlots(slots[k..], values[k..]) ==
            values[k] + (slots[k].after + PrintSlots(slots[k + 1..], values[k + 1..]))
    ensures k + 1 == |slots| ==> PrintSlots(slots[k..], values[k..]) == values[k] + slots[k].after
  {
    PrintCons(slots, values, k);
    assert slots[k].after + "" == slots[k].after;
  }

  lemma FirstSlot(slots: seq<Slot>, values: seq<string>)
    requires |slots| == |values| > 0
    ensures PrintSlots(slots, values) ==
            slots[0].before + (values[0] + (slots[0].after + PrintSlots(slots[1..], values[1..])))
  {
  }

  lemma FiveSlots(slots: seq<Slot>, values: seq<string>)
    requires |slots| == |values| == 5
    requires slots[1].before == slots[2].before == slots[3].before == slots[4].before == ""
    ensures PrintSlots(slots, values) ==
            slots[0].before + values[0] + slots[0].after + values[1] + slots[1].after + values[2] + slots[2].after
            + values[3] + slots[3].after + values[4] + slots[4].after
  {
    hide PrintSlots;
    FirstSlot(slots, values);
    NextSlot(slots, values, 1);
    NextSlot(slots, values, 2);
    NextSlot(slots, values, 3);
    NextSlot(slots, values, 4);
    Flattened(slots[0].before, values, [slots[0].after, slots[1].after, slots[2].after, slots[3].after, slots[4].after]);
  }

  lemma TierLine(t: Tier)
    ensures TierInOrder(PrintSlots(TIER, TierValues(TierText(Digits(t.above), PrintPrices(t.prices)))), t)
  {
    hide PrintSlots, NatFloat, Digits;
    FiveSlots(TIER, TierValues(TierText(Digits(t.above), PrintPrices(t.prices))));
  }

  /** The text of the tiers argument. */
  method TiersArgument(tiers: seq<Tier>) returns (argument: string)
    ensures argument == "[" + TiersSource(PrintTiers(tiers))
    ensures TiersListed(argument, tiers)
  {
    hide PrintSlots, NatFloat, Digits, TierInOrder;
    var list: seq<string> := [];
    ghost var texts := PrintTiers(tiers);
    for i := 0 to |tiers|
      invariant list == TierSources(texts[..i]) && TiersInOrder(list, tiers[..i])
    {
      var (above, p) := (Digits(tiers[i].above), tiers[i].prices);
      var values := [above, NatFloat(p.input), NatFloat(p.output), NatFloat(p.cacheRead), NatFloat(p.cacheWrite)];
      assert values == TierValues(texts[i]);
      TierLine(tiers[i]);
      list := list + [PrintSlots(TIER, values)];
    }
    assert texts[..|tiers|] == texts;
    JoinTiers(texts);
    assert tiers[..|tiers|] == tiers;
    argument := "[" + Join(COMMA, list) + "]";
    assert argument == "[" + (Join(COMMA, list) + "]");
  }

  /** Values without labels, each followed by a comma, before a last one: that is what join makes. */
  lemma {:induction false} JoinArguments(slots: seq<Slot>, values: seq<string>, last: string)
    requires |slots| == |values| && forall i | 0 <= i < |slots| :: slots[i].before == "" && slots[i].after == COMMA
    ensures Join(COMMA, values + [last]) == PrintSlots(slots, values) + last
    decreases values
  {
    if values == [] {
      assert values + [last] == [last];
    } else {
      var more := PrintSlots(slots[1..], values[1..]);
      JoinArguments(slots[1..], values[1..], last);
      assert (values + [last])[1..] == values[1..] + [last];
      assert "" + (values[0] + (COMMA + more)) == values[0] + (COMMA + more);
      ConcatAssociative(values[0], COMMA + more, last);
      ConcatAssociative(COMMA, more, last);
    }
  }

  /** One tier, its fields by name. */
  ghost predicate TierInOrder(text: string, t: Tier) {
    text == "types.cost_tier_t {input_tokens_above: " + Digits(t.above) + ", input: " + NatFloat(t.prices.input)
            + ", output: " + NatFloat(t.prices.output) + ", cache_read: " + NatFloat(t.prices.cacheRead)
            + ", cache_write: " + NatFloat(t.prices.cacheWrite) + ",}"
  }

  ghost predicate TiersInOrder(texts: seq<string>, tiers: seq<Tier>) {
    |texts| == |tiers| && forall i | 0 <= i < |tiers| :: TierInOrder(texts[i], tiers[i])
  }

  ghost predicate TiersListed(argument: string, tiers: seq<Tier>) {
    exists texts :: TiersInOrder(texts, tiers) && argument == "[" + Join(", ", texts) + "]"
  }

  /** The arguments are in the order of the parameters of `build`, with a comma after each but the last. */
  ghost predicate InOrder(arguments: string, m: Model) {
    exists tiers: string, name: string ::
      && TiersListed(tiers, m.tiers)
      && name == (match m.name case None => m.id case Some(n) => if n == "" then m.id else n)
      && arguments == Join(", ", [
           NatString(m.id), NatString(name), NatString(m.api), NatString(m.provider), NatString(m.baseUrl),
           if m.reasoning then "true" else "false", Digits(m.contextWindow), Digits(m.maxTokens),
           NatFloat(m.prices.input), NatFloat(m.prices.output), NatFloat(m.prices.cacheRead), NatFloat(m.prices.cacheWrite),
           tiers])
  }

  /** The argument list of one model. */
  method BuildArguments(model: Model) returns (arguments: string)
    ensures arguments == BuildSource(PrintBuild(model))
    ensures InOrder(arguments, model)
  {
    hide PrintSlots, NatFloat, NatString, Digits, TiersSource, Join;
    var tiers := TiersArgument(model.tiers);
    var list := [
      NatString(model.id),
      NatString(if model.name.Some? && model.name.value != "" then model.name.value else model.id),
      NatString(model.api),
      NatString(model.provider),
      NatString(model.baseUrl),
      if model.reasoning then "true" else "false",
      Digits(model.contextWindow),
      Digits(model.maxTokens),
      NatFloat(model.prices.input),
      NatFloat(model.prices.output),
      NatFloat(model.prices.cacheRead),
      NatFloat(model.prices.cacheWrite)
    ];
    assert list == Arguments(PrintBuild(model));
    JoinArguments(ARGUMENTS, list, tiers);
    arguments := Join(COMMA, list + [tiers]);
    assert list + [tiers] == [list[0], list[1], list[2], list[3], list[4], list[5], list[6], list[7], list[8], list[9],
                              list[10], list[11], tiers];
  }

  /** The text of a list of models. */
  function EmittedSource(models: seq<Model>): string { ProgramSource(EmitAll(models)) }

  /** The text can be read, and running what it says returns objects that are these models, in order. */
  ghost predicate Rebuilds(text: string, models: seq<Model>) {
    var program := ReadProgram(text);
    program.Some? && Run(START, program.value).Some? && AreModels(Returned(Run(START, program.value).value), models)
  }

  predicate AllPriced(models: seq<Model>) { forall i | 0 <= i < |models| :: Priced(models[i]) }

  /** emit_model_entries: the loop with its running counter, and the text it returns. */
  method EmitModelEntries(models: seq<Model>) returns (text: string)
    ensures text == EmittedSource(models)
    ensures AllPriced(models) ==> Rebuilds(text, models)
  {
    hide BuildSource, PrintBuild, Variable, EmitBlock, Join, InOrder;
    hide ReadProgram, Run, Returned, AreModels, MeantAll, Priced;
    var lines: seq<string> := [];
    var counter := 0;
    for n := 0 to |models|
      invariant lines == Sources(EmitAll(models[..n])) && counter == Counter(models[..n])
    {
      var model := models[n];
      assert models[..n + 1][..n] == models[..n];
      SourcesConcat(EmitAll(models[..n]), EmitOne(model, counter));
      var arguments := BuildArguments(model);
      if model.thinking == [] && model.headers == [] {
        lines := lines + ["    result.push(model_builder.build(" + arguments + "))"];
        PushLine(PrintBuild(model));
      } else {
        var name := Variable(counter);
        counter := counter + 1;
        var block := EmitWithVariable(model, name, arguments);
        lines := lines + block;
      }
    }
    assert models[..|models|] == models;
    text := Join("\n", lines);
    if AllPriced(models) {
      EmittedTextMeansTheModels(models);
    }
  }

  lemma PushLine(b: BuildText)
    ensures Sources([PushBuilt(b)]) == ["    result.push(model_builder.build(" + BuildSource(b) + "))"]
  {
    hide BuildSource;
    assert StmtSource(PushBuilt(b)) == "    result.push(model_builder.build(" + BuildSource(b) + "))";
  }

  lemma DeclareLine(name: string, b: BuildText)
    ensures Sources([Declare(name, b)]) == ["    var " + name + " = model_builder.build(" + BuildSource(b) + ")"]
  {
    hide BuildSource;
    assert StmtSource(Declare(name, b)) == "    var " + name + " = model_builder.build(" + BuildSource(b) + ")";
  }

  lemma PushVarLine(name: string)
    ensures Sources([PushVar(name)]) == ["    result.push(" + name + ")"]
  {
    assert StmtSource(PushVar(name)) == "    result.push(" + name + ")";
  }

  lemma Regrouped(a: string, b: string, c: string, d: string, e: string, f: string)
    ensures a + (b + (c + (d + (e + f)))) == a + b + c + d + e + f
  {
    ConcatAssociative(a, b, c + (d + (e + f)));
    ConcatAssociative(a + b, c, d + (e + f));
    ConcatAssociative(a + b + c, d, e + f);
    ConcatAssociative(a + b + c + d, e, f);
  }

  lemma ThreeSlots(slots: seq<Slot>, values: seq<string>)
    requires |slots| == |values| == 3 && slots[1].before == slots[2].before == slots[2].after == ""
    ensures PrintSlots(slots, values) ==
            slots[0].before + values[0] + slots[0].after + values[1] + slots[1].after + values[2]
  {
    hide PrintSlots;
    PrintCons(slots, values, 2);
    assert PrintSlots(slots[2..], values[2..]) == values[2];
    PrintCons(slots, values, 1);
    assert PrintSlots(slots[1..], values[1..]) == values[1] + (slots[1].after + values[2]);
    PrintCons(slots, values, 0);
    assert slots[0..] == slots && values[0..] == values;
    Regrouped(slots[0].before, values[0], slots[0].after, values[1], slots[1].after, values[2]);
  }

  lemma ThinkingLine(name: string, item: (string, string))
    ensures Sources([ThinkingStmt(name, item)]) ==
            ["    " + name + ".thinking_level_map[" + NatString(item.0) + "] = " + NatString(item.1)]
  {
    hide PrintSlots, NatString;
    var (k, v) := (NatString(item.0), NatString(item.1));
    ThreeSlots(THINKING, [name, k, v]);
    assert StmtSource(SetThinking(name, k, v)) == "    " + name + ".thinking_level_map[" + k + "] = " + v;
  }

  lemma HeaderLine(name: string, item: (string, string))
    ensures Sources([HeaderStmt(name, item)]) ==
            ["    " + name + ".headers[" + NatString(item.0) + "] = " + NatString(item.1)]
  {
    hide PrintSlots, NatString;
    var (k, v) := (NatString(item.0), NatString(item.1));
    ThreeSlots(HEADER, [name, k, v]);
    assert StmtSource(SetHeader(name, k, v)) == "    " + name + ".headers[" + k + "] = " + v;
  }

  /** The lines of one model that needs a variable. */
  method EmitWithVariable(model: Model, name: string, arguments: string) returns (lines: seq<string>)
    requires arguments == BuildSource(PrintBuild(model))
    ensures lines == Sources(EmitBlock(model, name))
  {
    hide BuildSource, PrintBuild, NatString, Sources, ThinkingStmt, HeaderStmt;
    DeclareLine(name, PrintBuild(model));
    lines := ["    var " + name + " = model_builder.build(" + arguments + ")"];
    ghost var done := [Declare(name, PrintBuild(model))];
    var thinking := ThinkingLines(name, Encoded(model.thinking));
    SourcesConcat(done, ThinkingStmts(name, Encoded(model.thinking)));
    lines := lines + thinking;
    done := done + ThinkingStmts(name, Encoded(model.thinking));
    var headers := HeaderLines(name, model.headers);
    SourcesConcat(done, HeaderStmts(name, model.headers));
    lines := lines + headers;
    done := done + HeaderStmts(name, model.headers);
    PushVarLine(name);
    SourcesConcat(done, [PushVar(name)]);
    lines := lines + ["    result.push(" + name + ")"];
    assert done + [PushVar(name)] == EmitBlock(model, name);
  }

  method ThinkingLines(name: string, items: seq<(string, string)>) returns (lines: seq<string>)
    ensures lines == Sources(ThinkingStmts(name, items))
  {
    hide NatString, ThinkingStmt;
    lines := [];
    for i := 0 to |items|
      invariant lines == Sources(ThinkingStmts(name, items[..i]))
    {
      assert items[..i + 1][..i] == items[..i];
      ThinkingLine(name, items[i]);
      SourcesConcat(ThinkingStmts(name, items[..i]), [ThinkingStmt(name, items[i])]);
      lines := lines + ["    " + name + ".thinking_level_map[" + NatString(items[i].0) + "] = " + NatString(items[i].1)];
    }
    assert items[..|items|] == items;
  }

  method HeaderLines(name: string, items: seq<(string, string)>) returns (lines: seq<string>)
    ensures lines == Sources(HeaderStmts(name, items))
  {
    hide NatString, HeaderStmt;
    lines := [];
    for i := 0 to |items|
      invariant lines == Sources(HeaderStmts(name, items[..i]))
    {
      assert items[..i + 1][..i] == items[..i];
      HeaderLine(name, items[i]);
      SourcesConcat(HeaderStmts(name, items[..i]), [HeaderStmt(name, items[i])]);
      lines := lines + ["    " + name + ".headers[" + NatString(items[i].0) + "] = " + NatString(items[i].1)];
    }
    assert items[..|items|] == items;
  }
}
