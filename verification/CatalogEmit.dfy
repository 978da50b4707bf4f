/**
 The catalog code generator on statements: model records become statements that
 build them again.  The statements carry their arguments as printed text; a
 small interpreter reads the text, keeps objects and variables, and must end
 with the very models the generator was given.
 */
module CatalogEmit {
  import opened Prelude
  import opened Dictionary
  import opened Decimal
  import opened CatalogText

  datatype Prices = Prices(input: Number, output: Number, cacheRead: Number, cacheWrite: Number)

  datatype Tier = Tier(above: nat, prices: Prices)

  datatype Names = Names(id: string, name: string, api: string, provider: string, baseUrl: string)

  datatype Model = Model(
    id: string, name: Option<string>, api: string, provider: string, baseUrl: string, reasoning: bool,
    contextWindow: nat, maxTokens: nat, prices: Prices, tiers: seq<Tier>,
    thinking: seq<(string, Option<string>)>,  // the items of the dictionary
    headers: seq<(string, string)>)

  // ----- the generated program -----

  datatype PricesText = PricesText(input: string, output: string, cacheRead: string, cacheWrite: string)

  datatype TierText = TierText(above: string, prices: PricesText)

  /** The printed arguments of one `model_builder.build(...)`; the names are printed literals too. */
  datatype BuildText = BuildText(
    names: Names, reasoning: string, contextWindow: string, maxTokens: string, prices: PricesText,
    tiers: seq<TierText>)

  datatype Stmt =
    | PushBuilt(build: BuildText)                           // result.push(model_builder.build(...))
    | Declare(name: string, build: BuildText)               // var mK = model_builder.build(...)
    | SetThinking(name: string, key: string, value: string) // mK.thinking_level_map['..'] = '..'
    | SetHeader(name: string, key: string, value: string)   // mK.headers['..'] = '..'
    | PushVar(name: string)                                 // result.push(mK)

  // ----- the generator -----

  function Shown(m: Model): string {
    if m.name.Some? && m.name.value != "" then m.name.value else m.id
  }

  function NamesOf(m: Model): Names { Names(m.id, Shown(m), m.api, m.provider, m.baseUrl) }

  function PrintNames(n: Names): Names {
    Names(NatString(n.id), NatString(n.name), NatString(n.api), NatString(n.provider), NatString(n.baseUrl))
  }

  function PrintPrices(p: Prices): PricesText {
    PricesText(NatFloat(p.input), NatFloat(p.output), NatFloat(p.cacheRead), NatFloat(p.cacheWrite))
  }

  function PrintTiers(tiers: seq<Tier>): (texts: seq<TierText>)
    ensures |texts| == |tiers|
  {
    seq(|tiers|, i requires 0 <= i < |tiers| => TierText(Digits(tiers[i].above), PrintPrices(tiers[i].prices)))
  }

  function PrintBuild(m: Model): BuildText {
    BuildText(PrintNames(NamesOf(m)), if m.reasoning then "true" else "false", Digits(m.contextWindow),
              Digits(m.maxTokens), PrintPrices(m.prices), PrintTiers(m.tiers))
  }

  function Variable(counter: nat): string { "m" + Digits(counter) }

  /** null becomes the empty string. */
  function Encoded(items: seq<(string, Option<string>)>): seq<(string, string)> {
    seq(|items|, i requires 0 <= i < |items| =>
          (items[i].0, if items[i].1.Some? then items[i].1.value else ""))
  }

  function ThinkingStmt(name: string, item: (string, string)): Stmt {
    SetThinking(name, NatString(item.0), NatString(item.1))
  }

  function HeaderStmt(name: string, item: (string, string)): Stmt {
    SetHeader(name, NatString(item.0), NatString(item.1))
  }

  function ThinkingStmts(name: string, items: seq<(string, string)>): seq<Stmt> {
    if items == [] then []
    else ThinkingStmts(name, items[..|items| - 1]) + [ThinkingStmt(name, items[|items| - 1])]
  }

  function HeaderStmts(name: string, items: seq<(string, string)>): seq<Stmt> {
    if items == [] then []
    else HeaderStmts(name, items[..|items| - 1]) + [HeaderStmt(name, items[|items| - 1])]
  }

  predicate NeedsVariable(m: Model) { m.thinking != [] || m.headers != [] }

  function EmitBlock(m: Model, name: string): seq<Stmt> {
    [Declare(name, PrintBuild(m))]
    + (ThinkingStmts(name, Encoded(m.thinking)) + (HeaderStmts(name, m.headers) + [PushVar(name)]))
  }

  function EmitOne(m: Model, counter: nat): seq<Stmt> {
    if NeedsVariable(m) then EmitBlock(m, Variable(counter)) else [PushBuilt(PrintBuild(m))]
  }

  /** How many variables the first models take. */
  function Counter(models: seq<Model>): nat {
    if models == [] then 0
    else Counter(models[..|models| - 1]) + (if NeedsVariable(models[|models| - 1]) then 1 else 0)
  }

  function EmitAll(models: seq<Model>): seq<Stmt> {
    if models == [] then [] else
    var init := models[..|models| - 1];
    EmitAll(init) + EmitOne(models[|models| - 1], Counter(init))
  }

  // ----- the interpreter -----

  type Amount = (bool, nat)  // sign, units of 10^-10

  datatype Amounts = Amounts(input: Amount, output: Amount, cacheRead: Amount, cacheWrite: Amount)

  datatype BuiltTier = BuiltTier(above: nat, amounts: Amounts)

  datatype Object = Object(
    names: Names, reasoning: bool, contextWindow: nat, maxTokens: nat, amounts: Amounts, tiers: seq<BuiltTier>,
    thinking: map<string, string>, headers: map<string, string>)

  /** Objects are shared: a variable and the result list hold references to them. */
  datatype Memory = Memory(objects: seq<Object>, vars: map<string, nat>, result: seq<nat>)

  function WholeString(text: string): Option<string> {
    var r := ReadString(text);
    if r.Some? && r.value.1 == "" then Some(r.value.0) else None
  }

  function ReadNat(text: string): Option<nat> {
    if text != "" && IsNumeral(text) then Some(Value(text)) else None
  }

  function ReadTruth(text: string): Option<bool> {
    if text == "true" then Some(true) else if text == "false" then Some(false) else None
  }

  function ReadNames(t: Names): Option<Names> {
    var (a, b, c) := (WholeString(t.id), WholeString(t.name), WholeString(t.api));
    var (d, e) := (WholeString(t.provider), WholeString(t.baseUrl));
    if a.None? || b.None? || c.None? || d.None? || e.None? then None
    else Some(Names(a.value, b.value, c.value, d.value, e.value))
  }

  function ReadPrices(t: PricesText): Option<Amounts> {
    var (a, b) := (ReadNumber(t.input), ReadNumber(t.output));
    var (c, d) := (ReadNumber(t.cacheRead), ReadNumber(t.cacheWrite));
    if a.None? || b.None? || c.None? || d.None? then None
    else Some(Amounts(a.value, b.value, c.value, d.value))
  }

  function ReadTiers(texts: seq<TierText>): Option<seq<BuiltTier>> {
    if texts == [] then Some([]) else
    var (init, last) := (ReadTiers(texts[..|texts| - 1]), texts[|texts| - 1]);
    var (above, amounts) := (ReadNat(last.above), ReadPrices(last.prices));
    if init.None? || above.None? || amounts.None? then None
    else Some(init.value + [BuiltTier(above.value, amounts.value)])
  }

  function Build(t: BuildText): Option<Object> {
    var (names, reasoning, window) := (ReadNames(t.names), ReadTruth(t.reasoning), ReadNat(t.contextWindow));
    var (tokens, amounts, tiers) := (ReadNat(t.maxTokens), ReadPrices(t.prices), ReadTiers(t.tiers));
    if names.None? || reasoning.None? || window.None? || tokens.None? || amounts.None? || tiers.None? then None
    else Some(Object(names.value, reasoning.value, window.value, tokens.value, amounts.value, tiers.value, map[], map[]))
  }

  predicate Sane(s: Memory) {
    && (forall v | v in s.vars :: s.vars[v] < |s.objects|)
    && (forall i | 0 <= i < |s.result| :: s.result[i] < |s.objects|)
  }

  type Store = s: Memory | Sane(s) witness Memory([], map[], [])

  /** The store after assigning to the object of a variable. */
  function Edited(s: Store, name: string, o: Object): (t: Store)
    requires name in s.vars
  {
    s.(objects := s.objects[s.vars[name] := o])
  }

  function Held(s: Store, name: string): Object
    requires name in s.vars
  {
    s.objects[s.vars[name]]
  }

  /** Declaring a variable twice, or using one that was not declared, is an error. */
  function Execute(s: Store, stmt: Stmt): (r: Option<Store>)
  {
    match stmt
    case PushBuilt(build) =>
      var o := Build(build);
      if o.None? then None
      else Some(s.(objects := s.objects + [o.value], result := s.result + [|s.objects|]))
    case Declare(name, build) =>
      var o := Build(build);
      if o.None? || name in s.vars then None
      else Some(s.(objects := s.objects + [o.value], vars := s.vars[name := |s.objects|]))
    case SetThinking(name, key, value) =>
      var (k, v) := (WholeString(key), WholeString(value));
      if name !in s.vars || k.None? || v.None? then None
      else Some(Edited(s, name, Held(s, name).(thinking := Held(s, name).thinking[k.value := v.value])))
    case SetHeader(name, key, value) =>
      var (k, v) := (WholeString(key), WholeString(value));
      if name !in s.vars || k.None? || v.None? then None
      else Some(Edited(s, name, Held(s, name).(headers := Held(s, name).headers[k.value := v.value])))
    case PushVar(name) =>
      if name !in s.vars then None else Some(s.(result := s.result + [s.vars[name]]))
  }

  function Run(s: Store, stmts: seq<Stmt>): (r: Option<Store>)
    decreases stmts
  {
    if stmts == [] then Some(s) else
    var next := Execute(s, stmts[0]);
    if next.None? then None else Run(next.value, stmts[1..])
  }

  /** What `models()` returns. */
  function Returned(s: Store): seq<Object>
  {
    seq(|s.result|, i requires 0 <= i < |s.result| => s.objects[s.result[i]])
  }

  const START: Store := Memory([], map[], [])

  // ----- what the program should build -----

  function Meaning(n: Number): Amount {
    match n
    case Missing => (false, 0)
    case Truth(_) => (false, 0)
    case Whole(k) => (k < 0, WholeUnits(if k < 0 then -k else k))
    case Units(negative, units) => (negative, units)
  }

  function PriceMeaning(p: Prices): Amounts {
    Amounts(Meaning(p.input), Meaning(p.output), Meaning(p.cacheRead), Meaning(p.cacheWrite))
  }

  function TierMeaning(tiers: seq<Tier>): seq<BuiltTier> {
    seq(|tiers|, i requires 0 <= i < |tiers| => BuiltTier(tiers[i].above, PriceMeaning(tiers[i].prices)))
  }

  function Bare(m: Model): Object {
    Object(NamesOf(m), m.reasoning, m.contextWindow, m.maxTokens, PriceMeaning(m.prices), TierMeaning(m.tiers),
           map[], map[])
  }

  function Meant(m: Model): Object {
    Bare(m).(thinking := Dict(Encoded(m.thinking)), headers := Dict(m.headers))
  }

  function MeantAll(models: seq<Model>): seq<Object> {
    seq(|models|, i requires 0 <= i < |models| => Meant(models[i]))
  }

  /** Prices are numbers or absent, never truth values. */
  predicate AreNumbers(p: Prices) {
    !p.input.Truth? && !p.output.Truth? && !p.cacheRead.Truth? && !p.cacheWrite.Truth?
  }

  predicate Priced(m: Model) {
    AreNumbers(m.prices) && forall i | 0 <= i < |m.tiers| :: AreNumbers(m.tiers[i].prices)
  }

  // ----- the same, read off the fields of a model -----

  /** The amount is that of a number of the catalog; nothing counts as zero. */
  predicate IsAmount(a: Amount, n: Number) {
    match n
    case Missing => a == (false, 0)
    case Truth(_) => true
    case Whole(k) => a == (k < 0, (if k < 0 then -k else k) * 10_000_000_000)
    case Units(negative, units) => a == (negative, units)
  }

  predicate AreAmounts(a: Amounts, p: Prices) {
    && IsAmount(a.input, p.input) && IsAmount(a.output, p.output)
    && IsAmount(a.cacheRead, p.cacheRead) && IsAmount(a.cacheWrite, p.cacheWrite)
  }

  predicate AreTiers(built: seq<BuiltTier>, tiers: seq<Tier>) {
    && |built| == |tiers|
    && forall i | 0 <= i < |tiers| :: built[i].above == tiers[i].above && AreAmounts(built[i].amounts, tiers[i].prices)
  }

  /** Field by field, the object is this model; a missing or empty name is replaced by the id. */
  predicate HasFields(o: Object, m: Model) {
    && o.names.id == m.id && o.names.api == m.api && o.names.provider == m.provider && o.names.baseUrl == m.baseUrl
    && (match m.name case None => o.names.name == m.id case Some(n) => o.names.name == if n == "" then m.id else n)
    && o.reasoning == m.reasoning && o.contextWindow == m.contextWindow && o.maxTokens == m.maxTokens
    && AreAmounts(o.amounts, m.prices) && AreTiers(o.tiers, m.tiers)
  }

  lemma MeaningIsAmount(n: Number)
    ensures IsAmount(Meaning(n), n)
  {
  }

  lemma PricesAreAmounts(p: Prices)
    ensures AreAmounts(PriceMeaning(p), p)
  {
    MeaningIsAmount(p.input);
    MeaningIsAmount(p.output);
    MeaningIsAmount(p.cacheRead);
    MeaningIsAmount(p.cacheWrite);
  }

  lemma TiersAreTiers(tiers: seq<Tier>)
    ensures AreTiers(TierMeaning(tiers), tiers)
  {
    hide AreAmounts, PriceMeaning;
    forall i | 0 <= i < |tiers| ensures AreAmounts(PriceMeaning(tiers[i].prices), tiers[i].prices) {
      PricesAreAmounts(tiers[i].prices);
    }
  }

  lemma BareHasFields(m: Model)
    ensures HasFields(Bare(m), m)
  {
    hide PriceMeaning, AreAmounts, TierMeaning, AreTiers;
    PricesAreAmounts(m.prices);
    TiersAreTiers(m.tiers);
  }

  // ----- printed arguments read back -----

  lemma MissingReadsBack()
    ensures ReadNumber(NatFloat(Missing)) == Some((false, 0))
  {
    MissingIsZero();
    WholeReadsBack(0);
  }

  lemma NumberReadsBack(n: Number)
    requires !n.Truth?
    ensures ReadNumber(NatFloat(n)) == Some(Meaning(n))
  {
    match n {
      case Missing => MissingReadsBack();
      case Whole(k) => WholeReadsBack(k);
      case Units(negative, units) => FloatReadsBack(negative, units);
    }
  }

  lemma WholeStringReadsBack(s: string)
    ensures WholeString(NatString(s)) == Some(s)
  {
    StringReadsBack(s, "");
    assert NatString(s) + "" == NatString(s);
  }

  lemma NatReadsBack(n: nat)
    ensures ReadNat(Digits(n)) == Some(n)
  {
    DigitsReadBack(n);
  }

  lemma NamesReadBack(n: Names)
    ensures ReadNames(PrintNames(n)) == Some(n)
  {
    WholeStringReadsBack(n.id);
    WholeStringReadsBack(n.name);
    WholeStringReadsBack(n.api);
    WholeStringReadsBack(n.provider);
    WholeStringReadsBack(n.baseUrl);
  }

  lemma PricesReadBack(p: Prices)
    requires AreNumbers(p)
    ensures ReadPrices(PrintPrices(p)) == Some(PriceMeaning(p))
  {
    NumberReadsBack(p.input);
    NumberReadsBack(p.output);
    NumberReadsBack(p.cacheRead);
    NumberReadsBack(p.cacheWrite);
  }

  lemma PrintTiersSnoc(tiers: seq<Tier>)
    requires tiers != []
    ensures var (init, last) := (tiers[..|tiers| - 1], tiers[|tiers| - 1]);
            && PrintTiers(tiers) == PrintTiers(init) + [TierText(Digits(last.above), PrintPrices(last.prices))]
            && TierMeaning(tiers) == TierMeaning(init) + [BuiltTier(last.above, PriceMeaning(last.prices))]
  {
    hide PrintPrices, PriceMeaning, Digits;
  }

  lemma ReadTiersSnoc(texts: seq<TierText>, last: TierText)
    ensures ReadTiers(texts + [last]) ==
            (var (init, above, amounts) := (ReadTiers(texts), ReadNat(last.above), ReadPrices(last.prices));
             if init.None? || above.None? || amounts.None? then None
             else Some(init.value + [BuiltTier(above.value, amounts.value)]))
  {
    assert (texts + [last])[..|texts|] == texts;
  }

  lemma {:induction false} TiersReadBack(tiers: seq<Tier>)
    requires forall i | 0 <= i < |tiers| :: AreNumbers(tiers[i].prices)
    ensures ReadTiers(PrintTiers(tiers)) == Some(TierMeaning(tiers))
    decreases tiers
  {
    if tiers == [] {
      assert PrintTiers(tiers) == [] && TierMeaning(tiers) == [];
    } else {
      var (init, last) := (tiers[..|tiers| - 1], tiers[|tiers| - 1]);
      TiersReadBack(init);
      NatReadsBack(last.above);
      PricesReadBack(last.prices);
      PrintTiersSnoc(tiers);
      ReadTiersSnoc(PrintTiers(init), TierText(Digits(last.above), PrintPrices(last.prices)));
    }
  }

  lemma BuildReadsBack(m: Model)
    requires Priced(m)
    ensures Build(PrintBuild(m)) == Some(Bare(m)) && HasFields(Bare(m), m)
  {
    hide ReadNames, PrintNames, ReadPrices, PrintPrices, ReadTiers, PrintTiers, TierMeaning, ReadNat, Digits, HasFields;
    BareHasFields(m);
    NamesReadBack(NamesOf(m));
    NatReadsBack(m.contextWindow);
    NatReadsBack(m.maxTokens);
    PricesReadBack(m.prices);
    TiersReadBack(m.tiers);
  }

  // ----- runs -----

  lemma {:induction false} RunAppend(s: Store, a: seq<Stmt>, b: seq<Stmt>)
    ensures Run(s, a + b) == if Run(s, a).None? then None else Run(Run(s, a).value, b)
    decreases a
  {
    if a == [] {
      assert a + b == b;
    } else {
      assert (a + b)[1..] == a[1..] + b;
      var next := Execute(s, a[0]);
      if next.Some? {
        RunAppend(next.value, a[1..], b);
      }
    }
  }

  lemma RunOne(s: Store, stmt: Stmt)
    ensures Run(s, [stmt]) == Execute(s, stmt)
  {
    assert [stmt][1..] == [];
  }

  lemma RunSnoc(s: Store, stmts: seq<Stmt>, last: Stmt)
    ensures Run(s, stmts + [last]) ==
            if Run(s, stmts).None? then None else Execute(Run(s, stmts).value, last)
  {
    RunAppend(s, stmts, [last]);
    if Run(s, stmts).Some? {
      RunOne(Run(s, stmts).value, last);
    }
  }

  lemma EditTwice(s: Store, name: string, a: Object, b: Object)
    requires name in s.vars
    ensures Edited(Edited(s, name, a), name, b) == Edited(s, name, b)
    ensures Held(Edited(s, name, a), name) == a && Edited(s, name, Held(s, name)) == s
  {
  }

  lemma {:induction false} RunThinking(s: Store, name: string, items: seq<(string, string)>)
    requires name in s.vars && Held(s, name).thinking == map[]
    ensures Run(s, ThinkingStmts(name, items)) ==
            Some(Edited(s, name, Held(s, name).(thinking := Dict(items))))
    decreases items
  {
    var o := Held(s, name);
    if items == [] {
      EditTwice(s, name, o, o);
    } else {
      var (init, last) := (items[..|items| - 1], items[|items| - 1]);
      RunThinking(s, name, init);
      WholeStringReadsBack(last.0);
      WholeStringReadsBack(last.1);
      var a := o.(thinking := Dict(init));
      RunSnoc(s, ThinkingStmts(name, init), ThinkingStmt(name, last));
      EditTwice(s, name, a, o.(thinking := Dict(items)));
    }
  }

  lemma {:induction false} RunHeaders(s: Store, name: string, items: seq<(string, string)>)
    requires name in s.vars && Held(s, name).headers == map[]
    ensures Run(s, HeaderStmts(name, items)) ==
            Some(Edited(s, name, Held(s, name).(headers := Dict(items))))
    decreases items
  {
    var o := Held(s, name);
    if items == [] {
      EditTwice(s, name, o, o);
    } else {
      var (init, last) := (items[..|items| - 1], items[|items| - 1]);
      RunHeaders(s, name, init);
      WholeStringReadsBack(last.0);
      WholeStringReadsBack(last.1);
      var a := o.(headers := Dict(init));
      RunSnoc(s, HeaderStmts(name, init), HeaderStmt(name, last));
      EditTwice(s, name, a, o.(headers := Dict(items)));
    }
  }

  /** The variables in scope are among m0 .. m(k-1). */
  ghost predicate Declared(s: Store, k: nat) {
    forall v | v in s.vars :: IsVariable(v, k)
  }

  ghost predicate IsVariable(v: string, k: nat) { exists i: nat :: i < k && v == Variable(i) }

  lemma NextIsFresh(s: Store, k: nat)
    requires Declared(s, k)
    ensures Variable(k) !in s.vars
  {
    forall i: nat | i < k ensures Variable(k) != Variable(i) {
      assert Variable(k)[1..] == Digits(k) && Variable(i)[1..] == Digits(i);
      if Digits(i) == Digits(k) {
        DigitsInjective(i, k);
      }
    }
  }

  /** One more model at the end of the store. */
  function Extended(s: Store, m: Model, counter: nat): Store {
    Memory(s.objects + [Meant(m)],
          if NeedsVariable(m) then s.vars[Variable(counter) := |s.objects|] else s.vars,
          s.result + [|s.objects|])
  }

  lemma RunEmitted(s: Store, m: Model, counter: nat)
    requires Declared(s, counter) && Priced(m)
    ensures Run(s, EmitOne(m, counter)) == Some(Extended(s, m, counter))
  {
    BuildReadsBack(m);
    if NeedsVariable(m) {
      NextIsFresh(s, counter);
      RunBlock(s, m, Variable(counter));
    } else {
      RunOne(s, PushBuilt(PrintBuild(m)));
      assert Encoded(m.thinking) == [];
    }
  }

  lemma RunBlock(s: Store, m: Model, name: string)
    requires name !in s.vars && Priced(m)
    ensures Run(s, EmitBlock(m, name)) ==
            Some(Memory(s.objects + [Meant(m)], s.vars[name := |s.objects|], s.result + [|s.objects|]))
  {
    hide Build, PrintBuild, Priced;
    BuildReadsBack(m);
    var declare := Declare(name, PrintBuild(m));
    var declared := s.(objects := s.objects + [Bare(m)], vars := s.vars[name := |s.objects|]);
    RunOne(s, declare);
    assert Held(declared, name) == Bare(m);
    var items := Encoded(m.thinking);
    RunAppend(s, [declare], ThinkingStmts(name, items) + (HeaderStmts(name, m.headers) + [PushVar(name)]));
    RunAssignments(declared, name, items, m.headers);
    assert declared.objects[|s.objects| := Meant(m)] == s.objects + [Meant(m)];
  }

  lemma RunAssignments(s: Store, name: string, thinking: seq<(string, string)>, headers: seq<(string, string)>)
    requires name in s.vars && Held(s, name).thinking == map[] && Held(s, name).headers == map[]
    ensures var end := Edited(s, name, Held(s, name).(thinking := Dict(thinking), headers := Dict(headers)));
            Run(s, ThinkingStmts(name, thinking) + (HeaderStmts(name, headers) + [PushVar(name)])) ==
            Some(end.(result := s.result + [s.vars[name]]))
  {
    hide ThinkingStmts, HeaderStmts, Dict;
    var o := Held(s, name).(thinking := Dict(thinking));
    RunThinking(s, name, thinking);
    RunAppend(s, ThinkingStmts(name, thinking), HeaderStmts(name, headers) + [PushVar(name)]);
    EditTwice(s, name, o, o.(headers := Dict(headers)));
    RunHeadersAndPush(Edited(s, name, o), name, headers);
  }

  lemma RunHeadersAndPush(s: Store, name: string, headers: seq<(string, string)>)
    requires name in s.vars && Held(s, name).headers == map[]
    ensures var end := Edited(s, name, Held(s, name).(headers := Dict(headers)));
            Run(s, HeaderStmts(name, headers) + [PushVar(name)]) == Some(end.(result := s.result + [s.vars[name]]))
  {
    hide HeaderStmts, Dict, Execute, Run, Held;
    var end := Edited(s, name, Held(s, name).(headers := Dict(headers)));
    RunHeaders(s, name, headers);
    RunSnoc(s, HeaderStmts(name, headers), PushVar(name));
    PushExecutes(end, name);
  }

  lemma PushExecutes(s: Store, name: string)
    requires name in s.vars
    ensures Execute(s, PushVar(name)) == Some(s.(result := s.result + [s.vars[name]]))
  {
  }

  // ----- the models that come back -----

  /** Exactly the keys of the items, each with its latest value, or the empty string for null. */
  ghost predicate HoldsLevels(levels: map<string, string>, items: seq<(string, Option<string>)>) {
    && (forall k :: k in levels <==> exists i :: 0 <= i < |items| && items[i].0 == k)
    && forall i | IsLatest(items, i) ::
         items[i].0 in levels && levels[items[i].0] == match items[i].1 case None => "" case Some(v) => v
  }

  ghost predicate HoldsHeaders(headers: map<string, string>, items: seq<(string, string)>) {
    && (forall k :: k in headers <==> exists i :: 0 <= i < |items| && items[i].0 == k)
    && forall i | IsLatest(items, i) :: items[i].0 in headers && headers[items[i].0] == items[i].1
  }

  /** The fields, the thinking map and the headers are those of the model. */
  ghost predicate IsModel(o: Object, m: Model) {
    HasFields(o, m) && HoldsLevels(o.thinking, m.thinking) && HoldsHeaders(o.headers, m.headers)
  }

  ghost predicate AreModels(objects: seq<Object>, models: seq<Model>) {
    |objects| == |models| && forall i | 0 <= i < |models| :: IsModel(objects[i], models[i])
  }

  lemma EncodedHolds(items: seq<(string, Option<string>)>)
    ensures HoldsLevels(Dict(Encoded(items)), items)
  {
    var encoded := Encoded(items);
    DictHolds(encoded);
    forall k ensures k in Dict(encoded) <==> exists i :: 0 <= i < |items| && items[i].0 == k {
      if i :| 0 <= i < |items| && items[i].0 == k {
        assert encoded[i].0 == k;
      }
    }
    forall i | IsLatest(items, i)
      ensures items[i].0 in Dict(encoded) && Dict(encoded)[items[i].0] == match items[i].1 case None => "" case Some(v) => v
    {
      assert IsLatest(encoded, i) && encoded[i].0 == items[i].0;
    }
  }

  lemma MeantIsModel(m: Model)
    ensures IsModel(Meant(m), m)
  {
    hide PriceMeaning, AreAmounts, TierMeaning, AreTiers, Dict, Encoded, HoldsLevels, HoldsHeaders;
    BareHasFields(m);
    EncodedHolds(m.thinking);
    HeadersHold(m.headers);
  }

  lemma HeadersHold(items: seq<(string, string)>)
    ensures HoldsHeaders(Dict(items), items)
  {
    DictHolds(items);
  }

  lemma AllMeantAreModels(models: seq<Model>)
    ensures AreModels(MeantAll(models), models)
  {
    hide Meant, IsModel;
    forall i | 0 <= i < |models| ensures IsModel(Meant(models[i]), models[i]) {
      MeantIsModel(models[i]);
    }
  }

  /**
   Running the emitted statements returns exactly the input models, in order,
   with their thinking maps (null as the empty string) and headers.
   */
  lemma EmittedCodeMeansTheModels(models: seq<Model>)
    requires forall i | 0 <= i < |models| :: Priced(models[i])
    ensures var end := Run(START, EmitAll(models));
            end.Some? && Returned(end.value) == MeantAll(models) && AreModels(Returned(end.value), models)
  {
    hide AreModels, MeantAll, Returned, Run, EmitAll;
    var end := RunAll(models);
    AllMeantAreModels(models);
  }

  lemma {:induction false} RunAll(models: seq<Model>) returns (end: Store)
    requires forall i | 0 <= i < |models| :: Priced(models[i])
    ensures Run(START, EmitAll(models)) == Some(end)
    ensures Returned(end) == MeantAll(models)
    ensures Declared(end, Counter(models))
    decreases models
  {
    if models == [] {
      end := START;
    } else {
      var (init, m) := (models[..|models| - 1], models[|models| - 1]);
      var s := RunAll(init);
      RunAppend(START, EmitAll(init), EmitOne(m, Counter(init)));
      RunEmitted(s, m, Counter(init));
      end := Extended(s, m, Counter(init));
      ExtendedReturns(s, m, Counter(init));
      MeantSnoc(models);
    }
  }

  lemma MeantSnoc(models: seq<Model>)
    requires models != []
    ensures MeantAll(models) == MeantAll(models[..|models| - 1]) + [Meant(models[|models| - 1])]
  {
  }

  lemma ExtendedReturns(s: Store, m: Model, counter: nat)
    requires Declared(s, counter)
    ensures var t := Extended(s, m, counter);
            && Returned(t) == Returned(s) + [Meant(m)]
            && Declared(t, if NeedsVariable(m) then counter + 1 else counter)
  {
    var t := Extended(s, m, counter);
    forall v | v in t.vars ensures IsVariable(v, if NeedsVariable(m) then counter + 1 else counter) {
      if v in s.vars {
        assert IsVariable(v, counter);
      } else {
        assert v == Variable(counter);
      }
    }
  }
}
