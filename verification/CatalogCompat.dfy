/**
 Compatibility settings of OpenAI-completions models: what is detected from a
 model's provider and address, and the compression that keeps only what
 differs from the defaults.
 */
module CatalogCompat {
  import opened Prelude
  import opened Dictionary

  datatype Value = Flag(b: bool) | Text(s: string) | Object(fields: map<string, string>)

  type Compat = map<string, Value>

  const EMPTY: Value := Object(map[])

  const DEFAULT: Compat := map[
    "supportsStore" := Flag(true),
    "supportsDeveloperRole" := Flag(true),
    "supportsReasoningEffort" := Flag(true),
    "supportsUsageInStreaming" := Flag(true),
    "maxTokensField" := Text("max_completion_tokens"),
    "requiresToolResultName" := Flag(false),
    "requiresAssistantAfterToolResult" := Flag(false),
    "requiresThinkingAsText" := Flag(false),
    "requiresReasoningContentOnAssistantMessages" := Flag(false),
    "thinkingFormat" := Text("openai"),
    "openRouterRouting" := EMPTY,
    "vercelGatewayRouting" := EMPTY,
    "chatTemplateKwargs" := EMPTY,
    "zaiToolStream" := Flag(false),
    "supportsStrictMode" := Flag(true),
    "supportsOpenAIGrammarTools" := Flag(false),
    "sendSessionAffinityHeaders" := Flag(false),
    "supportsLongCacheRetention" := Flag(true)
  ]

  // ----- compression -----

  /** The entries that differ from the default, or have none. */
  function DeltaOf(compat: Compat): Compat {
    map key | key in compat && !(key in DEFAULT && compat[key] == DEFAULT[key]) :: compat[key]
  }

  predicate DistinctKeys(items: seq<(string, Value)>) {
    forall i, j | 0 <= i < j < |items| :: items[i].0 != items[j].0
  }

  lemma {:induction false} DictKeys(items: seq<(string, Value)>, key: string)
    ensures key in Dict(items) <==> exists i :: 0 <= i < |items| && items[i].0 == key
    decreases items
  {
    if items != [] {
      DictKeys(items[..|items| - 1], key);
    }
  }

  predicate IsPlainEmptyObject(v: Value) { v == EMPTY }

  lemma DeltaStep(compat: Compat, key: string, value: Value)
    requires key !in compat
    ensures DeltaOf(compat[key := value]) ==
            if key in DEFAULT && value == DEFAULT[key] then DeltaOf(compat) else DeltaOf(compat)[key := value]
  {
  }

  lemma DictSnoc(items: seq<(string, Value)>, n: nat)
    requires n < |items| && DistinctKeys(items)
    ensures Dict(items[..n + 1]) == Dict(items[..n])[items[n].0 := items[n].1] && items[n].0 !in Dict(items[..n])
  {
    assert items[..n + 1][..n] == items[..n];
    DictKeys(items[..n], items[n].0);
  }

  /** openai_completions_compat_delta: one pass over the items. */
  method CompatDelta(items: seq<(string, Value)>) returns (delta: Compat)
    requires DistinctKeys(items)
    ensures delta == DeltaOf(Dict(items))
  {
    hide DeltaOf;
    delta := map[];
    assert DeltaOf(map[]) == map[] by {
      DeltaOfNothing();
    }
    for n := 0 to |items|
      invariant delta == DeltaOf(Dict(items[..n]))
    {
      var (key, value) := items[n];
      DictSnoc(items, n);
      DeltaStep(Dict(items[..n]), key, value);
      if key !in DEFAULT {
        delta := delta[key := value];
      } else {
        var defaultValue := DEFAULT[key];
        if !(IsPlainEmptyObject(value) && IsPlainEmptyObject(defaultValue)) && value != defaultValue {
          delta := delta[key := value];
        }
      }
    }
    assert items[..|items|] == items;
  }

  lemma DeltaOfNothing()
    ensures DeltaOf(map[]) == map[]
  {
  }

  /** Lossless: over the defaults, the delta and the full settings are the same, whatever is overlaid. */
  lemma DeltaIsLossless(compat: Compat, explicit: Compat)
    ensures DEFAULT + (DeltaOf(compat) + explicit) == DEFAULT + (compat + explicit)
  {
  }

  /** Minimal: anything with the same effect over the defaults contains the delta. */
  lemma DeltaIsLeast(compat: Compat, other: Compat)
    requires DEFAULT + other == DEFAULT + compat
    ensures forall key | key in DeltaOf(compat) :: key in other && other[key] == DeltaOf(compat)[key]
  {
    forall key | key in DeltaOf(compat) ensures key in other && other[key] == compat[key] {
      assert key in DEFAULT + compat && key in DEFAULT + other;
      assert (DEFAULT + compat)[key] == compat[key] == (DEFAULT + other)[key];
    }
  }

  // ----- detection -----

  predicate OccursAt(s: string, part: string, i: int) {
    0 <= i <= |s| - |part| && s[i..i + |part|] == part
  }

  predicate Contains(s: string, part: string) {
    exists i | 0 <= i <= |s| :: OccursAt(s, part, i)
  }

  predicate StartsWith(s: string, prefix: string) { prefix <= s }

  /** What detection looks at. */
  datatype Site = Site(id: string, provider: string, baseUrl: string)

  datatype Model = Model(site: Site, api: string, compat: Option<Compat>)

  predicate IsZai(m: Site) {
    m.provider == "zai" || m.provider == "zai-coding-cn" || Contains(m.baseUrl, "api.z.ai") || Contains(m.baseUrl, "open.bigmodel.cn")
  }

  predicate IsTogether(m: Site) {
    m.provider == "together" || Contains(m.baseUrl, "api.together.ai") || Contains(m.baseUrl, "api.together.xyz")
  }

  predicate IsMoonshot(m: Site) {
    m.provider == "moonshotai" || m.provider == "moonshotai-cn" || Contains(m.baseUrl, "api.moonshot.")
  }

  predicate IsOpenRouter(m: Site) { m.provider == "openrouter" || Contains(m.baseUrl, "openrouter.ai") }

  predicate IsWorkersAi(m: Site) {
    m.provider == "cloudflare-workers-ai" || Contains(m.baseUrl, "api.cloudflare.com")
  }

  predicate IsAiGateway(m: Site) {
    m.provider == "cloudflare-ai-gateway" || Contains(m.baseUrl, "gateway.ai.cloudflare.com")
  }

  predicate IsNvidia(m: Site) { m.provider == "nvidia" || Contains(m.baseUrl, "integrate.api.nvidia.com") }

  predicate IsAntLing(m: Site) { m.provider == "ant-ling" || Contains(m.baseUrl, "api.ant-ling.com") }

  predicate IsGrok(m: Site) { m.provider == "xai" || Contains(m.baseUrl, "api.x.ai") }

  predicate IsDeepSeek(m: Site) { m.provider == "deepseek" || Contains(m.baseUrl, "deepseek.com") }

  predicate IsNonStandard(m: Site) {
    || IsNvidia(m) || m.provider == "cerebras" || Contains(m.baseUrl, "cerebras.ai")
    || m.provider == "xai" || Contains(m.baseUrl, "api.x.ai")
    || IsTogether(m) || Contains(m.baseUrl, "chutes.ai") || Contains(m.baseUrl, "deepseek.com")
    || IsZai(m) || IsMoonshot(m) || m.provider == "opencode" || Contains(m.baseUrl, "opencode.ai")
    || IsWorkersAi(m) || IsAiGateway(m) || IsAntLing(m)
  }

  predicate UsesMaxTokens(m: Site) {
    || Contains(m.baseUrl, "chutes.ai") || IsMoonshot(m) || IsAiGateway(m) || IsTogether(m) || IsNvidia(m)
    || IsAntLing(m) || IsZai(m)
  }

  const REASONING_ONLY: set<string> := {"deepseek-ai/DeepSeek-R1", "MiniMaxAI/MiniMax-M2.7"}

  function ThinkingFormat(m: Site): string {
    if IsDeepSeek(m) then "deepseek"
    else if IsZai(m) then "zai"
    else if IsTogether(m) && !(IsTogether(m) && m.id in REASONING_ONLY) then "together"
    else if IsAntLing(m) then "ant-ling"
    else if IsOpenRouter(m) then "openrouter"
    else "openai"
  }

  /** `^~?anthropic/`, for models served by openrouter itself. */
  predicate HasAnthropicCache(m: Site) {
    m.provider == "openrouter" && (StartsWith(m.id, "anthropic/") || StartsWith(m.id, "~anthropic/"))
  }

  predicate KeepsDeveloperRole(m: Site) {
    IsOpenRouter(m) && (StartsWith(m.id, "anthropic/") || StartsWith(m.id, "openai/"))
  }

  /** The dictionary before the cache format is added. */
  function Settings(store: bool, developer: bool, effort: bool, tokens: string, reasoning: bool, thinking: string,
                    strict: bool, longCache: bool): (compat: Compat)
    ensures compat.Keys == DEFAULT.Keys
  {
    map[
      "supportsStore" := Flag(store),
      "supportsDeveloperRole" := Flag(developer),
      "supportsReasoningEffort" := Flag(effort),
      "supportsUsageInStreaming" := Flag(true),
      "maxTokensField" := Text(tokens),
      "requiresToolResultName" := Flag(false),
      "requiresAssistantAfterToolResult" := Flag(false),
      "requiresThinkingAsText" := Flag(false),
      "requiresReasoningContentOnAssistantMessages" := Flag(reasoning),
      "thinkingFormat" := Text(thinking),
      "openRouterRouting" := EMPTY,
      "vercelGatewayRouting" := EMPTY,
      "chatTemplateKwargs" := EMPTY,
      "zaiToolStream" := Flag(false),
      "supportsStrictMode" := Flag(strict),
      "supportsOpenAIGrammarTools" := Flag(false),
      "sendSessionAffinityHeaders" := Flag(false),
      "supportsLongCacheRetention" := Flag(longCache)
    ]
  }

  /** detect_openai_completions_compat */
  function Detect(m: Site): Compat {
    var compat := Settings(
      !IsNonStandard(m),
      KeepsDeveloperRole(m) || (!IsNonStandard(m) && !IsOpenRouter(m)),
      !(IsGrok(m) || IsZai(m) || IsMoonshot(m) || IsTogether(m) || IsAiGateway(m) || IsNvidia(m) || IsAntLing(m)),
      if UsesMaxTokens(m) then "max_tokens" else "max_completion_tokens",
      IsDeepSeek(m),
      ThinkingFormat(m),
      !(IsMoonshot(m) || IsTogether(m) || IsAiGateway(m) || IsNvidia(m)),
      !(IsTogether(m) || IsWorkersAi(m) || IsAiGateway(m) || IsNvidia(m) || IsAntLing(m)));
    if HasAnthropicCache(m) then compat["cacheControlFormat" := Text("anthropic")] else compat
  }

  /** Detection always settles every default key; only the cache format is extra. */
  lemma DetectedKeys(m: Site)
    ensures Detect(m).Keys == DEFAULT.Keys + (if HasAnthropicCache(m) then {"cacheControlFormat"} else {})
    ensures DEFAULT + Detect(m) == Detect(m)
  {
    hide Settings, IsNonStandard, IsOpenRouter, KeepsDeveloperRole, IsGrok, IsZai, IsMoonshot, IsTogether, IsAiGateway;
    hide IsNvidia, IsAntLing, IsWorkersAi, IsDeepSeek, UsesMaxTokens, ThinkingFormat, HasAnthropicCache;
  }

  // ----- the detected settings, family by family -----

  predicate Has(compat: Compat, key: string, value: Value) { key in compat && compat[key] == value }

  predicate SettlesRole(compat: Compat, store: bool, developer: bool, effort: bool, tokens: string) {
    && Has(compat, "supportsStore", Flag(store)) && Has(compat, "supportsDeveloperRole", Flag(developer))
    && Has(compat, "supportsReasoningEffort", Flag(effort)) && Has(compat, "maxTokensField", Text(tokens))
  }

  predicate SettlesRest(compat: Compat, thinking: string, strict: bool, longCache: bool) {
    && Has(compat, "thinkingFormat", Text(thinking)) && Has(compat, "supportsStrictMode", Flag(strict))
    && Has(compat, "supportsLongCacheRetention", Flag(longCache))
    && Has(compat, "requiresReasoningContentOnAssistantMessages", Flag(thinking == "deepseek"))
  }

  /** The settings that detection varies. */
  predicate Settles(compat: Compat, store: bool, developer: bool, effort: bool, tokens: string, thinking: string,
                    strict: bool, longCache: bool)
  {
    SettlesRole(compat, store, developer, effort, tokens) && SettlesRest(compat, thinking, strict, longCache)
  }

  lemma SettingsStore(store: bool, developer: bool, effort: bool, tokens: string, reasoning: bool, thinking: string,
                      strict: bool, longCache: bool)
    ensures var compat := Settings(store, developer, effort, tokens, reasoning, thinking, strict, longCache);
            Has(compat, "supportsStore", Flag(store)) && Has(compat, "supportsDeveloperRole", Flag(developer))
  {
  }

  lemma SettingsEffort(store: bool, developer: bool, effort: bool, tokens: string, reasoning: bool, thinking: string,
                       strict: bool, longCache: bool)
    ensures var compat := Settings(store, developer, effort, tokens, reasoning, thinking, strict, longCache);
            Has(compat, "supportsReasoningEffort", Flag(effort)) && Has(compat, "maxTokensField", Text(tokens))
  {
  }

  lemma SettingsRole(store: bool, developer: bool, effort: bool, tokens: string, reasoning: bool, thinking: string,
                     strict: bool, longCache: bool)
    ensures SettlesRole(Settings(store, developer, effort, tokens, reasoning, thinking, strict, longCache),
                        store, developer, effort, tokens)
  {
    hide Settings;
    SettingsStore(store, developer, effort, tokens, reasoning, thinking, strict, longCache);
    SettingsEffort(store, developer, effort, tokens, reasoning, thinking, strict, longCache);
  }

  lemma SettingsRest(store: bool, developer: bool, effort: bool, tokens: string, reasoning: bool, thinking: string,
                     strict: bool, longCache: bool)
    requires reasoning == (thinking == "deepseek")
    ensures SettlesRest(Settings(store, developer, effort, tokens, reasoning, thinking, strict, longCache),
                        thinking, strict, longCache)
  {
  }

  lemma CacheFormatApart(compat: Compat, v: Value)
    ensures forall store, developer, effort, tokens ::
              SettlesRole(compat, store, developer, effort, tokens) ==>
              SettlesRole(compat["cacheControlFormat" := v], store, developer, effort, tokens)
    ensures forall thinking, strict, longCache ::
              SettlesRest(compat, thinking, strict, longCache) ==>
              SettlesRest(compat["cacheControlFormat" := v], thinking, strict, longCache)
  {
  }

  datatype Family =
    | Nvidia | Cerebras | Grok | Together | Chutes | DeepSeek | Zai | Moonshot | Opencode | WorkersAi | AiGateway
    | AntLing | OpenRouter

  predicate IsOf(m: Site, f: Family) {
    match f
    case Nvidia => IsNvidia(m)
    case Cerebras => m.provider == "cerebras" || Contains(m.baseUrl, "cerebras.ai")
    case Grok => IsGrok(m)
    case Together => IsTogether(m)
    case Chutes => Contains(m.baseUrl, "chutes.ai")
    case DeepSeek => IsDeepSeek(m)
    case Zai => IsZai(m)
    case Moonshot => IsMoonshot(m)
    case Opencode => m.provider == "opencode" || Contains(m.baseUrl, "opencode.ai")
    case WorkersAi => IsWorkersAi(m)
    case AiGateway => IsAiGateway(m)
    case AntLing => IsAntLing(m)
    case OpenRouter => IsOpenRouter(m)
  }

  /** The site shows no sign of any other family. */
  predicate NoOther(m: Site, f: Family) { forall other: Family | other != f :: !IsOf(m, other) }

  lemma ThinkingNamesDeepSeek(m: Site)
    ensures IsDeepSeek(m) == (ThinkingFormat(m) == "deepseek")
  {
    hide Contains, IsDeepSeek, IsZai, IsTogether, IsAntLing, IsOpenRouter;
  }

  lemma DetectSettles(m: Site)
    ensures Settles(Detect(m), !IsNonStandard(m), KeepsDeveloperRole(m) || (!IsNonStandard(m) && !IsOpenRouter(m)),
                    !(IsGrok(m) || IsZai(m) || IsMoonshot(m) || IsTogether(m) || IsAiGateway(m) || IsNvidia(m) || IsAntLing(m)),
                    if UsesMaxTokens(m) then "max_tokens" else "max_completion_tokens", ThinkingFormat(m),
                    !(IsMoonshot(m) || IsTogether(m) || IsAiGateway(m) || IsNvidia(m)),
                    !(IsTogether(m) || IsWorkersAi(m) || IsAiGateway(m) || IsNvidia(m) || IsAntLing(m)))
  {
    hide Settings, SettlesRole, SettlesRest, Contains;
    hide IsNonStandard, KeepsDeveloperRole, IsGrok, IsTogether, IsMoonshot, IsOpenRouter, IsWorkersAi, IsAiGateway, IsNvidia;
    hide IsAntLing, UsesMaxTokens, HasAnthropicCache, IsZai, IsDeepSeek, ThinkingFormat;
    var (store, developer) := (!IsNonStandard(m), KeepsDeveloperRole(m) || (!IsNonStandard(m) && !IsOpenRouter(m)));
    var effort := !(IsGrok(m) || IsZai(m) || IsMoonshot(m) || IsTogether(m) || IsAiGateway(m) || IsNvidia(m) || IsAntLing(m));
    var tokens := if UsesMaxTokens(m) then "max_tokens" else "max_completion_tokens";
    var (reasoning, thinking) := (IsDeepSeek(m), ThinkingFormat(m));
    var strict := !(IsMoonshot(m) || IsTogether(m) || IsAiGateway(m) || IsNvidia(m));
    var longCache := !(IsTogether(m) || IsWorkersAi(m) || IsAiGateway(m) || IsNvidia(m) || IsAntLing(m));
    ThinkingNamesDeepSeek(m);
    SettingsRole(store, developer, effort, tokens, reasoning, thinking, strict, longCache);
    SettingsRest(store, developer, effort, tokens, reasoning, thinking, strict, longCache);
    CacheFormatApart(Settings(store, developer, effort, tokens, reasoning, thinking, strict, longCache), Text("anthropic"));
  }

  lemma Others(m: Site, f: Family)
    requires NoOther(m, f)
    ensures (f != Nvidia ==> !IsOf(m, Nvidia)) && (f != Cerebras ==> !IsOf(m, Cerebras)) && (f != Grok ==> !IsOf(m, Grok))
    ensures (f != Together ==> !IsOf(m, Together)) && (f != Chutes ==> !IsOf(m, Chutes)) && (f != DeepSeek ==> !IsOf(m, DeepSeek))
    ensures (f != Zai ==> !IsOf(m, Zai)) && (f != Moonshot ==> !IsOf(m, Moonshot)) && (f != Opencode ==> !IsOf(m, Opencode))
    ensures (f != WorkersAi ==> !IsOf(m, WorkersAi)) && (f != AiGateway ==> !IsOf(m, AiGateway))
    ensures (f != AntLing ==> !IsOf(m, AntLing)) && (f != OpenRouter ==> !IsOf(m, OpenRouter))
  {
  }

  lemma NvidiaSettings(m: Site)
    requires NoOther(m, Nvidia)
    requires m.provider == "nvidia" || Contains(m.baseUrl, "integrate.api.nvidia.com")
    ensures Settles(Detect(m), false, false, false, "max_tokens", "openai", false, false)
  {
    hide Contains, Settles, Detect;
    DetectSettles(m);
    Others(m, Nvidia);
  }

  lemma CerebrasSettings(m: Site)
    requires NoOther(m, Cerebras)
    requires m.provider == "cerebras" || Contains(m.baseUrl, "cerebras.ai")
    ensures Settles(Detect(m), false, false, true, "max_completion_tokens", "openai", true, true)
  {
    hide Contains, Settles, Detect;
    DetectSettles(m);
    Others(m, Cerebras);
  }

  lemma GrokSettings(m: Site)
    requires NoOther(m, Grok)
    requires m.provider == "xai" || Contains(m.baseUrl, "api.x.ai")
    ensures Settles(Detect(m), false, false, false, "max_completion_tokens", "openai", true, true)
  {
    hide Contains, Settles, Detect;
    DetectSettles(m);
    Others(m, Grok);
  }

  lemma TogetherSettings(m: Site)
    requires NoOther(m, Together)
    requires m.provider == "together" || Contains(m.baseUrl, "api.together.ai") || Contains(m.baseUrl, "api.together.xyz")
    ensures var reasoningOnly := m.id == "deepseek-ai/DeepSeek-R1" || m.id == "MiniMaxAI/MiniMax-M2.7";
            Settles(Detect(m), false, false, false, "max_tokens", if reasoningOnly then "openai" else "together", false, false)
  {
    hide Contains, Settles, Detect;
    DetectSettles(m);
    Others(m, Together);
  }

  lemma ChutesSettings(m: Site)
    requires NoOther(m, Chutes)
    requires Contains(m.baseUrl, "chutes.ai")
    ensures Settles(Detect(m), false, false, true, "max_tokens", "openai", true, true)
  {
    hide Contains, Settles, Detect;
    DetectSettles(m);
    Others(m, Chutes);
  }

  lemma DeepSeekSettings(m: Site)
    requires NoOther(m, DeepSeek)
    requires m.provider == "deepseek" || Contains(m.baseUrl, "deepseek.com")
    ensures var plain := !Contains(m.baseUrl, "deepseek.com");
            Settles(Detect(m), plain, plain, true, "max_completion_tokens", "deepseek", true, true)
  {
    hide Contains, Settles, Detect;
    DetectSettles(m);
    Others(m, DeepSeek);
  }

  lemma ZaiSettings(m: Site)
    requires NoOther(m, Zai)
    requires m.provider == "zai" || m.provider == "zai-coding-cn"
             || Contains(m.baseUrl, "api.z.ai") || Contains(m.baseUrl, "open.bigmodel.cn")
    ensures Settles(Detect(m), false, false, false, "max_tokens", "zai", true, true)
  {
    hide Contains, Settles, Detect;
    DetectSettles(m);
    Others(m, Zai);
  }

  lemma MoonshotSettings(m: Site)
    requires NoOther(m, Moonshot)
    requires m.provider == "moonshotai" || m.provider == "moonshotai-cn" || Contains(m.baseUrl, "api.moonshot.")
    ensures Settles(Detect(m), false, false, false, "max_tokens", "openai", false, true)
  {
    hide Contains, Settles, Detect;
    DetectSettles(m);
    Others(m, Moonshot);
  }

  lemma OpencodeSettings(m: Site)
    requires NoOther(m, Opencode)
    requires m.provider == "opencode" || Contains(m.baseUrl, "opencode.ai")
    ensures Settles(Detect(m), false, false, true, "max_completion_tokens", "openai", true, true)
  {
    hide Contains, Settles, Detect;
    DetectSettles(m);
    Others(m, Opencode);
  }

  lemma WorkersAiSettings(m: Site)
    requires NoOther(m, WorkersAi)
    requires m.provider == "cloudflare-workers-ai" || Contains(m.baseUrl, "api.cloudflare.com")
    ensures Settles(Detect(m), false, false, true, "max_completion_tokens", "openai", true, false)
  {
    hide Contains, Settles, Detect;
    DetectSettles(m);
    Others(m, WorkersAi);
  }

  lemma AiGatewaySettings(m: Site)
    requires NoOther(m, AiGateway)
    requires m.provider == "cloudflare-ai-gateway" || Contains(m.baseUrl, "gateway.ai.cloudflare.com")
    ensures Settles(Detect(m), false, false, false, "max_tokens", "openai", false, false)
  {
    hide Contains, Settles, Detect;
    DetectSettles(m);
    Others(m, AiGateway);
  }

  lemma AntLingSettings(m: Site)
    requires NoOther(m, AntLing)
    requires m.provider == "ant-ling" || Contains(m.baseUrl, "api.ant-ling.com")
    ensures Settles(Detect(m), false, false, false, "max_tokens", "ant-ling", true, false)
  {
    hide Contains, Settles, Detect;
    DetectSettles(m);
    Others(m, AntLing);
  }

  lemma OpenRouterSettings(m: Site)
    requires NoOther(m, OpenRouter)
    requires m.provider == "openrouter" || Contains(m.baseUrl, "openrouter.ai")
    ensures Settles(Detect(m), true, "anthropic/" <= m.id || "openai/" <= m.id, true, "max_completion_tokens", "openrouter", true, true)
  {
    hide Contains, Settles, Detect;
    DetectSettles(m);
    Others(m, OpenRouter);
  }

  lemma DefaultSettings()
    ensures Settings(true, true, true, "max_completion_tokens", false, "openai", true, true) == DEFAULT
  {
  }

  lemma Recorded(compat: Compat, key: string, value: Value)
    requires Has(compat, key, value) && key in DEFAULT && DEFAULT[key] != value
    ensures DeltaOf(compat) != map[]
  {
    assert key in DeltaOf(compat);
  }

  /** Nothing is recorded exactly for standard providers other than openrouter and deepseek. */
  lemma StandardProvidersNeedNothing(m: Site)
    ensures DeltaOf(Detect(m)) == map[] <==> !(IsNonStandard(m) || IsOpenRouter(m) || IsDeepSeek(m))
  {
    hide Contains, Settings, IsNvidia, IsZai, IsTogether, IsMoonshot, IsAiGateway, IsWorkersAi, IsAntLing;
    DetectSettles(m);
    if IsNonStandard(m) {
      Recorded(Detect(m), "supportsStore", Flag(false));
    } else if IsDeepSeek(m) {
      Recorded(Detect(m), "thinkingFormat", Text("deepseek"));
    } else if IsOpenRouter(m) {
      Recorded(Detect(m), "thinkingFormat", Text("openrouter"));
    } else {
      DefaultSettings();
    }
  }

  /** The cache format, which has no default, is settled for the anthropic models of openrouter itself. */
  lemma CacheFormat(m: Site)
    ensures "cacheControlFormat" in Detect(m) <==>
            m.provider == "openrouter" && ("anthropic/" <= m.id || "~anthropic/" <= m.id)
    ensures "cacheControlFormat" in Detect(m) ==> Detect(m)["cacheControlFormat"] == Text("anthropic")
  {
    hide Detect;
    DetectedKeys(m);
    CacheFormatValue(m);
  }

  lemma CacheFormatValue(m: Site)
    ensures HasAnthropicCache(m) ==> Has(Detect(m), "cacheControlFormat", Text("anthropic"))
  {
  }

  // ----- the metadata pass -----

  function Explicit(m: Model): Compat { if m.compat.Some? then m.compat.value else map[] }

  function Merged(m: Model): Compat { DeltaOf(Detect(m.site)) + Explicit(m) }

  const COMPLETIONS := "openai-completions"

  function Annotate(m: Model): Model {
    if m.api != COMPLETIONS then m
    else m.(compat := if Merged(m) == map[] then None else Some(Merged(m)))
  }

  /** What a client that knows the defaults sees. */
  function Effective(m: Model): Compat { DEFAULT + Explicit(m) }

  /** The pass records exactly enough: over the defaults it yields what was detected, under what was explicit. */
  lemma AnnotationIsLossless(m: Model)
    requires m.api == COMPLETIONS
    ensures Effective(Annotate(m)) == Detect(m.site) + Explicit(m)
  {
    hide Detect;
    assert Explicit(Annotate(m)) == Merged(m);
    DeltaIsLossless(Detect(m.site), Explicit(m));
    DetectedKeys(m.site);
    assert DEFAULT + (Detect(m.site) + Explicit(m)) == (DEFAULT + Detect(m.site)) + Explicit(m);
  }

  /** The pass leaves other interfaces alone, and no empty dictionary behind. */
  lemma AnnotationIsTidy(m: Model)
    ensures Annotate(m).site == m.site && Annotate(m).api == m.api
    ensures m.api != "openai-completions" ==> Annotate(m) == m
    ensures m.api == "openai-completions" ==>
              match Annotate(m).compat
              case None => m.compat.None? || m.compat == Some(map[])
              case Some(compat) => compat != map[] && forall key | key in Explicit(m) :: key in compat && compat[key] == Explicit(m)[key]
  {
    hide Detect, DeltaOf;
    if m.api == COMPLETIONS && Merged(m) == map[] && m.compat.Some? {
      assert m.compat.value.Keys <= Merged(m).Keys;
      assert m.compat.value == map[];
    }
  }

  lemma AnnotationIsIdempotent(m: Model)
    ensures Annotate(Annotate(m)) == Annotate(m)
  {
    var once := Annotate(m);
    if m.api == COMPLETIONS {
      assert Explicit(once) == Merged(m);
      assert Merged(once) == Merged(m);
    }
  }

  predicate Truthy(v: Value) {
    match v
    case Flag(b) => b
    case Text(s) => s != ""
    case Object(fields) => fields != map[]
  }

  predicate SupportsDirectReasoningEffort(m: Model) {
    if m.api == "anthropic-messages" then
      "forceAdaptiveThinking" in Explicit(m) && Truthy(Explicit(m)["forceAdaptiveThinking"])
    else if m.api in ["openai-responses", "azure-openai-responses", "openai-codex-responses"] then true
    else if m.api != COMPLETIONS then false
    else
      var compat := Detect(m.site) + Explicit(m);
      && "thinkingFormat" in compat && compat["thinkingFormat"] == Text("openai")
      && "supportsReasoningEffort" in compat && Truthy(compat["supportsReasoningEffort"])
  }

  /** The question can be asked before or after the pass. */
  lemma ReasoningEffortUnaffected(m: Model)
    ensures SupportsDirectReasoningEffort(Annotate(m)) == SupportsDirectReasoningEffort(m)
  {
    hide Detect;
    if m.api == COMPLETIONS {
      assert Explicit(Annotate(m)) == Merged(m);
      assert Detect(m.site) + Merged(m) == Detect(m.site) + Explicit(m);
    }
  }

  // ----- the pass as the code runs it, on a model it changes in place -----

  class ModelDict {
    const site: Site
    const api: string
    var compat: Option<Compat>

    function View(): Model
      reads this
    {
      Model(site, api, compat)
    }

    constructor (m: Model)
      ensures View() == m
    {
      site, api, compat := m.site, m.api, m.compat;
    }

    method ApplyCompletionsCompat(items: seq<(string, Value)>)
      requires DistinctKeys(items) && Dict(items) == Detect(View().site)
      modifies this`compat
      ensures View() == Annotate(old(View()))
    {
      if api != COMPLETIONS {
        return;
      }
      var detected := CompatDelta(items);
      var merged := detected + (if compat.Some? then compat.value else map[]);
      if merged != map[] {
        compat := Some(merged);
      } else {
        compat := None;
      }
    }
  }
}
