/**
 * Attribute keys, event names and the serialisers that flatten the delta
 * types into OpenTelemetry attribute maps (src/yuutrace/otel.py).
 */
module Otel {
  import opened Wrappers
  import opened Types

  // Conversation span attributes
  const AttrConversationId := "yuu.conversation.id"
  const AttrAgent := "yuu.agent"
  const AttrConversationTags := "yuu.conversation.tags"
  const AttrConversationModel := "yuu.conversation.model"

  // Event names
  const EventCost := "yuu.cost"
  const EventLlmUsage := "yuu.llm.usage"
  const EventToolUsage := "yuu.tool.usage"

  // yuu.cost attributes
  const AttrCostCategory := "yuu.cost.category"
  const AttrCostCurrency := "yuu.cost.currency"
  const AttrCostAmount := "yuu.cost.amount"
  const AttrCostSource := "yuu.cost.source"
  const AttrCostPricingId := "yuu.cost.pricing_id"

  // yuu.llm attributes, shared by cost and usage events
  const AttrLlmProvider := "yuu.llm.provider"
  const AttrLlmModel := "yuu.llm.model"
  const AttrLlmRequestId := "yuu.llm.request_id"

  // yuu.llm.usage attributes
  const AttrLlmUsageInputTokens := "yuu.llm.usage.input_tokens"
  const AttrLlmUsageOutputTokens := "yuu.llm.usage.output_tokens"
  const AttrLlmUsageCacheReadTokens := "yuu.llm.usage.cache_read_tokens"
  const AttrLlmUsageCacheWriteTokens := "yuu.llm.usage.cache_write_tokens"
  const AttrLlmUsageTotalTokens := "yuu.llm.usage.total_tokens"

  // yuu.tool attributes, shared by cost and usage events
  const AttrToolName := "yuu.tool.name"
  const AttrToolCallId := "yuu.tool.call_id"

  // yuu.tool.usage attributes
  const AttrToolUsageUnit := "yuu.tool.usage.unit"
  const AttrToolUsageQuantity := "yuu.tool.usage.quantity"

  /** The key set of each event kind. */
  const CostKeys: set<string> := {
    AttrCostCategory, AttrCostCurrency, AttrCostAmount, AttrCostSource, AttrCostPricingId,
    AttrLlmProvider, AttrLlmModel, AttrLlmRequestId, AttrToolName, AttrToolCallId }
  const LlmUsageKeys: set<string> := {
    AttrLlmProvider, AttrLlmModel, AttrLlmRequestId,
    AttrLlmUsageInputTokens, AttrLlmUsageOutputTokens,
    AttrLlmUsageCacheReadTokens, AttrLlmUsageCacheWriteTokens, AttrLlmUsageTotalTokens }
  const ToolUsageKeys: set<string> := {
    AttrToolName, AttrToolCallId, AttrToolUsageUnit, AttrToolUsageQuantity }

  /** A flat OpenTelemetry attribute value as the serialisers produce it. */
  datatype AttrValue = StrValue(s: string) | IntValue(i: int) | FloatValue(r: real) | BoolValue(b: bool)

  type Attributes = map<string, AttrValue>

  function OptStr(v: Option<string>): Option<AttrValue>
  {
    match v
    case Some(s) => Some(StrValue(s))
    case None => None
  }

  function OptInt(v: Option<int>): Option<AttrValue>
  {
    match v
    case Some(i) => Some(IntValue(i))
    case None => None
  }

  /** `_set_optional`: write `key` only when a value is present. */
  function SetOptional(attrs: Attributes, key: string, value: Option<AttrValue>): Attributes
  {
    if value.Some? then attrs[key := value.value] else attrs
  }

  /**
   * `_set_optional` with no value leaves the map as it was; with a value it
   * adds or overwrites `key` and no other key.
   */
  lemma SetOptionalEffect(attrs: Attributes, key: string, value: Option<AttrValue>, k: string)
    ensures value.None? ==> SetOptional(attrs, key, value) == attrs
    ensures value.Some? ==> SetOptional(attrs, key, value).Keys == attrs.Keys + {key}
    ensures value.Some? ==> SetOptional(attrs, key, value)[key] == value.value
    ensures k != key && k in attrs ==> SetOptional(attrs, key, value)[k] == attrs[k]
  {
  }

  /** `m` holds `value` under `key` when present, and lacks `key` when absent. */
  predicate Holds(m: Attributes, key: string, value: Option<AttrValue>)
  {
    (key in m <==> value.Some?) && (value.Some? ==> m[key] == value.value)
  }

  /** `cost_delta_to_otel`: three fixed keys, then seven optional ones in source order. */
  function CostDeltaToOtel(cost: CostDelta): (r: Attributes)
    ensures r.Keys <= CostKeys
  {
    var attrs := map[
      AttrCostCategory := StrValue(cost.category.Value()),
      AttrCostCurrency := StrValue(cost.currency.Value()),
      AttrCostAmount := FloatValue(cost.amount)];
    var attrs := SetOptional(attrs, AttrCostSource, OptStr(cost.source));
    var attrs := SetOptional(attrs, AttrCostPricingId, OptStr(cost.pricingId));
    var attrs := SetOptional(attrs, AttrLlmProvider, OptStr(cost.llmProvider));
    var attrs := SetOptional(attrs, AttrLlmModel, OptStr(cost.llmModel));
    var attrs := SetOptional(attrs, AttrLlmRequestId, OptStr(cost.llmRequestId));
    var attrs := SetOptional(attrs, AttrToolName, OptStr(cost.toolName));
    SetOptional(attrs, AttrToolCallId, OptStr(cost.toolCallId))
  }

  /** The three required cost keys hold the enum string values and the amount. */
  lemma CostDeltaToOtelRequired(cost: CostDelta)
    ensures var r := CostDeltaToOtel(cost);
      && Holds(r, AttrCostCategory, Some(StrValue(cost.category.Value())))
      && Holds(r, AttrCostCurrency, Some(StrValue(cost.currency.Value())))
      && Holds(r, AttrCostAmount, Some(FloatValue(cost.amount)))
  {
    RequiredKeyKept(cost, AttrCostCategory);
    RequiredKeyKept(cost, AttrCostCurrency);
    RequiredKeyKept(cost, AttrCostAmount);
  }

  /** A key outside the seven optional ones keeps the value of the initial literal. */
  lemma RequiredKeyKept(cost: CostDelta, k: string)
    requires k in {AttrCostCategory, AttrCostCurrency, AttrCostAmount}
    ensures var base := map[
      AttrCostCategory := StrValue(cost.category.Value()),
      AttrCostCurrency := StrValue(cost.currency.Value()),
      AttrCostAmount := FloatValue(cost.amount)];
      k in CostDeltaToOtel(cost) && CostDeltaToOtel(cost)[k] == base[k]
  {
  }

  /** Each optional cost key is present exactly when its field is, and then holds it. */
  lemma CostDeltaToOtelOptional(cost: CostDelta)
    ensures var r := CostDeltaToOtel(cost);
      && Holds(r, AttrCostSource, OptStr(cost.source))
      && Holds(r, AttrCostPricingId, OptStr(cost.pricingId))
      && Holds(r, AttrLlmProvider, OptStr(cost.llmProvider))
      && Holds(r, AttrLlmModel, OptStr(cost.llmModel))
      && Holds(r, AttrLlmRequestId, OptStr(cost.llmRequestId))
      && Holds(r, AttrToolName, OptStr(cost.toolName))
      && Holds(r, AttrToolCallId, OptStr(cost.toolCallId))
  {
  }

  /** `llm_usage_to_otel`. */
  function LlmUsageToOtel(usage: LlmUsageDelta): (r: Attributes)
    ensures AttrLlmProvider in r && r[AttrLlmProvider] == StrValue(usage.provider)
    ensures AttrLlmModel in r && r[AttrLlmModel] == StrValue(usage.model)
    ensures AttrLlmUsageInputTokens in r && r[AttrLlmUsageInputTokens] == IntValue(usage.inputTokens)
    ensures AttrLlmUsageOutputTokens in r && r[AttrLlmUsageOutputTokens] == IntValue(usage.outputTokens)
    ensures AttrLlmUsageCacheReadTokens in r && r[AttrLlmUsageCacheReadTokens] == IntValue(usage.cacheReadTokens)
    ensures AttrLlmUsageCacheWriteTokens in r && r[AttrLlmUsageCacheWriteTokens] == IntValue(usage.cacheWriteTokens)
    ensures AttrLlmRequestId in r <==> usage.requestId.Some?
    ensures AttrLlmUsageTotalTokens in r <==> usage.totalTokens.Some?
    ensures usage.requestId.Some? ==> r[AttrLlmRequestId] == StrValue(usage.requestId.value)
    ensures usage.totalTokens.Some? ==> r[AttrLlmUsageTotalTokens] == IntValue(usage.totalTokens.value)
    ensures r.Keys <= LlmUsageKeys
  {
    var attrs := map[
      AttrLlmProvider := StrValue(usage.provider),
      AttrLlmModel := StrValue(usage.model),
      AttrLlmUsageInputTokens := IntValue(usage.inputTokens),
      AttrLlmUsageOutputTokens := IntValue(usage.outputTokens),
      AttrLlmUsageCacheReadTokens := IntValue(usage.cacheReadTokens),
      AttrLlmUsageCacheWriteTokens := IntValue(usage.cacheWriteTokens)];
    var attrs := SetOptional(attrs, AttrLlmRequestId, OptStr(usage.requestId));
    SetOptional(attrs, AttrLlmUsageTotalTokens, OptInt(usage.totalTokens))
  }

  /** `tool_usage_to_otel`. */
  function ToolUsageToOtel(usage: ToolUsageDelta): (r: Attributes)
    ensures AttrToolName in r && r[AttrToolName] == StrValue(usage.name)
    ensures AttrToolUsageUnit in r && r[AttrToolUsageUnit] == StrValue(usage.unit)
    ensures AttrToolUsageQuantity in r && r[AttrToolUsageQuantity] == FloatValue(usage.quantity)
    ensures AttrToolCallId in r <==> usage.callId.Some?
    ensures usage.callId.Some? ==> r[AttrToolCallId] == StrValue(usage.callId.value)
    ensures r.Keys <= ToolUsageKeys
  {
    var attrs := map[
      AttrToolName := StrValue(usage.name),
      AttrToolUsageUnit := StrValue(usage.unit),
      AttrToolUsageQuantity := FloatValue(usage.quantity)];
    SetOptional(attrs, AttrToolCallId, OptStr(usage.callId))
  }

  // Reference decoders: each reads back what its serialiser wrote, so the
  // round-trip lemmas below show that no field is lost or overwritten.

  function GetStr(attrs: Attributes, key: string): Option<string>
  {
    if key in attrs && attrs[key].StrValue? then Some(attrs[key].s) else None
  }

  function GetInt(attrs: Attributes, key: string): Option<int>
  {
    if key in attrs && attrs[key].IntValue? then Some(attrs[key].i) else None
  }

  function GetFloat(attrs: Attributes, key: string): Option<real>
  {
    if key in attrs && attrs[key].FloatValue? then Some(attrs[key].r) else None
  }

  function CostDeltaFromOtel(attrs: Attributes): Option<CostDelta>
  {
    var category := if GetStr(attrs, AttrCostCategory).Some? then ParseCostCategory(GetStr(attrs, AttrCostCategory).value) else None;
    var currency := if GetStr(attrs, AttrCostCurrency).Some? then ParseCurrency(GetStr(attrs, AttrCostCurrency).value) else None;
    var amount := GetFloat(attrs, AttrCostAmount);
    if category.None? || currency.None? || amount.None? then None
    else Some(CostDelta(category.value, currency.value, amount.value,
      GetStr(attrs, AttrCostSource), GetStr(attrs, AttrCostPricingId),
      GetStr(attrs, AttrLlmProvider), GetStr(attrs, AttrLlmModel), GetStr(attrs, AttrLlmRequestId),
      GetStr(attrs, AttrToolName), GetStr(attrs, AttrToolCallId)))
  }

  function LlmUsageFromOtel(attrs: Attributes): Option<LlmUsageDelta>
  {
    var provider := GetStr(attrs, AttrLlmProvider);
    var model := GetStr(attrs, AttrLlmModel);
    var input := GetInt(attrs, AttrLlmUsageInputTokens);
    var output := GetInt(attrs, AttrLlmUsageOutputTokens);
    var cacheRead := GetInt(attrs, AttrLlmUsageCacheReadTokens);
    var cacheWrite := GetInt(attrs, AttrLlmUsageCacheWriteTokens);
    if provider.None? || model.None? || input.None? || output.None? || cacheRead.None? || cacheWrite.None? then None
    else Some(LlmUsageDelta(provider.value, model.value, GetStr(attrs, AttrLlmRequestId),
      input.value, output.value, cacheRead.value, cacheWrite.value, GetInt(attrs, AttrLlmUsageTotalTokens)))
  }

  function ToolUsageFromOtel(attrs: Attributes): Option<ToolUsageDelta>
  {
    var name := GetStr(attrs, AttrToolName);
    var unit := GetStr(attrs, AttrToolUsageUnit);
    var quantity := GetFloat(attrs, AttrToolUsageQuantity);
    if name.None? || unit.None? || quantity.None? then None
    else Some(ToolUsageDelta(name := name.value, unit := unit.value, quantity := quantity.value,
      callId := GetStr(attrs, AttrToolCallId)))
  }

  /** Reading back what `cost_delta_to_otel` wrote recovers the delta: no field is lost or overwritten. */
  lemma CostDeltaRoundTrip(cost: CostDelta)
    ensures CostDeltaFromOtel(CostDeltaToOtel(cost)) == Some(cost)
  {
    CostDeltaToOtelRequired(cost);
    CostDeltaToOtelOptional(cost);
    CostDeltaFromHolds(CostDeltaToOtel(cost), cost);
  }

  /** Any map holding a delta's fields under the cost keys decodes to that delta. */
  lemma CostDeltaFromHolds(attrs: Attributes, cost: CostDelta)
    requires Holds(attrs, AttrCostCategory, Some(StrValue(cost.category.Value())))
    requires Holds(attrs, AttrCostCurrency, Some(StrValue(cost.currency.Value())))
    requires Holds(attrs, AttrCostAmount, Some(FloatValue(cost.amount)))
    requires Holds(attrs, AttrCostSource, OptStr(cost.source))
    requires Holds(attrs, AttrCostPricingId, OptStr(cost.pricingId))
    requires Holds(attrs, AttrLlmProvider, OptStr(cost.llmProvider))
    requires Holds(attrs, AttrLlmModel, OptStr(cost.llmModel))
    requires Holds(attrs, AttrLlmRequestId, OptStr(cost.llmRequestId))
    requires Holds(attrs, AttrToolName, OptStr(cost.toolName))
    requires Holds(attrs, AttrToolCallId, OptStr(cost.toolCallId))
    ensures CostDeltaFromOtel(attrs) == Some(cost)
  {
    CostCategoryValuesRoundTrip(cost.category, cost.category);
    CurrencyValueRoundTrip(cost.currency);
  }

  /** Reading back what `llm_usage_to_otel` wrote recovers the delta. */
  lemma LlmUsageRoundTrip(usage: LlmUsageDelta)
    ensures LlmUsageFromOtel(LlmUsageToOtel(usage)) == Some(usage)
  {
    var attrs := LlmUsageToOtel(usage);
    assert GetStr(attrs, AttrLlmRequestId) == usage.requestId;
    assert GetInt(attrs, AttrLlmUsageTotalTokens) == usage.totalTokens;
  }

  /** Reading back what `tool_usage_to_otel` wrote recovers the delta. */
  lemma ToolUsageRoundTrip(usage: ToolUsageDelta)
    ensures ToolUsageFromOtel(ToolUsageToOtel(usage)) == Some(usage)
  {
    var attrs := ToolUsageToOtel(usage);
    assert GetStr(attrs, AttrToolCallId) == usage.callId;
  }

  /** No serialised map is larger than its key set: 10, 8 and 4 keys. */
  lemma SerialisedSizes(cost: CostDelta, llm: LlmUsageDelta, tool: ToolUsageDelta)
    ensures |CostDeltaToOtel(cost)| <= 10
    ensures |LlmUsageToOtel(llm)| <= 8
    ensures |ToolUsageToOtel(tool)| <= 4
  {
    KeySetSizes();
    SubsetCardinality(CostDeltaToOtel(cost).Keys, CostKeys);
    SubsetCardinality(LlmUsageToOtel(llm).Keys, LlmUsageKeys);
    SubsetCardinality(ToolUsageToOtel(tool).Keys, ToolUsageKeys);
  }

  /** The constants are pairwise distinct, so each key set has one member per constant. */
  lemma KeySetSizes()
    ensures |CostKeys| == 10 && |LlmUsageKeys| == 8 && |ToolUsageKeys| == 4
  {
  }

  lemma SubsetCardinality<T>(a: set<T>, b: set<T>)
    requires a <= b
    ensures |a| <= |b|
  {
    assert b == a + (b - a);
  }
}
