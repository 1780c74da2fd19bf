/**
 * The delta types recorded by producers (src/yuutrace/types.py).
 *
 * The Python structs are frozen; Dafny datatypes are immutable values, so
 * every delta is fixed once built. Optional fields are `Option`s whose
 * default is `None`, and token counts default to 0, exactly as the
 * struct declarations give them.
 */
module Types {
  import opened Wrappers

  /** Category of a cost event; `Value()` is the enum member's string value. */
  datatype CostCategory = Llm | Tool {
    function Value(): string
    {
      match this
      case Llm => "llm"
      case Tool => "tool"
    }
  }

  /** Supported currencies: only US dollars. */
  datatype Currency = USD {
    function Value(): string
    {
      "USD"
    }
  }

  /** Python's `CostCategory(s)`: look a member up by its value. */
  function ParseCostCategory(s: string): (r: Option<CostCategory>)
    ensures r.Some? <==> s == "llm" || s == "tool"
    ensures r.Some? ==> r.value.Value() == s
  {
    if s == "llm" then Some(Llm)
    else if s == "tool" then Some(Tool)
    else None
  }

  /** Python's `Currency(s)`: look a member up by its value. */
  function ParseCurrency(s: string): (r: Option<Currency>)
    ensures r.Some? <==> s == "USD"
    ensures r.Some? ==> r.value.Value() == s
  {
    if s == "USD" then Some(USD) else None
  }

  /** Every category parses back from its own string value, and no two share one. */
  lemma CostCategoryValuesRoundTrip(c: CostCategory, d: CostCategory)
    ensures ParseCostCategory(c.Value()) == Some(c)
    ensures c.Value() == d.Value() ==> c == d
  {
  }

  /** The currency parses back from its own string value. */
  lemma CurrencyValueRoundTrip(c: Currency)
    ensures ParseCurrency(c.Value()) == Some(c)
  {
  }

  /** An incremental cost event; the seven descriptive fields default to `None`. */
  datatype CostDelta = CostDelta(
    category: CostCategory,
    currency: Currency,
    amount: real,
    source: Option<string> := None,
    pricingId: Option<string> := None,
    llmProvider: Option<string> := None,
    llmModel: Option<string> := None,
    llmRequestId: Option<string> := None,
    toolName: Option<string> := None,
    toolCallId: Option<string> := None)

  /** An incremental LLM token-usage event for one request. */
  datatype LlmUsageDelta = LlmUsageDelta(
    provider: string,
    model: string,
    requestId: Option<string> := None,
    inputTokens: int := 0,
    outputTokens: int := 0,
    cacheReadTokens: int := 0,
    cacheWriteTokens: int := 0,
    totalTokens: Option<int> := None)

  /** An incremental tool-usage event; name, unit and quantity are required. */
  datatype ToolUsageDelta = ToolUsageDelta(
    name: string,
    unit: string,
    quantity: real,
    callId: Option<string> := None)

  /** The declared defaults: a cost delta built from its three required fields has no optional field. */
  lemma CostDeltaDefaults(category: CostCategory, currency: Currency, amount: real)
    ensures var d := CostDelta(category, currency, amount);
      && d.source.None? && d.pricingId.None?
      && d.llmProvider.None? && d.llmModel.None? && d.llmRequestId.None?
      && d.toolName.None? && d.toolCallId.None?
  {
  }

  /** The declared defaults: zero tokens, no request id, no total. */
  lemma LlmUsageDeltaDefaults(provider: string, model: string)
    ensures var u := LlmUsageDelta(provider, model);
      && u.requestId.None? && u.totalTokens.None?
      && u.inputTokens == 0 && u.outputTokens == 0
      && u.cacheReadTokens == 0 && u.cacheWriteTokens == 0
  {
  }

  /** The declared default: no call id. */
  lemma ToolUsageDeltaDefaults(name: string, unit: string, quantity: real)
    ensures ToolUsageDelta(name := name, unit := unit, quantity := quantity).callId.None?
  {
  }
}
