/**
 * Cost recording wrappers (src/yuutrace/cost.py): validate, build a
 * `CostDelta` and append one `yuu.cost` event to the span.
 */
module Cost {
  import opened Wrappers
  import opened Types
  import Otel
  import opened Spans

  /**
   * The `CostDelta(...)` that `record_cost` builds from its keyword
   * arguments. `CostCategory(category)` is evaluated before
   * `Currency(currency)`, so an invalid category is reported even when the
   * currency is invalid too. Passing an enum member is the same as passing
   * its string value, so both arguments are strings here.
   */
  function BuildCostDelta(
    category: string, currency: string, amount: real,
    source: Option<string>, pricingId: Option<string>,
    llmProvider: Option<string>, llmModel: Option<string>, llmRequestId: Option<string>,
    toolName: Option<string>, toolCallId: Option<string>): (r: Result<CostDelta, RecordError>)
    ensures r.Success? <==> (category == "llm" || category == "tool") && currency == "USD"
    ensures ParseCostCategory(category).None? ==> r == Failure(InvalidEnumValue("CostCategory", category))
    ensures ParseCostCategory(category).Some? && ParseCurrency(currency).None? ==>
      r == Failure(InvalidEnumValue("Currency", currency))
    ensures r.Success? ==> var d := r.value;
      && d.category.Value() == category && d.currency.Value() == currency && d.amount == amount
      && d.source == source && d.pricingId == pricingId
      && d.llmProvider == llmProvider && d.llmModel == llmModel && d.llmRequestId == llmRequestId
      && d.toolName == toolName && d.toolCallId == toolCallId
  {
    match ParseCostCategory(category)
    case None => Failure(InvalidEnumValue("CostCategory", category))
    case Some(c) =>
      match ParseCurrency(currency)
      case None => Failure(InvalidEnumValue("Currency", currency))
      case Some(u) =>
        Success(CostDelta(c, u, amount, source, pricingId, llmProvider, llmModel, llmRequestId, toolName, toolCallId))
  }

  /** Building from a delta's own field values gives that delta back. */
  lemma BuildCostDeltaOfFields(d: CostDelta)
    ensures BuildCostDelta(d.category.Value(), d.currency.Value(), d.amount, d.source, d.pricingId,
      d.llmProvider, d.llmModel, d.llmRequestId, d.toolName, d.toolCallId) == Success(d)
  {
    CostCategoryValuesRoundTrip(d.category, d.category);
    CurrencyValueRoundTrip(d.currency);
  }

  /** `record_cost_delta`: one `yuu.cost` event carrying `cost_delta_to_otel(cost)`. */
  method RecordCostDelta(span: Span, cost: CostDelta, now: nat) returns (r: Outcome<RecordError>)
    modifies span
    ensures r.Pass? <==> old(span.recording)
    ensures r.Fail? ==> r.error == NoActiveSpanError
    ensures span.events == if r.Pass?
      then old(span.events) + [SpanEvent(Otel.EventCost, Otel.CostDeltaToOtel(cost), now)]
      else old(span.events)
    ensures span.recording == old(span.recording) && span.status == old(span.status)
  {
    r := AddEvent(span, Otel.EventCost, Otel.CostDeltaToOtel(cost), now);
  }

  /**
   * `record_cost`: an invalid category or currency fails with the enum's
   * `ValueError` and adds no event, whether or not a span is recording;
   * otherwise the built delta is recorded as by `record_cost_delta`.
   */
  method RecordCost(
    span: Span,
    category: string, currency: string, amount: real,
    source: Option<string>, pricingId: Option<string>,
    llmProvider: Option<string>, llmModel: Option<string>, llmRequestId: Option<string>,
    toolName: Option<string>, toolCallId: Option<string>,
    now: nat) returns (r: Outcome<RecordError>)
    modifies span
    ensures var built := BuildCostDelta(category, currency, amount, source, pricingId,
        llmProvider, llmModel, llmRequestId, toolName, toolCallId);
      && (built.Failure? ==> r == Fail(built.error) && span.events == old(span.events))
      && (built.Success? ==> (r.Pass? <==> old(span.recording)))
      && (built.Success? && r.Fail? ==> r.error == NoActiveSpanError)
      && (built.Success? && r.Pass? ==>
            span.events == old(span.events) + [SpanEvent(Otel.EventCost, Otel.CostDeltaToOtel(built.value), now)])
      && (r.Fail? ==> span.events == old(span.events))
    ensures span.recording == old(span.recording) && span.status == old(span.status)
  {
    var built := BuildCostDelta(category, currency, amount, source, pricingId,
      llmProvider, llmModel, llmRequestId, toolName, toolCallId);
    if built.Failure? {
      return Fail(built.error);
    }
    r := RecordCostDelta(span, built.value, now);
  }
}
