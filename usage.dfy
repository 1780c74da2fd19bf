/**
 * Usage recording wrappers (src/yuutrace/usage.py): build or accept a
 * usage delta and append one `yuu.llm.usage` or `yuu.tool.usage` event.
 */
module Usage {
  import opened Wrappers
  import opened Types
  import Otel
  import opened Spans

  /**
   * The delta `record_llm_usage` serialises. A supplied delta is used as is
   * and every keyword argument is ignored; without one, `provider` and
   * `model` are both required and the remaining arguments are copied
   * unchanged into the new delta.
   */
  function ResolveLlmUsage(
    usage: Option<LlmUsageDelta>,
    provider: Option<string>, model: Option<string>, requestId: Option<string>,
    inputTokens: int, outputTokens: int, cacheReadTokens: int, cacheWriteTokens: int,
    totalTokens: Option<int>): (r: Result<LlmUsageDelta, RecordError>)
    ensures usage.Some? ==> r == Success(usage.value)
    ensures usage.None? ==> (r.Failure? <==> provider.None? || model.None?)
    ensures r.Failure? ==> r.error == TypeError
    ensures usage.None? && r.Success? ==> var d := r.value;
      && Some(d.provider) == provider && Some(d.model) == model && d.requestId == requestId
      && d.inputTokens == inputTokens && d.outputTokens == outputTokens
      && d.cacheReadTokens == cacheReadTokens && d.cacheWriteTokens == cacheWriteTokens
      && d.totalTokens == totalTokens
  {
    if usage.Some? then Success(usage.value)
    else if provider.None? || model.None? then Failure(TypeError)
    else Success(LlmUsageDelta(provider.value, model.value, requestId,
      inputTokens, outputTokens, cacheReadTokens, cacheWriteTokens, totalTokens))
  }

  /**
   * The keyword path with only `provider` and `model` gives a delta whose
   * counts are 0 and whose `request_id` and `total_tokens` are `None`:
   * the same defaults as the struct's own.
   */
  lemma ResolveLlmUsageDefaults(provider: string, model: string)
    ensures ResolveLlmUsage(None, Some(provider), Some(model), None, 0, 0, 0, 0, None)
      == Success(LlmUsageDelta(provider, model))
  {
  }

  /**
   * `record_llm_usage`: a missing struct with a missing provider or model
   * raises `TypeError` and adds no event, whether or not a span is
   * recording; otherwise one `yuu.llm.usage` event is appended exactly as
   * `add_event` does.
   */
  method RecordLlmUsage(
    span: Span,
    usage: Option<LlmUsageDelta>,
    provider: Option<string>, model: Option<string>, requestId: Option<string>,
    inputTokens: int, outputTokens: int, cacheReadTokens: int, cacheWriteTokens: int,
    totalTokens: Option<int>,
    now: nat) returns (r: Outcome<RecordError>)
    modifies span
    ensures var resolved := ResolveLlmUsage(usage, provider, model, requestId,
        inputTokens, outputTokens, cacheReadTokens, cacheWriteTokens, totalTokens);
      && (resolved.Failure? ==> r == Fail(TypeError) && span.events == old(span.events))
      && (resolved.Success? ==> (r.Pass? <==> old(span.recording)))
      && (resolved.Success? && r.Fail? ==> r.error == NoActiveSpanError)
      && (resolved.Success? && r.Pass? ==>
            span.events == old(span.events) + [SpanEvent(Otel.EventLlmUsage, Otel.LlmUsageToOtel(resolved.value), now)])
      && (r.Fail? ==> span.events == old(span.events))
    ensures span.recording == old(span.recording) && span.status == old(span.status)
  {
    var resolved := ResolveLlmUsage(usage, provider, model, requestId,
      inputTokens, outputTokens, cacheReadTokens, cacheWriteTokens, totalTokens);
    if resolved.Failure? {
      return Fail(resolved.error);
    }
    r := AddEvent(span, Otel.EventLlmUsage, Otel.LlmUsageToOtel(resolved.value), now);
  }

  /** `record_tool_usage`: one `yuu.tool.usage` event carrying `tool_usage_to_otel(usage)`. */
  method RecordToolUsage(span: Span, usage: ToolUsageDelta, now: nat) returns (r: Outcome<RecordError>)
    modifies span
    ensures r.Pass? <==> old(span.recording)
    ensures r.Fail? ==> r.error == NoActiveSpanError
    ensures span.events == if r.Pass?
      then old(span.events) + [SpanEvent(Otel.EventToolUsage, Otel.ToolUsageToOtel(usage), now)]
      else old(span.events)
    ensures span.recording == old(span.recording) && span.status == old(span.status)
  {
    r := AddEvent(span, Otel.EventToolUsage, Otel.ToolUsageToOtel(usage), now);
  }
}
