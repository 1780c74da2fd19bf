/**
 * The span primitive (src/yuutrace/span.py) over an explicit span handle.
 *
 * The ambient "current span" of OpenTelemetry becomes a `Span` object that
 * callers pass in; `recording` is what `is_recording()` reports. The clock
 * that stamps events is a parameter.
 */
module Spans {
  import opened Wrappers
  import Otel

  /** The exceptions the producer side raises. */
  datatype RecordError =
    | NoActiveSpanError
      /** `TypeError` from `record_llm_usage` when neither a delta nor provider and model are given. */
    | TypeError
      /** Python's `ValueError` from an enum lookup: `value` is not a valid `enumName`. */
    | InvalidEnumValue(enumName: string, value: string)

  datatype StatusCode = Unset | Ok | Error

  datatype Status = Status(code: StatusCode, description: Option<string>)

  /** One span event as the SDK stores it: a name, an attribute map and a timestamp. */
  datatype SpanEvent = SpanEvent(name: string, attributes: Otel.Attributes, timeUnixNano: nat)

  /** The exception passed to `set_span_error`: its class name, `str(error)` and traceback text. */
  datatype Exception = Exception(typeName: string, message: string, stacktrace: string)

  const ExceptionEventName := "exception"
  const AttrExceptionType := "exception.type"
  const AttrExceptionMessage := "exception.message"
  const AttrExceptionStacktrace := "exception.stacktrace"
  const AttrExceptionEscaped := "exception.escaped"

  /** A span: whether it is still recording, its events in insertion order and its status. */
  class Span {
    var recording: bool
    var events: seq<SpanEvent>
    var status: Status

    /** A fresh span: no events and status `UNSET`. */
    constructor (recording: bool)
      ensures this.recording == recording
      ensures events == [] && status == Status(Unset, None)
    {
      this.recording := recording;
      events := [];
      status := Status(Unset, None);
    }
  }

  /** `current_span`: the span itself while it records, `NoActiveSpanError` otherwise. */
  function CurrentSpan(span: Span): (r: Result<Span, RecordError>)
    reads span
    ensures r.Success? <==> span.recording
    ensures r.Success? ==> r.value == span
    ensures r.Failure? ==> r.error == NoActiveSpanError
  {
    if span.recording then Success(span) else Failure(NoActiveSpanError)
  }

  /**
   * `add_event`: append exactly one event to a recording span and change
   * nothing else; with no recording span, raise and append nothing.
   */
  method AddEvent(span: Span, name: string, attributes: Otel.Attributes, now: nat) returns (r: Outcome<RecordError>)
    modifies span
    ensures r.Pass? <==> old(span.recording)
    ensures r.Fail? ==> r.error == NoActiveSpanError
    ensures span.events == if r.Pass? then old(span.events) + [SpanEvent(name, attributes, now)] else old(span.events)
    ensures span.recording == old(span.recording) && span.status == old(span.status)
  {
    var current := CurrentSpan(span);
    if current.Failure? {
      return Fail(current.error);
    }
    current.value.events := current.value.events + [SpanEvent(name, attributes, now)];
    return Pass;
  }

  /**
   * The status `set_status(ERROR, description)` leaves: an `OK` status is
   * final in the OpenTelemetry SDK, any other becomes `ERROR` with the
   * description.
   */
  function StatusAfterError(previous: Status, description: string): (r: Status)
    ensures previous.code == Ok ==> r == previous
    ensures previous.code != Ok ==> r.code == Error && r.description == Some(description)
  {
    if previous.code == Ok then previous else Status(Error, Some(description))
  }

  /** The `exception` event that `record_exception` adds, with `escaped` false. */
  function ExceptionEvent(error: Exception, now: nat): (r: SpanEvent)
    ensures r.name == ExceptionEventName
    ensures r.attributes.Keys == {AttrExceptionType, AttrExceptionMessage, AttrExceptionStacktrace, AttrExceptionEscaped}
    ensures r.attributes[AttrExceptionMessage] == Otel.StrValue(error.message)
  {
    SpanEvent(ExceptionEventName, map[
      AttrExceptionType := Otel.StrValue(error.typeName),
      AttrExceptionMessage := Otel.StrValue(error.message),
      AttrExceptionStacktrace := Otel.StrValue(error.stacktrace),
      AttrExceptionEscaped := Otel.StrValue("False")], now)
  }

  /**
   * `set_span_error`: mark a recording span `ERROR` with `str(error)` and
   * record the exception on it; with no recording span, raise before
   * changing anything.
   */
  method SetSpanError(span: Span, error: Exception, now: nat) returns (r: Outcome<RecordError>)
    modifies span
    ensures r.Pass? <==> old(span.recording)
    ensures r.Fail? ==> r.error == NoActiveSpanError
    ensures span.status == if r.Pass? then StatusAfterError(old(span.status), error.message) else old(span.status)
    ensures span.events == if r.Pass? then old(span.events) + [ExceptionEvent(error, now)] else old(span.events)
    ensures span.recording == old(span.recording)
  {
    var current := CurrentSpan(span);
    if current.Failure? {
      return Fail(current.error);
    }
    current.value.status := StatusAfterError(current.value.status, error.message);
    current.value.events := current.value.events + [ExceptionEvent(error, now)];
    return Pass;
  }
}
