/**
 * The trace store (src/yuutrace/cli/db.py): the `spans` and `events`
 * tables and `insert_resource_spans`, which walks an OTLP request and
 * writes one span row per span and one event row per event.
 *
 * `Ingest` is the specification: a fold over the request's spans in
 * document order. `TraceStore.InsertResourceSpans` is the nested-loop
 * procedure, proved to leave the store in the state `Ingest` describes.
 */
module Store {
  import opened Wrappers
  import opened Maps
  import opened Otlp
  import Otel

  /**
   * One row of `spans`. The JSON columns hold the decoded attribute maps;
   * the three denormalised columns hold whatever value the attribute had.
   */
  datatype SpanRow = SpanRow(
    traceId: string,
    spanId: string,
    parentSpanId: Option<string>,
    name: string,
    startTimeUnixNano: nat,
    endTimeUnixNano: nat,
    statusCode: int,
    statusMessage: Option<string>,
    attributes: map<string, Value>,
    conversationId: Option<Value>,
    agent: Option<Value>,
    model: Option<Value>,
    resource: map<string, Value>)

  /** One row of `events`, without its id. */
  datatype EventRow = EventRow(spanId: string, name: string, timeUnixNano: nat, attributes: map<string, Value>)

  /**
   * The database: `spans` keyed by its primary key `span_id`, and `events`
   * in insertion order. Event ids come from `AUTOINCREMENT` and rows are
   * never deleted, so the event at position `i` has id `i + 1`.
   */
  datatype Db = Db(spans: map<string, SpanRow>, events: seq<EventRow>)

  /** A freshly created database. */
  const EmptyDb := Db(map[], [])

  /**
   * Why an insert stops: `span["spanId"]` or `span["traceId"]` is absent,
   * a column's value has a type sqlite3 does not bind (`ProgrammingError`),
   * or an integer does not fit SQLite's 64-bit INTEGER (`OverflowError`).
   */
  datatype IngestError = MissingSpanId | MissingTraceId | UnbindableParameter(column: string) | IntegerTooLarge(column: string)

  /** The range of SQLite's signed 64-bit INTEGER, the only integers sqlite3 binds. */
  const MinInteger: int := -0x8000_0000_0000_0000
  const MaxInteger: int := 0x7FFF_FFFF_FFFF_FFFF

  predicate FitsInteger(i: int)
  {
    MinInteger <= i <= MaxInteger
  }

  /** `attrs.get(key)`. */
  function Lookup(attrs: map<string, Value>, key: string): (r: Option<Value>)
    ensures r.Some? <==> key in attrs
    ensures r.Some? ==> r.value == attrs[key]
  {
    if key in attrs then Some(attrs[key]) else None
  }

  /**
   * sqlite3 binds `None`, strings, floats, booleans and the integers that
   * fit 64 bits; a list or a dict is refused.
   */
  predicate Bindable(v: Option<Value>)
  {
    v.None? || (!(v.value.VList? || v.value.VDict?) && (v.value.VInt? ==> FitsInteger(v.value.i)))
  }

  /** The error sqlite3 raises when binding `v` to parameter `column` fails. */
  function BindingError(column: string, v: Option<Value>): (r: IngestError)
    requires !Bindable(v)
    ensures r.UnbindableParameter? <==> v.value.VList? || v.value.VDict?
    ensures r.IntegerTooLarge? <==> v.value.VInt? && !FitsInteger(v.value.i)
    ensures r.column == column
  {
    if v.value.VList? || v.value.VDict? then UnbindableParameter(column) else IntegerTooLarge(column)
  }

  /** The denormalised columns agree with the row's own attributes. */
  predicate Denormalised(row: SpanRow)
  {
    && row.conversationId == Lookup(row.attributes, Otel.AttrConversationId)
    && row.agent == Lookup(row.attributes, Otel.AttrAgent)
    && row.model == Lookup(row.attributes, Otel.AttrConversationModel)
  }

  /** A span's `attributes` list, parsed. */
  function SpanAttributes(span: Span): map<string, Value>
  {
    ParseAttributes(span.attributes.GetOr([]))
  }

  /** The span row `insert_resource_spans` writes for one span with parsed attributes `attrs`, or why it stops there. */
  function SpanRowOf(resource: map<string, Value>, attrs: map<string, Value>, span: Span): (r: Result<SpanRow, IngestError>)
    ensures r.Success? ==> span.spanId.Some? && r.value.spanId == span.spanId.value && Denormalised(r.value)
  {
    var conversationId := Lookup(attrs, Otel.AttrConversationId);
    var agent := Lookup(attrs, Otel.AttrAgent);
    var model := Lookup(attrs, Otel.AttrConversationModel);
    var status := span.status.GetOr(Status());
    var start := span.startTimeUnixNano.GetOr(0);
    var end := span.endTimeUnixNano.GetOr(0);
    var code := status.code.GetOr(0);
    if span.spanId.None? then Failure(MissingSpanId)
    else if span.traceId.None? then Failure(MissingTraceId)
    else if !FitsInteger(start) then Failure(IntegerTooLarge("start_time_unix_nano"))
    else if !FitsInteger(end) then Failure(IntegerTooLarge("end_time_unix_nano"))
    else if !FitsInteger(code) then Failure(IntegerTooLarge("status_code"))
    else if !Bindable(conversationId) then Failure(BindingError("conversation_id", conversationId))
    else if !Bindable(agent) then Failure(BindingError("agent", agent))
    else if !Bindable(model) then Failure(BindingError("model", model))
    else
      Success(SpanRow(
        span.traceId.value, span.spanId.value, span.parentSpanId, span.name.GetOr(""),
        start, end, code, status.message, attrs, conversationId, agent, model, resource))
  }

  /**
   * A span is stored exactly when it has a `spanId` and a `traceId`, its
   * two timestamps and status code fit 64 bits, and its three denormalised
   * attributes can be bound; the row then carries the span's fields, with
   * `""`, `0` and status code `0` for absent ones.
   */
  lemma SpanRowOfFields(resource: map<string, Value>, attrs: map<string, Value>, span: Span)
    ensures SpanRowOf(resource, attrs, span).Success? <==>
        && span.spanId.Some? && span.traceId.Some?
        && FitsInteger(span.startTimeUnixNano.GetOr(0))
        && FitsInteger(span.endTimeUnixNano.GetOr(0))
        && FitsInteger(span.status.GetOr(Status()).code.GetOr(0))
        && Bindable(Lookup(attrs, Otel.AttrConversationId))
        && Bindable(Lookup(attrs, Otel.AttrAgent))
        && Bindable(Lookup(attrs, Otel.AttrConversationModel))
    ensures span.spanId.None? ==> SpanRowOf(resource, attrs, span) == Failure(MissingSpanId)
    ensures span.spanId.Some? && span.traceId.None? ==> SpanRowOf(resource, attrs, span) == Failure(MissingTraceId)
    ensures SpanRowOf(resource, attrs, span).Success? ==> var row := SpanRowOf(resource, attrs, span).value;
      && row.traceId == span.traceId.value
      && row.parentSpanId == span.parentSpanId && row.name == span.name.GetOr("")
      && row.startTimeUnixNano == span.startTimeUnixNano.GetOr(0)
      && row.endTimeUnixNano == span.endTimeUnixNano.GetOr(0)
      && row.statusCode == span.status.GetOr(Status()).code.GetOr(0)
      && row.statusMessage == span.status.GetOr(Status()).message
      && row.attributes == attrs
      && row.resource == resource
  {
  }

  /**
   * The binding errors are reported column by column in parameter order:
   * `start_time_unix_nano`, `end_time_unix_nano`, `status_code`,
   * `conversation_id`, `agent`, then `model`; a list or a dict is refused
   * as a type, an integer beyond 64 bits as too large.
   */
  lemma BindingErrorOrder(resource: map<string, Value>, attrs: map<string, Value>, span: Span)
    requires span.spanId.Some? && span.traceId.Some?
    ensures var start := span.startTimeUnixNano.GetOr(0);
      var end := span.endTimeUnixNano.GetOr(0);
      var code := span.status.GetOr(Status()).code.GetOr(0);
      var ints := FitsInteger(start) && FitsInteger(end) && FitsInteger(code);
      var c := Lookup(attrs, Otel.AttrConversationId);
      var a := Lookup(attrs, Otel.AttrAgent);
      var m := Lookup(attrs, Otel.AttrConversationModel);
      var r := SpanRowOf(resource, attrs, span);
      && (!FitsInteger(start) ==> r == Failure(IntegerTooLarge("start_time_unix_nano")))
      && (FitsInteger(start) && !FitsInteger(end) ==> r == Failure(IntegerTooLarge("end_time_unix_nano")))
      && (FitsInteger(start) && FitsInteger(end) && !FitsInteger(code) ==> r == Failure(IntegerTooLarge("status_code")))
      && (ints && !Bindable(c) ==> r == Failure(BindingError("conversation_id", c)))
      && (ints && Bindable(c) && !Bindable(a) ==> r == Failure(BindingError("agent", a)))
      && (ints && Bindable(c) && Bindable(a) && !Bindable(m) ==> r == Failure(BindingError("model", m)))
  {
  }

  /** One `events` row: the OTLP defaults `""` and `0` stand in for an absent name or time. */
  function EventRowOf(spanId: string, event: Event): EventRow
  {
    EventRow(spanId, event.name.GetOr(""), event.timeUnixNano.GetOr(0), ParseAttributes(event.attributes.GetOr([])))
  }

  /** The event rows written for one span, in the order its events are listed. */
  function EventRowsOf(spanId: string, span: Span): (r: seq<EventRow>)
    ensures |r| == |span.events.GetOr([])|
  {
    var evs := span.events.GetOr([]);
    seq(|evs|, i requires 0 <= i < |evs| => EventRowOf(spanId, evs[i]))
  }

  /** Every event row written for a span carries that span's id, and row `i` is event `i`. */
  lemma EventRowsOfAt(spanId: string, span: Span, i: nat)
    requires i < |span.events.GetOr([])|
    ensures EventRowsOf(spanId, span)[i] == EventRowOf(spanId, span.events.GetOr([])[i])
    ensures EventRowsOf(spanId, span)[i].spanId == spanId
  {
  }

  /** The `time_unix_nano` parameter of an event row: sqlite3 binds it only when it fits 64 bits. */
  const EventTimeColumn := "time_unix_nano"

  predicate EventBindable(event: Event)
  {
    FitsInteger(event.timeUnixNano.GetOr(0))
  }

  /**
   * The position of the first event whose time cannot be bound, or the
   * number of events when every one can: the loop over the events inserts
   * exactly the rows before it.
   */
  function FirstUnboundEvent(events: seq<Event>): (k: nat)
    ensures k <= |events|
    ensures forall i | 0 <= i < k :: EventBindable(events[i])
    ensures k < |events| ==> !EventBindable(events[k])
    decreases |events|
  {
    if events == [] then 0
    else if !EventBindable(events[0]) then 0
    else 1 + FirstUnboundEvent(events[1..])
  }

  // ---------------------------------------------------------------------
  // The request, flattened to its spans in document order

  /** One span of the request, with the attributes of the resource it is listed under. */
  datatype SpanInput = SpanInput(resource: map<string, Value>, attributes: map<string, Value>, span: Span)

  /** The row for one walked span. */
  function RowOf(x: SpanInput): Result<SpanRow, IngestError>
  {
    SpanRowOf(x.resource, x.attributes, x.span)
  }

  function SpansInputs(resource: map<string, Value>, spans: seq<Span>): (r: seq<SpanInput>)
    ensures |r| == |spans|
  {
    seq(|spans|, i requires 0 <= i < |spans| => SpanInput(resource, SpanAttributes(spans[i]), spans[i]))
  }

  /** The spans of `ss.get("spans", [])` for each scope, scope after scope. */
  function ScopesInputs(resource: map<string, Value>, scopes: seq<ScopeSpans>): seq<SpanInput>
    decreases |scopes|
  {
    if scopes == [] then []
    else SpansInputs(resource, scopes[0].spans.GetOr([])) + ScopesInputs(resource, scopes[1..])
  }

  /** Every span of the request, resource after resource. */
  function ResourcesInputs(rss: seq<ResourceSpans>): seq<SpanInput>
    decreases |rss|
  {
    if rss == [] then []
    else ScopesInputs(ResourceAttributes(rss[0].resource), rss[0].scopeSpans.GetOr([])) + ResourcesInputs(rss[1..])
  }

  // ---------------------------------------------------------------------
  // Ingestion, span by span

  /** The store while the request is walked: still going, or stopped by an error. */
  datatype Progress = Ingested(db: Db, count: nat) | Aborted(db: Db, error: IngestError)

  /** One span: `INSERT OR REPLACE` its row, then insert its events, then count it. */
  function Step(p: Progress, x: SpanInput): Progress
  {
    match p
    case Aborted(_, _) => p
    case Ingested(db, count) =>
      match RowOf(x)
      case Failure(e) => Aborted(db, e)
      case Success(row) =>
        var spans := db.spans[row.spanId := row];
        var rows := EventRowsOf(row.spanId, x.span);
        var k := FirstUnboundEvent(x.span.events.GetOr([]));
        if k < |rows| then Aborted(Db(spans, db.events + rows[..k]), IntegerTooLarge(EventTimeColumn))
        else Ingested(Db(spans, db.events + rows), count + 1)
  }

  /** The fold over the flattened request: the reference the nested loops are measured against. */
  function Run(p: Progress, inputs: seq<SpanInput>): Progress
    decreases |inputs|
  {
    if inputs == [] then p
    else Step(Run(p, inputs[..|inputs| - 1]), inputs[|inputs| - 1])
  }

  /** The innermost loop, from span `k` of one scope on. */
  function SpansFrom(p: Progress, resource: map<string, Value>, spans: seq<Span>, k: nat): Progress
    requires k <= |spans|
    decreases |spans| - k
  {
    if k == |spans| then p
    else SpansFrom(Step(p, SpanInput(resource, SpanAttributes(spans[k]), spans[k])), resource, spans, k + 1)
  }

  /** The middle loop, from scope `j` of one resource on. */
  function ScopesFrom(p: Progress, resource: map<string, Value>, scopes: seq<ScopeSpans>, j: nat): Progress
    requires j <= |scopes|
    decreases |scopes| - j
  {
    if j == |scopes| then p
    else ScopesFrom(SpansFrom(p, resource, scopes[j].spans.GetOr([]), 0), resource, scopes, j + 1)
  }

  /** The outer loop, from resource `i` on. */
  function ResourcesFrom(p: Progress, rss: seq<ResourceSpans>, i: nat): Progress
    requires i <= |rss|
    decreases |rss| - i
  {
    if i == |rss| then p
    else ResourcesFrom(ScopesFrom(p, ResourceAttributes(rss[i].resource), rss[i].scopeSpans.GetOr([]), 0), rss, i + 1)
  }

  /**
   * `insert_resource_spans`: the state after the request, with the number
   * of spans, or the state in which an error stopped it and that error.
   * Rows written before the error remain: nothing is rolled back.
   */
  function Ingest(db: Db, rss: seq<ResourceSpans>): Progress
  {
    ResourcesFrom(Ingested(db, 0), rss, 0)
  }

  /** A span the walk gets past: its row and every one of its events can be written. */
  predicate ValidInput(x: SpanInput)
  {
    RowOf(x).Success? && FirstUnboundEvent(x.span.events.GetOr([])) == |x.span.events.GetOr([])|
  }

  predicate AllValid(inputs: seq<SpanInput>)
  {
    forall i | 0 <= i < |inputs| :: ValidInput(inputs[i])
  }

  /** The `(span_id, row)` pairs in the order they are written. */
  function KeyedRows(inputs: seq<SpanInput>): (r: seq<(string, SpanRow)>)
    requires AllValid(inputs)
    ensures |r| == |inputs|
    decreases |inputs|
  {
    if inputs == [] then []
    else
      var n := |inputs| - 1;
      var row := RowOf(inputs[n]).value;
      KeyedRows(inputs[..n]) + [(row.spanId, row)]
  }

  /** Pair `i` is span `i`'s row under its `span_id`. */
  lemma {:induction false} KeyedRowsAt(inputs: seq<SpanInput>, i: nat)
    requires AllValid(inputs) && i < |inputs|
    ensures var row := RowOf(inputs[i]).value;
      KeyedRows(inputs)[i] == (row.spanId, row)
    decreases |inputs|
  {
    var n := |inputs| - 1;
    assert AllValid(inputs[..n]);
    if i < n {
      KeyedRowsAt(inputs[..n], i);
    }
  }

  /** The event rows of all the spans, span after span. */
  function NewEvents(inputs: seq<SpanInput>): seq<EventRow>
    requires AllValid(inputs)
    decreases |inputs|
  {
    if inputs == [] then []
    else
      var n := |inputs| - 1;
      var x := inputs[n];
      NewEvents(inputs[..n]) + EventRowsOf(RowOf(x).value.spanId, x.span)
  }

  // ---------------------------------------------------------------------
  // Properties of the fold

  /**
   * A valid span is written and counted. A span whose row cannot be written
   * stops the fold where it is; one whose row is written but an event's
   * time cannot be bound stops it after the row and the events before that
   * one.
   */
  lemma StepIngested(db: Db, count: nat, x: SpanInput)
    ensures var r := RowOf(x);
      && (ValidInput(x) ==>
            Step(Ingested(db, count), x) ==
            Ingested(Db(db.spans[r.value.spanId := r.value], db.events + EventRowsOf(r.value.spanId, x.span)), count + 1))
      && (r.Failure? ==> Step(Ingested(db, count), x) == Aborted(db, r.error))
      && (r.Success? && !ValidInput(x) ==>
            var k := FirstUnboundEvent(x.span.events.GetOr([]));
            Step(Ingested(db, count), x) ==
            Aborted(Db(db.spans[r.value.spanId := r.value], db.events + EventRowsOf(r.value.spanId, x.span)[..k]),
                    IntegerTooLarge(EventTimeColumn)))
      && (Step(Ingested(db, count), x).Ingested? <==> ValidInput(x))
  {
  }

  lemma RunSnoc(p: Progress, s: seq<SpanInput>, x: SpanInput)
    ensures Run(p, s + [x]) == Step(Run(p, s), x)
  {
    assert (s + [x])[..|s|] == s;
  }

  lemma {:induction false} RunAppend(p: Progress, a: seq<SpanInput>, b: seq<SpanInput>)
    ensures Run(p, a + b) == Run(Run(p, a), b)
    decreases |b|
  {
    if b == [] {
      assert a + b == a;
    } else {
      var n := |b| - 1;
      assert a + b == (a + b[..n]) + [b[n]];
      assert b == b[..n] + [b[n]];
      RunSnoc(p, a + b[..n], b[n]);
      RunAppend(p, a, b[..n]);
      RunSnoc(Run(p, a), b[..n], b[n]);
    }
  }

  /** Once stopped, the rest of the request changes nothing. */
  lemma {:induction false} RunAborted(db: Db, e: IngestError, s: seq<SpanInput>)
    ensures Run(Aborted(db, e), s) == Aborted(db, e)
    decreases |s|
  {
    if s != [] {
      RunAborted(db, e, s[..|s| - 1]);
    }
  }

  /** A request whose every span is valid writes every row and every event and counts every span. */
  lemma {:induction false} RunAllValid(db: Db, c: nat, s: seq<SpanInput>)
    requires AllValid(s)
    ensures Run(Ingested(db, c), s) == Ingested(Db(Upsert(db.spans, KeyedRows(s)), db.events + NewEvents(s)), c + |s|)
    decreases |s|
  {
    if s != [] {
      var n := |s| - 1;
      assert AllValid(s[..n]);
      RunAllValid(db, c, s[..n]);
      var prev := Run(Ingested(db, c), s[..n]);
      var row := RowOf(s[n]).value;
      assert Run(Ingested(db, c), s) == Step(prev, s[n]);
      assert Step(prev, s[n]) == Ingested(Db(prev.db.spans[row.spanId := row],
        prev.db.events + EventRowsOf(row.spanId, s[n].span)), prev.count + 1);
      assert KeyedRows(s) == KeyedRows(s[..n]) + [(row.spanId, row)];
      assert NewEvents(s) == NewEvents(s[..n]) + EventRowsOf(row.spanId, s[n].span);
      RunSnocUpsert(db.spans, KeyedRows(s[..n]), (row.spanId, row));
    }
  }

  lemma RunSnocUpsert(m: map<string, SpanRow>, entries: seq<(string, SpanRow)>, e: (string, SpanRow))
    ensures Upsert(m, entries + [e]) == Upsert(m, entries)[e.0 := e.1]
  {
    assert (entries + [e])[..|entries|] == entries;
  }

  /** The fold keeps going exactly as long as every span is valid. */
  lemma {:induction false} RunIngestedIff(db: Db, c: nat, s: seq<SpanInput>)
    ensures Run(Ingested(db, c), s).Ingested? <==> AllValid(s)
    decreases |s|
  {
    if s != [] {
      var n := |s| - 1;
      RunIngestedIff(db, c, s[..n]);
      if AllValid(s) {
        assert AllValid(s[..n]);
      } else if AllValid(s[..n]) {
        assert !ValidInput(s[n]);
      } else {
        var j :| 0 <= j < n && !ValidInput(s[..n][j]);
        assert s[j] == s[..n][j];
      }
    }
  }

  /**
   * The first invalid span stops the fold, in the state that span leaves
   * after the rows of the spans before it.
   */
  lemma FirstInvalid(db: Db, c: nat, s: seq<SpanInput>, i: nat)
    requires i < |s| && AllValid(s[..i]) && !ValidInput(s[i])
    ensures Run(Ingested(db, c), s) ==
      Step(Ingested(Db(Upsert(db.spans, KeyedRows(s[..i])), db.events + NewEvents(s[..i])), c + i), s[i])
    ensures Run(Ingested(db, c), s).Aborted?
  {
    assert s == (s[..i] + [s[i]]) + s[i + 1..];
    RunAppend(Ingested(db, c), s[..i] + [s[i]], s[i + 1..]);
    RunSnoc(Ingested(db, c), s[..i], s[i]);
    RunAllValid(db, c, s[..i]);
    var stopped := Run(Ingested(db, c), s[..i] + [s[i]]);
    StepIngested(Run(Ingested(db, c), s[..i]).db, c + i, s[i]);
    RunAborted(stopped.db, stopped.error, s[i + 1..]);
  }

  /** A prefix that stopped decides the whole run. */
  lemma AbortedPrefix(p: Progress, done: seq<SpanInput>, full: seq<SpanInput>)
    requires done <= full && Run(p, done).Aborted?
    ensures Run(p, full) == Run(p, done)
  {
    assert full == done + full[|done|..];
    RunAppend(p, done, full[|done|..]);
    RunAborted(Run(p, done).db, Run(p, done).error, full[|done|..]);
  }

  /**
   * The store's invariant: each span row sits under its own `span_id` with
   * its denormalised columns matching its attributes, and every event's
   * `span_id` names a stored span (the foreign key).
   */
  predicate Wf(db: Db)
  {
    && (forall k | k in db.spans :: db.spans[k].spanId == k && Denormalised(db.spans[k]))
    && (forall i | 0 <= i < |db.events| :: db.events[i].spanId in db.spans)
  }

  lemma StepWf(p: Progress, x: SpanInput)
    requires Wf(p.db)
    ensures Wf(Step(p, x).db)
  {
    if p.Ingested? && RowOf(x).Success? {
      var row := RowOf(x).value;
      var rows := EventRowsOf(row.spanId, x.span);
      var next := Step(p, x).db;
      assert next.spans == p.db.spans[row.spanId := row];
      assert exists k | 0 <= k <= |rows| :: next.events == p.db.events + rows[..k] by {
        var k := FirstUnboundEvent(x.span.events.GetOr([]));
        if k < |rows| {
          assert next.events == p.db.events + rows[..k];
        } else {
          assert rows[..|rows|] == rows;
        }
      }
      var k :| 0 <= k <= |rows| && next.events == p.db.events + rows[..k];
      forall i | 0 <= i < |next.events| ensures next.events[i].spanId in next.spans {
        if i >= |p.db.events| {
          assert next.events[i] == rows[i - |p.db.events|];
          EventRowsOfAt(row.spanId, x.span, i - |p.db.events|);
        }
      }
    }
  }

  lemma {:induction false} RunWf(p: Progress, s: seq<SpanInput>)
    requires Wf(p.db)
    ensures Wf(Run(p, s).db)
    decreases |s|
  {
    if s != [] {
      RunWf(p, s[..|s| - 1]);
      StepWf(Run(p, s[..|s| - 1]), s[|s| - 1]);
    }
  }

  // ---------------------------------------------------------------------
  // What `insert_resource_spans` does to the store

  /**
   * The insert succeeds exactly when every span in the request is valid,
   * and then returns the number of spans, upserts their rows by `span_id`
   * in request order and appends all their events.
   */
  lemma IngestSucceeds(db: Db, rss: seq<ResourceSpans>)
    ensures Ingest(db, rss).Ingested? <==> AllValid(ResourcesInputs(rss))
    ensures AllValid(ResourcesInputs(rss)) ==> var s := ResourcesInputs(rss);
      Ingest(db, rss) == Ingested(Db(Upsert(db.spans, KeyedRows(s)), db.events + NewEvents(s)), |s|)
  {
    IngestIsRun(db, rss);
    RunIngestedIff(db, 0, ResourcesInputs(rss));
    if AllValid(ResourcesInputs(rss)) {
      RunAllValid(db, 0, ResourcesInputs(rss));
    }
  }

  /** A span that appears again later in the request is replaced: the last one written is the one stored. */
  lemma IngestLastWins(db: Db, rss: seq<ResourceSpans>, i: int)
    requires AllValid(ResourcesInputs(rss)) && LastFor(KeyedRows(ResourcesInputs(rss)), i)
    ensures var s := ResourcesInputs(rss); var row := RowOf(s[i]).value;
      row.spanId in Ingest(db, rss).db.spans && Ingest(db, rss).db.spans[row.spanId] == row
  {
    IngestSucceeds(db, rss);
    UpsertLastWins(db.spans, KeyedRows(ResourcesInputs(rss)), i);
    KeyedRowsAt(ResourcesInputs(rss), i);
  }

  /**
   * The first invalid span stops the insert with its error. The spans
   * before it stay written; a span whose row cannot be written adds
   * nothing, and one with an event time beyond 64 bits leaves its row and
   * the events before that event.
   */
  lemma IngestStopsAtFirstInvalid(db: Db, rss: seq<ResourceSpans>, i: nat)
    requires var s := ResourcesInputs(rss); i < |s| && AllValid(s[..i]) && !ValidInput(s[i])
    ensures var s := ResourcesInputs(rss);
      var before := Db(Upsert(db.spans, KeyedRows(s[..i])), db.events + NewEvents(s[..i]));
      var x := s[i];
      && Ingest(db, rss).Aborted?
      && (RowOf(x).Failure? ==> Ingest(db, rss) == Aborted(before, RowOf(x).error))
      && (RowOf(x).Success? ==>
            var row := RowOf(x).value;
            var k := FirstUnboundEvent(x.span.events.GetOr([]));
            Ingest(db, rss) ==
            Aborted(Db(before.spans[row.spanId := row], before.events + EventRowsOf(row.spanId, x.span)[..k]),
                    IntegerTooLarge(EventTimeColumn)))
  {
    IngestIsRun(db, rss);
    var s := ResourcesInputs(rss);
    FirstInvalid(db, 0, s, i);
    StepIngested(Db(Upsert(db.spans, KeyedRows(s[..i])), db.events + NewEvents(s[..i])), i, s[i]);
  }

  /** Inserting, whether it succeeds or stops, keeps the store's invariant. */
  lemma IngestWf(db: Db, rss: seq<ResourceSpans>)
    requires Wf(db)
    ensures Wf(Ingest(db, rss).db)
  {
    IngestIsRun(db, rss);
    RunWf(Ingested(db, 0), ResourcesInputs(rss));
  }

  /**
   * Sending the same request twice leaves the span rows as after the first
   * time but appends every event a second time.
   */
  lemma IngestTwice(db: Db, rss: seq<ResourceSpans>)
    requires AllValid(ResourcesInputs(rss))
    ensures var once := Ingest(db, rss).db; var s := ResourcesInputs(rss);
      Ingest(once, rss) == Ingested(Db(once.spans, once.events + NewEvents(s)), |s|)
  {
    var s := ResourcesInputs(rss);
    IngestSucceeds(db, rss);
    var once := Ingest(db, rss).db;
    IngestSucceeds(once, rss);
    UpsertIdempotent(db.spans, KeyedRows(s));
  }

  /** The spans listed under each scope, scope after scope. */
  function ScopesSpanCount(scopes: seq<ScopeSpans>): nat
    decreases |scopes|
  {
    if scopes == [] then 0 else |scopes[0].spans.GetOr([])| + ScopesSpanCount(scopes[1..])
  }

  /** The spans listed in a request, over all its resources and scopes. */
  function SpanCount(rss: seq<ResourceSpans>): nat
    decreases |rss|
  {
    if rss == [] then 0 else ScopesSpanCount(rss[0].scopeSpans.GetOr([])) + SpanCount(rss[1..])
  }

  /** The events listed under the spans. */
  function EventCount(inputs: seq<SpanInput>): nat
    decreases |inputs|
  {
    if inputs == [] then 0
    else EventCount(inputs[..|inputs| - 1]) + |inputs[|inputs| - 1].span.events.GetOr([])|
  }

  lemma {:induction false} ScopesInputsCount(resource: map<string, Value>, scopes: seq<ScopeSpans>)
    ensures |ScopesInputs(resource, scopes)| == ScopesSpanCount(scopes)
    decreases |scopes|
  {
    if scopes != [] {
      ScopesInputsCount(resource, scopes[1..]);
    }
  }

  /** Flattening the request keeps every span: as many inputs as spans listed. */
  lemma {:induction false} ResourcesInputsCount(rss: seq<ResourceSpans>)
    ensures |ResourcesInputs(rss)| == SpanCount(rss)
    decreases |rss|
  {
    if rss != [] {
      ScopesInputsCount(ResourceAttributes(rss[0].resource), rss[0].scopeSpans.GetOr([]));
      ResourcesInputsCount(rss[1..]);
    }
  }

  /**
   * Existing event rows are never changed or removed; a walk that gets to
   * the end appends one row per listed event.
   */
  lemma {:induction false} RunEventsGrow(p: Progress, s: seq<SpanInput>)
    ensures p.db.events <= Run(p, s).db.events
    ensures Run(p, s).Ingested? ==> |Run(p, s).db.events| == |p.db.events| + EventCount(s)
    decreases |s|
  {
    if s != [] {
      var init := s[..|s| - 1];
      RunEventsGrow(p, init);
      var q := Run(p, init);
      var x := s[|s| - 1];
      if q.Ingested? {
        StepIngested(q.db, q.count, x);
      }
    }
  }

  /**
   * A successful insert returns the number of spans listed in the request;
   * whatever the outcome, the old event rows stay as they were, and a
   * successful insert adds exactly one row per listed event.
   */
  lemma IngestCounts(db: Db, rss: seq<ResourceSpans>)
    ensures Ingest(db, rss).Ingested? ==> Ingest(db, rss).count == SpanCount(rss)
    ensures db.events <= Ingest(db, rss).db.events
    ensures Ingest(db, rss).Ingested? ==>
      |Ingest(db, rss).db.events| == |db.events| + EventCount(ResourcesInputs(rss))
  {
    IngestSucceeds(db, rss);
    ResourcesInputsCount(rss);
    IngestIsRun(db, rss);
    RunEventsGrow(Ingested(db, 0), ResourcesInputs(rss));
  }

  // ---------------------------------------------------------------------
  // The nested loops walk the flattened request

  lemma RunSingle(p: Progress, x: SpanInput)
    ensures Run(p, [x]) == Step(p, x)
  {
    assert [x][..0] == [];
  }

  lemma {:induction false} SpansFromRun(p: Progress, resource: map<string, Value>, spans: seq<Span>, k: nat)
    requires k <= |spans|
    ensures SpansFrom(p, resource, spans, k) == Run(p, SpansInputs(resource, spans)[k..])
    decreases |spans| - k
  {
    var all := SpansInputs(resource, spans);
    if k == |spans| {
      assert all[k..] == [];
    } else {
      var x := all[k];
      SpansFromRun(Step(p, x), resource, spans, k + 1);
      RunSingle(p, x);
      assert all[k..] == [x] + all[k + 1..];
      RunAppend(p, [x], all[k + 1..]);
    }
  }

  lemma {:induction false} ScopesFromRun(p: Progress, resource: map<string, Value>, scopes: seq<ScopeSpans>, j: nat)
    requires j <= |scopes|
    ensures ScopesFrom(p, resource, scopes, j) == Run(p, ScopesInputs(resource, scopes[j..]))
    decreases |scopes| - j
  {
    if j < |scopes| {
      var spans := scopes[j].spans.GetOr([]);
      var q := SpansFrom(p, resource, spans, 0);
      SpansFromRun(p, resource, spans, 0);
      assert SpansInputs(resource, spans)[0..] == SpansInputs(resource, spans);
      ScopesFromRun(q, resource, scopes, j + 1);
      assert scopes[j..][1..] == scopes[j + 1..];
      RunAppend(p, SpansInputs(resource, spans), ScopesInputs(resource, scopes[j + 1..]));
    }
  }

  lemma {:induction false} ResourcesFromRun(p: Progress, rss: seq<ResourceSpans>, i: nat)
    requires i <= |rss|
    ensures ResourcesFrom(p, rss, i) == Run(p, ResourcesInputs(rss[i..]))
    decreases |rss| - i
  {
    if i < |rss| {
      var resource := ResourceAttributes(rss[i].resource);
      var scopes := rss[i].scopeSpans.GetOr([]);
      var q := ScopesFrom(p, resource, scopes, 0);
      ScopesFromRun(p, resource, scopes, 0);
      assert scopes[0..] == scopes;
      ResourcesFromRun(q, rss, i + 1);
      assert rss[i..][1..] == rss[i + 1..];
      RunAppend(p, ScopesInputs(resource, scopes), ResourcesInputs(rss[i + 1..]));
    }
  }

  /** The nested walk of resources, scopes and spans is the fold over the flattened request. */
  lemma IngestIsRun(db: Db, rss: seq<ResourceSpans>)
    ensures Ingest(db, rss) == Run(Ingested(db, 0), ResourcesInputs(rss))
  {
    ResourcesFromRun(Ingested(db, 0), rss, 0);
    assert rss[0..] == rss;
  }

  lemma {:induction false} SpansFromAborted(db: Db, e: IngestError, resource: map<string, Value>, spans: seq<Span>, k: nat)
    requires k <= |spans|
    ensures SpansFrom(Aborted(db, e), resource, spans, k) == Aborted(db, e)
    decreases |spans| - k
  {
    if k < |spans| {
      SpansFromAborted(db, e, resource, spans, k + 1);
    }
  }

  lemma {:induction false} ScopesFromAborted(db: Db, e: IngestError, resource: map<string, Value>, scopes: seq<ScopeSpans>, j: nat)
    requires j <= |scopes|
    ensures ScopesFrom(Aborted(db, e), resource, scopes, j) == Aborted(db, e)
    decreases |scopes| - j
  {
    if j < |scopes| {
      SpansFromAborted(db, e, resource, scopes[j].spans.GetOr([]), 0);
      ScopesFromAborted(db, e, resource, scopes, j + 1);
    }
  }

  lemma {:induction false} ResourcesFromAborted(db: Db, e: IngestError, rss: seq<ResourceSpans>, i: nat)
    requires i <= |rss|
    ensures ResourcesFrom(Aborted(db, e), rss, i) == Aborted(db, e)
    decreases |rss| - i
  {
    if i < |rss| {
      ScopesFromAborted(db, e, ResourceAttributes(rss[i].resource), rss[i].scopeSpans.GetOr([]), 0);
      ResourcesFromAborted(db, e, rss, i + 1);
    }
  }

  /**
   * A call that ended in state `db` with result `r` did what `p` says:
   * the state is `p`'s, and the result is the span count or the error.
   */
  predicate Reports(p: Progress, db: Db, r: Result<nat, IngestError>)
  {
    && db == p.db
    && (p.Ingested? ==> r == Success(p.count))
    && (p.Aborted? ==> r == Failure(p.error))
  }

  // ---------------------------------------------------------------------
  // The database connection

  /** An open trace database; its tables change only through `InsertResourceSpans`. */
  class TraceStore {
    var spans: map<string, SpanRow>
    var events: seq<EventRow>

    function State(): Db
      reads this
    {
      Db(spans, events)
    }

    /** `init_db` on a new file: both tables exist and are empty. */
    constructor()
      ensures State() == EmptyDb && Wf(State())
    {
      spans := map[];
      events := [];
    }

    /**
     * `insert_resource_spans`: walks resources, scopes and spans in order,
     * inserting each span and its events. An invalid span stops the walk
     * with its error, leaving the rows already written.
     */
    method InsertResourceSpans(rss: seq<ResourceSpans>) returns (r: Result<nat, IngestError>)
      modifies this
      ensures Reports(Ingest(old(State()), rss), State(), r)
      ensures old(Wf(State())) ==> Wf(State())
    {
      ghost var goal := Ingest(State(), rss);
      if Wf(State()) {
        IngestWf(State(), rss);
      }
      var count: nat := 0;
      var i := 0;
      while i < |rss|
        invariant 0 <= i <= |rss|
        invariant ResourcesFrom(Ingested(State(), count), rss, i) == goal
      {
        var scoped := InsertScopes(ResourceAttributes(rss[i].resource), rss[i].scopeSpans.GetOr([]), count);
        if scoped.Failure? {
          ResourcesFromAborted(State(), scoped.error, rss, i + 1);
          return scoped;
        }
        count := scoped.value;
        i := i + 1;
      }
      r := Success(count);
    }

    /** The loop over one resource's scopes, starting with `count` spans already inserted. */
    method InsertScopes(resource: map<string, Value>, scopes: seq<ScopeSpans>, count: nat) returns (r: Result<nat, IngestError>)
      modifies this
      ensures Reports(ScopesFrom(Ingested(old(State()), count), resource, scopes, 0), State(), r)
    {
      ghost var goal := ScopesFrom(Ingested(State(), count), resource, scopes, 0);
      var n := count;
      var j := 0;
      while j < |scopes|
        invariant 0 <= j <= |scopes|
        invariant ScopesFrom(Ingested(State(), n), resource, scopes, j) == goal
      {
        var spanned := InsertSpans(resource, scopes[j].spans.GetOr([]), n);
        if spanned.Failure? {
          ScopesFromAborted(State(), spanned.error, resource, scopes, j + 1);
          return spanned;
        }
        n := spanned.value;
        j := j + 1;
      }
      r := Success(n);
    }

    /**
     * The body of the loop over a scope's spans: parse the span's
     * attributes, then `INSERT OR REPLACE` its row and insert its events.
     * A span whose row cannot be bound changes nothing; an event whose time
     * cannot be bound stops the span after its row and the events before it.
     */
    method InsertSpan(resource: map<string, Value>, span: Span) returns (r: Result<SpanRow, IngestError>)
      modifies this
      ensures var row := SpanRowOf(resource, SpanAttributes(span), span);
        && (row.Failure? ==> r == row && spans == old(spans) && events == old(events))
        && (row.Success? ==>
              var k := FirstUnboundEvent(span.events.GetOr([]));
              && spans == old(spans)[row.value.spanId := row.value]
              && events == old(events) + EventRowsOf(row.value.spanId, span)[..k]
              && (k == |span.events.GetOr([])| ==> r == row)
              && (k < |span.events.GetOr([])| ==> r == Failure(IntegerTooLarge(EventTimeColumn))))
    {
      var attrs := SpanAttributes(span);
      r := SpanRowOf(resource, attrs, span);
      if r.Success? {
        spans := spans[r.value.spanId := r.value];
        var failed := InsertEvents(r.value.spanId, span);
        if failed.Some? {
          r := Failure(failed.value);
        }
      }
    }

    /** The loop over a span's events: one `INSERT INTO events` per event, in order. */
    method InsertEvents(spanId: string, span: Span) returns (failed: Option<IngestError>)
      modifies this
      ensures var k := FirstUnboundEvent(span.events.GetOr([]));
        && spans == old(spans)
        && events == old(events) + EventRowsOf(spanId, span)[..k]
        && (failed.None? <==> k == |span.events.GetOr([])|)
        && (failed.Some? ==> failed.value == IntegerTooLarge(EventTimeColumn))
    {
      var evs := span.events.GetOr([]);
      ghost var rows := EventRowsOf(spanId, span);
      var i := 0;
      while i < |evs|
        invariant 0 <= i <= FirstUnboundEvent(evs)
        invariant spans == old(spans)
        invariant events == old(events) + rows[..i]
      {
        if !FitsInteger(evs[i].timeUnixNano.GetOr(0)) {
          return Some(IntegerTooLarge(EventTimeColumn));
        }
        EventRowsOfAt(spanId, span, i);
        assert rows[..i + 1] == rows[..i] + [rows[i]];
        events := events + [EventRowOf(spanId, evs[i])];
        i := i + 1;
      }
      assert rows[..i] == rows;
      failed := None;
    }

    /** The loop over one scope's spans, starting with `count` spans already inserted. */
    method InsertSpans(resource: map<string, Value>, spanList: seq<Span>, count: nat) returns (r: Result<nat, IngestError>)
      modifies this
      ensures Reports(SpansFrom(Ingested(old(State()), count), resource, spanList, 0), State(), r)
    {
      ghost var goal := SpansFrom(Ingested(State(), count), resource, spanList, 0);
      var n := count;
      var k := 0;
      while k < |spanList|
        invariant 0 <= k <= |spanList|
        invariant SpansFrom(Ingested(State(), n), resource, spanList, k) == goal
      {
        ghost var x := SpanInput(resource, SpanAttributes(spanList[k]), spanList[k]);
        StepIngested(State(), n, x);
        ghost var step := Step(Ingested(State(), n), x);
        var row := InsertSpan(resource, spanList[k]);
        if row.Failure? {
          assert step == Aborted(State(), row.error);
          SpansFromAborted(State(), row.error, resource, spanList, k + 1);
          return Failure(row.error);
        }
        assert step == Ingested(State(), n + 1);
        n := n + 1;
        k := k + 1;
      }
      r := Success(n);
    }
  }
}
