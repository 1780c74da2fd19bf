# yuutrace in Dafny

yuutrace is a tracing library for LLM agents. Producers record cost, LLM
usage and tool-usage deltas as events on OpenTelemetry spans. A local
OTLP/HTTP receiver writes the exported spans into a SQLite trace store. A
small REST API then serves conversations, their spans and events, and their
summed costs.

This project models three parts of it and proves their properties:

- **Producers.**
  - The delta types (`Types`) and their serialisers to flat attribute maps (`Otel`).
  - The span primitive over an explicit span handle (`Spans`).
  - The recording wrappers that validate arguments and append one event (`Cost`, `Usage`).
- **The trace store.**
  - The OTLP attribute decoder (`Otlp`).
  - Last-writer-wins map building (`Maps`).
  - The `spans`/`events` tables and `insert_resource_spans` (`Store`). `Store.Ingest` is a fold over the request's spans in document order. `Store.TraceStore` is the nested-loop procedure, proved to reach the fold's state.
  - The read queries `_attach_events`, `list_conversations`, `get_conversation` and `get_span` (`Queries`). `Ordering` models an `ORDER BY` with no tie-break.
- **The HTTP decision layers.**
  - The OTLP receiver's content-type routing and status codes (`Server`).
  - The UI API handlers' parameter defaults and 404 mapping (`Ui`).
  - An end-to-end lemma (`Pipeline`): a recorded cost, exported and ingested, is counted in its trace's total.

How the tables are modelled:

- **`spans`** is a map keyed by `span_id`, the table's only primary key.
- **`events`** is a sequence. An event's `AUTOINCREMENT` id is its position plus one, because rows are never deleted.
- **JSON columns** hold the decoded attribute maps directly. `json.dumps` followed by `json.loads` is taken as the identity.
- **Unspecified SQL choices** are each modelled as a fixed but unknown choice, using a ghost `:|`:
  - the order among rows with equal sort keys;
  - the row that `LIMIT 1` picks without an `ORDER BY`;
  - the bare `root.*` columns of a `GROUP BY` group.

  This choice is why the query functions are ghost.

Where the code and its documentation disagree, the model follows the code:

- Spans are keyed by `span_id` alone, and a re-ingested span replaces the old row.
- Events are appended again on every ingest, with no deduplication. `Store.IngestTwice` proves this.
- The conversation "root" that `get_conversation` reports is simply the earliest span of the trace.
- The `currency` column is never checked by the store.
- An insert that fails part-way is not undone. The rows written before the failure stay in the receiver connection's open implicit transaction: `conn.commit()` is never reached and nothing rolls back. They become durable, and visible to other connections, with the next successful insert's commit. `Store.Aborted` carries this uncommitted state of the receiver's connection.

## Model

| member | source | states |
|---|---|---|
| Types.ParseCostCategory | src/yuutrace/types.py:14-18 | `CostCategory(s)` succeeds exactly for `"llm"` and `"tool"`, returning the member whose value is `s` |
| Types.ParseCurrency | src/yuutrace/types.py:21-24 | `Currency(s)` succeeds exactly for `"USD"` |
| Types.CostCategoryValuesRoundTrip | src/yuutrace/types.py:14-18 | every category parses back from its value, and distinct categories have distinct values |
| Types.CurrencyValueRoundTrip | src/yuutrace/types.py:21-24 | the currency parses back from its value |
| Types.CostDeltaDefaults | src/yuutrace/types.py:27-45 | a `CostDelta` built from category, currency and amount has all seven optional fields `None` |
| Types.LlmUsageDeltaDefaults | src/yuutrace/types.py:48-61 | the four token counts default to 0; `request_id` and `total_tokens` default to `None` |
| Types.ToolUsageDeltaDefaults | src/yuutrace/types.py:64-74 | `call_id` defaults to `None`; name, unit and quantity are required |
| Otel.SetOptionalEffect | src/yuutrace/otel.py:76-79 | a `None` value leaves the map unchanged; otherwise exactly that key is added or overwritten, and every other key keeps its value |
| Otel.CostDeltaToOtel | src/yuutrace/otel.py:82-96 | the cost map uses no key outside the ten cost keys |
| Otel.CostDeltaToOtelRequired | src/yuutrace/otel.py:84-88 | category, currency and amount are always present, holding the enum string values and the amount |
| Otel.CostDeltaToOtelOptional | src/yuutrace/otel.py:89-95 | each of the seven optional cost keys is present iff its field is not `None`, and then holds the field's value |
| Otel.LlmUsageToOtel | src/yuutrace/otel.py:99-111 | provider, model and the four token counts are always present; `request_id` and `total_tokens` are present iff not `None`; no other key appears |
| Otel.ToolUsageToOtel | src/yuutrace/otel.py:114-122 | name, unit and quantity are always present; `call_id` is present iff not `None`; no other key appears |
| Otel.CostDeltaRoundTrip | src/yuutrace/otel.py:82-96 | reading the serialised cost map back gives the original delta, so no field is lost or overwritten |
| Otel.CostDeltaFromHolds | src/yuutrace/otel.py:82-96 | any map that holds a delta's fields under the cost keys reads back as that delta |
| Otel.LlmUsageRoundTrip | src/yuutrace/otel.py:99-111 | reading the serialised LLM-usage map back gives the original delta |
| Otel.ToolUsageRoundTrip | src/yuutrace/otel.py:114-122 | reading the serialised tool-usage map back gives the original delta |
| Otel.SerialisedSizes | src/yuutrace/otel.py:82-122 | the three maps have at most 10, 8 and 4 keys |
| Otel.KeySetSizes | src/yuutrace/otel.py:30-57 | the key constants are pairwise distinct: the three key sets have 10, 8 and 4 members |
| Spans.CurrentSpan | src/yuutrace/span.py:24-40 | fails with `NoActiveSpanError` iff the span is not recording; otherwise returns that same span |
| Spans.AddEvent | src/yuutrace/span.py:43-56 | on a recording span, appends exactly one `(name, attributes)` event and changes nothing else; otherwise raises and appends nothing |
| Spans.StatusAfterError | src/yuutrace/span.py:62 | `set_status(ERROR, description)` gives status ERROR with the description, unless the status is already OK, which is final |
| Spans.ExceptionEvent | src/yuutrace/span.py:63 | `record_exception` adds an `exception` event whose four keys include the message `str(error)` |
| Spans.SetSpanError | src/yuutrace/span.py:59-63 | on a recording span, sets the error status and appends the exception event; otherwise raises before changing anything |
| Cost.BuildCostDelta | src/yuutrace/cost.py:77-90 | succeeds iff the category is `llm` or `tool` and the currency is `USD`; an invalid category is reported first; every argument is copied into its same-named field |
| Cost.BuildCostDeltaOfFields | src/yuutrace/cost.py:77-90 | passing a delta's own fields back in rebuilds that delta |
| Cost.RecordCostDelta | src/yuutrace/cost.py:15-28 | appends exactly one `yuu.cost` event holding `cost_delta_to_otel(cost)`, or raises `NoActiveSpanError` and appends nothing |
| Cost.RecordCost | src/yuutrace/cost.py:31-90 | an invalid enum value raises and adds no event; otherwise it behaves as `RecordCostDelta` on the built delta |
| Usage.ResolveLlmUsage | src/yuutrace/usage.py:70-85 | a supplied struct is used as is and the keyword arguments are ignored; without one, a missing provider or model is a `TypeError`; otherwise the delta's fields equal the arguments |
| Usage.ResolveLlmUsageDefaults | src/yuutrace/usage.py:51-85 | keyword defaults build the same delta as the struct defaults |
| Usage.RecordLlmUsage | src/yuutrace/usage.py:45-86 | a `TypeError` adds no event; otherwise exactly one `yuu.llm.usage` event is appended, or `NoActiveSpanError` is raised and nothing changes |
| Usage.RecordToolUsage | src/yuutrace/usage.py:94-110 | appends exactly one `yuu.tool.usage` event holding `tool_usage_to_otel(usage)`, or raises and appends nothing |
| Otlp.DecodePrecedence | src/yuutrace/cli/db.py:76-93 | only the first present tag counts, in the order string, int, double, bool, array, bytes, kvlist |
| Otlp.DecodeArray | src/yuutrace/cli/db.py:84-86 | `arrayValue` decodes element by element, keeping length and order; missing `values` decodes to `[]` |
| Otlp.MissingValueIsEmptyDict | src/yuutrace/cli/db.py:91-98 | an entry with no `value`, or a value with no known tag, decodes to the empty dict |
| Otlp.ParseAttributesKeys | src/yuutrace/cli/db.py:96-98 | the parsed map's keys are exactly the entries' keys |
| Otlp.ParseAttributesLastWins | src/yuutrace/cli/db.py:96-98 | for a duplicated key, the last entry's decoded value is kept |
| Otlp.DecodeEncodedAttrValue | src/yuutrace/cli/db.py:76-83 | decoding inverts the exporter's encoding of every flat attribute value |
| Otlp.ParseEncodedAttributes | src/yuutrace/cli/db.py:96-98 | parsing an exporter-encoded attribute list gives back the producer's map |
| Otlp.DecodeEncodeValue | src/yuutrace/cli/db.py:71-93 | decoding inverts an encoding of every decoded value that contains no dict |
| Maps.UpsertKeys | src/yuutrace/cli/db.py:98 | building a map from entries gives exactly the old keys plus the written ones |
| Maps.UpsertLastWins | src/yuutrace/cli/db.py:98 | a key holds the value of the last entry that writes it |
| Maps.UpsertUntouched | src/yuutrace/cli/db.py:139 | a key that no entry writes keeps its old value |
| Maps.UpsertAppend | src/yuutrace/cli/db.py:139 | writing `a` and then `b` is the same as writing `a + b` |
| Maps.UpsertIdempotent | src/yuutrace/cli/db.py:139 | writing the same entries a second time changes nothing |
| Store.SpanRowOf | src/yuutrace/cli/db.py:123-160 | a stored row is keyed by the span's own `spanId`, and its denormalised columns agree with its attributes |
| Store.SpanRowOfFields | src/yuutrace/cli/db.py:127-160 | a span's row is written iff it has `spanId` and `traceId`, its two timestamps and status code fit SQLite's 64-bit INTEGER, and its three denormalised values can be bound; a missing `spanId` or `traceId` fails the call; absent fields default to `""`, 0 and status code 0 |
| Store.BindingError | src/yuutrace/cli/db.py:155-157 | a list or dict value is refused as an unsupported type, an integer beyond 64 bits as too large, naming the parameter's column |
| Store.BindingErrorOrder | src/yuutrace/cli/db.py:150-157 | binding errors are reported in parameter order: start time, end time, status code, `conversation_id`, `agent`, then `model` |
| Store.FirstUnboundEvent | src/yuutrace/cli/db.py:163-175 | the position of the first event whose time does not fit 64 bits, every event before it fitting; the number of events when all fit |
| Store.EventRowsOf | src/yuutrace/cli/db.py:163-175 | writes one event row per listed event |
| Store.EventRowsOfAt | src/yuutrace/cli/db.py:163-175 | event row `i` is event `i`, carrying the span's id |
| Store.StepIngested | src/yuutrace/cli/db.py:136-177 | a valid span upserts its row, appends its events and adds one to the count; a span whose row cannot be bound stops the insert with the state so far; an event time beyond 64 bits stops it after the span's row and the events before that one; the walk goes on iff the span is valid |
| Store.RunAllValid | src/yuutrace/cli/db.py:116-180 | when every span is valid, the rows are upserted in request order, all events are appended, and the count is the number of spans |
| Store.RunIngestedIff | src/yuutrace/cli/db.py:116-180 | the walk reaches the end iff every span is valid |
| Store.FirstInvalid | src/yuutrace/cli/db.py:136-177 | the first invalid span stops the walk in the state it leaves after everything written before it |
| Store.RunAborted | src/yuutrace/cli/db.py:136-146 | nothing after an error is written |
| Store.RunWf | src/yuutrace/cli/db.py:17-53 | the walk keeps the invariant: rows are keyed by `span_id`, denormalised columns agree with attributes, and every event refers to a stored span |
| Store.ResourcesFromRun | src/yuutrace/cli/db.py:117-177 | the nested loops over resources, scopes and spans visit exactly the flattened span sequence |
| Store.IngestIsRun | src/yuutrace/cli/db.py:111-180 | the nested-loop insert is the fold over the spans in document order |
| Store.IngestSucceeds | src/yuutrace/cli/db.py:111-180 | the insert succeeds iff every span is valid; it then upserts all rows, appends all events and returns the span count |
| Store.IngestLastWins | src/yuutrace/cli/db.py:138-160 | a `span_id` that appears more than once keeps the last row written |
| Store.IngestStopsAtFirstInvalid | src/yuutrace/cli/db.py:136-177 | a failed insert leaves exactly the spans and events before the first invalid span, plus that span's row and its events before the first unbindable event time when only an event failed |
| Store.IngestWf | src/yuutrace/cli/db.py:17-53 | inserting, whether it succeeds or fails, keeps the store invariant |
| Store.IngestTwice | src/yuutrace/cli/db.py:138-175 | sending the same request twice leaves the span rows as after the first time but duplicates every event |
| Store.ResourcesInputsCount | src/yuutrace/cli/db.py:117-122 | flattening the request keeps every span listed under every resource and scope |
| Store.RunEventsGrow | src/yuutrace/cli/db.py:163-175 | existing event rows are never changed, and a walk that reaches the end appends one row per listed event |
| Store.IngestCounts | src/yuutrace/cli/db.py:116-180 | a successful insert returns the number of spans in the request and adds exactly one row per event; existing event rows are never modified |
| Store.TraceStore.constructor | src/yuutrace/cli/db.py:17-53 | a new store is empty and satisfies the invariant |
| Store.TraceStore.InsertResourceSpans | src/yuutrace/cli/db.py:111-180 | the result and the new tables are what `Ingest` describes (count on success, error and partial tables on failure); the invariant is kept |
| Store.TraceStore.InsertScopes | src/yuutrace/cli/db.py:121-177 | the scope loop reaches the state of the fold over its scopes |
| Store.TraceStore.InsertSpans | src/yuutrace/cli/db.py:122-177 | the span loop reaches the state of the fold over its spans |
| Store.TraceStore.InsertSpan | src/yuutrace/cli/db.py:123-175 | one span replaces its row by `span_id` and appends its events; a span whose row cannot be bound changes nothing; an event time beyond 64 bits fails after the row and the events before that one |
| Store.TraceStore.InsertEvents | src/yuutrace/cli/db.py:163-175 | the event loop appends one row per event in order, stopping with the error at the first event whose time cannot be bound |
| Ordering.SortBy | src/yuutrace/cli/db.py:208 | an `ORDER BY` result is a permutation of the rows, in non-decreasing key order |
| Queries.EventTableAt | src/yuutrace/cli/db.py:42 | the event with id `n` is the `n`-th row inserted |
| Queries.ForSpansCount | src/yuutrace/cli/db.py:208 | `span_id IN (...)` keeps exactly the rows of those spans, each as many times as it occurs |
| Queries.ForSpansSorted | src/yuutrace/cli/db.py:208 | filtering sorted rows keeps them sorted |
| Queries.StoredEventsExact | src/yuutrace/cli/db.py:207-210 | a span's stored events are exactly the event rows that carry its id |
| Queries.SelectEvents | src/yuutrace/cli/db.py:207-210 | the events query returns the selected spans' events, permuted, sorted by time |
| Queries.SelectedEventsOf | src/yuutrace/cli/db.py:207-217 | picking one span's rows from the query result gives exactly its stored events, by time |
| Queries.GroupBySpan | src/yuutrace/cli/db.py:212-217 | the `setdefault`/`append` loop groups each span's rows in query order |
| Queries.AttachEvents | src/yuutrace/cli/db.py:201-220 | each span in the list gets exactly its rows of the query result, or `[]`, and nothing else in the list changes |
| Queries.SelectionOfEach | src/yuutrace/cli/db.py:201-220 | after attaching, each span's row is unchanged and its events are exactly its stored events in non-decreasing time order |
| Queries.AttachedExact | src/yuutrace/cli/db.py:201-220 | as `SelectionOfEach`, for the spans the queries attach events to |
| Queries.CostWhereAppend | src/yuutrace/cli/db.py:271-280 | the cost total over two stretches of events is the sum of their totals |
| Queries.CostWhereNone | src/yuutrace/cli/db.py:272-274 | with no `yuu.cost` event, `COALESCE` gives 0 |
| Queries.CostWhereUnreferenced | src/yuutrace/cli/db.py:275-277 | adding a span that no event refers to leaves the total unchanged |
| Queries.SetMin | src/yuutrace/cli/db.py:255 | `MIN` is a member of the group that is no greater than any other |
| Queries.SetMax | src/yuutrace/cli/db.py:256 | `MAX` is a member of the group that is no smaller than any other |
| Queries.Page | src/yuutrace/cli/db.py:262-263 | `LIMIT ? OFFSET ?` gives at most `limit` rows (all remaining rows when the limit is negative), in order, from position `offset` |
| Queries.JoinedNonEmpty | src/yuutrace/cli/db.py:257-260 | every listed conversation has a root and a joined span (the root itself) |
| Queries.RankedIds | src/yuutrace/cli/db.py:260-261 | each conversation id appears once, ordered by start time descending |
| Queries.PageRanked | src/yuutrace/cli/db.py:261-263 | a page of the ranking keeps its order and has no repeats |
| Queries.RankedFacts | src/yuutrace/cli/db.py:241-264 | the ranking lists every counted conversation exactly once, latest start first |
| Queries.ListConversationsPage | src/yuutrace/cli/db.py:234-283 | `total` is the number of distinct non-null conversation ids, limited to the agent when one is given; the page is the `limit`/`offset` slice of the ranking; `limit` and `offset` must fit 64 bits, since sqlite3 binds nothing wider |
| Queries.SummaryFacts | src/yuutrace/cli/db.py:248-280 | a summary counts the joined spans, spans from their earliest start to their latest end, and reports a root's agent, model and trace cost |
| Queries.ListedCost | src/yuutrace/cli/db.py:266-283 | every listed `total_cost` is the summed `yuu.cost.amount` of one root's trace, or 0 |
| Queries.MaxEnd | src/yuutrace/cli/db.py:342 | `end_time` is at least every span's end and equals one of them |
| Queries.TraceByStartFacts | src/yuutrace/cli/db.py:303-308 | the trace query returns each span of the trace once, ascending by start |
| Queries.GetConversationFacts | src/yuutrace/cli/db.py:286-343 | `None` iff no span carries the id; otherwise: all spans of one such span's trace, ascending by start; start of the first span; the latest end; the trace's cost; and agent, model and tags of the earliest span |
| Queries.GetConversationEvents | src/yuutrace/cli/db.py:313-314 | every span of a conversation carries exactly its stored events, by time |
| Queries.GetSpanFacts | src/yuutrace/cli/db.py:346-354 | `None` iff no span has the id; otherwise the stored row with exactly its events, by time |
| Server.ContainsOccurs | src/yuutrace/cli/server.py:39-40 | Python's substring test holds iff the needle occurs at some position |
| Server.ChooseDecoderCases | src/yuutrace/cli/server.py:39-67 | 415 iff the content type is non-empty and contains neither marker; protobuf iff the protobuf marker occurs or the header is empty; JSON iff only the JSON marker occurs |
| Server.ReceiveDecisions | src/yuutrace/cli/server.py:34-83 | 415 and 400 leave the store untouched; an empty or missing `resourceSpans` answers `partialSuccess` without inserting; otherwise 500 `Internal storage error` iff the insert fails, and `partialSuccess` if it succeeds |
| Server.ReceiveWf | src/yuutrace/cli/server.py:76-81 | receiving a request keeps the store invariant |
| Server.ReceiveTraces | src/yuutrace/cli/server.py:34-83 | the handler's response and new store state are those `Receive` gives |
| Ui.Health | src/yuutrace/cli/ui.py:33-35 | health always answers 200 `{"status": "ok"}` |
| Ui.IntArgument | src/yuutrace/cli/ui.py:40-41 | an absent parameter takes its default; an integer is used as is; a non-integer makes `int()` raise |
| Ui.AgentArgumentFacts | src/yuutrace/cli/ui.py:42-48 | a missing or empty agent means no agent filter |
| Ui.ListHandlerFacts | src/yuutrace/cli/ui.py:38-50 | the handler fails iff `limit` or `offset` is not an integer (`ValueError`) or is an integer beyond 64 bits (`OverflowError`, db.py:263); otherwise it answers 200 with the listing for `limit` (default 50), `offset` (default 0) and the agent |
| Ui.Reply | src/yuutrace/cli/ui.py:53-68 | 404 with the message iff the query gives `None`; otherwise 200 with the result unchanged |
| Ui.ConversationHandlerFacts | src/yuutrace/cli/ui.py:53-59 | 404 `Conversation not found` iff no span carries the conversation id; otherwise 200 with `get_conversation`'s result |
| Ui.SpanHandlerFacts | src/yuutrace/cli/ui.py:62-68 | 404 `Span not found` iff the span id is absent; otherwise 200 with the stored row and exactly its events, by time |
| Pipeline.CostEventAmount | src/yuutrace/cli/db.py:163-175 | a stored exported cost event is a `yuu.cost` row whose `yuu.cost.amount` is the recorded delta's amount |
| Pipeline.TraceSpanIdsAfterUpsert | src/yuutrace/cli/db.py:139 | writing a span row adds its id to its trace's spans |
| Pipeline.IngestedCostCounted | src/yuutrace/cli/db.py:271-280 | ingesting a span with one recorded cost, whose time fits 64 bits, adds exactly that amount to its trace's total |

## Left out

- `init_db`, connection setup and the WAL and foreign-key pragmas: these are I/O. A fresh store is `Store.EmptyDb`, and the foreign key is part of `Store.Wf`.
- JSON text storage: `json.dumps`/`json.loads` are taken as identity, so `_enrich_span` is the identity. It only renames `attributes_json`/`resource_json` to `attributes`/`resource`.
- `_row_to_dict` and the API's dict shapes appear as datatypes. No JSON text is produced.
- Protobuf decoding and JSON body parsing are not modelled. What each parser makes of the request body is a parameter of `Server.Receive`, so the protobuf parser's string enums and string integers are not modelled either.
- A JSON body that is not an object (`body.get` raises) is not modelled.
- Logging in `server.py` is not modelled.
- Starlette/uvicorn serving, routing, `_build_app`, `run_server`, `run_ui` and static-asset resolution are not modelled: this is framework plumbing.
- Python's `int()` parsing of query parameters is not modelled. `Ui.IntParam` holds its outcome. A non-integer limit or offset raises, and the framework's answer to that is not modelled.
- `int(...)` on timestamps is not modelled. Timestamps arrive as naturals, which sqlite3 binds only up to 2^63 - 1.
- `Store.Db` is the receiver connection's view of the database. Commit, and when other connections such as the UI's see the rows, are not modelled; the UI handlers read a `Store.Db` as if it held everything the receiver wrote.
- Status codes are integers. The protobuf parser's string enum names are not modelled.
- `Otlp.DecodeAnyValue`: a JSON `null` tag value is not modelled. A present `"stringValue": null` decodes to `None` in the source whatever tags follow, and `"intValue": null` raises `TypeError`; the model has no present-but-null field.
- `Store.SpanRowOf`, `Store.EventRowOf` and `Store.Ingest`: a JSON `null` in any request field the insert reads with `.get` is not modelled; an absent field and a `null` one are both `None`, and the model writes the default. The source then fails where the model succeeds: a `null` `name` or `status.code` violates a `NOT NULL` column (`IntegrityError`), a `null` timestamp makes `int(None)` raise `TypeError`, a `null` `status` makes `.get` raise `AttributeError`, and a `null` `events`, `attributes`, `spans` or `scopeSpans` cannot be iterated (`TypeError`). As with any failed insert, the receiver answers 500 and keeps the rows written before that span.
- `Queries.GetConversation` and `Ui.ConversationHandlerFacts`: SQLite's limit on host parameters per statement (`SQLITE_MAX_VARIABLE_NUMBER`, 999 before SQLite 3.32.0 and 32766 from then on, depending on the build) is not modelled. The events query and the cost query bind one parameter per span of the trace, so for a trace with more spans than that limit the source raises `OperationalError` and the request fails, where the model answers 200.
- `Otlp.DecodeAnyValue`: a value object with no known tag comes back unchanged in the source; the model keeps only the known tags, so that object is the empty dict.
- Attribute entries without `key` (a `KeyError` in `_parse_attributes`) are not modelled. The key is a field of `Otlp.KeyValue`.
- Floating point is not modelled. Amounts and quantities are `real`, so the rounding of `SUM` is not modelled.
- `SUM` over values that are not numbers is modelled only for booleans, which count as 1 or 0. Text and nested values count as 0, which does not match how SQLite converts numeric text.
- SQL's integer versus real result of `SUM` is not modelled.
- SQLite TEXT affinity for non-string values bound to `conversation_id`, `agent` and `model` is not modelled. The model compares the decoded values, so a filter on an agent that was stored as a number and converted to text is not modelled.
- `Queries.AttachEvents`: the rows of the events query are its parameter, and `Queries.SelectionOfEach` states what they are when they come from that query.
- `Queries.AttachEvents` models the list of span dicts as an array of `SpanView` values, so the aliasing of the dicts is not modelled.
- `Spans.SetSpanError`: `str(error)` and the traceback text are fields of `Spans.Exception`, supplied by the caller.
- The clock that stamps events is a parameter.
- The OpenTelemetry SDK's other span state (attributes, links, end time) is not modelled, nor its `max_events` limit (128 by default), beyond which the SDK drops the oldest events. `Spans.AddEvent` appends exactly one event only below that limit.
- Immutability of the frozen structs needs no proof: Dafny datatypes are values.
- `src/yuutrace/context.py` (context managers and `asyncio.gather`) is not part of this model.
- `src/yuutrace/init.py` (provider and exporter setup, network export) is not part of this model.
- `src/yuutrace/cli/main.py` (argument parsing) is not part of this model.
- `src/yuutrace/__init__.py` (re-exports) and the demo agent script are not part of this model.
- `Pipeline.IngestedCostCounted` covers one span that is new or already in the same trace. A span that moves to another trace carries its old events with it; that case is not stated.
