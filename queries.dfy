/**
 * The read side of the trace store (src/yuutrace/cli/db.py): the event
 * lists attached to span dicts, the conversation listing, a conversation
 * with all of its trace's spans, and one span.
 *
 * JSON text columns are held decoded, so `_enrich_span` and the
 * `json.loads` of event attributes are the identity here. Where SQL leaves
 * an order or a row unspecified (`ORDER BY` ties, `LIMIT 1` without
 * `ORDER BY`, bare columns in a `GROUP BY`) the model makes a fixed but
 * unspecified choice, so the query functions are ghost.
 */
module Queries {
  import opened Wrappers
  import opened Otlp
  import Otel
  import opened Store
  import opened Ordering

  // ---------------------------------------------------------------------
  // Events as the API returns them

  /** An event dict: its row with the `AUTOINCREMENT` id. */
  datatype EventView = EventView(id: nat, spanId: string, name: string, timeUnixNano: nat, attributes: map<string, Value>)

  /** `SELECT * FROM events` in id order: the event at position `i` has id `i + 1`. */
  function EventTable(events: seq<EventRow>): (r: seq<EventView>)
    ensures |r| == |events|
  {
    seq(|events|, i requires 0 <= i < |events| =>
      EventView(i + 1, events[i].spanId, events[i].name, events[i].timeUnixNano, events[i].attributes))
  }

  /** An event view is a stored event exactly when it carries a stored row under that row's id. */
  lemma EventTableAt(events: seq<EventRow>, e: EventView)
    ensures e in EventTable(events) <==>
      1 <= e.id <= |events| && events[e.id - 1] == EventRow(e.spanId, e.name, e.timeUnixNano, e.attributes)
  {
    if 1 <= e.id <= |events| && events[e.id - 1] == EventRow(e.spanId, e.name, e.timeUnixNano, e.attributes) {
      assert EventTable(events)[e.id - 1] == e;
    }
  }

  function EventTime(e: EventView): int
  {
    e.timeUnixNano
  }

  /** `WHERE span_id IN (ids)`, keeping the order of `rows`. */
  function ForSpans(rows: seq<EventView>, ids: set<string>): seq<EventView>
    decreases |rows|
  {
    if rows == [] then []
    else
      var n := |rows| - 1;
      ForSpans(rows[..n], ids) + if rows[n].spanId in ids then [rows[n]] else []
  }

  /** The filter keeps each selected row as often as it occurs and drops every other. */
  lemma {:induction false} ForSpansCount(rows: seq<EventView>, ids: set<string>, e: EventView)
    ensures multiset(ForSpans(rows, ids))[e] == if e.spanId in ids then multiset(rows)[e] else 0
    decreases |rows|
  {
    if rows != [] {
      var n := |rows| - 1;
      ForSpansCount(rows[..n], ids, e);
      assert rows == rows[..n] + [rows[n]];
    }
  }

  /** Filtering a sorted sequence leaves it sorted. */
  lemma {:induction false} ForSpansSorted(rows: seq<EventView>, ids: set<string>)
    requires SortedBy(rows, EventTime)
    ensures SortedBy(ForSpans(rows, ids), EventTime)
    decreases |rows|
  {
    if rows != [] {
      var n := |rows| - 1;
      var init := ForSpans(rows[..n], ids);
      ForSpansSorted(rows[..n], ids);
      if rows[n].spanId in ids {
        forall j | 0 <= j < |init| ensures EventTime(init[j]) <= EventTime(rows[n]) {
          ForSpansCount(rows[..n], ids, init[j]);
          assert init[j] in multiset(init);
          var k :| 0 <= k < n && rows[..n][k] == init[j];
          assert rows[k] == init[j];
        }
        SortedSnoc(init, rows[n], EventTime);
      }
    }
  }

  /** What a filter selects depends only on which rows there are, not on their order. */
  lemma ForSpansPermutation(a: seq<EventView>, b: seq<EventView>, ids: set<string>)
    requires multiset(a) == multiset(b)
    ensures multiset(ForSpans(a, ids)) == multiset(ForSpans(b, ids))
  {
    forall e ensures multiset(ForSpans(a, ids))[e] == multiset(ForSpans(b, ids))[e] {
      ForSpansCount(a, ids, e);
      ForSpansCount(b, ids, e);
    }
  }

  /** Narrowing a selection to one of its spans is selecting that span directly. */
  lemma ForSpansNarrow(rows: seq<EventView>, ids: set<string>, spanId: string)
    requires spanId in ids
    ensures multiset(ForSpans(ForSpans(rows, ids), {spanId})) == multiset(ForSpans(rows, {spanId}))
  {
    forall e ensures multiset(ForSpans(ForSpans(rows, ids), {spanId}))[e] == multiset(ForSpans(rows, {spanId}))[e] {
      ForSpansCount(ForSpans(rows, ids), {spanId}, e);
      ForSpansCount(rows, ids, e);
      ForSpansCount(rows, {spanId}, e);
    }
  }

  /** The stored events of one span, in id order. */
  function StoredEvents(db: Db, spanId: string): seq<EventView>
  {
    ForSpans(EventTable(db.events), {spanId})
  }

  /** A stored event of a span is an event of the table with that span's id, and conversely. */
  lemma StoredEventsExact(db: Db, spanId: string, e: EventView)
    ensures e in StoredEvents(db, spanId) <==> e in EventTable(db.events) && e.spanId == spanId
  {
    ForSpansCount(EventTable(db.events), {spanId}, e);
  }

  /**
   * The rows `SELECT * FROM events WHERE span_id IN (ids) ORDER BY
   * time_unix_nano` may come back as: the selected rows, by time, with
   * rows of equal time in any order.
   */
  predicate IsEventSelection(db: Db, ids: set<string>, rows: seq<EventView>)
  {
    multiset(rows) == multiset(ForSpans(EventTable(db.events), ids)) && SortedBy(rows, EventTime)
  }

  /** The order in which this database returns them. */
  ghost function SelectEvents(db: Db, ids: set<string>): (r: seq<EventView>)
    ensures IsEventSelection(db, ids, r)
  {
    SortBy(ForSpans(EventTable(db.events), ids), EventTime)
  }

  /**
   * The part of a selection that belongs to one of the selected spans is
   * exactly that span's stored events, in non-decreasing time order.
   */
  lemma SelectedEventsOf(db: Db, ids: set<string>, rows: seq<EventView>, spanId: string)
    requires IsEventSelection(db, ids, rows) && spanId in ids
    ensures multiset(ForSpans(rows, {spanId})) == multiset(StoredEvents(db, spanId))
    ensures SortedBy(ForSpans(rows, {spanId}), EventTime)
  {
    var table := EventTable(db.events);
    ForSpansPermutation(rows, ForSpans(table, ids), {spanId});
    ForSpansNarrow(table, ids, spanId);
    ForSpansSorted(rows, {spanId});
  }

  // ---------------------------------------------------------------------
  // `_attach_events`

  /** A span dict as the API returns it: its row, JSON columns decoded, and its events. */
  datatype SpanView = SpanView(row: SpanRow, events: seq<EventView>)

  function SpanIds(rows: seq<SpanRow>): set<string>
  {
    set i | 0 <= i < |rows| :: rows[i].spanId
  }

  function Rows(spans: seq<SpanView>): (r: seq<SpanRow>)
    ensures |r| == |spans|
  {
    seq(|spans|, i requires 0 <= i < |spans| => spans[i].row)
  }

  /** `events_by_span.get(span_id, [])`. */
  function Grouped(bySpan: map<string, seq<EventView>>, spanId: string): seq<EventView>
  {
    if spanId in bySpan then bySpan[spanId] else []
  }

  /** A span dict with its events from `rows`: the rows of its `span_id`, in the order they came. */
  function WithEvents(span: SpanView, rows: seq<EventView>): SpanView
  {
    SpanView(span.row, ForSpans(rows, {span.row.spanId}))
  }

  /**
   * `_attach_events`: `rows` is what the `SELECT` over the spans' ids
   * returned (`SelectionOfEach` says what each span receives from it). The
   * rows are grouped by `span_id` in the order they came, then each span
   * dict gets its group, or `[]`; nothing else in the span dicts changes.
   */
  method AttachEvents(spans: array<SpanView>, rows: seq<EventView>)
    modifies spans
    ensures forall j | 0 <= j < spans.Length :: spans[j] == WithEvents(old(spans[j]), rows)
  {
    if spans.Length == 0 {
      return;
    }
    var bySpan := GroupBySpan(rows);
    var j := 0;
    while j < spans.Length
      invariant 0 <= j <= spans.Length
      invariant forall t | 0 <= t < j :: spans[t] == WithEvents(old(spans[t]), rows)
      invariant forall t | j <= t < spans.Length :: spans[t] == old(spans[t])
    {
      spans[j] := SpanView(spans[j].row, Grouped(bySpan, spans[j].row.spanId));
      j := j + 1;
    }
  }

  /** Each span's part of a selection over all the spans is exactly its stored events, by time. */
  lemma SelectionOfEach(db: Db, spans: seq<SpanView>, rows: seq<EventView>)
    requires IsEventSelection(db, SpanIds(Rows(spans)), rows)
    ensures forall t | 0 <= t < |spans| ::
      && WithEvents(spans[t], rows).row == spans[t].row
      && multiset(WithEvents(spans[t], rows).events) == multiset(StoredEvents(db, spans[t].row.spanId))
      && SortedBy(WithEvents(spans[t], rows).events, EventTime)
  {
    forall t | 0 <= t < |spans|
      ensures multiset(ForSpans(rows, {spans[t].row.spanId})) == multiset(StoredEvents(db, spans[t].row.spanId))
      ensures SortedBy(ForSpans(rows, {spans[t].row.spanId}), EventTime)
    {
      assert Rows(spans)[t] == spans[t].row;
      SelectedEventsOf(db, SpanIds(Rows(spans)), rows, spans[t].row.spanId);
    }
  }

  /** The first loop of `_attach_events`: `events_by_span.setdefault(span_id, []).append(ev)` for each row. */
  method GroupBySpan(rows: seq<EventView>) returns (bySpan: map<string, seq<EventView>>)
    ensures forall id :: Grouped(bySpan, id) == ForSpans(rows, {id})
  {
    bySpan := map[];
    var i := 0;
    while i < |rows|
      invariant 0 <= i <= |rows|
      invariant forall id :: Grouped(bySpan, id) == ForSpans(rows[..i], {id})
    {
      var ev := rows[i];
      assert rows[..i + 1][..i] == rows[..i];
      bySpan := bySpan[ev.spanId := Grouped(bySpan, ev.spanId) + [ev]];
      i := i + 1;
    }
    assert rows[..i] == rows;
  }

  /** The span dicts for `rows` after `_attach_events`, with the events in this database's order. */
  ghost function Attached(db: Db, rows: seq<SpanRow>): (r: seq<SpanView>)
    ensures |r| == |rows|
  {
    if rows == [] then []
    else
      var selected := SelectEvents(db, SpanIds(rows));
      seq(|rows|, i requires 0 <= i < |rows| => WithEvents(SpanView(rows[i], []), selected))
  }

  /** Every span keeps its row and receives exactly its stored events, by time. */
  lemma AttachedExact(db: Db, rows: seq<SpanRow>, i: nat)
    requires i < |rows|
    ensures Attached(db, rows)[i].row == rows[i]
    ensures multiset(Attached(db, rows)[i].events) == multiset(StoredEvents(db, rows[i].spanId))
    ensures SortedBy(Attached(db, rows)[i].events, EventTime)
  {
    SelectedEventsOf(db, SpanIds(rows), SelectEvents(db, SpanIds(rows)), rows[i].spanId);
  }

  // ---------------------------------------------------------------------
  // Cost totals

  /**
   * What `SUM` adds for one event: `json_extract` of `yuu.cost.amount`,
   * where a number counts as itself, `true` and `false` as 1 and 0, and an
   * absent key (SQL `NULL`) as nothing.
   */
  function Amount(attrs: map<string, Value>): real
  {
    match Lookup(attrs, Otel.AttrCostAmount)
    case Some(VInt(i)) => i as real
    case Some(VFloat(r)) => r
    case Some(VBool(b)) => if b then 1.0 else 0.0
    case _ => 0.0
  }

  /** `COALESCE(SUM(amount), 0)` over the `yuu.cost` events of the spans `ids`. */
  function CostWhere(events: seq<EventRow>, ids: set<string>): real
    decreases |events|
  {
    if events == [] then 0.0
    else
      var n := |events| - 1;
      CostWhere(events[..n], ids) +
        if events[n].name == Otel.EventCost && events[n].spanId in ids then Amount(events[n].attributes) else 0.0
  }

  /** The `span_id`s of a trace's spans. */
  function TraceSpanIds(db: Db, traceId: string): set<string>
  {
    set k | k in db.spans && db.spans[k].traceId == traceId :: db.spans[k].spanId
  }

  /** The cost of a trace: the amounts of all `yuu.cost` events of its spans. */
  function TraceCost(db: Db, traceId: string): real
  {
    CostWhere(db.events, TraceSpanIds(db, traceId))
  }

  /** A total over two stretches of events is the sum of their totals. */
  lemma {:induction false} CostWhereAppend(a: seq<EventRow>, b: seq<EventRow>, ids: set<string>)
    ensures CostWhere(a + b, ids) == CostWhere(a, ids) + CostWhere(b, ids)
    decreases |b|
  {
    if b == [] {
      assert a + b == a;
    } else {
      var n := |b| - 1;
      assert (a + b)[..|a + b| - 1] == a + b[..n];
      CostWhereAppend(a, b[..n], ids);
    }
  }

  /** With no `yuu.cost` event among the spans, the `COALESCE` gives 0. */
  lemma {:induction false} CostWhereNone(events: seq<EventRow>, ids: set<string>)
    requires forall i | 0 <= i < |events| :: events[i].name != Otel.EventCost || events[i].spanId !in ids
    ensures CostWhere(events, ids) == 0.0
    decreases |events|
  {
    if events != [] {
      CostWhereNone(events[..|events| - 1], ids);
    }
  }

  /** Adding a span that no event refers to leaves the total as it was. */
  lemma {:induction false} CostWhereUnreferenced(events: seq<EventRow>, ids: set<string>, spanId: string)
    requires forall i | 0 <= i < |events| :: events[i].spanId != spanId
    ensures CostWhere(events, ids + {spanId}) == CostWhere(events, ids)
    decreases |events|
  {
    if events != [] {
      CostWhereUnreferenced(events[..|events| - 1], ids, spanId);
    }
  }

  // ---------------------------------------------------------------------
  // Choices SQL leaves open

  /** Some member of `s`: a row SQLite is free to pick. */
  ghost function Pick<T>(s: set<T>): (r: T)
    requires s != {}
    ensures r in s
  {
    var x :| x in s; x
  }

  ghost function SetMin(s: set<nat>): (m: nat)
    requires s != {}
    ensures m in s && forall y | y in s :: m <= y
    decreases |s|
  {
    var x :| x in s;
    if s == {x} then x
    else
      var rest := SetMin(s - {x});
      assert forall y | y in s :: y == x || y in s - {x};
      if x <= rest then x else rest
  }

  ghost function SetMax(s: set<nat>): (m: nat)
    requires s != {}
    ensures m in s && forall y | y in s :: y <= m
    decreases |s|
  {
    var x :| x in s;
    if s == {x} then x
    else
      var rest := SetMax(s - {x});
      assert forall y | y in s :: y == x || y in s - {x};
      if x >= rest then x else rest
  }

  /** `LIMIT limit OFFSET offset`: a negative limit is no limit, a negative offset is 0. */
  function Page<T>(s: seq<T>, limit: int, offset: int): (r: seq<T>)
    ensures var o := if offset < 0 then 0 else offset;
      var rest := if o < |s| then |s| - o else 0;
      && |r| == (if 0 <= limit < rest then limit else rest)
      && forall i | 0 <= i < |r| :: r[i] == s[o + i]
  {
    var o := if offset < 0 then 0 else offset;
    var rest := if o < |s| then s[o..] else [];
    if 0 <= limit < |rest| then rest[..limit] else rest
  }

  // ---------------------------------------------------------------------
  // `list_conversations`

  /** `if agent:` — a missing or empty agent does not filter. */
  predicate FiltersAgent(agent: Option<string>)
  {
    agent.Some? && agent.value != ""
  }

  /** The `WHERE` of both queries: a conversation id, and the agent when one filters. */
  predicate Listed(row: SpanRow, agent: Option<string>)
  {
    row.conversationId.Some? && (FiltersAgent(agent) ==> row.agent == Some(VString(agent.value)))
  }

  /** The distinct conversation ids `COUNT(DISTINCT conversation_id)` counts. */
  function ConversationIds(db: Db, agent: Option<string>): set<Value>
  {
    set k | k in db.spans && Listed(db.spans[k], agent) :: db.spans[k].conversationId.value
  }

  /** The rows `root` of one group of `GROUP BY root.conversation_id`. */
  function GroupRoots(db: Db, agent: Option<string>, c: Value): set<SpanRow>
  {
    set k | k in db.spans && Listed(db.spans[k], agent) && db.spans[k].conversationId == Some(c) :: db.spans[k]
  }

  /** The spans sharing a trace id. */
  function TraceRows(db: Db, traceId: string): set<SpanRow>
  {
    set k | k in db.spans && db.spans[k].traceId == traceId :: db.spans[k]
  }

  /**
   * The joined `(root, all_spans)` pairs of one group, as a set of row
   * values. Its size is SQL's `COUNT(all_spans.span_id)` when distinct keys
   * hold distinct rows, which `Wf` guarantees: each row carries its own key.
   */
  function Joined(db: Db, agent: Option<string>, c: Value): set<(SpanRow, SpanRow)>
  {
    set r, s | r in GroupRoots(db, agent, c) && s in TraceRows(db, r.traceId) :: (r, s)
  }

  /** One listed conversation; `trace_id` has been popped. */
  datatype ConversationSummary = ConversationSummary(
    id: Value,
    agent: Option<Value>,
    model: Option<Value>,
    spanCount: nat,
    startTime: nat,
    endTime: nat,
    totalCost: real)

  lemma JoinedNonEmpty(db: Db, agent: Option<string>, c: Value)
    requires c in ConversationIds(db, agent)
    ensures GroupRoots(db, agent, c) != {} && Joined(db, agent, c) != {}
  {
    var k :| k in db.spans && Listed(db.spans[k], agent) && db.spans[k].conversationId.value == c;
    var root := db.spans[k];
    assert root in GroupRoots(db, agent, c);
    assert root in TraceRows(db, root.traceId);
    assert (root, root) in Joined(db, agent, c);
  }

  ghost function Starts(pairs: set<(SpanRow, SpanRow)>): (r: set<nat>)
    ensures pairs != {} ==> r != {}
  {
    var r := set p | p in pairs :: p.1.startTimeUnixNano;
    assert pairs != {} ==> r != {} by {
      if pairs != {} {
        var p :| p in pairs;
        assert p.1.startTimeUnixNano in r;
      }
    }
    r
  }

  ghost function Ends(pairs: set<(SpanRow, SpanRow)>): (r: set<nat>)
    ensures pairs != {} ==> r != {}
  {
    var r := set p | p in pairs :: p.1.endTimeUnixNano;
    assert pairs != {} ==> r != {} by {
      if pairs != {} {
        var p :| p in pairs;
        assert p.1.endTimeUnixNano in r;
      }
    }
    r
  }

  /**
   * The joined pairs SQLite may take the bare columns `root.agent`,
   * `root.model` and `root.trace_id` from: with both `MIN` and `MAX` in the
   * query, a pair on which one of them takes its value.
   */
  ghost function BareRows(db: Db, agent: Option<string>, c: Value): set<(SpanRow, SpanRow)>
    requires c in ConversationIds(db, agent)
  {
    JoinedNonEmpty(db, agent, c);
    var pairs := Joined(db, agent, c);
    var lo := SetMin(Starts(pairs));
    var hi := SetMax(Ends(pairs));
    set p | p in pairs && (p.1.startTimeUnixNano == lo || p.1.endTimeUnixNano == hi)
  }

  lemma BareRowsNonEmpty(db: Db, agent: Option<string>, c: Value)
    requires c in ConversationIds(db, agent)
    ensures BareRows(db, agent, c) != {}
  {
    JoinedNonEmpty(db, agent, c);
    var pairs := Joined(db, agent, c);
    var lo := SetMin(Starts(pairs));
    var p :| p in pairs && p.1.startTimeUnixNano == lo;
    assert p in BareRows(db, agent, c);
  }

  /** The summary of conversation `c`, with its `total_cost` from the trace of the row SQLite reports. */
  ghost function Summary(db: Db, agent: Option<string>, c: Value): ConversationSummary
    requires c in ConversationIds(db, agent)
  {
    JoinedNonEmpty(db, agent, c);
    BareRowsNonEmpty(db, agent, c);
    var pairs := Joined(db, agent, c);
    var root := Pick(BareRows(db, agent, c)).0;
    ConversationSummary(c, root.agent, root.model, |pairs|, SetMin(Starts(pairs)), SetMax(Ends(pairs)),
      TraceCost(db, root.traceId))
  }

  lemma SummaryId(db: Db, agent: Option<string>, c: Value)
    requires c in ConversationIds(db, agent)
    ensures Summary(db, agent, c).id == c
  {
  }

  /** A summary per conversation id, in the order given. */
  ghost function Summaries(db: Db, agent: Option<string>, ids: seq<Value>): (r: seq<ConversationSummary>)
    requires forall i | 0 <= i < |ids| :: ids[i] in ConversationIds(db, agent)
    ensures |r| == |ids|
    ensures forall i | 0 <= i < |ids| :: r[i] == Summary(db, agent, ids[i])
    decreases |ids|
  {
    if ids == [] then []
    else [Summary(db, agent, ids[0])] + Summaries(db, agent, ids[1..])
  }

  /** `ORDER BY start_time DESC`, as a key sorted ascending. */
  ghost function RankKey(db: Db, agent: Option<string>): Value -> int
  {
    c => if c in ConversationIds(db, agent) then 0 - Summary(db, agent, c).startTime else 0
  }

  /** The conversation ids in the order `ORDER BY start_time DESC` returns their groups here. */
  ghost function RankedIds(db: Db, agent: Option<string>): (ids: seq<Value>)
    ensures multiset(ids) == multiset(ConversationIds(db, agent))
    ensures SortedBy(ids, RankKey(db, agent))
    ensures forall i | 0 <= i < |ids| :: ids[i] in ConversationIds(db, agent)
  {
    var ids := SortBy(SetToSeq(ConversationIds(db, agent)), RankKey(db, agent));
    assert forall i | 0 <= i < |ids| :: ids[i] in multiset(ids);
    ids
  }

  /** Every group, summarised, latest start first. */
  ghost function Ranked(db: Db, agent: Option<string>): seq<ConversationSummary>
  {
    Summaries(db, agent, RankedIds(db, agent))
  }

  datatype ConversationList = ConversationList(conversations: seq<ConversationSummary>, total: nat)

  /**
   * `list_conversations`: one page of the ranked summaries and the number
   * of conversations. `limit` and `offset` are bound as SQL parameters, so
   * sqlite3 accepts them only when they fit 64 bits.
   */
  ghost function ListConversations(db: Db, limit: int, offset: int, agent: Option<string>): ConversationList
    requires FitsInteger(limit) && FitsInteger(offset)
  {
    ConversationList(Page(Ranked(db, agent), limit, offset), |ConversationIds(db, agent)|)
  }

  /** A sequence with the multiset of a set lists each member once. */
  lemma ListsSetOnce<T>(xs: seq<T>, s: set<T>)
    requires multiset(xs) == multiset(s)
    ensures |xs| == |s|
    ensures forall i, j | 0 <= i < j < |xs| :: xs[i] != xs[j]
  {
    SetMultisetSize(s);
    assert |xs| == |multiset(xs)|;
    forall i, j | 0 <= i < j < |xs| ensures xs[i] != xs[j] {
      if xs[i] == xs[j] {
        CountTwo(xs, i, j);
        assert false;
      }
    }
  }

  /** A value at two positions occurs at least twice. */
  lemma CountTwo<T>(xs: seq<T>, i: nat, j: nat)
    requires i < j < |xs| && xs[i] == xs[j]
    ensures multiset(xs)[xs[i]] >= 2
  {
    var rest := xs[..i] + xs[i + 1..];
    assert xs == xs[..i] + [xs[i]] + xs[i + 1..];
    assert xs[j] == rest[j - 1];
    assert multiset(xs) == multiset(rest) + multiset{xs[i]};
    assert xs[j] in multiset(rest);
  }

  /** A set's multiset has the set's size. */
  lemma {:induction false} SetMultisetSize<T>(s: set<T>)
    ensures |multiset(s)| == |s|
    decreases |s|
  {
    if s != {} {
      var x :| x in s;
      SetMultisetSize(s - {x});
      assert s == (s - {x}) + {x};
      assert multiset(s) == multiset(s - {x}) + multiset{x};
    }
  }

  /** Latest start first, and no conversation twice. */
  predicate RankedOrder(r: seq<ConversationSummary>)
  {
    forall i, j | 0 <= i < j < |r| :: r[j].startTime <= r[i].startTime && r[i].id != r[j].id
  }

  /** A page of a ranking is ranked the same way. */
  lemma PageRanked(ranked: seq<ConversationSummary>, limit: int, offset: int)
    requires RankedOrder(ranked)
    ensures RankedOrder(Page(ranked, limit, offset))
  {
    var page := Page(ranked, limit, offset);
    var o := if offset < 0 then 0 else offset;
    forall i, j | 0 <= i < j < |page|
      ensures page[j].startTime <= page[i].startTime && page[i].id != page[j].id
    {
      assert page[i] == ranked[o + i] && page[j] == ranked[o + j];
    }
  }

  /** The ranking lists each conversation exactly once, latest start first. */
  lemma RankedFacts(db: Db, agent: Option<string>)
    ensures var r := Ranked(db, agent);
      && |r| == |ConversationIds(db, agent)|
      && RankedOrder(r)
      && (forall i | 0 <= i < |r| :: r[i].id in ConversationIds(db, agent) && r[i] == Summary(db, agent, r[i].id))
  {
    var ids := RankedIds(db, agent);
    var r := Ranked(db, agent);
    ListsSetOnce(ids, ConversationIds(db, agent));
    forall i | 0 <= i < |r| ensures r[i].id == ids[i] {
      SummaryId(db, agent, ids[i]);
    }
    forall i, j | 0 <= i < j < |r| ensures r[j].startTime <= r[i].startTime && r[i].id != r[j].id {
      assert RankKey(db, agent)(ids[i]) <= RankKey(db, agent)(ids[j]);
    }
  }

  /**
   * `total` counts the distinct conversation ids; the page holds at most
   * `limit` summaries (all of them after `offset` when `limit` is
   * negative), taken in order from position `offset` of the ranking.
   */
  lemma ListConversationsPage(db: Db, limit: int, offset: int, agent: Option<string>)
    requires FitsInteger(limit) && FitsInteger(offset)
    ensures var r := ListConversations(db, limit, offset, agent);
      var ranked := Ranked(db, agent);
      var o := if offset < 0 then 0 else offset;
      var rest := if o < r.total then r.total - o else 0;
      && r.total == |ConversationIds(db, agent)| == |ranked|
      && |r.conversations| == (if 0 <= limit < rest then limit else rest)
      && (forall i | 0 <= i < |r.conversations| :: r.conversations[i] == ranked[o + i])
      && RankedOrder(r.conversations)
  {
    var ranked := Ranked(db, agent);
    RankedFacts(db, agent);
    PageRanked(ranked, limit, offset);
  }

  /**
   * A summary counts every joined `(root, span)` pair, spans the earliest
   * start to the latest end of those spans, and reports agent and model of
   * one root of the conversation with the cost of that root's trace. The
   * pairs are row values, so in a store satisfying `Wf` their number is
   * the number of joined rows.
   */
  lemma SummaryFacts(db: Db, agent: Option<string>, c: Value)
    requires c in ConversationIds(db, agent)
    ensures var s := Summary(db, agent, c);
      var pairs := Joined(db, agent, c);
      && s.id == c
      && s.spanCount == |pairs| > 0
      && (forall p | p in pairs :: s.startTime <= p.1.startTimeUnixNano && p.1.endTimeUnixNano <= s.endTime)
      && s.startTime in Starts(pairs) && s.endTime in Ends(pairs)
      && exists root | root in GroupRoots(db, agent, c) ::
           s.agent == root.agent && s.model == root.model && s.totalCost == TraceCost(db, root.traceId)
  {
    JoinedNonEmpty(db, agent, c);
    BareRowsNonEmpty(db, agent, c);
    var pairs := Joined(db, agent, c);
    var root := Pick(BareRows(db, agent, c)).0;
    assert root in GroupRoots(db, agent, c);
    forall p | p in pairs ensures SetMin(Starts(pairs)) <= p.1.startTimeUnixNano && p.1.endTimeUnixNano <= SetMax(Ends(pairs)) {
      assert p.1.startTimeUnixNano in Starts(pairs);
      assert p.1.endTimeUnixNano in Ends(pairs);
    }
  }

  /** Every conversation total of a listing is the cost of the trace of one of its roots. */
  lemma ListedCost(db: Db, limit: int, offset: int, agent: Option<string>, i: nat)
    requires FitsInteger(limit) && FitsInteger(offset)
    requires i < |ListConversations(db, limit, offset, agent).conversations|
    ensures var s := ListConversations(db, limit, offset, agent).conversations[i];
      && s.id in ConversationIds(db, agent)
      && exists root | root in GroupRoots(db, agent, s.id) :: s.totalCost == TraceCost(db, root.traceId)
  {
    ListConversationsPage(db, limit, offset, agent);
    RankedFacts(db, agent);
    var s := ListConversations(db, limit, offset, agent).conversations[i];
    SummaryFacts(db, agent, s.id);
  }

  // ---------------------------------------------------------------------
  // `get_conversation` and `get_span`

  /** The conversation response: metadata from the earliest span, every span of the trace with its events. */
  datatype ConversationView = ConversationView(
    id: string,
    agent: Option<Value>,
    model: Option<Value>,
    tags: Option<Value>,
    spans: seq<SpanView>,
    totalCost: real,
    startTime: nat,
    endTime: nat)

  /** The spans `WHERE conversation_id = ?` matches. */
  function ConversationRoots(db: Db, conversationId: string): set<SpanRow>
  {
    set k | k in db.spans && db.spans[k].conversationId == Some(VString(conversationId)) :: db.spans[k]
  }

  function StartTime(row: SpanRow): int
  {
    row.startTimeUnixNano
  }

  /** `max(s["end_time_unix_nano"] for s in spans)`. */
  function MaxEnd(rows: seq<SpanRow>): (m: nat)
    requires |rows| > 0
    ensures forall i | 0 <= i < |rows| :: rows[i].endTimeUnixNano <= m
    ensures exists i | 0 <= i < |rows| :: rows[i].endTimeUnixNano == m
    decreases |rows|
  {
    if |rows| == 1 then rows[0].endTimeUnixNano
    else
      var rest := MaxEnd(rows[1..]);
      assert forall i | 1 <= i < |rows| :: rows[i] == rows[1..][i - 1];
      if rows[0].endTimeUnixNano >= rest then rows[0].endTimeUnixNano else rest
  }

  /** The trace `LIMIT 1` picks: that of some span carrying the conversation id. */
  ghost function ConversationTrace(db: Db, conversationId: string): string
    requires ConversationRoots(db, conversationId) != {}
  {
    Pick(ConversationRoots(db, conversationId)).traceId
  }

  /** The trace's rows in the order `ORDER BY start_time_unix_nano` returns them here. */
  ghost function TraceByStart(db: Db, traceId: string): seq<SpanRow>
  {
    SortBy(SetToSeq(TraceRows(db, traceId)), StartTime)
  }

  /**
   * `get_conversation`: `None` when no span carries the id. Otherwise all
   * spans of the trace of one span that does, earliest first; the "root"
   * whose agent, model and tags are reported is simply the earliest span.
   */
  ghost function GetConversation(db: Db, conversationId: string): Option<ConversationView>
  {
    var roots := ConversationRoots(db, conversationId);
    if roots == {} then None
    else
      var rows := TraceByStart(db, ConversationTrace(db, conversationId));
      if rows == [] then None
      else
        var spans := Attached(db, rows);
        // `root.get("agent", "")`: the column is always present, so the default is never used
        var root := spans[0].row;
        Some(ConversationView(conversationId, root.agent, root.model,
          Lookup(root.attributes, Otel.AttrConversationTags), spans,
          CostWhere(db.events, SpanIds(rows)), rows[0].startTimeUnixNano, MaxEnd(rows)))
  }

  /** The trace of a conversation span always holds that span, so the second `None` cannot happen. */
  lemma TraceByStartFacts(db: Db, traceId: string)
    ensures var rows := TraceByStart(db, traceId);
      && multiset(rows) == multiset(TraceRows(db, traceId))
      && SortedBy(rows, StartTime)
      && |rows| == |TraceRows(db, traceId)|
      && SpanIds(rows) == TraceSpanIds(db, traceId)
  {
    var rows := TraceByStart(db, traceId);
    var set_ := TraceRows(db, traceId);
    SetMultisetSize(set_);
    assert |rows| == |multiset(rows)|;
    forall id | id in SpanIds(rows) ensures id in TraceSpanIds(db, traceId) {
      var i :| 0 <= i < |rows| && rows[i].spanId == id;
      assert rows[i] in multiset(rows);
      assert rows[i] in set_;
    }
    forall id | id in TraceSpanIds(db, traceId) ensures id in SpanIds(rows) {
      var k :| k in db.spans && db.spans[k].traceId == traceId && db.spans[k].spanId == id;
      assert db.spans[k] in set_;
      assert db.spans[k] in multiset(rows);
      var i :| 0 <= i < |rows| && rows[i] == db.spans[k];
    }
  }

  /**
   * `get_conversation` finds the conversation exactly when some span
   * carries its id. It then returns every span of that span's trace, once
   * each, in non-decreasing start order, starts at the first span's start,
   * ends at the latest end, costs what the trace's `yuu.cost` events add
   * up to, and takes agent, model and tags from the earliest span.
   */
  lemma GetConversationFacts(db: Db, conversationId: string)
    ensures GetConversation(db, conversationId).None? <==> ConversationRoots(db, conversationId) == {}
    ensures GetConversation(db, conversationId).Some? ==>
      var c := GetConversation(db, conversationId).value;
      var traceId := ConversationTrace(db, conversationId);
      var rows := Rows(c.spans);
      && (exists root | root in ConversationRoots(db, conversationId) :: root.traceId == traceId)
      && c.id == conversationId
      && multiset(rows) == multiset(TraceRows(db, traceId))
      && SortedBy(rows, StartTime)
      && |rows| > 0
      && c.startTime == rows[0].startTimeUnixNano
      && (forall i | 0 <= i < |rows| :: c.startTime <= rows[i].startTimeUnixNano)
      && (forall i | 0 <= i < |rows| :: rows[i].endTimeUnixNano <= c.endTime)
      && (exists i | 0 <= i < |rows| :: rows[i].endTimeUnixNano == c.endTime)
      && c.totalCost == TraceCost(db, traceId)
      && c.agent == rows[0].agent && c.model == rows[0].model
      && c.tags == Lookup(rows[0].attributes, Otel.AttrConversationTags)
  {
    var roots := ConversationRoots(db, conversationId);
    if roots != {} {
      var traceId := ConversationTrace(db, conversationId);
      var root := Pick(roots);
      var k :| k in db.spans && db.spans[k].conversationId == Some(VString(conversationId)) && db.spans[k] == root;
      assert root in TraceRows(db, traceId);
      TraceByStartFacts(db, traceId);
      var sorted := TraceByStart(db, traceId);
      assert |sorted| > 0;
      var c := GetConversation(db, conversationId).value;
      var spans := Attached(db, sorted);
      forall i | 0 <= i < |sorted| ensures spans[i].row == sorted[i] {
        AttachedExact(db, sorted, i);
      }
      assert Rows(c.spans) == sorted;
      forall i | 0 <= i < |sorted| ensures c.startTime <= sorted[i].startTimeUnixNano {
        if i > 0 {
          assert StartTime(sorted[0]) <= StartTime(sorted[i]);
        }
      }
    }
  }

  /** The events of every span of a conversation are exactly its stored events, by time. */
  lemma GetConversationEvents(db: Db, conversationId: string, i: nat)
    requires GetConversation(db, conversationId).Some?
    requires i < |GetConversation(db, conversationId).value.spans|
    ensures var s := GetConversation(db, conversationId).value.spans[i];
      && multiset(s.events) == multiset(StoredEvents(db, s.row.spanId))
      && SortedBy(s.events, EventTime)
  {
    var rows := TraceByStart(db, ConversationTrace(db, conversationId));
    AttachedExact(db, rows, i);
  }

  /** `get_span`: the span stored under `span_id`, with its events. */
  ghost function GetSpan(db: Db, spanId: string): Option<SpanView>
  {
    if spanId in db.spans then Some(Attached(db, [db.spans[spanId]])[0]) else None
  }

  /**
   * `get_span` returns `None` exactly when no span has that id; otherwise
   * the stored row, unchanged, with exactly its stored events by time.
   */
  lemma GetSpanFacts(db: Db, spanId: string)
    requires Wf(db)
    ensures GetSpan(db, spanId).None? <==> spanId !in db.spans
    ensures GetSpan(db, spanId).Some? ==> var s := GetSpan(db, spanId).value;
      && s.row == db.spans[spanId]
      && multiset(s.events) == multiset(StoredEvents(db, spanId))
      && SortedBy(s.events, EventTime)
  {
    if spanId in db.spans {
      AttachedExact(db, [db.spans[spanId]], 0);
    }
  }
}
