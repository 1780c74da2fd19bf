/**
 * From `record_cost` to the cost totals: a `yuu.cost` event whose
 * attributes the exporter encoded from a `CostDelta` is stored by
 * `insert_resource_spans` as an event row whose `json_extract` amount is
 * the delta's amount, and storing its span adds exactly that amount to the
 * cost of the span's trace.
 */
module Pipeline {
  import opened Wrappers
  import opened Otlp
  import opened Types
  import opened Store
  import opened Queries
  import Otel

  /** The exported form of one span event: the event `record_cost` appends. */
  function CostEvent(timeUnixNano: nat, kvs: seq<KeyValue>): Event
  {
    Event(Some(Otel.EventCost), Some(timeUnixNano), Some(kvs))
  }

  /** The stored row of an exported cost event is a `yuu.cost` row whose amount is the delta's. */
  lemma CostEventAmount(spanId: string, d: CostDelta, timeUnixNano: nat, kvs: seq<KeyValue>)
    requires EncodesAttributes(kvs, Otel.CostDeltaToOtel(d))
    ensures var row := EventRowOf(spanId, CostEvent(timeUnixNano, kvs));
      && row.spanId == spanId && row.name == Otel.EventCost && row.timeUnixNano == timeUnixNano
      && Amount(row.attributes) == d.amount
  {
    var attrs := Otel.CostDeltaToOtel(d);
    ParseEncodedAttributes(kvs, attrs);
    Otel.CostDeltaToOtelRequired(d);
    assert LiftAttributes(attrs)[Otel.AttrCostAmount] == VFloat(d.amount);
  }

  /** The total over one exported cost event of a counted span is the delta's amount. */
  lemma SingleCostEvent(spanId: string, d: CostDelta, timeUnixNano: nat, kvs: seq<KeyValue>, ids: set<string>)
    requires EncodesAttributes(kvs, Otel.CostDeltaToOtel(d))
    requires spanId in ids
    ensures CostWhere([EventRowOf(spanId, CostEvent(timeUnixNano, kvs))], ids) == d.amount
  {
    var rows := [EventRowOf(spanId, CostEvent(timeUnixNano, kvs))];
    CostEventAmount(spanId, d, timeUnixNano, kvs);
    assert rows[..0] == [];
  }

  /** The spans of a trace after one span row is written under its own id. */
  lemma TraceSpanIdsAfterUpsert(db: Db, row: SpanRow, events: seq<EventRow>)
    requires Wf(db)
    requires row.spanId in db.spans ==> db.spans[row.spanId].traceId == row.traceId
    ensures TraceSpanIds(Db(db.spans[row.spanId := row], events), row.traceId)
      == TraceSpanIds(db, row.traceId) + {row.spanId}
  {
    var after := Db(db.spans[row.spanId := row], events);
    var ids := TraceSpanIds(db, row.traceId);
    forall id | id in TraceSpanIds(after, row.traceId) ensures id in ids + {row.spanId} {
      var k :| k in after.spans && after.spans[k].traceId == row.traceId && after.spans[k].spanId == id;
      if k != row.spanId {
        assert db.spans[k] == after.spans[k];
      }
    }
    forall id | id in ids + {row.spanId} ensures id in TraceSpanIds(after, row.traceId) {
      if id == row.spanId {
        assert after.spans[row.spanId] == row;
      } else {
        var k :| k in db.spans && db.spans[k].traceId == row.traceId && db.spans[k].spanId == id;
        assert k == id;
        assert after.spans[k] == db.spans[k];
      }
    }
  }

  /**
   * Storing a span that carries one exported cost event adds the delta's
   * amount to the cost of the span's trace, when the span is new or was
   * already stored in that trace.
   */
  lemma IngestedCostCounted(db: Db, count: nat, x: SpanInput, d: CostDelta, timeUnixNano: nat, kvs: seq<KeyValue>)
    requires Wf(db)
    requires RowOf(x).Success?
    requires x.span.events == Some([CostEvent(timeUnixNano, kvs)])
    requires FitsInteger(timeUnixNano)
    requires EncodesAttributes(kvs, Otel.CostDeltaToOtel(d))
    requires RowOf(x).value.spanId in db.spans ==> db.spans[RowOf(x).value.spanId].traceId == RowOf(x).value.traceId
    ensures var row := RowOf(x).value;
      var after := Step(Ingested(db, count), x);
      && after.Ingested?
      && TraceCost(after.db, row.traceId) == TraceCost(db, row.traceId) + d.amount
  {
    var row := RowOf(x).value;
    var newEvents := EventRowsOf(row.spanId, x.span);
    var after := Step(Ingested(db, count), x).db;
    assert FirstUnboundEvent(x.span.events.GetOr([])) == 1;
    assert after == Db(db.spans[row.spanId := row], db.events + newEvents);
    var ids := TraceSpanIds(db, row.traceId);
    TraceSpanIdsAfterUpsert(db, row, db.events + newEvents);
    assert newEvents == [EventRowOf(row.spanId, CostEvent(timeUnixNano, kvs))];
    SingleCostEvent(row.spanId, d, timeUnixNano, kvs, ids + {row.spanId});
    CostWhereAppend(db.events, newEvents, ids + {row.spanId});
    if row.spanId in db.spans {
      assert ids + {row.spanId} == ids;
    } else {
      CostWhereUnreferenced(db.events, ids, row.spanId);
    }
  }
}
