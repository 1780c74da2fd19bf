/**
 * The OTLP/JSON request shapes the store reads and the attribute decoder
 * `_otlp_attr_value` / `_parse_attributes` (src/yuutrace/cli/db.py).
 *
 * A JSON object field that may be absent is an `Option`; `.get(k, d)` is
 * `GetOr(d)`. Only the fields the store reads are represented, so an
 * attribute value object with none of the known tags is the empty object.
 */
module Otlp {
  import opened Wrappers
  import opened Maps
  import Otel

  /** An OTLP `AnyValue` object: each tag is a field that may be absent. */
  datatype AnyValue = AnyValue(
    stringValue: Option<string> := None,
    intValue: Option<int> := None,
    doubleValue: Option<real> := None,
    boolValue: Option<bool> := None,
    arrayValue: Option<ArrayValue> := None,
    bytesValue: Option<string> := None,
    kvlistValue: Option<KeyValueList> := None)

  /** An `arrayValue` object, with or without its `values` field. */
  datatype ArrayValue = ArrayValue(values: seq<AnyValue>) | ArrayWithoutValues

  /** A `kvlistValue` object, with or without its `values` field. */
  datatype KeyValueList = KeyValueList(values: seq<KeyValue>) | KeyValueListWithoutValues

  /** One `attributes` entry; its `value` field may be absent. */
  datatype KeyValue = KeyValue(key: string, value: Option<AnyValue>)

  /** A decoded attribute value: the Python object `_otlp_attr_value` returns. */
  datatype Value =
    | VString(s: string)
    | VInt(i: int)
    | VFloat(r: real)
    | VBool(b: bool)
    | VList(items: seq<Value>)
    | VDict(entries: map<string, Value>)

  /** The empty object `{}`: what an entry without a known tag decodes to. */
  const EmptyDict := VDict(map[])

  /**
   * `_otlp_attr_value`: the first present tag in the order string, int,
   * double, bool, array, bytes, kvlist decides; an object with none of them
   * is returned unchanged, which here is the empty object.
   */
  function DecodeAnyValue(v: AnyValue): Value
    decreases v, 0
  {
    if v.stringValue.Some? then VString(v.stringValue.value)
    else if v.intValue.Some? then VInt(v.intValue.value)
    else if v.doubleValue.Some? then VFloat(v.doubleValue.value)
    else if v.boolValue.Some? then VBool(v.boolValue.value)
    else if v.arrayValue.Some? then
      VList(match v.arrayValue.value
            case ArrayValue(vs) => seq(|vs|, i requires 0 <= i < |vs| => DecodeAnyValue(vs[i]))
            case ArrayWithoutValues => [])
    else if v.bytesValue.Some? then VString(v.bytesValue.value)
    else if v.kvlistValue.Some? then
      VDict(match v.kvlistValue.value
            case KeyValueList(pairs) => ParseAttributes(pairs)
            case KeyValueListWithoutValues => map[])
    else EmptyDict
  }

  /** `_otlp_attr_value(p.get("value", {}))`: `{}` has no known tag and comes back as is. */
  function DecodeEntryValue(kv: KeyValue): Value
    decreases kv, 0
  {
    match kv.value
    case Some(v) => DecodeAnyValue(v)
    case None => EmptyDict
  }

  /** The (key, decoded value) pairs of an attribute list, in list order. */
  function DecodedEntries(kvs: seq<KeyValue>): (r: seq<(string, Value)>)
    decreases kvs, 0
    ensures |r| == |kvs|
    ensures forall i | 0 <= i < |kvs| :: r[i].0 == kvs[i].key
  {
    seq(|kvs|, i requires 0 <= i < |kvs| => (kvs[i].key, DecodeEntryValue(kvs[i])))
  }

  /** `_parse_attributes`: a dict comprehension, so a later duplicate key overwrites an earlier one. */
  function ParseAttributes(kvs: seq<KeyValue>): map<string, Value>
    decreases kvs, 1
  {
    Upsert(map[], DecodedEntries(kvs))
  }

  /** The key set of the parsed map is exactly the set of entry keys. */
  lemma ParseAttributesKeys(kvs: seq<KeyValue>)
    ensures ParseAttributes(kvs).Keys == set i | 0 <= i < |kvs| :: kvs[i].key
  {
    UpsertKeys(map[], DecodedEntries(kvs));
  }

  /** Under each key the parsed map holds the decoding of the last entry with that key. */
  lemma ParseAttributesLastWins(kvs: seq<KeyValue>, i: int)
    requires 0 <= i < |kvs| && forall j | i < j < |kvs| :: kvs[j].key != kvs[i].key
    ensures kvs[i].key in ParseAttributes(kvs)
    ensures ParseAttributes(kvs)[kvs[i].key] == DecodeEntryValue(kvs[i])
  {
    UpsertLastWins(map[], DecodedEntries(kvs), i);
  }

  /** An entry without `value` decodes like one whose value has no known tag: the empty object. */
  lemma MissingValueIsEmptyDict(key: string, v: AnyValue)
    requires v.stringValue.None? && v.intValue.None? && v.doubleValue.None? && v.boolValue.None?
    requires v.arrayValue.None? && v.bytesValue.None? && v.kvlistValue.None?
    ensures DecodeEntryValue(KeyValue(key, None)) == DecodeAnyValue(v) == EmptyDict
  {
  }

  /** `v` with only its first present tag kept, in the decoder's precedence order. */
  function FirstTag(v: AnyValue): AnyValue
  {
    if v.stringValue.Some? then AnyValue(stringValue := v.stringValue)
    else if v.intValue.Some? then AnyValue(intValue := v.intValue)
    else if v.doubleValue.Some? then AnyValue(doubleValue := v.doubleValue)
    else if v.boolValue.Some? then AnyValue(boolValue := v.boolValue)
    else if v.arrayValue.Some? then AnyValue(arrayValue := v.arrayValue)
    else if v.bytesValue.Some? then AnyValue(bytesValue := v.bytesValue)
    else if v.kvlistValue.Some? then AnyValue(kvlistValue := v.kvlistValue)
    else AnyValue()
  }

  /** Fixed precedence: every tag after the first present one is ignored. */
  lemma DecodePrecedence(v: AnyValue)
    ensures DecodeAnyValue(v) == DecodeAnyValue(FirstTag(v))
  {
  }

  /** An array decodes element-wise: same length, same order; without `values` it is `[]`. */
  lemma DecodeArray(vs: seq<AnyValue>)
    ensures var r := DecodeAnyValue(AnyValue(arrayValue := Some(ArrayValue(vs))));
      r.VList? && |r.items| == |vs| && forall i | 0 <= i < |vs| :: r.items[i] == DecodeAnyValue(vs[i])
    ensures DecodeAnyValue(AnyValue(arrayValue := Some(ArrayWithoutValues))) == VList([])
  {
  }

  // The OTLP request shapes that `insert_resource_spans` walks.

  datatype Resource = Resource(attributes: Option<seq<KeyValue>> := None)

  datatype ResourceSpans = ResourceSpans(
    resource: Option<Resource> := None,
    scopeSpans: Option<seq<ScopeSpans>> := None)

  datatype ScopeSpans = ScopeSpans(spans: Option<seq<Span>> := None)

  datatype Status = Status(code: Option<int> := None, message: Option<string> := None)

  datatype Event = Event(
    name: Option<string> := None,
    timeUnixNano: Option<nat> := None,
    attributes: Option<seq<KeyValue>> := None)

  datatype Span = Span(
    traceId: Option<string> := None,
    spanId: Option<string> := None,
    parentSpanId: Option<string> := None,
    name: Option<string> := None,
    startTimeUnixNano: Option<nat> := None,
    endTimeUnixNano: Option<nat> := None,
    attributes: Option<seq<KeyValue>> := None,
    status: Option<Status> := None,
    events: Option<seq<Event>> := None)

  /** `_parse_resource_attributes(rs.get("resource", {}))`. */
  function ResourceAttributes(resource: Option<Resource>): map<string, Value>
  {
    match resource
    case Some(r) => ParseAttributes(r.attributes.GetOr([]))
    case None => ParseAttributes([])
  }

  // The exporter's side: how a producer attribute value is written as an
  // OTLP `AnyValue`, so that the store's decoding can be related to what
  // the serialisers produced.

  /** The OTLP encoding of a flat producer attribute value. */
  function EncodeAttrValue(a: Otel.AttrValue): AnyValue
  {
    match a
    case StrValue(s) => AnyValue(stringValue := Some(s))
    case IntValue(i) => AnyValue(intValue := Some(i))
    case FloatValue(r) => AnyValue(doubleValue := Some(r))
    case BoolValue(b) => AnyValue(boolValue := Some(b))
  }

  /** The Python object a flat producer attribute value stands for. */
  function Lift(a: Otel.AttrValue): Value
  {
    match a
    case StrValue(s) => VString(s)
    case IntValue(i) => VInt(i)
    case FloatValue(r) => VFloat(r)
    case BoolValue(b) => VBool(b)
  }

  function LiftAttributes(attrs: Otel.Attributes): map<string, Value>
  {
    map k | k in attrs :: Lift(attrs[k])
  }

  /** `kvs` is an OTLP attribute list for `attrs`: every key once or more, each with its encoding. */
  predicate EncodesAttributes(kvs: seq<KeyValue>, attrs: Otel.Attributes)
  {
    && (forall i | 0 <= i < |kvs| :: kvs[i].key in attrs && kvs[i].value == Some(EncodeAttrValue(attrs[kvs[i].key])))
    && (forall k | k in attrs :: exists i | 0 <= i < |kvs| :: kvs[i].key == k)
  }

  /** Decoding inverts the exporter's encoding of every flat attribute value. */
  lemma DecodeEncodedAttrValue(a: Otel.AttrValue)
    ensures DecodeAnyValue(EncodeAttrValue(a)) == Lift(a)
  {
  }

  /**
   * Whatever order the exporter lists them in, the store parses a producer
   * attribute map back to the same attributes.
   */
  lemma ParseEncodedAttributes(kvs: seq<KeyValue>, attrs: Otel.Attributes)
    requires EncodesAttributes(kvs, attrs)
    ensures ParseAttributes(kvs) == LiftAttributes(attrs)
  {
    var parsed := ParseAttributes(kvs);
    ParseAttributesKeys(kvs);
    forall k | k in attrs
      ensures k in parsed && parsed[k] == Lift(attrs[k])
    {
      var j :| 0 <= j < |kvs| && kvs[j].key == k;
      var entries := DecodedEntries(kvs);
      assert entries[j].0 == k;
      assert k in EntryKeys(entries);
      var i := LastIndex(entries, k);
      ParseAttributesLastWins(kvs, i);
      DecodeEncodedAttrValue(attrs[k]);
    }
    assert parsed.Keys == LiftAttributes(attrs).Keys;
  }

  /** A decoded value with no dict inside: the values an encoder can write without choosing a key order. */
  predicate DictFree(x: Value)
  {
    match x
    case VDict(_) => false
    case VList(items) => forall i | 0 <= i < |items| :: DictFree(items[i])
    case _ => true
  }

  /** Encode a dict-free value as an OTLP `AnyValue`. */
  function EncodeValue(x: Value): AnyValue
    requires DictFree(x)
  {
    match x
    case VString(s) => AnyValue(stringValue := Some(s))
    case VInt(i) => AnyValue(intValue := Some(i))
    case VFloat(r) => AnyValue(doubleValue := Some(r))
    case VBool(b) => AnyValue(boolValue := Some(b))
    case VList(items) =>
      AnyValue(arrayValue := Some(ArrayValue(seq(|items|, i requires 0 <= i < |items| => EncodeValue(items[i])))))
  }

  /** Decoding inverts encoding on dict-free values, arrays included. */
  lemma {:induction false} DecodeEncodeValue(x: Value)
    requires DictFree(x)
    ensures DecodeAnyValue(EncodeValue(x)) == x
  {
    match x
    case VList(items) =>
      var enc := seq(|items|, i requires 0 <= i < |items| => EncodeValue(items[i]));
      forall i | 0 <= i < |items|
        ensures DecodeAnyValue(enc[i]) == items[i]
      {
        DecodeEncodeValue(items[i]);
      }
      var dec := seq(|enc|, i requires 0 <= i < |enc| => DecodeAnyValue(enc[i]));
      assert dec == items;
    case _ =>
  }
}
