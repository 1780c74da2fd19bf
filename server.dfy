/**
 * The OTLP/HTTP receiver (src/yuutrace/cli/server.py): `POST /v1/traces`
 * picks a body parser from the content type, parses, and hands the
 * `resourceSpans` to the store.
 *
 * Reading and parsing the body are not modelled: the outcome of each
 * parser on the request body is a parameter, a parsed body keeping only
 * its `resourceSpans` member.
 */
module Server {
  import opened Wrappers
  import opened Otlp
  import opened Store

  const ProtobufType := "application/x-protobuf"
  const JsonType := "application/json"
  const UnsupportedMessage := "Unsupported content type. Use application/json or application/x-protobuf."
  const InvalidBodyPrefix := "Invalid request body: "
  const StorageErrorMessage := "Internal storage error"

  /** Python's `needle in haystack` on strings. */
  function Contains(haystack: string, needle: string): bool
    decreases |haystack|
  {
    if needle <= haystack then true
    else if haystack == [] then false
    else Contains(haystack[1..], needle)
  }

  /** `needle` occurs at some position of `haystack`. */
  predicate Occurs(haystack: string, needle: string)
  {
    exists i | 0 <= i <= |haystack| :: needle <= haystack[i..]
  }

  /** `Contains` finds exactly the occurrences. */
  lemma {:induction false} ContainsOccurs(haystack: string, needle: string)
    ensures Contains(haystack, needle) <==> Occurs(haystack, needle)
    decreases |haystack|
  {
    if needle <= haystack {
      assert haystack[0..] == haystack;
    } else if haystack == [] {
    } else {
      var tail := haystack[1..];
      ContainsOccurs(tail, needle);
      if Occurs(tail, needle) {
        var i :| 0 <= i <= |tail| && needle <= tail[i..];
        assert tail[i..] == haystack[i + 1..];
      }
      if Occurs(haystack, needle) {
        var i :| 0 <= i <= |haystack| && needle <= haystack[i..];
        assert i != 0 by { assert haystack[0..] == haystack; }
        assert tail[i - 1..] == haystack[i..];
      }
    }
  }

  /** The two body parsers. */
  datatype Decoder = ProtobufDecoder | JsonDecoder

  /** The parser the content type selects, or `None` for 415. */
  function ChooseDecoder(contentType: string): Option<Decoder>
  {
    var isProtobuf := Contains(contentType, ProtobufType);
    var isJson := Contains(contentType, JsonType);
    if !isProtobuf && !isJson && contentType != "" then None
    else if isProtobuf || (!isJson && contentType == "") then Some(ProtobufDecoder)
    else Some(JsonDecoder)
  }

  /**
   * A non-empty content type naming neither format is refused; protobuf is
   * used when its type occurs or the header is empty, even when the JSON
   * type occurs too; JSON is used exactly when only its type occurs.
   */
  lemma ChooseDecoderCases(contentType: string)
    ensures ChooseDecoder(contentType).None? <==>
      contentType != "" && !Occurs(contentType, ProtobufType) && !Occurs(contentType, JsonType)
    ensures ChooseDecoder(contentType) == Some(ProtobufDecoder) <==>
      Occurs(contentType, ProtobufType) || contentType == ""
    ensures ChooseDecoder(contentType) == Some(JsonDecoder) <==>
      Occurs(contentType, JsonType) && !Occurs(contentType, ProtobufType)
  {
    ContainsOccurs(contentType, ProtobufType);
    ContainsOccurs(contentType, JsonType);
    if contentType == "" {
      assert !Contains(contentType, JsonType);
    }
  }

  /** A parsed request body: `body.get("resourceSpans", [])` reads this member. */
  datatype Body = Body(resourceSpans: Option<seq<ResourceSpans>>)

  datatype ResponseBody = PartialSuccess | ErrorBody(error: string)

  datatype Response = Response(status: nat, body: ResponseBody)

  /** The response `_receive_traces` sends and the store it leaves. */
  datatype Handled = Handled(response: Response, db: Db)

  /**
   * `_receive_traces` on a store in state `db`, given what each parser
   * makes of the request body.
   */
  function Receive(db: Db, contentType: string, protobufBody: Result<Body, string>, jsonBody: Result<Body, string>): Handled
  {
    match ChooseDecoder(contentType)
    case None => Handled(Response(415, ErrorBody(UnsupportedMessage)), db)
    case Some(decoder) =>
      var parsed := if decoder == ProtobufDecoder then protobufBody else jsonBody;
      match parsed
      case Failure(message) => Handled(Response(400, ErrorBody(InvalidBodyPrefix + message)), db)
      case Success(body) =>
        var rss := body.resourceSpans.GetOr([]);
        if rss == [] then Handled(Response(200, PartialSuccess), db)
        else
          var p := Ingest(db, rss);
          if p.Aborted? then Handled(Response(500, ErrorBody(StorageErrorMessage)), p.db)
          else Handled(Response(200, PartialSuccess), p.db)
  }

  /** The body the chosen parser produced. */
  function Parsed(contentType: string, protobufBody: Result<Body, string>, jsonBody: Result<Body, string>): Result<Body, string>
    requires ChooseDecoder(contentType).Some?
  {
    if ChooseDecoder(contentType) == Some(ProtobufDecoder) then protobufBody else jsonBody
  }

  /**
   * The receiver's decision table: 415 for an unsupported content type and
   * 400 for a body the chosen parser rejects, both without touching the
   * store; an empty or missing `resourceSpans` answers with
   * `partialSuccess` without inserting; otherwise the store ingests the
   * spans and the answer is 500 exactly when the insert stopped on an error.
   */
  lemma ReceiveDecisions(db: Db, contentType: string, protobufBody: Result<Body, string>, jsonBody: Result<Body, string>)
    ensures var h := Receive(db, contentType, protobufBody, jsonBody);
      && (h.response.status == 415 <==> ChooseDecoder(contentType).None?)
      && (h.response.status == 415 ==> h.response.body == ErrorBody(UnsupportedMessage) && h.db == db)
      && (h.response.status == 400 <==>
            ChooseDecoder(contentType).Some? && Parsed(contentType, protobufBody, jsonBody).Failure?)
      && (h.response.status == 400 ==>
            h.db == db && h.response.body == ErrorBody(InvalidBodyPrefix + Parsed(contentType, protobufBody, jsonBody).error))
      && (ChooseDecoder(contentType).Some? && Parsed(contentType, protobufBody, jsonBody).Success? ==>
            var rss := Parsed(contentType, protobufBody, jsonBody).value.resourceSpans.GetOr([]);
            && (rss == [] ==> h == Handled(Response(200, PartialSuccess), db))
            && (rss != [] ==> h.db == Ingest(db, rss).db)
            && (rss != [] ==> (h.response.status == 500 <==> Ingest(db, rss).Aborted?)))
      && (h.response.status == 500 ==> h.response.body == ErrorBody(StorageErrorMessage))
      && (h.response.status in {200, 400, 415, 500})
      && (h.response.status == 200 <==> h.response.body == PartialSuccess)
  {
  }

  /** Receiving keeps the store's invariant, whatever the request. */
  lemma ReceiveWf(db: Db, contentType: string, protobufBody: Result<Body, string>, jsonBody: Result<Body, string>)
    requires Wf(db)
    ensures Wf(Receive(db, contentType, protobufBody, jsonBody).db)
  {
    if ChooseDecoder(contentType).Some? && Parsed(contentType, protobufBody, jsonBody).Success? {
      IngestWf(db, Parsed(contentType, protobufBody, jsonBody).value.resourceSpans.GetOr([]));
    }
  }

  /** `_receive_traces` against the open store. */
  method ReceiveTraces(store: TraceStore, contentType: string,
                       protobufBody: Result<Body, string>, jsonBody: Result<Body, string>) returns (response: Response)
    modifies store
    ensures Handled(response, store.State()) == Receive(old(store.State()), contentType, protobufBody, jsonBody)
  {
    var decoder := ChooseDecoder(contentType);
    if decoder.None? {
      return Response(415, ErrorBody(UnsupportedMessage));
    }
    var parsed := if decoder.value == ProtobufDecoder then protobufBody else jsonBody;
    if parsed.Failure? {
      return Response(400, ErrorBody(InvalidBodyPrefix + parsed.error));
    }
    var rss := parsed.value.resourceSpans.GetOr([]);
    if rss == [] {
      return Response(200, PartialSuccess);
    }
    var count := store.InsertResourceSpans(rss);
    if count.Failure? {
      return Response(500, ErrorBody(StorageErrorMessage));
    }
    response := Response(200, PartialSuccess);
  }
}
