/**
 * The REST API of the trace viewer (src/yuutrace/cli/ui.py): each handler
 * reads its parameters, calls the store's query and turns the result into
 * a JSON response. Serving the static frontend is not modelled.
 */
module Ui {
  import opened Wrappers
  import opened Store
  import opened Queries
  import opened Ordering

  const DefaultLimit := 50
  const DefaultOffset := 0
  const ConversationNotFound := "Conversation not found"
  const SpanNotFound := "Span not found"

  /** The JSON documents the handlers send. */
  datatype Json =
    | StatusJson(status: string)
    | ListJson(list: ConversationList)
    | ConversationJson(conversation: ConversationView)
    | SpanJson(span: SpanView)
    | ErrorJson(error: string)

  datatype Response = Response(status: nat, body: Json)

  /** `GET /api/health`. */
  function Health(): (r: Response)
    ensures r.status == 200 && r.body.StatusJson? && r.body.status == "ok"
  {
    Response(200, StatusJson("ok"))
  }

  /**
   * A numeric query parameter: absent, or present with text that `int()`
   * either converts to an integer or rejects.
   */
  datatype IntParam = Absent | Integer(n: int) | NotInteger

  /** `int(request.query_params.get(name, default))`; `None` when `int()` raises. */
  function IntArgument(p: IntParam, default: int): (r: Option<int>)
    ensures r.None? <==> p.NotInteger?
    ensures p.Absent? ==> r == Some(default)
    ensures p.Integer? ==> r == Some(p.n)
  {
    match p
    case Absent => Some(default)
    case Integer(n) => Some(n)
    case NotInteger => None
  }

  /** `agent or None`: an empty agent counts as none. */
  function AgentArgument(agent: Option<string>): Option<string>
  {
    if agent.Some? && agent.value != "" then agent else None
  }

  /**
   * The normalised agent is missing exactly when the parameter was missing
   * or empty, is the parameter otherwise, and filters the listing exactly
   * when the parameter would have.
   */
  lemma AgentArgumentFacts(agent: Option<string>)
    ensures AgentArgument(agent).None? <==> agent.None? || agent.value == ""
    ensures AgentArgument(agent).Some? ==> AgentArgument(agent) == agent
    ensures FiltersAgent(AgentArgument(agent)) <==> FiltersAgent(agent)
  {
  }

  /**
   * `GET /api/conversations`: a `Failure` when `int()` raises on `limit`
   * or `offset`, or when sqlite3 cannot bind one of them because it does
   * not fit 64 bits (neither exception is caught here; the framework
   * answers it).
   */
  ghost function ListHandler(db: Db, limit: IntParam, offset: IntParam, agent: Option<string>): Result<Response, string>
  {
    var l := IntArgument(limit, DefaultLimit);
    var o := IntArgument(offset, DefaultOffset);
    if l.None? || o.None? then Failure("ValueError")
    else if !FitsInteger(l.value) || !FitsInteger(o.value) then Failure("OverflowError")
    else Success(Response(200, ListJson(ListConversations(db, l.value, o.value, AgentArgument(agent)))))
  }

  /** A query parameter `int()` accepts but sqlite3 cannot bind. */
  predicate TooLarge(p: IntParam)
  {
    p.Integer? && !FitsInteger(p.n)
  }

  /**
   * The listing fails exactly when a numeric parameter is not an integer
   * (`ValueError`, raised first) or is an integer beyond 64 bits
   * (`OverflowError`). Otherwise it answers 200 with the page `limit`/`offset` select (50 and
   * 0 when absent) of the conversations ranked latest start first, each
   * once, filtered by the agent when a non-empty one is given, and the
   * total number of such conversations.
   */
  lemma ListHandlerFacts(db: Db, limit: IntParam, offset: IntParam, agent: Option<string>)
    ensures ListHandler(db, limit, offset, agent).Failure? <==>
      limit.NotInteger? || offset.NotInteger? || TooLarge(limit) || TooLarge(offset)
    ensures ListHandler(db, limit, offset, agent).Failure? ==>
      ListHandler(db, limit, offset, agent).error ==
        (if limit.NotInteger? || offset.NotInteger? then "ValueError" else "OverflowError")
    ensures ListHandler(db, limit, offset, agent).Success? ==>
      var r := ListHandler(db, limit, offset, agent).value;
      var l := IntArgument(limit, DefaultLimit).value;
      var o := IntArgument(offset, DefaultOffset).value;
      var a := AgentArgument(agent);
      var list := r.body.list;
      && r.status == 200 && r.body.ListJson?
      && list.total == |ConversationIds(db, a)|
      && list == ListConversations(db, l, o, a)
      && RankedOrder(list.conversations)
  {
    if ListHandler(db, limit, offset, agent).Success? {
      var l := IntArgument(limit, DefaultLimit).value;
      var o := IntArgument(offset, DefaultOffset).value;
      ListConversationsPage(db, l, o, AgentArgument(agent));
    }
  }

  /** A query result, or 404 with `message` when there is none. */
  function Reply<T>(result: Option<T>, payload: T -> Json, message: string): (r: Response)
    ensures r.status == 404 <==> result.None?
    ensures result.None? ==> r.body == ErrorJson(message)
    ensures result.Some? ==> r == Response(200, payload(result.value))
  {
    match result
    case None => Response(404, ErrorJson(message))
    case Some(x) => Response(200, payload(x))
  }

  /** `GET /api/conversations/{id}`. */
  ghost function ConversationHandler(db: Db, conversationId: string): Response
  {
    Reply(GetConversation(db, conversationId), c => ConversationJson(c), ConversationNotFound)
  }

  /**
   * A conversation is not found exactly when no span carries its id;
   * otherwise the answer is 200 with that conversation.
   */
  lemma ConversationHandlerFacts(db: Db, conversationId: string)
    ensures ConversationHandler(db, conversationId).status == 404 <==> ConversationRoots(db, conversationId) == {}
    ensures ConversationHandler(db, conversationId).status == 404 ==>
      ConversationHandler(db, conversationId).body == ErrorJson(ConversationNotFound)
    ensures ConversationHandler(db, conversationId).status != 404 ==>
      var r := ConversationHandler(db, conversationId);
      && r.status == 200 && r.body.ConversationJson?
      && r.body.conversation.id == conversationId
      && Some(r.body.conversation) == GetConversation(db, conversationId)
  {
    GetConversationFacts(db, conversationId);
  }

  /** `GET /api/spans/{id}`. */
  ghost function SpanHandler(db: Db, spanId: string): Response
  {
    Reply(GetSpan(db, spanId), s => SpanJson(s), SpanNotFound)
  }

  /**
   * A span is not found exactly when no span has its id; otherwise the
   * answer is 200 with the stored row and exactly its events, by time.
   */
  lemma SpanHandlerFacts(db: Db, spanId: string)
    requires Wf(db)
    ensures SpanHandler(db, spanId).status == 404 <==> spanId !in db.spans
    ensures SpanHandler(db, spanId).status == 404 ==> SpanHandler(db, spanId).body == ErrorJson(SpanNotFound)
    ensures SpanHandler(db, spanId).status != 404 ==>
      var r := SpanHandler(db, spanId);
      && r.status == 200 && r.body.SpanJson?
      && r.body.span.row == db.spans[spanId]
      && multiset(r.body.span.events) == multiset(StoredEvents(db, spanId))
      && SortedBy(r.body.span.events, EventTime)
  {
    GetSpanFacts(db, spanId);
  }
}
