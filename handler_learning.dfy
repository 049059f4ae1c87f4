/** The gateway's learning handlers: topic creation with its change event, and the forwarders. */
module LearningHandler {
  import opened Results
  import opened Handler

  datatype CreateLearningTopicRequest = CreateLearningTopicRequest(name: string, description: string, difficulty: string)
  datatype CreateLearningTopicResponse = CreateLearningTopicResponse(id: string, message: string)
  datatype GetCompletedTopicsRequest = GetCompletedTopicsRequest(id: string, topicId: string, userId: string)

  /** The message-bus topic that receives topic-creation events. */
  const EventTopic := "app-c"

  /** The fixed error text of GET /topic/getcompleted; the backend's own message is dropped. */
  const CompletedTopicsFailure := "Error while getting completed topics"

  /** One collaborator call made while creating a topic, with its outcome. */
  datatype Call =
    | Publish(topic: string, payload: string, published: Result<()>)
    | CreateTopic(req: CreateLearningTopicRequest, created: Result<CreateLearningTopicResponse>)

  /**
   * The ordering invariant: the topic is only ever persisted right after its event was
   * published successfully on `EventTopic`.
   */
  ghost predicate PersistFollowsPublish(calls: seq<Call>)
  {
    forall i :: 0 <= i < |calls| && calls[i].CreateTopic? ==>
      0 < i && calls[i - 1].Publish? && calls[i - 1].published.Ok? && calls[i - 1].topic == EventTopic
  }

  /**
   * POST /topic/create: serialize the bound request, publish it on `EventTopic`, and only
   * then persist the topic through the Learning service. A publish failure stops the
   * sequence; a persistence failure after the publish leaves the event emitted.
   * `marshal` stands for the JSON encoder and `produce` for the message-bus producer.
   */
  method CreateLearningTopic(binding: Binding<CreateLearningTopicRequest>,
                             marshal: CreateLearningTopicRequest -> Result<string>,
                             produce: (string, string) -> Result<()>,
                             learning: CreateLearningTopicRequest -> Result<CreateLearningTopicResponse>)
    returns (reply: Reply<CreateLearningTopicResponse>, ghost calls: seq<Call>)
    ensures PersistFollowsPublish(calls) && |calls| <= 2
    ensures binding.BindFailed? ==>
              reply == Reply(StatusBadRequest, Message(InvalidInput)) && calls == []
    ensures binding.Bound? && marshal(binding.req).Err? ==>
              reply == Reply(StatusBadRequest, Text(marshal(binding.req).msg)) && calls == []
    ensures binding.Bound? && marshal(binding.req).Ok? ==>
              var payload := marshal(binding.req).value;
              |calls| >= 1 && calls[0] == Publish(EventTopic, payload, produce(EventTopic, payload))
    ensures binding.Bound? && marshal(binding.req).Ok? && produce(EventTopic, marshal(binding.req).value).Err? ==>
              reply == Reply(StatusInternalServerError, ErrorField(produce(EventTopic, marshal(binding.req).value).msg))
              && |calls| == 1
    ensures binding.Bound? && marshal(binding.req).Ok? && produce(EventTopic, marshal(binding.req).value).Ok? ==>
              |calls| == 2 && calls[1] == CreateTopic(binding.req, learning(binding.req))
    ensures binding.Bound? && learning(binding.req).Err? && |calls| == 2 ==>
              reply == Reply(StatusInternalServerError, Message(learning(binding.req).msg))
    ensures reply.status == StatusOK <==>
              binding.Bound? && marshal(binding.req).Ok? &&
              produce(EventTopic, marshal(binding.req).value).Ok? && learning(binding.req).Ok?
    ensures reply.status == StatusOK ==> reply.body == Resp(learning(binding.req).value)
  {
    if binding.BindFailed? {
      reply, calls := Reply(StatusBadRequest, Message(InvalidInput)), [];
      return;
    }
    var req := binding.req;
    var input := marshal(req);
    if input.Err? {
      reply, calls := Reply(StatusBadRequest, Text(input.msg)), [];
      return;
    }
    var published := produce(EventTopic, input.value);
    calls := [Publish(EventTopic, input.value, published)];
    if published.Err? {
      reply := Reply(StatusInternalServerError, ErrorField(published.msg));
      return;
    }
    var res := learning(req);
    calls := calls + [CreateTopic(req, res)];
    if res.Err? {
      reply := Reply(StatusInternalServerError, Message(res.msg));
      return;
    }
    reply := Reply(StatusOK, Resp(res.value));
  }

  /** `ctx.Query(key)`: the query parameter's value, or "" when it is absent. */
  function QueryParam(params: map<string, string>, key: string): string
  {
    if key in params then params[key] else ""
  }

  /**
   * GET /topic/getcompleted: the request is filled from the `id`, `topic_id` and `user_id`
   * query parameters (no binding step, so no 400 reply) and forwarded once.
   */
  method GetCompletedTopics<Resp>(params: map<string, string>,
                                  learning: GetCompletedTopicsRequest -> Result<Resp>)
    returns (reply: Reply<Resp>, ghost sent: seq<GetCompletedTopicsRequest>)
    ensures |sent| == 1
    ensures sent[0].id == QueryParam(params, "id")
    ensures sent[0].topicId == QueryParam(params, "topic_id")
    ensures sent[0].userId == QueryParam(params, "user_id")
    ensures reply.status != StatusBadRequest
    ensures learning(sent[0]).Err? ==>
              reply == Reply(StatusInternalServerError, ErrorField(CompletedTopicsFailure))
    ensures learning(sent[0]).Ok? ==> reply == Reply(StatusOK, Resp(learning(sent[0]).value))
  {
    var req := GetCompletedTopicsRequest("", "", "");
    req := req.(id := QueryParam(params, "id"));
    req := req.(topicId := QueryParam(params, "topic_id"));
    req := req.(userId := QueryParam(params, "user_id"));
    reply, sent := Forward(Bound(req), InvalidInputMessage, learning, FixedError(CompletedTopicsFailure));
  }

  /** POST /quiz/create: bind the JSON body, forward it once, echo a backend error message. */
  method CreateQuiz<Req, Resp>(binding: Binding<Req>, learning: Req -> Result<Resp>)
    returns (reply: Reply<Resp>, ghost sent: seq<Req>)
    ensures binding.BindFailed? ==> reply == Reply(StatusBadRequest, Message(InvalidInput)) && sent == []
    ensures binding.Bound? ==> sent == [binding.req]
    ensures binding.Bound? && learning(binding.req).Err? ==>
              reply == Reply(StatusInternalServerError, Message(learning(binding.req).msg))
    ensures binding.Bound? && learning(binding.req).Ok? ==>
              reply == Reply(StatusOK, Resp(learning(binding.req).value))
  {
    reply, sent := Forward(binding, InvalidInputMessage, learning, EchoMessage);
  }
}
