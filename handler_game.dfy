/** The gateway's game handlers: the level-completion saga and the single-call forwarders. */
module GameHandler {
  import opened Results
  import opened Handler

  datatype CompleteGameLevelRequest = CompleteGameLevelRequest(userId: string, levelId: string)
  datatype CompleteGameLevelResponse = CompleteGameLevelResponse(message: string, xp: int)
  datatype GetXpRequest = GetXpRequest(userId: string, xp: int)
  datatype GetXpResponse = GetXpResponse(message: string)
  datatype DeleteGameLevelRequest = DeleteGameLevelRequest(id: string)

  /** One backend call made while completing a level, with what the backend answered. */
  datatype Call =
    | CompleteLevel(req: CompleteGameLevelRequest, result: Result<CompleteGameLevelResponse>)
    | GetXp(xpReq: GetXpRequest, xpResult: Result<GetXpResponse>)

  /** The error text of both XP-credit failures. */
  const XpFailure := "failed to give XP to user"

  /** The message the User service returns when it credited the XP. */
  const XpSuccess := "success"

  /**
   * The saga's invariant: XP is only ever credited right after the Game service
   * confirmed the completion, to that request's user and with exactly the XP it reported.
   */
  ghost predicate CreditsFollowCompletions(calls: seq<Call>)
  {
    forall i :: 0 <= i < |calls| && calls[i].GetXp? ==>
      0 < i && calls[i - 1].CompleteLevel? && calls[i - 1].result.Ok? &&
      calls[i].xpReq == GetXpRequest(calls[i - 1].req.userId, calls[i - 1].result.value.xp)
  }

  /** Both steps succeeded: the level is complete and the User service acknowledged the credit. */
  ghost predicate BothStepsSucceed(req: CompleteGameLevelRequest,
                                   game: CompleteGameLevelRequest -> Result<CompleteGameLevelResponse>,
                                   user: GetXpRequest -> Result<GetXpResponse>)
  {
    game(req).Ok? &&
    var credit := user(GetXpRequest(req.userId, game(req).value.xp));
    credit.Ok? && credit.value.message == XpSuccess
  }

  /**
   * POST /level/complete: mark the level complete in the Game service, then credit the
   * XP it reports through the User service. A failure stops the sequence; a failed
   * credit after a successful completion is reported as 500 but not undone.
   */
  method CompleteGameLevel(binding: Binding<CompleteGameLevelRequest>,
                           game: CompleteGameLevelRequest -> Result<CompleteGameLevelResponse>,
                           user: GetXpRequest -> Result<GetXpResponse>)
    returns (reply: Reply<CompleteGameLevelResponse>, ghost calls: seq<Call>)
    ensures CreditsFollowCompletions(calls) && |calls| <= 2
    ensures binding.BindFailed? ==>
              reply == Reply(StatusBadRequest, Message(InvalidInput)) && calls == []
    ensures binding.Bound? ==> |calls| >= 1 && calls[0] == CompleteLevel(binding.req, game(binding.req))
    ensures binding.Bound? && game(binding.req).Err? ==>
              reply == Reply(StatusInternalServerError, Message(game(binding.req).msg)) && |calls| == 1
    ensures binding.Bound? && game(binding.req).Ok? ==>
              var xpReq := GetXpRequest(binding.req.userId, game(binding.req).value.xp);
              |calls| == 2 && calls[1] == GetXp(xpReq, user(xpReq))
    ensures reply.status == StatusOK <==> binding.Bound? && BothStepsSucceed(binding.req, game, user)
    ensures reply.status == StatusOK ==> reply.body == Resp(game(binding.req).value)
    ensures binding.Bound? && game(binding.req).Ok? && reply.status != StatusOK ==>
              reply == Reply(StatusInternalServerError, ErrorField(XpFailure))
  {
    if binding.BindFailed? {
      reply, calls := Reply(StatusBadRequest, Message(InvalidInput)), [];
      return;
    }
    var req := binding.req;
    var res := game(req);
    calls := [CompleteLevel(req, res)];
    if res.Err? {
      reply := Reply(StatusInternalServerError, Message(res.msg));
      return;
    }
    var xpReq := GetXpRequest(req.userId, res.value.xp);
    var xpRes := user(xpReq);
    calls := calls + [GetXp(xpReq, xpRes)];
    if xpRes.Err? {
      reply := Reply(StatusInternalServerError, ErrorField(XpFailure));
      return;
    }
    if xpRes.value.message != XpSuccess {
      reply := Reply(StatusInternalServerError, ErrorField(XpFailure));
      return;
    }
    reply := Reply(StatusOK, Resp(res.value));
  }

  /**
   * DELETE /level/delete/{id}: the request is built from the path parameter alone and
   * sent to the Game service once; there is no binding step, so no 400 reply.
   */
  method DeleteGameLevel<Resp>(pathId: string, game: DeleteGameLevelRequest -> Result<Resp>)
    returns (reply: Reply<Resp>, ghost sent: seq<DeleteGameLevelRequest>)
    ensures sent == [DeleteGameLevelRequest(pathId)]
    ensures reply.status != StatusBadRequest
    ensures game(DeleteGameLevelRequest(pathId)).Err? ==>
              reply == Reply(StatusInternalServerError, Message(game(DeleteGameLevelRequest(pathId)).msg))
    ensures game(DeleteGameLevelRequest(pathId)).Ok? ==>
              reply == Reply(StatusOK, Resp(game(DeleteGameLevelRequest(pathId)).value))
  {
    var req := DeleteGameLevelRequest(pathId);
    reply, sent := Forward(Bound(req), InvalidInputMessage, game, EchoMessage);
  }
}
