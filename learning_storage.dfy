/**
 * The learning service's Postgres storage, over an in-memory picture of its tables.
 * Each SQL statement is one step; whether the database rejects it is an input
 * (`Option<string>`: `Some(msg)` is the error the driver returns). Fresh ids from
 * `uuid.NewString()` and the clock `time.Now().Unix()` are inputs as well.
 */
module LearningStorage {
  import opened Results
  import opened Seqs
  import opened FilterQuery
  import opened RowScan

  // ---- Rows of the tables --------------------------------------------------------

  datatype Topic = Topic(id: string, name: string, description: string, difficulty: string, deletedAt: int)
  datatype CompletedTopic = CompletedTopic(id: string, userId: string, topicId: string, xpEarned: int)
  datatype Quiz = Quiz(id: string, topicId: string, question: string, options: string, answer: string)
  datatype CompletedExtraResource = CompletedExtraResource(userId: string, extraResourceId: string)
  datatype Feedback = Feedback(id: string, userId: string, topicId: string, rating: int, comment: string)
  datatype SubmittedHomework = SubmittedHomework(id: string, userId: string, homeworkId: string, xpEarned: int)

  /** A topic as the listing returns it (and as the listing's filter record holds it). */
  datatype LearningTopic = LearningTopic(id: string, name: string, description: string, difficulty: string)

  /** A quiz as the quiz listing returns it: the answer column is not selected. */
  datatype QuizView = QuizView(id: string, topicId: string, question: string, options: string)

  // ---- Requests and responses ----------------------------------------------------

  datatype CreateLearningTopicRequest = CreateLearningTopicRequest(name: string, description: string, difficulty: string)
  datatype CreateLearningTopicResponse = CreateLearningTopicResponse(id: string, message: string)
  datatype CompletedTopicsRequest = CompletedTopicsRequest(userId: string, topicId: string, xpEarned: int)
  datatype SubmitQuizRequest = SubmitQuizRequest(quizId: string, answer: string, userId: string)
  datatype CompletedExtraResourcesRequest = CompletedExtraResourcesRequest(userId: string, extraResourceId: string)
  datatype CreateLearningFeedbackRequest =
    CreateLearningFeedbackRequest(userId: string, topicId: string, rating: int, comment: string)
  datatype SubmitHomeworkRequest = SubmitHomeworkRequest(userId: string, homeworkId: string, xpEarned: int)

  /** Responses that carry only a message. */
  datatype MessageResponse = MessageResponse(message: string)

  /** Responses of the operations that credit experience points. */
  datatype XpResponse = XpResponse(message: string, xpEarned: int)

  const Success := "success"
  const IncorrectAnswer := "Incorrect answer or quiz not found"

  /** The fixed reward of a correct quiz answer, a completed extra resource and a feedback. */
  const FixedReward := 10

  const TopicsQuery := "\n\tSELECT id, name, description, difficulty FROM topics WHERE deleted_at = 0"
  const CompletedTopicsQuery := "SELECT id, user_id, topic_id, xp_earned FROM completed_topics"
  const QuizzesQuery := "SELECT id, topic_id, question, options FROM quizzes"

  // ---- Specification functions ---------------------------------------------------

  /** `UPDATE users SET xp = xp + amount WHERE id = userId`: only that user's total moves. */
  function Credit(xp: map<string, int>, userId: string, amount: int): (r: map<string, int>)
    ensures r.Keys == xp.Keys
    ensures userId in xp ==> r[userId] == xp[userId] + amount
    ensures forall u :: u in xp && u != userId ==> r[u] == xp[u]
  {
    if userId in xp then xp[userId := xp[userId] + amount] else xp
  }

  /** A topic that has not been soft-deleted: the listing's `deleted_at = 0`. */
  predicate Live(t: Topic)
  {
    t.deletedAt == 0
  }

  function AsListed(t: Topic): LearningTopic
  {
    LearningTopic(t.id, t.name, t.description, t.difficulty)
  }

  function ListTopics(ts: seq<Topic>): (r: seq<LearningTopic>)
    ensures |r| == |ts|
    ensures forall i :: 0 <= i < |ts| ==> r[i] == AsListed(ts[i])
  {
    if ts == [] then [] else [AsListed(ts[0])] + ListTopics(ts[1..])
  }

  /** The rows the topic listing's base query returns. */
  function Listing(ts: seq<Topic>): seq<LearningTopic>
  {
    ListTopics(Keep(ts, Live))
  }

  /** `UPDATE topics SET deleted_at = now WHERE id = id`: every row stays, matching rows are stamped. */
  function SoftDelete(ts: seq<Topic>, id: string, now: int): seq<Topic>
  {
    UpdateWhere(ts, (t: Topic) => t.id == id, (t: Topic) => t.(deletedAt := now))
  }

  /** The topics whose id differs from `id`. */
  function OtherTopics(ts: seq<Topic>, id: string): seq<Topic>
  {
    Keep(ts, (t: Topic) => t.id != id)
  }

  /** `DELETE FROM quizzes WHERE id = id`. */
  function WithoutQuiz(qs: seq<Quiz>, id: string): seq<Quiz>
  {
    Keep(qs, (q: Quiz) => q.id != id)
  }

  /** The `SELECT id, answer FROM quizzes WHERE id = $1 AND answer = $2` finds a row. */
  predicate AnswerMatches(qs: seq<Quiz>, quizId: string, answer: string)
  {
    exists i :: 0 <= i < |qs| && qs[i].id == quizId && qs[i].answer == answer
  }

  function AsQuizView(q: Quiz): QuizView
  {
    QuizView(q.id, q.topicId, q.question, q.options)
  }

  function QuizViews(qs: seq<Quiz>): (r: seq<QuizView>)
    ensures |r| == |qs|
    ensures forall i :: 0 <= i < |qs| ==> r[i] == AsQuizView(qs[i])
  {
    if qs == [] then [] else [AsQuizView(qs[0])] + QuizViews(qs[1..])
  }

  /** The filters `GetLearningTopics` checks, read from its record `r` (difficulty is compared against `phone_number`). */
  function TopicFilters(r: LearningTopic): seq<Filter>
  {
    [Filter("id", r.id), Filter("name", r.name), Filter("description", r.description), Filter("phone_number", r.difficulty)]
  }

  function CompletedTopicFilters(r: CompletedTopic): seq<Filter>
  {
    [Filter("id", r.id), Filter("user_id", r.userId), Filter("topic_id", r.topicId)]
  }

  function QuizFilters(r: QuizView): seq<Filter>
  {
    [Filter("id", r.id), Filter("topic_id", r.topicId)]
  }

  // ---- Properties of the specification -------------------------------------------

  /**
   * Soft delete hides exactly the rows of that id from the listing, as long as the
   * timestamp is not 0 (a 0 stamp would leave them listed); the table keeps every row.
   */
  lemma {:induction false} SoftDeleteHides(ts: seq<Topic>, id: string, now: int)
    requires now != 0
    ensures Keep(SoftDelete(ts, id, now), Live) == OtherTopics(Keep(ts, Live), id)
  {
    if ts != [] {
      SoftDeleteHides(ts[1..], id, now);
      var r := SoftDelete(ts, id, now);
      assert r[1..] == SoftDelete(ts[1..], id, now);
      var live := Keep(ts, Live);
      if Live(ts[0]) {
        assert live == [ts[0]] + Keep(ts[1..], Live);
        assert live[1..] == Keep(ts[1..], Live);
      } else {
        assert live == Keep(ts[1..], Live);
      }
    }
  }

  /** Every listed entry comes from a row of the table. */
  lemma ListedFrom(ts: seq<Topic>, t: LearningTopic)
    requires t in ListTopics(ts)
    ensures exists i :: 0 <= i < |ts| && AsListed(ts[i]) == t
  {
    var i :| 0 <= i < |ts| && ListTopics(ts)[i] == t;
  }

  /** Every row of the table is listed. */
  lemma ListedIn(ts: seq<Topic>, u: Topic)
    requires u in ts
    ensures AsListed(u) in ListTopics(ts)
  {
    var i :| 0 <= i < |ts| && ts[i] == u;
    assert ListTopics(ts)[i] == AsListed(u);
  }

  /** A row whose id differs is among the other topics. */
  lemma OtherTopicKept(ts: seq<Topic>, id: string, i: nat)
    requires i < |ts| && ts[i].id != id
    ensures ts[i] in OtherTopics(ts, id)
  {
  }

  /** A soft-deleted topic is no longer listed, and every other listed topic still is. */
  lemma ListingAfterSoftDelete(ts: seq<Topic>, id: string, now: int)
    requires now != 0
    ensures forall t :: t in Listing(SoftDelete(ts, id, now)) ==> t.id != id
    ensures forall t :: t in Listing(ts) && t.id != id ==> t in Listing(SoftDelete(ts, id, now))
  {
    var live := Keep(ts, Live);
    var after := Keep(SoftDelete(ts, id, now), Live);
    assert after == OtherTopics(live, id) by {
      SoftDeleteHides(ts, id, now);
    }
    forall t | t in ListTopics(after) ensures t.id != id {
      ListedFrom(after, t);
      var i :| 0 <= i < |after| && AsListed(after[i]) == t;
      assert after[i].id != id;
    }
    forall t | t in ListTopics(live) && t.id != id ensures t in ListTopics(after) {
      ListedFrom(live, t);
      var i :| 0 <= i < |live| && AsListed(live[i]) == t;
      OtherTopicKept(live, id, i);
      ListedIn(after, live[i]);
    }
  }

  /** A created topic starts live, so it is listed after every topic listed before it. */
  lemma CreateThenList(ts: seq<Topic>, id: string, req: CreateLearningTopicRequest)
    ensures Listing(ts + [Topic(id, req.name, req.description, req.difficulty, 0)]) ==
            Listing(ts) + [LearningTopic(id, req.name, req.description, req.difficulty)]
  {
    var t := Topic(id, req.name, req.description, req.difficulty, 0);
    KeepAppend(ts, [t], Live);
    KeepSingle(t, Live);
    var before := Keep(ts, Live);
    var listed := ListTopics(before + [t]);
    assert |listed| == |before| + 1;
    assert listed[|before|] == AsListed((before + [t])[|before|]);
  }

  /**
   * A deleted quiz can no longer be answered correctly, and answers to every other
   * quiz are judged as before.
   */
  lemma DeleteQuizThenSubmit(qs: seq<Quiz>, id: string, quizId: string, answer: string)
    ensures !AnswerMatches(WithoutQuiz(qs, id), id, answer)
    ensures quizId != id ==> (AnswerMatches(WithoutQuiz(qs, id), quizId, answer) <==> AnswerMatches(qs, quizId, answer))
  {
    var rest := WithoutQuiz(qs, id);
    if AnswerMatches(rest, quizId, answer) {
      var i :| 0 <= i < |rest| && rest[i].id == quizId && rest[i].answer == answer;
      assert rest[i] in qs;
    }
    if quizId != id && AnswerMatches(qs, quizId, answer) {
      var i :| 0 <= i < |qs| && qs[i].id == quizId && qs[i].answer == answer;
      assert qs[i] in rest;
    }
  }

  // ---- The storage ---------------------------------------------------------------

  /** `LearningStorage`: the tables it reads and writes through its database handle. */
  class LearningStorage {
    var topics: seq<Topic>
    var completedTopics: seq<CompletedTopic>
    var quizzes: seq<Quiz>
    var completedExtraResources: seq<CompletedExtraResource>
    var feedback: seq<Feedback>
    var submittedHomeworks: seq<SubmittedHomework>
    /** The `xp` column of `users`, by user id. */
    var xp: map<string, int>

    constructor (users: map<string, int>)
      ensures topics == [] && completedTopics == [] && quizzes == []
      ensures completedExtraResources == [] && feedback == [] && submittedHomeworks == []
      ensures xp == users
    {
      topics, completedTopics, quizzes := [], [], [];
      completedExtraResources, feedback, submittedHomeworks := [], [], [];
      xp := users;
    }

    /** The second statement of every XP-earning write: credit `amount` to `userId`. */
    method AddXp(userId: string, amount: int, fail: Option<string>) returns (err: Option<string>)
      modifies this`xp
      ensures err == fail
      ensures xp == if fail.None? then Credit(old(xp), userId, amount) else old(xp)
    {
      err := fail;
      if fail.None? {
        xp := Credit(xp, userId, amount);
      }
    }

    /** Insert one topic under the fresh id `id` and return that id. */
    method CreateLearningTopic(req: CreateLearningTopicRequest, id: string, fail: Option<string>)
      returns (r: Result<CreateLearningTopicResponse>)
      modifies this`topics
      ensures fail.Some? ==> r == Err(fail.value) && topics == old(topics)
      ensures fail.None? ==> r == Ok(CreateLearningTopicResponse(id, Success))
      ensures fail.None? ==> topics == old(topics) + [Topic(id, req.name, req.description, req.difficulty, 0)]
    {
      if fail.Some? {
        return Err(fail.value);
      }
      topics := topics + [Topic(id, req.name, req.description, req.difficulty, 0)];
      r := Ok(CreateLearningTopicResponse(id, Success));
    }

    /**
     * The topic listing. Its filters are read from a zero-valued local record, not from
     * `req`, so the statement is always the base query with no arguments; every row is
     * then scanned into that one record, so all entries are the same object.
     */
    method GetLearningTopics(req: LearningTopic, fail: Option<string>)
      returns (r: Result<seq<Cell<LearningTopic>>>, ghost query: string, ghost args: seq<string>)
      ensures query == TopicsQuery && args == []
      ensures fail.Some? ==> r == Err(fail.value)
      ensures fail.None? ==> r.Ok? && |r.value| == |Listing(topics)|
      ensures fail.None? ==> forall i :: 0 <= i < |r.value| ==>
                r.value[i] == r.value[0] && r.value[i].value == LastRepeated(Listing(topics))[i]
    {
      var request := new Cell(LearningTopic("", "", "", ""));
      var q, a, count := Build(TopicsQuery, TopicFilters(request.value));
      query, args := q, a;
      if fail.Some? {
        return Err(fail.value), query, args;
      }
      var out := ScanShared(Listing(topics), request);
      r := Ok(out);
    }

    /** `UPDATE topics SET deleted_at = now WHERE id = id`: a soft delete. */
    method DeleteLearningTopic(id: string, now: int, fail: Option<string>) returns (r: Result<MessageResponse>)
      modifies this`topics
      ensures fail.Some? ==> r == Err(fail.value) && topics == old(topics)
      ensures fail.None? ==> r == Ok(MessageResponse(Success)) && topics == SoftDelete(old(topics), id, now)
    {
      if fail.Some? {
        return Err(fail.value);
      }
      topics := SoftDelete(topics, id, now);
      r := Ok(MessageResponse(Success));
    }

    /**
     * Record a completed topic, then credit its `XpEarned`. If the credit fails the
     * completion row stays: the two statements share no transaction.
     */
    method CompletedTopics(req: CompletedTopicsRequest, id: string, insertFail: Option<string>, updateFail: Option<string>)
      returns (r: Result<XpResponse>)
      modifies this`completedTopics, this`xp
      ensures insertFail.Some? ==>
                r == Err(insertFail.value) && completedTopics == old(completedTopics) && xp == old(xp)
      ensures insertFail.None? ==>
                completedTopics == old(completedTopics) + [CompletedTopic(id, req.userId, req.topicId, req.xpEarned)]
      ensures insertFail.None? && updateFail.Some? ==> r == Err(updateFail.value) && xp == old(xp)
      ensures insertFail.None? && updateFail.None? ==>
                r == Ok(XpResponse(Success, req.xpEarned)) && xp == Credit(old(xp), req.userId, req.xpEarned)
    {
      if insertFail.Some? {
        return Err(insertFail.value);
      }
      completedTopics := completedTopics + [CompletedTopic(id, req.userId, req.topicId, req.xpEarned)];
      var err := AddXp(req.userId, req.xpEarned, updateFail);
      if err.Some? {
        return Err(err.value);
      }
      r := Ok(XpResponse(Success, req.xpEarned));
    }

    /** The completed-topic listing: base query only, every entry the same record. */
    method GetCompletedTopics(req: CompletedTopic, fail: Option<string>)
      returns (r: Result<seq<Cell<CompletedTopic>>>, ghost query: string, ghost args: seq<string>)
      ensures query == CompletedTopicsQuery && args == []
      ensures fail.Some? ==> r == Err(fail.value)
      ensures fail.None? ==> r.Ok? && |r.value| == |completedTopics|
      ensures fail.None? ==> forall i :: 0 <= i < |r.value| ==>
                r.value[i] == r.value[0] && r.value[i].value == LastRepeated(completedTopics)[i]
    {
      var request := new Cell(CompletedTopic("", "", "", 0));
      var q, a, count := Build(CompletedTopicsQuery, CompletedTopicFilters(request.value));
      query, args := q, a;
      if fail.Some? {
        return Err(fail.value), query, args;
      }
      var out := ScanShared(completedTopics, request);
      r := Ok(out);
    }

    /**
     * The quiz listing. The base query runs once and its rows are discarded; the filter
     * builder then reads a zero-valued record, and the same base query runs again. Every
     * row gets its own record, and no answer is listed.
     */
    method GetQuiz(req: QuizView, firstFail: Option<string>, secondFail: Option<string>)
      returns (r: Result<seq<QuizView>>, ghost query: string, ghost args: seq<string>)
      ensures query == QuizzesQuery && args == []
      ensures firstFail.Some? ==> r == Err(firstFail.value)
      ensures firstFail.None? && secondFail.Some? ==> r == Err(secondFail.value)
      ensures firstFail.None? && secondFail.None? ==> r == Ok(QuizViews(quizzes))
    {
      query, args := QuizzesQuery, [];
      if firstFail.Some? {
        return Err(firstFail.value), query, args;
      }
      var request := QuizView("", "", "", "");
      var q, a, count := Build(QuizzesQuery, QuizFilters(request));
      query, args := q, a;
      if secondFail.Some? {
        return Err(secondFail.value), query, args;
      }
      var out := ScanFresh(QuizViews(quizzes));
      assert out == QuizViews(quizzes);
      r := Ok(out);
    }

    /** `DELETE FROM quizzes WHERE id = $1`: a hard delete. */
    method DeleteQuiz(id: string, fail: Option<string>) returns (r: Result<MessageResponse>)
      modifies this`quizzes
      ensures fail.Some? ==> r == Err(fail.value) && quizzes == old(quizzes)
      ensures fail.None? ==> r == Ok(MessageResponse(Success)) && quizzes == WithoutQuiz(old(quizzes), id)
    {
      if fail.Some? {
        return Err(fail.value);
      }
      quizzes := WithoutQuiz(quizzes, id);
      r := Ok(MessageResponse(Success));
    }

    /**
     * Check the answer with one lookup on both id and answer. No matching row is not an
     * error: the reply says so and earns nothing. A match credits the fixed reward.
     */
    method SubmitQuiz(req: SubmitQuizRequest, queryFail: Option<string>, updateFail: Option<string>)
      returns (r: Result<XpResponse>)
      modifies this`xp
      ensures queryFail.Some? ==> r == Err(queryFail.value) && xp == old(xp)
      ensures queryFail.None? && !AnswerMatches(quizzes, req.quizId, req.answer) ==>
                r == Ok(XpResponse(IncorrectAnswer, 0)) && xp == old(xp)
      ensures queryFail.None? && AnswerMatches(quizzes, req.quizId, req.answer) && updateFail.Some? ==>
                r == Err(updateFail.value) && xp == old(xp)
      ensures queryFail.None? && AnswerMatches(quizzes, req.quizId, req.answer) && updateFail.None? ==>
                r == Ok(XpResponse(Success, FixedReward)) && xp == Credit(old(xp), req.userId, FixedReward)
    {
      if queryFail.Some? {
        return Err(queryFail.value);
      }
      if !AnswerMatches(quizzes, req.quizId, req.answer) {
        return Ok(XpResponse(IncorrectAnswer, 0));
      }
      var err := AddXp(req.userId, FixedReward, updateFail);
      if err.Some? {
        return Err(err.value);
      }
      r := Ok(XpResponse(Success, FixedReward));
    }

    /** Record a completed extra resource, then credit the fixed reward. */
    method CompletedExtraResources(req: CompletedExtraResourcesRequest, insertFail: Option<string>, updateFail: Option<string>)
      returns (r: Result<XpResponse>)
      modifies this`completedExtraResources, this`xp
      ensures insertFail.Some? ==>
                r == Err(insertFail.value) && completedExtraResources == old(completedExtraResources) && xp == old(xp)
      ensures insertFail.None? ==>
                completedExtraResources == old(completedExtraResources) + [CompletedExtraResource(req.userId, req.extraResourceId)]
      ensures insertFail.None? && updateFail.Some? ==> r == Err(updateFail.value) && xp == old(xp)
      ensures insertFail.None? && updateFail.None? ==>
                r == Ok(XpResponse(Success, FixedReward)) && xp == Credit(old(xp), req.userId, FixedReward)
    {
      if insertFail.Some? {
        return Err(insertFail.value);
      }
      completedExtraResources := completedExtraResources + [CompletedExtraResource(req.userId, req.extraResourceId)];
      var err := AddXp(req.userId, FixedReward, updateFail);
      if err.Some? {
        return Err(err.value);
      }
      r := Ok(XpResponse(Success, FixedReward));
    }

    /** Record a feedback under the fresh id `id`, then credit the fixed reward. */
    method CreateLearningFeedback(req: CreateLearningFeedbackRequest, id: string,
                                  insertFail: Option<string>, updateFail: Option<string>)
      returns (r: Result<XpResponse>)
      modifies this`feedback, this`xp
      ensures insertFail.Some? ==> r == Err(insertFail.value) && feedback == old(feedback) && xp == old(xp)
      ensures insertFail.None? ==>
                feedback == old(feedback) + [Feedback(id, req.userId, req.topicId, req.rating, req.comment)]
      ensures insertFail.None? && updateFail.Some? ==> r == Err(updateFail.value) && xp == old(xp)
      ensures insertFail.None? && updateFail.None? ==>
                r == Ok(XpResponse(Success, FixedReward)) && xp == Credit(old(xp), req.userId, FixedReward)
    {
      if insertFail.Some? {
        return Err(insertFail.value);
      }
      feedback := feedback + [Feedback(id, req.userId, req.topicId, req.rating, req.comment)];
      var err := AddXp(req.userId, FixedReward, updateFail);
      if err.Some? {
        return Err(err.value);
      }
      r := Ok(XpResponse(Success, FixedReward));
    }

    /** Record a submitted homework under the fresh id `id`, then credit and echo its `XpEarned`. */
    method SubmitHomework(req: SubmitHomeworkRequest, id: string, insertFail: Option<string>, updateFail: Option<string>)
      returns (r: Result<XpResponse>)
      modifies this`submittedHomeworks, this`xp
      ensures insertFail.Some? ==>
                r == Err(insertFail.value) && submittedHomeworks == old(submittedHomeworks) && xp == old(xp)
      ensures insertFail.None? ==>
                submittedHomeworks == old(submittedHomeworks) + [SubmittedHomework(id, req.userId, req.homeworkId, req.xpEarned)]
      ensures insertFail.None? && updateFail.Some? ==> r == Err(updateFail.value) && xp == old(xp)
      ensures insertFail.None? && updateFail.None? ==>
                r == Ok(XpResponse(Success, req.xpEarned)) && xp == Credit(old(xp), req.userId, req.xpEarned)
    {
      if insertFail.Some? {
        return Err(insertFail.value);
      }
      submittedHomeworks := submittedHomeworks + [SubmittedHomework(id, req.userId, req.homeworkId, req.xpEarned)];
      var err := AddXp(req.userId, req.xpEarned, updateFail);
      if err.Some? {
        return Err(err.value);
      }
      r := Ok(XpResponse(Success, req.xpEarned));
    }
  }
}
