/**
 * The quiz and question handlers. The ones that write run their guard
 * cascade step by step against the store object and end in at most one
 * write query; the read-only ones are functions of a store snapshot.
 */
module Quizzes {
  import opened Wrappers
  import opened Crypto
  import opened Store
  import opened Http
  import opened Guards

  /** The body of a question-creation request. */
  datatype QuestionForm = QuestionForm(question: string, choice1: string, choice2: string,
                                       choice3: string, choice4: string, answer: int)

  /**
   * handlerQuizzesCreate: authentication comes before the body is decoded;
   * a new quiz is owned by the caller, not deleted, and stored under a
   * fresh path. `quizId` and `path` are the freshly generated identifiers.
   */
  method QuizzesCreate(auth: Auth, db: Queries, req: Request, title: Option<string>, now: Time,
                       quizId: QuizId, path: Path) returns (resp: Response)
    requires db.Valid() && path !in db.quizzes && db.State().QuizIdUnused(quizId)
    modifies db
    ensures db.Valid()
    ensures var failed := FirstFailure(AuthChecks, old(db.State()), auth, req);
      if failed.Some? then
        resp == AuthRejection(failed.value) && db.State() == old(db.State())
      else if title.None? then
        resp == DecodeFailure && db.State() == old(db.State())
      else
        && Caller(auth, req.headers).Some?
        && resp == Response(StatusCreated, QuizCreated(quizId, path))
        && db.State() == old(db.State()).WithQuiz(
             Quiz(quizId, path, Caller(auth, req.headers).value, title.value, now, now, None))
  {
    AuthChecksCascade(db.State(), auth, req);
    ghost var failed := FirstFailure(AuthChecks, db.State(), auth, req);
    var bearer := GetBearerToken(auth, req.headers);
    if bearer.None? {
      assert failed == Some(BadHeader);
      return AuthRejection(BadHeader);
    }
    var userId := ValidateJWT(auth, bearer.value);
    if userId.None? {
      assert failed == Some(BadToken);
      return AuthRejection(BadToken);
    }
    if title.None? {
      return DecodeFailure;
    }
    db.CreateQuiz(Quiz(quizId, path, userId.value, title.value, now, now, None));
    resp := Response(StatusCreated, QuizCreated(quizId, path));
  }

  /**
   * handlerQuestionsCreate: only the owner adds questions, never to a
   * deleted quiz; the new question's number is the quiz's question count
   * plus one. The count is read before the body is decoded.
   */
  method QuestionsCreate(auth: Auth, sql: Sql, db: Queries, req: Request, form: Option<QuestionForm>,
                         questionId: QuestionId) returns (resp: Response)
    requires db.Valid() && questionId !in db.questions
    modifies db
    ensures db.Valid()
    ensures var failed := FirstFailure(OwnerChecks, old(db.State()), auth, req);
      if failed.Some? then
        && resp == Rejection(failed.value, "Quiz has been deleted",
                             "You do not have permission to add questions to this quiz")
        && db.State() == old(db.State())
      else if form.None? then
        resp == DecodeFailure && db.State() == old(db.State())
      else
        && req.path in old(db.quizzes)
        && resp == Response(StatusCreated, Message("Question created successfully"))
        && var quiz := old(db.quizzes)[req.path];
           var f := form.value;
           db.State() == old(db.State()).WithQuestion(
             Question(questionId, quiz.id, QuestionCount(old(db.State()), sql, quiz.id) + 1,
                      f.question, f.choice1, f.choice2, f.choice3, f.choice4, f.answer, None))
  {
    OwnerChecksCascade(db.State(), auth, req);
    ghost var failed := FirstFailure(OwnerChecks, db.State(), auth, req);
    var path := req.path;
    var gone, forbidden := "Quiz has been deleted", "You do not have permission to add questions to this quiz";
    if path == "" {
      assert failed == Some(EmptyPath);
      return Rejection(EmptyPath, gone, forbidden);
    }
    if path !in db.quizzes {
      assert failed == Some(QuizNotFound);
      return Rejection(QuizNotFound, gone, forbidden);
    }
    var quiz := db.quizzes[path];
    if quiz.deletedAt.Some? {
      assert failed == Some(QuizDeleted);
      return Rejection(QuizDeleted, gone, forbidden);
    }
    var bearer := GetBearerToken(auth, req.headers);
    if bearer.None? {
      assert failed == Some(BadHeader);
      return Rejection(BadHeader, gone, forbidden);
    }
    var userId := ValidateJWT(auth, bearer.value);
    if userId.None? {
      assert failed == Some(BadToken);
      return Rejection(BadToken, gone, forbidden);
    }
    if quiz.userId != userId.value {
      assert failed == Some(NotOwner);
      return Rejection(NotOwner, gone, forbidden);
    }
    var questionCount := QuestionCount(db.State(), sql, quiz.id);
    if form.None? {
      return DecodeFailure;
    }
    var f := form.value;
    db.CreateQuizQuestions(Question(questionId, quiz.id, questionCount + 1, f.question,
                                    f.choice1, f.choice2, f.choice3, f.choice4, f.answer, None));
    resp := Response(StatusCreated, Message("Question created successfully"));
  }

  /** handlerQuizzesDelete: a soft delete by the owner; the record stays, with DeletedAt set. */
  method QuizzesDelete(auth: Auth, db: Queries, req: Request, now: Time) returns (resp: Response)
    requires db.Valid()
    modifies db
    ensures db.Valid()
    ensures var failed := FirstFailure(OwnerChecks, old(db.State()), auth, req);
      if failed.Some? then
        && resp == Rejection(failed.value, "Quiz has already been deleted",
                             "You do not have permission to delete this quiz")
        && db.State() == old(db.State())
      else
        && req.path in old(db.quizzes)
        && resp == Response(StatusOK, Message("Quiz deleted successfully"))
        && db.State() == old(db.State()).WithQuizDeleted(req.path, now)
  {
    OwnerChecksCascade(db.State(), auth, req);
    ghost var failed := FirstFailure(OwnerChecks, db.State(), auth, req);
    var path := req.path;
    var gone, forbidden := "Quiz has already been deleted", "You do not have permission to delete this quiz";
    if path == "" {
      assert failed == Some(EmptyPath);
      return Rejection(EmptyPath, gone, forbidden);
    }
    if path !in db.quizzes {
      assert failed == Some(QuizNotFound);
      return Rejection(QuizNotFound, gone, forbidden);
    }
    var quiz := db.quizzes[path];
    if quiz.deletedAt.Some? {
      assert failed == Some(QuizDeleted);
      return Rejection(QuizDeleted, gone, forbidden);
    }
    var bearer := GetBearerToken(auth, req.headers);
    if bearer.None? {
      assert failed == Some(BadHeader);
      return Rejection(BadHeader, gone, forbidden);
    }
    var userId := ValidateJWT(auth, bearer.value);
    if userId.None? {
      assert failed == Some(BadToken);
      return Rejection(BadToken, gone, forbidden);
    }
    if quiz.userId != userId.value {
      assert failed == Some(NotOwner);
      return Rejection(NotOwner, gone, forbidden);
    }
    db.DeleteQuiz(path, now);
    resp := Response(StatusOK, Message("Quiz deleted successfully"));
  }

  /**
   * handlerQuestionsDelete: authenticates before it looks the quiz up, and
   * never looks at the quiz's own DeletedAt. The question is looked up by
   * id, with the `question_number` parameter as the id.
   */
  method QuestionsDelete(auth: Auth, db: Queries, req: Request, now: Time) returns (resp: Response)
    requires db.Valid()
    modifies db
    ensures db.Valid()
    ensures var failed := FirstFailure(QuestionDeleteChecks, old(db.State()), auth, req);
      if failed.Some? then
        && resp == Rejection(failed.value, "", "You do not have permission to delete this question")
        && db.State() == old(db.State())
      else
        && req.path in old(db.quizzes)
        && QuestionInQuiz(old(db.State()), old(db.quizzes)[req.path], req.questionNumber).Some?
        && resp == Response(StatusOK, Message("Question deleted successfully"))
        && db.State() == old(db.State()).WithQuestionDeleted(req.questionNumber, now)
  {
    QuestionDeleteChecksCascade(db.State(), auth, req);
    ghost var failed := FirstFailure(QuestionDeleteChecks, db.State(), auth, req);
    var forbidden := "You do not have permission to delete this question";
    if req.questionNumber == "" {
      assert failed == Some(EmptyQuestionNumber);
      return Rejection(EmptyQuestionNumber, "", forbidden);
    }
    var bearer := GetBearerToken(auth, req.headers);
    if bearer.None? {
      assert failed == Some(BadHeader);
      return Rejection(BadHeader, "", forbidden);
    }
    var userId := ValidateJWT(auth, bearer.value);
    if userId.None? {
      assert failed == Some(BadToken);
      return Rejection(BadToken, "", forbidden);
    }
    if req.path !in db.quizzes {
      assert failed == Some(QuizNotFound);
      return Rejection(QuizNotFound, "", forbidden);
    }
    var quiz := db.quizzes[req.path];
    if quiz.userId != userId.value {
      assert failed == Some(NotOwner);
      return Rejection(NotOwner, "", forbidden);
    }
    var question := QuestionInQuiz(db.State(), quiz, req.questionNumber);
    if question.None? {
      assert failed == Some(QuestionNotFound);
      return Rejection(QuestionNotFound, "", forbidden);
    }
    if question.value.deletedAt.Some? {
      assert failed == Some(QuestionDeleted);
      return Rejection(QuestionDeleted, "", forbidden);
    }
    db.DeleteQuizQuestion(req.questionNumber, now);
    resp := Response(StatusOK, Message("Question deleted successfully"));
  }

  /**
   * handlerUpdateQuizTitle: only the owner renames a live quiz; a body that
   * does not bind is a 400; a rename writes Title and UpdatedAt only.
   */
  method UpdateQuizTitle(auth: Auth, db: Queries, req: Request, newTitle: Option<string>, now: Time)
    returns (resp: Response)
    requires db.Valid()
    modifies db
    ensures db.Valid()
    ensures var failed := FirstFailure(OwnerChecks, old(db.State()), auth, req);
      if failed.Some? then
        && resp == Rejection(failed.value, "Quiz has been deleted",
                             "You do not have permission to update this quiz")
        && db.State() == old(db.State())
      else if newTitle.None? then
        resp == Response(StatusBadRequest, Error("Invalid parameters")) && db.State() == old(db.State())
      else
        && req.path in old(db.quizzes)
        && resp == Response(StatusOK, Message("Quiz title updated successfully"))
        && db.State() == old(db.State()).WithQuizTitle(req.path, newTitle.value, now)
  {
    OwnerChecksCascade(db.State(), auth, req);
    ghost var failed := FirstFailure(OwnerChecks, db.State(), auth, req);
    var path := req.path;
    var gone, forbidden := "Quiz has been deleted", "You do not have permission to update this quiz";
    if path == "" {
      assert failed == Some(EmptyPath);
      return Rejection(EmptyPath, gone, forbidden);
    }
    if path !in db.quizzes {
      assert failed == Some(QuizNotFound);
      return Rejection(QuizNotFound, gone, forbidden);
    }
    var quiz := db.quizzes[path];
    if quiz.deletedAt.Some? {
      assert failed == Some(QuizDeleted);
      return Rejection(QuizDeleted, gone, forbidden);
    }
    var bearer := GetBearerToken(auth, req.headers);
    if bearer.None? {
      assert failed == Some(BadHeader);
      return Rejection(BadHeader, gone, forbidden);
    }
    var userId := ValidateJWT(auth, bearer.value);
    if userId.None? {
      assert failed == Some(BadToken);
      return Rejection(BadToken, gone, forbidden);
    }
    if quiz.userId != userId.value {
      assert failed == Some(NotOwner);
      return Rejection(NotOwner, gone, forbidden);
    }
    if newTitle.None? {
      return Response(StatusBadRequest, Error("Invalid parameters"));
    }
    db.UpdateQuizTitle(path, newTitle.value, now);
    resp := Response(StatusOK, Message("Quiz title updated successfully"));
  }

  /** handlerGetAllQuizzesForUser: the caller's own quizzes, as the listing query returns them. */
  function GetAllQuizzesForUser(auth: Auth, sql: Sql, db: Db, req: Request): (resp: Response)
    ensures var failed := FirstFailure(AuthChecks, db, auth, req);
      if failed.Some? then resp == AuthRejection(failed.value)
      else
        && Caller(auth, req.headers).Some?
        && resp == Response(StatusOK, QuizList(sql.quizzesByUser(db.quizzes, Caller(auth, req.headers).value)))
  {
    AuthChecksCascade(db, auth, req);
    match GetBearerToken(auth, req.headers)
    case None => AuthRejection(BadHeader)
    case Some(bearer) =>
      match ValidateJWT(auth, bearer)
      case None => AuthRejection(BadToken)
      case Some(userId) => Response(StatusOK, QuizList(sql.quizzesByUser(db.quizzes, userId)))
  }

  /** The text of choice `n` (1 to 4) of a question. */
  function ChoiceText(q: Question, n: int): string
    requires 1 <= n <= 4
  {
    if n == 1 then q.choice1 else if n == 2 then q.choice2 else if n == 3 then q.choice3 else q.choice4
  }

  /**
   * `f` presents `q`: same id and text, exactly four choices, Choice1 to
   * Choice4 in order, and choice n marked correct exactly when Answer is n.
   */
  ghost predicate Presents(q: Question, f: FormattedQuestion)
  {
    && f.id == q.id && f.questionText == q.questionText
    && |f.choices| == 4
    && forall k :: 0 <= k < 4 ==> f.choices[k] == Choice(ChoiceText(q, k + 1), q.answer == k + 1)
  }

  /** How many choices are marked correct. */
  function CorrectCount(choices: seq<Choice>): nat
  {
    if choices == [] then 0 else (if choices[0].isCorrect then 1 else 0) + CorrectCount(choices[1..])
  }

  /** A formatted question has at most one correct choice, and exactly one iff Answer is 1 to 4. */
  lemma OneCorrectChoice(q: Question, f: FormattedQuestion)
    requires Presents(q, f)
    ensures CorrectCount(f.choices) <= 1
    ensures CorrectCount(f.choices) == 1 <==> 1 <= q.answer <= 4
  {
    var c := f.choices;
    assert c[1..][1..] == c[2..] && c[2..][1..] == c[3..] && c[3..][1..] == [];
    assert CorrectCount(c[3..]) == if q.answer == 4 then 1 else 0;
    assert CorrectCount(c[2..]) == (if q.answer == 3 then 1 else 0) + CorrectCount(c[3..]);
    assert CorrectCount(c[1..]) == (if q.answer == 2 then 1 else 0) + CorrectCount(c[2..]);
    assert CorrectCount(c) == (if q.answer == 1 then 1 else 0) + CorrectCount(c[1..]);
  }

  /**
   * The formatting loop of handlerGetAllQuestionsInQuiz: one entry per
   * stored question, in the same order, each presenting its question.
   */
  method FormatQuestions(questions: seq<Question>) returns (formatted: seq<FormattedQuestion>)
    ensures |formatted| == |questions|
    ensures forall i :: 0 <= i < |questions| ==> Presents(questions[i], formatted[i])
  {
    formatted := [];
    for i := 0 to |questions|
      invariant |formatted| == i
      invariant forall j :: 0 <= j < i ==> Presents(questions[j], formatted[j])
    {
      var q := questions[i];
      var choices := [Choice(q.choice1, q.answer == 1), Choice(q.choice2, q.answer == 2),
                      Choice(q.choice3, q.answer == 3), Choice(q.choice4, q.answer == 4)];
      formatted := formatted + [FormattedQuestion(q.id, q.questionText, choices)];
    }
  }

  /**
   * handlerGetAllQuestionsInQuiz: anyone may read a live quiz's questions,
   * formatted with per-choice correctness flags; a deleted quiz is gone.
   */
  method GetAllQuestionsInQuiz(auth: Auth, sql: Sql, db: Db, req: Request) returns (resp: Response)
    ensures var failed := FirstFailure(ReadChecks, db, auth, req);
      if failed.Some? then resp == Rejection(failed.value, "Quiz has been deleted", "")
      else
        && req.path in db.quizzes
        && var rows := sql.questionsInQuiz(db.questions, db.quizzes[req.path].id);
           && resp.status == StatusOK && resp.body.QuestionList?
           && |resp.body.questions| == |rows|
           && forall i :: 0 <= i < |rows| ==> Presents(rows[i], resp.body.questions[i])
  {
    ReadChecksCascade(db, auth, req);
    ghost var failed := FirstFailure(ReadChecks, db, auth, req);
    var path := req.path;
    if path == "" {
      assert failed == Some(EmptyPath);
      return Rejection(EmptyPath, "Quiz has been deleted", "");
    }
    if path !in db.quizzes {
      assert failed == Some(QuizNotFound);
      return Rejection(QuizNotFound, "Quiz has been deleted", "");
    }
    var quiz := db.quizzes[path];
    if quiz.deletedAt.Some? {
      assert failed == Some(QuizDeleted);
      return Rejection(QuizDeleted, "Quiz has been deleted", "");
    }
    var questions := sql.questionsInQuiz(db.questions, quiz.id);
    var formatted := FormatQuestions(questions);
    resp := Response(StatusOK, QuestionList(formatted));
  }

  /** handlerServeQuizPage: anyone may open a live quiz's page, which shows its title. */
  function ServeQuizPage(auth: Auth, db: Db, req: Request): (resp: Response)
    ensures var failed := FirstFailure(ReadChecks, db, auth, req);
      if failed.Some? then resp == Rejection(failed.value, "Quiz has been deleted", "")
      else req.path in db.quizzes && resp == Response(StatusOK, QuizPage(db.quizzes[req.path].title))
  {
    ReadChecksCascade(db, auth, req);
    if req.path == "" then Rejection(EmptyPath, "Quiz has been deleted", "")
    else if req.path !in db.quizzes then Rejection(QuizNotFound, "Quiz has been deleted", "")
    else if db.quizzes[req.path].deletedAt.Some? then Rejection(QuizDeleted, "Quiz has been deleted", "")
    else Response(StatusOK, QuizPage(db.quizzes[req.path].title))
  }

  /**
   * handlerChechOwnerOfQuiz: whether the caller owns a live quiz; a
   * non-owner gets 403 with `is_owner` false rather than an error text.
   */
  function CheckOwnerOfQuiz(auth: Auth, db: Db, req: Request): (resp: Response)
    ensures var failed := FirstFailure(OwnerChecks, db, auth, req);
      if failed == Some(NotOwner) then resp == Response(StatusForbidden, Ownership(false))
      else if failed.Some? then resp == Rejection(failed.value, "Quiz has been deleted", "")
      else resp == Response(StatusOK, Ownership(true))
  {
    OwnerChecksCascade(db, auth, req);
    if req.path == "" then Rejection(EmptyPath, "Quiz has been deleted", "")
    else if req.path !in db.quizzes then Rejection(QuizNotFound, "Quiz has been deleted", "")
    else
      var quiz := db.quizzes[req.path];
      if quiz.deletedAt.Some? then Rejection(QuizDeleted, "Quiz has been deleted", "")
      else match GetBearerToken(auth, req.headers)
        case None => Rejection(BadHeader, "Quiz has been deleted", "")
        case Some(bearer) =>
          match ValidateJWT(auth, bearer)
          case None => Rejection(BadToken, "Quiz has been deleted", "")
          case Some(userId) =>
            if quiz.userId != userId then Response(StatusForbidden, Ownership(false))
            else Response(StatusOK, Ownership(true))
  }

  /**
   * A soft-deleted quiz is 410 before any authentication: for the owner,
   * for anyone else and without a token, on the owner-only handlers and on
   * the anonymous reads alike.
   */
  lemma GoneBeforeAuthentication(db: Db, auth: Auth, req: Request)
    requires req.path != "" && req.path in db.quizzes && db.quizzes[req.path].deletedAt.Some?
    ensures FirstFailure(OwnerChecks, db, auth, req) == Some(QuizDeleted)
    ensures FirstFailure(ReadChecks, db, auth, req) == Some(QuizDeleted)
  {
    OwnerChecksCascade(db, auth, req);
    ReadChecksCascade(db, auth, req);
  }

  /**
   * The owner-only checks all pass exactly when the quiz exists, is not
   * deleted and the bearer token validates to its owner; an authenticated
   * caller who is not the owner of a live quiz gets 403.
   */
  lemma OnlyOwnerPasses(db: Db, auth: Auth, req: Request)
    ensures FirstFailure(OwnerChecks, db, auth, req).None? <==>
      && req.path != "" && req.path in db.quizzes && db.quizzes[req.path].deletedAt.None?
      && Caller(auth, req.headers) == Some(db.quizzes[req.path].userId)
    ensures
      && req.path != "" && req.path in db.quizzes && db.quizzes[req.path].deletedAt.None?
      && Caller(auth, req.headers).Some? && Caller(auth, req.headers).value != db.quizzes[req.path].userId
      ==> FirstFailure(OwnerChecks, db, auth, req) == Some(NotOwner)
  {
    OwnerChecksCascade(db, auth, req);
  }

  /**
   * Deletion is soft and final: after a delete that passed its checks the
   * record is still there, and every later request on that path, a second
   * delete included, is 410 whoever sends it.
   */
  lemma DeletedQuizStaysGone(db: Db, auth: Auth, req: Request, now: Time, later: Auth, next: Request)
    requires FirstFailure(OwnerChecks, db, auth, req) == None
    requires next.path == req.path
    ensures req.path in db.quizzes
    ensures var after := db.WithQuizDeleted(req.path, now);
      && next.path in after.quizzes && after.quizzes[next.path].id == db.quizzes[req.path].id
      && FirstFailure(OwnerChecks, after, later, next) == Some(QuizDeleted)
      && FirstFailure(ReadChecks, after, later, next) == Some(QuizDeleted)
  {
    OwnerChecksCascade(db, auth, req);
    GoneBeforeAuthentication(db.WithQuizDeleted(req.path, now), later, next);
  }

  /**
   * Question deletion gives the same answer whether or not the quiz itself
   * is deleted: it never consults the quiz's DeletedAt.
   */
  lemma QuestionDeleteIgnoresQuizDeletion(db: Db, auth: Auth, req: Request, deletedAt: Option<Time>)
    requires req.path in db.quizzes
    ensures var other := db.(quizzes := db.quizzes[req.path := db.quizzes[req.path].(deletedAt := deletedAt)]);
      FirstFailure(QuestionDeleteChecks, other, auth, req) == FirstFailure(QuestionDeleteChecks, db, auth, req)
  {
    var other := db.(quizzes := db.quizzes[req.path := db.quizzes[req.path].(deletedAt := deletedAt)]);
    assert other.quizzes[req.path].id == db.quizzes[req.path].id;
    assert other.quizzes[req.path].userId == db.quizzes[req.path].userId;
    assert QuizDeleted !in QuestionDeleteChecks;
    FirstFailureAgrees(QuestionDeleteChecks, db, other, auth, req);
  }

  /**
   * Adding a question raises its quiz's count by one when the count query
   * counts it, and leaves every other quiz's count alone; so a question
   * numbered count + 1 is followed by one numbered one higher.
   */
  lemma {:induction false} QuestionNumbersAreConsecutive(db: Db, sql: Sql, question: Question, quizId: QuizId)
    requires question.id !in db.questions
    ensures QuestionCount(db.WithQuestion(question), sql, quizId) ==
      QuestionCount(db, sql, quizId) + (if question.quizId == quizId && sql.counted(question) then 1 else 0)
    ensures question.quizId == quizId && sql.counted(question)
            && question.questionNumber == QuestionCount(db, sql, quizId) + 1
      ==> QuestionCount(db.WithQuestion(question), sql, quizId) == question.questionNumber
  {
    CountedIdsGrow(db.questions, sql, quizId, question);
    assert db.WithQuestion(question).questions == db.questions[question.id := question];
  }

  /** The counted ids after an insert: the old ones, plus the new id when it is counted. */
  lemma CountedIdsGrow(questions: map<QuestionId, Question>, sql: Sql, quizId: QuizId, question: Question)
    requires question.id !in questions
    ensures question.id !in CountedIds(questions, sql, quizId)
    ensures CountedIds(questions[question.id := question], sql, quizId) ==
      if question.quizId == quizId && sql.counted(question)
      then CountedIds(questions, sql, quizId) + {question.id}
      else CountedIds(questions, sql, quizId)
  {
    var before := CountedIds(questions, sql, quizId);
    var grown := CountedIds(questions[question.id := question], sql, quizId);
    if question.quizId == quizId && sql.counted(question) {
      assert grown == before + {question.id};
    } else {
      assert grown == before;
    }
  }
}
