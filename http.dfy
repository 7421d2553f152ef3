/** Responses as the handlers write them: a status code and a JSON (or HTML) body. */
module Http {
  import opened Crypto
  import opened Store

  const StatusOK: int := 200
  const StatusCreated: int := 201
  const StatusBadRequest: int := 400
  const StatusUnauthorized: int := 401
  const StatusForbidden: int := 403
  const StatusNotFound: int := 404
  const StatusGone: int := 410
  const StatusInternalServerError: int := 500

  /** One answer of a formatted question: its text and whether it is the right one. */
  datatype Choice = Choice(choiceText: string, isCorrect: bool)

  datatype FormattedQuestion = FormattedQuestion(id: QuestionId, questionText: string,
                                                 choices: seq<Choice>)

  datatype Body =
    | Error(error: string)
    | Message(message: string)
    | QuizCreated(quizId: QuizId, path: Path)
    | Ownership(isOwner: bool)
    | QuizPage(title: string)
    | QuizList(quizzes: seq<Quiz>)
    | QuestionList(questions: seq<FormattedQuestion>)
    | Session(id: UserId, email: string, createdAt: Time, updatedAt: Time,
              token: AccessToken, refreshToken: Token, expiresIn: int)
    | Renewal(token: AccessToken, expiresIn: int)
    | EmptyObject

  datatype Response = Response(status: int, body: Body)

  /** The answer to a request body that does not bind (a 500, not a 400, in most handlers). */
  const DecodeFailure: Response := Response(StatusInternalServerError, Error("Couldn't decode parameters"))
}
