/**
 * The checks the quiz handlers run before they read or write a quiz, and
 * the order each handler runs them in. A handler answers with the status of
 * the first check that fails; `FirstFailure` is that rule, stated once.
 */
module Guards {
  import opened Wrappers
  import opened Crypto
  import opened Store
  import opened Http

  /** The parts of a request the checks look at: headers and route parameters. */
  datatype Request = Request(headers: Headers, path: string, questionNumber: string)

  datatype Check =
    | EmptyPath | EmptyQuestionNumber
    | QuizNotFound | QuizDeleted
    | BadHeader | BadToken
    | NotOwner
    | QuestionNotFound | QuestionDeleted

  function StatusOf(check: Check): int
  {
    match check
    case EmptyPath | EmptyQuestionNumber => StatusBadRequest
    case QuizNotFound | QuestionNotFound => StatusNotFound
    case QuizDeleted | QuestionDeleted => StatusGone
    case BadHeader | BadToken => StatusUnauthorized
    case NotOwner => StatusForbidden
  }

  /** Whether `check` fails for this request against this store. */
  predicate Fails(check: Check, db: Db, auth: Auth, req: Request)
    ensures Fails(check, db, auth, req)
            && (check == QuizDeleted || check == NotOwner || check == QuestionNotFound || check == QuestionDeleted)
            ==> req.path in db.quizzes
    ensures Fails(check, db, auth, req) && check == NotOwner ==> Caller(auth, req.headers).Some?
    ensures Fails(check, db, auth, req) && check == BadToken ==> GetBearerToken(auth, req.headers).Some?
  {
    match check
    case EmptyPath => req.path == ""
    case EmptyQuestionNumber => req.questionNumber == ""
    case QuizNotFound => req.path !in db.quizzes
    case QuizDeleted => req.path in db.quizzes && db.quizzes[req.path].deletedAt.Some?
    case BadHeader => GetBearerToken(auth, req.headers).None?
    case BadToken => GetBearerToken(auth, req.headers).Some? && Caller(auth, req.headers).None?
    case NotOwner =>
      req.path in db.quizzes && Caller(auth, req.headers).Some?
      && db.quizzes[req.path].userId != Caller(auth, req.headers).value
    case QuestionNotFound =>
      req.path in db.quizzes && QuestionInQuiz(db, db.quizzes[req.path], req.questionNumber).None?
    case QuestionDeleted =>
      req.path in db.quizzes && QuestionInQuiz(db, db.quizzes[req.path], req.questionNumber).Some?
      && QuestionInQuiz(db, db.quizzes[req.path], req.questionNumber).value.deletedAt.Some?
  }

  /** The first check of `checks` that fails, or None when all pass. */
  function FirstFailure(checks: seq<Check>, db: Db, auth: Auth, req: Request): (r: Option<Check>)
    ensures r.Some? ==> r.value in checks && Fails(r.value, db, auth, req)
    ensures r.None? <==> forall c :: c in checks ==> !Fails(c, db, auth, req)
  {
    if checks == [] then None
    else if Fails(checks[0], db, auth, req) then Some(checks[0])
    else FirstFailure(checks[1..], db, auth, req)
  }

  /** The check FirstFailure reports is the first failing one: every check before it passes. */
  lemma {:induction false} FirstFailureIsFirst(checks: seq<Check>, db: Db, auth: Auth, req: Request)
    requires FirstFailure(checks, db, auth, req).Some?
    ensures exists i :: 0 <= i < |checks| && checks[i] == FirstFailure(checks, db, auth, req).value
                        && forall j :: 0 <= j < i ==> !Fails(checks[j], db, auth, req)
    decreases |checks|
  {
    if Fails(checks[0], db, auth, req) {
      assert checks[0] == FirstFailure(checks, db, auth, req).value;
    } else {
      FirstFailureIsFirst(checks[1..], db, auth, req);
      var i :| 0 <= i < |checks[1..]| && checks[1..][i] == FirstFailure(checks[1..], db, auth, req).value
               && forall j :: 0 <= j < i ==> !Fails(checks[1..][j], db, auth, req);
      assert forall j :: 0 <= j < i + 1 ==> !Fails(checks[j], db, auth, req) by {
        forall j | 0 <= j < i + 1 ensures !Fails(checks[j], db, auth, req) {
          if j > 0 { assert checks[j] == checks[1..][j - 1]; }
        }
      }
      assert checks[i + 1] == checks[1..][i];
    }
  }

  /**
   * Two states on which every check of an order has the same outcome give
   * the same first failure: a handler's answer depends only on its checks.
   */
  lemma {:induction false} FirstFailureAgrees(checks: seq<Check>, db: Db, other: Db, auth: Auth, req: Request)
    requires forall c :: c in checks ==> (Fails(c, db, auth, req) <==> Fails(c, other, auth, req))
    ensures FirstFailure(checks, db, auth, req) == FirstFailure(checks, other, auth, req)
    decreases |checks|
  {
    if checks != [] {
      assert checks[0] in checks;
      forall c | c in checks[1..] ensures Fails(c, db, auth, req) <==> Fails(c, other, auth, req) {
        assert c in checks;
      }
      FirstFailureAgrees(checks[1..], db, other, auth, req);
    }
  }

  /** Adding questions, deleting, renaming and asking "am I the owner?". */
  const OwnerChecks: seq<Check> := [EmptyPath, QuizNotFound, QuizDeleted, BadHeader, BadToken, NotOwner]
  /** The anonymous reads: the quiz page and its question list. */
  const ReadChecks: seq<Check> := [EmptyPath, QuizNotFound, QuizDeleted]
  /** Creating a quiz and listing one's own quizzes. */
  const AuthChecks: seq<Check> := [BadHeader, BadToken]
  /** Deleting a question: authentication first, and the quiz's own deletion is never checked. */
  const QuestionDeleteChecks: seq<Check> :=
    [EmptyQuestionNumber, BadHeader, BadToken, QuizNotFound, NotOwner, QuestionNotFound, QuestionDeleted]

  /**
   * The error response for a failed check. The texts for a deleted quiz
   * and for a non-owner differ between handlers and are passed in.
   */
  function Rejection(check: Check, goneText: string, forbiddenText: string): (r: Response)
    ensures r.body.Error?
    ensures r.status == StatusBadRequest <==> (check == EmptyPath || check == EmptyQuestionNumber)
    ensures r.status == StatusNotFound <==> (check == QuizNotFound || check == QuestionNotFound)
    ensures r.status == StatusGone <==> (check == QuizDeleted || check == QuestionDeleted)
    ensures r.status == StatusUnauthorized <==> (check == BadHeader || check == BadToken)
    ensures r.status == StatusForbidden <==> check == NotOwner
    ensures check == QuizDeleted ==> r.body.error == goneText
    ensures check == NotOwner ==> r.body.error == forbiddenText
  {
    Response(StatusOf(check), Error(
      match check
      case EmptyPath => "Path is required"
      case EmptyQuestionNumber => "Question ID is required"
      case QuizNotFound => "Quiz not found"
      case QuizDeleted => goneText
      case BadHeader => "Invalid Authorization header"
      case BadToken => "Invalid token"
      case NotOwner => forbiddenText
      case QuestionNotFound => "Question not found"
      case QuestionDeleted => "Question has already been deleted"))
  }

  /** The answer to a failed bearer-token check, for the handlers that check nothing else first. */
  function AuthRejection(check: Check): (r: Response)
    requires check in AuthChecks
    ensures r.status == StatusUnauthorized
  {
    Rejection(check, "", "")
  }

  /** The owner-only handlers answer with the first failing check of 400, 404, 410, 401, 401, 403, in that order. */
  lemma OwnerChecksCascade(db: Db, auth: Auth, req: Request)
    ensures FirstFailure(OwnerChecks, db, auth, req) ==
      if Fails(EmptyPath, db, auth, req) then Some(EmptyPath)
      else if Fails(QuizNotFound, db, auth, req) then Some(QuizNotFound)
      else if Fails(QuizDeleted, db, auth, req) then Some(QuizDeleted)
      else if Fails(BadHeader, db, auth, req) then Some(BadHeader)
      else if Fails(BadToken, db, auth, req) then Some(BadToken)
      else if Fails(NotOwner, db, auth, req) then Some(NotOwner)
      else None
  {
    var s := OwnerChecks;
    assert s[5..] == [NotOwner] && s[5..][1..] == [];
    assert FirstFailure(s[5..], db, auth, req) == if Fails(NotOwner, db, auth, req) then Some(NotOwner) else None;
    assert s[4..][0] == BadToken && s[4..][1..] == s[5..];
    assert FirstFailure(s[4..], db, auth, req) ==
      if Fails(BadToken, db, auth, req) then Some(BadToken) else FirstFailure(s[5..], db, auth, req);
    assert s[3..][0] == BadHeader && s[3..][1..] == s[4..];
    assert FirstFailure(s[3..], db, auth, req) ==
      if Fails(BadHeader, db, auth, req) then Some(BadHeader) else FirstFailure(s[4..], db, auth, req);
    assert s[2..][0] == QuizDeleted && s[2..][1..] == s[3..];
    assert FirstFailure(s[2..], db, auth, req) ==
      if Fails(QuizDeleted, db, auth, req) then Some(QuizDeleted) else FirstFailure(s[3..], db, auth, req);
    assert s[1..][0] == QuizNotFound && s[1..][1..] == s[2..];
    assert FirstFailure(s[1..], db, auth, req) ==
      if Fails(QuizNotFound, db, auth, req) then Some(QuizNotFound) else FirstFailure(s[2..], db, auth, req);
  }

  /** The anonymous reads answer with the first failing check of 400, 404, 410, in that order. */
  lemma ReadChecksCascade(db: Db, auth: Auth, req: Request)
    ensures FirstFailure(ReadChecks, db, auth, req) ==
      if Fails(EmptyPath, db, auth, req) then Some(EmptyPath)
      else if Fails(QuizNotFound, db, auth, req) then Some(QuizNotFound)
      else if Fails(QuizDeleted, db, auth, req) then Some(QuizDeleted)
      else None
  {
    var s := ReadChecks;
    assert s[2..] == [QuizDeleted] && s[2..][1..] == [];
    assert FirstFailure(s[2..], db, auth, req) == if Fails(QuizDeleted, db, auth, req) then Some(QuizDeleted) else None;
    assert s[1..][0] == QuizNotFound && s[1..][1..] == s[2..];
    assert FirstFailure(s[1..], db, auth, req) ==
      if Fails(QuizNotFound, db, auth, req) then Some(QuizNotFound) else FirstFailure(s[2..], db, auth, req);
  }

  /** Quiz creation and listing answer 401 for a missing bearer token before an invalid one. */
  lemma AuthChecksCascade(db: Db, auth: Auth, req: Request)
    ensures FirstFailure(AuthChecks, db, auth, req) ==
      if Fails(BadHeader, db, auth, req) then Some(BadHeader)
      else if Fails(BadToken, db, auth, req) then Some(BadToken)
      else None
  {
    var s := AuthChecks;
    assert s[1..] == [BadToken] && s[1..][1..] == [];
    assert FirstFailure(s[1..], db, auth, req) == if Fails(BadToken, db, auth, req) then Some(BadToken) else None;
  }

  /** Question deletion answers with the first failing check of 400, 401, 401, 404, 403, 404, 410, in that order. */
  lemma QuestionDeleteChecksCascade(db: Db, auth: Auth, req: Request)
    ensures FirstFailure(QuestionDeleteChecks, db, auth, req) ==
      if Fails(EmptyQuestionNumber, db, auth, req) then Some(EmptyQuestionNumber)
      else if Fails(BadHeader, db, auth, req) then Some(BadHeader)
      else if Fails(BadToken, db, auth, req) then Some(BadToken)
      else if Fails(QuizNotFound, db, auth, req) then Some(QuizNotFound)
      else if Fails(NotOwner, db, auth, req) then Some(NotOwner)
      else if Fails(QuestionNotFound, db, auth, req) then Some(QuestionNotFound)
      else if Fails(QuestionDeleted, db, auth, req) then Some(QuestionDeleted)
      else None
  {
    var s := QuestionDeleteChecks;
    assert s[6..] == [QuestionDeleted] && s[6..][1..] == [];
    assert FirstFailure(s[6..], db, auth, req) == if Fails(QuestionDeleted, db, auth, req) then Some(QuestionDeleted) else None;
    assert s[5..][0] == QuestionNotFound && s[5..][1..] == s[6..];
    assert FirstFailure(s[5..], db, auth, req) ==
      if Fails(QuestionNotFound, db, auth, req) then Some(QuestionNotFound) else FirstFailure(s[6..], db, auth, req);
    assert s[4..][0] == NotOwner && s[4..][1..] == s[5..];
    assert FirstFailure(s[4..], db, auth, req) ==
      if Fails(NotOwner, db, auth, req) then Some(NotOwner) else FirstFailure(s[5..], db, auth, req);
    assert s[3..][0] == QuizNotFound && s[3..][1..] == s[4..];
    assert FirstFailure(s[3..], db, auth, req) ==
      if Fails(QuizNotFound, db, auth, req) then Some(QuizNotFound) else FirstFailure(s[4..], db, auth, req);
    assert s[2..][0] == BadToken && s[2..][1..] == s[3..];
    assert FirstFailure(s[2..], db, auth, req) ==
      if Fails(BadToken, db, auth, req) then Some(BadToken) else FirstFailure(s[3..], db, auth, req);
    assert s[1..][0] == BadHeader && s[1..][1..] == s[2..];
    assert FirstFailure(s[1..], db, auth, req) ==
      if Fails(BadHeader, db, auth, req) then Some(BadHeader) else FirstFailure(s[2..], db, auth, req);
  }
}
