/**
 * The database the handlers read and write, as an in-memory keyed store:
 * quizzes by path, questions by id, users by id with an index by email,
 * refresh-token records by token. Every delete is soft: records are never
 * removed, and each write query touches only the columns it names.
 */
module Store {
  import opened Wrappers
  import opened Crypto

  type Path = string
  type QuizId = string
  type QuestionId = string

  datatype Quiz = Quiz(id: QuizId, path: Path, userId: UserId, title: string,
                       createdAt: Time, updatedAt: Time, deletedAt: Option<Time>)

  datatype Question = Question(id: QuestionId, quizId: QuizId, questionNumber: int,
                               questionText: string, choice1: string, choice2: string,
                               choice3: string, choice4: string, answer: int,
                               deletedAt: Option<Time>)

  datatype User = User(id: UserId, email: string, hashedPw: string,
                       createdAt: Time, updatedAt: Time)

  datatype RefreshToken = RefreshToken(token: Token, userId: UserId, createdAt: Time,
                                       updatedAt: Time, expiresAt: Time, revokedAt: Option<Time>)

  /**
   * What the read queries whose SQL is not part of this model answer:
   * which questions GetQuestionCountInQuiz counts, the rows of
   * GetAllQuestionsInQuiz and GetAllQuizzesByUserID, and which refresh-token
   * records GetUserFromRefreshToken accepts at a given time.
   */
  datatype Sql = Sql(counted: Question -> bool,
                     questionsInQuiz: (map<QuestionId, Question>, QuizId) -> seq<Question>,
                     quizzesByUser: (map<Path, Quiz>, UserId) -> seq<Quiz>,
                     refreshUsable: (RefreshToken, Time) -> bool)

  /** A snapshot of the whole store. */
  datatype Db = Db(quizzes: map<Path, Quiz>, questions: map<QuestionId, Question>,
                   users: map<UserId, User>, emails: map<string, UserId>,
                   refreshTokens: map<Token, RefreshToken>)
  {
    /**
     * The table keys: quizzes are stored under their own path and no two
     * share an id, questions under their own id, users under their own id,
     * and `emails` is a one-to-one index of the users' emails.
     */
    ghost predicate Valid()
    {
      && (forall p :: p in quizzes ==> quizzes[p].path == p)
      && (forall p, q :: p in quizzes && q in quizzes && quizzes[p].id == quizzes[q].id ==> p == q)
      && (forall k :: k in questions ==> questions[k].id == k)
      && (forall e :: e in emails ==> emails[e] in users && users[emails[e]].email == e)
      && (forall id :: id in users ==>
            users[id].id == id && users[id].email in emails && emails[users[id].email] == id)
    }

    /** No stored quiz has this id. */
    ghost predicate QuizIdUnused(id: QuizId)
    {
      forall p :: p in quizzes ==> quizzes[p].id != id
    }

    /** CreateQuiz: one new record under a path not used before. */
    function WithQuiz(quiz: Quiz): (r: Db)
      requires quiz.path !in quizzes
      ensures Valid() && QuizIdUnused(quiz.id) ==> r.Valid()
      ensures r.quizzes.Keys == quizzes.Keys + {quiz.path} && r.quizzes[quiz.path] == quiz
      ensures forall p :: p in quizzes ==> r.quizzes[p] == quizzes[p]
      ensures r.(quizzes := quizzes) == this
    {
      this.(quizzes := quizzes[quiz.path := quiz])
    }

    /** DeleteQuiz: sets DeletedAt and nothing else; the record stays. */
    function WithQuizDeleted(path: Path, now: Time): (r: Db)
      requires path in quizzes
      ensures Valid() ==> r.Valid()
      ensures r.quizzes.Keys == quizzes.Keys
      ensures r.quizzes[path].deletedAt == Some(now)
      ensures r.quizzes[path].(deletedAt := quizzes[path].deletedAt) == quizzes[path]
      ensures forall p :: p in quizzes && p != path ==> r.quizzes[p] == quizzes[p]
      ensures r.(quizzes := quizzes) == this
    {
      this.(quizzes := quizzes[path := quizzes[path].(deletedAt := Some(now))])
    }

    /** UpdateQuizTitle: sets Title and UpdatedAt and nothing else. */
    function WithQuizTitle(path: Path, title: string, now: Time): (r: Db)
      requires path in quizzes
      ensures Valid() ==> r.Valid()
      ensures r.quizzes.Keys == quizzes.Keys
      ensures r.quizzes[path].title == title && r.quizzes[path].updatedAt == now
      ensures r.quizzes[path].(title := quizzes[path].title, updatedAt := quizzes[path].updatedAt)
              == quizzes[path]
      ensures forall p :: p in quizzes && p != path ==> r.quizzes[p] == quizzes[p]
      ensures r.(quizzes := quizzes) == this
    {
      this.(quizzes := quizzes[path := quizzes[path].(title := title, updatedAt := now)])
    }

    /** CreateQuizQuestions: one new record under an id not used before. */
    function WithQuestion(question: Question): (r: Db)
      requires question.id !in questions
      ensures Valid() ==> r.Valid()
      ensures r.questions.Keys == questions.Keys + {question.id}
      ensures r.questions[question.id] == question
      ensures forall id :: id in questions ==> r.questions[id] == questions[id]
      ensures r.(questions := questions) == this
    {
      this.(questions := questions[question.id := question])
    }

    /** DeleteQuizQuestion: sets DeletedAt and nothing else; the record stays. */
    function WithQuestionDeleted(id: QuestionId, now: Time): (r: Db)
      requires id in questions
      ensures Valid() ==> r.Valid()
      ensures r.questions.Keys == questions.Keys
      ensures r.questions[id].deletedAt == Some(now)
      ensures r.questions[id].(deletedAt := questions[id].deletedAt) == questions[id]
      ensures forall k :: k in questions && k != id ==> r.questions[k] == questions[k]
      ensures r.(questions := questions) == this
    {
      this.(questions := questions[id := questions[id].(deletedAt := Some(now))])
    }

    /** CreateUser: a new user, indexed by an email no other user has. */
    function WithUser(user: User): (r: Db)
      requires user.id !in users && user.email !in emails
      ensures Valid() ==> r.Valid()
      ensures r.users.Keys == users.Keys + {user.id} && r.users[user.id] == user
      ensures r.emails.Keys == emails.Keys + {user.email} && r.emails[user.email] == user.id
      ensures forall id :: id in users ==> r.users[id] == users[id]
      ensures forall e :: e in emails ==> r.emails[e] == emails[e]
      ensures r.(users := users, emails := emails) == this
    {
      this.(users := users[user.id := user], emails := emails[user.email := user.id])
    }

    /** UpdatePassword: sets HashedPw and UpdatedAt of one user and nothing else. */
    function WithPassword(id: UserId, hashedPw: string, now: Time): (r: Db)
      requires id in users
      ensures Valid() ==> r.Valid()
      ensures r.users.Keys == users.Keys
      ensures r.users[id].hashedPw == hashedPw && r.users[id].updatedAt == now
      ensures r.users[id].(hashedPw := users[id].hashedPw, updatedAt := users[id].updatedAt)
              == users[id]
      ensures forall k :: k in users && k != id ==> r.users[k] == users[k]
      ensures r.(users := users) == this
    {
      this.(users := users[id := users[id].(hashedPw := hashedPw, updatedAt := now)])
    }

    /** CreateRefreshToken: one new record under a token not used before. */
    function WithRefreshToken(record: RefreshToken): (r: Db)
      requires record.token !in refreshTokens
      ensures Valid() ==> r.Valid()
      ensures r.refreshTokens.Keys == refreshTokens.Keys + {record.token}
      ensures r.refreshTokens[record.token] == record
      ensures forall t :: t in refreshTokens ==> r.refreshTokens[t] == refreshTokens[t]
      ensures r.(refreshTokens := refreshTokens) == this
    {
      this.(refreshTokens := refreshTokens[record.token := record])
    }

    /**
     * RevokeRefreshToken: an UPDATE by token, so it sets RevokedAt and
     * UpdatedAt of the matching record and changes nothing when there is none.
     */
    function WithRevoked(token: Token, now: Time): (r: Db)
      ensures Valid() ==> r.Valid()
      ensures r.refreshTokens.Keys == refreshTokens.Keys
      ensures token in refreshTokens ==>
        && r.refreshTokens[token].revokedAt == Some(now)
        && r.refreshTokens[token].updatedAt == now
        && r.refreshTokens[token].(revokedAt := refreshTokens[token].revokedAt,
                                   updatedAt := refreshTokens[token].updatedAt)
           == refreshTokens[token]
      ensures token !in refreshTokens ==> r == this
      ensures forall t :: t in refreshTokens && t != token ==> r.refreshTokens[t] == refreshTokens[t]
      ensures r.(refreshTokens := refreshTokens) == this
    {
      if token in refreshTokens then
        this.(refreshTokens := refreshTokens[token :=
                refreshTokens[token].(updatedAt := now, revokedAt := Some(now))])
      else
        this
    }
  }

  /** The ids of a quiz's questions that GetQuestionCountInQuiz counts. */
  function CountedIds(questions: map<QuestionId, Question>, sql: Sql, quizId: QuizId): (r: set<QuestionId>)
    ensures r <= questions.Keys
    ensures forall id :: id in r ==> questions[id].quizId == quizId
  {
    set id | id in questions && questions[id].quizId == quizId && sql.counted(questions[id])
  }

  /** GetQuestionCountInQuiz. */
  function QuestionCount(db: Db, sql: Sql, quizId: QuizId): nat
  {
    |CountedIds(db.questions, sql, quizId)|
  }

  /**
   * GetQuestionFromQuestionNumber: the query is parameterised by the id
   * column and the quiz id, and is given the `question_number` route
   * parameter as the id.
   */
  function QuestionInQuiz(db: Db, quiz: Quiz, questionNumber: string): (r: Option<Question>)
    ensures r.Some? <==> questionNumber in db.questions && db.questions[questionNumber].quizId == quiz.id
    ensures r.Some? ==> r.value == db.questions[questionNumber]
    ensures db.Valid() && r.Some? ==> r.value.id == questionNumber && r.value.quizId == quiz.id
  {
    if questionNumber in db.questions && db.questions[questionNumber].quizId == quiz.id
    then Some(db.questions[questionNumber])
    else None
  }

  /**
   * The write queries on a quiz name it by its id; in a valid store that id
   * picks out exactly the quiz stored under the path the handler looked up,
   * so writing by path changes the same record.
   */
  lemma QuizIdNamesOnePath(db: Db, path: Path)
    requires db.Valid() && path in db.quizzes
    ensures forall p :: p in db.quizzes ==> (db.quizzes[p].id == db.quizzes[path].id <==> p == path)
  {
  }

  /** GetUserByEmail. */
  function UserByEmail(db: Db, email: string): (r: Option<User>)
    requires db.Valid()
    ensures r.Some? <==> exists id :: id in db.users && db.users[id].email == email
    ensures r.Some? ==> r.value in db.users.Values && r.value.email == email
  {
    if email in db.emails then Some(db.users[db.emails[email]]) else None
  }

  /**
   * GetUserFromRefreshToken: the user a stored refresh-token record is bound
   * to, if the query's filter accepts the record.
   */
  function UserFromRefreshToken(db: Db, sql: Sql, token: Token, now: Time): (r: Option<User>)
    ensures r.Some? ==> token in db.refreshTokens && sql.refreshUsable(db.refreshTokens[token], now)
    ensures r.Some? ==> db.refreshTokens[token].userId in db.users
                        && r.value == db.users[db.refreshTokens[token].userId]
    ensures db.Valid() && r.Some? ==> r.value.id == db.refreshTokens[token].userId
  {
    if token in db.refreshTokens && sql.refreshUsable(db.refreshTokens[token], now)
       && db.refreshTokens[token].userId in db.users
    then Some(db.users[db.refreshTokens[token].userId])
    else None
  }

  /** The store as a mutable object: `database.Queries`, one method per write query. */
  class Queries {
    var quizzes: map<Path, Quiz>
    var questions: map<QuestionId, Question>
    var users: map<UserId, User>
    var emails: map<string, UserId>
    var refreshTokens: map<Token, RefreshToken>

    function State(): Db
      reads this
    {
      Db(quizzes, questions, users, emails, refreshTokens)
    }

    ghost predicate Valid()
      reads this
    {
      State().Valid()
    }

    constructor ()
      ensures Valid() && State() == Db(map[], map[], map[], map[], map[])
    {
      quizzes, questions, users, emails, refreshTokens := map[], map[], map[], map[], map[];
    }

    method CreateQuiz(quiz: Quiz)
      requires quiz.path !in quizzes
      modifies this
      ensures State() == old(State()).WithQuiz(quiz)
    {
      quizzes := quizzes[quiz.path := quiz];
    }

    method DeleteQuiz(path: Path, now: Time)
      requires path in quizzes
      modifies this
      ensures State() == old(State()).WithQuizDeleted(path, now)
    {
      quizzes := quizzes[path := quizzes[path].(deletedAt := Some(now))];
    }

    method UpdateQuizTitle(path: Path, title: string, now: Time)
      requires path in quizzes
      modifies this
      ensures State() == old(State()).WithQuizTitle(path, title, now)
    {
      quizzes := quizzes[path := quizzes[path].(title := title, updatedAt := now)];
    }

    method CreateQuizQuestions(question: Question)
      requires question.id !in questions
      modifies this
      ensures State() == old(State()).WithQuestion(question)
    {
      questions := questions[question.id := question];
    }

    method DeleteQuizQuestion(id: QuestionId, now: Time)
      requires id in questions
      modifies this
      ensures State() == old(State()).WithQuestionDeleted(id, now)
    {
      questions := questions[id := questions[id].(deletedAt := Some(now))];
    }

    /** Fails, changing nothing, when the email is already taken (emails are unique). */
    method CreateUser(user: User) returns (ok: bool)
      requires user.id !in users
      modifies this
      ensures ok == (user.email !in old(emails))
      ensures State() == if ok then old(State()).WithUser(user) else old(State())
    {
      ok := user.email !in emails;
      if ok {
        users := users[user.id := user];
        emails := emails[user.email := user.id];
      }
    }

    method UpdatePassword(id: UserId, hashedPw: string, now: Time)
      requires id in users
      modifies this
      ensures State() == old(State()).WithPassword(id, hashedPw, now)
    {
      users := users[id := users[id].(hashedPw := hashedPw, updatedAt := now)];
    }

    method CreateRefreshToken(record: RefreshToken)
      requires record.token !in refreshTokens
      modifies this
      ensures State() == old(State()).WithRefreshToken(record)
    {
      refreshTokens := refreshTokens[record.token := record];
    }

    method RevokeRefreshToken(token: Token, now: Time)
      modifies this
      ensures State() == old(State()).WithRevoked(token, now)
    {
      if token in refreshTokens {
        refreshTokens := refreshTokens[token :=
          refreshTokens[token].(updatedAt := now, revokedAt := Some(now))];
      }
    }
  }
}
