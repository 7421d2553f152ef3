# quizmaker handlers in Dafny

A model of the request handlers of quizmaker, a multi-user quiz-authoring web service:
authenticated users create quizzes, add multiple-choice questions, rename and soft-delete
their own quizzes and questions, and anyone can open a live quiz and read its questions.
Users sign up, log in (getting a 24-hour access token and a 720-hour refresh token),
renew the access token with the refresh token, revoke a refresh token and change their
password.

Every handler is a straight-line cascade of guards that ends in at most one write query.
The model keeps that shape:

- `Store` holds the records (quizzes by path, questions by id, users by id with an index by
  email, refresh-token records by token). `Db.Valid` states the table keys: each quiz is stored
  under its own path and no two quizzes share an id, each question under its own id, each
  user under its own id, and emails are unique. Every write keeps it. `Store.Db` is an
  immutable snapshot with one transition function per write query, each stating which
  fields it touches.
  `Store.Queries` is the mutable store the writing handlers change in place. Each of its
  methods is proved to move its state by the matching `Db` transition.
- `Guards` names every guard the quiz handlers run on the route parameters, the bearer
  token and the quiz's owner (`Check`), says when each one fails (`Fails`) and defines the answer of a cascade declaratively: the first failing check of an
  order (`FirstFailure`). The four orders the quiz handlers use are constants.
- `Quizzes` and `Users` are the handlers. The handlers that write are methods that run
  their checks one by one and end in at most one named transition.
  - For each quiz handler, the postcondition says that a rejection is exactly the
    `FirstFailure` of its order on the old state, with the store unchanged. A body that
    does not decode (quiz creation, question creation, renaming) is handled outside
    `FirstFailure`, as its own case after the cascade passes.
  - The user handlers' checks (body decoding, bearer token, credentials, hashing) are stated
    in their postconditions as an ordered chain of cases. Each rejected case leaves the
    store unchanged.
  - The read-only handlers are functions of a snapshot.
  - `FormatQuestions` is the choice-formatting loop of the question listing.
- `Crypto` keeps the cryptography uninterpreted. Bearer-token extraction and JWT
  validation are partial maps, and bcrypt is a pair of functions. The only assumption
  about that pair is that a hash checks against its own password (`Sound`). Minted access
  tokens are their claims.
- `Http` has the response statuses and bodies.

Freshly generated values (quiz ids, quiz paths, question ids, user ids, refresh tokens)
and the clock are parameters. A generated key is required to be new to its table. bcrypt's
random salt is a `Salt` parameter.

## Model

| member | source | states |
|---|---|---|
| Guards.Fails | handler_quizzes.go:52-78 | what each check tests: an empty path or question number, a path with no quiz, a quiz with DeletedAt set, no bearer header, a token that does not validate, a validated caller who is not the quiz's owner, no question under that number in the quiz, a question with DeletedAt set; a quiz-level check fails only for an existing quiz, the non-owner check only once a caller is known, and the token check only when there is a bearer token |
| Guards.FirstFailure | handler_quizzes.go:52-78 | the answer of a cascade: the reported check is in the order and fails, and there is none exactly when every check passes |
| Guards.FirstFailureIsFirst | handler_quizzes.go:117-143 | every check before the reported one passes, so the first failing check decides |
| Guards.FirstFailureAgrees | handler_quizzes.go:159-196 | two states on which every check of an order has the same outcome get the same answer from the cascade |
| Guards.Rejection | handler_quizzes.go:117-143 | an error body whose status is 400 exactly for an empty path or question number, 404 exactly for a missing quiz or question, 410 exactly for a deleted quiz or question, 401 exactly for a bad header or token and 403 exactly for a non-owner; the deleted-quiz and non-owner texts are the handler's own |
| Guards.AuthRejection | handler_quizzes.go:18-27 | a failed bearer-header or token check answers 401 |
| Guards.OwnerChecksCascade | handler_quizzes.go:117-143 | owner-only handlers check empty path 400, unknown path 404, deleted 410, header 401, token 401, non-owner 403, in that order, and the first failure decides |
| Guards.ReadChecksCascade | handler_quizzes.go:281-293 | the anonymous reads check empty path 400, unknown path 404, deleted 410, in that order |
| Guards.AuthChecksCascade | handler_quizzes.go:261-270 | quiz creation and listing check the header 401, then the token 401 |
| Guards.QuestionDeleteChecksCascade | handler_quizzes.go:159-196 | question deletion checks empty number 400, header 401, token 401, unknown quiz 404, non-owner 403, missing question 404, deleted question 410, in that order |
| Store.Db.WithQuiz | handler_quizzes.go:35-42 | creating a quiz adds exactly one record under its path and changes nothing else; with an unused id it keeps the table keys valid |
| Store.Db.WithQuizDeleted | handler_quizzes.go:144-150 | deleting a quiz keeps the record and sets only its DeletedAt; other quizzes and tables are unchanged |
| Store.Db.WithQuizTitle | handler_quizzes.go:248-252 | renaming sets only that quiz's Title and UpdatedAt |
| Store.Db.WithQuestion | handler_quizzes.go:97-108 | creating a question adds exactly one record under its id and changes nothing else |
| Store.Db.WithQuestionDeleted | handler_quizzes.go:197-201 | deleting a question keeps the record and sets only its DeletedAt |
| Store.Db.WithUser | handler_user.go:31-37 | signing up adds one user and one email-index entry and keeps the store valid (users keyed by id, emails one-to-one) |
| Store.Db.WithPassword | handler_user.go:171-175 | a password change sets only that user's HashedPw and UpdatedAt, keeps the store valid and leaves refresh tokens alone |
| Store.Db.WithRefreshToken | handler_user.go:70-76 | a login adds exactly one refresh-token record under its token and changes nothing else |
| Store.Db.WithRevoked | handler_user.go:120-127 | revoking sets only RevokedAt and UpdatedAt of the record with that token, and changes nothing when there is no such record |
| Store.QuestionInQuiz | handler_quizzes.go:182-190 | a question is found exactly when one is stored under that key for that quiz; in a valid store the record found has that id and belongs to that quiz |
| Store.QuizIdNamesOnePath | handler_quizzes.go:144-150 | in a valid store a quiz id picks out exactly one path, so the delete and rename queries, which name the quiz by id, change the record the handler looked up by path |
| Store.CountedIds | handler_quizzes.go:79 | the questions GetQuestionCountInQuiz counts (the count, `QuestionCount`, is their number) are stored questions of that quiz that the query's filter accepts |
| Store.UserByEmail | handler_user.go:55-59 | the user found by email is the stored user with that email, and there is none exactly when no user has it |
| Store.UserFromRefreshToken | handler_user.go:98-102 | a user is found only for a stored refresh-token record the query's filter accepts, and it is the user that record is bound to |
| Store.Queries.constructor | main.go:46 | an empty store is valid |
| Store.Queries.CreateQuiz | handler_quizzes.go:35-42 | the store moves by `WithQuiz` |
| Store.Queries.DeleteQuiz | handler_quizzes.go:144-150 | the store moves by `WithQuizDeleted` |
| Store.Queries.UpdateQuizTitle | handler_quizzes.go:248-252 | the store moves by `WithQuizTitle` |
| Store.Queries.CreateQuizQuestions | handler_quizzes.go:97-108 | the store moves by `WithQuestion` |
| Store.Queries.DeleteQuizQuestion | handler_quizzes.go:197-201 | the store moves by `WithQuestionDeleted` |
| Store.Queries.CreateUser | handler_user.go:31-41 | fails and changes nothing exactly when the email is taken; otherwise the store moves by `WithUser` |
| Store.Queries.UpdatePassword | handler_user.go:171-175 | the store moves by `WithPassword` |
| Store.Queries.CreateRefreshToken | handler_user.go:70-76 | the store moves by `WithRefreshToken` |
| Store.Queries.RevokeRefreshToken | handler_user.go:120-127 | the store moves by `WithRevoked` |
| Quizzes.QuizzesCreate | handler_quizzes.go:14-48 | header and token are checked (401) before the body is decoded; success adds one live quiz owned by the caller under the fresh path and returns 201 with its id and path; every rejection leaves the store unchanged; with an unused quiz id the store stays valid |
| Quizzes.QuestionsCreate | handler_quizzes.go:50-113 | the owner-only cascade decides rejections, which leave the store unchanged; success adds one question numbered the quiz's question count plus one |
| Quizzes.QuizzesDelete | handler_quizzes.go:115-156 | the owner-only cascade decides rejections, which leave the store unchanged; success soft-deletes the quiz (200) |
| Quizzes.QuestionsDelete | handler_quizzes.go:158-209 | the question-delete cascade decides rejections, which leave the store unchanged; success soft-deletes the question (200) |
| Quizzes.UpdateQuizTitle | handler_quizzes.go:211-258 | the owner-only cascade decides rejections; a bad body is 400; both leave the store unchanged; success changes only the title and UpdatedAt |
| Quizzes.GetAllQuizzesForUser | handler_quizzes.go:260-277 | 401 on a bad header or token; otherwise 200 with the listing query's quizzes for the validated caller |
| Quizzes.OneCorrectChoice | handler_quizzes.go:308-328 | a formatted question has at most one correct choice, and exactly one exactly when Answer is 1 to 4 |
| Quizzes.FormatQuestions | handler_quizzes.go:308-328 | one entry per stored question in the same order, each with the same id and text and the four choices in order, choice n correct exactly when Answer is n |
| Quizzes.GetAllQuestionsInQuiz | handler_quizzes.go:279-330 | the read cascade decides rejections (410 for a deleted quiz); otherwise 200 with the quiz's questions formatted as `FormatQuestions` promises |
| Quizzes.ServeQuizPage | handler_quizzes.go:332-350 | the read cascade decides rejections; otherwise 200 with the quiz's title |
| Quizzes.CheckOwnerOfQuiz | handler_quizzes.go:352-382 | the owner-only cascade decides, except that a non-owner gets 403 with is_owner false; the owner gets 200 with is_owner true |
| Quizzes.GoneBeforeAuthentication | handler_quizzes.go:61-64 | a soft-deleted quiz is 410 before any authentication, on the owner-only handlers and on the anonymous reads |
| Quizzes.OnlyOwnerPasses | handler_quizzes.go:354-380 | the owner-only checks pass exactly when the quiz is live and the token validates to its owner; an authenticated non-owner of a live quiz gets 403 |
| Quizzes.DeletedQuizStaysGone | handler_quizzes.go:126-150 | after a successful delete the record is still there and every later request on that path, a second delete included, is 410 |
| Quizzes.QuestionDeleteIgnoresQuizDeletion | handler_quizzes.go:173-196 | question deletion answers the same whether or not the quiz itself is deleted |
| Quizzes.QuestionNumbersAreConsecutive | handler_quizzes.go:79-100 | adding a counted question raises its quiz's count by one and leaves other quizzes' counts alone, so the next question gets the next number |
| Quizzes.CountedIdsGrow | handler_quizzes.go:79-84 | the counted questions after an insert are the old ones plus the new one when the count query counts it |
| Users.LoginUser | handler_user.go:55-63 | login accepts exactly the stored user with that email whose hash checks against the password |
| Users.UsersCreate | handler_user.go:14-43 | decode failure, hashing failure and a taken email are 500 and create nothing; success stores the hash, never the password, and answers 201 |
| Users.UsersLogin | handler_user.go:45-90 | an unknown email and a wrong password get the same 401 and write nothing; success adds one refresh-token record bound to the user and expiring 720 hours on, returns its token, a 24-hour access token and expires_in 2592000 |
| Users.RefreshJWT | handler_user.go:92-112 | 401 "Invalid token" on a bad header and 401 "Invalid refresh token" for a token that resolves to no user; otherwise a 24-hour access token for the user the record is bound to and expires_in 86400; it never writes |
| Users.RevokeRefreshToken | handler_user.go:114-133 | 401 and no change on a bad header; otherwise 200 and the store moves by `WithRevoked`, with no existence check |
| Users.UpdatePassword | handler_user.go:135-181 | decode (500), header (401), token (401), user lookup (500), current password (401) and hashing (500) are checked in that order and each failure leaves the store unchanged; success replaces only the hash |
| Users.SignupThenLogin | handler_user.go:26-63 | after signing up, logging in with the same email and password returns the new user |
| Users.PasswordChangeKeepsSessions | handler_user.go:160-175 | after a password change the new password logs in, the refresh-token records are unchanged and every refresh request gets the same answer as before |
| Users.LoginThenRefresh | handler_user.go:69-110 | the refresh token a login returns renews a 24-hour access token for the same user whenever the refresh query accepts the record |
| Users.RevokeIsIdempotent | handler_user.go:120-127 | revoking a token twice at the same time is the same as revoking it once |

## Left out

- Store errors: store failures are not modelled. The 500 branches for a failed query are
  left out, except the ones with a condition the model can state: a taken email on sign-up,
  a missing user on password change and a hashing failure. In the code a failed quiz,
  email or refresh-token lookup (GetQuizIDFromPath, GetUserByEmail, GetUserFromRefreshToken)
  answers 404 "Quiz not found", 401 "Invalid email or password" or 401 "Invalid refresh
  token" whatever the error. The model gives these answers only when the record is missing.
- Token minting failure: the 500 for a MakeJWT error is left out, because minting an
  HMAC token does not fail for a valid secret.
- `uuid.MustParse`: the panic on a malformed stored user id is left out.
- Query bodies: the SQL of GetQuestionCountInQuiz, GetAllQuestionsInQuiz,
  GetAllQuizzesByUserID and GetUserFromRefreshToken is not part of this model. The
  filters and orderings of those queries are the abstract fields of `Store.Sql`.
  So the model does not claim that the count skips deleted questions, nor that refresh
  rejects an expired or revoked token.
- Users.RefreshJWT: the code gives one 401 "Invalid refresh token" for an unknown, expired
  or revoked token and has no separate answers for them. Whether it rejects expired or
  revoked tokens at all depends on the query.
- Body decoding: a body that does not decode is 500 "Couldn't decode parameters", not 400,
  except in UpdateQuizTitle, which answers 400 "Invalid parameters".
- JSON: binding is an `Option` of the parsed form. Go's encoding of an empty slice as
  `null` is not modelled.
- Time: RFC 3339 timestamp formatting is not modelled; time is an integer `now`. The code
  reads the clock separately for CreatedAt, UpdatedAt, ExpiresAt and RevokedAt, and MakeJWT
  reads its own. The model uses one `now` per request for all of them, so it does not
  capture a second boundary falling between two reads.
- Refresh-token generation: the error of `MakeRefreshToken` is ignored by the code. The
  model takes the generated token as a fresh parameter, so a failed generation is not
  modelled.
- Store keys: every handler that writes requires and keeps a valid store (`Db.Valid`). The
  read-only `LoginUser` and `RefreshJWT` require it too. Quiz creation also requires an
  unused quiz id. These stand for the database's keys and for uuid generation.
- Signup name: the unused `name` field of the sign-up body is parsed and dropped, as the
  code does.
- Cryptography: JWT signing, expiry and issuer checks, and bcrypt are not modelled beyond
  the partial maps and `Sound`.
- Path generation: `generatePath` is not part of this model; paths are fresh parameters.
  It base64-encodes 8 random bytes without closing the encoder.
- Routing: server start-up, configuration and routing are not part of this model.
- Concurrency: requests are modelled one at a time, with no interleaving.
- Users.UsersLogin: `expires_in` is reported as 720 hours while the access token lives 24.
  The model keeps both values as the code has them.
