# Learning, game and auth core of the Food-Delivery services, in Dafny

This project models three parts of the Food-Delivery backend and proves what they do.

- **Gateway handlers** (`Api-Gateway/api/handler/game.go`, `learning.go`). `CompleteGameLevel` marks
  a level complete in the Game service, then credits the returned XP through the User service.
  `CreateLearningTopic` publishes the bound request on the `"app-c"` message topic, then stores
  the topic through the Learning service. Every other handler has one shape: a bind failure
  gives 400, a backend error gives 500, and otherwise the backend reply goes out with 200.
  Services, the Kafka producer, JSON binding and marshalling are oracle parameters that return
  `Ok(value)` or `Err(msg)`. A ghost call log records which collaborator ran and with what
  argument.
- **Learning storage** (`CourierService/storage/postgres/learning.go`). The tables are `seq`
  fields of a `LearningStorage` class, and `users.xp` is a `map`. It covers the filter-query
  builder, topic soft delete against quiz hard delete, the answer check of `SubmitQuiz`, and
  the "insert a record, then credit XP" writes. Each SQL statement's driver error is an
  `Option<string>` input. Fresh `uuid` ids and `time.Now().Unix()` are inputs too.
- **Auth storage** (`Auth-Service/storage/postgres/auth.go`, `user.go`). The `users` and `tokens`
  tables sit in one shared `Db` object, like the shared `*sql.DB` handle. Lookups use the first
  matching row, as `QueryRow` does. The pure functions `LoginOutcome` and `LookupProfile` state
  what a lookup returns. Lemmas over them connect operations to each other: register then log
  in, log out then log in, reset the password then log in, update a profile then read it.

Modules: `Results` (Option/Result), `Seqs` (filter, update-where, first-match), `Handler`
(the generic forwarding handler), `GameHandler`, `LearningHandler`, `FilterQuery`, `RowScan`,
`LearningStorage`, `AuthTables`, `AuthStorage`, `UserStorage`.

## Model

| member | source | states |
|---|---|---|
| Handler.Forward | Api-Gateway/api/handler/game.go:26-40 | The shape of every single-call handler. 400 exactly when binding fails, and then the backend is never called. Otherwise the backend is called once with the bound request. A backend error gives 500 with that handler's error body. 200 exactly when binding and the backend both succeed, and the body is the backend reply unchanged. |
| GameHandler.CompleteGameLevel | Api-Gateway/api/handler/game.go:159-191 | A bind failure gives 400 "Invalid input" and calls nothing. The Game call always runs first. If it fails, the reply is 500 with its message and User is never called. Otherwise User is called once, with the request's user id and exactly the Game reply's XP. A User error or a non-"success" message gives 500 "failed to give XP to user", after the level is already complete. 200 exactly when both steps succeed, with the Game reply as the body. |
| GameHandler.DeleteGameLevel | Api-Gateway/api/handler/game.go:105-117 | The request id comes only from the path parameter. There is exactly one Game call. Its error gives 500 with the message, otherwise 200 with the reply. |
| LearningHandler.CreateLearningTopic | Api-Gateway/api/handler/learning.go:25-52 | A bind failure gives 400 "Invalid input" with no calls. A marshal failure gives 400 with the error text. The publish on "app-c" with the marshalled payload always comes first. A publish failure gives 500 and the topic is never stored. A storage failure after a successful publish gives 500, and the event stays published. 200 exactly when every step succeeds, with the Learning reply unchanged. |
| LearningHandler.QueryParam | Api-Gateway/api/handler/learning.go:186-188 | An absent query parameter reads as the empty string, and a present one as its value. |
| LearningHandler.GetCompletedTopics | Api-Gateway/api/handler/learning.go:184-196 | Never 400. The request carries the `id`, `topic_id` and `user_id` query values. There is exactly one Learning call. An error gives 500 "Error while getting completed topics", otherwise 200 with the reply. |
| LearningHandler.CreateQuiz | Api-Gateway/api/handler/learning.go:210-224 | The forwarding shape: bind failure 400 with no call, backend error 500, otherwise 200 with the backend reply. |
| FilterQuery.Build | CourierService/storage/postgres/learning.go:44-65 | The builder loop. The query is the base followed by one clause per filter with a non-empty value, in order, numbered from `$1`. The arguments are exactly those filters' values, in the same order. `count` ends as the argument count plus one. |
| FilterQuery.StepSet | CourierService/storage/postgres/learning.go:46-50 | One builder step on a filter with a value appends the clause numbered `count` and that value, which keeps the loop invariant. |
| FilterQuery.PresentAppend | CourierService/storage/postgres/learning.go:46 | A filter joins the contributing filters exactly when its value is non-empty. |
| FilterQuery.ClauseAt | CourierService/storage/postgres/learning.go:44-65 | Placeholders are consecutive: the `i`-th contributing filter's clause carries placeholder `$(k+i)`, between the clauses before it and after it. |
| FilterQuery.Values | CourierService/storage/postgres/learning.go:49 | The argument list has one entry per contributing filter, and entry `i` is that filter's value. |
| RowScan.ScanShared | CourierService/storage/postgres/learning.go:73-81 | The aliasing scan. One entry per row, all of them the same object, and every entry reads as the last row. |
| RowScan.SharedScanLosesRows | CourierService/storage/postgres/learning.go:79 | When any two rows differ, what the shared entries show is not the list of rows that were read. |
| RowScan.ScanFresh | CourierService/storage/postgres/learning.go:223-232 | A fresh record per row, so the result is exactly the rows, in the order they were read. |
| LearningStorage.Credit | CourierService/storage/postgres/learning.go:126-127 | `xp = xp + amount WHERE id = user`: that user's total grows by exactly `amount`. Every other total stays, and no user is added. |
| LearningStorage.SoftDeleteHides | CourierService/storage/postgres/learning.go:100-112 | With a non-zero timestamp, the live rows after a soft delete are exactly the live rows before it minus those with that id. |
| LearningStorage.ListingAfterSoftDelete | CourierService/storage/postgres/learning.go:100-112 | After a soft delete, the rows the listing query returns include none with that id, and every other row it returned before is still returned. |
| LearningStorage.ListedFrom | CourierService/storage/postgres/learning.go:39-81 | Every projected entry comes from a row the listing query returns. |
| LearningStorage.ListedIn | CourierService/storage/postgres/learning.go:39-81 | Every row the listing query returns is projected. |
| LearningStorage.CreateThenList | CourierService/storage/postgres/learning.go:22-41 | A created topic is live, so the rows the listing query returns afterwards are the rows it returned before, followed by the new topic. |
| LearningStorage.DeleteQuizThenSubmit | CourierService/storage/postgres/learning.go:251-282 | After a quiz is deleted, no answer to it matches. Answers to every other quiz match exactly as before. |
| LearningStorage.ListTopics | CourierService/storage/postgres/learning.go:73-80 | One listed entry per row, carrying its id, name, description and difficulty. |
| LearningStorage.QuizViews | CourierService/storage/postgres/learning.go:224-231 | One quiz entry per row, carrying id, topic, question and options, and never the answer. |
| LearningStorage.LearningStorage.AddXp | CourierService/storage/postgres/learning.go:126-131 | The credit statement: `xp` becomes `Credit(old xp)` when it runs, stays unchanged on an error, and the error is passed on. |
| LearningStorage.LearningStorage.CreateLearningTopic | CourierService/storage/postgres/learning.go:22-35 | On success, exactly one live topic is appended under the fresh id, and that id comes back with "success". On an insert error the table is unchanged and the error is returned. |
| LearningStorage.LearningStorage.GetLearningTopics | CourierService/storage/postgres/learning.go:37-83 | The statement is always the base query with no arguments, because the filters are read from a zero-valued local record. There is one entry per live topic, all of them the same object, each showing the last live topic. |
| LearningStorage.LearningStorage.DeleteLearningTopic | CourierService/storage/postgres/learning.go:100-112 | A soft delete: every row stays, and rows with that id get `deleted_at = now`. On an error nothing changes. |
| LearningStorage.LearningStorage.CompletedTopics | CourierService/storage/postgres/learning.go:115-135 | An insert error changes nothing. Otherwise the completion row is appended. The user's XP then grows by exactly `XpEarned`, which the reply echoes. A credit error leaves the row without the XP and returns the error. |
| LearningStorage.LearningStorage.GetCompletedTopics | CourierService/storage/postgres/learning.go:137-176 | The statement is the base query with no arguments, and there is no WHERE clause. There is one entry per completion row, all the same object, each showing the last row. |
| LearningStorage.LearningStorage.GetQuiz | CourierService/storage/postgres/learning.go:193-234 | The statement is the base query with no arguments. It runs twice, and either run's error is returned. Otherwise every quiz is listed once, in table order, without its answer. |
| LearningStorage.LearningStorage.DeleteQuiz | CourierService/storage/postgres/learning.go:251-261 | A hard delete: the rows with that id are removed, and every other quiz stays in order. |
| LearningStorage.LearningStorage.SubmitQuiz | CourierService/storage/postgres/learning.go:263-282 | No row matches both the quiz id and the answer: the reply is "Incorrect answer or quiz not found" with 0 XP and no error, and XP is unchanged. A match credits exactly 10 XP to the user and replies "success" with 10. A query or credit error changes nothing. |
| LearningStorage.LearningStorage.CompletedExtraResources | CourierService/storage/postgres/learning.go:350-368 | The completion row is appended, then a fixed 10 XP is credited. An insert error changes nothing, and a credit error keeps the row without the XP. |
| LearningStorage.LearningStorage.CreateLearningFeedback | CourierService/storage/postgres/learning.go:432-452 | The feedback row is appended under the fresh id, then a fixed 10 XP is credited. Same failure behaviour as above. |
| LearningStorage.LearningStorage.SubmitHomework | CourierService/storage/postgres/learning.go:513-534 | The submission row is appended, then exactly `XpEarned` is credited and echoed. Same failure behaviour as above. |
| AuthStorage.LoginOutcome | Auth-Service/storage/postgres/auth.go:47-75 | "Invalid username or password" exactly when no user has those credentials. Success exactly when the message is "Login successful". A successful login returns a token stored for a user with those credentials. Failures return no token. When a user matches, a user without a token row gets "Token not found", and otherwise the reply is success with the token of that user's first token row. |
| AuthStorage.RegisterThenLogin | Auth-Service/storage/postgres/auth.go:20-75 | After a registration, logging in with the same username and password returns the registered token. This holds when no earlier user has those credentials and the new id has no earlier token rows. |
| AuthStorage.LogoutRevokes | Auth-Service/storage/postgres/auth.go:47-87 | After a logout, no successful login hands out the logged-out token. |
| AuthStorage.LogoutLocksOut | Auth-Service/storage/postgres/auth.go:47-87 | Tokens are created only at registration. So once every token of the matching user is logged out, that user's login answers "Token not found". |
| AuthStorage.ResetThenLogin | Auth-Service/storage/postgres/auth.go:47-100 | After a reset of an existing email/username pair, logging in with the username and the new password is never "Invalid username or password". |
| AuthStorage.AuthStorage.Register | Auth-Service/storage/postgres/auth.go:20-45 | A failed user insert returns the error and adds no token row. Otherwise the user row is appended. A failed token insert then returns the error, and the user row stays. On success exactly one token row linked to the new id is appended, and the id comes back with "User created successfully". |
| AuthStorage.AuthStorage.Login | Auth-Service/storage/postgres/auth.go:47-75 | A driver error in either lookup is returned as an error. The token lookup runs only when a user matched. Otherwise the reply is `LoginOutcome` of the tables. |
| AuthStorage.AuthStorage.Logout | Auth-Service/storage/postgres/auth.go:77-87 | Every token row holding that token is removed, and the users and other tokens are unchanged. |
| AuthStorage.AuthStorage.ResetPassword | Auth-Service/storage/postgres/auth.go:89-100 | The new password hash goes only on rows that match both the email and the username. |
| UserStorage.LookupProfile | Auth-Service/storage/postgres/user.go:17-31 | The only possible error is "sql: no rows in result set", and it comes back exactly when no row has that id. When a row has that id, the result is `Ok`, with the columns of such a row as the profile. |
| UserStorage.UpdateThenGetProfile | Auth-Service/storage/postgres/user.go:17-44 | After updating an existing user's profile, the lookup by that id returns exactly the new username, email, name, phone and address. |
| UserStorage.ChangePasswordNoMatch | Auth-Service/storage/postgres/user.go:46-57 | When no row matches both the id and the current password, the table is unchanged. |
| UserStorage.UserStorage.GetProfile | Auth-Service/storage/postgres/user.go:17-31 | The lookup uses `req.Token` as the user id. A driver error is returned. Without one, the result is a profile exactly when a row has that id, and that profile is the columns of such a row. Otherwise the error is "sql: no rows in result set". |
| UserStorage.UserStorage.UpdateProfile | Auth-Service/storage/postgres/user.go:33-44 | Username, email, name, phone and address are overwritten only on rows with that id, and the reply reports success. |
| UserStorage.UserStorage.ChangePassword | Auth-Service/storage/postgres/user.go:46-57 | The hash changes only on rows matching both the id and the current password. The reply reports success whenever the statement runs, even if no row matched. |
| Seqs.Keep | CourierService/storage/postgres/learning.go:252 | The rows that satisfy the predicate, and only those: the model of `DELETE ... WHERE` and `SELECT ... WHERE`. Every satisfying row is kept as often as it occurs, and no row is added. |
| Seqs.KeepAppend | CourierService/storage/postgres/learning.go:252 | Selection distributes over concatenation, so the kept rows stay in their table order. |
| Seqs.First | Auth-Service/storage/postgres/auth.go:54 | The first row that satisfies the predicate, or none exactly when no row does: the model of `QueryRow`. |
| Seqs.UpdateWhere | Auth-Service/storage/postgres/auth.go:90-95 | The length is kept. Matching rows are rewritten and the others stay: the model of `UPDATE ... WHERE`. |

## Left out

- Gin request binding, JSON marshalling, Swagger annotations and HTTP writing are not modelled. Binding and marshalling are inputs that either succeed or fail, and a reply is a status plus a body.
- Kafka producer and gRPC client internals are oracle parameters. The model does not capture the request context against `context.Background()`.
- Routing, process wiring, database connection setup and handler construction are configuration and I/O.
- The service layer `CourierService/service/learning.go` passes storage results through unchanged, so the model calls storage directly.
- `GetLearningProgress` is not modelled: its float percentage divides by a total that can be zero.
- The other single-statement storage operations are not modelled. These are `UpdateLearningTopic`, storage `CreateQuiz`, `UpdateQuiz`, the four extra-resource operations, `CreateLearningRecommendations`, `GetLearningRecommendations`, `GetLearningFeedback`, `CreateLearningHomeworks` and `GetLearningHomeworks`. The gateway handlers for them are covered by `Handler.Forward`.
- A scan error inside a row loop and `rows.Close` are not modelled. The query returns its rows in table order. The second result set of `GetQuiz` (line 219) is not closed by the deferred `Close`, which binds the first one, so it leaks on the scan-error return; that leak is not modelled.
- Integers are unbounded. The `int32`/`int64` widths of XP columns and timestamps are not modelled.
- `updated_at = now()` in the profile and password updates is not modelled.
- A new topic's `deleted_at` is taken as 0, the column default the listing relies on.
- AuthStorage.AuthStorage.Register models the intended user insert. The INSERT column list at `Auth-Service/storage/postgres/auth.go:23` has no closing parenthesis, so as written the database would reject every registration.
- Passwords are stored and compared as given, because the storage layer does no hashing.
- Concurrent requests and transactions are not modelled. Each statement is atomic on its own, and nothing spans two statements.
- The code has no input-validation fast path, no best-effort step and no error classification; every failure is one `Err(msg)`.
- Logging is not modelled: `log.Println` in the handlers and the learning storage, and `slog.Info` in `Register`, have no effect on replies or tables.

## Findings

| source | as written | input that shows it | evidently intended | confidence | as-written member | corrected member |
|---|---|---|---|---|---|---|
| CourierService/storage/postgres/learning.go:73-80 | Each row is scanned into the one local `request`, and `&request` is appended, so every entry is the same record (the completed-topics loop at lines 166-173 does the same) | Two live topics t1 ≠ t2: the listing returns two entries that both show t2 | One record per row, as `GetQuiz` declares inside its loop, so the listing shows t1 then t2 | high (not executed) | RowScan.ScanShared, RowScan.SharedScanLosesRows | RowScan.ScanFresh |
