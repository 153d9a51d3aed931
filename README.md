# TaskFlow in Dafny

A model of the core of TaskFlow, a small task manager with an Express/Mongo
backend and a Next.js client, with proofs of what its handlers and helpers
promise.

- **Task store** (`TaskRoutes`, `TaskSchema`): the `/tasks` router over
  the Mongo `tasks` collection. The collection is the `tasks` sequence of a
  `TaskStore` class, and the four handlers are its methods.
  - `List` returns the caller's tasks, newest first.
  - `Create` checks the title, applies the schema defaults and sets the
    owner from the token.
  - `Update` does a compound `(id, owner)` lookup, then `Object.assign`
    and `save`.
  - `Delete` does the compound lookup and removes the task.
  - `Handle` puts the router behind the token gate.
  - Each write is tied to a specification function. Ownership isolation,
    the 404 for both "missing" and "someone else's", partial update,
    delete-once and "nothing else changes" are proved about those
    functions.
- **Auth routes** (`AuthRoutes`): `/register` and `/login` over a
  `UserTable` class. Each check is modelled in its order with its status and
  message, and the seven-day token is modelled too.
- **Token gate** (`AccessGuard`): `verifyToken` takes the second
  space-separated word of the `Authorization` header. It answers 401 "No
  token provided" or "Invalid token", or sets `req.userId` and calls `next`
  exactly once.
- **Client route gate** (`RouteGate`): the Next.js `middleware` redirect
  decision and the scope of its `matcher`.
- **Client helpers**:
  - `TaskListView`: the filter and search, the counters and the empty-state
    message.
  - `TaskItemView`: the status buttons and their 3-cycle, the body a status
    change sends, the overdue rule and the badge labels.
  - `TaskFormView`: the title check, trimming and tag parsing, and what
    `handleSubmit` does to the form state.
- **Shared helpers**: `Ascii` holds ASCII versions of `trim`,
  `toLowerCase`, `includes` and `split`. `Http` holds the response shapes.
  `Wrappers` holds `Option`.

External effects are parameters:

| parameter | stands for |
|---|---|
| `now` | the clock (timestamps are integers) |
| `fault` | the message of a store failure (a 500) |
| `verify` | `jwt.verify` |
| `sign` | `jwt.sign` |
| `hash` | the User model's password hashing |
| `matches` | `comparePassword` |
| `toTimestamp` | the date input's conversion |
| `outcome` | what the form's API call returned |

Behaviour of the code that the model keeps as it is:

- The gate answers 401 with one of two distinct messages: "No token
  provided" when no token is present, and "Invalid token" when the token
  fails verification.
- An update copies every field of the body onto the task, including the
  owner (`TaskRoutes.AssignCanReassignOwner`).
- An invalid status or priority is not rejected up front. It fails Mongoose
  validation at `save()` and is answered with a 500.
- A 500 carries the thrown error's own `error.message`.

## Model

| member | source | states |
|---|---|---|
| Ascii.Trim | components/task-form.tsx:36-37 | the result is unpadded; it is empty exactly when the input is all whitespace; an unpadded input is returned unchanged |
| Ascii.TrimRemovesOnlyEnds | components/task-form.tsx:36-37 | the trimmed text is a contiguous part of the input, with only whitespace cut from either end |
| Ascii.TrimKeepsChars | components/task-form.tsx:42 | every character of the trimmed text occurs in the original, so trimming cannot introduce a comma |
| Ascii.ToLower | components/task-list.tsx:63 | same length, with each character replaced by its ASCII lower case |
| Ascii.ToLowerIdempotent | components/task-list.tsx:63 | lower-casing twice equals lower-casing once |
| Ascii.Capitalize | components/task-item.tsx:90 | same length, first character upper-cased, the rest unchanged |
| Ascii.ContainsIsOccurrence | components/task-list.tsx:63 | `includes` (`Ascii.Contains`) holds exactly when the term occurs at some position |
| Ascii.Split | backend/middleware/auth.js:6 | splitting always yields at least one piece, and no piece contains the separator |
| Ascii.SplitNoSep | backend/middleware/auth.js:6 | a string without the separator splits into itself alone |
| Ascii.SplitAtFirst | backend/middleware/auth.js:6 | the first piece ends at the first separator; the rest is the split of what follows |
| Ascii.JoinSplit | components/task-form.tsx:41 | joining the pieces of a split gives back the string |
| Ascii.SplitJoin | components/task-form.tsx:41 | splitting the join of separator-free pieces gives back the pieces |
| TaskSchema.ParseStatus | backend/models/Task.js:13-17 | a status is accepted exactly when it is one of "todo", "in-progress", "completed", and it round-trips to that name |
| TaskSchema.ParsePriority | backend/models/Task.js:18-22 | a priority is accepted exactly when it is one of "low", "medium", "high", and it round-trips to that name |
| TaskSchema.Construct | backend/models/Task.js:3-35 | a task is produced exactly when the title is non-empty and the priority is valid; it applies description "", status "todo", priority "medium", the given owner, due date and tags, and sets both timestamps to the save time |
| AccessGuard.ExtractToken | backend/middleware/auth.js:6 | no header gives no token, and a token never contains a space |
| AccessGuard.SchemeWordIgnored | backend/middleware/auth.js:6 | the token is the word after the first space, whatever the first word is and whatever follows the next space |
| AccessGuard.NoSpaceNoToken | backend/middleware/auth.js:6-10 | a header without a space yields no token |
| AccessGuard.Authenticate | backend/middleware/auth.js:5-19 | a missing or empty token gives 401 "No token provided"; a non-empty token that fails verification gives 401 "Invalid token"; a rejection is always a 401; the request continues exactly when the token is non-empty and verifies, and then with the verified user |
| AccessGuard.ClientHeaderDecision | backend/middleware/auth.js:6-18 | for `Bearer <token>`: continue exactly when the token is non-empty and verifies; an empty token gives "No token provided"; a failing one gives "Invalid token" |
| AccessGuard.RequestContext.constructor | backend/middleware/auth.js:5 | a request starts with no user, no response and no call to `next` |
| AccessGuard.VerifyToken | backend/middleware/auth.js:5-19 | exactly one outcome: a 401 is sent and `next` is not called, or `req.userId` is set and `next` is called once |
| TaskRoutes.Owned | backend/routes/tasks.js:10 | the result holds exactly the tasks of the collection whose owner is the caller |
| TaskRoutes.Insert | backend/routes/tasks.js:10 | inserting into a newest-first list keeps it newest first and adds exactly that task |
| TaskRoutes.SortNewestFirst | backend/routes/tasks.js:10 | the result is ordered by `createdAt` descending and is a permutation of the input |
| TaskRoutes.Find | backend/routes/tasks.js:45 | none exactly when no task has both the id and the owner; otherwise the position of a task with both |
| TaskRoutes.Assign | backend/routes/tasks.js:51-52 | the save succeeds exactly when the sent status and priority are valid and the resulting title is non-empty; the id and `createdAt` are kept |
| TaskRoutes.AssignOverwritesPresentFields | backend/routes/tasks.js:51 | each field present in the body is overwritten with it, including the owner; each absent field keeps its value |
| TaskRoutes.AssignEmptyPatch | backend/routes/tasks.js:51-52 | an empty body changes nothing, not even `updatedAt` |
| TaskRoutes.AssignIdempotent | backend/routes/tasks.js:51-52 | repeating an update leaves the task as the first application did |
| TaskRoutes.AssignCanReassignOwner | backend/routes/tasks.js:51 | a body carrying `userId` hands the task to that user |
| TaskRoutes.ListResponse | backend/routes/tasks.js:8-15 | a 500 with the store's message, or a 200 whose list is newest first and holds exactly the caller's tasks, which may be none |
| TaskRoutes.TaskStore.List | backend/routes/tasks.js:8-15 | equals `ListResponse`: a 200 holding exactly the caller's tasks, newest first; the collection is not changed |
| TaskRoutes.TaskStore.Create | backend/routes/tasks.js:18-40 | keeps unique ids and titles present; the response, collection and next id are those of `CreateSpec` |
| TaskRoutes.TaskStore.Update | backend/routes/tasks.js:43-57 | keeps the store invariant; the response and collection are those of `UpdateSpec` (cast error, store failure, 404, validation failure, or the task replaced in place) |
| TaskRoutes.TaskStore.Delete | backend/routes/tasks.js:60-72 | keeps the store invariant; the response and collection are those of `DeleteSpec` (cast error, store failure, 404, or the task removed) |
| TaskRoutes.TaskStore.Handle | backend/routes/tasks.js:8-60 | a request the token gate rejects gets the gate's 401 and changes nothing; otherwise the route's handler runs for the gate's user, and only a create moves the next id |
| TaskRoutes.ChosenMatchIsUnique | backend/routes/tasks.js:45 | with unique ids, at most one task matches `{ _id, userId }` |
| TaskRoutes.CreateOutcome | backend/routes/tasks.js:18-40 | 201 exactly when the title is present and non-empty (whitespace is accepted), the priority is valid and the store is up; a missing title gives 400 "Title is required"; a present, non-empty title with an invalid priority gives 500 "Task validation failed"; a 201 appends exactly one task, owned by the caller, at "todo", with `[]` for absent tags; any other outcome changes nothing |
| TaskRoutes.CreateIgnoresStatusAndOwnerInBody | backend/routes/tasks.js:20-33 | a `status` or `userId` in the creation body has no effect |
| TaskRoutes.CreatePreservesInvariant | backend/routes/tasks.js:26-35 | after a create, ids stay unique and below the next id, and every stored title stays non-empty |
| TaskRoutes.LookupIsolation | backend/routes/tasks.js:45 | collections holding the same tasks of a user find the same task for that user |
| TaskRoutes.OwnsIsolation | backend/routes/tasks.js:45 | whether a user owns an id depends only on that user's tasks |
| TaskRoutes.UpdateIsolation | backend/routes/tasks.js:45-49 | the answer to an update depends only on the caller's own tasks; a missing id and another user's id give the same 404 and change nothing |
| TaskRoutes.DeleteIsolation | backend/routes/tasks.js:62-66 | the answer to a delete depends only on the caller's own tasks; a missing id and another user's id give the same 404 and change nothing |
| TaskRoutes.ListIsolation | backend/routes/tasks.js:10 | the list a user gets depends only on that user's tasks |
| TaskRoutes.UpdateLeavesOtherUsersAlone | backend/routes/tasks.js:45-53 | an update keeps the collection's size, and every other user keeps the same tasks in the same order, unless the body hands the task to them |
| TaskRoutes.UpdateReplacesOnlyTheMatch | backend/routes/tasks.js:51-53 | an update replaces the matched task in place with the assigned one and answers with it; every other position is unchanged; a failing validation answers 500 and changes nothing |
| TaskRoutes.DeleteRemovesOnlyTheMatch | backend/routes/tasks.js:62-68 | a successful delete removes exactly the matched task; every other user's list is unchanged |
| TaskRoutes.DeleteOnlyOnce | backend/routes/tasks.js:62-66 | a second delete of the same id is a 404 that changes nothing |
| AuthRoutes.FindByEmail | backend/routes/auth.js:17 | none exactly when no stored user has that exact email; otherwise the position of such a user |
| AuthRoutes.UserTable.Register | backend/routes/auth.js:9-35 | keeps emails and ids unique; the response, table and next id are those of `RegisterSpec` |
| AuthRoutes.UserTable.Login | backend/routes/auth.js:38-66 | reads the table only; the response is that of `LoginSpec` |
| AuthRoutes.RegisterOutcome | backend/routes/auth.js:9-35 | a missing field gives 400 "Missing required fields"; 201 exactly when all three fields are present, the store is up and the email is new; with all fields present, the store up and the email already stored, 400 "Email already in use"; then one user is appended with the hashed password, and the answer carries a token for its id and email valid for seven days (604800 seconds), plus the user without any password; otherwise the table is unchanged |
| AuthRoutes.SecondRegistrationRejected | backend/routes/auth.js:17-20 | registering an email just registered gives 400 "Email already in use" and changes nothing |
| AuthRoutes.LoginOutcome | backend/routes/auth.js:46-62 | a missing email or password gives 400 "Missing email or password"; otherwise an unknown email and a wrong password give the same 401 "Invalid credentials"; 200 exactly when a stored user with the email has a matching password, with a seven-day token for that user |
| AuthRoutes.RegisterThenLogin | backend/routes/auth.js:22-62 | a user who has just registered can log in with the same email and password and gets a token for the same id |
| RouteGate.Middleware | middleware.ts:4-19 | a redirect to /login exactly when the token is absent or empty and the path starts with "/dashboard"; a redirect to /dashboard exactly when a token is present and the path is /login or /register; otherwise pass through; a redirect never targets the current path |
| RouteGate.Navigate | middleware.ts:21-23 | paths outside the matcher (`RouteGate.InScope`) always pass through; on matched paths the decision is the middleware's |
| RouteGate.NoRedirectLoop | middleware.ts:9-16 | following a redirect never leads to a second one |
| RouteGate.MatcherNarrowsDashboardPrefix | middleware.ts:9-23 | the matcher changes the answer only for signed-out visitors on paths like "/dashboards" that start with "/dashboard" but are not under it |
| TaskListView.FilteredTasks | components/task-list.tsx:61-65 | a task is shown exactly when it passes the status filter and its lower-cased title contains the lower-cased search; the shown tasks are a subsequence of the list, in its order |
| TaskListView.EverythingShownByDefault | components/task-list.tsx:61-65 | with "all" and an empty search, every task is shown |
| TaskListView.SearchIgnoresCase | components/task-list.tsx:63 | a search term and its lower-case form show the same tasks |
| TaskListView.CountStatus | components/task-list.tsx:69-71 | a per-status count never exceeds the number of tasks |
| TaskListView.ComputeStats | components/task-list.tsx:67-72 | total is the number of tasks, each status counter is the number of tasks with that status, and the three counters add up to the total |
| TaskListView.StatusCountsSum | components/task-list.tsx:67-72 | the todo, in-progress and completed counts add up to the number of tasks |
| TaskListView.CountMatchesFilter | components/task-list.tsx:61-72 | each status count equals the number of tasks its filter button shows with an empty search |
| TaskListView.Area | components/task-list.tsx:166-180 | loading shows the state carrying "Loading tasks..."; otherwise the area is never the loading state, items appear exactly when some task is shown, and else an empty state whose message is "No tasks yet..." exactly when there are no tasks, and "No tasks match..." exactly when there are some |
| TaskListView.EmptyCollectionMessage | components/task-list.tsx:168-173 | an empty collection shows "No tasks yet..." whatever the filter and search |
| TaskItemView.Advance | components/task-item.tsx:110-114 | the advance button exists exactly when the task is not completed, and it moves the task to a different status that is not "todo" |
| TaskItemView.Reopen | components/task-item.tsx:127-131 | the reopen button exists exactly when the task is completed, and it moves the task to "todo" |
| TaskItemView.ExactlyOneStatusButton | components/task-item.tsx:110-131 | every card offers exactly one status button |
| TaskItemView.StatusCycle | components/task-item.tsx:110-131 | the button's status changes form a 3-cycle: three presses return to the start, and fewer do not |
| TaskItemView.StatusChange | components/task-item.tsx:32-38 | a status change sends the status name and no other field |
| TaskItemView.StatusChangeTouchesOnlyStatus | components/task-item.tsx:32-38 | on the server, a status change alters only the status, and `updatedAt` when the status really changes |
| TaskItemView.OverdueRules | components/task-item.tsx:63-64 | for `isOverdue` (`TaskItemView.IsOverdue`): a completed task and a task without a due date are never overdue; an overdue task stays overdue as time passes |
| TaskItemView.StatusLabel | components/task-item.tsx:87-91 | the badges read "Todo", "In Progress", "Completed" |
| TaskItemView.PriorityLabel | components/task-item.tsx:92-94 | the badges read "Low", "Medium", "High" |
| TaskFormView.CleanPieces | components/task-form.tsx:40-43 | no more tags than pieces, each tag non-empty and unpadded, and comma-free pieces give comma-free tags |
| TaskFormView.CleanPiecesOne | components/task-form.tsx:42-43 | one piece becomes its trimmed text, or nothing when that is empty |
| TaskFormView.CleanPiecesAppend | components/task-form.tsx:42-43 | pieces are cleaned one by one and in order: cleaning a concatenation concatenates the results |
| TaskFormView.ParseTags | components/task-form.tsx:40-43 | every parsed tag is non-empty, unpadded and comma-free |
| TaskFormView.ParseTagsOnePiece | components/task-form.tsx:40-43 | text without a comma gives its trimmed text as the one tag, or no tag when it is blank |
| TaskFormView.ParseTagsAtComma | components/task-form.tsx:40-43 | the tags of a text are those before its first comma followed by those after it, so every piece is trimmed, blank pieces are dropped, and the order is kept |
| TaskFormView.ParseTagsEmpty | components/task-form.tsx:40-43 | an empty tag field sends no tags |
| TaskFormView.CleanPiecesOfClean | components/task-form.tsx:42-43 | already-clean tags pass through trimming and filtering unchanged |
| TaskFormView.ParseTagsRoundTrip | components/task-form.tsx:40-43 | parsing the comma-joined text of clean tags gives back exactly those tags, in order |
| TaskFormView.BuildRequest | components/task-form.tsx:33-45 | the request carries the trimmed title and description, the chosen priority's name and the parsed tags; an empty due date is sent as null, any other as its timestamp; no status or owner is sent |
| TaskFormView.FormRequestAccepted | components/task-form.tsx:33-45 | a request that passes the form's check is answered 201 by the server while the store is up, and the created task holds the trimmed fields, the priority and the tags |
| TaskFormView.FormStricterThanServer | components/task-form.tsx:25-28 | every non-empty all-whitespace title is refused by the form with "Title is required", though the server would store it |
| TaskFormView.TitleError | components/task-form.tsx:25-28 | an error exactly when the title is all whitespace, and it is "Title is required" |
| TaskFormView.SubmitSpec | components/task-form.tsx:21-58 | a blank title sets only the error and sends nothing; otherwise it sends `BuildRequest` of the fields and ends not loading; on success it resets the inputs to "" and "medium" and clears the error; on failure it shows the error's message or "Failed to create task" and keeps the inputs |
| TaskFormView.TaskForm.constructor | components/task-form.tsx:13-19 | the form starts with empty inputs, priority "medium", not loading and no error |
| TaskFormView.TaskForm.ClearInputs | components/task-form.tsx:47-51 | the five inputs return to their start values; loading and error are kept |
| TaskFormView.TaskForm.Submit | components/task-form.tsx:21-58 | the new form state, the request sent and whether `onTaskCreated` ran are those of `SubmitSpec` |

## Left out

- Network, database and browser I/O are left out: Express, Mongo, `fetch`, localStorage and cookies. Each handler is a method on in-memory state.
- The `fault` flag stands for every store failure. Its message is the response body. The model cannot say which Mongo call failed or what the driver's message would be.
- Mongoose's exact error texts are left out. The model uses the heads "Cast to ObjectId failed" and "Task validation failed", not the full messages.
- `_id`, `createdAt` and `updatedAt` inside a PUT body are left out. What Mongoose does with them depends on its internals. The other schema fields of the body (title, description, status, priority, due date, tags and owner) are modelled, each as absent or present.
- JSON values of the wrong type in request bodies are left out. Each body field is either absent or a value of its schema type. The model cannot send JSON `null` (except for `dueDate`), numbers, arrays or objects where a string is expected, or Mongo query operators such as `{"$ne": ""}`. So a PUT with `"title": null`, which `Object.assign` copies and `save()` then rejects with a 500, is not modelled. Nor is an operator object in a login email, which passes the falsiness check and reaches `User.findOne`.
- A JWT payload without `userId` is left out. `verify` returns a user id or nothing.
- Token expiry is left out. The model records the seven-day lifetime in the claims, and `verify` decides validity.
- An invalid date string is left out. The form's `toTimestamp` is a total parameter. On the server, `dueDate` is already an integer or null.
- Password hashing and `comparePassword` are left out. They are the parameters `hash` and `matches`. backend/models/User.js is not part of this model.
- Async behaviour and concurrency are left out: the `finally` ordering, React state scheduling, and last-write-wins races between concurrent updates.
- Unicode is left out. `trim` and `toLowerCase` are ASCII only.
- backend/server.js, lib/api.ts, lib/auth.ts and the app pages are left out. They hold bootstrap, a fetch wrapper, storage access and layout.
- The rest of task-list.tsx is left out: `fetchTasks`, the loading and error state, and the refresh callbacks.
- The rest of task-item.tsx is left out: the delete confirmation and the `console.error` calls. The button labels are `TaskItemView.ButtonLabel`, which has no contract.
- TaskRoutes.SortNewestFirst: Mongo leaves the order of tasks with equal `createdAt` unspecified. The model keeps them in collection order, and its contract only promises newest-first order and the same tasks.
- TaskRoutes.AssignOverwritesPresentFields: `Assign` moves `updatedAt` only when a field really changes, as Mongoose's timestamps do. This lemma states only that the new `updatedAt` is either the old value or `now`.
