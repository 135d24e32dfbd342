# TaskFlow document store, in Dafny

A model of the request handlers of the TaskFlow API (`backend/main.py`).
The service keeps one document with four ordered lists: users, teams, tasks (each with its
nested list of updates) and messages. Each handler loads the document. The handlers fall
into three groups:

- Read handlers (`get_teams`, `get_tasks`, `get_messages`) return a list, or the leader-filtered
  teams. They never write the document back.
- Append handlers (`create_team`, `create_task`, `create_message`) search nothing. They append
  one new record and write the document back.
- Search handlers run first-match linear searches. `login` searches the users and changes
  nothing. `register` rejects an e-mail that any user already holds, and otherwise appends
  the user. `add_team_member` searches the users by e-mail and then the teams by id.
  `update_task` and `add_task_update` search the tasks by id. On a match these three overwrite
  one field of one record in place (a team's members, a task's status, a task's updates).
  They write the document back only on success.

The model has these modules:

- `Wrappers` (`wrappers.dfy`): `Option` and `Result`. An absent request field is `None`, and
  `GetOr(d)` plays the part of Python's `dict.get(key, d)`.
- `Records` (`records.dfy`): the record datatypes and the request bodies. It also has the
  error kinds (`ApiError`, each with the status code its reply tuple carries and its text), the password-free
  `UserView` and the bearer `Session` reply.
- `Lists` (`lists.dfy`): the first-match search `FirstIndexOf`, occurrence counting,
  duplicate-freedom and order-preserving subsequences.
- `Document` (`document.dfy`): the search keys (e-mails, credentials, team ids, task ids),
  the leader filter `TeamsLedBy`, the member-append rule `AddMember` and the e-mail
  uniqueness that registration keeps, with their lemmas.
- `Backend` (`store.dfy`): the class `Store`. Its fields `users`, `teams`, `tasks` and
  `messages` are the document, and there is one method per handler. The ghost counter
  `saves` counts the write-backs. Every error path leaves the whole object unchanged,
  `saves` included. Every success path of a write handler increments `saves`.
- `Scenarios` (`scenarios.dfy`): clients that combine handlers and are proved from their
  contracts alone.

Fresh ids and timestamps come from the wall clock in the service. Here they are the
parameters `newId` and `now`.

## Model

| member | source | states |
|---|---|---|
| `Lists.FirstIndexOf` | backend/main.py:129-133 | The `for ... if ...: break` search: None exactly when the key is absent; otherwise an index holding the key with no earlier index holding it |
| `Lists.FirstIndexOfAppended` | backend/main.py:58 | After a key that was absent is appended, the first match for it is the appended slot |
| `Document.AppendNewEmail` | backend/main.py:47-58 | Appending a user whose e-mail no user holds keeps e-mails pairwise distinct |
| `Document.FirstCredentialIsUnique` | backend/main.py:76-80 | When e-mails are distinct, the login search for a user's own e-mail and password stops at that user |
| `Document.TeamsLedBy` | backend/main.py:118 | The leader filter is an order-preserving subsequence of the teams. A team is in it iff it is in the document and has that leader, and it keeps every copy of such a team: each has as many copies in the result as in the document |
| `Document.TeamsLedByAll` | backend/main.py:117-120 | When every team has the leader, the filter returns all teams |
| `Document.AddMember` | backend/main.py:141-142 | The id is in the result; an id already present leaves the list as it was; an absent id is appended at the end and nothing before it moves |
| `Document.AddMemberIdempotent` | backend/main.py:141-142 | Adding the same id twice gives the same list as adding it once |
| `Document.AddMemberOnce` | backend/main.py:141-142 | An id that occurred at most once occurs exactly once afterwards |
| `Document.AddMemberKeepsNoDuplicates` | backend/main.py:141-142 | A member list without repeated ids keeps that property |
| `Backend.Store.Empty` | backend/main.py:27-32 | The document with no data file has four empty lists |
| `Backend.Store.Load` | backend/main.py:23-26 | A document read from the data file is held as given |
| `Backend.Store.Register` | backend/main.py:43-70 | Fails with "Email already exists" (400) iff some user holds the e-mail, and then changes nothing. Otherwise it appends exactly one user (name defaults to "", role to "member") and replies with token "token_"+id and the password-free view. Only `users` changes, and distinct e-mails stay distinct |
| `Backend.Store.Login` | backend/main.py:73-94 | Succeeds iff some user has exactly that e-mail and password. It replies with the session of the first such user in list order, otherwise "Invalid credentials" (401). It modifies nothing |
| `Backend.Store.CreateTeam` | backend/main.py:98-111 | Appends one team whose members are exactly `[leader_id]`; name and leader default to ""; nothing else changes |
| `Backend.Store.GetTeams` | backend/main.py:114-122 | With an absent or empty filter, all teams; otherwise `TeamsLedBy` of the filter |
| `Backend.Store.AddTeamMember` | backend/main.py:125-146 | Checks the user before the team: "User not found", then "Team not found", each leaving everything unchanged. On success only the first team with the id changes, its members becoming `AddMember` of the user's id. The document is saved even when the user was already a member |
| `Backend.Store.CreateTask` | backend/main.py:150-168 | Appends one task with status "pending", no updates, the given creation time and the request's fields defaulting to "" |
| `Backend.Store.GetTasks` | backend/main.py:171-173 | Returns all tasks whatever the team argument |
| `Backend.Store.UpdateTask` | backend/main.py:176-186 | Changes only the first task with the id, and in it only `status`, overwritten only when the request has one. It replies with the new task. An unknown id gives "Task not found" and no change |
| `Backend.Store.AddTaskUpdate` | backend/main.py:189-204 | Appends exactly one update (message and sender default to "") to the end of the first matching task's updates and replies with it. Every other task and field is unchanged. An unknown id gives "Task not found" and no change |
| `Backend.Store.CreateMessage` | backend/main.py:208-223 | Appends one message; chat type defaults to "project", the recipient stays absent when not given |
| `Backend.Store.GetMessages` | backend/main.py:226-228 | Returns all messages in storage order |
| `Scenarios.RegisterThenLogin` | backend/main.py:43-94 | After a successful registration, logging in with the same e-mail and password replies with the same session |
| `Scenarios.AddTeamMemberTwice` | backend/main.py:125-146 | A second identical add-member call gives the same reply and leaves the teams as the first left them |
| `Scenarios.CreateThenPatch` | backend/main.py:150-186 | A task created with an id no other task has and then patched is listed last, with the new status and every other field as created |

## Left out

- The FastAPI application, route decorators, CORS middleware and the static `health` and `root` replies (backend/main.py:9-18, 231-237). They are framework wiring.
- The file I/O of `load_data` and `save_data` (backend/main.py:23-36). The document is the object's state. A write-back is only counted, in the ghost field `saves`.
- `generate_id` and `datetime.now()` (backend/main.py:38-39, 161, 198, 215). They read the wall clock, so ids and timestamps are parameters. Ids are not claimed to be unique, because the service does not make them so. Two records may share an id, and the searches then reach only the first.
- The `KeyError` raised when `email` or `password` is missing from a register or login body. These two fields are required in the request types.
- JSON typing. Every request value and stored field is a string, except the optional `recipient_id`. The `status` of a PATCH may be any JSON value in the service.
- Records read from a data file that lack a field. The model's records always carry every field, so the `setdefault`/`get` fallbacks on `members`, `updates` and `leader_id` never apply.
- The meaning of the `(body, status)` tuples as HTTP responses. `ApiError.Status` and `ApiError.Text` only record the code and the text.
- Concurrent requests and their lost updates. The service has no locking, and each handler is modelled as one atomic step.
