# Job-exchange escrow services, modelled in Dafny

The system is a small job exchange built from three services that talk over a
message bus: clients, freelancers and tasks. Each service owns one table and
answers `add`, `get`, `update`, `list` and `delete` requests.

The task service is the core. Creating a task does three things in one
database transaction, after asking the client service for the client's
balance:

- it withdraws the fee from the client;
- it locks the fee in a `billing` (escrow) row;
- it inserts the task row.

Updating a task to status `closed` first settles that escrow. Settlement
marks the billing row `paid` and credits the fee to the freelancer. Then the
handler runs the partial update, which writes only the fields the request
sets.

The model turns each handler into a pure function on a `Store`, which holds
four tables:

- `clients`, `freelancers` and `tasks` are maps keyed by id;
- `billing` is a sequence, in insertion order.

Anything that depends on the driver or the bus becomes a parameter:

- a `Fault` per statement: a driver error, or zero rows affected;
- the client service's reply, as a `ClientLookup`;
- the clock reading `now`;
- the generated UUID.

A transaction that rolls back returns its input store unchanged.

Modules:

- `Wrappers`: `Option` and `Result`.
- `Decimal`: `%d` formatting of naturals, used for the `$n` placeholders, with its parse round trip.
- `Model`: the records, the status vocabularies, `NewTask`/`NewClient`/`NewFreelancer`, and `NewID` with its UUID text.
- `QueryBuilder`: the `strings.Builder` loop the three Update handlers share. It has two halves:
  - a reference rendering of the finished statement;
  - the meaning of its SET list when run against a row.
- `Listing`: the order-preserving row lists that `List` returns.
- `Db`: the store, faults, statement outcomes, escrow sums, and the `SELECT ... WHERE task_id` row choice.
- `TaskService`, `ClientService`, `FreelancerService`: the handlers.
- `TaskProperties`, `AccountProperties`: lemmas relating several operations.

## Model

| member | source | states |
|---|---|---|
| Model.TaskStatuses | model/model.go:24-35 | the five task statuses, with `abondoned` spelled as in the code, are pairwise distinct; `closed` is the fourth |
| Model.PaymentStatuses | model/model.go:37-48 | the five payment statuses are pairwise distinct, from `locked` to `paid` |
| Model.UuidString | model/model.go:136-141 | a UUID's text is 36 characters, dashes at 8, 13, 18 and 23, lower-case hex elsewhere |
| Model.NewId | model/model.go:135-141 | the id passes the handlers' 36-byte check exactly when generation succeeded (UUID text is ASCII, so its 36 characters are 36 bytes); a failed generation yields the empty string |
| Model.Utf8LenAscii | services/task/task.go:281 | `len` counts UTF-8 bytes: never fewer than the characters, and exactly as many if and only if every character is ASCII |
| Model.Utf8LenAppend | services/task/task.go:281 | the byte length of a concatenation is the sum of the byte lengths |
| Model.Utf8LenRepeat | services/task/task.go:281 | `n` copies of a character take `n` times its UTF-8 width |
| Model.IdCheckCountsBytes | services/task/task.go:293 | the id check counts bytes: 35 `a` and one `é` (36 characters, 37 bytes) are rejected, 18 `é` (18 characters, 36 bytes) pass |
| Model.NewTask | model/model.go:103-114 | a new task is open, unassigned, never started/updated/deleted, and carries the given fee, client, description, deadline, id and creation time |
| Model.NewClient | model/model.go:116-123 | a new client carries the given email, balance and id and is not deleted |
| Model.NewFreelancer | model/model.go:125-133 | a new freelancer has valid (non-NULL) description and details, a NULL balance, and the given email and id |
| Decimal.NatToString | services/task/task.go:180 | `%d` text of a natural: all digits, one digit exactly below 10, no leading zero |
| Decimal.ParseNatToString | services/task/task.go:180 | parsing the `%d` text gives back the number, so distinct placeholders have distinct texts |
| Decimal.NatToStringInjective | services/task/task.go:180 | different positions never print the same placeholder number |
| QueryBuilder.WriteAllRenders | services/task/task.go:175-252 | the step-by-step writer leaves exactly the reference rendering: set fields only, placeholders `$1..$k` in field order, clauses joined by the separator, arguments in the same order |
| QueryBuilder.NothingWrittenIffNoneSet | services/task/task.go:253-256 | the "nothing to update" test (text still equals the prefix) holds if and only if no field is set |
| QueryBuilder.SelectedEmpty | services/task/task.go:253-256 | no field is selected exactly when none is set |
| QueryBuilder.AllSetSelected | services/task/task.go:178-252 | with every field set, every field is written, in order |
| QueryBuilder.AssignmentsMatchFields | services/task/task.go:274 | running the SET list with its arguments bound positionally assigns exactly the set fields, in order; the trailing arguments are not used |
| QueryBuilder.ApplyAssignmentsPrefix | services/task/task.go:267-273 | the arguments after the SET list's columns (the WHERE id) do not affect the assignments |
| Db.FirstBillingFor | services/task/task.go:125 | the selected billing row has the task's id and no earlier row does; there is none exactly when no row has that task id |
| Db.LockedAfterMarkPaid | services/task/task.go:130-131 | marking the one row with the selected id paid takes its amount out of its client's escrow if it was locked, and leaves every other client's escrow unchanged |
| Db.LockedForAppend | services/task/task.go:94-95 | appending a billing row adds its amount to its client's escrow exactly when it is locked |
| TaskService.Create | services/task/task.go:59-111 | commits (client debited to replied balance minus fee, one locked row, task row inserted) if and only if every step goes through; otherwise the store is unchanged; transport error is returned, a refused lookup is replied, insufficient funds is returned without a reply |
| TaskService.TransferFunds | services/task/task.go:117-154 | on commit, the first row for the task is marked paid for the task's freelancer and the freelancer's balance (NULL read as 0) grows by the fee, nothing else changes; on any failure the store is unchanged; the error is nil exactly on commit or on a zero-row step; a missing billing row gives `sql: no rows in result set` |
| TaskService.BuildUpdate | services/task/task.go:175-273 | no statement exactly when no field is set; otherwise the text is the selected clauses joined by ", ", then `, updated_at=$k+1 WHERE ID=$k+2`, with arguments the values, the time and the id |
| TaskService.AllFieldsQuery | services/task/task.go:175-273 | with all five fields set, the exact statement text and its seven arguments |
| TaskService.TaskFieldsWritten | services/task/task.go:175-256 | the writer's state over the five task fields, and the prefix-only text if and only if nothing is set |
| TaskService.UpdateStatementAssigns | services/task/task.go:262-276 | the built statement, run on a row, replaces each set field, keeps the others, and stamps `updated_at` |
| TaskService.UpdatedRow | services/task/task.go:274 | the row after the statement is the partial-update result |
| TaskService.ExecUpdate | services/task/task.go:274-276 | only the addressed task row changes, and only when something is set and the driver does not fail; a driver error leaves the store unchanged |
| TaskService.Update | services/task/task.go:159-277 | the last reply is always success (the reported errors are shadowed); a failed settlement publishes its failure first and changes nothing; nothing set means unchanged store and one success; clients never change; a status other than `closed` touches neither billing nor freelancers; a close on an unknown task changes nothing |
| TaskService.Get | services/task/task.go:291-316 | an id whose UTF-8 encoding is not 36 bytes (Go's `len`) is rejected with `invalid ID`; otherwise the stored row, or `sql: no rows in result set` |
| TaskService.Delete | services/task/task.go:279-289 | the 36-byte id check first; a driver error is replied; otherwise `deleted_at` is stamped on the row if there is one and success is replied |
| TaskService.List | services/task/task.go:318-330 | exactly the client's tasks that are not soft-deleted, each once, ordered by creation time |
| TaskProperties.CreateConservesFunds | services/task/task.go:81-98 | when the reply matches the stored balance, the debit equals the locked amount and the client's balance plus escrow is conserved |
| TaskProperties.StaleReplyLosesDebit | services/task/task.go:82-84 | the balance write is absolute: two creates answered with the same reply lock both fees but debit only the second, so the client's funds grow by the first fee |
| TaskProperties.CreateLocksOneRow | services/task/task.go:92-98 | a committed create appends exactly one row for the task, the locked one, and settlement will select it |
| TaskProperties.FirstBillingForSameTasks | services/task/task.go:125 | the billing row chosen depends only on the rows' task ids |
| TaskProperties.SettlementReleasesEscrow | services/task/task.go:125-150 | settlement takes the selected locked row's amount out of escrow and credits the stored fee; the two agree exactly when the fee is unchanged since creation |
| TaskProperties.SettlingTwiceCreditsTwice | services/task/task.go:125-150 | the row is selected by task id alone with no status check, so a second settlement of the same task pays the freelancer again |
| TaskProperties.CloseUsesStoredFreelancer | services/task/task.go:196-206 | settlement uses the stored task, not the request: assigning and closing in one request on an unassigned task fails settlement with no-rows, publishes that failure and then success, and changes nothing |
| TaskProperties.CloseSettlesThenWrites | services/task/task.go:196-206 | a close whose settlement commits credits the stored fee, marks the row paid, then writes the request's fields with status `closed`, and replies one success |
| TaskProperties.FeeOnlyUpdate | services/task/task.go:159-277 | a request setting only the fee changes only the fee and `updated_at` |
| TaskProperties.CreateAssignClose | services/task/task.go:59-277 | create, assign, close end to end: all replies succeed, the client is left with its balance minus the fee, the freelancer gains the fee, and the escrow row is paid to that freelancer |
| ClientService.Add | services/client/client.go:47-57 | inserted if and only if the id is new and the driver succeeds; a duplicate id is a driver error; otherwise the store is unchanged |
| ClientService.BuildUpdate | services/client/client.go:79-111 | no statement exactly when neither email nor a positive balance is set; otherwise clauses ending in a space joined by ",", then `WHERE ID=$k+1` |
| ClientService.BothFieldsQuery | services/client/client.go:83-111 | with both fields set the statement is `UPDATE client SET email=$1 ,balance=$2 WHERE ID=$3` |
| ClientService.UpdateStatementAssigns | services/client/client.go:113 | the built statement assigns exactly the set fields |
| ClientService.UpdatedRow | services/client/client.go:113 | the row after the statement is the partial-update result |
| ClientService.Update | services/client/client.go:61-116 | nothing set replies success unchanged; a driver error is replied as failure; otherwise only the addressed row changes, by the partial update |
| ClientService.BalanceUpdateIsAbsoluteAndPositive | services/client/client.go:91-102 | a non-positive requested balance keeps the stored one; a positive one replaces it outright; a changed balance is always positive |
| ClientService.Get | services/client/client.go:130-147 | the 36-byte id check first (`invalid ID` otherwise), then the stored row or no-rows |
| ClientService.Delete | services/client/client.go:118-128 | the 36-byte id check first (`invalid ID` otherwise); a driver error is replied; otherwise the row, if any, is soft-deleted |
| ClientService.List | services/client/client.go:149-161 | exactly the clients that are not soft-deleted, each once |
| FreelancerService.Add | services/freelancer/freelancer.go:47-57 | inserted (balance NULL) if and only if the id is new and the driver succeeds; otherwise the store is unchanged |
| FreelancerService.BuildUpdate | services/freelancer/freelancer.go:79-124 | no statement exactly when details are NULL and email is empty; the description clause is written only when details are valid |
| FreelancerService.AllFieldsQuery | services/freelancer/freelancer.go:83-124 | with details and email set, the exact statement text and its four arguments |
| FreelancerService.UpdateStatementAssigns | services/freelancer/freelancer.go:125 | the built statement assigns exactly the set fields |
| FreelancerService.UpdatedRow | services/freelancer/freelancer.go:125 | the row after the statement is the partial-update result |
| FreelancerService.Update | services/freelancer/freelancer.go:61-128 | nothing set replies success unchanged; a driver error is replied as failure; otherwise only the addressed row changes, by the partial update; the balance column is never written |
| FreelancerService.DescriptionOnlyIsNoOp | services/freelancer/freelancer_test.go:235-236 | a request carrying only a description replies success and changes nothing |
| FreelancerService.DetailsWithoutDescriptionClears | services/freelancer/freelancer.go:83-89 | valid details with a NULL description erase the stored description |
| FreelancerService.Get | services/freelancer/freelancer.go:142-158 | the 36-byte id check first (`invalid ID` otherwise), then the stored row or no-rows |
| FreelancerService.Delete | services/freelancer/freelancer.go:130-140 | the 36-byte id check first (`invalid ID` otherwise); a driver error is replied; otherwise the row, if any, is soft-deleted |
| FreelancerService.List | services/freelancer/freelancer.go:160-172 | exactly the freelancers that are not soft-deleted, each once |
| Listing.SortedRows | services/task/task.go:320 | the rows, each once, in non-decreasing key order |
| Listing.Insert | services/task/task.go:320 | inserting into a sorted list keeps it sorted and adds exactly that row |
| AccountProperties.FailedIdIsRejected | model/model.go:135-141 | the empty id that a failed generation yields is rejected by every Get and Delete without touching the store |
| AccountProperties.CreatedTaskIsRetrievable | services/task/task.go:100-110 | a fresh task created under a generated id is read back by Get exactly as submitted |
| AccountProperties.AddedClientIsRetrievable | services/client/client.go:47-57 | a client added under a generated id is read back with its email and balance |
| AccountProperties.AddedFreelancerIsRetrievable | services/freelancer/freelancer.go:47-57 | a freelancer added under a generated id is read back as submitted, with a balance that reads as zero |
| AccountProperties.FirstFeeBecomesBalance | services/task/task.go:138-144 | a freelancer's NULL balance is read as zero, so its first settled fee becomes its whole balance |
| AccountProperties.DeletedTaskLeavesList | services/task/task.go:279-330 | after a soft delete, `Get` still returns the task with `deleted_at` set, and the client's list loses exactly that task |
| AccountProperties.DeletedClientLeavesList | services/client/client.go:118-161 | after a soft delete, `Get` still returns the client with `deleted_at` set, and the list loses exactly that client |
| AccountProperties.DeletedFreelancerLeavesList | services/freelancer/freelancer.go:130-172 | after a soft delete, `Get` still returns the freelancer with `deleted_at` set, and the list loses exactly that freelancer |

## Behaviour worth knowing

- The create transaction writes the client's balance as an absolute value: the balance in the client service's reply minus the fee. It is not a conditional decrement, so two creates answered with the same reply lose one debit (`TaskProperties.StaleReplyLosesDebit`).
- Not every failure reaches the caller as a `success=false` reply:
  - insufficient funds is returned without a reply;
  - the task Update's driver error and failed task lookup are shadowed, so the handler replies success;
  - a zero-row step in settlement rolls back with a nil error;
  - a zero-row insert in create, or in client/freelancer `New`, calls `Error()` on a nil error and panics (`Outcome.Panicked`).
- Settlement selects the billing row by task id alone and does not check that it is still `locked`, so a second settlement pays again (`TaskProperties.SettlingTwiceCreditsTwice`). It credits the stored task's fee and freelancer.
- The freelancer handler writes the description clause only when the details are valid, whatever the description's own validity.
- The id check counts UTF-8 bytes, not characters (`Model.IdCheckCountsBytes`).

## Left out

- The NATS transport, its five-second request timeout, and the subscriptions made in `init`: requests and replies are plain values, and the client-balance request is the `ClientLookup` parameter.
- JSON encoding and decoding of messages: an undecodable reply is modelled only as the `Undecodable` lookup case.
- Logging through logrus: it has no effect on state.
- Concurrency between handlers, and row-level locking: each handler is one atomic step on the store.
- `tx.Commit` and `Publish` errors: the code ignores the first and only returns the second.
- `int64` overflow of balances and fees: integers are unbounded.
- Column widths and NOT NULL constraints of the schema in main.go (`varchar(36)` ids and client ids, `varchar(128)` emails, `CLIENT_ID ... NOT NULL`): the model enforces only primary keys. A create or add whose id or client id is longer than 36 characters, or whose email is longer than 128, is refused by the database but commits in the model.
- Read errors other than "no rows" on `SELECT`: only the missing-row case is modelled.
- Task `Update` uses one `now` for both `paid_date` and `updated_at`: the code calls `time.Now()` twice.
- `completeTask` has an empty body and is not modelled.
- controller/controller.go and main.go (HTTP routing and wiring) are not part of this model.
- `TaskService.TransferFunds`: `SELECT id FROM billing WHERE task_id=$1` has no `ORDER BY`. The model takes the first row in insertion order, which is one of the orders the database may return.
- `TaskService.Update`: the request's `updated_at` argument is modelled as the time `now`. The NullTime wrapper is not modelled.
- `ClientService.List`, `FreelancerService.List`: row order is unspecified in the code (no `ORDER BY`). The contracts state contents and multiplicity only.
