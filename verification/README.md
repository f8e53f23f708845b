# Verified model of the TQDBProxy core

TQDBProxy sits between clients and MariaDB or PostgreSQL servers. It batches writes of many
connections into one statement, shares one backend fetch among clients that ask for the same
cold cache key, spreads reads over replicas, and speaks both wire protocols. This project models
the parts of that work whose correctness is not visible in any single function, and proves what
they promise for every input, every run or every reachable state.

| file | models |
|---|---|
| `BatchProtocol`, `BatchSafety`, `BatchProgress`, `BatchCompletion`, `BatchTheorems`, `BatchTriggers` | the write-batch manager as a step machine: enqueuers, timers, executors, the group map, group locks, result channels and MariaDB connection mutexes, with every shared-memory operation a step of its own |
| `Delivery` | the shape of what one executor sends: what the step machine accepts from an executor, and what every strategy is proved to produce |
| `BatchStrategies` | the execution strategies and their dispatch, over any backend, with every driver call allowed to fail |
| `Inserts`, `Deletes`, `LoadData`, `Placeholders`, `SqlText`, `SqlValue`, `Decimal` | the statements and payloads these strategies build, and what they do to a table compared with one request after another |
| `ValuesText`, `LiteralText`, `InsertTables`, `DeleteTables` | servers that execute the SQL text the strategies send: on which queries and tables a batch is faithful |
| `SingleFlight` | the leader and waiter protocol of the query cache, as a step machine |
| `ReplicaPool` | the replica pool: round robin, health, hot reload |
| `Options`, `Seqs`, `Bytes`, `MySqlWire`, `ResponseReader`, `ForwardResponse`, `StmtParams`, `SplitQueries`, `QueryGrammar` | shared helpers, and the MySQL side: packets, where a response ends, renumbering in place, parameter decoding, statement splitting |
| `ExtendedQuery`, `ErrorRecovery` | the PostgreSQL extended-query state and message decoding, and what happens after errors |

Concurrent code is modelled by states and actions on values, because its properties are about
interleavings; sequential code that updates things in place is modelled by classes, arrays and
loops, each proved against a specification function.

## What the code does that its comments or the protocols do not say

Each is stated as a lemma, with the exact condition under which the promised behaviour holds and, where
it fails, a concrete input.

- A late caller's `groups.Delete` can unlink a group newer than the full one it means
  (`NewerGroupCanBeUnlinked`); no request is lost even then (`NoRequestLost`).
- A mapped group with a free lock stays below the maximum batch size exactly when that maximum is
  at least 2 (`FreeGroupsNotFullIff`).
- After a rollback `executePreparedBatch` still sends its stored successes: it is all or nothing
  exactly when begin or prepare fails, every statement would succeed in turn, or every statement
  is refused by the database as it is (`PreparedBatchIff`; `MixedBatchMisreports` is a failing batch).
- Requests with unequal parameter counts that happen to add up are inserted as other rows than the
  requested ones (`AgreeIff`; `MisboundRows`). A parameterless INSERT of several rows leaves the
  right table, but tells requests wrong ids and counts (`ParameterlessRefines`,
  `ParameterlessIdsIff`; `OtherRequestsRow`).
- The batched INSERT replaces the VALUES clause by plain placeholders. For a clause that is not a tuple
  of those, it is faithful everywhere exactly when the clause stands for the parameters as they are
  (`ClauseReplacedIff`; `LowerIsLost`). A one-line clause of literal values that ends in a
  comment swallows its repetitions (`RepeatedIsCopiesIff`; `CommentedInsertIsLost`).
- LOAD DATA LOCAL skips rows that violate a key and succeeds, and every request is told success: loading
  is faithful exactly when every row is admitted in turn (`LoadFaithfulIff`; `DuplicateIsSkipped`).
- With a driver that reports no insert id, such as pq, request i of n is told i + 1 - n
  (`ReportedRowIsOwn`); only a batch of one is told what it would be told alone
  (`MultiRowRefinesOneByOne`).
- A batched DELETE tells every request the total count. In a batch of several that does what the
  requests do, that is each one's own count exactly when no row is picked by any
  (`TotalIsOwnCountIff`, `DeleteRepliesIff`; `TotalIsNotOwnCount`).
- The test for a batchable DELETE counts one `=` and one `?`, and takes whatever stands before the `=` for
  the key column and drops whatever stands behind the `?`. The batched text is faithful on a table
  exactly when, on every row, its clause asks what the requests' clause asks for any of the keys
  (`DeleteFaithfulIff`; `AndIsDropped`, `OrIsDropped` and `NotIsMisread` for `A=? AND B`,
  `A=? OR B` and `NOT A=?`).
- A batch of DELETEs in which a request has no parameter panics (`ExecuteBatch`). Such a batch is two text
  queries with a question mark in a string, as in `WHERE A='?'` (`QuotedMarkPanics`).
- A row without fields cannot be told from a row with one empty field in a LOAD DATA payload
  (`PayloadRoundTrip`).
- The text reader does not stop at a LOCAL INFILE request (`TextReaderMissesInfile`), and the
  handler that does see one leaves its flight registered (`InfileLeaksFlight`).
- When a statement of a multi-statement query fails, the remaining statements are still run and
  forwarded, and the result is not one well-formed response (`CombinedIsResponseIff`;
  `ErrorThenOk`).
- A COM_STMT_EXECUTE packet of a statement without parameters is refused as too short
  (`DecodeInvertsEncode`); the decoder panics exactly when it reaches a string whose length carries
  the cursor past 2^63 - 1 (`DecodeCrashesIff`; `HugeLengthCrashes`).
- A Bind with a NULL value is refused: the test for -1 follows an unsigned conversion
  (`BindInvertsEncode`). Closing a portal leaves it executable, without values
  (`ClosedPortalStillRuns`; `ClosedPortalRuns`).
- After an error the proxy does not discard messages up to the next Sync, whether it rejects the message
  or the backend refuses an execution. Its state is that of the run that discards exactly when no
  message in between changes the state (`StatesAgreeIff`), and it executes what that run executes
  exactly when none in between changes the state or executes something (`ExecutionsAgreeIff`).
  `FailedExecuteRunsNext` is a pipeline that goes on after a refused execution,
  `QueryAfterRejectedBind` a simple query behind a malformed Bind, and `NullBindRunsOldValue` a
  Bind of NULL followed by Execute, which runs the values bound before.

## Model

| member | source | states |
|---|---|---|
| `BatchTheorems.InvStep` | writebatch/manager.go:81-133 | every step of every goroutine keeps the invariant: lookups, locks and places are consistent, each request is in at most one queue or batch, results match deliveries, mutex holders are newest, no non-empty group lacks a trigger |
| `BatchTheorems.InvRun` | writebatch/manager.go:81-133 | the invariant holds along every run, whatever the interleaving |
| `BatchTheorems.DrainedByOneExecutor` | writebatch/executor.go:34-39 | no request is in two batches or twice in one: at most one executeBatch drains it |
| `BatchTheorems.AcceptedRequestAccounted` | writebatch/manager.go:103-133 | an accepted request is in exactly one live queue or one batch, and has been sent one result exactly if its batch's delivery has passed it |
| `BatchTheorems.SendsNeverBlock` | writebatch/executor.go:34-63 | every send finds the capacity-1 channel empty, and an ended executor has sent each request of its batch exactly one result |
| `BatchTheorems.NoRequestLost` | writebatch/manager.go:103-133 | every non-empty group, mapped or not, has an armed timer, a caller about to trigger it, or an executor about to drain it |
| `BatchTheorems.NewerGroupCanBeUnlinked` | writebatch/manager.go:121-131 | a concrete run in which the unconditional Delete unlinks a newer, non-empty group |
| `BatchTheorems.RetryNotPermanent` | writebatch/manager.go:105-110 | a drained group still mapped has an executor whose compare-and-delete is enabled and unmaps it, so a caller's retry ends |
| `BatchTheorems.FreeGroupsNotFullIff` | writebatch/manager.go:112-131 | in all reachable states mapped groups with a free lock hold fewer than the maximum, if and only if the maximum is at least 2 |
| `BatchTriggers.BoundIsTight` | writebatch/manager.go:112-131 | for every maximum of at least 2, a reachable state has a mapped group with a free lock and one request less than the maximum |
| `BatchTriggers.OnlyFullGroupsTriggered` | writebatch/manager.go:121-131 | a caller unlinks a group, stops its timer and starts an executor only after the group has received the maximum, and an executor whose group's timer has not fired was started so |
| `BatchTriggers.SmallBatchesWaitForTheirTimer` | writebatch/manager.go:114-131 | a batch of fewer than the maximum is executed only because its timer fired |
| `BatchTriggers.LiveGroupsStayMapped` | writebatch/executor.go:41-42 | a group that has not been drained leaves the map by a caller's Delete for its key and by nothing else: a compare-and-delete leaves a newer group mapped |
| `BatchTriggers.TriggersRun` | writebatch/manager.go:103-131 | counts, timers, callers that found a group full, and executors stay consistent along every run |
| `BatchTheorems.OnlyStaleCallersJoin` | writebatch/manager.go:91-131 | an unlinked group stays unlinked, and whoever is ever in it or its batch had looked it up before it was unlinked |
| `BatchTheorems.NoDeadlock` | mariadb/mariadb.go:1680-1715 | in every reachable state that is not settled a step other than an arrival, a cancellation or a fruitless lookup is enabled, connection mutexes and callbacks included |
| `BatchTheorems.ProductiveRunsAreBounded` | writebatch/manager.go:81-133 | however productive steps are scheduled, their number is bounded by a measure of the starting state |
| `BatchTheorems.EveryReachableStateSettles` | writebatch/executor.go:22-72 | from every reachable state the system can run to a settled one, and then every call has been sent exactly one result |
| `BatchTheorems.SettledIsAnswered` | writebatch/executor.go:34-63 | in a settled state every call has been sent exactly one result |
| `BatchSafety.StructureStep` | writebatch/manager.go:91-133 | every action keeps the group map, the group locks, and the one place of each request consistent |
| `BatchSafety.TrafficStep` | writebatch/executor.go:763-773 | every action keeps sent results, channel fill, mutex ownership and drain order consistent |
| `BatchSafety.NoLostRequestStep` | writebatch/manager.go:103-133 | every action keeps a trigger for every non-empty group |
| `BatchSafety.DeadGroupsDetachStep` | writebatch/executor.go:34-42 | every action keeps an executor between drain and compare-and-delete for each drained group in the map |
| `BatchSafety.MappedNotFullStep` | writebatch/manager.go:112-131 | every action keeps mapped groups below the maximum, or locked by the caller about to unlink them |
| `BatchProgress.NextEventOk` | writebatch/executor.go:321-327 | a delivery's next send is enabled; a callback comes only after its own request's result was sent |
| `BatchProgress.WaitsForLaterDrain` | writebatch/executor.go:831-841 | an executor blocked in a callback waits for a handler whose batch was drained strictly later |
| `BatchProgress.SomeStepEnabled` | mariadb/mariadb.go:616-640 | a productive step is found in every unsettled state that satisfies the invariant |
| `BatchCompletion.MeasureDown` | writebatch/manager.go:81-133 | every productive step decreases the measure, callbacks and woken stale callers included |
| `Delivery.EachSentOnce` | writebatch/executor.go:831-841 | a delivery sends each request of the batch exactly one result, nobody else anything, and calls back at most once |
| `BatchStrategies.SendErrors` | writebatch/executor.go:899-905 | the error loop is a delivery in which every request gets the error and nobody is called back |
| `BatchStrategies.SendStored` | writebatch/executor.go:303-310 | the loop after a rollback is a delivery of the stored results without callbacks |
| `BatchStrategies.SendReplies` | writebatch/executor.go:320-327 | the success loop is a delivery of the results in order, each before its callback, and calls back exactly the requests with one |
| `BatchStrategies.ExecuteSingle` | writebatch/executor.go:117-120 | one result, which is the statement's own, and no callback; all or nothing |
| `BatchStrategies.ExecuteTransactionBatch` | writebatch/executor.go:897-946 | exactly one result each: the first error of begin, the statements in turn and commit, with nothing changed, or each statement's own result with all applied in order; called back exactly on success |
| `BatchStrategies.OwnResultAt` | writebatch/executor.go:909-934 | result i is what statement i reports on the database that those before it leave |
| `BatchStrategies.ExecutePreparedBatch` | writebatch/executor.go:240-328 | exactly one result each; the database after and the results sent for every combination of failures; all or nothing exactly on the condition of `PreparedBatchIff` |
| `BatchStrategies.PreparedBatchIff` | writebatch/executor.go:240-328 | a prepared batch is all or nothing if and only if begin or prepare fails, all requests can be applied in turn, or the database as it is refuses every one of them |
| `BatchStrategies.MixedBatchMisreports` | writebatch/executor.go:303-310 | a concrete batch of two that is rolled back although its first request is told success |
| `BatchStrategies.ExecutePreparedFallback` | writebatch/executor.go:865-894 | exactly one result each, that of its own statement, sent before the next statement runs, with no transaction around them; called back exactly if it succeeded |
| `BatchStrategies.ExecuteMultiRow` | writebatch/executor.go:706-842 | builds and issues the multi-row text (or the repeated clause) with its arguments; exactly one result each; on success ids consecutive from the normalised first id, on error the error for all and no change; all or nothing if that text is faithful |
| `BatchStrategies.ExecuteCopy` | writebatch/executor.go:471-554 | exactly one result each: that of the multi-row statement without a parse or prepared statement, or the first error of begin, the rows, the flush, close and commit with nothing changed, or success for all; all or nothing if the forms are faithful |
| `BatchStrategies.ExecuteLoadData` | writebatch/executor.go:558-637 | builds and issues the payload; exactly one result each: that of the multi-row statement without a parse or after a refused load, or the error of begin or commit, or success for all; all or nothing if the forms are faithful |
| `BatchStrategies.ExecuteDelete` | writebatch/executor.go:189-236 | builds and issues the IN text with the keys; panics exactly if a request has no parameter; else exactly one result each, the total count on success; all or nothing if that text is faithful |
| `BatchStrategies.ExecuteInsert` | writebatch/executor.go:359-383 | the outcome of the bulk mechanism that applies, or of the multi-row statement, for every combination of failures; all or nothing if the forms the batch may take are faithful |
| `BatchStrategies.AllSame` | writebatch/executor.go:124-132 | finds out whether all queries are identical |
| `BatchStrategies.ExecuteBatch` | writebatch/executor.go:123-148 | the batch is a delivery, or panics, exactly if it is a batch of several DELETEs of which one has no parameter; what it leaves and tells for every path and combination of failures: the statement's own result alone, the transaction's for mixed queries, the INSERT's, DELETE's or prepared outcome else; called back exactly on success of a batch of several; all or nothing on the stated conditions |
| `SqlText.BatchableInsertHasValues` | writebatch/executor.go:331-356 | a query dispatched as a batchable INSERT contains VALUES, so the one-by-one fallback is never reached from there |
| `SqlText.BatchableDeleteHasWhere` | writebatch/executor.go:151-186 | a query dispatched as a batchable DELETE has a WHERE where the executor slices it |
| `SqlText.SkipCommentsIsStretch` | writebatch/executor.go:333-346 | what is left after skipping leading comments is a stretch of the query |
| `SqlText.CommentIsSkipped` | writebatch/executor.go:333-346 | a leading comment is skipped, whatever follows |
| `SqlText.PlainInsertIff` | writebatch/executor.go:349-356 | a plain INSERT passes the dispatch test if and only if it ends with a parenthesis |
| `SqlText.BatchableInsertEndsInParenthesis` | writebatch/executor.go:349-356 | the space that the test allows at the end never occurs: it has been trimmed |
| `SqlText.BuildRepeated` | writebatch/executor.go:728-751 | the text is the VALUES clause once per request, separated by commas |
| `ValuesText.GeneratedTextIsRead` | writebatch/executor.go:791-814 | a server that reads tuples of placeholders reads the generated rows as the tuples they stand for |
| `InsertTables.InsertFaithfulIff` | writebatch/executor.go:359-383 | for a query whose VALUES clause is one tuple of plain placeholders and equal parameter counts, the forms the batch may take are faithful on a table that checks row widths if and only if it is not loaded with LOAD DATA or every row is admitted in turn |
| `InsertTables.AdmittedBatchSucceeds` | writebatch/executor.go:359-383 | end to end: without driver failures, rows that the table admits in turn are added and every request is told success with one row, on the multi-row path with the id of its own row |
| `InsertTables.OwnInsertResults` | writebatch/executor.go:920-927 | what single INSERTs report: one row each and consecutive ids, or none with a driver that reports none |
| `InsertTables.PreparedInsertResults` | writebatch/executor.go:268-300 | what a prepared batch of INSERTs tells: with RETURNING one row and the returned id, otherwise one row and the insert id |
| `InsertTables.LoadFaithfulIff` | writebatch/executor.go:596-636 | LOAD DATA LOCAL, which skips refused rows, is faithful if and only if every row is admitted in turn |
| `InsertTables.DuplicateIsSkipped` | writebatch/executor.go:596-636 | two requests with the same value of a unique column: the load succeeds with one row, the single INSERTs fail |
| `InsertTables.ClauseReplacedIff` | writebatch/executor.go:723-725 | for a clause that is not a tuple of plain placeholders, the batched text is faithful with every server and table if and only if the clause stands for the parameters as they are |
| `InsertTables.LowerIsLost` | writebatch/executor.go:723-725 | a clause that lower-cases its placeholder is not faithful |
| `InsertTables.LiteralInsertFaithful` | writebatch/executor.go:728-775 | for a query that carries its values in its text, of any number of rows, the repeated clause does what the requests do one after another, if the server reads a repeated clause as its rows repeated |
| `InsertTables.ClosedClauseRepeats` | writebatch/executor.go:743-749 | a server that reads literal tuples with quotes and comments reads a repeated clause as its rows repeated, if the clause does not end in a comment |
| `LiteralText.RepeatedIsCopiesIff` | writebatch/executor.go:743-749 | a one-line clause that is read by itself is read as its tuples repeated, when repeated, if and only if it does not end in a comment |
| `InsertTables.CommentedInsertIsLost` | writebatch/executor.go:728-775 | two requests whose clause ends in a comment insert one row and are told success |
| `InsertTables.LiteralReplies` | writebatch/executor.go:753-775 | what such a batch is told is what the parameterless reference outcome tells |
| `InsertTables.MultiRowInserts` | writebatch/executor.go:777-821 | whatever the clause was, the server executes the generated text and arguments as the insertion of the requests' parameters as rows |
| `InsertTables.ReplyIdIsOwnRow` | writebatch/executor.go:826-842 | the id sent to request i is that of a new row holding request i's own parameters |
| `DeleteTables.DeleteBackendFaithful` | writebatch/executor.go:189-236 | for `WHERE col = ?` on a column and one parameter each, the IN text does what the requests do one after another, on every table |
| `DeleteTables.DeleteFaithfulIff` | writebatch/executor.go:189-215 | whatever the clause, the IN text is faithful on a table if and only if the server accepts it only with the requests' own clause and the two agree on every row |
| `DeleteTables.DispatchedAsDelete` | writebatch/executor.go:168-186 | any clause with one equals sign and, behind it, one question mark passes the dispatch test, and what stands before the equals sign is taken for the key column |
| `DeleteTables.DispatchIff` | writebatch/executor.go:168-186 | such a query passes the dispatch test if and only if its clause has one equals sign and one question mark |
| `DeleteTables.BatchedTextOfTwo` | writebatch/executor.go:189-215 | two requests of any such clause are sent as the text before WHERE, the text before the equals sign, and a list of two |
| `DeleteTables.AndIsDropped` | writebatch/executor.go:189-215 | two requests of `A=? AND B` are not faithful on a table with a row that has a key and does not meet B |
| `DeleteTables.OrIsDropped` | writebatch/executor.go:189-215 | two requests of `A=? OR B` are not faithful on a table with a row that meets B and has no key |
| `DeleteTables.NotIsMisread` | writebatch/executor.go:189-215 | two requests of `NOT A=?` are not faithful on a table with a row that has one of the keys |
| `DeleteTables.QuotedMarkPanics` | writebatch/executor.go:212-215 | two parameterless queries with a question mark in a string are dispatched to the strategy that indexes their parameters |
| `DeleteTables.DeleteRepliesIff` | writebatch/executor.go:225-235 | where the batch agrees with the requests' clause, what every request of a batch of several is told is its own count if and only if no row is picked by any |
| `DeleteTables.OwnDeleteResults` | writebatch/executor.go:920-927 | what single DELETEs report: each its own count |
| `InsertTables.LoadedIsWritten` | writebatch/executor.go:569-580 | the rows the server reads from the LOAD DATA payload are the requests' rows |
| `Inserts.MultiRowRefinesOneByOne` | writebatch/executor.go:777-842 | with equal parameter counts the multi-row INSERT succeeds exactly when all single ones would and leaves the same table; the requests are told the same ids and counts if and only if the driver reports ids or the batch is one request |
| `Inserts.ReportedRowIsOwn` | writebatch/executor.go:847-852 | with a driver that reports the first or the last id, the id told to request i belongs to the new row carrying its own values; with one that reports none it is i + 1 - n |
| `Inserts.AgreeIff` | writebatch/executor.go:777-818 | with a driver that reports ids, batch and single inserts agree on all tables if and only if the counts are equal or do not add up |
| `Inserts.MisboundRows` | writebatch/executor.go:777-818 | three requests with one, no and two parameters are inserted as three rows that are not theirs, where single inserts fail |
| `Inserts.ParameterlessRefines` | writebatch/executor.go:728-775 | repeating a parameterless VALUES clause leaves the table of n separate executions; the requests are told the same if and only if the clause is a single row and the driver reports ids or the batch is one request |
| `Inserts.ParameterlessIdsIff` | writebatch/executor.go:728-775 | every request is told an id of its own copy of the clause if and only if the clause is a single row, and likewise with the affected count included |
| `Inserts.OtherRequestsRow` | writebatch/executor.go:728-775 | two requests of a two-row clause: the second is told the id of the first one's second row |
| `Inserts.TextDenotesTuples` | writebatch/executor.go:777-814 | the generated text is the rendering of the tuples whose execution is modelled |
| `Inserts.MultiRowBinds` | writebatch/executor.go:793-818 | the statement binds request i's parameters to row i, for `?` and `$n` placeholders |
| `Placeholders.ContainsPostgresPlaceholder` | writebatch/executor.go:855-862 | true exactly if some `$` is followed by a digit |
| `Placeholders.CountPostgresParams` | postgres/postgres.go:969-986 | the largest placeholder number in the text that fits an int |
| `Placeholders.BuildMultiRow` | writebatch/executor.go:777-818 | the text is that of n rows of p placeholders, and the arguments are all parameters in order |
| `Placeholders.PlaceholdersMatchArguments` | writebatch/executor.go:777-818 | a base without placeholders gives a text numbered 1 to n*p, whose count is the number of arguments |
| `Placeholders.ArgumentOfPlaceholder` | writebatch/executor.go:793-818 | argument r*p+c+1 is parameter c of request r |
| `Deletes.DeleteInRefinesDeleteEach` | writebatch/executor.go:189-236 | a list of keys leaves the rows that the deletes in order leave, duplicates and NULLs included, and counts their sum |
| `Deletes.ListRefinesEachIff` | writebatch/executor.go:189-236 | for any clauses, one DELETE with a list leaves what the single deletes leave if and only if the two agree on every row |
| `Deletes.TotalIsOwnCountIff` | writebatch/executor.go:225-235 | for at least two keys, where the list agrees with the single clause, the total is every request's own count if and only if no row is picked by any |
| `Deletes.TotalIsNotOwnCount` | writebatch/executor.go:225-235 | a concrete table and two keys whose own counts are 1 and 0 and whose total is 1 |
| `Deletes.DroppedAndIff` | writebatch/executor.go:189-215 | dropping `AND cond` is harmless on a table if and only if every row with one of the keys meets it |
| `Deletes.DroppedOrIff` | writebatch/executor.go:189-215 | dropping `OR cond` is harmless on a table if and only if every row that meets it has one of the keys |
| `Deletes.BuildDelete` | writebatch/executor.go:196-216 | the text has one placeholder per request, and the keys are the first parameters in order |
| `Deletes.InTextOfTwo` | writebatch/executor.go:196-210 | the text for two keys, spelled out |
| `Deletes.MarksAre` | writebatch/executor.go:202-209 | the list is n question marks with commas between |
| `LoadData.EscapeLoadDataString` | writebatch/executor.go:686-703 | the loop computes the escaping of the string |
| `LoadData.EscapeIsNotNull` | writebatch/executor.go:641-703 | no string, `\N` included, is escaped to the NULL marker |
| `LoadData.EscapeHasNoControls` | writebatch/executor.go:686-703 | no tab, newline or carriage return of a string reaches the payload as it is |
| `LoadData.FieldRoundTrip` | writebatch/executor.go:641-703 | reading back a formatted parameter gives its value, NULL included |
| `LoadData.WriteRow` | writebatch/executor.go:571-579 | a row is its formatted fields separated by tabs |
| `LoadData.BuildPayload` | writebatch/executor.go:569-580 | the payload is the rows, each ended by a newline |
| `LoadData.PayloadRoundTrip` | writebatch/executor.go:569-580 | reading the payload by the default rules returns the rows, if and only if no row is empty |
| `SingleFlight.InvStep` | cache/cache.go:77-123 | every step keeps: a registered flight is open and its leader has yet to notify; a taken one is closed at most once |
| `SingleFlight.InvRun` | cache/cache.go:77-123 | the invariant holds along every run |
| `SingleFlight.OneLeaderPerFlight` | cache/cache.go:84-101 | each flight has exactly one leader |
| `SingleFlight.ClosedAtMostOnce` | cache/cache.go:106-123 | whoever is about to close a channel finds it open and is alone, racing and timed-out notifiers included |
| `SingleFlight.WaiterIsServed` | cache/cache.go:84-97 | a blocked waiter's flight is registered, about to be closed, or closed |
| `SingleFlight.JoinersWait` | cache/cache.go:84-97 | a caller that joined a flight is blocked on it, has timed out, or the flight is closed |
| `SingleFlight.OnlyLeaderFetches` | cache/cache.go:84-101 | without timeouts and until a flight is closed, exactly the leader among those registered on it is not blocked |
| `SingleFlight.SecondHandlerBlocks` | cache/cache.go:84-97 | a concrete run in which a second handler of a cold key blocks |
| `SingleFlight.EndsWithAnswer` | mariadb/mariadb.go:719-774 | nobody ends or notifies without an answer from the cache or its own fetch |
| `SingleFlight.NoFlightLeftBehind` | mariadb/mariadb.go:719-771 | when no handler runs, only leaders that returned for LOCAL INFILE have left a flight |
| `SingleFlight.InfileLeaksFlight` | mariadb/mariadb.go:719-771 | a concrete run in which a LOCAL INFILE answer leaves its flight registered |
| `SingleFlight.StepsRunOut` | postgres/postgres.go:546-711 | every step but an arrival brings its handler closer to its end |
| `SingleFlight.NoTimeoutNeeded` | cache/cache.go:84-97 | while a handler runs and none has leaked, a step other than a timeout, a LOCAL INFILE answer or an arrival is enabled |
| `SingleFlight.EveryHandlerCanEnd` | cache/cache.go:77-123 | from every reachable state without a leak a run without timeouts, LOCAL INFILE answers and arrivals ends with all handlers done and no flight left |
| `SingleFlight.RunsAreBounded` | cache/cache.go:77-123 | every run without arrivals is at most as long as the work left at its start |
| `ReplicaPool.Pool.constructor` | replica/pool.go:22-37 | a new pool is valid, starts at slot 0, and all replicas are healthy |
| `ReplicaPool.Pool.UpdateReplicas` | replica/pool.go:40-65 | a known replica keeps its health, a new one is healthy, no other is known, the index stays in range |
| `ReplicaPool.Pool.GetReplica` | replica/pool.go:74-98 | returns the next healthy slot in cyclic order and moves past it; the primary exactly if no slot is healthy |
| `ReplicaPool.Pool.MarkUnhealthy` | replica/pool.go:101-111 | only a known address changes |
| `ReplicaPool.Pool.MarkHealthy` | replica/pool.go:114-124 | only a known address changes |
| `ReplicaPool.DistanceIff` | replica/pool.go:74-98 | the search finds a slot if and only if one is healthy |
| `ReplicaPool.PicksAreWindow` | replica/pool.go:82-95 | successive calls walk the healthy slots of a cyclic window in order |
| `ReplicaPool.EachHealthySlotOnce` | replica/pool.go:74-98 | as many successive calls as there are healthy slots return each of them exactly once |
| `ReplicaPool.TakeTurns` | replica/pool.go:74-98 | k calls of GetReplica in a row return the first k picks |
| `ResponseReader.ReadResponse` | mariadb/mariadb.go:1438-1512 | the loop reads a prefix of the stream, byte for byte, and ends where the packet rules say |
| `ResponseReader.StopsAtResponseEnd` | mariadb/mariadb.go:1438-1512 | both readers stop exactly at the end of every well-formed response, whatever follows it |
| `ResponseReader.FollowResponse` | mariadb/mariadb.go:1206-1274 | over the packets of a chain of OKs, errors and result sets the reader goes on at every packet but the last |
| `ResponseReader.TextReaderMissesInfile` | mariadb/mariadb.go:1438-1512 | the text reader never stops right after a LOCAL INFILE request |
| `MySqlWire.OkStatusFound` | mariadb/mariadb.go:1470-1490 | the status flags of every well-formed OK packet are found behind its two length-encoded integers |
| `MySqlWire.OnlyMoreResultsChanges` | mariadb/mariadb.go:1540-1560 | setting the flag changes no other bit of the status byte |
| `ForwardResponse.ClientConn.ForwardBackendResponse` | mariadb/mariadb.go:1515-1570 | on the flat buffer of any packet list the bytes written are those of the forwarded list, the sequence advances by the packet count, and the input buffer is unchanged |
| `ForwardResponse.ClientConn.WriteOk` | mariadb/mariadb.go:1576-1590 | the proxy's own OK is written as a one-packet response would be forwarded, flag and number included |
| `ForwardResponse.ClientConn.WriteError` | mariadb/mariadb.go:1592-1602 | the proxy's own error is written as a one-packet response would be forwarded |
| `ForwardResponse.SetMoreResults` | mariadb/mariadb.go:1538-1563 | patching the flat buffer in place is marking the last packet |
| `ForwardResponse.ForwardedPackets` | mariadb/mariadb.go:1515-1570 | same packet count and lengths, numbers s0+j+1 mod 256, and only the more-results bit of the final OK or EOF may differ |
| `ForwardResponse.ForwardedIsMarkedResponse` | mariadb/mariadb.go:1538-1563 | forwarding with the flag turns the packets of a response into those of the marked response |
| `ForwardResponse.ResponsesChain` | mariadb/mariadb.go:1515-1570 | a marked response followed by the next is one well-formed response if and only if the first does not end in an error |
| `ForwardResponse.ClientConn.ForwardQuery` | mariadb/mariadb.go:600-614 | what is written for a query of any number of statements, relayed or answered by the proxy with its own OK or error, is the list of their answers, numbered on, all but the last marked |
| `ForwardResponse.CombinedIsResponseIff` | mariadb/mariadb.go:600-614 | what the client receives for a query is one well-formed response if and only if no statement but the last ends in an error |
| `ForwardResponse.ErrorThenOk` | mariadb/mariadb.go:600-614 | a failed statement followed by a successful one is forwarded as no well-formed response |
| `ForwardResponse.QueryIsOneResponse` | mariadb/mariadb.go:600-614 | the client's reader finds exactly the end of what was forwarded for a query whose earlier statements do not end in an error |
| `StmtParams.DecodeStmtParams` | mariadb/mariadb.go:931-1001 | the method computes the decoding that `DecodeMeans`, `DecodeCrashesIff` and `DecodeInvertsEncode` characterise |
| `StmtParams.DecodeLoop` | mariadb/mariadb.go:968-1000 | the value loop computes the decoding of the remaining parameters |
| `StmtParams.DecodeValue` | mariadb/mariadb.go:1004-1069 | the cursor never moves back or past the buffer |
| `StmtParams.ValueMeans` | mariadb/mariadb.go:1004-1069 | a value is decoded if and only if its bytes are its encoding in the protocol's type, up to a non-canonical length prefix |
| `StmtParams.OtherTypeRefused` | mariadb/mariadb.go:1066-1067 | a type other than the six is refused |
| `StmtParams.ValueRoundTrip` | mariadb/mariadb.go:1004-1069 | an encoded value decodes to itself and the cursor ends right behind it |
| `StmtParams.LenEncRoundTrip` | mariadb/mariadb.go:1072-1098 | length-encoded integers below 2^64 decode to themselves |
| `StmtParams.BitmapBit` | mariadb/mariadb.go:971-977 | the NULL bit of parameter i is set exactly if it is NULL |
| `StmtParams.DecodeInvertsEncode` | mariadb/mariadb.go:931-1001 | decoding inverts the protocol encoding for every non-empty parameter list; the empty one is refused |
| `StmtParams.DecodeMeans` | mariadb/mariadb.go:931-1001 | a packet is decoded to a list of values if and only if it says that list: NULL exactly at the set bits, elsewhere the values that stand one behind the other in the encodings of their types |
| `StmtParams.DecodedIsTyped` | mariadb/mariadb.go:968-1000 | a decoded packet has as many values as parameters, NULL exactly at the set bits, and one of the six types at every other |
| `StmtParams.OtherTypeFails` | mariadb/mariadb.go:993-997 | a packet with a non-NULL parameter of another type fails where the decoder reaches it |
| `StmtParams.UntypedFails` | mariadb/mariadb.go:980-990 | a packet without types and with a non-NULL parameter fails |
| `StmtParams.PanicsIff` | mariadb/mariadb.go:1048-1060 | a string value panics if and only if its length carries the cursor past 2^63 - 1 |
| `StmtParams.DecodeCrashesIff` | mariadb/mariadb.go:931-1001 | decoding a packet panics if and only if it has its types and a string parameter that the decoder reaches overflows the cursor |
| `StmtParams.HugeLengthCrashes` | mariadb/mariadb.go:1048-1060 | a packet with one string parameter of announced length 2^64 - 1 panics |
| `SplitQueries.SplitQueries` | mariadb/mariadb.go:1813-1854 | the loop computes the trimmed, non-empty segments |
| `SplitQueries.SegmentsRebuildQuery` | mariadb/mariadb.go:1813-1854 | the untrimmed segments joined by `;` are the query |
| `SplitQueries.CutsAreGlobal` | mariadb/mariadb.go:1813-1854 | the positions of the cuts are those of the separators that one continuous scan of the whole query sees |
| `QueryGrammar.CutsAreSemicolons` | mariadb/mariadb.go:1813-1854 | for a query given by its grammar (plain runes, backslash pairs, quoted strings, possibly an unclosed end) the cuts are exactly the plain semicolons |
| `QueryGrammar.TokensOf` | mariadb/mariadb.go:1813-1854 | every text has that grammar |
| `QueryGrammar.PiecesHaveNoSemicolon` | mariadb/mariadb.go:1813-1854 | a statement that comes out has no plain semicolon, however it is made of tokens |
| `QueryGrammar.QuoteInQuotes` | mariadb/mariadb.go:1829-1838 | a quote inside quotes of another kind closes nothing |
| `SplitQueries.PiecesAreStatements` | mariadb/mariadb.go:1813-1854 | every piece is trimmed, non-empty and has no unquoted, unescaped `;` |
| `SplitQueries.StatementsKeepEverything` | mariadb/mariadb.go:1813-1854 | the statements that come out are the segments in order, but for white space |
| `SplitQueries.TrimDropsOnlySpaces` | mariadb/mariadb.go:1841-1851 | trimming drops white space at both ends and nothing else |
| `SplitQueries.ResplitIsIdentity` | mariadb/mariadb.go:1813-1854 | a piece splits into just itself |
| `ExtendedQuery.Connection.HandleParse` | postgres/postgres.go:869-890 | the statement map gains the parsed text, or nothing changes and the message is rejected |
| `ExtendedQuery.Connection.HandleBind` | postgres/postgres.go:990-1059 | both portal maps gain the Bind's entries exactly if it is well formed and its statement is open; otherwise nothing changes |
| `ExtendedQuery.BindValues` | postgres/postgres.go:1015-1051 | the loop reads the specified values, or reports them incomplete |
| `ExtendedQuery.Connection.HandleExecute` | postgres/postgres.go:1063-1091 | the query and values looked up for the portal, executed with success or refused |
| `ExtendedQuery.Connection.HandleDescribe` | postgres/postgres.go:895-963 | which statement is described, and when Describe is rejected |
| `ExtendedQuery.Connection.HandleClose` | postgres/postgres.go:1326-1352 | the effect of Close on the maps, malformed payloads included |
| `ExtendedQuery.Connection.HandleMessages` | postgres/postgres.go:425-470 | the state is that of the run of messages up to Terminate, and each reply, for refused executions, Sync, simple queries and after rejected Parse and Bind included, is the one its state calls for |
| `ExtendedQuery.AnswerIff` | postgres/postgres.go:435-470 | which message gets which answer, both ways |
| `ExtendedQuery.QueryTextOf` | postgres/postgres.go:478-482 | the NUL behind a simple query is not part of it |
| `ExtendedQuery.ParseInvertsEncode` | postgres/postgres.go:869-883 | reading a Parse message gives back its name and text |
| `ExtendedQuery.BindInvertsEncode` | postgres/postgres.go:990-1051 | reading a Bind message gives back its portal, statement and values if and only if no value is NULL; otherwise it is refused |
| `ExtendedQuery.ExecuteInvertsEncode` | postgres/postgres.go:1066-1071 | reading an Execute message gives back its portal |
| `ExtendedQuery.CloseInvertsEncode` | postgres/postgres.go:1326-1342 | reading a Close message gives back its kind and name |
| `ExtendedQuery.UnterminatedClose` | postgres/postgres.go:1326-1342 | a Close without its NUL takes a name that lacks its last byte; shorter payloads and other kinds close nothing |
| `ExtendedQuery.PreparedIsHistory` | postgres/postgres.go:885-886 | a statement is open with a text exactly if that text was last parsed under its name and the name was not closed since |
| `ExtendedQuery.PortalIsHistory` | postgres/postgres.go:1053-1055 | a portal is attached to the statement of its last accepted Bind and holds that Bind's values exactly until it is closed |
| `ExtendedQuery.ExecuteIsHistory` | postgres/postgres.go:1073-1091 | Execute runs a query with values if and only if the message history says so |
| `ExtendedQuery.ExecuteUsesLastBind` | postgres/postgres.go:1073-1091 | on a portal still bound whose statement is open, Execute uses the text last parsed under the statement last bound there, and exactly that Bind's values |
| `ExtendedQuery.ClosedPortalStillRuns` | postgres/postgres.go:1343-1348 | after closing a portal, Execute still runs its statement, without values |
| `ExtendedQuery.ClosedPortalRuns` | postgres/postgres.go:1343-1348 | for every query and value: after Parse, Bind, Close of the portal and Sync, Execute runs the query without the value |
| `ErrorRecovery.StatesAgreeIff` | postgres/postgres.go:425-470 | for every outcome of the executions, the state after every prefix is that of the run that discards messages after an error up to Sync, if and only if no discarded message changes the state |
| `ErrorRecovery.ExecutionsAgreeIff` | postgres/postgres.go:425-470 | for every outcome of the executions, state and executions, simple queries included, are those of that run after every prefix, if and only if no discarded message changes the state or executes something |
| `ErrorRecovery.NullBindRunsOldValue` | postgres/postgres.go:990-1091 | for every query and value: after Parse, Bind of the value, Bind of NULL and Execute the proxy has executed the query with the old value, and the run that discards nothing (the protocol itself accepts NULL) |
| `ErrorRecovery.FailedExecuteRunsNext` | postgres/postgres.go:455-459 | for any two queries in one pipeline of which the first is refused by the backend, the proxy executes the second, the run that discards does not |
| `ErrorRecovery.QueryAfterRejectedBind` | postgres/postgres.go:436-450 | a simple query behind a malformed Bind is executed, which the run that discards does not |

## Left out

- The manager and the cache as objects: `Manager` and `Cache` are modelled as step machines on values, not as classes, so aliasing of Go pointers is replaced by ids.
- `Close` of the manager: its branch of `executeBatch` does not drain the group, so the exactly-once results are stated for runs without it.
- BatchTheorems.EveryReachableStateSettles: every strategy is taken to end with a delivery; the panic of a batch of DELETEs without parameters ends the process.
- `executeImmediate`, the path for `batchMs` 0: a single statement outside the protocol.
- Cancellation of callers that hold a connection mutex: MariaDB handlers pass a background context, so only callers without a mutex are cancelled in the model.
- Wall-clock time: timers and the 15-second wait are steps that may happen at any moment; backend I/O is assumed to finish.
- Sockets, dialing, handshake, authentication, deadlines, TLS.
- The in-memory store of the cache and its freshness flags: what a lookup returns is up to the action that models it.
- The database drivers: a statement has an arbitrary effect or fails without one; a RETURNING value that cannot be scanned counts as such a failure, and a PostgreSQL transaction that is aborted by its first error is not distinguished from one that goes on.
- `mysql.ReadLengthEncodedInteger` of the patched MySQL driver: third_party code is not part of this model; its published behaviour is assumed, including the index panic on short input.
- `parser.Parse`, shard selection, transaction and backend affinity: inputs of what is modelled.
- `parseInsertStatement` and `allParamsAreSimple`: whether they succeed are inputs.
- InsertTables.ClauseReplacedIff: a clause stands for rows; a text with more behind it than rows, such as ON DUPLICATE KEY UPDATE, which the batched text also loses, is not modelled.
- InsertTables.LiteralInsertFaithful: that a server reads a repeated clause as its rows repeated is a premise, proved of the reader in `LiteralText`; that reader knows comments up to the end of the line between tuples and no block comments.
- InsertTables.LoadFaithfulIff: skipped rows take no ids, and fields that do not fit their column are not converted.
- DeleteTables.DeleteFaithfulIff: a clause is a test of each row by itself; LIMIT and ORDER BY, which the batched text also loses, are not modelled.
- Inserts.MultiRowRefinesOneByOne: ids are unbounded integers, not 64-bit ones.
- LoadData.FieldRoundTrip: strings and byte slices are sequences of runes, so invalid UTF-8 is not modelled; a float is given by the text that formatting it yields.
- InsertTables.LoadedIsWritten: column values are texts, so type conversions by the server are not modelled.
- SqlText.BatchableInsertHasValues: SQL text is ASCII; upper-casing that changes byte lengths is not modelled.
- SplitQueries.SegmentsRebuildQuery: queries are sequences of runes; the code replaces each byte of invalid UTF-8 by U+FFFD, so bytes are kept for valid UTF-8 only.
- StmtParams.DecodeStmtParams: the number of placeholders is an input, where the code counts question marks, those inside literals included; types outside the listed six are refused as in the code.
- ResponseReader.StopsAtResponseEnd: payloads of 2^24 - 1 bytes and more, split over packets, and connections that negotiated CLIENT_DEPRECATE_EOF are not covered; LOCAL INFILE is excluded for the text reader.
- ForwardResponse.ClientConn.ForwardBackendResponse: takes a buffer of whole packets, whose final OK holds its two integers where the flag is to be set; this is what the readers produce. Trailing fragments are not modelled.
- ForwardResponse.ClientConn.ForwardQuery: a statement that makes the handler return an error ends the query; what the command loop then writes is not modelled.
- ForwardResponse.ClientConn.WriteOk: `mysql.WriteOKPacket` belongs to the driver; its result is taken to be the protocol's OK packet.
- `handleStmtReset`, `SHOW TQDB STATUS`: plumbing without a strong invariant.
- ExtendedQuery.Connection.HandleDescribe: the descriptions themselves, derived from the statement's text, are not modelled.
- ErrorRecovery.StatesAgreeIff: the reference run has the protocol's rule for errors only and judges messages as the proxy does; that the protocol accepts NULL values, rejects an unknown portal, and may end a transaction and its portals at Sync is not modelled.
- ExtendedQuery.Connection.HandleExecute: whether an execution fails is an input; caching, batching and row encoding behind it are not modelled.
- ExtendedQuery.BindInvertsEncode: values are byte strings; format codes are skipped as in the code and binary values are not interpreted.
- Metrics, configuration loading, `main`, client libraries, benchmarks and scripts.
