# Batching executor and mapper registry of MyBatis, modelled in Dafny

This project models two imperative parts of MyBatis and proves properties of the models.

`BatchExecutor` holds JDBC updates back so that they can be sent in batches:

- `doUpdate` extends the open group when the SQL text and the mapped statement equal the current pair. Otherwise it prepares a new `Statement` and opens a new `BatchResult`.
- `doFlushStatements` executes the groups in the order they were opened and reconciles generated keys for each one. It stops at the first failing group, raising a `BatchExecutorException` for a `BatchUpdateException`. In its `finally` block it closes every handle and clears the batching state.
- `doQuery` flushes before it prepares its own statement, and closes that statement whatever happens.

`MapperRegistry` holds the map from mapper interfaces to their `MapperProxyFactory`:

- `addMapper` ignores classes that are not interfaces and refuses a duplicate.
- It registers a new interface before the annotation parser runs, and removes it again when parsing does not complete.
- `addMappers` calls `addMapper` on each type found.
- `hasMapper`, `getMappers` and `getMapper` read the map.

Files, one module each:

| file | module | contents |
|---|---|---|
| `common.dfy` | `Common` | `Option` (a field that may be null) and `Result` (a value or an exception) |
| `text.dfy` | `Text` | decimal rendering of a number, as Java's string concatenation does it, and reading it back |
| `mapping.dfy` | `Mapping` | `MappedStatement` (a class, so that `equals` is identity), key generator kinds, parameter objects, `BatchResult` |
| `jdbc.dfy` | `Jdbc` | statement handles, what the driver answers, the log of calls the executor makes, and filters over that log |
| `batching.dfy` | `Batching` | a reference definition of grouping: `Batched` (updates to groups), `Expand` (groups back to updates), `Boundaries` (where the (SQL, statement) pair changes) |
| `batch_executor.dfy` | `Executor` | the flush specification (`FlushOutcome`, `FlushTrace`) with its lemmas, and `class BatchExecutor` |
| `mapper_registry.dfy` | `Binding` | `AddStep` and `AddAll` (one `addMapper` call, and a run of them) with their lemmas, and `class MapperRegistry` |

How the collaborators are modelled:

- A JDBC `Statement` is a natural-number handle. `prepare` hands out the next value of a counter, so every prepared statement is new.
- Every call the executor makes on its collaborators is appended to a `log` field, in order. These calls are `prepare`, `parameterize`/`batch`, `executeBatch`, `processBatch`, `processAfter`, `query` and `closeStatement`.
- What `executeBatch` does for a handle is a function parameter `exec`: counts, a `BatchUpdateException` carrying counts, or another `SQLException`.
- What `query` returns is likewise the parameter `query`.
- The executor's invariant, `Executor.Inv`, says four things:
  - the groups are `Batched(pending)` of the updates accepted since the last flush;
  - the current pair is that of the last pending update;
  - the handles are the newest ones the counter gave out;
  - each handle has exactly its group's parameter objects queued on it.
- The registry's parser is a parameter `parse`. It is given the type and the key set the parser sees while it runs.
- Proxy creation is a parameter `creates`.

A failing group's `BatchResult` keeps no update counts. `batchResult.setUpdateCounts(stmt.executeBatch())` (`BatchExecutor.java:155`) never runs when `executeBatch` throws. The counts the driver reports up to the failure exist only in the `BatchUpdateException` that becomes the cause. So in the model:

- the failing group's `BatchResult` is passed on unchanged, with `updateCounts == None`;
- the cause's counts are the field `causeUpdateCounts` of `BatchExecutorException`.

## Model

| member | source | states |
|---|---|---|
| Batching.Batched | src/main/java/org/apache/ibatis/executor/BatchExecutor.java:81-101 | no groups exactly when there are no updates, and the last group holds the last update's SQL and statement |
| Batching.BatchedExtend | src/main/java/org/apache/ibatis/executor/BatchExecutor.java:81-89 | an update with the current (SQL, statement) pair adds its parameter object to the last group only, and every earlier group is unchanged |
| Batching.BatchedOpen | src/main/java/org/apache/ibatis/executor/BatchExecutor.java:90-102 | any other update appends exactly one new `BatchResult(ms, sql, [param])` |
| Batching.BatchedWellFormed | src/main/java/org/apache/ibatis/executor/BatchExecutor.java:81-101 | every group is non-empty and not yet executed, and two neighbouring groups never share their (SQL, statement) pair |
| Batching.ExpandBatched | src/main/java/org/apache/ibatis/executor/BatchExecutor.java:81-101 | reading the groups back, parameter object by parameter object, gives exactly the update sequence: nothing is lost, duplicated or reordered |
| Batching.GroupCount | src/main/java/org/apache/ibatis/executor/BatchExecutor.java:81 | the number of groups is the number of changes of (SQL, statement) pair, so returning to an earlier pair opens a new group |
| Text.NatToString | src/main/java/org/apache/ibatis/executor/BatchExecutor.java:174 | the rendering of a number is a non-empty string of digits without a leading zero |
| Text.ReadNatAfterNatToString | src/main/java/org/apache/ibatis/executor/BatchExecutor.java:174 | reading a rendered number back, when a non-digit follows, gives the number |
| Text.NatToStringInjective | src/main/java/org/apache/ibatis/executor/BatchExecutor.java:174 | distinct numbers render differently |
| Executor.FailureMessage | src/main/java/org/apache/ibatis/executor/BatchExecutor.java:173-179 | defines the text of the BatchExecutorException for group i: the statement id, " (batch index #", i + 1, then `Tail(i)` |
| Executor.Tail | src/main/java/org/apache/ibatis/executor/BatchExecutor.java:174-179 | defines what follows the batch index: ") failed.", and only when i > 0 a blank, i and " prior sub executor(s) completed successfully, but will be rolled back." |
| Executor.FailureMessageNamesGroup | src/main/java/org/apache/ibatis/executor/BatchExecutor.java:173-175 | the failure message starts with the statement id, then " (batch index #", then the 1-based index of the failing group |
| Executor.FailureMessageFirstGroup | src/main/java/org/apache/ibatis/executor/BatchExecutor.java:173-179 | when the first group fails, the message is "id (batch index #1) failed." and mentions no prior sub executors |
| Executor.TailCountsPrior | src/main/java/org/apache/ibatis/executor/BatchExecutor.java:174-179 | after group i > 0 the words ") failed. " are followed by i, the number of prior groups, and the message ends with the rolled-back sentence; for i = 0 it ends with ") failed." |
| Executor.FailureMessageInjective | src/main/java/org/apache/ibatis/executor/BatchExecutor.java:173-179 | the message determines the index of the failing group |
| Executor.FirstFailure | src/main/java/org/apache/ibatis/executor/BatchExecutor.java:148-181 | the index the loop stops at: every earlier execution succeeded, and the one at that index did not (or it is the list size) |
| Executor.Completed | src/main/java/org/apache/ibatis/executor/BatchExecutor.java:155-183 | defines the `results` list after k successful groups: the first k groups in open order, each with the counts its own executeBatch returned |
| Executor.CompletedAt | src/main/java/org/apache/ibatis/executor/BatchExecutor.java:155-183 | the results of the first k groups are those groups, in order, each with only its own update counts set |
| Executor.KeyEvents | src/main/java/org/apache/ibatis/executor/BatchExecutor.java:159-169 | defines the key generator calls for one executed group, chosen by the generator's exact class: one processBatch, none, or `ProcessAfterEach` |
| Executor.ProcessAfterEach | src/main/java/org/apache/ibatis/executor/BatchExecutor.java:166-168 | defines one processAfter call per parameter object, in the order the objects were added |
| Executor.KeyEventsDispatch | src/main/java/org/apache/ibatis/executor/BatchExecutor.java:159-169 | a Jdbc3KeyGenerator gets one processBatch call with the whole ordered parameter list, a NoKeyGenerator no call, any other generator one processAfter call per parameter object, in append order |
| Executor.KeyEventsQuiet | src/main/java/org/apache/ibatis/executor/BatchExecutor.java:159-169 | key reconciliation executes no batch, and every call it makes is on the group's own handle |
| Executor.GroupTrace | src/main/java/org/apache/ibatis/executor/BatchExecutor.java:155-171 | defines the calls for one successful group: executeBatch on its handle, its key generator calls, then closeStatement on its handle |
| Executor.SuccessTrace | src/main/java/org/apache/ibatis/executor/BatchExecutor.java:148-171 | defines the calls of the first k successful loop iterations: their `GroupTrace`s in open order |
| Executor.RunTrace | src/main/java/org/apache/ibatis/executor/BatchExecutor.java:148-181 | defines the calls of the loop: the successful groups' traces, then the executeBatch of the first failing group if there is one |
| Executor.FlushTrace | src/main/java/org/apache/ibatis/executor/BatchExecutor.java:145-189 | defines the calls of doFlushStatements: no loop on rollback, otherwise `RunTrace`, and in every case the `finally` block's closeStatement of every listed handle in list order (`Jdbc.ClosesHandles`) |
| Executor.FlushOutcome | src/main/java/org/apache/ibatis/executor/BatchExecutor.java:145-185 | defines what doFlushStatements returns or raises: an empty list on rollback; the completed groups when all execute; a BatchExecutorException built from the first failing group for a BatchUpdateException; any other SQLException unwrapped |
| Executor.GroupTraceExecutions | src/main/java/org/apache/ibatis/executor/BatchExecutor.java:155-171 | a group that executes successfully runs executeBatch on its own handle and on nothing else |
| Executor.SuccessTraceExecutions | src/main/java/org/apache/ibatis/executor/BatchExecutor.java:148-171 | the first k successful groups execute exactly the first k handles, in order |
| Executor.RollbackExecutesNothing | src/main/java/org/apache/ibatis/executor/BatchExecutor.java:145-147 | `doFlushStatements(true)` returns an empty list and executes no batch |
| Executor.RunTraceExecutions | src/main/java/org/apache/ibatis/executor/BatchExecutor.java:148-181 | the loop executes the handles up to and including the first failing one, or all of them |
| Executor.FlushExecutionOrder | src/main/java/org/apache/ibatis/executor/BatchExecutor.java:148-193 | a flush executes the groups in open order, up to and including the first failing one, and no other batch |
| Executor.FlushStopsAtFailure | src/main/java/org/apache/ibatis/executor/BatchExecutor.java:172-181 | no group after the failing one is executed |
| Executor.FlushClosesEveryHandle | src/main/java/org/apache/ibatis/executor/BatchExecutor.java:186-189 | on every exit path (rollback, success, failure) every listed handle is passed to closeStatement |
| Jdbc.ClosesHandles | src/main/java/org/apache/ibatis/executor/BatchExecutor.java:187-189 | the `finally` loop makes one closeStatement call per listed handle, the k-th call on the k-th handle, so handles are closed in list order |
| Executor.FlushSuccessResults | src/main/java/org/apache/ibatis/executor/BatchExecutor.java:148-185 | without a failure a flush returns one result per group, in open order, each with the same statement, SQL and parameters and with the counts its execution returned |
| Executor.FlushSucceedsIffAllExecute | src/main/java/org/apache/ibatis/executor/BatchExecutor.java:148-185 | a non-rollback flush returns normally exactly when every group's execution succeeds |
| Executor.FlushFailureCarriesPrefix | src/main/java/org/apache/ibatis/executor/BatchExecutor.java:172-181 | when group i raises BatchUpdateException, the exception carries exactly the results of groups 0..i-1, the failing group's BatchResult, the cause's counts, and a message naming the statement and batch index i + 1 |
| Executor.GroupStep | src/main/java/org/apache/ibatis/executor/BatchExecutor.java:148-184 | one more successful group extends the call log by that group's calls and the results by that group with its counts, and keeps every call on an allocated handle |
| Executor.BatchFailureStep | src/main/java/org/apache/ibatis/executor/BatchExecutor.java:172-180 | a BatchUpdateException at group i ends the loop's calls with that executeBatch, and the flush raises the BatchExecutorException built from group i |
| Executor.SqlFailureStep | src/main/java/org/apache/ibatis/executor/BatchExecutor.java:152-181 | any other SQLException at group i ends the loop's calls with that executeBatch, and it is passed on unwrapped |
| Executor.SuccessEnd | src/main/java/org/apache/ibatis/executor/BatchExecutor.java:148-185 | when every group executes, the loop's calls are all the groups' calls and the result lists every group with its counts |
| Executor.ConsecutiveOrdered | src/main/java/org/apache/ibatis/executor/BatchExecutor.java:93-99 | proof helper of the executor invariant `Inv`: the listed handles are distinct, increase in list order and are below the handle counter |
| Executor.ExtendKeepsQueues | src/main/java/org/apache/ibatis/executor/BatchExecutor.java:83-89 | batching a parameter object on the last handle queues it on the last group only |
| Executor.OpenKeepsQueues | src/main/java/org/apache/ibatis/executor/BatchExecutor.java:93-101 | a freshly prepared handle with one parameter object forms the new group of one, and earlier handles keep their queues |
| Executor.OpenKeepsOrder | src/main/java/org/apache/ibatis/executor/BatchExecutor.java:93-99 | proof helper of `Inv`: a fresh handle keeps the handle list consecutive and every logged call on a handle below the advanced counter |
| Executor.QueryKeepsHandles | src/main/java/org/apache/ibatis/executor/BatchExecutor.java:117-121 | proof helper of `Inv`: after the query's prepare, query and close calls on the fresh handle h, every logged call still mentions a handle below h + 1; the exact calls are stated by `RunQuery` |
| Executor.InvReset | src/main/java/org/apache/ibatis/executor/BatchExecutor.java:186-193 | proof helper of `Inv`: cleared lists and a null currentSql satisfy the executor invariant, whatever currentStatement holds |
| Executor.InvExtend | src/main/java/org/apache/ibatis/executor/BatchExecutor.java:82-89 | the matching branch of doUpdate keeps the executor invariant, with the update appended to the pending ones |
| Executor.InvOpen | src/main/java/org/apache/ibatis/executor/BatchExecutor.java:90-102 | the other branch of doUpdate keeps the executor invariant, with the update appended to the pending ones |
| Executor.BatchExecutor.constructor | src/main/java/org/apache/ibatis/executor/BatchExecutor.java:52-59 | a new executor has no groups, no current pair and no calls made |
| Executor.BatchExecutor.DoUpdate | src/main/java/org/apache/ibatis/executor/BatchExecutor.java:71-105 | returns BATCH_UPDATE_RETURN_VALUE, sets the current pair to (sql, ms), and either extends the last group on the same handle (same pair) or prepares one new handle and appends one new group; the groups stay `Batched` of the updates since the last flush |
| Executor.BatchExecutor.AddToLastGroup | src/main/java/org/apache/ibatis/executor/BatchExecutor.java:82-89 | no new handle; only the last BatchResult gains the parameter object, which is batched on the last handle |
| Executor.BatchExecutor.OpenGroup | src/main/java/org/apache/ibatis/executor/BatchExecutor.java:90-102 | prepares one new handle, appends it and `new BatchResult(ms, sql, param)`, and sets currentSql and currentStatement |
| Executor.BatchExecutor.DoFlushStatements | src/main/java/org/apache/ibatis/executor/BatchExecutor.java:139-194 | returns or raises `FlushOutcome` of the groups, makes exactly the calls `FlushTrace`, and leaves both lists empty and currentSql null while keeping currentStatement, so the next doUpdate opens a new group |
| Executor.BatchExecutor.ExecuteGroups | src/main/java/org/apache/ibatis/executor/BatchExecutor.java:148-185 | the loop's result is `FlushOutcome` of the groups and its calls are `RunTrace` |
| Executor.BatchExecutor.FinishGroup | src/main/java/org/apache/ibatis/executor/BatchExecutor.java:155-171 | the group gets its update counts, then its keys are reconciled and its handle closed |
| Executor.BatchExecutor.ReconcileKeys | src/main/java/org/apache/ibatis/executor/BatchExecutor.java:159-169 | makes exactly the key generator calls `KeyEvents` dispatches to |
| Executor.BatchExecutor.CloseAll | src/main/java/org/apache/ibatis/executor/BatchExecutor.java:186-193 | closes every listed handle in list order, clears both lists, nulls currentSql, keeps currentStatement |
| Executor.BatchExecutor.DoQuery | src/main/java/org/apache/ibatis/executor/BatchExecutor.java:107-123 | flushes first; if the flush raises, nothing is prepared and the flush's exception is passed on; otherwise one new handle is prepared, queried and closed whether the query returns rows or raises |
| Executor.BatchExecutor.RunQuery | src/main/java/org/apache/ibatis/executor/BatchExecutor.java:113-122 | prepare, parameterize and query one new handle, then close it on both outcomes |
| Binding.AddStep | src/main/java/org/apache/ibatis/binding/MapperRegistry.java:60-85 | addMapper returns normally exactly for a non-interface or for a new interface that parses; it refuses a known interface and passes on a parse failure; an exception leaves the registry as it was; after a normal return the interface maps to its own factory; no other entry changes |
| Binding.AddAll | src/main/java/org/apache/ibatis/binding/MapperRegistry.java:112-114 | defines the loop of addMappers: addMapper on each found type in turn, stopping at the first exception, which it passes on with the registry as that call left it |
| Binding.AddAllStops | src/main/java/org/apache/ibatis/binding/MapperRegistry.java:112-114 | once an addMapper call raises, no later type is looked at |
| Binding.AddAllGrows | src/main/java/org/apache/ibatis/binding/MapperRegistry.java:112-114 | types registered before the loop stay registered with the same factory |
| Binding.AddAllAddsOnlyFound | src/main/java/org/apache/ibatis/binding/MapperRegistry.java:112-114 | the loop registers no type that was not found |
| Binding.AddAllWellKeyed | src/main/java/org/apache/ibatis/binding/MapperRegistry.java:71 | every registered type stays an interface mapped to its own factory |
| Binding.AddAllSplit | src/main/java/org/apache/ibatis/binding/MapperRegistry.java:112-114 | running a prefix that raised nothing and then the rest is running the whole sequence |
| Binding.AddAllKeepsProcessed | src/main/java/org/apache/ibatis/binding/MapperRegistry.java:112-114 | an interface registered by an earlier iteration is still registered after the loop, even when a later iteration raises |
| Binding.AddAllRejectsKnown | src/main/java/org/apache/ibatis/binding/MapperRegistry.java:64-66 | a found interface that was already registered makes addMappers raise |
| Binding.AddAllRegistersAll | src/main/java/org/apache/ibatis/binding/MapperRegistry.java:112-114 | when nothing is raised, every found interface is registered with its own factory |
| Binding.MapperRegistry.constructor | src/main/java/org/apache/ibatis/binding/MapperRegistry.java:37-41 | a new registry knows no mapper |
| Binding.MapperRegistry.HasMapper | src/main/java/org/apache/ibatis/binding/MapperRegistry.java:56-58 | hasMapper is membership of the type in the key set of `knownMappers` |
| Binding.MapperRegistry.GetMappers | src/main/java/org/apache/ibatis/binding/MapperRegistry.java:94-96 | the returned set is exactly the types `hasMapper` reports (`MapperRegistry.java:56-58`), and all of them are interfaces |
| Binding.MapperRegistry.GetMapper | src/main/java/org/apache/ibatis/binding/MapperRegistry.java:44-54 | an unknown type raises TypeNotKnown; a known one yields a proxy for that interface and session, or InstanceCreationFailed when the factory fails |
| Binding.MapperRegistry.AddMapper | src/main/java/org/apache/ibatis/binding/MapperRegistry.java:60-85 | the new map and the exception are those of `AddStep`: the type is inserted before the parser runs and removed under the `loadCompleted` flag when parsing fails |
| Binding.MapperRegistry.AddMappers | src/main/java/org/apache/ibatis/binding/MapperRegistry.java:108-115 | the new map and the exception are those of `AddAll`: addMapper on each found type in turn, stopping at the first exception |

## Left out

- The statement handler, `Configuration.newStatementHandler` and `BoundSql` are not modelled. `DoUpdate` and `DoQuery` take the rendered SQL text as a parameter.
- `getConnection`, the transaction timeout and `applyTransactionTimeout` are left out. They belong to `BaseExecutor`, which is not part of this model.
- The `parameterize` and `batch` calls of `doUpdate` are one logged event, `AddedToBatch`.
- The `parameterize` and `query` calls of `doQuery` are one logged event, `Queried`.
- Exceptions raised by `prepare`, `parameterize`, `batch`, the key generators or `closeStatement` are not modelled. The only failures modelled are those of `executeBatch` and of `query`.
- `BaseExecutor.flushStatements`, the closed check and the local cache are not part of this model. `DoQuery` calls `DoFlushStatements(false, …)` directly.
- `doQuery`'s row bounds and result handler, and the mapping of rows to objects, are left out. A query answers a list of result objects or fails.
- `doQueryCursor` is left out: its cursor's life ends under the driver's control (`closeOnCompletion`).
- The internals of `Jdbc3KeyGenerator.processBatch` and `KeyGenerator.processAfter` are left out. Only which of them is called, with which parameters and in what order, is logged.
- Handles of successful groups are closed twice, in the loop and in the `finally` block. The model logs both closes and states only that every handle is closed.
- `ResolverUtil`'s classpath scan is left out. `AddMappers` takes the found types as a sequence, in the order the found set yields them.
- The overload `addMappers(String)` is left out. It only supplies `Object.class` as the super type of the scan.
- `MapperAnnotationBuilder.parse` is an oracle that succeeds or fails. Its own effects are not modelled, including a nested registration of a type it binds from XML.
- `MapperProxyFactory.newInstance` is an oracle that succeeds or fails. The result is a proxy value that records its interface and session.
- The text of the `BindingException` messages is left out, because it depends on `Class.toString`. The error constructors carry the type instead.
- Thread safety of the `ConcurrentHashMap` and the unmodifiable view that `getMappers` returns are left out. The map is a sequential map and the view is a set value.
- The `config` field of `MapperRegistry` is left out: only the parser uses it.
- Java `int` overflow of the batch index `i + 1` is left out. A list of more than two billion statements is out of reach, so indices are unbounded naturals.
