/**
 * The batching executor: doUpdate groups consecutive updates that share their
 * SQL text and mapped statement onto one statement handle; doFlushStatements
 * executes the groups in the order they were opened, reconciles generated keys,
 * stops at the first failing group and always resets the batching state;
 * doQuery flushes before it runs a query.
 */
module Executor {
  import opened Common
  import opened Mapping
  import opened Text
  import opened Jdbc
  import opened Batching

  /** BATCH_UPDATE_RETURN_VALUE, Integer.MIN_VALUE + 1002: what doUpdate returns in place of a count. */
  const BatchUpdateReturnValue: int := -2147483648 + 1002

  /** The BatchExecutorException raised when a group fails. */
  datatype BatchExecutorException = BatchExecutorException(
    message: string,
      // the update counts of the BatchUpdateException that caused it
    causeUpdateCounts: seq<int>,
    successfulBatchResults: seq<BatchResult>,
    batchResult: BatchResult)

  /** How doFlushStatements ends. */
  datatype FlushResult =
    | Flushed(results: seq<BatchResult>)
    | BatchFailed(error: BatchExecutorException)
      // a SQLException other than BatchUpdateException, passed on unwrapped
    | SqlFailed

  /** How doQuery ends. */
  datatype QueryResult =
    | QueryRows(rows: seq<ResultObject>)
    | FlushFailed(flush: FlushResult)
    | QuerySqlFailed

  const BatchIndexText: string := " (batch index #"
  const FailedText: string := ") failed."
  // written as its leading blank and the words, so that the blank is at hand
  const PriorText: string := " " + "prior sub executor(s) completed successfully, but will be rolled back."

  /** The text of the BatchExecutorException for group i (0-based) of statement id. */
  function FailureMessage(id: string, i: nat): string {
    id + BatchIndexText + (NatToString(i + 1) + Tail(i))
  }

  /** What follows the batch index: the count of prior groups only when there are some. */
  function Tail(i: nat): string {
    FailedText + (if i > 0 then " " + NatToString(i) + PriorText else "")
  }

  lemma {:induction false} SplitThree(a: string, b: string, c: string)
    ensures |a + b + c| == |a| + |b| + |c|
    ensures (a + b + c)[..|a|] == a
    ensures (a + b + c)[|a|..|a| + |b|] == b
    ensures (a + b + c)[|a| + |b|..] == c
  {
  }

  /** The message names the statement, then the 1-based index of the failing group. */
  lemma {:induction false} FailureMessageNamesGroup(id: string, i: nat)
    ensures |FailureMessage(id, i)| > |id| + |BatchIndexText|
    ensures FailureMessage(id, i)[..|id|] == id
    ensures FailureMessage(id, i)[|id|..|id| + |BatchIndexText|] == BatchIndexText
    ensures ReadNat(FailureMessage(id, i)[|id| + |BatchIndexText|..]) == i + 1
  {
    var digits := NatToString(i + 1);
    var rest := Tail(i);
    assert rest[0] == FailedText[0] == ')';
    SplitThree(id, BatchIndexText, digits + rest);
    ReadNatAfterNatToString(i + 1, rest);
  }

  /** Only a failure after at least one completed group mentions prior sub executors. */
  lemma {:induction false} FailureMessageFirstGroup(id: string)
    ensures FailureMessage(id, 0) == id + " (batch index #1) failed."
  {
    assert NatToString(1) == "1";
  }

  /** A number written between head and a tail that does not start with a digit reads back. */
  lemma {:induction false} NumberBetween(head: string, n: nat, rest: string)
    requires rest == [] || !IsDigit(rest[0])
    ensures |head| + |rest| <= |head + NatToString(n) + rest|
    ensures (head + NatToString(n) + rest)[..|head|] == head
    ensures ReadNat((head + NatToString(n) + rest)[|head|..]) == n
    ensures (head + NatToString(n) + rest)[|head + NatToString(n) + rest| - |rest|..] == rest
  {
    var count := NatToString(n);
    SplitThree(head, count, rest);
    assert (head + count + rest)[|head|..] == count + rest;
    ReadNatAfterNatToString(n, rest);
  }

  lemma {:induction false} PriorTextStart()
    ensures PriorText != [] && !IsDigit(PriorText[0])
  {
    assert PriorText[0] == ' ';
  }

  /**
   * After a later group, the text after the batch index goes on to give the
   * number i of groups that completed before it, and ends by saying they will
   * be rolled back; after the first group it is only the closing words.
   */
  lemma {:induction false} TailCountsPrior(i: nat)
    ensures i == 0 ==> Tail(i) == FailedText
    ensures i > 0 ==>
      && |FailedText| + 1 + |PriorText| <= |Tail(i)|
      && Tail(i)[..|FailedText| + 1] == FailedText + " "
      && ReadNat(Tail(i)[|FailedText| + 1..]) == i
      && Tail(i)[|Tail(i)| - |PriorText|..] == PriorText
  {
    if i > 0 {
      var head := FailedText + " ";
      assert Tail(i) == head + NatToString(i) + PriorText;
      PriorTextStart();
      NumberBetween(head, i, PriorText);
    } else {
      assert FailedText + "" == FailedText;
    }
  }

  /** The message determines which group failed. */
  lemma {:induction false} FailureMessageInjective(id: string, i: nat, j: nat)
    requires FailureMessage(id, i) == FailureMessage(id, j)
    ensures i == j
  {
    FailureMessageNamesGroup(id, i);
    FailureMessageNamesGroup(id, j);
  }

  /** The index of the first handle whose execution does not succeed, or |hs| if none fails. */
  function FirstFailure(hs: seq<Handle>, exec: Handle -> ExecOutcome): (k: nat)
    ensures k <= |hs|
    ensures forall j :: 0 <= j < k ==> exec(hs[j]).Executed?
    ensures k < |hs| ==> !exec(hs[k]).Executed?
    decreases |hs|
  {
    if hs == [] || !exec(hs[0]).Executed? then 0 else 1 + FirstFailure(hs[1..], exec)
  }

  /** The first k groups of gs with the update counts that executing their handles returned. */
  function Completed(gs: seq<BatchResult>, hs: seq<Handle>, exec: Handle -> ExecOutcome, k: nat): seq<BatchResult>
    requires |gs| == |hs| && k <= |hs|
    requires forall j :: 0 <= j < k ==> exec(hs[j]).Executed?
  {
    if k == 0 then []
    else Completed(gs, hs, exec, k - 1) + [gs[k - 1].SetUpdateCounts(exec(hs[k - 1]).updateCounts)]
  }

  /** Completed changes nothing but the counts, and keeps the order. */
  lemma {:induction false} CompletedAt(gs: seq<BatchResult>, hs: seq<Handle>, exec: Handle -> ExecOutcome, k: nat)
    requires |gs| == |hs| && k <= |hs|
    requires forall j :: 0 <= j < k ==> exec(hs[j]).Executed?
    ensures |Completed(gs, hs, exec, k)| == k
    ensures forall j :: 0 <= j < k ==>
      Completed(gs, hs, exec, k)[j] == gs[j].SetUpdateCounts(exec(hs[j]).updateCounts)
  {
    if k > 0 {
      CompletedAt(gs, hs, exec, k - 1);
    }
  }

  /** What the key generator of ms is called with after handle h executed params. */
  function KeyEvents(ms: MappedStatement, h: Handle, params: seq<ParamObject>): seq<Event> {
    match ms.keyGenerator
    case Jdbc3KeyGenerator => [ProcessBatch(h, ms, params)]
    case NoKeyGenerator => []
    case OtherKeyGenerator(_) => ProcessAfterEach(ms, h, params)
  }

  function ProcessAfterEach(ms: MappedStatement, h: Handle, params: seq<ParamObject>): seq<Event>
    decreases |params|
  {
    if params == [] then []
    else ProcessAfterEach(ms, h, params[..|params| - 1]) + [ProcessAfter(h, ms, params[|params| - 1])]
  }

  /**
   * Key reconciliation: a Jdbc3KeyGenerator gets one processBatch call with the
   * whole parameter list, a NoKeyGenerator no call, any other generator one
   * processAfter call per parameter object, in the order they were added.
   */
  lemma {:induction false} KeyEventsDispatch(ms: MappedStatement, h: Handle, params: seq<ParamObject>)
    ensures ms.keyGenerator.Jdbc3KeyGenerator? ==> KeyEvents(ms, h, params) == [ProcessBatch(h, ms, params)]
    ensures ms.keyGenerator.NoKeyGenerator? ==> KeyEvents(ms, h, params) == []
    ensures ms.keyGenerator.OtherKeyGenerator? ==>
      && |KeyEvents(ms, h, params)| == |params|
      && forall j :: 0 <= j < |params| ==> KeyEvents(ms, h, params)[j] == ProcessAfter(h, ms, params[j])
    decreases |params|
  {
    if ms.keyGenerator.OtherKeyGenerator? && params != [] {
      KeyEventsDispatch(ms, h, params[..|params| - 1]);
    }
  }

  /** Key reconciliation neither executes a batch nor touches another handle. */
  lemma {:induction false} KeyEventsQuiet(ms: MappedStatement, h: Handle, params: seq<ParamObject>)
    ensures Executions(KeyEvents(ms, h, params)) == []
    ensures forall k :: 0 <= k < |KeyEvents(ms, h, params)| ==> KeyEvents(ms, h, params)[k].handle == h
    ensures HandlesBelow(KeyEvents(ms, h, params), h + 1)
  {
    KeyEventsDispatch(ms, h, params);
    if ms.keyGenerator.OtherKeyGenerator? {
      ProcessAfterEachQuiet(ms, h, params);
    }
  }

  lemma {:induction false} ProcessAfterEachQuiet(ms: MappedStatement, h: Handle, params: seq<ParamObject>)
    ensures Executions(ProcessAfterEach(ms, h, params)) == []
    decreases |params|
  {
    if params != [] {
      var init := params[..|params| - 1];
      ProcessAfterEachQuiet(ms, h, init);
      ExecutionsConcat(ProcessAfterEach(ms, h, init), [ProcessAfter(h, ms, params[|params| - 1])]);
    }
  }

  /** The calls made for one group that executes successfully (lines 155-171). */
  function GroupTrace(g: BatchResult, h: Handle): seq<Event> {
    [ExecutedBatch(h)] + KeyEvents(g.mappedStatement, h, g.parameterObjects) + [Closed(h)]
  }

  /** The calls made for the first k groups when they all execute successfully, in order. */
  function SuccessTrace(gs: seq<BatchResult>, hs: seq<Handle>, k: nat): seq<Event>
    requires |gs| == |hs| && k <= |hs|
  {
    if k == 0 then [] else SuccessTrace(gs, hs, k - 1) + GroupTrace(gs[k - 1], hs[k - 1])
  }

  /** The calls made by the loop of doFlushStatements: up to and including the first failing execution. */
  function RunTrace(gs: seq<BatchResult>, hs: seq<Handle>, exec: Handle -> ExecOutcome): seq<Event>
    requires |gs| == |hs|
  {
    var k := FirstFailure(hs, exec);
    SuccessTrace(gs, hs, k) + (if k < |hs| then [ExecutedBatch(hs[k])] else [])
  }

  /** The calls made by doFlushStatements on groups gs held on handles hs. */
  function FlushTrace(gs: seq<BatchResult>, hs: seq<Handle>, isRollback: bool, exec: Handle -> ExecOutcome): seq<Event>
    requires |gs| == |hs|
  {
    (if isRollback then [] else RunTrace(gs, hs, exec)) + Closes(hs)
  }

  /** What doFlushStatements returns or raises for groups gs held on handles hs. */
  function FlushOutcome(gs: seq<BatchResult>, hs: seq<Handle>, isRollback: bool, exec: Handle -> ExecOutcome): FlushResult
    requires |gs| == |hs|
  {
    if isRollback then Flushed([])
    else
      var k := FirstFailure(hs, exec);
      var done := Completed(gs, hs, exec, k);
      if k == |hs| then Flushed(done)
      else match exec(hs[k])
        case BatchUpdateFailure(counts) =>
          BatchFailed(BatchExecutorException(FailureMessage(gs[k].mappedStatement.id, k), counts, done, gs[k]))
        case _ => SqlFailed
  }

  lemma {:induction false} SuccessTraceExecutions(gs: seq<BatchResult>, hs: seq<Handle>, k: nat)
    requires |gs| == |hs| && k <= |hs|
    ensures Executions(SuccessTrace(gs, hs, k)) == hs[..k]
  {
    if k > 0 {
      var g, h := gs[k - 1], hs[k - 1];
      assert hs[..k - 1] + [h] == hs[..k];
      var keys := KeyEvents(g.mappedStatement, h, g.parameterObjects);
      SuccessTraceExecutions(gs, hs, k - 1);
      GroupTraceExecutions(g, h);
      ExecutionsConcat(SuccessTrace(gs, hs, k - 1), GroupTrace(g, h));
    }
  }

  /** One successful group executes its own handle and nothing else. */
  lemma {:induction false} GroupTraceExecutions(g: BatchResult, h: Handle)
    ensures Executions(GroupTrace(g, h)) == [h]
  {
    var keys := KeyEvents(g.mappedStatement, h, g.parameterObjects);
    KeyEventsQuiet(g.mappedStatement, h, g.parameterObjects);
    ExecutionsConcat([ExecutedBatch(h)], keys);
    ExecutionsConcat([ExecutedBatch(h)] + keys, [Closed(h)]);
    assert Executions([ExecutedBatch(h)]) == [h] by {
      assert [ExecutedBatch(h)][..0] == [];
    }
    assert Executions([Closed(h)]) == [] by {
      assert [Closed(h)][..0] == [];
    }
  }

  /** `doFlushStatements(true)` returns an empty list and executes no batch. */
  lemma {:induction false} RollbackExecutesNothing(gs: seq<BatchResult>, hs: seq<Handle>, exec: Handle -> ExecOutcome)
    requires |gs| == |hs|
    ensures FlushOutcome(gs, hs, true, exec) == Flushed([])
    ensures Executions(FlushTrace(gs, hs, true, exec)) == []
  {
    ClosesExecuteNothing(hs);
    assert FlushTrace(gs, hs, true, exec) == Closes(hs);
  }

  lemma {:induction false} RunTraceExecutions(gs: seq<BatchResult>, hs: seq<Handle>, exec: Handle -> ExecOutcome, k: nat)
    requires |gs| == |hs| && k == FirstFailure(hs, exec)
    ensures Executions(RunTrace(gs, hs, exec)) == if k < |hs| then hs[..k + 1] else hs
  {
    if k < |hs| {
      assert hs[..k] + [hs[k]] == hs[..k + 1];
      var tail := [ExecutedBatch(hs[k])];
      assert Executions(tail) == [hs[k]] by {
        assert tail[..0] == [];
      }
      SuccessTraceExecutions(gs, hs, k);
      ExecutionsConcat(SuccessTrace(gs, hs, k), tail);
    } else {
      assert hs[..k] == hs;
      SuccessTraceExecutions(gs, hs, k);
      assert SuccessTrace(gs, hs, k) + [] == SuccessTrace(gs, hs, k);
    }
  }

  /**
   * Flushing executes the groups in the order they were opened, up to and
   * including the first one that fails, and no group after it.
   */
  lemma {:induction false} FlushExecutionOrder(gs: seq<BatchResult>, hs: seq<Handle>, exec: Handle -> ExecOutcome)
    requires |gs| == |hs|
    ensures var k := FirstFailure(hs, exec);
      Executions(FlushTrace(gs, hs, false, exec)) == if k < |hs| then hs[..k + 1] else hs
  {
    RunTraceExecutions(gs, hs, exec, FirstFailure(hs, exec));
    ClosesExecuteNothing(hs);
    ExecutionsConcat(RunTrace(gs, hs, exec), Closes(hs));
  }

  /** With distinct handles, no group after the failing one is executed. */
  lemma {:induction false} FlushStopsAtFailure(gs: seq<BatchResult>, hs: seq<Handle>, exec: Handle -> ExecOutcome, j: nat)
    requires |gs| == |hs|
    requires forall a, b :: 0 <= a < b < |hs| ==> hs[a] != hs[b]
    requires FirstFailure(hs, exec) < j < |hs|
    ensures ExecutedBatch(hs[j]) !in FlushTrace(gs, hs, false, exec)
  {
    var k := FirstFailure(hs, exec);
    FlushExecutionOrder(gs, hs, exec);
    ExecutionsMembers(FlushTrace(gs, hs, false, exec), hs[j]);
    assert hs[j] !in hs[..k + 1];
  }

  /** Every exit path of a flush, rollback, success or failure, closes every handle. */
  lemma {:induction false} FlushClosesEveryHandle(gs: seq<BatchResult>, hs: seq<Handle>, isRollback: bool, exec: Handle -> ExecOutcome, h: Handle)
    requires |gs| == |hs|
    requires h in hs
    ensures Closed(h) in FlushTrace(gs, hs, isRollback, exec)
  {
    ClosesMembers(hs, h);
  }

  /** Without a failure, a flush returns one result per group, in open order, with that group's counts. */
  lemma {:induction false} FlushSuccessResults(gs: seq<BatchResult>, hs: seq<Handle>, exec: Handle -> ExecOutcome)
    requires |gs| == |hs|
    requires forall j :: 0 <= j < |hs| ==> exec(hs[j]).Executed?
    ensures FlushOutcome(gs, hs, false, exec).Flushed?
    ensures var rs := FlushOutcome(gs, hs, false, exec).results;
      && |rs| == |gs|
      && forall j :: 0 <= j < |gs| ==>
           && rs[j].mappedStatement == gs[j].mappedStatement
           && rs[j].sql == gs[j].sql
           && rs[j].parameterObjects == gs[j].parameterObjects
           && rs[j].updateCounts == Some(exec(hs[j]).updateCounts)
  {
    assert FirstFailure(hs, exec) == |hs|;
    CompletedAt(gs, hs, exec, |hs|);
  }

  /** A flush returns normally exactly when every group executes. */
  lemma {:induction false} FlushSucceedsIffAllExecute(gs: seq<BatchResult>, hs: seq<Handle>, exec: Handle -> ExecOutcome)
    requires |gs| == |hs|
    ensures FlushOutcome(gs, hs, false, exec).Flushed?
        <==> forall j :: 0 <= j < |hs| ==> exec(hs[j]).Executed?
  {
  }

  /**
   * When group i raises BatchUpdateException after groups 0..i-1 executed, the
   * flush raises a BatchExecutorException holding exactly the results of groups
   * 0..i-1, the failing group's result (whose counts were never set), the
   * cause's counts and a message naming the statement and batch index i + 1.
   */
  lemma {:induction false} FlushFailureCarriesPrefix(gs: seq<BatchResult>, hs: seq<Handle>, exec: Handle -> ExecOutcome, i: nat)
    requires |gs| == |hs| && i < |hs|
    requires forall j :: 0 <= j < i ==> exec(hs[j]).Executed?
    requires exec(hs[i]).BatchUpdateFailure?
    ensures FlushOutcome(gs, hs, false, exec).BatchFailed?
    ensures var e := FlushOutcome(gs, hs, false, exec).error;
      && |e.successfulBatchResults| == i
      && (forall j :: 0 <= j < i ==>
            e.successfulBatchResults[j] == gs[j].SetUpdateCounts(exec(hs[j]).updateCounts))
      && e.batchResult == gs[i]
      && e.causeUpdateCounts == exec(hs[i]).updateCounts
      && e.message[..|gs[i].mappedStatement.id|] == gs[i].mappedStatement.id
      && ReadNat(e.message[|gs[i].mappedStatement.id| + |BatchIndexText|..]) == i + 1
  {
    assert FirstFailure(hs, exec) == i;
    CompletedAt(gs, hs, exec, i);
    FailureMessageNamesGroup(gs[i].mappedStatement.id, i);
  }

  /** One more group executed successfully: the trace and the results grow by that group. */
  lemma {:induction false} GroupStep(gs: seq<BatchResult>, hs: seq<Handle>, exec: Handle -> ExecOutcome, i: nat,
                                     start: seq<Event>, before: seq<Event>, after: seq<Event>, n: nat,
                                     results: seq<BatchResult>, done: BatchResult)
    requires |gs| == |hs| && i < |hs| && i <= FirstFailure(hs, exec) && exec(hs[i]).Executed?
    requires hs[i] < n && HandlesBelow(before, n)
    requires before == start + SuccessTrace(gs, hs, i)
    requires results == Completed(gs, hs, exec, i)
    requires done == gs[i].SetUpdateCounts(exec(hs[i]).updateCounts)
    requires after == before + [ExecutedBatch(hs[i])]
                     + KeyEvents(done.mappedStatement, hs[i], done.parameterObjects)
                     + [Closed(hs[i])]
    ensures i + 1 <= FirstFailure(hs, exec)
    ensures after == start + SuccessTrace(gs, hs, i + 1)
    ensures results + [done] == Completed(gs, hs, exec, i + 1)
    ensures HandlesBelow(after, n)
  {
    var g, h := gs[i], hs[i];
    var keys := KeyEvents(g.mappedStatement, h, g.parameterObjects);
    assert after == before + GroupTrace(g, h);
    ConcatAssoc(start, SuccessTrace(gs, hs, i), GroupTrace(g, h));
    KeyEventsQuiet(g.mappedStatement, h, g.parameterObjects);
    HandlesBelowConcat([ExecutedBatch(h)], keys, n);
    HandlesBelowConcat([ExecutedBatch(h)] + keys, [Closed(h)], n);
    HandlesBelowConcat(before, GroupTrace(g, h), n);
  }

  /** Group i is the first whose execution fails, with a BatchUpdateException. */
  lemma {:induction false} BatchFailureStep(gs: seq<BatchResult>, hs: seq<Handle>, exec: Handle -> ExecOutcome, i: nat,
                                            start: seq<Event>, before: seq<Event>, n: nat)
    requires |gs| == |hs| && i < |hs| && exec(hs[i]).BatchUpdateFailure?
    requires forall j :: 0 <= j < i ==> exec(hs[j]).Executed?
    requires before == start + SuccessTrace(gs, hs, i) && HandlesBelow(before, n) && hs[i] < n
    ensures before + [ExecutedBatch(hs[i])] == start + RunTrace(gs, hs, exec)
    ensures HandlesBelow(before + [ExecutedBatch(hs[i])], n)
    ensures FlushOutcome(gs, hs, false, exec)
         == BatchFailed(BatchExecutorException(FailureMessage(gs[i].mappedStatement.id, i),
                                               exec(hs[i]).updateCounts, Completed(gs, hs, exec, i), gs[i]))
  {
    assert FirstFailure(hs, exec) == i;
    ConcatAssoc(start, SuccessTrace(gs, hs, i), [ExecutedBatch(hs[i])]);
    HandlesBelowConcat(before, [ExecutedBatch(hs[i])], n);
  }

  /** Group i is the first whose execution fails, with another SQLException. */
  lemma {:induction false} SqlFailureStep(gs: seq<BatchResult>, hs: seq<Handle>, exec: Handle -> ExecOutcome, i: nat,
                                          start: seq<Event>, before: seq<Event>, n: nat)
    requires |gs| == |hs| && i < |hs| && exec(hs[i]).OtherSqlFailure?
    requires forall j :: 0 <= j < i ==> exec(hs[j]).Executed?
    requires before == start + SuccessTrace(gs, hs, i) && HandlesBelow(before, n) && hs[i] < n
    ensures before + [ExecutedBatch(hs[i])] == start + RunTrace(gs, hs, exec)
    ensures HandlesBelow(before + [ExecutedBatch(hs[i])], n)
    ensures FlushOutcome(gs, hs, false, exec) == SqlFailed
  {
    assert FirstFailure(hs, exec) == i;
    ConcatAssoc(start, SuccessTrace(gs, hs, i), [ExecutedBatch(hs[i])]);
    HandlesBelowConcat(before, [ExecutedBatch(hs[i])], n);
  }

  /** Every group executed successfully. */
  lemma {:induction false} SuccessEnd(gs: seq<BatchResult>, hs: seq<Handle>, exec: Handle -> ExecOutcome)
    requires |gs| == |hs|
    requires forall j :: 0 <= j < |hs| ==> exec(hs[j]).Executed?
    ensures RunTrace(gs, hs, exec) == SuccessTrace(gs, hs, |hs|)
    ensures FlushOutcome(gs, hs, false, exec) == Flushed(Completed(gs, hs, exec, |hs|))
  {
    assert FirstFailure(hs, exec) == |hs|;
  }

  /**
   * hs are the last |hs| handles given out before the counter reached n, in
   * the order they were given out: each new group prepares a new statement and
   * nothing else prepares one while groups are pending.
   */
  predicate Consecutive(hs: seq<Handle>, n: nat) {
    |hs| <= n && forall i :: 0 <= i < |hs| ==> hs[i] + |hs| == n + i
  }

  /** Consecutive handles are distinct, increasing and below the counter. */
  lemma {:induction false} ConsecutiveOrdered(hs: seq<Handle>, n: nat, i: nat, j: nat)
    requires Consecutive(hs, n) && i < j < |hs|
    ensures hs[i] < hs[j] < n
  {
  }

  /** The i-th handle holds exactly the parameter objects of the i-th group. */
  predicate QueuesMatch(log: seq<Event>, hs: seq<Handle>, gs: seq<BatchResult>)
    requires |hs| == |gs|
  {
    forall i {:trigger Queued(log, hs[i])} :: 0 <= i < |hs| ==> Queued(log, hs[i]) == gs[i].parameterObjects
  }

  /** Adding a parameter object to the last handle adds it to the last group only. */
  lemma {:induction false} ExtendKeepsQueues(log: seq<Event>, hs: seq<Handle>, n: nat, gs: seq<BatchResult>, p: ParamObject)
    requires |hs| == |gs| > 0 && Consecutive(hs, n) && QueuesMatch(log, hs, gs)
    ensures QueuesMatch(log + [AddedToBatch(hs[|hs| - 1], p)], hs,
                        gs[..|gs| - 1] + [gs[|gs| - 1].AddParameterObject(p)])
  {
    var last := |hs| - 1;
    var e := AddedToBatch(hs[last], p);
    var gs' := gs[..last] + [gs[last].AddParameterObject(p)];
    forall i | 0 <= i < |hs|
      ensures Queued(log + [e], hs[i]) == gs'[i].parameterObjects
    {
      QueuedSnoc(log, e, hs[i]);
      if i < last {
        ConsecutiveOrdered(hs, n, i, last);
      }
    }
  }

  /** Preparing a fresh handle and adding one parameter object to it opens a group of one. */
  lemma {:induction false} OpenKeepsQueues(log: seq<Event>, hs: seq<Handle>, gs: seq<BatchResult>,
                                           h: Handle, sql: string, g: BatchResult)
    requires |hs| == |gs| && Consecutive(hs, h) && HandlesBelow(log, h) && QueuesMatch(log, hs, gs)
    requires |g.parameterObjects| == 1
    ensures QueuesMatch(log + [Prepared(h, sql), AddedToBatch(h, g.parameterObjects[0])], hs + [h], gs + [g])
  {
    var a, b := Prepared(h, sql), AddedToBatch(h, g.parameterObjects[0]);
    assert log + [a, b] == (log + [a]) + [b];
    QueuedUnused(log, h);
    forall i | 0 <= i < |hs| + 1
      ensures Queued(log + [a, b], (hs + [h])[i]) == (gs + [g])[i].parameterObjects
    {
      var k := (hs + [h])[i];
      QueuedSnoc(log, a, k);
      QueuedSnoc(log + [a], b, k);
      assert g.parameterObjects == [g.parameterObjects[0]];
    }
  }

  /** A fresh handle keeps the handle list increasing and below the advanced counter. */
  lemma {:induction false} OpenKeepsOrder(log: seq<Event>, hs: seq<Handle>, h: Handle, sql: string, p: ParamObject)
    requires Consecutive(hs, h) && HandlesBelow(log, h)
    ensures Consecutive(hs + [h], h + 1)
    ensures HandlesBelow(log + [Prepared(h, sql), AddedToBatch(h, p)], h + 1)
  {
  }

  /** The query's own handle is the newest one. */
  lemma {:induction false} QueryKeepsHandles(log: seq<Event>, h: Handle, sql: string)
    requires HandlesBelow(log, h)
    ensures log + [Prepared(h, sql), Queried(h)] + [Closed(h)] == log + [Prepared(h, sql), Queried(h), Closed(h)]
    ensures HandlesBelow(log + [Prepared(h, sql), Queried(h)] + [Closed(h)], h + 1)
  {
  }

  /**
   * The executor's invariant over the values of its fields: the groups are
   * the batching of the pending updates, the current pair is that of the last
   * pending update, handles are the newest ones, and each handle holds exactly
   * its group's parameter objects.
   */
  ghost predicate Inv(pending: seq<Update>, statementList: seq<Handle>, batchResultList: seq<BatchResult>,
                      currentSql: Option<string>, currentStatement: MappedStatement?,
                      log: seq<Event>, nextHandle: nat)
  {
    && |statementList| == |batchResultList|
    && batchResultList == Batched(pending)
    && (currentSql.Some? <==> pending != [])
    && (pending != [] ==>
          && currentSql == Some(pending[|pending| - 1].sql)
          && currentStatement == pending[|pending| - 1].ms)
    && Consecutive(statementList, nextHandle)
    && HandlesBelow(log, nextHandle)
    && QueuesMatch(log, statementList, batchResultList)
  }

  /** With nothing pending, the invariant only needs the log to mention old handles. */
  lemma {:induction false} InvReset(currentStatement: MappedStatement?, log: seq<Event>, nextHandle: nat)
    requires HandlesBelow(log, nextHandle)
    ensures Inv([], [], [], None, currentStatement, log, nextHandle)
  {
  }

  /** The matching branch of doUpdate keeps the invariant. */
  lemma {:induction false} InvExtend(pending: seq<Update>, statementList: seq<Handle>, batchResultList: seq<BatchResult>,
                                     currentSql: Option<string>, currentStatement: MappedStatement?,
                                     log: seq<Event>, nextHandle: nat, u: Update)
    requires Inv(pending, statementList, batchResultList, currentSql, currentStatement, log, nextHandle)
    requires currentSql == Some(u.sql) && currentStatement == u.ms
    ensures |statementList| > 0
    ensures var last := |statementList| - 1;
      Inv(pending + [u], statementList,
          batchResultList[..last] + [batchResultList[last].AddParameterObject(u.parameter)],
          currentSql, currentStatement, log + [AddedToBatch(statementList[last], u.parameter)], nextHandle)
  {
    var last := |statementList| - 1;
    BatchedExtend(pending, u);
    ExtendKeepsQueues(log, statementList, nextHandle, batchResultList, u.parameter);
    HandlesBelowConcat(log, [AddedToBatch(statementList[last], u.parameter)], nextHandle);
  }

  /** The other branch of doUpdate keeps the invariant. */
  lemma {:induction false} InvOpen(pending: seq<Update>, statementList: seq<Handle>, batchResultList: seq<BatchResult>,
                                   currentSql: Option<string>, currentStatement: MappedStatement?,
                                   log: seq<Event>, nextHandle: nat, u: Update)
    requires Inv(pending, statementList, batchResultList, currentSql, currentStatement, log, nextHandle)
    requires !(currentSql == Some(u.sql) && currentStatement == u.ms)
    ensures Inv(pending + [u], statementList + [nextHandle],
                batchResultList + [NewBatchResult(u.ms, u.sql, u.parameter)],
                Some(u.sql), u.ms,
                log + [Prepared(nextHandle, u.sql), AddedToBatch(nextHandle, u.parameter)], nextHandle + 1)
  {
    var g := NewBatchResult(u.ms, u.sql, u.parameter);
    BatchedOpen(pending, u);
    OpenKeepsQueues(log, statementList, batchResultList, nextHandle, u.sql, g);
    OpenKeepsOrder(log, statementList, nextHandle, u.sql, u.parameter);
  }

  // ---------------------------------------------------------------------------

  class BatchExecutor {
    var statementList: seq<Handle>
    var batchResultList: seq<BatchResult>
    var currentSql: Option<string>
    var currentStatement: MappedStatement?
    /** Every call made on the driver, the statement handlers and the key generators, in order. */
    var log: seq<Event>
    /** The next handle the driver will give out: each prepare yields a new Statement. */
    var nextHandle: nat
    /** The updates accepted since the executor was created or last flushed. */
    ghost var pending: seq<Update>

    ghost predicate Valid()
      reads this
    {
      Inv(pending, statementList, batchResultList, currentSql, currentStatement, log, nextHandle)
    }

    constructor ()
      ensures statementList == [] && batchResultList == [] && pending == []
      ensures currentSql == None && currentStatement == null
      ensures log == [] && nextHandle == 0
      ensures Valid()
    {
      statementList, batchResultList := [], [];
      currentSql, currentStatement := None, null;
      log, nextHandle := [], 0;
      pending := [];
    }

    /**
     * doUpdate: extend the open group when sql and ms equal the current pair,
     * otherwise prepare a new handle and open a new group.
     */
    method DoUpdate(ms: MappedStatement, parameterObject: ParamObject, sql: string) returns (r: int)
      requires Valid()
      modifies this
      ensures r == BatchUpdateReturnValue
      ensures pending == old(pending) + [Update(ms, sql, parameterObject)]
      ensures currentSql == Some(sql) && currentStatement == ms
      ensures var n := |old(statementList)|;
        if old(currentSql) == Some(sql) && old(currentStatement) == ms then
          && n > 0
          && statementList == old(statementList)
          && batchResultList == old(batchResultList)[..n - 1]
                                + [old(batchResultList)[n - 1].AddParameterObject(parameterObject)]
          && log == old(log) + [AddedToBatch(statementList[n - 1], parameterObject)]
          && nextHandle == old(nextHandle)
        else
          && statementList == old(statementList) + [old(nextHandle)]
          && batchResultList == old(batchResultList) + [NewBatchResult(ms, sql, parameterObject)]
          && log == old(log) + [Prepared(old(nextHandle), sql), AddedToBatch(old(nextHandle), parameterObject)]
          && nextHandle == old(nextHandle) + 1
      ensures Valid()
    {
      r := BatchUpdateReturnValue;
      if currentSql == Some(sql) && currentStatement == ms {
        AddToLastGroup(ms, parameterObject, sql);
      } else {
        OpenGroup(ms, parameterObject, sql);
      }
    }

    /** The matching branch of doUpdate (lines 82-89 and 103): batch on the last handle. */
    method AddToLastGroup(ms: MappedStatement, parameterObject: ParamObject, sql: string)
      requires Valid() && currentSql == Some(sql) && currentStatement == ms
      modifies this
      ensures pending == old(pending) + [Update(ms, sql, parameterObject)]
      ensures var n := |old(statementList)|;
        && n > 0
        && statementList == old(statementList)
        && batchResultList == old(batchResultList)[..n - 1]
                              + [old(batchResultList)[n - 1].AddParameterObject(parameterObject)]
        && log == old(log) + [AddedToBatch(statementList[n - 1], parameterObject)]
      ensures currentSql == old(currentSql) && currentStatement == old(currentStatement)
      ensures nextHandle == old(nextHandle)
      ensures Valid()
    {
      ghost var u := Update(ms, sql, parameterObject);
      InvExtend(pending, statementList, batchResultList, currentSql, currentStatement, log, nextHandle, u);
      var last := |statementList| - 1;
      var stmt := statementList[last];
      log := log + [AddedToBatch(stmt, parameterObject)];
      batchResultList := batchResultList[..last] + [batchResultList[last].AddParameterObject(parameterObject)];
      pending := pending + [u];
    }

    /** The other branch of doUpdate (lines 91-101 and 103): prepare a new handle, open a group. */
    method OpenGroup(ms: MappedStatement, parameterObject: ParamObject, sql: string)
      requires Valid() && !(currentSql == Some(sql) && currentStatement == ms)
      modifies this
      ensures pending == old(pending) + [Update(ms, sql, parameterObject)]
      ensures statementList == old(statementList) + [old(nextHandle)]
      ensures batchResultList == old(batchResultList) + [NewBatchResult(ms, sql, parameterObject)]
      ensures log == old(log) + [Prepared(old(nextHandle), sql), AddedToBatch(old(nextHandle), parameterObject)]
      ensures currentSql == Some(sql) && currentStatement == ms
      ensures nextHandle == old(nextHandle) + 1
      ensures Valid()
    {
      ghost var u := Update(ms, sql, parameterObject);
      InvOpen(pending, statementList, batchResultList, currentSql, currentStatement, log, nextHandle, u);
      var stmt := nextHandle;
      var batchResult := NewBatchResult(ms, sql, parameterObject);
      nextHandle := nextHandle + 1;
      currentSql := Some(sql);
      currentStatement := ms;
      log := log + [Prepared(stmt, sql), AddedToBatch(stmt, parameterObject)];
      statementList := statementList + [stmt];
      batchResultList := batchResultList + [batchResult];
      pending := pending + [u];
    }

    /**
     * doFlushStatements: on rollback return an empty list; otherwise execute the
     * groups in order and stop at the first failure; in every case close every
     * handle and reset the batching state (the finally block).
     */
    method DoFlushStatements(isRollback: bool, exec: Handle -> ExecOutcome) returns (r: FlushResult)
      requires Valid()
      modifies this
      ensures r == FlushOutcome(old(batchResultList), old(statementList), isRollback, exec)
      ensures log == old(log) + FlushTrace(old(batchResultList), old(statementList), isRollback, exec)
      ensures statementList == [] && batchResultList == [] && currentSql == None && pending == []
      ensures currentStatement == old(currentStatement) && nextHandle == old(nextHandle)
      ensures Valid()
    {
      ghost var gs, hs, log0 := batchResultList, statementList, log;
      if isRollback {
        r := Flushed([]);
      } else {
        r := ExecuteGroups(statementList, batchResultList, exec);
      }
      ghost var ran := log[|log0|..];
      assert log == log0 + ran;
      assert ran == if isRollback then [] else RunTrace(gs, hs, exec);
      CloseAll();
      assert FlushTrace(gs, hs, isRollback, exec) == ran + Closes(hs);
      ConcatAssoc(log0, ran, Closes(hs));
    }

    /** The loop of doFlushStatements (lines 148-185). */
    method ExecuteGroups(hs: seq<Handle>, gs: seq<BatchResult>, exec: Handle -> ExecOutcome) returns (r: FlushResult)
      requires |hs| == |gs|
      requires Consecutive(hs, nextHandle) && HandlesBelow(log, nextHandle)
      modifies this`log
      ensures r == FlushOutcome(gs, hs, false, exec)
      ensures log == old(log) + RunTrace(gs, hs, exec)
      ensures HandlesBelow(log, nextHandle)
    {
      var results: seq<BatchResult> := [];
      var n := |hs|;
      var i := 0;
      while i < n
        invariant 0 <= i <= n
        invariant HandlesBelow(log, nextHandle)
        invariant log == old(log) + SuccessTrace(gs, hs, i)
        invariant i <= FirstFailure(hs, exec)
        invariant results == Completed(gs, hs, exec, i)
      {
        var stmt := hs[i];
        var batchResult := gs[i];
        ghost var before := log;
        log := log + [ExecutedBatch(stmt)];
        match exec(stmt) {
          case Executed(counts) =>
            batchResult := FinishGroup(stmt, batchResult, counts);
            GroupStep(gs, hs, exec, i, old(log), before, log, nextHandle, results, batchResult);
          case BatchUpdateFailure(counts) =>
            BatchFailureStep(gs, hs, exec, i, old(log), before, nextHandle);
            r := BatchFailed(BatchExecutorException(
              FailureMessage(batchResult.mappedStatement.id, i), counts, results, batchResult));
            return;
          case OtherSqlFailure =>
            SqlFailureStep(gs, hs, exec, i, old(log), before, nextHandle);
            r := SqlFailed;
            return;
        }
        results := results + [batchResult];
        i := i + 1;
      }
      SuccessEnd(gs, hs, exec);
      r := Flushed(results);
    }

    /** A group whose batch executed: record its counts, reconcile keys, close its handle (lines 155-171). */
    method FinishGroup(stmt: Handle, batchResult: BatchResult, counts: seq<int>) returns (done: BatchResult)
      modifies this`log
      ensures done == batchResult.SetUpdateCounts(counts)
      ensures log == old(log) + KeyEvents(done.mappedStatement, stmt, done.parameterObjects) + [Closed(stmt)]
    {
      done := batchResult.SetUpdateCounts(counts);
      var ms := done.mappedStatement;
      ReconcileKeys(ms, stmt, done.parameterObjects);
      log := log + [Closed(stmt)];
    }

    /** Key reconciliation for one executed group (lines 159-169). */
    method ReconcileKeys(ms: MappedStatement, stmt: Handle, parameterObjects: seq<ParamObject>)
      modifies this`log
      ensures log == old(log) + KeyEvents(ms, stmt, parameterObjects)
    {
      match ms.keyGenerator {
        case Jdbc3KeyGenerator =>
          log := log + [ProcessBatch(stmt, ms, parameterObjects)];
        case NoKeyGenerator =>
        case OtherKeyGenerator(_) =>
          var j := 0;
          while j < |parameterObjects|
            invariant 0 <= j <= |parameterObjects|
            invariant log == old(log) + ProcessAfterEach(ms, stmt, parameterObjects[..j])
          {
            assert parameterObjects[..j + 1][..j] == parameterObjects[..j];
            log := log + [ProcessAfter(stmt, ms, parameterObjects[j])];
            j := j + 1;
          }
          assert parameterObjects[..j] == parameterObjects;
      }
    }

    /** The finally block of doFlushStatements (lines 186-193). */
    method CloseAll()
      requires Consecutive(statementList, nextHandle) && HandlesBelow(log, nextHandle)
      modifies this
      ensures log == old(log) + Closes(old(statementList))
      ensures statementList == [] && batchResultList == [] && currentSql == None && pending == []
      ensures currentStatement == old(currentStatement) && nextHandle == old(nextHandle)
      ensures Valid()
    {
      var i := 0;
      while i < |statementList|
        invariant 0 <= i <= |statementList|
        invariant log == old(log) + Closes(statementList[..i])
        invariant HandlesBelow(log, nextHandle)
        modifies this`log
      {
        assert statementList[..i + 1][..i] == statementList[..i];
        log := log + [Closed(statementList[i])];
        i := i + 1;
      }
      assert statementList[..i] == statementList;
      InvReset(currentStatement, log, nextHandle);
      currentSql := None;
      statementList := [];
      batchResultList := [];
      pending := [];
    }

    /**
     * doQuery: flush every pending group first; if that raised, nothing is
     * prepared; otherwise prepare, parameterize and run the query, then close
     * its handle whether the query returned or raised.
     */
    method DoQuery(sql: string, exec: Handle -> ExecOutcome, query: Handle -> QueryOutcome) returns (r: QueryResult)
      requires Valid()
      modifies this
      ensures statementList == [] && batchResultList == [] && currentSql == None && pending == []
      ensures currentStatement == old(currentStatement)
      ensures var flushed := FlushOutcome(old(batchResultList), old(statementList), false, exec);
        var flushLog := old(log) + FlushTrace(old(batchResultList), old(statementList), false, exec);
        var h := old(nextHandle);
        if !flushed.Flushed? then
          && r == FlushFailed(flushed)
          && log == flushLog
          && nextHandle == h
        else
          && log == flushLog + [Prepared(h, sql), Queried(h), Closed(h)]
          && nextHandle == h + 1
          && r == (if query(h).Rows? then QueryRows(query(h).rows) else QuerySqlFailed)
      ensures Valid()
    {
      var flushed := DoFlushStatements(false, exec);
      if !flushed.Flushed? {
        r := FlushFailed(flushed);
        return;
      }
      r := RunQuery(sql, query);
    }

    /** The query proper, once the flush has emptied the batch. */
    method RunQuery(sql: string, query: Handle -> QueryOutcome) returns (r: QueryResult)
      requires Valid()
      requires statementList == [] && batchResultList == [] && currentSql == None && pending == []
      modifies this`log, this`nextHandle
      ensures nextHandle == old(nextHandle) + 1
      ensures log == old(log) + [Prepared(old(nextHandle), sql), Queried(old(nextHandle)), Closed(old(nextHandle))]
      ensures r == (if query(old(nextHandle)).Rows? then QueryRows(query(old(nextHandle)).rows) else QuerySqlFailed)
      ensures Valid()
    {
      var stmt := nextHandle;
      QueryKeepsHandles(log, stmt, sql);
      nextHandle := nextHandle + 1;
      log := log + [Prepared(stmt, sql), Queried(stmt)];
      match query(stmt) {
        case Rows(rows) => r := QueryRows(rows);
        case QueryFailure => r := QuerySqlFailed;
      }
      log := log + [Closed(stmt)];
      InvReset(currentStatement, log, nextHandle);
    }
  }
}
