/**
 * The JDBC driver and the key generators as the executor sees them: statement
 * handles, the answers the driver gives, and the log of calls the executor
 * makes to them, in order.
 */
module Jdbc {
  import opened Mapping

  /** A live `java.sql.Statement`, known by an identity the driver hands out. */
  type Handle = nat

  /** What `Statement.executeBatch()` does for one handle. */
  datatype ExecOutcome =
    | Executed(updateCounts: seq<int>)
      // a BatchUpdateException, carrying the counts the driver reports
    | BatchUpdateFailure(updateCounts: seq<int>)
      // any other SQLException
    | OtherSqlFailure

  /** What `StatementHandler.query` does for one handle. */
  datatype QueryOutcome = Rows(rows: seq<ResultObject>) | QueryFailure

  /** One call the executor makes on a collaborator. */
  datatype Event =
      // StatementHandler.prepare returned this new handle for the SQL
    | Prepared(handle: Handle, sql: string)
      // StatementHandler.parameterize then StatementHandler.batch for one parameter object
    | AddedToBatch(handle: Handle, parameter: ParamObject)
      // Statement.executeBatch
    | ExecutedBatch(handle: Handle)
      // Jdbc3KeyGenerator.processBatch with the group's whole parameter list
    | ProcessBatch(handle: Handle, ms: MappedStatement, parameters: seq<ParamObject>)
      // KeyGenerator.processAfter for one parameter object
    | ProcessAfter(handle: Handle, ms: MappedStatement, parameter: ParamObject)
      // StatementHandler.parameterize then StatementHandler.query
    | Queried(handle: Handle)
      // BaseExecutor.closeStatement
    | Closed(handle: Handle)

  /** The parameter objects queued on handle h by the calls in log, in order. */
  function Queued(log: seq<Event>, h: Handle): seq<ParamObject>
    decreases |log|
  {
    if log == [] then []
    else
      var e := log[|log| - 1];
      Queued(log[..|log| - 1], h) + (if e.AddedToBatch? && e.handle == h then [e.parameter] else [])
  }

  /** The handles executed by the calls in log, in order. */
  function Executions(log: seq<Event>): seq<Handle>
    decreases |log|
  {
    if log == [] then []
    else
      var e := log[|log| - 1];
      Executions(log[..|log| - 1]) + (if e.ExecutedBatch? then [e.handle] else [])
  }

  /** One closeStatement call per handle of hs, in order. */
  function Closes(hs: seq<Handle>): seq<Event>
    decreases |hs|
  {
    if hs == [] then [] else Closes(hs[..|hs| - 1]) + [Closed(hs[|hs| - 1])]
  }

  lemma {:induction false} ConcatAssoc(a: seq<Event>, b: seq<Event>, c: seq<Event>)
    ensures a + b + c == a + (b + c)
  {
  }

  /** Every call in log concerns a handle below n. */
  predicate HandlesBelow(log: seq<Event>, n: nat) {
    forall k :: 0 <= k < |log| ==> log[k].handle < n
  }

  lemma {:induction false} HandlesBelowConcat(a: seq<Event>, b: seq<Event>, n: nat)
    requires HandlesBelow(a, n) && HandlesBelow(b, n)
    ensures HandlesBelow(a + b, n)
  {
  }

  lemma {:induction false} QueuedSnoc(log: seq<Event>, e: Event, h: Handle)
    ensures Queued(log + [e], h)
         == Queued(log, h) + (if e.AddedToBatch? && e.handle == h then [e.parameter] else [])
  {
    assert (log + [e])[..|log|] == log;
  }

  /** A handle no call mentions has nothing queued. */
  lemma {:induction false} QueuedUnused(log: seq<Event>, h: Handle)
    requires HandlesBelow(log, h)
    ensures Queued(log, h) == []
    decreases |log|
  {
    if log != [] {
      QueuedUnused(log[..|log| - 1], h);
    }
  }

  lemma {:induction false} ExecutionsConcat(a: seq<Event>, b: seq<Event>)
    ensures Executions(a + b) == Executions(a) + Executions(b)
    decreases |b|
  {
    if b == [] {
      assert a + b == a;
    } else {
      var b' := b[..|b| - 1];
      assert (a + b)[..|a + b| - 1] == a + b';
      ExecutionsConcat(a, b');
    }
  }

  /** Executions lists exactly the handles of the ExecutedBatch calls. */
  lemma {:induction false} ExecutionsMembers(log: seq<Event>, h: Handle)
    ensures ExecutedBatch(h) in log <==> h in Executions(log)
    decreases |log|
  {
    if log != [] {
      var init := log[..|log| - 1];
      assert log == init + [log[|log| - 1]];
      ExecutionsMembers(init, h);
    }
  }

  lemma {:induction false} ClosesExecuteNothing(hs: seq<Handle>)
    ensures Executions(Closes(hs)) == []
    decreases |hs|
  {
    if hs != [] {
      ClosesExecuteNothing(hs[..|hs| - 1]);
      ExecutionsConcat(Closes(hs[..|hs| - 1]), [Closed(hs[|hs| - 1])]);
    }
  }

  /** Closes(hs) closes exactly the handles of hs. */
  lemma {:induction false} ClosesMembers(hs: seq<Handle>, h: Handle)
    ensures Closed(h) in Closes(hs) <==> h in hs
    decreases |hs|
  {
    if hs != [] {
      var init := hs[..|hs| - 1];
      assert hs == init + [hs[|hs| - 1]];
      ClosesMembers(init, h);
    }
  }

  lemma {:induction false} ClosesHandles(hs: seq<Handle>)
    ensures |Closes(hs)| == |hs|
    ensures forall k :: 0 <= k < |hs| ==> Closes(hs)[k] == Closed(hs[k])
    decreases |hs|
  {
    if hs != [] {
      ClosesHandles(hs[..|hs| - 1]);
    }
  }
}
