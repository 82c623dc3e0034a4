/**
 * How a sequence of updates falls into batch groups. A group is extended while
 * the SQL text and the mapped statement stay the same as those of the previous
 * update; any change, including a return to a pair seen earlier, opens a new
 * group. Batched is that rule applied update by update; Expand and WellFormed
 * describe groups independently of it, and the lemmas show that Batched yields
 * a well-formed grouping whose expansion is the input, with one group per
 * change of (SQL, statement) pair.
 */
module Batching {
  import opened Common
  import opened Mapping

  /** One doUpdate call: the statement, the SQL it rendered to, the parameter object. */
  datatype Update = Update(ms: MappedStatement, sql: string, parameter: ParamObject)

  /** The batching eligibility rule: same SQL text and the same mapped statement. */
  predicate SameKey(a: Update, b: Update) {
    a.sql == b.sql && a.ms == b.ms
  }

  predicate GroupHolds(g: BatchResult, u: Update) {
    g.sql == u.sql && g.mappedStatement == u.ms
  }

  /** The groups the executor holds after the updates ups, applied from a clean state. */
  function Batched(ups: seq<Update>): (gs: seq<BatchResult>)
    ensures |gs| == 0 <==> |ups| == 0
    ensures ups != [] ==> GroupHolds(gs[|gs| - 1], ups[|ups| - 1])
    decreases |ups|
  {
    if ups == [] then []
    else
      var prev := Batched(ups[..|ups| - 1]);
      var u := ups[|ups| - 1];
      if |ups| > 1 && SameKey(ups[|ups| - 2], u) then
        prev[..|prev| - 1] + [prev[|prev| - 1].AddParameterObject(u.parameter)]
      else
        prev + [NewBatchResult(u.ms, u.sql, u.parameter)]
  }

  /** A matching update extends the last group. */
  lemma {:induction false} BatchedExtend(init: seq<Update>, u: Update)
    requires init != [] && SameKey(init[|init| - 1], u)
    ensures var prev := Batched(init);
      Batched(init + [u]) == prev[..|prev| - 1] + [prev[|prev| - 1].AddParameterObject(u.parameter)]
  {
    var ups := init + [u];
    assert ups[..|ups| - 1] == init;
    assert ups[|ups| - 2] == init[|init| - 1];
  }

  /** Any other update opens a new group. */
  lemma {:induction false} BatchedOpen(init: seq<Update>, u: Update)
    requires init == [] || !SameKey(init[|init| - 1], u)
    ensures Batched(init + [u]) == Batched(init) + [NewBatchResult(u.ms, u.sql, u.parameter)]
  {
    var ups := init + [u];
    assert ups[..|ups| - 1] == init;
    if init != [] {
      assert ups[|ups| - 2] == init[|init| - 1];
    }
  }

  /** The updates one group stands for, in the order they were added. */
  function Members(g: BatchResult): (us: seq<Update>)
    ensures |us| == |g.parameterObjects|
    ensures forall i :: 0 <= i < |us| ==> us[i] == Update(g.mappedStatement, g.sql, g.parameterObjects[i])
  {
    seq(|g.parameterObjects|, i requires 0 <= i < |g.parameterObjects| =>
      Update(g.mappedStatement, g.sql, g.parameterObjects[i]))
  }

  /** The updates a list of groups stands for, group after group. */
  function Expand(gs: seq<BatchResult>): seq<Update>
    decreases |gs|
  {
    if gs == [] then [] else Expand(gs[..|gs| - 1]) + Members(gs[|gs| - 1])
  }

  predicate SameGroupKey(g: BatchResult, h: BatchResult) {
    g.sql == h.sql && g.mappedStatement == h.mappedStatement
  }

  /**
   * Groups as the executor keeps them before a flush: none is empty, none has
   * been executed, and two neighbours never share their (SQL, statement) pair.
   */
  predicate WellFormed(gs: seq<BatchResult>) {
    && (forall i :: 0 <= i < |gs| ==> |gs[i].parameterObjects| > 0 && gs[i].updateCounts.None?)
    && (forall i :: 0 < i < |gs| ==> KeyChangesAt(gs, i))
  }

  /** Group i has another (SQL, statement) pair than group i - 1. */
  predicate KeyChangesAt(gs: seq<BatchResult>, i: nat)
    requires 0 < i < |gs|
  {
    !SameGroupKey(gs[i - 1], gs[i])
  }

  /** The update at position i changes the (SQL, statement) pair, or is the first. */
  predicate StartsRun(ups: seq<Update>, i: nat)
    requires i < |ups|
  {
    i == 0 || !SameKey(ups[i - 1], ups[i])
  }

  /** The positions where an update starts a new run of (SQL, statement) pairs. */
  function Boundaries(ups: seq<Update>): set<nat> {
    set i: nat | i < |ups| && StartsRun(ups, i)
  }

  lemma {:induction false} ExpandSnoc(gs: seq<BatchResult>, g: BatchResult)
    ensures Expand(gs + [g]) == Expand(gs) + Members(g)
  {
    assert (gs + [g])[..|gs|] == gs;
  }

  lemma {:induction false} MembersAdd(g: BatchResult, p: ParamObject)
    ensures Members(g.AddParameterObject(p)) == Members(g) + [Update(g.mappedStatement, g.sql, p)]
  {
  }

  lemma {:induction false} WellFormedExtend(prev: seq<BatchResult>, p: ParamObject)
    requires WellFormed(prev) && prev != []
    ensures WellFormed(prev[..|prev| - 1] + [prev[|prev| - 1].AddParameterObject(p)])
  {
    var gs := prev[..|prev| - 1] + [prev[|prev| - 1].AddParameterObject(p)];
    assert forall j :: 0 <= j < |prev| - 1 ==> gs[j] == prev[j];
    forall i | 0 < i < |gs|
      ensures KeyChangesAt(gs, i)
    {
      assert KeyChangesAt(prev, i);
    }
  }

  lemma {:induction false} WellFormedOpen(prev: seq<BatchResult>, g: BatchResult)
    requires WellFormed(prev) && |g.parameterObjects| > 0 && g.updateCounts.None?
    requires prev == [] || !SameGroupKey(prev[|prev| - 1], g)
    ensures WellFormed(prev + [g])
  {
    var gs := prev + [g];
    forall i | 0 < i < |gs|
      ensures KeyChangesAt(gs, i)
    {
      if i < |prev| {
        assert KeyChangesAt(prev, i);
      }
    }
  }

  lemma {:induction false} BatchedWellFormed(ups: seq<Update>)
    ensures WellFormed(Batched(ups))
    decreases |ups|
  {
    if ups != [] {
      var init := ups[..|ups| - 1];
      var u := ups[|ups| - 1];
      assert ups == init + [u];
      BatchedWellFormed(init);
      if init != [] && SameKey(init[|init| - 1], u) {
        BatchedExtend(init, u);
        WellFormedExtend(Batched(init), u.parameter);
      } else {
        BatchedOpen(init, u);
        WellFormedOpen(Batched(init), NewBatchResult(u.ms, u.sql, u.parameter));
      }
    }
  }

  /** No update is lost, duplicated or moved: the groups expand back to the updates. */
  lemma {:induction false} ExpandBatched(ups: seq<Update>)
    ensures Expand(Batched(ups)) == ups
    decreases |ups|
  {
    if ups != [] {
      var init := ups[..|ups| - 1];
      var u := ups[|ups| - 1];
      assert ups == init + [u];
      ExpandBatched(init);
      if init != [] && SameKey(init[|init| - 1], u) {
        ExpandBatchedExtend(init, u);
      } else {
        ExpandBatchedOpen(init, u);
      }
    }
  }

  lemma {:induction false} ExpandBatchedOpen(init: seq<Update>, u: Update)
    requires init == [] || !SameKey(init[|init| - 1], u)
    requires Expand(Batched(init)) == init
    ensures Expand(Batched(init + [u])) == init + [u]
  {
    BatchedOpen(init, u);
    ExpandSnoc(Batched(init), NewBatchResult(u.ms, u.sql, u.parameter));
    assert Members(NewBatchResult(u.ms, u.sql, u.parameter)) == [u];
  }

  lemma {:induction false} ExpandBatchedExtend(init: seq<Update>, u: Update)
    requires init != [] && SameKey(init[|init| - 1], u)
    requires Expand(Batched(init)) == init
    ensures Expand(Batched(init + [u])) == init + [u]
  {
    BatchedExtend(init, u);
    var prev := Batched(init);
    var front := prev[..|prev| - 1];
    var last := prev[|prev| - 1];
    assert prev == front + [last];
    ExpandSnoc(front, last);
    ExpandSnoc(front, last.AddParameterObject(u.parameter));
    MembersAdd(last, u.parameter);
    assert Update(last.mappedStatement, last.sql, u.parameter) == u;
  }

  lemma {:induction false} BoundariesSnoc(ups: seq<Update>)
    requires ups != []
    ensures Boundaries(ups)
         == Boundaries(ups[..|ups| - 1])
          + (if |ups| == 1 || !SameKey(ups[|ups| - 2], ups[|ups| - 1]) then {|ups| - 1} else {})
  {
    var init := ups[..|ups| - 1];
    assert forall i :: 0 <= i < |init| ==> init[i] == ups[i];
  }

  /** One group per change of (SQL, statement) pair, not one per distinct pair. */
  lemma {:induction false} GroupCount(ups: seq<Update>)
    ensures |Batched(ups)| == |Boundaries(ups)|
    decreases |ups|
  {
    if ups != [] {
      var init := ups[..|ups| - 1];
      GroupCount(init);
      BoundariesSnoc(ups);
      assert |ups| - 1 !in Boundaries(init);
    }
  }
}
