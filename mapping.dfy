/**
 * The values the batching executor works with: mapped statements, their key
 * generators, the caller's parameter objects and the per-group BatchResult.
 */
module Mapping {
  import opened Common

  /**
   * The class of a statement's key generator. The executor tests the exact
   * runtime class, so any other generator, such as SelectKeyGenerator, or a
   * subclass of either named one falls under OtherKeyGenerator.
   */
  datatype KeyGeneratorKind =
    | Jdbc3KeyGenerator
    | NoKeyGenerator
    | OtherKeyGenerator(className: string)

  /**
   * A mapped statement. It is a class so that equality is object identity,
   * as `ms.equals(currentStatement)` is for a class that does not override
   * `equals`.
   */
  class MappedStatement {
    const id: string
    const keyGenerator: KeyGeneratorKind

    constructor (id: string, keyGenerator: KeyGeneratorKind)
      ensures this.id == id && this.keyGenerator == keyGenerator
    {
      this.id := id;
      this.keyGenerator := keyGenerator;
    }
  }

  /** A caller's parameter object, known only by its identity. */
  datatype ParamObject = ParamObject(ref: nat)

  /** An object a query maps a result row to, known only by its identity. */
  datatype ResultObject = ResultObject(ref: nat)

  /**
   * One group of batched updates: the statement, its SQL text, the parameter
   * objects in the order they were added, and the update counts once the
   * group has been executed (None until then).
   */
  datatype BatchResult = BatchResult(
    mappedStatement: MappedStatement,
    sql: string,
    parameterObjects: seq<ParamObject>,
    updateCounts: Option<seq<int>>)
  {
    function AddParameterObject(p: ParamObject): BatchResult {
      this.(parameterObjects := parameterObjects + [p])
    }

    function SetUpdateCounts(counts: seq<int>): BatchResult {
      this.(updateCounts := Some(counts))
    }
  }

  /** `new BatchResult(ms, sql, parameterObject)`: a group holding one parameter object. */
  function NewBatchResult(ms: MappedStatement, sql: string, p: ParamObject): BatchResult {
    BatchResult(ms, sql, [p], None)
  }
}
