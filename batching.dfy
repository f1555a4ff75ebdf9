/** Batch sizing for bulk writes (collection/internal/collection.go). */
module Batching {

  /** The most operations one batched write can hold. */
  const MaxOperationsPerBatchedWrite: int := 500

  /**
   * The number of batched writes needed for `operationCount` operations: the
   * ceiling of operationCount / 500, i.e. the least number of batches whose
   * capacity covers every operation.
   */
  function CalculateRequiredBatches(operationCount: int): (r: int)
    ensures r * MaxOperationsPerBatchedWrite >= operationCount
    ensures (r - 1) * MaxOperationsPerBatchedWrite < operationCount
  {
    (operationCount + MaxOperationsPerBatchedWrite - 1) / MaxOperationsPerBatchedWrite
  }

  /** The two capacity bounds determine the result: it is exactly the ceiling. */
  lemma RequiredBatchesIsCeiling(n: int, k: int)
    requires k * MaxOperationsPerBatchedWrite >= n
    requires (k - 1) * MaxOperationsPerBatchedWrite < n
    ensures k == CalculateRequiredBatches(n)
  {
  }

  /** No operations need no batch; any operation needs at least one. */
  lemma RequiredBatchesZeroIff(n: nat)
    ensures CalculateRequiredBatches(n) >= 0
    ensures CalculateRequiredBatches(n) == 0 <==> n == 0
  {
  }

  /** More operations never need fewer batches. */
  lemma RequiredBatchesMonotone(m: int, n: int)
    requires m <= n
    ensures CalculateRequiredBatches(m) <= CalculateRequiredBatches(n)
  {
  }

  /** The unit-test table: 0, 1, 500, 501 and 3100 operations. */
  lemma RequiredBatchesExamples()
    ensures CalculateRequiredBatches(0) == 0
    ensures CalculateRequiredBatches(1) == 1
    ensures CalculateRequiredBatches(500) == 1
    ensures CalculateRequiredBatches(501) == 2
    ensures CalculateRequiredBatches(3100) == 7
  {
  }
}
