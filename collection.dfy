/**
 * A collection handle (collection/collection.go): retrieving every document,
 * and the bulk writers SetForAll and DeleteAll, which split the collection's
 * documents into batches of at most 500 writes and commit them in order.
 */
module Collection {
  import opened Wrappers
  import opened Values
  import opened Store
  import opened Batching

  function Min(a: int, b: int): int {
    if a <= b then a else b
  }

  /** The write a bulk operation issues for each document. */
  datatype BulkAction =
    | SetField(fieldName: string, fieldValue: Value)
    | Remove

  /** SetForAll's `batch.Set(ref, {fieldName: fieldValue}, MergeAll)`, DeleteAll's `batch.Delete(ref)`. */
  function OpFor(action: BulkAction, ref: DocRef): (w: Write)
    ensures w.ref == ref
    ensures action.Remove? <==> w.DeleteDoc?
    ensures action.SetField? ==> w == FieldWrite(ref, action.fieldName, action.fieldValue)
  {
    match action
    case SetField(name, value) => FieldWrite(ref, name, value)
    case Remove => DeleteDoc(ref)
  }

  /** The writes for `refs`, one per reference, in enumeration order. */
  function Ops(action: BulkAction, refs: seq<DocRef>): (ops: seq<Write>)
    ensures |ops| == |refs|
    ensures forall i :: 0 <= i < |refs| ==> ops[i] == OpFor(action, refs[i])
  {
    seq(|refs|, i requires 0 <= i < |refs| => OpFor(action, refs[i]))
  }

  /** Batch `b`: the writes at positions 500*b up to (not including) 500*(b+1). */
  function Chunk(ops: seq<Write>, b: nat): seq<Write>
    requires b * MaxOperationsPerBatchedWrite <= |ops|
  {
    ops[b * MaxOperationsPerBatchedWrite .. Min((b + 1) * MaxOperationsPerBatchedWrite, |ops|)]
  }

  /** The batches the fill loop produces for `ops`: fill each to 500, then move on. */
  function Chunks(ops: seq<Write>): (bs: seq<seq<Write>>)
    ensures |bs| == CalculateRequiredBatches(|ops|)
  {
    seq(CalculateRequiredBatches(|ops|),
        b requires 0 <= b < CalculateRequiredBatches(|ops|) => Chunk(ops, b))
  }

  /** The batches' writes laid end to end. */
  function Flatten(bs: seq<seq<Write>>): seq<Write>
    decreases |bs|
  {
    if bs == [] then [] else Flatten(bs[..|bs| - 1]) + bs[|bs| - 1]
  }

  /**
   * No batch exceeds 500 writes and none is empty; every batch but the last
   * is full.
   */
  lemma ChunkSizes(ops: seq<Write>, b: nat)
    requires b < |Chunks(ops)|
    ensures 0 < |Chunks(ops)[b]| <= MaxOperationsPerBatchedWrite
    ensures b < |Chunks(ops)| - 1 ==> |Chunks(ops)[b]| == MaxOperationsPerBatchedWrite
  {
  }

  /** Write `i` lands in batch i div 500, at position i mod 500. */
  lemma Placement(ops: seq<Write>, i: nat)
    requires i < |ops|
    ensures i / MaxOperationsPerBatchedWrite < |Chunks(ops)|
    ensures i % MaxOperationsPerBatchedWrite < |Chunks(ops)[i / MaxOperationsPerBatchedWrite]|
    ensures Chunks(ops)[i / MaxOperationsPerBatchedWrite][i % MaxOperationsPerBatchedWrite] == ops[i]
  {
    var b := i / MaxOperationsPerBatchedWrite;
    assert b * MaxOperationsPerBatchedWrite <= i;
    assert Chunk(ops, b)[i % MaxOperationsPerBatchedWrite] == ops[i];
  }

  /**
   * The first k batches hold exactly the first min(500k, n) writes, in order:
   * each write is placed once and the enumeration order is kept. With k the
   * number of batches this is the whole of `ops`.
   */
  lemma {:induction false} FlattenPrefix(ops: seq<Write>, k: nat)
    requires k <= |Chunks(ops)|
    ensures Flatten(Chunks(ops)[..k]) == ops[..Min(k * MaxOperationsPerBatchedWrite, |ops|)]
  {
    var bs := Chunks(ops);
    if k == 0 {
      assert bs[..0] == [];
    } else {
      FlattenPrefix(ops, k - 1);
      assert bs[..k][..k - 1] == bs[..k - 1];
      var lo := (k - 1) * MaxOperationsPerBatchedWrite;
      var hi := Min(k * MaxOperationsPerBatchedWrite, |ops|);
      assert ops[..lo] + ops[lo..hi] == ops[..hi];
    }
  }

  lemma BatchesCoverAll(ops: seq<Write>)
    ensures Flatten(Chunks(ops)) == ops
  {
    FlattenPrefix(ops, |Chunks(ops)|);
    assert Chunks(ops)[..|Chunks(ops)|] == Chunks(ops);
  }

  /**
   * The batches a bulk write prepares (collection.go:98-119): as many as
   * CalculateRequiredBatches says, filled in enumeration order with a running
   * batch index and a per-batch counter that moves on when it reaches 500.
   */
  method FillBatches(refs: seq<DocRef>, action: BulkAction) returns (batches: array<seq<Write>>)
    ensures batches.Length == CalculateRequiredBatches(|refs|)
    ensures batches[..] == Chunks(Ops(action, refs))
  {
    ghost var ops := Ops(action, refs);
    var batchCount := CalculateRequiredBatches(|refs|);
    batches := new seq<Write>[batchCount](_ => []);

    var currentBatch := 0;
    var currentBatchOpCount := 0;
    for i := 0 to |refs|
      invariant 0 <= currentBatchOpCount <= MaxOperationsPerBatchedWrite
      invariant 0 <= currentBatch
      invariant i == currentBatch * MaxOperationsPerBatchedWrite + currentBatchOpCount
      invariant i > 0 ==> currentBatchOpCount > 0
      invariant forall b :: 0 <= b < currentBatch && b < batchCount ==>
        batches[b] == ops[b * MaxOperationsPerBatchedWrite .. (b + 1) * MaxOperationsPerBatchedWrite]
      invariant currentBatch < batchCount ==>
        batches[currentBatch] == ops[currentBatch * MaxOperationsPerBatchedWrite .. i]
      invariant forall b :: currentBatch < b < batchCount ==> batches[b] == []
    {
      if currentBatchOpCount == MaxOperationsPerBatchedWrite {
        currentBatch := currentBatch + 1;
        currentBatchOpCount := 0;
      }
      currentBatchOpCount := currentBatchOpCount + 1;
      batches[currentBatch] := batches[currentBatch] + [OpFor(action, refs[i])];
    }

    forall b | 0 <= b < batchCount
      ensures batches[b] == Chunks(ops)[b]
    {
      assert b <= currentBatch;
    }
  }

  /**
   * The index of the first of batches from..count-1 whose commit fails, or
   * count when none does.
   */
  function FirstFault(commitFault: nat -> Option<nat>, from: nat, count: nat): (k: nat)
    requires from <= count
    ensures from <= k <= count
    ensures forall j :: from <= j < k ==> commitFault(j).None?
    ensures k < count ==> commitFault(k).Some?
    decreases count - from
  {
    if from == count then count
    else if commitFault(from).Some? then from
    else FirstFault(commitFault, from + 1, count)
  }

  /**
   * Commit the batches one at a time, in order (collection.go:122-127): the
   * first failing commit's error is returned, the batches before it stay
   * applied and the ones after it are never attempted.
   */
  method CommitBatches(db: Firestore, batches: array<seq<Write>>, commitFault: nat -> Option<nat>)
    returns (err: Option<Error>)
    modifies db
    ensures var k := FirstFault(commitFault, 0, batches.Length);
      && err == (if k < batches.Length then ErrorOf(commitFault(k)) else None)
      && db.docs == ApplyWrites(old(db.docs), Flatten(batches[..k]))
      && db.commits == old(db.commits) + batches[..Min(k + 1, batches.Length)]
  {
    ghost var k := FirstFault(commitFault, 0, batches.Length);
    var i := 0;
    while i < batches.Length
      invariant 0 <= i <= batches.Length
      invariant forall j :: 0 <= j < i ==> commitFault(j).None?
      invariant db.docs == ApplyWrites(old(db.docs), Flatten(batches[..i]))
      invariant db.commits == old(db.commits) + batches[..i]
    {
      ghost var before := db.docs;
      err := db.Commit(batches[i], commitFault(i));
      assert batches[..i + 1] == batches[..i] + [batches[i]];
      if err.Some? {
        assert k == i;
        return;
      }
      assert batches[..i + 1][..i] == batches[..i];
      ApplyWritesAppend(old(db.docs), Flatten(batches[..i]), batches[i]);
      i := i + 1;
    }
    assert k == batches.Length;
    assert batches[..i] == batches[..batches.Length];
    err := None;
  }

  /**
   * The listing `refs` covers collection `path`: every listed reference is in
   * the collection and every document of the collection is listed. A listing
   * may repeat a reference or name one without a document; the bulk writes
   * issue their write for it all the same.
   */
  predicate Covers(docs: Docs, path: string, refs: seq<DocRef>) {
    && (forall r :: r in refs ==> r.collection == path)
    && (forall r :: r in docs && r.collection == path ==> r in refs)
  }

  /**
   * What the merge-writes of a completed SetForAll leave at document `d`,
   * whatever the references: a listed document merged with `data` once (a
   * repeated reference is harmless, merges being idempotent), any other
   * document as it was.
   */
  lemma {:induction false} MergesAppliedAt(docs: Docs, refs: seq<DocRef>, name: string, value: Value, d: DocRef)
    ensures var after := ApplyWrites(docs, Ops(SetField(name, value), refs));
      && (d in after <==> d in docs || d in refs)
      && (d in refs ==> after[d] == MergeFields(DocOrEmpty(docs, d), map[name := value]))
      && (d !in refs && d in docs ==> after[d] == docs[d])
    decreases |refs|
  {
    var ops := Ops(SetField(name, value), refs);
    if refs != [] {
      assert ops[1..] == Ops(SetField(name, value), refs[1..]);
      MergesAppliedAt(ApplyWrite(docs, ops[0]), refs[1..], name, value, d);
      if d == refs[0] {
        MergeFieldsIdempotent(DocOrEmpty(docs, d), map[name := value]);
      }
    } else {
      assert ops == [];
    }
  }

  /** The deletes of a completed DeleteAll remove exactly the listed documents. */
  lemma {:induction false} DeletesApplied(docs: Docs, refs: seq<DocRef>)
    ensures ApplyWrites(docs, Ops(Remove, refs)) == map r | r in docs && r !in refs :: docs[r]
    decreases |refs|
  {
    var ops := Ops(Remove, refs);
    if refs == [] {
      assert ops == [];
    } else {
      assert ops[1..] == Ops(Remove, refs[1..]);
      DeletesApplied(ApplyWrite(docs, ops[0]), refs[1..]);
      assert forall r :: r in refs <==> r == refs[0] || r in refs[1..];
    }
  }

  /** `docs` after every document of collection `path` was merge-written with {name: value}. */
  function MergedCollection(docs: Docs, path: string, name: string, value: Value): Docs {
    map r | r in docs :: if r.collection == path then MergeFields(docs[r], map[name := value]) else docs[r]
  }

  /** `docs` without the documents of collection `path`. */
  function EmptiedCollection(docs: Docs, path: string): Docs {
    map r | r in docs && r.collection != path :: docs[r]
  }

  /**
   * A completed SetForAll merges {name: value} into every document of the
   * collection, leaving other fields and other collections untouched.
   */
  lemma SetForAllCompleted(docs: Docs, path: string, refs: seq<DocRef>, name: string, value: Value)
    requires Covers(docs, path, refs)
    requires forall r :: r in refs ==> r in docs
    ensures ApplyWrites(docs, Ops(SetField(name, value), refs)) == MergedCollection(docs, path, name, value)
  {
    var after := ApplyWrites(docs, Ops(SetField(name, value), refs));
    var merged := MergedCollection(docs, path, name, value);
    forall d | d in after || d in merged
      ensures d in after && d in merged && after[d] == merged[d]
    {
      MergesAppliedAt(docs, refs, name, value, d);
    }
  }

  /** A completed DeleteAll leaves no document of the collection and nothing else changed. */
  lemma DeleteAllCompleted(docs: Docs, path: string, refs: seq<DocRef>)
    requires Covers(docs, path, refs)
    ensures ApplyWrites(docs, Ops(Remove, refs)) == EmptiedCollection(docs, path)
    ensures forall r :: r in EmptiedCollection(docs, path) ==> r.collection != path
  {
    DeletesApplied(docs, refs);
    assert forall r :: r in docs ==> (r !in refs <==> r.collection != path);
  }

  /** A collection handle, identified by its (already trimmed) path. */
  datatype FirestoreCollection = FirestoreCollection(path: string) {

    /**
     * The shared body of SetForAll and DeleteAll: an enumeration failure is
     * swallowed (nil returned, nothing written); otherwise the batches are
     * filled and committed in order, stopping at the first failure.
     */
    method BulkWrite(db: Firestore, action: BulkAction, listing: Result<seq<DocRef>, nat>,
                     commitFault: nat -> Option<nat>) returns (err: Option<Error>)
      modifies db
      ensures listing.Failure? ==> err.None? && db.docs == old(db.docs) && db.commits == old(db.commits)
      ensures listing.Success? ==>
        var ops := Ops(action, listing.value);
        var batches := Chunks(ops);
        var k := FirstFault(commitFault, 0, |batches|);
        && err == (if k < |batches| then ErrorOf(commitFault(k)) else None)
        && db.docs == ApplyWrites(old(db.docs), ops[..Min(k * MaxOperationsPerBatchedWrite, |ops|)])
        && db.commits == old(db.commits) + batches[..Min(k + 1, |batches|)]
    {
      if listing.Failure? {
        return None;
      }
      var batches := FillBatches(listing.value, action);
      err := CommitBatches(db, batches, commitFault);
      FlattenPrefix(Ops(action, listing.value), FirstFault(commitFault, 0, batches.Length));
    }

    /**
     * Set field `fieldName` to `fieldValue` (a merge-write) on every document
     * of the collection.
     */
    method SetForAll(db: Firestore, fieldName: string, fieldValue: Value,
                     listing: Result<seq<DocRef>, nat>, commitFault: nat -> Option<nat>)
      returns (err: Option<Error>)
      modifies db
      ensures listing.Failure? ==> err.None? && db.docs == old(db.docs) && db.commits == old(db.commits)
      ensures listing.Success? ==>
        var ops := Ops(SetField(fieldName, fieldValue), listing.value);
        var batches := Chunks(ops);
        var k := FirstFault(commitFault, 0, |batches|);
        && err == (if k < |batches| then ErrorOf(commitFault(k)) else None)
        && db.docs == ApplyWrites(old(db.docs), ops[..Min(k * MaxOperationsPerBatchedWrite, |ops|)])
        && db.commits == old(db.commits) + batches[..Min(k + 1, |batches|)]
      ensures listing.Success? && err.None? ==>
        && (forall d :: d in listing.value ==>
              d in db.docs && db.docs[d] == MergeFields(DocOrEmpty(old(db.docs), d), map[fieldName := fieldValue]))
        && (forall d :: d in old(db.docs) && d !in listing.value ==> d in db.docs && db.docs[d] == old(db.docs)[d])
        && (forall d :: d in db.docs ==> d in old(db.docs) || d in listing.value)
      ensures listing.Success? && err.None? && Covers(old(db.docs), path, listing.value)
              && (forall r :: r in listing.value ==> r in old(db.docs)) ==>
        db.docs == MergedCollection(old(db.docs), path, fieldName, fieldValue)
    {
      err := BulkWrite(db, SetField(fieldName, fieldValue), listing, commitFault);
      if listing.Success? && err.None? {
        var ops := Ops(SetField(fieldName, fieldValue), listing.value);
        assert ops[..Min(|Chunks(ops)| * MaxOperationsPerBatchedWrite, |ops|)] == ops;
        assert db.docs == ApplyWrites(old(db.docs), ops);
        forall d | d in listing.value || d in old(db.docs) || d in db.docs
          ensures d in db.docs <==> d in old(db.docs) || d in listing.value
          ensures d in listing.value ==>
            db.docs[d] == MergeFields(DocOrEmpty(old(db.docs), d), map[fieldName := fieldValue])
          ensures d in old(db.docs) && d !in listing.value ==> db.docs[d] == old(db.docs)[d]
        {
          MergesAppliedAt(old(db.docs), listing.value, fieldName, fieldValue, d);
        }
        if Covers(old(db.docs), path, listing.value) && (forall r :: r in listing.value ==> r in old(db.docs)) {
          SetForAllCompleted(old(db.docs), path, listing.value, fieldName, fieldValue);
        }
      }
    }

    /** Delete every document of the collection. */
    method DeleteAll(db: Firestore, listing: Result<seq<DocRef>, nat>, commitFault: nat -> Option<nat>)
      returns (err: Option<Error>)
      modifies db
      ensures listing.Failure? ==> err.None? && db.docs == old(db.docs) && db.commits == old(db.commits)
      ensures listing.Success? ==>
        var ops := Ops(Remove, listing.value);
        var batches := Chunks(ops);
        var k := FirstFault(commitFault, 0, |batches|);
        && err == (if k < |batches| then ErrorOf(commitFault(k)) else None)
        && db.docs == ApplyWrites(old(db.docs), ops[..Min(k * MaxOperationsPerBatchedWrite, |ops|)])
        && db.commits == old(db.commits) + batches[..Min(k + 1, |batches|)]
      ensures listing.Success? && err.None? ==>
        db.docs == map r | r in old(db.docs) && r !in listing.value :: old(db.docs)[r]
      ensures listing.Success? && err.None? && Covers(old(db.docs), path, listing.value) ==>
        db.docs == EmptiedCollection(old(db.docs), path)
      ensures listing.Success? && listing.value == [] ==>
        err.None? && db.docs == old(db.docs) && db.commits == old(db.commits)
    {
      err := BulkWrite(db, Remove, listing, commitFault);
      if listing.Success? && err.None? {
        var ops := Ops(Remove, listing.value);
        assert ops[..Min(|Chunks(ops)| * MaxOperationsPerBatchedWrite, |ops|)] == ops;
        DeletesApplied(old(db.docs), listing.value);
        if Covers(old(db.docs), path, listing.value) {
          DeleteAllCompleted(old(db.docs), path, listing.value);
        }
      }
    }

    /**
     * Retrieve every document of the collection (collection.go:58-76). Step
     * `i` of the iterator either fails (`nextFault(i)`), reports the end, or
     * yields document `i`, whose decoding may fail (`decodeFault(i)`). Every
     * decoded document is appended as the same `sample` handle, so only the
     * length and order of the result are modelled.
     */
    method Retrieve<S>(db: Firestore, listing: seq<DocRef>, sample: S,
                       nextFault: nat -> Option<nat>, decodeFault: nat -> Option<nat>)
      returns (result: Option<seq<S>>, err: Option<Error>)
      ensures var k := FirstStop(|listing|, nextFault, decodeFault, 0);
        if k <= |listing| then
          && result.None?
          && err == (if nextFault(k).Some? then ErrorOf(nextFault(k)) else ErrorOf(decodeFault(k)))
          && err.Some?
        else
          result == Some(seq(|listing|, _ => sample)) && err.None?
    {
      var acc: seq<S> := [];
      var i := 0;
      while true
        invariant 0 <= i <= |listing|
        invariant FirstStop(|listing|, nextFault, decodeFault, 0) == FirstStop(|listing|, nextFault, decodeFault, i)
        invariant acc == seq(i, _ => sample)
        decreases |listing| - i
      {
        if nextFault(i).Some? {
          return None, ErrorOf(nextFault(i));
        }
        if i == |listing| {
          break;
        }
        if decodeFault(i).Some? {
          return None, ErrorOf(decodeFault(i));
        }
        acc := acc + [sample];
        i := i + 1;
      }
      result, err := Some(acc), None;
    }
  }

  /**
   * The first iterator step at or after `i` that ends Retrieve with an error
   * (a failing Next, or for a yielded document a failing decode), or n + 1
   * when the iteration reaches its end cleanly.
   */
  function FirstStop(n: nat, nextFault: nat -> Option<nat>, decodeFault: nat -> Option<nat>, i: nat): (k: nat)
    requires i <= n + 1
    ensures i <= k <= n + 1
    ensures k <= n ==> nextFault(k).Some? || (k < n && decodeFault(k).Some?)
    ensures forall j :: i <= j < k ==> nextFault(j).None? && (j < n ==> decodeFault(j).None?)
    decreases n + 1 - i
  {
    if i == n + 1 then n + 1
    else if nextFault(i).Some? || (i < n && decodeFault(i).Some?) then i
    else FirstStop(n, nextFault, decodeFault, i + 1)
  }

  /** With no faults and no documents, Retrieve's result is an empty, non-nil sequence. */
  lemma RetrieveEmptyCollection(nextFault: nat -> Option<nat>, decodeFault: nat -> Option<nat>)
    requires nextFault(0).None?
    ensures FirstStop(0, nextFault, decodeFault, 0) == 1
  {
  }
}
