/**
 * An abstract in-memory document store standing in for the Firestore client:
 * documents addressed by (collection path, id), snapshots, the writes a
 * client can issue, and a store object whose calls fail as an oracle says.
 */
module Store {
  import opened Wrappers
  import opened Values

  /** A document reference: collection path and document id. */
  datatype DocRef = DocRef(collection: string, id: string)

  type Doc = Fields

  type Docs = map<DocRef, Doc>

  /**
   * The errors the wrapper can return: its own sentinel for an absent
   * document, the store's complaints about a field or snapshot, a time-zone
   * lookup failure, and any other store or transport error, passed on as is.
   */
  datatype Error =
    | DocumentNotExist
    | NoSuchField(name: string)
    | SnapshotMissing(ref: DocRef)
    | UnknownLocation(location: string)
    | StoreFailure(code: nat)

  /**
   * A store call's fault oracle: `None` when the call succeeds, `Some(code)`
   * when the store reports error `code`. This is the error the call returns.
   */
  function ErrorOf(fault: Option<nat>): (err: Option<Error>)
    ensures err.None? <==> fault.None?
    ensures fault.Some? ==> err == Some(StoreFailure(fault.value))
  {
    if fault.Some? then Some(StoreFailure(fault.value)) else None
  }

  function Lookup(docs: Docs, ref: DocRef): Option<Doc> {
    if ref in docs then Some(docs[ref]) else None
  }

  function DocOrEmpty(docs: Docs, ref: DocRef): Doc {
    if ref in docs then docs[ref] else map[]
  }

  /** What a successful Get returns: the document's data, if it exists. */
  datatype Snapshot = Snapshot(ref: DocRef, data: Option<Doc>) {

    predicate Exists() {
      data.Some?
    }

    /**
     * The value of field `name`: fails for a snapshot of an absent document
     * and for an absent field.
     */
    function DataAt(name: string): (r: Result<Value, Error>)
      ensures r.Success? <==> Exists() && name in data.value
      ensures r.Success? ==> r.value == data.value[name]
      ensures !Exists() ==> r == Failure(SnapshotMissing(ref))
      ensures Exists() && name !in data.value ==> r == Failure(NoSuchField(name))
    {
      if !Exists() then Failure(SnapshotMissing(ref))
      else if name in data.value then Success(data.value[name])
      else Failure(NoSuchField(name))
    }
  }

  /** `DataAt(name)` on the snapshot a fault-free Get of `ref` returns. */
  function FieldAt(docs: Docs, ref: DocRef, name: string): Result<Value, Error> {
    Snapshot(ref, Lookup(docs, ref)).DataAt(name)
  }

  /**
   * Does field `name` of document `ref`, when present, hold a value of
   * `kind`? The source's unchecked type assertions need this.
   */
  predicate FieldKindIs(docs: Docs, ref: DocRef, name: string, kind: Kind) {
    ref in docs && name in docs[ref] ==> KindOf(docs[ref][name]) == kind
  }

  /**
   * The writes a client issues: a plain Set replaces the whole document, a
   * MergeAll Set merges the given fields, a Replace (a Set merging exactly
   * one field path) replaces one field whole, a Delete removes the document.
   */
  datatype Write =
    | SetDoc(ref: DocRef, doc: Doc)
    | MergeDoc(ref: DocRef, data: Fields)
    | ReplaceField(ref: DocRef, name: string, value: Value)
    | DeleteDoc(ref: DocRef)

  /** The merge-write `Set({name: v}, MergeAll)` the field accessors issue. */
  function FieldWrite(ref: DocRef, name: string, v: Value): Write {
    MergeDoc(ref, map[name := v])
  }

  function ApplyWrite(docs: Docs, w: Write): (r: Docs)
    ensures r - {w.ref} == docs - {w.ref}
    ensures w.DeleteDoc? <==> w.ref !in r
  {
    match w
    case SetDoc(ref, doc) => docs[ref := doc]
    case MergeDoc(ref, data) => docs[ref := MergeFields(DocOrEmpty(docs, ref), data)]
    case ReplaceField(ref, name, value) => docs[ref := DocOrEmpty(docs, ref)[name := value]]
    case DeleteDoc(ref) => docs - {ref}
  }

  /** The store after a single write whose call reported `fault`: applied only if it succeeded. */
  function AfterWrite(docs: Docs, w: Write, fault: Option<nat>): (r: Docs)
    ensures fault.Some? ==> r == docs
  {
    if fault.None? then ApplyWrite(docs, w) else docs
  }

  /** The writes of `ws` applied one after another, in order. */
  function ApplyWrites(docs: Docs, ws: seq<Write>): Docs
    decreases |ws|
  {
    if ws == [] then docs else ApplyWrites(ApplyWrite(docs, ws[0]), ws[1..])
  }

  lemma {:induction false} ApplyWritesAppend(docs: Docs, a: seq<Write>, b: seq<Write>)
    ensures ApplyWrites(docs, a + b) == ApplyWrites(ApplyWrites(docs, a), b)
    decreases |a|
  {
    if a != [] {
      assert (a + b)[1..] == a[1..] + b;
      ApplyWritesAppend(ApplyWrite(docs, a[0]), a[1..], b);
    } else {
      assert a + b == b;
    }
  }

  /**
   * A merge-write of the single field `name` changes that field of `ref`
   * only: the field becomes the merge of its old value with `v`, the other
   * fields of the document and every other document keep their values, and
   * the document exists afterwards.
   */
  lemma MergeWriteChangesOnlyField(docs: Docs, ref: DocRef, name: string, v: Value)
    ensures var after := ApplyWrite(docs, FieldWrite(ref, name, v));
      && ref in after
      && after[ref] == DocOrEmpty(docs, ref)[name := MergeValue(Get(DocOrEmpty(docs, ref), name), v)]
      && after - {ref} == docs - {ref}
  {
  }

  /** The field written by a merge-write reads back as the merged value. */
  lemma MergeWriteReadBack(docs: Docs, ref: DocRef, name: string, v: Value)
    ensures FieldAt(ApplyWrite(docs, FieldWrite(ref, name, v)), ref, name)
         == Success(MergeValue(Get(DocOrEmpty(docs, ref), name), v))
  {
  }

  /**
   * A merge-write of a value the merge does not descend into (anything but a
   * non-empty map) replaces that one field whole: it reads back as written.
   */
  lemma FieldWriteReplaces(docs: Docs, ref: DocRef, name: string, v: Value)
    requires !IsMergeable(v)
    ensures var after := ApplyWrite(docs, FieldWrite(ref, name, v));
      && FieldAt(after, ref, name) == Success(v)
      && after[ref] == DocOrEmpty(docs, ref)[name := v]
      && after - {ref} == docs - {ref}
  {
    MergeWriteChangesOnlyField(docs, ref, name, v);
  }

  /**
   * A Replace write sets the field to exactly the given value, whatever it
   * is, and changes nothing else.
   */
  lemma ReplaceFieldExact(docs: Docs, ref: DocRef, name: string, v: Value)
    ensures var after := ApplyWrite(docs, ReplaceField(ref, name, v));
      && FieldAt(after, ref, name) == Success(v)
      && after[ref] == DocOrEmpty(docs, ref)[name := v]
      && after - {ref} == docs - {ref}
  {
  }

  /**
   * The abstract store. `docs` is its content; `commits` records every batch
   * commit that was attempted, in order (ghost: it is not observable).
   */
  class Firestore {
    var docs: Docs
    ghost var commits: seq<seq<Write>>

    constructor (initial: Docs)
      ensures docs == initial && commits == []
    {
      docs := initial;
      commits := [];
    }

    /** `ref.Get`: a snapshot of the document, or the injected error. */
    method Get(ref: DocRef, fault: Option<nat>) returns (r: Result<Snapshot, Error>)
      ensures r.Failure? <==> fault.Some?
      ensures r.Failure? ==> Some(r.error) == ErrorOf(fault)
      ensures r.Success? ==> r.value == Snapshot(ref, Lookup(docs, ref))
    {
      if fault.Some? {
        r := Failure(StoreFailure(fault.value));
      } else {
        r := Success(Snapshot(ref, Lookup(docs, ref)));
      }
    }

    /** One write (`ref.Set`, `ref.Set(..., MergeAll)`, `ref.Delete`): applied unless it fails. */
    method Perform(w: Write, fault: Option<nat>) returns (err: Option<Error>)
      modifies this
      ensures err == ErrorOf(fault)
      ensures docs == AfterWrite(old(docs), w, fault)
      ensures commits == old(commits)
    {
      err := ErrorOf(fault);
      if fault.None? {
        docs := ApplyWrite(docs, w);
      }
    }

    /** A batch commit: all of `ws`, in order, or nothing. It is logged either way. */
    method Commit(ws: seq<Write>, fault: Option<nat>) returns (err: Option<Error>)
      modifies this
      ensures err == ErrorOf(fault)
      ensures docs == if fault.None? then ApplyWrites(old(docs), ws) else old(docs)
      ensures commits == old(commits) + [ws]
    {
      err := ErrorOf(fault);
      if fault.None? {
        docs := ApplyWrites(docs, ws);
      }
      commits := commits + [ws];
    }
  }
}
