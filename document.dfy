/**
 * The document handle (document/document.go): a collection path and an id
 * (empty for "generate one"), and an optional pending write batch into which
 * Create and Delete enqueue instead of writing.
 */
module Document {
  import opened Wrappers
  import opened Values
  import opened Store

  /** A client-side write batch: the writes queued so far, in order. */
  class WriteBatch {
    var ops: seq<Write>

    constructor ()
      ensures ops == []
    {
      ops := [];
    }

    /** `batch.Set(ref, doc)`: queue a whole-document write. */
    method Set(ref: DocRef, doc: Doc)
      modifies this
      ensures ops == old(ops) + [SetDoc(ref, doc)]
    {
      ops := ops + [SetDoc(ref, doc)];
    }

    /** `batch.Delete(ref)`: queue a delete. */
    method Delete(ref: DocRef)
      modifies this
      ensures ops == old(ops) + [DeleteDoc(ref)]
    {
      ops := ops + [DeleteDoc(ref)];
    }
  }

  class FirestoreDocument {
    /** The collection path (ColRef). */
    const colPath: string
    /** The document id; empty means a fresh id is generated on every resolution. */
    const id: string
    /** The pending batch, or null when no batch was started. */
    const writeBatch: WriteBatch?

    /** `New(fs, path, documentID, wb)`. */
    constructor New(path: string, documentID: string, wb: WriteBatch?)
      ensures colPath == path && id == documentID && writeBatch == wb
    {
      colPath := path;
      id := documentID;
      writeBatch := wb;
    }

    /**
     * The document this handle addresses: `Doc(ID)` in its collection, or,
     * for an empty ID, a new document whose generated id is `newId`.
     */
    function GetDocumentRef(newId: string): (r: DocRef)
      ensures r.collection == colPath
      ensures |id| > 0 ==> r == DocRef(colPath, id)
      ensures |id| == 0 ==> r == DocRef(colPath, newId)
    {
      if |id| == 0 then DocRef(colPath, newId) else DocRef(colPath, id)
    }

    /**
     * What `ColRef.NewDoc` promises for a handle with an empty ID: the id it
     * generates, `newId`, names no document of `docs`.
     */
    predicate FreshFor(docs: Docs, newId: string) {
      |id| == 0 ==> DocRef(colPath, newId) !in docs
    }

    /** A batch has been started: exactly when Batch() is non-null. */
    predicate InBatch()
      ensures InBatch() <==> Batch() != null
    {
      writeBatch != null
    }

    function Batch(): WriteBatch? {
      writeBatch
    }

    /**
     * Create the document with content `from` (a plain Set, replacing the
     * whole document). In a batch the Set is only queued and nil returned.
     */
    method Create(db: Firestore, from: Doc, newId: string, fault: Option<nat>) returns (err: Option<Error>)
      modifies db, writeBatch
      requires FreshFor(db.docs, newId)
      ensures InBatch() ==> && err.None?
                            && writeBatch.ops == old(writeBatch.ops) + [SetDoc(GetDocumentRef(newId), from)]
                            && db.docs == old(db.docs)
      ensures !InBatch() ==> && err == ErrorOf(fault)
                             && db.docs == AfterWrite(old(db.docs), SetDoc(GetDocumentRef(newId), from), fault)
      ensures db.commits == old(db.commits)
    {
      var ref := GetDocumentRef(newId);
      if InBatch() {
        Batch().Set(ref, from);
        return None;
      }
      err := db.Perform(SetDoc(ref, from), fault);
    }

    /**
     * Read the document into the destination (`to`, modelled as the decoded
     * content): a Get error is passed on, an absent document gives
     * ErrDocumentNotExist, and a decoding failure is passed on.
     */
    method Retrieve(db: Firestore, newId: string, getFault: Option<nat>, decodeFault: Option<nat>)
      returns (to: Option<Doc>, err: Option<Error>)
      requires FreshFor(db.docs, newId)
      ensures var ref := GetDocumentRef(newId);
        && (getFault.Some? ==> err == ErrorOf(getFault) && to.None?)
        && (getFault.None? && ref !in db.docs ==> err == Some(DocumentNotExist) && to.None?)
        && (getFault.None? && ref in db.docs ==>
              err == ErrorOf(decodeFault) && to == if decodeFault.None? then Some(db.docs[ref]) else None)
      ensures |id| == 0 && getFault.None? ==> err == Some(DocumentNotExist) && to.None?
    {
      var s := db.Get(GetDocumentRef(newId), getFault);
      if s.Failure? {
        return None, Some(s.error);
      }
      if !s.value.Exists() {
        return None, Some(DocumentNotExist);
      }
      if decodeFault.Some? {
        return None, ErrorOf(decodeFault);
      }
      to, err := s.value.data, None;
    }

    /** True exactly when the Get succeeds and the document exists; any error gives false. */
    method Exists(db: Firestore, newId: string, getFault: Option<nat>) returns (b: bool)
      requires FreshFor(db.docs, newId)
      ensures b <==> getFault.None? && GetDocumentRef(newId) in db.docs
      ensures |id| == 0 ==> !b
    {
      var s := db.Get(GetDocumentRef(newId), getFault);
      if s.Failure? || !s.value.Exists() {
        return false;
      }
      return true;
    }

    /** Delete the document; in a batch only queue the Delete and return nil. */
    method Delete(db: Firestore, newId: string, fault: Option<nat>) returns (err: Option<Error>)
      modifies db, writeBatch
      requires FreshFor(db.docs, newId)
      ensures InBatch() ==> && err.None?
                            && writeBatch.ops == old(writeBatch.ops) + [DeleteDoc(GetDocumentRef(newId))]
                            && db.docs == old(db.docs)
      ensures !InBatch() ==> && err == ErrorOf(fault)
                             && db.docs == AfterWrite(old(db.docs), DeleteDoc(GetDocumentRef(newId)), fault)
      ensures db.commits == old(db.commits)
    {
      var ref := GetDocumentRef(newId);
      if InBatch() {
        Batch().Delete(ref);
        return None;
      }
      err := db.Perform(DeleteDoc(ref), fault);
      if err.Some? {
        return err;
      }
      return None;
    }
  }
}
