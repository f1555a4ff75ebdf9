/**
 * Untyped field handles (document/field.go): read with an existence check,
 * merge-written, and appended to inside a transaction.
 */
module DocumentField {
  import opened Wrappers
  import opened Values
  import opened Store
  import opened Document

  /** A handle on field `name` of `document`, of any type. */
  datatype Field = Field(document: FirestoreDocument, name: string) {

    /**
     * The field's value: a Get error is passed on, an absent document gives
     * ErrDocumentNotExist, otherwise the field read (the value, or the
     * store's error for an absent field).
     */
    method Retrieve(db: Firestore, newId: string, getFault: Option<nat>) returns (r: Result<Value, Error>)
      requires document.FreshFor(db.docs, newId)
      ensures var ref := document.GetDocumentRef(newId);
        && (getFault.Some? ==> r.Failure? && Some(r.error) == ErrorOf(getFault))
        && (getFault.None? && ref !in db.docs ==> r == Failure(DocumentNotExist))
        && (getFault.None? && ref in db.docs ==> r == FieldAt(db.docs, ref, name))
      ensures r.Success? <==> getFault.None? && document.GetDocumentRef(newId) in db.docs
                              && name in db.docs[document.GetDocumentRef(newId)]
    {
      var s := db.Get(document.GetDocumentRef(newId), getFault);
      if s.Failure? {
        return Failure(s.error);
      }
      if !s.value.Exists() {
        return Failure(DocumentNotExist);
      }
      r := s.value.DataAt(name);
    }

    /** Merge-write `{name: with}`. */
    method Update(db: Firestore, newId: string, with: Value, fault: Option<nat>) returns (err: Option<Error>)
      modifies db
      requires document.FreshFor(db.docs, newId)
      ensures err == ErrorOf(fault)
      ensures db.docs == AfterWrite(old(db.docs), FieldWrite(document.GetDocumentRef(newId), name, with), fault)
      ensures db.commits == old(db.commits)
    {
      err := db.Perform(FieldWrite(document.GetDocumentRef(newId), name, with), fault);
    }

    /** Merge-write `{name: data}`: the nested map is merged key by key. */
    method MergeMapWith(db: Firestore, newId: string, data: Fields, fault: Option<nat>) returns (err: Option<Error>)
      modifies db
      requires document.FreshFor(db.docs, newId)
      ensures err == ErrorOf(fault)
      ensures db.docs == AfterWrite(old(db.docs), FieldWrite(document.GetDocumentRef(newId), name, Map(data)), fault)
      ensures db.commits == old(db.commits)
    {
      err := db.Perform(FieldWrite(document.GetDocumentRef(newId), name, Map(data)), fault);
    }

    /** As written: the very same write as MergeMapWith, so both yield the same store. */
    method OverrideMapWith(db: Firestore, newId: string, data: Fields, fault: Option<nat>) returns (err: Option<Error>)
      modifies db
      requires document.FreshFor(db.docs, newId)
      ensures err == ErrorOf(fault)
      ensures db.docs == AfterWrite(old(db.docs), FieldWrite(document.GetDocumentRef(newId), name, Map(data)), fault)
      ensures db.commits == old(db.commits)
    {
      err := db.Perform(FieldWrite(document.GetDocumentRef(newId), name, Map(data)), fault);
    }

    /** The override the doc comment describes: the field becomes exactly `data`, nothing else changes. */
    method OverrideMapWithExactly(db: Firestore, newId: string, data: Fields, fault: Option<nat>) returns (err: Option<Error>)
      modifies db
      requires document.FreshFor(db.docs, newId)
      ensures err == ErrorOf(fault)
      ensures db.docs == AfterWrite(old(db.docs), ReplaceField(document.GetDocumentRef(newId), name, Map(data)), fault)
      ensures fault.None? ==> FieldAt(db.docs, document.GetDocumentRef(newId), name) == Success(Map(data))
      ensures db.commits == old(db.commits)
    {
      var ref := document.GetDocumentRef(newId);
      err := db.Perform(ReplaceField(ref, name, Map(data)), fault);
      ReplaceFieldExact(old(db.docs), ref, name, Map(data));
    }

    /** Merge-write `{name: data}` of an array: the field becomes exactly `data`. */
    method OverrideArray(db: Firestore, newId: string, data: seq<Value>, fault: Option<nat>) returns (err: Option<Error>)
      modifies db
      requires document.FreshFor(db.docs, newId)
      ensures err == ErrorOf(fault)
      ensures db.docs == AfterWrite(old(db.docs), FieldWrite(document.GetDocumentRef(newId), name, Arr(data)), fault)
      ensures fault.None? ==> FieldAt(db.docs, document.GetDocumentRef(newId), name) == Success(Arr(data))
      ensures db.commits == old(db.commits)
    {
      var ref := document.GetDocumentRef(newId);
      err := db.Perform(FieldWrite(ref, name, Arr(data)), fault);
      FieldWriteReplaces(old(db.docs), ref, name, Arr(data));
    }

    /**
     * In a transaction: read the field, fail with the read's error (an absent
     * field or document included) and no write, else write back old ++ data.
     * The field, when present, must be an array.
     */
    method AppendArray(db: Firestore, newId: string, data: seq<Value>, getFault: Option<nat>, commitFault: Option<nat>)
      returns (err: Option<Error>)
      modifies db
      requires document.FreshFor(db.docs, newId)
      requires getFault.None? ==> FieldKindIs(db.docs, document.GetDocumentRef(newId), name, ArrayKind)
      ensures var ref := document.GetDocumentRef(newId);
        var r := FieldAt(old(db.docs), ref, name);
        && (getFault.Some? ==> err == ErrorOf(getFault) && db.docs == old(db.docs))
        && (getFault.None? && r.Failure? ==> err == Some(r.error) && db.docs == old(db.docs))
        && (getFault.None? && r.Success? ==>
              && err == ErrorOf(commitFault)
              && db.docs == AfterWrite(old(db.docs), FieldWrite(ref, name, Arr(r.value.elems + data)), commitFault))
      ensures |document.id| == 0 && getFault.None? ==>
        err == Some(SnapshotMissing(document.GetDocumentRef(newId))) && db.docs == old(db.docs)
      ensures db.commits == old(db.commits)
    {
      var ref := document.GetDocumentRef(newId);
      var s := db.Get(ref, getFault);
      if s.Failure? {
        return Some(s.error);
      }
      var value := s.value.DataAt(name);
      if value.Failure? {
        return Some(value.error);
      }
      var elems := value.value.elems + data;
      err := db.Perform(FieldWrite(ref, name, Arr(elems)), commitFault);
    }
  }
}
