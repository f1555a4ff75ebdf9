/** Boolean fields (document/boolean.go). */
module BooleanField {
  import opened Wrappers
  import opened Values
  import opened Store
  import opened Document
  import opened DocumentInternal

  /** Update(v) then Retrieve yields v (true or false); nothing else changes. */
  lemma UpdateThenRetrieve(docs: Docs, ref: DocRef, name: string, v: bool)
    ensures var after := ApplyWrite(docs, FieldWrite(ref, name, Bool(v)));
      && FieldAt(after, ref, name) == Success(Bool(v))
      && after[ref] == DocOrEmpty(docs, ref)[name := Bool(v)]
      && after - {ref} == docs - {ref}
  {
    FieldWriteReplaces(docs, ref, name, Bool(v));
  }

  /** A typed handle on field `name` of `document`. */
  datatype Boolean = Boolean(document: FirestoreDocument, name: string) {

    /** The field's boolean; false with the error when the read fails. The field, when present, must be a boolean. */
    method Retrieve(db: Firestore, newId: string, getFault: Option<nat>) returns (value: bool, err: Option<Error>)
      requires document.FreshFor(db.docs, newId)
      requires getFault.None? ==> FieldKindIs(db.docs, document.GetDocumentRef(newId), name, BoolKind)
      ensures var r := FieldAt(db.docs, document.GetDocumentRef(newId), name);
        && (getFault.Some? ==> value == false && err == ErrorOf(getFault))
        && (getFault.None? && r.Failure? ==> value == false && err == Some(r.error))
        && (getFault.None? && r.Success? ==> err.None? && r.value == Bool(value))
    {
      var r := RetrieveFieldValue(db, document.GetDocumentRef(newId), name, getFault);
      if r.Failure? {
        return false, Some(r.error);
      }
      return r.value.b, None;
    }

    /** Merge-write `{name: with}`: only this field changes. */
    method Update(db: Firestore, newId: string, with: bool, fault: Option<nat>) returns (err: Option<Error>)
      modifies db
      requires document.FreshFor(db.docs, newId)
      ensures err == ErrorOf(fault)
      ensures db.docs == AfterWrite(old(db.docs), FieldWrite(document.GetDocumentRef(newId), name, Bool(with)), fault)
      ensures db.commits == old(db.commits)
    {
      err := db.Perform(FieldWrite(document.GetDocumentRef(newId), name, Bool(with)), fault);
    }
  }
}
