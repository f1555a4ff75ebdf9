/** String fields (document/string.go). */
module StringField {
  import opened Wrappers
  import opened Values
  import opened Store
  import opened Document
  import opened DocumentInternal

  /** Update(v) then Retrieve yields v ("Mike"); nothing else changes. */
  lemma UpdateThenRetrieve(docs: Docs, ref: DocRef, name: string, v: string)
    ensures var after := ApplyWrite(docs, FieldWrite(ref, name, Str(v)));
      && FieldAt(after, ref, name) == Success(Str(v))
      && after[ref] == DocOrEmpty(docs, ref)[name := Str(v)]
      && after - {ref} == docs - {ref}
  {
    FieldWriteReplaces(docs, ref, name, Str(v));
  }

  /** A typed handle on field `name` of `document`. */
  datatype String = String(document: FirestoreDocument, name: string) {

    /** The field's string; "" with the error when the read fails. The field, when present, must be a string. */
    method Retrieve(db: Firestore, newId: string, getFault: Option<nat>) returns (value: string, err: Option<Error>)
      requires document.FreshFor(db.docs, newId)
      requires getFault.None? ==> FieldKindIs(db.docs, document.GetDocumentRef(newId), name, StringKind)
      ensures var r := FieldAt(db.docs, document.GetDocumentRef(newId), name);
        && (getFault.Some? ==> value == "" && err == ErrorOf(getFault))
        && (getFault.None? && r.Failure? ==> value == "" && err == Some(r.error))
        && (getFault.None? && r.Success? ==> err.None? && r.value == Str(value))
    {
      var r := RetrieveFieldValue(db, document.GetDocumentRef(newId), name, getFault);
      if r.Failure? {
        return "", Some(r.error);
      }
      return r.value.s, None;
    }

    /** Merge-write `{name: with}`: only this field changes. */
    method Update(db: Firestore, newId: string, with: string, fault: Option<nat>) returns (err: Option<Error>)
      modifies db
      requires document.FreshFor(db.docs, newId)
      ensures err == ErrorOf(fault)
      ensures db.docs == AfterWrite(old(db.docs), FieldWrite(document.GetDocumentRef(newId), name, Str(with)), fault)
      ensures db.commits == old(db.commits)
    {
      err := db.Perform(FieldWrite(document.GetDocumentRef(newId), name, Str(with)), fault);
    }
  }
}
