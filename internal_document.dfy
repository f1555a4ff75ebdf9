/** The shared field read of the typed accessors (document/internal/document.go). */
module DocumentInternal {
  import opened Wrappers
  import opened Values
  import opened Store

  /**
   * Get the document and return `DataAt(fieldName)`: a Get error is passed
   * on; otherwise the field's value, or the store's error for an absent
   * field or document. Unlike the document-level reads it never reports
   * ErrDocumentNotExist, and it only reads the store.
   */
  method RetrieveFieldValue(db: Firestore, ref: DocRef, fieldName: string, getFault: Option<nat>)
    returns (r: Result<Value, Error>)
    ensures getFault.Some? ==> r.Failure? && Some(r.error) == ErrorOf(getFault)
    ensures getFault.None? ==> r == FieldAt(db.docs, ref, fieldName)
    ensures r.Success? <==> getFault.None? && ref in db.docs && fieldName in db.docs[ref]
    ensures r != Failure(DocumentNotExist)
  {
    var s := db.Get(ref, getFault);
    if s.Failure? {
      return Failure(s.error);
    }
    return s.value.DataAt(fieldName);
  }
}
