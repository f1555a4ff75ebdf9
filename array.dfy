/**
 * Array fields (document/array.go): read, overridden by a merge-write (an
 * array is replaced whole), and appended to inside a transaction.
 */
module ArrayField {
  import opened Wrappers
  import opened Values
  import opened Store
  import opened Document
  import opened DocumentInternal

  /**
   * Override(data) makes the field exactly `data`, so a later Retrieve has
   * |data| elements; the other fields and documents keep their values.
   */
  lemma OverrideThenRetrieve(docs: Docs, ref: DocRef, name: string, data: seq<Value>)
    ensures var after := ApplyWrite(docs, FieldWrite(ref, name, Arr(data)));
      && FieldAt(after, ref, name) == Success(Arr(data))
      && |FieldAt(after, ref, name).value.elems| == |data|
      && after[ref] == DocOrEmpty(docs, ref)[name := Arr(data)]
      && after - {ref} == docs - {ref}
  {
    FieldWriteReplaces(docs, ref, name, Arr(data));
  }

  /**
   * The write Append issues on a readable array field extends it: the old
   * elements form a prefix, the rest is `data`, the length is the old length
   * plus |data| (2 + 1 = 3), and nothing else changes.
   */
  lemma AppendExtends(docs: Docs, ref: DocRef, name: string, data: seq<Value>)
    requires FieldAt(docs, ref, name).Success? && FieldAt(docs, ref, name).value.Arr?
    ensures var prior := FieldAt(docs, ref, name).value.elems;
      var after := ApplyWrite(docs, FieldWrite(ref, name, Arr(prior + data)));
      && FieldAt(after, ref, name).Success?
      && var now := FieldAt(after, ref, name).value;
      && now.Arr?
      && |now.elems| == |prior| + |data|
      && now.elems[..|prior|] == prior
      && now.elems[|prior|..] == data
      && after[ref] - {name} == docs[ref] - {name}
      && after - {ref} == docs - {ref}
  {
    var prior := FieldAt(docs, ref, name).value.elems;
    FieldWriteReplaces(docs, ref, name, Arr(prior + data));
    var after := ApplyWrite(docs, FieldWrite(ref, name, Arr(prior + data)));
    assert after[ref] - {name} == docs[ref] - {name};
  }

  /** A typed handle on field `name` of `document`. */
  datatype Array = Array(document: FirestoreDocument, name: string) {

    /** The field's elements; nil with the error when the read fails. The field, when present, must be an array. */
    method Retrieve(db: Firestore, newId: string, getFault: Option<nat>)
      returns (values: Option<seq<Value>>, err: Option<Error>)
      requires document.FreshFor(db.docs, newId)
      requires getFault.None? ==> FieldKindIs(db.docs, document.GetDocumentRef(newId), name, ArrayKind)
      ensures var r := FieldAt(db.docs, document.GetDocumentRef(newId), name);
        && (getFault.Some? ==> values.None? && err == ErrorOf(getFault))
        && (getFault.None? && r.Failure? ==> values.None? && err == Some(r.error))
        && (getFault.None? && r.Success? ==> err.None? && values.Some? && r.value == Arr(values.value))
    {
      var r := RetrieveFieldValue(db, document.GetDocumentRef(newId), name, getFault);
      if r.Failure? {
        return None, Some(r.error);
      }
      return Some(r.value.elems), None;
    }

    /** Merge-write `{name: data}`: the array is replaced whole, nothing else changes. */
    method Override(db: Firestore, newId: string, data: seq<Value>, fault: Option<nat>) returns (err: Option<Error>)
      modifies db
      requires document.FreshFor(db.docs, newId)
      ensures err == ErrorOf(fault)
      ensures db.docs == AfterWrite(old(db.docs), FieldWrite(document.GetDocumentRef(newId), name, Arr(data)), fault)
      ensures db.commits == old(db.commits)
    {
      err := db.Perform(FieldWrite(document.GetDocumentRef(newId), name, Arr(data)), fault);
    }

    /**
     * In a transaction: read the field, fail with the read's error (an absent
     * field or document included) and no write, else write back old ++ data.
     */
    method Append(db: Firestore, newId: string, data: seq<Value>, getFault: Option<nat>, commitFault: Option<nat>)
      returns (err: Option<Error>)
      modifies db
      requires document.FreshFor(db.docs, newId)
      requires getFault.None? ==> FieldKindIs(db.docs, document.GetDocumentRef(newId), name, ArrayKind)
      ensures var ref := document.GetDocumentRef(newId);
        var r := FieldAt(old(db.docs), ref, name);
        && (getFault.Some? ==> err == ErrorOf(getFault) && db.docs == old(db.docs))
        && (getFault.None? && r.Failure? ==> err == Some(r.error) && db.docs == old(db.docs))
        && (getFault.None? && r.Success? ==>
              && err == ErrorOf(commitFault)
              && db.docs == AfterWrite(old(db.docs), FieldWrite(ref, name, Arr(r.value.elems + data)), commitFault))
      ensures |document.id| == 0 && getFault.None? ==>
        err == Some(SnapshotMissing(document.GetDocumentRef(newId))) && db.docs == old(db.docs)
      ensures db.commits == old(db.commits)
    {
      var ref := document.GetDocumentRef(newId);
      var s := db.Get(ref, getFault);
      if s.Failure? {
        return Some(s.error);
      }
      var value := s.value.DataAt(name);
      if value.Failure? {
        return Some(value.error);
      }
      var elems := value.value.elems + data;
      err := db.Perform(FieldWrite(ref, name, Arr(elems)), commitFault);
    }
  }
}
