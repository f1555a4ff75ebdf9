/**
 * Number fields (document/number.go): int64 values read, merge-written, and
 * incremented or decremented inside a transaction, one atomic store step.
 */
module NumberField {
  import opened Wrappers
  import opened Values
  import opened Store
  import opened Document
  import opened DocumentInternal

  /**
   * The value Increment writes, given the transaction's field read: one more
   * than the stored value (in int64 arithmetic), or 1 when the field cannot
   * be read.
   */
  function Incremented(current: Result<Value, Error>): (n: int64)
    requires current.Success? ==> current.value.Int?
    ensures current.Failure? ==> n == 1
    ensures current.Success? ==> (n as int - (current.value.n as int + 1)) % Modulus64 == 0
    ensures current.Success? && current.value.n < MaxInt64 ==> n as int == current.value.n as int + 1
  {
    if current.Success? then Add1(current.value.n) else 1
  }

  /** The value Decrement writes: one less than the stored value, or 0 when the field cannot be read. */
  function Decremented(current: Result<Value, Error>): (n: int64)
    requires current.Success? ==> current.value.Int?
    ensures current.Failure? ==> n == 0
    ensures current.Success? ==> (n as int - (current.value.n as int - 1)) % Modulus64 == 0
    ensures current.Success? && MinInt64 < current.value.n ==> n as int == current.value.n as int - 1
  {
    if current.Success? then Sub1(current.value.n) else 0
  }

  /** Update(v) then Retrieve yields v; the other fields and documents keep their values. */
  lemma UpdateThenRetrieve(docs: Docs, ref: DocRef, name: string, v: int64)
    ensures var after := ApplyWrite(docs, FieldWrite(ref, name, Int(v)));
      && FieldAt(after, ref, name) == Success(Int(v))
      && after[ref] == DocOrEmpty(docs, ref)[name := Int(v)]
      && after - {ref} == docs - {ref}
  {
    MergeWriteChangesOnlyField(docs, ref, name, Int(v));
  }

  /** Increment of an absent field (or of an absent document) sets it to 1; Decrement sets it to 0. */
  lemma IncrementAbsentField(docs: Docs, ref: DocRef, name: string)
    requires FieldAt(docs, ref, name).Failure?
    ensures FieldAt(ApplyWrite(docs, FieldWrite(ref, name, Int(Incremented(FieldAt(docs, ref, name))))), ref, name)
         == Success(Int(1))
    ensures FieldAt(ApplyWrite(docs, FieldWrite(ref, name, Int(Decremented(FieldAt(docs, ref, name))))), ref, name)
         == Success(Int(0))
  {
    UpdateThenRetrieve(docs, ref, name, 1);
    UpdateThenRetrieve(docs, ref, name, 0);
  }

  /**
   * Increment followed by Decrement restores the whole store when the field
   * held a number (31 -> 32 -> 31), the wrap-around at MaxInt64 included.
   */
  lemma {:induction false} IncrementThenDecrementRestores(docs: Docs, ref: DocRef, name: string)
    requires ref in docs && name in docs[ref] && docs[ref][name].Int?
    ensures var inc := ApplyWrite(docs, FieldWrite(ref, name, Int(Incremented(FieldAt(docs, ref, name)))));
      && FieldAt(inc, ref, name).Success? && FieldAt(inc, ref, name).value.Int?
      && ApplyWrite(inc, FieldWrite(ref, name, Int(Decremented(FieldAt(inc, ref, name))))) == docs
  {
    var n := docs[ref][name].n;
    var inc := ApplyWrite(docs, FieldWrite(ref, name, Int(Add1(n))));
    UpdateThenRetrieve(docs, ref, name, Add1(n));
    var dec := ApplyWrite(inc, FieldWrite(ref, name, Int(Sub1(Add1(n)))));
    UpdateThenRetrieve(inc, ref, name, Sub1(Add1(n)));
    Sub1Add1(n);
    assert dec[ref] == docs[ref];
    assert dec == docs;
  }

  /** A typed handle on field `name` of `document`. */
  datatype Number = Number(document: FirestoreDocument, name: string) {

    /**
     * The field's number: 0 with the error when the read fails (a Get error
     * or an absent field). The field, when present, must hold a number.
     */
    method Retrieve(db: Firestore, newId: string, getFault: Option<nat>) returns (value: int64, err: Option<Error>)
      requires document.FreshFor(db.docs, newId)
      requires getFault.None? ==> FieldKindIs(db.docs, document.GetDocumentRef(newId), name, IntKind)
      ensures var r := FieldAt(db.docs, document.GetDocumentRef(newId), name);
        && (getFault.Some? ==> value == 0 && err == ErrorOf(getFault))
        && (getFault.None? && r.Failure? ==> value == 0 && err == Some(r.error))
        && (getFault.None? && r.Success? ==> err.None? && r.value == Int(value))
    {
      var r := RetrieveFieldValue(db, document.GetDocumentRef(newId), name, getFault);
      if r.Failure? {
        return 0, Some(r.error);
      }
      return r.value.n, None;
    }

    /** Merge-write `{name: with}`: only this field changes. */
    method Update(db: Firestore, newId: string, with: int64, fault: Option<nat>) returns (err: Option<Error>)
      modifies db
      requires document.FreshFor(db.docs, newId)
      ensures err == ErrorOf(fault)
      ensures db.docs == AfterWrite(old(db.docs), FieldWrite(document.GetDocumentRef(newId), name, Int(with)), fault)
      ensures db.commits == old(db.commits)
    {
      err := db.Perform(FieldWrite(document.GetDocumentRef(newId), name, Int(with)), fault);
    }

    /**
     * Read the field in a transaction and write back Incremented of it; a
     * failing transactional Get aborts with its error and no write.
     */
    method Increment(db: Firestore, newId: string, getFault: Option<nat>, commitFault: Option<nat>)
      returns (err: Option<Error>)
      modifies db
      requires document.FreshFor(db.docs, newId)
      requires getFault.None? ==> FieldKindIs(db.docs, document.GetDocumentRef(newId), name, IntKind)
      ensures getFault.Some? ==> err == ErrorOf(getFault) && db.docs == old(db.docs)
      ensures getFault.None? ==>
        var ref := document.GetDocumentRef(newId);
        && err == ErrorOf(commitFault)
        && db.docs == AfterWrite(old(db.docs), FieldWrite(ref, name, Int(Incremented(FieldAt(old(db.docs), ref, name)))), commitFault)
      ensures db.commits == old(db.commits)
    {
      var ref := document.GetDocumentRef(newId);
      var s := db.Get(ref, getFault);
      if s.Failure? {
        return Some(s.error);
      }
      var newValue: int64 := 1;
      var value := s.value.DataAt(name);
      if value.Success? {
        newValue := Add1(value.value.n);
      }
      err := db.Perform(FieldWrite(ref, name, Int(newValue)), commitFault);
    }

    /** As Increment, writing Decremented: the stored value minus one, or 0. */
    method Decrement(db: Firestore, newId: string, getFault: Option<nat>, commitFault: Option<nat>)
      returns (err: Option<Error>)
      modifies db
      requires document.FreshFor(db.docs, newId)
      requires getFault.None? ==> FieldKindIs(db.docs, document.GetDocumentRef(newId), name, IntKind)
      ensures getFault.Some? ==> err == ErrorOf(getFault) && db.docs == old(db.docs)
      ensures getFault.None? ==>
        var ref := document.GetDocumentRef(newId);
        && err == ErrorOf(commitFault)
        && db.docs == AfterWrite(old(db.docs), FieldWrite(ref, name, Int(Decremented(FieldAt(old(db.docs), ref, name)))), commitFault)
      ensures db.commits == old(db.commits)
    {
      var ref := document.GetDocumentRef(newId);
      var s := db.Get(ref, getFault);
      if s.Failure? {
        return Some(s.error);
      }
      var newValue: int64 := 0;
      var value := s.value.DataAt(name);
      if value.Success? {
        newValue := Sub1(value.value.n);
      }
      err := db.Perform(FieldWrite(ref, name, Int(newValue)), commitFault);
    }
  }
}
