/**
 * Map fields (document/map.go): read with an existence check, and written
 * with a MergeAll Set by both Merge and Override.
 */
module MapField {
  import opened Wrappers
  import Values
  import opened Store
  import opened Document

  /** The nested map a field held before a write: its entries, or none when absent or not a map. */
  function PriorEntries(docs: Docs, ref: DocRef, name: string): (m: Values.Fields)
    ensures FieldAt(docs, ref, name).Success? && FieldAt(docs, ref, name).value.Map? ==>
              m == FieldAt(docs, ref, name).value.entries
  {
    var r := FieldAt(docs, ref, name);
    if r.Success? && r.value.Map? then r.value.entries else map[]
  }

  /**
   * Merge(data) with a non-empty `data` updates exactly the keys of `data`
   * and keeps every other key of the nested map; scalar entries of `data` are
   * written as given. Fields other than `name` and other documents keep
   * their values.
   */
  lemma MergeUpdatesNamedKeys(docs: Docs, ref: DocRef, name: string, data: Values.Fields)
    requires data != map[]
    ensures var prior := PriorEntries(docs, ref, name);
      var after := ApplyWrite(docs, FieldWrite(ref, name, Values.Map(data)));
      && FieldAt(after, ref, name).Success? && FieldAt(after, ref, name).value.Map?
      && var now := FieldAt(after, ref, name).value.entries;
      && now.Keys == prior.Keys + data.Keys
      && (forall k :: k in prior && k !in data ==> now[k] == prior[k])
      && (forall k :: k in data && !Values.IsMergeable(data[k]) ==> now[k] == data[k])
      && after[ref] - {name} == DocOrEmpty(docs, ref) - {name}
      && after - {ref} == docs - {ref}
  {
    Store.MergeWriteChangesOnlyField(docs, ref, name, Values.Map(data));
    var doc := DocOrEmpty(docs, ref);
    assert Values.Get(doc, name).Some? && Values.Get(doc, name).value.Map? ==>
             Values.Get(doc, name).value.entries == PriorEntries(docs, ref, name);
  }

  /**
   * The integration scenario: a token map {Android: AND_123, IOS: IOS_123}
   * merged with {Android: AND_456} keeps two entries, Android updated.
   */
  lemma MergeTokensExample(docs: Docs, ref: DocRef)
    requires FieldAt(docs, ref, "Tokens")
          == Success(Values.Map(map["Android" := Values.Str("AND_123"), "IOS" := Values.Str("IOS_123")]))
    ensures var after := ApplyWrite(docs, FieldWrite(ref, "Tokens", Values.Map(map["Android" := Values.Str("AND_456")])));
      FieldAt(after, ref, "Tokens")
        == Success(Values.Map(map["Android" := Values.Str("AND_456"), "IOS" := Values.Str("IOS_123")]))
  {
    var prior := map["Android" := Values.Str("AND_123"), "IOS" := Values.Str("IOS_123")];
    var data := map["Android" := Values.Str("AND_456")];
    var merged := Values.MergeFields(prior, data);
    assert merged.Keys == {"Android", "IOS"};
    assert merged["Android"] == Values.Str("AND_456");
    assert merged["IOS"] == Values.Str("IOS_123");
    assert merged == map["Android" := Values.Str("AND_456"), "IOS" := Values.Str("IOS_123")];
    assert "Android" in data;
    Store.MergeWriteChangesOnlyField(docs, ref, "Tokens", Values.Map(data));
  }

  /**
   * Override as written: its MergeAll write keeps the keys it does not name,
   * so overriding {Android, IOS} with {Android: AND_789} leaves IOS in place
   * and the field is not the given map.
   */
  lemma OverrideKeepsUnnamedKeys()
    ensures var ref := DocRef("users", "jsmith");
      var data := map["Android" := Values.Str("AND_789")];
      var docs := map[ref := map["Tokens" := Values.Map(map["Android" := Values.Str("AND_123"), "IOS" := Values.Str("IOS_123")])]];
      var after := ApplyWrite(docs, FieldWrite(ref, "Tokens", Values.Map(data)));
      && FieldAt(after, ref, "Tokens").Success?
      && FieldAt(after, ref, "Tokens") != Success(Values.Map(data))
      && "IOS" in FieldAt(after, ref, "Tokens").value.entries
  {
    var ref := DocRef("users", "jsmith");
    var docs := map[ref := map["Tokens" := Values.Map(map["Android" := Values.Str("AND_123"), "IOS" := Values.Str("IOS_123")])]];
    var data := map["Android" := Values.Str("AND_789")];
    assert "Android" in data;
    MergeUpdatesNamedKeys(docs, ref, "Tokens", data);
    assert "IOS" in PriorEntries(docs, ref, "Tokens");
    assert "IOS" !in data;
  }

  /** A typed handle on field `name` of `document`. */
  datatype Map = Map(document: FirestoreDocument, name: string) {

    /**
     * The field's entries: a Get error is passed on, an absent document gives
     * ErrDocumentNotExist, an absent field the store's error. The field, when
     * present, must be a map.
     */
    method Retrieve(db: Firestore, newId: string, getFault: Option<nat>)
      returns (entries: Option<Values.Fields>, err: Option<Error>)
      requires document.FreshFor(db.docs, newId)
      requires getFault.None? ==> FieldKindIs(db.docs, document.GetDocumentRef(newId), name, Values.MapKind)
      ensures var ref := document.GetDocumentRef(newId);
        && (getFault.Some? ==> entries.None? && err == ErrorOf(getFault))
        && (getFault.None? && ref !in db.docs ==> entries.None? && err == Some(DocumentNotExist))
        && (getFault.None? && ref in db.docs && name !in db.docs[ref] ==> entries.None? && err == Some(NoSuchField(name)))
        && (getFault.None? && ref in db.docs && name in db.docs[ref] ==>
              err.None? && entries.Some? && db.docs[ref][name] == Values.Map(entries.value))
    {
      var s := db.Get(document.GetDocumentRef(newId), getFault);
      if s.Failure? {
        return None, Some(s.error);
      }
      if !s.value.Exists() {
        return None, Some(DocumentNotExist);
      }
      var result := s.value.DataAt(name);
      if result.Failure? {
        return None, Some(result.error);
      }
      return Some(result.value.entries), None;
    }

    /** Merge-write `{name: data}`: MergeUpdatesNamedKeys says what it does to the field. */
    method Merge(db: Firestore, newId: string, data: Values.Fields, fault: Option<nat>) returns (err: Option<Error>)
      modifies db
      requires document.FreshFor(db.docs, newId)
      ensures err == ErrorOf(fault)
      ensures db.docs == AfterWrite(old(db.docs), FieldWrite(document.GetDocumentRef(newId), name, Values.Map(data)), fault)
      ensures db.commits == old(db.commits)
    {
      err := db.Perform(FieldWrite(document.GetDocumentRef(newId), name, Values.Map(data)), fault);
    }

    /** As written: the very same MergeAll write as Merge, so it merges rather than overrides. */
    method Override(db: Firestore, newId: string, data: Values.Fields, fault: Option<nat>) returns (err: Option<Error>)
      modifies db
      requires document.FreshFor(db.docs, newId)
      ensures err == ErrorOf(fault)
      ensures db.docs == AfterWrite(old(db.docs), FieldWrite(document.GetDocumentRef(newId), name, Values.Map(data)), fault)
      ensures db.commits == old(db.commits)
    {
      err := db.Perform(FieldWrite(document.GetDocumentRef(newId), name, Values.Map(data)), fault);
    }

    /**
     * The override the doc comment describes: replace the field by exactly
     * `data` (a Set merging only the field path `name`), nothing else changed.
     */
    method OverrideExactly(db: Firestore, newId: string, data: Values.Fields, fault: Option<nat>) returns (err: Option<Error>)
      modifies db
      requires document.FreshFor(db.docs, newId)
      ensures err == ErrorOf(fault)
      ensures db.docs == AfterWrite(old(db.docs), ReplaceField(document.GetDocumentRef(newId), name, Values.Map(data)), fault)
      ensures fault.None? ==> FieldAt(db.docs, document.GetDocumentRef(newId), name) == Success(Values.Map(data))
      ensures db.commits == old(db.commits)
    {
      var ref := document.GetDocumentRef(newId);
      err := db.Perform(ReplaceField(ref, name, Values.Map(data)), fault);
      ReplaceFieldExact(old(db.docs), ref, name, Values.Map(data));
    }
  }
}
