/**
 * The older field API at the repository root (field.go): a field of a
 * resolved document, and a map update whose behaviour a write option selects.
 */
module RootField {
  import opened Wrappers
  import opened Values
  import opened Store

  /** The write options (document/option.go). */
  const Override: int := 1
  const Merge: int := 2
  const Append: int := 3

  /** How UpdateMap writes the map. */
  datatype MapMode = MergeMode | OverrideMode

  /**
   * The mode UpdateMap selects: Merge by default, otherwise from the first
   * option alone; only Override overrides, Append (not implemented) and every
   * other value merge.
   */
  function ModeFor(opts: seq<int>): (m: MapMode)
    ensures opts == [] ==> m == MergeMode
    ensures opts != [] ==> (m == OverrideMode <==> opts[0] == Override)
  {
    if |opts| > 0 && opts[0] == Override then OverrideMode else MergeMode
  }

  /** Options after the first are ignored. */
  lemma OnlyFirstOptionCounts(opts: seq<int>, more: seq<int>)
    requires opts != []
    ensures ModeFor(opts[..1] + more) == ModeFor(opts)
  {
    assert (opts[..1] + more)[0] == opts[0];
  }

  /** The plain Set overrideMap issues: the whole document becomes `{name: with}`. */
  function OverrideMapWrite(ref: DocRef, name: string, with: Fields): Write {
    SetDoc(ref, map[name := Map(with)])
  }

  /**
   * After overrideMap the field equals `with` exactly, and every other field
   * of the document is gone, since the plain Set replaces the document.
   */
  lemma OverrideMapReplacesDocument(docs: Docs, ref: DocRef, name: string, with: Fields, other: string)
    requires other != name
    ensures var after := ApplyWrite(docs, OverrideMapWrite(ref, name, with));
      && FieldAt(after, ref, name) == Success(Map(with))
      && FieldAt(after, ref, other) == Failure(NoSuchField(other))
      && after - {ref} == docs - {ref}
  {
  }

  /**
   * A field handle. The source's `Field.Document.GetDocumentRef()` passes no
   * path, so the document is taken as already resolved to `ref`.
   */
  datatype Field = Field(ref: DocRef, name: string) {

    /** The field's value, with ErrDocumentNotExist for an absent document and the store's error for an absent field. */
    method Retrieve(db: Firestore, getFault: Option<nat>) returns (r: Result<Value, Error>)
      ensures getFault.Some? ==> r.Failure? && Some(r.error) == ErrorOf(getFault)
      ensures getFault.None? && ref !in db.docs ==> r == Failure(DocumentNotExist)
      ensures getFault.None? && ref in db.docs && name !in db.docs[ref] ==> r == Failure(NoSuchField(name))
      ensures getFault.None? && ref in db.docs && name in db.docs[ref] ==> r == Success(db.docs[ref][name])
    {
      var s := db.Get(ref, getFault);
      if s.Failure? {
        return Failure(s.error);
      }
      if !s.value.Exists() {
        return Failure(DocumentNotExist);
      }
      var result := s.value.DataAt(name);
      if result.Failure? {
        return Failure(result.error);
      }
      return Success(result.value);
    }

    /** Merge-write `{name: with}`. */
    method Update(db: Firestore, with: Value, fault: Option<nat>) returns (err: Option<Error>)
      modifies db
      ensures err == ErrorOf(fault)
      ensures db.docs == AfterWrite(old(db.docs), FieldWrite(ref, name, with), fault)
      ensures db.commits == old(db.commits)
    {
      err := db.Perform(FieldWrite(ref, name, with), fault);
    }

    /** Write the map as the first option selects: overrideMap for Override, mergeMap otherwise. */
    method UpdateMap(db: Firestore, with: Fields, opts: seq<int>, fault: Option<nat>) returns (err: Option<Error>)
      modifies db
      ensures err == ErrorOf(fault)
      ensures ModeFor(opts) == OverrideMode ==>
                db.docs == AfterWrite(old(db.docs), OverrideMapWrite(ref, name, with), fault)
      ensures ModeFor(opts) == MergeMode ==>
                db.docs == AfterWrite(old(db.docs), FieldWrite(ref, name, Map(with)), fault)
      ensures db.commits == old(db.commits)
    {
      var writeOption := Merge;
      if |opts| > 0 {
        writeOption := opts[0];
      }
      if writeOption == Override {
        err := OverrideMap(db, with, fault);
        return;
      }
      err := MergeMap(db, with, fault);
    }

    /** mergeMap: exactly Update with the map. */
    method MergeMap(db: Firestore, with: Fields, fault: Option<nat>) returns (err: Option<Error>)
      modifies db
      ensures err == ErrorOf(fault)
      ensures db.docs == AfterWrite(old(db.docs), FieldWrite(ref, name, Map(with)), fault)
      ensures db.commits == old(db.commits)
    {
      err := Update(db, Map(with), fault);
    }

    /** overrideMap: a plain Set of `{name: with}`, see OverrideMapReplacesDocument. */
    method OverrideMap(db: Firestore, with: Fields, fault: Option<nat>) returns (err: Option<Error>)
      modifies db
      ensures err == ErrorOf(fault)
      ensures db.docs == AfterWrite(old(db.docs), OverrideMapWrite(ref, name, with), fault)
      ensures fault.None? ==> db.docs[ref] == map[name := Map(with)]
      ensures db.commits == old(db.commits)
    {
      err := db.Perform(OverrideMapWrite(ref, name, with), fault);
    }
  }
}
