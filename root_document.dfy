/**
 * The older document API at the repository root (document.go): every call
 * names a collection path, trimmed as the entry point does, and a document id.
 */
module RootDocument {
  import opened Wrappers
  import opened Values
  import opened Store
  import Fuego

  /** The document `documentID` of the collection `path` with one slash trimmed at each end. */
  function GetDocumentRef(path: string, documentID: string): (r: DocRef)
    ensures r.collection == Fuego.TrimPath(path) && r.id == documentID
  {
    DocRef(Fuego.TrimSuffix(Fuego.TrimPrefix(path, "/"), "/"), documentID)
  }

  /** "users", "/users", "users/" and "/users/" address the same document. */
  lemma SlashSpellingsAgree(p: string, documentID: string)
    requires p == [] || (p[0] != '/' && p[|p| - 1] != '/')
    ensures GetDocumentRef("/" + p + "/", documentID) == GetDocumentRef(p, documentID)
    ensures GetDocumentRef("/" + p, documentID) == GetDocumentRef(p, documentID)
    ensures GetDocumentRef(p + "/", documentID) == GetDocumentRef(p, documentID)
  {
    Fuego.TrimPathUnwraps(p);
    Fuego.TrimPathDropsLeadingSlash(p);
    Fuego.TrimPathDropsTrailingSlash(p);
  }

  /** Create: a plain Set that replaces the whole document. */
  method Create(db: Firestore, path: string, documentID: string, doc: Doc, fault: Option<nat>) returns (err: Option<Error>)
    modifies db
    ensures err == ErrorOf(fault)
    ensures db.docs == AfterWrite(old(db.docs), SetDoc(GetDocumentRef(path, documentID), doc), fault)
    ensures fault.None? ==> db.docs[GetDocumentRef(path, documentID)] == doc
    ensures db.commits == old(db.commits)
  {
    err := db.Perform(SetDoc(GetDocumentRef(path, documentID), doc), fault);
  }

  /**
   * Read the document into the destination (modelled as the decoded content):
   * a Get error is passed on, an absent document gives ErrDocumentNotExist, a
   * decoding failure is passed on.
   */
  method Retrieve(db: Firestore, path: string, documentID: string, getFault: Option<nat>, decodeFault: Option<nat>)
    returns (to: Option<Doc>, err: Option<Error>)
    ensures var ref := GetDocumentRef(path, documentID);
      && (getFault.Some? ==> err == ErrorOf(getFault) && to.None?)
      && (getFault.None? && ref !in db.docs ==> err == Some(DocumentNotExist) && to.None?)
      && (getFault.None? && ref in db.docs ==>
            err == ErrorOf(decodeFault) && to == if decodeFault.None? then Some(db.docs[ref]) else None)
  {
    var s := db.Get(GetDocumentRef(path, documentID), getFault);
    if s.Failure? {
      return None, Some(s.error);
    }
    if !s.value.Exists() {
      return None, Some(DocumentNotExist);
    }
    if decodeFault.Some? {
      return None, ErrorOf(decodeFault);
    }
    return s.value.data, None;
  }

  /** A field's value, with ErrDocumentNotExist for an absent document and the store's error for an absent field. */
  method Field(db: Firestore, path: string, documentID: string, fieldName: string, getFault: Option<nat>)
    returns (r: Result<Value, Error>)
    ensures var ref := GetDocumentRef(path, documentID);
      && (getFault.Some? ==> r.Failure? && Some(r.error) == ErrorOf(getFault))
      && (getFault.None? && ref !in db.docs ==> r == Failure(DocumentNotExist))
      && (getFault.None? && ref in db.docs && fieldName !in db.docs[ref] ==> r == Failure(NoSuchField(fieldName)))
      && (getFault.None? && ref in db.docs && fieldName in db.docs[ref] ==> r == Success(db.docs[ref][fieldName]))
  {
    var s := db.Get(GetDocumentRef(path, documentID), getFault);
    if s.Failure? {
      return Failure(s.error);
    }
    if !s.value.Exists() {
      return Failure(DocumentNotExist);
    }
    var result := s.value.DataAt(fieldName);
    if result.Failure? {
      return Failure(result.error);
    }
    return Success(result.value);
  }

  /** True exactly when the Get succeeds and the document exists. */
  method Exists(db: Firestore, path: string, documentID: string, getFault: Option<nat>) returns (b: bool)
    ensures b <==> getFault.None? && GetDocumentRef(path, documentID) in db.docs
  {
    var s := db.Get(GetDocumentRef(path, documentID), getFault);
    if s.Failure? {
      return false;
    }
    if !s.value.Exists() {
      return false;
    }
    return true;
  }
}
