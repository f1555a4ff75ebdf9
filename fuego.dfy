/**
 * The entry point (fuego.go): document and collection handles built from a
 * path with one leading and one trailing slash removed.
 */
module Fuego {
  import Handle = Document
  import Bulk = Collection
  import Store

  predicate HasPrefix(s: string, prefix: string) {
    |prefix| <= |s| && s[..|prefix|] == prefix
  }

  predicate HasSuffix(s: string, suffix: string) {
    |suffix| <= |s| && s[|s| - |suffix|..] == suffix
  }

  /** strings.TrimPrefix: `s` without a leading `prefix`, or `s` itself when it does not start with one. */
  function TrimPrefix(s: string, prefix: string): (r: string)
    ensures HasPrefix(s, prefix) ==> s == prefix + r
    ensures !HasPrefix(s, prefix) ==> r == s
  {
    if HasPrefix(s, prefix) then s[|prefix|..] else s
  }

  /** strings.TrimSuffix: `s` without a trailing `suffix`, or `s` itself when it does not end with one. */
  function TrimSuffix(s: string, suffix: string): (r: string)
    ensures HasSuffix(s, suffix) ==> s == r + suffix
    ensures !HasSuffix(s, suffix) ==> r == s
  {
    if HasSuffix(s, suffix) then s[..|s| - |suffix|] else s
  }

  /** The collection path a handle uses: at most one character, a "/", removed at each end. */
  function TrimPath(path: string): (r: string)
    ensures || r == path
            || (1 <= |path| && (r == path[1..] || r == path[..|path| - 1]))
            || (2 <= |path| && r == path[1..|path| - 1])
  {
    TrimSuffix(TrimPrefix(path, "/"), "/")
  }

  /** Wrapping any path in one slash on each side and trimming gives it back. */
  lemma TrimPathUnwraps(p: string)
    ensures TrimPath("/" + p + "/") == p
  {
    assert ("/" + p + "/")[..1] == "/";
    assert ("/" + p + "/")[1..] == p + "/";
    assert (p + "/")[|p + "/"| - 1..] == "/";
    assert (p + "/")[..|p|] == p;
  }

  /** A path with no slash at either end is left as it is. */
  lemma TrimPathKeepsBarePath(p: string)
    requires p == [] || (p[0] != '/' && p[|p| - 1] != '/')
    ensures TrimPath(p) == p
  {
    if p != [] {
      assert p[..1] == [p[0]];
      assert p[|p| - 1..] == [p[|p| - 1]];
    }
  }

  /** A bare path with one leading slash trims to itself. */
  lemma TrimPathDropsLeadingSlash(p: string)
    requires p == [] || (p[0] != '/' && p[|p| - 1] != '/')
    ensures TrimPath("/" + p) == p
  {
    assert ("/" + p)[..1] == "/";
    assert ("/" + p)[1..] == p;
    TrimPathKeepsBarePath(p);
    if p == [] {
      assert "/" + p == "/";
    } else {
      assert p[|p| - 1..] == [p[|p| - 1]];
    }
  }

  /** A bare path with one trailing slash trims to itself. */
  lemma TrimPathDropsTrailingSlash(p: string)
    requires p == [] || (p[0] != '/' && p[|p| - 1] != '/')
    ensures TrimPath(p + "/") == p
  {
    assert (p + "/")[|p + "/"| - 1..] == "/";
    assert (p + "/")[..|p|] == p;
    if p == [] {
      assert p + "/" == "/";
      assert "/"[..1] == "/";
    } else {
      assert (p + "/")[..1] == [p[0]];
    }
  }

  /**
   * Only one character goes from each side: "//users" keeps a leading
   * slash, "users//" a trailing one; "/" trims to the empty path.
   */
  lemma TrimPathExamples()
    ensures TrimPath("//users") == "/users"
    ensures TrimPath("users//") == "users/"
    ensures TrimPath("/users/") == "users"
    ensures TrimPath("/") == ""
  {
    assert "//users"[..1] == "/";
    assert "//users"[1..] == "/users";
    assert "/users"[|"/users"| - 1..] == "s";
    assert "users//"[..1] == "u";
    assert "users//"[|"users//"| - 1..] == "/";
    assert "users//"[..6] == "users/";
    assert "/users/"[..1] == "/" && "/users/"[1..] == "users/";
    assert "users/"[|"users/"| - 1..] == "/" && "users/"[..5] == "users";
    TrimPathUnwraps("users");
    assert "/"[..1] == "/";
  }

  /** A handle on `documentID` in the trimmed collection `path`, outside any batch. */
  method Document(path: string, documentID: string) returns (d: Handle.FirestoreDocument)
    ensures d.colPath == TrimPath(path) && d.id == documentID && !d.InBatch()
  {
    var p := TrimPrefix(path, "/");
    p := TrimSuffix(p, "/");
    d := new Handle.FirestoreDocument.New(p, documentID, null);
  }

  /** Document(path, ""): a handle whose every resolution is a freshly generated document. */
  method DocumentWithGeneratedID(path: string) returns (d: Handle.FirestoreDocument)
    ensures d.colPath == TrimPath(path) && d.id == "" && !d.InBatch()
    ensures forall newId :: d.GetDocumentRef(newId) == Store.DocRef(TrimPath(path), newId)
  {
    d := Document(path, "");
  }

  /** A collection handle on the trimmed `path`. */
  function Collection(path: string): (c: Bulk.FirestoreCollection)
    ensures c.path == TrimPath(path)
  {
    Bulk.FirestoreCollection(TrimSuffix(TrimPrefix(path, "/"), "/"))
  }
}
