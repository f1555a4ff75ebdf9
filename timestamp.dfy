/**
 * Timestamp fields (document/timestamp.go). The store keeps an instant; a
 * Retrieve returns it as a Go time in the requested location.
 */
module TimestampField {
  import opened Wrappers
  import opened Values
  import opened Store
  import opened Document
  import opened DocumentInternal

  /** A Go time.Time: an instant (nanoseconds since the Unix epoch) shown in a location. */
  datatype GoTime = GoTime(instant: int, location: string)

  /** time.Time{}: midnight UTC, January 1 of year 1. */
  const ZeroTime: GoTime := GoTime(-62_135_596_800_000_000_000, "UTC")

  /** time.Time.Equal: the same instant, whatever the locations. */
  predicate Equal(a: GoTime, b: GoTime) {
    a.instant == b.instant
  }

  /**
   * time.LoadLocation: "" and "UTC" give UTC, "Local" the local zone, any
   * other name must be in the time-zone database `zoneDb`.
   */
  function LoadLocation(zoneDb: set<string>, name: string): (r: Result<string, Error>)
    ensures r.Success? <==> name == "" || name == "UTC" || name == "Local" || name in zoneDb
    ensures r.Failure? ==> r.error == UnknownLocation(name)
    ensures name == "" ==> r == Success("UTC")
    ensures r.Success? && name != "" ==> r.value == name
  {
    if name == "" then Success("UTC")
    else if name == "UTC" || name == "Local" || name in zoneDb then Success(name)
    else Failure(UnknownLocation(name))
  }

  /**
   * Update(t) then Retrieve in any location yields a time Equal to t: the
   * store keeps t's instant, and only this field changes.
   */
  lemma UpdateThenRetrieve(docs: Docs, ref: DocRef, name: string, t: GoTime, location: string)
    ensures var after := ApplyWrite(docs, FieldWrite(ref, name, Time(t.instant)));
      && FieldAt(after, ref, name) == Success(Time(t.instant))
      && Equal(GoTime(FieldAt(after, ref, name).value.instant, location), t)
      && after[ref] == DocOrEmpty(docs, ref)[name := Time(t.instant)]
      && after - {ref} == docs - {ref}
  {
    FieldWriteReplaces(docs, ref, name, Time(t.instant));
  }

  /** A typed handle on field `name` of `document`. */
  datatype Timestamp = Timestamp(document: FirestoreDocument, name: string) {

    /**
     * The stored instant shown in `location`. A failing field read, then an
     * unknown location, each give the zero time and their error. The field,
     * when present, must be a timestamp.
     */
    method Retrieve(db: Firestore, newId: string, location: string, zoneDb: set<string>, getFault: Option<nat>)
      returns (t: GoTime, err: Option<Error>)
      requires document.FreshFor(db.docs, newId)
      requires getFault.None? ==> FieldKindIs(db.docs, document.GetDocumentRef(newId), name, TimeKind)
      ensures var r := FieldAt(db.docs, document.GetDocumentRef(newId), name);
        var loc := LoadLocation(zoneDb, location);
        && (getFault.Some? ==> t == ZeroTime && err == ErrorOf(getFault))
        && (getFault.None? && r.Failure? ==> t == ZeroTime && err == Some(r.error))
        && (getFault.None? && r.Success? && loc.Failure? ==> t == ZeroTime && err == Some(UnknownLocation(location)))
        && (getFault.None? && r.Success? && loc.Success? ==>
              err.None? && r.value == Time(t.instant) && t.location == loc.value)
    {
      var r := RetrieveFieldValue(db, document.GetDocumentRef(newId), name, getFault);
      if r.Failure? {
        return ZeroTime, Some(r.error);
      }
      var loc := LoadLocation(zoneDb, location);
      if loc.Failure? {
        return ZeroTime, Some(loc.error);
      }
      return GoTime(r.value.instant, loc.value), None;
    }

    /** Merge-write `{name: with}`: the instant is stored, the location is not. */
    method Update(db: Firestore, newId: string, with: GoTime, fault: Option<nat>) returns (err: Option<Error>)
      modifies db
      requires document.FreshFor(db.docs, newId)
      ensures err == ErrorOf(fault)
      ensures db.docs == AfterWrite(old(db.docs), FieldWrite(document.GetDocumentRef(newId), name, Time(with.instant)), fault)
      ensures db.commits == old(db.commits)
    {
      err := db.Perform(FieldWrite(document.GetDocumentRef(newId), name, Time(with.instant)), fault);
    }
  }
}
