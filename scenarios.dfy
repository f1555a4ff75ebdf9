/**
 * The integration scenarios, stated as methods and verified against the
 * model's contracts: a user document is created, then each typed handle
 * updates and reads back.
 */
module Scenarios {
  import opened Wrappers
  import opened Values
  import opened Store
  import opened Document
  import Fuego
  import NumberField
  import StringField
  import ArrayField
  import TimestampField
  import MapField

  /** The fixture user of the integration scenarios. */
  function User(seenAt: int): Doc {
    map[
      "FirstName" := Str("John"),
      "LastName" := Str("Smith"),
      "Tokens" := Map(map["Android" := Str("AND_123"), "IOS" := Str("IOS_123")]),
      "Address" := Arr([Str("123 Street"), Str("2nd Building")]),
      "Age" := Int(29),
      "LastSeenAt" := Time(seenAt),
      "Premium" := Bool(false)
    ]
  }

  /** Create users/jsmith, then Update(31), Increment and Decrement its Age: 31, 32, 31. */
  method NumberScenario(db: Firestore, seenAt: int) returns (updated: int64, incremented: int64, decremented: int64)
    modifies db
    ensures updated == 31 && incremented == 32 && decremented == 31
  {
    var d := Fuego.Document("users", "jsmith");
    Fuego.TrimPathKeepsBarePath("users");
    var ref := d.GetDocumentRef("");
    var err := d.Create(db, User(seenAt), "", None);
    var age := NumberField.Number(d, "Age");
    NumberField.UpdateThenRetrieve(db.docs, ref, "Age", 31);
    err := age.Update(db, "", 31, None);
    updated, err := age.Retrieve(db, "", None);
    NumberField.UpdateThenRetrieve(db.docs, ref, "Age", 32);
    err := age.Increment(db, "", None, None);
    incremented, err := age.Retrieve(db, "", None);
    NumberField.UpdateThenRetrieve(db.docs, ref, "Age", 31);
    err := age.Decrement(db, "", None, None);
    decremented, err := age.Retrieve(db, "", None);
  }

  /** String Update("Mike") then Retrieve gives "Mike". */
  method StringScenario(db: Firestore, seenAt: int) returns (name: string)
    modifies db
    ensures name == "Mike"
  {
    var d := Fuego.Document("users", "jsmith");
    var ref := d.GetDocumentRef("");
    var err := d.Create(db, User(seenAt), "", None);
    var firstName := StringField.String(d, "FirstName");
    StringField.UpdateThenRetrieve(db.docs, ref, "FirstName", "Mike");
    err := firstName.Update(db, "", "Mike", None);
    name, err := firstName.Retrieve(db, "", None);
  }

  /** Append one address to the two stored (3 elements), then Override with one (1 element). */
  method ArrayScenario(db: Firestore, seenAt: int) returns (appended: nat, overridden: nat)
    modifies db
    ensures appended == 3 && overridden == 1
  {
    var d := Fuego.Document("users", "jsmith");
    var ref := d.GetDocumentRef("");
    var err := d.Create(db, User(seenAt), "", None);
    var address := ArrayField.Array(d, "Address");
    ArrayField.AppendExtends(db.docs, ref, "Address", [Str("4th Floor")]);
    err := address.Append(db, "", [Str("4th Floor")], None, None);
    var values;
    values, err := address.Retrieve(db, "", None);
    appended := |values.value|;
    ArrayField.OverrideThenRetrieve(db.docs, ref, "Address", [Str("4th Floor")]);
    err := address.Override(db, "", [Str("4th Floor")], None);
    values, err := address.Retrieve(db, "", None);
    overridden := |values.value|;
  }

  /** Timestamp Update(t) then Retrieve in Europe/Berlin is Equal to t. */
  method TimestampScenario(db: Firestore, seenAt: int, t: TimestampField.GoTime, zoneDb: set<string>) returns (read: TimestampField.GoTime)
    modifies db
    requires "Europe/Berlin" in zoneDb
    ensures TimestampField.Equal(read, t) && read.location == "Europe/Berlin"
  {
    var d := Fuego.Document("users", "jsmith");
    var ref := d.GetDocumentRef("");
    var err := d.Create(db, User(seenAt), "", None);
    var lastSeen := TimestampField.Timestamp(d, "LastSeenAt");
    TimestampField.UpdateThenRetrieve(db.docs, ref, "LastSeenAt", t, "Europe/Berlin");
    err := lastSeen.Update(db, "", t, None);
    read, err := lastSeen.Retrieve(db, "", "Europe/Berlin", zoneDb, None);
  }

  /** Map Merge({Android: AND_456}) keeps two tokens, Android updated. */
  method MapScenario(db: Firestore, seenAt: int) returns (tokens: Fields)
    modifies db
    ensures |tokens| == 2 && "Android" in tokens && tokens["Android"] == Str("AND_456")
  {
    var d := Fuego.Document("users", "jsmith");
    var ref := d.GetDocumentRef("");
    assert |d.id| > 0 && ref == Store.DocRef("users", "jsmith");
    var err := d.Create(db, User(seenAt), "", None);
    var m := MapField.Map(d, "Tokens");
    ghost var expected := map["Android" := Str("AND_456"), "IOS" := Str("IOS_123")];
    ghost var before := db.docs;
    assert before[ref] == User(seenAt);
    assert FieldAt(before, ref, "Tokens") == Success(Map(map["Android" := Str("AND_123"), "IOS" := Str("IOS_123")]));
    MapField.MergeTokensExample(before, ref);
    err := m.Merge(db, "", map["Android" := Str("AND_456")], None);
    assert db.docs == ApplyWrite(before, FieldWrite(ref, "Tokens", Map(map["Android" := Str("AND_456")])));
    assert FieldAt(db.docs, ref, "Tokens") == Success(Map(expected));
    var entries;
    entries, err := m.Retrieve(db, "", None);
    assert entries == Some(expected);
    tokens := entries.value;
    assert tokens.Keys == {"Android", "IOS"};
  }
}
