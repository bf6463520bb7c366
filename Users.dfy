/** `model/User.kt`: a user profile and its map (de)serialisation. */
module Users {
  import opened KotlinCore
  import opened Store

  datatype User = User(
    uid: string,
    name: string,
    email: string,
    profileImageUrl: string,
    isOnline: bool)

  /** The five keys `toMap` writes. */
  const UserKeys: set<string> := {"uid", "name", "email", "profileImageUrl", "isOnline"}

  function ToMap(u: User): Record {
    map[
      "uid" := StrValue(u.uid),
      "name" := StrValue(u.name),
      "email" := StrValue(u.email),
      "profileImageUrl" := StrValue(u.profileImageUrl),
      "isOnline" := BoolValue(u.isOnline)]
  }

  /** `map[key] as? Boolean ?: false`. */
  function BoolField(rec: Record, key: string): bool {
    key in rec && rec[key].BoolValue? && rec[key].b
  }

  function FromMap(rec: Record): User {
    User(
      StringField(rec, "uid"),
      StringField(rec, "name"),
      StringField(rec, "email"),
      StringField(rec, "profileImageUrl"),
      BoolField(rec, "isOnline"))
  }

  /** Decoding what was encoded gives the user back. */
  lemma RoundTrip(u: User)
    ensures FromMap(ToMap(u)) == u
  {
  }

  /** `toMap` writes exactly the five keys, `isOnline` among them. */
  lemma ToMapShape(u: User)
    ensures ToMap(u).Keys == UserKeys
    ensures forall k :: k in ToMap(u) && k != "isOnline" ==> ToMap(u)[k].StrValue?
    ensures ToMap(u)["isOnline"] == BoolValue(u.isOnline)
  {
  }

  /** A missing or wrongly typed field decodes to `""`, and `isOnline` to `false`. */
  lemma FromMapDefaults(rec: Record)
    ensures "uid" !in rec || !rec["uid"].StrValue? ==> FromMap(rec).uid == ""
    ensures "name" !in rec || !rec["name"].StrValue? ==> FromMap(rec).name == ""
    ensures "email" !in rec || !rec["email"].StrValue? ==> FromMap(rec).email == ""
    ensures "profileImageUrl" !in rec || !rec["profileImageUrl"].StrValue? ==> FromMap(rec).profileImageUrl == ""
    ensures "isOnline" !in rec || !rec["isOnline"].BoolValue? ==> !FromMap(rec).isOnline
  {
  }

  /** Keys other than the five are ignored. */
  lemma FromMapIgnoresExtraKeys(a: Record, b: Record)
    requires forall k :: k in UserKeys ==> (k in a <==> k in b) && (k in a ==> a[k] == b[k])
    ensures FromMap(a) == FromMap(b)
  {
    assert "uid" in UserKeys && "name" in UserKeys && "email" in UserKeys;
    assert "profileImageUrl" in UserKeys && "isOnline" in UserKeys;
  }
}
