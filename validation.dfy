/**
 * The two Joi schemas of the server. A value arrives as parsed JSON;
 * `ValidateUser` and `ValidateProfile` follow Joi's `schema.validate(value)`
 * with its defaults (stop at the first error, unknown keys refused, the
 * empty string refused by `string()`): keys are checked in schema order,
 * each rule in the order it was declared, unknown keys last. The result is
 * the first issue, or `None` when the value passes. Beside each sits a
 * declarative statement of what a valid value is, proved equivalent.
 */
module Validation {
  import opened Wrappers

  datatype Json =
    | JNull
    | JBool(b: bool)
    | JNumber(n: real)
    | JString(s: string)
    | JArray(items: seq<Json>)
    | JObject(fields: map<string, Json>)

  datatype PathStep = Key(name: string) | Index(i: nat)

  /** A Joi error: where it is and its type, such as `"any.required"` or `"string.min"`. */
  datatype Issue = Issue(path: seq<PathStep>, code: string)

  /** `Number.MAX_SAFE_INTEGER`: `number()` refuses anything beyond it unless marked unsafe. */
  const MaxSafeInteger: real := 9007199254740991.0

  function Fail(code: string): Option<Issue>
  {
    Some(Issue([], code))
  }

  /** An issue found inside the value at `step`. */
  function Under(step: PathStep, r: Option<Issue>): Option<Issue>
  {
    if r.Some? then Some(Issue([step] + r.value.path, r.value.code)) else None
  }

  // ---------------------------------------------------------------------
  // Leaf schemas
  // ---------------------------------------------------------------------

  /** `Joi.string()`: a string, and not the empty one. */
  function JoiString(j: Json): Option<Issue>
  {
    if !j.JString? then Fail("string.base")
    else if j.s == "" then Fail("string.empty")
    else None
  }

  /** `Joi.string().min(minLen)` and `.max(maxLen)`, each when given. */
  function JoiStringLength(j: Json, minLen: Option<nat>, maxLen: Option<nat>): Option<Issue>
  {
    if JoiString(j).Some? then JoiString(j)
    else if minLen.Some? && |j.s| < minLen.value then Fail("string.min")
    else if maxLen.Some? && |j.s| > maxLen.value then Fail("string.max")
    else None
  }

  /** `Joi.string().email()`, with the address check left to `isEmail`. */
  function JoiEmail(j: Json, isEmail: string -> bool): Option<Issue>
  {
    if JoiString(j).Some? then JoiString(j)
    else if !isEmail(j.s) then Fail("string.email")
    else None
  }

  /** `Joi.number()`: a number within the safe integer range. */
  function JoiNumber(j: Json): Option<Issue>
  {
    if !j.JNumber? then Fail("number.base")
    else if j.n > MaxSafeInteger || j.n < -MaxSafeInteger then Fail("number.unsafe")
    else None
  }

  /** `Joi.number().min(lo).max(hi)`. */
  function JoiNumberRange(j: Json, lo: real, hi: real): Option<Issue>
  {
    if JoiNumber(j).Some? then JoiNumber(j)
    else if j.n < lo then Fail("number.min")
    else if j.n > hi then Fail("number.max")
    else None
  }

  /** `Joi.string().valid('Point')`: the only value allowed. */
  function JoiPoint(j: Json): Option<Issue>
  {
    if j == JString("Point") then None else Fail("any.only")
  }

  /** The `items(...)` rule: the first entry from index `from` on that fails `check`. */
  function FirstItemIssue(items: seq<Json>, check: Json -> Option<Issue>, from: nat): Option<Issue>
    decreases |items| - from
  {
    if from >= |items| then None
    else if check(items[from]).Some? then Under(Index(from), check(items[from]))
    else FirstItemIssue(items, check, from + 1)
  }

  /** A key of an object: `any.required` when a required key is absent, else its schema's issue. */
  function Field(o: map<string, Json>, key: string, required: bool, check: Json -> Option<Issue>): Option<Issue>
  {
    if key !in o then (if required then Some(Issue([Key(key)], "any.required")) else None)
    else Under(Key(key), check(o[key]))
  }

  /** The issues that come before the first one in schema order: the first of a list of checks. */
  function FirstOf(checks: seq<Option<Issue>>): (r: Option<Issue>)
    ensures r.None? <==> forall i :: 0 <= i < |checks| ==> checks[i].None?
  {
    if checks == [] then None
    else if checks[0].Some? then checks[0]
    else FirstOf(checks[1..])
  }

  /** `Joi.object({...})`: an object, its keys in schema order, then no key outside `allowed`. */
  function JoiObject(j: Json, keys: Json -> seq<Option<Issue>>, allowed: set<string>): Option<Issue>
  {
    if !j.JObject? then Fail("object.base")
    else if FirstOf(keys(j)).Some? then FirstOf(keys(j))
    else if !(j.fields.Keys <= allowed) then Fail("object.unknown")
    else None
  }

  // ---------------------------------------------------------------------
  // validateUser
  // ---------------------------------------------------------------------

  const UserKeys: set<string> := {"name", "email", "password", "dateOfBirth", "gender"}

  const MinPasswordLength: nat := 6

  function UserFields(o: map<string, Json>, isEmail: string -> bool, isIsoDate: Json -> bool): seq<Option<Issue>>
  {
    [ Field(o, "name", true, JoiString),
      Field(o, "email", true, (j: Json) => JoiEmail(j, isEmail)),
      Field(o, "password", true, (j: Json) => JoiStringLength(j, Some(MinPasswordLength), None)),
      Field(o, "dateOfBirth", true, (j: Json) => JoiIsoDate(j, isIsoDate)),
      Field(o, "gender", true, JoiString) ]
  }

  /** `Joi.date().iso()`, with the format check left to `isIsoDate`: a failing string is `date.format`, anything else `date.base`. */
  function JoiIsoDate(j: Json, isIsoDate: Json -> bool): Option<Issue>
  {
    if isIsoDate(j) then None
    else if j.JString? then Fail("date.format")
    else Fail("date.base")
  }

  /** `validateUser`: the first issue of the user schema, if any. */
  function ValidateUser(j: Json, isEmail: string -> bool, isIsoDate: Json -> bool): Option<Issue>
  {
    JoiObject(j, (v: Json) => if v.JObject? then UserFields(v.fields, isEmail, isIsoDate) else [], UserKeys)
  }

  predicate NonEmptyString(j: Json)
  {
    j.JString? && j.s != ""
  }

  /** What a valid user is: exactly the five keys, each holding the kind of value the schema names. */
  predicate ValidUser(j: Json, isEmail: string -> bool, isIsoDate: Json -> bool)
  {
    && j.JObject?
    && j.fields.Keys == UserKeys
    && NonEmptyString(j.fields["name"])
    && NonEmptyString(j.fields["email"]) && isEmail(j.fields["email"].s)
    && j.fields["password"].JString? && |j.fields["password"].s| >= 6
    && isIsoDate(j.fields["dateOfBirth"])
    && NonEmptyString(j.fields["gender"])
  }

  /** `validateUser` accepts a value exactly when it is a valid user. */
  lemma ValidateUserExact(j: Json, isEmail: string -> bool, isIsoDate: Json -> bool)
    ensures ValidateUser(j, isEmail, isIsoDate).None? <==> ValidUser(j, isEmail, isIsoDate)
  {
    if j.JObject? {
      var fs := UserFields(j.fields, isEmail, isIsoDate);
      assert FirstOf(fs).None? <==> forall i :: 0 <= i < 5 ==> fs[i].None?;
      if ValidateUser(j, isEmail, isIsoDate).None? {
        assert fs[0].None? && fs[1].None? && fs[2].None? && fs[3].None? && fs[4].None?;
        assert UserKeys <= j.fields.Keys;
      }
    }
  }

  /** A user without one of the five keys is refused. */
  lemma MissingUserFieldRejected(j: Json, isEmail: string -> bool, isIsoDate: Json -> bool, key: string)
    requires key in UserKeys && (j.JObject? ==> key !in j.fields)
    ensures ValidateUser(j, isEmail, isIsoDate).Some?
  {
    ValidateUserExact(j, isEmail, isIsoDate);
  }

  /** A password of fewer than six characters is refused. */
  lemma ShortPasswordRejected(j: Json, isEmail: string -> bool, isIsoDate: Json -> bool)
    requires j.JObject? && "password" in j.fields && j.fields["password"].JString?
    requires |j.fields["password"].s| < 6
    ensures ValidateUser(j, isEmail, isIsoDate).Some?
  {
    ValidateUserExact(j, isEmail, isIsoDate);
  }

  /**
   * When the earlier keys pass, a short password is reported as such: the
   * first issue is `string.min` on `password`.
   */
  lemma ShortPasswordIssue(j: Json, isEmail: string -> bool, isIsoDate: Json -> bool)
    requires j.JObject? && "password" in j.fields && j.fields["password"].JString?
    requires 0 < |j.fields["password"].s| < 6
    requires "name" in j.fields && NonEmptyString(j.fields["name"])
    requires "email" in j.fields && NonEmptyString(j.fields["email"]) && isEmail(j.fields["email"].s)
    ensures ValidateUser(j, isEmail, isIsoDate) == Some(Issue([Key("password")], "string.min"))
  {
    var fs := UserFields(j.fields, isEmail, isIsoDate);
    assert fs[0].None? && fs[1].None? && fs[2].Some?;
    assert FirstOf(fs) == FirstOf(fs[1..]);
    assert fs[1..][1..] == fs[2..];
    assert FirstOf(fs[1..]) == FirstOf(fs[2..]);
    assert fs[2] == Under(Key("password"), Fail("string.min"));
    assert [Key("password")] + [] == [Key("password")];
  }

  /**
   * When the earlier keys pass, a `dateOfBirth` the ISO check refuses is the
   * first issue: `date.format` for a string, `date.base` for anything else.
   */
  lemma DateOfBirthIssue(j: Json, isEmail: string -> bool, isIsoDate: Json -> bool)
    requires j.JObject? && "dateOfBirth" in j.fields && !isIsoDate(j.fields["dateOfBirth"])
    requires "name" in j.fields && NonEmptyString(j.fields["name"])
    requires "email" in j.fields && NonEmptyString(j.fields["email"]) && isEmail(j.fields["email"].s)
    requires "password" in j.fields && j.fields["password"].JString? && |j.fields["password"].s| >= 6
    ensures ValidateUser(j, isEmail, isIsoDate)
         == Some(Issue([Key("dateOfBirth")], if j.fields["dateOfBirth"].JString? then "date.format" else "date.base"))
  {
    var fs := UserFields(j.fields, isEmail, isIsoDate);
    assert fs[0].None? && fs[1].None? && fs[2].None? && fs[3].Some?;
    assert FirstOf(fs) == FirstOf(fs[1..]);
    assert fs[1..][1..] == fs[2..];
    assert FirstOf(fs[1..]) == FirstOf(fs[2..]);
    assert fs[2..][1..] == fs[3..];
    assert FirstOf(fs[2..]) == FirstOf(fs[3..]);
    assert [Key("dateOfBirth")] + [] == [Key("dateOfBirth")];
  }

  // ---------------------------------------------------------------------
  // validateProfile
  // ---------------------------------------------------------------------

  const ProfileKeys: set<string> := {"bio", "photos", "interests", "location", "preferences"}
  const LocationKeys: set<string> := {"type", "coordinates"}
  const PreferenceKeys: set<string> := {"ageRange", "distance", "genderPreference"}
  const AgeRangeKeys: set<string> := {"min", "max"}

  const MaxBioLength: nat := 500
  const MinPhotos: nat := 1
  const MaxPhotos: nat := 5

  /** `Joi.array().items(Joi.string()).min(1).max(5)`. */
  function Photos(j: Json): Option<Issue>
  {
    if !j.JArray? then Fail("array.base")
    else if FirstItemIssue(j.items, JoiString, 0).Some? then FirstItemIssue(j.items, JoiString, 0)
    else if |j.items| < MinPhotos then Fail("array.min")
    else if |j.items| > MaxPhotos then Fail("array.max")
    else None
  }

  /** `Joi.array().items(Joi.string())`. */
  function Interests(j: Json): Option<Issue>
  {
    if !j.JArray? then Fail("array.base")
    else FirstItemIssue(j.items, JoiString, 0)
  }

  /** `Joi.array().items(Joi.number()).length(2)`. */
  function Coordinates(j: Json): Option<Issue>
  {
    if !j.JArray? then Fail("array.base")
    else if FirstItemIssue(j.items, JoiNumber, 0).Some? then FirstItemIssue(j.items, JoiNumber, 0)
    else if |j.items| != 2 then Fail("array.length")
    else None
  }

  function LocationFields(o: map<string, Json>): seq<Option<Issue>>
  {
    [ Field(o, "type", true, JoiPoint),
      Field(o, "coordinates", true, Coordinates) ]
  }

  function LocationSchema(j: Json): Option<Issue>
  {
    JoiObject(j, (v: Json) => if v.JObject? then LocationFields(v.fields) else [], LocationKeys)
  }

  function AgeBound(j: Json): Option<Issue>
  {
    JoiNumberRange(j, 18.0, 99.0)
  }

  function AgeRangeFields(o: map<string, Json>): seq<Option<Issue>>
  {
    [ Field(o, "min", false, AgeBound),
      Field(o, "max", false, AgeBound) ]
  }

  function AgeRangeSchema(j: Json): Option<Issue>
  {
    JoiObject(j, (v: Json) => if v.JObject? then AgeRangeFields(v.fields) else [], AgeRangeKeys)
  }

  function Distance(j: Json): Option<Issue>
  {
    JoiNumberRange(j, 1.0, 500.0)
  }

  function PreferenceFields(o: map<string, Json>): seq<Option<Issue>>
  {
    [ Field(o, "ageRange", false, AgeRangeSchema),
      Field(o, "distance", false, Distance),
      Field(o, "genderPreference", false, JoiString) ]
  }

  function PreferencesSchema(j: Json): Option<Issue>
  {
    JoiObject(j, (v: Json) => if v.JObject? then PreferenceFields(v.fields) else [], PreferenceKeys)
  }

  function Bio(j: Json): Option<Issue>
  {
    JoiStringLength(j, None, Some(MaxBioLength))
  }

  function ProfileFields(o: map<string, Json>): seq<Option<Issue>>
  {
    [ Field(o, "bio", false, Bio),
      Field(o, "photos", false, Photos),
      Field(o, "interests", false, Interests),
      Field(o, "location", false, LocationSchema),
      Field(o, "preferences", false, PreferencesSchema) ]
  }

  /** `validateProfile`: the first issue of the profile schema, if any. */
  function ValidateProfile(j: Json): Option<Issue>
  {
    JoiObject(j, (v: Json) => if v.JObject? then ProfileFields(v.fields) else [], ProfileKeys)
  }

  predicate SafeNumberIn(j: Json, lo: real, hi: real)
  {
    j.JNumber? && -MaxSafeInteger <= j.n <= MaxSafeInteger && lo <= j.n <= hi
  }

  predicate AllStrings(items: seq<Json>)
  {
    forall i :: 0 <= i < |items| ==> NonEmptyString(items[i])
  }

  predicate ValidLocation(j: Json)
  {
    && j.JObject? && j.fields.Keys == LocationKeys
    && j.fields["type"] == JString("Point")
    && j.fields["coordinates"].JArray?
    && |j.fields["coordinates"].items| == 2
    && SafeNumberIn(j.fields["coordinates"].items[0], -MaxSafeInteger, MaxSafeInteger)
    && SafeNumberIn(j.fields["coordinates"].items[1], -MaxSafeInteger, MaxSafeInteger)
  }

  predicate ValidAgeRange(j: Json)
  {
    && j.JObject? && j.fields.Keys <= AgeRangeKeys
    && ("min" in j.fields ==> SafeNumberIn(j.fields["min"], 18.0, 99.0))
    && ("max" in j.fields ==> SafeNumberIn(j.fields["max"], 18.0, 99.0))
  }

  predicate ValidPreferences(j: Json)
  {
    && j.JObject? && j.fields.Keys <= PreferenceKeys
    && ("ageRange" in j.fields ==> ValidAgeRange(j.fields["ageRange"]))
    && ("distance" in j.fields ==> SafeNumberIn(j.fields["distance"], 1.0, 500.0))
    && ("genderPreference" in j.fields ==> NonEmptyString(j.fields["genderPreference"]))
  }

  /**
   * What a valid profile is: an object with no key outside the five, every
   * key optional, and each present key holding what the schema allows.
   */
  predicate ValidProfile(j: Json)
  {
    && j.JObject? && j.fields.Keys <= ProfileKeys
    && ("bio" in j.fields ==> NonEmptyString(j.fields["bio"]) && |j.fields["bio"].s| <= 500)
    && ("photos" in j.fields ==>
          j.fields["photos"].JArray? && AllStrings(j.fields["photos"].items)
          && 1 <= |j.fields["photos"].items| <= 5)
    && ("interests" in j.fields ==> j.fields["interests"].JArray? && AllStrings(j.fields["interests"].items))
    && ("location" in j.fields ==> ValidLocation(j.fields["location"]))
    && ("preferences" in j.fields ==> ValidPreferences(j.fields["preferences"]))
  }

  /** The `items` rule passes exactly when every entry from `from` on passes. */
  lemma {:induction false} FirstItemIssueNone(items: seq<Json>, check: Json -> Option<Issue>, from: nat)
    ensures FirstItemIssue(items, check, from).None? <==> forall i :: from <= i < |items| ==> check(items[i]).None?
    decreases |items| - from
  {
    if from < |items| {
      FirstItemIssueNone(items, check, from + 1);
    }
  }

  lemma StringItems(items: seq<Json>)
    ensures FirstItemIssue(items, JoiString, 0).None? <==> AllStrings(items)
  {
    FirstItemIssueNone(items, JoiString, 0);
  }

  lemma CoordinatesExact(j: Json)
    ensures Coordinates(j).None? <==>
      j.JArray? && |j.items| == 2
      && SafeNumberIn(j.items[0], -MaxSafeInteger, MaxSafeInteger)
      && SafeNumberIn(j.items[1], -MaxSafeInteger, MaxSafeInteger)
  {
    if j.JArray? {
      FirstItemIssueNone(j.items, JoiNumber, 0);
    }
  }

  lemma LocationExact(j: Json)
    ensures LocationSchema(j).None? <==> ValidLocation(j)
  {
    if j.JObject? {
      var fs := LocationFields(j.fields);
      assert FirstOf(fs).None? <==> fs[0].None? && fs[1].None?;
      if "coordinates" in j.fields {
        CoordinatesExact(j.fields["coordinates"]);
      }
    }
  }

  lemma AgeRangeExact(j: Json)
    ensures AgeRangeSchema(j).None? <==> ValidAgeRange(j)
  {
    if j.JObject? {
      var fs := AgeRangeFields(j.fields);
      assert FirstOf(fs).None? <==> fs[0].None? && fs[1].None?;
    }
  }

  lemma PreferencesExact(j: Json)
    ensures PreferencesSchema(j).None? <==> ValidPreferences(j)
  {
    if j.JObject? {
      var fs := PreferenceFields(j.fields);
      assert FirstOf(fs).None? <==> fs[0].None? && fs[1].None? && fs[2].None?;
      if "ageRange" in j.fields {
        AgeRangeExact(j.fields["ageRange"]);
      }
    }
  }

  /** `validateProfile` accepts a value exactly when it is a valid profile. */
  lemma ValidateProfileExact(j: Json)
    ensures ValidateProfile(j).None? <==> ValidProfile(j)
  {
    if j.JObject? {
      var o := j.fields;
      var fs := ProfileFields(o);
      assert FirstOf(fs).None? <==> fs[0].None? && fs[1].None? && fs[2].None? && fs[3].None? && fs[4].None?;
      if "photos" in o && o["photos"].JArray? {
        StringItems(o["photos"].items);
      }
      if "interests" in o && o["interests"].JArray? {
        StringItems(o["interests"].items);
      }
      if "location" in o {
        LocationExact(o["location"]);
      }
      if "preferences" in o {
        PreferencesExact(o["preferences"]);
      }
    }
  }

  /** A bio longer than 500 characters is refused. */
  lemma LongBioRejected(j: Json)
    requires j.JObject? && "bio" in j.fields && j.fields["bio"].JString? && |j.fields["bio"].s| > 500
    ensures ValidateProfile(j).Some?
  {
    ValidateProfileExact(j);
  }

  /** An accepted profile's photos, when present, are one to five non-empty strings. */
  lemma AcceptedPhotos(j: Json)
    requires ValidateProfile(j).None? && j.JObject? && "photos" in j.fields
    ensures j.fields["photos"].JArray?
    ensures 1 <= |j.fields["photos"].items| <= 5
    ensures forall i :: 0 <= i < |j.fields["photos"].items| ==> NonEmptyString(j.fields["photos"].items[i])
  {
    ValidateProfileExact(j);
  }

  /** An accepted profile's location, when present, is a `Point` with exactly two numbers. */
  lemma AcceptedLocation(j: Json)
    requires ValidateProfile(j).None? && j.JObject? && "location" in j.fields
    ensures var l := j.fields["location"];
      && l.JObject? && l.fields.Keys == {"type", "coordinates"}
      && l.fields["type"] == JString("Point")
      && l.fields["coordinates"].JArray? && |l.fields["coordinates"].items| == 2
      && l.fields["coordinates"].items[0].JNumber? && l.fields["coordinates"].items[1].JNumber?
  {
    ValidateProfileExact(j);
  }

  /** An accepted profile's age bounds and distance lie in their ranges. */
  lemma AcceptedPreferenceBounds(j: Json)
    requires ValidateProfile(j).None? && j.JObject? && "preferences" in j.fields
    ensures var p := j.fields["preferences"];
      && p.JObject?
      && ("distance" in p.fields ==> p.fields["distance"].JNumber? && 1.0 <= p.fields["distance"].n <= 500.0)
      && ("ageRange" in p.fields ==>
            var a := p.fields["ageRange"];
            && a.JObject?
            && ("min" in a.fields ==> a.fields["min"].JNumber? && 18.0 <= a.fields["min"].n <= 99.0)
            && ("max" in a.fields ==> a.fields["max"].JNumber? && 18.0 <= a.fields["max"].n <= 99.0))
  {
    ValidateProfileExact(j);
  }

  /** An age range whose minimum exceeds its maximum: only each bound on its own is checked. */
  const InvertedAgeRange: Json :=
    JObject(map["preferences" := JObject(map["ageRange" := JObject(map["min" := JNumber(40.0), "max" := JNumber(20.0)])])])

  lemma InvertedAgeRangeAccepted()
    ensures ValidateProfile(InvertedAgeRange).None?
    ensures InvertedAgeRange.fields["preferences"].fields["ageRange"].fields["min"].n
          > InvertedAgeRange.fields["preferences"].fields["ageRange"].fields["max"].n
  {
    ValidateProfileExact(InvertedAgeRange);
    var p := InvertedAgeRange.fields["preferences"];
    var a := p.fields["ageRange"];
    assert a.fields.Keys == {"min", "max"};
    assert ValidAgeRange(a);
    assert p.fields.Keys == {"ageRange"};
    assert ValidPreferences(p);
    assert InvertedAgeRange.fields.Keys == {"preferences"};
  }

  /** An object with none of the optional keys is a valid profile. */
  lemma EmptyProfileAccepted()
    ensures ValidateProfile(JObject(map[])) == None
  {
    ValidateProfileExact(JObject(map[]));
  }

  /** A key the schema does not name is refused, whatever the other keys hold. */
  lemma UnknownProfileKeyRejected(j: Json, key: string)
    requires j.JObject? && key in j.fields && key !in ProfileKeys
    ensures ValidateProfile(j).Some?
  {
    ValidateProfileExact(j);
  }
}
