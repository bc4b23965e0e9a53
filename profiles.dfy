/**
 * The profiles table: create-or-update of the caller's own profile, the two
 * lookups that answer 404 when no row matches, and the nearby search, which
 * needs a stored location and always asks for a 50 km radius.
 */
module Profiles {
  import opened Wrappers
  import opened Seqs

  /**
   * A stored `location` value. The handlers store the body's value as sent,
   * so it need not carry `latitude` and `longitude` keys (a GeoJSON point
   * does not); a key it lacks reads as `undefined`, here `None`.
   */
  datatype Location = Location(latitude: Option<real>, longitude: Option<real>)

  /**
   * Profile columns as a request body carries them. A field the body leaves
   * out is `None`; it is dropped when the body is serialised, so an update
   * leaves that column as it was and an insert leaves it empty.
   */
  datatype ProfileFields = ProfileFields(
    name: Option<string>,
    birthdate: Option<string>,
    gender: Option<string>,
    bio: Option<string>,
    location: Option<Location>,
    photos: Option<seq<string>>,
    interests: Option<seq<string>>,
    values: Option<seq<string>>)

  datatype ProfileRow = ProfileRow(id: nat, userId: UserId, fields: ProfileFields)

  datatype ProfileError = ProfileNotFound | LocationNotSet
  {
    function HttpStatus(): int
    {
      if ProfileNotFound? then 404 else 400
    }

    function Message(): string
    {
      if ProfileNotFound? then "Profile not found" else "User location not set"
    }
  }

  /** The parameters of the `nearby_profiles` call; `None` is an `undefined` coordinate. */
  datatype NearbyRequest = NearbyRequest(lat: Option<real>, long: Option<real>, radiusKm: int)

  const NearbyRadiusKm: int := 50

  function Pick<T>(stored: Option<T>, sent: Option<T>): Option<T>
  {
    if sent.Some? then sent else stored
  }

  /** The stored columns after an update with `body`: each field sent replaces the stored one. */
  function Merge(stored: ProfileFields, body: ProfileFields): ProfileFields
  {
    ProfileFields(
      Pick(stored.name, body.name),
      Pick(stored.birthdate, body.birthdate),
      Pick(stored.gender, body.gender),
      Pick(stored.bio, body.bio),
      Pick(stored.location, body.location),
      Pick(stored.photos, body.photos),
      Pick(stored.interests, body.interests),
      Pick(stored.values, body.values))
  }

  function OfUser(u: UserId): ProfileRow -> bool
  {
    (r: ProfileRow) => r.userId == u
  }

  function WithId(id: nat): ProfileRow -> bool
  {
    (r: ProfileRow) => r.id == id
  }

  /** The table's invariant: at most one profile per user, and ids distinct and below the next id. */
  ghost predicate TableInvariant(rows: seq<ProfileRow>, nextId: nat)
  {
    && (forall i :: 0 <= i < |rows| ==> rows[i].id < nextId)
    && (forall i, j :: 0 <= i < j < |rows| ==> rows[i].userId != rows[j].userId && rows[i].id != rows[j].id)
  }

  /** The `select('id').eq('user_id', u).single()` existence check. */
  predicate HasProfile(rows: seq<ProfileRow>, u: UserId)
  {
    Single(Filter(rows, OfUser(u))).Some?
  }

  /** `update(body).eq('user_id', u)`: every row of the user gets the fields the body sends. */
  function UpdateForUser(rows: seq<ProfileRow>, u: UserId, body: ProfileFields): seq<ProfileRow>
  {
    seq(|rows|, i requires 0 <= i < |rows| =>
      if rows[i].userId == u then rows[i].(fields := Merge(rows[i].fields, body)) else rows[i])
  }

  /** `createOrUpdateProfile`: update the caller's profile if the check found it, insert one otherwise. */
  function Upsert(rows: seq<ProfileRow>, nextId: nat, u: UserId, body: ProfileFields): seq<ProfileRow>
  {
    if HasProfile(rows, u) then UpdateForUser(rows, u, body)
    else rows + [ProfileRow(nextId, u, body)]
  }

  /** `getProfile`: the caller's row, or 404. */
  function GetProfile(rows: seq<ProfileRow>, u: UserId): (r: Result<ProfileRow, ProfileError>)
    ensures r.Ok? <==> |Filter(rows, OfUser(u))| == 1
    ensures r.Ok? ==> r.value in rows && r.value.userId == u
    ensures r.Err? ==> r.error == ProfileNotFound && r.error.HttpStatus() == 404
  {
    FilterMembers(rows, OfUser(u));
    match Single(Filter(rows, OfUser(u)))
    case None => Err(ProfileNotFound)
    case Some(p) => Ok(p)
  }

  /** `getProfileById`: the row with that id, or 404. */
  function GetProfileById(rows: seq<ProfileRow>, id: nat): (r: Result<ProfileRow, ProfileError>)
    ensures r.Ok? <==> |Filter(rows, WithId(id))| == 1
    ensures r.Ok? ==> r.value in rows && r.value.id == id
    ensures r.Err? ==> r.error == ProfileNotFound && r.error.HttpStatus() == 404
  {
    FilterMembers(rows, WithId(id));
    match Single(Filter(rows, WithId(id)))
    case None => Err(ProfileNotFound)
    case Some(p) => Ok(p)
  }

  /** `getNearbyProfiles`, up to the database call: the caller's stored location and a fixed radius. */
  function GetNearbyProfiles(rows: seq<ProfileRow>, u: UserId): (r: Result<NearbyRequest, ProfileError>)
    ensures r.Ok? ==> r.value.radiusKm == 50
    ensures r.Err? ==> r.error == LocationNotSet && r.error.HttpStatus() == 400
    ensures r.Ok? <==> exists p :: Single(Filter(rows, OfUser(u))) == Some(p) && p.fields.location.Some?
  {
    match Single(Filter(rows, OfUser(u)))
    case None => Err(LocationNotSet)
    case Some(p) =>
      if p.fields.location.None? then Err(LocationNotSet)
      else Ok(NearbyRequest(p.fields.location.value.latitude, p.fields.location.value.longitude, NearbyRadiusKm))
  }

  // ---------------------------------------------------------------------
  // Properties
  // ---------------------------------------------------------------------

  lemma FindsOwnRow(rows: seq<ProfileRow>, n: nat, k: nat)
    requires TableInvariant(rows, n) && k < |rows|
    ensures Single(Filter(rows, OfUser(rows[k].userId))) == Some(rows[k])
    ensures Single(Filter(rows, WithId(rows[k].id))) == Some(rows[k])
  {
    FilterSingleton(rows, OfUser(rows[k].userId), k);
    FilterSingleton(rows, WithId(rows[k].id), k);
  }

  /**
   * With a profile for the user, the upsert inserts nothing: that row gets
   * the fields the body sends, keeps the others, and every other row stays.
   */
  lemma UpsertUpdatesExisting(rows: seq<ProfileRow>, n: nat, u: UserId, body: ProfileFields, k: nat)
    requires TableInvariant(rows, n) && k < |rows| && rows[k].userId == u
    ensures Upsert(rows, n, u, body) == rows[k := rows[k].(fields := Merge(rows[k].fields, body))]
  {
    FindsOwnRow(rows, n, k);
    var r := UpdateForUser(rows, u, body);
    forall i | 0 <= i < |rows| ensures r[i] == rows[k := rows[k].(fields := Merge(rows[k].fields, body))][i] {
      if i < k { assert rows[i].userId != rows[k].userId; }
      if k < i { assert rows[k].userId != rows[i].userId; }
    }
  }

  /** Without a profile for the user, the upsert appends one row owned by the requester. */
  lemma UpsertInsertsNew(rows: seq<ProfileRow>, n: nat, u: UserId, body: ProfileFields)
    requires forall i :: 0 <= i < |rows| ==> rows[i].userId != u
    ensures Upsert(rows, n, u, body) == rows + [ProfileRow(n, u, body)]
  {
    FilterEmpty(rows, OfUser(u));
  }

  lemma UpdateRowPreservesInvariant(rows: seq<ProfileRow>, n: nat, k: nat, f: ProfileFields)
    requires TableInvariant(rows, n) && k < |rows|
    ensures TableInvariant(rows[k := rows[k].(fields := f)], n)
  {
    var r := rows[k := rows[k].(fields := f)];
    forall i, j | 0 <= i < j < |r| ensures r[i].userId != r[j].userId && r[i].id != r[j].id {
      assert rows[i].userId != rows[j].userId && rows[i].id != rows[j].id;
    }
  }

  lemma AppendRowPreservesInvariant(rows: seq<ProfileRow>, n: nat, u: UserId, body: ProfileFields)
    requires TableInvariant(rows, n)
    requires forall i :: 0 <= i < |rows| ==> rows[i].userId != u
    ensures TableInvariant(rows + [ProfileRow(n, u, body)], n + 1)
  {
    var r := rows + [ProfileRow(n, u, body)];
    forall i, j | 0 <= i < j < |r| ensures r[i].userId != r[j].userId && r[i].id != r[j].id {
      if j < |rows| { assert r[i] == rows[i] && r[j] == rows[j]; }
    }
  }

  /** The upsert keeps at most one profile per user. */
  lemma UpsertPreservesInvariant(rows: seq<ProfileRow>, n: nat, u: UserId, body: ProfileFields)
    requires TableInvariant(rows, n)
    ensures TableInvariant(Upsert(rows, n, u, body), if HasProfile(rows, u) then n else n + 1)
  {
    if k :| 0 <= k < |rows| && rows[k].userId == u {
      UpsertUpdatesExisting(rows, n, u, body, k);
      FindsOwnRow(rows, n, k);
      UpdateRowPreservesInvariant(rows, n, k, Merge(rows[k].fields, body));
    } else {
      UpsertInsertsNew(rows, n, u, body);
      FilterEmpty(rows, OfUser(u));
      AppendRowPreservesInvariant(rows, n, u, body);
    }
  }

  /**
   * Reading the profile back after an upsert gives the requester's row with
   * the merged fields when it existed, or exactly the body when it was new.
   */
  lemma UpsertThenGet(rows: seq<ProfileRow>, n: nat, u: UserId, body: ProfileFields)
    requires TableInvariant(rows, n)
    ensures var r := GetProfile(Upsert(rows, n, u, body), u);
      && r.Ok? && r.value.userId == u
      && (forall k :: 0 <= k < |rows| && rows[k].userId == u ==>
            r.value == ProfileRow(rows[k].id, u, Merge(rows[k].fields, body)))
      && ((forall k :: 0 <= k < |rows| ==> rows[k].userId != u) ==> r.value == ProfileRow(n, u, body))
  {
    UpsertPreservesInvariant(rows, n, u, body);
    var after := Upsert(rows, n, u, body);
    if k :| 0 <= k < |rows| && rows[k].userId == u {
      UpsertUpdatesExisting(rows, n, u, body, k);
      FindsOwnRow(after, if HasProfile(rows, u) then n else n + 1, k);
    } else {
      UpsertInsertsNew(rows, n, u, body);
      FindsOwnRow(after, if HasProfile(rows, u) then n else n + 1, |rows|);
    }
  }

  /** With no row for the user, `getProfile` answers 404 "Profile not found". */
  lemma MissingProfileNotFound(rows: seq<ProfileRow>, u: UserId)
    requires forall i :: 0 <= i < |rows| ==> rows[i].userId != u
    ensures GetProfile(rows, u) == Err(ProfileNotFound)
    ensures ProfileNotFound.HttpStatus() == 404 && ProfileNotFound.Message() == "Profile not found"
  {
    FilterEmpty(rows, OfUser(u));
  }

  /** With no row of that id, `getProfileById` answers 404 "Profile not found". */
  lemma MissingIdNotFound(rows: seq<ProfileRow>, id: nat)
    requires forall i :: 0 <= i < |rows| ==> rows[i].id != id
    ensures GetProfileById(rows, id) == Err(ProfileNotFound)
  {
    FilterEmpty(rows, WithId(id));
  }

  /** The nearby search fails with 400 without a profile or without a stored location. */
  lemma NearbyNeedsLocation(rows: seq<ProfileRow>, n: nat, u: UserId)
    requires TableInvariant(rows, n)
    requires forall i :: 0 <= i < |rows| && rows[i].userId == u ==> rows[i].fields.location.None?
    ensures GetNearbyProfiles(rows, u) == Err(LocationNotSet)
  {
    if k :| 0 <= k < |rows| && rows[k].userId == u {
      FindsOwnRow(rows, n, k);
    } else {
      FilterEmpty(rows, OfUser(u));
    }
  }

  /** A stored location yields a search around it with the 50 km radius. */
  lemma NearbyUsesStoredLocation(rows: seq<ProfileRow>, n: nat, k: nat)
    requires TableInvariant(rows, n) && k < |rows| && rows[k].fields.location.Some?
    ensures GetNearbyProfiles(rows, rows[k].userId)
         == Ok(NearbyRequest(rows[k].fields.location.value.latitude, rows[k].fields.location.value.longitude, 50))
  {
    FindsOwnRow(rows, n, k);
  }

  /**
   * A stored location without `latitude` and `longitude` keys still passes
   * the guard, and the search is sent with both coordinates undefined.
   */
  lemma NearbyKeylessLocation(rows: seq<ProfileRow>, n: nat, k: nat)
    requires TableInvariant(rows, n) && k < |rows| && rows[k].fields.location == Some(Location(None, None))
    ensures GetNearbyProfiles(rows, rows[k].userId) == Ok(NearbyRequest(None, None, 50))
  {
    NearbyUsesStoredLocation(rows, n, k);
  }

  class ProfileTable {
    var rows: seq<ProfileRow>
    var nextId: nat

    ghost predicate Valid()
      reads this
    {
      TableInvariant(rows, nextId)
    }

    constructor ()
      ensures Valid() && rows == []
    {
      rows := [];
      nextId := 0;
    }

    /** `createOrUpdateProfile` for the requester `u`. */
    method CreateOrUpdateProfile(u: UserId, body: ProfileFields)
      requires Valid()
      modifies this
      ensures Valid()
      ensures rows == Upsert(old(rows), old(nextId), u, body)
      ensures nextId == if HasProfile(old(rows), u) then old(nextId) else old(nextId) + 1
    {
      UpsertPreservesInvariant(rows, nextId, u, body);
      var existing := Single(Filter(rows, OfUser(u)));
      if existing.Some? {
        rows := UpdateForUser(rows, u, body);
      } else {
        rows := rows + [ProfileRow(nextId, u, body)];
        nextId := nextId + 1;
      }
    }
  }
}
