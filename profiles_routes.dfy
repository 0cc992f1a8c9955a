/** The REST handlers under `/profiles`. Unlike the GraphQL `createProfile`,
    nothing here checks the member type, the user id's shape or an existing
    profile; delete and patch go straight to the store. */
module ProfilesRoutes {
  import opened Entities
  import opened Query
  import opened Store

  /** `GET /profiles`: every profile, in store order. */
  function List(db: Db): (r: seq<Profile>)
    reads db
    ensures r == db.profiles
  {
    FindMany(db.profiles, All)
  }

  /** `GET /profiles/:id`: the first profile with that id, or 404. */
  function GetById(db: Db, id: Id): (r: Outcome<Profile>)
    reads db
    ensures r.Ok? || r.NotFound?
    ensures r.Ok? ==> r.value in db.profiles && r.value.id == id
    ensures r.Ok? ==>
      exists i :: 0 <= i < |db.profiles| && db.profiles[i] == r.value && forall j :: 0 <= j < i ==> db.profiles[j].id != id
    ensures r.NotFound? <==> forall p :: p in db.profiles ==> p.id != id
  {
    match FindOne(db.profiles, Equals(ProfileKey, id))
    case None => NotFound
    case Some(p) => Ok(p)
  }

  /** `POST /profiles`: the body is appended as a new profile, unchecked. If
      that user already had a profile, they now have two. */
  method Create(db: Db, body: ProfileInput, newId: Id) returns (r: Profile)
    requires db.Valid() && Fresh(db.profiles, ProfileKey, newId)
    modifies db`profiles
    ensures db.Valid()
    ensures r == NewProfile(body, newId)
    ensures db.profiles == old(db.profiles) + [r]
    ensures FindOne(old(db.profiles), Equals(ProfileOwner, body.userId)).Some? ==> !OneProfilePerUser(db)
  {
    r := db.CreateProfile(body, newId);
    if FindOne(old(db.profiles), Equals(ProfileOwner, body.userId)).Some? {
      SecondProfileForUser(old(db.profiles), r);
    }
  }

  /** Appending a profile for a user that already has one breaks "at most one
      profile per user". */
  lemma SecondProfileForUser(profiles: seq<Profile>, p: Profile)
    requires exists q :: q in profiles && q.userId == p.userId
    ensures !UniqueKeys(profiles + [p], ProfileOwner)
  {
    var q :| q in profiles && q.userId == p.userId;
    var i :| 0 <= i < |profiles| && profiles[i] == q;
    var s := profiles + [p];
    assert s[i] == q && s[|profiles|] == p;
  }

  /** `DELETE /profiles/:id`: the store's delete, 404 if no profile has the
      id. */
  method Delete(db: Db, id: Id) returns (r: Outcome<Profile>)
    requires db.Valid()
    modifies db`profiles
    ensures db.Valid()
    ensures db.profiles == Reject(old(db.profiles), Equals(ProfileKey, id))
    ensures match FindOne(old(db.profiles), Equals(ProfileKey, id))
      case None => r == NotFound && db.profiles == old(db.profiles)
      case Some(p) => r == Ok(p) && |db.profiles| == |old(db.profiles)| - 1
  {
    RejectOneKey(db.profiles, ProfileKey, id);
    r := db.DeleteProfile(id);
  }

  /** `PATCH /profiles/:id`: the store's merge, 404 if no profile has the id. */
  method Patch(db: Db, id: Id, body: ProfilePatch) returns (r: Outcome<Profile>)
    requires db.Valid()
    modifies db`profiles
    ensures db.Valid()
    ensures match IndexOf(old(db.profiles), Equals(ProfileKey, id))
      case None => r == NotFound && db.profiles == old(db.profiles)
      case Some(i) => db.profiles == old(db.profiles)[i := body.ApplyTo(old(db.profiles)[i])] && r == Ok(db.profiles[i])
  {
    r := db.ChangeProfile(id, body);
  }
}
