/** The REST handlers under `/member-types`: two reads and a patch. None of
    them adds or removes a member type. */
module MemberTypesRoutes {
  import opened Entities
  import opened Query
  import opened Store

  /** `GET /member-types`: every member type, in store order. */
  function List(db: Db): (r: seq<MemberType>)
    reads db
    ensures r == db.memberTypes
  {
    FindMany(db.memberTypes, All)
  }

  /** `GET /member-types/:id`: the first member type with that id, or 404. */
  function GetById(db: Db, id: Id): (r: Outcome<MemberType>)
    reads db
    ensures r.Ok? || r.NotFound?
    ensures r.Ok? ==> r.value in db.memberTypes && r.value.id == id
    ensures r.Ok? ==>
      exists i :: 0 <= i < |db.memberTypes| && db.memberTypes[i] == r.value && forall j :: 0 <= j < i ==> db.memberTypes[j].id != id
    ensures r.NotFound? <==> forall m :: m in db.memberTypes ==> m.id != id
  {
    match FindOne(db.memberTypes, Equals(MemberTypeKey, id))
    case None => NotFound
    case Some(m) => Ok(m)
  }

  /** `PATCH /member-types/:id`: the store's merge, 404 if no member type has
      the id. The collection keeps its length and every record its id. */
  method Patch(db: Db, id: Id, body: MemberTypePatch) returns (r: Outcome<MemberType>)
    requires db.Valid()
    modifies db`memberTypes
    ensures db.Valid()
    ensures match IndexOf(old(db.memberTypes), Equals(MemberTypeKey, id))
      case None => r == NotFound && db.memberTypes == old(db.memberTypes)
      case Some(i) =>
        db.memberTypes == old(db.memberTypes)[i := body.ApplyTo(old(db.memberTypes)[i])] &&
        r == Ok(db.memberTypes[i])
    ensures |db.memberTypes| == |old(db.memberTypes)|
    ensures forall j :: 0 <= j < |db.memberTypes| ==> db.memberTypes[j].id == old(db.memberTypes)[j].id
  {
    r := db.ChangeMemberType(id, body);
  }
}
