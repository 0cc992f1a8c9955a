/** The GraphQL schema's resolvers: the root queries, the nested fields of
    `userType`, and the mutations with their integrity checks. Resolvers that
    only read are functions of the store; mutations are methods on it. */
module GraphqlSchema {
  import opened Entities
  import opened Query
  import opened Uuid
  import opened Follows
  import opened Store

  // ---------------------------------------------------------------------
  // Root queries: a whole collection, or one record by id (null if none).

  function MembersType(db: Db): (r: seq<MemberType>)
    reads db
    ensures r == db.memberTypes
  {
    FindMany(db.memberTypes, All)
  }

  function MemberTypeById(db: Db, id: Id): (r: Outcome<MemberType>)
    reads db
    ensures r.Ok? || r.Null?
    ensures r.Ok? ==> r.value in db.memberTypes && r.value.id == id
    ensures r.Null? <==> forall m :: m in db.memberTypes ==> m.id != id
  {
    match FindOne(db.memberTypes, Equals(MemberTypeKey, id))
    case None => Null
    case Some(m) => Ok(m)
  }

  function Users(db: Db): (r: seq<User>)
    reads db
    ensures r == db.users
  {
    FindMany(db.users, All)
  }

  function UserById(db: Db, id: Id): (r: Outcome<User>)
    reads db
    ensures r.Ok? || r.Null?
    ensures r.Ok? ==> r.value in db.users && r.value.id == id
    ensures r.Null? <==> forall u :: u in db.users ==> u.id != id
  {
    match FindOne(db.users, Equals(UserKey, id))
    case None => Null
    case Some(u) => Ok(u)
  }

  function Posts(db: Db): (r: seq<Post>)
    reads db
    ensures r == db.posts
  {
    FindMany(db.posts, All)
  }

  function PostById(db: Db, id: Id): (r: Outcome<Post>)
    reads db
    ensures r.Ok? || r.Null?
    ensures r.Ok? ==> r.value in db.posts && r.value.id == id
    ensures r.Null? <==> forall p :: p in db.posts ==> p.id != id
  {
    match FindOne(db.posts, Equals(PostKey, id))
    case None => Null
    case Some(p) => Ok(p)
  }

  function Profiles(db: Db): (r: seq<Profile>)
    reads db
    ensures r == db.profiles
  {
    FindMany(db.profiles, All)
  }

  function ProfileById(db: Db, id: Id): (r: Outcome<Profile>)
    reads db
    ensures r.Ok? || r.Null?
    ensures r.Ok? ==> r.value in db.profiles && r.value.id == id
    ensures r.Null? <==> forall p :: p in db.profiles ==> p.id != id
  {
    match FindOne(db.profiles, Equals(ProfileKey, id))
    case None => Null
    case Some(p) => Ok(p)
  }

  // ---------------------------------------------------------------------
  // Nested fields of `userType`, resolved from the parent user record. Each
  // field issues its own store reads; nothing is shared between fields.

  /** `profile`: the first profile whose owner is the parent, or null. */
  function ProfileOf(db: Db, parent: User): (r: Option<Profile>)
    reads db
    ensures r.Some? ==> r.value in db.profiles && r.value.userId == parent.id
    ensures r.Some? ==> exists i :: 0 <= i < |db.profiles| && db.profiles[i] == r.value &&
                                    forall j :: 0 <= j < i ==> db.profiles[j].userId != parent.id
    ensures r.None? <==> forall p :: p in db.profiles ==> p.userId != parent.id
  {
    FindOne(db.profiles, Equals(ProfileOwner, parent.id))
  }

  /** `posts`: every post owned by the parent, in store order. */
  function PostsOf(db: Db, parent: User): (r: seq<Post>)
    reads db
    ensures forall p :: p in r <==> p in db.posts && p.userId == parent.id
    ensures |r| <= |db.posts|
    ensures db.posts == [] ==> r == []
  {
    FindMany(db.posts, Equals(PostOwner, parent.id))
  }

  /** Store order: a post appended to the store is appended to the field
      exactly when the parent owns it, and nothing before it moves. */
  lemma {:induction false} PostsOfAppend(db: Db, grown: Db, parent: User, q: Post)
    requires grown.posts == db.posts + [q]
    ensures PostsOf(grown, parent) == PostsOf(db, parent) + (if q.userId == parent.id then [q] else [])
  {
    FindManyConcat(db.posts, [q], Equals(PostOwner, parent.id));
    FindManySingle(q, Equals(PostOwner, parent.id));
  }

  /** `memberType`: null without a profile, otherwise the member type the
      profile names (null if that id is unknown). */
  function MemberTypeOf(db: Db, parent: User): (r: Option<MemberType>)
    reads db
    ensures ProfileOf(db, parent).None? ==> r.None?
    ensures r.Some? ==> r.value in db.memberTypes && r.value.id == ProfileOf(db, parent).value.memberTypeId
    ensures ProfileOf(db, parent).Some? && r.None? ==>
      forall m :: m in db.memberTypes ==> m.id != ProfileOf(db, parent).value.memberTypeId
  {
    match FindOne(db.profiles, Equals(ProfileOwner, parent.id))
    case None => None
    case Some(profile) => FindOne(db.memberTypes, Equals(MemberTypeKey, profile.memberTypeId))
  }

  /** `userSubscribedTo`: the users whose follow list contains the parent's id. */
  function UserSubscribedTo(db: Db, parent: User): (r: seq<User>)
    reads db
    ensures forall u :: u in r <==> u in db.users && parent.id in u.subscribedToUserIds
  {
    FindMany(db.users, InArray(UserFollows, parent.id))
  }

  /** `subscribedToUser`: one lookup per id of the parent's follow list, in the
      list's order, null for an id no user has. */
  function SubscribedToUser(db: Db, parent: User): (r: seq<Option<User>>)
    reads db
    ensures |r| == |parent.subscribedToUserIds|
    ensures forall i :: 0 <= i < |r| ==>
      (r[i].Some? ==> r[i].value in db.users && r[i].value.id == parent.subscribedToUserIds[i])
    ensures forall i :: 0 <= i < |r| ==>
      (r[i].None? <==> forall u :: u in db.users ==> u.id != parent.subscribedToUserIds[i])
  {
    LookupEach(db.users, parent.subscribedToUserIds)
  }

  function LookupEach(users: seq<User>, ids: seq<Id>): (r: seq<Option<User>>)
    ensures |r| == |ids|
    ensures forall i :: 0 <= i < |r| ==> (r[i].Some? ==> r[i].value in users && r[i].value.id == ids[i])
    ensures forall i :: 0 <= i < |r| ==> (r[i].None? <==> forall u :: u in users ==> u.id != ids[i])
  {
    if |ids| == 0 then []
    else [FindOne(users, Equals(UserKey, ids[0]))] + LookupEach(users, ids[1..])
  }

  // ---------------------------------------------------------------------
  // Mutations.

  method CreateUser(db: Db, data: UserInput, newId: Id) returns (r: User)
    requires db.Valid() && Fresh(db.users, UserKey, newId)
    modifies db`users
    ensures db.Valid()
    ensures r == User(newId, data.firstName, data.lastName, data.email, [])
    ensures db.users == old(db.users) + [r]
  {
    r := db.CreateUser(data, newId);
  }

  method UpdateUser(db: Db, id: Id, data: UserPatch) returns (r: Outcome<User>)
    requires db.Valid()
    modifies db`users
    ensures db.Valid()
    ensures match IndexOf(old(db.users), Equals(UserKey, id))
      case None => r == BadRequest && db.users == old(db.users)
      case Some(i) => db.users == old(db.users)[i := data.ApplyTo(old(db.users)[i])] && r == Ok(db.users[i])
  {
    if FindOne(db.users, Equals(UserKey, id)).None? {
      return BadRequest;
    }
    r := db.ChangeUser(id, data);
  }

  /** `createPost` checks that the owner exists; it returns (does not throw)
      the bad-request error otherwise. */
  method CreatePost(db: Db, data: PostInput, newId: Id) returns (r: Outcome<Post>)
    requires db.Valid() && Fresh(db.posts, PostKey, newId)
    modifies db`posts
    ensures db.Valid()
    ensures FindOne(db.users, Equals(UserKey, data.userId)).None? ==>
      r == BadRequest && db.posts == old(db.posts)
    ensures FindOne(db.users, Equals(UserKey, data.userId)).Some? ==>
      r == Ok(Post(newId, data.title, data.content, data.userId)) && db.posts == old(db.posts) + [r.value]
    ensures old(PostsHaveOwners(db)) ==> PostsHaveOwners(db)
  {
    if FindOne(db.users, Equals(UserKey, data.userId)).None? {
      return BadRequest;
    }
    var p := db.CreatePost(data, newId);
    r := Ok(p);
  }

  method UpdatePost(db: Db, id: Id, data: PostPatch) returns (r: Outcome<Post>)
    requires db.Valid()
    modifies db`posts
    ensures db.Valid()
    ensures match IndexOf(old(db.posts), Equals(PostKey, id))
      case None => r == BadRequest && db.posts == old(db.posts)
      case Some(i) => db.posts == old(db.posts)[i := data.ApplyTo(old(db.posts)[i])] && r == Ok(db.posts[i])
  {
    if FindOne(db.posts, Equals(PostKey, id)).None? {
      return BadRequest;
    }
    r := db.ChangePost(id, data);
  }

  method UpdateMemberType(db: Db, id: Id, data: MemberTypePatch) returns (r: Outcome<MemberType>)
    requires db.Valid()
    modifies db`memberTypes
    ensures db.Valid()
    ensures match IndexOf(old(db.memberTypes), Equals(MemberTypeKey, id))
      case None => r == BadRequest && db.memberTypes == old(db.memberTypes)
      case Some(i) =>
        db.memberTypes == old(db.memberTypes)[i := data.ApplyTo(old(db.memberTypes)[i])] &&
        r == Ok(db.memberTypes[i])
  {
    if FindOne(db.memberTypes, Equals(MemberTypeKey, id)).None? {
      return BadRequest;
    }
    r := db.ChangeMemberType(id, data);
  }

  /** `createProfile` returns null, changing nothing, when the member type is
      unknown, when the user id is not UUID-shaped, or when that user already
      has a profile. It does not check that the user exists. */
  method CreateProfile(db: Db, data: ProfileInput, newId: Id) returns (r: Outcome<Profile>)
    requires db.Valid() && Fresh(db.profiles, ProfileKey, newId)
    modifies db`profiles
    ensures db.Valid()
    ensures FindOne(db.memberTypes, Equals(MemberTypeKey, data.memberTypeId)).None? ==>
      r == Null && db.profiles == old(db.profiles)
    ensures !IsUuid(data.userId) ==> r == Null && db.profiles == old(db.profiles)
    ensures FindOne(old(db.profiles), Equals(ProfileOwner, data.userId)).Some? ==>
      r == Null && db.profiles == old(db.profiles)
    ensures (FindOne(db.memberTypes, Equals(MemberTypeKey, data.memberTypeId)).Some? &&
             IsUuid(data.userId) && FindOne(old(db.profiles), Equals(ProfileOwner, data.userId)).None?) ==>
      r == Ok(NewProfile(data, newId)) && db.profiles == old(db.profiles) + [r.value]
    ensures old(OneProfilePerUser(db)) ==> OneProfilePerUser(db)
  {
    if FindOne(db.memberTypes, Equals(MemberTypeKey, data.memberTypeId)).None? {
      return Null;
    }
    if !IsUuid(data.userId) {
      return Null;
    }
    if FindOne(db.profiles, Equals(ProfileOwner, data.userId)).Some? {
      return Null;
    }
    if OneProfilePerUser(db) {
      AppendFresh(db.profiles, ProfileOwner, NewProfile(data, newId));
    }
    var p := db.CreateProfile(data, newId);
    r := Ok(p);
  }

  /** `updateProfile` rejects a non-UUID id before any lookup, then an unknown
      id. */
  method UpdateProfile(db: Db, id: Id, data: ProfilePatch) returns (r: Outcome<Profile>)
    requires db.Valid()
    modifies db`profiles
    ensures db.Valid()
    ensures !IsUuid(id) ==> r == BadRequest && db.profiles == old(db.profiles)
    ensures IsUuid(id) ==> match IndexOf(old(db.profiles), Equals(ProfileKey, id))
      case None => r == BadRequest && db.profiles == old(db.profiles)
      case Some(i) => db.profiles == old(db.profiles)[i := data.ApplyTo(old(db.profiles)[i])] && r == Ok(db.profiles[i])
  {
    if !IsUuid(id) {
      return BadRequest;
    }
    if FindOne(db.profiles, Equals(ProfileKey, id)).None? {
      return BadRequest;
    }
    r := db.ChangeProfile(id, data);
  }

  /** `subscribeToUser`: user `data.userId` starts following `data.id`. The id
      is appended even if already present. */
  method SubscribeToUser(db: Db, followee: Id, follower: Id) returns (r: Outcome<User>)
    requires db.Valid()
    modifies db`users
    ensures db.Valid()
    ensures FindOne(old(db.users), Equals(UserKey, followee)).None? ==> r == Null && db.users == old(db.users)
    ensures FindOne(old(db.users), Equals(UserKey, follower)).None? ==> r == Null && db.users == old(db.users)
    ensures FindOne(old(db.users), Equals(UserKey, followee)).Some? ==>
      match IndexOf(old(db.users), Equals(UserKey, follower))
      case None => true
      case Some(i) =>
        var u := old(db.users)[i];
        db.users == old(db.users)[i := u.(subscribedToUserIds := u.subscribedToUserIds + [followee])] &&
        r == Ok(db.users[i])
  {
    var target := FindOne(db.users, Equals(UserKey, followee));
    var subscriber := FindOne(db.users, Equals(UserKey, follower));
    if target.None? || subscriber.None? {
      return Null;
    }
    var newIds := subscriber.value.subscribedToUserIds + [followee];
    r := db.ChangeUser(follower, FollowsPatch(newIds));
  }

  /** `unsubscribeFromUser`: user `data.userId` stops following `data.id`;
      every copy of `data.id` leaves the list. */
  method UnsubscribeFromUser(db: Db, followee: Id, follower: Id) returns (r: Outcome<User>)
    requires db.Valid()
    modifies db`users
    ensures db.Valid()
    ensures FindOne(old(db.users), Equals(UserKey, followee)).None? ==> r == NotFound && db.users == old(db.users)
    ensures FindOne(old(db.users), Equals(UserKey, followee)).Some? ==>
      match IndexOf(old(db.users), Equals(UserKey, follower))
      case None => r == NotFound && db.users == old(db.users)
      case Some(i) =>
        var u := old(db.users)[i];
        if followee !in u.subscribedToUserIds then r == BadRequest && db.users == old(db.users)
        else
          db.users == old(db.users)[i := u.(subscribedToUserIds := RemoveAll(u.subscribedToUserIds, followee))] &&
          r == Ok(db.users[i])
  {
    var target := FindOne(db.users, Equals(UserKey, followee));
    if target.None? {
      return NotFound;
    }
    var subscriber := FindOne(db.users, Equals(UserKey, follower));
    if subscriber.None? {
      return NotFound;
    }
    if followee !in subscriber.value.subscribedToUserIds {
      return BadRequest;
    }
    var newIds := RemoveAll(subscriber.value.subscribedToUserIds, followee);
    r := db.ChangeUser(follower, FollowsPatch(newIds));
  }
}
