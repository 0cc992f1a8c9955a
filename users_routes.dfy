/** The REST handlers under `/users`: list, get, create, the delete cascade,
    subscribe, unsubscribe and patch. Failures are the HTTP errors the handlers
    throw: `NotFound` (404) and `BadRequest` (400). */
module UsersRoutes {
  import opened Entities
  import opened Query
  import opened Uuid
  import opened Follows
  import opened Store

  /** `GET /users`: every user, in store order. */
  function List(db: Db): (r: seq<User>)
    reads db
    ensures r == db.users
  {
    FindMany(db.users, All)
  }

  /** `GET /users/:id`: the user with that id, or 404. */
  function GetById(db: Db, id: Id): (r: Outcome<User>)
    reads db
    ensures r.Ok? || r.NotFound?
    ensures r.Ok? ==> r.value in db.users && r.value.id == id
    ensures r.Ok? ==>
      exists i :: 0 <= i < |db.users| && db.users[i] == r.value && forall j :: 0 <= j < i ==> db.users[j].id != id
    ensures r.NotFound? <==> forall u :: u in db.users ==> u.id != id
  {
    match FindOne(db.users, Equals(UserKey, id))
    case None => NotFound
    case Some(u) => Ok(u)
  }

  /** `POST /users`: no checks; the store appends the new user. */
  method Create(db: Db, body: UserInput, newId: Id) returns (r: User)
    requires db.Valid() && Fresh(db.users, UserKey, newId)
    modifies db`users
    ensures db.Valid()
    ensures r == User(newId, body.firstName, body.lastName, body.email, [])
    ensures db.users == old(db.users) + [r]
  {
    r := db.CreateUser(body, newId);
  }

  // ---------------------------------------------------------------------
  // The delete cascade.

  /** One follower after the deleted user `id` has been taken off its list. */
  function Unfollow(u: User, id: Id): (r: User)
    ensures r.id == u.id && id !in r.subscribedToUserIds
    ensures forall x :: x != id ==> (x in r.subscribedToUserIds <==> x in u.subscribedToUserIds)
    ensures id !in u.subscribedToUserIds ==> r == u
  {
    u.(subscribedToUserIds := RemoveAll(u.subscribedToUserIds, id))
  }

  /** Every user after `id` has been taken off every follow list. */
  function Unfollowed(users: seq<User>, id: Id): (r: seq<User>)
    ensures |r| == |users|
    ensures forall i :: 0 <= i < |r| ==> r[i].id == users[i].id && id !in r[i].subscribedToUserIds
    ensures forall i :: 0 <= i < |r| && id !in users[i].subscribedToUserIds ==> r[i] == users[i]
  {
    seq(|users|, i requires 0 <= i < |users| => Unfollow(users[i], id))
  }

  /** Taking an id off follow lists leaves every user where it was, so lookups
      by id find the same position. */
  lemma UnfollowedKeepsPositions(users: seq<User>, id: Id, k: Id)
    ensures IndexOf(Unfollowed(users, id), Equals(UserKey, k)) == IndexOf(users, Equals(UserKey, k))
    ensures FindOne(Unfollowed(users, id), Equals(UserKey, k)) ==
      match FindOne(users, Equals(UserKey, k)) case None => None case Some(u) => Some(Unfollow(u, id))
  {
    SameMatchesSameIndex(Unfollowed(users, id), users, Equals(UserKey, k));
  }

  /** A completed cascade leaves no trace of the user: not as a record, not on
      any follow list, not as a post owner, and, when each user has at most one
      profile, not as a profile owner. */
  lemma CascadeLeavesNoTrace(users: seq<User>, posts: seq<Post>, profiles: seq<Profile>, id: Id)
    requires UniqueKeys(profiles, ProfileOwner)
    requires FindOne(profiles, Equals(ProfileOwner, id)).Some?
    ensures forall u :: u in Reject(Unfollowed(users, id), Equals(UserKey, id)) ==>
      u.id != id && id !in u.subscribedToUserIds
    ensures forall p :: p in Reject(posts, Equals(PostOwner, id)) ==> p.userId != id
    ensures forall q :: q in Reject(profiles, Equals(ProfileKey, FindOne(profiles, Equals(ProfileOwner, id)).value.id)) ==>
      q.userId != id
  {
    var stripped := Unfollowed(users, id);
    var left := Reject(stripped, Equals(UserKey, id));
    forall u | u in left ensures u.id != id && id !in u.subscribedToUserIds {
      var i :| 0 <= i < |left| && left[i] == u;
      var j :| 0 <= j < |stripped| && stripped[j] == u;
    }
    var owned := FindOne(profiles, Equals(ProfileOwner, id)).value;
    var rest := Reject(profiles, Equals(ProfileKey, owned.id));
    forall q | q in rest ensures q.userId != id {
      var i :| 0 <= i < |rest| && rest[i] == q;
      if q.userId == id {
        SameKeySameRecord(profiles, ProfileOwner, q, owned);
      }
    }
    var kept := Reject(posts, Equals(PostOwner, id));
    forall p | p in kept ensures p.userId != id {
      var i :| 0 <= i < |kept| && kept[i] == p;
    }
  }

  /** `DELETE /users/:id`. After the UUID check and the lookup, the handler
      (1) takes the id off every follow list, (2) answers 404 if the user has
      no posts, else deletes them, (3) answers 404 if the user has no profile,
      else deletes it, and (4) deletes the user. A 404 in step 2 or 3 leaves
      the earlier steps done. */
  method Delete(db: Db, id: Id) returns (r: Outcome<User>)
    requires db.Valid()
    modifies db`users, db`posts, db`profiles
    ensures db.Valid()
    ensures db.memberTypes == old(db.memberTypes)
    ensures !IsUuid(id) ==>
      r == BadRequest && db.users == old(db.users) && db.posts == old(db.posts) && db.profiles == old(db.profiles)
    ensures IsUuid(id) && FindOne(old(db.users), Equals(UserKey, id)).None? ==>
      r == NotFound && db.users == old(db.users) && db.posts == old(db.posts) && db.profiles == old(db.profiles)
    ensures IsUuid(id) && FindOne(old(db.users), Equals(UserKey, id)).Some? ==>
      var stripped := Unfollowed(old(db.users), id);
      var profile := FindOne(old(db.profiles), Equals(ProfileOwner, id));
      if FindMany(old(db.posts), Equals(PostOwner, id)) == [] then
        r == NotFound && db.users == stripped && db.posts == old(db.posts) && db.profiles == old(db.profiles)
      else if profile.None? then
        r == NotFound && db.users == stripped &&
        db.posts == Reject(old(db.posts), Equals(PostOwner, id)) && db.profiles == old(db.profiles)
      else
        r == Ok(Unfollow(FindOne(old(db.users), Equals(UserKey, id)).value, id)) &&
        db.users == Reject(stripped, Equals(UserKey, id)) &&
        db.posts == Reject(old(db.posts), Equals(PostOwner, id)) &&
        db.profiles == Reject(old(db.profiles), Equals(ProfileKey, profile.value.id))
    ensures r.Ok? ==> forall u :: u in db.users ==> u.id != id && id !in u.subscribedToUserIds
    ensures r.Ok? ==> forall p :: p in db.posts ==> p.userId != id
    ensures r.Ok? && old(OneProfilePerUser(db)) ==> forall q :: q in db.profiles ==> q.userId != id
  {
    if !IsUuid(id) {
      return BadRequest;
    }
    if FindOne(db.users, Equals(UserKey, id)).None? {
      return NotFound;
    }
    ghost var U0, P0, R0 := db.users, db.posts, db.profiles;
    UnfollowEveryone(db, id);
    var posts := FindMany(db.posts, Equals(PostOwner, id));
    if |posts| == 0 {
      return NotFound;
    }
    DeleteEach(db, posts, id);
    assert FindOne(db.users, Equals(UserKey, id)) == Some(Unfollow(FindOne(U0, Equals(UserKey, id)).value, id)) by {
      UnfollowedKeepsPositions(U0, id, id);
    }
    r := DeleteProfileAndUser(db, id);
    if r.Ok? && UniqueKeys(R0, ProfileOwner) {
      CascadeLeavesNoTrace(U0, P0, R0, id);
    }
  }

  /** Steps (3) and (4) of the cascade: 404 if the user has no profile;
      otherwise the profile (the first one, by store order) and the user are
      deleted and the deleted user is returned. */
  method DeleteProfileAndUser(db: Db, id: Id) returns (r: Outcome<User>)
    requires db.Valid() && FindOne(db.users, Equals(UserKey, id)).Some?
    modifies db`users, db`profiles
    ensures db.Valid()
    ensures match FindOne(old(db.profiles), Equals(ProfileOwner, id))
      case None => r == NotFound && db.users == old(db.users) && db.profiles == old(db.profiles)
      case Some(profile) =>
        r == Ok(FindOne(old(db.users), Equals(UserKey, id)).value) &&
        db.users == Reject(old(db.users), Equals(UserKey, id)) &&
        db.profiles == Reject(old(db.profiles), Equals(ProfileKey, profile.id))
  {
    var profile := FindOne(db.profiles, Equals(ProfileOwner, id));
    if profile.None? {
      return NotFound;
    }
    var _ := db.DeleteProfile(profile.value.id);
    r := db.DeleteUser(id);
  }

  /** Step (1) of the cascade: each user whose list holds `id` (a snapshot
      taken before the loop) gets the list with every copy of `id` removed. */
  method UnfollowEveryone(db: Db, id: Id)
    requires db.Valid()
    modifies db`users
    ensures db.Valid()
    ensures db.users == Unfollowed(old(db.users), id)
  {
    ghost var U0 := db.users;
    var subscribes := FindMany(db.users, InArray(UserFollows, id));
    FilterKeepsUnique(U0, UserKey, InArray(UserFollows, id));
    var k := 0;
    ghost var done: set<Id> := {};
    while k < |subscribes|
      modifies db`users
      invariant 0 <= k <= |subscribes|
      invariant db.Valid()
      invariant |db.users| == |U0|
      invariant done == KeysUpTo(subscribes, UserKey, k)
      invariant forall i :: 0 <= i < |U0| ==> db.users[i] == if U0[i].id in done then Unfollow(U0[i], id) else U0[i]
    {
      UnfollowStep(db, U0, subscribes, done, k, id);
      KeysUpToStep(subscribes, UserKey, k);
      done := done + {subscribes[k].id};
      k := k + 1;
    }
  }

  /** Deleting, by id, every post of the snapshot of `id`'s posts leaves
      exactly the posts `id` does not own. */
  lemma DeletingOwnedKeys(all: seq<Post>, owned: seq<Post>, gone: set<Id>, id: Id)
    requires UniqueKeys(all, PostKey) && owned == FindMany(all, Equals(PostOwner, id))
    requires gone == KeysUpTo(owned, PostKey, |owned|)
    ensures WithoutKeys(all, PostKey, gone) == Reject(all, Equals(PostOwner, id))
  {
    forall x | x in all ensures x.id in gone <==> Matches(Equals(PostOwner, id), x) {
      if x.id in gone {
        var j :| 0 <= j < |owned| && owned[j].id == x.id;
        SameKeySameRecord(all, PostKey, owned[j], x);
      }
      if x.userId == id {
        var i :| 0 <= i < |all| && all[i] == x;
        var j :| 0 <= j < |owned| && owned[j] == x;
      }
    }
    WithoutMatchingKeys(all, PostKey, gone, Equals(PostOwner, id));
  }

  /** Step (2) of the cascade: each post of the snapshot `posts` (the posts
      owned by `id`) is deleted by its id, one at a time. */
  method DeleteEach(db: Db, posts: seq<Post>, id: Id)
    requires db.Valid() && posts == FindMany(db.posts, Equals(PostOwner, id))
    modifies db`posts
    ensures db.Valid()
    ensures db.posts == Reject(old(db.posts), Equals(PostOwner, id))
  {
    ghost var P0 := db.posts;
    FilterKeepsUnique(P0, PostKey, Equals(PostOwner, id));
    WithoutNoKeys(P0, PostKey);
    var k := 0;
    ghost var gone: set<Id> := {};
    while k < |posts|
      modifies db`posts
      invariant 0 <= k <= |posts|
      invariant db.Valid()
      invariant gone == KeysUpTo(posts, PostKey, k)
      invariant db.posts == WithoutKeys(P0, PostKey, gone)
    {
      WithoutOneMoreKey(P0, PostKey, gone, posts[k].id);
      var _ := db.DeletePost(posts[k].id);
      KeysUpToStep(posts, PostKey, k);
      gone := gone + {posts[k].id};
      k := k + 1;
    }
    DeletingOwnedKeys(P0, posts, gone, id);
  }

  /** One step of the follower loop: the `k`-th follower, still untouched,
      loses `id` from its list. */
  method UnfollowStep(db: Db, ghost U0: seq<User>, subscribes: seq<User>, ghost done: set<Id>, k: nat, id: Id)
    requires db.Valid() && UniqueKeys(U0, UserKey) && UniqueKeys(subscribes, UserKey)
    requires k < |subscribes| && forall j :: 0 <= j < |subscribes| ==> subscribes[j] in U0
    requires done == KeysUpTo(subscribes, UserKey, k)
    requires |db.users| == |U0|
    requires forall i :: 0 <= i < |U0| ==> db.users[i] == if U0[i].id in done then Unfollow(U0[i], id) else U0[i]
    modifies db`users
    ensures db.Valid() && |db.users| == |U0|
    ensures forall i :: 0 <= i < |U0| ==>
      db.users[i] == if U0[i].id in done + {subscribes[k].id} then Unfollow(U0[i], id) else U0[i]
  {
    var s := subscribes[k];
    KeysUpToFresh(subscribes, UserKey, k);
    ghost var j0 :| 0 <= j0 < |U0| && U0[j0] == s;
    assert db.users[j0].id == s.id;
    var _ := db.ChangeUser(s.id, FollowsPatch(RemoveAll(s.subscribedToUserIds, id)));
    forall i | 0 <= i < |U0| && i != j0 ensures U0[i].id != s.id {
    }
  }

  // ---------------------------------------------------------------------
  // Follow edits.

  /** `POST /users/:id/subscribeTo`: user `body.userId` starts following
      `:id`, which is appended even if already present; 404 if either user is
      missing. */
  method SubscribeTo(db: Db, paramsId: Id, bodyUserId: Id) returns (r: Outcome<User>)
    requires db.Valid()
    modifies db`users
    ensures db.Valid()
    ensures FindOne(old(db.users), Equals(UserKey, paramsId)).None? ==> r == NotFound && db.users == old(db.users)
    ensures FindOne(old(db.users), Equals(UserKey, bodyUserId)).None? ==> r == NotFound && db.users == old(db.users)
    ensures FindOne(old(db.users), Equals(UserKey, paramsId)).Some? ==>
      match IndexOf(old(db.users), Equals(UserKey, bodyUserId))
      case None => true
      case Some(i) =>
        var u := old(db.users)[i];
        db.users == old(db.users)[i := u.(subscribedToUserIds := u.subscribedToUserIds + [paramsId])] &&
        r == Ok(db.users[i])
  {
    var objectSubscribeTo := FindOne(db.users, Equals(UserKey, paramsId));
    var subscribeUser := FindOne(db.users, Equals(UserKey, bodyUserId));
    if objectSubscribeTo.None? || subscribeUser.None? {
      return NotFound;
    }
    var newIds := subscribeUser.value.subscribedToUserIds + [paramsId];
    r := db.ChangeUser(bodyUserId, FollowsPatch(newIds));
  }

  /** `POST /users/:id/unsubscribeFrom`: 404 if either user is missing, 400
      if `body.userId` does not follow `:id`; otherwise one copy of `:id`
      leaves `body.userId`'s list. The handler as written stores a different
      list, `Follows.RestUnsubscribeList`; this is the intended one. */
  method UnsubscribeFrom(db: Db, paramsId: Id, bodyUserId: Id) returns (r: Outcome<User>)
    requires db.Valid()
    modifies db`users
    ensures db.Valid()
    ensures FindOne(old(db.users), Equals(UserKey, paramsId)).None? ==> r == NotFound && db.users == old(db.users)
    ensures FindOne(old(db.users), Equals(UserKey, paramsId)).Some? ==>
      match IndexOf(old(db.users), Equals(UserKey, bodyUserId))
      case None => r == NotFound && db.users == old(db.users)
      case Some(i) =>
        var u := old(db.users)[i];
        if paramsId !in u.subscribedToUserIds then r == BadRequest && db.users == old(db.users)
        else
          db.users == old(db.users)[i := u.(subscribedToUserIds := RemoveFirst(u.subscribedToUserIds, paramsId))] &&
          r == Ok(db.users[i])
  {
    var userById := FindOne(db.users, Equals(UserKey, paramsId));
    if userById.None? {
      return NotFound;
    }
    var checkSubscribe := FindOne(db.users, Equals(UserKey, bodyUserId));
    if checkSubscribe.None? {
      return NotFound;
    }
    if userById.value.id !in checkSubscribe.value.subscribedToUserIds {
      return BadRequest;
    }
    var updatedSubscribes := RemoveFirst(checkSubscribe.value.subscribedToUserIds, userById.value.id);
    r := db.ChangeUser(bodyUserId, FollowsPatch(updatedSubscribes));
  }

  /** `PATCH /users/:id`: 400 if there is no such user, otherwise the store's
      merge. */
  method Patch(db: Db, id: Id, body: UserPatch) returns (r: Outcome<User>)
    requires db.Valid()
    modifies db`users
    ensures db.Valid()
    ensures match IndexOf(old(db.users), Equals(UserKey, id))
      case None => r == BadRequest && db.users == old(db.users)
      case Some(i) => db.users == old(db.users)[i := body.ApplyTo(old(db.users)[i])] && r == Ok(db.users[i])
  {
    if FindOne(db.users, Equals(UserKey, id)).None? {
      return BadRequest;
    }
    r := db.ChangeUser(id, body);
  }
}
