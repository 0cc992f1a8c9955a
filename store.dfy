/** The shared in-memory database every handler works on: four collections in
    insertion order. Reads go through the `Query` scans; writes are the store's
    own `create`, `change` and `delete`, each touching one collection. */
module Store {
  import opened Entities
  import opened Query

  class Db {
    var users: seq<User>
    var posts: seq<Post>
    var profiles: seq<Profile>
    var memberTypes: seq<MemberType>

    /** Identifiers are unique within each collection. */
    ghost predicate Valid()
      reads this
    {
      UniqueKeys(users, UserKey) && UniqueKeys(posts, PostKey) &&
      UniqueKeys(profiles, ProfileKey) && UniqueKeys(memberTypes, MemberTypeKey)
    }

    /** An empty store, except for the pre-seeded member types. */
    constructor (seed: seq<MemberType>)
      requires UniqueKeys(seed, MemberTypeKey)
      ensures Valid()
      ensures users == [] && posts == [] && profiles == [] && memberTypes == seed
    {
      users, posts, profiles, memberTypes := [], [], [], seed;
    }

    // `create`: append a record under a fresh identifier. The identifier
    // generator is not modelled; the caller passes an identifier no record has.

    method CreateUser(input: UserInput, id: Id) returns (u: User)
      requires Valid() && Fresh(users, UserKey, id)
      modifies this`users
      ensures Valid()
      ensures u == User(id, input.firstName, input.lastName, input.email, [])
      ensures users == old(users) + [u]
    {
      u := User(id, input.firstName, input.lastName, input.email, []);
      AppendFresh(users, UserKey, u);
      users := users + [u];
    }

    method CreatePost(input: PostInput, id: Id) returns (p: Post)
      requires Valid() && Fresh(posts, PostKey, id)
      modifies this`posts
      ensures Valid()
      ensures p == Post(id, input.title, input.content, input.userId)
      ensures posts == old(posts) + [p]
    {
      p := Post(id, input.title, input.content, input.userId);
      AppendFresh(posts, PostKey, p);
      posts := posts + [p];
    }

    method CreateProfile(input: ProfileInput, id: Id) returns (p: Profile)
      requires Valid() && Fresh(profiles, ProfileKey, id)
      modifies this`profiles
      ensures Valid()
      ensures p == NewProfile(input, id)
      ensures profiles == old(profiles) + [p]
    {
      p := NewProfile(input, id);
      AppendFresh(profiles, ProfileKey, p);
      profiles := profiles + [p];
    }

    // `change`: merge a patch into the record with that identifier; the store
    // fails (NotFound) when there is none.

    method ChangeUser(id: Id, patch: UserPatch) returns (r: Outcome<User>)
      requires Valid()
      modifies this`users
      ensures Valid()
      ensures match IndexOf(old(users), Equals(UserKey, id))
        case None => r == NotFound && users == old(users)
        case Some(i) => users == old(users)[i := patch.ApplyTo(old(users)[i])] && r == Ok(users[i])
    {
      match IndexOf(users, Equals(UserKey, id))
      case None => r := NotFound;
      case Some(i) =>
        users := users[i := patch.ApplyTo(users[i])];
        r := Ok(users[i]);
    }

    method ChangePost(id: Id, patch: PostPatch) returns (r: Outcome<Post>)
      requires Valid()
      modifies this`posts
      ensures Valid()
      ensures match IndexOf(old(posts), Equals(PostKey, id))
        case None => r == NotFound && posts == old(posts)
        case Some(i) => posts == old(posts)[i := patch.ApplyTo(old(posts)[i])] && r == Ok(posts[i])
    {
      match IndexOf(posts, Equals(PostKey, id))
      case None => r := NotFound;
      case Some(i) =>
        posts := posts[i := patch.ApplyTo(posts[i])];
        r := Ok(posts[i]);
    }

    method ChangeProfile(id: Id, patch: ProfilePatch) returns (r: Outcome<Profile>)
      requires Valid()
      modifies this`profiles
      ensures Valid()
      ensures match IndexOf(old(profiles), Equals(ProfileKey, id))
        case None => r == NotFound && profiles == old(profiles)
        case Some(i) => profiles == old(profiles)[i := patch.ApplyTo(old(profiles)[i])] && r == Ok(profiles[i])
    {
      match IndexOf(profiles, Equals(ProfileKey, id))
      case None => r := NotFound;
      case Some(i) =>
        profiles := profiles[i := patch.ApplyTo(profiles[i])];
        r := Ok(profiles[i]);
    }

    method ChangeMemberType(id: Id, patch: MemberTypePatch) returns (r: Outcome<MemberType>)
      requires Valid()
      modifies this`memberTypes
      ensures Valid()
      ensures match IndexOf(old(memberTypes), Equals(MemberTypeKey, id))
        case None => r == NotFound && memberTypes == old(memberTypes)
        case Some(i) => memberTypes == old(memberTypes)[i := patch.ApplyTo(old(memberTypes)[i])] && r == Ok(memberTypes[i])
    {
      match IndexOf(memberTypes, Equals(MemberTypeKey, id))
      case None => r := NotFound;
      case Some(i) =>
        memberTypes := memberTypes[i := patch.ApplyTo(memberTypes[i])];
        r := Ok(memberTypes[i]);
    }

    // `delete`: remove the record with that identifier and return it; the
    // store fails (NotFound) when there is none. With unique identifiers the
    // new collection is the old one without that single record.

    method DeleteUser(id: Id) returns (r: Outcome<User>)
      requires Valid()
      modifies this`users
      ensures Valid()
      ensures users == Reject(old(users), Equals(UserKey, id))
      ensures match FindOne(old(users), Equals(UserKey, id))
        case None => r == NotFound && users == old(users)
        case Some(u) => r == Ok(u) && |users| == |old(users)| - 1
    {
      r := match FindOne(users, Equals(UserKey, id)) case None => NotFound case Some(u) => Ok(u);
      RejectOneKey(users, UserKey, id);
      FilterKeepsUnique(users, UserKey, Equals(UserKey, id));
      users := Reject(users, Equals(UserKey, id));
    }

    method DeletePost(id: Id) returns (r: Outcome<Post>)
      requires Valid()
      modifies this`posts
      ensures Valid()
      ensures posts == Reject(old(posts), Equals(PostKey, id))
      ensures match FindOne(old(posts), Equals(PostKey, id))
        case None => r == NotFound && posts == old(posts)
        case Some(p) => r == Ok(p) && |posts| == |old(posts)| - 1
    {
      r := match FindOne(posts, Equals(PostKey, id)) case None => NotFound case Some(p) => Ok(p);
      RejectOneKey(posts, PostKey, id);
      FilterKeepsUnique(posts, PostKey, Equals(PostKey, id));
      posts := Reject(posts, Equals(PostKey, id));
    }

    method DeleteProfile(id: Id) returns (r: Outcome<Profile>)
      requires Valid()
      modifies this`profiles
      ensures Valid()
      ensures profiles == Reject(old(profiles), Equals(ProfileKey, id))
      ensures match FindOne(old(profiles), Equals(ProfileKey, id))
        case None => r == NotFound && profiles == old(profiles)
        case Some(p) => r == Ok(p) && |profiles| == |old(profiles)| - 1
    {
      r := match FindOne(profiles, Equals(ProfileKey, id)) case None => NotFound case Some(p) => Ok(p);
      RejectOneKey(profiles, ProfileKey, id);
      FilterKeepsUnique(profiles, ProfileKey, Equals(ProfileKey, id));
      profiles := Reject(profiles, Equals(ProfileKey, id));
    }
  }

  // Cross-collection integrity the handlers are meant to keep; the store
  // itself does not enforce either.

  /** Every post names an existing user. */
  ghost predicate PostsHaveOwners(db: Db)
    reads db
  {
    forall p :: p in db.posts ==> exists u :: u in db.users && u.id == p.userId
  }

  /** At most one profile per user. */
  ghost predicate OneProfilePerUser(db: Db)
    reads db
  {
    UniqueKeys(db.profiles, ProfileOwner)
  }

  function NewProfile(input: ProfileInput, id: Id): (p: Profile)
    ensures p.id == id && p.userId == input.userId && p.memberTypeId == input.memberTypeId
  {
    Profile(id, input.avatar, input.sex, input.birthday, input.country, input.street,
            input.city, input.memberTypeId, input.userId)
  }

  /** Deleting a key removes nothing when no record has it, and exactly one
      record when the keys are unique and one has it. */
  lemma {:induction false} RejectOneKey<T>(s: seq<T>, key: T -> Id, k: Id)
    requires UniqueKeys(s, key)
    ensures FindOne(s, Equals(key, k)).None? ==> Reject(s, Equals(key, k)) == s
    ensures FindOne(s, Equals(key, k)).Some? ==> |Reject(s, Equals(key, k))| == |s| - 1
  {
    if |s| > 0 {
      var t := s[1..];
      assert UniqueKeys(t, key) by {
        forall i, j | 0 <= i < j < |t| ensures key(t[i]) != key(t[j]) {
          assert t[i] == s[i + 1] && t[j] == s[j + 1];
        }
      }
      RejectOneKey(t, key, k);
      if key(s[0]) == k {
        assert forall j :: 0 <= j < |t| ==> key(t[j]) != k by {
          forall j | 0 <= j < |t| ensures key(t[j]) != k {
            assert t[j] == s[j + 1];
          }
        }
        assert FindOne(t, Equals(key, k)).None?;
      } else {
        assert forall j :: 0 <= j < |t| ==> (Matches(Equals(key, k), t[j]) <==> Matches(Equals(key, k), s[j + 1]));
        assert FindOne(s, Equals(key, k)).Some? <==> FindOne(t, Equals(key, k)).Some?;
      }
    }
  }
}
