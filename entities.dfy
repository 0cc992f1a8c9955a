/** The four entity kinds kept by the shared store, the inputs that create them,
    the partial updates that change them, and the result of a handler. */
module Entities {

  /** Identifiers are strings: UUIDs for users, posts and profiles, short
      literals for the pre-seeded member types. */
  type Id = string

  datatype Option<T> = None | Some(value: T)

  /** What a route handler or resolver hands back: a record, a 404, a 400,
      or a plain GraphQL null. */
  datatype Outcome<T> = Ok(value: T) | NotFound | BadRequest | Null

  datatype User = User(
    id: Id,
    firstName: string,
    lastName: string,
    email: string,
    subscribedToUserIds: seq<Id>)

  datatype Post = Post(id: Id, title: string, content: string, userId: Id)

  datatype Profile = Profile(
    id: Id,
    avatar: string,
    sex: string,
    birthday: int,
    country: string,
    street: string,
    city: string,
    memberTypeId: Id,
    userId: Id)

  datatype MemberType = MemberType(id: Id, discount: int, monthPostsLimit: int)

  // Field accessors, used as the `key` of a store predicate.

  function UserKey(u: User): Id { u.id }
  function UserFollows(u: User): seq<Id> { u.subscribedToUserIds }
  function PostKey(p: Post): Id { p.id }
  function PostOwner(p: Post): Id { p.userId }
  function ProfileKey(p: Profile): Id { p.id }
  function ProfileOwner(p: Profile): Id { p.userId }
  function MemberTypeKey(m: MemberType): Id { m.id }

  // Bodies of the create operations: every field but the identifier.

  datatype UserInput = UserInput(firstName: string, lastName: string, email: string)

  datatype PostInput = PostInput(title: string, content: string, userId: Id)

  datatype ProfileInput = ProfileInput(
    avatar: string,
    sex: string,
    birthday: int,
    country: string,
    street: string,
    city: string,
    memberTypeId: Id,
    userId: Id)

  /** A patch field: the given value if there is one, else the current one. */
  function Pick<T>(given: Option<T>, current: T): (r: T)
    ensures given.Some? ==> r == given.value
    ensures given.None? ==> r == current
  {
    match given
    case Some(v) => v
    case None => current
  }

  // Partial updates: the store's `change` overwrites exactly the fields given.
  // The identifier is not among them.

  datatype UserPatch = UserPatch(
    firstName: Option<string>,
    lastName: Option<string>,
    email: Option<string>,
    subscribedToUserIds: Option<seq<Id>>)
  {
    function ApplyTo(u: User): (r: User)
      ensures r.id == u.id
    {
      User(u.id, Pick(firstName, u.firstName), Pick(lastName, u.lastName),
           Pick(email, u.email), Pick(subscribedToUserIds, u.subscribedToUserIds))
    }
  }

  /** The patch that only replaces a user's follow list. */
  function FollowsPatch(ids: seq<Id>): (r: UserPatch)
    ensures forall u :: r.ApplyTo(u) == u.(subscribedToUserIds := ids)
  {
    UserPatch(None, None, None, Some(ids))
  }

  datatype PostPatch = PostPatch(title: Option<string>, content: Option<string>, userId: Option<Id>)
  {
    function ApplyTo(p: Post): (r: Post)
      ensures r.id == p.id
    {
      Post(p.id, Pick(title, p.title), Pick(content, p.content), Pick(userId, p.userId))
    }
  }

  datatype ProfilePatch = ProfilePatch(
    avatar: Option<string>,
    sex: Option<string>,
    birthday: Option<int>,
    country: Option<string>,
    street: Option<string>,
    city: Option<string>,
    memberTypeId: Option<Id>,
    userId: Option<Id>)
  {
    function ApplyTo(p: Profile): (r: Profile)
      ensures r.id == p.id
    {
      Profile(p.id, Pick(avatar, p.avatar), Pick(sex, p.sex), Pick(birthday, p.birthday),
              Pick(country, p.country), Pick(street, p.street), Pick(city, p.city),
              Pick(memberTypeId, p.memberTypeId), Pick(userId, p.userId))
    }
  }

  datatype MemberTypePatch = MemberTypePatch(discount: Option<int>, monthPostsLimit: Option<int>)
  {
    function ApplyTo(m: MemberType): (r: MemberType)
      ensures r.id == m.id
    {
      MemberType(m.id, Pick(discount, m.discount), Pick(monthPostsLimit, m.monthPostsLimit))
    }
  }
}
