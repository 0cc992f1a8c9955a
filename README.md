# Users, posts, profiles and member types: a verified model of the handlers

The service keeps four collections in one shared in-memory database: users
(each with the list `subscribedToUserIds` of users it follows), posts (owned by
a user), profiles (owned by a user, naming a member type) and member types
(pre-seeded, never created or deleted). Two surfaces work on that database:

- the REST routes under `/users`, `/posts`, `/profiles` and `/member-types`;
- the GraphQL schema, with root queries, the nested fields of `userType` and
  the mutations.

The model gives the database as the class `Store.Db`. It has one `seq` per
collection, in insertion order. Its `Valid()` invariant says ids are unique
within each collection. The store's reads are the scans in `Query`:

- `FindOne` is the first match;
- `FindMany` is an order-preserving filter;
- both take an `equals` or an `inArray` predicate.

Its writes are `Create*`, `Change*` and `Delete*`. Every handler that changes
the store is a method over a `Db`. Every handler that only reads is a function
of it. A handler answers with `Entities.Outcome`:

- `Ok(record)`;
- `NotFound` (a 404);
- `BadRequest` (a 400);
- `Null` (a GraphQL null).

The modules follow the source files:

- `Entities`: the records, the create inputs and the partial patches.
- `Query`: the scans, plus unique-key facts about them.
- `Store`: the database class.
- `Uuid`: the UUID-shape check, as a pattern matcher, proved equal to a
  positional description.
- `Follows`: edits of a follow list, the GraphQL way and the REST way.
- `GraphqlSchema`: `src/routes/graphql/helpers/requestSchema.ts`.
- `UsersRoutes`, `PostsRoutes`, `ProfilesRoutes`, `MemberTypesRoutes`: the
  four REST route files.

The database implementation (`src/utils/DB`) is not part of this model. The
store class states the contract the handlers rely on:

- `findOne` returns the first match or nothing;
- `findMany` filters in order;
- `create` appends under a fresh id;
- `change` merges the given fields into the record with that id;
- `delete` removes that record and returns it.

When no record has the id, `change` and `delete` fail with a 404.

## Model

| member | source | states |
|---|---|---|
| Entities.Pick | src/routes/users/index.ts:224-227 | a patch field overwrites the stored value when it is given and keeps it otherwise |
| Entities.FollowsPatch | src/routes/users/index.ts:88-90 | the patch that replaces a follow list changes that list and nothing else of a user |
| Entities.UserPatch.ApplyTo | src/routes/users/index.ts:224-227 | merging a user patch never changes the user's id |
| Entities.PostPatch.ApplyTo | src/routes/posts/index.ts:68-71 | merging a post patch never changes the post's id |
| Entities.ProfilePatch.ApplyTo | src/routes/profiles/index.ts:70-73 | merging a profile patch never changes the profile's id |
| Entities.MemberTypePatch.ApplyTo | src/routes/member-types/index.ts:44-47 | merging a member-type patch never changes its id |
| Query.Matches | src/routes/users/index.ts:79-82 | the store's predicates: an absent predicate (`All`) matches every record, `{key, equals}` a record whose field equals the value, `{key, inArray}` a record whose sequence field contains the value |
| Query.IndexOf | src/routes/users/index.ts:27-30 | the position of the first matching record; none exactly when no record matches |
| Query.FindOne | src/routes/users/index.ts:70-73 | `findOne`: a matching record of the collection with no match before it; none if and only if no record matches |
| Query.FindMany | src/routes/users/index.ts:79-82 | `findMany`: exactly the matching records (both directions of membership), never more than the collection, the whole collection for no predicate |
| Query.Reject | src/routes/users/index.ts:115 | the records a delete leaves: exactly the non-matching ones; together with `FindMany` they account for every record |
| Query.FindManyConcat | src/routes/users/index.ts:93-96 | `findMany` distributes over concatenation, so it keeps store order |
| Query.FindManySingle | src/routes/users/index.ts:93-96 | on one record `findMany` keeps it exactly when it matches; with `FindManyConcat` this makes `FindMany` the order-preserving filter |
| Query.SameKeySameRecord | src/routes/users/index.ts:70-73 | with unique ids, an id names at most one record |
| Query.AppendFresh | src/routes/users/index.ts:48 | appending a record under a fresh id keeps ids unique |
| Query.FilterKeepsUnique | src/routes/users/index.ts:79-82 | a filter, or its complement, keeps ids unique |
| Query.SameMatchesSameIndex | src/routes/users/index.ts:27-30 | collections that match at the same positions have their first match at the same position |
| Query.WithoutKeys | src/routes/users/index.ts:102 | the records left after deleting a set of ids: exactly those whose id is not in the set |
| Query.WithoutOneMoreKey | src/routes/users/index.ts:102 | deleting one more id from such a state gives the state for the larger set |
| Query.WithoutMatchingKeys | src/routes/users/index.ts:93-102 | deleting exactly the ids of the matching records leaves exactly the non-matching records |
| Store.Db.constructor | src/routes/member-types/index.ts:12 | the store starts empty except for the seeded member types, with unique ids |
| Store.Db.CreateUser | src/routes/users/index.ts:48 | appends exactly one user with the given fields and an empty follow list; ids stay unique |
| Store.Db.CreatePost | src/routes/posts/index.ts:41 | appends exactly one post with the given fields |
| Store.Db.CreateProfile | src/routes/profiles/index.ts:41 | appends exactly one profile with the given fields |
| Store.Db.ChangeUser | src/routes/users/index.ts:224-227 | 404 with nothing changed when no user has the id; otherwise only that user changes, by the patch |
| Store.Db.ChangePost | src/routes/posts/index.ts:68-71 | the same for posts |
| Store.Db.ChangeProfile | src/routes/profiles/index.ts:70-73 | the same for profiles |
| Store.Db.ChangeMemberType | src/routes/member-types/index.ts:44-47 | the same for member types |
| Store.Db.DeleteUser | src/routes/users/index.ts:115 | removes the user with that id, exactly one record, and returns it; 404 with nothing removed if there is none |
| Store.Db.DeletePost | src/routes/posts/index.ts:54 | the same for posts |
| Store.Db.DeleteProfile | src/routes/profiles/index.ts:54-56 | the same for profiles |
| Store.NewProfile | src/routes/profiles/index.ts:41 | a new profile carries the given id, owner and member type |
| Store.RejectOneKey | src/routes/users/index.ts:115 | with unique ids, deleting an id removes nothing when it is absent and exactly one record when present |
| Uuid.Consume | src/routes/users/index.ts:63 | one pattern atom matches at the front: `[0-9a-fA-F]{n}` exactly when the first n characters are hex digits, a literal exactly when it is the first character; what is left is the input after them |
| Uuid.PatternIffShape | src/routes/graphql/helpers/requestSchema.ts:575-581 | the anchored pattern matches a string if and only if it has 36 characters: hyphens at 8, 13, 18 and 23, hex digits of either case elsewhere |
| Uuid.IsUuid | src/routes/users/index.ts:62-68 | the handlers' UUID test (also requestSchema.ts:575-581 and 623-629) is true exactly for strings of that shape |
| Follows.RemoveAll | src/routes/graphql/helpers/requestSchema.ts:482-484 | the GraphQL unsubscribe list: no copy of the id is left, every other id keeps its membership, the length drops by the number of copies |
| Follows.RemoveAllConcat | src/routes/graphql/helpers/requestSchema.ts:482-484 | the filter distributes over concatenation |
| Follows.SubscribeThenRemoveAll | src/routes/graphql/helpers/requestSchema.ts:429-488 | subscribing then unsubscribing through GraphQL restores a list that did not contain the id |
| Follows.FindIndex | src/routes/users/index.ts:190-192 | `findIndex`: the first position of the id, or -1 exactly when it is absent |
| Follows.SpliceRemoved | src/routes/users/index.ts:193-196 | what `splice(start, count)` returns: at most `count` elements, none from an empty list; with a count of one, the element at an index in range, and the last element for a start of -1 |
| Follows.RestUnsubscribeList | src/routes/users/index.ts:190-196 | as written, the list REST unsubscribe stores is what `splice(findIndex(x === body.userId), 1)` returns: empty for an empty list, otherwise one element, the follower itself if it follows itself, else the old last element |
| Follows.RestRoundTripKeepsFollowee | src/routes/users/index.ts:144-200 | as written, a REST subscribe followed by a REST unsubscribe leaves the list `[followee]` |
| Follows.RemoveFirst | src/routes/users/index.ts:190-196 | the intended removal: one copy of the id fewer (as a multiset), the list unchanged if the id is absent |
| Follows.RemoveFirstCutsAtFindIndex | src/routes/users/index.ts:190-196 | the intended removal takes out the first copy and keeps the rest in order: the list before and after position `findIndex` |
| Follows.RemoveFirstUndoesSubscribe | src/routes/users/index.ts:144-200 | with the intended removal, subscribe then unsubscribe gives back the old list |
| Follows.UnsubscribeCounterexample | src/routes/users/index.ts:190-200 | on the list `["a","b","d"]` of user "c", unfollowing "a" stores `["d"]` as written, against `["b","d"]` as intended |
| GraphqlSchema.MembersType | src/routes/graphql/helpers/requestSchema.ts:29-38 | every member type in store order |
| GraphqlSchema.MemberTypeById | src/routes/graphql/helpers/requestSchema.ts:40-61 | a member type with that id, or null exactly when there is none |
| GraphqlSchema.Posts | src/routes/graphql/helpers/requestSchema.ts:107-116 | every post in store order |
| GraphqlSchema.PostById | src/routes/graphql/helpers/requestSchema.ts:118-139 | a post with that id, or null exactly when there is none |
| GraphqlSchema.Users | src/routes/graphql/helpers/requestSchema.ts:305-314 | every user in store order |
| GraphqlSchema.UserById | src/routes/graphql/helpers/requestSchema.ts:316-336 | a user with that id, or null exactly when there is none |
| GraphqlSchema.Profiles | src/routes/graphql/helpers/requestSchema.ts:508-517 | every profile in store order |
| GraphqlSchema.ProfileById | src/routes/graphql/helpers/requestSchema.ts:519-540 | a profile with that id, or null exactly when there is none |
| GraphqlSchema.ProfileOf | src/routes/graphql/helpers/requestSchema.ts:219-232 | `profile`: the first profile owned by the parent, null exactly when the parent owns none |
| GraphqlSchema.PostsOf | src/routes/graphql/helpers/requestSchema.ts:233-246 | `posts`: exactly the posts owned by the parent, none for an empty store |
| GraphqlSchema.PostsOfAppend | src/routes/graphql/helpers/requestSchema.ts:233-246 | `posts` keeps store order: a post appended to the store is appended to the field exactly when the parent owns it |
| GraphqlSchema.MemberTypeOf | src/routes/graphql/helpers/requestSchema.ts:247-267 | `memberType`: null without a profile; otherwise the member type the profile names, null only if that id is unknown |
| GraphqlSchema.UserSubscribedTo | src/routes/graphql/helpers/requestSchema.ts:268-281 | `userSubscribedTo`: exactly the users whose list contains the parent's id |
| GraphqlSchema.SubscribedToUser | src/routes/graphql/helpers/requestSchema.ts:282-301 | `subscribedToUser`: one entry per id of the parent's list, in order; each the user with that id, null exactly when no user has it |
| GraphqlSchema.LookupEach | src/routes/graphql/helpers/requestSchema.ts:289-297 | the per-id lookups of `subscribedToUser`, same length and order as the ids |
| GraphqlSchema.CreateUser | src/routes/graphql/helpers/requestSchema.ts:348-361 | appends exactly one user with the given fields |
| GraphqlSchema.UpdateUser | src/routes/graphql/helpers/requestSchema.ts:372-395 | 400 with nothing changed for an unknown id; otherwise only that user changes |
| GraphqlSchema.CreatePost | src/routes/graphql/helpers/requestSchema.ts:151-172 | 400 with posts unchanged when the owner does not exist; otherwise exactly one post appended; keeps "every post has an owner" |
| GraphqlSchema.UpdatePost | src/routes/graphql/helpers/requestSchema.ts:183-207 | 400 with nothing changed for an unknown id; otherwise only that post changes |
| GraphqlSchema.UpdateMemberType | src/routes/graphql/helpers/requestSchema.ts:71-95 | 400 with nothing changed for an unknown id; otherwise only that member type changes |
| GraphqlSchema.CreateProfile | src/routes/graphql/helpers/requestSchema.ts:556-596 | null with profiles unchanged for an unknown member type, a non-UUID user id or an existing profile for that user; otherwise exactly one profile appended; keeps "at most one profile per user" |
| GraphqlSchema.UpdateProfile | src/routes/graphql/helpers/requestSchema.ts:612-644 | 400 for a non-UUID id before any lookup, 400 for an unknown id; otherwise only that profile changes |
| GraphqlSchema.SubscribeToUser | src/routes/graphql/helpers/requestSchema.ts:405-440 | null with nothing changed if either user is missing; otherwise only the follower changes, its list becoming the old list plus the followee (duplicates kept) |
| GraphqlSchema.UnsubscribeFromUser | src/routes/graphql/helpers/requestSchema.ts:450-492 | 404, 404, 400 for a missing followee, a missing follower, a list without the followee; otherwise only the follower changes, every copy of the followee leaving its list |
| UsersRoutes.List | src/routes/users/index.ts:13-17 | every user in store order |
| UsersRoutes.GetById | src/routes/users/index.ts:19-38 | the first user with that id, or 404 exactly when there is none |
| UsersRoutes.Create | src/routes/users/index.ts:40-52 | appends exactly one user, unchecked |
| UsersRoutes.Unfollow | src/routes/users/index.ts:85-90 | a follower after the cascade: same id, the deleted id gone, every other followed id kept |
| UsersRoutes.Unfollowed | src/routes/users/index.ts:79-91 | every user after the cascade: same ids in the same places, no list holds the deleted id, users that did not follow it unchanged |
| UsersRoutes.UnfollowedKeepsPositions | src/routes/users/index.ts:115 | after the follower edits, the user to delete is found at the same place, with its own list edited |
| UsersRoutes.CascadeLeavesNoTrace | src/routes/users/index.ts:93-117 | after a full cascade: no user with the id, no list with it, no post owned by it, and with at most one profile per user no profile owned by it |
| UsersRoutes.Delete | src/routes/users/index.ts:54-119 | 400 for a non-UUID id and 404 for an unknown one, nothing changed; 404 without posts with the follower edits kept; 404 without a profile with the posts already gone; otherwise the follower edits, the posts, the profile and the user removed, and the user (with its list edited) returned |
| UsersRoutes.UnfollowEveryone | src/routes/users/index.ts:79-91 | the follower loop: the users become exactly `Unfollowed(old users)` |
| UsersRoutes.DeletingOwnedKeys | src/routes/users/index.ts:93-102 | deleting the ids of the user's posts, one by one, leaves exactly the posts the user does not own |
| UsersRoutes.DeleteEach | src/routes/users/index.ts:102 | the post loop: the posts become exactly the ones the user does not own |
| UsersRoutes.DeleteProfileAndUser | src/routes/users/index.ts:104-117 | 404 with nothing changed when the user has no profile; otherwise the first profile and the user are removed and the user returned |
| UsersRoutes.SubscribeTo | src/routes/users/index.ts:121-155 | 404 with nothing changed if either user is missing; otherwise only `body.userId` changes, `:id` appended to its list |
| UsersRoutes.UnsubscribeFrom | src/routes/users/index.ts:157-204 | 404, 404, 400 for a missing `:id`, a missing `body.userId`, a list without `:id`; otherwise only `body.userId` changes, losing one copy of `:id` (the corrected list, see Findings) |
| UsersRoutes.Patch | src/routes/users/index.ts:206-230 | 400 with nothing changed for an unknown id; otherwise only that user changes |
| PostsRoutes.List | src/routes/posts/index.ts:9-12 | every post in store order |
| PostsRoutes.GetById | src/routes/posts/index.ts:14-31 | the first post with that id, or 404 exactly when there is none |
| PostsRoutes.Create | src/routes/posts/index.ts:33-44 | appends exactly one post, unchecked; for an unknown owner "every post has an owner" then fails |
| PostsRoutes.Delete | src/routes/posts/index.ts:46-57 | removes only the post with that id and returns it; 404 with nothing removed if there is none |
| PostsRoutes.Patch | src/routes/posts/index.ts:59-75 | 404 with nothing changed for an unknown id; otherwise only that post changes |
| ProfilesRoutes.List | src/routes/profiles/index.ts:9-12 | every profile in store order |
| ProfilesRoutes.GetById | src/routes/profiles/index.ts:14-31 | the first profile with that id, or 404 exactly when there is none |
| ProfilesRoutes.Create | src/routes/profiles/index.ts:33-44 | appends exactly one profile, unchecked; a second profile for a user breaks "at most one profile per user" |
| ProfilesRoutes.SecondProfileForUser | src/routes/profiles/index.ts:40-43 | appending a profile for a user that already has one makes profile owners non-unique |
| ProfilesRoutes.Delete | src/routes/profiles/index.ts:46-59 | removes only the profile with that id and returns it; 404 with nothing removed if there is none |
| ProfilesRoutes.Patch | src/routes/profiles/index.ts:61-76 | 404 with nothing changed for an unknown id; otherwise only that profile changes |
| MemberTypesRoutes.List | src/routes/member-types/index.ts:9-14 | every member type in store order |
| MemberTypesRoutes.GetById | src/routes/member-types/index.ts:16-33 | the first member type with that id, or 404 exactly when there is none |
| MemberTypesRoutes.Patch | src/routes/member-types/index.ts:35-50 | 404 with nothing changed for an unknown id; otherwise only that member type changes; the collection keeps its length and every id |

## Left out

- GraphQL execution, query parsing, validation and the depth limit
  (`DEPTH = 6` in `src/routes/graphql/index.ts`): these are calls into the
  `graphql` and `graphql-depth-limit` libraries. The depth computation is not
  in the repository.
- The GraphQL object and input type declarations: they are schema
  declarations with no logic.
- Fastify routing, the JSON schemas for bodies and parameters, and
  `httpErrors`. Only the error kinds survive, as `NotFound` and `BadRequest`.
  A body that the schemas would reject is not modelled.
- The database internals, including UUID v4 generation. A new record's id is
  a parameter that no record of that collection has (`Query.Fresh`).
- A failing store `change` or `delete` is modelled as a 404 result. The store
  code that raises the error is not part of this model.
- The caller must pass a store whose ids are unique (`Store.Db.Valid`). The
  store's own code, which would guarantee that, is not part of this model.
- Store.Db.CreateUser: a new user gets an empty follow list. The create body
  has no such field, so this assumes the store's default.
- The unawaited `forEach(async …)` loops of the delete cascade, and the
  `Promise.all` of `subscribedToUser`, become sequential loops and maps over a
  snapshot. Interleavings between requests, and the cascade's steps racing
  its own later reads, are concurrency and are not modelled.
- UsersRoutes.SubscribeTo, UsersRoutes.UnsubscribeFrom,
  GraphqlSchema.SubscribeToUser: the handlers also reassign or `splice` the
  list of the record they fetched. The model writes the new list only through
  the store's `change`. It assumes that `findOne` hands out a copy, so the
  in-place edit has no effect of its own.
- UsersRoutes.UnsubscribeFrom: stores the corrected list (`Follows.RemoveFirst`)
  rather than the list the handler as written stores. That list is
  `Follows.RestUnsubscribeList`, whose contract states that behaviour (see
  Findings).
- UsersRoutes.Delete: the no-profile guarantee after a successful delete
  holds only when each user had at most one profile
  (`Store.OneProfilePerUser`). The handler deletes only the first profile it
  finds, and REST `POST /profiles` can create a second one.
- The UUID check accepts hex digits of either case. The code's pattern is
  `[0-9a-fA-F]`, so the model does not require lower case.

## Findings

| source | as written | input that shows it | evidently intended | confidence | as-written member | corrected member |
|---|---|---|---|---|---|---|
| src/routes/users/index.ts:190-200 | the index searched for is that of `body.userId` (the follower itself), not of `:id`, and the list stored is what `splice` returns (the removed elements), not the remainder | user "c" follows `["a","b","d"]` and unfollows "a": the stored list becomes `["d"]` | remove one occurrence of `:id` and keep the rest in order, giving `["b","d"]`, so that subscribe then unsubscribe restores the list | high (not executed) | Follows.UnsubscribeCounterexample | Follows.RemoveFirstCutsAtFindIndex, Follows.RemoveFirstUndoesSubscribe |
