/** The REST handlers under `/posts`. Creation does not check that the owner
    exists; delete and patch go straight to the store. */
module PostsRoutes {
  import opened Entities
  import opened Query
  import opened Store

  /** `GET /posts`: every post, in store order. */
  function List(db: Db): (r: seq<Post>)
    reads db
    ensures r == db.posts
  {
    FindMany(db.posts, All)
  }

  /** `GET /posts/:id`: the first post with that id, or 404. */
  function GetById(db: Db, id: Id): (r: Outcome<Post>)
    reads db
    ensures r.Ok? || r.NotFound?
    ensures r.Ok? ==> r.value in db.posts && r.value.id == id
    ensures r.Ok? ==>
      exists i :: 0 <= i < |db.posts| && db.posts[i] == r.value && forall j :: 0 <= j < i ==> db.posts[j].id != id
    ensures r.NotFound? <==> forall p :: p in db.posts ==> p.id != id
  {
    match FindOne(db.posts, Equals(PostKey, id))
    case None => NotFound
    case Some(p) => Ok(p)
  }

  /** `POST /posts`: the body is appended as a new post, unchecked; a post
      for an unknown user makes the store lose "every post has an owner". */
  method Create(db: Db, body: PostInput, newId: Id) returns (r: Post)
    requires db.Valid() && Fresh(db.posts, PostKey, newId)
    modifies db`posts
    ensures db.Valid()
    ensures r == Post(newId, body.title, body.content, body.userId)
    ensures db.posts == old(db.posts) + [r]
    ensures FindOne(db.users, Equals(UserKey, body.userId)).None? ==> !PostsHaveOwners(db)
  {
    r := db.CreatePost(body, newId);
    assert r in db.posts;
  }

  /** `DELETE /posts/:id`: the store's delete, 404 if no post has the id. */
  method Delete(db: Db, id: Id) returns (r: Outcome<Post>)
    requires db.Valid()
    modifies db`posts
    ensures db.Valid()
    ensures db.posts == Reject(old(db.posts), Equals(PostKey, id))
    ensures match FindOne(old(db.posts), Equals(PostKey, id))
      case None => r == NotFound && db.posts == old(db.posts)
      case Some(p) => r == Ok(p) && |db.posts| == |old(db.posts)| - 1
  {
    RejectOneKey(db.posts, PostKey, id);
    r := db.DeletePost(id);
  }

  /** `PATCH /posts/:id`: the store's merge, 404 if no post has the id. */
  method Patch(db: Db, id: Id, body: PostPatch) returns (r: Outcome<Post>)
    requires db.Valid()
    modifies db`posts
    ensures db.Valid()
    ensures match IndexOf(old(db.posts), Equals(PostKey, id))
      case None => r == NotFound && db.posts == old(db.posts)
      case Some(i) => db.posts == old(db.posts)[i := body.ApplyTo(old(db.posts)[i])] && r == Ok(db.posts[i])
  {
    r := db.ChangePost(id, body);
  }
}
