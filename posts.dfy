/** The handlers of convex/posts.ts: short posts by collaborators and admins, and their engagement. */
module Posts {
  import opened Base
  import opened Seqs
  import opened Records
  import opened Tables
  import opened Store
  import opened Engagement

  function PostAuthor(p: Post): Id
  {
    p.authorId
  }

  predicate Published(p: Post)
  {
    p.isPublished
  }

  /** The document createPost inserts: no likes, comments or shares yet, published. */
  function NewPost(authorId: Id, content: string, image: Option<string>): (p: Post)
    ensures p.authorId == authorId && p.content == content && p.image == image
    ensures p.likes == [] && p.comments == [] && p.shares == 0 && p.isPublished
  {
    Post(authorId, None, content, image, None, [], [], 0, None, true, None)
  }

  /** The fields updatePost may change; an absent argument leaves its field as it was. */
  datatype PostPatch = PostPatch(content: Option<string>, image: Option<string>, isPublished: Option<bool>)

  function ApplyPatch(p: Post, u: PostPatch): (p': Post)
    ensures p'.(content := p.content, image := p.image, isPublished := p.isPublished) == p
    ensures u.content.Some? ==> p'.content == u.content.value
    ensures u.content.None? ==> p'.content == p.content
    ensures u.image.Some? ==> p'.image == u.image
    ensures u.image.None? ==> p'.image == p.image
    ensures u.isPublished.Some? ==> p'.isPublished == u.isPublished.value
    ensures u.isPublished.None? ==> p'.isPublished == p.isPublished
    ensures u == PostPatch(None, None, None) ==> p' == p
  {
    p.(content := if u.content.Some? then u.content.value else p.content,
       image := if u.image.Some? then u.image else p.image,
       isPublished := if u.isPublished.Some? then u.isPublished.value else p.isPublished)
  }

  method CreatePost(db: Db, authorId: Id, content: string, image: Option<string>) returns (r: Result<Id>)
    modifies db`posts, db`nextId
    ensures MayCreate(old(db.users), authorId) ==>
      r == Ok(old(db.nextId)) && db.nextId == old(db.nextId) + 1
      && db.posts == old(db.posts)[r.value := NewPost(authorId, content, image)]
    ensures !MayCreate(old(db.users), authorId) ==>
      r == Err(PermissionDenied) && db.posts == old(db.posts) && db.nextId == old(db.nextId)
    ensures old(db.Valid()) ==> db.Valid()
  {
    if !MayCreate(db.users, authorId) {
      return Err(PermissionDenied);
    }
    var id := db.FreshId();
    db.posts := db.posts[id := NewPost(authorId, content, image)];
    r := Ok(id);
  }

  /** getAllPosts without a cursor: the published posts, newest first, at most `limit` of them. */
  function GetAllPosts(posts: map<Id, Post>, bound: nat, limit: Option<nat>): (rows: seq<Row<Post>>)
    ensures forall r :: r in rows ==> r.id in posts && posts[r.id] == r.doc && r.doc.isPublished
    ensures Descending(rows)
    ensures KeysBelow(posts, bound) && limit.None? ==>
      forall id :: id in posts && posts[id].isPublished ==> Row(id, posts[id]) in rows
  {
    QueryDesc(posts, bound, Published, limit)
  }

  predicate PublishedBy(authorId: Id, p: Post)
  {
    p.authorId == authorId && p.isPublished
  }

  /** getAuthorPosts: the author's published posts, newest first, at most `limit` of them. */
  function GetAuthorPosts(posts: map<Id, Post>, bound: nat, authorId: Id, limit: Option<nat>): (rows: seq<Row<Post>>)
    ensures forall r :: r in rows ==> r.id in posts && posts[r.id] == r.doc && r.doc.authorId == authorId && r.doc.isPublished
    ensures Descending(rows)
    ensures KeysBelow(posts, bound) && limit.None? ==>
      forall id :: id in posts && posts[id].authorId == authorId && posts[id].isPublished ==> Row(id, posts[id]) in rows
  {
    QueryDesc(posts, bound, p => PublishedBy(authorId, p), limit)
  }

  method UpdatePost(db: Db, postId: Id, authorId: Id, patch: PostPatch) returns (r: Result<Id>)
    modifies db`posts
    ensures var gate := Authorize(AuthorOf(old(db.posts), postId, PostAuthor), authorId, db.users);
      && (gate.Fail? ==> r == Err(gate.error) && db.posts == old(db.posts))
      && (gate == Pass ==> r == Ok(postId) && db.posts == old(db.posts)[postId := ApplyPatch(old(db.posts)[postId], patch)])
    ensures old(db.Valid()) ==> db.Valid()
  {
    var gate := Authorize(AuthorOf(db.posts, postId, PostAuthor), authorId, db.users);
    if gate.Fail? {
      return Err(gate.error);
    }
    db.posts := db.posts[postId := ApplyPatch(db.posts[postId], patch)];
    r := Ok(postId);
  }

  method DeletePost(db: Db, postId: Id, userId: Id) returns (o: Outcome)
    modifies db`posts
    ensures o == Authorize(AuthorOf(old(db.posts), postId, PostAuthor), userId, db.users)
    ensures o.Fail? ==> db.posts == old(db.posts)
    ensures o == Pass ==> db.posts == old(db.posts) - {postId}
    ensures old(db.Valid()) ==> db.Valid()
  {
    o := Authorize(AuthorOf(db.posts, postId, PostAuthor), userId, db.users);
    if o == Pass {
      db.posts := db.posts - {postId};
    }
  }

  method LikePost(db: Db, postId: Id, userId: Id) returns (o: Outcome)
    modifies db`posts, db`users
    ensures postId !in old(db.posts) || userId !in old(db.users) ==>
      o == Fail(NotFound) && db.posts == old(db.posts) && db.users == old(db.users)
    ensures postId in old(db.posts) && userId in old(db.users) ==>
      var p := old(db.posts)[postId];
      var t := LikeStep(p.likes, p.authorId, userId, old(db.users));
      o == Pass && db.posts == old(db.posts)[postId := p.(likes := t.ids)] && db.users == t.users
    ensures old(db.Valid()) ==> db.Valid()
  {
    if postId !in db.posts || userId !in db.users {
      return Fail(NotFound);
    }
    var post := db.posts[postId];
    var t := LikeStep(post.likes, post.authorId, userId, db.users);
    BumpKeepsEmails(db.users, post.authorId, "likes", userId !in post.likes);
    db.posts, db.users := db.posts[postId := post.(likes := t.ids)], t.users;
    o := Pass;
  }

  method CommentPost(db: Db, postId: Id, authorId: Id, content: string) returns (r: Result<Id>)
    modifies db`posts, db`users, db`comments, db`nextId
    ensures postId !in old(db.posts) || authorId !in old(db.users) ==>
      r == Err(NotFound) && db.posts == old(db.posts) && db.users == old(db.users)
      && db.comments == old(db.comments) && db.nextId == old(db.nextId)
    ensures postId in old(db.posts) && authorId in old(db.users) ==>
      var p := old(db.posts)[postId];
      var t := CommentStep(p.comments, old(db.nextId), p.authorId, old(db.users));
      && r == Ok(old(db.nextId)) && db.nextId == old(db.nextId) + 1
      && db.comments == old(db.comments)[r.value := Comment(postId, authorId, content, [])]
      && db.posts == old(db.posts)[postId := p.(comments := t.ids)]
      && db.users == t.users
    ensures old(db.Valid()) ==> db.Valid()
  {
    if postId !in db.posts || authorId !in db.users {
      return Err(NotFound);
    }
    var post := db.posts[postId];
    // The comment's id, handed out as Db.FreshId hands it out; all four writes in one step.
    var commentId := db.nextId;
    BumpKeepsEmails(db.users, post.authorId, "comments", true);
    db.comments, db.posts, db.users, db.nextId :=
      db.comments[commentId := Comment(postId, authorId, content, [])],
      db.posts[postId := post.(comments := post.comments + [commentId])],
      BumpAuthor(db.users, post.authorId, "comments", true),
      commentId + 1;
    r := Ok(commentId);
  }

  method SharePost(db: Db, postId: Id, userId: Id) returns (o: Outcome)
    modifies db`posts, db`users
    ensures postId !in old(db.posts) || userId !in old(db.users) ==>
      o == Fail(NotFound) && db.posts == old(db.posts) && db.users == old(db.users)
    ensures postId in old(db.posts) && userId in old(db.users) ==>
      var p := old(db.posts)[postId];
      o == Pass && db.posts == old(db.posts)[postId := p.(shares := p.shares + 1)]
      && db.users == ShareStep(p.authorId, old(db.users))
    ensures old(db.Valid()) ==> db.Valid()
  {
    if postId !in db.posts || userId !in db.users {
      return Fail(NotFound);
    }
    var post := db.posts[postId];
    BumpKeepsEmails(db.users, post.authorId, "shares", true);
    db.posts, db.users := db.posts[postId := post.(shares := post.shares + 1)], BumpAuthor(db.users, post.authorId, "shares", true);
    o := Pass;
  }
}
