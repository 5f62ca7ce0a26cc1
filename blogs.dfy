/** The handlers of convex/blogs.ts: articles by collaborators and admins, their engagement and saves. */
module Blogs {
  import opened Base
  import opened Seqs
  import opened Records
  import opened Tables
  import opened Store
  import opened Engagement

  function BlogAuthor(b: Blog): Id
  {
    b.authorId
  }

  /** The document createBlog inserts: the arguments, no likes, comments, saves or shares yet, published. */
  function NewBlog(authorId: Id, title: string, content: string, image: Option<string>, tags: seq<string>): (b: Blog)
    ensures b.authorId == authorId && b.title == title && b.content == content && b.image == image && b.tags == tags
    ensures b.likes == [] && b.comments == [] && b.saves == [] && b.shares == 0 && b.isPublished
  {
    Blog(authorId, title, content, image, tags, [], [], [], 0, true)
  }

  /** The fields updateBlog may change; an absent argument leaves its field as it was. */
  datatype BlogPatch = BlogPatch(
    title: Option<string>,
    content: Option<string>,
    image: Option<string>,
    tags: Option<seq<string>>,
    isPublished: Option<bool>)

  function ApplyPatch(b: Blog, u: BlogPatch): (b': Blog)
    ensures b'.(title := b.title, content := b.content, image := b.image, tags := b.tags, isPublished := b.isPublished) == b
    ensures u.title.Some? ==> b'.title == u.title.value
    ensures u.title.None? ==> b'.title == b.title
    ensures u.content.Some? ==> b'.content == u.content.value
    ensures u.content.None? ==> b'.content == b.content
    ensures u.image.Some? ==> b'.image == u.image
    ensures u.image.None? ==> b'.image == b.image
    ensures u.tags.Some? ==> b'.tags == u.tags.value
    ensures u.tags.None? ==> b'.tags == b.tags
    ensures u.isPublished.Some? ==> b'.isPublished == u.isPublished.value
    ensures u.isPublished.None? ==> b'.isPublished == b.isPublished
    ensures u == BlogPatch(None, None, None, None, None) ==> b' == b
  {
    b.(title := if u.title.Some? then u.title.value else b.title,
       content := if u.content.Some? then u.content.value else b.content,
       image := if u.image.Some? then u.image else b.image,
       tags := if u.tags.Some? then u.tags.value else b.tags,
       isPublished := if u.isPublished.Some? then u.isPublished.value else b.isPublished)
  }

  method CreateBlog(db: Db, authorId: Id, title: string, content: string, image: Option<string>, tags: seq<string>)
    returns (r: Result<Id>)
    modifies db`blogs, db`nextId
    ensures MayCreate(old(db.users), authorId) ==>
      r == Ok(old(db.nextId)) && db.nextId == old(db.nextId) + 1
      && db.blogs == old(db.blogs)[r.value := NewBlog(authorId, title, content, image, tags)]
    ensures !MayCreate(old(db.users), authorId) ==>
      r == Err(PermissionDenied) && db.blogs == old(db.blogs) && db.nextId == old(db.nextId)
    ensures old(db.Valid()) ==> db.Valid()
  {
    if !MayCreate(db.users, authorId) {
      return Err(PermissionDenied);
    }
    var id := db.FreshId();
    db.blogs := db.blogs[id := NewBlog(authorId, title, content, image, tags)];
    r := Ok(id);
  }

  /** The filter of getAllBlogs: published, and carrying the tag when one is given. */
  predicate Listed(tag: Option<string>, b: Blog)
  {
    b.isPublished && (Given(tag) ==> tag.value in b.tags)
  }

  /**
   * getAllBlogs without a cursor: the published articles, only those tagged `tag` when a tag
   * is given, newest first, at most `limit` of them.
   */
  function GetAllBlogs(blogs: map<Id, Blog>, bound: nat, tag: Option<string>, limit: Option<nat>): (rows: seq<Row<Blog>>)
    ensures forall r :: r in rows ==>
      r.id in blogs && blogs[r.id] == r.doc && r.doc.isPublished && (Given(tag) ==> tag.value in r.doc.tags)
    ensures Descending(rows)
    ensures KeysBelow(blogs, bound) && limit.None? ==>
      forall id :: id in blogs && blogs[id].isPublished && (Given(tag) ==> tag.value in blogs[id].tags)
        ==> Row(id, blogs[id]) in rows
  {
    QueryDesc(blogs, bound, b => Listed(tag, b), limit)
  }

  /**
   * getAllBlogs as written: a given tag is filtered with `q.contains`, which the filter builder
   * does not provide, and a truthy limit goes through `take(...)` and then `collect()`; either
   * makes the handler fail. Otherwise it lists the published articles, newest first.
   */
  function GetAllBlogsAsWritten(blogs: map<Id, Blog>, bound: nat, tag: Option<string>, limit: Option<nat>)
    : (r: Result<seq<Row<Blog>>>)
    ensures r.Err? <==> Given(tag) || (limit.Some? && limit.value > 0)
    ensures r.Err? ==> r.error == TypeError
    ensures r.Ok? ==> r.value == GetAllBlogs(blogs, bound, tag, limit)
  {
    if Given(tag) then Err(TypeError) else QueryDescAsWritten(blogs, bound, b => Listed(tag, b), limit)
  }

  /**
   * One published article tagged "dafny" and a request for that tag: as written the handler
   * fails, while the intended query lists the article.
   */
  lemma {:induction false} TagFilterFails(b: Blog)
    requires b.isPublished && b.tags == ["dafny"]
    ensures GetAllBlogsAsWritten(map[0 := b], 1, Some("dafny"), None) == Err(TypeError)
    ensures GetAllBlogs(map[0 := b], 1, Some("dafny"), None) == [Row(0, b)]
  {
    var blogs := map[0 := b];
    assert Collect(blogs, 0) == [];
    assert CollectDesc(blogs, 1) == [Row(0, b)] + CollectDesc(blogs, 0);
    assert Listed(Some("dafny"), b);
    assert Filter(CollectDesc(blogs, 1), x => Listed(Some("dafny"), x)) == [Row(0, b)];
  }

  predicate PublishedBy(authorId: Id, b: Blog)
  {
    b.authorId == authorId && b.isPublished
  }

  /** getAuthorBlogs: the author's published articles, newest first, at most `limit` of them. */
  function GetAuthorBlogs(blogs: map<Id, Blog>, bound: nat, authorId: Id, limit: Option<nat>): (rows: seq<Row<Blog>>)
    ensures forall r :: r in rows ==> r.id in blogs && blogs[r.id] == r.doc && r.doc.authorId == authorId && r.doc.isPublished
    ensures Descending(rows)
    ensures KeysBelow(blogs, bound) && limit.None? ==>
      forall id :: id in blogs && blogs[id].authorId == authorId && blogs[id].isPublished ==> Row(id, blogs[id]) in rows
  {
    QueryDesc(blogs, bound, b => PublishedBy(authorId, b), limit)
  }

  method UpdateBlog(db: Db, blogId: Id, authorId: Id, patch: BlogPatch) returns (r: Result<Id>)
    modifies db`blogs
    ensures var gate := Authorize(AuthorOf(old(db.blogs), blogId, BlogAuthor), authorId, db.users);
      && (gate.Fail? ==> r == Err(gate.error) && db.blogs == old(db.blogs))
      && (gate == Pass ==> r == Ok(blogId) && db.blogs == old(db.blogs)[blogId := ApplyPatch(old(db.blogs)[blogId], patch)])
    ensures old(db.Valid()) ==> db.Valid()
  {
    var gate := Authorize(AuthorOf(db.blogs, blogId, BlogAuthor), authorId, db.users);
    if gate.Fail? {
      return Err(gate.error);
    }
    db.blogs := db.blogs[blogId := ApplyPatch(db.blogs[blogId], patch)];
    r := Ok(blogId);
  }

  method DeleteBlog(db: Db, blogId: Id, userId: Id) returns (o: Outcome)
    modifies db`blogs
    ensures o == Authorize(AuthorOf(old(db.blogs), blogId, BlogAuthor), userId, db.users)
    ensures o.Fail? ==> db.blogs == old(db.blogs)
    ensures o == Pass ==> db.blogs == old(db.blogs) - {blogId}
    ensures old(db.Valid()) ==> db.Valid()
  {
    o := Authorize(AuthorOf(db.blogs, blogId, BlogAuthor), userId, db.users);
    if o == Pass {
      db.blogs := db.blogs - {blogId};
    }
  }

  method LikeBlog(db: Db, blogId: Id, userId: Id) returns (o: Outcome)
    modifies db`blogs, db`users
    ensures blogId !in old(db.blogs) || userId !in old(db.users) ==>
      o == Fail(NotFound) && db.blogs == old(db.blogs) && db.users == old(db.users)
    ensures blogId in old(db.blogs) && userId in old(db.users) ==>
      var b := old(db.blogs)[blogId];
      var t := LikeStep(b.likes, b.authorId, userId, old(db.users));
      o == Pass && db.blogs == old(db.blogs)[blogId := b.(likes := t.ids)] && db.users == t.users
    ensures old(db.Valid()) ==> db.Valid()
  {
    if blogId !in db.blogs || userId !in db.users {
      return Fail(NotFound);
    }
    var blog := db.blogs[blogId];
    var t := LikeStep(blog.likes, blog.authorId, userId, db.users);
    BumpKeepsEmails(db.users, blog.authorId, "likes", userId !in blog.likes);
    db.blogs, db.users := db.blogs[blogId := blog.(likes := t.ids)], t.users;
    o := Pass;
  }

  method CommentBlog(db: Db, blogId: Id, authorId: Id, content: string) returns (r: Result<Id>)
    modifies db`blogs, db`users, db`comments, db`nextId
    ensures blogId !in old(db.blogs) || authorId !in old(db.users) ==>
      r == Err(NotFound) && db.blogs == old(db.blogs) && db.users == old(db.users)
      && db.comments == old(db.comments) && db.nextId == old(db.nextId)
    ensures blogId in old(db.blogs) && authorId in old(db.users) ==>
      var b := old(db.blogs)[blogId];
      var t := CommentStep(b.comments, old(db.nextId), b.authorId, old(db.users));
      && r == Ok(old(db.nextId)) && db.nextId == old(db.nextId) + 1
      && db.comments == old(db.comments)[r.value := Comment(blogId, authorId, content, [])]
      && db.blogs == old(db.blogs)[blogId := b.(comments := t.ids)]
      && db.users == t.users
    ensures old(db.Valid()) ==> db.Valid()
  {
    if blogId !in db.blogs || authorId !in db.users {
      return Err(NotFound);
    }
    var blog := db.blogs[blogId];
    // The comment's id, handed out as Db.FreshId hands it out; all four writes in one step.
    var commentId := db.nextId;
    BumpKeepsEmails(db.users, blog.authorId, "comments", true);
    db.comments, db.blogs, db.users, db.nextId :=
      db.comments[commentId := Comment(blogId, authorId, content, [])],
      db.blogs[blogId := blog.(comments := blog.comments + [commentId])],
      BumpAuthor(db.users, blog.authorId, "comments", true),
      commentId + 1;
    r := Ok(commentId);
  }

  /** saveBlog: the same toggle as a like, on the `saves` list, with no effect on any counter. */
  method SaveBlog(db: Db, blogId: Id, userId: Id) returns (o: Outcome)
    modifies db`blogs
    ensures blogId !in old(db.blogs) || userId !in db.users ==> o == Fail(NotFound) && db.blogs == old(db.blogs)
    ensures blogId in old(db.blogs) && userId in db.users ==>
      var b := old(db.blogs)[blogId];
      o == Pass && db.blogs == old(db.blogs)[blogId := b.(saves := Toggle(b.saves, userId))]
    ensures old(db.Valid()) ==> db.Valid()
  {
    if blogId !in db.blogs || userId !in db.users {
      return Fail(NotFound);
    }
    var blog := db.blogs[blogId];
    var saves := blog.saves;
    var i := FindIndex(saves, userId);
    if i == -1 {
      db.blogs := db.blogs[blogId := blog.(saves := saves + [userId])];
    } else {
      db.blogs := db.blogs[blogId := blog.(saves := saves[..i] + saves[i + 1..])];
    }
    if old(db.Valid()) {
      ToggleKeepsDistinct(saves, userId);
    }
    o := Pass;
  }

  method ShareBlog(db: Db, blogId: Id, userId: Id) returns (o: Outcome)
    modifies db`blogs, db`users
    ensures blogId !in old(db.blogs) || userId !in old(db.users) ==>
      o == Fail(NotFound) && db.blogs == old(db.blogs) && db.users == old(db.users)
    ensures blogId in old(db.blogs) && userId in old(db.users) ==>
      var b := old(db.blogs)[blogId];
      o == Pass && db.blogs == old(db.blogs)[blogId := b.(shares := b.shares + 1)]
      && db.users == ShareStep(b.authorId, old(db.users))
    ensures old(db.Valid()) ==> db.Valid()
  {
    if blogId !in db.blogs || userId !in db.users {
      return Fail(NotFound);
    }
    var blog := db.blogs[blogId];
    BumpKeepsEmails(db.users, blog.authorId, "shares", true);
    db.blogs, db.users := db.blogs[blogId := blog.(shares := blog.shares + 1)], BumpAuthor(db.users, blog.authorId, "shares", true);
    o := Pass;
  }
}
