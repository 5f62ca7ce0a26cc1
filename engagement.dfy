/**
 * The logic posts, blogs and projects share: the ownership rule for update and delete, and the
 * engagement handlers (like, comment, share, save), whose side effect on the author's stats
 * counters is the same in the three files.
 */
module Engagement {
  import opened Base
  import opened Seqs
  import opened Records
  import opened Roles
  import opened Store

  /**
   * The checks of updateX and deleteX, in their order: the document must exist, then the acting
   * user, and the actor must be the document's author or an admin.
   */
  function Authorize(docAuthor: Option<Id>, actorId: Id, users: map<Id, User>): Outcome
  {
    if docAuthor.None? then Fail(NotFound)
    else if actorId !in users then Fail(NotFound)
    else if docAuthor.value != actorId && !IsAdmin(users[actorId].role) then Fail(PermissionDenied)
    else Pass
  }

  /** Only the author or an admin gets past the ownership check, and each failure has its own error. */
  lemma AuthorizeAllowsOwnerOrAdmin(docAuthor: Option<Id>, actorId: Id, users: map<Id, User>)
    ensures Authorize(docAuthor, actorId, users) == Pass
        <==> docAuthor.Some? && actorId in users && (docAuthor.value == actorId || users[actorId].role == "admin")
    ensures docAuthor.None? ==> Authorize(docAuthor, actorId, users) == Fail(NotFound)
    ensures docAuthor.Some? && actorId !in users ==> Authorize(docAuthor, actorId, users) == Fail(NotFound)
    ensures Authorize(docAuthor, actorId, users) == Fail(PermissionDenied)
        ==> actorId in users && users[actorId].role != "admin"
  {
  }

  /**
   * The gate of createPost, createBlog, createProject and addSkill: the author must exist and be
   * "colab" or "admin". A missing author is refused with the same error as a wrong role.
   */
  predicate MayCreate(users: map<Id, User>, authorId: Id)
  {
    authorId in users && IsColabOrAdmin(users[authorId].role)
  }

  /** The document's author, if the document exists. */
  function AuthorOf<T>(docs: map<Id, T>, id: Id, author: T -> Id): Option<Id>
  {
    if id in docs then Some(author(docs[id])) else None
  }

  /**
   * The author-side effect of a like, comment or share: when the author's document exists and
   * carries stats, its `key` counter goes up by one, or down by one but never below zero.
   * Nothing else in the users table changes.
   */
  function BumpAuthor(users: map<Id, User>, author: Id, key: string, up: bool): (r: map<Id, User>)
    ensures r.Keys == users.Keys
  {
    if author in users && users[author].stats.Some? then
      users[author := users[author].(stats := Some(Bump(users[author].stats.value, key, up)))]
    else users
  }

  /**
   * What BumpAuthor changes: the author's `key` counter, by one up or by one down but never
   * below zero, and nothing else; a missing author or one without stats leaves the table as is.
   */
  lemma BumpAuthorEffect(users: map<Id, User>, author: Id, key: string, up: bool)
    ensures var r := BumpAuthor(users, author, key, up);
      && (forall id :: id in users && id != author ==> r[id] == users[id])
      && (forall id :: id in users ==> r[id].(stats := None) == users[id].(stats := None))
      && (forall id :: id in users ==> r[id].stats.Some? == users[id].stats.Some?)
      && (!(author in users && users[author].stats.Some?) ==> r == users)
      && (author in users && users[author].stats.Some? ==>
            var before, after := users[author].stats.value, r[author].stats.value;
            && Counter(after, key) == (if up then Counter(before, key) + 1
                                       else if Counter(before, key) == 0 then 0 else Counter(before, key) - 1)
            && (forall k :: k != key ==> Counter(after, k) == Counter(before, k))
            && after.likedBy == before.likedBy && after.online == before.online)
  {
  }

  /** A document's like list and the users table after one like toggle. */
  datatype Tally = Tally(ids: seq<Id>, users: map<Id, User>)

  /**
   * likeX: the user's id is appended when `findIndex` does not find it and spliced out otherwise,
   * and the document author's `likes` counter follows the same direction.
   */
  function LikeStep(likes: seq<Id>, author: Id, userId: Id, users: map<Id, User>): (t: Tally)
    ensures Distinct(likes) ==> Distinct(t.ids) && (userId in t.ids <==> userId !in likes)
    ensures forall y :: y != userId ==> (y in t.ids <==> y in likes)
    ensures t.users.Keys == users.Keys
    ensures author in users && users[author].stats.Some? ==>
      CounterOf(t.users[author].stats, "likes")
        == if userId !in likes then CounterOf(users[author].stats, "likes") + 1
           else if CounterOf(users[author].stats, "likes") == 0 then 0
           else CounterOf(users[author].stats, "likes") - 1
  {
    ToggleOnDistinct(likes, userId);
    BumpAuthorEffect(users, author, "likes", userId !in likes);
    Tally(Toggle(likes, userId), BumpAuthor(users, author, "likes", userId !in likes))
  }

  lemma ToggleOnDistinct(likes: seq<Id>, userId: Id)
    ensures Distinct(likes) ==> Distinct(Toggle(likes, userId)) && (userId in Toggle(likes, userId) <==> userId !in likes)
  {
    if Distinct(likes) {
      ToggleKeepsDistinct(likes, userId);
      ToggleFlips(likes, userId);
    }
  }

  /** Bumping a counter up and then down again leaves every counter reading as before. */
  lemma BumpUpDown(users: map<Id, User>, author: Id, key: string)
    ensures SameUsers(BumpAuthor(BumpAuthor(users, author, key, true), author, key, false), users)
    ensures author in users && users[author].stats.Some? && key in users[author].stats.value.counters
        ==> BumpAuthor(BumpAuthor(users, author, key, true), author, key, false) == users
  {
    var mid := BumpAuthor(users, author, key, true);
    var back := BumpAuthor(mid, author, key, false);
    BumpAuthorEffect(users, author, key, true);
    BumpAuthorEffect(mid, author, key, false);
    if author in users && users[author].stats.Some? {
      var s := users[author].stats.value;
      var s2 := back[author].stats.value;
      assert s2 == s.(counters := s.counters[key := Counter(s, key)]);
      if key in s.counters {
        assert s.counters[key := Counter(s, key)] == s.counters;
      }
    }
  }

  /**
   * Liking and then unliking restores the like list exactly, and the author's counters read
   * as before (a `likes` key the first like created stays behind at 0).
   */
  lemma {:induction false} LikeThenUnlike(likes: seq<Id>, author: Id, userId: Id, users: map<Id, User>)
    requires userId !in likes
    ensures var t1 := LikeStep(likes, author, userId, users);
            var t2 := LikeStep(t1.ids, author, userId, t1.users);
            t2.ids == likes && SameUsers(t2.users, users)
  {
    ToggleTwiceFromAbsent(likes, userId);
    var t1 := LikeStep(likes, author, userId, users);
    assert userId in t1.ids;
    BumpUpDown(users, author, "likes");
  }

  /**
   * The counter is not a count of likes: unliking when the author's counter is already 0 clamps
   * it, and liking again leaves it at 1, one above where it started.
   */
  lemma {:induction false} ClampedUnlikeDrifts(likes: seq<Id>, author: Id, userId: Id, users: map<Id, User>)
    requires userId in likes && Distinct(likes)
    requires author in users && users[author].stats.Some? && CounterOf(users[author].stats, "likes") == 0
    ensures var t1 := LikeStep(likes, author, userId, users);
            var t2 := LikeStep(t1.ids, author, userId, t1.users);
            multiset(t2.ids) == multiset(likes) && CounterOf(t2.users[author].stats, "likes") == 1
  {
    ToggleTwiceFromPresent(likes, userId);
    var t1 := LikeStep(likes, author, userId, users);
    assert userId !in t1.ids;
  }

  /**
   * commentX: the comment's id goes at the end of the document's list and the document author's
   * `comments` counter goes up; every id already in the list keeps its position.
   */
  function CommentStep(comments: seq<Id>, commentId: Id, author: Id, users: map<Id, User>): (t: Tally)
    ensures |t.ids| == |comments| + 1 && t.ids[..|comments|] == comments && t.ids[|comments|] == commentId
    ensures t.users.Keys == users.Keys
    ensures author in users && users[author].stats.Some? ==>
      CounterOf(t.users[author].stats, "comments") == CounterOf(users[author].stats, "comments") + 1
  {
    BumpAuthorEffect(users, author, "comments", true);
    Tally(comments + [commentId], BumpAuthor(users, author, "comments", true))
  }

  /** shareX: the author's `shares` counter goes up by one (the document's own count is bumped by the caller). */
  function ShareStep(author: Id, users: map<Id, User>): (r: map<Id, User>)
    ensures r.Keys == users.Keys
    ensures author in users && users[author].stats.Some? ==>
      CounterOf(r[author].stats, "shares") == CounterOf(users[author].stats, "shares") + 1
    ensures forall k :: k != "shares" && author in users ==> CounterOf(r[author].stats, k) == CounterOf(users[author].stats, k)
  {
    BumpAuthorEffect(users, author, "shares", true);
    BumpAuthor(users, author, "shares", true)
  }

  /** The engagement side effects never touch a user's e-mail, so e-mails stay unique. */
  lemma BumpKeepsEmails(users: map<Id, User>, author: Id, key: string, up: bool)
    ensures EmailsUnique(users) ==> EmailsUnique(BumpAuthor(users, author, key, up))
  {
    var r := BumpAuthor(users, author, key, up);
    BumpAuthorEffect(users, author, key, up);
    forall id | id in users ensures r[id].email == users[id].email {
      assert r[id].(stats := None).email == users[id].(stats := None).email;
    }
  }
}
