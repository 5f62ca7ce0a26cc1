/**
 * The handlers of convex/social.ts: reviews of collaborators and of the application, and
 * friendships, which go from pending to accepted or rejected and are removed only once accepted.
 */
module Social {
  import opened Base
  import opened Seqs
  import opened Records
  import opened Roles
  import opened Tables
  import opened Store

  /** `s || ""`. */
  function OrEmpty(s: Option<string>): string
  {
    if s.Some? then s.value else ""
  }

  /** The review createReview stores: a snapshot of the author, no target name, stamped `now`. */
  function NewReview(author: Row<User>, targetId: Option<Id>, content: string, rating: real, isAppReview: bool, now: string)
    : (r: Review)
    ensures r.userId == IdText(author.id) && r.userName == author.doc.name
    ensures author.doc.imageUrl.Some? ==> r.userImage == author.doc.imageUrl.value
    ensures author.doc.imageUrl.None? ==> r.userImage == ""
    ensures r.targetName.None? && r.isAppReview == isAppReview && r.rating == rating
    ensures r.targetId.Some? <==> targetId.Some?
  {
    Review(IdText(author.id), author.doc.name, OrEmpty(author.doc.imageUrl), content, rating,
           if targetId.Some? then Some(IdText(targetId.value)) else None, None, now, isAppReview)
  }

  /** The checks of createReview, in their order. */
  function ReviewCheck(users: map<Id, User>, authorId: Id, targetId: Option<Id>, rating: real): (o: Outcome)
    ensures o == Pass <==>
      && authorId in users
      && (targetId.Some? ==> targetId.value in users && IsReviewTarget(users[targetId.value].role))
      && 0.0 <= rating <= 5.0
    ensures o == Fail(InvalidArgument) ==>
      (!(0.0 <= rating <= 5.0) || (targetId.Some? && targetId.value in users && !IsReviewTarget(users[targetId.value].role)))
    ensures o.Fail? ==> o.error in {NotFound, InvalidArgument}
  {
    if authorId !in users then Fail(NotFound)
    else if targetId.Some? && targetId.value !in users then Fail(NotFound)
    else if targetId.Some? && !IsReviewTarget(users[targetId.value].role) then Fail(InvalidArgument)
    else if rating < 0.0 || rating > 5.0 then Fail(InvalidArgument)
    else Pass
  }

  method CreateReview(db: Db, authorId: Id, targetId: Option<Id>, content: string, rating: real, isAppReview: bool, now: string)
    returns (r: Result<Id>)
    modifies db`reviews, db`nextId
    ensures var gate := ReviewCheck(old(db.users), authorId, targetId, rating);
      && (gate.Fail? ==> r == Err(gate.error) && db.reviews == old(db.reviews) && db.nextId == old(db.nextId))
      && (gate == Pass ==>
            r == Ok(old(db.nextId)) && db.nextId == old(db.nextId) + 1
            && db.reviews == old(db.reviews)[r.value :=
                 NewReview(Row(authorId, db.users[authorId]), targetId, content, rating, isAppReview, now)])
    ensures old(db.Valid()) ==> db.Valid()
  {
    var gate := ReviewCheck(db.users, authorId, targetId, rating);
    if gate.Fail? {
      return Err(gate.error);
    }
    var id := db.FreshId();
    db.reviews := db.reviews[id := NewReview(Row(authorId, db.users[authorId]), targetId, content, rating, isAppReview, now)];
    r := Ok(id);
  }

  predicate IsApp(r: Review)
  {
    r.isAppReview
  }

  /** getAppReviews without a cursor: the application reviews, newest first, cut by the limit. */
  function GetAppReviews(reviews: map<Id, Review>, bound: nat, limit: Option<int>): (rows: seq<Row<Review>>)
    ensures forall r :: r in rows ==> r.id in reviews && reviews[r.id] == r.doc && r.doc.isAppReview
    ensures Descending(rows)
    ensures KeysBelow(reviews, bound) && limit.None? ==>
      forall id :: id in reviews && reviews[id].isAppReview ==> Row(id, reviews[id]) in rows
    ensures rows == SliceLimit(QueryDesc(reviews, bound, IsApp, None), limit)
  {
    var all := QueryDesc(reviews, bound, IsApp, None);
    PrefixKeeps(all, SliceLimit(all, limit));
    SliceLimit(all, limit)
  }

  predicate AboutUser(targetId: Id, r: Review)
  {
    r.targetId == Some(IdText(targetId)) && !r.isAppReview
  }

  /** getUserReviews: the reviews of one user that are not application reviews, newest first, cut by the limit. */
  function GetUserReviews(reviews: map<Id, Review>, bound: nat, targetId: Id, limit: Option<int>): (rows: seq<Row<Review>>)
    ensures forall r :: r in rows ==>
      r.id in reviews && reviews[r.id] == r.doc && r.doc.targetId == Some(IdText(targetId)) && !r.doc.isAppReview
    ensures Descending(rows)
    ensures KeysBelow(reviews, bound) && limit.None? ==>
      forall id :: id in reviews && AboutUser(targetId, reviews[id]) ==> Row(id, reviews[id]) in rows
    ensures rows == SliceLimit(QueryDesc(reviews, bound, r => AboutUser(targetId, r), None), limit)
  {
    var all := QueryDesc(reviews, bound, r => AboutUser(targetId, r), None);
    PrefixKeeps(all, SliceLimit(all, limit));
    SliceLimit(all, limit)
  }

  predicate NotApp(r: Review)
  {
    !r.isAppReview
  }

  /** getCollaboratorReviews without a cursor: every review that is not an application review, newest first. */
  function GetCollaboratorReviews(reviews: map<Id, Review>, bound: nat, limit: Option<int>): (rows: seq<Row<Review>>)
    ensures forall r :: r in rows ==> r.id in reviews && reviews[r.id] == r.doc && !r.doc.isAppReview
    ensures Descending(rows)
    ensures KeysBelow(reviews, bound) && limit.None? ==>
      forall id :: id in reviews && !reviews[id].isAppReview ==> Row(id, reviews[id]) in rows
    ensures rows == SliceLimit(QueryDesc(reviews, bound, NotApp, None), limit)
  {
    var all := QueryDesc(reviews, bound, NotApp, None);
    PrefixKeeps(all, SliceLimit(all, limit));
    SliceLimit(all, limit)
  }

  /** The application reviews and the others split the reviews table between them. */
  lemma ReviewsPartition(reviews: map<Id, Review>, bound: nat)
    requires KeysBelow(reviews, bound)
    ensures |GetAppReviews(reviews, bound, None)| + |GetCollaboratorReviews(reviews, bound, None)| == |reviews|
  {
    var all := CollectDesc(reviews, bound);
    var app, other := QueryDesc(reviews, bound, IsApp, None), QueryDesc(reviews, bound, NotApp, None);
    assert GetAppReviews(reviews, bound, None) == app;
    assert GetCollaboratorReviews(reviews, bound, None) == other;
    CountSplits(all, IsApp, NotApp);
    CollectDescLength(reviews, bound);
  }

  // ---- friendships ----

  /** The friendships between a and b, in either orientation and of any status, oldest first. */
  function Between(fs: map<Id, Friendship>, bound: nat, a: Id, b: Id): seq<Row<Friendship>>
  {
    QueryAsc(fs, bound, (f: Friendship) => Joins(f, a, b))
  }

  /** The accepted friendships between a and b. */
  function AcceptedBetween(fs: map<Id, Friendship>, bound: nat, a: Id, b: Id): seq<Row<Friendship>>
  {
    QueryAsc(fs, bound, (f: Friendship) => f.status == Accepted && Joins(f, a, b))
  }

  /**
   * sendFriendRequest: both users must exist and no friendship may join them yet, whatever its
   * status; the request is stored as pending from userId1 to userId2.
   */
  method SendFriendRequest(db: Db, userId1: Id, userId2: Id) returns (r: Result<Id>)
    modifies db`friendships, db`nextId
    ensures var found := Between(old(db.friendships), old(db.nextId), userId1, userId2);
      && (userId1 !in db.users || userId2 !in db.users ==> r == Err(NotFound))
      && (userId1 in db.users && userId2 in db.users && |found| == 1 ==> r == Err(InvalidState))
      && (userId1 in db.users && userId2 in db.users && |found| > 1 ==> r == Err(NotUnique))
      && (userId1 in db.users && userId2 in db.users && found == [] ==>
            r == Ok(old(db.nextId)) && db.nextId == old(db.nextId) + 1
            && db.friendships == old(db.friendships)[r.value := Friendship(userId1, userId2, Pending)])
      && (r.Err? ==> db.friendships == old(db.friendships) && db.nextId == old(db.nextId))
    ensures old(db.Valid()) ==> db.Valid()
  {
    if userId1 !in db.users || userId2 !in db.users {
      return Err(NotFound);
    }
    var found := Between(db.friendships, db.nextId, userId1, userId2);
    if |found| > 1 {
      return Err(NotUnique);
    }
    if |found| == 1 {
      return Err(InvalidState);
    }
    if old(db.Valid()) {
      NoneBetween(db.friendships, db.nextId, userId1, userId2);
      InsertKeepsPairsUnique(db.friendships, db.nextId, Friendship(userId1, userId2, Pending));
    }
    var id := db.FreshId();
    db.friendships := db.friendships[id := Friendship(userId1, userId2, Pending)];
    r := Ok(id);
  }

  /** respondToFriendRequest: only the addressee answers, and only a pending request. */
  method RespondToFriendRequest(db: Db, friendshipId: Id, userId: Id, accept: bool) returns (o: Outcome)
    modifies db`friendships
    ensures friendshipId !in old(db.friendships) ==> o == Fail(NotFound)
    ensures (friendshipId in old(db.friendships) && old(db.friendships)[friendshipId].userId2 != userId)
      ==> o == Fail(PermissionDenied)
    ensures (friendshipId in old(db.friendships) && old(db.friendships)[friendshipId].userId2 == userId
      && old(db.friendships)[friendshipId].status != Pending) ==> o == Fail(InvalidState)
    ensures o.Fail? ==> db.friendships == old(db.friendships)
    ensures o == Pass ==>
      && friendshipId in old(db.friendships)
      && old(db.friendships)[friendshipId].userId2 == userId
      && old(db.friendships)[friendshipId].status == Pending
      && db.friendships == old(db.friendships)[friendshipId :=
           old(db.friendships)[friendshipId].(status := if accept then Accepted else Rejected)]
    ensures old(db.Valid()) ==> db.Valid()
  {
    if friendshipId !in db.friendships {
      return Fail(NotFound);
    }
    var f := db.friendships[friendshipId];
    if f.userId2 != userId {
      return Fail(PermissionDenied);
    }
    if f.status != Pending {
      return Fail(InvalidState);
    }
    if old(db.Valid()) {
      StatusChangeKeepsPairsUnique(db.friendships, friendshipId, if accept then Accepted else Rejected);
    }
    db.friendships := db.friendships[friendshipId := f.(status := if accept then Accepted else Rejected)];
    o := Pass;
  }

  /** removeFriend: the one accepted friendship between the two users is deleted. */
  method RemoveFriend(db: Db, userId: Id, friendId: Id) returns (o: Outcome)
    modifies db`friendships
    ensures var found := AcceptedBetween(old(db.friendships), old(db.nextId), userId, friendId);
      && (found == [] ==> o == Fail(NotFound))
      && (|found| > 1 ==> o == Fail(NotUnique))
      && (|found| == 1 ==> o == Pass && db.friendships == old(db.friendships) - {found[0].id})
      && (o.Fail? ==> db.friendships == old(db.friendships))
    ensures old(db.Valid()) ==> db.Valid()
  {
    var found := AcceptedBetween(db.friendships, db.nextId, userId, friendId);
    if found == [] {
      return Fail(NotFound);
    }
    if |found| > 1 {
      return Fail(NotUnique);
    }
    db.friendships := db.friendships - {found[0].id};
    o := Pass;
  }

  /** The other end of a friendship seen from `userId`. */
  function Other(f: Friendship, userId: Id): Id
  {
    if f.userId1 == userId then f.userId2 else f.userId1
  }

  predicate AcceptedWith(userId: Id, f: Friendship)
  {
    f.status == Accepted && (f.userId1 == userId || f.userId2 == userId)
  }

  /** Some accepted friendship joins a and b. */
  ghost predicate AreFriends(fs: map<Id, Friendship>, a: Id, b: Id)
  {
    exists id :: id in fs && fs[id].status == Accepted && Joins(fs[id], a, b)
  }

  /** The documents of the other ends of the given friendships, dropping those whose user is gone. */
  function FriendDocs(rows: seq<Row<Friendship>>, userId: Id, users: map<Id, User>): (out: seq<Row<User>>)
    ensures forall u :: u in out ==>
      u.id in users && users[u.id] == u.doc && exists i :: 0 <= i < |rows| && Other(rows[i].doc, userId) == u.id
    ensures forall i :: 0 <= i < |rows| && Other(rows[i].doc, userId) in users ==>
      Row(Other(rows[i].doc, userId), users[Other(rows[i].doc, userId)]) in out
  {
    if rows == [] then []
    else
      var friend := Other(rows[0].doc, userId);
      var rest := FriendDocs(rows[1..], userId, users);
      assert forall u :: u in rest ==> exists i :: 0 <= i < |rows| && Other(rows[i].doc, userId) == u.id by {
        forall u | u in rest ensures exists i :: 0 <= i < |rows| && Other(rows[i].doc, userId) == u.id {
          var j :| 0 <= j < |rows[1..]| && Other(rows[1..][j].doc, userId) == u.id;
          assert Other(rows[j + 1].doc, userId) == u.id;
        }
      }
      assert forall i :: 1 <= i < |rows| ==> rows[i] == rows[1..][i - 1];
      (if friend in users then [Row(friend, users[friend])] else []) + rest
  }

  /**
   * getUserFriends: the users joined to `userId` by an accepted friendship, in the order the
   * friendships were made; a friend whose document is gone is dropped.
   */
  function GetUserFriends(fs: map<Id, Friendship>, users: map<Id, User>, bound: nat, userId: Id): (out: seq<Row<User>>)
    ensures forall u :: u in out ==> u.id in users && users[u.id] == u.doc && AreFriends(fs, userId, u.id)
    ensures KeysBelow(fs, bound) ==>
      forall f :: f in users && AreFriends(fs, userId, f) ==> Row(f, users[f]) in out
  {
    var rows := QueryAsc(fs, bound, f => AcceptedWith(userId, f));
    FriendsFound(fs, bound, userId, users, rows);
    FriendDocs(rows, userId, users)
  }

  lemma FriendsFound(fs: map<Id, Friendship>, bound: nat, userId: Id, users: map<Id, User>, rows: seq<Row<Friendship>>)
    requires rows == QueryAsc(fs, bound, f => AcceptedWith(userId, f))
    ensures forall u :: u in FriendDocs(rows, userId, users) ==> AreFriends(fs, userId, u.id)
    ensures KeysBelow(fs, bound) ==>
      forall f :: f in users && AreFriends(fs, userId, f) ==> Row(f, users[f]) in FriendDocs(rows, userId, users)
  {
    var out := FriendDocs(rows, userId, users);
    forall u | u in out ensures AreFriends(fs, userId, u.id) {
      var i :| 0 <= i < |rows| && Other(rows[i].doc, userId) == u.id;
      assert rows[i] in rows;
      assert InTable(fs, rows[i]) && AcceptedWith(userId, rows[i].doc);
      assert Joins(fs[rows[i].id], userId, u.id);
    }
    if KeysBelow(fs, bound) {
      forall f | f in users && AreFriends(fs, userId, f) ensures Row(f, users[f]) in out {
        var id :| id in fs && fs[id].status == Accepted && Joins(fs[id], userId, f);
        assert AcceptedWith(userId, fs[id]);
        assert InTable(fs, Row(id, fs[id]));
        assert Row(id, fs[id]) in rows;
        var i :| 0 <= i < |rows| && rows[i] == Row(id, fs[id]);
        assert Other(rows[i].doc, userId) == f;
      }
    }
  }

  /** Friendship as getUserFriends reports it is mutual. */
  lemma {:induction false} FriendsSymmetric(fs: map<Id, Friendship>, users: map<Id, User>, bound: nat, a: Id, b: Id)
    requires KeysBelow(fs, bound) && a in users && b in users
    ensures Row(b, users[b]) in GetUserFriends(fs, users, bound, a) <==> Row(a, users[a]) in GetUserFriends(fs, users, bound, b)
  {
    if Row(b, users[b]) in GetUserFriends(fs, users, bound, a) {
      var id :| id in fs && fs[id].status == Accepted && Joins(fs[id], a, b);
      assert Joins(fs[id], b, a);
    }
    if Row(a, users[a]) in GetUserFriends(fs, users, bound, b) {
      var id :| id in fs && fs[id].status == Accepted && Joins(fs[id], b, a);
      assert Joins(fs[id], a, b);
    }
  }

  predicate PendingFor(userId: Id, f: Friendship)
  {
    f.status == Pending && f.userId2 == userId
  }

  /** getPendingFriendRequests: the requests addressed to `userId` still awaiting an answer, oldest first. */
  function GetPendingFriendRequests(fs: map<Id, Friendship>, bound: nat, userId: Id): (rows: seq<Row<Friendship>>)
    ensures forall r :: r in rows ==> r.id in fs && fs[r.id] == r.doc && r.doc.status == Pending && r.doc.userId2 == userId
    ensures Ascending(rows)
    ensures KeysBelow(fs, bound) ==>
      forall id :: id in fs && fs[id].status == Pending && fs[id].userId2 == userId ==> Row(id, fs[id]) in rows
  {
    QueryAsc(fs, bound, f => PendingFor(userId, f))
  }

  // ---- the pair invariant ----

  /** With one friendship per pair, the lookups of sendFriendRequest and removeFriend find at most one. */
  lemma {:induction false} AtMostOneBetween(fs: map<Id, Friendship>, bound: nat, a: Id, b: Id)
    requires PairsUnique(fs)
    ensures |Between(fs, bound, a, b)| <= 1
    ensures |AcceptedBetween(fs, bound, a, b)| <= 1
  {
    var found := Between(fs, bound, a, b);
    JoinedRowsShareId(fs, found, a, b);
    AscendingOneId(found);
    var acc := AcceptedBetween(fs, bound, a, b);
    JoinedRowsShareId(fs, acc, a, b);
    AscendingOneId(acc);
  }

  /** With one friendship per pair, any two rows of the table that join a and b are the same row. */
  lemma {:induction false} JoinedRowsShareId(fs: map<Id, Friendship>, rows: seq<Row<Friendship>>, a: Id, b: Id)
    requires PairsUnique(fs)
    requires forall r :: r in rows ==> InTable(fs, r) && Joins(r.doc, a, b)
    ensures forall i, j :: 0 <= i < |rows| && 0 <= j < |rows| ==> rows[i].id == rows[j].id
  {
    forall i, j | 0 <= i < |rows| && 0 <= j < |rows| ensures rows[i].id == rows[j].id {
      var x, y := rows[i], rows[j];
      assert x in rows && y in rows;
      assert Joins(fs[y.id], fs[x.id].userId1, fs[x.id].userId2);
    }
  }

  /** An empty lookup over a table whose ids are all issued means no friendship joins the two users. */
  lemma NoneBetween(fs: map<Id, Friendship>, bound: nat, a: Id, b: Id)
    requires KeysBelow(fs, bound) && Between(fs, bound, a, b) == []
    ensures forall id :: id in fs ==> !Joins(fs[id], a, b)
  {
    forall id | id in fs ensures !Joins(fs[id], a, b) {
      assert InTable(fs, Row(id, fs[id]));
    }
  }

  /** Once two users are joined by a friendship of any status, every new request between them is refused. */
  lemma {:induction false} JoinedPairBlocksRequest(fs: map<Id, Friendship>, bound: nat, id: Id, a: Id, b: Id)
    requires KeysBelow(fs, bound) && id in fs && Joins(fs[id], a, b)
    ensures Between(fs, bound, a, b) != []
  {
    assert InTable(fs, Row(id, fs[id]));
    assert Row(id, fs[id]) in Between(fs, bound, a, b);
  }

  /** Inserting a friendship for a pair no friendship joins keeps one friendship per pair. */
  lemma {:induction false} InsertKeepsPairsUnique(fs: map<Id, Friendship>, id: Id, f: Friendship)
    requires PairsUnique(fs) && id !in fs
    requires forall k :: k in fs ==> !Joins(fs[k], f.userId1, f.userId2)
    ensures PairsUnique(fs[id := f])
  {
    var fs' := fs[id := f];
    forall a, b | a in fs' && b in fs' && Joins(fs'[b], fs'[a].userId1, fs'[a].userId2) ensures a == b {
      if a != id && b == id {
        assert Joins(fs[a], f.userId1, f.userId2);
      }
    }
  }

  /** Answering a request changes only its status, so the pair invariant is kept. */
  lemma {:induction false} StatusChangeKeepsPairsUnique(fs: map<Id, Friendship>, id: Id, s: FriendStatus)
    requires PairsUnique(fs) && id in fs
    ensures PairsUnique(fs[id := fs[id].(status := s)])
  {
    var fs' := fs[id := fs[id].(status := s)];
    forall a, b | a in fs' && b in fs' && Joins(fs'[b], fs'[a].userId1, fs'[a].userId2) ensures a == b {
      assert fs'[a].userId1 == fs[a].userId1 && fs'[a].userId2 == fs[a].userId2;
      assert fs'[b].userId1 == fs[b].userId1 && fs'[b].userId2 == fs[b].userId2;
    }
  }
}
