/**
 * The handlers of convex/users.ts: the collaborator directory, profile likes, the signed-in
 * user's lookup by e-mail, profile edits and the online flag.
 */
module Users {
  import opened Base
  import opened Seqs
  import opened Records
  import opened Roles
  import opened Tables
  import opened Store
  import Auth

  predicate Collaborator(u: User)
  {
    IsListedCollaborator(u.role)
  }

  /** The rows whose id is `id`. */
  function WithId<T(!new)>(rows: seq<Row<T>>, id: Id): (r: seq<Row<T>>)
    ensures forall x :: x in r <==> x in rows && x.id == id
  {
    if rows == [] then []
    else (if rows[0].id == id then [rows[0]] else []) + WithId(rows[1..], id)
  }

  /**
   * getCollaborators: every user whose role is not "user", oldest first; with an id, only that
   * user, and only when they are such a collaborator.
   */
  function GetCollaborators(users: map<Id, User>, bound: nat, userId: Option<Id>): (rows: seq<Row<User>>)
    ensures forall r :: r in rows ==> InTable(users, r) && r.doc.role != "user"
    ensures userId.Some? ==> forall r :: r in rows ==> r.id == userId.value
    ensures KeysBelow(users, bound) ==>
      forall id :: id in users && users[id].role != "user" && (userId.Some? ==> id == userId.value)
        ==> Row(id, users[id]) in rows
  {
    var all := QueryAsc(users, bound, Collaborator);
    assert forall id :: id in users ==> InTable(users, Row(id, users[id]));
    if userId.Some? then WithId(all, userId.value) else all
  }

  /** Looking up one collaborator by id yields at most that collaborator. */
  lemma {:induction false} CollaboratorById(users: map<Id, User>, bound: nat, id: Id)
    requires KeysBelow(users, bound)
    ensures GetCollaborators(users, bound, Some(id))
      == if id in users && users[id].role != "user" then [Row(id, users[id])] else []
  {
    var all := QueryAsc(users, bound, Collaborator);
    AscendingWithId(all, id);
    var r := GetCollaborators(users, bound, Some(id));
    if id in users && users[id].role != "user" {
      assert InTable(users, Row(id, users[id]));
      assert Row(id, users[id]) in r;
      assert r == [r[0]];
    } else {
      HeadIn(r);
    }
  }

  /** In an ascending result at most one row has a given id. */
  lemma {:induction false} AscendingWithId<T(!new)>(rows: seq<Row<T>>, id: Id)
    requires Ascending(rows)
    ensures |WithId(rows, id)| <= 1
  {
    if rows != [] {
      AscendingWithId(rows[1..], id);
      forall x | x in rows[1..] ensures x.id > rows[0].id {
        var j :| 0 <= j < |rows[1..]| && rows[1..][j] == x;
        assert rows[j + 1] == x;
      }
      HeadIn(WithId(rows[1..], id));
    }
  }

  /**
   * The stats likeProfile writes: the schema's six counters copied (a missing one as zero), the
   * liker removed if present and appended otherwise, and nothing else; in particular the online
   * flag and the engagement counters are not carried over.
   */
  function ProfileLikeStats(s: Option<Stats>, userId: Id): (r: Stats)
    ensures r.likedBy.Some?
    ensures userId in r.likedBy.value <==> userId !in Likers(s)
    ensures forall x :: x != userId ==> (x in r.likedBy.value <==> x in Likers(s))
    ensures forall k :: k in SchemaCounterKeys ==> Counter(r, k) == CounterOf(s, k)
    ensures forall k :: k !in SchemaCounterKeys ==> Counter(r, k) == 0
    ensures r.online.None?
  {
    var likes := Likers(s);
    Stats(SchemaCounters(s), Some(if userId in likes then RemoveAll(likes, userId) else likes + [userId]), None)
  }

  /** A like followed by an unlike from the same user restores the list of likers. */
  lemma {:induction false} ProfileLikeTwice(s: Option<Stats>, userId: Id)
    requires userId !in Likers(s)
    ensures Likers(Some(ProfileLikeStats(Some(ProfileLikeStats(s, userId)), userId))) == Likers(s)
  {
    var likes := Likers(s);
    assert Likers(Some(ProfileLikeStats(s, userId))) == likes + [userId];
    RemoveAllAppended(likes, userId);
    RemoveAllAbsent(likes, userId);
  }

  /**
   * likeProfile: toggles the user in the profile's likers and answers whether the profile is now
   * liked. The liker's own document is not looked up.
   */
  method LikeProfile(db: Db, collaboratorId: Id, userId: Id) returns (r: Result<bool>)
    modifies db`users
    ensures collaboratorId !in old(db.users) ==> r == Err(NotFound) && db.users == old(db.users)
    ensures collaboratorId in old(db.users) ==>
      var u := old(db.users)[collaboratorId];
      && r == Ok(userId !in Likers(u.stats))
      && db.users == old(db.users)[collaboratorId := u.(stats := Some(ProfileLikeStats(u.stats, userId)))]
    ensures old(db.Valid()) ==> db.Valid()
  {
    if collaboratorId !in db.users {
      return Err(NotFound);
    }
    var u := db.users[collaboratorId];
    var hasLiked := userId in Likers(u.stats);
    db.users := db.users[collaboratorId := u.(stats := Some(ProfileLikeStats(u.stats, userId)))];
    r := Ok(!hasLiked);
  }

  /** The answer of likeProfile is whether the user is a liker afterwards. */
  lemma LikeProfileAnswers(s: Option<Stats>, userId: Id)
    ensures userId in Likers(Some(ProfileLikeStats(s, userId))) <==> userId !in Likers(s)
  {
  }

  /**
   * getCurrentUser: nothing when no identity is attached to the request, otherwise the user whose
   * e-mail is the argument, if any; the lookup fails when several users share the e-mail.
   */
  function GetCurrentUser(users: map<Id, User>, bound: nat, signedIn: bool, email: string)
    : (r: Result<Option<Row<User>>>)
    ensures !signedIn ==> r == Ok(None)
    ensures r.Ok? && r.value.Some? ==> InTable(users, r.value.value) && r.value.value.doc.email == email
    ensures r.Err? ==> r.error == NotUnique
  {
    if !signedIn then Ok(None) else UniqueByEmail(users, bound, email)
  }

  /** With one user per e-mail a signed-in lookup succeeds and finds the user who has the e-mail. */
  lemma CurrentUserFound(users: map<Id, User>, bound: nat, email: string, id: Id)
    requires EmailsUnique(users) && KeysBelow(users, bound)
    requires id in users && users[id].email == email
    ensures GetCurrentUser(users, bound, true, email) == Ok(Some(Row(id, users[id])))
  {
    UniqueEmailLookup(users, bound, email);
  }

  /** The fields updateUser may change; an absent argument leaves its field as it was. */
  datatype UserPatch = UserPatch(
    name: Option<string>,
    bio: Option<string>,
    imageUrl: Option<string>,
    github: Option<string>,
    linkedin: Option<string>)

  function ApplyUser(u: User, p: UserPatch): (u': User)
    ensures u'.(name := u.name, bio := u.bio, imageUrl := u.imageUrl, github := u.github, linkedin := u.linkedin) == u
    ensures p.name.Some? ==> u'.name == p.name.value
    ensures p.name.None? ==> u'.name == u.name
    ensures p.bio.Some? ==> u'.bio == p.bio
    ensures p.bio.None? ==> u'.bio == u.bio
    ensures p.imageUrl.Some? ==> u'.imageUrl == p.imageUrl
    ensures p.imageUrl.None? ==> u'.imageUrl == u.imageUrl
    ensures p.github.Some? ==> u'.github == p.github
    ensures p.github.None? ==> u'.github == u.github
    ensures p.linkedin.Some? ==> u'.linkedin == p.linkedin
    ensures p.linkedin.None? ==> u'.linkedin == u.linkedin
  {
    u.(name := if p.name.Some? then p.name.value else u.name,
       bio := if p.bio.Some? then p.bio else u.bio,
       imageUrl := if p.imageUrl.Some? then p.imageUrl else u.imageUrl,
       github := if p.github.Some? then p.github else u.github,
       linkedin := if p.linkedin.Some? then p.linkedin else u.linkedin)
  }

  /** updateUser: a patch by id, which the store refuses when the id names no document. */
  method UpdateUser(db: Db, userId: Id, patch: UserPatch) returns (o: Outcome)
    modifies db`users
    ensures userId !in old(db.users) ==> o == Fail(NotFound) && db.users == old(db.users)
    ensures userId in old(db.users) ==>
      o == Pass && db.users == old(db.users)[userId := ApplyUser(old(db.users)[userId], patch)]
    ensures old(db.Valid()) ==> db.Valid()
  {
    if userId !in db.users {
      return Fail(NotFound);
    }
    db.users := db.users[userId := ApplyUser(db.users[userId], patch)];
    o := Pass;
  }

  /** deleteUser: the same deletion as auth.ts's, the store refusing an id that names no document. */
  method DeleteUser(db: Db, userId: Id) returns (o: Outcome)
    modifies db`users
    ensures userId !in old(db.users) ==> o == Fail(NotFound) && db.users == old(db.users)
    ensures userId in old(db.users) ==> o == Pass && db.users == old(db.users) - {userId}
    ensures old(db.Valid()) ==> db.Valid()
  {
    o := Auth.DeleteUser(db, userId);
  }

  predicate Everyone(u: User)
  {
    true
  }

  /** getUsers: every user, oldest first. */
  function GetUsers(users: map<Id, User>, bound: nat): (rows: seq<Row<User>>)
    ensures forall r :: r in rows ==> InTable(users, r)
    ensures Ascending(rows)
    ensures KeysBelow(users, bound) ==> |rows| == |users| && forall id :: id in users ==> Row(id, users[id]) in rows
  {
    var all := QueryAsc(users, bound, Everyone);
    assert forall id :: id in users ==> InTable(users, Row(id, users[id]));
    assert all == Filter(Collect(users, bound), Everyone);
    FilterEveryone(Collect(users, bound));
    CollectSize(users, bound);
    all
  }

  lemma {:induction false} FilterEveryone(rows: seq<Row<User>>)
    ensures Filter(rows, Everyone) == rows
  {
    if rows != [] {
      FilterEveryone(rows[1..]);
    }
  }

  /** `{ ...user.stats, online }`: the online flag set, everything else of the stats kept. */
  function WithOnline(s: Option<Stats>, online: bool): (r: Stats)
    ensures r.online == Some(online)
    ensures forall k :: Counter(r, k) == CounterOf(s, k)
    ensures Likers(Some(r)) == Likers(s)
  {
    if s.Some? then s.value.(online := Some(online)) else Stats(map[], None, Some(online))
  }

  method UpdateOnlineStatus(db: Db, userId: Id, online: bool) returns (o: Outcome)
    modifies db`users
    ensures userId !in old(db.users) ==> o == Fail(NotFound) && db.users == old(db.users)
    ensures userId in old(db.users) ==>
      var u := old(db.users)[userId];
      o == Pass && db.users == old(db.users)[userId := u.(stats := Some(WithOnline(u.stats, online)))]
    ensures old(db.Valid()) ==> db.Valid()
  {
    if userId !in db.users {
      return Fail(NotFound);
    }
    var u := db.users[userId];
    db.users := db.users[userId := u.(stats := Some(WithOnline(u.stats, online)))];
    o := Pass;
  }

  /** Setting the online flag and then liking the profile loses the flag: likeProfile rebuilds the stats. */
  lemma LikeProfileForgetsOnline(s: Option<Stats>, online: bool, userId: Id)
    ensures WithOnline(s, online).online == Some(online)
    ensures ProfileLikeStats(Some(WithOnline(s, online)), userId).online.None?
  {
  }
}
