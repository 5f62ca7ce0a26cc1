/**
 * The database the handlers reach through `ctx.db`: one table per document kind, and the
 * counter from which every insert takes its fresh id.
 */
module Store {
  import opened Base
  import opened Seqs
  import opened Records
  import opened Tables

  /** No two users share an e-mail: createUser looks a user up by e-mail before inserting. */
  predicate EmailsUnique(users: map<Id, User>)
  {
    forall a, b :: a in users && b in users && users[a].email == users[b].email ==> a == b
  }

  /** No two friendships join the same two users: sendFriendRequest refuses a second one. */
  predicate PairsUnique(fs: map<Id, Friendship>)
  {
    forall a, b :: a in fs && b in fs && Joins(fs[b], fs[a].userId1, fs[a].userId2) ==> a == b
  }

  ghost predicate GroupsWellFormed(groups: map<Id, ChatGroup>)
  {
    forall g :: g in groups ==> GroupWellFormed(groups[g])
  }

  /** No id appears twice in a like or save list: the toggles add an id only when it is absent. */
  ghost predicate LikesDistinct(posts: map<Id, Post>, blogs: map<Id, Blog>, projects: map<Id, Project>)
  {
    (forall p :: p in posts ==> Distinct(posts[p].likes))
    && (forall b :: b in blogs ==> Distinct(blogs[b].likes) && Distinct(blogs[b].saves))
    && (forall p :: p in projects ==> Distinct(projects[p].likes))
  }

  /** No project holds more than two images: both writers of `images` refuse a longer list. */
  ghost predicate ImagesBounded(projects: map<Id, Project>)
  {
    forall p :: p in projects ==> |projects[p].images| <= MaxProjectImages
  }

  predicate HasEmail(email: string, u: User)
  {
    u.email == email
  }

  /**
   * `query("users").withIndex("by_email", q => q.eq("email", email)).unique()`: no user, the one
   * user, or an error when several users share the e-mail.
   */
  function UniqueByEmail(users: map<Id, User>, bound: nat, email: string): (r: Result<Option<Row<User>>>)
    ensures r.Ok? && r.value.Some? ==> InTable(users, r.value.value) && r.value.value.doc.email == email
    ensures r.Ok? && r.value.None? && KeysBelow(users, bound) ==> forall id :: id in users ==> users[id].email != email
    ensures r.Err? ==> r.error == NotUnique
    ensures KeysBelow(users, bound) ==>
      (r.Err? <==> exists i, j :: i in users && j in users && i != j && users[i].email == email && users[j].email == email)
  {
    var found := QueryAsc(users, bound, u => HasEmail(email, u));
    SharedEmail(users, bound, email);
    if |found| == 0 then
      assert forall id :: id in users ==> InTable(users, Row(id, users[id]));
      Ok(None)
    else if |found| == 1 then (assert found[0] in found; Ok(Some(found[0])))
    else Err(NotUnique)
  }

  /** The `by_email` lookup finds several users exactly when two users share the e-mail. */
  lemma SharedEmail(users: map<Id, User>, bound: nat, email: string)
    ensures KeysBelow(users, bound) ==> (|QueryAsc(users, bound, u => HasEmail(email, u))| > 1 <==>
      exists i, j :: i in users && j in users && i != j && users[i].email == email && users[j].email == email)
  {
    var found := QueryAsc(users, bound, u => HasEmail(email, u));
    if |found| > 1 {
      FirstTwoRows(found);
      assert InTable(users, found[0]) && InTable(users, found[1]);
    }
    if KeysBelow(users, bound) && exists i, j :: i in users && j in users && i != j && users[i].email == email && users[j].email == email {
      var i, j :| i in users && j in users && i != j && users[i].email == email && users[j].email == email;
      assert InTable(users, Row(i, users[i])) && InTable(users, Row(j, users[j]));
      assert Row(i, users[i]) in found && Row(j, users[j]) in found;
    }
  }

  /** With one user per e-mail the lookup never fails, and it finds every user that has the e-mail. */
  lemma {:induction false} UniqueEmailLookup(users: map<Id, User>, bound: nat, email: string)
    requires EmailsUnique(users) && KeysBelow(users, bound)
    ensures UniqueByEmail(users, bound, email).Ok?
    ensures forall id :: id in users && users[id].email == email ==>
      UniqueByEmail(users, bound, email) == Ok(Some(Row(id, users[id])))
  {
    var found := QueryAsc(users, bound, u => HasEmail(email, u));
    if |found| > 1 {
      FirstTwoRows(found);
      assert false;
    }
    forall id | id in users && users[id].email == email
      ensures UniqueByEmail(users, bound, email) == Ok(Some(Row(id, users[id])))
    {
      assert InTable(users, Row(id, users[id]));
      assert Row(id, users[id]) in found;
    }
  }

  class Db {
    var users: map<Id, User>
    var posts: map<Id, Post>
    var blogs: map<Id, Blog>
    var projects: map<Id, Project>
    var comments: map<Id, Comment>
    var skills: map<Id, Skill>
    var reviews: map<Id, Review>
    var friendships: map<Id, Friendship>
    var messages: map<Id, Message>
    var chatGroups: map<Id, ChatGroup>
    /** The id the next insert receives, in any table. */
    var nextId: nat

    /** Every document id was handed out before `nextId`. */
    ghost predicate IdsIssued()
      reads this
    {
      KeysBelow(users, nextId) && KeysBelow(posts, nextId) && KeysBelow(blogs, nextId)
      && KeysBelow(projects, nextId) && KeysBelow(comments, nextId) && KeysBelow(skills, nextId)
      && KeysBelow(reviews, nextId) && KeysBelow(friendships, nextId) && KeysBelow(messages, nextId)
      && KeysBelow(chatGroups, nextId)
    }

    /** The invariant every handler keeps. */
    ghost predicate Valid()
      reads this
    {
      IdsIssued()
      && EmailsUnique(users)
      && PairsUnique(friendships)
      && GroupsWellFormed(chatGroups)
      && LikesDistinct(posts, blogs, projects)
      && ImagesBounded(projects)
    }

    /** An empty deployment. */
    constructor ()
      ensures users == map[] && posts == map[] && blogs == map[] && projects == map[]
      ensures comments == map[] && skills == map[] && reviews == map[] && friendships == map[]
      ensures messages == map[] && chatGroups == map[] && nextId == 0
      ensures Valid()
    {
      users, posts, blogs, projects := map[], map[], map[], map[];
      comments, skills, reviews, friendships := map[], map[], map[], map[];
      messages, chatGroups, nextId := map[], map[], 0;
    }

    /** The id `ctx.db.insert` gives the document it stores: unused in every table. */
    method FreshId() returns (id: Id)
      modifies this`nextId
      ensures id == old(nextId) && nextId == id + 1
    {
      id := nextId;
      nextId := nextId + 1;
    }
  }
}
