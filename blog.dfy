/**
 * The handlers of convex/blog.ts: an older way of writing a blog entry, stored as a post, whose
 * author is the signed-in identity and must be an "admin" or a "collaborator".
 */
module Blog {
  import opened Base
  import opened Records
  import opened Roles
  import opened Tables
  import opened Store
  import Auth

  /** An identity string names at most one id: the one whose decimal rendering it is. */
  lemma SubjectNamesOne(subject: string)
    ensures forall id: Id :: IdText(id) == subject ==> id == DecimalValue(subject)
  {
    forall id: Id | IdText(id) == subject ensures id == DecimalValue(subject) {
      IdTextRoundTrip(id);
    }
  }

  /** `query("users").filter(_id == subject).first()`: the user whose id renders as the subject, if any. */
  function UserBySubject(users: map<Id, User>, subject: string): (r: Option<Id>)
    ensures r.Some? ==> r.value in users && IdText(r.value) == subject
    ensures r.None? ==> forall id :: id in users ==> IdText(id) != subject
  {
    SubjectNamesOne(subject);
    var id := DecimalValue(subject);
    if id in users && IdText(id) == subject then Some(id) else None
  }

  /**
   * The checks of create: a signed-in identity, naming an existing user whose role is "admin" or
   * "collaborator". Every failure raises the same "not authorised" error.
   */
  function WriterGate(users: map<Id, User>, identity: Option<string>): (r: Result<Id>)
    ensures identity.None? ==> r.Err?
    ensures identity.Some? ==>
      (r.Ok? <==> var u := UserBySubject(users, identity.value); u.Some? && IsBlogWriter(users[u.value].role))
    ensures r.Ok? ==> r.value in users && IdText(r.value) == identity.value && IsBlogWriter(users[r.value].role)
    ensures r.Err? ==> r.error == PermissionDenied
  {
    if identity.None? then Err(PermissionDenied)
    else
      var user := UserBySubject(users, identity.value);
      if user.None? || !IsBlogWriter(users[user.value].role) then Err(PermissionDenied)
      else Ok(user.value)
  }

  /** The post create stores: published at once, with no likes, comments, shares or saves. */
  function BlogPost(authorId: Id, title: string, content: string, image: string, tags: seq<string>, now: string): (p: Post)
    ensures p.authorId == authorId && p.isPublished
    ensures p.likes == [] && p.comments == [] && p.shares == 0 && p.saves == Some([])
  {
    Post(authorId, Some(title), content, Some(image), Some(tags), [], [], 0, Some([]), true, Some(now))
  }

  method Create(db: Db, identity: Option<string>, title: string, content: string, image: string, tags: seq<string>, now: string)
    returns (r: Result<Id>)
    modifies db`posts, db`nextId
    ensures var gate := WriterGate(old(db.users), identity);
      && (gate.Err? ==> r == Err(gate.error) && db.posts == old(db.posts) && db.nextId == old(db.nextId))
      && (gate.Ok? ==>
            r == Ok(old(db.nextId)) && db.nextId == old(db.nextId) + 1
            && db.posts == old(db.posts)[r.value := BlogPost(gate.value, title, content, image, tags, now)])
    ensures old(db.Valid()) ==> db.Valid()
  {
    var gate := WriterGate(db.users, identity);
    if gate.Err? {
      return Err(gate.error);
    }
    var id := db.FreshId();
    db.posts := db.posts[id := BlogPost(gate.value, title, content, image, tags, now)];
    r := Ok(id);
  }

  /** An existing "admin" or "collaborator" signed in under their own id passes, as that user. */
  lemma {:induction false} WriterSignedIn(users: map<Id, User>, id: Id)
    requires id in users && IsBlogWriter(users[id].role)
    ensures WriterGate(users, Some(IdText(id))) == Ok(id)
  {
    var u := UserBySubject(users, IdText(id));
    if u.Some? {
      IdTextInjective(u.value, id);
    }
  }

  /** A user createUser has just made has the role "user", so create refuses them. */
  lemma {:induction false} NewUserCannotWrite(users: map<Id, User>, id: Id, name: string, email: string, image: Option<string>)
    ensures WriterGate(users[id := Auth.NewUser(name, email, image)], Some(IdText(id))) == Err(PermissionDenied)
  {
    var users' := users[id := Auth.NewUser(name, email, image)];
    var gate := WriterGate(users', Some(IdText(id)));
    if gate.Ok? {
      IdTextInjective(gate.value, id);
      assert false;
    }
  }
}
