/**
 * The handlers of convex/auth.ts: creating a user on first sign-in (found again by e-mail
 * afterwards), the profile and role updates, and the three permission helpers the other
 * handlers were meant to share.
 */
module Auth {
  import opened Base
  import opened Records
  import opened Roles
  import opened Tables
  import opened Store

  /** The stats a new user starts with: the six schema counters at zero and nobody in `likedBy`. */
  function FreshStats(): (s: Stats)
    ensures forall k :: Counter(s, k) == 0
    ensures s.counters.Keys == SchemaCounterKeys && s.likedBy == Some([]) && s.online.None?
  {
    Stats(map k | k in SchemaCounterKeys :: 0, Some([]), None)
  }

  /** The document createUser inserts: role "user", the e-mail copied into `userId`, fresh stats. */
  function NewUser(name: string, email: string, image: Option<string>): User
  {
    User(name, email, image, None, None, None, None, None, "user", Some(email), Some(FreshStats()))
  }

  /**
   * createUser: the id of the user who already has the e-mail, otherwise the id of a new user
   * with role "user". The lookup fails when several users share the e-mail.
   */
  method CreateUser(db: Db, name: string, email: string, image: Option<string>) returns (r: Result<Id>)
    modifies db`users, db`nextId
    ensures var found := UniqueByEmail(old(db.users), old(db.nextId), email);
      && (found.Err? ==> r == Err(NotUnique) && db.users == old(db.users) && db.nextId == old(db.nextId))
      && (found == Ok(None) ==>
            r == Ok(old(db.nextId)) && db.nextId == old(db.nextId) + 1
            && db.users == old(db.users)[r.value := NewUser(name, email, image)])
      && (found.Ok? && found.value.Some? ==>
            r == Ok(found.value.value.id) && db.users == old(db.users) && db.nextId == old(db.nextId))
    ensures old(db.Valid()) ==> db.Valid()
  {
    var found := UniqueByEmail(db.users, db.nextId, email);
    if found.Err? {
      return Err(NotUnique);
    }
    if found.value.Some? {
      return Ok(found.value.value.id);
    }
    var id := db.FreshId();
    db.users := db.users[id := NewUser(name, email, image)];
    r := Ok(id);
  }

  /**
   * After createUser has inserted a user, a second call with the same e-mail finds that user:
   * createUser is idempotent.
   */
  lemma {:induction false} CreateUserTwice(users: map<Id, User>, bound: nat, name: string, email: string, image: Option<string>)
    requires EmailsUnique(users) && KeysBelow(users, bound)
    requires UniqueByEmail(users, bound, email) == Ok(None)
    ensures var users' := users[bound := NewUser(name, email, image)];
      UniqueByEmail(users', bound + 1, email) == Ok(Some(Row(bound, NewUser(name, email, image))))
  {
    var users' := users[bound := NewUser(name, email, image)];
    assert EmailsUnique(users');
    UniqueEmailLookup(users', bound + 1, email);
  }

  /** The fields updateUserProfile may change; an absent argument leaves its field as it was. */
  datatype ProfilePatch = ProfilePatch(
    name: Option<string>,
    bio: Option<string>,
    image: Option<string>,
    socialLinks: Option<SocialLinks>)

  function ApplyProfile(u: User, p: ProfilePatch): (u': User)
    ensures u'.(name := u.name, bio := u.bio, image := u.image, socialLinks := u.socialLinks) == u
    ensures p.name.Some? ==> u'.name == p.name.value
    ensures p.name.None? ==> u'.name == u.name
    ensures p.bio.Some? ==> u'.bio == p.bio
    ensures p.bio.None? ==> u'.bio == u.bio
    ensures p.image.Some? ==> u'.image == p.image
    ensures p.image.None? ==> u'.image == u.image
    ensures p.socialLinks.Some? ==> u'.socialLinks == p.socialLinks
    ensures p.socialLinks.None? ==> u'.socialLinks == u.socialLinks
  {
    u.(name := if p.name.Some? then p.name.value else u.name,
       bio := if p.bio.Some? then p.bio else u.bio,
       image := if p.image.Some? then p.image else u.image,
       socialLinks := if p.socialLinks.Some? then p.socialLinks else u.socialLinks)
  }

  method UpdateUserProfile(db: Db, userId: Id, patch: ProfilePatch) returns (r: Result<Id>)
    modifies db`users
    ensures userId !in old(db.users) ==> r == Err(NotFound) && db.users == old(db.users)
    ensures userId in old(db.users) ==>
      r == Ok(userId) && db.users == old(db.users)[userId := ApplyProfile(old(db.users)[userId], patch)]
    ensures old(db.Valid()) ==> db.Valid()
  {
    if userId !in db.users {
      return Err(NotFound);
    }
    db.users := db.users[userId := ApplyProfile(db.users[userId], patch)];
    r := Ok(userId);
  }

  method DeleteUser(db: Db, userId: Id) returns (o: Outcome)
    modifies db`users
    ensures userId !in old(db.users) ==> o == Fail(NotFound) && db.users == old(db.users)
    ensures userId in old(db.users) ==> o == Pass && db.users == old(db.users) - {userId}
    ensures old(db.Valid()) ==> db.Valid()
  {
    if userId !in db.users {
      return Fail(NotFound);
    }
    db.users := db.users - {userId};
    o := Pass;
  }

  /** The roles updateUserRole accepts. */
  datatype AssignableRole = UserRole | ColabRole | AdminRole

  function RoleName(r: AssignableRole): (name: Role)
    ensures IsColabOrAdmin(name) <==> r != UserRole
    ensures IsAdmin(name) <==> r == AdminRole
  {
    match r
    case UserRole => "user"
    case ColabRole => "colab"
    case AdminRole => "admin"
  }

  /**
   * updateUserRole: the acting user must exist and be an admin (a missing admin gets the same
   * error as a non-admin), then the target must exist.
   */
  method UpdateUserRole(db: Db, userId: Id, newRole: AssignableRole, adminId: Id) returns (o: Outcome)
    modifies db`users
    ensures adminId !in old(db.users) || !IsAdmin(old(db.users)[adminId].role) ==>
      o == Fail(PermissionDenied) && db.users == old(db.users)
    ensures adminId in old(db.users) && IsAdmin(old(db.users)[adminId].role) && userId !in old(db.users) ==>
      o == Fail(NotFound) && db.users == old(db.users)
    ensures adminId in old(db.users) && IsAdmin(old(db.users)[adminId].role) && userId in old(db.users) ==>
      o == Pass && db.users == old(db.users)[userId := old(db.users)[userId].(role := RoleName(newRole))]
    ensures old(db.Valid()) ==> db.Valid()
  {
    if adminId !in db.users || !IsAdmin(db.users[adminId].role) {
      return Fail(PermissionDenied);
    }
    if userId !in db.users {
      return Fail(NotFound);
    }
    db.users := db.users[userId := db.users[userId].(role := RoleName(newRole))];
    o := Pass;
  }

  /** checkUserExists: the document, or NotFound. */
  function CheckUserExists(users: map<Id, User>, userId: Id): (r: Result<User>)
    ensures r.Ok? <==> userId in users
    ensures r.Ok? ==> r.value == users[userId]
    ensures r.Err? ==> r.error == NotFound
  {
    if userId !in users then Err(NotFound) else Ok(users[userId])
  }

  /** checkIsColab: the document of an existing "colab" or "admin"; NotFound before PermissionDenied. */
  function CheckIsColab(users: map<Id, User>, userId: Id): (r: Result<User>)
    ensures r.Ok? <==> userId in users && IsColabOrAdmin(users[userId].role)
    ensures r.Ok? ==> r.value == users[userId]
    ensures userId !in users ==> r == Err(NotFound)
    ensures userId in users && !IsColabOrAdmin(users[userId].role) ==> r == Err(PermissionDenied)
  {
    var u := CheckUserExists(users, userId);
    if u.Err? then u
    else if !IsColabOrAdmin(u.value.role) then Err(PermissionDenied)
    else u
  }

  /** checkIsAdmin: the document of an existing admin; NotFound before PermissionDenied. */
  function CheckIsAdmin(users: map<Id, User>, userId: Id): (r: Result<User>)
    ensures r.Ok? <==> userId in users && IsAdmin(users[userId].role)
    ensures r.Ok? ==> r.value == users[userId]
    ensures userId !in users ==> r == Err(NotFound)
    ensures userId in users && !IsAdmin(users[userId].role) ==> r == Err(PermissionDenied)
  {
    var u := CheckUserExists(users, userId);
    if u.Err? then u
    else if !IsAdmin(u.value.role) then Err(PermissionDenied)
    else u
  }

  /** The helpers are ordered: whoever passes checkIsAdmin passes checkIsColab and checkUserExists. */
  lemma CheckIsAdminIsStrongest(users: map<Id, User>, userId: Id)
    ensures CheckIsAdmin(users, userId).Ok? ==> CheckIsColab(users, userId) == CheckIsAdmin(users, userId)
    ensures CheckIsColab(users, userId).Ok? ==> CheckUserExists(users, userId) == CheckIsColab(users, userId)
  {
  }

  /**
   * A role set by updateUserRole is what the helpers then see: a user made "colab" passes
   * checkIsColab and fails checkIsAdmin, a user made "user" fails both.
   */
  lemma RoleUpdateGovernsChecks(users: map<Id, User>, userId: Id, newRole: AssignableRole)
    requires userId in users
    ensures var users' := users[userId := users[userId].(role := RoleName(newRole))];
      && (CheckIsColab(users', userId).Ok? <==> newRole != UserRole)
      && (CheckIsAdmin(users', userId).Ok? <==> newRole == AdminRole)
  {
  }
}
