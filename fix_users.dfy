/**
 * The repair of convex/fix_users.ts: the same two writes as migrate, in the other order (a
 * missing `userId` first, then the stats), with the same counting of the users fully repaired.
 */
module FixUsers {
  import opened Base
  import opened Records
  import opened Tables
  import opened Store
  import opened Migration

  /** The body of fixUsers' loop for one user: `userId` if it is missing, then the stats. */
  function FixUser(id: Id, u: User, refused: Refusals): Step
  {
    if !Given(u.userId) && id in refused.userId then Step(u, false)
    else
      var withUserId := if Given(u.userId) then u else u.(userId := Some(FallbackUserId(id, u.email)));
      if id in refused.stats then Step(withUserId, false)
      else Step(withUserId.(stats := Some(SchemaStats(u.stats))), true)
  }

  /**
   * What one pass of fixUsers' loop body does: it writes only `userId` and `stats`; a refused
   * `userId` write leaves the user untouched, a refused stats write leaves the new `userId`
   * behind; the user is counted exactly when no write was refused, and is then fully repaired.
   */
  lemma FixUserEffect(id: Id, u: User, refused: Refusals)
    ensures var r := FixUser(id, u, refused);
      && r.user.(userId := u.userId, stats := u.stats) == u
      && (r.counted ==> r.user == Normalized(id, u))
      && (r.counted <==> id !in refused.stats && (Given(u.userId) || id !in refused.userId))
      && (!Given(u.userId) && id in refused.userId ==> r.user == u)
      && (!Given(u.userId) && id !in refused.userId ==> r.user.userId == Some(FallbackUserId(id, u.email)))
  {
  }

  /** The table after fixUsers: every collected user passed through the loop body. */
  function FixAll(users: map<Id, User>, bound: nat, refused: Refusals): (m: map<Id, User>)
    ensures m.Keys == users.Keys
  {
    map id | id in users :: if id < bound then FixUser(id, users[id], refused).user else users[id]
  }

  /** Whether fixUsers counts the user. */
  function FixCounts(refused: Refusals): (Id, User) -> bool
  {
    (id: Id, u: User) => FixUser(id, u, refused).counted
  }

  lemma FixAllNone(users: map<Id, User>, refused: Refusals)
    ensures FixAll(users, 0, refused) == users
  {
  }

  lemma FixAllStep(users: map<Id, User>, k: nat, refused: Refusals)
    ensures FixAll(users, k + 1, refused)
      == if k in users then FixAll(users, k, refused)[k := FixUser(k, users[k], refused).user] else FixAll(users, k, refused)
  {
  }

  /** A repair changes no e-mail, so it keeps e-mails unique. */
  lemma FixKeepsEmails(users: map<Id, User>, bound: nat, refused: Refusals)
    requires EmailsUnique(users)
    ensures EmailsUnique(FixAll(users, bound, refused))
  {
    var m := FixAll(users, bound, refused);
    forall id | id in m ensures m[id].email == users[id].email {
      FixUserEffect(id, users[id], refused);
    }
  }

  lemma FixCountStep(users: map<Id, User>, k: nat, refused: Refusals)
    ensures CountWhere(users, k + 1, FixCounts(refused))
      == CountWhere(users, k, FixCounts(refused)) + if k in users && FixUser(k, users[k], refused).counted then 1 else 0
  {
  }

  /** The `try` block of fixUsers' loop for the user `id`, whose collected document is `user`. */
  method FixOne(db: Db, id: Id, user: User, refused: Refusals) returns (counted: bool)
    requires id in db.users && db.users[id] == user
    modifies db`users
    ensures counted == FixUser(id, user, refused).counted
    ensures db.users == old(db.users)[id := FixUser(id, user, refused).user]
  {
    if !Given(user.userId) {
      if id in refused.userId {
        return false;
      }
      db.users := db.users[id := db.users[id].(userId := Some(FallbackUserId(id, user.email)))];
    }
    if id in refused.stats {
      return false;
    }
    db.users := db.users[id := db.users[id].(stats := Some(SchemaStats(user.stats)))];
    counted := true;
  }

  /** fixUsers: walks the collected users in id order and counts those for whom no write was refused. */
  method FixUsers(db: Db, refused: Refusals) returns (updatedUsers: nat)
    modifies db`users
    ensures db.users == FixAll(old(db.users), db.nextId, refused)
    ensures updatedUsers == CountWhere(old(db.users), db.nextId, FixCounts(refused))
    ensures old(db.Valid()) ==> db.Valid()
  {
    var users, n := db.users, db.nextId;
    FixAllNone(users, refused);
    updatedUsers := 0;
    var k := 0;
    while k < n
      invariant k <= n
      invariant db.users == FixAll(users, k, refused)
      invariant updatedUsers == CountWhere(users, k, FixCounts(refused))
    {
      FixCountStep(users, k, refused);
      FixAllStep(users, k, refused);
      if k in users {
        var counted := FixOne(db, k, users[k], refused);
        if counted {
          updatedUsers := updatedUsers + 1;
        }
      }
      k := k + 1;
    }
    if old(db.Valid()) {
      FixKeepsEmails(users, n, refused);
    }
  }

  /** When no write is refused the two scripts do the same to every user, and both count them. */
  lemma ScriptsAgree(id: Id, u: User)
    ensures FixUser(id, u, Refusals({}, {})) == MigrateUser(id, u, Refusals({}, {})) == Step(Normalized(id, u), true)
  {
  }

  /**
   * The order of the writes matters once one is refused: for a user without `userId` whose
   * `userId` write is refused, migrate has already rebuilt the stats, fixUsers has written
   * nothing. Neither counts the user.
   */
  lemma {:induction false} OrderMattersOnRefusal(id: Id, u: User)
    requires !Given(u.userId) && u.stats.None?
    ensures var refused := Refusals({}, {id});
      && MigrateUser(id, u, refused) == Step(u.(stats := Some(SchemaStats(None))), false)
      && FixUser(id, u, refused) == Step(u, false)
      && MigrateUser(id, u, refused).user != FixUser(id, u, refused).user
  {
    var refused := Refusals({}, {id});
    assert MigrateUser(id, u, refused).user.stats.Some?;
  }

  /** With no write refused, fixUsers counts every user. */
  lemma {:induction false} FixCountsAll(users: map<Id, User>, bound: nat)
    requires KeysBelow(users, bound)
    ensures CountWhere(users, bound, FixCounts(Refusals({}, {}))) == |users|
  {
    CountEvery(users, bound, FixCounts(Refusals({}, {})));
    CollectLength(users, bound);
  }
}
