/**
 * The one-off repair of convex/migrate.ts: every user's stats rebuilt to the schema's shape and
 * a missing `userId` filled in, one user at a time, counting the users fully repaired. A write
 * the store refuses raises an error, which the loop catches: that user is not counted, and the
 * writes made for them before the error stay.
 */
module Migration {
  import opened Base
  import opened Records
  import opened Tables
  import opened Store

  /**
   * The stats both repair scripts write: the schema's six counters, each read through `|| 0`,
   * the profile's likers (an empty list when there were none), and no online flag.
   */
  function SchemaStats(s: Option<Stats>): (r: Stats)
    ensures r.counters.Keys == SchemaCounterKeys
    ensures forall k :: Counter(r, k) == if k in SchemaCounterKeys then CounterOf(s, k) else 0
    ensures r.likedBy == Some(Likers(s)) && r.online.None?
  {
    Stats(SchemaCounters(s), Some(Likers(s)), None)
  }

  /** `user.email || \`user-${user._id}\``: never empty. */
  function FallbackUserId(id: Id, email: string): (u: string)
    ensures u != ""
    ensures email != "" ==> u == email
    ensures email == "" ==> u == "user-" + IdText(id)
  {
    if email != "" then email else "user-" + IdText(id)
  }

  /** The user as a repair leaves them when no write is refused. */
  function Normalized(id: Id, u: User): (u': User)
    ensures Given(u'.userId)
    ensures Given(u.userId) ==> u'.userId == u.userId
    ensures u'.stats == Some(SchemaStats(u.stats))
    ensures u'.(userId := u.userId, stats := u.stats) == u
  {
    u.(userId := if Given(u.userId) then u.userId else Some(FallbackUserId(id, u.email)),
       stats := Some(SchemaStats(u.stats)))
  }

  /** Rebuilding stats that already have the schema's shape gives them back unchanged. */
  lemma SchemaStatsIdempotent(s: Option<Stats>)
    ensures SchemaStats(Some(SchemaStats(s))) == SchemaStats(s)
  {
    assert SchemaCounters(Some(SchemaStats(s))) == SchemaCounters(s);
  }

  /** A repaired user needs no further repair. */
  lemma {:induction false} NormalizedIdempotent(id: Id, u: User)
    ensures Normalized(id, Normalized(id, u)) == Normalized(id, u)
  {
    SchemaStatsIdempotent(u.stats);
  }

  /**
   * The writes the store refuses, by user: the write of the stats, and the write of `userId`.
   * The store checks every write against the schema (a document without a `password` fails it,
   * for one), which this model does not decide: the refusals are an input.
   */
  datatype Refusals = Refusals(stats: set<Id>, userId: set<Id>)

  /** One pass of a loop body: the user as left, and whether the user was counted. */
  datatype Step = Step(user: User, counted: bool)

  /** The body of migrate's loop for one user: the stats first, then `userId` if it is missing. */
  function MigrateUser(id: Id, u: User, refused: Refusals): Step
  {
    if id in refused.stats then Step(u, false)
    else
      var withStats := u.(stats := Some(SchemaStats(u.stats)));
      if Given(u.userId) then Step(withStats, true)
      else if id in refused.userId then Step(withStats, false)
      else Step(withStats.(userId := Some(FallbackUserId(id, u.email))), true)
  }

  /**
   * What one pass of migrate's loop body does: it writes only `stats` and `userId`; a refused
   * stats write leaves the user untouched, a refused `userId` write leaves the new stats behind;
   * the user is counted exactly when no write was refused, and is then fully repaired.
   */
  lemma MigrateUserEffect(id: Id, u: User, refused: Refusals)
    ensures var r := MigrateUser(id, u, refused);
      && r.user.(userId := u.userId, stats := u.stats) == u
      && (r.counted ==> r.user == Normalized(id, u))
      && (r.counted <==> id !in refused.stats && (Given(u.userId) || id !in refused.userId))
      && (id in refused.stats ==> r.user == u)
      && (id !in refused.stats ==> r.user.stats == Some(SchemaStats(u.stats)))
  {
  }

  /** The table after migrate: every collected user passed through the loop body. */
  function MigrateAll(users: map<Id, User>, bound: nat, refused: Refusals): (m: map<Id, User>)
    ensures m.Keys == users.Keys
  {
    map id | id in users :: if id < bound then MigrateUser(id, users[id], refused).user else users[id]
  }

  /** Whether migrate counts the user. */
  function MigrateCounts(refused: Refusals): (Id, User) -> bool
  {
    (id: Id, u: User) => MigrateUser(id, u, refused).counted
  }

  /** The number of users below `k` that `ok` counts. */
  function CountWhere(users: map<Id, User>, k: nat, ok: (Id, User) -> bool): (n: nat)
    ensures n <= |Collect(users, k)|
  {
    if k == 0 then 0
    else CountWhere(users, k - 1, ok) + (if k - 1 in users && ok(k - 1, users[k - 1]) then 1 else 0)
  }

  /** When every user is counted, the count is the number of users collected. */
  lemma {:induction false} CountEvery(users: map<Id, User>, k: nat, ok: (Id, User) -> bool)
    requires forall id, u :: ok(id, u)
    ensures CountWhere(users, k, ok) == |Collect(users, k)|
  {
    if k > 0 {
      CountEvery(users, k - 1, ok);
    }
  }

  /** Before the loop no user has been through it. */
  lemma MigrateAllNone(users: map<Id, User>, refused: Refusals)
    ensures MigrateAll(users, 0, refused) == users
  {
  }

  /** One more pass of the loop replaces the next user, if there is one, by what the body leaves. */
  lemma MigrateAllStep(users: map<Id, User>, k: nat, refused: Refusals)
    ensures MigrateAll(users, k + 1, refused)
      == if k in users then MigrateAll(users, k, refused)[k := MigrateUser(k, users[k], refused).user] else MigrateAll(users, k, refused)
  {
  }

  /** One more collected user adds one to migrate's count exactly when the loop body counts them. */
  lemma MigrateCountStep(users: map<Id, User>, k: nat, refused: Refusals)
    ensures CountWhere(users, k + 1, MigrateCounts(refused))
      == CountWhere(users, k, MigrateCounts(refused)) + if k in users && MigrateUser(k, users[k], refused).counted then 1 else 0
  {
  }

  /**
   * migrate: walks the collected users (in id order, which is the order `collect` returns them
   * in), makes the writes of the loop body, and counts the users for whom no write was refused.
   */
  method Migrate(db: Db, refused: Refusals) returns (updatedUsers: nat)
    modifies db`users
    ensures db.users == MigrateAll(old(db.users), db.nextId, refused)
    ensures updatedUsers == CountWhere(old(db.users), db.nextId, MigrateCounts(refused))
    ensures old(db.Valid()) ==> db.Valid()
  {
    var users, n := db.users, db.nextId;
    MigrateAllNone(users, refused);
    updatedUsers := 0;
    var k := 0;
    while k < n
      invariant k <= n
      invariant db.users == MigrateAll(users, k, refused)
      invariant updatedUsers == CountWhere(users, k, MigrateCounts(refused))
    {
      MigrateCountStep(users, k, refused);
      MigrateAllStep(users, k, refused);
      if k in users {
        var counted := MigrateOne(db, k, users[k], refused);
        if counted {
          updatedUsers := updatedUsers + 1;
        }
      }
      k := k + 1;
    }
    if old(db.Valid()) {
      MigrateKeepsEmails(users, n, refused);
    }
  }

  /**
   * The `try` block of migrate's loop for the user `id`, whose collected document is `user`:
   * the writes made before a refused one stay, and the user is counted only when none is refused.
   */
  method MigrateOne(db: Db, id: Id, user: User, refused: Refusals) returns (counted: bool)
    requires id in db.users && db.users[id] == user
    modifies db`users
    ensures counted == MigrateUser(id, user, refused).counted
    ensures db.users == old(db.users)[id := MigrateUser(id, user, refused).user]
  {
    if id in refused.stats {
      return false;
    }
    db.users := db.users[id := db.users[id].(stats := Some(SchemaStats(user.stats)))];
    if !Given(user.userId) {
      if id in refused.userId {
        return false;
      }
      db.users := db.users[id := db.users[id].(userId := Some(FallbackUserId(id, user.email)))];
    }
    counted := true;
  }

  /** With no write refused, migrate repairs every user and counts them all. */
  lemma {:induction false} MigrateCountsAll(users: map<Id, User>, bound: nat)
    requires KeysBelow(users, bound)
    ensures CountWhere(users, bound, MigrateCounts(Refusals({}, {}))) == |users|
    ensures forall id :: id in users ==> MigrateAll(users, bound, Refusals({}, {}))[id] == Normalized(id, users[id])
  {
    CountEvery(users, bound, MigrateCounts(Refusals({}, {})));
    CollectLength(users, bound);
  }

  /** A repair changes no e-mail, so it keeps e-mails unique. */
  lemma MigrateKeepsEmails(users: map<Id, User>, bound: nat, refused: Refusals)
    requires EmailsUnique(users)
    ensures EmailsUnique(MigrateAll(users, bound, refused))
  {
    var m := MigrateAll(users, bound, refused);
    forall id | id in m ensures m[id].email == users[id].email {
      MigrateUserEffect(id, users[id], refused);
    }
  }
}
