/**
 * The handlers of convex/reviews.ts: listing the reviews, two ways of inserting one (an
 * unchecked insert, and one whose author is the session user found by e-mail), and the repair
 * that gives every review without a target name a placeholder.
 */
module Reviews {
  import opened Base
  import opened Records
  import opened Tables
  import opened Store
  import Social

  /**
   * create: inserts the arguments as they come, stamped `now`, as a review of a user; nothing is
   * checked, neither the author nor the rating.
   */
  method Create(
    db: Db, content: string, rating: real, targetId: Option<string>, targetName: string,
    userId: string, userName: string, userImage: string, now: string)
    returns (id: Id)
    modifies db`reviews, db`nextId
    ensures id == old(db.nextId) && db.nextId == id + 1
    ensures db.reviews == old(db.reviews)[id := Review(userId, userName, userImage, content, rating, targetId, Some(targetName), now, false)]
    ensures old(db.Valid()) ==> db.Valid()
  {
    id := db.FreshId();
    db.reviews := db.reviews[id := Review(userId, userName, userImage, content, rating, targetId, Some(targetName), now, false)];
  }

  /**
   * The author lookup of add: the session must carry an e-mail, and exactly one user must have
   * it; a lookup that meets several users fails as `.unique()` does.
   */
  function ReviewAuthor(users: map<Id, User>, bound: nat, email: string): (r: Result<Row<User>>)
    ensures email == "" ==> r == Err(Unauthenticated)
    ensures r.Ok? ==> email != "" && InTable(users, r.value) && r.value.doc.email == email
    ensures r.Err? ==> r.error in {Unauthenticated, NotUnique, NotFound}
    ensures email != "" && KeysBelow(users, bound) && r == Err(NotFound) ==> forall id :: id in users ==> users[id].email != email
  {
    if email == "" then Err(Unauthenticated)
    else
      var found := UniqueByEmail(users, bound, email);
      if found.Err? then Err(NotUnique)
      else if found.value.None? then Err(NotFound)
      else Ok(found.value.value)
  }

  /** With one user per e-mail, add finds the session user whenever some user has the e-mail. */
  lemma {:induction false} ReviewAuthorKnown(users: map<Id, User>, bound: nat, email: string, id: Id)
    requires EmailsUnique(users) && KeysBelow(users, bound)
    requires email != "" && id in users && users[id].email == email
    ensures ReviewAuthor(users, bound, email) == Ok(Row(id, users[id]))
  {
    UniqueEmailLookup(users, bound, email);
  }

  /** The review add stores: a snapshot of the author, the target as given, `isAppReview` when the target type is "app". */
  function AddedReview(author: Row<User>, content: string, rating: real, targetType: string,
                       targetId: Option<string>, targetName: string, now: string): (r: Review)
    ensures r.userId == IdText(author.id) && r.userName == author.doc.name
    ensures r.isAppReview <==> targetType == "app"
    ensures r.targetName == Some(targetName) && r.targetId == targetId
  {
    Review(IdText(author.id), author.doc.name, Social.OrEmpty(author.doc.imageUrl), content, rating,
           targetId, Some(targetName), now, targetType == "app")
  }

  /** add: the author's checks, then the insert. The rating is not checked. */
  method Add(
    db: Db, content: string, rating: real, targetType: string, targetId: Option<string>,
    targetName: string, sessionEmail: string, now: string)
    returns (r: Result<Id>)
    modifies db`reviews, db`nextId
    ensures var author := ReviewAuthor(old(db.users), old(db.nextId), sessionEmail);
      && (author.Err? ==> r == Err(author.error) && db.reviews == old(db.reviews) && db.nextId == old(db.nextId))
      && (author.Ok? ==>
            r == Ok(old(db.nextId)) && db.nextId == old(db.nextId) + 1
            && db.reviews == old(db.reviews)[r.value := AddedReview(author.value, content, rating, targetType, targetId, targetName, now)])
    ensures old(db.Valid()) ==> db.Valid()
  {
    var author := ReviewAuthor(db.users, db.nextId, sessionEmail);
    if author.Err? {
      return Err(author.error);
    }
    var id := db.FreshId();
    db.reviews := db.reviews[id := AddedReview(author.value, content, rating, targetType, targetId, targetName, now)];
    r := Ok(id);
  }

  /** A review add stores is listed by social.ts: with the application reviews when its type is "app", otherwise with the others. */
  lemma {:induction false} AddedReviewListed(reviews: map<Id, Review>, bound: nat, r: Review)
    requires KeysBelow(reviews, bound)
    ensures var reviews' := reviews[bound := r];
      && (r.isAppReview ==> Row(bound, r) in Social.GetAppReviews(reviews', bound + 1, None))
      && (!r.isAppReview ==> Row(bound, r) in Social.GetCollaboratorReviews(reviews', bound + 1, None))
  {
    var reviews' := reviews[bound := r];
    assert KeysBelow(reviews', bound + 1);
  }

  /** The target name fixMissingTargetName writes for a review of the given kind. */
  function PlaceholderName(isAppReview: bool): string
  {
    if isAppReview then "Webify" else "Utilisateur"
  }

  /**
   * One review as fixMissingTargetName leaves it: a missing or empty target name replaced by the
   * placeholder of its kind, everything else unchanged.
   */
  function Fixed(r: Review): (r': Review)
    ensures Given(r'.targetName)
    ensures r'.(targetName := r.targetName) == r
    ensures Given(r.targetName) ==> r' == r
    ensures !Given(r.targetName) ==> r'.targetName == Some(if r.isAppReview then "Webify" else "Utilisateur")
  {
    if Given(r.targetName) then r else r.(targetName := Some(PlaceholderName(r.isAppReview)))
  }

  /** The table after fixMissingTargetName: every collected review fixed. */
  function FixAll(reviews: map<Id, Review>, bound: nat): (m: map<Id, Review>)
    ensures m.Keys == reviews.Keys
  {
    map id | id in reviews :: if id < bound then Fixed(reviews[id]) else reviews[id]
  }

  /** Before the loop no review has been through it. */
  lemma FixAllNone(reviews: map<Id, Review>)
    ensures FixAll(reviews, 0) == reviews
  {
  }

  /** One more pass of the loop fixes the next review, if there is one. */
  lemma FixAllStep(reviews: map<Id, Review>, k: nat)
    ensures FixAll(reviews, k + 1) == if k in reviews then FixAll(reviews, k)[k := Fixed(reviews[k])] else FixAll(reviews, k)
  {
  }

  /**
   * fixMissingTargetName: walks the collected reviews (in id order, which is the order `collect`
   * returns them in) and patches each one without a target name.
   */
  method FixMissingTargetName(db: Db) returns (success: bool)
    modifies db`reviews
    ensures success
    ensures db.reviews == FixAll(old(db.reviews), db.nextId)
    ensures old(db.Valid()) ==> db.Valid()
  {
    var reviews, n := db.reviews, db.nextId;
    FixAllNone(reviews);
    var k := 0;
    while k < n
      invariant k <= n
      invariant db.reviews == FixAll(reviews, k)
    {
      FixAllStep(reviews, k);
      if k in reviews && !Given(reviews[k].targetName) {
        db.reviews := db.reviews[k := reviews[k].(targetName := Some(PlaceholderName(reviews[k].isAppReview)))];
      }
      k := k + 1;
    }
    success := true;
  }

  /** After the repair every review of the table has a target name. */
  lemma FixAllComplete(reviews: map<Id, Review>, bound: nat)
    requires KeysBelow(reviews, bound)
    ensures forall id :: id in FixAll(reviews, bound) ==> Given(FixAll(reviews, bound)[id].targetName)
  {
  }

  /** Running the repair twice changes nothing more than running it once. */
  lemma FixAllIdempotent(reviews: map<Id, Review>, bound: nat)
    ensures FixAll(FixAll(reviews, bound), bound) == FixAll(reviews, bound)
  {
  }
}
