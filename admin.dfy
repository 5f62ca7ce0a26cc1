/**
 * The dashboard queries of convex/admin.ts: global and per-user totals, the activity ranking and
 * the collaborator ranking. Every query first passes checkIsAdmin. Ratings are exact reals, so the
 * averages are the exact quotients rather than floating-point ones.
 */
module Admin {
  import opened Base
  import opened Records
  import opened Tables
  import opened Auth

  // ---- totals ----

  function PostLikes(p: Post): nat { |p.likes| }
  function PostComments(p: Post): nat { |p.comments| }
  function PostShares(p: Post): nat { p.shares }
  function ProjectLikes(p: Project): nat { |p.likes| }
  function ProjectComments(p: Project): nat { |p.comments| }
  function BlogLikes(b: Blog): nat { |b.likes| }
  function BlogComments(b: Blog): nat { |b.comments| }
  function BlogShares(b: Blog): nat { b.shares }

  /** The totals reported for posts or blogs: how many, and the summed likes, comments and shares. */
  datatype ContentTotals = ContentTotals(total: nat, likes: nat, comments: nat, shares: nat)

  /** The totals reported for projects, which have no shares. */
  datatype ProjectTotals = ProjectTotals(total: nat, likes: nat, comments: nat)

  function PostTotals(rows: seq<Row<Post>>): ContentTotals
  {
    ContentTotals(|rows|, SumOf(rows, PostLikes), SumOf(rows, PostComments), SumOf(rows, PostShares))
  }

  function ProjectTotalsOf(rows: seq<Row<Project>>): ProjectTotals
  {
    ProjectTotals(|rows|, SumOf(rows, ProjectLikes), SumOf(rows, ProjectComments))
  }

  function BlogTotals(rows: seq<Row<Blog>>): ContentTotals
  {
    ContentTotals(|rows|, SumOf(rows, BlogLikes), SumOf(rows, BlogComments), SumOf(rows, BlogShares))
  }

  /** `rows.reduce((acc, r) => acc + r.rating, 0)`. */
  function RatingSum(rows: seq<Row<Review>>): real
  {
    if rows == [] then 0.0 else rows[0].doc.rating + RatingSum(rows[1..])
  }

  /** `sum / (count || 1)`: the mean rating, 0 when there is no review. */
  function Average(rows: seq<Row<Review>>): (a: real)
    ensures rows == [] ==> a == 0.0
  {
    RatingSum(rows) / (if |rows| == 0 then 1 else |rows|) as real
  }

  /** With every rating between 0 and 5, as createReview enforces, the mean lies between 0 and 5. */
  lemma {:induction false} AverageBounded(rows: seq<Row<Review>>)
    requires forall i :: 0 <= i < |rows| ==> 0.0 <= rows[i].doc.rating <= 5.0
    ensures 0.0 <= Average(rows) <= 5.0
  {
    SumBounded(rows);
  }

  lemma {:induction false} SumBounded(rows: seq<Row<Review>>)
    requires forall i :: 0 <= i < |rows| ==> 0.0 <= rows[i].doc.rating <= 5.0
    ensures 0.0 <= RatingSum(rows) <= 5.0 * |rows| as real
  {
    if rows != [] {
      SumBounded(rows[1..]);
    }
  }

  predicate IsColab(u: User) { u.role == "colab" }
  predicate IsAdminUser(u: User) { u.role == "admin" }
  predicate IsAppReview(r: Review) { r.isAppReview }

  datatype UserCounts = UserCounts(total: nat, colabs: nat, admins: nat)
  datatype ReviewTotals = ReviewTotals(total: nat, appReviews: nat, averageAppRating: real)

  datatype GlobalStats = GlobalStats(
    users: UserCounts,
    posts: ContentTotals,
    projects: ProjectTotals,
    blogs: ContentTotals,
    reviews: ReviewTotals)

  /** The tables the dashboard reads, with the store's next id. */
  datatype Snapshot = Snapshot(
    users: map<Id, User>,
    posts: map<Id, Post>,
    projects: map<Id, Project>,
    blogs: map<Id, Blog>,
    reviews: map<Id, Review>,
    bound: nat)

  predicate Issued(s: Snapshot)
  {
    KeysBelow(s.users, s.bound) && KeysBelow(s.posts, s.bound) && KeysBelow(s.projects, s.bound)
    && KeysBelow(s.blogs, s.bound) && KeysBelow(s.reviews, s.bound)
  }

  /**
   * getGlobalStats: refused unless the caller passes checkIsAdmin; otherwise the number of users
   * (and of those whose role is exactly "colab" or "admin"), the totals of every content table,
   * and the number and mean rating of application reviews.
   */
  function GetGlobalStats(s: Snapshot, adminId: Id): (r: Result<GlobalStats>)
    ensures r.Err? <==> CheckIsAdmin(s.users, adminId).Err?
    ensures r.Err? ==> r.error == CheckIsAdmin(s.users, adminId).error
    ensures r.Ok? && Issued(s) ==>
      && r.value.users.total == |s.users| && r.value.posts.total == |s.posts|
      && r.value.projects.total == |s.projects| && r.value.blogs.total == |s.blogs|
      && r.value.reviews.total == |s.reviews|
    ensures r.Ok? && Issued(s) ==>
      r.value.users.colabs == Colabs(s) && r.value.users.admins == Admins(s)
      && r.value.reviews.appReviews == AppReviews(s)
    ensures r.Ok? ==> r.value.users.colabs + r.value.users.admins <= r.value.users.total
    ensures r.Ok? ==> r.value.reviews.appReviews <= r.value.reviews.total
  {
    var gate := CheckIsAdmin(s.users, adminId);
    if gate.Err? then Err(gate.error)
    else
      var users := Collect(s.users, s.bound);
      var reviews := Collect(s.reviews, s.bound);
      var app := Filter(reviews, IsAppReview);
      ColabsAndAdmins(users);
      Lengths(s);
      RoleCounts(s);
      Ok(GlobalStats(
        UserCounts(|users|, |Filter(users, IsColab)|, |Filter(users, IsAdminUser)|),
        PostTotals(Collect(s.posts, s.bound)),
        ProjectTotalsOf(Collect(s.projects, s.bound)),
        BlogTotals(Collect(s.blogs, s.bound)),
        ReviewTotals(|reviews|, |app|, Average(app))))
  }

  /** The number of users whose role is exactly "colab". */
  function Colabs(s: Snapshot): nat
  {
    |Matching(s.users, IsColab)|
  }

  /** The number of users whose role is exactly "admin". */
  function Admins(s: Snapshot): nat
  {
    |Matching(s.users, IsAdminUser)|
  }

  /** The number of reviews about the application. */
  function AppReviews(s: Snapshot): nat
  {
    |Matching(s.reviews, IsAppReview)|
  }

  /** Under issued ids, filtering the collected tables counts exactly these documents. */
  lemma RoleCounts(s: Snapshot)
    ensures Issued(s) ==>
      && |Filter(Collect(s.users, s.bound), IsColab)| == Colabs(s)
      && |Filter(Collect(s.users, s.bound), IsAdminUser)| == Admins(s)
      && |Filter(Collect(s.reviews, s.bound), IsAppReview)| == AppReviews(s)
  {
    if Issued(s) {
      FilterCountAll(s.users, s.bound, IsColab);
      FilterCountAll(s.users, s.bound, IsAdminUser);
      FilterCountAll(s.reviews, s.bound, IsAppReview);
    }
  }

  /** No user is counted both as "colab" and as "admin". */
  lemma {:induction false} ColabsAndAdmins(rows: seq<Row<User>>)
    ensures |Filter(rows, IsColab)| + |Filter(rows, IsAdminUser)| <= |rows|
  {
    if rows != [] {
      ColabsAndAdmins(rows[1..]);
    }
  }

  lemma Lengths(s: Snapshot)
    ensures Issued(s) ==>
      && |Collect(s.users, s.bound)| == |s.users| && |Collect(s.posts, s.bound)| == |s.posts|
      && |Collect(s.projects, s.bound)| == |s.projects| && |Collect(s.blogs, s.bound)| == |s.blogs|
      && |Collect(s.reviews, s.bound)| == |s.reviews|
  {
    if Issued(s) {
      CollectLength(s.users, s.bound);
      CollectLength(s.posts, s.bound);
      CollectLength(s.projects, s.bound);
      CollectLength(s.blogs, s.bound);
      CollectLength(s.reviews, s.bound);
    }
  }

  predicate PostBy(u: Id, p: Post) { p.authorId == u }
  predicate ProjectBy(u: Id, p: Project) { p.authorId == u }
  predicate BlogBy(u: Id, b: Blog) { b.authorId == u }
  /** The `by_target` index compares the review's `targetId` text with the user's id. */
  predicate ReviewOf(u: Id, r: Review) { r.targetId == Some(IdText(u)) }

  function PostsOf(s: Snapshot, u: Id): seq<Row<Post>> { Filter(Collect(s.posts, s.bound), p => PostBy(u, p)) }
  function ProjectsOf(s: Snapshot, u: Id): seq<Row<Project>> { Filter(Collect(s.projects, s.bound), p => ProjectBy(u, p)) }
  function BlogsOf(s: Snapshot, u: Id): seq<Row<Blog>> { Filter(Collect(s.blogs, s.bound), b => BlogBy(u, b)) }
  function ReviewsOf(s: Snapshot, u: Id): seq<Row<Review>> { Filter(Collect(s.reviews, s.bound), r => ReviewOf(u, r)) }

  datatype Profile = Profile(name: string, email: string, role: Role, stats: Option<Stats>)
  datatype ReviewSummary = ReviewSummary(total: nat, averageRating: real)

  datatype UserStats = UserStats(
    user: Profile,
    posts: ContentTotals,
    projects: ProjectTotals,
    blogs: ContentTotals,
    reviews: ReviewSummary)

  /**
   * getUserStats: refused unless the caller passes checkIsAdmin, then NotFound for a missing
   * target; otherwise the target's profile and the totals of the content they wrote and of the
   * reviews about them.
   */
  function GetUserStats(s: Snapshot, adminId: Id, target: Id): (r: Result<UserStats>)
    ensures CheckIsAdmin(s.users, adminId).Err? ==> r == Err(CheckIsAdmin(s.users, adminId).error)
    ensures CheckIsAdmin(s.users, adminId).Ok? && target !in s.users ==> r == Err(NotFound)
    ensures r.Ok? <==> CheckIsAdmin(s.users, adminId).Ok? && target in s.users
    ensures r.Ok? ==> r.value.user == Profile(s.users[target].name, s.users[target].email, s.users[target].role, s.users[target].stats)
    ensures r.Ok? && Issued(s) ==> r.value.reviews.total == |Matching(s.reviews, rv => ReviewOf(target, rv))|
  {
    var gate := CheckIsAdmin(s.users, adminId);
    if gate.Err? then Err(gate.error)
    else if target !in s.users then Err(NotFound)
    else
      var u := s.users[target];
      var reviews := ReviewsOf(s, target);
      ReviewCount(s, target);
      Ok(UserStats(
        Profile(u.name, u.email, u.role, u.stats),
        PostTotals(PostsOf(s, target)),
        ProjectTotalsOf(ProjectsOf(s, target)),
        BlogTotals(BlogsOf(s, target)),
        ReviewSummary(|reviews|, Average(reviews))))
  }

  lemma ReviewCount(s: Snapshot, target: Id)
    ensures Issued(s) ==> |ReviewsOf(s, target)| == |Matching(s.reviews, rv => ReviewOf(target, rv))|
  {
    if Issued(s) {
      FilterCountAll(s.reviews, s.bound, rv => ReviewOf(target, rv));
    }
  }

  /** Every stored rating lies between 0 and 5, as createReview enforces. */
  ghost predicate RatingsInRange(reviews: map<Id, Review>)
  {
    forall id :: id in reviews ==> 0.0 <= reviews[id].rating <= 5.0
  }

  /** A filter over the collected reviews keeps only ratings of the table. */
  lemma FilteredRatingsInRange(s: Snapshot, p: Review -> bool)
    requires RatingsInRange(s.reviews)
    ensures forall i :: 0 <= i < |Filter(Collect(s.reviews, s.bound), p)| ==>
      0.0 <= Filter(Collect(s.reviews, s.bound), p)[i].doc.rating <= 5.0
  {
    var rows := Filter(Collect(s.reviews, s.bound), p);
    CollectIsTable(s.reviews, s.bound);
    FilterMembers(Collect(s.reviews, s.bound), p);
    forall i | 0 <= i < |rows| ensures 0.0 <= rows[i].doc.rating <= 5.0 {
      assert rows[i] in rows;
    }
  }

  /**
   * With every stored rating between 0 and 5, the mean ratings the dashboard reports (of the
   * application reviews, and of the reviews about one user) lie between 0 and 5.
   */
  lemma DashboardAveragesBounded(s: Snapshot, adminId: Id, target: Id)
    requires RatingsInRange(s.reviews)
    ensures GetGlobalStats(s, adminId).Ok? ==> 0.0 <= GetGlobalStats(s, adminId).value.reviews.averageAppRating <= 5.0
    ensures GetUserStats(s, adminId, target).Ok? ==> 0.0 <= GetUserStats(s, adminId, target).value.reviews.averageRating <= 5.0
  {
    FilteredRatingsInRange(s, IsAppReview);
    AverageBounded(Filter(Collect(s.reviews, s.bound), IsAppReview));
    FilteredRatingsInRange(s, rv => ReviewOf(target, rv));
    AverageBounded(ReviewsOf(s, target));
  }

  /**
   * getUserStats counts only what the target wrote: each of their totals is at most the global
   * one, and with what everybody else wrote it makes up the global one.
   */
  lemma {:induction false} UserShareOfGlobal(s: Snapshot, adminId: Id, target: Id)
    requires GetUserStats(s, adminId, target).Ok?
    ensures var g, u := GetGlobalStats(s, adminId).value, GetUserStats(s, adminId, target).value;
      && u.posts.total <= g.posts.total && u.posts.likes <= g.posts.likes
      && u.posts.comments <= g.posts.comments && u.posts.shares <= g.posts.shares
      && u.projects.total <= g.projects.total && u.projects.likes <= g.projects.likes
      && u.projects.comments <= g.projects.comments
      && u.blogs.total <= g.blogs.total && u.blogs.likes <= g.blogs.likes
      && u.blogs.comments <= g.blogs.comments && u.blogs.shares <= g.blogs.shares
    ensures var g, u := GetGlobalStats(s, adminId).value, GetUserStats(s, adminId, target).value;
      g.posts.likes == u.posts.likes + SumOf(Filter(Collect(s.posts, s.bound), p => !PostBy(target, p)), PostLikes)
  {
    var posts, projects, blogs := Collect(s.posts, s.bound), Collect(s.projects, s.bound), Collect(s.blogs, s.bound);
    var pp := (p: Post) => PostBy(target, p);
    var jp := (p: Project) => ProjectBy(target, p);
    var bp := (b: Blog) => BlogBy(target, b);
    FilteredSumBounded(posts, PostLikes, pp);
    FilteredSumBounded(posts, PostComments, pp);
    FilteredSumBounded(posts, PostShares, pp);
    FilteredSumBounded(projects, ProjectLikes, jp);
    FilteredSumBounded(projects, ProjectComments, jp);
    FilteredSumBounded(blogs, BlogLikes, bp);
    FilteredSumBounded(blogs, BlogComments, bp);
    FilteredSumBounded(blogs, BlogShares, bp);
    SumSplits(posts, PostLikes, pp, (p: Post) => !PostBy(target, p));
  }

  function OtherPosts(s: Snapshot, u: Id): seq<Row<Post>> { Filter(Collect(s.posts, s.bound), p => !PostBy(u, p)) }
  function OtherProjects(s: Snapshot, u: Id): seq<Row<Project>> { Filter(Collect(s.projects, s.bound), p => !ProjectBy(u, p)) }
  function OtherBlogs(s: Snapshot, u: Id): seq<Row<Blog>> { Filter(Collect(s.blogs, s.bound), b => !BlogBy(u, b)) }

  /**
   * Every global content total of getGlobalStats is the target's total from getUserStats plus
   * the same total over the content everybody else wrote.
   */
  lemma {:induction false} GlobalSplitsByAuthor(s: Snapshot, adminId: Id, target: Id)
    requires GetUserStats(s, adminId, target).Ok?
    ensures var g, u := GetGlobalStats(s, adminId).value, GetUserStats(s, adminId, target).value;
      && g.posts == ContentTotals(u.posts.total + |OtherPosts(s, target)|,
        u.posts.likes + SumOf(OtherPosts(s, target), PostLikes),
        u.posts.comments + SumOf(OtherPosts(s, target), PostComments),
        u.posts.shares + SumOf(OtherPosts(s, target), PostShares))
      && g.projects == ProjectTotals(u.projects.total + |OtherProjects(s, target)|,
        u.projects.likes + SumOf(OtherProjects(s, target), ProjectLikes),
        u.projects.comments + SumOf(OtherProjects(s, target), ProjectComments))
      && g.blogs == ContentTotals(u.blogs.total + |OtherBlogs(s, target)|,
        u.blogs.likes + SumOf(OtherBlogs(s, target), BlogLikes),
        u.blogs.comments + SumOf(OtherBlogs(s, target), BlogComments),
        u.blogs.shares + SumOf(OtherBlogs(s, target), BlogShares))
  {
    var posts, projects, blogs := Collect(s.posts, s.bound), Collect(s.projects, s.bound), Collect(s.blogs, s.bound);
    var pp, np := (p: Post) => PostBy(target, p), (p: Post) => !PostBy(target, p);
    var jp, nj := (p: Project) => ProjectBy(target, p), (p: Project) => !ProjectBy(target, p);
    var bp, nb := (b: Blog) => BlogBy(target, b), (b: Blog) => !BlogBy(target, b);
    CountSplits(posts, pp, np);
    SumSplits(posts, PostLikes, pp, np);
    SumSplits(posts, PostComments, pp, np);
    SumSplits(posts, PostShares, pp, np);
    CountSplits(projects, jp, nj);
    SumSplits(projects, ProjectLikes, jp, nj);
    SumSplits(projects, ProjectComments, jp, nj);
    CountSplits(blogs, bp, nb);
    SumSplits(blogs, BlogLikes, bp, nb);
    SumSplits(blogs, BlogComments, bp, nb);
    SumSplits(blogs, BlogShares, bp, nb);
  }

  // ---- rankings ----

  /** The scores are non-increasing along the list. */
  ghost predicate NonIncreasing<T>(s: seq<T>, key: T -> real)
  {
    forall i, j :: 0 <= i < j < |s| ==> key(s[i]) >= key(s[j])
  }

  /**
   * One insertion step of the stable sort `sort((a, b) => key(b) - key(a))`: x goes after every
   * element whose score is at least its own.
   */
  function Insert<T>(x: T, s: seq<T>, key: T -> real): (r: seq<T>)
    ensures multiset(r) == multiset(s) + multiset{x}
  {
    if s == [] then [x]
    else if key(s[0]) < key(x) then [x] + s
    else
      assert s == [s[0]] + s[1..];
      [s[0]] + Insert(x, s[1..], key)
  }

  lemma {:induction false} InsertSorted<T>(x: T, s: seq<T>, key: T -> real)
    requires NonIncreasing(s, key)
    ensures NonIncreasing(Insert(x, s, key), key)
  {
    if s != [] {
      if key(s[0]) >= key(x) {
        InsertSorted(x, s[1..], key);
        InsertBounded(x, s[1..], key, key(s[0]));
        ConsNonIncreasing(s[0], Insert(x, s[1..], key), key);
      } else {
        ConsNonIncreasing(x, s, key);
      }
    }
  }

  /** Inserting into a list scored at most b an element scored at most b gives a list scored at most b. */
  lemma {:induction false} InsertBounded<T>(x: T, s: seq<T>, key: T -> real, b: real)
    requires key(x) <= b && forall k :: 0 <= k < |s| ==> key(s[k]) <= b
    ensures forall k :: 0 <= k < |Insert(x, s, key)| ==> key(Insert(x, s, key)[k]) <= b
  {
    if s != [] && key(s[0]) >= key(x) {
      InsertBounded(x, s[1..], key, b);
      var r := Insert(x, s, key);
      forall k | 0 <= k < |r| ensures key(r[k]) <= b {
        if k > 0 {
          assert r[k] == Insert(x, s[1..], key)[k - 1];
        }
      }
    }
  }

  /** An element scored at least as high as the head of a non-increasing list can go in front. */
  lemma ConsNonIncreasing<T>(y: T, s: seq<T>, key: T -> real)
    requires NonIncreasing(s, key)
    requires s != [] ==> key(s[0]) <= key(y)
    ensures NonIncreasing([y] + s, key)
  {
    var r := [y] + s;
    forall i, j | 0 <= i < j < |r| ensures key(r[i]) >= key(r[j]) {
      assert r[j] == s[j - 1];
      if i > 0 {
        assert r[i] == s[i - 1];
      } else if j > 1 {
        assert key(s[0]) >= key(s[j - 1]);
      }
    }
  }

  /** The sort the ranking queries apply: by score, highest first, equal scores in their prior order. */
  function SortDesc<T>(s: seq<T>, key: T -> real): (r: seq<T>)
    ensures multiset(r) == multiset(s)
    ensures NonIncreasing(r, key)
  {
    if s == [] then []
    else
      assert s == s[..|s| - 1] + [s[|s| - 1]];
      InsertSorted(s[|s| - 1], SortDesc(s[..|s| - 1], key), key);
      Insert(s[|s| - 1], SortDesc(s[..|s| - 1], key), key)
  }

  /** A list that is a permutation of `rows` mapped through f holds f of every row and nothing else. */
  lemma MappedMembers<A, B>(rows: seq<A>, all: seq<B>, sorted: seq<B>, f: A -> B)
    requires |all| == |rows| && forall i :: 0 <= i < |rows| ==> all[i] == f(rows[i])
    requires multiset(sorted) == multiset(all)
    ensures |sorted| == |rows|
    ensures forall b :: b in sorted ==> exists a :: a in rows && b == f(a)
    ensures forall a :: a in rows ==> f(a) in sorted
  {
    assert |sorted| == |multiset(sorted)| == |multiset(all)| == |all|;
    forall b | b in sorted ensures exists a :: a in rows && b == f(a) {
      assert b in multiset(all);
      var i :| 0 <= i < |all| && all[i] == b;
      assert rows[i] in rows;
    }
    forall a | a in rows ensures f(a) in sorted {
      var i :| 0 <= i < |rows| && rows[i] == a;
      assert all[i] in multiset(sorted);
    }
  }

  /**
   * The activity score: posts count 2, projects 3, blogs 2, and the author's `likes`,
   * `comments` and `shares` counters count 1, 2 and 3 (a missing counter or stats as 0).
   */
  function ActivityScore(posts: nat, projects: nat, blogs: nat, stats: Option<Stats>): (score: nat)
    ensures score >= posts * 2 + projects * 3 + blogs * 2
    ensures stats.None? ==> score == posts * 2 + projects * 3 + blogs * 2
    ensures stats.Some? && stats.value.counters.Keys >= {"likes", "comments", "shares"} ==>
      score == posts * 2 + projects * 3 + blogs * 2 + stats.value.counters["likes"]
        + stats.value.counters["comments"] * 2 + stats.value.counters["shares"] * 3
    ensures stats.Some? && stats.value.counters == map[] ==> score == posts * 2 + projects * 3 + blogs * 2
  {
    posts * 2 + projects * 3 + blogs * 2
    + CounterOf(stats, "likes") + CounterOf(stats, "comments") * 2 + CounterOf(stats, "shares") * 3
  }

  datatype Activity = Activity(user: Row<User>, activityScore: nat)

  function ActivityOf(s: Snapshot, u: Row<User>): (a: Activity)
    ensures a.user == u
    ensures a.activityScore >= 2 * |PostsOf(s, u.id)| + 3 * |ProjectsOf(s, u.id)| + 2 * |BlogsOf(s, u.id)|
  {
    Activity(u, ActivityScore(|PostsOf(s, u.id)|, |ProjectsOf(s, u.id)|, |BlogsOf(s, u.id)|, u.doc.stats))
  }

  function ActivityKey(a: Activity): real
  {
    a.activityScore as real
  }

  /** `users.map(...)`: one entry per user, in the order collected. */
  function Activities(s: Snapshot, rows: seq<Row<User>>): (r: seq<Activity>)
    ensures |r| == |rows| && forall i :: 0 <= i < |rows| ==> r[i] == ActivityOf(s, rows[i])
  {
    if rows == [] then [] else [ActivityOf(s, rows[0])] + Activities(s, rows[1..])
  }

  /**
   * getMostActiveUsers: refused unless the caller passes checkIsAdmin; otherwise every user with
   * their activity score, highest score first, cut by a truthy limit.
   */
  function GetMostActiveUsers(s: Snapshot, adminId: Id, limit: Option<int>): (r: Result<seq<Activity>>)
    ensures r.Err? <==> CheckIsAdmin(s.users, adminId).Err?
    ensures r.Err? ==> r.error == CheckIsAdmin(s.users, adminId).error
    ensures r.Ok? ==> NonIncreasing(r.value, ActivityKey)
    ensures r.Ok? ==> forall a :: a in r.value ==> InTable(s.users, a.user) && a == ActivityOf(s, a.user)
    ensures r.Ok? && Issued(s) && (limit.None? || limit.value == 0) ==>
      |r.value| == |s.users| && forall id :: id in s.users ==> ActivityOf(s, Row(id, s.users[id])) in r.value
    ensures r.Ok? && Issued(s) && limit.Some? && limit.value > 0 ==>
      |r.value| == if limit.value < |s.users| then limit.value else |s.users|
    ensures r.Ok? && Issued(s) ==>
      forall a, id :: a in r.value && id in s.users && ActivityOf(s, Row(id, s.users[id])) !in r.value ==>
        a.activityScore >= ActivityOf(s, Row(id, s.users[id])).activityScore
  {
    var gate := CheckIsAdmin(s.users, adminId);
    if gate.Err? then Err(gate.error)
    else
      var rows := Collect(s.users, s.bound);
      var all := Activities(s, rows);
      var sorted := SortDesc(all, ActivityKey);
      Ranked(s, rows, all, sorted);
      Lengths(s);
      var out := SliceLimit(sorted, limit);
      PrefixOfSorted(sorted, out, ActivityKey);
      Ok(out)
  }

  /** What the sorted activity list holds: exactly one entry per collected user. */
  lemma Ranked(s: Snapshot, rows: seq<Row<User>>, all: seq<Activity>, sorted: seq<Activity>)
    requires rows == Collect(s.users, s.bound) && all == Activities(s, rows) && multiset(sorted) == multiset(all)
    ensures |sorted| == |rows|
    ensures forall a :: a in sorted ==> InTable(s.users, a.user) && a == ActivityOf(s, a.user)
    ensures KeysBelow(s.users, s.bound) ==> forall id :: id in s.users ==> ActivityOf(s, Row(id, s.users[id])) in sorted
  {
    CollectIsTable(s.users, s.bound);
    MappedMembers(rows, all, sorted, u => ActivityOf(s, u));
    if KeysBelow(s.users, s.bound) {
      forall id | id in s.users ensures ActivityOf(s, Row(id, s.users[id])) in sorted {
        assert InTable(s.users, Row(id, s.users[id]));
      }
    }
  }

  /**
   * A prefix of a sorted list is sorted, holds only elements of the list, and scores every
   * element at least as high as any element of the list it leaves out.
   */
  lemma PrefixOfSorted<T>(s: seq<T>, pre: seq<T>, key: T -> real)
    requires |pre| <= |s| && pre == s[..|pre|]
    ensures NonIncreasing(s, key) ==> NonIncreasing(pre, key)
    ensures forall x :: x in pre ==> x in s
    ensures NonIncreasing(s, key) ==> forall x, y :: x in pre && y in s && y !in pre ==> key(x) >= key(y)
  {
    forall x | x in pre ensures x in s {
      var i :| 0 <= i < |pre| && pre[i] == x;
      assert s[i] == x;
    }
    if NonIncreasing(s, key) {
      forall x, y | x in pre && y in s && y !in pre ensures key(x) >= key(y) {
        var i :| 0 <= i < |pre| && pre[i] == x;
        var j :| 0 <= j < |s| && s[j] == y;
        assert forall k :: 0 <= k < |pre| ==> pre[k] in pre && pre[k] == s[k];
        assert |pre| <= j;
        assert s[i] == x;
      }
    }
  }

  /** A performance entry of getTopCollaborators. */
  datatype Performance = Performance(
    colab: Row<User>,
    performanceScore: real,
    posts: nat,
    projects: nat,
    blogs: nat,
    reviews: nat,
    averageRating: real)

  function PostPoints(p: Post): nat { |p.likes| + |p.comments| * 2 + p.shares * 3 }
  function ProjectPoints(p: Project): nat { |p.likes| + |p.comments| * 2 }
  function BlogPoints(b: Blog): nat { |b.likes| + |b.comments| * 2 + b.shares * 3 }

  /**
   * The performance score: each post counts its likes, twice its comments and three times its
   * shares, each project its likes and twice its comments, each blog like a post, plus ten times
   * the mean rating of the reviews about the collaborator.
   */
  function PerformanceOf(s: Snapshot, c: Row<User>): (p: Performance)
    ensures p.colab == c && p.reviews == |ReviewsOf(s, c.id)| && p.averageRating == Average(ReviewsOf(s, c.id))
    ensures p.posts == |PostsOf(s, c.id)| && p.projects == |ProjectsOf(s, c.id)| && p.blogs == |BlogsOf(s, c.id)|
  {
    var reviews := ReviewsOf(s, c.id);
    var avg := Average(reviews);
    var points := SumOf(PostsOf(s, c.id), PostPoints) + SumOf(ProjectsOf(s, c.id), ProjectPoints)
      + SumOf(BlogsOf(s, c.id), BlogPoints);
    Performance(c, points as real + avg * 10.0, |PostsOf(s, c.id)|, |ProjectsOf(s, c.id)|, |BlogsOf(s, c.id)|, |reviews|, avg)
  }

  function PerformanceKey(p: Performance): real
  {
    p.performanceScore
  }

  function Performances(s: Snapshot, rows: seq<Row<User>>): (r: seq<Performance>)
    ensures |r| == |rows| && forall i :: 0 <= i < |rows| ==> r[i] == PerformanceOf(s, rows[i])
  {
    if rows == [] then [] else [PerformanceOf(s, rows[0])] + Performances(s, rows[1..])
  }

  /**
   * getTopCollaborators: refused unless the caller passes checkIsAdmin; otherwise the users whose
   * role is exactly "colab" (admins are not ranked), highest performance first, cut by a truthy limit.
   */
  function GetTopCollaborators(s: Snapshot, adminId: Id, limit: Option<int>): (r: Result<seq<Performance>>)
    ensures r.Err? <==> CheckIsAdmin(s.users, adminId).Err?
    ensures r.Err? ==> r.error == CheckIsAdmin(s.users, adminId).error
    ensures r.Ok? ==> NonIncreasing(r.value, PerformanceKey)
    ensures r.Ok? ==> forall p :: p in r.value ==>
      InTable(s.users, p.colab) && p.colab.doc.role == "colab" && p == PerformanceOf(s, p.colab)
    ensures r.Ok? && Issued(s) && (limit.None? || limit.value == 0) ==>
      forall id :: id in s.users && s.users[id].role == "colab" ==> PerformanceOf(s, Row(id, s.users[id])) in r.value
    ensures r.Ok? && Issued(s) && (limit.None? || limit.value == 0) ==> |r.value| == Colabs(s)
    ensures r.Ok? && Issued(s) && limit.Some? && limit.value > 0 ==>
      |r.value| == if limit.value < Colabs(s) then limit.value else Colabs(s)
    ensures r.Ok? && Issued(s) ==>
      forall p, id ::
        p in r.value && id in s.users && s.users[id].role == "colab" && PerformanceOf(s, Row(id, s.users[id])) !in r.value
        ==> p.performanceScore >= PerformanceOf(s, Row(id, s.users[id])).performanceScore
  {
    var gate := CheckIsAdmin(s.users, adminId);
    if gate.Err? then Err(gate.error)
    else
      var rows := QueryAsc(s.users, s.bound, IsColab);
      var all := Performances(s, rows);
      var sorted := SortDesc(all, PerformanceKey);
      RankedColabs(s, rows, all, sorted);
      RoleCounts(s);
      assert |sorted| == |multiset(sorted)| == |multiset(all)| == |all|;
      var out := SliceLimit(sorted, limit);
      PrefixOfSorted(sorted, out, PerformanceKey);
      Ok(out)
  }

  lemma RankedColabs(s: Snapshot, rows: seq<Row<User>>, all: seq<Performance>, sorted: seq<Performance>)
    requires rows == QueryAsc(s.users, s.bound, IsColab) && all == Performances(s, rows) && multiset(sorted) == multiset(all)
    ensures forall p :: p in sorted ==> InTable(s.users, p.colab) && p.colab.doc.role == "colab" && p == PerformanceOf(s, p.colab)
    ensures KeysBelow(s.users, s.bound) ==>
      forall id :: id in s.users && s.users[id].role == "colab" ==> PerformanceOf(s, Row(id, s.users[id])) in sorted
  {
    MappedMembers(rows, all, sorted, c => PerformanceOf(s, c));
    if KeysBelow(s.users, s.bound) {
      forall id | id in s.users && s.users[id].role == "colab" ensures PerformanceOf(s, Row(id, s.users[id])) in sorted {
        assert InTable(s.users, Row(id, s.users[id]));
      }
    }
  }
}
