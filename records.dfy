/**
 * The documents of the store, one datatype per table. Fields that some writer leaves out are
 * `Option`s; fields nothing in the handlers writes (password, title, twitter, website, the
 * user's skills array) are not represented.
 */
module Records {
  import opened Base
  import opened Seqs

  /** A role as stored. The handlers compare it with "user", "colab", "collaborator" and "admin". */
  type Role = string

  /**
   * The embedded `stats` object: named counters (the schema's six plus the `likes`, `comments`
   * and `shares` keys the engagement handlers write), the ids that liked the profile, and
   * the online flag.
   */
  datatype Stats = Stats(counters: map<string, nat>, likedBy: Option<seq<Id>>, online: Option<bool>)

  datatype SocialLinks = SocialLinks(linkedin: Option<string>, github: Option<string>, twitter: Option<string>)

  datatype User = User(
    name: string,
    email: string,
    imageUrl: Option<string>,
    image: Option<string>,            // written by updateUserProfile under this name
    bio: Option<string>,
    github: Option<string>,
    linkedin: Option<string>,
    socialLinks: Option<SocialLinks>, // written by updateUserProfile
    role: Role,
    userId: Option<string>,
    stats: Option<Stats>)

  /** A row of `posts`: createPost leaves out title, tags, saves and createdAt; blog.ts create sets them. */
  datatype Post = Post(
    authorId: Id,
    title: Option<string>,
    content: string,
    image: Option<string>,
    tags: Option<seq<string>>,
    likes: seq<Id>,
    comments: seq<Id>,
    shares: nat,
    saves: Option<seq<Id>>,
    isPublished: bool,
    createdAt: Option<string>)

  datatype Blog = Blog(
    authorId: Id,
    title: string,
    content: string,
    image: Option<string>,
    tags: seq<string>,
    likes: seq<Id>,
    comments: seq<Id>,
    saves: seq<Id>,
    shares: nat,
    isPublished: bool)

  datatype Project = Project(
    authorId: Id,
    title: string,
    description: string,
    images: seq<string>,
    video: Option<string>,
    githubLink: Option<string>,
    demoLink: Option<string>,
    technologies: seq<string>,
    likes: seq<Id>,
    comments: seq<Id>)

  /** createProject and updateProject refuse more images than this. */
  const MaxProjectImages: nat := 2

  /** A comment row. The handlers store the parent's id in a field named `postId` for all three parents. */
  datatype Comment = Comment(postId: Id, authorId: Id, content: string, likes: seq<Id>)

  /** "débutant", "intermédiaire", "expert". */
  datatype SkillLevel = Beginner | Intermediate | Expert

  datatype Skill = Skill(userId: Id, name: string, level: SkillLevel, category: string)

  /** A review row; the author is a denormalised snapshot (id text, name, image). */
  datatype Review = Review(
    userId: string,
    userName: string,
    userImage: string,
    content: string,
    rating: real,
    targetId: Option<string>,
    targetName: Option<string>,
    createdAt: string,
    isAppReview: bool)

  datatype FriendStatus = Pending | Accepted | Rejected

  datatype Friendship = Friendship(userId1: Id, userId2: Id, status: FriendStatus)

  datatype MessageType = Private | Group

  datatype Message = Message(
    senderId: Id,
    receiverId: Id,
    kind: MessageType,
    content: string,
    attachments: seq<string>,
    isRead: bool)

  datatype ChatGroup = ChatGroup(
    name: string,
    description: Option<string>,
    members: seq<Id>,
    admins: seq<Id>,
    image: Option<string>)

  // ---- stats ----

  /** `stats.key || 0`. */
  function Counter(s: Stats, key: string): nat
  {
    if key in s.counters then s.counters[key] else 0
  }

  /** `(user.stats || {}).key || 0`. */
  function CounterOf(s: Option<Stats>, key: string): nat
  {
    if s.Some? then Counter(s.value, key) else 0
  }

  /** The six counters the schema declares for `stats`. */
  const SchemaCounterKeys: set<string> :=
    {"projectsCreated", "projectsLiked", "postsCreated", "postsLiked", "commentsCreated", "commentsLiked"}

  /** The counters of a stats object rebuilt to the schema: the six keys, each `old || 0.0`. */
  function SchemaCounters(s: Option<Stats>): map<string, nat>
  {
    map k | k in SchemaCounterKeys :: CounterOf(s, k)
  }

  /** `stats.likedBy || []`, also written `Array.isArray(stats.likedBy) ? stats.likedBy : []`. */
  function Likers(s: Option<Stats>): seq<Id>
  {
    if s.Some? && s.value.likedBy.Some? then s.value.likedBy.value else []
  }

  /**
   * `{ ...stats, key: (stats.key || 0) + 1 }` when going up,
   * `{ ...stats, key: Math.max(0, (stats.key || 0) - 1) }` when going down.
   */
  function Bump(s: Stats, key: string, up: bool): Stats
  {
    var c := Counter(s, key);
    s.(counters := s.counters[key := if up then c + 1 else if c == 0 then 0 else c - 1])
  }

  /** Two stats objects that read the same through `|| 0`, with the same likers and online flag. */
  ghost predicate SameStats(a: Stats, b: Stats)
  {
    (forall k :: Counter(a, k) == Counter(b, k)) && a.likedBy == b.likedBy && a.online == b.online
  }

  /** Two user documents that differ at most in how a zero counter is written. */
  ghost predicate SameUser(a: User, b: User)
  {
    a.(stats := None) == b.(stats := None)
    && a.stats.Some? == b.stats.Some?
    && (a.stats.Some? ==> SameStats(a.stats.value, b.stats.value))
  }

  ghost predicate SameUsers(a: map<Id, User>, b: map<Id, User>)
  {
    a.Keys == b.Keys && forall id :: id in a ==> SameUser(a[id], b[id])
  }

  // ---- friendships and groups ----

  /** The friendship joins a and b, in either orientation. */
  predicate Joins(f: Friendship, a: Id, b: Id)
  {
    (f.userId1 == a && f.userId2 == b) || (f.userId1 == b && f.userId2 == a)
  }

  /** The invariant of a chat group: some admin, no admin twice, every admin a member. */
  ghost predicate GroupWellFormed(g: ChatGroup)
  {
    g.admins != [] && Distinct(g.admins) && forall a :: a in g.admins ==> a in g.members
  }
}
