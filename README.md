# Webify backend handlers, modelled in Dafny

Webify is a small social platform for a web agency. Collaborators publish posts, blogs and
portfolio projects, and users like, comment on, share and save them. Users also review
collaborators and the application, make friends, exchange private messages and meet in chat
groups. An admin dashboard aggregates all of this. The backend is a set of Convex handlers
(`convex/*.ts`). Each is one serialisable transaction that reads and writes a document store.

This project models those handlers:

- **The store.** `Store.Db` is a class with one `map<Id, …>` per table and the counter `nextId`
  from which every insert takes its id. Ids are handed out in increasing order, so a query that
  collects a table returns documents in creation order (`Tables.Collect`, `Tables.CollectDesc`).
- **Mutations.** Each mutation is a method on `Db`, with `modifies` naming the tables it writes.
  Its `ensures` gives the whole new state and the `Result`/`Outcome` it returns, including every
  error path the handler throws on, in the handler's order of checks. Each one also keeps the
  store invariant `Db.Valid()`:
  - every id is below `nextId`;
  - e-mails are unique;
  - at most one friendship joins any pair of users;
  - every chat group has an admin, and every admin is a member;
  - like and save lists have no duplicates;
  - no project has more than two images.
- **Queries.** Queries are functions of the tables. Each states which documents it returns (all
  of them and only them, unless a limit cuts the list) and in what order.
- **Shared rules.** The rules that several handlers repeat are defined once, with lemmas for the
  properties the handlers rely on:
  - the like/save toggle (`Seqs.Toggle`);
  - the author's stats counter bump (`Engagement.BumpAuthor`);
  - the ownership check (`Engagement.Authorize`);
  - the role gates (`Roles`);
  - the chat-group list rules (`Messages.AddMember`, `Messages.Leave`, …);
  - the stable descending sort of the dashboard rankings (`Admin.SortDesc`).
- **Repair loops.** The two one-off repair scripts (`convex/migrate.ts`, `convex/fix_users.ts`)
  and the review back-fill (`reviews.ts` fixMissingTargetName) are methods with `while` loops.
  Each is proved against a function that says what the whole table looks like afterwards.

Roles are open strings. Most handlers accept `"colab"`, but `createReview` (convex/social.ts)
and `create` (convex/blog.ts) test for `"collaborator"`. The model keeps the two spellings
apart, and `Roles.ColabSpellingsDisagree` and `Tests.BlogFlagIgnoresBlogTs` state the
consequences.

Author stats are a map from counter name to `nat`, plus `likedBy` and `online`. The engagement
handlers write the `likes`, `comments` and `shares` keys, which the schema does not declare.

Where the handlers depart from what their error messages and the rest of the code suggest, the
model follows the code:

- createPost, createBlog, createProject and addSkill refuse a missing author with the same
  permission error as a wrong role.
- sendGroupMessage checks neither the sender nor the group.
- updateUser and deleteUser in users.ts rely on the store's own refusal of an unknown id.

## Model

| member | source | states |
|---|---|---|
| Store.UniqueByEmail | convex/auth.ts:14-21 | the `by_email` lookup with `.unique()`: the user found has that e-mail; none found means no user has it; it fails, with NotUnique, exactly when two users share the e-mail |
| Store.SharedEmail | convex/auth.ts:14-21 | the lookup finds several users exactly when two distinct users have the e-mail |
| Store.UniqueEmailLookup | convex/auth.ts:14-21 | with unique e-mails the lookup never fails and finds exactly the user who has the e-mail |
| Store.Db.FreshId | convex/posts.ts:19-28 | an insert takes the next id and advances the counter by one |
| Tables.Get | convex/posts.ts:34-39 | getPost (and getBlog, getProject, getUser): the document when the id names one, nothing otherwise |
| Tables.GetAgreesWithCollect | convex/posts.ts:34-39 | reading by id finds a document exactly when collecting the table lists it under that id |
| Tables.CollectIsTable | convex/users.ts:116-121 | `collect()` returns only documents of the table, every one below the bound, in ascending id order |
| Tables.CollectLength | convex/admin.ts:14 | `users.length` after `collect()` is the number of users |
| Tables.QueryDesc | convex/posts.ts:42-63 | the intended limited query: only matching rows, descending ids, every matching row without a truthy limit; with one, exactly the first `min(limit, n)` rows of the full filtered, descending list |
| Tables.QueryDescAsWritten | convex/posts.ts:57-61 | the limited query as written: a truthy limit fails with TypeError, a falsy one lists every matching row newest first |
| Tables.TakeThenCollectFails | convex/posts.ts:57-61 | for every truthy limit the written query fails while the intended one returns at most that many rows |
| Tables.FilterCountAll | convex/admin.ts:14-16 | a filter over a collected table keeps exactly as many rows as the table has matching documents |
| Tables.SliceLimit | convex/admin.ts:210-217 | `slice(0, limit)` under a truthy limit: a prefix of the list, of length min(limit, length) |
| Seqs.FindIndex | convex/posts.ts:162 | `findIndex`: -1 exactly when absent, otherwise the first position holding the id |
| Seqs.RemoveFirst | convex/posts.ts:182 | `splice(i, 1)` at the found index removes one occurrence and keeps the rest as a multiset |
| Seqs.RemoveAll | convex/messages.ts:205 | `filter(id => id !== x)` removes every x and keeps every other id |
| Seqs.ToggleFlips | convex/posts.ts:161-186 | on a duplicate-free list the like toggle adds the id exactly when it was absent |
| Seqs.ToggleKeepsDistinct | convex/posts.ts:161-186 | the toggle never introduces a duplicate like |
| Seqs.ToggleTwiceFromAbsent | convex/posts.ts:161-186 | like then unlike restores the original list exactly |
| Seqs.ToggleTwiceFromPresent | convex/posts.ts:161-186 | unlike then like restores the same ids, the re-added one now last |
| Seqs.DedupeSound | convex/skills.ts:123-125 | `Array.from(new Set(…))` lists each element once and exactly the elements of the input |
| Roles.AdminPassesEveryGate | convex/tests.ts:34-48 | an admin passes every role gate of every file |
| Roles.ColabSpellingsDisagree | convex/social.ts:29 | "colab" may create content but is neither a review target nor a blog.ts writer; "collaborator" the reverse |
| Engagement.AuthorizeAllowsOwnerOrAdmin | convex/posts.ts:96-109 | update/delete pass iff the document and actor exist and the actor is the author or an admin; missing ones give NotFound, others PermissionDenied |
| Engagement.BumpAuthor | convex/posts.ts:171-196 | the author-side counter write changes no user id |
| Engagement.BumpAuthorEffect | convex/posts.ts:171-196 | only an existing author with stats changes: the counter goes +1 or -1 floored at 0; nothing else changes |
| Engagement.LikeStep | convex/posts.ts:161-196 | likeX: membership flips, other likers stay, the author's `likes` goes +1 on add and -1 floored at 0 on remove |
| Engagement.ToggleOnDistinct | convex/posts.ts:161-186 | on a duplicate-free list the toggle keeps it duplicate-free and flips the user's membership |
| Engagement.BumpUpDown | convex/posts.ts:171-196 | a bump up then down leaves every counter reading as before |
| Engagement.LikeThenUnlike | convex/posts.ts:161-196 | two likes by one user restore the like list exactly and the author's counters |
| Engagement.ClampedUnlikeDrifts | convex/posts.ts:187-196 | an unlike with the counter at 0 clamps it, so unlike then like leaves it at 1: the counter is not a like count |
| Engagement.CommentStep | convex/posts.ts:229-243 | commentX appends the comment id after the existing ones and bumps the document author's `comments` |
| Engagement.ShareStep | convex/posts.ts:266-280 | shareX bumps the author's `shares` by exactly one and no other counter |
| Engagement.BumpKeepsEmails | convex/posts.ts:171-196 | the counter writes keep e-mails unique |
| Posts.NewPost | convex/posts.ts:19-27 | a new post belongs to its author, has no likes, comments or shares and is published |
| Posts.ApplyPatch | convex/posts.ts:111-112 | updatePost: each of content, image and isPublished takes the supplied value and keeps its old one when absent; every other field is kept |
| Posts.CreatePost | convex/posts.ts:6-31 | inserts exactly when the author exists as "colab" or "admin"; otherwise PermissionDenied and nothing written |
| Posts.GetAllPosts | convex/posts.ts:42-63 | the intended query: only published posts, newest first, all of them without a limit |
| Posts.GetAuthorPosts | convex/posts.ts:66-84 | the intended query: only the author's published posts, newest first, all of them without a limit |
| Posts.UpdatePost | convex/posts.ts:87-115 | the ownership check's error, or the patch applied to that post only |
| Posts.DeletePost | convex/posts.ts:118-142 | the ownership check's error, or the post removed and nothing else |
| Posts.LikePost | convex/posts.ts:145-201 | NotFound for a missing post or user; otherwise the like toggle and the author's counter as LikeStep says |
| Posts.CommentPost | convex/posts.ts:204-247 | NotFound, or a comment stored under the next id, appended to the post, and the author's `comments` bumped |
| Posts.SharePost | convex/posts.ts:250-284 | NotFound, or shares + 1 on the post and the author's `shares` + 1; no toggle |
| Blogs.NewBlog | convex/blogs.ts:21-28 | a new blog has the arguments, no likes, comments or saves, zero shares, and is published |
| Blogs.ApplyPatch | convex/blogs.ts:119-120 | updateBlog: each of title, content, image, tags and isPublished takes the supplied value and keeps its old one when absent; every other field is kept |
| Blogs.CreateBlog | convex/blogs.ts:6-32 | inserts exactly when the author exists as "colab" or "admin" |
| Blogs.GetAllBlogs | convex/blogs.ts:43-69 | the intended query: only published blogs carrying the tag when one is given, newest first, all of them without a limit |
| Blogs.GetAllBlogsAsWritten | convex/blogs.ts:55-67 | as written: fails with TypeError exactly when a tag is given or the limit is truthy, otherwise equals the intended query |
| Blogs.TagFilterFails | convex/blogs.ts:55-56 | a published article tagged "dafny": the written query fails, the intended one lists it |
| Blogs.GetAuthorBlogs | convex/blogs.ts:72-90 | the intended query: only the author's published blogs, newest first |
| Blogs.UpdateBlog | convex/blogs.ts:93-123 | the ownership check's error, or the patch applied |
| Blogs.DeleteBlog | convex/blogs.ts:126-150 | the ownership check's error, or the blog removed |
| Blogs.LikeBlog | convex/blogs.ts:153-209 | NotFound, or the like toggle with the author's counter +1 / -1 floored at 0 |
| Blogs.CommentBlog | convex/blogs.ts:212-255 | the comment's parent goes in its postId field; the id is appended to the blog; the blog author's `comments` is bumped |
| Blogs.SaveBlog | convex/blogs.ts:258-292 | NotFound, or the user toggled in `saves`; no stats change |
| Blogs.ShareBlog | convex/blogs.ts:295-328 | NotFound, or shares + 1 and the author's `shares` + 1 |
| Projects.NewProject | convex/projects.ts:29-33 | a new project keeps its author, images and technologies and has no likes or comments |
| Projects.ApplyPatch | convex/projects.ts:124-125 | updateProject: each of title, description, images, video, githubLink, demoLink and technologies takes the supplied value and keeps its old one when absent; author, likes and comments are kept |
| Projects.CreateProject | convex/projects.ts:6-37 | the role check comes first; then more than two images gives InvalidArgument; otherwise inserted |
| Projects.GetAllProjects | convex/projects.ts:48-68 | the intended query: every project, newest first |
| Projects.GetAuthorProjects | convex/projects.ts:71-88 | the intended query: only the author's projects, newest first |
| Projects.UpdateProject | convex/projects.ts:91-128 | the ownership check; too many images refused only when images are supplied; otherwise patched |
| Projects.DeleteProject | convex/projects.ts:131-155 | removed only for its author or an admin |
| Projects.LikeProject | convex/projects.ts:158-214 | NotFound, or the like toggle with the author's counter +1 / -1 floored at 0 |
| Projects.CommentProject | convex/projects.ts:217-259 | NotFound, or the comment stored and appended, and the project author's `comments` bumped |
| Social.NewReview | convex/social.ts:39-48 | the stored review snapshots the author's id, name and image ("" when none), with no target name |
| Social.ReviewCheck | convex/social.ts:16-37 | passes iff the author exists, a given target exists as "collaborator" or "admin", and 0 ≤ rating ≤ 5 |
| Social.CreateReview | convex/social.ts:6-52 | the check's error with nothing inserted, or the review inserted under the next id |
| Social.GetAppReviews | convex/social.ts:55-78 | only application reviews, newest first; the result is `slice(0, limit)` of the unlimited query for a truthy limit and the whole query otherwise |
| Social.GetUserReviews | convex/social.ts:81-96 | only non-application reviews of the target, newest first; the result is `slice(0, limit)` of the unlimited query for a truthy limit and the whole query otherwise |
| Social.GetCollaboratorReviews | convex/social.ts:264-286 | only non-application reviews, newest first; the result is `slice(0, limit)` of the unlimited query for a truthy limit and the whole query otherwise |
| Social.ReviewsPartition | convex/social.ts:55-96 | application and other reviews together account for every review exactly once |
| Social.SendFriendRequest | convex/social.ts:99-145 | NotFound for a missing user; refused if any friendship joins the pair in either orientation; else stored as pending from userId1 |
| Social.RespondToFriendRequest | convex/social.ts:148-177 | only userId2 may answer, only a pending request; status becomes accepted iff accept, else rejected |
| Social.RemoveFriend | convex/social.ts:230-262 | deletes the one accepted friendship between the pair in either orientation; otherwise fails |
| Social.FriendDocs | convex/social.ts:197-209 | the other end of each friendship whose user still exists, and only those |
| Social.GetUserFriends | convex/social.ts:180-211 | exactly the existing users joined to the user by an accepted friendship |
| Social.FriendsSymmetric | convex/social.ts:184-209 | a is listed among b's friends iff b is among a's |
| Social.GetPendingFriendRequests | convex/social.ts:214-227 | exactly the pending requests addressed to the user |
| Social.AtMostOneBetween | convex/social.ts:116-134 | with one friendship per pair, the lookups find at most one |
| Social.JoinedPairBlocksRequest | convex/social.ts:116-134 | once any friendship joins a pair, every further request between them is refused |
| Social.InsertKeepsPairsUnique | convex/social.ts:137-141 | inserting for an unjoined pair keeps one friendship per pair |
| Social.StatusChangeKeepsPairsUnique | convex/social.ts:170-173 | answering a request keeps one friendship per pair |
| Messages.SendPrivateMessage | convex/messages.ts:6-35 | NotFound unless both users exist; otherwise a private, unread message with attachments defaulting to [] |
| Messages.GetPrivateMessages | convex/messages.ts:38-71 | exactly the messages between the two users in either direction, newest first; the result is `slice(0, limit)` of the unlimited query for a truthy limit and the whole query otherwise |
| Messages.PrivateMessagesSymmetric | convex/messages.ts:48-57 | the conversation is the same whichever user asks |
| Messages.MarkMessageAsRead | convex/messages.ts:74-93 | succeeds iff the caller is the receiver, and then sets only isRead |
| Messages.NewGroup | convex/messages.ts:121-127 | members = [creator] ++ members, admins = [creator]; the group is well formed |
| Messages.CreateChatGroup | convex/messages.ts:96-131 | NotFound unless the creator and every listed member exist; otherwise the new group is stored |
| Messages.GetUserGroups | convex/messages.ts:134-143 | exactly the groups that list the user as a member |
| Messages.AdminGate | convex/messages.ts:153-161 | passes iff the group exists and lists the caller as an admin |
| Messages.AddMember | convex/messages.ts:170-174 | an absent member is appended once at the end and nothing else changes; a present one leaves the group as it was |
| Messages.RemoveMember | convex/messages.ts:203-206 | the member is gone and every other member stays |
| Messages.Promote | convex/messages.ts:236-241 | the member becomes an admin, never twice, and members are unchanged |
| Messages.Leave | convex/messages.ts:273-276 | the user is gone from members and admins; everyone else stays |
| Messages.AddMemberKeepsWellFormed | convex/messages.ts:159-174 | adding keeps admins ⊆ members |
| Messages.AddMemberKeepsDistinct | convex/messages.ts:169-174 | a member list without repeats keeps none, and the added member is listed exactly once |
| Messages.RemoveMemberKeepsWellFormed | convex/messages.ts:194-206 | removing a non-admin keeps admins ⊆ members |
| Messages.PromoteKeepsWellFormed | convex/messages.ts:226-241 | promoting a member keeps admins ⊆ members and admins distinct |
| Messages.LeaveKeepsWellFormed | convex/messages.ts:259-281 | a leave the guard allows keeps an admin and admins ⊆ members, unless the group is deleted |
| Messages.SoleMemberIsAdmin | convex/messages.ts:278-281 | a well-formed group with one entry holds only its admin |
| Messages.CreatorListedTwiceCannotLeave | convex/messages.ts:124-125 | a creator listing themselves among the members is blocked by the last-admin guard |
| Messages.AddGroupMember | convex/messages.ts:146-178 | admin-only; NotFound for an unknown user; otherwise AddMember |
| Messages.RemoveGroupMember | convex/messages.ts:181-210 | admin-only; an admin cannot be removed; otherwise RemoveMember |
| Messages.PromoteToAdmin | convex/messages.ts:213-244 | admin-only; the target must be a member; otherwise Promote |
| Messages.LeaveGroup | convex/messages.ts:247-285 | must be a member; the sole admin cannot leave others behind; the last member's leave deletes the group |
| Messages.GetGroupMessages | convex/messages.ts:287-302 | exactly the group messages addressed to the group, newest first |
| Messages.SendGroupMessage | convex/messages.ts:304-321 | stores the message under the next id with no existence checks |
| Auth.FreshStats | convex/auth.ts:30-38 | a new user's six counters are 0, likedBy is [] and there is no online flag |
| Auth.CreateUser | convex/auth.ts:6-43 | an existing e-mail returns that user's id and writes nothing; otherwise a new "user" is inserted |
| Auth.CreateUserTwice | convex/auth.ts:14-21 | a second createUser with the same e-mail finds the user the first created |
| Auth.ApplyProfile | convex/auth.ts:69-77 | each of name, bio, image and socialLinks takes the supplied value and keeps its old one when absent; every other field is kept |
| Auth.UpdateUserProfile | convex/auth.ts:54-79 | NotFound for a missing user; otherwise only the supplied fields change |
| Auth.DeleteUser | convex/auth.ts:82-94 | NotFound for a missing user; otherwise the user is removed |
| Auth.RoleName | convex/auth.ts:100 | of the three assignable roles, colab and admin pass the creator gate, and only admin the admin gate |
| Auth.UpdateUserRole | convex/auth.ts:97-118 | PermissionDenied unless the actor is an existing admin, then NotFound for a missing target; on success only the role changes |
| Auth.CheckUserExists | convex/auth.ts:121-127 | the document iff it exists, else NotFound |
| Auth.CheckIsColab | convex/auth.ts:129-135 | passes exactly "colab" and "admin"; NotFound for a missing user, PermissionDenied otherwise |
| Auth.CheckIsAdmin | convex/auth.ts:137-143 | passes exactly "admin"; NotFound for a missing user, PermissionDenied otherwise |
| Auth.CheckIsAdminIsStrongest | convex/auth.ts:121-143 | passing checkIsAdmin implies passing checkIsColab, which implies checkUserExists |
| Auth.RoleUpdateGovernsChecks | convex/auth.ts:115 | after a role change the helpers see the new role |
| Users.WithId | convex/users.ts:13 | the rows with that `_id`, and only those |
| Users.GetCollaborators | convex/users.ts:5-18 | exactly the users whose role is not "user", restricted to the given id |
| Users.CollaboratorById | convex/users.ts:12-14 | a lookup by id yields that collaborator alone, or nothing |
| Users.AscendingWithId | convex/users.ts:12-14 | an ascending result holds at most one row per id |
| Users.ProfileLikeStats | convex/users.ts:33-50 | likedBy flips the liker and keeps the others; six counters defaulted to 0; no online flag |
| Users.ProfileLikeTwice | convex/users.ts:46-48 | a like then an unlike by the same user restores likedBy |
| Users.LikeProfile | convex/users.ts:20-56 | NotFound for a missing collaborator; otherwise the stats rebuilt and hasLiked returned |
| Users.LikeProfileAnswers | convex/users.ts:52-54 | the answer hasLiked equals the new membership |
| Users.LikeProfileForgetsOnline | convex/users.ts:38-50 | setting online then liking the profile loses the online flag |
| Users.GetCurrentUser | convex/users.ts:58-88 | nothing without an identity; otherwise the user with that e-mail, if any |
| Users.CurrentUserFound | convex/users.ts:58-88 | with unique e-mails a signed-in lookup finds the user who has the e-mail |
| Users.ApplyUser | convex/users.ts:100-101 | each of name, bio, imageUrl, github and linkedin takes the supplied value and keeps its old one when absent; every other field is kept |
| Users.UpdateUser | convex/users.ts:90-104 | NotFound for an unknown id, otherwise the patch applied |
| Users.DeleteUser | convex/users.ts:106-114 | NotFound for an unknown id, otherwise the user removed |
| Users.GetUsers | convex/users.ts:116-121 | every user, oldest first |
| Users.WithOnline | convex/users.ts:129-139 | sets only the online flag; counters and likers are kept |
| Users.UpdateOnlineStatus | convex/users.ts:123-143 | NotFound for a missing user; otherwise only stats.online changes |
| Admin.Average | convex/admin.ts:42-44 | the mean rating, 0 when there is no review |
| Admin.AverageBounded | convex/admin.ts:42-44 | with ratings in [0, 5], as createReview enforces, the mean lies in [0, 5] |
| Admin.ReviewCount | convex/admin.ts:125-130 | the number of reviews getUserStats collects about the target equals the number of stored reviews about the target |
| Admin.FilteredRatingsInRange | convex/admin.ts:39-44 | every review a filtered collect returns carries a rating of the table, so in [0, 5] when all stored ratings are |
| Admin.DashboardAveragesBounded | convex/admin.ts:42-44 | with every stored rating in [0, 5], getGlobalStats' averageAppRating and getUserStats' averageRating (admin.ts:131) both lie in [0, 5] |
| Admin.ColabsAndAdmins | convex/admin.ts:14-16 | no user is counted both as "colab" and as "admin" |
| Admin.GetGlobalStats | convex/admin.ts:7-76 | refused as checkIsAdmin refuses; otherwise the counts equal the table sizes, and the colab, admin and app-review counts are the numbers of users with exactly that role and of app reviews |
| Admin.GetUserStats | convex/admin.ts:79-163 | refused as checkIsAdmin refuses, then NotFound for a missing target; otherwise the target's profile, and the review total is the number of stored reviews about the target |
| Admin.UserShareOfGlobal | convex/admin.ts:93-122 | only the target's own content is summed: each total is at most the global one, and the rest makes up the difference |
| Admin.GlobalSplitsByAuthor | convex/admin.ts:14-36 | every global content total is the target's own total plus the same total over everybody else's content |
| Admin.Insert | convex/admin.ts:210 | one insertion step keeps the elements as a multiset |
| Admin.InsertSorted | convex/admin.ts:210 | inserting into a non-increasing list keeps it non-increasing |
| Admin.SortDesc | convex/admin.ts:210 | `sort((a, b) => b.score - a.score)`: a permutation, non-increasing by score |
| Admin.MappedMembers | convex/admin.ts:178-207 | a permutation of the mapped users holds one entry per user and no other |
| Admin.ActivityScore | convex/admin.ts:194-200 | posts·2 + projects·3 + blogs·2 plus the stored likes, comments·2 and shares·3 counters; without stats or counters only the content counts |
| Admin.ActivityOf | convex/admin.ts:178-205 | the entry names the user, and its score is at least the weighted content count |
| Admin.Activities | convex/admin.ts:177-207 | one entry per collected user, in order |
| Admin.GetMostActiveUsers | convex/admin.ts:166-219 | refused as checkIsAdmin refuses; otherwise user entries, non-increasing by score, cut to the limit, and every listed user scores at least as high as every user left out |
| Admin.Ranked | convex/admin.ts:177-210 | the sorted list holds exactly one entry per collected user |
| Admin.PrefixOfSorted | convex/admin.ts:213-215 | the slice of a sorted list is sorted, holds only its elements and outscores every element it leaves out |
| Admin.PerformanceOf | convex/admin.ts:237-276 | the entry reports the colab's post, project, blog and review counts and mean rating |
| Admin.Performances | convex/admin.ts:236-278 | one entry per colab, in order |
| Admin.GetTopCollaborators | convex/admin.ts:222-289 | refused as checkIsAdmin refuses; otherwise only role "colab", all of them (exactly the number of colabs) without a limit, min(limit, colabs) of them with one, non-increasing by performance, and every listed colab outscores every colab left out |
| Admin.RankedColabs | convex/admin.ts:230-281 | the sorted list holds exactly the colabs' entries |
| Skills.AddSkill | convex/skills.ts:6-33 | PermissionDenied unless the user exists as "colab" or "admin"; otherwise stores exactly userId, name, level, category |
| Skills.GetUserSkills | convex/skills.ts:36-52 | exactly the user's skills, of the category when a non-empty one is given |
| Skills.OwnerGate | convex/skills.ts:70-81 | passes iff the skill exists and belongs to the caller, with no admin override |
| Skills.ApplyPatch | convex/skills.ts:76-81 | each of name, level and category takes the supplied value and keeps its old one when absent; the owner is kept |
| Skills.UpdateSkill | convex/skills.ts:55-84 | the owner check, then only the supplied fields change |
| Skills.DeleteSkill | convex/skills.ts:87-106 | the owner check, then the skill is removed |
| Skills.UpdateKeepsOwner | convex/skills.ts:70-81 | whoever could change a skill can still change it after an update |
| Skills.GetSkillsByCategory | convex/skills.ts:109-117 | exactly the skills of the category |
| Skills.Categories | convex/skills.ts:124 | one category per skill, in order |
| Skills.GetAllCategories | convex/skills.ts:120-126 | each category at most once, and exactly the categories of existing skills |
| Skills.CategoriesFromTable | convex/skills.ts:122-124 | every listed category belongs to some skill |
| Skills.TableCategoriesListed | convex/skills.ts:122-124 | every skill's category is listed |
| Skills.CategoryListedIffNonEmpty | convex/skills.ts:109-126 | a category is listed iff getSkillsByCategory finds a skill in it |
| Tests.TestUserPermissions | convex/tests.ts:6-63 | basic permissions are all true; content permissions hold iff the role is "colab" or "admin"; admin permissions iff "admin" |
| Tests.AdminReportIncludesContent | convex/tests.ts:34-48 | any admin permission implies every content permission |
| Tests.MissingUserHasNoRolePermissions | convex/tests.ts:17-21 | a missing user has no role and no role-based permission |
| Tests.ReportAgreesWithGates | convex/tests.ts:34-48 | the report's flags agree with the handlers' own gates |
| Tests.BlogFlagIgnoresBlogTs | convex/tests.ts:34-40 | a "colab" is reported able to create blogs, but blog.ts refuses them |
| Tables.All | convex/reviews.ts:4-15 | getAll of reviews.ts (and getAll of blog.ts over posts): every document, oldest first |
| Reviews.Create | convex/reviews.ts:17-35 | inserts unchecked with isAppReview = false and the timestamp |
| Reviews.ReviewAuthor | convex/reviews.ts:55-70 | Unauthenticated without an e-mail; otherwise the unique user with that e-mail, or NotFound/NotUnique |
| Reviews.ReviewAuthorKnown | convex/reviews.ts:60-70 | with unique e-mails, an existing e-mail always finds its user |
| Reviews.AddedReview | convex/reviews.ts:73-86 | isAppReview iff targetType is "app"; snapshots the author's name |
| Reviews.Add | convex/reviews.ts:37-91 | the author lookup's error, or the review inserted; no rating check |
| Reviews.AddedReviewListed | convex/reviews.ts:73-86 | a review add stores appears in social.ts's app or collaborator listing according to its type |
| Reviews.Fixed | convex/reviews.ts:104-110 | a missing name becomes "Webify" for app reviews and "Utilisateur" otherwise; everything else is kept |
| Reviews.FixMissingTargetName | convex/reviews.ts:93-116 | the loop leaves every collected review fixed and no other change |
| Reviews.FixAllComplete | convex/reviews.ts:104-111 | after the repair every review has a target name |
| Reviews.FixAllIdempotent | convex/reviews.ts:104-111 | a second repair changes nothing |
| Blog.UserBySubject | convex/blog.ts:17-20 | the user whose id renders as the identity subject, if any |
| Blog.WriterGate | convex/blog.ts:12-24 | fails without an identity, and unless the user is "admin" or "collaborator" |
| Blog.BlogPost | convex/blog.ts:26-38 | empty comments, likes and saves, shares = 0, published, author = the resolved user |
| Blog.Create | convex/blog.ts:4-42 | the gate's error, or the post inserted with the resolved author |
| Blog.WriterSignedIn | convex/blog.ts:12-24 | a signed-in admin or collaborator passes as themselves |
| Blog.NewUserCannotWrite | convex/blog.ts:22-24 | a freshly created "user" is refused |
| Migration.SchemaStats | convex/migrate.ts:19-29 | six counters defaulted to 0, likedBy kept or [], no online flag |
| Migration.FallbackUserId | convex/migrate.ts:32-36 | the e-mail, or "user-<id>" when it is empty; never empty |
| Migration.Normalized | convex/migrate.ts:16-36 | a repaired user has a userId, keeps a present one, and has schema stats; nothing else changes |
| Migration.NormalizedIdempotent | convex/migrate.ts:16-36 | repairing a repaired user changes nothing |
| Migration.MigrateUserEffect | convex/migrate.ts:13-42 | one loop pass writes stats then userId; a refused write stops it; counted iff nothing was refused |
| Migration.CountWhere | convex/migrate.ts:38 | the count never exceeds the number of users |
| Migration.CountEvery | convex/migrate.ts:38 | counting everyone gives the number collected |
| Migration.MigrateOne | convex/migrate.ts:13-42 | the `try` body as writes on the store, agreeing with the pass function |
| Migration.Migrate | convex/migrate.ts:3-48 | the table after the loop and the returned count, in terms of the per-user pass |
| Migration.MigrateCountsAll | convex/migrate.ts:10-46 | with no refusal every user is repaired and counted |
| Migration.MigrateKeepsEmails | convex/migrate.ts:10-46 | the repair keeps e-mails unique |
| FixUsers.FixUserEffect | convex/fix_users.ts:10-38 | userId first, then stats; a refused write stops the pass; counted iff nothing was refused |
| FixUsers.FixOne | convex/fix_users.ts:10-38 | the `try` body as writes on the store, agreeing with the pass function |
| FixUsers.FixUsers | convex/fix_users.ts:3-43 | the table after the loop and the returned count, in terms of the per-user pass |
| FixUsers.FixKeepsEmails | convex/fix_users.ts:8-40 | the repair keeps e-mails unique |
| FixUsers.ScriptsAgree | convex/fix_users.ts:13-32 | with no refusal fixUsers and migrate do the same to every user |
| FixUsers.OrderMattersOnRefusal | convex/fix_users.ts:13-32 | a refused userId write leaves different users behind in the two scripts |
| FixUsers.FixCountsAll | convex/fix_users.ts:8-40 | with no refusal every user is counted |

## Findings

| source | as written | input that shows it | evidently intended | confidence | as-written member | corrected member |
|---|---|---|---|---|---|---|
| convex/posts.ts:57-61 (the same in posts.ts:78-82, blogs.ts:63-67, blogs.ts:84-88, projects.ts:62-66, projects.ts:82-86) | `q = q.take(limit)` and then `q.collect()`: `take` already returns the rows as a promise, which has no `collect`, so any truthy limit makes the query fail | getAllPosts with `limit: 10` | at most `limit` matching rows, newest first | not executed; follows from `take` returning a promise of rows | Tables.QueryDescAsWritten, Tables.TakeThenCollectFails | Tables.QueryDesc |
| convex/blogs.ts:55-56 | the tag filter calls `q.contains`, which the filter builder does not provide, so any given tag makes getAllBlogs fail | getAllBlogs with `tag: "dafny"` | only the published articles whose tags include the tag | not executed; follows from the filter builder offering comparisons, arithmetic and boolean operators only | Blogs.GetAllBlogsAsWritten, Blogs.TagFilterFails | Blogs.GetAllBlogs |

The six list queries of posts.ts, blogs.ts and projects.ts are modelled with the intended
behaviour. The pages call getAllBlogs and getAllProjects with no arguments
(app/blog/page.tsx:22, app/projects/page.tsx:22), so neither failing path is reached there.

## Left out

- Cursor pagination (`cursor` arguments comparing `_id`s) is not modelled. The list queries
  take no cursor and return the first page only.
- Limits are natural numbers or integers. A fractional or NaN limit is not modelled.
- Ratings and the dashboard averages are exact reals, not IEEE doubles. Rounding and NaN are not
  modelled, and the average is the exact quotient.
- Timestamps (`new Date().toISOString()`) are a string parameter `now`.
- Console logging is not modelled. `Promise.all` fan-out is read as sequential, since each
  handler is one transaction.
- Concurrency is not modelled: every handler is one atomic method.
- Schema validation of writes is not decided here. The repair scripts take the set of refused
  writes as an input (`Migration.Refusals`). The other handlers assume the store accepts their
  writes.
- The generated API, the auth configuration, the UI and the HTTP routes are not part of this
  model.
- testPermissionsInAction (convex/tests.ts) is not modelled: it inserts, patches and deletes
  real rows to exercise the database, and states no rule.
- Admin.SortDesc: the rankings are proved non-increasing and a permutation. The stability of
  JavaScript's sort for equal scores is not stated.
- Blog.WriterGate: blog.ts `create` throws the same error for a missing identity, a missing
  user and a refused role, and the model reports all three as PermissionDenied.
- Blog.UserBySubject: the identity subject is compared with the decimal rendering of the user id.
  Convex ids are opaque strings, and the model uses their order only as creation order.
- Users.LikeProfile: the rebuilt stats drop `online` and the engagement counters, as the source
  does. This loss is stated, not treated as a defect.
- Posts.CommentPost, Blogs.CommentBlog, Projects.CommentProject: the comment id is taken
  inline from `nextId`, exactly as `Db.FreshId` hands it out, and all writes happen in one
  assignment.
- getBlog, getProject and getUser are the same `ctx.db.get` read as getPost and are modelled by
  Tables.Get.
- Admin.PerformanceOf: the performance score is stated only through its reported counts and
  average. Its real-valued sum is the function's definition, with no further lemma.
