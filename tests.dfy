/**
 * testUserPermissions of convex/tests.ts: a report of what a user's role allows, computed from
 * the role alone. It writes nothing, so it is a function of the users table.
 */
module Tests {
  import opened Base
  import opened Records
  import opened Roles
  import opened Engagement
  import Auth

  /** The permissions every user has, whatever their role. */
  datatype BasicPermissions = BasicPermissions(
    canViewProfile: bool,
    canSendMessages: bool,
    canLikeContent: bool,
    canCommentContent: bool,
    canJoinGroups: bool)

  /** The permissions of "colab" and "admin". */
  datatype ContentPermissions = ContentPermissions(
    canCreatePost: bool,
    canCreateProject: bool,
    canCreateBlog: bool,
    canManageSkills: bool,
    hasCertificationBadge: bool)

  /** The permissions of "admin" alone. */
  datatype AdminPermissions = AdminPermissions(
    canAccessDashboard: bool,
    canManageUsers: bool,
    canViewGlobalStats: bool,
    canModifyAnyContent: bool)

  /** The report; `role` is `user?.role`, absent when the id names no user. */
  datatype Report = Report(
    userId: Id,
    role: Option<Role>,
    basic: BasicPermissions,
    content: ContentPermissions,
    admin: AdminPermissions,
    success: bool)

  /** `user?.role === r`: false when there is no user. */
  predicate RoleIs(role: Option<Role>, r: Role)
  {
    role == Some(r)
  }

  function TestUserPermissions(users: map<Id, User>, userId: Id): (rep: Report)
    ensures rep.success && rep.userId == userId
    ensures rep.role.Some? <==> userId in users
    ensures rep.role.Some? ==> rep.role.value == users[userId].role
    ensures rep.basic == BasicPermissions(true, true, true, true, true)
    ensures rep.content.canCreatePost <==> userId in users && IsColabOrAdmin(users[userId].role)
    ensures var x := rep.content.canCreatePost; rep.content == ContentPermissions(x, x, x, x, x)
    ensures rep.admin.canAccessDashboard <==> userId in users && IsAdmin(users[userId].role)
    ensures var x := rep.admin.canAccessDashboard; rep.admin == AdminPermissions(x, x, x, x)
  {
    var role := if userId in users then Some(users[userId].role) else None;
    var creator := RoleIs(role, "colab") || RoleIs(role, "admin");
    var admin := RoleIs(role, "admin");
    Report(
      userId,
      role,
      BasicPermissions(true, true, true, true, true),
      ContentPermissions(creator, creator, creator, creator, creator),
      AdminPermissions(admin, admin, admin, admin),
      true)
  }

  /** Every administrative permission the report grants comes with every content permission. */
  lemma AdminReportIncludesContent(users: map<Id, User>, userId: Id)
    ensures var rep := TestUserPermissions(users, userId);
      rep.admin.canAccessDashboard ==> rep.content == ContentPermissions(true, true, true, true, true)
  {
  }

  /** An id that names no user is reported with no role and with neither content nor admin permissions. */
  lemma MissingUserHasNoRolePermissions(users: map<Id, User>, userId: Id)
    requires userId !in users
    ensures var rep := TestUserPermissions(users, userId);
      && rep.role.None?
      && rep.content == ContentPermissions(false, false, false, false, false)
      && rep.admin == AdminPermissions(false, false, false, false)
  {
  }

  /**
   * The report agrees with the handlers' own gates: the creation flags with the gate of
   * createPost, createBlog, createProject and addSkill; the dashboard flag with checkIsAdmin; the
   * flag for modifying any content with the ownership check of updates and deletes, which lets
   * an admin through whoever the author is.
   */
  lemma ReportAgreesWithGates(users: map<Id, User>, userId: Id, author: Id)
    ensures var rep := TestUserPermissions(users, userId);
      && (rep.content.canCreatePost <==> MayCreate(users, userId))
      && (rep.admin.canAccessDashboard <==> Auth.CheckIsAdmin(users, userId).Ok?)
      && (rep.admin.canModifyAnyContent ==> Authorize(Some(author), userId, users) == Pass)
  {
  }

  /**
   * The report calls a "colab" able to create blogs, which createBlog in blogs.ts allows, but
   * create in blog.ts refuses the same user because it expects "collaborator".
   */
  lemma BlogFlagIgnoresBlogTs(users: map<Id, User>, userId: Id)
    requires userId in users && users[userId].role == "colab"
    ensures TestUserPermissions(users, userId).content.canCreateBlog
    ensures MayCreate(users, userId)
    ensures !IsBlogWriter(users[userId].role)
  {
  }
}
