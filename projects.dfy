/** The handlers of convex/projects.ts: portfolio projects (at most two images), likes and comments. */
module Projects {
  import opened Base
  import opened Seqs
  import opened Records
  import opened Tables
  import opened Store
  import opened Engagement

  function ProjectAuthor(p: Project): Id
  {
    p.authorId
  }

  /** The document createProject inserts: the arguments, no likes or comments yet. */
  function NewProject(
    authorId: Id, title: string, description: string, images: seq<string>, video: Option<string>,
    githubLink: Option<string>, demoLink: Option<string>, technologies: seq<string>): (p: Project)
    ensures p.authorId == authorId && p.images == images && p.technologies == technologies
    ensures p.likes == [] && p.comments == []
  {
    Project(authorId, title, description, images, video, githubLink, demoLink, technologies, [], [])
  }

  /** The fields updateProject may change; an absent argument leaves its field as it was. */
  datatype ProjectPatch = ProjectPatch(
    title: Option<string>,
    description: Option<string>,
    images: Option<seq<string>>,
    video: Option<string>,
    githubLink: Option<string>,
    demoLink: Option<string>,
    technologies: Option<seq<string>>)

  function ApplyPatch(p: Project, u: ProjectPatch): (p': Project)
    ensures p'.authorId == p.authorId && p'.likes == p.likes && p'.comments == p.comments
    ensures u.title.Some? ==> p'.title == u.title.value
    ensures u.title.None? ==> p'.title == p.title
    ensures u.description.Some? ==> p'.description == u.description.value
    ensures u.description.None? ==> p'.description == p.description
    ensures u.images.Some? ==> p'.images == u.images.value
    ensures u.images.None? ==> p'.images == p.images
    ensures u.video.Some? ==> p'.video == u.video
    ensures u.video.None? ==> p'.video == p.video
    ensures u.githubLink.Some? ==> p'.githubLink == u.githubLink
    ensures u.githubLink.None? ==> p'.githubLink == p.githubLink
    ensures u.demoLink.Some? ==> p'.demoLink == u.demoLink
    ensures u.demoLink.None? ==> p'.demoLink == p.demoLink
    ensures u.technologies.Some? ==> p'.technologies == u.technologies.value
    ensures u.technologies.None? ==> p'.technologies == p.technologies
    ensures u == ProjectPatch(None, None, None, None, None, None, None) ==> p' == p
  {
    p.(title := if u.title.Some? then u.title.value else p.title,
       description := if u.description.Some? then u.description.value else p.description,
       images := if u.images.Some? then u.images.value else p.images,
       video := if u.video.Some? then u.video else p.video,
       githubLink := if u.githubLink.Some? then u.githubLink else p.githubLink,
       demoLink := if u.demoLink.Some? then u.demoLink else p.demoLink,
       technologies := if u.technologies.Some? then u.technologies.value else p.technologies)
  }

  /**
   * createProject: the role check comes first, then the image count; on success the project is
   * stored with the next id.
   */
  method CreateProject(
    db: Db, authorId: Id, title: string, description: string, images: seq<string>, video: Option<string>,
    githubLink: Option<string>, demoLink: Option<string>, technologies: seq<string>)
    returns (r: Result<Id>)
    modifies db`projects, db`nextId
    ensures !MayCreate(old(db.users), authorId) ==>
      r == Err(PermissionDenied) && db.projects == old(db.projects) && db.nextId == old(db.nextId)
    ensures MayCreate(old(db.users), authorId) && |images| > MaxProjectImages ==>
      r == Err(InvalidArgument) && db.projects == old(db.projects) && db.nextId == old(db.nextId)
    ensures MayCreate(old(db.users), authorId) && |images| <= MaxProjectImages ==>
      r == Ok(old(db.nextId)) && db.nextId == old(db.nextId) + 1
      && db.projects == old(db.projects)[r.value :=
           NewProject(authorId, title, description, images, video, githubLink, demoLink, technologies)]
    ensures old(db.Valid()) ==> db.Valid()
  {
    if !MayCreate(db.users, authorId) {
      return Err(PermissionDenied);
    }
    if |images| > MaxProjectImages {
      return Err(InvalidArgument);
    }
    var id := db.FreshId();
    db.projects := db.projects[id := NewProject(authorId, title, description, images, video, githubLink, demoLink, technologies)];
    r := Ok(id);
  }

  predicate Any(p: Project)
  {
    true
  }

  /** getAllProjects without a cursor: every project, newest first, at most `limit` of them. */
  function GetAllProjects(projects: map<Id, Project>, bound: nat, limit: Option<nat>): (rows: seq<Row<Project>>)
    ensures forall r :: r in rows ==> r.id in projects && projects[r.id] == r.doc
    ensures Descending(rows)
    ensures KeysBelow(projects, bound) && limit.None? ==>
      forall id :: id in projects ==> Row(id, projects[id]) in rows
  {
    QueryDesc(projects, bound, Any, limit)
  }

  predicate By(authorId: Id, p: Project)
  {
    p.authorId == authorId
  }

  /** getAuthorProjects: the author's projects, newest first, at most `limit` of them. */
  function GetAuthorProjects(projects: map<Id, Project>, bound: nat, authorId: Id, limit: Option<nat>)
    : (rows: seq<Row<Project>>)
    ensures forall r :: r in rows ==> r.id in projects && projects[r.id] == r.doc && r.doc.authorId == authorId
    ensures Descending(rows)
    ensures KeysBelow(projects, bound) && limit.None? ==>
      forall id :: id in projects && projects[id].authorId == authorId ==> Row(id, projects[id]) in rows
  {
    QueryDesc(projects, bound, p => By(authorId, p), limit)
  }

  /** updateProject: the ownership check, then the image count of a new image list. */
  method UpdateProject(db: Db, projectId: Id, authorId: Id, patch: ProjectPatch) returns (r: Result<Id>)
    modifies db`projects
    ensures var gate := Authorize(AuthorOf(old(db.projects), projectId, ProjectAuthor), authorId, db.users);
      && (gate.Fail? ==> r == Err(gate.error) && db.projects == old(db.projects))
      && (gate == Pass && patch.images.Some? && |patch.images.value| > MaxProjectImages ==>
            r == Err(InvalidArgument) && db.projects == old(db.projects))
      && (gate == Pass && (patch.images.None? || |patch.images.value| <= MaxProjectImages) ==>
            r == Ok(projectId)
            && db.projects == old(db.projects)[projectId := ApplyPatch(old(db.projects)[projectId], patch)])
    ensures old(db.Valid()) ==> db.Valid()
  {
    var gate := Authorize(AuthorOf(db.projects, projectId, ProjectAuthor), authorId, db.users);
    if gate.Fail? {
      return Err(gate.error);
    }
    if patch.images.Some? && |patch.images.value| > MaxProjectImages {
      return Err(InvalidArgument);
    }
    db.projects := db.projects[projectId := ApplyPatch(db.projects[projectId], patch)];
    r := Ok(projectId);
  }

  method DeleteProject(db: Db, projectId: Id, userId: Id) returns (o: Outcome)
    modifies db`projects
    ensures o == Authorize(AuthorOf(old(db.projects), projectId, ProjectAuthor), userId, db.users)
    ensures o.Fail? ==> db.projects == old(db.projects)
    ensures o == Pass ==> db.projects == old(db.projects) - {projectId}
    ensures old(db.Valid()) ==> db.Valid()
  {
    o := Authorize(AuthorOf(db.projects, projectId, ProjectAuthor), userId, db.users);
    if o == Pass {
      db.projects := db.projects - {projectId};
    }
  }

  method LikeProject(db: Db, projectId: Id, userId: Id) returns (o: Outcome)
    modifies db`projects, db`users
    ensures projectId !in old(db.projects) || userId !in old(db.users) ==>
      o == Fail(NotFound) && db.projects == old(db.projects) && db.users == old(db.users)
    ensures projectId in old(db.projects) && userId in old(db.users) ==>
      var p := old(db.projects)[projectId];
      var t := LikeStep(p.likes, p.authorId, userId, old(db.users));
      o == Pass && db.projects == old(db.projects)[projectId := p.(likes := t.ids)] && db.users == t.users
    ensures old(db.Valid()) ==> db.Valid()
  {
    if projectId !in db.projects || userId !in db.users {
      return Fail(NotFound);
    }
    var project := db.projects[projectId];
    var t := LikeStep(project.likes, project.authorId, userId, db.users);
    BumpKeepsEmails(db.users, project.authorId, "likes", userId !in project.likes);
    db.projects, db.users := db.projects[projectId := project.(likes := t.ids)], t.users;
    o := Pass;
  }

  method CommentProject(db: Db, projectId: Id, authorId: Id, content: string) returns (r: Result<Id>)
    modifies db`projects, db`users, db`comments, db`nextId
    ensures projectId !in old(db.projects) || authorId !in old(db.users) ==>
      r == Err(NotFound) && db.projects == old(db.projects) && db.users == old(db.users)
      && db.comments == old(db.comments) && db.nextId == old(db.nextId)
    ensures projectId in old(db.projects) && authorId in old(db.users) ==>
      var p := old(db.projects)[projectId];
      var t := CommentStep(p.comments, old(db.nextId), p.authorId, old(db.users));
      && r == Ok(old(db.nextId)) && db.nextId == old(db.nextId) + 1
      && db.comments == old(db.comments)[r.value := Comment(projectId, authorId, content, [])]
      && db.projects == old(db.projects)[projectId := p.(comments := t.ids)]
      && db.users == t.users
    ensures old(db.Valid()) ==> db.Valid()
  {
    if projectId !in db.projects || authorId !in db.users {
      return Err(NotFound);
    }
    var project := db.projects[projectId];
    // The comment's id, handed out as Db.FreshId hands it out; all four writes in one step.
    var commentId := db.nextId;
    BumpKeepsEmails(db.users, project.authorId, "comments", true);
    db.comments, db.projects, db.users, db.nextId :=
      db.comments[commentId := Comment(projectId, authorId, content, [])],
      db.projects[projectId := project.(comments := project.comments + [commentId])],
      BumpAuthor(db.users, project.authorId, "comments", true),
      commentId + 1;
    r := Ok(commentId);
  }
}
