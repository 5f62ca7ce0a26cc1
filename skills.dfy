/** The handlers of convex/skills.ts: the skills a collaborator lists, grouped by free-text category. */
module Skills {
  import opened Base
  import opened Seqs
  import opened Records
  import opened Tables
  import opened Store
  import opened Engagement

  /** addSkill: only an existing "colab" or "admin" may add a skill, which is stored under their id. */
  method AddSkill(db: Db, userId: Id, name: string, level: SkillLevel, category: string) returns (r: Result<Id>)
    modifies db`skills, db`nextId
    ensures !MayCreate(old(db.users), userId) ==>
      r == Err(PermissionDenied) && db.skills == old(db.skills) && db.nextId == old(db.nextId)
    ensures MayCreate(old(db.users), userId) ==>
      r == Ok(old(db.nextId)) && db.nextId == old(db.nextId) + 1
      && db.skills == old(db.skills)[r.value := Skill(userId, name, level, category)]
    ensures old(db.Valid()) ==> db.Valid()
  {
    if !MayCreate(db.users, userId) {
      return Err(PermissionDenied);
    }
    var id := db.FreshId();
    db.skills := db.skills[id := Skill(userId, name, level, category)];
    r := Ok(id);
  }

  /** The filter of getUserSkills: the user's skills, and only those of the category when one is given. */
  predicate OwnedIn(userId: Id, category: Option<string>, s: Skill)
  {
    s.userId == userId && (Given(category) ==> s.category == category.value)
  }

  /** getUserSkills: the user's skills, oldest first, restricted to a non-empty category when given. */
  function GetUserSkills(skills: map<Id, Skill>, bound: nat, userId: Id, category: Option<string>): (rows: seq<Row<Skill>>)
    ensures forall r :: r in rows ==> InTable(skills, r) && r.doc.userId == userId
    ensures Given(category) ==> forall r :: r in rows ==> r.doc.category == category.value
    ensures Ascending(rows)
    ensures KeysBelow(skills, bound) ==>
      forall id :: id in skills && OwnedIn(userId, category, skills[id]) ==> Row(id, skills[id]) in rows
  {
    assert forall id :: id in skills ==> InTable(skills, Row(id, skills[id]));
    QueryAsc(skills, bound, s => OwnedIn(userId, category, s))
  }

  /** The checks of updateSkill and deleteSkill: the skill must exist and belong to the caller; admins get no exception. */
  function OwnerGate(skills: map<Id, Skill>, skillId: Id, userId: Id): (o: Outcome)
    ensures o == Pass <==> skillId in skills && skills[skillId].userId == userId
    ensures skillId !in skills ==> o == Fail(NotFound)
    ensures skillId in skills && skills[skillId].userId != userId ==> o == Fail(PermissionDenied)
  {
    if skillId !in skills then Fail(NotFound)
    else if skills[skillId].userId != userId then Fail(PermissionDenied)
    else Pass
  }

  /** The fields updateSkill may change; an absent argument leaves its field as it was. */
  datatype SkillPatch = SkillPatch(name: Option<string>, level: Option<SkillLevel>, category: Option<string>)

  function ApplyPatch(s: Skill, p: SkillPatch): (s': Skill)
    ensures s'.userId == s.userId
    ensures p.name.Some? ==> s'.name == p.name.value
    ensures p.name.None? ==> s'.name == s.name
    ensures p.level.Some? ==> s'.level == p.level.value
    ensures p.level.None? ==> s'.level == s.level
    ensures p.category.Some? ==> s'.category == p.category.value
    ensures p.category.None? ==> s'.category == s.category
  {
    s.(name := if p.name.Some? then p.name.value else s.name,
       level := if p.level.Some? then p.level.value else s.level,
       category := if p.category.Some? then p.category.value else s.category)
  }

  method UpdateSkill(db: Db, skillId: Id, userId: Id, patch: SkillPatch) returns (r: Result<Id>)
    modifies db`skills
    ensures var gate := OwnerGate(old(db.skills), skillId, userId);
      && (gate.Fail? ==> r == Err(gate.error) && db.skills == old(db.skills))
      && (gate == Pass ==> r == Ok(skillId) && db.skills == old(db.skills)[skillId := ApplyPatch(old(db.skills)[skillId], patch)])
    ensures old(db.Valid()) ==> db.Valid()
  {
    var gate := OwnerGate(db.skills, skillId, userId);
    if gate.Fail? {
      return Err(gate.error);
    }
    db.skills := db.skills[skillId := ApplyPatch(db.skills[skillId], patch)];
    r := Ok(skillId);
  }

  method DeleteSkill(db: Db, skillId: Id, userId: Id) returns (o: Outcome)
    modifies db`skills
    ensures o == OwnerGate(old(db.skills), skillId, userId)
    ensures o.Fail? ==> db.skills == old(db.skills)
    ensures o == Pass ==> db.skills == old(db.skills) - {skillId}
    ensures old(db.Valid()) ==> db.Valid()
  {
    o := OwnerGate(db.skills, skillId, userId);
    if o == Pass {
      db.skills := db.skills - {skillId};
    }
  }

  /** An update never moves a skill to another owner, so whoever could change it before still can. */
  lemma UpdateKeepsOwner(skills: map<Id, Skill>, skillId: Id, userId: Id, patch: SkillPatch)
    requires OwnerGate(skills, skillId, userId) == Pass
    ensures OwnerGate(skills[skillId := ApplyPatch(skills[skillId], patch)], skillId, userId) == Pass
  {
  }

  predicate InCategory(category: string, s: Skill)
  {
    s.category == category
  }

  /** getSkillsByCategory: every skill of the category, oldest first. */
  function GetSkillsByCategory(skills: map<Id, Skill>, bound: nat, category: string): (rows: seq<Row<Skill>>)
    ensures forall r :: r in rows ==> InTable(skills, r) && r.doc.category == category
    ensures Ascending(rows)
    ensures KeysBelow(skills, bound) ==>
      forall id :: id in skills && skills[id].category == category ==> Row(id, skills[id]) in rows
  {
    assert forall id :: id in skills ==> InTable(skills, Row(id, skills[id]));
    QueryAsc(skills, bound, s => InCategory(category, s))
  }

  /** `skills.map(skill => skill.category)`. */
  function Categories(rows: seq<Row<Skill>>): (cs: seq<string>)
    ensures |cs| == |rows| && forall i :: 0 <= i < |rows| ==> cs[i] == rows[i].doc.category
  {
    if rows == [] then [] else [rows[0].doc.category] + Categories(rows[1..])
  }

  /**
   * getAllCategories: `Array.from(new Set(categories))`, each category once, in the order of its
   * first skill.
   */
  function GetAllCategories(skills: map<Id, Skill>, bound: nat): (cs: seq<string>)
    ensures Distinct(cs)
    ensures forall c :: c in cs ==> exists id :: id in skills && skills[id].category == c
    ensures KeysBelow(skills, bound) ==> forall id :: id in skills ==> skills[id].category in cs
  {
    var rows := Collect(skills, bound);
    var all := Categories(rows);
    DedupeSound(all);
    CategoriesFromTable(skills, bound);
    TableCategoriesListed(skills, bound);
    Dedupe(all)
  }

  /** Every category read off the collected skills is the category of some skill of the table. */
  lemma CategoriesFromTable(skills: map<Id, Skill>, bound: nat)
    ensures forall c :: c in Categories(Collect(skills, bound)) ==> exists id :: id in skills && skills[id].category == c
  {
    var rows := Collect(skills, bound);
    var all := Categories(rows);
    CollectIsTable(skills, bound);
    forall c | c in all ensures exists id :: id in skills && skills[id].category == c {
      var i :| 0 <= i < |all| && all[i] == c;
      assert rows[i] in rows;
    }
  }

  /** When every skill is collected, every skill's category is read off. */
  lemma TableCategoriesListed(skills: map<Id, Skill>, bound: nat)
    ensures KeysBelow(skills, bound) ==> forall id :: id in skills ==> skills[id].category in Categories(Collect(skills, bound))
  {
    var rows := Collect(skills, bound);
    var all := Categories(rows);
    CollectIsTable(skills, bound);
    if KeysBelow(skills, bound) {
      forall id | id in skills ensures skills[id].category in all {
        assert InTable(skills, Row(id, skills[id]));
        var i :| 0 <= i < |rows| && rows[i] == Row(id, skills[id]);
        assert all[i] == skills[id].category;
      }
    }
  }

  /** A category is listed by getAllCategories exactly when getSkillsByCategory finds a skill in it. */
  lemma {:induction false} CategoryListedIffNonEmpty(skills: map<Id, Skill>, bound: nat, c: string)
    requires KeysBelow(skills, bound)
    ensures c in GetAllCategories(skills, bound) <==> GetSkillsByCategory(skills, bound, c) != []
  {
    var rows := GetSkillsByCategory(skills, bound, c);
    if c in GetAllCategories(skills, bound) {
      var id :| id in skills && skills[id].category == c;
      assert Row(id, skills[id]) in rows;
    }
    HeadIn(rows);
  }
}
