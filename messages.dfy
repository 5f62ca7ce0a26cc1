/**
 * The handlers of convex/messages.ts: private messages between two users, and chat groups whose
 * admins manage the member list. A group always keeps at least one admin, and every admin is a
 * member; the group is deleted when its last member leaves.
 */
module Messages {
  import opened Base
  import opened Seqs
  import opened Records
  import opened Tables
  import opened Store

  /** `attachments || []`. */
  function OrNone(attachments: Option<seq<string>>): seq<string>
  {
    if attachments.Some? then attachments.value else []
  }

  method SendPrivateMessage(db: Db, senderId: Id, receiverId: Id, content: string, attachments: Option<seq<string>>)
    returns (r: Result<Id>)
    modifies db`messages, db`nextId
    ensures senderId !in db.users || receiverId !in db.users ==>
      r == Err(NotFound) && db.messages == old(db.messages) && db.nextId == old(db.nextId)
    ensures senderId in db.users && receiverId in db.users ==>
      r == Ok(old(db.nextId)) && db.nextId == old(db.nextId) + 1
      && db.messages == old(db.messages)[r.value := Message(senderId, receiverId, Private, content, OrNone(attachments), false)]
    ensures old(db.Valid()) ==> db.Valid()
  {
    if senderId !in db.users || receiverId !in db.users {
      return Err(NotFound);
    }
    var id := db.FreshId();
    db.messages := db.messages[id := Message(senderId, receiverId, Private, content, OrNone(attachments), false)];
    r := Ok(id);
  }

  predicate Exchanged(a: Id, b: Id, m: Message)
  {
    (m.senderId == a && m.receiverId == b) || (m.senderId == b && m.receiverId == a)
  }

  /**
   * getPrivateMessages without a cursor: the messages sent between the two users in either
   * direction, newest first, cut by the limit.
   */
  function GetPrivateMessages(messages: map<Id, Message>, bound: nat, userId1: Id, userId2: Id, limit: Option<int>)
    : (rows: seq<Row<Message>>)
    ensures forall r :: r in rows ==> r.id in messages && messages[r.id] == r.doc && Exchanged(userId1, userId2, r.doc)
    ensures Descending(rows)
    ensures KeysBelow(messages, bound) && limit.None? ==>
      forall id :: id in messages && Exchanged(userId1, userId2, messages[id]) ==> Row(id, messages[id]) in rows
    ensures rows == SliceLimit(QueryDesc(messages, bound, m => Exchanged(userId1, userId2, m), None), limit)
  {
    var all := QueryDesc(messages, bound, m => Exchanged(userId1, userId2, m), None);
    PrefixKeeps(all, SliceLimit(all, limit));
    SliceLimit(all, limit)
  }

  /** The conversation between two users is the same whichever of them asks. */
  lemma PrivateMessagesSymmetric(messages: map<Id, Message>, bound: nat, a: Id, b: Id, limit: Option<int>)
    ensures GetPrivateMessages(messages, bound, a, b, limit) == GetPrivateMessages(messages, bound, b, a, limit)
  {
    var p, q := (m: Message) => Exchanged(a, b, m), (m: Message) => Exchanged(b, a, m);
    FilterAgrees(CollectDesc(messages, bound), p, q);
  }

  lemma {:induction false} FilterAgrees<T>(rows: seq<Row<T>>, p: T -> bool, q: T -> bool)
    requires forall x :: p(x) == q(x)
    ensures Filter(rows, p) == Filter(rows, q)
  {
    if rows != [] {
      FilterAgrees(rows[1..], p, q);
    }
  }

  /** markMessageAsRead: only the receiver may mark a message read. */
  method MarkMessageAsRead(db: Db, messageId: Id, userId: Id) returns (o: Outcome)
    modifies db`messages
    ensures messageId !in old(db.messages) ==> o == Fail(NotFound)
    ensures messageId in old(db.messages) && old(db.messages)[messageId].receiverId != userId ==> o == Fail(PermissionDenied)
    ensures o.Fail? ==> db.messages == old(db.messages)
    ensures o == Pass <==> messageId in old(db.messages) && old(db.messages)[messageId].receiverId == userId
    ensures o == Pass ==> db.messages == old(db.messages)[messageId := old(db.messages)[messageId].(isRead := true)]
    ensures old(db.Valid()) ==> db.Valid()
  {
    if messageId !in db.messages {
      return Fail(NotFound);
    }
    var m := db.messages[messageId];
    if m.receiverId != userId {
      return Fail(PermissionDenied);
    }
    db.messages := db.messages[messageId := m.(isRead := true)];
    o := Pass;
  }

  // ---- chat groups ----

  /** The group createChatGroup stores: the creator first, then the listed members, and the creator as sole admin. */
  function NewGroup(name: string, description: Option<string>, creatorId: Id, members: seq<Id>, image: Option<string>)
    : (g: ChatGroup)
    ensures GroupWellFormed(g)
    ensures g.admins == [creatorId] && |g.members| == |members| + 1 && g.members[0] == creatorId && g.members[1..] == members
  {
    ChatGroup(name, description, [creatorId] + members, [creatorId], image)
  }

  /** Every id of the list names a user. */
  predicate AllUsers(users: map<Id, User>, ids: seq<Id>)
  {
    forall i :: 0 <= i < |ids| ==> ids[i] in users
  }

  method CreateChatGroup(db: Db, name: string, description: Option<string>, creatorId: Id, members: seq<Id>, image: Option<string>)
    returns (r: Result<Id>)
    modifies db`chatGroups, db`nextId
    ensures creatorId !in db.users || !AllUsers(db.users, members) ==>
      r == Err(NotFound) && db.chatGroups == old(db.chatGroups) && db.nextId == old(db.nextId)
    ensures creatorId in db.users && AllUsers(db.users, members) ==>
      r == Ok(old(db.nextId)) && db.nextId == old(db.nextId) + 1
      && db.chatGroups == old(db.chatGroups)[r.value := NewGroup(name, description, creatorId, members, image)]
    ensures old(db.Valid()) ==> db.Valid()
  {
    if creatorId !in db.users {
      return Err(NotFound);
    }
    var i := 0;
    while i < |members|
      invariant 0 <= i <= |members|
      invariant forall k :: 0 <= k < i ==> members[k] in db.users
    {
      if members[i] !in db.users {
        return Err(NotFound);
      }
      i := i + 1;
    }
    var id := db.FreshId();
    db.chatGroups := db.chatGroups[id := NewGroup(name, description, creatorId, members, image)];
    r := Ok(id);
  }

  predicate HasMember(userId: Id, g: ChatGroup)
  {
    userId in g.members
  }

  /** getUserGroups: the groups that list the user as a member, oldest first. */
  function GetUserGroups(groups: map<Id, ChatGroup>, bound: nat, userId: Id): (rows: seq<Row<ChatGroup>>)
    ensures forall r :: r in rows ==> r.id in groups && groups[r.id] == r.doc && userId in r.doc.members
    ensures KeysBelow(groups, bound) ==>
      forall id :: id in groups && userId in groups[id].members ==> Row(id, groups[id]) in rows
  {
    QueryAsc(groups, bound, g => HasMember(userId, g))
  }

  /** The group after addGroupMember: the new member appended unless already listed. */
  function AddMember(g: ChatGroup, m: Id): (g': ChatGroup)
    ensures m in g'.members && g'.admins == g.admins
    ensures forall x :: x in g.members ==> x in g'.members
    ensures m in g.members ==> g' == g
    ensures m !in g.members ==> g'.members == g.members + [m] && g'.(members := g.members) == g
  {
    if m in g.members then g else g.(members := g.members + [m])
  }

  /** The group after removeGroupMember: every occurrence of the member dropped. */
  function RemoveMember(g: ChatGroup, m: Id): (g': ChatGroup)
    ensures m !in g'.members && g'.admins == g.admins
    ensures forall x :: x != m ==> (x in g'.members <==> x in g.members)
  {
    g.(members := RemoveAll(g.members, m))
  }

  /** The group after promoteToAdmin: the member appended to the admins unless already one. */
  function Promote(g: ChatGroup, m: Id): (g': ChatGroup)
    ensures m in g'.admins && g'.members == g.members
    ensures forall x :: x != m ==> (x in g'.admins <==> x in g.admins)
    ensures m !in g.admins ==> g'.admins == g.admins + [m] && g'.(admins := g.admins) == g
    ensures m in g.admins ==> g' == g
  {
    if m in g.admins then g else g.(admins := g.admins + [m])
  }

  /** The group after leaveGroup, when it is kept: the user dropped from members and admins. */
  function Leave(g: ChatGroup, u: Id): (g': ChatGroup)
    ensures u !in g'.members && u !in g'.admins
    ensures forall x :: x != u ==> (x in g'.members <==> x in g.members) && (x in g'.admins <==> x in g.admins)
  {
    g.(members := RemoveAll(g.members, u), admins := RemoveAll(g.admins, u))
  }

  /** leaveGroup's guard: the sole admin may not leave while the member list has more than one entry. */
  predicate LastAdminBlocked(g: ChatGroup, u: Id)
  {
    u in g.admins && |g.admins| == 1 && |g.members| > 1
  }

  /** Adding a member keeps a group well formed. */
  lemma AddMemberKeepsWellFormed(g: ChatGroup, m: Id)
    requires GroupWellFormed(g)
    ensures GroupWellFormed(AddMember(g, m))
  {
  }

  /** A member list without repeats keeps none after addGroupMember: the new member is listed once. */
  lemma AddMemberKeepsDistinct(g: ChatGroup, m: Id)
    requires Distinct(g.members)
    ensures Distinct(AddMember(g, m).members)
    ensures multiset(AddMember(g, m).members)[m] == 1
  {
    if m !in g.members {
      var s := g.members + [m];
      assert multiset(s) == multiset(g.members) + multiset{m};
      assert m !in multiset(g.members);
    } else {
      var i :| 0 <= i < |g.members| && g.members[i] == m;
      DistinctOnce(g.members, i);
    }
  }

  /** In a list without repeats, an element occurs exactly once. */
  lemma {:induction false} DistinctOnce(s: seq<Id>, i: nat)
    requires Distinct(s) && i < |s|
    ensures multiset(s)[s[i]] == 1
  {
    if i == |s| - 1 {
      assert s == s[..i] + [s[i]];
      assert s[i] !in s[..i];
      assert multiset(s) == multiset(s[..i]) + multiset{s[i]};
    } else {
      var last := s[|s| - 1];
      assert s == s[..|s| - 1] + [last];
      assert multiset(s) == multiset(s[..|s| - 1]) + multiset{last};
      DistinctOnce(s[..|s| - 1], i);
    }
  }

  /** Removing a member who is not an admin keeps a group well formed. */
  lemma RemoveMemberKeepsWellFormed(g: ChatGroup, m: Id)
    requires GroupWellFormed(g) && m !in g.admins
    ensures GroupWellFormed(RemoveMember(g, m))
  {
  }

  /** Promoting a member keeps a group well formed and its admins distinct. */
  lemma {:induction false} PromoteKeepsWellFormed(g: ChatGroup, m: Id)
    requires GroupWellFormed(g) && m in g.members
    ensures GroupWellFormed(Promote(g, m))
  {
    if m !in g.admins {
      var a := g.admins + [m];
      forall i, j | 0 <= i < j < |a| ensures a[i] != a[j] {
        if j == |g.admins| {
          assert a[i] == g.admins[i];
        }
      }
    }
  }

  /**
   * A member who passes the last-admin guard leaves a group that either still has an admin,
   * every admin a member, or had that user as its only entry and is deleted.
   */
  lemma {:induction false} LeaveKeepsWellFormed(g: ChatGroup, u: Id)
    requires GroupWellFormed(g) && u in g.members && !LastAdminBlocked(g, u) && |g.members| != 1
    ensures GroupWellFormed(Leave(g, u))
  {
    RemoveAllKeepsDistinct(g.admins, u);
    var g' := Leave(g, u);
    if u in g.admins {
      assert |g.admins| != 1;
      var other :| other in g.admins && other != u by {
        if g.admins[0] == u {
          assert g.admins[1] != u;
          assert g.admins[1] in g.admins;
        } else {
          assert g.admins[0] in g.admins;
        }
      }
      assert other in g'.admins;
    } else {
      assert g'.admins == g.admins by {
        RemoveAllAbsent(g.admins, u);
      }
    }
  }

  /** A well-formed group of one entry holds only its admin, so leaveGroup deletes it only when its admin leaves. */
  lemma {:induction false} SoleMemberIsAdmin(g: ChatGroup, u: Id)
    requires GroupWellFormed(g) && u in g.members && |g.members| == 1
    ensures g.members == [u] && g.admins == [u]
  {
    assert g.members == [u];
    OnlyOneCopy(g.admins, u);
    assert g.admins[0] in g.admins;
  }

  lemma {:induction false} OnlyOneCopy(s: seq<Id>, u: Id)
    requires Distinct(s) && forall x :: x in s ==> x == u
    ensures |s| <= 1
  {
    if |s| >= 2 {
      FirstTwoDiffer(s);
      assert false;
    }
  }

  lemma FirstTwoDiffer(s: seq<Id>)
    requires Distinct(s) && |s| >= 2
    ensures s[0] != s[1] && s[0] in s && s[1] in s
  {
  }

  /**
   * A creator who also lists themselves among the members appears twice; while they are the
   * sole admin the guard counts two entries, so they cannot leave their own group.
   */
  lemma CreatorListedTwiceCannotLeave(name: string, description: Option<string>, c: Id, image: Option<string>)
    ensures LastAdminBlocked(NewGroup(name, description, c, [c], image), c)
  {
  }

  /** The checks shared by addGroupMember, removeGroupMember and promoteToAdmin: the group, then the acting admin. */
  function AdminGate(groups: map<Id, ChatGroup>, groupId: Id, adminId: Id): (o: Outcome)
    ensures o == Pass <==> groupId in groups && adminId in groups[groupId].admins
    ensures groupId !in groups ==> o == Fail(NotFound)
    ensures groupId in groups && adminId !in groups[groupId].admins ==> o == Fail(PermissionDenied)
  {
    if groupId !in groups then Fail(NotFound)
    else if adminId !in groups[groupId].admins then Fail(PermissionDenied)
    else Pass
  }

  method AddGroupMember(db: Db, groupId: Id, adminId: Id, newMemberId: Id) returns (o: Outcome)
    modifies db`chatGroups
    ensures var gate := AdminGate(old(db.chatGroups), groupId, adminId);
      && (gate.Fail? ==> o == gate)
      && (gate == Pass && newMemberId !in db.users ==> o == Fail(NotFound))
      && (gate == Pass && newMemberId in db.users ==>
            o == Pass && db.chatGroups == old(db.chatGroups)[groupId := AddMember(old(db.chatGroups)[groupId], newMemberId)])
      && (o.Fail? ==> db.chatGroups == old(db.chatGroups))
    ensures old(db.Valid()) ==> db.Valid()
  {
    o := AdminGate(db.chatGroups, groupId, adminId);
    if o.Fail? {
      return;
    }
    if newMemberId !in db.users {
      return Fail(NotFound);
    }
    var g := db.chatGroups[groupId];
    if old(db.Valid()) {
      AddMemberKeepsWellFormed(g, newMemberId);
    }
    if newMemberId !in g.members {
      db.chatGroups := db.chatGroups[groupId := g.(members := g.members + [newMemberId])];
    }
  }

  method RemoveGroupMember(db: Db, groupId: Id, adminId: Id, memberId: Id) returns (o: Outcome)
    modifies db`chatGroups
    ensures var gate := AdminGate(old(db.chatGroups), groupId, adminId);
      && (gate.Fail? ==> o == gate)
      && (gate == Pass && memberId in old(db.chatGroups)[groupId].admins ==> o == Fail(InvalidState))
      && (gate == Pass && memberId !in old(db.chatGroups)[groupId].admins ==>
            o == Pass && db.chatGroups == old(db.chatGroups)[groupId := RemoveMember(old(db.chatGroups)[groupId], memberId)])
      && (o.Fail? ==> db.chatGroups == old(db.chatGroups))
    ensures old(db.Valid()) ==> db.Valid()
  {
    o := AdminGate(db.chatGroups, groupId, adminId);
    if o.Fail? {
      return;
    }
    var g := db.chatGroups[groupId];
    if memberId in g.admins {
      return Fail(InvalidState);
    }
    if old(db.Valid()) {
      RemoveMemberKeepsWellFormed(g, memberId);
    }
    db.chatGroups := db.chatGroups[groupId := RemoveMember(g, memberId)];
  }

  method PromoteToAdmin(db: Db, groupId: Id, adminId: Id, memberId: Id) returns (o: Outcome)
    modifies db`chatGroups
    ensures var gate := AdminGate(old(db.chatGroups), groupId, adminId);
      && (gate.Fail? ==> o == gate)
      && (gate == Pass && memberId !in old(db.chatGroups)[groupId].members ==> o == Fail(InvalidState))
      && (gate == Pass && memberId in old(db.chatGroups)[groupId].members ==>
            o == Pass && db.chatGroups == old(db.chatGroups)[groupId := Promote(old(db.chatGroups)[groupId], memberId)])
      && (o.Fail? ==> db.chatGroups == old(db.chatGroups))
    ensures old(db.Valid()) ==> db.Valid()
  {
    o := AdminGate(db.chatGroups, groupId, adminId);
    if o.Fail? {
      return;
    }
    var g := db.chatGroups[groupId];
    if memberId !in g.members {
      return Fail(InvalidState);
    }
    if old(db.Valid()) {
      PromoteKeepsWellFormed(g, memberId);
    }
    if memberId !in g.admins {
      db.chatGroups := db.chatGroups[groupId := g.(admins := g.admins + [memberId])];
    }
  }

  /**
   * leaveGroup: a member leaves unless they are the sole admin of a group with other entries;
   * a group whose only entry leaves is deleted.
   */
  method LeaveGroup(db: Db, groupId: Id, userId: Id) returns (o: Outcome)
    modifies db`chatGroups
    ensures groupId !in old(db.chatGroups) ==> o == Fail(NotFound)
    ensures groupId in old(db.chatGroups) ==>
      var g := old(db.chatGroups)[groupId];
      && (userId !in g.members ==> o == Fail(InvalidState))
      && (userId in g.members && LastAdminBlocked(g, userId) ==> o == Fail(InvalidState))
      && (userId in g.members && !LastAdminBlocked(g, userId) && |g.members| == 1 ==>
            o == Pass && db.chatGroups == old(db.chatGroups) - {groupId})
      && (userId in g.members && !LastAdminBlocked(g, userId) && |g.members| != 1 ==>
            o == Pass && db.chatGroups == old(db.chatGroups)[groupId := Leave(g, userId)])
    ensures o.Fail? ==> db.chatGroups == old(db.chatGroups)
    ensures old(db.Valid()) ==> db.Valid()
  {
    if groupId !in db.chatGroups {
      return Fail(NotFound);
    }
    var g := db.chatGroups[groupId];
    if userId !in g.members {
      return Fail(InvalidState);
    }
    if userId in g.admins && |g.admins| == 1 && |g.members| > 1 {
      return Fail(InvalidState);
    }
    db.chatGroups := db.chatGroups[groupId := Leave(g, userId)];
    if |g.members| == 1 {
      db.chatGroups := db.chatGroups - {groupId};
    } else if old(db.Valid()) {
      LeaveKeepsWellFormed(g, userId);
    }
    o := Pass;
  }

  predicate InGroup(groupId: Id, m: Message)
  {
    m.kind == Group && m.receiverId == groupId
  }

  /** getGroupMessages: the messages sent to the group, newest first. */
  function GetGroupMessages(messages: map<Id, Message>, bound: nat, groupId: Id): (rows: seq<Row<Message>>)
    ensures forall r :: r in rows ==> r.id in messages && messages[r.id] == r.doc && r.doc.kind == Group && r.doc.receiverId == groupId
    ensures Descending(rows)
    ensures KeysBelow(messages, bound) ==>
      forall id :: id in messages && InGroup(groupId, messages[id]) ==> Row(id, messages[id]) in rows
  {
    QueryDesc(messages, bound, m => InGroup(groupId, m), None)
  }

  /** sendGroupMessage: stored as written, without checking that the sender or the group exists. */
  method SendGroupMessage(db: Db, senderId: Id, groupId: Id, content: string, attachments: Option<seq<string>>)
    returns (id: Id)
    modifies db`messages, db`nextId
    ensures id == old(db.nextId) && db.nextId == id + 1
    ensures db.messages == old(db.messages)[id := Message(senderId, groupId, Group, content, OrNone(attachments), false)]
    ensures old(db.Valid()) ==> db.Valid()
  {
    id := db.FreshId();
    db.messages := db.messages[id := Message(senderId, groupId, Group, content, OrNone(attachments), false)];
  }
}
