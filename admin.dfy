/** The super-admin handlers: promotion, demotion and the admin list. Each successful
    promotion or demotion appends one entry to the admin log. */
module Admins {
  import opened Store
  import opened Outcome

  function Promoted(t: Tables, actorId: Id, s: Id): Tables
    requires s in t.users
  {
    t.(users := t.users[s := t.users[s].(role := Admin)], logs := t.logs + [LogEntry(Promote, actorId, s)])
  }

  function Demoted(t: Tables, actorId: Id, a: Id): Tables
    requires a in t.users
  {
    t.(users := t.users[a := t.users[a].(role := Student)], logs := t.logs + [LogEntry(Demote, actorId, a)])
  }

  /** The ids of the users with a given role. */
  function WithRole(users: map<Id, User>, role: string): set<Id> {
    set u | u in users && users[u].role == role
  }

  /** `promoteUser`: only a super admin may promote, and only a student. */
  method PromoteUser(db: Db, actor: Actor, studentId: Option<Id>) returns (r: Response)
    requires db.Valid()
    modifies db
    ensures db.Valid()
    ensures studentId.None? ==> r == MissingFields
    ensures studentId.Some? ==>
      var users, s := old(db.users), studentId.value;
      && (actor.role != SuperAdmin ==> r == Forbidden)
      && ((actor.role == SuperAdmin && s !in users) ==> r == NotFound)
      && ((actor.role == SuperAdmin && s in users && users[s].role != Student) ==> r == BadRequest(AlreadyElevated))
      && ((actor.role == SuperAdmin && s in users && users[s].role == Student) ==> r == Ok(Nothing))
    ensures !r.Ok? ==> db.State() == old(db.State())
    ensures r.Ok? ==>
      && studentId.Some? && studentId.value in old(db.users)
      && db.State() == Promoted(old(db.State()), actor.id, studentId.value)
  {
    if studentId.None? {
      return MissingFields;
    }
    if actor.role != SuperAdmin {
      return Forbidden;
    }
    var s := studentId.value;
    if s !in db.users {
      return NotFound;
    }
    var user := db.users[s];
    if user.role != Student {
      return BadRequest(AlreadyElevated);
    }
    db.SetUser(s, user.(role := Admin));
    db.AppendLog(LogEntry(Promote, actor.id, s));
    r := Ok(Nothing);
  }

  /** `demoteAdmin`: the lookup matches an admin only, so a missing user, a student and a
      super admin are all "not found". */
  method DemoteAdmin(db: Db, actor: Actor, adminId: Option<Id>) returns (r: Response)
    requires db.Valid()
    modifies db
    ensures db.Valid()
    ensures adminId.None? ==> r == MissingFields
    ensures adminId.Some? ==>
      var users, a := old(db.users), adminId.value;
      && (actor.role != SuperAdmin ==> r == Forbidden)
      && ((actor.role == SuperAdmin && !(a in users && users[a].role == Admin)) ==> r == NotFound)
      && ((actor.role == SuperAdmin && a in users && users[a].role == Admin) ==> r == Ok(Nothing))
    ensures !r.Ok? ==> db.State() == old(db.State())
    ensures r.Ok? ==>
      && adminId.Some? && adminId.value in old(db.users)
      && db.State() == Demoted(old(db.State()), actor.id, adminId.value)
  {
    if adminId.None? {
      return MissingFields;
    }
    if actor.role != SuperAdmin {
      return Forbidden;
    }
    var a := adminId.value;
    if !(a in db.users && db.users[a].role == Admin) {
      return NotFound;
    }
    var user := db.users[a];
    db.SetUser(a, user.(role := Student));
    db.AppendLog(LogEntry(Demote, actor.id, a));
    r := Ok(Nothing);
  }

  /** `getAllAdmins`: for a super admin, every user whose role is admin or super admin. */
  function AllAdmins(users: map<Id, User>, actor: Actor): (r: Response)
    ensures r == Forbidden <==> actor.role != SuperAdmin
    ensures r != Forbidden ==> r.Ok? && r.data.AdminList?
    ensures r.Ok? ==> forall u :: u in r.data.ids <==> u in users && IsElevated(users[u].role)
  {
    if actor.role != SuperAdmin then Forbidden
    else Ok(AdminList(set u | u in users && IsElevated(users[u].role)))
  }

  /** Demoting a student just promoted gives back the users it started from; the log has
      grown by the two entries. */
  lemma {:induction false} PromoteThenDemote(t: Tables, s: Id, actorId: Id, actorId': Id)
    requires s in t.users && t.users[s].role == Student
    ensures Demoted(Promoted(t, actorId, s), actorId', s)
         == t.(logs := t.logs + [LogEntry(Promote, actorId, s), LogEntry(Demote, actorId', s)])
  {
    var promoted := Promoted(t, actorId, s);
    assert promoted.users[s].(role := Student) == t.users[s];
    assert promoted.users[s := t.users[s]] == t.users;
    assert promoted.logs + [LogEntry(Demote, actorId', s)] == t.logs + [LogEntry(Promote, actorId, s), LogEntry(Demote, actorId', s)];
  }

  /** Promotion and demotion move one user between student and admin: the super admins
      never change, and the promoted user is listed as an admin while the demoted one is not. */
  lemma {:induction false} RolesMoveOneStep(t: Tables, a: Id, actorId: Id, actor: Actor)
    requires a in t.users && actor.role == SuperAdmin
    ensures t.users[a].role == Student ==>
      && WithRole(Promoted(t, actorId, a).users, SuperAdmin) == WithRole(t.users, SuperAdmin)
      && WithRole(Promoted(t, actorId, a).users, Admin) == WithRole(t.users, Admin) + {a}
      && a in AllAdmins(Promoted(t, actorId, a).users, actor).data.ids
    ensures t.users[a].role == Admin ==>
      && WithRole(Demoted(t, actorId, a).users, SuperAdmin) == WithRole(t.users, SuperAdmin)
      && WithRole(Demoted(t, actorId, a).users, Admin) == WithRole(t.users, Admin) - {a}
      && a !in AllAdmins(Demoted(t, actorId, a).users, actor).data.ids
  {
  }
}
