/** Edits and removals of the members of an organisation, and the rule against locking an organisation out. */
module Membership {
  import opened Domain

  /** An empty telephone stands for none. */
  datatype User = User(
    org: Option<OrgId>,
    role: Option<OrgRole>,
    isActive: bool,
    isSuper: bool,
    email: string,
    phone: string)

  type Users = map<UserId, User>

  /** The org_role field of a PATCH: absent, not one of the three roles, or a role. */
  datatype RoleField = Absent | Unknown | Role(role: OrgRole)

  /** E-mail and telephone come stripped, the e-mail in lower case, or not at all. */
  datatype Change = Patch(role: RoleField, email: Option<string>, phone: Option<string>) | Delete

  /** actor asks for a change of the member target of the organisation of the URL. */
  datatype Request = Request(actor: UserId, org: OrgId, target: UserId, change: Change)

  datatype Reply = Ok | Unauthorised | Forbidden | NotFound | BadRequest | LastAdmin

  datatype Edited = Edited(users: Users, reply: Reply)

  // ---- Roles ---------------------------------------------------------------------------------

  /** get_web_role: a superuser is a Super Admin whatever the role held in an organisation. */
  predicate IsOrgAdmin(u: User) {
    !u.isSuper && u.role == Some(OrgAdmin)
  }

  predicate IsBureauAgent(u: User) {
    !u.isSuper && u.role == Some(BureauAgent)
  }

  /** _check_permission */
  predicate AdminLevel(u: User, org: OrgId) {
    u.isSuper || (u.org == Some(org) && IsOrgAdmin(u))
  }

  predicate BureauOf(u: User, org: OrgId) {
    IsBureauAgent(u) && u.org == Some(org)
  }

  predicate ActiveAdmin(u: User, org: OrgId) {
    u.org == Some(org) && u.role == Some(OrgAdmin) && u.isActive
  }

  function ActiveAdmins(users: Users, org: OrgId): set<UserId> {
    set u | u in users && ActiveAdmin(users[u], org)
  }

  /** _active_admin_count without the member in hand */
  function OtherAdmins(users: Users, org: OrgId, target: UserId): nat {
    |ActiveAdmins(users, org) - {target}|
  }

  // ---- One request ---------------------------------------------------------------------------

  /** The refusals the two handlers share: permission, unknown member, bureau agent out of bounds. */
  function Refusal(users: Users, q: Request): Option<Reply> {
    if q.actor !in users then Some(Unauthorised)
    else
      var actor := users[q.actor];
      if !AdminLevel(actor, q.org) && !BureauOf(actor, q.org) then Some(Forbidden)
      else if q.target !in users || users[q.target].org != Some(q.org) then Some(NotFound)
      else if !AdminLevel(actor, q.org) && users[q.target].role != Some(FieldAgent) then Some(Forbidden)
      else None
  }

  predicate IsLastAdmin(users: Users, q: Request)
    requires Refusal(users, q).None?
  {
    && !users[q.actor].isSuper
    && users[q.target].role == Some(OrgAdmin)
    && users[q.target].isActive
    && OtherAdmins(users, q.org, q.target) == 0
  }

  predicate EmailTaken(users: Users, target: UserId, email: string) {
    exists u | u in users :: u != target && users[u].email == email
  }

  /** Telephones matter among field agents only, whatever the target is. */
  predicate PhoneTaken(users: Users, target: UserId, phone: string) {
    exists u | u in users :: u != target && users[u].role == Some(FieldAgent) && users[u].phone == phone
  }

  predicate ProfileRefused(users: Users, q: Request)
    requires q.change.Patch?
  {
    || (q.change.email.Some? && EmailTaken(users, q.target, q.change.email.value))
    || (q.change.phone.Some? && q.change.phone.value != "" && PhoneTaken(users, q.target, q.change.phone.value))
  }

  function WithContacts(member: User, change: Change): User
    requires change.Patch?
  {
    member.(email := if change.email.Some? then change.email.value else member.email,
            phone := if change.phone.Some? then change.phone.value else member.phone)
  }

  function ApplyPatch(users: Users, q: Request): Edited
    requires q.change.Patch? && Refusal(users, q).None?
  {
    var member, field := WithContacts(users[q.target], q.change), q.change.role;
    if !AdminLevel(users[q.actor], q.org) && field != Absent && field != Role(FieldAgent) then Edited(users, Forbidden)
    else if ProfileRefused(users, q) then Edited(users, BadRequest)
    else match field
      case Absent => Edited(users[q.target := member], Ok)
      case Unknown => Edited(users, BadRequest)
      case Role(role) =>
        if role != OrgAdmin && IsLastAdmin(users, q) then Edited(users, LastAdmin)
        else Edited(users[q.target := member.(role := Some(role))], Ok)
  }

  function ApplyDelete(users: Users, q: Request): Edited
    requires Refusal(users, q).None?
  {
    if IsLastAdmin(users, q) then Edited(users, LastAdmin)
    else Edited(users - {q.target}, Ok)
  }

  function Apply(users: Users, q: Request): Edited {
    if Refusal(users, q).Some? then Edited(users, Refusal(users, q).value)
    else if q.change.Patch? then ApplyPatch(users, q)
    else ApplyDelete(users, q)
  }

  // ---- The handlers --------------------------------------------------------------------------

  /** OrganisationMemberDetailView on the table of users. */
  class Members {
    var users: Users

    constructor (users: Users)
      ensures this.users == users
    {
      this.users := users;
    }

    method HandlePatch(q: Request) returns (reply: Reply)
      requires q.change.Patch?
      modifies this
      ensures Edited(users, reply) == Apply(old(users), q)
    {
      if q.actor !in users {
        return Unauthorised;
      }
      var actor := users[q.actor];
      var isAdminLevel, isBureau := AdminLevel(actor, q.org), BureauOf(actor, q.org);
      if !isAdminLevel && !isBureau {
        return Forbidden;
      }
      if q.target !in users || users[q.target].org != Some(q.org) {
        return NotFound;
      }
      var member := users[q.target];
      var field := q.change.role;
      if isBureau && !isAdminLevel {
        if member.role != Some(FieldAgent) {
          return Forbidden;
        }
        if field != Absent && field != Role(FieldAgent) {
          return Forbidden;
        }
      }
      if q.change.email.Some? {
        var email := q.change.email.value;
        if exists u | u in users :: u != q.target && users[u].email == email {
          return BadRequest;
        }
        member := member.(email := email);
      }
      if q.change.phone.Some? {
        var phone := q.change.phone.value;
        if && phone != ""
           && exists u | u in users :: u != q.target && users[u].phone == phone && users[u].role == Some(FieldAgent)
        {
          return BadRequest;
        }
        member := member.(phone := phone);
      }
      if field != Absent {
        if field == Unknown {
          return BadRequest;
        }
        if && !actor.isSuper && member.role == Some(OrgAdmin) && field.role != OrgAdmin && member.isActive
           && OtherAdmins(users, q.org, q.target) == 0
        {
          return LastAdmin;
        }
        member := member.(role := Some(field.role));
      }
      users := users[q.target := member];
      return Ok;
    }

    method HandleDelete(q: Request) returns (reply: Reply)
      requires q.change.Delete?
      modifies this
      ensures Edited(users, reply) == Apply(old(users), q)
    {
      if q.actor !in users {
        return Unauthorised;
      }
      var actor := users[q.actor];
      var isAdminLevel, isBureau := AdminLevel(actor, q.org), BureauOf(actor, q.org);
      if !isAdminLevel && !isBureau {
        return Forbidden;
      }
      if q.target !in users || users[q.target].org != Some(q.org) {
        return NotFound;
      }
      var member := users[q.target];
      if isBureau && !isAdminLevel && member.role != Some(FieldAgent) {
        return Forbidden;
      }
      if && !actor.isSuper && member.role == Some(OrgAdmin) && member.isActive
         && OtherAdmins(users, q.org, q.target) == 0
      {
        return LastAdmin;
      }
      users := users - {q.target};
      return Ok;
    }
  }

  // ---- What a request can do -----------------------------------------------------------------

  /** The request would take an administrator's role away: a removal, or a complete change to another role. */
  predicate TakesRoleAway(users: Users, q: Request) {
    match q.change
    case Delete => true
    case Patch(field, _, _) => !ProfileRefused(users, q) && field.Role? && field.role != OrgAdmin
  }

  /**
   The exact lock-out rule. A request deprives an organisation of its last active administrator if and
   only if a Super Admin makes it, about the only active administrator, under that organisation's URL.
   */
  lemma LockedOutExactly(users: Users, q: Request, org: OrgId)
    requires ActiveAdmins(users, org) != {}
    ensures ActiveAdmins(Apply(users, q).users, org) == {} <==>
              && q.actor in users && users[q.actor].isSuper
              && q.org == org && ActiveAdmins(users, org) == {q.target} && TakesRoleAway(users, q)
  {
    var after := Apply(users, q).users;
    var admins := ActiveAdmins(users, org);
    OthersKept(users, q);
    assert forall u :: u in admins && u != q.target ==> u in ActiveAdmins(after, org);
    if ActiveAdmins(after, org) == {} {
      assert admins == {q.target};
      assert q.target in admins;
      assert after != users;
      assert users[q.target].org == Some(org);
      assert admins - {q.target} == {};
    } else if admins == {q.target} {
      assert q.target in admins;
      var u :| u in ActiveAdmins(after, org);
      assert u !in admins || u == q.target;
    }
  }

  /** The rule never refuses more than it must: the refused requests are those that would lock the organisation out. */
  lemma RefusedExactly(users: Users, q: Request)
    ensures Apply(users, q).reply == LastAdmin <==>
              && q.actor in users && !users[q.actor].isSuper && AdminLevel(users[q.actor], q.org)
              && ActiveAdmins(users, q.org) == {q.target} && TakesRoleAway(users, q)
  {
    var admins := ActiveAdmins(users, q.org);
    if q.target in admins {
      assert admins - {q.target} == {} <==> admins == {q.target};
    } else {
      assert admins != {q.target};
    }
  }

  /** Nobody but the target changes, and the target only its role and contacts. */
  lemma OthersKept(users: Users, q: Request)
    ensures var after := Apply(users, q).users;
            && (forall u :: u in after ==> u in users)
            && (forall u :: u in users && u != q.target ==> u in after && after[u] == users[u])
            && (q.target in after ==> Same(users[q.target], after[q.target]))
            && (Apply(users, q).reply != Ok ==> after == users)
  {
  }

  /** Only the role and the contacts may differ. */
  predicate Same(u: User, v: User) {
    u.org == v.org && u.isActive == v.isActive && u.isSuper == v.isSuper
  }

  /**
   Only a Super Admin or an administrator of the same organisation changes roles; a bureau agent edits and
   removes field agents of the organisation, and leaves their role.
   */
  lemma WhoMayChange(users: Users, q: Request)
    ensures var after := Apply(users, q).users;
            after != users ==>
              && q.actor in users && q.target in users && users[q.target].org == Some(q.org)
              && var actor := users[q.actor];
                 || actor.isSuper
                 || (actor.org == Some(q.org) && actor.role == Some(OrgAdmin))
                 || (&& actor.org == Some(q.org) && actor.role == Some(BureauAgent)
                     && users[q.target].role == Some(FieldAgent)
                     && (q.target in after ==> after[q.target].role == Some(FieldAgent)))
  {
  }

  // ---- Request by request --------------------------------------------------------------------

  /** Somebody else is an active administrator of the organisation. */
  ghost predicate AnotherAdmin(users: Users, org: OrgId, target: UserId) {
    exists u :: u in users && u != target && users[u].org == Some(org) && users[u].role == Some(OrgAdmin)
      && users[u].isActive
  }

  /** A Super Admin, an administrator of the organisation, or a bureau agent of it about a field agent. */
  ghost predicate MayHandle(users: Users, q: Request) {
    && q.actor in users && q.target in users && users[q.target].org == Some(q.org)
    && var a := users[q.actor];
       || a.isSuper
       || (a.org == Some(q.org) && a.role == Some(OrgAdmin))
       || (a.org == Some(q.org) && a.role == Some(BureauAgent) && users[q.target].role == Some(FieldAgent))
  }

  /** The administrator in hand is the last active one, and it is not for a Super Admin to say. */
  ghost predicate WouldLockOut(users: Users, q: Request)
    requires q.actor in users && q.target in users
  {
    && !users[q.actor].isSuper && users[q.target].role == Some(OrgAdmin) && users[q.target].isActive
    && !AnotherAdmin(users, q.org, q.target)
  }

  lemma LastAdminMeans(users: Users, q: Request)
    requires MayHandle(users, q) && Refusal(users, q).None?
    ensures IsLastAdmin(users, q) <==> WouldLockOut(users, q)
  {
    var others := ActiveAdmins(users, q.org) - {q.target};
    if AnotherAdmin(users, q.org, q.target) {
      var u: UserId :| u in users && u != q.target && users[u].org == Some(q.org) && users[u].role == Some(OrgAdmin)
        && users[u].isActive;
      assert u in others;
    } else {
      assert others == {};
    }
  }

  /** What a granted edit stores: the contacts and the role of the request where it has them, the rest as it was. */
  lemma PatchOutcome(users: Users, q: Request)
    requires q.change.Patch?
    ensures var o := Apply(users, q);
            && (o.reply == Ok <==>
                  && MayHandle(users, q)
                  && (users[q.actor].isSuper || users[q.actor].role == Some(OrgAdmin)
                      || q.change.role == Absent || q.change.role == Role(FieldAgent))
                  && (q.change.email.Some? ==>
                        forall u :: u in users && u != q.target ==> users[u].email != q.change.email.value)
                  && (q.change.phone.Some? && q.change.phone.value != "" ==>
                        forall u :: u in users && u != q.target && users[u].role == Some(FieldAgent) ==>
                          users[u].phone != q.change.phone.value)
                  && q.change.role != Unknown
                  && (q.change.role.Role? && q.change.role.role != OrgAdmin ==> !WouldLockOut(users, q)))
            && (o.reply == Ok ==>
                  var was := users[q.target];
                  o.users == users[q.target := User(
                    was.org, if q.change.role.Role? then Some(q.change.role.role) else was.role,
                    was.isActive, was.isSuper,
                    if q.change.email.Some? then q.change.email.value else was.email,
                    if q.change.phone.Some? then q.change.phone.value else was.phone)])
  {
    if Refusal(users, q).None? {
      LastAdminMeans(users, q);
    }
  }

  lemma DeleteOutcome(users: Users, q: Request)
    requires q.change.Delete?
    ensures var o := Apply(users, q);
            && (o.reply == Ok <==> MayHandle(users, q) && !WouldLockOut(users, q))
            && (o.reply == Ok ==> o.users == users - {q.target})
  {
    if Refusal(users, q).None? {
      LastAdminMeans(users, q);
    }
  }

  // ---- Contacts ------------------------------------------------------------------------------

  ghost predicate DistinctEmails(users: Users) {
    forall u, v :: u in users && v in users && u != v ==> users[u].email != users[v].email
  }

  ghost predicate ClashOn(users: Users, u: UserId, v: UserId) {
    && u in users && v in users && u != v && users[u].role == users[v].role == Some(FieldAgent)
    && users[u].phone == users[v].phone != ""
  }

  /** Two field agents share a telephone. */
  ghost predicate PhoneClash(users: Users) {
    exists u, v :: ClashOn(users, u, v)
  }

  lemma EmailsKept(users: Users, q: Request)
    requires DistinctEmails(users)
    ensures DistinctEmails(Apply(users, q).users)
  {
    OthersKept(users, q);
  }

  /**
   The telephones of field agents are not as safe: a promotion to field agent does not look at the telephone
   the member already has. This is the only way to a clash, and it always leads to one.
   */
  lemma PhoneClashExactly(users: Users, q: Request)
    requires !PhoneClash(users)
    ensures PhoneClash(Apply(users, q).users) <==>
              && q.change.Patch? && q.change.role == Role(FieldAgent) && q.change.phone.None?
              && Apply(users, q).reply.Ok?
              && users[q.target].role != Some(FieldAgent) && users[q.target].phone != ""
              && PhoneTaken(users, q.target, users[q.target].phone)
  {
    var after := Apply(users, q).users;
    OthersKept(users, q);
    if PhoneClash(after) {
      var u: UserId, v: UserId :| ClashOn(after, u, v);
      assert !ClashOn(users, u, v);
      var other := if u == q.target then v else u;
      assert other in users && users[other] == after[other];
    } else if q.change.Patch? && Apply(users, q).reply.Ok? && PhoneTaken(users, q.target, users[q.target].phone) {
      var v :| v in users && v != q.target && users[v].role == Some(FieldAgent)
        && users[v].phone == users[q.target].phone;
      assert !ClashOn(after, q.target, v);
    }
  }

  // ---- Whole runs ----------------------------------------------------------------------------

  function ApplyAll(users: Users, requests: seq<Request>): Users {
    if requests == [] then users
    else ApplyAll(Apply(users, requests[0]).users, requests[1..])
  }

  predicate IsSuper(users: Users, u: UserId) {
    u in users && users[u].isSuper
  }

  /** Whatever members who are not Super Admin ask, an organisation with an active administrator keeps one. */
  lemma {:induction false} AnAdminRemains(users: Users, requests: seq<Request>, org: OrgId)
    requires ActiveAdmins(users, org) != {}
    requires forall k :: 0 <= k < |requests| ==> !IsSuper(users, requests[k].actor)
    ensures ActiveAdmins(ApplyAll(users, requests), org) != {}
  {
    if requests != [] {
      var q, rest := requests[0], requests[1..];
      LockedOutExactly(users, q, org);
      OthersKept(users, q);
      assert !IsSuper(users, requests[0].actor);
      assert forall k :: 0 <= k < |rest| ==> rest[k] == requests[k + 1];
      AnAdminRemains(Apply(users, q).users, rest, org);
    }
  }

  /** And no sequence of requests, by anybody, gives two users the same e-mail. */
  lemma {:induction false} EmailsStayDistinct(users: Users, requests: seq<Request>)
    requires DistinctEmails(users)
    ensures DistinctEmails(ApplyAll(users, requests))
  {
    if requests != [] {
      EmailsKept(users, requests[0]);
      EmailsStayDistinct(Apply(users, requests[0]).users, requests[1..]);
    }
  }
}
