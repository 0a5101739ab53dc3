/** Accounts: member sign-up, admin registration, login for either kind of
    account, and the profile of the caller. Password hashing and its check
    are parameters (`hash`, `verify`), as is the membership number. */
module AccountController {
  import opened Wrappers
  import opened Text
  import opened Ordering
  import opened Entities
  import opened Data

  /** `s?.ToLower()`. */
  function LowerOpt(s: Option<string>): (r: Option<string>)
    ensures r.None? <==> s.None?
    ensures s.Some? ==> r.value == ToLower(s.value)
  {
    match s
    case None => None
    case Some(v) => Some(ToLower(v))
  }

  function MemberEmailIndex(members: seq<Member>, email: string): (r: Option<nat>)
    ensures r.Some? ==> r.value < |members| && members[r.value].email == email
    ensures r.None? <==> forall k :: 0 <= k < |members| ==> members[k].email != email
  {
    FirstIndex(members, (m: Member) => m.email == email)
  }

  function UsernameIndex(members: seq<Member>, username: string): (r: Option<nat>)
    ensures r.Some? ==> r.value < |members| && members[r.value].username == username
    ensures r.None? <==> forall k :: 0 <= k < |members| ==> members[k].username != username
  {
    FirstIndex(members, (m: Member) => m.username == username)
  }

  function AdminIndex(admins: seq<Admin>, id: int): (r: Option<nat>)
    ensures r.Some? ==> r.value < |admins| && admins[r.value].id == id
    ensures r.None? <==> forall k :: 0 <= k < |admins| ==> admins[k].id != id
  {
    FirstIndex(admins, (a: Admin) => a.id == id)
  }

  predicate UniqueUsernames(members: seq<Member>) {
    forall i, j :: 0 <= i < j < |members| ==> members[i].username != members[j].username
  }

  // ----- sign-up -----

  datatype SignupInput = SignupInput(
    name: string, username: string, email: string, password: string, phone: string,
    gender: string, dateOfBirth: Option<Ticks>, role: Option<string>)

  const ActiveStatus: string := "Active"

  /** Why a sign-up is refused: a role other than "member" in any case, then
      a taken email, then a taken username. */
  function SignupError(members: seq<Member>, dto: SignupInput): (r: Option<string>)
    ensures r.None? <==>
      && LowerOpt(dto.role) == Some(MemberRole)
      && (forall k :: 0 <= k < |members| ==> members[k].email != dto.email)
      && (forall k :: 0 <= k < |members| ==> members[k].username != dto.username)
  {
    if LowerOpt(dto.role) != Some(MemberRole) then Some("Only 'member' registration allowed from this route.")
    else if MemberEmailIndex(members, dto.email).Some? then Some("Member email already exists.")
    else if UsernameIndex(members, dto.username).Some? then Some("Username already taken.")
    else None
  }

  /** The member a sign-up creates: active, registered, created and updated
      at the same moment, never logged in, with the hashed password. */
  function NewMember(id: int, dto: SignupInput, hashed: string, membershipId: string, now: Ticks): (m: Member)
    ensures m.id == id && m.email == dto.email && m.username == dto.username && m.password == hashed
    ensures m.membershipStatus == ActiveStatus && m.membershipId == membershipId
    ensures m.dateOfRegistration == now && m.createdAt == now && m.updatedAt == now && m.lastLogin.None?
  {
    Member(id, dto.name, dto.username, dto.email, hashed, dto.phone, dto.gender, dto.dateOfBirth,
           membershipId, ActiveStatus, now, None, now, now)
  }

  /** An accepted sign-up keeps emails and usernames unique. */
  lemma {:induction false} SignupKeepsUnique(members: seq<Member>, m: Member)
    requires UniqueMemberEmails(members) && UniqueUsernames(members)
    requires forall k :: 0 <= k < |members| ==> members[k].email != m.email && members[k].username != m.username
    ensures UniqueMemberEmails(members + [m]) && UniqueUsernames(members + [m])
  {
    var r := members + [m];
    forall i, j | 0 <= i < j < |r| ensures r[i].email != r[j].email && r[i].username != r[j].username {
      assert r[i] == members[i];
      if j < |members| {
        assert r[j] == members[j];
      }
    }
  }

  /** `Signup`: refuses as `SignupError` says, storing nothing; otherwise adds
      exactly one member. */
  method Signup(db: AppDbContext, dto: SignupInput, hash: string -> string, membershipId: string, now: Ticks)
    returns (status: Status, message: string, id: Option<int>)
    modifies db`members, db`nextId
    ensures SignupError(old(db.members), dto).Some? ==>
      && status == BadRequest && message == SignupError(old(db.members), dto).value && id.None?
      && db.members == old(db.members) && db.nextId == old(db.nextId)
    ensures SignupError(old(db.members), dto).None? ==>
      && status == Ok && id == Some(old(db.nextId)) && db.nextId == old(db.nextId) + 1
      && db.members == old(db.members) + [NewMember(old(db.nextId), dto, hash(dto.password), membershipId, now)]
    ensures UniqueMemberEmails(old(db.members)) && UniqueUsernames(old(db.members)) ==>
      UniqueMemberEmails(db.members) && UniqueUsernames(db.members)
  {
    var refusal := SignupError(db.members, dto);
    if refusal.Some? {
      return BadRequest, refusal.value, None;
    }
    var key := db.NewId();
    var member := NewMember(key, dto, hash(dto.password), membershipId, now);
    if UniqueMemberEmails(db.members) && UniqueUsernames(db.members) {
      SignupKeepsUnique(db.members, member);
    }
    db.members := db.members + [member];
    status, message, id := Ok, "", Some(key);
  }

  // ----- admin registration -----

  datatype AdminInput = AdminInput(name: string, email: string, password: string, phone: string)

  const AdminRole: string := "admin"
  const MemberRole: string := "member"

  function NewAdmin(id: int, dto: AdminInput, hashed: string, now: Ticks): (a: Admin)
    ensures a.id == id && a.email == dto.email && a.password == hashed && a.role == AdminRole
    ensures a.createdAt == now && a.updatedAt == now && a.lastLogin.None?
  {
    Admin(id, dto.name, dto.email, hashed, dto.phone, AdminRole, None, now, now)
  }

  lemma {:induction false} RegisterKeepsUnique(admins: seq<Admin>, a: Admin)
    requires UniqueAdminEmails(admins)
    requires forall k :: 0 <= k < |admins| ==> admins[k].email != a.email
    ensures UniqueAdminEmails(admins + [a])
  {
    var r := admins + [a];
    forall i, j | 0 <= i < j < |r| ensures r[i].email != r[j].email {
      assert r[i] == admins[i];
      if j < |admins| {
        assert r[j] == admins[j];
      }
    }
  }

  /** `RegisterAdmin`: a taken admin email is refused; otherwise one admin is
      added with the role "admin". */
  method RegisterAdmin(db: AppDbContext, dto: AdminInput, hash: string -> string, now: Ticks)
    returns (status: Status, id: Option<int>)
    modifies db`admins, db`nextId
    ensures AdminEmailIndex(old(db.admins), dto.email).Some? ==>
      status == BadRequest && id.None? && db.admins == old(db.admins) && db.nextId == old(db.nextId)
    ensures AdminEmailIndex(old(db.admins), dto.email).None? ==>
      && status == Ok && id == Some(old(db.nextId)) && db.nextId == old(db.nextId) + 1
      && db.admins == old(db.admins) + [NewAdmin(old(db.nextId), dto, hash(dto.password), now)]
    ensures UniqueAdminEmails(old(db.admins)) ==> UniqueAdminEmails(db.admins)
  {
    if AdminEmailIndex(db.admins, dto.email).Some? {
      return BadRequest, None;
    }
    var key := db.NewId();
    var admin := NewAdmin(key, dto, hash(dto.password), now);
    if UniqueAdminEmails(db.admins) {
      RegisterKeepsUnique(db.admins, admin);
    }
    db.admins := db.admins + [admin];
    status, id := Ok, Some(key);
  }

  // ----- login -----

  datatype LoginInput = LoginInput(email: string, password: string, role: Option<string>)

  /** The outcome of a login, before any record changes: which record signs
      in, or which status refuses it. */
  datatype LoginOutcome = MemberLogin(k: nat) | AdminLogin(k: nat) | Refused(status: Status)

  function LoginDecision(members: seq<Member>, admins: seq<Admin>, dto: LoginInput,
                         verify: (string, string) -> bool): (r: LoginOutcome)
    ensures r.MemberLogin? ==>
      && LowerOpt(dto.role) == Some(MemberRole)
      && r.k < |members| && members[r.k].email == dto.email && verify(dto.password, members[r.k].password)
    ensures r.AdminLogin? ==>
      && LowerOpt(dto.role) == Some(AdminRole)
      && r.k < |admins| && admins[r.k].email == dto.email && verify(dto.password, admins[r.k].password)
    ensures r.Refused? ==> r.status in {BadRequest, Unauthorized}
    ensures r == Refused(BadRequest) <==> LowerOpt(dto.role) !in {Some(MemberRole), Some(AdminRole)}
  {
    var role := LowerOpt(dto.role);
    if role == Some(MemberRole) then
      match MemberEmailIndex(members, dto.email)
      case None => Refused(Unauthorized)
      case Some(k) => if verify(dto.password, members[k].password) then MemberLogin(k) else Refused(Unauthorized)
    else if role == Some(AdminRole) then
      match AdminEmailIndex(admins, dto.email)
      case None => Refused(Unauthorized)
      case Some(k) => if verify(dto.password, admins[k].password) then AdminLogin(k) else Refused(Unauthorized)
    else Refused(BadRequest)
  }

  /** With unique emails, a member login signs in the one member whose email
      was given, and an unknown email is refused. */
  lemma LoginFindsTheAccount(members: seq<Member>, admins: seq<Admin>, dto: LoginInput,
                             verify: (string, string) -> bool)
    requires UniqueMemberEmails(members)
    requires LowerOpt(dto.role) == Some(MemberRole)
    ensures (forall k :: 0 <= k < |members| ==> members[k].email != dto.email) ==>
      LoginDecision(members, admins, dto, verify) == Refused(Unauthorized)
    ensures forall k :: 0 <= k < |members| && members[k].email == dto.email && verify(dto.password, members[k].password) ==>
      LoginDecision(members, admins, dto, verify) == MemberLogin(k)
  {
  }

  /** `Login`: a role other than member or admin in any case is a bad
      request; an unknown email or a wrong password is refused; nothing
      changes on a refusal. A member login stamps the last login and the
      update time; an admin login only the update time. */
  method Login(db: AppDbContext, dto: LoginInput, verify: (string, string) -> bool, now: Ticks)
    returns (status: Status)
    modifies db`members, db`admins
    ensures LoginDecision(old(db.members), old(db.admins), dto, verify).Refused? ==>
      && status == LoginDecision(old(db.members), old(db.admins), dto, verify).status
      && db.members == old(db.members) && db.admins == old(db.admins)
    ensures LoginDecision(old(db.members), old(db.admins), dto, verify).MemberLogin? ==>
      var k := LoginDecision(old(db.members), old(db.admins), dto, verify).k;
      && status == Ok && db.admins == old(db.admins)
      && db.members == old(db.members)[k := old(db.members)[k].(lastLogin := Some(now), updatedAt := now)]
    ensures LoginDecision(old(db.members), old(db.admins), dto, verify).AdminLogin? ==>
      var k := LoginDecision(old(db.members), old(db.admins), dto, verify).k;
      && status == Ok && db.members == old(db.members)
      && db.admins == old(db.admins)[k := old(db.admins)[k].(updatedAt := now)]
  {
    var role := LowerOpt(dto.role);
    if role == Some(MemberRole) {
      var k := MemberEmailIndex(db.members, dto.email);
      if k.None? || !verify(dto.password, db.members[k.value].password) {
        return Unauthorized;
      }
      var m := db.members[k.value];
      db.members := db.members[k.value := m.(lastLogin := Some(now), updatedAt := now)];
      return Ok;
    }
    if role == Some(AdminRole) {
      var k := AdminEmailIndex(db.admins, dto.email);
      if k.None? || !verify(dto.password, db.admins[k.value].password) {
        return Unauthorized;
      }
      var a := db.admins[k.value];
      db.admins := db.admins[k.value := a.(updatedAt := now)];
      return Ok;
    }
    status := BadRequest;
  }

  /** A login changes no email, so it keeps every unique index intact. */
  lemma LoginKeepsUnique(members: seq<Member>, k: nat, now: Ticks)
    requires k < |members| && UniqueMemberEmails(members) && UniqueUsernames(members)
    ensures var r := members[k := members[k].(lastLogin := Some(now), updatedAt := now)];
      UniqueMemberEmails(r) && UniqueUsernames(r)
  {
  }

  // ----- forgotten password -----

  /** `ForgotPassword`: an unknown email is NotFound; otherwise a reset code
      is mailed and nothing is stored. */
  function ForgotPassword(members: seq<Member>, email: string): (r: Status)
    ensures r == NotFound <==> forall k :: 0 <= k < |members| ==> members[k].email != email
    ensures r in {NotFound, Ok}
  {
    if MemberEmailIndex(members, email).None? then NotFound else Ok
  }

  // ----- the caller's profile -----

  datatype Profile = MemberProfile(member: Member) | AdminProfile(admin: Admin)

  /** The profile found, or the status that refuses the request. */
  datatype ProfileResponse = Found(value: Profile) | Failure(status: Status)

  /** The id claim: the name identifier, or the subject when there is none. */
  function IdClaim(user: Principal): (r: Option<string>)
    ensures user.nameIdentifier.Some? ==> r == user.nameIdentifier
    ensures user.nameIdentifier.None? ==> r == user.sub
  {
    user.nameIdentifier.OrElse(user.sub)
  }

  /** `GetProfile`: Unauthorized when the id claim does not parse; the role
      claim, compared exactly, picks the table; an unknown key is NotFound
      and any other role a bad request. */
  function GetProfile(members: seq<Member>, admins: seq<Admin>, user: Principal): (r: ProfileResponse)
    ensures ParseLong(IdClaim(user)).None? ==> r == Failure(Unauthorized)
    ensures ParseLong(IdClaim(user)).Some? && user.role !in {Some(MemberRole), Some(AdminRole)} ==>
      r == Failure(BadRequest)
    ensures r.Found? && r.value.MemberProfile? ==>
      user.role == Some(MemberRole) && r.value.member in members && Some(r.value.member.id) == ParseLong(IdClaim(user))
    ensures r.Found? && r.value.AdminProfile? ==>
      user.role == Some(AdminRole) && r.value.admin in admins && Some(r.value.admin.id) == ParseLong(IdClaim(user))
    ensures r == Failure(NotFound) <==>
      && ParseLong(IdClaim(user)).Some?
      && ((user.role == Some(MemberRole) && MemberIndex(members, ParseLong(IdClaim(user)).value).None?)
          || (user.role == Some(AdminRole) && AdminIndex(admins, ParseLong(IdClaim(user)).value).None?))
  {
    match ParseLong(IdClaim(user))
    case None => Failure(Unauthorized)
    case Some(id) =>
      if user.role == Some(MemberRole) then
        match MemberIndex(members, id)
        case None => Failure(NotFound)
        case Some(k) => Found(MemberProfile(members[k]))
      else if user.role == Some(AdminRole) then
        match AdminIndex(admins, id)
        case None => Failure(NotFound)
        case Some(k) => Found(AdminProfile(admins[k]))
      else Failure(BadRequest)
  }
}
