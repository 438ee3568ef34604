/**
 * The fixture joins of the dashboard: the users table with its defaults filled in, the
 * default company of a user, and the member rows of one company.
 */
module CompanyData {
  import opened Wrappers
  import opened Seqs
  import opened PermCore

  /** A user record as stored: the name, the active flag and the creation date may be missing. */
  datatype RawUser = RawUser(id: string, fullName: Option<string>, email: string, isActive: Option<bool>, createdAt: Option<string>)

  /** A user record with its defaults filled in. */
  datatype User = User(id: string, name: string, email: string, isActive: bool, createdAt: string)

  /** One row of the member table of a company. */
  datatype Row = Row(id: string, name: string, email: string, roles: seq<string>, isOwner: bool, isActive: bool, joinedAt: string)

  /** The defaults of the users table: a missing name is "-", a missing flag is active, a missing date is "". */
  function NormaliseUser(raw: RawUser): (u: User)
    ensures u.id == raw.id && u.email == raw.email
    ensures u.name == (if raw.fullName.Some? then raw.fullName.value else "-")
    ensures u.isActive <==> raw.isActive != Some(false)
    ensures u.createdAt == (if raw.createdAt.Some? then raw.createdAt.value else "")
  {
    User(raw.id, raw.fullName.GetOr("-"), raw.email, raw.isActive.GetOr(true), raw.createdAt.GetOr(""))
  }

  function NormaliseUsers(raws: seq<RawUser>): (us: seq<User>)
    ensures |us| == |raws| && forall i :: 0 <= i < |raws| ==> us[i] == NormaliseUser(raws[i])
  {
    seq(|raws|, i requires 0 <= i < |raws| => NormaliseUser(raws[i]))
  }

  function OwnedActiveBy(u: string): Company -> bool {
    (c: Company) => c.ownerUserId == Some(u) && c.isActive.GetOr(true)
  }

  function ActiveMembershipOf(u: string): Membership -> bool {
    (m: Membership) => m.userId == u && m.isActive
  }

  /**
   * `getDefaultCompanyId`: none for an empty user id; else the first company the user owns
   * that is not flagged inactive; else the company of the user's first active membership.
   */
  function DefaultCompanyId(companies: seq<Company>, memberships: seq<Membership>, userId: string): (r: Option<string>)
    ensures r.None? <==>
              userId == "" ||
              ((forall i :: 0 <= i < |companies| ==> !OwnedActiveBy(userId)(companies[i])) &&
               (forall i :: 0 <= i < |memberships| ==> !ActiveMembershipOf(userId)(memberships[i])))
    ensures r.Some? ==>
              (exists i :: 0 <= i < |companies| && OwnedActiveBy(userId)(companies[i]) && companies[i].id == r.value) ||
              (exists i :: 0 <= i < |memberships| && ActiveMembershipOf(userId)(memberships[i]) && memberships[i].companyId == r.value)
  {
    if userId == "" then None
    else
      match Find(companies, OwnedActiveBy(userId))
      case Some(c) => Some(c.id)
      case None =>
        match Find(memberships, ActiveMembershipOf(userId))
        case Some(m) => Some(m.companyId)
        case None => None
  }

  /** An owned active company is preferred to any membership: the first one is the answer. */
  lemma OwnedCompanyFirst(companies: seq<Company>, memberships: seq<Membership>, userId: string, i: nat)
    requires userId != "" && i < |companies| && OwnedActiveBy(userId)(companies[i])
    requires forall j :: 0 <= j < i ==> !OwnedActiveBy(userId)(companies[j])
    ensures DefaultCompanyId(companies, memberships, userId) == Some(companies[i].id)
  {
    FindFirst(companies, OwnedActiveBy(userId), i);
  }

  /** Without an owned active company the first active membership decides. */
  lemma MembershipFallback(companies: seq<Company>, memberships: seq<Membership>, userId: string, i: nat)
    requires userId != ""
    requires forall j :: 0 <= j < |companies| ==> !OwnedActiveBy(userId)(companies[j])
    requires i < |memberships| && ActiveMembershipOf(userId)(memberships[i])
    requires forall j :: 0 <= j < i ==> !ActiveMembershipOf(userId)(memberships[j])
    ensures DefaultCompanyId(companies, memberships, userId) == Some(memberships[i].companyId)
  {
    FindFirst(memberships, ActiveMembershipOf(userId), i);
  }

  function UserIdIs(id: string): User -> bool {
    (x: User) => x.id == id
  }

  function CompanyIs(c: string): Membership -> bool {
    (m: Membership) => m.companyId == c
  }

  /** The memberships of company `c`, inactive ones included, in table order. */
  function MembershipsOfCompany(memberships: seq<Membership>, c: string): (r: seq<Membership>)
    ensures forall i :: 0 <= i < |r| ==> r[i] in memberships && r[i].companyId == c
    ensures forall i :: 0 <= i < |memberships| && memberships[i].companyId == c ==> memberships[i] in r
    ensures IsSubsequence(r, memberships)
    ensures forall m :: multiset(r)[m] == if m.companyId == c then multiset(memberships)[m] else 0
  {
    FilterIsSubsequence(memberships, CompanyIs(c));
    FilterMultiset(memberships, CompanyIs(c));
    Filter(memberships, CompanyIs(c))
  }

  /**
   * The row of membership `m` of company `c`: the first user with that id supplies name, email,
   * active flag and creation date (each "-", true or "" without a user), the first user-role
   * entry of (c, user) the roles, and the membership its owner flag, active flag and join date.
   */
  function RowOf(users: seq<User>, userRoles: seq<UserRole>, c: string, m: Membership): (r: Row)
    ensures r.id == m.userId && r.isOwner == m.isOwner
    ensures r.isActive ==> m.isActive
    ensures (forall i :: 0 <= i < |users| ==> users[i].id != m.userId) ==>
              r.name == "-" && r.email == "-" && r.isActive == m.isActive && r.joinedAt == m.joinedAt.GetOr("")
    ensures (forall i :: 0 <= i < |userRoles| ==> !RoleEntryOf(c, m.userId)(userRoles[i])) ==> r.roles == []
    ensures m.joinedAt.Some? ==> r.joinedAt == m.joinedAt.value
  {
    var u := Find(users, UserIdIs(m.userId));
    var ur := Find(userRoles, RoleEntryOf(c, m.userId));
    Row(
      m.userId,
      if u.Some? then u.value.name else "-",
      if u.Some? then u.value.email else "-",
      CodesOf(ur),
      m.isOwner,
      (if u.Some? then u.value.isActive else true) && m.isActive,
      if m.joinedAt.Some? then m.joinedAt.value else if u.Some? then u.value.createdAt else "")
  }

  /** The first user-role entry of the company and the member supplies the roles. */
  lemma RowOfFirstRoleEntry(users: seq<User>, userRoles: seq<UserRole>, c: string, m: Membership, i: nat)
    requires i < |userRoles| && userRoles[i].companyId == c && userRoles[i].userId == m.userId
    requires forall j :: 0 <= j < i ==> !(userRoles[j].companyId == c && userRoles[j].userId == m.userId)
    ensures RowOf(users, userRoles, c, m).roles == userRoles[i].roleCodes
  {
    FindFirst(userRoles, RoleEntryOf(c, m.userId), i);
  }

  /** The first user with the membership's id decides the user-derived fields. */
  lemma RowOfFirstUser(users: seq<User>, userRoles: seq<UserRole>, c: string, m: Membership, i: nat)
    requires i < |users| && users[i].id == m.userId
    requires forall j :: 0 <= j < i ==> users[j].id != m.userId
    ensures RowOf(users, userRoles, c, m).name == users[i].name
    ensures RowOf(users, userRoles, c, m).email == users[i].email
    ensures RowOf(users, userRoles, c, m).isActive == (users[i].isActive && m.isActive)
    ensures m.joinedAt.None? ==> RowOf(users, userRoles, c, m).joinedAt == users[i].createdAt
  {
    FindFirst(users, UserIdIs(m.userId), i);
  }

  /** `getUsersOfCompany`: one row per membership of the company, in membership order. */
  function UsersOfCompany(memberships: seq<Membership>, users: seq<User>, userRoles: seq<UserRole>, c: string): (rows: seq<Row>)
    ensures |rows| == |MembershipsOfCompany(memberships, c)|
    ensures forall i :: 0 <= i < |rows| ==>
              rows[i] == RowOf(users, userRoles, c, MembershipsOfCompany(memberships, c)[i])
  {
    var mems := MembershipsOfCompany(memberships, c);
    seq(|mems|, i requires 0 <= i < |mems| => RowOf(users, userRoles, c, mems[i]))
  }

  /** Every member of the company has a row, and every row belongs to a member of the company. */
  lemma UsersOfCompanyCoversMembers(memberships: seq<Membership>, users: seq<User>, userRoles: seq<UserRole>, c: string)
    ensures forall m :: m in memberships && m.companyId == c ==>
              exists i :: 0 <= i < |UsersOfCompany(memberships, users, userRoles, c)| &&
                          MembershipsOfCompany(memberships, c)[i] == m
    ensures forall i :: 0 <= i < |UsersOfCompany(memberships, users, userRoles, c)| ==>
              exists m :: m in memberships && m.companyId == c && UsersOfCompany(memberships, users, userRoles, c)[i].id == m.userId
  {
    var mems := MembershipsOfCompany(memberships, c);
    var rows := UsersOfCompany(memberships, users, userRoles, c);
    forall m | m in memberships && m.companyId == c
      ensures exists i :: 0 <= i < |rows| && mems[i] == m
    {
      var k :| 0 <= k < |memberships| && memberships[k] == m;
      assert m in mems;
      var i :| 0 <= i < |mems| && mems[i] == m;
    }
    forall i | 0 <= i < |rows|
      ensures exists m :: m in memberships && m.companyId == c && rows[i].id == m.userId
    {
      assert mems[i] in memberships;
    }
  }
}
