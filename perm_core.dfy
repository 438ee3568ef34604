/**
 * The role-based permission resolver (lib/perm/core.ts).
 *
 * The fixture tables (companies, memberships, role permissions, user roles) are passed
 * in as a `Tables` value. The two lookup maps that the source builds once at module
 * load are built by `BuildIndex`, whose result is characterised by `IndexOf`.
 * `PermGranted` and `PermGrantedInCompany` state the decisions declaratively; the
 * methods `HasPerm` and `HasPermInCompany` compute them the way the source does,
 * with nested loops that accumulate sets of role codes and permissions.
 */
module PermCore {
  import opened Wrappers
  import opened Seqs
  import opened Text

  datatype Company = Company(id: string, slug: string, ownerUserId: Option<string>, isActive: Option<bool>)
  datatype Membership = Membership(companyId: string, userId: string, isOwner: bool, isActive: bool, joinedAt: Option<string>)
  datatype RolePerm = RolePerm(roleCode: string, permissions: seq<string>)
  datatype UserRole = UserRole(companyId: string, userId: string, roleCodes: seq<string>)

  /** The four fixture tables the resolver reads. */
  datatype Tables = Tables(companies: seq<Company>, memberships: seq<Membership>,
                           rolePerms: seq<RolePerm>, userRoles: seq<UserRole>)

  /** The module-level lookup maps: memberships grouped by user, normalised role code to normalised permissions. */
  datatype Index = Index(membershipsByUser: map<string, seq<Membership>>, permByRole: map<string, seq<string>>)

  /* ---------------- selectors used with find/filter ---------------- */

  function UserIs(u: string): Membership -> bool {
    (m: Membership) => m.userId == u
  }

  function IsActiveMembership(): Membership -> bool {
    (m: Membership) => m.isActive
  }

  function CompanyIdIs(c: string): Company -> bool {
    (co: Company) => co.id == c
  }

  function ActiveMemberOf(c: string, u: string): Membership -> bool {
    (m: Membership) => m.companyId == c && m.userId == u && m.isActive
  }

  function RoleEntryOf(c: string, u: string): UserRole -> bool {
    (x: UserRole) => x.companyId == c && x.userId == u
  }

  /** `map.get(k) ?? []`. */
  function Lookup<K, V>(m: map<K, seq<V>>, k: K): seq<V> {
    if k in m then m[k] else []
  }

  /* ---------------- the index ---------------- */

  /** The memberships of user `u`, in table order. */
  function MembershipsOfUser(ms: seq<Membership>, u: string): seq<Membership> {
    Filter(ms, UserIs(u))
  }

  /** The predicate "the normalised code of this entry is `code`". */
  function CodeIs(code: string): RolePerm -> bool {
    (rp: RolePerm) => Norm(rp.roleCode) == code
  }

  /** The last role-permission entry whose normalised code is `code`. */
  function LastRolePerm(rps: seq<RolePerm>, code: string): Option<RolePerm> {
    FindLast(rps, CodeIs(code))
  }

  /** Entry `i` is the last one whose normalised code is `code`. */
  ghost predicate LastWithCode(rps: seq<RolePerm>, code: string, i: int) {
    0 <= i < |rps| && Norm(rps[i].roleCode) == code &&
    forall j :: i < j < |rps| ==> Norm(rps[j].roleCode) != code
  }

  /** A later entry with the same normalised code replaces an earlier one. */
  lemma LastRolePermIsLast(rps: seq<RolePerm>, code: string)
    ensures LastRolePerm(rps, code).None? <==> forall i :: 0 <= i < |rps| ==> Norm(rps[i].roleCode) != code
    ensures LastRolePerm(rps, code).Some? ==>
              exists i :: LastWithCode(rps, code, i) && rps[i] == LastRolePerm(rps, code).value
  {
    FindLastIsLast(rps, CodeIs(code));
    if LastRolePerm(rps, code).Some? {
      var i :| IsLastMatch(rps, CodeIs(code), i) && rps[i] == LastRolePerm(rps, code).value;
      assert LastWithCode(rps, code, i);
    }
  }

  /** `ps.map(norm)`. */
  function NormAll(ps: seq<string>): (r: seq<string>)
    ensures |r| == |ps| && forall i :: 0 <= i < |ps| ==> r[i] == Norm(ps[i])
  {
    seq(|ps|, i requires 0 <= i < |ps| => Norm(ps[i]))
  }

  /** The normalised permissions of the role with normalised code `code`; `[]` for an unknown role. */
  function RolePermissions(rps: seq<RolePerm>, code: string): seq<string> {
    match LastRolePerm(rps, code)
    case None => []
    case Some(rp) => NormAll(rp.permissions)
  }

  /** `ix` holds exactly the two maps the source builds from `t` at module load. */
  ghost predicate IndexOf(t: Tables, ix: Index) {
    && (forall u :: u in ix.membershipsByUser <==> exists m :: m in t.memberships && m.userId == u)
    && (forall u :: u in ix.membershipsByUser ==> ix.membershipsByUser[u] == MembershipsOfUser(t.memberships, u))
    && (forall code :: code in ix.permByRole <==> LastRolePerm(t.rolePerms, code).Some?)
    && (forall code :: code in ix.permByRole ==> ix.permByRole[code] == RolePermissions(t.rolePerms, code))
  }

  /** The two module-level loops of the source that fill `membershipsByUser` and `permByRole`. */
  method BuildIndex(t: Tables) returns (ix: Index)
    ensures IndexOf(t, ix)
  {
    var byUser := BuildMembershipsByUser(t.memberships);
    var byRole := BuildPermByRole(t.rolePerms);
    ix := Index(byUser, byRole);
  }

  /** The loop that groups the memberships by `user_id`. */
  method BuildMembershipsByUser(ms: seq<Membership>) returns (byUser: map<string, seq<Membership>>)
    ensures forall u :: u in byUser <==> exists m :: m in ms && m.userId == u
    ensures forall u :: u in byUser ==> byUser[u] == MembershipsOfUser(ms, u)
  {
    byUser := map[];
    for i := 0 to |ms|
      invariant forall u :: u in byUser <==> MembershipsOfUser(ms[..i], u) != []
      invariant forall u :: u in byUser ==> byUser[u] == MembershipsOfUser(ms[..i], u)
    {
      var m := ms[i];
      var arr := Lookup(byUser, m.userId) + [m];
      assert ms[..i + 1] == ms[..i] + [m];
      forall u ensures MembershipsOfUser(ms[..i + 1], u) == MembershipsOfUser(ms[..i], u) + (if m.userId == u then [m] else []) {
        FilterAppend(ms[..i], m, UserIs(u));
      }
      byUser := byUser[m.userId := arr];
    }
    assert ms[..|ms|] == ms;
    forall u ensures MembershipsOfUser(ms, u) != [] <==> exists m :: m in ms && m.userId == u {
      var f := MembershipsOfUser(ms, u);
      if f != [] {
        assert f[0] in ms && f[0].userId == u;
      }
      if m :| m in ms && m.userId == u {
        FilterMember(ms, UserIs(u), m);
      }
    }
  }

  /** A user with no membership in `ms` has an empty list. */
  lemma NoMembershipsOfUser(ms: seq<Membership>, u: string)
    requires forall m :: m in ms ==> m.userId != u
    ensures MembershipsOfUser(ms, u) == []
  {
    var f := MembershipsOfUser(ms, u);
    assert f != [] ==> f[0] in ms && f[0].userId == u;
  }

  /** The loop `permByRole.set(norm(rp.role_code), rp.permissions.map(norm))`. */
  method BuildPermByRole(rps: seq<RolePerm>) returns (byRole: map<string, seq<string>>)
    ensures forall code :: code in byRole <==> LastRolePerm(rps, code).Some?
    ensures forall code :: code in byRole ==> byRole[code] == RolePermissions(rps, code)
  {
    byRole := map[];
    for i := 0 to |rps|
      invariant forall code :: code in byRole <==> LastRolePerm(rps[..i], code).Some?
      invariant forall code :: code in byRole ==> byRole[code] == RolePermissions(rps[..i], code)
    {
      var rp := rps[i];
      LastRolePermStep(rps, i);
      byRole := byRole[Norm(rp.roleCode) := NormAll(rp.permissions)];
    }
    assert rps[..|rps|] == rps;
  }

  /** One more entry replaces the one kept for its own code and leaves the others. */
  lemma LastRolePermStep(rps: seq<RolePerm>, i: nat)
    requires i < |rps|
    ensures forall code :: LastRolePerm(rps[..i + 1], code) ==
                           if Norm(rps[i].roleCode) == code then Some(rps[i]) else LastRolePerm(rps[..i], code)
  {
    forall code
      ensures LastRolePerm(rps[..i + 1], code) ==
              if Norm(rps[i].roleCode) == code then Some(rps[i]) else LastRolePerm(rps[..i], code)
    {
      FindLastSnoc(rps, i, CodeIs(code));
    }
  }

  /* ---------------- the declarative decisions ---------------- */

  ghost predicate OwnsAnyCompany(cs: seq<Company>, u: string) {
    exists c :: c in cs && c.ownerUserId == Some(u)
  }

  predicate HasActiveMembership(ms: seq<Membership>, u: string) {
    exists m :: m in ms && m.userId == u && m.isActive
  }

  predicate HasActiveOwnerMembership(ms: seq<Membership>, u: string) {
    exists m :: m in ms && m.userId == u && m.isActive && m.isOwner
  }

  /** The role codes of a user-role entry (`ur?.role_codes ?? []`). */
  function CodesOf(ur: Option<UserRole>): seq<string> {
    match ur
    case None => []
    case Some(x) => x.roleCodes
  }

  /** The role codes held in company `c`: those of the first user-role entry for (`c`, `u`). */
  function CompanyRoleCodes(t: Tables, c: string, u: string): seq<string> {
    CodesOf(Find(t.userRoles, RoleEntryOf(c, u)))
  }

  /** The normalised codes of a list of role codes. */
  function NormCodes(codes: seq<string>): set<string> {
    set code | code in codes :: Norm(code)
  }

  /** The normalised role codes a user holds through one of their active memberships, across all companies. */
  function GlobalRoleCodes(t: Tables, u: string): set<string> {
    set m, code | m in t.memberships && m.userId == u && m.isActive && code in CompanyRoleCodes(t, m.companyId, u) :: Norm(code)
  }

  /** The union of the permissions of the given (normalised) role codes. */
  function PermsOfCodes(rps: seq<RolePerm>, codes: set<string>): set<string> {
    set code, q | code in codes && q in RolePermissions(rps, code) :: q
  }

  /** The normalised permission `p` is granted by `perms` exactly, or through its module wildcard `<module>:*`. */
  predicate Matches(perms: set<string>, p: string) {
    p in perms || ModuleOf(p) + ":*" in perms
  }

  /** The global decision of `hasPerm`. */
  function PermGranted(t: Tables, userId: string, perm: string): (granted: bool)
    ensures userId == "" || perm == "" ==> !granted
  {
    && userId != "" && perm != ""
    && (|| (exists c :: c in t.companies && c.ownerUserId == Some(userId))
        || (&& HasActiveMembership(t.memberships, userId)
            && (|| HasActiveOwnerMembership(t.memberships, userId)
                || Matches(PermsOfCodes(t.rolePerms, GlobalRoleCodes(t, userId)), Norm(perm)))))
  }

  /** The decision of `hasPermInCompany`, restricted to company `companyId`. */
  function PermGrantedInCompany(t: Tables, userId: string, companyId: string, perm: string): (granted: bool)
    ensures userId == "" || companyId == "" || perm == "" ==> !granted
    ensures Find(t.companies, CompanyIdIs(companyId)).None? ==> !granted
  {
    && userId != "" && companyId != "" && perm != ""
    && match Find(t.companies, CompanyIdIs(companyId))
       case None => false
       case Some(co) =>
         || co.ownerUserId == Some(userId)
         || match Find(t.memberships, ActiveMemberOf(companyId, userId))
            case None => false
            case Some(m) =>
              || m.isOwner
              || Matches(PermsOfCodes(t.rolePerms, NormCodes(CompanyRoleCodes(t, companyId, userId))), Norm(perm))
  }

  /** `hasView(userId, moduleCode)`. */
  function HasView(t: Tables, userId: string, moduleCode: string): bool {
    PermGranted(t, userId, moduleCode + ":view")
  }

  /** `hasPermByPath`: the path argument is ignored. */
  function HasPermByPath(t: Tables, userId: string, path: string, perm: string): bool {
    PermGranted(t, userId, perm)
  }

  /** `hasViewByPath`: the path argument is ignored. */
  function HasViewByPath(t: Tables, userId: string, path: string, moduleCode: string): bool {
    HasView(t, userId, moduleCode)
  }

  /* ---------------- the resolver as the source computes it ---------------- */

  /** `codes.add(norm(code))` for every code of `rc`. */
  method AddNormalised(codes: set<string>, rc: seq<string>) returns (r: set<string>)
    ensures r == codes + NormCodes(rc)
  {
    r := codes;
    for j := 0 to |rc|
      invariant r == codes + NormCodes(rc[..j])
    {
      assert rc[..j + 1] == rc[..j] + [rc[j]];
      r := r + {Norm(rc[j])};
    }
    assert rc[..|rc|] == rc;
  }

  /** `perms.add(it)` for every `it` of `ps`. */
  method AddAll(perms: set<string>, ps: seq<string>) returns (r: set<string>)
    ensures r == perms + set q | q in ps
  {
    r := perms;
    for k := 0 to |ps|
      invariant r == perms + set q | q in ps[..k]
    {
      assert ps[..k + 1] == ps[..k] + [ps[k]];
      r := r + {ps[k]};
    }
    assert ps[..|ps|] == ps;
  }

  /** The codes of a list of memberships' companies, as the loop of `hasPerm` collects them. */
  function CodesOfMemberships(t: Tables, u: string, mems: seq<Membership>): set<string> {
    set m, code | m in mems && code in CompanyRoleCodes(t, m.companyId, u) :: Norm(code)
  }

  lemma CodesOfMembershipsStep(t: Tables, u: string, mems: seq<Membership>, i: nat)
    requires i < |mems|
    ensures CodesOfMemberships(t, u, mems[..i + 1])
            == CodesOfMemberships(t, u, mems[..i]) + NormCodes(CompanyRoleCodes(t, mems[i].companyId, u))
  {
    assert mems[..i + 1] == mems[..i] + [mems[i]];
  }

  /** `hasPerm(userId, perm)`. */
  method HasPerm(t: Tables, ix: Index, userId: string, perm: string) returns (ok: bool)
    requires IndexOf(t, ix)
    ensures ok == PermGranted(t, userId, perm)
  {
    if userId == "" || perm == "" {
      return false;
    }
    var p := Norm(perm);
    var mod := ModuleOf(p);

    if exists c :: c in t.companies && c.ownerUserId == Some(userId) {
      return true;
    }

    var mems := Filter(Lookup(ix.membershipsByUser, userId), IsActiveMembership());
    ActiveMembershipsOfIndex(t, ix, userId);
    if |mems| == 0 {
      assert mems == [];
      return false;
    }
    assert mems[0] in mems;
    assert HasActiveMembership(t.memberships, userId);
    if exists m :: m in mems && m.isOwner {
      return true;
    }
    assert !HasActiveOwnerMembership(t.memberships, userId);

    var codes := CollectRoleCodesOf(t, userId, mems);
    ActiveCodesAreGlobal(t, userId, mems);
    if |codes| == 0 {
      assert PermsOfCodes(t.rolePerms, codes) == {};
      return false;
    }

    var perms := CollectPermissions(t, ix, codes);
    ok := p in perms || mod + ":*" in perms;
  }

  /** The first loop of `hasPerm`: the normalised role codes of the given memberships' companies. */
  method CollectRoleCodesOf(t: Tables, userId: string, mems: seq<Membership>) returns (codes: set<string>)
    ensures codes == CodesOfMemberships(t, userId, mems)
  {
    codes := {};
    for i := 0 to |mems|
      invariant codes == CodesOfMemberships(t, userId, mems[..i])
    {
      var ur := Find(t.userRoles, RoleEntryOf(mems[i].companyId, userId));
      codes := AddNormalised(codes, CodesOf(ur));
      CodesOfMembershipsStep(t, userId, mems, i);
    }
    assert mems[..|mems|] == mems;
  }

  /** Over exactly the user's active memberships, the collected codes are the user's global role codes. */
  lemma ActiveCodesAreGlobal(t: Tables, u: string, mems: seq<Membership>)
    requires forall m :: m in mems <==> m in t.memberships && m.userId == u && m.isActive
    ensures CodesOfMemberships(t, u, mems) == GlobalRoleCodes(t, u)
  {
  }

  /** The active memberships taken from the index are the user's active memberships in the table. */
  lemma ActiveMembershipsOfIndex(t: Tables, ix: Index, u: string)
    requires IndexOf(t, ix)
    ensures forall m :: m in Filter(Lookup(ix.membershipsByUser, u), IsActiveMembership()) <==>
                          m in t.memberships && m.userId == u && m.isActive
  {
    var own := Lookup(ix.membershipsByUser, u);
    if u !in ix.membershipsByUser {
      NoMembershipsOfUser(t.memberships, u);
    }
    assert own == MembershipsOfUser(t.memberships, u);
    forall m ensures m in Filter(own, IsActiveMembership()) <==> m in t.memberships && m.userId == u && m.isActive {
      FilterMember(own, IsActiveMembership(), m);
      FilterMember(t.memberships, UserIs(u), m);
    }
  }

  /** The second loop of `hasPerm`: the union of the permissions of the set `codes`. */
  method CollectPermissions(t: Tables, ix: Index, codes: set<string>) returns (perms: set<string>)
    requires IndexOf(t, ix)
    ensures perms == PermsOfCodes(t.rolePerms, codes)
  {
    var acc: set<string> := {};
    var rest := codes;
    while rest != {}
      invariant rest <= codes
      invariant acc == PermsOfCodes(t.rolePerms, codes - rest)
      decreases rest
    {
      var code :| code in rest;
      assert Lookup(ix.permByRole, code) == RolePermissions(t.rolePerms, code);
      acc := AddAll(acc, Lookup(ix.permByRole, code));
      assert codes - (rest - {code}) == (codes - rest) + {code};
      PermsOfCodesUnion(t.rolePerms, codes - rest, code);
      rest := rest - {code};
    }
    perms := acc;
  }

  lemma PermsOfCodesUnion(rps: seq<RolePerm>, codes: set<string>, code: string)
    ensures PermsOfCodes(rps, codes + {code}) == PermsOfCodes(rps, codes) + set q | q in RolePermissions(rps, code)
  {
  }

  /** `hasPermInCompany(userId, companyId, perm)`. */
  method HasPermInCompany(t: Tables, ix: Index, userId: string, companyId: string, perm: string) returns (ok: bool)
    requires IndexOf(t, ix)
    ensures ok == PermGrantedInCompany(t, userId, companyId, perm)
  {
    if userId == "" || companyId == "" || perm == "" {
      return false;
    }
    var p := Norm(perm);
    var mod := ModuleOf(p);

    var company := Find(t.companies, CompanyIdIs(companyId));
    if company.None? {
      return false;
    }
    if company.value.ownerUserId == Some(userId) {
      return true;
    }

    var mem := Find(t.memberships, ActiveMemberOf(companyId, userId));
    if mem.None? {
      return false;
    }
    if mem.value.isOwner {
      return true;
    }

    var ur := Find(t.userRoles, RoleEntryOf(companyId, userId));
    var roleCodes := CodesOf(ur);
    if |roleCodes| == 0 {
      assert NormCodes(roleCodes) == {};
      assert PermsOfCodes(t.rolePerms, {}) == {};
      return false;
    }

    var perms := CollectCodePermissions(t, ix, roleCodes);
    ok := p in perms || mod + ":*" in perms;
  }

  /** The loop of `hasPermInCompany`: the union of the permissions of the normalised codes of a list. */
  method CollectCodePermissions(t: Tables, ix: Index, roleCodes: seq<string>) returns (perms: set<string>)
    requires IndexOf(t, ix)
    ensures perms == PermsOfCodes(t.rolePerms, NormCodes(roleCodes))
  {
    perms := {};
    for k := 0 to |roleCodes|
      invariant perms == PermsOfCodes(t.rolePerms, NormCodes(roleCodes[..k]))
    {
      var code := Norm(roleCodes[k]);
      assert Lookup(ix.permByRole, code) == RolePermissions(t.rolePerms, code);
      perms := AddAll(perms, Lookup(ix.permByRole, code));
      assert NormCodes(roleCodes[..k + 1]) == NormCodes(roleCodes[..k]) + {code} by {
        assert roleCodes[..k + 1] == roleCodes[..k] + [roleCodes[k]];
      }
      PermsOfCodesUnion(t.rolePerms, NormCodes(roleCodes[..k]), code);
    }
    assert roleCodes[..|roleCodes|] == roleCodes;
  }

  /* ---------------- properties of the decisions ---------------- */

  /** Owning any company grants every non-empty permission, whatever the memberships and the company's active flag. */
  lemma OwnerOfAnyCompanyIsGranted(t: Tables, userId: string, perm: string, c: Company)
    requires c in t.companies && c.ownerUserId == Some(userId)
    requires userId != "" && perm != ""
    ensures PermGranted(t, userId, perm)
  {
  }

  /** A user who owns no company and has no active membership is refused everything. */
  lemma NoActiveMembershipIsDenied(t: Tables, userId: string, perm: string)
    requires forall c :: c in t.companies ==> c.ownerUserId != Some(userId)
    requires forall m :: m in t.memberships && m.userId == userId ==> !m.isActive
    ensures !PermGranted(t, userId, perm)
  {
  }

  /** An active membership flagged `is_owner` grants every non-empty permission. */
  lemma OwnerMembershipIsGranted(t: Tables, userId: string, perm: string, m: Membership)
    requires m in t.memberships && m.userId == userId && m.isActive && m.isOwner
    requires userId != "" && perm != ""
    ensures PermGranted(t, userId, perm)
  {
  }

  /** Role `code` grants the normalised permission `p`, exactly or through `<module>:*`. */
  predicate RoleGrants(rps: seq<RolePerm>, code: string, p: string) {
    p in RolePermissions(rps, code) || ModuleOf(p) + ":*" in RolePermissions(rps, code)
  }

  /**
   * Without ownership of a company or an owner membership, `hasPerm` holds exactly when one
   * role code of the first user-role entry of one of the user's active memberships grants
   * the normalised permission.
   */
  lemma RoleBasedDecision(t: Tables, userId: string, perm: string)
    requires userId != "" && perm != ""
    requires forall c :: c in t.companies ==> c.ownerUserId != Some(userId)
    requires !HasActiveOwnerMembership(t.memberships, userId)
    ensures PermGranted(t, userId, perm) <==>
              exists m, code :: m in t.memberships && m.userId == userId && m.isActive &&
                                code in CompanyRoleCodes(t, m.companyId, userId) &&
                                RoleGrants(t.rolePerms, Norm(code), Norm(perm))
  {
    var p := Norm(perm);
    var perms := PermsOfCodes(t.rolePerms, GlobalRoleCodes(t, userId));
    if PermGranted(t, userId, perm) {
      var q := if p in perms then p else ModuleOf(p) + ":*";
      assert q in perms;
      var code :| code in GlobalRoleCodes(t, userId) && q in RolePermissions(t.rolePerms, code);
      var m, raw :| m in t.memberships && m.userId == userId && m.isActive &&
                    raw in CompanyRoleCodes(t, m.companyId, userId) && Norm(raw) == code;
      assert RoleGrants(t.rolePerms, Norm(raw), p);
    }
    if exists m, code :: m in t.memberships && m.userId == userId && m.isActive &&
                         code in CompanyRoleCodes(t, m.companyId, userId) &&
                         RoleGrants(t.rolePerms, Norm(code), p) {
      var m, code :| m in t.memberships && m.userId == userId && m.isActive &&
                     code in CompanyRoleCodes(t, m.companyId, userId) &&
                     RoleGrants(t.rolePerms, Norm(code), p);
      assert Norm(code) in GlobalRoleCodes(t, userId);
      assert HasActiveMembership(t.memberships, userId);
      if p in RolePermissions(t.rolePerms, Norm(code)) {
        assert p in perms;
      } else {
        assert ModuleOf(p) + ":*" in perms;
      }
    }
  }

  /** A module wildcard among the user's role permissions grants every permission of that module. */
  lemma WildcardIsGranted(t: Tables, userId: string, perm: string)
    requires userId != "" && perm != ""
    requires ModuleOf(Norm(perm)) + ":*" in PermsOfCodes(t.rolePerms, GlobalRoleCodes(t, userId))
    ensures PermGranted(t, userId, perm)
  {
    var w := ModuleOf(Norm(perm)) + ":*";
    var code :| code in GlobalRoleCodes(t, userId) && w in RolePermissions(t.rolePerms, code);
    var m, raw :| m in t.memberships && m.userId == userId && m.isActive &&
                  raw in CompanyRoleCodes(t, m.companyId, userId) && Norm(raw) == code;
    assert HasActiveMembership(t.memberships, userId);
  }

  /** The same for the company-scoped decision. */
  lemma WildcardIsGrantedInCompany(t: Tables, userId: string, companyId: string, perm: string)
    requires userId != "" && companyId != "" && perm != ""
    requires Find(t.companies, CompanyIdIs(companyId)).Some?
    requires Find(t.memberships, ActiveMemberOf(companyId, userId)).Some?
    requires ModuleOf(Norm(perm)) + ":*" in PermsOfCodes(t.rolePerms, NormCodes(CompanyRoleCodes(t, companyId, userId)))
    ensures PermGrantedInCompany(t, userId, companyId, perm)
  {
  }

  /** The owner of the named company is granted everything in it, with or without a membership. */
  lemma CompanyOwnerIsGrantedInCompany(t: Tables, userId: string, companyId: string, perm: string, co: Company)
    requires userId != "" && companyId != "" && perm != ""
    requires Find(t.companies, CompanyIdIs(companyId)) == Some(co) && co.ownerUserId == Some(userId)
    ensures PermGrantedInCompany(t, userId, companyId, perm)
  {
  }

  /**
   * Failing ownership, the first active membership of the user in a known company grants
   * everything there when it is flagged `is_owner`.
   */
  lemma OwnerMembershipIsGrantedInCompany(t: Tables, userId: string, companyId: string, perm: string, co: Company, m: Membership)
    requires userId != "" && companyId != "" && perm != ""
    requires Find(t.companies, CompanyIdIs(companyId)) == Some(co)
    requires Find(t.memberships, ActiveMemberOf(companyId, userId)) == Some(m) && m.isOwner
    ensures PermGrantedInCompany(t, userId, companyId, perm)
  {
  }

  /** A company missing from the companies table refuses everything, even to an owner membership of it. */
  lemma UnknownCompanyIsDenied(t: Tables, userId: string, companyId: string, perm: string)
    requires forall c :: c in t.companies ==> c.id != companyId
    ensures !PermGrantedInCompany(t, userId, companyId, perm)
  {
  }

  /** Anyone else needs an active membership of that company. */
  lemma NoCompanyMembershipIsDeniedInCompany(t: Tables, userId: string, companyId: string, perm: string)
    requires forall c :: c in t.companies && c.id == companyId ==> c.ownerUserId != Some(userId)
    requires forall m :: m in t.memberships && m.companyId == companyId && m.userId == userId ==> !m.isActive
    ensures !PermGrantedInCompany(t, userId, companyId, perm)
  {
  }

  /**
   * For a known company not owned by the user, whose first active membership there is not
   * flagged `is_owner`, only the role codes of the first user-role entry for that company
   * decide.
   */
  lemma RoleBasedDecisionInCompany(t: Tables, userId: string, companyId: string, perm: string, co: Company, m: Membership)
    requires userId != "" && companyId != "" && perm != ""
    requires Find(t.companies, CompanyIdIs(companyId)) == Some(co) && co.ownerUserId != Some(userId)
    requires Find(t.memberships, ActiveMemberOf(companyId, userId)) == Some(m) && !m.isOwner
    ensures PermGrantedInCompany(t, userId, companyId, perm) <==>
              exists code :: code in CompanyRoleCodes(t, companyId, userId) &&
                             RoleGrants(t.rolePerms, Norm(code), Norm(perm))
  {
    var p := Norm(perm);
    var perms := PermsOfCodes(t.rolePerms, NormCodes(CompanyRoleCodes(t, companyId, userId)));
    if PermGrantedInCompany(t, userId, companyId, perm) {
      var q := if p in perms then p else ModuleOf(p) + ":*";
      assert q in perms;
      var code :| code in NormCodes(CompanyRoleCodes(t, companyId, userId)) && q in RolePermissions(t.rolePerms, code);
      var raw :| raw in CompanyRoleCodes(t, companyId, userId) && Norm(raw) == code;
      assert RoleGrants(t.rolePerms, Norm(raw), p);
    }
    if exists code :: code in CompanyRoleCodes(t, companyId, userId) && RoleGrants(t.rolePerms, Norm(code), p) {
      var code :| code in CompanyRoleCodes(t, companyId, userId) && RoleGrants(t.rolePerms, Norm(code), p);
      assert Norm(code) in NormCodes(CompanyRoleCodes(t, companyId, userId));
      if p in RolePermissions(t.rolePerms, Norm(code)) {
        assert p in perms;
      } else {
        assert ModuleOf(p) + ":*" in perms;
      }
    }
  }

  /** Permissions that normalise equally get the same answer, globally and per company. */
  lemma NormalisedPermissionsAgree(t: Tables, userId: string, companyId: string, p1: string, p2: string)
    requires p1 != "" && p2 != "" && Norm(p1) == Norm(p2)
    ensures PermGranted(t, userId, p1) == PermGranted(t, userId, p2)
    ensures PermGrantedInCompany(t, userId, companyId, p1) == PermGrantedInCompany(t, userId, companyId, p2)
  {
  }

  /** Asking for the normalised form of a permission gives the same answer as asking for the permission. */
  lemma NormalisedFormAgrees(t: Tables, userId: string, companyId: string, perm: string)
    requires Norm(perm) != ""
    ensures PermGranted(t, userId, Norm(perm)) == PermGranted(t, userId, perm)
    ensures PermGrantedInCompany(t, userId, companyId, Norm(perm)) == PermGrantedInCompany(t, userId, companyId, perm)
  {
    NormIdempotent(perm);
    assert perm != "";
  }

  /** The index stores normalised permissions only. */
  lemma RolePermissionsAreNormalised(rps: seq<RolePerm>, code: string)
    ensures forall q :: q in RolePermissions(rps, code) ==> Norm(q) == q
  {
    var ps := RolePermissions(rps, code);
    forall q | q in ps ensures Norm(q) == q {
      var i :| 0 <= i < |ps| && ps[i] == q;
      var rp := LastRolePerm(rps, code).value;
      NormIdempotent(rp.permissions[i]);
    }
  }

  /** The permissions of a role come from the last entry carrying its normalised code; earlier duplicates are replaced. */
  lemma LastEntryWins(rps: seq<RolePerm>, code: string, i: nat)
    requires LastWithCode(rps, code, i)
    ensures RolePermissions(rps, code) == NormAll(rps[i].permissions)
  {
    LastRolePermIsLast(rps, code);
    var k :| LastWithCode(rps, code, k) && rps[k] == LastRolePerm(rps, code).value;
    assert k == i;
  }

  /** A role code that does not normalise to any entry's code has no permissions. */
  lemma UnknownRoleHasNoPermissions(rps: seq<RolePerm>, code: string)
    requires forall i :: 0 <= i < |rps| ==> Norm(rps[i].roleCode) != code
    ensures RolePermissions(rps, code) == []
  {
    LastRolePermIsLast(rps, code);
  }

  lemma PermsOfCodesMonotone(rps: seq<RolePerm>, a: set<string>, b: set<string>)
    requires a <= b
    ensures PermsOfCodes(rps, a) <= PermsOfCodes(rps, b)
  {
  }

  /** Scoped implies global: a permission granted in one company is granted by `hasPerm`. */
  lemma ScopedImpliesGlobal(t: Tables, userId: string, companyId: string, perm: string)
    requires PermGrantedInCompany(t, userId, companyId, perm)
    ensures PermGranted(t, userId, perm)
  {
    var co := Find(t.companies, CompanyIdIs(companyId)).value;
    assert co in t.companies;
    if co.ownerUserId != Some(userId) {
      var m := Find(t.memberships, ActiveMemberOf(companyId, userId)).value;
      assert m in t.memberships && m.companyId == companyId && m.userId == userId && m.isActive;
      assert HasActiveMembership(t.memberships, userId);
      if !m.isOwner {
        var local := NormCodes(CompanyRoleCodes(t, companyId, userId));
        assert local <= GlobalRoleCodes(t, userId) by {
          forall x | x in local ensures x in GlobalRoleCodes(t, userId) {
            var raw :| raw in CompanyRoleCodes(t, companyId, userId) && Norm(raw) == x;
            assert raw in CompanyRoleCodes(t, m.companyId, userId);
          }
        }
        PermsOfCodesMonotone(t.rolePerms, local, GlobalRoleCodes(t, userId));
      }
    }
  }

  /** `hasView` is the `:view` permission of the module. */
  lemma HasViewIsViewPermission(t: Tables, userId: string, moduleCode: string)
    ensures HasView(t, userId, moduleCode) == PermGranted(t, userId, moduleCode + ":view")
  {
  }

  /**
   * For a normalised module name without a colon, and a user decided by roles, `hasView` holds
   * exactly when the user's role permissions contain `<module>:view` or `<module>:*`.
   */
  lemma HasViewOfModule(t: Tables, userId: string, moduleCode: string)
    requires Norm(moduleCode) == moduleCode && ':' !in moduleCode
    requires userId != ""
    requires forall c :: c in t.companies ==> c.ownerUserId != Some(userId)
    requires HasActiveMembership(t.memberships, userId) && !HasActiveOwnerMembership(t.memberships, userId)
    ensures HasView(t, userId, moduleCode) <==>
              (|| moduleCode + ":view" in PermsOfCodes(t.rolePerms, GlobalRoleCodes(t, userId))
               || moduleCode + ":*" in PermsOfCodes(t.rolePerms, GlobalRoleCodes(t, userId)))
  {
    var p := moduleCode + ":view";
    NormOfQualified(moduleCode, "view");
    assert moduleCode + ":" + "view" == p;
    assert Norm(p) == p && ModuleOf(p) == moduleCode;
    var perms := PermsOfCodes(t.rolePerms, GlobalRoleCodes(t, userId));
    assert HasView(t, userId, moduleCode) == Matches(perms, Norm(p));
  }

  /** `<m>:<a>` is already normalised when `m` is and `a` is a lower-case word. */
  lemma NormOfQualified(m: string, a: string)
    requires Norm(m) == m && ':' !in m
    requires a != [] && forall i :: 0 <= i < |a| ==> IsLower(a[i])
    ensures Norm(m + ":" + a) == m + ":" + a
    ensures ModuleOf(Norm(m + ":" + a)) == m
  {
    var s := m + ":" + a;
    TrimEnds(m);
    assert m != [] ==> m[0] == LowerChar(Trim(m)[0]);
    assert s[|s| - 1] == a[|a| - 1];
    TrimTrimmed(s);
    LowerIdempotent(Trim(m));
    assert Lower(s) == s;
    ModuleOfQualified(m, a);
  }

  /** The path-keyed wrappers ignore the path. */
  lemma ByPathIgnoresPath(t: Tables, userId: string, path1: string, path2: string, perm: string)
    ensures HasPermByPath(t, userId, path1, perm) == HasPermByPath(t, userId, path2, perm) == PermGranted(t, userId, perm)
    ensures HasViewByPath(t, userId, path1, perm) == HasViewByPath(t, userId, path2, perm) == HasView(t, userId, perm)
  {
  }
}
