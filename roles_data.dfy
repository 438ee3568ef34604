/**
 * The rows of the roles page of one company: one row per distinct role code that the
 * company's user-role entries list, in ascending order of code, each with the role's
 * normalised permissions and the number of times the code is listed.
 */
module RolesData {
  import opened Wrappers
  import opened Seqs
  import opened Text
  import opened StringOrder
  import opened PermCore

  /** A row of the roles table as the server hands it to the page. */
  datatype RoleRow = RoleRow(code: string, permissions: seq<string>, memberCount: int)

  /** Every raw role code listed by an entry of company `c`. */
  function CompanyCodes(urs: seq<UserRole>, c: string): set<string> {
    set ur, code | ur in urs && ur.companyId == c && code in ur.roleCodes :: code
  }

  /** How many times `code` is listed by the entries of company `c`. */
  function Occurrences(urs: seq<UserRole>, c: string, code: string): nat {
    if urs == [] then 0
    else Occurrences(urs[..|urs| - 1], c, code) + ListedBy(urs[|urs| - 1], c, code)
  }

  /** How many times entry `ur` lists `code` for company `c`. */
  function ListedBy(ur: UserRole, c: string, code: string): nat {
    if ur.companyId == c then multiset(ur.roleCodes)[code] else 0
  }

  lemma CompanyCodesStep(urs: seq<UserRole>, c: string, i: nat)
    requires i < |urs|
    ensures CompanyCodes(urs[..i + 1], c) ==
            CompanyCodes(urs[..i], c) + (if urs[i].companyId == c then set code | code in urs[i].roleCodes else {})
  {
    assert urs[..i + 1] == urs[..i] + [urs[i]];
  }

  /** A code listed by the company is counted at least once. */
  lemma {:induction false} OccurrencesPositive(urs: seq<UserRole>, c: string, code: string)
    requires code in CompanyCodes(urs, c)
    ensures Occurrences(urs, c, code) >= 1
    decreases |urs|
  {
    var init := urs[..|urs| - 1];
    var last := urs[|urs| - 1];
    assert urs == init + [last];
    if last.companyId == c && code in last.roleCodes {
      assert code in multiset(last.roleCodes);
    } else {
      var ur :| ur in urs && ur.companyId == c && code in ur.roleCodes;
      assert ur in init;
      OccurrencesPositive(init, c, code);
    }
  }

  /** The first loop: the distinct raw codes of the company, each once, in order of first appearance. */
  method CollectRoleCodes(urs: seq<UserRole>, c: string) returns (roles: seq<string>)
    ensures NoDuplicates(roles)
    ensures forall x :: x in roles <==> x in CompanyCodes(urs, c)
  {
    roles := [];
    for i := 0 to |urs|
      invariant NoDuplicates(roles)
      invariant forall x :: x in roles <==> x in CompanyCodes(urs[..i], c)
    {
      CompanyCodesStep(urs, c, i);
      var ur := urs[i];
      if ur.companyId != c {
        continue;
      }
      for k := 0 to |ur.roleCodes|
        invariant NoDuplicates(roles)
        invariant forall x :: x in roles <==> x in CompanyCodes(urs[..i], c) || x in ur.roleCodes[..k]
      {
        var code := ur.roleCodes[k];
        assert ur.roleCodes[..k + 1] == ur.roleCodes[..k] + [code];
        if code !in roles {
          roles := roles + [code];
        }
      }
      assert ur.roleCodes[..|ur.roleCodes|] == ur.roleCodes;
    }
    assert urs[..|urs|] == urs;
  }

  /** The counting loops: every collected code starts at 0 and is incremented once per listing. */
  method CountMembers(urs: seq<UserRole>, c: string, roles: seq<string>) returns (counts: map<string, int>)
    requires forall x :: x in CompanyCodes(urs, c) ==> x in roles
    ensures forall x :: x in roles ==> x in counts && counts[x] == Occurrences(urs, c, x)
  {
    counts := map[];
    for k := 0 to |roles|
      invariant forall x :: x in roles[..k] ==> x in counts && counts[x] == 0
    {
      counts := counts[roles[k] := 0];
      assert roles[..k + 1] == roles[..k] + [roles[k]];
    }
    assert roles[..|roles|] == roles;
    for i := 0 to |urs|
      invariant forall x :: x in roles ==> x in counts && counts[x] == Occurrences(urs[..i], c, x)
    {
      var ur := urs[i];
      assert urs[..i + 1][..i] == urs[..i] && urs[..i + 1][i] == ur;
      if ur.companyId != c {
        continue;
      }
      for k := 0 to |ur.roleCodes|
        invariant forall x :: x in roles ==>
                    x in counts && counts[x] == Occurrences(urs[..i], c, x) + multiset(ur.roleCodes[..k])[x]
      {
        var code := ur.roleCodes[k];
        assert ur in urs && code in ur.roleCodes;
        assert code in CompanyCodes(urs, c);
        assert ur.roleCodes[..k + 1] == ur.roleCodes[..k] + [code];
        counts := counts[code := (if code in counts then counts[code] else 0) + 1];
      }
      assert ur.roleCodes[..|ur.roleCodes|] == ur.roleCodes;
    }
    assert urs[..|urs|] == urs;
  }

  /**
   * `getCompanyRoleRows`: the rows are strictly ascending by code, their codes are exactly the
   * codes the company lists, and each carries the role's permissions and its listing count.
   */
  method GetCompanyRoleRows(rps: seq<RolePerm>, urs: seq<UserRole>, c: string) returns (rows: seq<RoleRow>)
    ensures forall i, j :: 0 <= i < j < |rows| ==> Below(rows[i].code, rows[j].code) && rows[i].code != rows[j].code
    ensures forall x :: (exists i :: 0 <= i < |rows| && rows[i].code == x) <==> x in CompanyCodes(urs, c)
    ensures |rows| == |CompanyCodes(urs, c)|
    ensures forall i :: 0 <= i < |rows| ==> rows[i].permissions == RolePermissions(rps, Norm(rows[i].code))
    ensures forall i :: 0 <= i < |rows| ==> rows[i].memberCount == Occurrences(urs, c, rows[i].code) >= 1
    ensures forall i, j :: 0 <= i < |rows| && 0 <= j < |rows| && Norm(rows[i].code) == Norm(rows[j].code) ==>
              rows[i].permissions == rows[j].permissions
  {
    var roles := CollectRoleCodes(urs, c);
    var permByRole := BuildPermByRole(rps);
    var counts := CountMembers(urs, c, roles);
    var sorted := Sort(roles);
    SortDistinct(roles);
    rows := BuildRows(rps, urs, c, sorted, permByRole, counts);
    forall i | 0 <= i < |rows| ensures Occurrences(urs, c, rows[i].code) >= 1 {
      OccurrencesPositive(urs, c, rows[i].code);
    }
    DistinctCardinality(roles, CompanyCodes(urs, c));
  }

  /** The loop that pushes one row per sorted code. */
  method BuildRows(rps: seq<RolePerm>, urs: seq<UserRole>, c: string, sorted: seq<string>,
                   permByRole: map<string, seq<string>>, counts: map<string, int>) returns (rows: seq<RoleRow>)
    requires forall code :: code in permByRole <==> LastRolePerm(rps, code).Some?
    requires forall code :: code in permByRole ==> permByRole[code] == RolePermissions(rps, code)
    requires forall x :: x in sorted ==> x in counts && counts[x] == Occurrences(urs, c, x)
    ensures |rows| == |sorted|
    ensures forall j :: 0 <= j < |rows| ==>
              rows[j] == RoleRow(sorted[j], RolePermissions(rps, Norm(sorted[j])), Occurrences(urs, c, sorted[j]))
  {
    rows := [];
    for k := 0 to |sorted|
      invariant |rows| == k
      invariant forall j :: 0 <= j < k ==>
                  rows[j] == RoleRow(sorted[j], RolePermissions(rps, Norm(sorted[j])), Occurrences(urs, c, sorted[j]))
    {
      var code := sorted[k];
      var perms := Lookup(permByRole, Norm(code));
      var count := if code in counts then counts[code] else 0;
      rows := rows + [RoleRow(code, perms, count)];
    }
  }

  /** A duplicate-free sequence has as many elements as the set of its elements. */
  lemma {:induction false} DistinctCardinality(s: seq<string>, xs: set<string>)
    requires NoDuplicates(s)
    requires forall x :: x in s <==> x in xs
    ensures |s| == |xs|
    decreases |s|
  {
    if s != [] {
      var init := s[..|s| - 1];
      var last := s[|s| - 1];
      assert s == init + [last];
      assert last !in init;
      DistinctCardinality(init, xs - {last});
    }
  }

  /** A company without listed codes has no rows. */
  lemma NoEntriesNoCodes(urs: seq<UserRole>, c: string)
    requires forall i :: 0 <= i < |urs| ==> urs[i].companyId != c
    ensures CompanyCodes(urs, c) == {}
  {
  }
}
