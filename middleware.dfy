/**
 * The route guard that runs before every page under `/`, `/auth` and `/dashboard`: the root
 * sends the visitor to the dashboard or to sign-in, signed-in users are kept away from the
 * authentication pages, anonymous visitors of the dashboard are sent to sign-in with a
 * callback, and signed-in visitors of a guarded dashboard page need the page's view permission.
 */
module Middleware {
  import opened Wrappers
  import opened Text
  import opened PermCore

  const AuthRoutes: seq<string> := ["/auth/signin", "/auth/register", "/auth/forgot-password"]
  const AfterLoginRedirect: string := "/dashboard"

  datatype Mode = Any | All

  /**
   * A page rule: the page it guards (the source's anchored regular expressions match one exact
   * path each), one module or a list, and whether any or all of them must be viewable.
   */
  datatype ViewRule = ViewRule(path: string, moduleCode: Option<string>, modules: Option<seq<string>>, mode: Option<Mode>)

  /** The two guarded pages: the employee list needs `employees:view`, the roles page `roles:view`. */
  const PageViewRules: seq<ViewRule> := [
    ViewRule("/dashboard/users", Some("employees"), None, None),
    ViewRule("/dashboard/roles-permissions", Some("roles"), None, None)
  ]

  /** What the guard sees of a request: its path, its full URL and the session. */
  datatype Request = Request(pathname: string, href: string, loggedIn: bool, sessionUserId: Option<string>)

  /** The query of a redirect target: emptied, or the original one with `callbackUrl` set to the original URL. */
  datatype Query = Cleared | WithCallback(callbackUrl: string)

  datatype Decision = Pass | Redirect(pathname: string, query: Query)

  predicate IsAuthRoute(pathname: string) {
    exists i :: 0 <= i < |AuthRoutes| && StartsWith(pathname, AuthRoutes[i])
  }

  predicate IsProtected(pathname: string) {
    StartsWith(pathname, "/dashboard")
  }

  /** `rule.modules ?? (rule.module ? [rule.module] : [])`. */
  function RuleModules(rule: ViewRule): seq<string> {
    if rule.modules.Some? then rule.modules.value
    else if rule.moduleCode.Some? && rule.moduleCode.value != "" then [rule.moduleCode.value]
    else []
  }

  /** `!!userId && hasViewByPath(userId, pathname, m)`. */
  predicate CanView(t: Tables, userId: string, pathname: string, m: string) {
    userId != "" && HasViewByPath(t, userId, pathname, m)
  }

  /** `every(can)` in mode `all`, `some(can)` otherwise. */
  predicate RuleOk(t: Tables, userId: string, pathname: string, mode: Mode, modules: seq<string>) {
    match mode
    case All => forall i :: 0 <= i < |modules| ==> CanView(t, userId, pathname, modules[i])
    case Any => exists i :: 0 <= i < |modules| && CanView(t, userId, pathname, modules[i])
  }

  /** A rule that matches the path, names at least one module, and is not satisfied. */
  predicate RuleFails(t: Tables, rule: ViewRule, userId: string, pathname: string) {
    rule.path == pathname && RuleModules(rule) != [] &&
    !RuleOk(t, userId, pathname, rule.mode.GetOr(Any), RuleModules(rule))
  }

  /** The page is refused when one of the rules fails. */
  predicate ViewDenied(t: Tables, rules: seq<ViewRule>, userId: string, pathname: string) {
    exists i :: 0 <= i < |rules| && RuleFails(t, rules[i], userId, pathname)
  }

  /** The loop over the page rules: skips rules for other paths and rules without modules, stops at the first failure. */
  method CheckViewRules(t: Tables, rules: seq<ViewRule>, userId: string, pathname: string) returns (denied: bool)
    ensures denied <==> ViewDenied(t, rules, userId, pathname)
  {
    for i := 0 to |rules|
      invariant forall j :: 0 <= j < i ==> !RuleFails(t, rules[j], userId, pathname)
    {
      var rule := rules[i];
      if rule.path != pathname {
        continue;
      }
      var mode := rule.mode.GetOr(Any);
      var modules := RuleModules(rule);
      if |modules| == 0 {
        continue;
      }
      var ok := RuleOk(t, userId, pathname, mode, modules);
      if !ok {
        assert RuleFails(t, rules[i], userId, pathname);
        return true;
      }
    }
    return false;
  }

  /** The guard's decision chain. */
  method Guard(t: Tables, rules: seq<ViewRule>, req: Request) returns (d: Decision)
    ensures req.pathname == "/" ==>
              d == Redirect(if req.loggedIn then AfterLoginRedirect else "/auth/signin", Cleared)
    ensures req.pathname != "/" && req.loggedIn && IsAuthRoute(req.pathname) ==>
              d == Redirect(AfterLoginRedirect, Cleared)
    ensures req.pathname != "/" && !req.loggedIn && IsProtected(req.pathname) ==>
              d == Redirect("/auth/signin", WithCallback(req.href))
    ensures req.pathname != "/" && req.loggedIn && !IsAuthRoute(req.pathname) && IsProtected(req.pathname) ==>
              d == if ViewDenied(t, rules, req.sessionUserId.GetOr(""), req.pathname) then Redirect("/403", Cleared) else Pass
    ensures req.pathname != "/" && !IsProtected(req.pathname) && !(req.loggedIn && IsAuthRoute(req.pathname)) ==>
              d == Pass
  {
    if req.pathname == "/" {
      return Redirect(if req.loggedIn then AfterLoginRedirect else "/auth/signin", Cleared);
    }
    var isAuthRoute := IsAuthRoute(req.pathname);
    var isProtected := IsProtected(req.pathname);
    if req.loggedIn && isAuthRoute {
      return Redirect(AfterLoginRedirect, Cleared);
    }
    if !req.loggedIn && isProtected {
      return Redirect("/auth/signin", WithCallback(req.href));
    }
    if req.loggedIn && isProtected {
      var denied := CheckViewRules(t, rules, req.sessionUserId.GetOr(""), req.pathname);
      if denied {
        return Redirect("/403", Cleared);
      }
    }
    return Pass;
  }

  /* ---------------- properties of the page rules ---------------- */

  /** Only the employee list and the roles page are guarded; every other page passes the rules. */
  lemma OnlyTwoPagesGuarded(t: Tables, userId: string, pathname: string)
    requires pathname != "/dashboard/users" && pathname != "/dashboard/roles-permissions"
    ensures !ViewDenied(t, PageViewRules, userId, pathname)
  {
  }

  /** Without a user id a guarded page is always refused. */
  lemma NoUserIdIsRefused(t: Tables, pathname: string)
    requires pathname == "/dashboard/users" || pathname == "/dashboard/roles-permissions"
    ensures ViewDenied(t, PageViewRules, "", pathname)
  {
    if pathname == "/dashboard/users" {
      assert RuleFails(t, PageViewRules[0], "", pathname);
    } else {
      assert RuleFails(t, PageViewRules[1], "", pathname);
    }
  }

  /** The employee list is shown exactly to users with `employees:view`, the roles page to users with `roles:view`. */
  lemma GuardedPagesNeedView(t: Tables, userId: string)
    ensures !ViewDenied(t, PageViewRules, userId, "/dashboard/users") <==>
              userId != "" && PermGranted(t, userId, "employees:view")
    ensures !ViewDenied(t, PageViewRules, userId, "/dashboard/roles-permissions") <==>
              userId != "" && PermGranted(t, userId, "roles:view")
  {
    assert "employees" + ":view" == "employees:view";
    assert "roles" + ":view" == "roles:view";
    SingleRuleDecides(t, PageViewRules[0], PageViewRules[1], userId, PageViewRules[0].path, "employees");
    SingleRuleDecides(t, PageViewRules[1], PageViewRules[0], userId, PageViewRules[1].path, "roles");
    assert [PageViewRules[1], PageViewRules[0]] != PageViewRules;
  }

  /**
   * Of two rules for different pages, the one for the requested page decides; when it names the single
   * module `m`, the page is refused exactly when the user cannot view `m`.
   */
  lemma SingleRuleDecides(t: Tables, rule: ViewRule, other: ViewRule, userId: string, pathname: string, m: string)
    requires rule.path == pathname && other.path != pathname
    requires rule.modules.None? && rule.moduleCode == Some(m) && m != ""
    ensures ViewDenied(t, [rule, other], userId, pathname) <==> !(userId != "" && HasView(t, userId, m))
    ensures ViewDenied(t, [other, rule], userId, pathname) <==> !(userId != "" && HasView(t, userId, m))
  {
    assert RuleModules(rule) == [m];
    assert !RuleFails(t, other, userId, pathname);
    assert RuleOk(t, userId, pathname, Any, [m]) <==> CanView(t, userId, pathname, m) by {
      assert [m][0] == m;
    }
    assert [rule, other][0] == rule && [other, rule][1] == rule;
  }

  /** A rule in mode `all` refuses as soon as one of its modules is not viewable; in mode `any` only when none is. */
  lemma ModeSemantics(t: Tables, rule: ViewRule, userId: string)
    requires RuleModules(rule) != []
    ensures rule.mode == Some(All) ==>
              (RuleFails(t, rule, userId, rule.path) <==>
               exists i :: 0 <= i < |RuleModules(rule)| && !CanView(t, userId, rule.path, RuleModules(rule)[i]))
    ensures rule.mode != Some(All) ==>
              (RuleFails(t, rule, userId, rule.path) <==>
               forall i :: 0 <= i < |RuleModules(rule)| ==> !CanView(t, userId, rule.path, RuleModules(rule)[i]))
  {
    var mode := rule.mode.GetOr(Any);
    assert mode == All <==> rule.mode == Some(All);
    assert RuleFails(t, rule, userId, rule.path) == !RuleOk(t, userId, rule.path, mode, RuleModules(rule));
  }

  /** A rule without modules never refuses. */
  lemma RuleWithoutModulesIsSkipped(t: Tables, rule: ViewRule, userId: string, pathname: string)
    requires rule.modules.None? && (rule.moduleCode.None? || rule.moduleCode == Some(""))
    ensures !RuleFails(t, rule, userId, pathname)
  {
  }

  /** The authentication pages are not protected, so the chain never reaches the rules for them. */
  lemma AuthRoutesAreNotProtected(pathname: string)
    requires IsAuthRoute(pathname)
    ensures !IsProtected(pathname)
  {
    var i :| 0 <= i < |AuthRoutes| && StartsWith(pathname, AuthRoutes[i]);
    assert pathname[1] == 'a';
  }
}
