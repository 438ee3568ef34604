# CoffeShop POS: role-based permissions and the decisions built on them

This project is a Dafny model of the access-control core of the CoffeShop point-of-sale
dashboard, with proofs about it. The core has these parts:

- the **permission resolver** over four fixture tables (companies, memberships, role
  permissions, user roles). It answers a global question ("may this user do `perm`
  through any active membership?") and a company-scoped one. Company ownership overrides
  everything. An active membership is needed otherwise, and its `is_owner` flag grants
  everything. Failing those, the union of the user's role permissions decides, by an exact
  match or by the module wildcard `<module>:*`. Role codes and permissions are compared
  after trimming and lower-casing;
- the **capability endpoint** (`GET /api/perm/caps`). It checks the session user, trims
  and validates the query, and answers with a `module:action → bool` record. Beside it
  sit the **server helpers** `getServerCaps` (an `action → bool` record) and `canServer`;
- the **route guard** of the middleware. It redirects `/` and the auth pages. It sends
  anonymous dashboard requests to sign-in with a callback URL. It checks the per-page view
  rules, in `any` or `all` mode, and sends a refused request to `/403`;
- the **fixture joins**: the default company of a user, the user rows of a company, and
  the role rows of a company. The role rows are distinct codes in ascending order, each with
  the permissions of its role and the number of holders;
- **credential sign-in**: the normalised email and password lookup, and the `jwt` and
  `session` callbacks that carry the user id into the token and the session;
- the **list logic of three screens**:
  - the roles table: `toStartCase` names, search, paging, and the Edit/Delete controls;
  - the users table: row mapping, query and status filter, paging, and the caps-derived
    button flags;
  - the POS product grid: category and search filter, the selection toggle, the selected
    items, and the category label.

The fixtures are sequences passed as parameters (`PermCore.Tables`). The session is an
optional user id passed in. Responses and redirects are datatypes
(`PermCaps.CapsResponse`, `Middleware.Decision`).

The source works by changing state in these places:

- the module-level index loops of the resolver;
- the set-accumulating loops of `hasPerm` and `hasPermInCompany`;
- the record-filling loops of the endpoint and of `getServerCaps`;
- the rule loop of the middleware;
- the set, map and array building of `getCompanyRoleRows`.

Each of these is a `method` with loops. Its `ensures` ties the result to a declarative
function: `PermGranted`, `PermGrantedInCompany`, `CapsFor`, `ServerCaps`, `ViewDenied`,
`CompanyCodes` and `Occurrences`. The properties are proved about those functions.

The React state of the screens, and the token and session objects of the sign-in callbacks,
are classes whose methods update their fields.

Modules, one per file:

| module | file | models |
|---|---|---|
| `Wrappers` | `wrappers.dfy` | `Option` and `??` |
| `Seqs` | `seqs.dfy` | JavaScript `find`, `filter` and `slice`, one page of a list |
| `Text` | `text.dfy` | ASCII `trim`, `toLowerCase`, `includes`, `join`, `split(":")[0]`, `norm` |
| `StringOrder` | `string_order.dfy` | the default `Array.prototype.sort` order on strings |
| `PermCore` | `perm_core.dfy` | `lib/perm/core.ts` |
| `PermCaps` | `perm_caps.dfy` | `app/api/perm/caps/route.ts` |
| `PermServer` | `perm_server.dfy` | `lib/perm/server.ts` |
| `Middleware` | `middleware.dfy` | `middleware.ts` |
| `CompanyData` | `company_data.dfy` | `lib/data.ts` |
| `RolesData` | `roles_data.dfy` | `lib/roles-data.ts` |
| `Auth` | `auth.dfy` | `auth.ts` |
| `RolesTable` | `roles_table.dfy` | the roles-and-permissions table component |
| `UsersTable` | `users_table.dfy` | the users table component |
| `PosMenu` | `pos_menu.dfy` | the POS product grid component |

## Model

| member | source | states |
|---|---|---|
| PermCore.BuildIndex | lib/perm/core.ts:20-27 | The two index loops produce exactly the index the resolver assumes. For every user with a membership, it holds all their memberships in table order. For every normalised role code, it holds the normalised permissions of the last entry with that code. |
| PermCore.BuildMembershipsByUser | lib/perm/core.ts:20-25 | A key is present exactly for the users that have a membership. Its value is that user's memberships in table order. |
| PermCore.BuildPermByRole | lib/perm/core.ts:26-27 | A key is present exactly for the normalised codes of some entry. Its value is the normalised permission list of the last such entry. |
| PermCore.NormAll | lib/perm/core.ts:27 | Every permission of a role is normalised, position by position. |
| PermCore.LastRolePermIsLast | lib/perm/core.ts:27 | The entry kept for a code is the last one whose normalised code matches, and there is none when no entry matches. A later duplicate therefore replaces an earlier one. |
| PermCore.LastEntryWins | lib/perm/core.ts:27 | The permissions of a role are those of its last entry, normalised. |
| PermCore.UnknownRoleHasNoPermissions | lib/perm/core.ts:54 | A code without an entry contributes no permission (`?? []`). |
| PermCore.RolePermissionsAreNormalised | lib/perm/core.ts:27 | Every stored permission is already in normal form. |
| PermCore.NoMembershipsOfUser | lib/perm/core.ts:40 | A user with no membership has no memberships, the `?? []` case. |
| PermCore.ActiveMembershipsOfIndex | lib/perm/core.ts:40 | The active memberships read from the index are exactly the user's active memberships in the table. |
| PermCore.PermGranted | lib/perm/core.ts:31 | An empty user id or an empty permission is refused. |
| PermCore.HasPerm | lib/perm/core.ts:30-57 | The loops of `hasPerm` compute exactly the global decision. That decision is: owner of any company; or an active membership that is either an owner membership or whose roles match the normalised permission or its module wildcard. |
| PermCore.CollectRoleCodesOf | lib/perm/core.ts:44-49 | The code loop over the active memberships collects exactly the normalised codes of each membership company's first user-role entry. |
| PermCore.AddNormalised | lib/perm/core.ts:48 | Adding a user-role entry's codes adds exactly their normalised forms. |
| PermCore.AddAll | lib/perm/core.ts:54 | Adding a role's permissions adds exactly those permissions. |
| PermCore.CollectPermissions | lib/perm/core.ts:52-55 | The permission loop yields the union of the permissions of the collected codes. |
| PermCore.OwnerOfAnyCompanyIsGranted | lib/perm/core.ts:37 | The owner of any company is granted every non-empty permission, whatever the memberships and the company's active flag. |
| PermCore.NoActiveMembershipIsDenied | lib/perm/core.ts:40-41 | Without ownership and without an active membership, everything is refused. |
| PermCore.OwnerMembershipIsGranted | lib/perm/core.ts:42 | An active membership flagged `is_owner` grants every non-empty permission. |
| PermCore.RoleBasedDecision | lib/perm/core.ts:44-56 | Otherwise the answer is yes exactly when some role code grants the normalised permission, exactly or through `<module>:*`. The role code must come from the first user-role entry of one of the user's active-membership companies. |
| PermCore.WildcardIsGranted | lib/perm/core.ts:56 | `<module>:*` among the user's role permissions grants every permission of that module. |
| PermCore.NormalisedPermissionsAgree | lib/perm/core.ts:33 | Two permissions that differ only in case or surrounding whitespace get the same answer, globally and per company. |
| PermCore.NormalisedFormAgrees | lib/perm/core.ts:33 | Asking with the normalised permission gives the same answer as asking with the raw one. |
| PermCore.PermGrantedInCompany | lib/perm/core.ts:65-71 | An empty user, company or permission is refused, and so is an unknown company. |
| PermCore.HasPermInCompany | lib/perm/core.ts:64-89 | The loop of `hasPermInCompany` computes exactly the company-scoped decision. |
| PermCore.CollectCodePermissions | lib/perm/core.ts:84-87 | The company-scoped permission loop yields the union of the permissions of the normalised codes. |
| PermCore.CompanyOwnerIsGrantedInCompany | lib/perm/core.ts:74 | The owner of the named company is granted everything in it, with or without a membership. |
| PermCore.OwnerMembershipIsGrantedInCompany | lib/perm/core.ts:76-78 | Failing ownership, an `is_owner` flag on the first active membership of the user in a known company grants everything in it. |
| PermCore.UnknownCompanyIsDenied | lib/perm/core.ts:69-70 | A company missing from the companies table refuses everything, even a user with an owner membership of it. |
| PermCore.NoCompanyMembershipIsDeniedInCompany | lib/perm/core.ts:76-77 | Anyone else without an active membership of that company is refused. |
| PermCore.RoleBasedDecisionInCompany | lib/perm/core.ts:80-88 | When the first active membership of the company is not an owner membership, the answer is yes exactly when a code of that company's first user-role entry grants the normalised permission or its module wildcard. |
| PermCore.WildcardIsGrantedInCompany | lib/perm/core.ts:88 | `<module>:*` among the company roles grants every permission of that module in that company. |
| PermCore.ScopedImpliesGlobal | lib/perm/core.ts:30-89 | A permission granted in some company is also granted globally. |
| PermCore.HasView | lib/perm/core.ts:59-61 | `hasView(u, m)`, the decision for `m:view`; its properties are `HasViewIsViewPermission` and `HasViewOfModule`. |
| PermCore.HasViewIsViewPermission | lib/perm/core.ts:59-61 | `hasView(u, m)` is the decision for `m:view`. |
| PermCore.HasViewOfModule | lib/perm/core.ts:59-61 | For a user decided by roles and a normalised module name without a colon, viewing is allowed exactly when `m:view` or `m:*` is among the user's role permissions. |
| PermCore.HasPermByPath | lib/perm/core.ts:92-94 | `hasPermByPath`, which ignores the path; `ByPathIgnoresPath` states that it equals `hasPerm`. |
| PermCore.HasViewByPath | lib/perm/core.ts:95-97 | `hasViewByPath`, which ignores the path; `ByPathIgnoresPath` states that it equals `hasView`. |
| PermCore.ByPathIgnoresPath | lib/perm/core.ts:92-97 | The path wrappers give the same answer for every path, equal to `hasPerm` and `hasView`. |
| Text.Norm | lib/perm/core.ts:17 | `norm(s) = s.trim().toLowerCase()`; `NormIdempotent`, `TrimEnds` and `LowerMatchesNorm` state its properties. |
| Text.NormIdempotent | lib/perm/core.ts:17 | Normalising twice is normalising once. |
| Text.ModuleOf | lib/perm/core.ts:34 | The module is the longest colon-free prefix of the permission, and a colon follows it when it is shorter. |
| PermCaps.GetCaps | app/api/perm/caps/route.ts:7-35 | A missing or empty session user gives 401, before the query is looked at. A blank module, or no action left after trimming, gives 400. Otherwise the answer is 200 with exactly the caps record of the trimmed module, the surviving actions and the trimmed company id. |
| PermCaps.Decide | app/api/perm/caps/route.ts:31 | The dispatch on the company id, which `Check` computes and `ScopedCapImpliesGlobal` and `OwnerHasAllCaps` are about. |
| PermCaps.Check | app/api/perm/caps/route.ts:31 | The value is the company-scoped decision when the company id is non-empty, and the global one otherwise. |
| PermCaps.TrimAll | app/api/perm/caps/route.ts:21 | Every action is trimmed, position by position. |
| PermCaps.CleanActions | app/api/perm/caps/route.ts:19-22 | Every surviving action is non-empty and trimmed, and is the trimmed form of a raw action. Every raw action that is non-empty after trimming survives. |
| PermCaps.CleanActionsKeepOrder | app/api/perm/caps/route.ts:19-22 | The surviving actions keep their order. |
| PermCaps.CapsFor | app/api/perm/caps/route.ts:28-33 | The record the endpoint answers with; `BuildCaps` computes it, and `CapsKeyCount` and `CapsEntry` give its keys and values. |
| PermCaps.BuildCaps | app/api/perm/caps/route.ts:28-33 | The loop fills exactly the record `module:action → decision` for the given actions. |
| PermCaps.CapsKeyCount | app/api/perm/caps/route.ts:28-33 | The record has one key per distinct action and no other key. |
| PermCaps.CapsEntry | app/api/perm/caps/route.ts:31 | Each action's key is present, and its value is the dispatched decision. |
| PermCaps.ScopedCapImpliesGlobal | app/api/perm/caps/route.ts:31 | A capability granted for a company is granted without one too. |
| PermCaps.OwnerHasAllCaps | app/api/perm/caps/route.ts:28-33 | A company owner gets every capability, globally and in that company. |
| PermServer.ScopeOf | lib/perm/server.ts:21 | The company id counts only when it is present and non-empty (truthy). |
| PermServer.ServerCaps | lib/perm/server.ts:13-23 | The record of `getServerCaps`; `NoUserAllFalse`, `ServerCapsAreCanServer` and `ServerCapsAgreeWithEndpoint` state its contents. |
| PermServer.GetServerCaps | lib/perm/server.ts:8-24 | The two loops compute exactly the record keyed by bare action names. Without a user every value is false; with one, each value is the dispatched decision for `module:action`. |
| PermServer.NoUserAllFalse | lib/perm/server.ts:14-17 | Without a user every given action is present and false, and there are no other keys. |
| PermServer.ServerCapsAreCanServer | lib/perm/server.ts:19-22 | Each value equals `canServer` for `module:action`. |
| PermServer.ServerCapsAgreeWithEndpoint | lib/perm/server.ts:19-22 | For a trimmed module and a trimmed action, the server helper answers as the endpoint does for the same scope. |
| PermServer.CanServer | lib/perm/server.ts:27-32 | It is false without a user. With one it is the company-scoped decision when the company id is truthy and the global one otherwise, and a yes implies the global decision. |
| Middleware.Guard | middleware.ts:22-77 | `/` redirects to the dashboard or to sign-in, with the query cleared. A logged-in request on an auth route goes to the dashboard. An anonymous dashboard request goes to sign-in with the original href as callback. A logged-in dashboard request goes to `/403` exactly when a view rule fails. Everything else passes. |
| Middleware.RuleFails | middleware.ts:56-67 | One rule refuses: it matches the path, has a module, and is not satisfied in its mode; `ModeSemantics` and `RuleWithoutModulesIsSkipped` state its cases. |
| Middleware.ViewDenied | middleware.ts:55-73 | Some rule refuses; `CheckViewRules` computes it, and `GuardedPagesNeedView` and `OnlyTwoPagesGuarded` decide it for the page rules. |
| Middleware.CheckViewRules | middleware.ts:55-73 | The rule loop, with its skips and early return, reports a refusal exactly when some rule for the path, with at least one module, is not satisfied. |
| Middleware.ModeSemantics | middleware.ts:59-65 | In mode `all` a rule fails when some module is not viewable. Otherwise (`any`, also the default) it fails when no module is. |
| Middleware.RuleWithoutModulesIsSkipped | middleware.ts:60-62 | A rule with neither `modules` nor a non-empty `module` never refuses. |
| Middleware.NoUserIdIsRefused | middleware.ts:58 | With an empty user id, both guarded pages are refused. |
| Middleware.GuardedPagesNeedView | middleware.ts:16-20 | `/dashboard/users` is allowed exactly when `employees:view` is granted, and `/dashboard/roles-permissions` exactly when `roles:view` is. |
| Middleware.OnlyTwoPagesGuarded | middleware.ts:16-20 | No other path is ever refused by the view rules. |
| Middleware.AuthRoutesAreNotProtected | middleware.ts:34-35 | No auth route is a dashboard path. |
| CompanyData.NormaliseUser | lib/data.ts:25-31 | The name defaults to "-", the active flag to true, and the creation date to "". |
| CompanyData.NormaliseUsers | lib/data.ts:25-31 | Every user is normalised, position by position. |
| CompanyData.DefaultCompanyId | lib/data.ts:34-42 | There is no company exactly for an empty user id, or when the user owns no active company and has no active membership. A result is an owned active company or an active membership's company. |
| CompanyData.OwnedCompanyFirst | lib/data.ts:37-38 | The first owned company that is not flagged inactive wins, ahead of any membership. |
| CompanyData.MembershipFallback | lib/data.ts:40-41 | Failing that, the company of the first active membership is chosen. |
| CompanyData.MembershipsOfCompany | lib/data.ts:46 | All memberships of the company, inactive ones included, in table order. Each membership of the company appears as often as in the table, and no other one appears. |
| CompanyData.RowOf | lib/data.ts:49-60 | The row id is the membership's user id. A missing user gives "-" for name and email. A missing user-role entry gives no roles. The row is active only if the membership is. `joined_at` wins when present. |
| CompanyData.RowOfFirstUser | lib/data.ts:54-59 | For the first user with that id, the row takes the name and email. It is active exactly when user and membership both are. `created_at` fills a missing `joined_at`. |
| CompanyData.RowOfFirstRoleEntry | lib/data.ts:50-56 | The roles are the `role_codes` of the first user-role entry for the company and the member. |
| CompanyData.UsersOfCompany | lib/data.ts:45-62 | One row per membership of the company, in membership order. |
| CompanyData.UsersOfCompanyCoversMembers | lib/data.ts:46-48 | Every member of the company has a row, and every row belongs to a member. |
| RolesData.CompanyCodes | lib/roles-data.ts:16-20 | The raw codes of the company's user-role entries, which `CollectRoleCodes` computes and `NoEntriesNoCodes` is about. |
| RolesData.Occurrences | lib/roles-data.ts:27-34 | The number of times a code occurs in the company's role lists, which `CountMembers` computes and `OccurrencesPositive` bounds. |
| RolesData.CollectRoleCodes | lib/roles-data.ts:16-20 | The role set holds each raw code of the company's user-role entries once, and nothing else. |
| RolesData.CountMembers | lib/roles-data.ts:27-34 | Each code's counter is the number of its occurrences in the company's role lists. |
| RolesData.OccurrencesPositive | lib/roles-data.ts:28-34 | A code of the company occurs at least once. |
| RolesData.BuildRows | lib/roles-data.ts:37-45 | The row loop emits, in the given order, each code with its role's permissions and its count. |
| RolesData.GetCompanyRoleRows | lib/roles-data.ts:14-48 | One row per distinct raw code of the company, strictly ascending, and no other rows. Each row has the normalised permissions of its role, or none, and a member count equal to its occurrences, at least 1. Rows whose codes differ only in case or surrounding whitespace are separate rows with the same permissions (`permByRole.get(norm(code))`). |
| RolesData.NoEntriesNoCodes | lib/roles-data.ts:16-20 | A company without user-role entries has no role codes, and so no rows. |
| StringOrder.Sort | lib/roles-data.ts:38 | The sort is a permutation of its input and ascending. |
| StringOrder.SortDistinct | lib/roles-data.ts:38 | Distinct codes sort into a strictly ascending sequence with the same elements. |
| Auth.Authorize | auth.ts:21-33 | An email that is blank after trimming, or an empty password, gives no user. Otherwise a user is returned exactly when some stored user's lower-cased email equals the normalised email and the password matches. It is returned as `{id, name: full_name, email}`. |
| Auth.AuthorizeFirstMatch | auth.ts:28 | The first matching stored user is the one returned. |
| Auth.EmailIsNormalised | auth.ts:22-24 | Emails differing only in case or surrounding whitespace sign in the same user. |
| Auth.SignedInEmailMatches | auth.ts:28-32 | The returned email normalises to the email typed. |
| Auth.Jwt | auth.ts:38-41 | The token gets the user's id when a user with an id is given, and is unchanged otherwise. |
| Auth.SessionCallback | auth.ts:42-45 | When the session has a user, its `userId` becomes the token's and nothing else changes. Otherwise nothing changes. |
| Auth.SignIn | auth.ts:21-45 | After a successful `authorize`, `jwt` and `session`, both the token and the session user carry the signed-in id. A refused sign-in runs no callback and changes neither. |
| RolesTable.CollapseSeparators | app/dashboard/roles-permissions/components/Content.tsx:39 | The `[_-]+` to space replacement; `CollapseRemovesSeparators`, `CollapseWithoutSeparators` and `OneSeparator` state its effect. |
| RolesTable.CollapseRemovesSeparators | app/dashboard/roles-permissions/components/Content.tsx:39 | Each run of `_`/`-` becomes one space, so no separator is left. |
| RolesTable.CollapseWithoutSeparators | app/dashboard/roles-permissions/components/Content.tsx:39 | A name without `_` or `-` is left as it is. |
| RolesTable.OneSeparator | app/dashboard/roles-permissions/components/Content.tsx:39 | Two separator-free words joined by `_` come out joined by one space. |
| RolesTable.CapitaliseWords | app/dashboard/roles-permissions/components/Content.tsx:39 | The `\w\S*` capitalising replacement; `CapitaliseKeepsLetters`, `WordStartIsUpper` and `InsideWordIsLower` state its effect. |
| RolesTable.CapitaliseFrom | app/dashboard/roles-permissions/components/Content.tsx:39 | The word-capitalising replacement keeps the length. |
| RolesTable.CapitaliseKeepsLetters | app/dashboard/roles-permissions/components/Content.tsx:39 | Only the case of letters changes: every character is kept up to case. |
| RolesTable.WordStartIsUpper | app/dashboard/roles-permissions/components/Content.tsx:39 | A letter at the start of the name or after whitespace starts a match of `\w\S*` and is upper-cased. |
| RolesTable.InsideWordIsLower | app/dashboard/roles-permissions/components/Content.tsx:39 | A letter that follows a word character lies inside a match and is lower-cased. |
| RolesTable.ToStartCase | app/dashboard/roles-permissions/components/Content.tsx:39 | No separator is left, and up to case the result is the collapsed input. |
| RolesTable.ShopOwnerExample | app/dashboard/roles-permissions/components/Content.tsx:38 | "shop_owner" becomes "Shop Owner". |
| RolesTable.TableRows | app/dashboard/roles-permissions/components/Content.tsx:45-54 | One table row per role row in order, keyed by the code and named by `toStartCase`. |
| RolesTable.Filtered | app/dashboard/roles-permissions/components/Content.tsx:65-68 | The search filter; `FilteredRows` and `BlankSearchKeepsAll` state which rows it keeps. |
| RolesTable.FilteredRows | app/dashboard/roles-permissions/components/Content.tsx:65-68 | The kept rows are exactly those whose lower-cased name or comma-joined permissions contain the normalised term, in their original order. |
| RolesTable.BlankSearchKeepsAll | app/dashboard/roles-permissions/components/Content.tsx:66-67 | A blank term keeps every row. |
| RolesTable.ActionsOf | app/dashboard/roles-permissions/components/Content.tsx:113-124 | Edit is shown exactly with the update right. Delete is shown exactly with the delete right and a code other than `owner`. |
| RolesTable.OwnerRoleNeverDeletable | app/dashboard/roles-permissions/components/Content.tsx:124 | The `owner` role never shows Delete. |
| RolesTable.TableState.constructor | app/dashboard/roles-permissions/components/Content.tsx:61-63 | Empty search, page 1, 10 rows a page. |
| RolesTable.TableState.SetQuery | app/dashboard/roles-permissions/components/Content.tsx:70 | Changing the search resets the page to 1, and setting the same search keeps it. |
| RolesTable.TableState.SetPageSize | app/dashboard/roles-permissions/components/Content.tsx:70 | Changing the page size resets the page to 1. |
| RolesTable.TableState.SetPage | app/dashboard/roles-permissions/components/Content.tsx:62 | Only the page changes. |
| RolesTable.TableState.Paged | app/dashboard/roles-permissions/components/Content.tsx:72-75 | The current page of the filtered rows; `PagedRows` and `Seqs.PageContents` state its contents. |
| RolesTable.PagedRows | app/dashboard/roles-permissions/components/Content.tsx:72-75 | The page holds at most `pageSize` rows, and they are a contiguous run of the filtered rows. |
| Seqs.PageContents | app/dashboard/roles-permissions/components/Content.tsx:72-75 | A page is the run of at most `pageSize` elements starting at `(page-1)*pageSize`, with its exact length. |
| UsersTable.MapRow | app/dashboard/users/components/Content.tsx:71-84 | The key is the id. The phone defaults to "-", and the role is the first role or "-". The status is active exactly when the member is. |
| UsersTable.MapRows | app/dashboard/users/components/Content.tsx:71-84 | Every member is mapped, position by position. |
| UsersTable.Filtered | app/dashboard/users/components/Content.tsx:95-103 | The query and status filter; `FilteredRows` and `BlankQueryKeepsAll` state which rows it keeps. |
| UsersTable.FilteredRows | app/dashboard/users/components/Content.tsx:95-103 | The kept rows are exactly those matching the normalised query and the status, in their original order. A selected status is honoured by every kept row. |
| UsersTable.BlankQueryKeepsAll | app/dashboard/users/components/Content.tsx:96-99 | A blank query with status "all" keeps every row. |
| UsersTable.CapFlag | app/dashboard/users/components/Content.tsx:67-69 | A flag is set exactly when the key is present and true; a missing key gives false. |
| UsersTable.FlagsOf | app/dashboard/users/components/Content.tsx:67-69 | The create, update and delete flags read `employees:create`, `employees:update` and `employees:delete`. |
| UsersTable.NoCapsNoButtons | app/dashboard/users/components/Content.tsx:67-69 | An empty caps record, as before the answer arrives, shows no button. |
| UsersTable.FlagsFromEndpoint | app/dashboard/users/components/Content.tsx:62-69 | With the endpoint's record, each flag is the decision for its permission. |
| UsersTable.TableState.constructor | app/dashboard/users/components/Content.tsx:89-93 | Empty query, status "all", page 1, 10 rows a page. |
| UsersTable.TableState.SetQuery | app/dashboard/users/components/Content.tsx:105 | Changing the query resets the page to 1. |
| UsersTable.TableState.SetStatus | app/dashboard/users/components/Content.tsx:105 | Changing the status resets the page to 1. |
| UsersTable.TableState.SetPageSize | app/dashboard/users/components/Content.tsx:105 | Changing the page size resets the page to 1. |
| UsersTable.TableState.SetPage | app/dashboard/users/components/Content.tsx:92 | Only the page changes. |
| UsersTable.TableState.Paged | app/dashboard/users/components/Content.tsx:107-110 | The current page of the filtered rows; `PagedRows` and `Seqs.PageContents` state its contents. |
| UsersTable.PagedRows | app/dashboard/users/components/Content.tsx:107-110 | The page holds at most `pageSize` rows, and they are a contiguous run of the filtered rows. |
| PosMenu.FilteredMenus | app/components/pos/Content.tsx:20-24 | The category and search filter; `FilteredMenusAreMatching`, `OtherCategoryIsExact` and `FirstCategoryEmptySearchShowsAll` state what it shows. |
| PosMenu.FilteredMenusAreMatching | app/components/pos/Content.tsx:20-24 | The shown items are exactly the matching ones, in catalogue order. |
| PosMenu.OtherCategoryIsExact | app/components/pos/Content.tsx:21 | A category other than the first shows only its own items. |
| PosMenu.FirstCategoryEmptySearchShowsAll | app/components/pos/Content.tsx:21-22 | The first category with an empty search shows every item. |
| PosMenu.Toggled | app/components/pos/Content.tsx:34 | The toggle of one id; `ToggleRemoves`, `ToggleAppends`, `ToggleKeepsDistinct` and `ToggleTwiceRestores` state its effect. |
| PosMenu.ToggleRemoves | app/components/pos/Content.tsx:34 | Toggling a selected id removes every occurrence of it and keeps the other ids in order. |
| PosMenu.ToggleAppends | app/components/pos/Content.tsx:34 | Toggling an unselected id appends it. |
| PosMenu.ToggleKeepsDistinct | app/components/pos/Content.tsx:34 | The selection stays free of duplicates. |
| PosMenu.ToggleTwiceRestores | app/components/pos/Content.tsx:34 | Toggling an unselected id twice restores the selection. |
| PosMenu.Selection.constructor | app/components/pos/Content.tsx:17-18 | Nothing selected and an empty search. |
| PosMenu.Selection.Toggle | app/components/pos/Content.tsx:33-35 | The click handler applies the toggle and keeps the selection duplicate-free. |
| PosMenu.Selection.SetSearch | app/components/pos/Content.tsx:51 | Typing replaces the search and keeps the selection. |
| PosMenu.SelectedObjects | app/components/pos/Content.tsx:28 | The selected items are the catalogue items whose id is selected, in catalogue order. Each selected item appears as often as in the catalogue, and no other item appears. |
| PosMenu.CategoryLabel | app/components/pos/Content.tsx:83 | The label is "Unknown Category" when no category has the id; otherwise it is the name of such a category or the fallback. |
| PosMenu.CategoryLabelOfFirst | app/components/pos/Content.tsx:83 | The first category with the id names the label when its name is non-empty. |

## Left out

- The address autocomplete and geocoding widget is not part of this model. Its source is not among the modelled files.
- Network and asynchronous plumbing are left out: `lib/perm-ui.ts` (`fetch`, effect lifecycles, the `alive` flag) and the `mounted` spinners. The users table receives its caps record as a value.
- NextAuth and Next.js machinery are left out: `auth()`, `NextResponse`, URL cloning, `config.matcher`, the `JWT` strategy. The session is an optional user id, the logged-in flag a boolean, and a redirect a `Middleware.Decision`.
- `Middleware.RuleFails`: the page rules' regular expressions `^/dashboard/users$` and `^/dashboard/roles-permissions$` are modelled as exact path equality. That is what they match.
- All rendering is left out: JSX, antd components and themes, Tailwind classes, the layouts, headers, forms and the dashboard home.
- Dates, time and locale are left out: `Clock`, `formatDate`, `formatRupiah`, `new Date(...)` (`createdOn`), and the `localeCompare` column sorters. Prices are whole numbers and are only carried.
- Loading the JSON fixtures is left out. The tables are parameters. A missing optional array (`?? []`) is the empty sequence.
- `Text.Trim` and `Text.Lower`: `trim` and `toLowerCase` are modelled on ASCII only (space, tab and line terminators; A-Z). Unicode whitespace and case mapping are not modelled.
- `RolesTable.ToStartCase`: `\w` and `\S` in `toStartCase` are ASCII word characters and ASCII non-whitespace.
- `StringOrder.Below`: `Array.prototype.sort` compares UTF-16 code units. The model compares characters, which is the same order for text in the Basic Multilingual Plane.
- The key order of the JavaScript records (`caps`, `out`) is left out. They are maps.
- `PermCaps.GetCaps` and `PermServer.GetServerCaps` state their results against `CapsFor` and `ServerCaps`. The exact-keys and per-entry facts are the separate lemmas `CapsKeyCount`, `CapsEntry` and `NoUserAllFalse`.
- `RolesTable.PagedRows` and `UsersTable.PagedRows` state only the length bound and contiguity. The element-by-element position of the page is stated once, in `Seqs.PageContents`.
- `PermCore.HasPerm`, `PermCore.HasPermInCompany`, `PermCaps.GetCaps`, `PermServer.GetServerCaps`: the index that the source builds once at module load is a parameter built by `PermCore.BuildIndex`. The methods require it to be that index (`PermCore.IndexOf`).
- `PosMenu.FilteredMenus` requires a non-empty category list, because the source reads `categories[0].id` and would throw on an empty one.
- `PosMenu.CategoryLabel`: the source uses `||`, so a category with an empty name also shows "Unknown Category". The model follows that code.
- `PermCore.OwnerMembershipIsGrantedInCompany`: an owner membership grants only through the first active membership of the user in that company, and only for a company present in the companies table. A company missing from the table is refused even to an owner membership (`PermCore.UnknownCompanyIsDenied`).
