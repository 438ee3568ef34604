/**
 * The server-side helpers: `getServerCaps` answers one boolean per bare action name for the
 * signed-in user, and `canServer` checks one permission. An optional company id scopes the
 * check when it is present and non-empty.
 */
module PermServer {
  import opened Wrappers
  import opened Text
  import opened PermCore
  import opened PermCaps

  /** The argument object `{ module, actions, companyId? }`. */
  datatype CapsParams = CapsParams(moduleCode: string, actions: seq<string>, companyId: Option<string>)

  /** The company id a truthy optional argument names, or "" when it is absent or empty. */
  function ScopeOf(companyId: Option<string>): (r: string)
    ensures r != "" <==> companyId.Some? && companyId.value != ""
    ensures r != "" ==> r == companyId.value
  {
    companyId.GetOr("")
  }

  /** The record `getServerCaps` returns: bare action names as keys; all false without a user. */
  function ServerCaps(t: Tables, userId: string, params: CapsParams): map<string, bool> {
    map a | a in params.actions ::
      userId != "" && Decide(t, userId, ScopeOf(params.companyId), params.moduleCode + ":" + a)
  }

  /** `getServerCaps`: the first loop marks every action false when nobody is signed in; the second decides each action. */
  method GetServerCaps(t: Tables, ix: Index, sessionUserId: Option<string>, params: CapsParams)
    returns (out: map<string, bool>)
    requires IndexOf(t, ix)
    ensures out == ServerCaps(t, sessionUserId.GetOr(""), params)
  {
    var userId := sessionUserId.GetOr("");
    out := map[];
    if userId == "" {
      for i := 0 to |params.actions|
        invariant out.Keys == set a | a in params.actions[..i]
        invariant forall a :: a in out ==> !out[a]
      {
        out := out[params.actions[i] := false];
        assert params.actions[..i + 1] == params.actions[..i] + [params.actions[i]];
      }
      assert params.actions[..|params.actions|] == params.actions;
      return;
    }
    var companyId := ScopeOf(params.companyId);
    for i := 0 to |params.actions|
      invariant out.Keys == set a | a in params.actions[..i]
      invariant forall a :: a in out ==> out[a] == Decide(t, userId, companyId, params.moduleCode + ":" + a)
    {
      var a := params.actions[i];
      var ok := Check(t, ix, userId, companyId, params.moduleCode + ":" + a);
      out := out[a := ok];
      assert params.actions[..i + 1] == params.actions[..i] + [a];
    }
    assert params.actions[..|params.actions|] == params.actions;
  }

  /** `canServer`: false without a user, else the scoped or global decision. */
  function CanServer(t: Tables, userId: string, perm: string, companyId: Option<string>): (r: bool)
    ensures userId == "" ==> !r
    ensures userId != "" ==> r == Decide(t, userId, ScopeOf(companyId), perm)
    ensures r ==> PermGranted(t, userId, perm)
  {
    if userId == "" then false
    else
      var c := ScopeOf(companyId);
      assert Decide(t, userId, c, perm) ==> PermGranted(t, userId, perm) by {
        if c != "" && Decide(t, userId, c, perm) {
          ScopedImpliesGlobal(t, userId, c, perm);
        }
      }
      Decide(t, userId, c, perm)
  }

  /* ---------------- properties ---------------- */

  /** Without a user every given action is present and false. */
  lemma NoUserAllFalse(t: Tables, params: CapsParams)
    ensures ServerCaps(t, "", params).Keys == set a | a in params.actions
    ensures forall a :: a in params.actions ==> !ServerCaps(t, "", params)[a]
  {
  }

  /** Each entry is the `canServer` answer for `<module>:<action>`. */
  lemma ServerCapsAreCanServer(t: Tables, userId: string, params: CapsParams, a: string)
    requires a in params.actions
    ensures ServerCaps(t, userId, params)[a] == CanServer(t, userId, params.moduleCode + ":" + a, params.companyId)
  {
  }

  /**
   * For a module and an action that need no trimming, the server helper and the endpoint agree:
   * the entry for the bare action equals the endpoint's entry for `<module>:<action>`.
   */
  lemma ServerCapsAgreeWithEndpoint(t: Tables, userId: string, params: CapsParams, raw: seq<string>, a: string)
    requires userId != ""
    requires params.moduleCode != "" && Trim(params.moduleCode) == params.moduleCode
    requires a in params.actions && a in raw && a != "" && Trim(a) == a
    ensures params.moduleCode + ":" + a in CapsFor(t, userId, ScopeOf(params.companyId), params.moduleCode, CleanActions(raw))
    ensures ServerCaps(t, userId, params)[a] ==
            CapsFor(t, userId, ScopeOf(params.companyId), params.moduleCode, CleanActions(raw))[params.moduleCode + ":" + a]
  {
    var j :| 0 <= j < |raw| && raw[j] == a;
    assert a in CleanActions(raw);
  }
}
