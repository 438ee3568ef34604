/**
 * The capabilities endpoint `GET /api/perm/caps`: it refuses a request without a signed-in
 * user, validates the `module` and `action` query parameters, and answers with one boolean
 * per `<module>:<action>` permission, checked within the company named by `company_id` when
 * that parameter is given and across all the user's active companies otherwise.
 */
module PermCaps {
  import opened Wrappers
  import opened Seqs
  import opened Text
  import opened PermCore

  /** The query string: `module` and `company_id` when present, and every `action` value in order. */
  datatype CapsQuery = CapsQuery(moduleParam: Option<string>, actions: seq<string>, companyIdParam: Option<string>)

  /** The three JSON answers of the endpoint. */
  datatype CapsResponse = Unauthorized | InvalidQuery | CapsOk(caps: map<string, bool>) {

    /** The HTTP status code sent with the answer. */
    function Status(): int {
      match this
      case Unauthorized => 401
      case InvalidQuery => 400
      case CapsOk(_) => 200
    }

    /** The `success` field of the JSON body. */
    predicate Success() {
      CapsOk?
    }
  }

  /** `companyId ? hasPermInCompany(userId, companyId, perm) : hasPerm(userId, perm)`. */
  function Decide(t: Tables, userId: string, companyId: string, perm: string): bool {
    if companyId != "" then PermGrantedInCompany(t, userId, companyId, perm) else PermGranted(t, userId, perm)
  }

  /** The dispatch computed with the resolver's methods. */
  method Check(t: Tables, ix: Index, userId: string, companyId: string, perm: string) returns (ok: bool)
    requires IndexOf(t, ix)
    ensures ok == Decide(t, userId, companyId, perm)
  {
    if companyId != "" {
      ok := HasPermInCompany(t, ix, userId, companyId, perm);
    } else {
      ok := HasPerm(t, ix, userId, perm);
    }
  }

  function TrimAll(xs: seq<string>): (r: seq<string>)
    ensures |r| == |xs| && forall i :: 0 <= i < |xs| ==> r[i] == Trim(xs[i])
  {
    seq(|xs|, i requires 0 <= i < |xs| => Trim(xs[i]))
  }

  function NonEmpty(): string -> bool {
    s => s != ""
  }

  /** `getAll("action").map(a => a.trim()).filter(Boolean)`. */
  function CleanActions(raw: seq<string>): (r: seq<string>)
    ensures forall i :: 0 <= i < |r| ==> r[i] != "" && Trim(r[i]) == r[i]
    ensures forall i :: 0 <= i < |r| ==> exists j :: 0 <= j < |raw| && Trim(raw[j]) == r[i]
    ensures forall j :: 0 <= j < |raw| && Trim(raw[j]) != "" ==> Trim(raw[j]) in r
  {
    var trimmed := TrimAll(raw);
    var r := Filter(trimmed, NonEmpty());
    assert forall i :: 0 <= i < |r| ==> Trim(r[i]) == r[i] by {
      forall i | 0 <= i < |r| ensures Trim(r[i]) == r[i] {
        var j :| 0 <= j < |trimmed| && trimmed[j] == r[i];
        TrimIdempotent(raw[j]);
      }
    }
    assert forall j :: 0 <= j < |raw| && Trim(raw[j]) != "" ==> Trim(raw[j]) in r by {
      forall j | 0 <= j < |raw| && Trim(raw[j]) != "" ensures Trim(raw[j]) in r {
        assert NonEmpty()(trimmed[j]);
      }
    }
    r
  }

  /** The surviving actions keep their order. */
  lemma CleanActionsKeepOrder(raw: seq<string>)
    ensures IsSubsequence(CleanActions(raw), TrimAll(raw))
  {
    FilterIsSubsequence(TrimAll(raw), NonEmpty());
  }

  /** The keys of the answer: one `<module>:<action>` per action. */
  function PermKeys(moduleCode: string, actions: seq<string>): set<string> {
    set a | a in actions :: moduleCode + ":" + a
  }

  /** The `caps` record of a successful answer. */
  function CapsFor(t: Tables, userId: string, companyId: string, moduleCode: string, actions: seq<string>): map<string, bool> {
    map perm | perm in PermKeys(moduleCode, actions) :: Decide(t, userId, companyId, perm)
  }

  /**
   * The endpoint. A missing user id is refused with 401 before the query is looked at; an
   * empty module or no non-blank action is refused with 400; otherwise the answer holds the
   * decision for every surviving action and nothing else.
   */
  method GetCaps(t: Tables, ix: Index, sessionUserId: Option<string>, q: CapsQuery) returns (r: CapsResponse)
    requires IndexOf(t, ix)
    ensures sessionUserId.GetOr("") == "" ==> r == Unauthorized
    ensures sessionUserId.GetOr("") != "" && Trim(q.moduleParam.GetOr("")) == "" ==> r == InvalidQuery
    ensures sessionUserId.GetOr("") != "" && CleanActions(q.actions) == [] ==> r == InvalidQuery
    ensures sessionUserId.GetOr("") != "" && Trim(q.moduleParam.GetOr("")) != "" && CleanActions(q.actions) != [] ==>
              r == CapsOk(CapsFor(t, sessionUserId.GetOr(""), Trim(q.companyIdParam.GetOr("")),
                                  Trim(q.moduleParam.GetOr("")), CleanActions(q.actions)))
  {
    var userId := sessionUserId.GetOr("");
    if userId == "" {
      return Unauthorized;
    }
    var moduleCode := Trim(q.moduleParam.GetOr(""));
    var companyId := Trim(q.companyIdParam.GetOr(""));
    var actions := CleanActions(q.actions);
    if moduleCode == "" || |actions| == 0 {
      return InvalidQuery;
    }
    var caps := BuildCaps(t, ix, userId, companyId, moduleCode, actions);
    return CapsOk(caps);
  }

  /** The loop that fills the `caps` record, one permission per action. */
  method BuildCaps(t: Tables, ix: Index, userId: string, companyId: string, moduleCode: string, actions: seq<string>)
    returns (caps: map<string, bool>)
    requires IndexOf(t, ix)
    ensures caps == CapsFor(t, userId, companyId, moduleCode, actions)
  {
    caps := map[];
    for i := 0 to |actions|
      invariant caps.Keys == PermKeys(moduleCode, actions[..i])
      invariant forall perm :: perm in caps ==> caps[perm] == Decide(t, userId, companyId, perm)
    {
      var perm := moduleCode + ":" + actions[i];
      var ok := Check(t, ix, userId, companyId, perm);
      caps := caps[perm := ok];
      assert actions[..i + 1] == actions[..i] + [actions[i]];
    }
    assert actions[..|actions|] == actions;
  }

  /* ---------------- properties of the answer ---------------- */

  lemma QualifiedInjective(m: string, a: string, b: string)
    requires m + ":" + a == m + ":" + b
    ensures a == b
  {
    assert a == (m + ":" + a)[|m| + 1..];
    assert b == (m + ":" + b)[|m| + 1..];
  }

  /** There is exactly one key per distinct action. */
  lemma {:induction false} CapsKeyCount(moduleCode: string, actions: seq<string>)
    ensures |PermKeys(moduleCode, actions)| == |set a | a in actions|
    decreases |actions|
  {
    if actions != [] {
      var n := |actions| - 1;
      var init := actions[..n];
      var x := actions[n];
      var key := moduleCode + ":" + x;
      assert actions == init + [x];
      CapsKeyCount(moduleCode, init);
      KeysOfSnoc(moduleCode, init, x);
      if x !in init {
        if key in PermKeys(moduleCode, init) {
          var a :| a in init && moduleCode + ":" + a == key;
          QualifiedInjective(moduleCode, a, x);
        }
      } else {
        assert key in PermKeys(moduleCode, init) && x in (set a | a in init);
        assert PermKeys(moduleCode, actions) == PermKeys(moduleCode, init);
        assert (set a | a in actions) == (set a | a in init);
      }
    }
  }

  /** Appending an action adds its key, and the action, to the sets. */
  lemma KeysOfSnoc(moduleCode: string, init: seq<string>, x: string)
    ensures PermKeys(moduleCode, init + [x]) == PermKeys(moduleCode, init) + {moduleCode + ":" + x}
    ensures (set a | a in init + [x]) == (set a | a in init) + {x}
  {
  }

  /** Every surviving action has its entry, holding the decision on `<module>:<action>`. */
  lemma CapsEntry(t: Tables, userId: string, companyId: string, moduleCode: string, actions: seq<string>, a: string)
    requires a in actions
    ensures moduleCode + ":" + a in CapsFor(t, userId, companyId, moduleCode, actions)
    ensures CapsFor(t, userId, companyId, moduleCode, actions)[moduleCode + ":" + a] == Decide(t, userId, companyId, moduleCode + ":" + a)
  {
  }

  /** A capability granted within a company is also granted without the company. */
  lemma ScopedCapImpliesGlobal(t: Tables, userId: string, companyId: string, moduleCode: string, actions: seq<string>, perm: string)
    requires perm in CapsFor(t, userId, companyId, moduleCode, actions)
    requires CapsFor(t, userId, companyId, moduleCode, actions)[perm]
    ensures CapsFor(t, userId, "", moduleCode, actions)[perm]
  {
    if companyId != "" {
      ScopedImpliesGlobal(t, userId, companyId, perm);
    }
  }

  /** The owner of the company asked about (or of any company, when none is asked about) gets every capability. */
  lemma OwnerHasAllCaps(t: Tables, userId: string, companyId: string, moduleCode: string, actions: seq<string>, c: Company)
    requires userId != "" && c in t.companies && c.ownerUserId == Some(userId)
    requires companyId == "" || Find(t.companies, CompanyIdIs(companyId)) == Some(c)
    ensures forall perm :: perm in CapsFor(t, userId, companyId, moduleCode, actions) ==> CapsFor(t, userId, companyId, moduleCode, actions)[perm]
  {
  }
}
