/**
 * The list logic of the employees page: member rows turned into table rows with display
 * defaults, a search over name, email, phone and role combined with a status filter, one page
 * of the result, the create/update/delete flags read from the capabilities answer, and the page
 * state that returns to the first page whenever the search, the status or the page size changes.
 */
module UsersTable {
  import opened Wrappers
  import opened Seqs
  import opened Text
  import opened PermCore
  import opened PermCaps

  /** A member row as the page receives it; the phone number may be missing. */
  datatype MemberRow = MemberRow(id: string, name: string, email: string, isOwner: bool, isActive: bool,
                                 roles: seq<string>, phone: Option<string>)

  datatype Status = Active | Inactive

  /** A row of the table. */
  datatype UserRow = UserRow(key: string, name: string, phone: string, email: string, role: string, status: Status)

  /** The status selector: every row, or the rows of one status. */
  datatype StatusFilter = AllStatuses | Only(status: Status)

  /** `mapped`: keyed by id; a missing phone shows "-", the first role is shown or "-", active members are `active`. */
  function MapRow(r: MemberRow): (u: UserRow)
    ensures u.key == r.id && u.name == r.name && u.email == r.email
    ensures u.phone == (if r.phone.Some? then r.phone.value else "-")
    ensures u.role == (if r.roles != [] then r.roles[0] else "-")
    ensures u.status == Active <==> r.isActive
  {
    UserRow(r.id, r.name, r.phone.GetOr("-"), r.email, if r.roles != [] then r.roles[0] else "-",
            if r.isActive then Active else Inactive)
  }

  function MapRows(rows: seq<MemberRow>): (us: seq<UserRow>)
    ensures |us| == |rows| && forall i :: 0 <= i < |rows| ==> us[i] == MapRow(rows[i])
  {
    seq(|rows|, i requires 0 <= i < |rows| => MapRow(rows[i]))
  }

  /** A row is kept when the normalised query is empty or occurs in one of its four text columns, and its status is selected. */
  function RowMatches(q: string, status: StatusFilter): UserRow -> bool {
    (r: UserRow) =>
      (q == "" || Contains(Lower(r.name), q) || Contains(Lower(r.email), q) ||
       Contains(Lower(r.phone), q) || Contains(Lower(r.role), q)) &&
      (status.AllStatuses? || r.status == status.status)
  }

  /** `filtered`. */
  function Filtered(mapped: seq<UserRow>, query: string, status: StatusFilter): seq<UserRow> {
    Filter(mapped, RowMatches(Norm(query), status))
  }

  /** The kept rows are exactly the matching ones, in their original order; a selected status is honoured. */
  lemma FilteredRows(mapped: seq<UserRow>, query: string, status: StatusFilter)
    ensures forall i :: 0 <= i < |Filtered(mapped, query, status)| ==>
              Filtered(mapped, query, status)[i] in mapped && RowMatches(Norm(query), status)(Filtered(mapped, query, status)[i])
    ensures forall i :: 0 <= i < |mapped| && RowMatches(Norm(query), status)(mapped[i]) ==> mapped[i] in Filtered(mapped, query, status)
    ensures status.Only? ==> forall i :: 0 <= i < |Filtered(mapped, query, status)| ==>
              Filtered(mapped, query, status)[i].status == status.status
    ensures IsSubsequence(Filtered(mapped, query, status), mapped)
  {
    FilterIsSubsequence(mapped, RowMatches(Norm(query), status));
  }

  /** A blank query with every status selected keeps every row. */
  lemma BlankQueryKeepsAll(mapped: seq<UserRow>, query: string)
    requires Norm(query) == ""
    ensures Filtered(mapped, query, AllStatuses) == mapped
  {
    FilterKeepsAll(mapped, RowMatches(Norm(query), AllStatuses));
  }

  /** `caps[key] === true`: a missing key counts as false. */
  function CapFlag(caps: map<string, bool>, key: string): (b: bool)
    ensures b <==> key in caps && caps[key]
  {
    if key in caps then caps[key] else false
  }

  /** The three buttons' flags. */
  datatype Flags = Flags(canCreate: bool, canUpdate: bool, canDelete: bool)

  function FlagsOf(caps: map<string, bool>): (f: Flags)
    ensures f.canCreate <==> "employees:create" in caps && caps["employees:create"]
    ensures f.canUpdate <==> "employees:update" in caps && caps["employees:update"]
    ensures f.canDelete <==> "employees:delete" in caps && caps["employees:delete"]
  {
    Flags(CapFlag(caps, "employees:create"), CapFlag(caps, "employees:update"), CapFlag(caps, "employees:delete"))
  }

  /** Before the capabilities arrive (or when the request fails) every button is hidden. */
  lemma NoCapsNoButtons()
    ensures FlagsOf(map[]) == Flags(false, false, false)
  {
  }

  /** With the endpoint's answer for the `employees` module, each flag is the decision on that permission in the company. */
  lemma FlagsFromEndpoint(t: Tables, userId: string, companyId: string)
    ensures FlagsOf(CapsFor(t, userId, companyId, "employees", ["create", "update", "delete"])) ==
            Flags(Decide(t, userId, companyId, "employees:create"),
                  Decide(t, userId, companyId, "employees:update"),
                  Decide(t, userId, companyId, "employees:delete"))
  {
    var acts := ["create", "update", "delete"];
    var caps := CapsFor(t, userId, companyId, "employees", acts);
    CapsEntry(t, userId, companyId, "employees", acts, "create");
    CapsEntry(t, userId, companyId, "employees", acts, "update");
    CapsEntry(t, userId, companyId, "employees", acts, "delete");
    assert "employees" + ":" + "create" == "employees:create";
    assert "employees" + ":" + "update" == "employees:update";
    assert "employees" + ":" + "delete" == "employees:delete";
  }

  /** The component's search query, status selection, current page and page size. */
  class TableState {
    var query: string
    var status: StatusFilter
    var page: int
    var pageSize: int

    constructor()
      ensures query == "" && status == AllStatuses && page == 1 && pageSize == 10
    {
      query := "";
      status := AllStatuses;
      page := 1;
      pageSize := 10;
    }

    /** Typing a query; the effect on `[query, status, pageSize]` returns to page 1 when it changed. */
    method SetQuery(v: string)
      modifies this
      ensures query == v && status == old(status) && pageSize == old(pageSize)
      ensures page == if v != old(query) then 1 else old(page)
    {
      if v != query {
        page := 1;
      }
      query := v;
    }

    /** Choosing a status; returns to page 1 when it changed. */
    method SetStatus(s: StatusFilter)
      modifies this
      ensures status == s && query == old(query) && pageSize == old(pageSize)
      ensures page == if s != old(status) then 1 else old(page)
    {
      if s != status {
        page := 1;
      }
      status := s;
    }

    /** Choosing a page size; returns to page 1 when it changed. */
    method SetPageSize(n: int)
      modifies this
      ensures pageSize == n && query == old(query) && status == old(status)
      ensures page == if n != old(pageSize) then 1 else old(page)
    {
      if n != pageSize {
        page := 1;
      }
      pageSize := n;
    }

    /** Moving to another page. */
    method SetPage(p: int)
      modifies this
      ensures page == p && query == old(query) && status == old(status) && pageSize == old(pageSize)
    {
      page := p;
    }

    /** `paged`: the current page of the filtered rows. */
    function Paged(mapped: seq<UserRow>): seq<UserRow>
      reads this
    {
      Page(Filtered(mapped, query, status), page, pageSize)
    }
  }

  /** The current page holds at most `pageSize` rows and is a contiguous run of the filtered rows. */
  lemma PagedRows(st: TableState, mapped: seq<UserRow>)
    requires st.page >= 1 && st.pageSize >= 0
    ensures |st.Paged(mapped)| <= st.pageSize
    ensures IsContiguousIn(st.Paged(mapped), Filtered(mapped, st.query, st.status))
  {
    var f := Filtered(mapped, st.query, st.status);
    assert st.Paged(mapped) == Page(f, st.page, st.pageSize);
    PageContents(f, st.page, st.pageSize);
  }
}
