/**
 * The list logic of the roles page: role codes shown in start case, a search over role names
 * and permissions, one page of the result, the per-row action buttons, and the page state that
 * returns to the first page whenever the search term or the page size changes.
 */
module RolesTable {
  import opened Wrappers
  import opened Seqs
  import opened Text
  import opened RolesData

  /* ---------------- toStartCase ---------------- */

  /** The characters of the regular-expression class `\w`. */
  predicate IsWordChar(c: char) {
    IsLetter(c) || ('0' <= c <= '9') || c == '_'
  }

  predicate IsSeparator(c: char) {
    c == '_' || c == '-'
  }

  /** The string after its leading run of `_` and `-`. */
  function DropSeparators(s: string): (r: string)
    ensures |r| <= |s| && r == s[|s| - |r|..]
    ensures r != [] ==> !IsSeparator(r[0])
  {
    if s != [] && IsSeparator(s[0]) then DropSeparators(s[1..]) else s
  }

  /** `s.replace(/[_-]+/g, " ")`: every maximal run of `_` and `-` becomes one space. */
  function CollapseSeparators(s: string): string
    decreases |s|
  {
    if s == [] then []
    else if IsSeparator(s[0]) then " " + CollapseSeparators(DropSeparators(s[1..]))
    else [s[0]] + CollapseSeparators(s[1..])
  }

  /** No `_` or `-` is left. */
  lemma {:induction false} CollapseRemovesSeparators(s: string)
    ensures forall i :: 0 <= i < |CollapseSeparators(s)| ==> !IsSeparator(CollapseSeparators(s)[i])
    decreases |s|
  {
    if s != [] {
      var rest := if IsSeparator(s[0]) then DropSeparators(s[1..]) else s[1..];
      CollapseRemovesSeparators(rest);
      var r := CollapseSeparators(s);
      assert r[1..] == CollapseSeparators(rest) && !IsSeparator(r[0]);
      forall i | 1 <= i < |r| ensures !IsSeparator(r[i]) {
        assert r[i] == r[1..][i - 1];
      }
    }
  }

  /** Text without `_` and `-` is left as it is. */
  lemma {:induction false} CollapseWithoutSeparators(s: string)
    requires forall i :: 0 <= i < |s| ==> !IsSeparator(s[i])
    ensures CollapseSeparators(s) == s
    decreases |s|
  {
    if s != [] {
      assert s == [s[0]] + s[1..];
      CollapseWithoutSeparators(s[1..]);
    }
  }

  /**
   * `s.replace(/\w\S*\/g, w => w[0].toUpperCase() + w.slice(1).toLowerCase())`, scanned from
   * left to right. A match starts at a word character met outside a match and runs up to the
   * next whitespace; `inMatch` says whether the scan is inside one. The first character of a
   * match is written in upper case and the others in lower case; characters outside every
   * match are kept.
   */
  function CapitaliseFrom(s: string, inMatch: bool): (r: string)
    ensures |r| == |s|
    decreases |s|
  {
    if s == [] then []
    else if inMatch then
      if IsSpace(s[0]) then [s[0]] + CapitaliseFrom(s[1..], false)
      else [LowerChar(s[0])] + CapitaliseFrom(s[1..], true)
    else if IsWordChar(s[0]) then [UpperChar(s[0])] + CapitaliseFrom(s[1..], true)
    else [s[0]] + CapitaliseFrom(s[1..], false)
  }

  /** Whether the scan is inside a match after reading `c`. */
  function NextInMatch(c: char, inMatch: bool): bool {
    if inMatch then !IsSpace(c) else IsWordChar(c)
  }

  /** The whole replacement starts outside any match. */
  function CapitaliseWords(s: string): string {
    CapitaliseFrom(s, false)
  }

  /** One character is written, and the rest of the scan continues in the new state. */
  lemma CapitaliseStep(s: string, inMatch: bool)
    requires s != []
    ensures CapitaliseFrom(s, inMatch)[1..] == CapitaliseFrom(s[1..], NextInMatch(s[0], inMatch))
    ensures CapitaliseFrom(s, inMatch)[0] ==
            if inMatch then (if IsSpace(s[0]) then s[0] else LowerChar(s[0]))
            else if IsWordChar(s[0]) then UpperChar(s[0]) else s[0]
  {
  }

  /** Only the case of letters changes. */
  lemma {:induction false} CapitaliseKeepsLetters(s: string, inMatch: bool)
    ensures forall i :: 0 <= i < |s| ==> LowerChar(CapitaliseFrom(s, inMatch)[i]) == LowerChar(s[i])
    decreases |s|
  {
    if s != [] {
      var r := CapitaliseFrom(s, inMatch);
      var next := NextInMatch(s[0], inMatch);
      CapitaliseStep(s, inMatch);
      CapitaliseKeepsLetters(s[1..], next);
      forall i | 1 <= i < |s| ensures LowerChar(r[i]) == LowerChar(s[i]) {
        assert r[i] == r[1..][i - 1] && s[i] == s[1..][i - 1];
      }
    }
  }

  /** A letter that starts the text, or follows whitespace, begins a word and is written in upper case. */
  lemma {:induction false} WordStartIsUpper(s: string, inMatch: bool, i: nat)
    requires i < |s| && IsLetter(s[i])
    requires if i == 0 then !inMatch else IsSpace(s[i - 1])
    ensures CapitaliseFrom(s, inMatch)[i] == UpperChar(s[i])
    decreases |s|
  {
    CapitaliseStep(s, inMatch);
    if i > 0 {
      var t := s[1..];
      assert t[i - 1] == s[i];
      assert i > 1 ==> t[i - 2] == s[i - 1];
      WordStartIsUpper(t, NextInMatch(s[0], inMatch), i - 1);
      assert CapitaliseFrom(s, inMatch)[i] == CapitaliseFrom(s, inMatch)[1..][i - 1];
    }
  }

  /** A letter that follows a word character is inside a word and is written in lower case. */
  lemma {:induction false} InsideWordIsLower(s: string, inMatch: bool, i: nat)
    requires 0 < i < |s| && IsLetter(s[i]) && IsWordChar(s[i - 1])
    ensures CapitaliseFrom(s, inMatch)[i] == LowerChar(s[i])
    decreases |s|
  {
    CapitaliseStep(s, inMatch);
    var t := s[1..];
    var next := NextInMatch(s[0], inMatch);
    assert t[i - 1] == s[i];
    if i == 1 {
      CapitaliseStep(t, next);
    } else {
      assert t[i - 2] == s[i - 1];
      InsideWordIsLower(t, next, i - 1);
    }
    assert CapitaliseFrom(s, inMatch)[i] == CapitaliseFrom(s, inMatch)[1..][i - 1];
  }

  /** `toStartCase`. */
  function ToStartCase(s: string): (r: string)
    ensures forall i :: 0 <= i < |r| ==> !IsSeparator(r[i])
    ensures Lower(r) == Lower(CollapseSeparators(s))
  {
    var c := CollapseSeparators(s);
    var r := CapitaliseWords(c);
    CollapseRemovesSeparators(s);
    CapitaliseKeepsLetters(c, false);
    assert forall i :: 0 <= i < |r| ==> !IsSeparator(r[i]) by {
      forall i | 0 <= i < |r| ensures !IsSeparator(r[i]) {
        assert LowerChar(r[i]) == LowerChar(c[i]);
      }
    }
    r
  }

  /** The example of the source's comment. */
  lemma ShopOwnerExample()
    ensures ToStartCase("shop_owner") == "Shop Owner"
  {
    CollapseExample();
    CapitaliseExample();
  }

  lemma CollapseExample()
    ensures CollapseSeparators("shop_owner") == "shop owner"
  {
    OneSeparator("shop", "owner");
    assert "shop" + "_" + "owner" == "shop_owner";
    assert "shop" + " " + "owner" == "shop owner";
  }

  /** One `_` between two separator-free words becomes a space. */
  lemma OneSeparator(a: string, b: string)
    requires forall i :: 0 <= i < |a| ==> !IsSeparator(a[i])
    requires b != [] && forall i :: 0 <= i < |b| ==> !IsSeparator(b[i])
    ensures CollapseSeparators(a + "_" + b) == a + " " + b
  {
    var rest := "_" + b;
    assert a + "_" + b == a + rest;
    CollapseTail(a, rest);
    SeparatorThenWord(b);
  }

  /** A leading `_` before a separator-free word becomes a space. */
  lemma SeparatorThenWord(b: string)
    requires b != [] && forall i :: 0 <= i < |b| ==> !IsSeparator(b[i])
    ensures CollapseSeparators("_" + b) == " " + b
  {
    var rest := "_" + b;
    assert rest[0] == '_' && rest[1..] == b;
    assert DropSeparators(b) == b;
    CollapseWithoutSeparators(b);
  }

  /** A separator-free, non-empty prefix is copied in front of the rest. */
  lemma {:induction false} CollapseTail(p: string, s: string)
    requires forall i :: 0 <= i < |p| ==> !IsSeparator(p[i])
    ensures CollapseSeparators(p + s) == p + CollapseSeparators(s)
    decreases |p|
  {
    if p != [] {
      var ps := p + s;
      assert ps[0] == p[0] && ps[1..] == p[1..] + s;
      assert CollapseSeparators(ps) == [p[0]] + CollapseSeparators(ps[1..]);
      CollapseTail(p[1..], s);
      assert p == [p[0]] + p[1..];
    } else {
      assert p + s == s;
    }
  }

  lemma CapitaliseExample()
    ensures CapitaliseWords("shop owner") == "Shop Owner"
  {
    TwoLowerWords("shop", "owner");
    assert "shop" + " " + "owner" == "shop owner";
    assert [UpperChar('s')] + "hop" + " " + [UpperChar('o')] + "wner" == "Shop Owner";
  }

  /** Two lower-case words separated by a space each get their first letter in upper case. */
  lemma TwoLowerWords(a: string, b: string)
    requires a != [] && forall i :: 0 <= i < |a| ==> IsLower(a[i])
    requires b != [] && forall i :: 0 <= i < |b| ==> IsLower(b[i])
    ensures CapitaliseWords(a + " " + b) == [UpperChar(a[0])] + a[1..] + " " + [UpperChar(b[0])] + b[1..]
  {
    var s := a + " " + b;
    var r := CapitaliseFrom(s, false);
    assert s[0] == a[0] && s[1..] == a[1..] + (" " + b);
    CapitaliseStep(s, false);
    LowerRunInMatch(a[1..], " " + b);
    CapitaliseStep(" " + b, true);
    assert (" " + b)[1..] == b;
    CapitaliseStep(b, false);
    LowerRunInMatch(b[1..], "");
    assert b[1..] + "" == b[1..];
    assert r == [r[0]] + r[1..];
    var u := CapitaliseFrom(" " + b, true);
    assert u == [u[0]] + u[1..];
    var v := CapitaliseFrom(b, false);
    assert v == [v[0]] + v[1..];
  }

  /** Inside a match, a run of lower-case letters is copied unchanged. */
  lemma {:induction false} LowerRunInMatch(w: string, rest: string)
    requires forall i :: 0 <= i < |w| ==> IsLower(w[i])
    ensures CapitaliseFrom(w + rest, true) == w + CapitaliseFrom(rest, true)
    decreases |w|
  {
    if w != [] {
      var ws := w + rest;
      assert ws[0] == w[0] && ws[1..] == w[1..] + rest;
      CapitaliseStep(ws, true);
      LowerRunInMatch(w[1..], rest);
      assert CapitaliseFrom(ws, true) == [CapitaliseFrom(ws, true)[0]] + CapitaliseFrom(ws, true)[1..];
      assert w == [w[0]] + w[1..];
    } else {
      assert w + rest == rest;
    }
  }

  /* ---------------- rows, search and paging ---------------- */

  /** A row of the table: keyed by the role code, showing the code in start case. */
  datatype TableRow = TableRow(key: string, roleName: string, raw: RoleRow)

  /** `rows.map(...)`: one table row per role, in the given order. */
  function TableRows(rows: seq<RoleRow>): (data: seq<TableRow>)
    ensures |data| == |rows|
    ensures forall i :: 0 <= i < |rows| ==>
              data[i].key == rows[i].code && data[i].raw == rows[i] && data[i].roleName == ToStartCase(rows[i].code)
  {
    seq(|rows|, i requires 0 <= i < |rows| => TableRow(rows[i].code, ToStartCase(rows[i].code), rows[i]))
  }

  /** A row is kept for the normalised term when the term is empty or occurs in the role name or the joined permissions. */
  function RowMatches(term: string): TableRow -> bool {
    (r: TableRow) => term == "" || Contains(Lower(r.roleName), term) || Contains(Lower(Join(r.raw.permissions, ",")), term)
  }

  /** `filtered`. */
  function Filtered(data: seq<TableRow>, q: string): seq<TableRow> {
    Filter(data, RowMatches(Norm(q)))
  }

  /** The kept rows are exactly the matching ones, in their original order. */
  lemma FilteredRows(data: seq<TableRow>, q: string)
    ensures forall i :: 0 <= i < |Filtered(data, q)| ==> Filtered(data, q)[i] in data && RowMatches(Norm(q))(Filtered(data, q)[i])
    ensures forall i :: 0 <= i < |data| && RowMatches(Norm(q))(data[i]) ==> data[i] in Filtered(data, q)
    ensures IsSubsequence(Filtered(data, q), data)
  {
    FilterIsSubsequence(data, RowMatches(Norm(q)));
  }

  /** A search term that is blank after trimming keeps every row. */
  lemma BlankSearchKeepsAll(data: seq<TableRow>, q: string)
    requires Norm(q) == ""
    ensures Filtered(data, q) == data
  {
    FilterKeepsAll(data, RowMatches(Norm(q)));
  }

  /** Which of the Permissions, Edit and Delete controls a row of the table shows. */
  datatype RowActions = RowActions(permissions: bool, edit: bool, delete: bool)

  /** Permissions is always offered, Edit with the update right, Delete with the delete right except for the `owner` role. */
  function ActionsOf(canUpdate: bool, canDelete: bool, row: TableRow): (a: RowActions)
    ensures a.permissions
    ensures a.edit <==> canUpdate
    ensures a.delete <==> canDelete && row.raw.code != "owner"
  {
    RowActions(true, canUpdate, canDelete && row.raw.code != "owner")
  }

  /** The `owner` role can never be deleted from the table. */
  lemma OwnerRoleNeverDeletable(canUpdate: bool, canDelete: bool, row: TableRow)
    requires row.raw.code == "owner"
    ensures !ActionsOf(canUpdate, canDelete, row).delete
  {
  }

  /* ---------------- page state ---------------- */

  /** The component's search term, current page and page size. */
  class TableState {
    var q: string
    var page: int
    var pageSize: int

    constructor()
      ensures q == "" && page == 1 && pageSize == 10
    {
      q := "";
      page := 1;
      pageSize := 10;
    }

    /** Typing a search term; the effect on `[q, pageSize]` returns to page 1 when the term changed. */
    method SetQuery(v: string)
      modifies this
      ensures q == v && pageSize == old(pageSize)
      ensures page == if v != old(q) then 1 else old(page)
    {
      if v != q {
        page := 1;
      }
      q := v;
    }

    /** Choosing a page size; returns to page 1 when the size changed. */
    method SetPageSize(n: int)
      modifies this
      ensures pageSize == n && q == old(q)
      ensures page == if n != old(pageSize) then 1 else old(page)
    {
      if n != pageSize {
        page := 1;
      }
      pageSize := n;
    }

    /** Moving to another page. */
    method SetPage(p: int)
      modifies this
      ensures page == p && q == old(q) && pageSize == old(pageSize)
    {
      page := p;
    }

    /** `paged`: the current page of the filtered rows. */
    function Paged(data: seq<TableRow>): seq<TableRow>
      reads this
    {
      Page(Filtered(data, q), page, pageSize)
    }
  }

  /** The current page holds at most `pageSize` rows and is a contiguous run of the filtered rows. */
  lemma PagedRows(st: TableState, data: seq<TableRow>)
    requires st.page >= 1 && st.pageSize >= 0
    ensures |st.Paged(data)| <= st.pageSize
    ensures IsContiguousIn(st.Paged(data), Filtered(data, st.q))
  {
    var f := Filtered(data, st.q);
    assert st.Paged(data) == Page(f, st.page, st.pageSize);
    PageContents(f, st.page, st.pageSize);
  }
}
