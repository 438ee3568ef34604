/**
 * The product grid of the point-of-sale screen: the menu items shown for the active category
 * and the search text, the list of selected item ids that a click toggles, the selected items
 * handed to the order panel, and the category label under each item.
 */
module PosMenu {
  import opened Wrappers
  import opened Seqs
  import opened Text

  /** A price of one size; values are whole Rupiah. */
  datatype PriceTag = PriceTag(size: string, value: int)

  datatype MenuItem = MenuItem(id: string, categoryId: string, name: string, description: string, price: seq<PriceTag>)

  datatype Category = Category(id: string, name: string)

  /** The first category stands for all items; any other needs an exact match. The search is lower-cased but not trimmed. */
  function MenuMatches(firstCategoryId: string, activeCategoryId: string, search: string): MenuItem -> bool {
    (item: MenuItem) =>
      (activeCategoryId == firstCategoryId || item.categoryId == activeCategoryId) &&
      (Contains(Lower(item.name), Lower(search)) || Contains(Lower(item.description), Lower(search)))
  }

  /** `filteredMenus`; the category list must not be empty, since the first category is read. */
  function FilteredMenus(items: seq<MenuItem>, categories: seq<Category>, activeCategoryId: string, search: string): seq<MenuItem>
    requires |categories| > 0
  {
    Filter(items, MenuMatches(categories[0].id, activeCategoryId, search))
  }

  /** The shown items are exactly the matching ones, in catalogue order. */
  lemma FilteredMenusAreMatching(items: seq<MenuItem>, categories: seq<Category>, activeCategoryId: string, search: string)
    requires |categories| > 0
    ensures forall i :: 0 <= i < |FilteredMenus(items, categories, activeCategoryId, search)| ==>
              FilteredMenus(items, categories, activeCategoryId, search)[i] in items &&
              MenuMatches(categories[0].id, activeCategoryId, search)(FilteredMenus(items, categories, activeCategoryId, search)[i])
    ensures forall i :: 0 <= i < |items| && MenuMatches(categories[0].id, activeCategoryId, search)(items[i]) ==>
              items[i] in FilteredMenus(items, categories, activeCategoryId, search)
    ensures IsSubsequence(FilteredMenus(items, categories, activeCategoryId, search), items)
  {
    FilterIsSubsequence(items, MenuMatches(categories[0].id, activeCategoryId, search));
  }

  /** A category other than the first shows only its own items. */
  lemma OtherCategoryIsExact(items: seq<MenuItem>, categories: seq<Category>, activeCategoryId: string, search: string)
    requires |categories| > 0 && activeCategoryId != categories[0].id
    ensures forall i :: 0 <= i < |FilteredMenus(items, categories, activeCategoryId, search)| ==>
              FilteredMenus(items, categories, activeCategoryId, search)[i].categoryId == activeCategoryId
  {
  }

  /** The first category with an empty search shows the whole catalogue. */
  lemma FirstCategoryEmptySearchShowsAll(items: seq<MenuItem>, categories: seq<Category>)
    requires |categories| > 0
    ensures FilteredMenus(items, categories, categories[0].id, "") == items
  {
    var p := MenuMatches(categories[0].id, categories[0].id, "");
    forall i | 0 <= i < |items| ensures p(items[i]) {
      ContainsEmpty(Lower(items[i].name));
    }
    FilterKeepsAll(items, p);
  }

  function IsNot(id: string): string -> bool {
    (x: string) => x != id
  }

  /** The toggle: a selected id is removed, every occurrence of it; an unselected id is appended. */
  function Toggled(prev: seq<string>, id: string): seq<string> {
    if id in prev then Filter(prev, IsNot(id)) else prev + [id]
  }

  /** Toggling a selected id removes it and keeps every other id, in order. */
  lemma ToggleRemoves(prev: seq<string>, id: string)
    requires id in prev
    ensures id !in Toggled(prev, id)
    ensures forall x :: x in Toggled(prev, id) <==> x in prev && x != id
    ensures IsSubsequence(Toggled(prev, id), prev)
  {
    var r := Toggled(prev, id);
    forall x ensures x in r <==> x in prev && x != id {
      FilterMember(prev, IsNot(id), x);
    }
    FilterIsSubsequence(prev, IsNot(id));
  }

  /** Toggling an unselected id appends it. */
  lemma ToggleAppends(prev: seq<string>, id: string)
    requires id !in prev
    ensures Toggled(prev, id) == prev + [id]
  {
  }

  /** Toggling keeps the selection free of duplicates. */
  lemma ToggleKeepsDistinct(prev: seq<string>, id: string)
    requires NoDuplicates(prev)
    ensures NoDuplicates(Toggled(prev, id))
  {
    if id in prev {
      FilterNoDuplicates(prev, IsNot(id));
    }
  }

  /** Toggling an unselected id twice gives back the original selection. */
  lemma ToggleTwiceRestores(prev: seq<string>, id: string)
    requires id !in prev
    ensures Toggled(Toggled(prev, id), id) == prev
  {
    FilterAppend(prev, id, IsNot(id));
    FilterKeepsAll(prev, IsNot(id));
  }

  /** The grid's state: the selected ids and the search text. */
  class Selection {
    var selected: seq<string>
    var search: string

    predicate Valid()
      reads this
    {
      NoDuplicates(selected)
    }

    constructor()
      ensures selected == [] && search == "" && Valid()
    {
      selected := [];
      search := "";
    }

    /** `handleSelectMenu`. */
    method Toggle(id: string)
      requires Valid()
      modifies this
      ensures selected == Toggled(old(selected), id) && search == old(search)
      ensures Valid()
    {
      ToggleKeepsDistinct(selected, id);
      selected := Toggled(selected, id);
    }

    method SetSearch(v: string)
      modifies this
      ensures search == v && selected == old(selected)
    {
      search := v;
    }
  }

  function IdIn(selected: seq<string>): MenuItem -> bool {
    (m: MenuItem) => m.id in selected
  }

  /** The selected items handed to the order panel: in catalogue order, not in the order they were picked. */
  function SelectedObjects(items: seq<MenuItem>, selected: seq<string>): (r: seq<MenuItem>)
    ensures forall i :: 0 <= i < |r| ==> r[i] in items && r[i].id in selected
    ensures forall i :: 0 <= i < |items| && items[i].id in selected ==> items[i] in r
    ensures IsSubsequence(r, items)
    ensures forall x :: multiset(r)[x] == if x.id in selected then multiset(items)[x] else 0
  {
    FilterIsSubsequence(items, IdIn(selected));
    FilterMultiset(items, IdIn(selected));
    Filter(items, IdIn(selected))
  }

  function CategoryIdIs(id: string): Category -> bool {
    (c: Category) => c.id == id
  }

  /** `categories.find(cat => cat.id === categoryId)?.name || "Unknown Category"`: an empty name also shows the fallback. */
  function CategoryLabel(categories: seq<Category>, categoryId: string): (r: string)
    ensures (forall i :: 0 <= i < |categories| ==> categories[i].id != categoryId) ==> r == "Unknown Category"
    ensures r == "Unknown Category" ||
            exists i :: 0 <= i < |categories| && categories[i].id == categoryId && categories[i].name == r
  {
    match Find(categories, CategoryIdIs(categoryId))
    case Some(c) => if c.name != "" then c.name else "Unknown Category"
    case None => "Unknown Category"
  }

  /** The first category with the id names the label. */
  lemma CategoryLabelOfFirst(categories: seq<Category>, categoryId: string, i: nat)
    requires i < |categories| && categories[i].id == categoryId && categories[i].name != ""
    requires forall j :: 0 <= j < i ==> categories[j].id != categoryId
    ensures CategoryLabel(categories, categoryId) == categories[i].name
  {
    FindFirst(categories, CategoryIdIs(categoryId), i);
  }
}
