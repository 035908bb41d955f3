/** The two grocery lists: the admin's catalogue page (search, edit, delete)
    and the customer dashboard (search and the first match to scroll to).
    Both search the same way, so the search is defined once. */
module GroceryViews {
  import opened Common

  /** A catalogue item as both pages hold it. */
  datatype GroceryItem = GroceryItem(id: string, name: string, category: string, price: string, unit: string, image: string)

  // ---------------------------------------------------------------------------
  // The search

  /** The search text trimmed and lowercased. */
  function Query(search: string): (q: string)
    ensures q == "" <==> forall i :: 0 <= i < |search| ==> IsSpace(search[i])
    ensures |q| <= |search|
  {
    ToLower(Trim(search))
  }

  /** The item's name or category, lowercased, includes the query. */
  predicate Matches(item: GroceryItem, q: string) {
    Contains(ToLower(item.name), q) || Contains(ToLower(item.category), q)
  }

  function MatchesQuery(q: string): GroceryItem -> bool {
    (item: GroceryItem) => Matches(item, q)
  }

  /** filtered: every item for a blank search, otherwise the matching items in
      list order. */
  function Filtered(items: seq<GroceryItem>, search: string): (r: seq<GroceryItem>)
    ensures Query(search) == "" ==> r == items
    ensures Query(search) != "" ==> forall i :: 0 <= i < |items| ==> (items[i] in r <==> Matches(items[i], Query(search)))
    ensures forall i :: 0 <= i < |r| ==> r[i] in items
    ensures |r| <= |items|
  {
    var q := Query(search);
    if q == "" then items else Filter(items, MatchesQuery(q))
  }

  /** A search made only of white space shows every item. */
  lemma BlankSearchShowsAll(items: seq<GroceryItem>, search: string)
    requires forall i :: 0 <= i < |search| ==> IsSpace(search[i])
    ensures Filtered(items, search) == items
  {
  }

  /** The search ignores the case of what is typed. */
  lemma SearchIgnoresCase(items: seq<GroceryItem>, search: string)
    ensures Filtered(items, ToLower(search)) == Filtered(items, search)
  {
    QueryIgnoresCase(search);
  }

  lemma QueryIgnoresCase(s: string)
    ensures Query(ToLower(s)) == Query(s)
  {
    var a := TrimStart(s);
    TrimStartLower(s);
    TrimEndLower(a);
    assert Trim(ToLower(s)) == ToLower(TrimEnd(a));
    LowerTwice(TrimEnd(a));
  }

  lemma LowerTwice(t: string)
    ensures ToLower(ToLower(t)) == ToLower(t)
  {
  }

  lemma LowerKeepsSpace(c: char)
    ensures IsSpace(LowerChar(c)) == IsSpace(c)
  {
  }

  lemma {:induction false} TrimStartLower(s: string)
    ensures TrimStart(ToLower(s)) == ToLower(TrimStart(s))
  {
    if s != [] {
      LowerKeepsSpace(s[0]);
      assert ToLower(s)[0] == LowerChar(s[0]);
      assert ToLower(s)[1..] == ToLower(s[1..]);
      TrimStartLower(s[1..]);
    }
  }

  lemma {:induction false} TrimEndLower(s: string)
    ensures TrimEnd(ToLower(s)) == ToLower(TrimEnd(s))
  {
    if s != [] {
      LowerKeepsSpace(s[|s| - 1]);
      assert ToLower(s)[|s| - 1] == LowerChar(s[|s| - 1]);
      assert ToLower(s)[..|s| - 1] == ToLower(s[..|s| - 1]);
      TrimEndLower(s[..|s| - 1]);
    }
  }

  // ---------------------------------------------------------------------------
  // The customer dashboard

  /** (search || "").trim().toLowerCase(). */
  function DashboardQuery(search: Option<string>): (q: string)
    ensures search.None? ==> q == ""
    ensures search.Some? ==> q == Query(search.value)
  {
    Query(if search.Some? then search.value else "")
  }

  /** The dashboard's list: what the catalogue page shows for the same search. */
  function DashboardFiltered(items: seq<GroceryItem>, search: Option<string>): (r: seq<GroceryItem>)
    ensures search.None? ==> r == items
    ensures search.Some? ==> r == Filtered(items, search.value)
  {
    if search.None? then items else Filtered(items, search.value)
  }

  /** firstMatchId: the id of the first item shown when there is a query and a
      match, else "". */
  function FirstMatchId(items: seq<GroceryItem>, search: Option<string>): (id: string)
    ensures DashboardQuery(search) == "" ==> id == ""
    ensures DashboardQuery(search) != "" ==>
      match FindFirst(items, MatchesQuery(DashboardQuery(search)))
      case None => id == ""
      case Some(k) => id == items[k].id
  {
    var q := DashboardQuery(search);
    var shown := DashboardFiltered(items, search);
    FilterHeadIsFirst(items, MatchesQuery(q));
    if q != "" && |shown| > 0 then shown[0].id else ""
  }

  // ---------------------------------------------------------------------------
  // The catalogue page: edit and delete

  predicate IdsUnique(items: seq<GroceryItem>) {
    forall i, j :: 0 <= i < j < |items| ==> items[i].id != items[j].id
  }

  /** The list and the item open in the edit form. */
  datatype Catalogue = Catalogue(items: seq<GroceryItem>, editing: Option<GroceryItem>)

  /** saveEdit: nothing happens when no item with an id is being edited; a
      failed request keeps the list and the form; a saved item replaces every
      item with the edited id, and the form closes. */
  function SaveEdit(c: Catalogue, saved: Option<GroceryItem>): (r: Catalogue)
    ensures c.editing.None? || c.editing.value.id == "" ==> r == c
    ensures saved.None? ==> r == c
    ensures c.editing.Some? && c.editing.value.id != "" && saved.Some? ==>
      r.editing.None? && |r.items| == |c.items| &&
      forall i :: 0 <= i < |c.items| ==>
        r.items[i] == if c.items[i].id == c.editing.value.id then saved.value else c.items[i]
  {
    if c.editing.None? || c.editing.value.id == "" then c
    else if saved.None? then c
    else
      var id := c.editing.value.id;
      Catalogue(seq(|c.items|, i requires 0 <= i < |c.items| => if c.items[i].id == id then saved.value else c.items[i]), None)
  }

  /** Saving keeps the ids unique when the server answers with the edited id. */
  lemma SaveKeepsIdsUnique(c: Catalogue, saved: Option<GroceryItem>)
    requires IdsUnique(c.items)
    requires c.editing.Some? && saved.Some? ==> saved.value.id == c.editing.value.id
    ensures IdsUnique(SaveEdit(c, saved).items)
  {
  }

  /** After a save the list holds the saved item where the edited one was, and
      everything else as it was. */
  lemma SaveReplacesOne(c: Catalogue, saved: GroceryItem, k: nat)
    requires IdsUnique(c.items) && k < |c.items|
    requires c.editing.Some? && c.editing.value.id == c.items[k].id && c.items[k].id != ""
    ensures var r := SaveEdit(c, Some(saved)).items;
      r[k] == saved && r[..k] == c.items[..k] && r[k + 1..] == c.items[k + 1..]
  {
  }

  function NotId(id: string): GroceryItem -> bool {
    (item: GroceryItem) => item.id != id
  }

  /** deleteItem: nothing happens for an empty id, a declined confirmation or a
      failed request; otherwise every item with the id is removed. */
  function DeleteItem(items: seq<GroceryItem>, id: string, confirmed: bool, deleted: bool): (r: seq<GroceryItem>)
    ensures id == "" || !confirmed || !deleted ==> r == items
    ensures id != "" && confirmed && deleted ==>
      (forall i :: 0 <= i < |r| ==> r[i].id != id) &&
      (forall i :: 0 <= i < |items| && items[i].id != id ==> items[i] in r) &&
      (forall i :: 0 <= i < |r| ==> r[i] in items)
  {
    if id == "" || !confirmed || !deleted then items else Filter(items, NotId(id))
  }

  /** With unique ids, a delete removes exactly the one item with the id and
      keeps the order of the rest. */
  lemma DeleteRemovesOne(items: seq<GroceryItem>, k: nat)
    requires IdsUnique(items) && k < |items| && items[k].id != ""
    ensures DeleteItem(items, items[k].id, true, true) == items[..k] + items[k + 1..]
  {
    forall j | 0 <= j < |items| && j != k
      ensures NotId(items[k].id)(items[j])
    {
    }
    FilterDropsOne(items, NotId(items[k].id), k);
  }
}
