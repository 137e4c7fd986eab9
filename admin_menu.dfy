/** The admin menu page: searching the dishes, deleting one, switching its
    availability, the category label on each card, and the category tabs. */
module AdminMenu {
  import opened Strings
  import opened Seqs

  /** The admin page's dish record; the image path is left out. */
  datatype MenuItem = MenuItem(
    id: int,
    name: string,
    description: string,
    price: int,
    category: string,
    available: bool)

  /** The lower-cased name or the lower-cased description contains the
      lower-cased query. */
  predicate ItemMatches(item: MenuItem, query: string) {
    Contains(Lower(item.name), Lower(query)) || Contains(Lower(item.description), Lower(query))
  }

  /** `filteredItems`. */
  function SearchItems(items: seq<MenuItem>, query: string): (r: seq<MenuItem>)
    ensures forall x :: x in r <==> x in items && ItemMatches(x, query)
    ensures query == "" ==> r == items
    ensures |r| <= |items|
  {
    FilterMembers(items, (x: MenuItem) => ItemMatches(x, query));
    Filter(items, (x: MenuItem) => ItemMatches(x, query))
  }

  /** `deleteItem`: every dish with this id leaves the menu. */
  function DeleteItem(items: seq<MenuItem>, id: int): (r: seq<MenuItem>)
    ensures forall x :: x in r <==> x in items && x.id != id
    ensures forall i :: 0 <= i < |r| ==> r[i].id != id
    ensures (forall i :: 0 <= i < |items| ==> items[i].id != id) ==> r == items
  {
    FilterMembers(items, (x: MenuItem) => x.id != id);
    Filter(items, (x: MenuItem) => x.id != id)
  }

  /** The search keeps the matching dishes in their menu order. */
  lemma SearchItemsKeepsOrder(a: seq<MenuItem>, b: seq<MenuItem>, query: string)
    ensures SearchItems(a + b, query) == SearchItems(a, query) + SearchItems(b, query)
  {
    FilterAppend(a, b, (x: MenuItem) => ItemMatches(x, query));
  }

  /** The search ignores the case of the query: both sides are lower-cased. */
  lemma SearchIgnoresQueryCase(items: seq<MenuItem>, query: string)
    ensures SearchItems(items, Lower(query)) == SearchItems(items, query)
  {
    LowerIdempotent(query);
    FilterCongruent(items, (x: MenuItem) => ItemMatches(x, Lower(query)), (x: MenuItem) => ItemMatches(x, query));
  }

  /** Deleting a dish leaves the other dishes in their order. */
  lemma DeleteItemKeepsOrder(a: seq<MenuItem>, b: seq<MenuItem>, id: int)
    ensures DeleteItem(a + b, id) == DeleteItem(a, id) + DeleteItem(b, id)
  {
    FilterAppend(a, b, (x: MenuItem) => x.id != id);
  }

  /** Deleting a dish and then searching shows what the search showed
      before, without that dish and in the same order. */
  lemma DeleteThenSearch(items: seq<MenuItem>, id: int, query: string)
    ensures SearchItems(DeleteItem(items, id), query) == DeleteItem(SearchItems(items, query), id)
  {
    FilterCommute(items, (x: MenuItem) => x.id != id, (x: MenuItem) => ItemMatches(x, query));
  }

  /** `toggleAvailability`: every dish with this id flips its availability
      and keeps everything else. */
  function ToggleAvailability(items: seq<MenuItem>, id: int): (r: seq<MenuItem>)
    ensures |r| == |items|
    ensures forall i :: 0 <= i < |items| && items[i].id != id ==> r[i] == items[i]
    ensures forall i :: 0 <= i < |items| && items[i].id == id ==>
      r[i] == items[i].(available := r[i].available) && r[i].available == !items[i].available
  {
    seq(|items|, i requires 0 <= i < |items| =>
      if items[i].id == id then items[i].(available := !items[i].available) else items[i])
  }

  /** Switching a dish's availability twice gives back the menu it started from. */
  lemma ToggleTwiceRestores(items: seq<MenuItem>, id: int)
    ensures ToggleAvailability(ToggleAvailability(items, id), id) == items
  {
    var r := ToggleAvailability(ToggleAvailability(items, id), id);
    assert forall i :: 0 <= i < |items| ==> r[i] == items[i];
  }

  /** The title of the notice after `toggleAvailability`, read from the menu
      as it was before the change; a missing dish reads as unavailable. */
  function ToggleNotice(items: seq<MenuItem>, id: int): (r: string)
    ensures r == "Platillo no disponible" || r == "Platillo disponible"
    ensures r == "Platillo no disponible" <==>
      exists i :: 0 <= i < |items| && items[i].id == id && items[i].available &&
        forall j :: 0 <= j < i ==> items[j].id != id
  {
    if exists i :: 0 <= i < |items| && items[i].id == id then
      var i := FirstWithId(items, id);
      if items[i].available then "Platillo no disponible" else "Platillo disponible"
    else "Platillo disponible"
  }

  /** `find`: the index of the first dish with this id. */
  function FirstWithId(items: seq<MenuItem>, id: int): (i: nat)
    requires exists i :: 0 <= i < |items| && items[i].id == id
    ensures i < |items| && items[i].id == id
    ensures forall j :: 0 <= j < i ==> items[j].id != id
  {
    if items[0].id == id then 0
    else
      assert exists i :: 0 <= i < |items[1..]| && items[1..][i].id == id by {
        var k :| 0 <= k < |items| && items[k].id == id;
        assert items[1..][k - 1].id == id;
      }
      FirstWithId(items[1..], id) + 1
  }

  /** The notice names the availability the dish has after the change. */
  lemma ToggleNoticeNamesNewState(items: seq<MenuItem>, id: int)
    requires exists i :: 0 <= i < |items| && items[i].id == id
    ensures var i := FirstWithId(items, id);
      (ToggleNotice(items, id) == "Platillo disponible") == ToggleAvailability(items, id)[i].available
  {
  }

  /** The five categories the page knows, in tab order. */
  const KnownCategories: seq<string> :=
    ["entradas", "platos-principales", "acompañamientos", "bebidas", "postres"]

  /** `getCategoryText`. */
  function CategoryText(category: string): (r: string)
    ensures r != "Desconocido" <==> category in KnownCategories
  {
    if category == "entradas" then "Entradas"
    else if category == "platos-principales" then "Platos Principales"
    else if category == "acompañamientos" then "Acompañamientos"
    else if category == "bebidas" then "Bebidas"
    else if category == "postres" then "Postres"
    else "Desconocido"
  }

  /** Different known categories carry different labels. */
  lemma CategoryLabelsDistinct(a: string, b: string)
    requires a in KnownCategories && b in KnownCategories && a != b
    ensures CategoryText(a) != CategoryText(b)
  {
  }

  /** A tab's cards: "todos" shows every found dish, another tab the found
      dishes of that category. */
  function TabItems(filtered: seq<MenuItem>, tab: string): (r: seq<MenuItem>)
    ensures tab == "todos" ==> r == filtered
    ensures forall x :: x in r <==> x in filtered && (tab == "todos" || x.category == tab)
    ensures |r| <= |filtered|
  {
    FilterMembers(filtered, (x: MenuItem) => tab == "todos" || x.category == tab);
    Filter(filtered, (x: MenuItem) => tab == "todos" || x.category == tab)
  }

  /** A tab keeps the found dishes in their order. */
  lemma TabItemsKeepOrder(a: seq<MenuItem>, b: seq<MenuItem>, tab: string)
    ensures TabItems(a + b, tab) == TabItems(a, tab) + TabItems(b, tab)
  {
    FilterAppend(a, b, (x: MenuItem) => tab == "todos" || x.category == tab);
  }

  /** A found dish of a known category is on exactly one category tab
      besides "todos"; a dish of any other category is on none. */
  lemma DishOnOneCategoryTab(filtered: seq<MenuItem>, x: MenuItem)
    requires x in filtered
    ensures x in TabItems(filtered, "todos")
    ensures forall c :: c in KnownCategories ==> (x in TabItems(filtered, c) <==> c == x.category)
  {
  }
}
