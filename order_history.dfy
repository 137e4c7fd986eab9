/** The admin order history page: a search over order id and customer,
    pages of ten orders, previous/next controls, and status tabs applied to
    the page being shown. */
module OrderHistory {
  import opened Strings
  import opened Seqs

  datatype HistoryStatus = Pendiente | EnProceso | Completado | Cancelado

  datatype HistoryOrder = HistoryOrder(
    id: string,
    customer: string,
    table: string,
    items: int,
    total: int,
    status: HistoryStatus,
    createdAt: string)

  const OrdersPerPage: nat := 10

  /** The id contains the query as typed, or the lower-cased customer
      contains the lower-cased query. */
  predicate Matches(o: HistoryOrder, query: string) {
    Contains(o.id, query) || Contains(Lower(o.customer), Lower(query))
  }

  /** `filteredOrders`. */
  function FilterOrders(orders: seq<HistoryOrder>, query: string): (r: seq<HistoryOrder>)
    ensures forall o :: o in r <==> o in orders && Matches(o, query)
    ensures query == "" ==> r == orders
    ensures |r| <= |orders|
  {
    FilterMembers(orders, (o: HistoryOrder) => Matches(o, query));
    Filter(orders, (o: HistoryOrder) => Matches(o, query))
  }

  /** The search keeps the matching orders in their original order. */
  lemma FilterOrdersKeepsOrder(a: seq<HistoryOrder>, b: seq<HistoryOrder>, query: string)
    ensures FilterOrders(a + b, query) == FilterOrders(a, query) + FilterOrders(b, query)
  {
    FilterAppend(a, b, (o: HistoryOrder) => Matches(o, query));
  }

  /** How `Array.prototype.slice` reads a bound: negative counts from the
      end, and everything is clamped to the array. */
  function SliceBound(i: int, n: nat): (r: nat)
    ensures r <= n
    ensures 0 <= i <= n ==> r == i
  {
    if i < 0 then (if n + i < 0 then 0 else n + i)
    else if i > n then n
    else i
  }

  /** `s.slice(start, end)`. */
  function JsSlice<T>(s: seq<T>, start: int, end: int): (r: seq<T>)
    ensures |r| <= |s|
  {
    var a := SliceBound(start, |s|);
    var b := SliceBound(end, |s|);
    if a < b then s[a..b] else []
  }

  /** `currentOrders`: the orders of page `page` (pages count from 1). */
  function PageSlice(filtered: seq<HistoryOrder>, page: int): (r: seq<HistoryOrder>)
    ensures |r| <= OrdersPerPage
    ensures page >= 1 ==> forall k :: 0 <= k < |r| ==>
      (page - 1) * OrdersPerPage + k < |filtered| && r[k] == filtered[(page - 1) * OrdersPerPage + k]
    ensures page >= 1 && page * OrdersPerPage <= |filtered| ==> |r| == OrdersPerPage
    ensures page >= 1 && (page - 1) * OrdersPerPage < |filtered| <= page * OrdersPerPage ==>
      |r| == |filtered| - (page - 1) * OrdersPerPage
    ensures page >= 1 && |filtered| <= (page - 1) * OrdersPerPage ==> r == []
  {
    var indexOfLastOrder := page * OrdersPerPage;
    var indexOfFirstOrder := indexOfLastOrder - OrdersPerPage;
    JsSlice(filtered, indexOfFirstOrder, indexOfLastOrder)
  }

  /** `totalPages = Math.ceil(n / 10)`: the fewest pages of ten that hold `n` orders. */
  function TotalPages(n: nat): (r: nat)
    ensures n <= r * OrdersPerPage
    ensures r > 0 ==> (r - 1) * OrdersPerPage < n
    ensures r == 0 <==> n == 0
  {
    (n + OrdersPerPage - 1) / OrdersPerPage
  }

  /** Pages 1 through `k` joined together. */
  function Pages(filtered: seq<HistoryOrder>, k: nat): seq<HistoryOrder> {
    if k == 0 then [] else Pages(filtered, k - 1) + PageSlice(filtered, k)
  }

  function Min(a: int, b: int): int {
    if a < b then a else b
  }

  /** Page `page` is the stretch of the filtered orders from index
      (page - 1) * 10 to page * 10, cut at the end of the list. */
  lemma PageSliceRange(filtered: seq<HistoryOrder>, page: nat)
    requires page >= 1
    ensures Min((page - 1) * OrdersPerPage, |filtered|) <= Min(page * OrdersPerPage, |filtered|)
    ensures PageSlice(filtered, page) ==
      filtered[Min((page - 1) * OrdersPerPage, |filtered|)..Min(page * OrdersPerPage, |filtered|)]
  {
  }

  /** The first `k` pages, joined, are the first 10 * `k` orders. */
  lemma {:induction false} PagesPrefix(filtered: seq<HistoryOrder>, k: nat)
    ensures Pages(filtered, k) == filtered[..Min(k * OrdersPerPage, |filtered|)]
  {
    if k > 0 {
      PagesPrefix(filtered, k - 1);
      var lo := Min((k - 1) * OrdersPerPage, |filtered|);
      var hi := Min(k * OrdersPerPage, |filtered|);
      PageSliceRange(filtered, k);
      assert filtered[..lo] + filtered[lo..hi] == filtered[..hi];
    }
  }

  /** The pages 1..totalPages, joined, are exactly the filtered orders: no
      order is missed and none is shown twice. */
  lemma PagesPartition(filtered: seq<HistoryOrder>)
    ensures Pages(filtered, TotalPages(|filtered|)) == filtered
  {
    PagesPrefix(filtered, TotalPages(|filtered|));
    assert filtered[..|filtered|] == filtered;
  }

  /** The order at index `i` is on page i/10 + 1, at row i % 10, and that
      page is within 1..totalPages; no other page's range holds it. */
  lemma OrderOnExactlyOnePage(filtered: seq<HistoryOrder>, i: nat)
    requires i < |filtered|
    ensures 1 <= i / OrdersPerPage + 1 <= TotalPages(|filtered|)
    ensures i % OrdersPerPage < |PageSlice(filtered, i / OrdersPerPage + 1)|
    ensures PageSlice(filtered, i / OrdersPerPage + 1)[i % OrdersPerPage] == filtered[i]
    ensures forall p: int :: p >= 1 && (p - 1) * OrdersPerPage <= i < p * OrdersPerPage ==> p == i / OrdersPerPage + 1
  {
    var p := i / OrdersPerPage + 1;
    assert (p - 1) * OrdersPerPage + i % OrdersPerPage == i;
  }

  /** The view the page keeps: the loaded orders, the search box and the
      current page. */
  datatype HistoryView = HistoryView(orders: seq<HistoryOrder>, query: string, page: int)

  function Initial(orders: seq<HistoryOrder>): HistoryView {
    HistoryView(orders, "", 1)
  }

  function Filtered(v: HistoryView): seq<HistoryOrder> {
    FilterOrders(v.orders, v.query)
  }

  function CurrentOrders(v: HistoryView): seq<HistoryOrder> {
    PageSlice(Filtered(v), v.page)
  }

  /** The previous/next controls are shown only when more than one page of
      orders matches. */
  predicate ShowPagination(v: HistoryView): (r: bool)
    ensures r <==> TotalPages(|Filtered(v)|) >= 2
  {
    |Filtered(v)| > OrdersPerPage
  }

  /** The previous control: one page back, never below 1. */
  function PrevPage(v: HistoryView): (r: HistoryView)
    ensures r.orders == v.orders && r.query == v.query
    ensures r.page >= 1
    ensures v.page > 1 ==> r.page == v.page - 1
    ensures v.page <= 1 ==> r.page == 1
  {
    v.(page := if v.page - 1 > 1 then v.page - 1 else 1)
  }

  /** The next control: one page on, never past the last page. */
  function NextPage(v: HistoryView): (r: HistoryView)
    ensures r.orders == v.orders && r.query == v.query
    ensures r.page <= TotalPages(|Filtered(v)|)
    ensures v.page < TotalPages(|Filtered(v)|) ==> r.page == v.page + 1
    ensures v.page >= TotalPages(|Filtered(v)|) ==> r.page == TotalPages(|Filtered(v)|)
  {
    var total := TotalPages(|Filtered(v)|);
    v.(page := if v.page + 1 < total then v.page + 1 else total)
  }

  /** The current page lies between 1 and the last page (page 1 when nothing
      matches). */
  predicate PageInRange(v: HistoryView) {
    1 <= v.page && (v.page == 1 || v.page <= TotalPages(|Filtered(v)|))
  }

  /** While the controls are shown, previous and next keep the page in range. */
  lemma ControlsKeepPageInRange(v: HistoryView)
    requires PageInRange(v) && ShowPagination(v)
    ensures PageInRange(PrevPage(v)) && PageInRange(NextPage(v))
  {
  }

  /** A page in range shows at least one order whenever any order matches. */
  lemma PageInRangeShowsOrders(v: HistoryView)
    requires PageInRange(v) && |Filtered(v)| > 0
    ensures |CurrentOrders(v)| > 0
  {
  }

  /** Typing in the search box as the page does it: only the query changes. */
  function TypeQueryAsWritten(v: HistoryView, query: string): (r: HistoryView)
    ensures r.orders == v.orders && r.query == query && r.page == v.page
  {
    v.(query := query)
  }

  /** After moving to page 2 of a long history, a search that leaves between
      one and ten matches shows no order at all, and hides the controls that
      could go back. */
  lemma SearchAfterPagingShowsNothing(orders: seq<HistoryOrder>, query: string)
    requires |orders| > OrdersPerPage
    requires 1 <= |FilterOrders(orders, query)| <= OrdersPerPage
    ensures var v := TypeQueryAsWritten(NextPage(Initial(orders)), query);
      |Filtered(v)| > 0 && CurrentOrders(v) == [] && !ShowPagination(v) && !PageInRange(v)
  {
    var v0 := Initial(orders);
    assert Filtered(v0) == orders;
    assert NextPage(v0).page == 2;
  }

  /** Typing in the search box with the page reset to 1. */
  function TypeQuery(v: HistoryView, query: string): (r: HistoryView)
    ensures r.orders == v.orders && r.query == query
    ensures r.page == 1
    ensures PageInRange(r)
    ensures |Filtered(r)| > 0 ==> |CurrentOrders(r)| > 0
  {
    v.(query := query, page := 1)
  }

  /** From the initial view, any run of searches and of previous/next presses
      made while the controls are shown keeps the page in range, so matching
      orders are always on screen. */
  datatype Action = Search(query: string) | Prev | Next

  function Apply(v: HistoryView, a: Action): HistoryView {
    match a
    case Search(q) => TypeQuery(v, q)
    case Prev => if ShowPagination(v) then PrevPage(v) else v
    case Next => if ShowPagination(v) then NextPage(v) else v
  }

  function Run(v: HistoryView, actions: seq<Action>): HistoryView
    decreases |actions|
  {
    if actions == [] then v else Run(Apply(v, actions[0]), actions[1..])
  }

  lemma {:induction false} RunKeepsPageInRange(v: HistoryView, actions: seq<Action>)
    requires PageInRange(v)
    ensures PageInRange(Run(v, actions))
    ensures |Filtered(Run(v, actions))| > 0 ==> |CurrentOrders(Run(v, actions))| > 0
    decreases |actions|
  {
    if actions != [] {
      var w := Apply(v, actions[0]);
      if ShowPagination(v) {
        ControlsKeepPageInRange(v);
      }
      RunKeepsPageInRange(w, actions[1..]);
    } else if |Filtered(v)| > 0 {
      PageInRangeShowsOrders(v);
    }
  }

  /** The four status labels; the `"Desconocido"` fallback is never reached,
      because every order carries one of the four statuses. */
  const StatusLabels: set<string> := {"Pendiente", "En Proceso", "Completado", "Cancelado"}

  /** `getStatusText`: the label shown for each status. */
  function StatusText(s: HistoryStatus): (r: string)
    ensures r in StatusLabels
  {
    match s
    case Pendiente => "Pendiente"
    case EnProceso => "En Proceso"
    case Completado => "Completado"
    case Cancelado => "Cancelado"
  }

  /** Different statuses carry different labels. */
  lemma StatusLabelsDistinct(s: HistoryStatus, t: HistoryStatus)
    requires s != t
    ensures StatusText(s) != StatusText(t)
  {
  }

  const Mesa1Order := HistoryOrder("1000", "Mesa 1", "1", 1, 50, Pendiente, "")
  const Mesa2Order := HistoryOrder("1010", "Mesa 2", "2", 1, 50, Pendiente, "")

  /** Eleven orders: ten of "Mesa 1", then one of "Mesa 2". */
  function ElevenOrders(): seq<HistoryOrder> {
    seq(10, i => Mesa1Order) + [Mesa2Order]
  }

  lemma SearchMesa1Matches()
    ensures Matches(Mesa1Order, "mesa 1") && !Matches(Mesa2Order, "mesa 1")
  {
    var q := "mesa 1";
    assert Lower("Mesa 1") == q && Lower(q) == q;
    assert Contains(q, q);
    assert Lower("Mesa 2") == "mesa 2";
    assert "mesa 2"[5] != q[5];
    assert !Contains("mesa 2", q);
  }

  /** Searching "mesa 1" among those eleven orders finds the ten "Mesa 1" orders. */
  lemma SearchMesa1FindsTen()
    ensures FilterOrders(ElevenOrders(), "mesa 1") == seq(10, i => Mesa1Order)
  {
    var a := seq(10, i => Mesa1Order);
    var q := "mesa 1";
    SearchMesa1Matches();
    FilterOrdersKeepsOrder(a, [Mesa2Order], q);
    assert forall i :: 0 <= i < |a| ==> Matches(a[i], q);
    assert FilterOrders(a, q) == a;
    assert FilterOrders([Mesa2Order], q) == [];
  }

  /** On those eleven orders: next page, then search "mesa 1". Ten orders
      match, page 2 shows none of them, and there are no controls. */
  lemma SearchMesa1OnPage2()
    ensures var v := TypeQueryAsWritten(NextPage(Initial(ElevenOrders())), "mesa 1");
      |Filtered(v)| == 10 && CurrentOrders(v) == [] && !ShowPagination(v)
  {
    SearchMesa1FindsTen();
    SearchAfterPagingShowsNothing(ElevenOrders(), "mesa 1");
  }

  /** The status tabs: "todos" or one status. */
  datatype Tab = Todos | Only(status: HistoryStatus)

  /** A tab's rows: the current page's orders, then filtered by status. A
      tab never shows an order from another page, even one in its status. */
  function TabRows(current: seq<HistoryOrder>, tab: Tab): (r: seq<HistoryOrder>)
    ensures tab == Todos ==> r == current
    ensures forall o :: o in r <==> o in current && (tab == Todos || o.status == tab.status)
    ensures |r| <= |current|
  {
    FilterMembers(current, (o: HistoryOrder) => tab == Todos || o.status == tab.status);
    Filter(current, (o: HistoryOrder) => tab == Todos || o.status == tab.status)
  }

  /** A tab keeps the page's rows in their order. */
  lemma TabRowsKeepOrder(a: seq<HistoryOrder>, b: seq<HistoryOrder>, tab: Tab)
    ensures TabRows(a + b, tab) == TabRows(a, tab) + TabRows(b, tab)
  {
    FilterAppend(a, b, (o: HistoryOrder) => tab == Todos || o.status == tab.status);
  }

  /** Each tab shows at most ten rows, all from the current page. */
  lemma TabShowsCurrentPageOnly(v: HistoryView, tab: Tab)
    ensures |TabRows(CurrentOrders(v), tab)| <= OrdersPerPage
    ensures forall o :: o in TabRows(CurrentOrders(v), tab) ==> o in CurrentOrders(v)
  {
  }
}
