/** The kitchen orders page: each dish of an order moves through
    enviado, recibido, preparando, listo; the order's own status is derived
    from its dishes whenever one of them changes. */
module Kitchen {
  import opened Seqs

  datatype ItemStatus = Enviado | Recibido | Preparando | Listo

  datatype OrderStatus = Pendiente | EnProceso | Completado

  datatype KitchenItem = KitchenItem(id: int, name: string, quantity: int, status: ItemStatus, updatedAt: string)

  datatype KitchenOrder = KitchenOrder(
    id: string,
    customer: string,
    table: string,
    items: seq<KitchenItem>,
    status: OrderStatus,
    createdAt: string)

  /** Position of a status along the kitchen's progression. */
  function Rank(s: ItemStatus): nat {
    match s
    case Enviado => 0
    case Recibido => 1
    case Preparando => 2
    case Listo => 3
  }

  /** `getNextStatus`. The source's fallback for an unknown status string
      has no counterpart: the status type admits only the four values. */
  function NextStatus(s: ItemStatus): (r: ItemStatus)
    ensures s != Listo ==> Rank(r) == Rank(s) + 1
    ensures s == Listo ==> r == Listo
  {
    match s
    case Enviado => Recibido
    case Recibido => Preparando
    case Preparando => Listo
    case Listo => Listo
  }

  /** The progression never goes back, and `listo` is its only fixed point. */
  lemma NextStatusProgress(s: ItemStatus)
    ensures Rank(s) <= Rank(NextStatus(s))
    ensures NextStatus(s) == s <==> s == Listo
  {
  }

  function Advance(s: ItemStatus, steps: nat): ItemStatus {
    if steps == 0 then s else NextStatus(Advance(s, steps - 1))
  }

  /** Every status reaches `listo` after exactly 3 - rank steps, and stays there. */
  lemma {:induction false} ReachesListo(s: ItemStatus, steps: nat)
    ensures steps >= 3 - Rank(s) ==> Advance(s, steps) == Listo
    ensures steps < 3 - Rank(s) ==> Rank(Advance(s, steps)) == Rank(s) + steps
  {
    if steps > 0 {
      ReachesListo(s, steps - 1);
    }
  }

  predicate AllListo(items: seq<KitchenItem>) {
    forall i :: 0 <= i < |items| ==> items[i].status == Listo
  }

  predicate AnyStarted(items: seq<KitchenItem>) {
    exists i :: 0 <= i < |items| && items[i].status != Enviado
  }

  /** The order status the page derives from the dishes: completado when all
      are listo (so also with no dishes), else en-proceso when any has left
      enviado, else pendiente. */
  function DerivedStatus(items: seq<KitchenItem>): (r: OrderStatus)
    ensures r == Completado <==> AllListo(items)
    ensures r == EnProceso <==> !AllListo(items) && AnyStarted(items)
    ensures r == Pendiente <==> |items| > 0 && forall i :: 0 <= i < |items| ==> items[i].status == Enviado
  {
    if AllListo(items) then
      assert |items| > 0 ==> items[0].status != Enviado;
      Completado
    else if AnyStarted(items) then EnProceso
    else Pendiente
  }

  /** Dishes ahead in the kitchen never make the order look less advanced. */
  lemma DerivedStatusMonotone(items: seq<KitchenItem>, later: seq<KitchenItem>)
    requires |later| == |items|
    requires forall i :: 0 <= i < |items| ==> Rank(items[i].status) <= Rank(later[i].status)
    ensures DerivedStatus(items) == Completado ==> DerivedStatus(later) == Completado
    ensures DerivedStatus(items) == EnProceso ==> DerivedStatus(later) != Pendiente
  {
    if AnyStarted(items) {
      var i :| 0 <= i < |items| && items[i].status != Enviado;
      assert later[i].status != Enviado;
    }
  }

  /** The dish list after one dish's status change. */
  function UpdateItems(items: seq<KitchenItem>, itemId: int, newStatus: ItemStatus, now: string): (r: seq<KitchenItem>)
    ensures |r| == |items|
    ensures forall i :: 0 <= i < |items| && items[i].id != itemId ==> r[i] == items[i]
    ensures forall i :: 0 <= i < |items| && items[i].id == itemId ==>
      r[i] == items[i].(status := newStatus, updatedAt := now)
  {
    seq(|items|, i requires 0 <= i < |items| =>
      if items[i].id == itemId then items[i].(status := newStatus, updatedAt := now) else items[i])
  }

  /** `updateItemStatus`: in the order with this id, every dish with this id
      takes the new status and time stamp, and the order's status is derived
      again; every other order is left alone. */
  function UpdateItemStatus(orders: seq<KitchenOrder>, orderId: string, itemId: int, newStatus: ItemStatus, now: string): (r: seq<KitchenOrder>)
    ensures |r| == |orders|
    ensures forall i :: 0 <= i < |orders| && orders[i].id != orderId ==> r[i] == orders[i]
    ensures forall i :: 0 <= i < |orders| && orders[i].id == orderId ==>
      r[i].id == orders[i].id && r[i].customer == orders[i].customer &&
      r[i].table == orders[i].table && r[i].createdAt == orders[i].createdAt &&
      r[i].items == UpdateItems(orders[i].items, itemId, newStatus, now) &&
      r[i].status == DerivedStatus(r[i].items)
  {
    seq(|orders|, i requires 0 <= i < |orders| =>
      if orders[i].id == orderId then
        var items := UpdateItems(orders[i].items, itemId, newStatus, now);
        orders[i].(items := items, status := DerivedStatus(items))
      else orders[i])
  }

  /** An order whose status agrees with its dishes. */
  predicate Consistent(o: KitchenOrder) {
    o.status == DerivedStatus(o.items)
  }

  /** After any update, an order all of whose dishes are listo is completado,
      and consistent orders stay consistent. */
  lemma UpdateKeepsConsistency(orders: seq<KitchenOrder>, orderId: string, itemId: int, newStatus: ItemStatus, now: string)
    requires forall i :: 0 <= i < |orders| ==> Consistent(orders[i])
    ensures forall i :: 0 <= i < |orders| ==> Consistent(UpdateItemStatus(orders, orderId, itemId, newStatus, now)[i])
    ensures forall i :: 0 <= i < |orders| && AllListo(UpdateItemStatus(orders, orderId, itemId, newStatus, now)[i].items) ==>
      UpdateItemStatus(orders, orderId, itemId, newStatus, now)[i].status == Completado
  {
  }

  /** The advance button: shown for a dish that is not yet listo. */
  predicate CanAdvance(item: KitchenItem) {
    item.status != Listo
  }

  /** Pressing the advance button moves the dish exactly one step on. */
  lemma AdvanceButtonSteps(orders: seq<KitchenOrder>, k: nat, j: nat, now: string)
    requires k < |orders| && j < |orders[k].items|
    requires CanAdvance(orders[k].items[j])
    ensures var item := orders[k].items[j];
      var after := UpdateItemStatus(orders, orders[k].id, item.id, NextStatus(item.status), now);
      Rank(after[k].items[j].status) == Rank(item.status) + 1
  {
  }

  /** The "Completar Orden" button: shown for an order that is not yet
      completado although every dish is listo. */
  predicate CanComplete(o: KitchenOrder) {
    o.status != Completado && AllListo(o.items)
  }

  /** The button only appears for an order whose status disagrees with its
      dishes, so never for an order whose status the page itself derived. */
  lemma CompleteOnlyWhenInconsistent(o: KitchenOrder)
    ensures CanComplete(o) ==> !Consistent(o)
  {
  }

  /** The status tabs: "todos" shows every order, another tab the orders in
      that status, in their order. */
  datatype Tab = Todos | Only(status: OrderStatus)

  function TabOrders(orders: seq<KitchenOrder>, tab: Tab): (r: seq<KitchenOrder>)
    ensures tab == Todos ==> r == orders
    ensures forall o :: o in r <==> o in orders && (tab == Todos || o.status == tab.status)
    ensures |r| <= |orders|
  {
    FilterMembers(orders, (o: KitchenOrder) => tab == Todos || o.status == tab.status);
    Filter(orders, (o: KitchenOrder) => tab == Todos || o.status == tab.status)
  }

  /** A tab keeps the orders it shows in the board's order. */
  lemma TabOrdersKeepOrder(a: seq<KitchenOrder>, b: seq<KitchenOrder>, tab: Tab)
    ensures TabOrders(a + b, tab) == TabOrders(a, tab) + TabOrders(b, tab)
  {
    FilterAppend(a, b, (o: KitchenOrder) => tab == Todos || o.status == tab.status);
  }
}
