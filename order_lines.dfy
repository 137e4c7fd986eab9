/** An order line and the operations the customer menu page and the cart page
    both carry, written once: removing lines by id, counting items, and the
    running total. */
module OrderLines {
  import opened Wrappers
  import opened Seqs
  import opened Catalog
  import opened CustomizeDish

  /** `OrderItem`: the dish, how many, the customization (absent for a plain
      purchase) and the line id. */
  datatype OrderLine = OrderLine(dish: MenuItem, quantity: int, customization: Option<Customization>, lineId: string)

  /** A line for dish `dishId` bought without customization. */
  predicate IsPlainFor(line: OrderLine, dishId: nat) {
    line.dish.id == dishId && line.customization.None?
  }

  predicate QuantitiesPositive(lines: seq<OrderLine>) {
    forall i :: 0 <= i < |lines| ==> lines[i].quantity >= 1
  }

  /** `removeFromOrder` / `removeItem`: drop every line with this id. */
  function RemoveLine(lines: seq<OrderLine>, lineId: string): (r: seq<OrderLine>)
    ensures forall l :: l in r <==> l in lines && l.lineId != lineId
    ensures (forall i :: 0 <= i < |lines| ==> lines[i].lineId != lineId) ==> r == lines
    ensures forall i :: 0 <= i < |r| ==> r[i].lineId != lineId
    ensures QuantitiesPositive(lines) ==> QuantitiesPositive(r)
  {
    FilterMembers(lines, (l: OrderLine) => l.lineId != lineId);
    Filter(lines, (l: OrderLine) => l.lineId != lineId)
  }

  /** Removal keeps the surviving lines in their order: removing from two
      halves and joining is removing from the whole. */
  lemma RemoveLineKeepsOrder(a: seq<OrderLine>, b: seq<OrderLine>, lineId: string)
    ensures RemoveLine(a + b, lineId) == RemoveLine(a, lineId) + RemoveLine(b, lineId)
  {
    FilterAppend(a, b, (l: OrderLine) => l.lineId != lineId);
  }

  /** `getTotalItems`: the sum of the line quantities. */
  function ItemCount(lines: seq<OrderLine>): (n: int)
    ensures QuantitiesPositive(lines) ==> n >= |lines|
  {
    if lines == [] then 0
    else ItemCount(lines[..|lines| - 1]) + lines[|lines| - 1].quantity
  }

  lemma {:induction false} ItemCountAppend(a: seq<OrderLine>, b: seq<OrderLine>)
    ensures ItemCount(a + b) == ItemCount(a) + ItemCount(b)
  {
    if b == [] {
      assert a + b == a;
    } else {
      ItemCountAppend(a, b[..|b| - 1]);
      assert (a + b)[..|a + b| - 1] == a + b[..|b| - 1];
    }
  }

  /** The add-on ids a line carries; a plain line carries none. */
  function SelectedAddOns(line: OrderLine): seq<string> {
    if line.customization.Some? then line.customization.value.addOns else []
  }

  /** The price of one line: the dish price plus the catalog price of every
      add-on the line selects, times the quantity. */
  function LineTotal(t: Tables, line: OrderLine): int {
    (line.dish.price + AddOnSum(AddOnsFor(t, line.dish.id), SelectedAddOns(line))) * line.quantity
  }

  /** The order's subtotal: the sum of the line prices. */
  function Subtotal(t: Tables, lines: seq<OrderLine>): int {
    if lines == [] then 0
    else Subtotal(t, lines[..|lines| - 1]) + LineTotal(t, lines[|lines| - 1])
  }

  lemma {:induction false} SubtotalAppend(t: Tables, a: seq<OrderLine>, b: seq<OrderLine>)
    ensures Subtotal(t, a + b) == Subtotal(t, a) + Subtotal(t, b)
  {
    if b == [] {
      assert a + b == a;
    } else {
      SubtotalAppend(t, a, b[..|b| - 1]);
      assert (a + b)[..|a + b| - 1] == a + b[..|b| - 1];
    }
  }

  /** A plain line costs the dish price times the quantity. */
  lemma PlainLineTotal(t: Tables, line: OrderLine)
    requires line.customization.None?
    ensures LineTotal(t, line) == line.dish.price * line.quantity
  {
    AddOnSumNothingSelected(AddOnsFor(t, line.dish.id));
  }

  /** The body of `getTotalPrice`'s reduce step: the dish price times the
      quantity, plus each catalog add-on the line selects times the quantity. */
  method ItemPrice(t: Tables, line: OrderLine) returns (itemPrice: int)
    ensures itemPrice == LineTotal(t, line)
  {
    itemPrice := line.dish.price * line.quantity;
    var offered := AddOnsFor(t, line.dish.id);
    if line.customization.Some? && |line.customization.value.addOns| > 0 {
      var selected := line.customization.value.addOns;
      var i := 0;
      while i < |offered|
        invariant 0 <= i <= |offered|
        invariant itemPrice == line.dish.price * line.quantity + AddOnSum(offered[..i], selected) * line.quantity
      {
        assert offered[..i + 1][..i] == offered[..i];
        if offered[i].id in selected {
          itemPrice := itemPrice + offered[i].price * line.quantity;
        }
        i := i + 1;
      }
      assert offered[..i] == offered;
    } else {
      assert SelectedAddOns(line) == [];
      AddOnSumNothingSelected(offered);
    }
  }

  /** `getTotalPrice`: the sum of the line prices. */
  method TotalPrice(t: Tables, lines: seq<OrderLine>) returns (total: int)
    ensures total == Subtotal(t, lines)
  {
    total := 0;
    var k := 0;
    while k < |lines|
      invariant 0 <= k <= |lines|
      invariant total == Subtotal(t, lines[..k])
    {
      var itemPrice := ItemPrice(t, lines[k]);
      assert lines[..k + 1][..k] == lines[..k];
      total := total + itemPrice;
      k := k + 1;
    }
    assert lines[..k] == lines;
  }
}
