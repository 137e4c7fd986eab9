/** The cart page: changing a line's quantity, removing a line, the price of
    each line, and the subtotal, tax and total shown in the summary. */
module Cart {
  import opened Wrappers
  import opened Catalog
  import opened CustomizeDish
  import opened OrderLines

  /** One line under `updateQuantity`: a line with this id moves by
      `delta` but never below 1; any other line is left as it is. */
  function AdjustLine(line: OrderLine, lineId: string, delta: int): (r: OrderLine)
    ensures line.lineId != lineId ==> r == line
    ensures line.lineId == lineId ==>
      r == line.(quantity := r.quantity) && r.quantity >= 1 &&
      (line.quantity + delta >= 1 ==> r.quantity == line.quantity + delta) &&
      (line.quantity + delta < 1 ==> r.quantity == 1)
  {
    if line.lineId == lineId
    then line.(quantity := if 1 < line.quantity + delta then line.quantity + delta else 1)
    else line
  }

  /** `updateQuantity`: each line is adjusted in place; lines keep their
      places, and an unknown id changes nothing. */
  function UpdateQuantity(lines: seq<OrderLine>, lineId: string, delta: int): (r: seq<OrderLine>)
    ensures |r| == |lines|
    ensures forall i :: 0 <= i < |lines| ==> r[i] == AdjustLine(lines[i], lineId, delta)
    ensures (forall i :: 0 <= i < |lines| ==> lines[i].lineId != lineId) ==> r == lines
    ensures QuantitiesPositive(lines) ==> QuantitiesPositive(r)
  {
    if lines == [] then []
    else UpdateQuantity(lines[..|lines| - 1], lineId, delta) + [AdjustLine(lines[|lines| - 1], lineId, delta)]
  }

  /** Pressing plus and then minus on a line gives back the cart it started from. */
  lemma PlusThenMinusRestores(lines: seq<OrderLine>, lineId: string)
    requires QuantitiesPositive(lines)
    ensures UpdateQuantity(UpdateQuantity(lines, lineId, 1), lineId, -1) == lines
  {
    var r := UpdateQuantity(UpdateQuantity(lines, lineId, 1), lineId, -1);
    assert forall i :: 0 <= i < |lines| ==> r[i] == lines[i];
  }

  /** Minus on a line at quantity 1 leaves the cart as it is. */
  lemma MinusAtOneIsNoOp(lines: seq<OrderLine>, lineId: string)
    requires forall i :: 0 <= i < |lines| && lines[i].lineId == lineId ==> lines[i].quantity == 1
    ensures UpdateQuantity(lines, lineId, -1) == lines
  {
    var r := UpdateQuantity(lines, lineId, -1);
    assert forall i :: 0 <= i < |lines| ==> r[i] == lines[i];
  }

  /** Changing one line's quantity moves the item count by exactly the
      change in that line's quantity. */
  lemma {:induction false} UpdateQuantityItemCount(lines: seq<OrderLine>, k: nat, delta: int)
    requires k < |lines|
    requires forall i :: 0 <= i < |lines| && i != k ==> lines[i].lineId != lines[k].lineId
    ensures ItemCount(UpdateQuantity(lines, lines[k].lineId, delta)) ==
      ItemCount(lines) - lines[k].quantity + UpdateQuantity(lines, lines[k].lineId, delta)[k].quantity
  {
    var n := |lines|;
    var id := lines[k].lineId;
    var r := UpdateQuantity(lines, id, delta);
    var init := lines[..n - 1];
    var rInit := UpdateQuantity(init, id, delta);
    assert r[..n - 1] == rInit;
    assert ItemCount(r) == ItemCount(rInit) + r[n - 1].quantity;
    if k < n - 1 {
      UpdateQuantityItemCount(init, k, delta);
      assert r[n - 1] == lines[n - 1];
    } else {
      assert rInit == init;
    }
  }

  /** `calcularPrecioItem`: the dish price plus each catalog add-on the line
      selects, times the quantity. */
  method LinePrice(t: Tables, line: OrderLine) returns (price: int)
    ensures price == LineTotal(t, line)
  {
    var unit := line.dish.price;
    var offered := AddOnsFor(t, line.dish.id);
    if line.customization.Some? && |line.customization.value.addOns| > 0 {
      var selected := line.customization.value.addOns;
      var i := 0;
      while i < |offered|
        invariant 0 <= i <= |offered|
        invariant unit == line.dish.price + AddOnSum(offered[..i], selected)
      {
        assert offered[..i + 1][..i] == offered[..i];
        if offered[i].id in selected {
          unit := unit + offered[i].price;
        }
        i := i + 1;
      }
      assert offered[..i] == offered;
    } else {
      assert SelectedAddOns(line) == [];
      AddOnSumNothingSelected(offered);
    }
    price := unit * line.quantity;
  }

  /** The 16% tax line of the summary. */
  function Tax(subtotal: int): (r: real)
    ensures subtotal >= 0 ==> 0.0 <= r <= subtotal as real
  {
    subtotal as real * 0.16
  }

  /** The total line of the summary, computed as subtotal times 1.16. */
  function GrandTotal(subtotal: int): (r: real)
    ensures r == subtotal as real + Tax(subtotal)
  {
    subtotal as real * 1.16
  }

  /** The cart the page loads. */
  const SeededCart: seq<OrderLine> := [
    OrderLine(
      MenuItem(1, "Hamburguesa Clásica", "Carne de res, lechuga, tomate, cebolla y queso", 120, "platos-principales"),
      1,
      Some(Customization(["1-3", "1-5"], "prep-3", ["ad-1", "ad-3"], 1, "Pan sin semillas por favor")),
      "1-custom-1"),
    OrderLine(
      MenuItem(2, "Pizza Margarita", "Salsa de tomate, mozzarella y albahaca", 150, "platos-principales"),
      2, None, "2"),
    OrderLine(
      MenuItem(4, "Papas Fritas", "Papas fritas crujientes con sal", 50, "acompañamientos"),
      1, None, "4")
  ]

  /** The loaded cart's lines cost 155, 300 and 50: 4 items, subtotal 505,
      tax 80.80 and total 585.80. */
  lemma SeededCartSummary()
    ensures LineTotal(Seeded, SeededCart[0]) == 155
    ensures LineTotal(Seeded, SeededCart[1]) == 300
    ensures LineTotal(Seeded, SeededCart[2]) == 50
    ensures Subtotal(Seeded, SeededCart) == 505
    ensures ItemCount(SeededCart) == 4
    ensures Tax(505) == 80.8 && GrandTotal(505) == 585.8
  {
    var burger := AddOnsFor(Seeded, 1);
    var selected := ["ad-1", "ad-3"];
    assert burger[..2][..1] == burger[..1];
    assert burger[..1][..0] == [];
    assert burger[..|burger| - 1] == burger[..2];
    assert AddOnSum(burger[..1], selected) == 15;
    assert AddOnSum(burger[..2], selected) == 15;
    assert AddOnSum(burger, selected) == 35;
    PlainLineTotal(Seeded, SeededCart[1]);
    PlainLineTotal(Seeded, SeededCart[2]);
    assert SeededCart[..2][..1] == SeededCart[..1];
    assert SeededCart[..1][..0] == [];
    assert SeededCart[..|SeededCart| - 1] == SeededCart[..2];
    assert Subtotal(Seeded, SeededCart[..1]) == 155;
    assert Subtotal(Seeded, SeededCart[..2]) == 455;
    assert ItemCount(SeededCart[..1]) == 1;
    assert ItemCount(SeededCart[..2]) == 3;
  }
}
