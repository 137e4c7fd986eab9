/** The "customize dish" dialog: one in-progress customization record, the
    edits the dialog offers on it, and its live price. Every edit is a state
    updater from the old record to a new one. */
module CustomizeDish {
  import opened Catalog
  import opened Seqs

  /** `PersonalizacionPlatillo`: excluded ingredient ids, chosen preparation
      id, chosen add-on ids, quantity and the free-text note. */
  datatype Customization = Customization(
    excluded: seq<string>,
    preparation: string,
    addOns: seq<string>,
    quantity: int,
    note: string)

  predicate NoDuplicates(ids: seq<string>) {
    forall i, j :: 0 <= i < j < |ids| ==> ids[i] != ids[j]
  }

  /** What every record the dialog produces satisfies. */
  predicate Valid(c: Customization) {
    c.quantity >= 1 && NoDuplicates(c.excluded) && NoDuplicates(c.addOns)
  }

  /** The record the dialog opens with: nothing excluded, nothing added, one
      portion, no note, and the first preparation offered (or "" when the
      dish has none). */
  function Start(preparations: seq<Preparation>): (c: Customization)
    ensures c.excluded == [] && c.addOns == [] && c.quantity == 1 && c.note == ""
    ensures |preparations| > 0 ==> c.preparation == preparations[0].id
    ensures |preparations| == 0 ==> c.preparation == ""
    ensures Valid(c)
  {
    Customization([], if |preparations| > 0 then preparations[0].id else "", [], 1, "")
  }

  /** Flips membership of `id`: a present id is filtered out, an absent one
      is appended at the end. */
  function Toggle(ids: seq<string>, id: string): (r: seq<string>)
    ensures id in r <==> id !in ids
    ensures forall x :: x != id ==> (x in r <==> x in ids)
    ensures id !in ids ==> r == ids + [id]
    ensures NoDuplicates(ids) ==> NoDuplicates(r)
  {
    if id in ids then
      var r := Filter(ids, x => x != id);
      FilterMembers(ids, x => x != id);
      assert NoDuplicates(ids) ==> NoDuplicates(r) by {
        if NoDuplicates(ids) {
          FilterKeepsPairwise(ids, x => x != id, (a: string, b: string) => a != b);
        }
      }
      r
    else ids + [id]
  }

  /** Unchecking an id removes it and keeps the other ids in their order. */
  lemma ToggleKeepsOrder(a: seq<string>, b: seq<string>, id: string)
    requires id in a + b
    ensures Toggle(a + b, id) == Filter(a, x => x != id) + Filter(b, x => x != id)
  {
    FilterAppend(a, b, x => x != id);
  }

  /** Toggling an absent id twice gives back exactly the list it started from. */
  lemma ToggleTwiceAbsent(ids: seq<string>, id: string)
    requires id !in ids
    ensures Toggle(Toggle(ids, id), id) == ids
  {
    FilterAppend(ids, [id], x => x != id);
  }

  /** Toggling any id twice restores every membership. */
  lemma ToggleTwiceMembers(ids: seq<string>, id: string)
    ensures forall x :: x in Toggle(Toggle(ids, id), id) <==> x in ids
  {
  }

  /** `toggleExcluirIngrediente`. */
  function ToggleExcludedIngredient(c: Customization, id: string): (r: Customization)
    ensures id in r.excluded <==> id !in c.excluded
    ensures forall x :: x != id ==> (x in r.excluded <==> x in c.excluded)
    ensures r.preparation == c.preparation && r.addOns == c.addOns
    ensures r.quantity == c.quantity && r.note == c.note
    ensures Valid(c) ==> Valid(r)
  {
    c.(excluded := Toggle(c.excluded, id))
  }

  /** `toggleAdicional`. */
  function ToggleAddOn(c: Customization, id: string): (r: Customization)
    ensures id in r.addOns <==> id !in c.addOns
    ensures forall x :: x != id ==> (x in r.addOns <==> x in c.addOns)
    ensures r.excluded == c.excluded && r.preparation == c.preparation
    ensures r.quantity == c.quantity && r.note == c.note
    ensures Valid(c) ==> Valid(r)
  {
    c.(addOns := Toggle(c.addOns, id))
  }

  /** `handleCantidadChange`: the quantity moves by `delta` but never below 1. */
  function ChangeQuantity(c: Customization, delta: int): (r: Customization)
    ensures r.quantity >= 1
    ensures c.quantity + delta >= 1 ==> r.quantity == c.quantity + delta
    ensures c.quantity + delta < 1 ==> r.quantity == 1
    ensures r.excluded == c.excluded && r.preparation == c.preparation
    ensures r.addOns == c.addOns && r.note == c.note
    ensures Valid(c) ==> Valid(r)
  {
    c.(quantity := if 1 < c.quantity + delta then c.quantity + delta else 1)
  }

  /** The preparation radio group's change handler. The group only offers
      the dish's own preparations; the handler itself checks nothing. */
  function SetPreparation(c: Customization, preparation: string): (r: Customization)
    ensures r.preparation == preparation
    ensures r.excluded == c.excluded && r.addOns == c.addOns
    ensures r.quantity == c.quantity && r.note == c.note
    ensures Valid(c) ==> Valid(r)
  {
    c.(preparation := preparation)
  }

  /** The note text area's change handler: the text is taken verbatim. */
  function SetNote(c: Customization, note: string): (r: Customization)
    ensures r.note == note
    ensures r.excluded == c.excluded && r.addOns == c.addOns
    ensures r.quantity == c.quantity && r.preparation == c.preparation
    ensures Valid(c) ==> Valid(r)
  {
    c.(note := note)
  }

  /** The decrement control is disabled while the quantity is at most 1. */
  predicate DecrementEnabled(c: Customization): (r: bool)
    ensures r <==> ChangeQuantity(c, -1).quantity == c.quantity - 1
  {
    !(c.quantity <= 1)
  }

  /** An enabled decrement is never clamped, and on a valid record a
      disabled one means the quantity is exactly 1. */
  lemma DecrementControl(c: Customization)
    requires Valid(c)
    ensures !DecrementEnabled(c) <==> c.quantity == 1
  {
  }

  /** The live price: the dish price times the quantity, plus each offered
      add-on's price times the quantity when its id is selected. */
  function Total(price: int, offered: seq<AddOn>, c: Customization): int {
    (price + AddOnSum(offered, c.addOns)) * c.quantity
  }

  /** `calcularPrecioTotal`, which accumulates over the offered add-ons. */
  method ComputeTotal(price: int, offered: seq<AddOn>, c: Customization) returns (total: int)
    ensures total == Total(price, offered, c)
  {
    total := price * c.quantity;
    var i := 0;
    while i < |offered|
      invariant 0 <= i <= |offered|
      invariant total == price * c.quantity + AddOnSum(offered[..i], c.addOns) * c.quantity
    {
      assert offered[..i + 1][..i] == offered[..i];
      if offered[i].id in c.addOns {
        total := total + offered[i].price * c.quantity;
      }
      i := i + 1;
    }
    assert offered[..i] == offered;
  }

  /** Excluded ingredients, the preparation and the note never change the price. */
  lemma TotalIgnoresNonPriceFields(price: int, offered: seq<AddOn>, c: Customization, id: string, preparation: string, note: string)
    ensures Total(price, offered, ToggleExcludedIngredient(c, id)) == Total(price, offered, c)
    ensures Total(price, offered, SetPreparation(c, preparation)) == Total(price, offered, c)
    ensures Total(price, offered, SetNote(c, note)) == Total(price, offered, c)
  {
  }

  lemma MulMonotone(a: int, b: int, q: int)
    requires a <= b && q >= 0
    ensures a * q <= b * q
  {
  }

  /** Selecting an add-on that was not selected never lowers the price. */
  lemma SelectingAddOnNeverLowersTotal(price: int, offered: seq<AddOn>, c: Customization, id: string)
    requires NonNegativePrices(offered) && c.quantity >= 0 && id !in c.addOns
    ensures Total(price, offered, c) <= Total(price, offered, ToggleAddOn(c, id))
  {
    var r := ToggleAddOn(c, id);
    AddOnSumMonotone(offered, c.addOns, r.addOns);
    MulMonotone(price + AddOnSum(offered, c.addOns), price + AddOnSum(offered, r.addOns), c.quantity);
  }

  /** Raising the quantity never lowers the price when the dish price and
      the add-on prices are non-negative. */
  lemma RaisingQuantityNeverLowersTotal(price: int, offered: seq<AddOn>, c: Customization, delta: nat)
    requires price >= 0 && NonNegativePrices(offered)
    ensures Total(price, offered, c) <= Total(price, offered, ChangeQuantity(c, delta))
  {
    AddOnSumNonNegative(offered, c.addOns);
    var unit := price + AddOnSum(offered, c.addOns);
    var r := ChangeQuantity(c, delta);
    assert unit * c.quantity <= unit * r.quantity by {
      assert unit * r.quantity - unit * c.quantity == unit * (r.quantity - c.quantity);
      MulMonotone(0, unit, r.quantity - c.quantity);
    }
  }

  /** The burger with bacon and guacamole, quantity untouched, costs 155. */
  lemma BurgerWithBaconAndGuacamole()
    ensures Total(120, AddOnsFor(Seeded, 1),
                  ChangeQuantity(ToggleAddOn(ToggleAddOn(Start(PreparationsFor(Seeded, 1)), "ad-1"), "ad-3"), 0)) == 155
  {
    var offered := AddOnsFor(Seeded, 1);
    var c := ChangeQuantity(ToggleAddOn(ToggleAddOn(Start(PreparationsFor(Seeded, 1)), "ad-1"), "ad-3"), 0);
    assert c.addOns == ["ad-1", "ad-3"] && c.quantity == 1;
    assert offered[..2][..1] == offered[..1];
    assert offered[..1][..0] == [];
    assert offered[..|offered| - 1] == offered[..2];
    assert AddOnSum(offered[..1], c.addOns) == 15;
    assert AddOnSum(offered[..2], c.addOns) == 15;
    assert AddOnSum(offered, c.addOns) == 35;
  }
}
