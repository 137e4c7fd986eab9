/** The customer menu page: adding dishes to the order (a plain add merges
    into the dish's uncustomized line, a customized add always appends), the
    per-dish quantity badge, the card's remove button and the send guard. */
module ClientMenu {
  import opened Wrappers
  import opened Strings
  import opened Catalog
  import opened CustomizeDish
  import opened OrderLines
  import opened Seqs

  /** A plain line's id: the dish id as a decimal string. */
  function PlainLineId(dishId: nat): (r: string)
    ensures !Contains(r, "-")
  {
    NoDashInDigits(NatToString(dishId));
    NatToString(dishId)
  }

  /** A customized line's id: the dish id, a dash and the clock reading
      taken when the line is added. */
  function CustomLineId(dishId: nat, now: nat): (r: string)
    ensures PlainLineId(dishId) <= r
    ensures Contains(r, "-")
  {
    ContainsOccurrence(NatToString(dishId), "-", NatToString(now));
    NatToString(dishId) + "-" + NatToString(now)
  }

  /** Two dishes never share a plain line id. */
  lemma PlainLineIdInjective(d: nat, e: nat)
    ensures PlainLineId(d) == PlainLineId(e) ==> d == e
  {
    NatToStringInjective(d, e);
  }

  /** Plain ids and customized ids never collide: only the latter carry a dash. */
  lemma LineIdsDistinct(d: nat, e: nat, now: nat)
    ensures PlainLineId(d) != CustomLineId(e, now)
  {
  }

  predicate HasPlainLine(lines: seq<OrderLine>, dishId: nat) {
    exists i :: 0 <= i < |lines| && IsPlainFor(lines[i], dishId)
  }

  /** No two uncustomized lines are for the same dish. */
  predicate AtMostOnePlainPerDish(lines: seq<OrderLine>) {
    forall i, j :: 0 <= i < j < |lines| && lines[i].customization.None? && lines[j].customization.None? ==>
      lines[i].dish.id != lines[j].dish.id
  }

  /** Every line id has the shape the page gives it. */
  predicate WellFormedIds(lines: seq<OrderLine>) {
    forall i :: 0 <= i < |lines| ==>
      if lines[i].customization.None? then lines[i].lineId == PlainLineId(lines[i].dish.id)
      else Contains(lines[i].lineId, "-")
  }

  /** What every order the page builds satisfies. */
  predicate ValidOrder(lines: seq<OrderLine>) {
    QuantitiesPositive(lines) && AtMostOnePlainPerDish(lines) && WellFormedIds(lines)
  }

  function BumpPlain(line: OrderLine, dishId: nat): OrderLine {
    if IsPlainFor(line, dishId) then line.(quantity := line.quantity + 1) else line
  }

  /** The merge: every uncustomized line for the dish gains one unit. */
  function IncrementPlain(lines: seq<OrderLine>, dishId: nat): (r: seq<OrderLine>)
    ensures |r| == |lines|
    ensures forall i :: 0 <= i < |lines| ==> r[i] == BumpPlain(lines[i], dishId)
  {
    if lines == [] then []
    else IncrementPlain(lines[..|lines| - 1], dishId) + [BumpPlain(lines[|lines| - 1], dishId)]
  }

  /** `addItemToOrder`. Without options: merge into the dish's
      uncustomized line when there is one, else append a one-unit plain line.
      With options: always append a new line carrying them. */
  function AddItemToOrder(lines: seq<OrderLine>, dish: MenuItem, options: Option<Customization>, now: nat): (r: seq<OrderLine>)
    ensures options.Some? ==>
      r == lines + [OrderLine(dish, options.value.quantity, options, CustomLineId(dish.id, now))]
    ensures options.None? && !HasPlainLine(lines, dish.id) ==>
      r == lines + [OrderLine(dish, 1, None, PlainLineId(dish.id))]
    ensures options.None? && HasPlainLine(lines, dish.id) ==>
      |r| == |lines| &&
      (forall i :: 0 <= i < |lines| && !IsPlainFor(lines[i], dish.id) ==> r[i] == lines[i]) &&
      (forall i :: 0 <= i < |lines| && IsPlainFor(lines[i], dish.id) ==>
         r[i] == lines[i].(quantity := lines[i].quantity + 1))
  {
    if options.None? then
      if HasPlainLine(lines, dish.id) then IncrementPlain(lines, dish.id)
      else lines + [OrderLine(dish, 1, None, PlainLineId(dish.id))]
    else
      lines + [OrderLine(dish, options.value.quantity, options, CustomLineId(dish.id, now))]
  }

  /** `getItemQuantity`: the units of the dish bought without customization. */
  function PlainQuantity(lines: seq<OrderLine>, dishId: nat): int {
    if lines == [] then 0
    else
      var last := lines[|lines| - 1];
      PlainQuantity(lines[..|lines| - 1], dishId) + (if IsPlainFor(last, dishId) then last.quantity else 0)
  }

  /** The badge is never negative and never exceeds the order's item count. */
  lemma {:induction false} PlainQuantityBounds(lines: seq<OrderLine>, dishId: nat)
    requires QuantitiesPositive(lines)
    ensures 0 <= PlainQuantity(lines, dishId) <= ItemCount(lines)
  {
    if lines != [] {
      var init := lines[..|lines| - 1];
      assert QuantitiesPositive(init) by {
        forall i | 0 <= i < |init| ensures init[i].quantity >= 1 {
          assert init[i] == lines[i];
        }
      }
      PlainQuantityBounds(init, dishId);
    }
  }

  lemma {:induction false} PlainQuantityNone(lines: seq<OrderLine>, dishId: nat)
    requires !HasPlainLine(lines, dishId)
    ensures PlainQuantity(lines, dishId) == 0
  {
    if lines != [] {
      var init := lines[..|lines| - 1];
      assert !HasPlainLine(init, dishId) by {
        forall i | 0 <= i < |init| ensures !IsPlainFor(init[i], dishId) {
          assert init[i] == lines[i];
        }
      }
      PlainQuantityNone(init, dishId);
    }
  }

  /** Appending a line changes the badge of its dish only, and only when the
      line is plain. */
  lemma PlainQuantitySnoc(lines: seq<OrderLine>, line: OrderLine, dishId: nat)
    ensures PlainQuantity(lines + [line], dishId) ==
      PlainQuantity(lines, dishId) + (if IsPlainFor(line, dishId) then line.quantity else 0)
  {
    assert (lines + [line])[..|lines|] == lines;
  }

  /** How the plain lines of an order split between its prefix and its last line. */
  lemma PlainSplit(lines: seq<OrderLine>, d: nat)
    requires |lines| > 0 && AtMostOnePlainPerDish(lines)
    ensures AtMostOnePlainPerDish(lines[..|lines| - 1])
    ensures HasPlainLine(lines, d) <==> HasPlainLine(lines[..|lines| - 1], d) || IsPlainFor(lines[|lines| - 1], d)
    ensures IsPlainFor(lines[|lines| - 1], d) ==> !HasPlainLine(lines[..|lines| - 1], d)
  {
    var n := |lines|;
    var init := lines[..n - 1];
    forall i, j | 0 <= i < j < |init| && init[i].customization.None? && init[j].customization.None?
      ensures init[i].dish.id != init[j].dish.id
    {
      assert init[i] == lines[i] && init[j] == lines[j];
    }
    if HasPlainLine(init, d) {
      var i :| 0 <= i < |init| && IsPlainFor(init[i], d);
      assert IsPlainFor(lines[i], d);
    }
    if HasPlainLine(lines, d) && !IsPlainFor(lines[n - 1], d) {
      var i :| 0 <= i < n && IsPlainFor(lines[i], d);
      assert IsPlainFor(init[i], d);
    }
  }

  /** The merge raises the badge of the merged dish by one for a dish with a
      single plain line, and leaves every other dish's badge alone. */
  lemma {:induction false} IncrementPlainQuantity(lines: seq<OrderLine>, d: nat, e: nat)
    requires AtMostOnePlainPerDish(lines)
    ensures PlainQuantity(IncrementPlain(lines, d), e) ==
      PlainQuantity(lines, e) + (if e == d && HasPlainLine(lines, d) then 1 else 0)
  {
    if lines != [] {
      var n := |lines|;
      var init := lines[..n - 1];
      var r := IncrementPlain(lines, d);
      PlainSplit(lines, d);
      assert r[..n - 1] == IncrementPlain(init, d);
      IncrementPlainQuantity(init, d, e);
      assert PlainQuantity(r, e) == PlainQuantity(r[..n - 1], e) + (if IsPlainFor(r[n - 1], e) then r[n - 1].quantity else 0);
      assert r[n - 1] == BumpPlain(lines[n - 1], d);
    }
  }


  /** The merge adds exactly one unit to the whole order when the dish has
      a single plain line. */
  lemma {:induction false} IncrementPlainItemCount(lines: seq<OrderLine>, d: nat)
    requires AtMostOnePlainPerDish(lines)
    ensures ItemCount(IncrementPlain(lines, d)) == ItemCount(lines) + (if HasPlainLine(lines, d) then 1 else 0)
  {
    if lines != [] {
      var n := |lines|;
      var init := lines[..n - 1];
      var r := IncrementPlain(lines, d);
      PlainSplit(lines, d);
      assert r[..n - 1] == IncrementPlain(init, d);
      IncrementPlainItemCount(init, d);
      assert ItemCount(r) == ItemCount(r[..n - 1]) + r[n - 1].quantity;
      assert r[n - 1] == BumpPlain(lines[n - 1], d);
    }
  }


  /** A plain add keeps at most one plain line per dish. */
  lemma PlainAddKeepsOnePlain(lines: seq<OrderLine>, dish: MenuItem, now: nat)
    requires AtMostOnePlainPerDish(lines)
    ensures AtMostOnePlainPerDish(AddItemToOrder(lines, dish, None, now))
  {
    var r := AddItemToOrder(lines, dish, None, now);
    if !HasPlainLine(lines, dish.id) {
      forall i, j | 0 <= i < j < |r| && r[i].customization.None? && r[j].customization.None?
        ensures r[i].dish.id != r[j].dish.id
      {
        if j == |lines| {
          assert r[i] == lines[i] && !IsPlainFor(lines[i], dish.id);
        }
      }
    }
  }

  /** A plain add keeps the order valid. */
  lemma PlainAddKeepsValid(lines: seq<OrderLine>, dish: MenuItem, now: nat)
    requires ValidOrder(lines)
    ensures ValidOrder(AddItemToOrder(lines, dish, None, now))
  {
    PlainAddKeepsOnePlain(lines, dish, now);
  }

  /** A plain add raises the added dish's badge by one, leaves every other
      dish's badge alone, and adds one unit to the order. */
  lemma PlainAdd(lines: seq<OrderLine>, dish: MenuItem, now: nat, e: nat)
    requires AtMostOnePlainPerDish(lines)
    ensures PlainQuantity(AddItemToOrder(lines, dish, None, now), e) ==
      PlainQuantity(lines, e) + (if e == dish.id then 1 else 0)
    ensures ItemCount(AddItemToOrder(lines, dish, None, now)) == ItemCount(lines) + 1
  {
    if HasPlainLine(lines, dish.id) {
      IncrementPlainQuantity(lines, dish.id, e);
      IncrementPlainItemCount(lines, dish.id);
    } else {
      var line := OrderLine(dish, 1, None, PlainLineId(dish.id));
      PlainQuantitySnoc(lines, line, e);
      ItemCountAppend(lines, [line]);
    }
  }

  /** Appending a customized line with a positive quantity and a dashed id
      keeps an order valid. */
  lemma CustomAppendKeepsValid(lines: seq<OrderLine>, line: OrderLine)
    requires ValidOrder(lines)
    requires line.customization.Some? && line.quantity >= 1 && Contains(line.lineId, "-")
    ensures ValidOrder(lines + [line])
  {
    var r := lines + [line];
    assert forall i :: 0 <= i < |lines| ==> r[i] == lines[i];
    assert r[|lines|] == line;
  }

  /** A customized add appends one line: it never merges, every existing line
      is kept, no plain badge moves, and the order stays valid when the
      customization is. */
  lemma CustomizedAdd(lines: seq<OrderLine>, dish: MenuItem, c: Customization, now: nat, e: nat)
    requires ValidOrder(lines) && Valid(c)
    ensures |AddItemToOrder(lines, dish, Some(c), now)| == |lines| + 1
    ensures AddItemToOrder(lines, dish, Some(c), now)[..|lines|] == lines
    ensures ValidOrder(AddItemToOrder(lines, dish, Some(c), now))
    ensures PlainQuantity(AddItemToOrder(lines, dish, Some(c), now), e) == PlainQuantity(lines, e)
    ensures ItemCount(AddItemToOrder(lines, dish, Some(c), now)) == ItemCount(lines) + c.quantity
    ensures forall i :: 0 <= i < |lines| && lines[i].customization.None? ==>
      lines[i].lineId != AddItemToOrder(lines, dish, Some(c), now)[|lines|].lineId
  {
    var line := OrderLine(dish, c.quantity, Some(c), CustomLineId(dish.id, now));
    assert AddItemToOrder(lines, dish, Some(c), now) == lines + [line];
    assert (lines + [line])[..|lines|] == lines;
    CustomAppendKeepsValid(lines, line);
    PlainQuantitySnoc(lines, line, e);
    ItemCountAppend(lines, [line]);
    forall i | 0 <= i < |lines| && lines[i].customization.None?
      ensures lines[i].lineId != line.lineId
    {
      assert lines[i].lineId == PlainLineId(lines[i].dish.id);
    }
  }

  /** `n` plain adds of one dish, one after the other. */
  function AddPlainTimes(lines: seq<OrderLine>, dish: MenuItem, n: nat, now: nat): seq<OrderLine>
    decreases n
  {
    if n == 0 then lines else AddPlainTimes(AddItemToOrder(lines, dish, None, now), dish, n - 1, now)
  }

  /** A run of plain adds is one add followed by the rest of the run. */
  lemma AddPlainTimesStep(lines: seq<OrderLine>, dish: MenuItem, n: nat, now: nat)
    requires n > 0
    ensures AddPlainTimes(lines, dish, n, now) == AddPlainTimes(AddItemToOrder(lines, dish, None, now), dish, n - 1, now)
  {
  }

  /** Any run of plain adds keeps the order valid. */
  lemma {:induction false} RepeatedPlainAddsValid(lines: seq<OrderLine>, dish: MenuItem, n: nat, now: nat)
    requires ValidOrder(lines)
    ensures ValidOrder(AddPlainTimes(lines, dish, n, now))
    decreases n
  {
    if n > 0 {
      PlainAddKeepsValid(lines, dish, now);
      RepeatedPlainAddsValid(AddItemToOrder(lines, dish, None, now), dish, n - 1, now);
    }
  }

  /** `n` plain adds raise the dish's badge by exactly `n`, and keep at most
      one plain line per dish. */
  lemma {:induction false} RepeatedPlainAdds(lines: seq<OrderLine>, dish: MenuItem, n: nat, now: nat)
    requires AtMostOnePlainPerDish(lines)
    ensures AtMostOnePlainPerDish(AddPlainTimes(lines, dish, n, now))
    ensures PlainQuantity(AddPlainTimes(lines, dish, n, now), dish.id) == PlainQuantity(lines, dish.id) + n
    decreases n
  {
    if n > 0 {
      var next := AddItemToOrder(lines, dish, None, now);
      assert PlainQuantity(next, dish.id) == PlainQuantity(lines, dish.id) + 1 by {
        PlainAdd(lines, dish, now, dish.id);
      }
      assert AtMostOnePlainPerDish(next) by {
        PlainAddKeepsOnePlain(lines, dish, now);
      }
      RepeatedPlainAdds(next, dish, n - 1, now);
      AddPlainTimesStep(lines, dish, n, now);
    }
  }

  /** A plain add to an order holding only that dish's plain line bumps it. */
  lemma PlainAddToSingleLine(line: OrderLine, dish: MenuItem, now: nat)
    requires IsPlainFor(line, dish.id)
    ensures AddItemToOrder([line], dish, None, now) == [line.(quantity := line.quantity + 1)]
  {
    assert [line][0] == line;
    assert IncrementPlain([line], dish.id)[0] == BumpPlain(line, dish.id);
  }

  /** On an order holding only a plain line of the dish, `n` more plain adds
      raise that line's quantity by `n` and add no line. */
  lemma {:induction false} PlainAddsOnSingleLine(line: OrderLine, dish: MenuItem, n: nat, now: nat)
    requires IsPlainFor(line, dish.id)
    ensures AddPlainTimes([line], dish, n, now) == [line.(quantity := line.quantity + n)]
    decreases n
  {
    if n > 0 {
      var bumped := line.(quantity := line.quantity + 1);
      var mid := AddItemToOrder([line], dish, None, now);
      assert AddPlainTimes([line], dish, n, now) == AddPlainTimes(mid, dish, n - 1, now) by {
        AddPlainTimesStep([line], dish, n, now);
      }
      assert mid == [bumped] by {
        PlainAddToSingleLine(line, dish, now);
      }
      PlainAddsOnSingleLine(bumped, dish, n - 1, now);
      assert bumped.(quantity := bumped.quantity + (n - 1)) == line.(quantity := line.quantity + n);
    } else {
      assert line.(quantity := line.quantity + n) == line;
    }
  }

  /** From an empty order, `n` plain adds leave a single line with quantity `n`. */
  lemma PlainAddsFromEmpty(dish: MenuItem, n: nat, now: nat)
    requires n >= 1
    ensures AddPlainTimes([], dish, n, now) == [OrderLine(dish, n, None, PlainLineId(dish.id))]
  {
    var line := OrderLine(dish, 1, None, PlainLineId(dish.id));
    AddPlainTimesStep([], dish, n, now);
    assert AddItemToOrder([], dish, None, now) == [line];
    PlainAddsOnSingleLine(line, dish, n - 1, now);
  }

  /** The menu page's state after pressing "add": the order and the dish
      whose customization dialog is open, if any. */
  datatype AddOutcome = AddOutcome(lines: seq<OrderLine>, dialogFor: Option<MenuItem>)

  /** `addToOrder`: a dish with any table entry opens the dialog and leaves
      the order alone; any other dish is added plainly. */
  function AddToOrder(t: Tables, lines: seq<OrderLine>, dish: MenuItem, now: nat): (r: AddOutcome)
    ensures HasCustomizationOptions(t, dish.id) ==> r.lines == lines && r.dialogFor == Some(dish)
    ensures !HasCustomizationOptions(t, dish.id) ==>
      r.dialogFor.None? && r.lines == AddItemToOrder(lines, dish, None, now)
  {
    if HasCustomizationOptions(t, dish.id) then AddOutcome(lines, Some(dish))
    else AddOutcome(AddItemToOrder(lines, dish, None, now), None)
  }

  /** `handlePersonalizacionConfirm`: the dialog's record goes into a new
      line unchanged; with no dish selected nothing happens. */
  function HandleConfirm(lines: seq<OrderLine>, selected: Option<MenuItem>, c: Customization, now: nat): (r: seq<OrderLine>)
    ensures selected.None? ==> r == lines
    ensures selected.Some? ==> |r| == |lines| + 1 && r[..|lines|] == lines
    ensures selected.Some? ==> r[|lines|].customization == Some(c) && r[|lines|].quantity == c.quantity
    ensures selected.Some? ==> r[|lines|].dish == selected.value
  {
    if selected.Some? then AddItemToOrder(lines, selected.value, Some(c), now) else lines
  }

  /** The confirmed line costs what the dialog showed. */
  lemma ConfirmedLineCostsDialogTotal(t: Tables, lines: seq<OrderLine>, dish: MenuItem, c: Customization, now: nat)
    ensures LineTotal(t, HandleConfirm(lines, Some(dish), c, now)[|lines|]) ==
      Total(dish.price, AddOnsFor(t, dish.id), c)
  {
  }

  /** The card's minus button removes the dish's plain line outright, all
      its units at once, and touches no other line. */
  lemma CardRemoveDropsPlainLine(lines: seq<OrderLine>, d: nat)
    requires WellFormedIds(lines)
    ensures forall l :: l in RemoveLine(lines, PlainLineId(d)) <==> l in lines && !IsPlainFor(l, d)
    ensures !HasPlainLine(RemoveLine(lines, PlainLineId(d)), d)
  {
    forall i | 0 <= i < |lines|
      ensures lines[i].lineId == PlainLineId(d) <==> IsPlainFor(lines[i], d)
    {
      LineIdsDistinct(d, 0, 0);
      if lines[i].customization.None? {
        NatToStringInjective(lines[i].dish.id, d);
      }
    }
    var r := RemoveLine(lines, PlainLineId(d));
    forall i | 0 <= i < |r| ensures !IsPlainFor(r[i], d) {
      assert r[i] in lines;
    }
  }

  /** Removing a line keeps the order valid. */
  lemma RemoveKeepsValid(lines: seq<OrderLine>, lineId: string)
    requires ValidOrder(lines)
    ensures ValidOrder(RemoveLine(lines, lineId))
  {
    var keep := (l: OrderLine) => l.lineId != lineId;
    var r := RemoveLine(lines, lineId);
    assert r == Filter(lines, keep);
    FilterKeepsPairwise(lines, keep,
      (a: OrderLine, b: OrderLine) => !(a.customization.None? && b.customization.None?) || a.dish.id != b.dish.id);
    forall i | 0 <= i < |r|
      ensures if r[i].customization.None? then r[i].lineId == PlainLineId(r[i].dish.id)
              else Contains(r[i].lineId, "-")
    {
      assert r[i] in lines;
      var j :| 0 <= j < |lines| && lines[j] == r[i];
    }
  }

  /** What the customer can do on the page: add a dish plainly, confirm the
      dialog for a dish (at clock reading `now`), or remove a line. */
  datatype MenuAction =
    | AddPlain(dish: MenuItem)
    | Confirm(dish: MenuItem, c: Customization, now: nat)
    | Remove(lineId: string)

  function ApplyAction(lines: seq<OrderLine>, a: MenuAction): seq<OrderLine> {
    match a
    case AddPlain(dish) => AddItemToOrder(lines, dish, None, 0)
    case Confirm(dish, c, now) => HandleConfirm(lines, Some(dish), c, now)
    case Remove(lineId) => RemoveLine(lines, lineId)
  }

  function RunActions(lines: seq<OrderLine>, actions: seq<MenuAction>): seq<OrderLine>
    decreases |actions|
  {
    if actions == [] then lines else RunActions(ApplyAction(lines, actions[0]), actions[1..])
  }

  /** The dialog only ever confirms a valid record. */
  predicate ValidAction(a: MenuAction) {
    a.Confirm? ==> Valid(a.c)
  }

  /** Every run of the page's actions keeps a valid order valid. */
  lemma {:induction false} RunKeepsValid(lines: seq<OrderLine>, actions: seq<MenuAction>)
    requires ValidOrder(lines)
    requires forall i :: 0 <= i < |actions| ==> ValidAction(actions[i])
    ensures ValidOrder(RunActions(lines, actions))
    decreases |actions|
  {
    if actions != [] {
      match actions[0] {
        case AddPlain(dish) => PlainAddKeepsValid(lines, dish, 0);
        case Confirm(dish, c, now) => CustomizedAdd(lines, dish, c, now, 0);
        case Remove(lineId) => RemoveKeepsValid(lines, lineId);
      }
      RunKeepsValid(ApplyAction(lines, actions[0]), actions[1..]);
    }
  }

  /** Every order the page builds from the empty one is valid. */
  lemma BuiltOrdersAreValid(actions: seq<MenuAction>)
    requires forall i :: 0 <= i < |actions| ==> ValidAction(actions[i])
    ensures ValidOrder(RunActions([], actions))
  {
    RunKeepsValid([], actions);
  }

  datatype SendError = EmptyOrder

  /** `sendOrder`: an empty order is refused; otherwise the lines go to the
      kitchen as they are. */
  function SendOrder(lines: seq<OrderLine>): (r: Result<seq<OrderLine>, SendError>)
    ensures r.Success? <==> |lines| > 0
    ensures r.Success? ==> r.value == lines
  {
    if |lines| == 0 then Failure(EmptyOrder) else Success(lines)
  }
}
