/** The dishes of the customer menu and the per-dish customization tables
    (ingredients, preparations, add-ons). The customer menu and the cart each
    carry their own copy of the add-on table; both copies hold the same
    entries, so one table serves both here. */
module Catalog {

  datatype MenuItem = MenuItem(id: nat, name: string, description: string, price: int, category: string)

  datatype Ingredient = Ingredient(id: string, name: string, available: bool)

  datatype Preparation = Preparation(id: string, name: string)

  datatype AddOn = AddOn(id: string, name: string, price: int)

  /** The three lookup tables, keyed by dish id. A dish without an entry has
      no options of that kind. */
  datatype Tables = Tables(
    ingredients: map<nat, seq<Ingredient>>,
    preparations: map<nat, seq<Preparation>>,
    addOns: map<nat, seq<AddOn>>)

  /** `adicionalesDisponibles[id] || []`. */
  function AddOnsFor(t: Tables, dishId: nat): (r: seq<AddOn>)
    ensures dishId !in t.addOns ==> r == []
  {
    if dishId in t.addOns then t.addOns[dishId] else []
  }

  /** `preparacionesDisponibles[id] || []`. */
  function PreparationsFor(t: Tables, dishId: nat): (r: seq<Preparation>)
    ensures dishId !in t.preparations ==> r == []
  {
    if dishId in t.preparations then t.preparations[dishId] else []
  }

  /** `ingredientesDisponibles[id] || []`. */
  function IngredientsFor(t: Tables, dishId: nat): (r: seq<Ingredient>)
    ensures dishId !in t.ingredients ==> r == []
  {
    if dishId in t.ingredients then t.ingredients[dishId] else []
  }

  /** A table entry, even an empty list, makes the dish customizable: the
      page tests the looked-up array for truthiness, and an empty array is
      truthy. */
  predicate HasCustomizationOptions(t: Tables, dishId: nat): (r: bool)
    ensures !r ==> IngredientsFor(t, dishId) == [] && PreparationsFor(t, dishId) == [] && AddOnsFor(t, dishId) == []
  {
    dishId in t.ingredients || dishId in t.preparations || dishId in t.addOns
  }

  /** The test is on the key, not on the list: a dish whose only entry is an
      empty add-on list opens the dialog although it has nothing to offer. */
  lemma EmptyEntryOpensDialog(t: Tables, dishId: nat)
    requires dishId in t.addOns && t.addOns[dishId] == []
    requires dishId !in t.ingredients && dishId !in t.preparations
    ensures HasCustomizationOptions(t, dishId)
    ensures IngredientsFor(t, dishId) == [] && PreparationsFor(t, dishId) == [] && AddOnsFor(t, dishId) == []
  {
  }

  predicate NonNegativePrices(offered: seq<AddOn>) {
    forall i :: 0 <= i < |offered| ==> offered[i].price >= 0
  }

  /** Sum of the prices of the offered add-ons whose id is in `selected`.
      Each offered entry is counted once, however often its id is selected,
      and selected ids that are not offered add nothing. */
  function AddOnSum(offered: seq<AddOn>, selected: seq<string>): int {
    if offered == [] then 0
    else
      var last := offered[|offered| - 1];
      AddOnSum(offered[..|offered| - 1], selected) + (if last.id in selected then last.price else 0)
  }

  predicate IsOffered(offered: seq<AddOn>, id: string) {
    exists i :: 0 <= i < |offered| && offered[i].id == id
  }

  /** With non-negative prices the sum is never negative. */
  lemma {:induction false} AddOnSumNonNegative(offered: seq<AddOn>, selected: seq<string>)
    requires NonNegativePrices(offered)
    ensures AddOnSum(offered, selected) >= 0
  {
    if offered != [] {
      AddOnSumNonNegative(offered[..|offered| - 1], selected);
    }
  }

  /** Selecting more add-ons (a superset of ids) never lowers the sum when
      prices are non-negative. */
  lemma {:induction false} AddOnSumMonotone(offered: seq<AddOn>, selected: seq<string>, more: seq<string>)
    requires NonNegativePrices(offered)
    requires forall x :: x in selected ==> x in more
    ensures AddOnSum(offered, selected) <= AddOnSum(offered, more)
  {
    if offered != [] {
      AddOnSumMonotone(offered[..|offered| - 1], selected, more);
    }
  }

  /** Only membership of the selected ids matters, not their order or
      repetition. */
  lemma {:induction false} AddOnSumSameMembers(offered: seq<AddOn>, selected: seq<string>, other: seq<string>)
    requires forall x :: x in selected <==> x in other
    ensures AddOnSum(offered, selected) == AddOnSum(offered, other)
  {
    if offered != [] {
      AddOnSumSameMembers(offered[..|offered| - 1], selected, other);
    }
  }

  /** Selecting an id that no offered add-on carries adds nothing. */
  lemma {:induction false} AddOnSumIgnoresUnknown(offered: seq<AddOn>, selected: seq<string>, id: string)
    requires !IsOffered(offered, id)
    ensures AddOnSum(offered, selected + [id]) == AddOnSum(offered, selected)
  {
    if offered != [] {
      var init := offered[..|offered| - 1];
      assert !IsOffered(init, id) by {
        forall i | 0 <= i < |init| ensures init[i].id != id {
          assert init[i] == offered[i];
        }
      }
      AddOnSumIgnoresUnknown(init, selected, id);
    }
  }

  /** Nothing selected, nothing added. */
  lemma {:induction false} AddOnSumNothingSelected(offered: seq<AddOn>)
    ensures AddOnSum(offered, []) == 0
  {
    if offered != [] {
      AddOnSumNothingSelected(offered[..|offered| - 1]);
    }
  }

  // The menu page's seeded data.

  const Dishes: seq<MenuItem> := [
    MenuItem(1, "Hamburguesa Clásica", "Carne de res, lechuga, tomate, cebolla y queso", 120, "platos-principales"),
    MenuItem(2, "Pizza Margarita", "Salsa de tomate, mozzarella y albahaca", 150, "platos-principales"),
    MenuItem(3, "Ensalada César", "Lechuga romana, crutones, parmesano y aderezo césar", 90, "entradas"),
    MenuItem(4, "Papas Fritas", "Papas fritas crujientes con sal", 50, "acompañamientos"),
    MenuItem(5, "Refresco", "Refresco de cola, naranja o limón", 30, "bebidas"),
    MenuItem(6, "Pastel de Chocolate", "Pastel de chocolate con ganache", 80, "postres")
  ]

  const Seeded: Tables := Tables(
    map[
      1 := [
        Ingredient("1-1", "Carne de res", true),
        Ingredient("1-2", "Lechuga", true),
        Ingredient("1-3", "Tomate", true),
        Ingredient("1-4", "Cebolla", true),
        Ingredient("1-5", "Queso", true),
        Ingredient("1-6", "Pepinillos", true)
      ],
      2 := [
        Ingredient("2-1", "Salsa de tomate", true),
        Ingredient("2-2", "Mozzarella", true),
        Ingredient("2-3", "Albahaca", true),
        Ingredient("2-4", "Aceite de oliva", true)
      ]
    ],
    map[
      1 := [
        Preparation("prep-1", "Término tres cuartos"),
        Preparation("prep-2", "Término medio"),
        Preparation("prep-3", "Bien cocido")
      ],
      2 := [
        Preparation("prep-4", "Masa delgada"),
        Preparation("prep-5", "Masa gruesa")
      ]
    ],
    map[
      1 := [
        AddOn("ad-1", "Tocino extra", 15),
        AddOn("ad-2", "Queso extra", 10),
        AddOn("ad-3", "Guacamole", 20)
      ],
      2 := [
        AddOn("ad-4", "Queso extra", 15),
        AddOn("ad-5", "Champiñones", 20),
        AddOn("ad-6", "Pepperoni", 25)
      ]
    ])

  /** Of the seeded dishes only the burger and the pizza open the
      customization dialog; every seeded add-on price is non-negative. */
  lemma SeededOptions()
    ensures forall d :: d in Dishes ==> (HasCustomizationOptions(Seeded, d.id) <==> d.id <= 2)
    ensures forall id :: NonNegativePrices(AddOnsFor(Seeded, id))
  {
    assert Seeded.ingredients.Keys == {1, 2};
    assert Seeded.preparations.Keys == {1, 2};
    assert Seeded.addOns.Keys == {1, 2};
    forall id ensures NonNegativePrices(AddOnsFor(Seeded, id)) {
      if id == 1 || id == 2 {
        var offered := Seeded.addOns[id];
        assert forall i :: 0 <= i < |offered| ==> offered[i].price >= 10;
      }
    }
  }
}
