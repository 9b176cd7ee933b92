/**
 Rounding the lines of an invoice and the line that is added for the surplus. Numbers are exact: JavaScript's are not.
 */
module Rounding {
  import opened Prelude

  datatype RoundMethod = RoundHalfUp | RoundUp | RoundDown

  function RoundBy(m: RoundMethod, x: real): int {
    match m
    case RoundHalfUp => Round(x)
    case RoundUp => Ceil(x)
    case RoundDown => x.Floor
  }

  /** A row: `number` is the price. Rows read from an invoice carry an amount and a unit, rows of an order do not. */
  datatype Item = Item(name: string, number: real, quantity: real, amount: Option<real>, unit: Option<string>)

  datatype Methods = Methods(number: RoundMethod, quantity: RoundMethod, total: RoundMethod)

  function Amount(i: Item): real {
    i.number * i.quantity
  }

  function Total(items: seq<Item>): real {
    if items == [] then 0.0 else Total(items[..|items| - 1]) + Amount(items[|items| - 1])
  }

  /** Price and quantity are rounded; an amount that is there is computed again from them. */
  function RoundItem(m: Methods, i: Item): Item {
    var number, quantity := RoundBy(m.number, i.number) as real, RoundBy(m.quantity, i.quantity) as real;
    i.(number := number, quantity := quantity, amount := if i.amount.Some? then Some(number * quantity) else None)
  }

  function RoundItems(m: Methods, items: seq<Item>): (r: seq<Item>)
    ensures |r| == |items|
  {
    if items == [] then [] else RoundItems(m, items[..|items| - 1]) + [RoundItem(m, items[|items| - 1])]
  }

  /** The rounded total minus the rounding of the raw total. */
  function Compensation(m: Methods, items: seq<Item>): real {
    Total(RoundItems(m, items)) - RoundBy(m.total, Total(items)) as real
  }

  const PRODUCT_METHODS := Methods(RoundUp, RoundUp, RoundHalfUp)

  const COMPENSATION_NAME := "\U{5316}\U{6574}\U{6EA2}\U{50F9}\U{88DC}\U{511F}"
  const COMPENSATION_UNIT := "\U{7B46}"

  /**
   Round every row, and when the rounded total exceeds the rounding of the raw total add a row with the difference.
   */
  function RoundProductList(items: seq<Item>): seq<Item> {
    var c := Compensation(PRODUCT_METHODS, items);
    RoundItems(PRODUCT_METHODS, items) +
    if c > 0.0 then [Item(COMPENSATION_NAME, c, 1.0, Some(c), Some(COMPENSATION_UNIT))] else []
  }

  // ----- the rounded total is an integer -----

  function RoundedTotal(items: seq<Item>): int {
    if items == [] then 0
    else RoundedTotal(items[..|items| - 1]) + Ceil(items[|items| - 1].number) * Ceil(items[|items| - 1].quantity)
  }

  lemma ProductAsReal(a: int, b: int)
    ensures (a * b) as real == a as real * b as real
  {
  }

  lemma RoundedAmount(i: Item)
    ensures Amount(RoundItem(PRODUCT_METHODS, i)) == (Ceil(i.number) * Ceil(i.quantity)) as real
  {
    ProductAsReal(Ceil(i.number), Ceil(i.quantity));
  }

  lemma TotalSnoc(items: seq<Item>, i: Item)
    ensures Total(items + [i]) == Total(items) + Amount(i)
  {
    assert (items + [i])[..|items|] == items;
  }

  lemma {:induction false} RoundedTotalIsTotal(items: seq<Item>)
    ensures Total(RoundItems(PRODUCT_METHODS, items)) == RoundedTotal(items) as real
  {
    if items == [] {
    } else {
      var init, i := items[..|items| - 1], items[|items| - 1];
      RoundedTotalIsTotal(init);
      RoundedAmount(i);
      TotalSnoc(RoundItems(PRODUCT_METHODS, init), RoundItem(PRODUCT_METHODS, i));
    }
  }

  function Surplus(items: seq<Item>): int {
    RoundedTotal(items) - Round(Total(items))
  }

  lemma CompensationIsSurplus(items: seq<Item>)
    ensures Compensation(PRODUCT_METHODS, items) == Surplus(items) as real
  {
    RoundedTotalIsTotal(items);
  }

  // ----- how large the surplus is -----

  ghost predicate NonNegative(items: seq<Item>) {
    forall i | 0 <= i < |items| :: items[i].number >= 0.0 && items[i].quantity >= 0.0
  }

  lemma ScaledMonotone(a: real, b: real, c: real)
    requires a <= b && c >= 0.0
    ensures a * c <= b * c
  {
  }

  lemma ItemRoundsUp(i: Item)
    requires i.number >= 0.0 && i.quantity >= 0.0
    ensures Amount(i) <= (Ceil(i.number) * Ceil(i.quantity)) as real
  {
    ProductAsReal(Ceil(i.number), Ceil(i.quantity));
    ScaledMonotone(i.number, Ceil(i.number) as real, i.quantity);
    ScaledMonotone(i.quantity, Ceil(i.quantity) as real, Ceil(i.number) as real);
  }

  lemma {:induction false} TotalRoundsUp(items: seq<Item>)
    requires NonNegative(items)
    ensures Total(items) <= RoundedTotal(items) as real
  {
    if items == [] {
    } else {
      TotalRoundsUp(items[..|items| - 1]);
      ItemRoundsUp(items[|items| - 1]);
    }
  }

  /** Quantities that are whole numbers, as the orders have them. */
  ghost predicate WholeQuantities(items: seq<Item>) {
    forall i | 0 <= i < |items| :: items[i].quantity == items[i].quantity.Floor as real
  }

  function Quantities(items: seq<Item>): int {
    if items == [] then 0 else Quantities(items[..|items| - 1]) + items[|items| - 1].quantity.Floor
  }

  lemma ItemRoundsUpByQuantity(i: Item)
    requires i.quantity >= 0.0 && i.quantity == i.quantity.Floor as real
    ensures (Ceil(i.number) * Ceil(i.quantity)) as real <= Amount(i) + i.quantity
  {
    ProductAsReal(Ceil(i.number), Ceil(i.quantity));
    assert Ceil(i.quantity) == i.quantity.Floor;
    ScaledMonotone(Ceil(i.number) as real, i.number + 1.0, i.quantity);
    assert (i.number + 1.0) * i.quantity == i.number * i.quantity + i.quantity;
  }

  lemma {:induction false} TotalRoundsUpByQuantities(items: seq<Item>)
    requires NonNegative(items) && WholeQuantities(items)
    ensures RoundedTotal(items) as real <= Total(items) + Quantities(items) as real
  {
    if items == [] {
    } else {
      TotalRoundsUpByQuantities(items[..|items| - 1]);
      ItemRoundsUpByQuantity(items[|items| - 1]);
    }
  }

  /** For non-negative rows the surplus is never negative, and at most one unit of money for each unit sold. */
  lemma SurplusBounds(items: seq<Item>)
    requires NonNegative(items)
    ensures Surplus(items) >= 0
    ensures WholeQuantities(items) ==> Surplus(items) <= Quantities(items)
  {
    TotalRoundsUp(items);
    if WholeQuantities(items) {
      TotalRoundsUpByQuantities(items);
    }
  }

  // ----- what the finished list adds up to -----

  /**
   A row is added exactly when there is a surplus, and it adds the surplus once more: the list then comes to
   2 * R - round(T), where R is the rounded and T the raw total.
   */
  lemma FinalTotal(items: seq<Item>)
    ensures |RoundProductList(items)| == |items| + (if Surplus(items) > 0 then 1 else 0)
    ensures Total(RoundProductList(items))
         == (RoundedTotal(items) + if Surplus(items) > 0 then RoundedTotal(items) - Round(Total(items)) else 0) as real
    ensures NonNegative(items) ==>
              (Total(RoundProductList(items)) == Round(Total(items)) as real <==> |RoundProductList(items)| == |items|)
  {
    CompensationIsSurplus(items);
    RoundedTotalIsTotal(items);
    var r, c := RoundItems(PRODUCT_METHODS, items), Compensation(PRODUCT_METHODS, items);
    if c > 0.0 {
      TotalSnoc(r, Item(COMPENSATION_NAME, c, 1.0, Some(c), Some(COMPENSATION_UNIT)));
    } else {
      assert r + [] == r;
    }
    if NonNegative(items) {
      SurplusBounds(items);
    }
  }

  // ----- rounding twice is rounding once -----

  /** Whole price and quantity, and an amount that agrees with them if there is one. */
  predicate Whole(i: Item) {
    && i.number == i.number.Floor as real && i.quantity == i.quantity.Floor as real
    && (i.amount.Some? ==> i.amount.value == i.number * i.quantity)
  }

  ghost predicate AllWhole(items: seq<Item>) {
    forall i | 0 <= i < |items| :: Whole(items[i])
  }

  lemma FloorOfInt(n: int)
    ensures (n as real).Floor == n
  {
  }

  lemma CeilOfInt(n: int)
    ensures Ceil(n as real) == n
  {
    var c := Ceil(n as real);
    assert c as real - 1.0 < n as real <= c as real;
    assert (c - 1) as real < n as real;
  }

  lemma RoundItemIsWhole(i: Item)
    ensures Whole(RoundItem(PRODUCT_METHODS, i))
  {
    FloorOfInt(Ceil(i.number));
    FloorOfInt(Ceil(i.quantity));
  }

  lemma RoundWholeItem(i: Item)
    requires Whole(i)
    ensures RoundItem(PRODUCT_METHODS, i) == i
  {
    CeilOfInt(i.number.Floor);
    CeilOfInt(i.quantity.Floor);
    var r := RoundItem(PRODUCT_METHODS, i);
    assert r.number == i.number && r.quantity == i.quantity;
    if i.amount.Some? {
      assert r.amount.value == r.number * r.quantity == i.number * i.quantity == i.amount.value;
      assert i.amount == Some(i.amount.value) && r.amount == Some(r.amount.value);
    }
  }

  lemma {:induction false} RoundItemsWhole(items: seq<Item>)
    ensures AllWhole(RoundItems(PRODUCT_METHODS, items))
  {
    if items == [] {
    } else {
      RoundItemsWhole(items[..|items| - 1]);
      RoundItemIsWhole(items[|items| - 1]);
    }
  }

  lemma {:induction false} WholeUnchanged(items: seq<Item>)
    requires AllWhole(items)
    ensures RoundItems(PRODUCT_METHODS, items) == items
  {
    if items == [] {
    } else {
      WholeUnchanged(items[..|items| - 1]);
      RoundWholeItem(items[|items| - 1]);
    }
  }

  /** Rows that are whole already leave no surplus. */
  lemma WholeNoSurplus(items: seq<Item>)
    requires AllWhole(items)
    ensures RoundProductList(items) == items
  {
    WholeUnchanged(items);
    RoundedTotalIsTotal(items);
    assert Total(items) == RoundedTotal(items) as real;
    assert Round(Total(items)) == RoundedTotal(items);
  }

  lemma RoundProductListWhole(items: seq<Item>)
    ensures AllWhole(RoundProductList(items))
  {
    RoundItemsWhole(items);
    CompensationIsSurplus(items);
  }

  /** Applied to its own output the rounding changes nothing and adds nothing. */
  lemma RoundTwice(items: seq<Item>)
    ensures RoundProductList(RoundProductList(items)) == RoundProductList(items)
  {
    RoundProductListWhole(items);
    WholeNoSurplus(RoundProductList(items));
  }
}
