/** What stands in each line of an invoice: name, count, price, amount and unit at one place belong together. */
module InvoiceLines {
  import opened Prelude
  import opened Joined
  import opened Rounding
  import opened LineCodec
  import opened InvoiceAmounts

  datatype Sold = Sold(name: string, count: real, price: real, unit: string)

  function Cut(s: string, n: nat): string {
    if |s| > n then s[..n] else s
  }

  predicate ForCompany(o: Options) {
    o.donationCode == "" && o.phoneBarCode == "" && o.uniformNumber != ""
  }

  /** For a company a price is sent without the tax of five percent, if there is tax, and as a whole number. */
  function PriceSent(o: Options, price: real): real {
    if !ForCompany(o) then price
    else if o.isDutyFree then Round(price) as real
    else Round(price / 1.05) as real
  }

  // ----- the products after rounding -----

  lemma {:induction false} RoundedAt(items: seq<Item>, j: nat)
    requires j < |items|
    ensures RoundItems(PRODUCT_METHODS, items)[j] == RoundItem(PRODUCT_METHODS, items[j])
  {
    if j < |items| - 1 {
      RoundedAt(items[..|items| - 1], j);
    }
  }

  /** A rounded row, with an amount only where there was one. */
  lemma RoundedIs(i: Item)
    ensures var r := RoundItem(PRODUCT_METHODS, i);
            && r.name == i.name && r.unit == i.unit
            && r.number == Ceil(i.number) as real && r.quantity == Ceil(i.quantity) as real
            && (r.amount.Some? <==> i.amount.Some?) && (i.amount.Some? ==> r.amount.value == r.number * r.quantity)
  {
  }

  /** Every product in its place with price and quantity rounded up, and then a line for a surplus that is positive. */
  lemma FinishedAt(items: seq<Item>, j: nat)
    requires j < |RoundProductList(items)|
    ensures |RoundProductList(items)| == |items| + if Surplus(items) > 0 then 1 else 0
    ensures var r := RoundProductList(items)[j];
            if j < |items| then
              r.name == items[j].name && r.number == Ceil(items[j].number) as real
                && r.quantity == Ceil(items[j].quantity) as real
            else
              r == Item("\U{5316}\U{6574}\U{6EA2}\U{50F9}\U{88DC}\U{511F}", Surplus(items) as real, 1.0,
                        Some(Surplus(items) as real), Some("\U{7B46}"))
  {
    CompensationIsSurplus(items);
    if j < |items| {
      RoundedAt(items, j);
      RoundedIs(items[j]);
    }
  }

  // ----- one part of the columns at a time -----

  /** Which kind of invoice it is: a donation and a phone carrier come before a company, everything else after it. */
  lemma CategoryIs(o: Options)
    ensures CategoryOf(o) == B2B <==> ForCompany(o)
    ensures CategoryOf(o) == NoCategory <==>
              && o.donationCode == "" && o.phoneBarCode == "" && o.uniformNumber == ""
              && o.citizenCode == "" && o.kioskPrintFlag == "" && o.email == ""
  {
  }

  lemma ChargeIs(o: Options, price: real)
    ensures Charge(CategoryOf(o), TaxFactor(o.isDutyFree), price) == PriceSent(o, price)
  {
    assert price / 1.0 == price && TaxFactor(false) == 1.05 && TaxFactor(true) == 1.0;
  }

  lemma {:induction false} ProductAt(show: real -> string, o: Options, items: seq<Item>, j: nat)
    requires j < |items|
    ensures ProductNames(show, items)[j] == Cut(items[j].name, 25) + " x" + show(items[j].quantity)
    ensures Quantity(items)[j] == items[j].quantity
    ensures ProductCharges(CategoryOf(o), TaxFactor(o.isDutyFree), items)[j] == PriceSent(o, items[j].number)
  {
    if j < |items| - 1 {
      ProductAt(show, o, items[..|items| - 1], j);
    } else {
      ChargeIs(o, items[j].number);
    }
  }

  lemma {:induction false} DiscountAt(o: Options, discounts: seq<Discount>, j: nat)
    requires j < |discounts|
    ensures DiscountNames(discounts)[j] == Cut(discounts[j].name, 30)
    ensures DiscountCharges(CategoryOf(o), TaxFactor(o.isDutyFree), discounts)[j] == -PriceSent(o, discounts[j].price)
  {
    if j < |discounts| - 1 {
      DiscountAt(o, discounts[..|discounts| - 1], j);
    } else {
      ChargeIs(o, discounts[j].price);
    }
  }

  lemma ShippingAt(o: Options)
    requires o.shipping.Some? && o.shipping.value.via != ""
    ensures ShippingNames(o.shipping) == [Cut("\U{904B}\U{8CBB} - " + o.shipping.value.via, 30)]
    ensures ShippingCharges(CategoryOf(o), TaxFactor(o.isDutyFree), o.shipping) == [PriceSent(o, o.shipping.value.fee)]
  {
    ChargeIs(o, o.shipping.value.fee);
  }

  // ----- the lines -----

  function Lines(i: Invoice): nat {
    |i.itemName|
  }

  /** Line `j`: its five columns, read at one place. */
  ghost predicate LineIs(i: Invoice, j: nat, line: Sold) {
    && j < |i.itemName| == |i.itemCount| == |i.itemPrice| == |i.itemAmt| == |i.itemUnit|
    && i.itemName[j] == line.name && i.itemCount[j] == line.count && i.itemUnit[j] == line.unit
    && i.itemPrice[j] == i.itemAmt[j] == line.price
  }

  function ProductLine(show: real -> string, o: Options, p: Item): Sold {
    Sold(Cut(p.name, 25) + " x" + show(p.quantity), p.quantity, PriceSent(o, p.number), "\U{500B}")
  }

  function DiscountLine(o: Options, d: Discount): Sold {
    Sold(Cut(d.name, 30), 1.0, -PriceSent(o, d.price), "\U{500B}")
  }

  function ShippingLine(o: Options, s: Shipping): Sold {
    Sold(Cut("\U{904B}\U{8CBB} - " + s.via, 30), 1.0, PriceSent(o, s.fee), "\U{7B46}")
  }

  lemma FinishedLines(show: real -> string, amount: real, o: Options, j: nat)
    requires j < |RoundProductList(o.products)|
    ensures LineIs(Issue(show, amount, o), j, ProductLine(show, o, RoundProductList(o.products)[j]))
  {
    SameCounts(show, amount, o);
    ProductAt(show, o, RoundProductList(o.products), j);
  }

  /** First the products, in order: name cut and quantity added, price and quantity rounded up. */
  lemma ProductLines(show: real -> string, amount: real, o: Options, j: nat)
    requires j < |o.products|
    ensures var p, n := o.products[j], Ceil(o.products[j].quantity) as real;
            LineIs(Issue(show, amount, o), j,
                   Sold(Cut(p.name, 25) + " x" + show(n), n, PriceSent(o, Ceil(p.number) as real), "\U{500B}"))
  {
    FinishedAt(o.products, j);
    FinishedLines(show, amount, o, j);
  }

  /** Then the surplus of rounding, when there is one. */
  lemma SurplusLine(show: real -> string, amount: real, o: Options)
    requires Surplus(o.products) > 0
    ensures LineIs(Issue(show, amount, o), |o.products|,
                   Sold("\U{5316}\U{6574}\U{6EA2}\U{50F9}\U{88DC}\U{511F} x" + show(1.0), 1.0,
                        PriceSent(o, Surplus(o.products) as real), "\U{500B}"))
  {
    CompensationIsSurplus(o.products);
    FinishedAt(o.products, |o.products|);
    FinishedLines(show, amount, o, |o.products|);
  }

  /** How many lines there are for the products and the surplus. */
  function Before(o: Options): nat {
    |o.products| + if Surplus(o.products) > 0 then 1 else 0
  }

  lemma DiscountTexts(show: real -> string, amount: real, o: Options, j: nat)
    requires j < |o.discounts|
    ensures var i, k := Issue(show, amount, o), Before(o) + j;
            k < |i.itemName| && i.itemName[k] == Cut(o.discounts[j].name, 30)
  {
    CompensationIsSurplus(o.products);
    DiscountAt(o, o.discounts, j);
  }

  lemma DiscountPrices(show: real -> string, amount: real, o: Options, j: nat)
    requires j < |o.discounts|
    ensures var i, k := Issue(show, amount, o), Before(o) + j;
            k < |i.itemPrice| && i.itemPrice[k] == -PriceSent(o, o.discounts[j].price) && i.itemAmt == i.itemPrice
  {
    CompensationIsSurplus(o.products);
    DiscountAt(o, o.discounts, j);
  }

  lemma DiscountCounts(show: real -> string, amount: real, o: Options, j: nat)
    requires j < |o.discounts|
    ensures var i, k := Issue(show, amount, o), Before(o) + j;
            k < |i.itemCount| && i.itemCount[k] == 1.0 && k < |i.itemUnit| && i.itemUnit[k] == "\U{500B}"
  {
    CompensationIsSurplus(o.products);
  }

  /** Then the discounts, in order, with negative prices. */
  lemma DiscountLines(show: real -> string, amount: real, o: Options, j: nat)
    requires j < |o.discounts|
    ensures LineIs(Issue(show, amount, o), Before(o) + j, DiscountLine(o, o.discounts[j]))
  {
    SameCounts(show, amount, o);
    DiscountTexts(show, amount, o, j);
    DiscountCounts(show, amount, o, j);
    DiscountPrices(show, amount, o, j);
  }

  /** And last the shipping, when the order has a way of shipping. */
  lemma ShippingLines(show: real -> string, amount: real, o: Options)
    requires o.shipping.Some? && o.shipping.value.via != ""
    ensures LineIs(Issue(show, amount, o), Before(o) + |o.discounts|,
                   ShippingLine(o, o.shipping.value))
  {
    SameCounts(show, amount, o);
    CompensationIsSurplus(o.products);
    ShippingAt(o);
  }

  /** How many lines there are of each kind. */
  lemma LineCount(show: real -> string, amount: real, o: Options)
    ensures Lines(Issue(show, amount, o))
            == Before(o) + |o.discounts| + if o.shipping.Some? && o.shipping.value.via != "" then 1 else 0
  {
    CompensationIsSurplus(o.products);
  }

  // ----- the totals and what is sent -----

  /** The total, the tax in it and the rest, each rounded by itself. */
  lemma TotalsAre(show: real -> string, amount: real, o: Options)
    ensures var i := Issue(show, amount, o);
            && i.totalAmt == Round(amount)
            && i.taxAmt == (if o.isDutyFree then 0 else Round(amount - amount / 1.05))
            && i.amt == Round(amount - i.taxAmt as real)
            && i.amtFree == if o.isDutyFree then Some(amount) else None
  {
    if o.isDutyFree {
      assert Round(amount - amount / 1.0) == 0;
    }
  }

  /** The columns of an order: its names without a separator, everything else as it is. */
  lemma OrderAt(products: seq<OrderLine>, discounts: seq<OrderLine>, shipping: Option<Shipping>, rest: Options)
    ensures var o := ForOrder(products, discounts, shipping, rest);
            && |o.products| == |products| && |o.discounts| == |discounts|
            && (forall j | 0 <= j < |products| ::
                  o.products[j] == Item(Sanitize(products[j].name), products[j].price, 1.0, None, None))
            && (forall j | 0 <= j < |discounts| ::
                  o.discounts[j] == Discount(Sanitize(discounts[j].name), discounts[j].price))
            && o.shipping == (if shipping.Some? then Some(Shipping(Sanitize(shipping.value.via), shipping.value.fee))
                              else None)
            && o == rest.(products := o.products, discounts := o.discounts, shipping := o.shipping)
  {
    forall j | 0 <= j < |products|
      ensures OrderProducts(products)[j] == Item(Sanitize(products[j].name), products[j].price, 1.0, None, None)
    {
      OrderProductAt(products, j);
    }
    forall j | 0 <= j < |discounts|
      ensures OrderDiscounts(discounts)[j] == Discount(Sanitize(discounts[j].name), discounts[j].price)
    {
      OrderDiscountAt(discounts, j);
    }
  }

  lemma {:induction false} OrderProductAt(lines: seq<OrderLine>, j: nat)
    requires j < |lines|
    ensures OrderProducts(lines)[j] == Item(Sanitize(lines[j].name), lines[j].price, 1.0, None, None)
  {
    if j < |lines| - 1 {
      OrderProductAt(lines[..|lines| - 1], j);
    }
  }

  lemma {:induction false} OrderDiscountAt(lines: seq<OrderLine>, j: nat)
    requires j < |lines|
    ensures OrderDiscounts(lines)[j] == Discount(Sanitize(lines[j].name), lines[j].price)
  {
    if j < |lines| - 1 {
      OrderDiscountAt(lines[..|lines| - 1], j);
    }
  }
}
