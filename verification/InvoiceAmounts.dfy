/**
 The amounts and the five columns of an invoice issued for a payment. A text that is absent is the empty string: the
 program only asks whether it is there.
 */
module InvoiceAmounts {
  import opened Prelude
  import opened Joined
  import opened Rounding
  import opened LineCodec

  datatype Discount = Discount(name: string, price: real)

  /** `via` is the shipping method; without one there is no line for it. */
  datatype Shipping = Shipping(via: string, fee: real)

  datatype Options = Options(
    products: seq<Item>,
    discounts: seq<Discount>,
    shipping: Option<Shipping>,
    isDutyFree: bool,
    donationCode: string,
    phoneBarCode: string,
    uniformNumber: string,
    citizenCode: string,
    kioskPrintFlag: string,
    email: string
  )

  datatype Category = B2B | B2C | NoCategory

  datatype Invoice = Invoice(
    itemName: seq<string>,
    itemCount: seq<real>,
    itemPrice: seq<real>,
    itemAmt: seq<real>,
    itemUnit: seq<string>,
    amt: int,
    totalAmt: int,
    taxAmt: int,
    amtFree: Option<real>
  )

  const PIECE := "\U{500B}"
  const ENTRY := "\U{7B46}"
  const SHIPPING_PREFIX := "\U{904B}\U{8CBB} - "

  function CategoryOf(o: Options): Category {
    if o.donationCode != "" then B2C
    else if o.phoneBarCode != "" then B2C
    else if o.uniformNumber != "" then B2B
    else if o.citizenCode != "" then B2C
    else if o.kioskPrintFlag != "" then B2C
    else if o.email != "" then B2C
    else NoCategory
  }

  /** One plus the tax rate. */
  function TaxFactor(isDutyFree: bool): (q: real)
    ensures q > 0.0
  {
    1.0 + if isDutyFree then 0.0 else 0.05
  }

  function TaxAmt(amount: real, isDutyFree: bool): int {
    Round(amount - amount / TaxFactor(isDutyFree))
  }

  // ----- the columns -----

  /** A price as it is sent: for a company it is the rounded price without tax. */
  function Charge(c: Category, q: real, price: real): real
    requires q > 0.0
  {
    if c == B2B then Round(price / q) as real else price
  }

  function ProductCharges(c: Category, q: real, items: seq<Item>): (r: seq<real>)
    requires q > 0.0
    ensures |r| == |items|
  {
    if items == [] then []
    else ProductCharges(c, q, items[..|items| - 1]) + [Charge(c, q, items[|items| - 1].number)]
  }

  function DiscountCharges(c: Category, q: real, discounts: seq<Discount>): (r: seq<real>)
    requires q > 0.0
    ensures |r| == |discounts|
  {
    if discounts == [] then []
    else DiscountCharges(c, q, discounts[..|discounts| - 1]) + [-Charge(c, q, discounts[|discounts| - 1].price)]
  }

  predicate Ships(shipping: Option<Shipping>) {
    shipping.Some? && shipping.value.via != ""
  }

  function ShippingCharges(c: Category, q: real, shipping: Option<Shipping>): (r: seq<real>)
    requires q > 0.0
  {
    if Ships(shipping) then [Charge(c, q, shipping.value.fee)] else []
  }

  function Substring(s: string, n: nat): string {
    if |s| <= n then s else s[..n]
  }

  function ProductNames(show: real -> string, items: seq<Item>): (r: seq<string>)
    ensures |r| == |items|
  {
    if items == [] then []
    else
      var last := items[|items| - 1];
      ProductNames(show, items[..|items| - 1]) + [Substring(last.name, 25) + " x" + show(last.quantity)]
  }

  function DiscountNames(discounts: seq<Discount>): (r: seq<string>)
    ensures |r| == |discounts|
  {
    if discounts == [] then []
    else DiscountNames(discounts[..|discounts| - 1]) + [Substring(discounts[|discounts| - 1].name, 30)]
  }

  function ShippingNames(shipping: Option<Shipping>): seq<string> {
    if Ships(shipping) then [Substring(SHIPPING_PREFIX + shipping.value.via, 30)] else []
  }

  function Quantity(items: seq<Item>): (r: seq<real>)
    ensures |r| == |items|
  {
    if items == [] then [] else Quantity(items[..|items| - 1]) + [items[|items| - 1].quantity]
  }

  function Repeat<T>(x: T, n: nat): (r: seq<T>)
    ensures |r| == n && forall i | 0 <= i < n :: r[i] == x
  {
    seq(n, _ => x)
  }

  function Issue(show: real -> string, amount: real, o: Options): Invoice {
    var c, q, tax := CategoryOf(o), TaxFactor(o.isDutyFree), TaxAmt(amount, o.isDutyFree);
    var amt := amount - tax as real;
    var products, shipped := RoundProductList(o.products), if Ships(o.shipping) then 1 else 0;
    var charges := ProductCharges(c, q, products) + DiscountCharges(c, q, o.discounts)
      + ShippingCharges(c, q, o.shipping);
    Invoice(
      ProductNames(show, products) + DiscountNames(o.discounts) + ShippingNames(o.shipping),
      Quantity(products) + Repeat(1.0, |o.discounts|) + Repeat(1.0, shipped),
      charges,
      charges,
      Repeat(PIECE, |products| + |o.discounts|) + Repeat(ENTRY, shipped),
      Round(amt),
      Round(amount),
      tax,
      if o.isDutyFree then Some(amt) else None
    )
  }

  // ----- the tax -----

  lemma TaxIsOneTwentyFirst(amount: real)
    ensures amount - amount / TaxFactor(false) == amount / 21.0
  {
  }

  /**
   Net amount and tax always make up the total. At five percent and for a whole amount the tax is the amount over 21 to
   within a half; free of duty there is none.
   */
  lemma TaxSplit(show: real -> string, amount: real, o: Options)
    ensures var i := Issue(show, amount, o);
            && i.amt + i.taxAmt == i.totalAmt
            && (o.isDutyFree ==> i.taxAmt == 0 && i.amtFree == Some(amount))
            && (!o.isDutyFree && amount == amount.Floor as real ==> -10 <= 21 * i.taxAmt - amount.Floor <= 10)
  {
    var tax := TaxAmt(amount, o.isDutyFree);
    assert Round(amount - tax as real) == Round(amount) - tax;
    if o.isDutyFree {
      assert tax == 0;
      assert amount - tax as real == amount;
    } else {
      TaxIsOneTwentyFirst(amount);
    }
  }

  // ----- what the lines add up to -----

  function Sum(xs: seq<real>): real {
    if xs == [] then 0.0 else Sum(xs[..|xs| - 1]) + xs[|xs| - 1]
  }

  lemma {:induction false} SumOfBoth(a: seq<real>, b: seq<real>)
    ensures Sum(a + b) == Sum(a) + Sum(b)
  {
    if b == [] {
      assert a + b == a;
    } else {
      assert (a + b)[..|a + b| - 1] == a + b[..|b| - 1];
      SumOfBoth(a, b[..|b| - 1]);
    }
  }

  function Prices(items: seq<Item>): real {
    if items == [] then 0.0 else Prices(items[..|items| - 1]) + items[|items| - 1].number
  }

  function Discounted(discounts: seq<Discount>): real {
    if discounts == [] then 0.0 else Discounted(discounts[..|discounts| - 1]) + discounts[|discounts| - 1].price
  }

  function Fee(shipping: Option<Shipping>): real {
    if Ships(shipping) then shipping.value.fee else 0.0
  }

  /** What the order comes to. */
  function Charged(o: Options): real {
    Prices(o.products) - Discounted(o.discounts) + Fee(o.shipping)
  }

  lemma SumOfLines(show: real -> string, amount: real, o: Options)
    ensures var c, q := CategoryOf(o), TaxFactor(o.isDutyFree);
            Sum(Issue(show, amount, o).itemAmt)
            == Sum(ProductCharges(c, q, RoundProductList(o.products))) + Sum(DiscountCharges(c, q, o.discounts))
               + Sum(ShippingCharges(c, q, o.shipping))
  {
    var c, q := CategoryOf(o), TaxFactor(o.isDutyFree);
    var p, d, s := ProductCharges(c, q, RoundProductList(o.products)), DiscountCharges(c, q, o.discounts),
      ShippingCharges(c, q, o.shipping);
    SumOfBoth(p + d, s);
    SumOfBoth(p, d);
  }

  lemma SumOfOne(x: real)
    ensures Sum([x]) == x
  {
    assert [x][..0] == [];
  }

  lemma DivideSum(a: real, b: real, q: real)
    requires q > 0.0
    ensures (a + b) / q == a / q + b / q && (-a) / q == -(a / q)
  {
  }

  /** Within `n` halves. */
  predicate Near(x: real, y: real, n: int) {
    -(n as real) <= 2.0 * (x - y) <= n as real
  }

  /** What the products come to without tax, before any rounding. */
  function NetPrices(q: real, items: seq<Item>): real
    requires q > 0.0
  {
    if items == [] then 0.0 else NetPrices(q, items[..|items| - 1]) + items[|items| - 1].number / q
  }

  function NetDiscounts(q: real, discounts: seq<Discount>): real
    requires q > 0.0
  {
    if discounts == [] then 0.0
      else NetDiscounts(q, discounts[..|discounts| - 1]) + discounts[|discounts| - 1].price / q
  }

  lemma {:induction false} NetPricesIs(q: real, items: seq<Item>)
    requires q > 0.0
    ensures NetPrices(q, items) == Prices(items) / q
  {
    if items == [] {
    } else {
      NetPricesIs(q, items[..|items| - 1]);
      DivideSum(Prices(items[..|items| - 1]), items[|items| - 1].number, q);
    }
  }

  lemma {:induction false} NetDiscountsIs(q: real, discounts: seq<Discount>)
    requires q > 0.0
    ensures NetDiscounts(q, discounts) == Discounted(discounts) / q
  {
    if discounts == [] {
    } else {
      NetDiscountsIs(q, discounts[..|discounts| - 1]);
      DivideSum(Discounted(discounts[..|discounts| - 1]), discounts[|discounts| - 1].price, q);
    }
  }

  lemma {:induction false} ProductChargesNear(q: real, items: seq<Item>)
    requires q > 0.0
    ensures Near(Sum(ProductCharges(B2B, q, items)), NetPrices(q, items), |items|)
  {
    if items == [] {
    } else {
      ProductChargesNear(q, items[..|items| - 1]);
    }
  }

  lemma {:induction false} DiscountChargesNear(q: real, discounts: seq<Discount>)
    requires q > 0.0
    ensures Near(Sum(DiscountCharges(B2B, q, discounts)), -NetDiscounts(q, discounts), |discounts|)
  {
    if discounts == [] {
    } else {
      DiscountChargesNear(q, discounts[..|discounts| - 1]);
    }
  }

  lemma {:induction false} ProductChargesExact(c: Category, q: real, items: seq<Item>)
    requires q > 0.0 && c != B2B
    ensures Sum(ProductCharges(c, q, items)) == Prices(items)
  {
    if items == [] {
    } else {
      ProductChargesExact(c, q, items[..|items| - 1]);
    }
  }

  lemma {:induction false} DiscountChargesExact(c: Category, q: real, discounts: seq<Discount>)
    requires q > 0.0 && c != B2B
    ensures Sum(DiscountCharges(c, q, discounts)) == -Discounted(discounts)
  {
    if discounts == [] {
    } else {
      DiscountChargesExact(c, q, discounts[..|discounts| - 1]);
    }
  }

  // ----- products sold one by one -----

  /** The products of an order: a quantity of one, and no amount of their own. */
  ghost predicate OneEach(items: seq<Item>) {
    forall j | 0 <= j < |items| :: items[j].quantity == 1.0 && items[j].amount.None?
  }

  ghost predicate WholePrices(items: seq<Item>) {
    forall j | 0 <= j < |items| :: items[j].number == items[j].number.Floor as real
  }

  /** By how much rounding the products raises what they come to. */
  function Excess(items: seq<Item>): real {
    RoundedTotal(items) as real - Total(items) + if Surplus(items) > 0 then Surplus(items) as real else 0.0
  }

  lemma {:induction false} PricesAreTotal(items: seq<Item>)
    requires forall j | 0 <= j < |items| :: items[j].quantity == 1.0
    ensures Prices(items) == Total(items)
  {
    if items == [] {
    } else {
      PricesAreTotal(items[..|items| - 1]);
    }
  }

  lemma {:induction false} RoundedQuantities(items: seq<Item>)
    requires OneEach(items)
    ensures forall j | 0 <= j < |items| :: RoundItems(PRODUCT_METHODS, items)[j].quantity == 1.0
  {
    CeilOfInt(1);
    if items == [] {
    } else {
      RoundedQuantities(items[..|items| - 1]);
    }
  }

  lemma FinishedPrices(items: seq<Item>)
    requires OneEach(items)
    ensures Prices(RoundProductList(items)) == Prices(items) + Excess(items)
  {
    RoundedQuantities(items);
    PricesAreTotal(items);
    PricesAreTotal(RoundProductList(items));
    FinalTotal(items);
  }

  lemma CeilIff(x: real)
    ensures Ceil(x) as real >= x && (Ceil(x) as real == x <==> x == x.Floor as real)
  {
    FloorOfInt(Ceil(x));
    CeilOfInt(x.Floor);
  }

  lemma RoundedTotalOne(items: seq<Item>)
    requires OneEach(items) && items != []
    ensures RoundedTotal(items) == RoundedTotal(items[..|items| - 1]) + Ceil(items[|items| - 1].number)
    ensures Total(items) == Total(items[..|items| - 1]) + items[|items| - 1].number
  {
    CeilOfInt(1);
    var i := items[|items| - 1];
    assert i.quantity == 1.0 && Ceil(i.quantity) == 1;
  }

  lemma WholePricesLast(items: seq<Item>)
    requires items != []
    ensures var last := items[|items| - 1].number;
            WholePrices(items) <==> WholePrices(items[..|items| - 1]) && last == last.Floor as real
  {
    var init, last := items[..|items| - 1], items[|items| - 1];
    if WholePrices(init) && last.number == last.number.Floor as real {
      forall j | 0 <= j < |items|
        ensures items[j].number == items[j].number.Floor as real
      {
        assert j < |init| ==> init[j] == items[j];
      }
    }
  }

  lemma {:induction false} RoundedTotalAbove(items: seq<Item>)
    requires OneEach(items)
    ensures RoundedTotal(items) as real >= Total(items)
    ensures RoundedTotal(items) as real == Total(items) <==> WholePrices(items)
  {
    if items == [] {
    } else {
      RoundedTotalAbove(items[..|items| - 1]);
      RoundedTotalOne(items);
      WholePricesLast(items);
      CeilIff(items[|items| - 1].number);
    }
  }

  /** Rounding adds nothing exactly when every price is whole. */
  lemma ExcessIff(items: seq<Item>)
    requires OneEach(items)
    ensures Excess(items) >= 0.0 && (Excess(items) == 0.0 <==> WholePrices(items))
  {
    RoundedTotalAbove(items);
  }

  /**
   Not for a company: the lines come to what the order comes to, plus the excess. They agree exactly when every product
   price is whole, whatever the discounts and the fee.
   */
  lemma ConsumerLines(show: real -> string, amount: real, o: Options)
    requires OneEach(o.products)
    requires o.donationCode != "" || o.phoneBarCode != "" || o.uniformNumber == ""
    ensures Sum(Issue(show, amount, o).itemAmt) == Charged(o) + Excess(o.products)
    ensures Sum(Issue(show, amount, o).itemAmt) == Charged(o) <==> WholePrices(o.products)
  {
    var c, q := CategoryOf(o), TaxFactor(o.isDutyFree);
    SumOfLines(show, amount, o);
    ProductChargesExact(c, q, RoundProductList(o.products));
    FinishedPrices(o.products);
    DiscountChargesExact(c, q, o.discounts);
    SumOfOne(Fee(o.shipping));
    ExcessIff(o.products);
  }

  lemma ShippingChargesNear(q: real, shipping: Option<Shipping>)
    requires q > 0.0
    ensures Near(Sum(ShippingCharges(B2B, q, shipping)), Fee(shipping) / q, |ShippingCharges(B2B, q, shipping)|)
  {
    SumOfOne(Charge(B2B, q, Fee(shipping)));
  }

  lemma NetCharged(q: real, prices: real, discounted: real, fee: real)
    requires q > 0.0
    ensures prices / q - discounted / q + fee / q == (prices - discounted + fee) / q
  {
    DivideSum(prices, -discounted, q);
    DivideSum(discounted, 0.0, q);
    DivideSum(prices - discounted, fee, q);
  }

  lemma NearThree(p: real, a: real, m: nat, d: real, b: real, k: nat, s: real, c: real, l: nat)
    requires Near(p, a, m) && Near(d, -b, k) && Near(s, c, l)
    ensures Near(p + d + s, a - b + c, m + k + l)
  {
  }

  lemma AllChargesNear(q: real, items: seq<Item>, discounts: seq<Discount>, shipping: Option<Shipping>)
    requires q > 0.0
    ensures Near(Sum(ProductCharges(B2B, q, items)) + Sum(DiscountCharges(B2B, q, discounts))
              + Sum(ShippingCharges(B2B, q, shipping)),
                 NetPrices(q, items) - NetDiscounts(q, discounts) + Fee(shipping) / q,
                 |items| + |discounts| + |ShippingCharges(B2B, q, shipping)|)
  {
    ProductChargesNear(q, items);
    DiscountChargesNear(q, discounts);
    ShippingChargesNear(q, shipping);
    NearThree(Sum(ProductCharges(B2B, q, items)), NetPrices(q, items), |items|,
              Sum(DiscountCharges(B2B, q, discounts)), NetDiscounts(q, discounts), |discounts|,
              Sum(ShippingCharges(B2B, q, shipping)), Fee(shipping) / q, |ShippingCharges(B2B, q, shipping)|);
  }

  /** What the finished lines come to without tax. */
  lemma FinishedNet(q: real, o: Options)
    requires q > 0.0 && OneEach(o.products)
    ensures NetPrices(q, RoundProductList(o.products)) - NetDiscounts(q, o.discounts) + Fee(o.shipping) / q
         == (Charged(o) + Excess(o.products)) / q
  {
    NetPricesIs(q, RoundProductList(o.products));
    NetDiscountsIs(q, o.discounts);
    FinishedPrices(o.products);
    NetCharged(q, Prices(o.products) + Excess(o.products), Discounted(o.discounts), Fee(o.shipping));
    assert Prices(o.products) + Excess(o.products) - Discounted(o.discounts) + Fee(o.shipping)
             == Charged(o) + Excess(o.products);
  }

  lemma CompanyLinesNear(show: real -> string, amount: real, o: Options)
    requires OneEach(o.products)
    requires o.donationCode == "" && o.phoneBarCode == "" && o.uniformNumber != ""
    ensures Near(Sum(Issue(show, amount, o).itemAmt), (Charged(o) + Excess(o.products)) / TaxFactor(o.isDutyFree),
                 |Issue(show, amount, o).itemAmt|)
  {
    SumOfLines(show, amount, o);
    AllChargesNear(TaxFactor(o.isDutyFree), RoundProductList(o.products), o.discounts, o.shipping);
    FinishedNet(TaxFactor(o.isDutyFree), o);
  }

  /** The tax takes the net amount a half at most from the amount over the tax factor. */
  lemma NetNear(sum: real, excess: real, amount: real, isDutyFree: bool, n: nat)
    requires Near(sum, (amount + excess) / TaxFactor(isDutyFree), n)
    ensures -(n + 1) as real
            <= 2.0 * (sum - excess / TaxFactor(isDutyFree) - (amount - TaxAmt(amount, isDutyFree) as real))
              <= (n + 1) as real
  {
    DivideSum(amount, excess, TaxFactor(isDutyFree));
  }

  lemma NoExcessIff(excess: real, q: real)
    requires q > 0.0
    ensures excess / q == 0.0 <==> excess == 0.0
  {
  }

  lemma NetOfWhole(show: real -> string, amount: real, o: Options)
    requires amount == amount.Floor as real
    ensures Issue(show, amount, o).amt as real == amount - TaxAmt(amount, o.isDutyFree) as real
  {
    var net := amount.Floor - TaxAmt(amount, o.isDutyFree);
    assert amount - TaxAmt(amount, o.isDutyFree) as real == net as real;
    assert Round(net as real) == net;
  }

  /**
   For a company: when the products less the discounts plus the fee come to the amount and every price is whole, the
   lines differ from the net amount by at most half of one more than their number. Prices that are not whole move the
   lines by their excess without tax.
   */
  lemma CompanyLines(show: real -> string, amount: real, o: Options)
    requires OneEach(o.products) && Charged(o) == amount
    requires o.donationCode == "" && o.phoneBarCode == "" && o.uniformNumber != ""
    ensures var i, excess := Issue(show, amount, o), Excess(o.products) / TaxFactor(o.isDutyFree);
            && -(|i.itemAmt| + 1) as real
               <= 2.0 * (Sum(i.itemAmt) - excess - (amount - i.taxAmt as real)) <= (|i.itemAmt| + 1) as real
            && (WholePrices(o.products) <==> excess == 0.0)
            && (amount == amount.Floor as real ==> i.amt as real == amount - i.taxAmt as real)
  {
    CompanyLinesNear(show, amount, o);
    NetNear(Sum(Issue(show, amount, o).itemAmt), Excess(o.products), amount, o.isDutyFree,
            |Issue(show, amount, o).itemAmt|);
    ExcessIff(o.products);
    NoExcessIff(Excess(o.products), TaxFactor(o.isDutyFree));
    if amount == amount.Floor as real {
      NetOfWhole(show, amount, o);
    }
  }

  lemma SameCounts(show: real -> string, amount: real, o: Options)
    ensures var i := Issue(show, amount, o);
            |i.itemName| == |i.itemCount| == |i.itemPrice| == |i.itemAmt| == |i.itemUnit|
  {
  }

  lemma {:induction false} QuantityAt(items: seq<Item>, j: nat)
    requires j < |items|
    ensures Quantity(items)[j] == items[j].quantity
  {
    if j < |items| - 1 {
      QuantityAt(items[..|items| - 1], j);
    }
  }

  /** The amount of every line is its price times its count, the line for the surplus among them. */
  lemma LinesMultiply(show: real -> string, amount: real, o: Options, j: nat)
    requires OneEach(o.products) && j < |Issue(show, amount, o).itemAmt|
    ensures var i := Issue(show, amount, o);
            j < |i.itemCount| && j < |i.itemPrice| && i.itemAmt[j] == i.itemPrice[j] * i.itemCount[j]
  {
    SameCounts(show, amount, o);
    var i, products := Issue(show, amount, o), RoundProductList(o.products);
    assert i.itemCount[j] == 1.0 by {
      if j < |products| {
        RoundedQuantities(o.products);
        QuantityAt(products, j);
        assert products[j].quantity == 1.0;
      }
    }
  }

  // ----- the columns fit together -----

  /** No numeral has the separator. */
  ghost predicate Plain(show: real -> string) {
    forall x :: '|' !in show(x)
  }

  function Shown(show: real -> string, xs: seq<real>): (r: seq<string>)
    ensures |r| == |xs|
    ensures forall j | 0 <= j < |xs| :: r[j] == show(xs[j])
  {
    if xs == [] then [] else Shown(show, xs[..|xs| - 1]) + [show(xs[|xs| - 1])]
  }

  /** The columns in the order in which the codec reads them. */
  function Sent(show: real -> string, i: Invoice): Columns {
    [Join(i.itemName, '|'), Join(Shown(show, i.itemCount), '|'), Join(Shown(show, i.itemPrice), '|'),
     Join(Shown(show, i.itemAmt), '|'), Join(i.itemUnit, '|')]
  }

  lemma ShownFree(show: real -> string, xs: seq<real>)
    requires Plain(show)
    ensures Free(Shown(show, xs), '|')
  {
    forall j | 0 <= j < |xs|
      ensures '|' !in Shown(show, xs)[j]
    {
      var x := xs[j];
      assert '|' !in show(x);
    }
  }

  lemma UnitsFree(show: real -> string, amount: real, o: Options)
    ensures Free(Issue(show, amount, o).itemUnit, '|')
  {
  }

  /** Four columns of the same length, and a first one that may be longer. */
  lemma EvenFive(columns: Columns, n: nat)
    requires forall k | 1 <= k < 5 :: |Split(columns[k], '|')| == n
    ensures |Split(columns[0], '|')| == n <==> EvenColumns(columns, '|', |Split(columns[0], '|')|)
  {
    assert |Split(columns[1], '|')| == n;
  }

  lemma NumbersFit(show: real -> string, xs: seq<real>)
    requires xs != [] && Plain(show)
    ensures |Split(Join(Shown(show, xs), '|'), '|')| == |xs|
  {
    ShownFree(show, xs);
    FieldCount(Shown(show, xs), '|');
  }

  lemma SentFitIff(show: real -> string, i: Invoice)
    requires Plain(show)
    requires i.itemName != [] && |i.itemName| == |i.itemCount| == |i.itemPrice| == |i.itemAmt| == |i.itemUnit|
    requires Free(i.itemUnit, '|')
    ensures var columns := Sent(show, i);
            && (Free(i.itemName, '|') <==> EvenColumns(columns, '|', |Split(columns[0], '|')|))
            && (Free(i.itemName, '|') <==> GenerateInvoiceString(GetProductItems(columns)) == columns)
            && (Free(i.itemName, '|') ==> EvenColumns(columns, '|', |i.itemName|))
  {
    FieldCount(i.itemName, '|');
    NumbersFit(show, i.itemCount);
    NumbersFit(show, i.itemPrice);
    NumbersFit(show, i.itemAmt);
    FieldCount(i.itemUnit, '|');
    EvenFive(Sent(show, i), |i.itemName|);
    InvoiceRoundTrips([], Sent(show, i));
  }

  /**
   An invoice with lines has columns of equal length exactly when no name that is sent has the separator; they are then
   given back by parsing and generating.
   */
  lemma ColumnsFitIff(show: real -> string, amount: real, o: Options)
    requires Plain(show)
    requires Issue(show, amount, o).itemName != []
    ensures var i := Issue(show, amount, o);
            var columns := Sent(show, i);
            && (Free(i.itemName, '|') <==> EvenColumns(columns, '|', |Split(columns[0], '|')|))
            && (Free(i.itemName, '|') <==> GenerateInvoiceString(GetProductItems(columns)) == columns)
            && (Free(i.itemName, '|') ==> EvenColumns(columns, '|', |i.itemName|))
  {
    SameCounts(show, amount, o);
    UnitsFree(show, amount, o);
    SentFitIff(show, Issue(show, amount, o));
  }

  // ----- the options made from an order -----

  const WIDE_BAR := '\U{FF5C}'

  /** Every '|' becomes a full-width one. */
  function Sanitize(s: string): (r: string)
    ensures |r| == |s| && '|' !in r
    ensures forall j | 0 <= j < |s| :: r[j] == if s[j] == '|' then '\U{FF5C}' else s[j]
  {
    if s == "" then "" else Sanitize(s[..|s| - 1]) + [if s[|s| - 1] == '|' then WIDE_BAR else s[|s| - 1]]
  }

  datatype OrderLine = OrderLine(name: string, price: real)

  function OrderProducts(lines: seq<OrderLine>): (r: seq<Item>)
    ensures |r| == |lines| && OneEach(r)
    ensures forall j | 0 <= j < |r| :: '|' !in r[j].name && r[j].number == lines[j].price
  {
    if lines == [] then []
    else
      var last := lines[|lines| - 1];
      OrderProducts(lines[..|lines| - 1]) + [Item(Sanitize(last.name), last.price, 1.0, None, None)]
  }

  function OrderDiscounts(lines: seq<OrderLine>): (r: seq<Discount>)
    ensures |r| == |lines|
    ensures forall j | 0 <= j < |r| :: '|' !in r[j].name && r[j].price == lines[j].price
  {
    if lines == [] then []
    else
      var last := lines[|lines| - 1];
      OrderDiscounts(lines[..|lines| - 1]) + [Discount(Sanitize(last.name), last.price)]
  }

  function OrderShipping(shipping: Option<Shipping>): Option<Shipping> {
    match shipping
    case Some(Shipping(via, fee)) => Some(Shipping(Sanitize(via), fee))
    case None => None
  }

  /** The options that are passed on for an order; the other fields are copied from it. */
  function ForOrder(products: seq<OrderLine>, discounts: seq<OrderLine>, shipping: Option<Shipping>,
                    rest: Options): Options {
    rest.(products := OrderProducts(products), discounts := OrderDiscounts(discounts),
          shipping := OrderShipping(shipping))
  }

  ghost predicate NamesFree(items: seq<Item>) {
    forall j | 0 <= j < |items| :: '|' !in items[j].name
  }

  lemma {:induction false} RoundItemsNames(items: seq<Item>)
    requires NamesFree(items)
    ensures NamesFree(RoundItems(PRODUCT_METHODS, items))
  {
    if items == [] {
    } else {
      RoundItemsNames(items[..|items| - 1]);
    }
  }

  lemma {:induction false} ProductNamesFree(show: real -> string, items: seq<Item>)
    requires NamesFree(items) && Plain(show)
    ensures Free(ProductNames(show, items), '|')
  {
    if items == [] {
    } else {
      ProductNamesFree(show, items[..|items| - 1]);
    }
  }

  lemma {:induction false} DiscountNamesFree(discounts: seq<Discount>)
    requires forall j | 0 <= j < |discounts| :: '|' !in discounts[j].name
    ensures Free(DiscountNames(discounts), '|')
  {
    if discounts == [] {
    } else {
      DiscountNamesFree(discounts[..|discounts| - 1]);
    }
  }

  lemma ShippingNamesFree(shipping: Option<Shipping>)
    requires shipping.Some? ==> '|' !in shipping.value.via
    ensures Free(ShippingNames(shipping), '|')
  {
    if Ships(shipping) {
      var name := SHIPPING_PREFIX + shipping.value.via;
      assert '|' !in SHIPPING_PREFIX && '|' !in name;
      assert ShippingNames(shipping)[0] <= name;
    }
  }

  lemma FreeBoth(a: seq<string>, b: seq<string>, sep: char)
    requires Free(a, sep) && Free(b, sep)
    ensures Free(a + b, sep)
  {
  }

  lemma OrderNamesFree(show: real -> string, amount: real, products: seq<OrderLine>, discounts: seq<OrderLine>,
                       shipping: Option<Shipping>, rest: Options)
    requires Plain(show)
    ensures Free(Issue(show, amount, ForOrder(products, discounts, shipping, rest)).itemName, '|')
  {
    var o := ForOrder(products, discounts, shipping, rest);
    var finished := RoundProductList(o.products);
    RoundItemsNames(o.products);
    ProductNamesFree(show, finished);
    DiscountNamesFree(o.discounts);
    ShippingNamesFree(o.shipping);
    FreeBoth(ProductNames(show, finished), DiscountNames(o.discounts), '|');
    FreeBoth(ProductNames(show, finished) + DiscountNames(o.discounts), ShippingNames(o.shipping), '|');
  }

  lemma NothingSentFits(show: real -> string, i: Invoice)
    requires i.itemName == [] && |i.itemCount| == |i.itemPrice| == |i.itemAmt| == |i.itemUnit| == 0
    ensures EvenColumns(Sent(show, i), '|', 1)
  {
    var columns := Sent(show, i);
    forall k | 0 <= k < |columns|
      ensures |Split(columns[k], '|')| == 1
    {
      assert columns[k] == "";
    }
  }

  /** For an order the columns always fit, whatever its names: parsing and generating gives them back. */
  lemma OrderColumnsFit(show: real -> string, amount: real, products: seq<OrderLine>, discounts: seq<OrderLine>,
                        shipping: Option<Shipping>, rest: Options)
    requires Plain(show)
    ensures var columns := Sent(show, Issue(show, amount, ForOrder(products, discounts, shipping, rest)));
            && EvenColumns(columns, '|', |Split(columns[0], '|')|)
            && GenerateInvoiceString(GetProductItems(columns)) == columns
  {
    var o := ForOrder(products, discounts, shipping, rest);
    OrderNamesFree(show, amount, products, discounts, shipping, rest);
    if Issue(show, amount, o).itemName == [] {
      SameCounts(show, amount, o);
      NothingSentFits(show, Issue(show, amount, o));
      InvoiceRoundTrips([], Sent(show, Issue(show, amount, o)));
    } else {
      ColumnsFitIff(show, amount, o);
    }
  }
}
