/** Values derived from stored prices: the sale flag of a product card, the
    discount percent of a product page, and the cart and checkout totals. */
module Pricing {
  import opened Store
  import opened CartModel

  /** JavaScript truthiness of the nullable `compare_price` column: both
      null and 0 are false. */
  predicate CompareSet(p: Product)
  {
    p.comparePrice.Some? && p.comparePrice.value != 0
  }

  /** `hasSale` of the product card: the SALE badge and the struck-through
      compare price are shown exactly when this holds. */
  predicate HasSale(p: Product)
    ensures HasSale(p) ==> Savings(p).Some?
  {
    CompareSet(p) && p.comparePrice.value > p.price
  }

  /** For non-negative prices the card's test is the plain comparison. */
  lemma SaleIffAbovePrice(p: Product)
    requires p.price >= 0
    ensures HasSale(p) <==> p.comparePrice.Some? && p.comparePrice.value > p.price
  {
  }

  /** `r` is `n / d` rounded to the nearest whole number, halves away from
      zero, which is what `toFixed(0)` prints. */
  predicate RoundsTo(n: int, d: int, r: int)
    requires d > 0
  {
    if n >= 0 then (2 * r - 1) * d <= 2 * n < (2 * r + 1) * d
    else (2 * r - 1) * d < 2 * n <= (2 * r + 1) * d
  }

  function RoundHalfAway(n: int, d: int): (r: int)
    requires d > 0
    ensures RoundsTo(n, d, r)
  {
    if n >= 0 then
      var q := (2 * n + d) / (2 * d);
      DivBounds(2 * n + d, 2 * d);
      q
    else
      var q := (2 * -n + d) / (2 * d);
      DivBounds(2 * -n + d, 2 * d);
      -q
  }

  lemma DivBounds(a: int, b: int)
    requires b > 0
    ensures b * (a / b) <= a < b * (a / b) + b
  {
  }

  /** The numerator and positive denominator of `(cp - p) / cp * 100`. */
  function PercentNumerator(cp: int, p: int): int
  {
    if cp > 0 then (cp - p) * 100 else (p - cp) * 100
  }

  function Abs(x: int): nat { if x >= 0 then x else -x }

  /** The product page's `savings`: present whenever `compare_price` is set,
      also when it is not above the price (then it is zero or negative). */
  function Savings(p: Product): (r: Option<int>)
    ensures r.Some? <==> CompareSet(p)
    ensures r.Some? ==> RoundsTo(PercentNumerator(p.comparePrice.value, p.price), Abs(p.comparePrice.value), r.value)
  {
    if CompareSet(p) then
      var cp := p.comparePrice.value;
      Some(RoundHalfAway(PercentNumerator(cp, p.price), Abs(cp)))
    else None
  }

  lemma MulCancelLe(a: int, b: int, c: int)
    requires c > 0 && a * c <= b * c
    ensures a <= b
  {
    assert (a - b) * c == a * c - b * c;
  }

  /** On a product that is on sale, the discount lies between 0 and 100. */
  lemma {:induction false} SaleDiscountInRange(p: Product)
    requires HasSale(p) && p.price >= 0
    ensures Savings(p).Some? && 0 <= Savings(p).value <= 100
  {
    var cp := p.comparePrice.value;
    var r := Savings(p).value;
    var n := (cp - p.price) * 100;
    assert PercentNumerator(cp, p.price) == n && Abs(cp) == cp;
    assert (2 * r - 1) * cp <= 2 * n < (2 * r + 1) * cp;
    assert 2 * n <= 200 * cp;
    MulCancelLe(2 * r - 1, 200, cp);
    MulCancelLe(0, 2 * r + 1, cp);
  }

  /** The seed dress at 89 with compare price 120 shows a 26% discount. */
  lemma SeedDressDiscount(p: Product)
    requires p.price == 89 && p.comparePrice == Some(120)
    ensures HasSale(p) && Savings(p) == Some(26)
  {
  }

  /** The two rules differ: a compare price below the price shows no SALE
      badge but still a (negative) discount on the product page. */
  lemma DiscountWithoutSale(p: Product)
    requires p.price == 100 && p.comparePrice == Some(80)
    ensures !HasSale(p) && Savings(p) == Some(-25)
  {
  }

  // ---------------------------------------------------------------------
  // Totals
  // ---------------------------------------------------------------------

  /** `i.price * i.qty`, the amount shown on one cart line. */
  function LineTotal(l: Line): int { l.price * l.qty }

  /** `cart.reduce((s, i) => s + i.price * i.qty, 0)`, the total of the cart
      page and the subtotal and total of the checkout summary. */
  function CartTotal(lines: seq<Line>): (r: int)
    ensures lines == [] ==> r == 0
    ensures (forall i :: 0 <= i < |lines| ==> lines[i].price >= 0 && lines[i].qty >= 0) ==> r >= 0
  {
    SumNonNegative(lines, LineTotal);
    Sum(lines, LineTotal)
  }

  /** The unit price an add of `it` is charged at: the price frozen in the
      item's existing line, or the price passed for a new line. */
  function ChargedPrice(lines: seq<Line>, it: Item): int
  {
    match IndexOfKey(lines, Key(it.id, it.size, it.color))
    case Some(k) => lines[k].price
    case None => it.price
  }

  /** `n` adds raise the total by `n` times the charged price. */
  lemma TotalAfterAddTimes(lines: seq<Line>, it: Item, n: nat)
    ensures CartTotal(AddedTimes(lines, it, n)) == CartTotal(lines) + n * ChargedPrice(lines, it)
  {
    match IndexOfKey(lines, Key(it.id, it.size, it.color))
    case Some(k) => TotalAddTimesExisting(lines, it, k, n);
    case None => TotalAddTimesNew(lines, it, n);
  }

  lemma TotalAddTimesExisting(lines: seq<Line>, it: Item, k: nat, n: nat)
    requires IndexOfKey(lines, Key(it.id, it.size, it.color)) == Some(k)
    ensures CartTotal(AddedTimes(lines, it, n)) == CartTotal(lines) + n * lines[k].price
  {
    AddTimesExisting(lines, it, k, n);
    TotalRaise(lines, k, n);
  }

  /** Raising line `k` by `n` raises the total by `n` times its price. */
  lemma TotalRaise(lines: seq<Line>, k: nat, n: nat)
    requires k < |lines|
    ensures CartTotal(lines[k := lines[k].(qty := lines[k].qty + n)]) == CartTotal(lines) + n * lines[k].price
  {
    var l := lines[k].(qty := lines[k].qty + n);
    SumUpdate(lines, k, l, LineTotal);
    LineTotalMore(lines[k], n);
  }

  lemma LineTotalMore(x: Line, n: int)
    ensures LineTotal(x.(qty := x.qty + n)) == LineTotal(x) + n * x.price
  {
    assert x.price * (x.qty + n) == x.price * x.qty + n * x.price;
  }

  lemma TotalAddTimesNew(lines: seq<Line>, it: Item, n: nat)
    requires IndexOfKey(lines, Key(it.id, it.size, it.color)).None?
    ensures CartTotal(AddedTimes(lines, it, n)) == CartTotal(lines) + n * it.price
  {
    if n > 0 {
      var l := NewLine(it).(qty := n);
      AddTimesNew(lines, it, n);
      SumAppend(lines, l, LineTotal);
      assert LineTotal(l) == n * it.price;
    }
  }

  /** The checkout summary: subtotal, shipping (always free) and total. */
  datatype Summary = Summary(subtotal: int, shipping: int, total: int)

  /** The summary column of the checkout page; an empty cart keeps the
      placeholder. */
  function CheckoutSummary(lines: seq<Line>): (r: Option<Summary>)
    ensures r.None? <==> lines == []
    ensures r.Some? ==> r.value.shipping == 0 && r.value.total == r.value.subtotal + r.value.shipping
    ensures r.Some? ==> r.value.subtotal == CartTotal(lines)
  {
    if lines == [] then None
    else
      var total := CartTotal(lines);
      Some(Summary(total, 0, total))
  }
}
