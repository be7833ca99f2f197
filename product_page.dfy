/** The script of the product page: the size, colour and quantity
    selectors and the two buttons that put the selection into the cart. */
module ProductPage {
  import opened Store
  import opened CartModel
  import opened SizeParsing

  /** `Math.max(1, Math.min(10, v))`, the new selector value in `changeQty`. */
  function ClampQty(v: int): (r: int)
    ensures 1 <= r <= 10
    ensures 1 <= v <= 10 ==> r == v
    ensures v < 1 ==> r == 1
    ensures v > 10 ==> r == 10
  {
    Max(1, Min(10, v))
  }

  /** `colors[0]`, the colour the page opens on: the first piece of the
      stored colours text with its outer white space removed, and `Black`
      for a product without stored colours. */
  lemma FirstColor(colors: Option<string>)
    ensures ParseColors(colors)[0] == Trim(Split(ColorsText(colors), ',')[0])
    ensures colors.None? ==> ParseColors(colors)[0] == "Black"
  {
    DefaultColors();
  }

  /** Clamping a value already in range changes nothing. */
  lemma ClampIdempotent(v: int)
    ensures ClampQty(ClampQty(v)) == ClampQty(v)
  {
  }

  /** The selector state of one product page and the cart it adds to. */
  class PageState {
    var qty: int
    var selSize: string
    var selColor: string
    const cart: Cart

    /** The quantity input is read-only and starts at 1; only `changeQty` writes it. */
    ghost predicate Valid()
      reads this
    {
      1 <= qty <= 10
    }

    /** The page opens on the first size, the first colour and quantity 1.
        `colors` is the product's `ParseColors` list, which is never empty.
        The first size is a parameter because the JSON reading of `sizes` is
        not modelled. */
    constructor (cart: Cart, firstSize: string, colors: seq<string>)
      requires |colors| >= 1
      ensures this.cart == cart && selSize == firstSize && qty == 1
      ensures selColor == colors[0]
      ensures Valid()
    {
      this.cart := cart;
      selSize := firstSize;
      selColor := colors[0];
      qty := 1;
    }

    /** A size button, one of which the page renders per parsed size. */
    method SelectSize(s: string)
      modifies this`selSize
      ensures selSize == s
    {
      selSize := s;
    }

    /** `selectColor`. The page renders no colour swatch, so nothing calls
        it, and every add uses the colour the constructor chose. */
    method SelectColor(c: string)
      modifies this`selColor
      ensures selColor == c
    {
      selColor := c;
    }

    /** The − and + buttons: the selector moves by `d` and stays within 1 to 10. */
    method ChangeQty(d: int)
      modifies this`qty
      ensures qty == ClampQty(old(qty) + d)
      ensures Valid()
    {
      qty := ClampQty(qty + d);
    }

    /** The loop shared by both buttons: `addToCart` once per selected unit. */
    method AddSelected(id: nat, name: string, price: int, img: string)
      requires Valid()
      modifies cart
      ensures cart.lines == AddedTimes(old(cart.lines), Item(id, name, price, selSize, selColor, img), qty)
      ensures cart.badge == Count(cart.lines) == Count(old(cart.lines)) + qty
      ensures ValidLines(old(cart.lines)) ==> ValidLines(cart.lines)
    {
      var it := Item(id, name, price, selSize, selColor, img);
      var i := 0;
      while i < qty
        invariant 0 <= i <= qty
        invariant cart.lines == AddedTimes(old(cart.lines), it, i)
        invariant i > 0 ==> cart.badge == Count(cart.lines)
      {
        var _ := cart.AddToCart(it);
        i := i + 1;
      }
      CountAfterAddTimes(old(cart.lines), it, qty);
      if ValidLines(old(cart.lines)) {
        AddTimesKeepsValid(old(cart.lines), it, qty);
      }
    }

    /** "Add to cart": the selection goes into the cart `qty` times. */
    method HandleATC(id: nat, name: string, price: int, img: string)
      requires Valid()
      modifies cart
      ensures cart.lines == AddedTimes(old(cart.lines), Item(id, name, price, selSize, selColor, img), qty)
      ensures cart.badge == Count(cart.lines) == Count(old(cart.lines)) + qty
    {
      AddSelected(id, name, price, img);
    }

    /** "Buy now": the same adds, then the page moves to the checkout. */
    method HandleBuyNow(id: nat, name: string, price: int, img: string) returns (location: string)
      requires Valid()
      modifies cart
      ensures cart.lines == AddedTimes(old(cart.lines), Item(id, name, price, selSize, selColor, img), qty)
      ensures cart.badge == Count(cart.lines) == Count(old(cart.lines)) + qty
      ensures location == "/checkout"
    {
      AddSelected(id, name, price, img);
      location := "/checkout";
    }
  }
}
