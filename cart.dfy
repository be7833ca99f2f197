/** The browser-side cart of the storefront: an ordered list of line items,
    one per product/size/colour key, merged by `addToCart`. */
module CartModel {
  import opened Store

  /** The arguments of one `addToCart(id, name, price, size, color, image)` call. */
  datatype Item = Item(id: nat, name: string, price: int, size: string, color: string, image: string)

  /** One stored cart line: `{key, id, name, price, size, color, image, qty}`. */
  datatype Line = Line(key: string, id: nat, name: string, price: int, size: string, color: string, image: string, qty: int)

  // ---------------------------------------------------------------------
  // The line key `id + '_' + size + '_' + color`
  // ---------------------------------------------------------------------

  predicate IsDigit(c: char) { '0' <= c <= '9' }

  predicate AllDigits(s: string) { forall i :: 0 <= i < |s| ==> IsDigit(s[i]) }

  function DigitChar(d: nat): (c: char)
    requires d < 10
    ensures IsDigit(c)
  {
    (48 + d) as char
  }

  function DigitValue(c: char): nat
    requires IsDigit(c)
  {
    c as int - 48
  }

  /** Decimal text of a product id, as JavaScript writes a whole number. */
  function NatToString(n: nat): (s: string)
    ensures |s| >= 1 && AllDigits(s)
    decreases n
  {
    if n < 10 then [DigitChar(n)] else NatToString(n / 10) + [DigitChar(n % 10)]
  }

  /** Reads decimal digits back into a number. */
  function DigitsValue(s: string): nat
    requires AllDigits(s)
  {
    if s == [] then 0 else DigitsValue(s[..|s| - 1]) * 10 + DigitValue(s[|s| - 1])
  }

  lemma {:induction false} NatToStringRoundTrip(n: nat)
    ensures DigitsValue(NatToString(n)) == n
    decreases n
  {
    if n >= 10 {
      NatToStringRoundTrip(n / 10);
      var s := NatToString(n);
      assert s[..|s| - 1] == NatToString(n / 10);
    }
  }

  /** The line key `id + '_' + size + '_' + color`. */
  function Key(id: nat, size: string, color: string): string
  {
    NatToString(id) + "_" + size + "_" + color
  }

  /** A separator that occurs in neither left part splits a concatenation uniquely. */
  lemma {:induction false} SplitAtSeparator(u1: string, v1: string, u2: string, v2: string, c: char)
    requires c !in u1 && c !in u2
    requires u1 + [c] + v1 == u2 + [c] + v2
    ensures u1 == u2 && v1 == v2
  {
    var w := u1 + [c] + v1;
    assert forall i :: 0 <= i < |u1| ==> w[i] == u1[i];
    assert forall i :: 0 <= i < |u2| ==> w[i] == u2[i];
    assert w[|u1|] == c && w[|u2|] == c;
    assert |u1| == |u2|;
    assert u1 == w[..|u1|] == u2;
    assert v1 == w[|u1| + 1..] == v2;
  }

  lemma NoUnderscoreInDigits(s: string)
    requires AllDigits(s)
    ensures '_' !in s
  {
  }

  /** Two keys are equal only for the same id, size and colour, provided the
      sizes contain no underscore. */
  lemma {:induction false} KeyInjective(id1: nat, size1: string, color1: string, id2: nat, size2: string, color2: string)
    requires '_' !in size1 && '_' !in size2
    requires Key(id1, size1, color1) == Key(id2, size2, color2)
    ensures id1 == id2 && size1 == size2 && color1 == color2
  {
    var a1, a2 := NatToString(id1), NatToString(id2);
    NoUnderscoreInDigits(a1);
    NoUnderscoreInDigits(a2);
    assert a1 + ['_'] + (size1 + "_" + color1) == Key(id1, size1, color1);
    assert a2 + ['_'] + (size2 + "_" + color2) == Key(id2, size2, color2);
    SplitAtSeparator(a1, size1 + "_" + color1, a2, size2 + "_" + color2, '_');
    SplitAtSeparator(size1, color1, size2, color2, '_');
    NatToStringRoundTrip(id1);
    NatToStringRoundTrip(id2);
  }

  /** Without that proviso, two different variants of one product share a
      key, so adding both to an empty cart gives one line holding both. */
  lemma KeyCollision(name: string, price: int, image: string)
    ensures Key(1, "S_M", "Black") == Key(1, "S", "M_Black")
    ensures var a := Item(1, name, price, "S_M", "Black", image);
            var b := Item(1, name, price, "S", "M_Black", image);
            |Added(Added([], a), b)| == 1 && Added(Added([], a), b)[0].qty == 2
  {
    var a := Item(1, name, price, "S_M", "Black", image);
    var b := Item(1, name, price, "S", "M_Black", image);
    assert Key(1, "S_M", "Black") == Key(1, "S", "M_Black");
    AddNew([], a);
    AddExisting([NewLine(a)], b, 0);
  }

  // ---------------------------------------------------------------------
  // Specification of the cart operations on the list of lines
  // ---------------------------------------------------------------------

  /** `cart.find(i => i.key === key)`: the position of the first line with the key. */
  function IndexOfKey(lines: seq<Line>, key: string): (r: Option<nat>)
    ensures r.Some? ==> r.value < |lines| && lines[r.value].key == key
    ensures r.Some? ==> forall j :: 0 <= j < r.value ==> lines[j].key != key
    ensures r.None? <==> forall j :: 0 <= j < |lines| ==> lines[j].key != key
  {
    if lines == [] then None
    else if lines[0].key == key then Some(0)
    else match IndexOfKey(lines[1..], key)
      case Some(i) => Some(i + 1)
      case None => None
  }

  /** The line `addToCart` appends for an item not yet in the cart. */
  function NewLine(it: Item): Line
  {
    Line(Key(it.id, it.size, it.color), it.id, it.name, it.price, it.size, it.color, it.image, 1)
  }

  /** The lines after one `addToCart(it)`. */
  function Added(lines: seq<Line>, it: Item): seq<Line>
  {
    AddKeyed(lines, Key(it.id, it.size, it.color), NewLine(it))
  }

  /** The body of `addToCart` for a given key: raise the line with the key,
      or append `nl`. */
  function AddKeyed(lines: seq<Line>, key: string, nl: Line): seq<Line>
  {
    match IndexOfKey(lines, key)
    case Some(k) => lines[k := lines[k].(qty := lines[k].qty + 1)]
    case None => lines + [nl]
  }

  /** The lines after `n` calls of `addToCart(it)` in a row. */
  function AddedTimes(lines: seq<Line>, it: Item, n: nat): seq<Line>
    decreases n
  {
    if n == 0 then lines else Added(AddedTimes(lines, it, n - 1), it)
  }

  /** A left fold `lines.reduce((s, i) => s + f(i), 0)`. */
  function Sum(lines: seq<Line>, f: Line -> int): int
  {
    if lines == [] then 0 else Sum(lines[..|lines| - 1], f) + f(lines[|lines| - 1])
  }

  function Qty(l: Line): int { l.qty }

  /** The number `updateCartCount` shows: the sum of the quantities. It is
      0 for an empty cart and, when every quantity is positive, at least the
      number of lines. */
  function Count(lines: seq<Line>): (r: int)
    ensures lines == [] ==> r == 0
    ensures (forall i :: 0 <= i < |lines| ==> lines[i].qty >= 1) ==> r >= |lines|
  {
    SumAtLeastLength(lines, Qty);
    Sum(lines, Qty)
  }

  predicate KeyedLine(l: Line) { l.key == Key(l.id, l.size, l.color) }

  /** What every cart built by `addToCart` satisfies: each key is computed
      from its line's fields, keys are unique and every quantity is positive. */
  predicate ValidLines(lines: seq<Line>)
  {
    && (forall i :: 0 <= i < |lines| ==> KeyedLine(lines[i]) && lines[i].qty >= 1)
    && (forall i, j :: 0 <= i < j < |lines| ==> lines[i].key != lines[j].key)
  }

  function Keys(lines: seq<Line>): (ks: seq<string>)
    ensures |ks| == |lines| && forall i :: 0 <= i < |lines| ==> ks[i] == lines[i].key
  {
    if lines == [] then [] else [lines[0].key] + Keys(lines[1..])
  }

  // ---------------------------------------------------------------------
  // Properties of the fold
  // ---------------------------------------------------------------------

  lemma {:induction false} SumAppend(lines: seq<Line>, l: Line, f: Line -> int)
    ensures Sum(lines + [l], f) == Sum(lines, f) + f(l)
  {
    assert (lines + [l])[..|lines|] == lines;
  }

  lemma {:induction false} SumUpdate(lines: seq<Line>, k: nat, l: Line, f: Line -> int)
    requires k < |lines|
    ensures Sum(lines[k := l], f) == Sum(lines, f) - f(lines[k]) + f(l)
    decreases |lines|
  {
    var n := |lines|;
    var u := lines[k := l];
    if k == n - 1 {
      assert u[..n - 1] == lines[..n - 1];
    } else {
      assert u[..n - 1] == lines[..n - 1][k := l];
      SumUpdate(lines[..n - 1], k, l, f);
    }
  }

  lemma {:induction false} SumNonNegative(lines: seq<Line>, f: Line -> int)
    ensures (forall i :: 0 <= i < |lines| ==> f(lines[i]) >= 0) ==> Sum(lines, f) >= 0
    decreases |lines|
  {
    if lines != [] {
      SumNonNegative(lines[..|lines| - 1], f);
    }
  }

  lemma {:induction false} SumAtLeastLength(lines: seq<Line>, f: Line -> int)
    ensures (forall i :: 0 <= i < |lines| ==> f(lines[i]) >= 1) ==> Sum(lines, f) >= |lines|
    decreases |lines|
  {
    if lines != [] {
      SumAtLeastLength(lines[..|lines| - 1], f);
    }
  }

  // ---------------------------------------------------------------------
  // Properties of addToCart
  // ---------------------------------------------------------------------

  /** Adding an item already in the cart raises that line by one and touches nothing else:
      its price, name and image stay as first added (the price clause follows
      from the one before it and is kept to say so outright). */
  lemma AddExisting(lines: seq<Line>, it: Item, k: nat)
    requires IndexOfKey(lines, Key(it.id, it.size, it.color)) == Some(k)
    ensures |Added(lines, it)| == |lines|
    ensures Added(lines, it)[k] == lines[k].(qty := lines[k].qty + 1)
    ensures Added(lines, it)[k].price == lines[k].price
    ensures forall j :: 0 <= j < |lines| && j != k ==> Added(lines, it)[j] == lines[j]
  {
  }

  /** Adding an item not in the cart appends a line with quantity 1 at the end. */
  lemma AddNew(lines: seq<Line>, it: Item)
    requires IndexOfKey(lines, Key(it.id, it.size, it.color)).None?
    ensures Added(lines, it) == lines + [NewLine(it)]
    ensures Added(lines, it)[|lines|].qty == 1
  {
  }

  /** Every add raises the count by exactly one. */
  lemma {:induction false} CountAfterAdd(lines: seq<Line>, it: Item)
    ensures Count(Added(lines, it)) == Count(lines) + 1
  {
    match IndexOfKey(lines, Key(it.id, it.size, it.color))
    case Some(k) =>
      SumUpdate(lines, k, lines[k].(qty := lines[k].qty + 1), Qty);
    case None =>
      SumAppend(lines, NewLine(it), Qty);
  }

  /** `addToCart` keeps the keys unique and the quantities positive. */
  lemma AddKeepsValid(lines: seq<Line>, it: Item)
    requires ValidLines(lines)
    ensures ValidLines(Added(lines, it))
  {
    var key := Key(it.id, it.size, it.color);
    match IndexOfKey(lines, key)
    case Some(k) =>
    case None =>
      var r := lines + [NewLine(it)];
      forall i, j | 0 <= i < j < |r| ensures r[i].key != r[j].key {
        if j == |lines| {
          assert r[i] == lines[i];
        }
      }
  }

  /** First-insertion order: adding never reorders the keys, and appends the
      item's key exactly when it was missing. */
  lemma AddKeepsOrder(lines: seq<Line>, it: Item)
    ensures Keys(Added(lines, it)) == Keys(lines) + (if IndexOfKey(lines, Key(it.id, it.size, it.color)).Some? then [] else [Key(it.id, it.size, it.color)])
  {
  }

  /** Changing quantities only leaves the first position of every key where it was. */
  lemma {:induction false} IndexOfKeySameKeys(a: seq<Line>, b: seq<Line>, key: string)
    requires |a| == |b| && forall j :: 0 <= j < |a| ==> a[j].key == b[j].key
    ensures IndexOfKey(a, key) == IndexOfKey(b, key)
    decreases |a|
  {
    if a != [] && a[0].key != key {
      IndexOfKeySameKeys(a[1..], b[1..], key);
    }
  }

  /** `n` adds of an item already in the cart raise that line by exactly `n`. */
  lemma {:induction false} AddTimesExisting(lines: seq<Line>, it: Item, k: nat, n: nat)
    requires IndexOfKey(lines, Key(it.id, it.size, it.color)) == Some(k)
    ensures AddedTimes(lines, it, n) == lines[k := lines[k].(qty := lines[k].qty + n)]
    decreases n
  {
    if n == 0 {
      RaiseByZero(lines, k);
    } else {
      AddTimesExisting(lines, it, k, n - 1);
      AddOnceMore(lines, it, k, n);
    }
  }

  /** The line of an item raised by nothing is the line itself. */
  lemma RaiseByZero(lines: seq<Line>, k: nat)
    requires k < |lines|
    ensures lines[k := lines[k].(qty := lines[k].qty + 0)] == lines
  {
  }

  /** The `n`-th add on a cart where the item's line has already gained `n - 1`. */
  lemma AddOnceMore(lines: seq<Line>, it: Item, k: nat, n: nat)
    requires IndexOfKey(lines, Key(it.id, it.size, it.color)) == Some(k)
    requires n >= 1
    ensures Added(lines[k := lines[k].(qty := lines[k].qty + (n - 1))], it) == lines[k := lines[k].(qty := lines[k].qty + n)]
  {
    KeyedOnceMore(lines, Key(it.id, it.size, it.color), NewLine(it), k, n - 1);
  }

  lemma KeyedOnceMore(lines: seq<Line>, key: string, nl: Line, k: nat, m: nat)
    requires IndexOfKey(lines, key) == Some(k)
    ensures AddKeyed(lines[k := lines[k].(qty := lines[k].qty + m)], key, nl) == lines[k := lines[k].(qty := lines[k].qty + m + 1)]
  {
    var prev := lines[k := lines[k].(qty := lines[k].qty + m)];
    UpdateKeepsIndex(lines, k, prev[k], key);
    RaiseTwice(lines, k, m);
  }

  /** Raising a line by `m` and then by one raises it by `m + 1`. */
  lemma RaiseTwice(lines: seq<Line>, k: nat, m: nat)
    requires k < |lines|
    ensures var prev := lines[k := lines[k].(qty := lines[k].qty + m)];
      prev[k := prev[k].(qty := prev[k].qty + 1)] == lines[k := lines[k].(qty := lines[k].qty + m + 1)]
  {
  }

  /** Replacing a line by one with the same key leaves the key's first position. */
  lemma UpdateKeepsIndex(lines: seq<Line>, k: nat, l: Line, key: string)
    requires IndexOfKey(lines, key) == Some(k) && l.key == lines[k].key
    ensures IndexOfKey(lines[k := l], key) == Some(k)
  {
    IndexOfKeySameKeys(lines[k := l], lines, key);
  }

  /** `n >= 1` adds of a new item append one line holding quantity `n`. */
  lemma {:induction false} AddTimesNew(lines: seq<Line>, it: Item, n: nat)
    requires IndexOfKey(lines, Key(it.id, it.size, it.color)).None?
    requires n >= 1
    ensures AddedTimes(lines, it, n) == lines + [NewLine(it).(qty := n)]
    decreases n
  {
    var key := Key(it.id, it.size, it.color);
    if n == 1 {
      assert AddedTimes(lines, it, 0) == lines;
      assert NewLine(it).(qty := 1) == NewLine(it);
    } else {
      AddTimesNew(lines, it, n - 1);
      var prev := lines + [NewLine(it).(qty := n - 1)];
      assert AddedTimes(lines, it, n) == Added(prev, it);
      assert prev[|lines|].key == key;
      IndexOfKeyAtEnd(lines, NewLine(it).(qty := n - 1), key);
      assert Added(prev, it) == prev[|lines| := prev[|lines|].(qty := n)];
    }
  }

  /** A key missing from a list is found at the end of it once appended. */
  lemma IndexOfKeyAtEnd(lines: seq<Line>, l: Line, key: string)
    requires IndexOfKey(lines, key).None? && l.key == key
    ensures IndexOfKey(lines + [l], key) == Some(|lines|)
  {
    assert (lines + [l])[|lines|].key == key;
  }

  /** `n` adds raise the count by exactly `n`. */
  lemma {:induction false} CountAfterAddTimes(lines: seq<Line>, it: Item, n: nat)
    ensures Count(AddedTimes(lines, it, n)) == Count(lines) + n
    decreases n
  {
    if n > 0 {
      CountAfterAddTimes(lines, it, n - 1);
      CountAfterAdd(AddedTimes(lines, it, n - 1), it);
    }
  }

  /** `n` adds keep the keys unique and the quantities positive. */
  lemma {:induction false} AddTimesKeepsValid(lines: seq<Line>, it: Item, n: nat)
    requires ValidLines(lines)
    ensures ValidLines(AddedTimes(lines, it, n))
    decreases n
  {
    if n > 0 {
      AddTimesKeepsValid(lines, it, n - 1);
      AddKeepsValid(AddedTimes(lines, it, n - 1), it);
    }
  }

  /** Nothing caps a line: eleven adds of one item leave quantity 11. */
  lemma ElevenAdds(it: Item)
    ensures AddedTimes([], it, 11) == [NewLine(it).(qty := 11)]
  {
    AddTimesNew([], it, 11);
  }

  /** A second add at another price keeps the first price. */
  lemma PriceFrozen(id: nat, name: string, size: string, color: string)
    ensures var once := Added([], Item(id, name, 100, size, color, ""));
            Added(once, Item(id, name, 150, size, color, "")) == [NewLine(Item(id, name, 100, size, color, "")).(qty := 2)]
  {
    var it := Item(id, name, 100, size, color, "");
    var once := Added([], it);
    assert once == [NewLine(it)];
    assert IndexOfKey(once, Key(id, size, color)) == Some(0);
  }

  /** Three adds of one dress in different variants give three lines and a count of 3. */
  lemma ThreeVariants()
    ensures var it1 := Item(1, "Dress", 89, "S", "Black", "");
            var it2 := Item(1, "Dress", 89, "S", "White", "");
            var it3 := Item(1, "Dress", 89, "M", "Black", "");
            var c := Added(Added(Added([], it1), it2), it3);
            |c| == 3 && Count(c) == 3
  {
    var it1 := Item(1, "Dress", 89, "S", "Black", "");
    var it2 := Item(1, "Dress", 89, "S", "White", "");
    var it3 := Item(1, "Dress", 89, "M", "Black", "");
    assert NatToString(1) == "1";
    assert Key(1, "S", "Black") == "1_S_Black";
    assert Key(1, "S", "White") == "1_S_White";
    assert Key(1, "M", "Black") == "1_M_Black";
    assert "1_S_Black" != "1_S_White" by { assert "1_S_Black"[4] != "1_S_White"[4]; }
    assert "1_S_Black" != "1_M_Black" by { assert "1_S_Black"[2] != "1_M_Black"[2]; }
    assert "1_S_White" != "1_M_Black" by { assert "1_S_White"[2] != "1_M_Black"[2]; }
    var c1 := Added([], it1);
    assert c1 == [NewLine(it1)];
    assert IndexOfKey(c1, Key(1, "S", "White")).None?;
    var c2 := Added(c1, it2);
    assert c2 == [NewLine(it1), NewLine(it2)];
    assert IndexOfKey(c2, Key(1, "M", "Black")).None?;
    var c3 := Added(c2, it3);
    assert c3 == [NewLine(it1), NewLine(it2), NewLine(it3)];
    CountAfterAdd([], it1);
    CountAfterAdd(c1, it2);
    CountAfterAdd(c2, it3);
  }

  // ---------------------------------------------------------------------
  // The cart as the page script holds it
  // ---------------------------------------------------------------------

  /** The script's `cart` array together with the header badge that
      `updateCartCount` writes. */
  class Cart {
    var lines: seq<Line>
    var badge: int

    ghost predicate Valid()
      reads this
    {
      ValidLines(lines)
    }

    /** Script start-up: the stored lines are restored, then the badge is set. */
    constructor (stored: seq<Line>)
      ensures lines == stored && badge == Count(stored)
    {
      lines := stored;
      badge := Count(stored);
    }

    method UpdateCartCount()
      modifies this`badge
      ensures badge == Count(lines)
    {
      badge := Count(lines);
    }

    method AddToCart(it: Item) returns (ok: bool)
      modifies this
      ensures lines == Added(old(lines), it)
      ensures badge == Count(lines) == Count(old(lines)) + 1
      ensures old(Valid()) ==> Valid()
      ensures ok
    {
      var key := Key(it.id, it.size, it.color);
      var ex := IndexOfKey(lines, key);
      match ex {
        case Some(k) =>
          lines := lines[k := lines[k].(qty := lines[k].qty + 1)];
        case None =>
          lines := lines + [Line(key, it.id, it.name, it.price, it.size, it.color, it.image, 1)];
      }
      CountAfterAdd(old(lines), it);
      if ValidLines(old(lines)) {
        AddKeepsValid(old(lines), it);
      }
      UpdateCartCount();
      ok := true;
    }

    /** `getCart()`: the lines the other page scripts read. */
    function GetCart(): seq<Line>
      reads this
    {
      lines
    }
  }
}
