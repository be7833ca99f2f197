/** The selection and ordering of `/collections` and the lookups of
    `/product/:id`, stated over the product table as a sequence of rows in
    store order. */
module Catalog {
  import opened Store

  /** The recognised parameters of `/collections`. `cat` and `sort` are ""
      when absent, which the handler treats alike; a price bound is `None`
      when its parameter is absent or empty. */
  datatype Query = Query(cat: string, sort: string, min: Option<int>, max: Option<int>)

  datatype Order = PriceAsc | PriceDesc | Newest

  /** `ORDER BY price ASC`, `ORDER BY price DESC`, or `ORDER BY created_at DESC`
      for every other value of `sort`. */
  function OrderFor(sort: string): (o: Order)
    ensures o == PriceAsc <==> sort == "price_asc"
    ensures o == PriceDesc <==> sort == "price_desc"
  {
    if sort == "price_asc" then PriceAsc
    else if sort == "price_desc" then PriceDesc
    else Newest
  }

  /** The WHERE clause: each given parameter adds one conjunct, so a query
      without parameters keeps every row (`WHERE 1=1`) and crossed price
      bounds keep none. */
  predicate Matches(q: Query, p: Product)
    ensures q.cat == "" && q.min.None? && q.max.None? ==> Matches(q, p)
    ensures q.min.Some? && q.max.Some? && q.min.value > q.max.value ==> !Matches(q, p)
  {
    && (q.cat != "" ==> p.category == Some(q.cat))
    && (q.min.Some? ==> p.price >= q.min.value)
    && (q.max.Some? ==> p.price <= q.max.value)
  }

  /** `a` may come before `b` in a listing ordered by `o`. */
  predicate InOrder(o: Order, a: Product, b: Product)
  {
    match o
    case PriceAsc => a.price <= b.price
    case PriceDesc => a.price >= b.price
    case Newest => a.createdAt >= b.createdAt
  }

  predicate Sorted(o: Order, s: seq<Product>)
  {
    forall i, j :: 0 <= i < j < |s| ==> InOrder(o, s[i], s[j])
  }

  /** The rows the WHERE clause keeps, each as often as it is stored. */
  function Filter(q: Query, ps: seq<Product>): (r: seq<Product>)
    ensures forall p :: multiset(r)[p] == if Matches(q, p) then multiset(ps)[p] else 0
  {
    if ps == [] then []
    else
      assert ps == [ps[0]] + ps[1..];
      (if Matches(q, ps[0]) then [ps[0]] else []) + Filter(q, ps[1..])
  }

  /** Where `Insert` places `x`: before the first element it may precede. */
  function Position(o: Order, x: Product, s: seq<Product>): (k: nat)
    ensures k <= |s|
    ensures forall i :: 0 <= i < k ==> !InOrder(o, x, s[i])
    ensures k < |s| ==> InOrder(o, x, s[k])
  {
    if s == [] || InOrder(o, x, s[0]) then 0 else Position(o, x, s[1..]) + 1
  }

  function Insert(o: Order, x: Product, s: seq<Product>): (r: seq<Product>)
    requires Sorted(o, s)
    ensures Sorted(o, r)
    ensures multiset(r) == multiset(s) + multiset{x}
  {
    var k := Position(o, x, s);
    var r := s[..k] + [x] + s[k..];
    assert s == s[..k] + s[k..];
    InsertSorted(o, x, s, k);
    r
  }

  lemma InsertSorted(o: Order, x: Product, s: seq<Product>, k: nat)
    requires Sorted(o, s) && k == Position(o, x, s)
    ensures Sorted(o, s[..k] + [x] + s[k..])
  {
    var r := s[..k] + [x] + s[k..];
    assert forall i :: 0 <= i < k ==> r[i] == s[i];
    assert r[k] == x;
    assert forall i :: k < i < |r| ==> r[i] == s[i - 1];
    forall i | 0 <= i < k ensures InOrder(o, s[i], x) {
      assert !InOrder(o, x, s[i]);
    }
    forall j | k <= j < |s| ensures InOrder(o, x, s[j]) {
      assert InOrder(o, x, s[k]);
    }
  }

  /** Some ordering of `s` by `o`; among equal keys it keeps store order. */
  function SortBy(o: Order, s: seq<Product>): (r: seq<Product>)
    ensures Sorted(o, r)
    ensures multiset(r) == multiset(s)
  {
    if s == [] then []
    else
      assert s == [s[0]] + s[1..];
      Insert(o, s[0], SortBy(o, s[1..]))
  }

  /** The product list `/collections` renders: exactly the matching products,
      each as often as stored, in the requested order. The SQL leaves the
      order of equal keys open; this model keeps them in store order. */
  function Collections(q: Query, ps: seq<Product>): (r: seq<Product>)
    ensures Sorted(OrderFor(q.sort), r)
    ensures forall p :: multiset(r)[p] == if Matches(q, p) then multiset(ps)[p] else 0
    ensures forall p :: p in r ==> Matches(q, p)
  {
    var r := SortBy(OrderFor(q.sort), Filter(q, ps));
    assert forall p :: p in r ==> p in multiset(r);
    r
  }

  /** The column a listing is ordered by. */
  function SortKey(o: Order, p: Product): int
  {
    if o == Newest then p.createdAt else p.price
  }

  /** What the SQL engine may return for `q`: the matching rows, each as often
      as stored, in the requested order, equal keys in any order. */
  predicate IsListing(q: Query, ps: seq<Product>, r: seq<Product>)
  {
    Sorted(OrderFor(q.sort), r) && multiset(r) == multiset(Filter(q, ps))
  }

  /** Every listing the SQL engine may return agrees with `Collections`
      position by position on the ordering column: the model's choice among
      equal keys is the only freedom. */
  lemma ListingAgreesUpToTies(q: Query, ps: seq<Product>, r: seq<Product>)
    requires IsListing(q, ps, r)
    ensures |r| == |Collections(q, ps)|
    ensures forall i :: 0 <= i < |r| ==> SortKey(OrderFor(q.sort), r[i]) == SortKey(OrderFor(q.sort), Collections(q, ps)[i])
  {
    var c := Collections(q, ps);
    assert multiset(c) == multiset(Filter(q, ps)) by {
      assert forall p :: multiset(c)[p] == multiset(Filter(q, ps))[p];
    }
    SortedKeysDetermined(OrderFor(q.sort), r, c);
  }

  /** Two orderings of the same products by `o` have the same key sequence. */
  lemma {:induction false} SortedKeysDetermined(o: Order, r1: seq<Product>, r2: seq<Product>)
    requires Sorted(o, r1) && Sorted(o, r2) && multiset(r1) == multiset(r2)
    ensures |r1| == |r2|
    ensures forall i :: 0 <= i < |r1| ==> SortKey(o, r1[i]) == SortKey(o, r2[i])
    decreases |r1|
  {
    assert |r1| == |multiset(r1)| == |multiset(r2)| == |r2|;
    if r1 != [] {
      var x := r1[0];
      assert x in multiset(r2);
      var j :| 0 <= j < |r2| && r2[j] == x;
      FirstKeysAgree(o, r1, r2, j);
      var rest := r2[..j] + r2[j + 1..];
      RemoveKeepsSorted(o, r2, j);
      RemoveMatching(r1, r2, j);
      SortedKeysDetermined(o, r1[1..], rest);
      Plateau(o, r2, j);
      forall i | 0 <= i < |r1| ensures SortKey(o, r1[i]) == SortKey(o, r2[i]) {
        if i > 0 {
          assert r1[i] == r1[1..][i - 1];
          if i <= j {
            assert rest[i - 1] == r2[i - 1];
          } else {
            assert rest[i - 1] == r2[i];
          }
        }
      }
    }
  }

  /** The first elements of two orderings of the same products share their key. */
  lemma FirstKeysAgree(o: Order, r1: seq<Product>, r2: seq<Product>, j: nat)
    requires Sorted(o, r1) && Sorted(o, r2) && multiset(r1) == multiset(r2)
    requires j < |r2| && |r1| > 0 && r2[j] == r1[0]
    ensures SortKey(o, r1[0]) == SortKey(o, r2[0])
  {
    assert r2[0] in multiset(r1);
    var k :| 0 <= k < |r1| && r1[k] == r2[0];
    assert InOrder(o, r2[0], r2[j]) || j == 0;
    assert InOrder(o, r1[0], r1[k]) || k == 0;
  }

  /** Between two positions of equal key, every key is that key. */
  lemma Plateau(o: Order, s: seq<Product>, j: nat)
    requires Sorted(o, s) && j < |s| && SortKey(o, s[0]) == SortKey(o, s[j])
    ensures forall i :: 0 <= i <= j ==> SortKey(o, s[i]) == SortKey(o, s[j])
  {
    forall i | 0 <= i <= j ensures SortKey(o, s[i]) == SortKey(o, s[j]) {
      assert InOrder(o, s[0], s[i]) || i == 0;
      assert InOrder(o, s[i], s[j]) || i == j;
    }
  }

  /** Taking the same product out of two equal multisets leaves equal ones. */
  lemma RemoveMatching(r1: seq<Product>, r2: seq<Product>, j: nat)
    requires multiset(r1) == multiset(r2) && j < |r2| && |r1| > 0 && r2[j] == r1[0]
    ensures multiset(r2[..j] + r2[j + 1..]) == multiset(r1[1..])
  {
    var x := r1[0];
    assert r2 == r2[..j] + [x] + r2[j + 1..];
    assert r1 == [x] + r1[1..];
    assert multiset(r2) == multiset(r2[..j]) + multiset{x} + multiset(r2[j + 1..]);
    assert multiset(r2[..j] + r2[j + 1..]) == multiset(r2) - multiset{x};
  }

  lemma RemoveKeepsSorted(o: Order, s: seq<Product>, j: nat)
    requires Sorted(o, s) && j < |s|
    ensures Sorted(o, s[..j] + s[j + 1..])
  {
    var rest := s[..j] + s[j + 1..];
    assert forall i :: 0 <= i < |rest| ==> rest[i] == s[if i < j then i else i + 1];
  }

  /** With only a price window given, a catalog priced 75, 89, 110, 135 and 189
      lists exactly the 110 and 135 items, newest first. */
  lemma PriceWindow(ps: seq<Product>)
    requires |ps| == 5
    requires ps[0].price == 75 && ps[1].price == 89 && ps[2].price == 110
    requires ps[3].price == 135 && ps[4].price == 189
    ensures var r := Collections(Query("", "", Some(100), Some(150)), ps);
            multiset(r) == multiset{ps[2], ps[3]} && Sorted(Newest, r)
  {
    var q := Query("", "", Some(100), Some(150));
    assert Filter(q, ps[4..]) == [] by { assert ps[4..][1..] == []; }
    assert Filter(q, ps[3..]) == [ps[3]] by { assert ps[3..][1..] == ps[4..]; }
    assert Filter(q, ps[2..]) == [ps[2], ps[3]] by { assert ps[2..][1..] == ps[3..]; }
    assert Filter(q, ps[1..]) == [ps[2], ps[3]] by { assert ps[1..][1..] == ps[2..]; }
    assert Filter(q, ps) == [ps[2], ps[3]];
  }

  // ---------------------------------------------------------------------
  // `/product/:id`
  // ---------------------------------------------------------------------

  /** `SELECT * FROM products WHERE id = ?` */
  function FindById(id: nat, ps: seq<Product>): (r: Option<Product>)
    ensures r.Some? ==> r.value in ps && r.value.id == id
    ensures r.None? <==> forall i :: 0 <= i < |ps| ==> ps[i].id != id
  {
    if ps == [] then None
    else if ps[0].id == id then Some(ps[0])
    else FindById(id, ps[1..])
  }

  /** The rows with another id, in store order. */
  function Except(id: nat, ps: seq<Product>): (r: seq<Product>)
    ensures |r| <= |ps|
    ensures forall p :: multiset(r)[p] == if p.id != id then multiset(ps)[p] else 0
    ensures forall i :: 0 <= i < |r| ==> r[i] in ps && r[i].id != id
  {
    if ps == [] then []
    else
      assert ps == [ps[0]] + ps[1..];
      (if ps[0].id != id then [ps[0]] else []) + Except(id, ps[1..])
  }

  /** `SELECT * FROM products WHERE id != ? LIMIT 4`, taking the first rows
      of the store order. */
  function Related(id: nat, ps: seq<Product>): (r: seq<Product>)
    ensures |r| == Min(4, |Except(id, ps)|)
    ensures multiset(r) <= multiset(Except(id, ps))
    ensures forall i :: 0 <= i < |r| ==> r[i] in ps && r[i].id != id
  {
    var others := Except(id, ps);
    var k := Min(4, |others|);
    assert others == others[..k] + others[k..];
    others[..k]
  }

  datatype ProductView = Redirect(location: string) | Page(product: Product, related: seq<Product>)

  /** `/product/:id`: a missing product redirects to the catalog listing. */
  function ProductRoute(id: nat, ps: seq<Product>): (v: ProductView)
    ensures v.Redirect? <==> forall i :: 0 <= i < |ps| ==> ps[i].id != id
    ensures v.Redirect? ==> v.location == "/collections"
    ensures v.Page? ==> v.product in ps && v.product.id == id && v.related == Related(id, ps)
  {
    match FindById(id, ps)
    case None => Redirect("/collections")
    case Some(p) => Page(p, Related(id, ps))
  }
}
