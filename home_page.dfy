/**
 * The stand-alone home page script. Its catalog is a fixed list of six
 * products; the cart, the badge and the category filter are the shared ones
 * of the `Cart` module. Unlike the ordering page it looks every cart key up
 * in the catalog without a check, changes a count without checking that the
 * key is there, and its checkout only asks for a confirmation and empties
 * the cart. The page elements, the Telegram pop-ups and the haptic feedback
 * are not part of this model: the user's answer to the confirmation is a
 * parameter.
 */
module HomePage {
  import opened Common
  import opened Cart

  /** The page's product list. */
  const Products: seq<CatalogItem> := [
    CatalogItem(1, "Truffle Burger", 45000, "burger"),
    CatalogItem(2, "Pepperoni Pizza", 65000, "pizza"),
    CatalogItem(3, "Classic Cola", 12000, "drink"),
    CatalogItem(4, "Double Cheese Burger", 55000, "burger"),
    CatalogItem(5, "Margarita XL", 58000, "pizza"),
    CatalogItem(6, "Fresh Fanta", 12000, "drink")
  ]

  /** Six products with the ids 1 to 6 in order, so no two share an id, and every price is positive. */
  lemma CatalogShape()
    ensures |Products| == 6
    ensures forall i :: 0 <= i < |Products| ==> Products[i].id == i + 1 && Products[i].price > 0
    ensures forall i, j :: 0 <= i < j < |Products| ==> Products[i].id != Products[j].id
  {
  }

  /** `products.find(p => p.id == id)` succeeds exactly for the ids 1 to 6, and finds that product. */
  lemma FindInCatalog(id: nat)
    ensures Find(Products, id).Some? <==> 1 <= id <= 6
    ensures 1 <= id <= 6 ==> Find(Products, id) == Some(Products[id - 1])
  {
    CatalogShape();
    if 1 <= id <= 6 {
      assert Products[id - 1].id == id;
    }
  }

  /** Every key of the cart is a catalog product: keys only come from the product cards' buttons. */
  predicate Known(ids: seq<nat>) {
    forall x :: x in ids ==> 1 <= x <= 6
  }

  /** `addToCart` on a product card's id keeps every key a catalog product. */
  lemma AddKeepsKnown(ids: seq<nat>, id: nat)
    requires Increasing(ids) && Known(ids) && 1 <= id <= 6
    ensures Known(Insert(ids, id))
  {
  }

  /** `changeQty` on a key of the cart keeps every key a catalog product: it only ever removes a key. */
  lemma AdjustKeepsKnown(ids: seq<nat>, counts: map<nat, int>, id: nat, delta: int)
    requires Known(ids) && id in counts && id in ids
    ensures Known(AdjustedIds(ids, counts, id, delta))
    ensures forall x :: x in AdjustedIds(ids, counts, id, delta) ==> x in ids
  {
    if counts[id] + delta <= 0 {
      var i := IndexOf(ids, id);
      var rest := ids[..i] + ids[i + 1..];
      forall x | x in rest
        ensures x in ids && 1 <= x <= 6
      {
        if x in ids[..i] {
          var k :| 0 <= k < i && ids[..i][k] == x;
          assert ids[k] == x;
        } else {
          var k :| 0 <= k < |ids| - i - 1 && ids[i + 1..][k] == x;
          assert ids[i + 1 + k] == x;
        }
      }
      assert AdjustedIds(ids, counts, id, delta) == rest;
    }
  }

  /** The loop's step: the key at `i` adds its catalog price × count to the total. */
  lemma TotalStep(ids: seq<nat>, counts: map<nat, int>, i: nat)
    requires i < |ids| && ids[i] in counts && 1 <= ids[i] <= 6
    ensures Total(ids[..i + 1], counts, Prices(Products))
         == Total(ids[..i], counts, Prices(Products)) + Products[ids[i] - 1].price * counts[ids[i]]
  {
    assert ids[..i + 1][..i] == ids[..i];
    FindInCatalog(ids[i]);
  }

  /**
   * The total `renderCart` shows: `None` for an empty cart (the "empty"
   * message), else Σ price × count over the keys. Every key is looked up
   * and its price read without a check, so the keys must be catalog products.
   */
  method RenderCartTotal(cart: ShoppingCart) returns (total: Option<int>)
    requires cart.Valid() && Known(cart.ids)
    ensures total.None? <==> cart.ids == []
    ensures total.Some? ==> total.value == CartTotal(Products, cart.ids, cart.counts)
  {
    if |cart.ids| == 0 {
      return None;
    }
    var sum := SumPrices(cart.ids, cart.counts);
    return Some(sum);
  }

  /** The loop of `renderCart`: each key's product is looked up and its price × count added. */
  method SumPrices(ids: seq<nat>, counts: map<nat, int>) returns (sum: int)
    requires Known(ids) && forall x :: x in ids ==> x in counts
    ensures sum == CartTotal(Products, ids, counts)
  {
    sum := 0;
    var i := 0;
    while i < |ids|
      invariant 0 <= i <= |ids|
      invariant sum == Total(ids[..i], counts, Prices(Products))
    {
      var id := ids[i];
      assert id in ids;
      FindInCatalog(id);
      var item := Find(Products, id);
      TotalStep(ids, counts, i);
      sum := sum + item.value.price * counts[id];
      i := i + 1;
    }
    assert ids[..|ids|] == ids;
  }

  /** No product costs less than 12000. */
  lemma CheapestPrice(id: nat)
    requires 1 <= id <= 6
    ensures Weight(Prices(Products), id) >= 12000
  {
    FindInCatalog(id);
    assert Products[id - 1].price >= 12000;
  }

  /** Multiplying by a count that is not negative keeps the order. */
  lemma MulMono(a: int, b: int, c: int)
    requires a >= b && c >= 0
    ensures a * c >= b * c
  {
    MulDistrib(c, a - b, b);
    assert c * a == a * c && c * b == b * c;
  }

  /** When every key's unit is worth at least `m` and no count is negative, the total is at least `m` per unit. */
  lemma {:induction false} TotalAtLeastPerUnit(ids: seq<nat>, counts: map<nat, int>, w: Weighting, m: int)
    requires forall x :: x in ids ==> x in counts && counts[x] >= 0 && Weight(w, x) >= m
    ensures Total(ids, counts, w) >= m * Total(ids, counts, Units)
  {
    if ids != [] {
      var init := ids[..|ids| - 1];
      var last := ids[|ids| - 1];
      assert last in ids;
      assert forall x :: x in init ==> x in ids;
      TotalAtLeastPerUnit(init, counts, w, m);
      var c, W := counts[last], Weight(w, last);
      var U := Total(init, counts, Units);
      assert Total(ids, counts, w) == Total(init, counts, w) + W * c;
      assert Total(ids, counts, Units) == U + c;
      MulDistrib(m, U, c);
      MulMono(W, m, c);
    }
  }

  /** On this catalog every unit in the cart is worth at least 12000, the lowest price. */
  lemma TotalAtLeast(ids: seq<nat>, counts: map<nat, int>)
    requires Known(ids) && AllPositive(counts)
    requires forall x :: x in ids ==> x in counts
    ensures CartTotal(Products, ids, counts) >= 12000 * BadgeCount(ids, counts)
  {
    forall x | x in ids
      ensures Weight(Prices(Products), x) >= 12000
    {
      CheapestPrice(x);
    }
    TotalAtLeastPerUnit(ids, counts, Prices(Products), 12000);
  }

  /** The shown total is positive exactly when the cart has an entry. */
  lemma TotalShownIffNonEmpty(ids: seq<nat>, counts: map<nat, int>)
    requires WellFormed(ids, counts) && AllPositive(counts) && Known(ids)
    ensures CartTotal(Products, ids, counts) > 0 <==> ids != []
  {
    TotalAtLeast(ids, counts);
    BadgeShownIffNonEmpty(ids, counts);
  }

  /**
   * `checkout`: once the user confirms, the cart is emptied and the badge
   * hidden; without the confirmation nothing changes.
   */
  method Checkout(cart: ShoppingCart, confirmed: bool)
    requires cart.Valid()
    modifies cart
    ensures cart.Valid()
    ensures confirmed ==> cart.ids == [] && cart.counts == map[] && UpdateBadge(cart.ids, cart.counts) == Hidden
    ensures !confirmed ==> unchanged(cart)
  {
    if confirmed {
      cart.Clear();
    }
  }

  /** One product's part of a category's list: the product itself, or nothing. */
  function Keep(p: CatalogItem, cat: string): seq<CatalogItem> {
    if p.cat == cat then [p] else []
  }

  /** One product more at the end of the list adds that product's part at the end of the filter. */
  lemma MatchingSnoc(s: seq<CatalogItem>, p: CatalogItem, cat: string)
    ensures Matching(s + [p], cat) == Matching(s, cat) + Keep(p, cat)
  {
    assert (s + [p])[..|s|] == s;
    assert (s + [p])[|s|] == p;
  }

  /** Filtering the catalog goes product by product, in catalog order. */
  lemma MatchingCatalog(cat: string)
    ensures Matching(Products, cat)
         == Keep(Products[0], cat) + Keep(Products[1], cat) + Keep(Products[2], cat)
          + Keep(Products[3], cat) + Keep(Products[4], cat) + Keep(Products[5], cat)
  {
    var P := Products;
    forall n | 0 <= n < 6
      ensures Matching(P[..n + 1], cat) == Matching(P[..n], cat) + Keep(P[n], cat)
    {
      assert P[..n + 1] == P[..n] + [P[n]];
      MatchingSnoc(P[..n], P[n], cat);
    }
    assert P[..0] == [];
    assert Matching(P[..1], cat) == Keep(P[0], cat);
    assert Matching(P[..2], cat) == Keep(P[0], cat) + Keep(P[1], cat);
    assert Matching(P[..3], cat) == Keep(P[0], cat) + Keep(P[1], cat) + Keep(P[2], cat);
    assert Matching(P[..4], cat) == Keep(P[0], cat) + Keep(P[1], cat) + Keep(P[2], cat) + Keep(P[3], cat);
    assert Matching(P[..5], cat)
        == Keep(P[0], cat) + Keep(P[1], cat) + Keep(P[2], cat) + Keep(P[3], cat) + Keep(P[4], cat);
    assert P[..6] == P;
  }

  /** The "all" button shows the whole catalog. */
  lemma FilterAll()
    ensures FilterItems(Products, "all") == Products
  {
  }

  /** Each category button shows that category's two products, in catalog order. */
  lemma FilterBurgers()
    ensures FilterItems(Products, "burger") == [Products[0], Products[3]]
  {
    MatchingCatalog("burger");
  }

  lemma FilterPizzas()
    ensures FilterItems(Products, "pizza") == [Products[1], Products[4]]
  {
    MatchingCatalog("pizza");
  }

  lemma FilterDrinks()
    ensures FilterItems(Products, "drink") == [Products[2], Products[5]]
  {
    MatchingCatalog("drink");
  }

  /** A category no product has shows an empty grid. */
  lemma FilterUnknownCategory(cat: string)
    requires cat != "all" && cat != "burger" && cat != "pizza" && cat != "drink"
    ensures FilterItems(Products, cat) == []
  {
    MatchingCatalog(cat);
  }
}
