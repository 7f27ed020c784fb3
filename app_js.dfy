/**
 * The ordering page's script (the catalog comes from the server). It adds
 * to the cart, changes a count only for a key with a non-zero count, shows
 * the total of the products it can find, posts the cart as an order and
 * reads the CSRF cookie. The page elements, local storage, the haptic
 * feedback and the network are not part of this model: the server's
 * verdict on the order is a parameter.
 */
module AppJs {
  import opened Common
  import opened Text
  import opened Cart
  import Models
  import OrderViews

  /**
   * `changeQty(id, delta)`: `if (!cart[id]) return;` skips a key that is
   * absent (or holds 0); otherwise the count changes as `Adjust` says.
   */
  method ChangeQty(cart: ShoppingCart, id: nat, delta: int)
    requires cart.Valid()
    modifies cart
    ensures cart.Valid()
    ensures id !in old(cart.counts) || old(cart.counts)[id] == 0 ==> unchanged(cart)
    ensures id in old(cart.counts) && old(cart.counts)[id] != 0 ==>
      cart.counts == Adjusted(old(cart.counts), id, delta) && cart.ids == AdjustedIds(old(cart.ids), old(cart.counts), id, delta)
  {
    if id !in cart.counts || cart.counts[id] == 0 {
      return;
    }
    cart.Adjust(id, delta);
  }

  /**
   * The total `renderCart` shows: `None` for an empty cart (the "empty"
   * message, no summary), else the sum of price × count over the keys whose
   * product is in the catalog; a key with no product is skipped.
   */
  method RenderCartTotal(catalog: seq<CatalogItem>, cart: ShoppingCart) returns (total: Option<int>)
    requires cart.Valid()
    ensures total.None? <==> cart.ids == []
    ensures total.Some? ==> total.value == CartTotal(catalog, cart.ids, cart.counts)
  {
    var ids := cart.ids;
    if |ids| == 0 {
      return None;
    }
    var sum := 0;
    var i := 0;
    while i < |ids|
      invariant 0 <= i <= |ids|
      invariant sum == Total(ids[..i], cart.counts, Prices(catalog))
    {
      assert ids[..i + 1][..i] == ids[..i];
      var item := Find(catalog, ids[i]);
      if item.Some? {
        sum := sum + item.value.price * cart.counts[ids[i]];
      }
      i := i + 1;
    }
    assert ids[..|ids|] == ids;
    return Some(sum);
  }

  /** One entry of the posted `items`: `parseInt(key)` and the count. */
  datatype PayloadItem = PayloadItem(productId: Option<nat>, quantity: int)

  /** The JSON body `checkout` posts. */
  datatype Payload = Payload(telegramId: int, items: seq<PayloadItem>, totalPrice: int)

  /** `ids.map(id => ({product_id: parseInt(id), quantity: cart[id]}))`. */
  function PayloadItems(ids: seq<nat>, counts: map<nat, int>): (r: seq<PayloadItem>)
    requires forall x :: x in ids ==> x in counts
    ensures |r| == |ids|
    ensures forall i :: 0 <= i < |ids| ==> r[i] == PayloadItem(Some(ids[i]), counts[ids[i]])
  {
    if ids == [] then []
    else
      KeyRoundTrip(ids[0]);
      [PayloadItem(ParseIntPrefix(Key(ids[0])), counts[ids[0]])] + PayloadItems(ids[1..], counts)
  }

  /** The order `checkout` sends for user `userId`: one item per key, and the cart total as `total_price`. */
  function CheckoutPayload(catalog: seq<CatalogItem>, ids: seq<nat>, counts: map<nat, int>, userId: int): Payload
    requires forall x :: x in ids ==> x in counts
  {
    Payload(userId, PayloadItems(ids, counts), CartTotal(catalog, ids, counts))
  }

  /**
   * `checkout`: without a signed-in user, or with an empty cart, nothing is
   * sent and nothing changes. Otherwise the payload is sent; an accepted
   * order empties the cart and a refused one (or a network error) leaves it.
   */
  method Checkout(cart: ShoppingCart, catalog: seq<CatalogItem>, user: Option<int>, serverOk: bool)
    returns (sent: Option<Payload>)
    requires cart.Valid()
    modifies cart
    ensures cart.Valid()
    ensures user.None? || old(cart.ids) == [] ==> sent.None? && unchanged(cart)
    ensures user.Some? && old(cart.ids) != [] ==>
      && sent == Some(CheckoutPayload(catalog, old(cart.ids), old(cart.counts), user.value))
      && (serverOk ==> cart.ids == [] && cart.counts == map[])
      && (!serverOk ==> unchanged(cart))
  {
    if user.None? {
      return None;
    }
    if |cart.ids| == 0 {
      return None;
    }
    sent := Some(CheckoutPayload(catalog, cart.ids, cart.counts, user.value));
    if serverOk {
      cart.Clear();
    }
  }

  /** How the server reads a posted item. */
  function AsRequestItem(it: PayloadItem): OrderViews.RequestItem {
    OrderViews.RequestItem(
      if it.productId.Some? then Some(it.productId.value as int) else None,
      OrderViews.Number(it.quantity))
  }

  function AsRequestItems(items: seq<PayloadItem>): (r: seq<OrderViews.RequestItem>)
    ensures |r| == |items|
    ensures forall i :: 0 <= i < |items| ==> r[i] == AsRequestItem(items[i])
  {
    if items == [] then [] else [AsRequestItem(items[0])] + AsRequestItems(items[1..])
  }

  /** The requests the server reads from the payload of keys `ids`. */
  function CheckoutRequests(ids: seq<nat>, counts: map<nat, int>): seq<OrderViews.RequestItem>
    requires forall x :: x in ids ==> x in counts
  {
    AsRequestItems(PayloadItems(ids, counts))
  }

  lemma CheckoutRequestsCons(ids: seq<nat>, counts: map<nat, int>)
    requires ids != [] && forall x :: x in ids ==> x in counts
    ensures CheckoutRequests(ids, counts)
         == [OrderViews.RequestItem(Some(ids[0] as int), OrderViews.Number(counts[ids[0]]))] + CheckoutRequests(ids[1..], counts)
  {
    var r := CheckoutRequests(ids, counts);
    var t := CheckoutRequests(ids[1..], counts);
    assert forall i :: 0 <= i < |t| ==> r[i + 1] == t[i];
  }

  /** The lines the server should store for the cart: one per key, its count, the product's price. */
  function ExpectedLines(ids: seq<nat>, counts: map<nat, int>, products: map<nat, Models.Product>): (r: seq<OrderViews.Line>)
    requires forall x :: x in ids ==> x in counts && counts[x] >= 1 && x in products
    ensures |r| == |ids|
  {
    if ids == [] then []
    else [OrderViews.Line(ids[0], counts[ids[0]], products[ids[0]].price)] + ExpectedLines(ids[1..], counts, products)
  }

  /** No posted item makes the server raise when every key is a stored product. */
  lemma CheckoutNeverRaises(ids: seq<nat>, counts: map<nat, int>, products: map<nat, Models.Product>)
    requires forall x :: x in ids ==> x in counts && x in products
    ensures forall j :: 0 <= j < |ids| ==> !OrderViews.Raises(products, CheckoutRequests(ids, counts)[j])
  {
  }

  /** The server stores the expected lines, in key order. */
  lemma {:induction false} CheckoutLines(ids: seq<nat>, counts: map<nat, int>, products: map<nat, Models.Product>)
    requires forall x :: x in ids ==> x in counts && counts[x] >= 1 && x in products && products[x].id == x
    ensures OrderViews.Lines(products, CheckoutRequests(ids, counts)) == ExpectedLines(ids, counts, products)
  {
    if ids != [] {
      CheckoutRequestsCons(ids, counts);
      CheckoutLines(ids[1..], counts, products);
      var reqs := CheckoutRequests(ids, counts);
      assert reqs[1..] == CheckoutRequests(ids[1..], counts);
    }
  }

  /** The expected lines add up to the cart total when the catalog's prices are the stored ones. */
  lemma {:induction false} ExpectedLinesTotal(catalog: seq<CatalogItem>, ids: seq<nat>, counts: map<nat, int>,
                                              products: map<nat, Models.Product>)
    requires forall x :: x in ids ==> x in counts && counts[x] >= 1 && x in products
    requires forall x :: x in ids ==> Find(catalog, x).Some? && Find(catalog, x).value.price == products[x].price
    ensures OrderViews.LinesTotal(ExpectedLines(ids, counts, products)) == CartTotal(catalog, ids, counts)
  {
    if ids != [] {
      var x := ids[0];
      ExpectedLinesTotal(catalog, ids[1..], counts, products);
      assert [x] + ids[1..] == ids;
      TotalAppend([x], ids[1..], counts, Prices(catalog));
      assert Total([x], counts, Prices(catalog)) == products[x].price * counts[x];
    }
  }

  /**
   * The browser's `total_price` and the server's agree: when every key of a
   * positive cart is a stored product with the catalog's price, the order
   * handler raises on no item, stores one line per key and its total is the
   * `total_price` the browser computed (and the server ignores).
   */
  lemma CheckoutMatchesServer(catalog: seq<CatalogItem>, ids: seq<nat>, counts: map<nat, int>,
                              products: map<nat, Models.Product>, userId: int)
    requires forall x :: x in ids ==> x in counts && counts[x] >= 1
    requires forall x :: x in ids ==> x in products && products[x].id == x
    requires forall x :: x in ids ==> Find(catalog, x).Some? && Find(catalog, x).value.price == products[x].price
    ensures var p := CheckoutPayload(catalog, ids, counts, userId);
      var reqs := AsRequestItems(p.items);
      && (forall j :: 0 <= j < |reqs| ==> !OrderViews.Raises(products, reqs[j]))
      && |OrderViews.Lines(products, reqs)| == |ids|
      && OrderViews.LinesTotal(OrderViews.Lines(products, reqs)) == p.totalPrice
  {
    CheckoutNeverRaises(ids, counts, products);
    CheckoutLines(ids, counts, products);
    ExpectedLinesTotal(catalog, ids, counts, products);
  }

  /** Every cookie piece with its blanks trimmed, in order. */
  function Trimmed(cookies: seq<string>): (r: seq<string>)
    ensures |r| == |cookies|
  {
    if cookies == [] then [] else [JsTrim(cookies[0])] + Trimmed(cookies[1..])
  }

  /** Piece `i` of the trimmed list is piece `i` of the cookie string, trimmed. */
  lemma {:induction false} TrimmedAt(cookies: seq<string>, i: nat)
    requires i < |cookies|
    ensures Trimmed(cookies)[i] == JsTrim(cookies[i])
  {
    if i > 0 {
      TrimmedAt(cookies[1..], i - 1);
    }
  }

  /** A trimmed cookie piece is the one named `name`. */
  predicate IsCookie(piece: string, name: string) {
    StartsWith(piece, name + "=")
  }

  /** The position of the first trimmed piece named `name`. */
  function CookieIndex(pieces: seq<string>, name: string): (r: Option<nat>)
    ensures r.Some? ==> r.value < |pieces| && IsCookie(pieces[r.value], name)
    ensures r.Some? ==> forall j :: 0 <= j < r.value ==> !IsCookie(pieces[j], name)
    ensures r.None? ==> forall j :: 0 <= j < |pieces| ==> !IsCookie(pieces[j], name)
  {
    if pieces == [] then None
    else if IsCookie(pieces[0], name) then Some(0)
    else match CookieIndex(pieces[1..], name)
      case Some(k) => Some(k + 1)
      case None => None
  }

  /** The scan's step: a piece not named `name` extends the run of such pieces by one. */
  lemma NoCookieStep(cookies: seq<string>, name: string, i: nat)
    requires i < |cookies| && !IsCookie(JsTrim(cookies[i]), name)
    requires forall j :: 0 <= j < i ==> !IsCookie(JsTrim(cookies[j]), name)
    ensures forall j :: 0 <= j < i + 1 ==> !IsCookie(JsTrim(cookies[j]), name)
  {
  }

  /** A piece named `name` with none before it is the first one. */
  lemma CookieIndexAt(cookies: seq<string>, name: string, i: nat)
    requires i < |cookies| && IsCookie(JsTrim(cookies[i]), name)
    requires forall j :: 0 <= j < i ==> !IsCookie(JsTrim(cookies[j]), name)
    ensures CookieIndex(Trimmed(cookies), name) == Some(i)
  {
    var pieces := Trimmed(cookies);
    forall j | 0 <= j <= i
      ensures pieces[j] == JsTrim(cookies[j])
    {
      TrimmedAt(cookies, j);
    }
  }

  /** With no piece named `name` there is no first one. */
  lemma CookieIndexNone(cookies: seq<string>, name: string)
    requires forall j :: 0 <= j < |cookies| ==> !IsCookie(JsTrim(cookies[j]), name)
    ensures CookieIndex(Trimmed(cookies), name) == None
  {
    var pieces := Trimmed(cookies);
    forall j | 0 <= j < |pieces|
      ensures !IsCookie(pieces[j], name)
    {
      TrimmedAt(cookies, j);
    }
  }

  /** The raw value of the first cookie named `name`: what follows `name=` in the trimmed piece. */
  function CookieValue(cookies: seq<string>, name: string): Option<string> {
    var pieces := Trimmed(cookies);
    match CookieIndex(pieces, name)
    case Some(k) => Some(pieces[k][|name| + 1..])
    case None => None
  }

  /**
   * The scan inside `getCookie`: the pieces are trimmed one at a time and
   * the first one named `name` is the answer.
   */
  method FirstCookie(cookies: seq<string>, name: string) returns (k: Option<nat>)
    ensures k == CookieIndex(Trimmed(cookies), name)
  {
    var i := 0;
    while i < |cookies|
      invariant 0 <= i <= |cookies|
      invariant forall j :: 0 <= j < i ==> !IsCookie(JsTrim(cookies[j]), name)
    {
      if IsCookie(JsTrim(cookies[i]), name) {
        CookieIndexAt(cookies, name, i);
        return Some(i);
      }
      NoCookieStep(cookies, name, i);
      i := i + 1;
    }
    CookieIndexNone(cookies, name);
    return None;
  }

  /**
   * `getCookie(name)` on the page's cookie string: an empty string has no
   * cookies; otherwise it is split at `;`, each piece trimmed, and the first
   * piece starting with `name=` gives its remainder, decoded by `decode`
   * (`decodeURIComponent`).
   */
  method GetCookie(cookie: string, name: string, decode: string -> string) returns (r: Option<string>)
    ensures cookie == [] ==> r.None?
    ensures cookie != [] ==> r == match CookieValue(Split(cookie, ';'), name)
                                  case Some(v) => Some(decode(v))
                                  case None => None
  {
    r := None;
    if cookie == [] {
      return;
    }
    var cookies := Split(cookie, ';');
    var k := FirstCookie(cookies, name);
    if k.Some? {
      TrimmedAt(cookies, k.value);
      var c := JsTrim(cookies[k.value]);
      r := Some(decode(c[|name| + 1..]));
    }
  }
}
