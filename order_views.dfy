/**
 * The order-submission endpoint. A POST carries a chat id, an optional
 * comment and a list of (product id, quantity) lines. The handler resolves
 * the client, creates the order, stores one item per line with a positive
 * quantity at the product's current price (each store recomputes the order
 * total), writes the accumulated total and answers with the order id.
 * Nothing wraps the loop in a transaction: the first line whose product is
 * unknown, or whose quantity is not an integer, ends the request with 500
 * and leaves the order and the items stored before it in place. The
 * notification sent to the messaging service is not part of this model.
 */
module OrderViews {
  import opened Common
  import opened Models

  /** A requested line's `quantity` field as `int(...)` sees it. */
  datatype Quantity = Absent | Number(n: int) | NotANumber

  datatype RequestItem = RequestItem(productId: Option<int>, quantity: Quantity)

  /** The JSON body; `totalPrice` is whatever the browser computed and is never read. */
  datatype OrderPayload = OrderPayload(
    telegramId: Option<int>, comment: Option<string>, items: seq<RequestItem>, totalPrice: Option<int>)

  /** An HTTP request; `body` is `None` when it is not a JSON object. */
  datatype Request = Request(verb: string, body: Option<OrderPayload>)

  datatype Response = Response(status: nat, orderId: Option<nat>)

  const DefaultComment: string := "Yo'q"

  /** `data.get('comment', "Yo'q")`. */
  function CommentOf(p: OrderPayload): string {
    match p.comment
    case Some(c) => c
    case None => DefaultComment
  }

  /** `int(item.get('quantity', 0))`: a missing quantity is 0; `None` means `int()` raises. */
  function QuantityValue(q: Quantity): Option<int> {
    match q
    case Absent => Some(0)
    case Number(n) => Some(n)
    case NotANumber => None
  }

  /** `Product.objects.get(id=...)`: `None` means it raises (no such row, or no id given). */
  function ResolveProduct(products: map<nat, Product>, id: Option<int>): Option<Product> {
    if id.Some? && id.value >= 0 && id.value in products then Some(products[id.value]) else None
  }

  /** A requested line on which the loop raises; the product is fetched before the quantity is read. */
  predicate Raises(products: map<nat, Product>, it: RequestItem) {
    ResolveProduct(products, it.productId).None? || QuantityValue(it.quantity).None?
  }

  /** `Client.objects.filter(telegram_id=...)`, in table order; a missing id matches nobody. */
  function MatchingClients(clients: seq<Client>, telegramId: Option<int>): (r: seq<Client>)
    ensures |r| <= |clients|
    ensures forall c :: c in r <==> c in clients && telegramId == Some(c.telegramId)
  {
    if clients == [] then []
    else
      var rest := MatchingClients(clients[1..], telegramId);
      assert forall c :: c in clients <==> c == clients[0] || c in clients[1..];
      if telegramId == Some(clients[0].telegramId) then [clients[0]] + rest else rest
  }

  /** Each matching client is kept as often as it occurs, and no other client is: the filter fixes how many rows match. */
  lemma {:induction false} MatchingClientsCount(clients: seq<Client>, telegramId: Option<int>)
    ensures forall c :: multiset(MatchingClients(clients, telegramId))[c]
                     == if telegramId == Some(c.telegramId) then multiset(clients)[c] else 0
  {
    if clients != [] {
      MatchingClientsCount(clients[1..], telegramId);
      assert clients == [clients[0]] + clients[1..];
    }
  }

  /** The filter keeps table order: the matches of two stretches of the table, one after the other. */
  lemma {:induction false} MatchingClientsAppend(a: seq<Client>, b: seq<Client>, telegramId: Option<int>)
    ensures MatchingClients(a + b, telegramId) == MatchingClients(a, telegramId) + MatchingClients(b, telegramId)
  {
    if a != [] {
      assert (a + b)[0] == a[0];
      assert (a + b)[1..] == a[1..] + b;
      MatchingClientsAppend(a[1..], b, telegramId);
    } else {
      assert a + b == b;
    }
  }

  /** No row carries the chat id: nobody matches. */
  lemma {:induction false} NoMatchingClient(clients: seq<Client>, t: int)
    requires forall j :: 0 <= j < |clients| ==> clients[j].telegramId != t
    ensures MatchingClients(clients, Some(t)) == []
  {
    if clients != [] {
      NoMatchingClient(clients[1..], t);
    }
  }

  /** Exactly one row carries the chat id: that client is the only match, the handler's single-client case. */
  lemma {:induction false} OneMatchingClient(clients: seq<Client>, t: int, i: nat)
    requires i < |clients| && clients[i].telegramId == t
    requires forall j :: 0 <= j < |clients| && j != i ==> clients[j].telegramId != t
    ensures MatchingClients(clients, Some(t)) == [clients[i]]
  {
    var tail := clients[1..];
    if i == 0 {
      assert forall j :: 0 <= j < |tail| ==> tail[j] == clients[j + 1];
      NoMatchingClient(tail, t);
    } else {
      assert clients[0].telegramId != t;
      assert forall j :: 0 <= j < |tail| ==> tail[j] == clients[j + 1];
      OneMatchingClient(tail, t, i - 1);
    }
  }

  /** A stored order line as the handler creates it. */
  datatype Line = Line(productId: nat, quantity: nat, price: int)

  function LineOfRow(row: OrderItem): Line {
    Line(row.productId, row.quantity, row.price)
  }

  /** The line one request item yields: none for a quantity of 0 or less. */
  function LineOf(products: map<nat, Product>, it: RequestItem): seq<Line>
    requires !Raises(products, it)
  {
    var q := QuantityValue(it.quantity).value;
    var p := ResolveProduct(products, it.productId).value;
    if q <= 0 then [] else [Line(p.id, q, p.price)]
  }

  /** The lines stored for the request items before the first one that raises. */
  function Lines(products: map<nat, Product>, s: seq<RequestItem>): seq<Line> {
    if s == [] || Raises(products, s[0]) then []
    else LineOf(products, s[0]) + Lines(products, s[1..])
  }

  /** Σ price × quantity. */
  function LinesTotal(lines: seq<Line>): int {
    if lines == [] then 0 else lines[0].price * lines[0].quantity + LinesTotal(lines[1..])
  }

  lemma {:induction false} LinesTotalAppend(a: seq<Line>, b: seq<Line>)
    ensures LinesTotal(a + b) == LinesTotal(a) + LinesTotal(b)
  {
    if a == [] {
      assert a + b == b;
    } else {
      assert (a + b)[1..] == a[1..] + b;
      LinesTotalAppend(a[1..], b);
    }
  }

  /** Processing one more item that does not raise extends the stored lines by its own. */
  lemma {:induction false} LinesSnoc(products: map<nat, Product>, s: seq<RequestItem>, i: nat)
    requires i < |s|
    requires forall j :: 0 <= j <= i ==> !Raises(products, s[j])
    ensures Lines(products, s[..i + 1]) == Lines(products, s[..i]) + LineOf(products, s[i])
  {
    if i == 0 {
      assert s[..1][1..] == [];
      assert s[..0] == [];
    } else {
      var t := s[1..];
      assert forall j :: 0 <= j <= i - 1 ==> t[j] == s[j + 1];
      LinesSnoc(products, t, i - 1);
      assert s[..i + 1][1..] == t[..i];
      assert s[..i][1..] == t[..i - 1];
      assert t[i - 1] == s[i];
    }
  }

  /** The lines stop at the first item that raises: nothing after it is stored. */
  lemma {:induction false} LinesStop(products: map<nat, Product>, s: seq<RequestItem>, i: nat)
    requires i <= |s|
    requires forall j :: 0 <= j < i ==> !Raises(products, s[j])
    requires i < |s| ==> Raises(products, s[i])
    ensures Lines(products, s) == Lines(products, s[..i])
  {
    if i == 0 {
      assert s[..0] == [];
    } else {
      LinesStop(products, s[1..], i - 1);
      assert s[..i][1..] == s[1..][..i - 1];
    }
  }

  /** `after` is `before` followed by one row per line, in order, all in order `oid`. */
  ghost predicate AppendedLines(before: seq<OrderItem>, after: seq<OrderItem>, lines: seq<Line>, oid: nat) {
    && |after| == |before| + |lines| && after[..|before|] == before
    && forall j :: 0 <= j < |lines| ==>
         LineOfRow(after[|before| + j]) == lines[j] && after[|before| + j].orderId == oid
  }

  lemma AppendedLinesSnoc(before: seq<OrderItem>, after: seq<OrderItem>, lines: seq<Line>, oid: nat, row: OrderItem)
    requires AppendedLines(before, after, lines, oid) && row.orderId == oid
    ensures AppendedLines(before, after + [row], lines + [LineOfRow(row)], oid)
  {
    var after', lines' := after + [row], lines + [LineOfRow(row)];
    assert after'[..|before|] == after[..|before|];
    forall j | 0 <= j < |lines'|
      ensures LineOfRow(after'[|before| + j]) == lines'[j] && after'[|before| + j].orderId == oid
    {
      if j < |lines| {
        assert after'[|before| + j] == after[|before| + j];
      } else {
        assert after'[|before| + j] == row;
      }
    }
  }

  /** Writing a row twice leaves the second value. */
  lemma UpdateTwice(m: map<nat, Order>, k: nat, a: Order, b: Order)
    ensures m[k := a][k := b] == m[k := b]
  {
  }

  /** The order the handler creates for client `c`, before its total is set. */
  function NewOrder(id: nat, c: Client, p: OrderPayload, now: int): Order {
    Order(id, c.shopId, c.id, Created, 0, now, None, None, CommentOf(p))
  }

  /**
   * The state the item loop keeps for order `oid`: `lines` have been stored
   * after the rows `before`, `total` is their sum, it is what the order's
   * total column holds and what its items sum to; no other order changed.
   */
  ghost predicate Stored(db: Db, before: seq<OrderItem>, orders0: map<nat, Order>, oid: nat, lines: seq<Line>, total: int)
    reads db
  {
    && db.Valid() && oid in orders0
    && db.orders == orders0[oid := orders0[oid].(totalPrice := total)]
    && total == LinesTotal(lines) == ItemsTotal(db.items, oid)
    && AppendedLines(before, db.items, lines, oid)
  }

  /**
   * One pass of the item loop with a positive quantity: `OrderItem.objects.create`
   * for product `p`, whose save snapshots the price and recomputes the order total.
   */
  method StoreLine(db: Db, oid: nat, p: Product, q: nat, ghost before: seq<OrderItem>,
                   ghost orders0: map<nat, Order>, ghost lines: seq<Line>, total: int)
    returns (newTotal: int)
    requires Stored(db, before, orders0, oid, lines, total)
    modifies db
    ensures Stored(db, before, orders0, oid, lines + [Line(p.id, q, p.price)], newTotal)
    ensures db.products == old(db.products) && db.shops == old(db.shops) && db.clients == old(db.clients)
    ensures db.nextOrderId == old(db.nextOrderId)
    ensures old(db.TotalsConsistent()) ==> db.TotalsConsistent()
  {
    ghost var items0 := db.items;
    var row := db.SaveItem(ItemDraft(None, oid, p.id, q, Some(p.price)));
    ItemsTotalAppend(items0, [row], oid);
    assert ItemsTotal([row], oid) == row.summary;
    LinesTotalAppend(lines, [LineOfRow(row)]);
    assert LinesTotal([LineOfRow(row)]) == row.summary;
    AppendedLinesSnoc(before, items0, lines, oid, row);
    newTotal := total + row.summary;
  }

  /**
   * One pass of the item loop on an item that does not raise: the product
   * is fetched, the quantity read, and a positive quantity stores one line;
   * any other is skipped.
   */
  method StoreItem(db: Db, oid: nat, items: seq<RequestItem>, i: nat, ghost before: seq<OrderItem>,
                   ghost orders0: map<nat, Order>, total: int)
    returns (newTotal: int)
    requires i < |items| && forall j :: 0 <= j <= i ==> !Raises(db.products, items[j])
    requires Stored(db, before, orders0, oid, Lines(db.products, items[..i]), total)
    modifies db
    ensures Stored(db, before, orders0, oid, Lines(old(db.products), items[..i + 1]), newTotal)
    ensures db.products == old(db.products) && db.shops == old(db.shops) && db.clients == old(db.clients)
    ensures db.nextOrderId == old(db.nextOrderId)
    ensures old(db.TotalsConsistent()) ==> db.TotalsConsistent()
  {
    ghost var lines := Lines(db.products, items[..i]);
    LinesSnoc(db.products, items, i);
    var it := items[i];
    var product := ResolveProduct(db.products, it.productId).value;
    var qty := QuantityValue(it.quantity).value;
    if qty <= 0 {
      assert lines + LineOf(db.products, it) == lines;
      return total;
    }
    newTotal := StoreLine(db, oid, product, qty, before, orders0, lines, total);
  }

  /**
   * The item loop of `create_order` for the freshly created order `oid`:
   * stores the request's lines in order until one raises, each store
   * recomputing the order's total. `ok` says whether the whole list was
   * processed; either way the order's total is the sum of what was stored.
   */
  method StoreItems(db: Db, oid: nat, items: seq<RequestItem>) returns (ok: bool, total: int)
    requires db.Valid() && oid in db.orders && ItemsTotal(db.items, oid) == 0 && db.orders[oid].totalPrice == 0
    modifies db
    ensures db.Valid()
    ensures db.orders == old(db.orders)[oid := old(db.orders)[oid].(totalPrice := total)]
    ensures total == LinesTotal(Lines(db.products, items)) == ItemsTotal(db.items, oid)
    ensures AppendedLines(old(db.items), db.items, Lines(db.products, items), oid)
    ensures old(db.TotalsConsistent()) ==> db.TotalsConsistent()
    ensures db.products == old(db.products) && db.shops == old(db.shops) && db.clients == old(db.clients)
    ensures db.nextOrderId == old(db.nextOrderId)
    ensures ok <==> forall j :: 0 <= j < |items| ==> !Raises(db.products, items[j])
  {
    ghost var consistent := db.TotalsConsistent();
    ghost var orders0 := db.orders;
    ghost var before := db.items;
    var products := db.products;
    assert orders0[oid := orders0[oid].(totalPrice := 0)] == orders0;
    assert items[..0] == [];
    total := 0;
    var i := 0;
    while i < |items| && !Raises(products, items[i])
      invariant 0 <= i <= |items|
      invariant db.products == products && db.shops == old(db.shops) && db.clients == old(db.clients)
      invariant db.nextOrderId == old(db.nextOrderId)
      invariant Stored(db, before, orders0, oid, Lines(products, items[..i]), total)
      invariant consistent ==> db.TotalsConsistent()
      invariant forall j :: 0 <= j < i ==> !Raises(products, items[j])
    {
      total := StoreItem(db, oid, items, i, before, orders0, total);
      i := i + 1;
    }
    // The first line that raises ends the request; the ones before it stay stored.
    LinesStop(products, items, i);
    ok := i == |items|;
  }

  /**
   * `create_order` once exactly one client `c` matched: creates the order,
   * runs the item loop and, when it completes, writes the accumulated total.
   */
  method PlaceOrder(db: Db, c: Client, p: OrderPayload, now: int) returns (resp: Response)
    requires db.Valid()
    modifies db
    ensures db.Valid()
    ensures old(db.TotalsConsistent()) ==> db.TotalsConsistent()
    ensures db.products == old(db.products) && db.shops == old(db.shops) && db.clients == old(db.clients)
    ensures var oid := old(db.nextOrderId);
      var lines := Lines(old(db.products), p.items);
      && oid !in old(db.orders)
      && db.orders == old(db.orders)[oid := NewOrder(oid, c, p, now).(totalPrice := LinesTotal(lines))]
      && AppendedLines(old(db.items), db.items, lines, oid)
      && ItemsTotal(db.items, oid) == LinesTotal(lines)
      && resp == (if forall j :: 0 <= j < |p.items| ==> !Raises(old(db.products), p.items[j])
                  then Response(200, Some(oid)) else Response(500, None))
  {
    ghost var orders0 := db.orders;
    var oid := db.CreateOrder(c.id, c.shopId, CommentOf(p), now);
    var o := NewOrder(oid, c, p, now);
    var ok := FillOrder(db, o, p.items);
    UpdateTwice(orders0, oid, o, o.(totalPrice := LinesTotal(Lines(db.products, p.items))));
    if ok {
      resp := Response(200, Some(oid));
    } else {
      resp := Response(500, None);
    }
  }

  /**
   * What follows the creation of order `o` in `create_order`: the item
   * loop, and when it completes, `order.total_price = total; order.save()`.
   * A raising line leaves the order with the total its items' saves wrote,
   * which is the same sum.
   */
  method FillOrder(db: Db, o: Order, items: seq<RequestItem>) returns (ok: bool)
    requires db.Valid() && o.id in db.orders && db.orders[o.id] == o
    requires o.totalPrice == 0 && ItemsTotal(db.items, o.id) == 0
    modifies db
    ensures db.Valid()
    ensures old(db.TotalsConsistent()) ==> db.TotalsConsistent()
    ensures db.products == old(db.products) && db.shops == old(db.shops) && db.clients == old(db.clients)
    ensures var lines := Lines(old(db.products), items);
      && db.orders == old(db.orders)[o.id := o.(totalPrice := LinesTotal(lines))]
      && AppendedLines(old(db.items), db.items, lines, o.id)
      && ItemsTotal(db.items, o.id) == LinesTotal(lines)
    ensures ok <==> forall j :: 0 <= j < |items| ==> !Raises(old(db.products), items[j])
  {
    var total;
    ok, total := StoreItems(db, o.id, items);
    if ok {
      db.SaveOrder(o.(totalPrice := total));
    }
  }

  /**
   * `create_order`. A method other than POST gives 405 and a body that is
   * not JSON gives 500, both changing nothing. No client with the chat id
   * gives 404 and several give 500, again creating nothing. Otherwise a new
   * order for the client and its shop is stored; one item per requested
   * line with a positive quantity, in request order, at the product's price
   * (`Lines`); its total is the sum of those items, whatever total the
   * browser sent. If some line raises the answer is 500 and the items before
   * it stay stored; if none does the answer is 200 with the new order's id.
   */
  method CreateOrderView(db: Db, req: Request, now: int) returns (resp: Response)
    requires db.Valid()
    modifies db
    ensures db.Valid()
    ensures old(db.TotalsConsistent()) ==> db.TotalsConsistent()
    ensures db.products == old(db.products) && db.shops == old(db.shops) && db.clients == old(db.clients)
    ensures req.verb != "POST" ==> resp == Response(405, None) && unchanged(db)
    ensures req.verb == "POST" && req.body.None? ==> resp == Response(500, None) && unchanged(db)
    ensures req.verb == "POST" && req.body.Some? ==>
      var m := MatchingClients(old(db.clients), req.body.value.telegramId);
      && (|m| == 0 ==> resp == Response(404, None) && unchanged(db))
      && (|m| > 1 ==> resp == Response(500, None) && unchanged(db))
    ensures req.verb == "POST" && req.body.Some? && |MatchingClients(old(db.clients), req.body.value.telegramId)| == 1 ==>
      var p := req.body.value;
      var c := MatchingClients(old(db.clients), p.telegramId)[0];
      var oid := old(db.nextOrderId);
      var lines := Lines(old(db.products), p.items);
      && oid !in old(db.orders)
      && db.orders == old(db.orders)[oid := NewOrder(oid, c, p, now).(totalPrice := LinesTotal(lines))]
      && AppendedLines(old(db.items), db.items, lines, oid)
      && ItemsTotal(db.items, oid) == LinesTotal(lines)
      && resp == (if forall j :: 0 <= j < |p.items| ==> !Raises(old(db.products), p.items[j])
                  then Response(200, Some(oid)) else Response(500, None))
  {
    if req.verb != "POST" {
      return Response(405, None);
    }
    if req.body.None? {
      return Response(500, None);
    }
    var p := req.body.value;
    var m := MatchingClients(db.clients, p.telegramId);
    if |m| == 0 {
      return Response(404, None);
    }
    if |m| > 1 {
      return Response(500, None);
    }
    resp := PlaceOrder(db, m[0], p, now);
  }
}
