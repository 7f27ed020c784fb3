/**
 * The ordering service's persistent state and the order aggregate.
 *
 * The relational tables (shops, clients, products, orders, order items) are
 * the fields of one `Db` object; each ORM write is an assignment to one of
 * them. `OrderItem.save` snapshots the unit price, derives the line summary
 * and then recomputes the parent order's `total_price` with a scoped update
 * of that single column; `OrderItem.delete` removes the row and recomputes
 * the same way. The invariant kept is that every order's total is the sum of
 * its items' summaries (`TotalsConsistent`).
 */
module Models {
  import opened Common

  /** A restaurant; `name` is unique in its table. */
  datatype Shop = Shop(id: nat, name: string)

  /** A registered branch user; coordinates are in millionths of a degree. */
  datatype Client = Client(
    id: nat, shopId: nat, filialName: string, telegramId: int,
    fullName: string, phone: string, latitude: int, longitude: int)

  /** A catalog product; the price has no decimal places. */
  datatype Product = Product(id: nat, categoryId: nat, name: string, price: int, isAvailable: bool)

  datatype Status = Created | Confirmed | Delivered | Canceled

  /** The value stored in the `status` column. */
  function StatusValue(s: Status): string {
    match s
    case Created => "created"
    case Confirmed => "confirmed"
    case Delivered => "delivered"
    case Canceled => "canceled"
  }

  /** An order row; timestamps are opaque instants supplied by the caller. */
  datatype Order = Order(
    id: nat, shopId: nat, clientId: nat, status: Status, totalPrice: int,
    createdAt: int, confirmedAt: Option<int>, deliveredAt: Option<int>, comment: string)

  /** A stored order line: `summary` is always `price * quantity` once saved. */
  datatype OrderItem = OrderItem(id: nat, orderId: nat, productId: nat, quantity: nat, price: int, summary: int)

  /**
   * An item object in memory before `save()`: a new one has no primary key,
   * and its price may be unset (`None`), in which case the product's price is used.
   */
  datatype ItemDraft = ItemDraft(id: Option<nat>, orderId: nat, productId: nat, quantity: nat, price: Option<int>)

  /** What loading a stored row gives back: its key and its snapshot price are set. */
  function Reloaded(row: OrderItem): ItemDraft {
    ItemDraft(Some(row.id), row.orderId, row.productId, row.quantity, Some(row.price))
  }

  /** The unit price `save()` stores: the given one, or else the product's current price. */
  function SnapshotPrice(given: Option<int>, productPrice: int): int {
    match given
    case Some(p) => p
    case None => productPrice
  }

  /** A reloaded row keeps its snapshot whatever the product costs now. */
  lemma ResaveKeepsSnapshot(row: OrderItem, currentPrice: int)
    ensures SnapshotPrice(Reloaded(row).price, currentPrice) == row.price
  {
  }

  /** How much one item adds to the total of order `orderId`. */
  function Contribution(it: OrderItem, orderId: nat): int {
    if it.orderId == orderId then it.summary else 0
  }

  /** Σ summary over the items of order `orderId`. */
  function ItemsTotal(items: seq<OrderItem>, orderId: nat): int {
    if items == [] then 0
    else ItemsTotal(items[..|items| - 1], orderId) + Contribution(items[|items| - 1], orderId)
  }

  lemma {:induction false} ItemsTotalAppend(s: seq<OrderItem>, t: seq<OrderItem>, orderId: nat)
    ensures ItemsTotal(s + t, orderId) == ItemsTotal(s, orderId) + ItemsTotal(t, orderId)
    decreases |t|
  {
    if t == [] {
      assert s + t == s;
    } else {
      var t' := t[..|t| - 1];
      assert (s + t)[..|s + t| - 1] == s + t';
      assert (s + t)[|s + t| - 1] == t[|t| - 1];
      ItemsTotalAppend(s, t', orderId);
    }
  }

  /** `sum(item.summary for item in self.items.all())`: the items of order `orderId`, one row at a time. */
  method SumSummaries(items: seq<OrderItem>, orderId: nat) returns (total: int)
    ensures total == ItemsTotal(items, orderId)
  {
    total := 0;
    var i := 0;
    while i < |items|
      invariant 0 <= i <= |items|
      invariant total == ItemsTotal(items[..i], orderId)
    {
      assert items[..i + 1][..i] == items[..i];
      if items[i].orderId == orderId {
        total := total + items[i].summary;
      }
      i := i + 1;
    }
    assert items[..|items|] == items;
  }

  /** Removing the item at `i` takes exactly its contribution off every order's sum. */
  lemma ItemsTotalRemove(s: seq<OrderItem>, i: nat, orderId: nat)
    requires i < |s|
    ensures ItemsTotal(s[..i] + s[i + 1..], orderId) == ItemsTotal(s, orderId) - Contribution(s[i], orderId)
  {
    assert s == s[..i] + [s[i]] + s[i + 1..];
    ItemsTotalAppend(s[..i] + [s[i]], s[i + 1..], orderId);
    ItemsTotalAppend(s[..i], [s[i]], orderId);
    ItemsTotalAppend(s[..i], s[i + 1..], orderId);
    assert ItemsTotal([s[i]], orderId) == Contribution(s[i], orderId);
  }

  /** Replacing the item at `i` swaps its contribution for the new one's. */
  lemma ItemsTotalReplace(s: seq<OrderItem>, i: nat, x: OrderItem, orderId: nat)
    requires i < |s|
    ensures ItemsTotal(s[i := x], orderId)
         == ItemsTotal(s, orderId) - Contribution(s[i], orderId) + Contribution(x, orderId)
  {
    var t := s[i := x];
    assert t == s[..i] + [x] + s[i + 1..];
    assert t[..i] + t[i + 1..] == s[..i] + s[i + 1..];
    ItemsTotalRemove(s, i, orderId);
    ItemsTotalRemove(t, i, orderId);
  }

  /** An order that no item refers to sums to zero. */
  lemma {:induction false} ItemsTotalNone(s: seq<OrderItem>, orderId: nat)
    requires forall i :: 0 <= i < |s| ==> s[i].orderId != orderId
    ensures ItemsTotal(s, orderId) == 0
  {
    if s != [] {
      ItemsTotalNone(s[..|s| - 1], orderId);
    }
  }

  /**
   * `OrderItem.save` on a stored row moved to another order (the superuser's
   * item form lets the order be changed): the new order is recomputed, but
   * the order the row left keeps a total that still counts the row.
   */
  lemma MoveLeavesOldTotalStale(orders: map<nat, Order>, items: seq<OrderItem>, i: nat, row: OrderItem)
    requires i < |items| && items[i].orderId in orders && row.orderId in orders
    requires row.orderId != items[i].orderId && items[i].summary != 0
    requires orders[items[i].orderId].totalPrice == ItemsTotal(items, items[i].orderId)
    ensures var items' := items[i := row];
      var orders' := orders[row.orderId := orders[row.orderId].(totalPrice := ItemsTotal(items', row.orderId))];
      orders'[items[i].orderId].totalPrice != ItemsTotal(items', items[i].orderId)
  {
    ItemsTotalReplace(items, i, row, items[i].orderId);
  }

  /** The position of the row with primary key `id`, if there is one. */
  function FindItem(items: seq<OrderItem>, id: nat): (r: Option<nat>)
    ensures r.Some? ==> r.value < |items| && items[r.value].id == id
    ensures r.None? ==> forall i :: 0 <= i < |items| ==> items[i].id != id
  {
    FirstWhere(items, (it: OrderItem) => it.id == id)
  }

  /** The draft is new, or it is a stored row that stays in the order it was in. */
  predicate KeepsOrder(items: seq<OrderItem>, d: ItemDraft) {
    match d.id
    case None => true
    case Some(k) =>
      match FindItem(items, k)
      case Some(i) => items[i].orderId == d.orderId
      case None => true
  }

  /** Shop keys are unique and below `next`, and so are shop names. */
  predicate ShopsValid(shops: seq<Shop>, next: nat) {
    && (forall i :: 0 <= i < |shops| ==> shops[i].id < next)
    && (forall i, j :: 0 <= i < j < |shops| ==> shops[i].id != shops[j].id && shops[i].name != shops[j].name)
  }

  /** Client keys are unique and below `next`. */
  predicate ClientsValid(clients: seq<Client>, next: nat) {
    && (forall i :: 0 <= i < |clients| ==> clients[i].id < next)
    && (forall i, j :: 0 <= i < j < |clients| ==> clients[i].id != clients[j].id)
  }

  /** Every product is stored under its own key. */
  predicate ProductsValid(products: map<nat, Product>) {
    forall id :: id in products ==> products[id].id == id
  }

  /** Every order is stored under its own key, below `next`. */
  predicate OrdersValid(orders: map<nat, Order>, next: nat) {
    forall id :: id in orders ==> id < next && orders[id].id == id
  }

  /** Item keys are unique and below `next`, and every item belongs to a stored order. */
  predicate ItemsValid(items: seq<OrderItem>, orders: map<nat, Order>, next: nat) {
    && (forall i :: 0 <= i < |items| ==> items[i].id < next && items[i].orderId in orders)
    && (forall i, j :: 0 <= i < j < |items| ==> items[i].id != items[j].id)
  }

  class Db {
    var shops: seq<Shop>
    var clients: seq<Client>
    var products: map<nat, Product>
    var orders: map<nat, Order>
    var items: seq<OrderItem>
    var nextShopId: nat
    var nextClientId: nat
    var nextOrderId: nat
    var nextItemId: nat

    /** Keys are unique and below the next auto-increment value; shop names are unique; items point at stored orders. */
    ghost predicate Valid()
      reads this
    {
      && ShopsValid(shops, nextShopId)
      && ClientsValid(clients, nextClientId)
      && ProductsValid(products)
      && OrdersValid(orders, nextOrderId)
      && ItemsValid(items, orders, nextItemId)
    }

    /** Order `o`'s stored total is the sum of its items' summaries. */
    ghost predicate ConsistentAt(o: nat)
      reads this
      requires o in orders
    {
      orders[o].totalPrice == ItemsTotal(items, o)
    }

    /** Every order's stored total is the sum of its items' summaries. */
    ghost predicate TotalsConsistent()
      reads this
    {
      forall o :: o in orders ==> orders[o].totalPrice == ItemsTotal(items, o)
    }

    /** An empty database over a given product catalog. */
    constructor (catalog: map<nat, Product>)
      requires forall id :: id in catalog ==> catalog[id].id == id
      ensures Valid() && TotalsConsistent()
      ensures products == catalog
      ensures shops == [] && clients == [] && orders == map[] && items == []
    {
      shops, clients, products, orders, items := [], [], catalog, map[], [];
      nextShopId, nextClientId, nextOrderId, nextItemId := 1, 1, 1, 1;
    }

    /**
     * `Order.objects.create(...)`: a new row with the defaults status CREATED,
     * total 0, no confirmation or delivery time, created now.
     */
    method CreateOrder(clientId: nat, shopId: nat, comment: string, now: int) returns (id: nat)
      requires Valid()
      modifies this
      ensures Valid()
      ensures id == old(nextOrderId) && id !in old(orders) && nextOrderId == id + 1
      ensures orders == old(orders)[id := Order(id, shopId, clientId, Created, 0, now, None, None, comment)]
      ensures orders[id].status == Created && orders[id].totalPrice == 0
      ensures shops == old(shops) && clients == old(clients) && products == old(products) && items == old(items)
      ensures nextShopId == old(nextShopId) && nextClientId == old(nextClientId) && nextItemId == old(nextItemId)
      ensures ItemsTotal(items, id) == 0
      ensures old(TotalsConsistent()) ==> TotalsConsistent()
    {
      id := nextOrderId;
      ItemsTotalNone(items, id);
      orders := orders[id := Order(id, shopId, clientId, Created, 0, now, None, None, comment)];
      nextOrderId := nextOrderId + 1;
    }

    /**
     * `order.save()` on an order object already stored: writes every column
     * of that row and nothing else.
     */
    method SaveOrder(o: Order)
      requires Valid() && o.id in orders
      modifies this
      ensures Valid()
      ensures orders == old(orders)[o.id := o]
      ensures shops == old(shops) && clients == old(clients) && products == old(products) && items == old(items)
      ensures nextShopId == old(nextShopId) && nextClientId == old(nextClientId)
      ensures nextOrderId == old(nextOrderId) && nextItemId == old(nextItemId)
      ensures old(TotalsConsistent()) && o.totalPrice == ItemsTotal(items, o.id) ==> TotalsConsistent()
    {
      orders := orders[o.id := o];
    }

    /**
     * `Order.update_total_price`: sums the summaries of the order's items and
     * writes that one column of that one row. Calling it again with no item
     * change writes the same value, so it leaves everything as it is.
     */
    method UpdateTotalPrice(orderId: nat) returns (total: int)
      requires Valid() && orderId in orders
      modifies this
      ensures Valid()
      ensures total == ItemsTotal(items, orderId)
      ensures orders == old(orders)[orderId := old(orders)[orderId].(totalPrice := total)]
      ensures shops == old(shops) && clients == old(clients) && products == old(products) && items == old(items)
      ensures nextShopId == old(nextShopId) && nextClientId == old(nextClientId)
      ensures nextOrderId == old(nextOrderId) && nextItemId == old(nextItemId)
      ensures old(ConsistentAt(orderId)) ==> orders == old(orders)
      ensures (forall o :: o in old(orders) && o != orderId ==> old(ConsistentAt(o))) ==> TotalsConsistent()
    {
      total := SumSummaries(items, orderId);
      orders := orders[orderId := orders[orderId].(totalPrice := total)];
    }

    /**
     * `OrderItem.save`: fills an unset price from the product, sets
     * `summary = price * quantity`, writes the row (appending a new one, or
     * overwriting the stored row with the same key), then recomputes the
     * parent order's total. A reloaded row carries its price, so a later
     * change of the product's price does not reach it.
     */
    method SaveItem(d: ItemDraft) returns (row: OrderItem)
      requires Valid()
      requires d.orderId in orders
      requires d.price.None? ==> d.productId in products
      requires d.id.Some? ==> FindItem(items, d.id.value).Some?
      modifies this
      ensures Valid()
      ensures products == old(products)
      ensures row.price == (if d.price.Some? then d.price.value else products[d.productId].price)
      ensures row.summary == row.price * row.quantity
      ensures row.orderId == d.orderId && row.productId == d.productId && row.quantity == d.quantity
      ensures d.id.None? ==> row.id == old(nextItemId) && items == old(items) + [row]
      ensures d.id.Some? ==> row.id == d.id.value && items == old(items)[FindItem(old(items), row.id).value := row]
      ensures orders == old(orders)[d.orderId := old(orders)[d.orderId].(totalPrice := ItemsTotal(items, d.orderId))]
      ensures ConsistentAt(d.orderId)
      ensures shops == old(shops) && clients == old(clients)
      ensures nextShopId == old(nextShopId) && nextClientId == old(nextClientId) && nextOrderId == old(nextOrderId)
      ensures nextItemId == old(nextItemId) + (if d.id.None? then 1 else 0)
      ensures old(TotalsConsistent()) && KeepsOrder(old(items), d) ==> TotalsConsistent()
    {
      var price := SnapshotPrice(d.price, if d.price.None? then products[d.productId].price else 0);
      var summary := price * d.quantity;
      ghost var before := items;
      match d.id {
        case None =>
          row := OrderItem(nextItemId, d.orderId, d.productId, d.quantity, price, summary);
          AppendItem(row);
        case Some(k) =>
          var i := FindItem(items, k).value;
          row := OrderItem(k, d.orderId, d.productId, d.quantity, price, summary);
          ReplaceItem(i, row);
      }
      assert forall o :: o in orders && o != d.orderId && KeepsOrder(before, d) ==>
        ItemsTotal(items, o) == ItemsTotal(before, o);
      var _ := UpdateTotalPrice(d.orderId);
    }

    /**
     * `OrderItem.save` as it evidently should be: when a stored row moves to
     * another order, the order it left is recomputed as well. Every save then
     * keeps the totals invariant, whether or not the row changes order.
     */
    method SaveItemBothTotals(d: ItemDraft) returns (row: OrderItem)
      requires Valid()
      requires d.orderId in orders
      requires d.price.None? ==> d.productId in products
      requires d.id.Some? ==> FindItem(items, d.id.value).Some?
      modifies this
      ensures Valid()
      ensures products == old(products)
      ensures row.price == (if d.price.Some? then d.price.value else products[d.productId].price)
      ensures row.summary == row.price * row.quantity
      ensures row.orderId == d.orderId && row.productId == d.productId && row.quantity == d.quantity
      ensures d.id.None? ==> row.id == old(nextItemId) && items == old(items) + [row]
      ensures d.id.Some? ==> row.id == d.id.value && items == old(items)[FindItem(old(items), row.id).value := row]
      ensures d.id.None? ==>
        orders == old(orders)[d.orderId := old(orders)[d.orderId].(totalPrice := ItemsTotal(items, d.orderId))]
      ensures d.id.Some? ==>
        var left := old(items)[FindItem(old(items), d.id.value).value].orderId;
        && left in old(orders)
        && orders == old(orders)
             [d.orderId := old(orders)[d.orderId].(totalPrice := ItemsTotal(items, d.orderId))]
             [left := old(orders)[left].(totalPrice := ItemsTotal(items, left))]
        && ConsistentAt(left)
      ensures ConsistentAt(d.orderId)
      ensures shops == old(shops) && clients == old(clients)
      ensures nextShopId == old(nextShopId) && nextClientId == old(nextClientId) && nextOrderId == old(nextOrderId)
      ensures nextItemId == old(nextItemId) + (if d.id.None? then 1 else 0)
      ensures old(TotalsConsistent()) ==> TotalsConsistent()
    {
      var price := SnapshotPrice(d.price, if d.price.None? then products[d.productId].price else 0);
      var summary := price * d.quantity;
      match d.id {
        case None =>
          row := OrderItem(nextItemId, d.orderId, d.productId, d.quantity, price, summary);
          AppendItem(row);
          var _ := UpdateTotalPrice(d.orderId);
        case Some(k) =>
          var i := FindItem(items, k).value;
          row := OrderItem(k, d.orderId, d.productId, d.quantity, price, summary);
          ResaveItem(i, row);
      }
    }

    /** A stored row overwritten, then the totals of the order it is in and of the order it was in recomputed. */
    method ResaveItem(i: nat, row: OrderItem)
      requires Valid() && i < |items| && row.id == items[i].id && row.orderId in orders
      modifies this
      ensures Valid()
      ensures items == old(items)[i := row] && nextItemId == old(nextItemId)
      ensures old(items)[i].orderId in old(orders)
      ensures orders == old(orders)
        [row.orderId := old(orders)[row.orderId].(totalPrice := ItemsTotal(items, row.orderId))]
        [old(items)[i].orderId := old(orders)[old(items)[i].orderId].(totalPrice := ItemsTotal(items, old(items)[i].orderId))]
      ensures ConsistentAt(row.orderId) && ConsistentAt(old(items)[i].orderId)
      ensures products == old(products) && shops == old(shops) && clients == old(clients)
      ensures nextShopId == old(nextShopId) && nextClientId == old(nextClientId) && nextOrderId == old(nextOrderId)
      ensures old(TotalsConsistent()) ==> TotalsConsistent()
    {
      ghost var wasConsistent := TotalsConsistent();
      var previous := items[i].orderId;
      ReplaceItem(i, row);
      assert wasConsistent ==> forall o :: o in orders && o != row.orderId && o != previous ==> ConsistentAt(o);
      var _ := UpdateTotalPrice(row.orderId);
      if previous != row.orderId {
        assert wasConsistent ==> forall o :: o in orders && o != previous ==> ConsistentAt(o);
        var _ := UpdateTotalPrice(previous);
        assert ConsistentAt(row.orderId);
      }
    }

    /** A new item row at the end of the table, with the next key. */
    method AppendItem(row: OrderItem)
      requires Valid() && row.id == nextItemId && row.orderId in orders
      modifies this
      ensures Valid()
      ensures items == old(items) + [row] && nextItemId == old(nextItemId) + 1
      ensures orders == old(orders) && products == old(products) && shops == old(shops) && clients == old(clients)
      ensures nextShopId == old(nextShopId) && nextClientId == old(nextClientId) && nextOrderId == old(nextOrderId)
      ensures forall o :: o != row.orderId ==> ItemsTotal(items, o) == ItemsTotal(old(items), o)
    {
      ghost var before := items;
      items := items + [row];
      nextItemId := nextItemId + 1;
      forall o | o != row.orderId
        ensures ItemsTotal(items, o) == ItemsTotal(before, o)
      {
        ItemsTotalAppend(before, [row], o);
        assert ItemsTotal([row], o) == 0;
      }
    }

    /** The stored row at position `i` overwritten by one with the same key. */
    method ReplaceItem(i: nat, row: OrderItem)
      requires Valid() && i < |items| && row.id == items[i].id && row.orderId in orders
      modifies this
      ensures Valid()
      ensures items == old(items)[i := row] && nextItemId == old(nextItemId)
      ensures orders == old(orders) && products == old(products) && shops == old(shops) && clients == old(clients)
      ensures nextShopId == old(nextShopId) && nextClientId == old(nextClientId) && nextOrderId == old(nextOrderId)
      ensures forall o :: o != row.orderId && o != old(items)[i].orderId ==>
        ItemsTotal(items, o) == ItemsTotal(old(items), o)
    {
      ghost var before := items;
      items := items[i := row];
      forall o | o != row.orderId && o != before[i].orderId
        ensures ItemsTotal(items, o) == ItemsTotal(before, o)
      {
        ItemsTotalReplace(before, i, row, o);
      }
    }

    /** The stored row at position `i` deleted; every order's sum loses that row's contribution. */
    method RemoveItem(i: nat)
      requires Valid() && i < |items|
      modifies this
      ensures Valid()
      ensures items == old(items)[..i] + old(items)[i + 1..] && nextItemId == old(nextItemId)
      ensures orders == old(orders) && products == old(products) && shops == old(shops) && clients == old(clients)
      ensures nextShopId == old(nextShopId) && nextClientId == old(nextClientId) && nextOrderId == old(nextOrderId)
      ensures forall o :: ItemsTotal(items, o) == ItemsTotal(old(items), o) - Contribution(old(items)[i], o)
    {
      ghost var before := items;
      items := items[..i] + items[i + 1..];
      assert forall k :: 0 <= k < |items| ==> items[k] == before[if k < i then k else k + 1];
      forall o
        ensures ItemsTotal(items, o) == ItemsTotal(before, o) - Contribution(before[i], o)
      {
        ItemsTotalRemove(before, i, o);
      }
    }

    /**
     * `OrderItem.delete`: removes the row, then recomputes the total of the
     * order it belonged to; the total drops by exactly the removed summary.
     */
    method DeleteItem(itemId: nat) returns (removed: OrderItem)
      requires Valid() && FindItem(items, itemId).Some?
      modifies this
      ensures Valid()
      ensures var i := FindItem(old(items), itemId).value;
        removed == old(items)[i] && items == old(items)[..i] + old(items)[i + 1..]
      ensures removed.orderId in old(orders)
      ensures orders == old(orders)[removed.orderId := old(orders)[removed.orderId].(totalPrice := ItemsTotal(items, removed.orderId))]
      ensures old(ConsistentAt(removed.orderId)) ==>
        orders[removed.orderId].totalPrice == old(orders[removed.orderId].totalPrice) - removed.summary
      ensures shops == old(shops) && clients == old(clients) && products == old(products)
      ensures nextShopId == old(nextShopId) && nextClientId == old(nextClientId)
      ensures nextOrderId == old(nextOrderId) && nextItemId == old(nextItemId)
      ensures old(TotalsConsistent()) ==> TotalsConsistent()
    {
      var i := FindItem(items, itemId).value;
      removed := items[i];
      RemoveItem(i);
      var _ := UpdateTotalPrice(removed.orderId);
    }
  }
}
