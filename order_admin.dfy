/**
 * The back-office screen for orders: the three bulk status actions, the
 * role-dependent read-only fields, the permissions and the list columns.
 * A staff member who is not a superuser may change an order's status and
 * nothing else; a superuser sees the item lines and may add and delete.
 */
module OrderAdmin {
  import opened Common
  import opened Text
  import opened Models

  /** The three actions offered on the order list. */
  datatype Action = MarkConfirmed | MarkDelivered | MarkCanceled

  /** What an action writes into one selected row: the status and one timestamp, whatever was there before. */
  function Apply(a: Action, o: Order, now: int): Order {
    match a
    case MarkConfirmed => o.(status := Confirmed, confirmedAt := Some(now))
    case MarkDelivered => o.(status := Delivered, deliveredAt := Some(now))
    case MarkCanceled => o.(status := Canceled, deliveredAt := Some(now))
  }

  /** The status an action sets. */
  function TargetStatus(a: Action): Status {
    match a
    case MarkConfirmed => Confirmed
    case MarkDelivered => Delivered
    case MarkCanceled => Canceled
  }

  /**
   * `queryset.update(...)` over the selected primary keys: every selected
   * row gets the action's status and `now` in the action's timestamp
   * column (cancelling writes the delivery time); every other column, and
   * every row not selected, keeps its value.
   */
  function Marked(orders: map<nat, Order>, selected: set<nat>, a: Action, now: int): (r: map<nat, Order>)
    ensures r.Keys == orders.Keys
    ensures forall k :: k in r ==>
      && r[k].id == orders[k].id && r[k].shopId == orders[k].shopId && r[k].clientId == orders[k].clientId
      && r[k].totalPrice == orders[k].totalPrice && r[k].createdAt == orders[k].createdAt
      && r[k].comment == orders[k].comment
    ensures forall k :: k in r && k !in selected ==> r[k] == orders[k]
    ensures forall k :: k in r && k in selected ==>
      && r[k].status == TargetStatus(a)
      && r[k].confirmedAt == (if a == MarkConfirmed then Some(now) else orders[k].confirmedAt)
      && r[k].deliveredAt == (if a == MarkConfirmed then orders[k].deliveredAt else Some(now))
  {
    map k | k in orders :: if k in selected then Apply(a, orders[k], now) else orders[k]
  }

  /** The number of rows the update touches: the selected keys that are stored orders. */
  function UpdatedCount(orders: map<nat, Order>, selected: set<nat>): nat {
    |selected * orders.Keys|
  }

  /**
   * `mark_confirmed`, `mark_delivered`, `mark_canceled`: one bulk update of
   * the selected orders, no check of the status they had. Items, shops,
   * clients and products are untouched, so order totals stay what they were.
   * `count` is the number reported back to the user.
   */
  method RunAction(db: Db, a: Action, selected: set<nat>, now: int) returns (count: nat)
    requires db.Valid()
    modifies db
    ensures db.Valid()
    ensures db.orders == Marked(old(db.orders), selected, a, now)
    ensures count == UpdatedCount(old(db.orders), selected)
    ensures db.items == old(db.items) && db.products == old(db.products)
    ensures db.shops == old(db.shops) && db.clients == old(db.clients)
    ensures db.nextOrderId == old(db.nextOrderId) && db.nextItemId == old(db.nextItemId)
    ensures db.nextShopId == old(db.nextShopId) && db.nextClientId == old(db.nextClientId)
    ensures old(db.TotalsConsistent()) ==> db.TotalsConsistent()
  {
    count := UpdatedCount(db.orders, selected);
    var marked := Marked(db.orders, selected, a, now);
    assert forall o :: o in marked ==> marked[o].id == db.orders[o].id && marked[o].totalPrice == db.orders[o].totalPrice;
    db.orders := marked;
  }

  /** The row an action leaves does not depend on the status the order had. */
  lemma MarkedIgnoresStatus(orders: map<nat, Order>, selected: set<nat>, a: Action, now: int, k: nat, s: Status)
    requires k in orders && k in selected
    ensures Marked(orders[k := orders[k].(status := s)], selected, a, now) == Marked(orders, selected, a, now)
  {
    var orders' := orders[k := orders[k].(status := s)];
    var m', m := Marked(orders', selected, a, now), Marked(orders, selected, a, now);
    assert m'.Keys == m.Keys;
    forall j | j in m
      ensures m'[j] == m[j]
    {
      if j == k {
        ApplyIgnoresStatus(a, orders[k], s, now);
      }
    }
  }

  /** An action overwrites the status, so the status before it does not matter. */
  lemma ApplyIgnoresStatus(a: Action, o: Order, s: Status, now: int)
    ensures Apply(a, o.(status := s), now) == Apply(a, o, now)
  {
  }

  /** Running the same action twice at the same instant is the same as running it once. */
  lemma {:induction false} MarkedIdempotent(orders: map<nat, Order>, selected: set<nat>, a: Action, now: int)
    ensures Marked(Marked(orders, selected, a, now), selected, a, now) == Marked(orders, selected, a, now)
  {
    var once := Marked(orders, selected, a, now);
    forall k | k in once && k in selected
      ensures Apply(a, once[k], now) == once[k]
    {
    }
  }

  /** Selecting only stored orders, the count is the size of the selection. */
  lemma UpdatedCountOfStored(orders: map<nat, Order>, selected: set<nat>)
    requires selected <= orders.Keys
    ensures UpdatedCount(orders, selected) == |selected|
  {
    assert selected * orders.Keys == selected;
  }

  /** The sentence that follows the count in an action's message. */
  function ActionSentence(a: Action): (r: string)
    ensures r != [] && r[0] == ' '
  {
    " " + match a
      case MarkConfirmed => "ta buyurtma 'Tasdiqlandi' holatiga o'tkazildi."
      case MarkDelivered => "ta buyurtma 'Yetkazildi' holatiga o'tkazildi."
      case MarkCanceled => "ta buyurtma 'Bekor qilindi' holatiga o'tkazildi."
  }

  /** The message shown after an action: the count, then the action's own sentence. */
  function ActionMessage(a: Action, count: nat): string {
    NatToString(count) + ActionSentence(a)
  }

  /** The reported count can be read back from the message's leading digits. */
  lemma ActionMessageCount(a: Action, count: nat)
    ensures ParseIntPrefix(ActionMessage(a, count)) == Some(count)
  {
    ParseIntPrefixOfNumeral(count, ActionSentence(a));
  }

  /** A group of the edit form; a group without a field list contributes none. */
  datatype Fieldset = Fieldset(title: string, fields: Option<seq<string>>)

  function FieldsOf(g: Fieldset): seq<string> {
    match g.fields
    case Some(fs) => fs
    case None => []
  }

  /** Every field of the form, group by group, in order. */
  function Flatten(groups: seq<Fieldset>): seq<string> {
    if groups == [] then [] else Flatten(groups[..|groups| - 1]) + FieldsOf(groups[|groups| - 1])
  }

  /** The list without the occurrences of `x`, the rest kept in order. */
  function Without(s: seq<string>, x: string): (r: seq<string>)
    ensures x !in r
    ensures forall y :: y in r <==> y in s && y != x
    ensures |r| <= |s|
  {
    if s == [] then []
    else
      var rest := Without(s[..|s| - 1], x);
      assert forall y :: y in s <==> y in s[..|s| - 1] || y == s[|s| - 1];
      if s[|s| - 1] == x then rest else rest + [s[|s| - 1]]
  }

  /** Removing commutes with concatenation, so the kept fields stay in fieldset order. */
  lemma {:induction false} WithoutAppend(a: seq<string>, b: seq<string>, x: string)
    ensures Without(a + b, x) == Without(a, x) + Without(b, x)
    decreases |b|
  {
    if b == [] {
      assert a + b == a;
    } else {
      var b' := b[..|b| - 1];
      assert (a + b)[..|a + b| - 1] == a + b';
      WithoutAppend(a, b', x);
    }
  }

  /** A list without `x` is left as it is. */
  lemma {:induction false} WithoutAbsent(s: seq<string>, x: string)
    requires x !in s
    ensures Without(s, x) == s
  {
    if s != [] {
      WithoutAbsent(s[..|s| - 1], x);
    }
  }

  const OrderFieldsets: seq<Fieldset> := [
    Fieldset("Asosiy ma'lumotlar", Some(["shop", "client", "status", "comment"])),
    Fieldset("Moliyaviy ma'lumotlar", Some(["total_price"])),
    Fieldset("Vaqtlar", Some(["created_at", "confirmed_at", "delivered_at"]))
  ]

  const OrderReadonlyFields: seq<string> := ["total_price", "created_at", "confirmed_at", "delivered_at"]

  /**
   * `get_readonly_fields`: a superuser gets the declared read-only fields;
   * anyone else gets every field of the form, in form order, except `status`.
   */
  method GetReadonlyFields(groups: seq<Fieldset>, readonly: seq<string>, isSuperuser: bool) returns (r: seq<string>)
    ensures isSuperuser ==> r == readonly
    ensures !isSuperuser ==> r == Without(Flatten(groups), "status")
  {
    if isSuperuser {
      return readonly;
    }
    var all: seq<string> := [];
    var i := 0;
    while i < |groups|
      invariant 0 <= i <= |groups|
      invariant all == Flatten(groups[..i])
    {
      assert groups[..i + 1][..i] == groups[..i];
      all := all + FieldsOf(groups[i]);
      i := i + 1;
    }
    assert groups[..|groups|] == groups;
    r := [];
    var j := 0;
    while j < |all|
      invariant 0 <= j <= |all|
      invariant r == Without(all[..j], "status")
    {
      assert all[..j + 1][..j] == all[..j];
      if all[j] != "status" {
        r := r + [all[j]];
      }
      j := j + 1;
    }
    assert all[..|all|] == all;
  }

  /** Removing the one occurrence of `x` between two lists without it joins the two lists. */
  lemma WithoutOne(front: seq<string>, back: seq<string>, x: string)
    requires x !in front && x !in back
    ensures Without(front + [x] + back, x) == front + back
  {
    WithoutAppend(front + [x], back, x);
    WithoutAppend(front, [x], x);
    WithoutAbsent(front, x);
    WithoutAbsent(back, x);
    assert Without([x], x) == [];
  }

  /** The order form's fields, group by group. */
  lemma OrderFormFields()
    ensures Flatten(OrderFieldsets)
         == ["shop", "client"] + ["status"] + ["comment", "total_price", "created_at", "confirmed_at", "delivered_at"]
  {
    var g := OrderFieldsets;
    assert g[..1][..0] == [] && g[..2][..1] == g[..1] && g[..3][..2] == g[..2] && g[..3] == g;
    assert Flatten(g[..1]) == ["shop", "client", "status", "comment"];
    assert Flatten(g[..2]) == Flatten(g[..1]) + ["total_price"];
    assert Flatten(g[..3]) == Flatten(g[..2]) + ["created_at", "confirmed_at", "delivered_at"];
  }

  /** For this form a staff member may edit exactly the status: every other form field is read-only. */
  lemma StaffEditsOnlyStatus()
    ensures Without(Flatten(OrderFieldsets), "status")
         == ["shop", "client", "comment", "total_price", "created_at", "confirmed_at", "delivered_at"]
    ensures forall f :: f in Flatten(OrderFieldsets) && f !in Without(Flatten(OrderFieldsets), "status") <==> f == "status"
  {
    var front := ["shop", "client"];
    var back := ["comment", "total_price", "created_at", "confirmed_at", "delivered_at"];
    OrderFormFields();
    WithoutOne(front, back, "status");
    assert Flatten(OrderFieldsets)[2] == "status";
  }

  /** The inline editor for the item lines. */
  datatype Inline = OrderItemInline

  /** `get_inline_instances`: item lines are shown to a superuser only. */
  function InlineInstances(isSuperuser: bool): seq<Inline> {
    if isSuperuser then [OrderItemInline] else []
  }

  /** `has_add_permission` on orders. */
  function HasAddPermission(isSuperuser: bool): bool {
    isSuperuser
  }

  /** `has_delete_permission` on orders. */
  function HasDeletePermission(isSuperuser: bool): bool {
    isSuperuser
  }

  /** `has_module_permission` of the item screen: hidden from staff menus. */
  function ItemsModuleVisible(isSuperuser: bool): bool {
    isSuperuser
  }

  /**
   * The two roles: a staff member sees no item lines, may neither add nor
   * delete, and has every field but the status read-only; a superuser sees
   * the item lines, may add and delete, and only the declared fields are
   * read-only.
   */
  lemma RolePermissions(isSuperuser: bool)
    ensures !isSuperuser ==>
      && InlineInstances(isSuperuser) == [] && !HasAddPermission(isSuperuser)
      && !HasDeletePermission(isSuperuser) && !ItemsModuleVisible(isSuperuser)
    ensures isSuperuser ==>
      && InlineInstances(isSuperuser) != [] && HasAddPermission(isSuperuser)
      && HasDeletePermission(isSuperuser) && ItemsModuleVisible(isSuperuser)
  {
  }

  /** `id_display`: "#" and the decimal id. */
  function IdDisplay(id: nat): (r: string)
    ensures |r| >= 2 && r[0] == '#'
    ensures ParseNat(r[1..]) == Some(id)
  {
    ParseNatToString(id);
    assert ("#" + NatToString(id))[1..] == NatToString(id);
    "#" + NatToString(id)
  }

  /** Distinct orders are displayed differently. */
  lemma IdDisplayInjective(m: nat, n: nat)
    ensures IdDisplay(m) == IdDisplay(n) ==> m == n
  {
  }

  /**
   * `get_filial`: the branch name of the order's client, or "-" for an
   * order without one. The `client` column is a non-null foreign key with
   * cascading delete, so a stored order always has its client in the table
   * (the requires), and the answer is that client's branch name.
   */
  function GetFilial(clients: seq<Client>, o: Order): (r: string)
    requires exists i :: 0 <= i < |clients| && clients[i].id == o.clientId
    requires forall i, j :: 0 <= i < j < |clients| ==> clients[i].id != clients[j].id
    ensures forall i :: 0 <= i < |clients| && clients[i].id == o.clientId ==> r == clients[i].filialName
  {
    match FirstWhere(clients, (c: Client) => c.id == o.clientId)
    case Some(i) => clients[i].filialName
    case None => "-"
  }
}
