/**
 * Branch registration. The handler checks, in this order, that a chat id
 * was sent, that a shop name was sent and that no client has that chat id
 * yet; then it fetches the shop with the stripped name or creates it, and
 * finally lets the serializer validate and store the client. The shop is
 * created before the serializer runs and nothing undoes it, so a rejected
 * form still leaves a new shop behind.
 */
module ClientViews {
  import opened Common
  import opened Text
  import opened Models

  /** The client columns the serializer takes from the form. */
  datatype ClientForm = ClientForm(fullName: string, phone: string, filialName: string, latitude: int, longitude: int)

  /** The posted form; `None` is a field that was not sent (or sent as null). */
  datatype RegRequest = RegRequest(telegramId: Option<int>, shopName: Option<string>, form: ClientForm)

  /** The answer: a status code, the form field an error is reported on, the shop of a new client. */
  datatype RegResponse = RegResponse(status: nat, errorField: Option<string>, shopId: Option<nat>)

  /** Python truthiness of the chat id: missing or 0 is false. */
  predicate IdGiven(t: Option<int>) {
    t.Some? && t.value != 0
  }

  /** Python truthiness of the shop name: missing or empty is false. */
  predicate NameGiven(s: Option<string>) {
    s.Some? && s.value != ""
  }

  /** `Client.objects.filter(telegram_id=t).exists()`. */
  predicate HasClient(clients: seq<Client>, t: int) {
    exists i :: 0 <= i < |clients| && clients[i].telegramId == t
  }

  /** The position of the shop called `name`, if there is one. */
  function FindShop(shops: seq<Shop>, name: string): (r: Option<nat>)
    ensures r.Some? ==> r.value < |shops| && shops[r.value].name == name
    ensures r.None? ==> forall i :: 0 <= i < |shops| ==> shops[i].name != name
  {
    FirstWhere(shops, (sh: Shop) => sh.name == name)
  }

  /** The shops table after `get_or_create(name=...)`: unchanged if the name is there, one row more otherwise. */
  function ShopsAfter(shops: seq<Shop>, nextId: nat, name: string): seq<Shop> {
    if FindShop(shops, name).Some? then shops else shops + [Shop(nextId, name)]
  }

  /** A second `get_or_create` with the same name finds the first one's shop and adds nothing. */
  lemma GetOrCreateIdempotent(shops: seq<Shop>, nextId: nat, name: string, nextId': nat)
    ensures ShopsAfter(ShopsAfter(shops, nextId, name), nextId', name) == ShopsAfter(shops, nextId, name)
  {
    var once := ShopsAfter(shops, nextId, name);
    if FindShop(shops, name).None? {
      assert once[|shops|].name == name;
    }
  }

  /** `get_or_create` adds at most one shop. */
  lemma GetOrCreateAddsAtMostOne(shops: seq<Shop>, nextId: nat, name: string)
    ensures var after := ShopsAfter(shops, nextId, name);
      && after[..|shops|] == shops && |shops| <= |after| <= |shops| + 1
      && (|after| == |shops| + 1 <==> forall i :: 0 <= i < |shops| ==> shops[i].name != name)
  {
    if FindShop(shops, name).Some? {
      var k := FindShop(shops, name).value;
      assert shops[k].name == name;
    }
  }

  /**
   * `Shop.objects.get_or_create(name=name)`: a scan of the shops table for
   * the name; the shop found, or else a new row with the next key.
   */
  method GetOrCreateShop(db: Db, name: string) returns (shop: Shop)
    requires db.Valid()
    modifies db
    ensures db.Valid()
    ensures db.shops == ShopsAfter(old(db.shops), old(db.nextShopId), name)
    ensures shop.name == name && shop in db.shops
    ensures FindShop(old(db.shops), name).None? ==> shop == Shop(old(db.nextShopId), name)
    ensures FindShop(old(db.shops), name).Some? ==> shop == old(db.shops)[FindShop(old(db.shops), name).value]
    ensures db.nextShopId == old(db.nextShopId) + (if FindShop(old(db.shops), name).None? then 1 else 0)
    ensures db.clients == old(db.clients) && db.products == old(db.products)
    ensures db.orders == old(db.orders) && db.items == old(db.items)
    ensures db.nextClientId == old(db.nextClientId) && db.nextOrderId == old(db.nextOrderId)
    ensures db.nextItemId == old(db.nextItemId)
  {
    var i := 0;
    while i < |db.shops|
      invariant 0 <= i <= |db.shops|
      invariant forall j :: 0 <= j < i ==> db.shops[j].name != name
    {
      if db.shops[i].name == name {
        return db.shops[i];
      }
      i := i + 1;
    }
    shop := Shop(db.nextShopId, name);
    db.shops := db.shops + [shop];
    db.nextShopId := db.nextShopId + 1;
  }

  /** `Client.objects.filter(telegram_id=t).exists()` as a scan of the clients table. */
  method ClientExists(clients: seq<Client>, t: int) returns (found: bool)
    ensures found <==> HasClient(clients, t)
  {
    var i := 0;
    while i < |clients|
      invariant 0 <= i <= |clients|
      invariant forall j :: 0 <= j < i ==> clients[j].telegramId != t
    {
      if clients[i].telegramId == t {
        return true;
      }
      i := i + 1;
    }
    return false;
  }

  /** The row `serializer.save(shop=shop)` stores. */
  function NewClient(id: nat, shopId: nat, telegramId: int, f: ClientForm): Client {
    Client(id, shopId, f.filialName, telegramId, f.fullName, f.phone, f.latitude, f.longitude)
  }

  /** `serializer.save(shop=shop)`: one client row more, with the next key; nothing else changes. */
  method SaveClient(db: Db, shopId: nat, t: int, f: ClientForm) returns (c: Client)
    requires db.Valid()
    modifies db
    ensures db.Valid()
    ensures c == NewClient(old(db.nextClientId), shopId, t, f)
    ensures db.clients == old(db.clients) + [c] && db.nextClientId == old(db.nextClientId) + 1
    ensures db.shops == old(db.shops) && db.products == old(db.products)
    ensures db.orders == old(db.orders) && db.items == old(db.items)
    ensures db.nextShopId == old(db.nextShopId) && db.nextOrderId == old(db.nextOrderId)
    ensures db.nextItemId == old(db.nextItemId)
  {
    c := NewClient(db.nextClientId, shopId, t, f);
    db.clients := db.clients + [c];
    db.nextClientId := db.nextClientId + 1;
  }

  /**
   * `SaveClientView.post`. `formValid` is the serializer's verdict on the
   * remaining columns. A missing chat id gives 400 on `telegram_id` and a
   * missing shop name 400 on `shop_name`, in that order; a chat id already
   * registered gives 409; none of these changes anything. Otherwise the
   * shop with the stripped name is fetched or created, and then a valid
   * form stores one client of that shop and answers 201 with the shop's
   * key, while an invalid one answers 400 and keeps the shop.
   */
  method SaveClientView(db: Db, req: RegRequest, formValid: bool) returns (resp: RegResponse)
    requires db.Valid()
    modifies db
    ensures db.Valid()
    ensures db.products == old(db.products) && db.orders == old(db.orders) && db.items == old(db.items)
    ensures old(db.TotalsConsistent()) ==> db.TotalsConsistent()
    ensures !IdGiven(req.telegramId) ==> resp == RegResponse(400, Some("telegram_id"), None) && unchanged(db)
    ensures IdGiven(req.telegramId) && !NameGiven(req.shopName) ==>
      resp == RegResponse(400, Some("shop_name"), None) && unchanged(db)
    ensures IdGiven(req.telegramId) && NameGiven(req.shopName) && HasClient(old(db.clients), req.telegramId.value) ==>
      resp == RegResponse(409, Some("telegram_id"), None) && unchanged(db)
    ensures IdGiven(req.telegramId) && NameGiven(req.shopName) && !HasClient(old(db.clients), req.telegramId.value) ==>
      var name := PyStrip(req.shopName.value);
      var k := FindShop(old(db.shops), name);
      var shopId := if k.Some? then old(db.shops)[k.value].id else old(db.nextShopId);
      && db.shops == ShopsAfter(old(db.shops), old(db.nextShopId), name)
      && (formValid ==>
            && db.clients == old(db.clients) + [NewClient(old(db.nextClientId), shopId, req.telegramId.value, req.form)]
            && resp == RegResponse(201, None, Some(shopId)))
      && (!formValid ==> db.clients == old(db.clients) && resp == RegResponse(400, None, None))
  {
    if !IdGiven(req.telegramId) {
      return RegResponse(400, Some("telegram_id"), None);
    }
    if !NameGiven(req.shopName) {
      return RegResponse(400, Some("shop_name"), None);
    }
    var t := req.telegramId.value;
    var registered := ClientExists(db.clients, t);
    if registered {
      return RegResponse(409, Some("telegram_id"), None);
    }
    var shop := GetOrCreateShop(db, PyStrip(req.shopName.value));
    if !formValid {
      return RegResponse(400, None, None);
    }
    var c := SaveClient(db, shop.id, t, req.form);
    resp := RegResponse(201, None, Some(shop.id));
  }

  /** Once registered, the same chat id is refused: the duplicate check sees the new row. */
  lemma RegisteredIsDuplicate(clients: seq<Client>, id: nat, shopId: nat, t: int, f: ClientForm)
    ensures HasClient(clients + [NewClient(id, shopId, t, f)], t)
  {
    assert (clients + [NewClient(id, shopId, t, f)])[|clients|].telegramId == t;
  }

  /**
   * The emptiness check looks at the name before it is stripped: a name of
   * blanks passes it, and the shop is then looked up (or created) under the
   * empty name.
   */
  lemma BlankNameReachesEmptyShop(name: string)
    requires name != [] && forall k :: 0 <= k < |name| ==> IsPySpace(name[k])
    ensures NameGiven(Some(name)) && PyStrip(name) == ""
  {
    var i, j := TrimIsSlice(name, IsPySpace);
  }
}
