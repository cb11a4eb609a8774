/** The order endpoint: placing an order (POST) and listing orders by role (GET). */
module Orders {
  import opened Seqs
  import opened Records
  import opened Pricing
  import opened Store

  /** The value of the body's `items` field: an array of items, or some other JSON value. */
  datatype ItemsField = ItemArray(elems: seq<RequestItem>) | NonArray(truthy: bool)

  /** The fields of the POST body; `None` is an absent field. */
  datatype OrderRequest = OrderRequest(
    shopId: Option<string>,
    items: Option<ItemsField>,
    pickupTime: Option<string>,
    deliveryTime: Option<string>)

  /** A string field that is present and not empty, so that `!field` is false. */
  predicate Truthy(f: Option<string>) {
    f.Some? && f.value != ""
  }

  /** An `items` field for which `!items` is false: any array, or a truthy non-array. */
  predicate ItemsTruthy(f: Option<ItemsField>) {
    f.Some? && (f.value.ItemArray? || f.value.truthy)
  }

  predicate FieldsPresent(req: OrderRequest) {
    Truthy(req.shopId) && ItemsTruthy(req.items) && Truthy(req.pickupTime) && Truthy(req.deliveryTime)
  }

  /** A non-empty array of items. */
  predicate ItemsValid(req: OrderRequest)
    requires FieldsPresent(req)
  {
    req.items.value.ItemArray? && |req.items.value.elems| > 0
  }

  /** Everything a successful validation hands to the insert. */
  datatype Placement = Placement(
    userId: string,
    shopId: string,
    lines: seq<OrderItem>,
    total: int,
    pickupTime: string,
    deliveryTime: string)

  /** The checks of the POST handler in their order, the first failure winning, and on success the priced lines. */
  function CheckOrder(session: Option<Actor>, req: OrderRequest, shops: seq<Shop>, services: seq<Service>): (r: Result<Placement>)
    ensures r.Ok? ==>
      && session.Some? && session.value.role == Customer && FieldsPresent(req) && ItemsValid(req)
      && HasShop(shops, req.shopId.value)
      && r.value.userId == session.value.id && r.value.shopId == req.shopId.value
      && r.value.pickupTime == req.pickupTime.value && r.value.deliveryTime == req.deliveryTime.value
      && |r.value.lines| == |req.items.value.elems| && r.value.total == LinesTotal(r.value.lines)
    ensures r.Err? ==>
      r.error in {Unauthorized, MissingFields, InvalidItems, ShopNotFound} || r.error.ServiceNotFound?
  {
    if session.None? || session.value.role != Customer then Err(Unauthorized)
    else if !FieldsPresent(req) then Err(MissingFields)
    else if !ItemsValid(req) then Err(InvalidItems)
    else match FindShop(shops, req.shopId.value)
      case None => Err(ShopNotFound)
      case Some(shop) =>
        match PriceSpec(ServicesOf(services, shop.id), req.items.value.elems)
        case MissingService(id) => Err(ServiceNotFound(id))
        case Priced(lines, total) =>
          Ok(Placement(session.value.id, req.shopId.value, lines, total, req.pickupTime.value, req.deliveryTime.value))
  }

  /** The row the POST handler inserts, order and lines together. */
  function NewOrder(p: Placement, id: string, now: int): (o: Order)
    ensures o.status == Pending && o.id == id && o.createdAt == now
    ensures o.userId == p.userId && o.shopId == p.shopId && o.items == p.lines && o.total == p.total
    ensures o.pickupTime == p.pickupTime && o.deliveryTime == p.deliveryTime
  {
    Order(id, p.userId, p.shopId, p.total, Pending, p.pickupTime, p.deliveryTime, now, p.lines)
  }

  /** POST /api/orders. Nothing is written on any failure; on success exactly one order, holding its lines, is appended. */
  method Post(db: Database, session: Option<Actor>, req: OrderRequest, newId: string, now: int) returns (res: Result<Order>)
    requires db.Valid()
    requires forall o :: o in db.orders ==> o.id != newId
    modifies db
    ensures db.Valid()
    ensures db.shops == old(db.shops) && db.services == old(db.services)
    ensures CheckOrder(session, req, old(db.shops), old(db.services)).Err? ==>
      res == Err(CheckOrder(session, req, old(db.shops), old(db.services)).error) && db.orders == old(db.orders)
    ensures CheckOrder(session, req, old(db.shops), old(db.services)).Ok? ==>
      res == Ok(NewOrder(CheckOrder(session, req, old(db.shops), old(db.services)).value, newId, now))
      && db.orders == old(db.orders) + [res.value]
  {
    if session.None? || session.value.role != Customer {
      return Err(Unauthorized);
    }
    if !Truthy(req.shopId) || !ItemsTruthy(req.items) || !Truthy(req.pickupTime) || !Truthy(req.deliveryTime) {
      return Err(MissingFields);
    }
    if !req.items.value.ItemArray? || |req.items.value.elems| == 0 {
      return Err(InvalidItems);
    }
    var shop := FindShop(db.shops, req.shopId.value);
    if shop.None? {
      return Err(ShopNotFound);
    }
    var priced := PriceItems(ServicesOf(db.services, shop.value.id), req.items.value.elems);
    if priced.MissingService? {
      return Err(ServiceNotFound(priced.serviceId));
    }
    var order := Order(newId, session.value.id, req.shopId.value, priced.total, Pending,
                       req.pickupTime.value, req.deliveryTime.value, now, priced.lines);
    PlacedLinesFromShop(session, req, db.shops, db.services);
    assert order == NewOrder(CheckOrder(session, req, db.shops, db.services).value, newId, now);
    AppendOrderKeepsInvariants(db.shops, db.services, db.orders, order);
    db.orders := db.orders + [order];
    res := Ok(order);
  }

  /** On success every check has passed: a customer sent every field, a non-empty item array, the id of an
      existing shop, and only ids of that shop's services. Conversely these conditions are enough. */
  lemma CheckOrderAccepts(session: Option<Actor>, req: OrderRequest, shops: seq<Shop>, services: seq<Service>)
    ensures CheckOrder(session, req, shops, services).Ok? <==>
      && session.Some? && session.value.role == Customer
      && FieldsPresent(req) && ItemsValid(req)
      && HasShop(shops, req.shopId.value)
      && forall k :: 0 <= k < |req.items.value.elems| ==>
           Offers(services, FindShop(shops, req.shopId.value).value.id, req.items.value.elems[k].serviceId)
  {
    if && session.Some? && session.value.role == Customer && FieldsPresent(req) && ItemsValid(req) {
      var found := FindShop(shops, req.shopId.value);
      if found.Some? {
        var shop := found.value;
        var items := req.items.value.elems;
        var shopServices := ServicesOf(services, shop.id);
        assert CheckOrder(session, req, shops, services).Ok? <==> PriceSpec(shopServices, items).Priced?;
        PriceSpecMissing(shopServices, items);
        forall k | 0 <= k < |items|
          ensures FindService(shopServices, items[k].serviceId).Some? <==> Offers(services, shop.id, items[k].serviceId)
        {
          ShopOffers(services, shop.id, items[k].serviceId);
        }
      } else {
        assert !HasShop(shops, req.shopId.value);
      }
    }
  }

  /** The checks run in a fixed order and the first failing one decides the response. */
  lemma CheckOrderFirstFailureWins(session: Option<Actor>, req: OrderRequest, shops: seq<Shop>, services: seq<Service>)
    ensures session.None? || session.value.role != Customer ==>
      CheckOrder(session, req, shops, services) == Err(Unauthorized)
    ensures session.Some? && session.value.role == Customer && !FieldsPresent(req) ==>
      CheckOrder(session, req, shops, services) == Err(MissingFields)
    ensures session.Some? && session.value.role == Customer && FieldsPresent(req) && !ItemsValid(req) ==>
      CheckOrder(session, req, shops, services) == Err(InvalidItems)
    ensures session.Some? && session.value.role == Customer && FieldsPresent(req) && ItemsValid(req)
            && (forall shop :: shop in shops ==> shop.id != req.shopId.value) ==>
      CheckOrder(session, req, shops, services) == Err(ShopNotFound)
    ensures CheckOrder(session, req, shops, services).Err? && CheckOrder(session, req, shops, services).error.ServiceNotFound? ==>
      && session.Some? && session.value.role == Customer && FieldsPresent(req) && ItemsValid(req)
      && FindShop(shops, req.shopId.value).Some?
      && exists k :: && 0 <= k < |req.items.value.elems|
                    && CheckOrder(session, req, shops, services).error.serviceId == req.items.value.elems[k].serviceId
                    && (forall s :: s in services && s.shopId == FindShop(shops, req.shopId.value).value.id ==>
                          s.id != req.items.value.elems[k].serviceId)
    ensures && session.Some? && session.value.role == Customer && FieldsPresent(req) && ItemsValid(req)
            && HasShop(shops, req.shopId.value)
            && (exists k :: 0 <= k < |req.items.value.elems| && !Offers(services, req.shopId.value, req.items.value.elems[k].serviceId)) ==>
      exists k :: && 0 <= k < |req.items.value.elems|
                  && !Offers(services, req.shopId.value, req.items.value.elems[k].serviceId)
                  && (forall j :: 0 <= j < k ==> Offers(services, req.shopId.value, req.items.value.elems[j].serviceId))
                  && CheckOrder(session, req, shops, services) == Err(ServiceNotFound(req.items.value.elems[k].serviceId))
  {
    if && session.Some? && session.value.role == Customer && FieldsPresent(req) && ItemsValid(req)
       && FindShop(shops, req.shopId.value).Some? {
      var shop := FindShop(shops, req.shopId.value).value;
      PriceSpecMissing(ServicesOf(services, shop.id), req.items.value.elems);
      if exists k :: 0 <= k < |req.items.value.elems| && !Offers(services, req.shopId.value, req.items.value.elems[k].serviceId) {
        FirstUnofferedServiceNamed(session, req, shops, services);
      }
    }
  }

  /** Once every earlier check has passed, a request naming a service the shop does not offer is refused with
      the first such service's id. */
  lemma FirstUnofferedServiceNamed(session: Option<Actor>, req: OrderRequest, shops: seq<Shop>, services: seq<Service>)
    requires session.Some? && session.value.role == Customer && FieldsPresent(req) && ItemsValid(req)
    requires FindShop(shops, req.shopId.value).Some?
    requires exists k :: 0 <= k < |req.items.value.elems| && !Offers(services, req.shopId.value, req.items.value.elems[k].serviceId)
    ensures exists k :: && 0 <= k < |req.items.value.elems|
                        && !Offers(services, req.shopId.value, req.items.value.elems[k].serviceId)
                        && (forall j :: 0 <= j < k ==> Offers(services, req.shopId.value, req.items.value.elems[j].serviceId))
                        && CheckOrder(session, req, shops, services) == Err(ServiceNotFound(req.items.value.elems[k].serviceId))
  {
    var shopId := req.shopId.value;
    var items := req.items.value.elems;
    var shopServices := ServicesOf(services, shopId);
    forall k | 0 <= k < |items|
      ensures FindService(shopServices, items[k].serviceId).Some? <==> Offers(services, shopId, items[k].serviceId)
    {
      ShopOffers(services, shopId, items[k].serviceId);
    }
    PriceSpecMissing(shopServices, items);
  }

  /** A service id is found among the services of shop `shopId` exactly when that shop offers it. */
  lemma ShopOffers(services: seq<Service>, shopId: string, id: string)
    ensures FindService(ServicesOf(services, shopId), id).Some? <==> Offers(services, shopId, id)
  {
    if s :| s in services && s.id == id && s.shopId == shopId {
      assert s in ServicesOf(services, shopId);
    }
  }

  /** A placed order is a PENDING order of the caller for the requested shop; its lines match the requested items
      one for one and in order, each priced from that shop's own service record whatever the client sent, and
      its total is the sum of service price times quantity. */
  lemma PlacedOrder(session: Option<Actor>, req: OrderRequest, shops: seq<Shop>, services: seq<Service>, id: string, now: int)
    requires CheckOrder(session, req, shops, services).Ok?
    ensures var o := NewOrder(CheckOrder(session, req, shops, services).value, id, now);
      var items := req.items.value.elems;
      && o.status == Pending && o.userId == session.value.id && o.shopId == req.shopId.value
      && o.id == id && o.createdAt == now
      && |o.items| == |items|
      && (forall k :: 0 <= k < |items| ==> PricedFrom(services, o.shopId, items[k], o.items[k]))
      && (forall k :: 0 <= k < |items| ==> Known(ServicesOf(services, o.shopId), items[k]))
      && o.total == RequestCost(ServicesOf(services, o.shopId), items)
  {
    var items := req.items.value.elems;
    Accepted(session, req, shops, services);
    ShopPricedLines(services, req.shopId.value, items);
    PricedTotal(ServicesOf(services, req.shopId.value), items);
  }

  /** `line` is `item`'s quantity at the price of a service of shop `shopId` with the requested id. */
  ghost predicate PricedFrom(services: seq<Service>, shopId: string, item: RequestItem, line: OrderItem) {
    exists s :: && s in services && s.shopId == shopId && s.id == item.serviceId
                && line == OrderItem(s.id, item.quantity, s.price)
  }

  /** Priced against the services of shop `shopId`, each line is the requested item's quantity at the price
      of a service of that shop with the requested id. */
  lemma ShopPricedLines(services: seq<Service>, shopId: string, items: seq<RequestItem>)
    requires PriceSpec(ServicesOf(services, shopId), items).Priced?
    ensures var lines := PriceSpec(ServicesOf(services, shopId), items).lines;
      && |lines| == |items|
      && forall k :: 0 <= k < |items| ==> PricedFrom(services, shopId, items[k], lines[k])
  {
    var shopServices := ServicesOf(services, shopId);
    var lines := PriceSpec(shopServices, items).lines;
    PriceSpecLines(shopServices, items);
    forall k | 0 <= k < |items| ensures PricedFrom(services, shopId, items[k], lines[k]) {
      var s := FindService(shopServices, items[k].serviceId).value;
      assert s in services && s.shopId == shopId;
    }
  }

  /** An accepted request names an existing shop, and the placement carries that shop's pricing of the items. */
  lemma Accepted(session: Option<Actor>, req: OrderRequest, shops: seq<Shop>, services: seq<Service>)
    requires CheckOrder(session, req, shops, services).Ok?
    ensures session.Some? && FieldsPresent(req) && ItemsValid(req)
    ensures FindShop(shops, req.shopId.value).Some?
    ensures PriceSpec(ServicesOf(services, req.shopId.value), req.items.value.elems).Priced?
    ensures var pricing := PriceSpec(ServicesOf(services, req.shopId.value), req.items.value.elems);
      CheckOrder(session, req, shops, services).value
        == Placement(session.value.id, req.shopId.value, pricing.lines, pricing.total, req.pickupTime.value, req.deliveryTime.value)
  {
  }

  /** What `Post` needs to keep `LinesFromOwnShop`. */
  lemma PlacedLinesFromShop(session: Option<Actor>, req: OrderRequest, shops: seq<Shop>, services: seq<Service>)
    requires CheckOrder(session, req, shops, services).Ok?
    ensures var p := CheckOrder(session, req, shops, services).value;
      && HasShop(shops, p.shopId)
      && forall line :: line in p.lines ==> Offers(services, p.shopId, line.serviceId)
  {
    var p := CheckOrder(session, req, shops, services).value;
    PlacedOrder(session, req, shops, services, "", 0);
    forall line | line in p.lines
      ensures Offers(services, p.shopId, line.serviceId)
    {
      var k :| 0 <= k < |p.lines| && p.lines[k] == line;
      assert NewOrder(p, "", 0).items[k] == line;
    }
  }

  // ---------------------------------------------------------------- GET

  /** Whether the caller's listing includes `o`: a shop owner sees the orders of their shop,
      a customer their own orders, an administrator every order. */
  predicate OrderVisible(actor: Actor, own: Option<Shop>, o: Order) {
    match actor.role
    case ShopOwner => own.Some? && o.shopId == own.value.id
    case Customer => o.userId == actor.id
    case Admin => true
  }

  function ForShop(shopId: string): (p: Order -> bool) {
    (o: Order) => o.shopId == shopId
  }

  function ForUser(userId: string): (p: Order -> bool) {
    (o: Order) => o.userId == userId
  }

  /** GET /api/orders: the caller's orders, newest first. */
  function List(session: Option<Actor>, shops: seq<Shop>, orders: seq<Order>): (r: Result<seq<Order>>)
    ensures r == Err(Unauthorized) <==> session.None?
    ensures r == Err(ShopNotFound) <==>
      session.Some? && session.value.role == ShopOwner && OwnerShop(shops, session.value.id).None?
    ensures r.Err? ==> r == Err(Unauthorized) || r == Err(ShopNotFound)
    ensures r.Ok? ==> forall i, j :: 0 <= i < j < |r.value| ==> r.value[i].createdAt >= r.value[j].createdAt
    ensures r.Ok? ==>
      forall o :: multiset(r.value)[o] == (if OrderVisible(session.value, OwnerShop(shops, session.value.id), o) then multiset(orders)[o] else 0)
  {
    if session.None? then Err(Unauthorized)
    else match session.value.role
      case ShopOwner =>
        (match OwnerShop(shops, session.value.id)
         case None => Err(ShopNotFound)
         case Some(shop) =>
           SelectedCounts(orders, ForShop(shop.id), session.value, Some(shop));
           Ok(SortDesc(Filter(orders, ForShop(shop.id)), OrderCreatedAt)))
      case Customer =>
        SelectedCounts(orders, ForUser(session.value.id), session.value, OwnerShop(shops, session.value.id));
        Ok(SortDesc(Filter(orders, ForUser(session.value.id)), OrderCreatedAt))
      case Admin =>
        Ok(SortDesc(orders, OrderCreatedAt))
  }

  /** When `p` is the visibility test, the sorted selection holds exactly the visible orders, each as often
      as the table does. */
  lemma SelectedCounts(orders: seq<Order>, p: Order -> bool, actor: Actor, own: Option<Shop>)
    requires forall o :: p(o) == OrderVisible(actor, own, o)
    ensures forall o :: multiset(SortDesc(Filter(orders, p), OrderCreatedAt))[o]
                     == (if OrderVisible(actor, own, o) then multiset(orders)[o] else 0)
  {
    FilterCounts(orders, p);
  }

  /** An order just placed by a customer is in that customer's next listing, and in the listing of the owner
      of its shop. */
  lemma PlacedOrderListed(shops: seq<Shop>, orders: seq<Order>, o: Order, actor: Actor)
    requires actor.role == Customer ==> o.userId == actor.id
    requires actor.role == ShopOwner ==> exists shop :: shop in shops && shop.ownerId == actor.id && shop.id == o.shopId
    requires OneShopPerOwner(shops)
    ensures List(Some(actor), shops, orders + [o]).Ok?
    ensures o in List(Some(actor), shops, orders + [o]).value
  {
    if actor.role == ShopOwner {
      var shop :| shop in shops && shop.ownerId == actor.id && shop.id == o.shopId;
      var found := OwnerShop(shops, actor.id).value;
      var i :| 0 <= i < |shops| && shops[i] == shop;
      var j :| 0 <= j < |shops| && shops[j] == found;
      assert i == j;
    }
    var r := List(Some(actor), shops, orders + [o]).value;
    assert multiset(orders + [o])[o] > 0;
    assert multiset(r)[o] > 0;
  }
}
