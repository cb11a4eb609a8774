/** The database the handlers read and write, as three tables held in one
    object. The handlers that insert rows change these fields in place. */
module Store {
  import opened Records

  /** Shop primary keys are distinct. */
  ghost predicate ShopIdsUnique(shops: seq<Shop>) {
    forall i, j :: 0 <= i < j < |shops| ==> shops[i].id != shops[j].id
  }

  /** No owner has two shops (`ownerId` is a unique column, looked up with `findUnique`). */
  ghost predicate OneShopPerOwner(shops: seq<Shop>) {
    forall i, j :: 0 <= i < j < |shops| ==> shops[i].ownerId != shops[j].ownerId
  }

  ghost predicate ServiceIdsUnique(services: seq<Service>) {
    forall i, j :: 0 <= i < j < |services| ==> services[i].id != services[j].id
  }

  ghost predicate OrderIdsUnique(orders: seq<Order>) {
    forall i, j :: 0 <= i < j < |orders| ==> orders[i].id != orders[j].id
  }

  /** Some shop has primary key `id`. */
  ghost predicate HasShop(shops: seq<Shop>, id: string) {
    exists shop :: shop in shops && shop.id == id
  }

  /** Shop `shopId` offers a service with primary key `serviceId`. */
  ghost predicate Offers(services: seq<Service>, shopId: string, serviceId: string) {
    exists s :: s in services && s.id == serviceId && s.shopId == shopId
  }

  /** A shop stays in a table that only grows. */
  lemma HasShopGrows(shops: seq<Shop>, more: seq<Shop>, id: string)
    requires HasShop(shops, id)
    ensures HasShop(shops + more, id)
  {
    var shop :| shop in shops && shop.id == id;
    assert shop in shops + more;
  }

  /** A service stays in a table that only grows. */
  lemma OffersGrows(services: seq<Service>, more: seq<Service>, shopId: string, serviceId: string)
    requires Offers(services, shopId, serviceId)
    ensures Offers(services + more, shopId, serviceId)
  {
    var s :| s in services && s.id == serviceId && s.shopId == shopId;
    assert s in services + more;
  }

  /** Every service belongs to a shop that exists. */
  ghost predicate ServicesHaveShops(shops: seq<Shop>, services: seq<Service>) {
    forall s :: s in services ==> HasShop(shops, s.shopId)
  }

  /** Every order belongs to a shop that exists. */
  ghost predicate OrdersHaveShops(shops: seq<Shop>, orders: seq<Order>) {
    forall o :: o in orders ==> HasShop(shops, o.shopId)
  }

  /** Every order line names a service of the order's own shop. */
  ghost predicate LinesFromOwnShop(services: seq<Service>, orders: seq<Order>) {
    forall o, line :: o in orders && line in o.items ==> Offers(services, o.shopId, line.serviceId)
  }

  /** Appending an order with a fresh id, for an existing shop, whose lines name that shop's services,
      keeps the order-table invariants. */
  lemma AppendOrderKeepsInvariants(shops: seq<Shop>, services: seq<Service>, orders: seq<Order>, o: Order)
    requires OrderIdsUnique(orders) && OrdersHaveShops(shops, orders) && LinesFromOwnShop(services, orders)
    requires forall x :: x in orders ==> x.id != o.id
    requires HasShop(shops, o.shopId)
    requires forall line :: line in o.items ==> Offers(services, o.shopId, line.serviceId)
    ensures OrderIdsUnique(orders + [o])
    ensures OrdersHaveShops(shops, orders + [o])
    ensures LinesFromOwnShop(services, orders + [o])
  {
    var all := orders + [o];
    forall i, j | 0 <= i < j < |all| ensures all[i].id != all[j].id {
      if j == |orders| {
        assert all[i] in orders;
      } else {
        assert all[i] == orders[i] && all[j] == orders[j];
      }
    }
  }

  class Database {
    var shops: seq<Shop>
    var services: seq<Service>
    var orders: seq<Order>

    ghost predicate Valid()
      reads this
    {
      && ShopIdsUnique(shops)
      && OneShopPerOwner(shops)
      && ServiceIdsUnique(services)
      && OrderIdsUnique(orders)
      && ServicesHaveShops(shops, services)
      && OrdersHaveShops(shops, orders)
      && LinesFromOwnShop(services, orders)
    }

    /** An empty database. */
    constructor ()
      ensures Valid()
      ensures shops == [] && services == [] && orders == []
    {
      shops, services, orders := [], [], [];
    }
  }
}
