/** The service endpoint of a shop owner: adding a service to the own shop (POST) and listing the own
    shop's services (GET). */
module ShopServices {
  import opened Seqs
  import opened Records
  import opened Store

  /** The fields of the POST body that the new row copies. */
  datatype ServiceFields = ServiceFields(name: string, description: string, price: int)

  /** The row the POST handler inserts: the body's fields, attached to shop `shopId`. */
  function NewService(f: ServiceFields, shopId: string, id: string): (s: Service)
    ensures s.id == id && s.shopId == shopId
    ensures s.name == f.name && s.description == f.description && s.price == f.price
  {
    Service(id, f.name, f.description, f.price, shopId)
  }

  /** A service with a fresh id, for an existing shop, keeps the service-table invariants, and every order
      line keeps its service. */
  lemma AppendServiceKeepsInvariants(shops: seq<Shop>, services: seq<Service>, orders: seq<Order>, s: Service)
    requires ServiceIdsUnique(services) && ServicesHaveShops(shops, services) && LinesFromOwnShop(services, orders)
    requires forall x :: x in services ==> x.id != s.id
    requires HasShop(shops, s.shopId)
    ensures ServiceIdsUnique(services + [s]) && ServicesHaveShops(shops, services + [s])
    ensures LinesFromOwnShop(services + [s], orders)
  {
    var all := services + [s];
    forall i, j | 0 <= i < j < |all| ensures all[i].id != all[j].id {
      if j == |services| {
        assert all[i] in services;
      } else {
        assert all[i] == services[i] && all[j] == services[j];
      }
    }
    forall o, line | o in orders && line in o.items ensures Offers(all, o.shopId, line.serviceId) {
      OffersGrows(services, [s], o.shopId, line.serviceId);
    }
  }

  /** POST /api/shops/services. Only a shop owner who has a shop may add a service, and it goes to that
      shop. Nothing is written on either failure. */
  method Post(db: Database, session: Option<Actor>, fields: ServiceFields, newId: string) returns (res: Result<Service>)
    requires db.Valid()
    requires forall s :: s in db.services ==> s.id != newId
    modifies db
    ensures db.Valid()
    ensures db.shops == old(db.shops) && db.orders == old(db.orders)
    ensures session.None? || session.value.role != ShopOwner ==>
      res == Err(Unauthorized) && db.services == old(db.services)
    ensures session.Some? && session.value.role == ShopOwner && OwnerShop(db.shops, session.value.id).None? ==>
      res == Err(ShopNotFound) && db.services == old(db.services)
    ensures session.Some? && session.value.role == ShopOwner && OwnerShop(db.shops, session.value.id).Some? ==>
      && res == Ok(NewService(fields, OwnerShop(db.shops, session.value.id).value.id, newId))
      && res.value.shopId == OwnerShop(db.shops, session.value.id).value.id
      && res.value.name == fields.name && res.value.description == fields.description
      && res.value.price == fields.price
      && db.services == old(db.services) + [res.value]
  {
    if session.None? || session.value.role != ShopOwner {
      return Err(Unauthorized);
    }
    var shop := OwnerShop(db.shops, session.value.id);
    if shop.None? {
      return Err(ShopNotFound);
    }
    var service := Service(newId, fields.name, fields.description, fields.price, shop.value.id);
    AppendServiceKeepsInvariants(db.shops, db.services, db.orders, service);
    db.services := db.services + [service];
    res := Ok(service);
  }

  // ---------------------------------------------------------------- GET

  /** GET /api/shops/services: the services of the caller's own shop, in table order. */
  function List(session: Option<Actor>, shops: seq<Shop>, services: seq<Service>): (r: Result<seq<Service>>)
    ensures r == Err(Unauthorized) <==> session.None? || session.value.role != ShopOwner
    ensures r == Err(ShopNotFound) <==>
      session.Some? && session.value.role == ShopOwner && OwnerShop(shops, session.value.id).None?
    ensures r.Err? ==> r == Err(Unauthorized) || r == Err(ShopNotFound)
    ensures r.Ok? ==> forall s ::
      multiset(r.value)[s] == (if s.shopId == OwnerShop(shops, session.value.id).value.id then multiset(services)[s] else 0)
  {
    if session.None? || session.value.role != ShopOwner then Err(Unauthorized)
    else match OwnerShop(shops, session.value.id)
      case None => Err(ShopNotFound)
      case Some(shop) =>
        FilterCounts(services, OfShop(shop.id));
        Ok(ServicesOf(services, shop.id))
  }

  /** A service the owner has just added is at the end of the owner's next listing, after the ones listed before. */
  lemma AddedServiceListed(session: Option<Actor>, shops: seq<Shop>, services: seq<Service>, f: ServiceFields, id: string)
    requires List(session, shops, services).Ok?
    ensures var svc := NewService(f, OwnerShop(shops, session.value.id).value.id, id);
      List(session, shops, services + [svc]) == Ok(List(session, shops, services).value + [svc])
  {
    var shop := OwnerShop(shops, session.value.id).value;
    var svc := NewService(f, shop.id, id);
    FilterAppend(services, [svc], OfShop(shop.id));
    assert Filter([svc], OfShop(shop.id)) == [svc];
  }
}
