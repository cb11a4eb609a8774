/** The shop endpoint: registering a shop (POST) and listing shops by role (GET). */
module Shops {
  import opened Seqs
  import opened Records
  import opened Store

  /** The fields of the POST body that the new row copies. */
  datatype ShopFields = ShopFields(name: string, address: string, phone: string, email: string, description: string)

  /** The row the POST handler inserts: the body's fields, the caller as owner, not yet approved. */
  function NewShop(f: ShopFields, ownerId: string, id: string, now: int): (s: Shop)
    ensures !s.isApproved && s.ownerId == ownerId && s.id == id && s.createdAt == now
    ensures s.name == f.name && s.address == f.address && s.phone == f.phone && s.email == f.email
    ensures s.description == f.description
  {
    Shop(id, f.name, f.address, f.phone, f.email, f.description, false, ownerId, now)
  }

  /** A shop with a fresh id and a fresh owner keeps the shop-table invariants, and every service and
      order keeps its shop. */
  lemma AppendShopKeepsInvariants(shops: seq<Shop>, services: seq<Service>, orders: seq<Order>, s: Shop)
    requires ShopIdsUnique(shops) && OneShopPerOwner(shops)
    requires ServicesHaveShops(shops, services) && OrdersHaveShops(shops, orders)
    requires forall x :: x in shops ==> x.id != s.id
    requires OwnerShop(shops, s.ownerId).None?
    ensures ShopIdsUnique(shops + [s]) && OneShopPerOwner(shops + [s])
    ensures ServicesHaveShops(shops + [s], services) && OrdersHaveShops(shops + [s], orders)
  {
    var all := shops + [s];
    forall i, j | 0 <= i < j < |all| ensures all[i].id != all[j].id && all[i].ownerId != all[j].ownerId {
      if j == |shops| {
        assert all[i] in shops;
      } else {
        assert all[i] == shops[i] && all[j] == shops[j];
      }
    }
    forall sv | sv in services ensures HasShop(all, sv.shopId) {
      HasShopGrows(shops, [s], sv.shopId);
    }
    forall o | o in orders ensures HasShop(all, o.shopId) {
      HasShopGrows(shops, [s], o.shopId);
    }
  }

  /** POST /api/shops. Only a shop owner without a shop may register one; it starts unapproved.
      Nothing is written on either failure. */
  method Post(db: Database, session: Option<Actor>, fields: ShopFields, newId: string, now: int) returns (res: Result<Shop>)
    requires db.Valid()
    requires forall s :: s in db.shops ==> s.id != newId
    modifies db
    ensures db.Valid()
    ensures db.services == old(db.services) && db.orders == old(db.orders)
    ensures session.None? || session.value.role != ShopOwner ==>
      res == Err(Unauthorized) && db.shops == old(db.shops)
    ensures session.Some? && session.value.role == ShopOwner && OwnerShop(old(db.shops), session.value.id).Some? ==>
      res == Err(ShopAlreadyRegistered) && db.shops == old(db.shops)
    ensures session.Some? && session.value.role == ShopOwner && OwnerShop(old(db.shops), session.value.id).None? ==>
      && res == Ok(NewShop(fields, session.value.id, newId, now))
      && !res.value.isApproved && res.value.ownerId == session.value.id
      && db.shops == old(db.shops) + [res.value]
  {
    if session.None? || session.value.role != ShopOwner {
      return Err(Unauthorized);
    }
    var existing := OwnerShop(db.shops, session.value.id);
    if existing.Some? {
      return Err(ShopAlreadyRegistered);
    }
    var shop := Shop(newId, fields.name, fields.address, fields.phone, fields.email, fields.description,
                     false, session.value.id, now);
    AppendShopKeepsInvariants(db.shops, db.services, db.orders, shop);
    db.shops := db.shops + [shop];
    res := Ok(shop);
  }

  // ---------------------------------------------------------------- GET

  /** Whether the caller's listing includes `s`: everything for an administrator, the own shop for a
      shop owner, approved shops for everyone else. */
  predicate ShopVisible(actor: Actor, s: Shop) {
    match actor.role
    case Admin => true
    case ShopOwner => s.ownerId == actor.id
    case Customer => s.isApproved
  }

  function OwnedBy(ownerId: string): (p: Shop -> bool) {
    (s: Shop) => s.ownerId == ownerId
  }

  function IsApproved(s: Shop): (approved: bool) {
    s.isApproved
  }

  /** GET /api/shops: all shops newest first for an administrator, otherwise the caller's share of the
      table in table order. */
  function List(session: Option<Actor>, shops: seq<Shop>): (r: Result<seq<Shop>>)
    ensures r.Err? <==> session.None?
    ensures r.Err? ==> r.error == Unauthorized
    ensures r.Ok? ==>
      forall s :: multiset(r.value)[s] == (if ShopVisible(session.value, s) then multiset(shops)[s] else 0)
    ensures r.Ok? && session.value.role == Admin ==> SortedDesc(r.value, ShopCreatedAt)
  {
    if session.None? then Err(Unauthorized)
    else match session.value.role
      case Admin => Ok(SortDesc(shops, ShopCreatedAt))
      case ShopOwner =>
        FilterCounts(shops, OwnedBy(session.value.id));
        Ok(Filter(shops, OwnedBy(session.value.id)))
      case Customer =>
        FilterCounts(shops, IsApproved);
        Ok(Filter(shops, IsApproved))
  }

  /** Right after registering, the owner's listing is exactly the new shop, and no customer sees it
      until it is approved. */
  lemma RegisteredShopListed(shops: seq<Shop>, f: ShopFields, owner: Actor, customer: Actor, id: string, now: int)
    requires owner.role == ShopOwner && customer.role == Customer
    requires OwnerShop(shops, owner.id).None?
    ensures List(Some(owner), shops + [NewShop(f, owner.id, id, now)]) == Ok([NewShop(f, owner.id, id, now)])
    ensures NewShop(f, owner.id, id, now) !in List(Some(customer), shops + [NewShop(f, owner.id, id, now)]).value
  {
    var s := NewShop(f, owner.id, id, now);
    var p := OwnedBy(owner.id);
    FilterAppend(shops, [s], p);
    assert forall j :: 0 <= j < |shops| ==> !p(shops[j]) by {
      forall j | 0 <= j < |shops| ensures !p(shops[j]) {
        assert shops[j] in shops;
      }
    }
    FilterDropsAll(shops, p);
    assert Filter([s], p) == [s];
    assert Filter(shops + [s], p) == [s];
    assert List(Some(owner), shops + [s]) == Ok(Filter(shops + [s], p));
    FilterMembers(shops + [s], IsApproved);
  }
}
