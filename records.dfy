/** The rows of the marketplace's database tables, the caller's identity and
    the error responses the API handlers return. Money is held in integer
    minor units (cents); ids are the database's opaque strings. */
module Records {
  import opened Seqs

  /** The role every user account carries. */
  datatype Role = Admin | ShopOwner | Customer

  /** The authenticated caller: the `id` and `role` of the session's user. */
  datatype Actor = Actor(id: string, role: Role)

  /** The status values an order can hold; order creation only ever writes `Pending`. */
  datatype OrderStatus = Pending | Accepted | InProgress | Ready | Delivered | Cancelled

  datatype Shop = Shop(
    id: string,
    name: string,
    address: string,
    phone: string,
    email: string,
    description: string,
    isApproved: bool,
    ownerId: string,
    createdAt: int)

  datatype Service = Service(
    id: string,
    name: string,
    description: string,
    price: int,
    shopId: string)

  /** One order line, with the service's price copied at the time the order was placed. */
  datatype OrderItem = OrderItem(serviceId: string, quantity: int, price: int)

  datatype Order = Order(
    id: string,
    userId: string,
    shopId: string,
    total: int,
    status: OrderStatus,
    pickupTime: string,
    deliveryTime: string,
    createdAt: int,
    items: seq<OrderItem>)

  /** The failure responses of the handlers, one per distinct message. */
  datatype ApiError =
    | Unauthorized
    | MissingFields
    | InvalidItems
    | ShopNotFound
    | ServiceNotFound(serviceId: string)
    | ShopAlreadyRegistered

  /** The HTTP status code each failure is answered with. */
  function HttpStatus(e: ApiError): (code: int)
    ensures code == 401 <==> e == Unauthorized
    ensures code == 404 <==> e == ShopNotFound
    ensures code == 400 <==> !(e == Unauthorized || e == ShopNotFound)
  {
    match e
    case Unauthorized => 401
    case ShopNotFound => 404
    case _ => 400
  }

  datatype Result<T> = Ok(value: T) | Err(error: ApiError)

  function OrderCreatedAt(o: Order): (t: int) { o.createdAt }

  function ShopCreatedAt(s: Shop): (t: int) { s.createdAt }

  /** The shop whose `ownerId` is `ownerId`; the first one, should there be several. */
  function OwnerShop(shops: seq<Shop>, ownerId: string): (r: Option<Shop>)
    ensures r.Some? ==> r.value in shops && r.value.ownerId == ownerId
    ensures r.None? <==> forall s :: s in shops ==> s.ownerId != ownerId
  {
    First(shops, (s: Shop) => s.ownerId == ownerId)
  }

  /** The shop with primary key `id`. */
  function FindShop(shops: seq<Shop>, id: string): (r: Option<Shop>)
    ensures r.Some? ==> r.value in shops && r.value.id == id
    ensures r.None? <==> forall s :: s in shops ==> s.id != id
  {
    First(shops, (s: Shop) => s.id == id)
  }

  /** The test that a service belongs to shop `shopId`. */
  function OfShop(shopId: string): (p: Service -> bool) {
    (s: Service) => s.shopId == shopId
  }

  /** The services whose `shopId` is `shopId`, in table order. */
  function ServicesOf(services: seq<Service>, shopId: string): (r: seq<Service>)
    ensures forall s :: s in r <==> s in services && s.shopId == shopId
  {
    FilterMembers(services, OfShop(shopId));
    Filter(services, OfShop(shopId))
  }
}
