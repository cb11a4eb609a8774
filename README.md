# Laundry marketplace core, modelled in Dafny

The marketplace connects customers with laundry shops. A shop owner registers one shop, which an
administrator must approve. The owner lists services with prices, and a customer fills a cart and places
an order with a shop. This project models the deterministic rules behind that flow:

- the client-side cart (`Cart`);
- the dashboard route guard (`Middleware`);
- the order endpoint: fail-fast validation, server-side pricing, and role-scoped listing (`Pricing`, `Orders`);
- the shop endpoint: one shop per owner, unapproved at birth, role-scoped listing (`Shops`);
- the service endpoint, scoped to the owner's own shop (`ShopServices`).

The database is one object, `Store.Database`, whose three tables (`shops`, `services`, `orders`) are
sequences of records. The POST handlers are methods that append to them. `Database.Valid()` is the
invariant every POST preserves:

- primary keys are unique;
- no owner has two shops;
- every service and every order belongs to an existing shop;
- every order line names a service of the order's own shop.

The GET handlers and the cart operations are pure functions. `Seqs` holds the generic sequence
machinery: first match, filter, and a descending insertion sort by a key, each proved correct once and
reused. `Records` holds the rows, the roles, the error responses and their HTTP status codes.

Conventions of the model:

- Money is an integer number of cents, so sums are exact.
- The caller's session is an explicit `Option<Actor>`, where `None` means no session.
- The database-generated id (`newId`) and the creation timestamp (`now`) are parameters. Each POST requires `newId` to be unused in its table, which is the guarantee the database gives.

## Model

| member | source | states |
|---|---|---|
| Cart.AddItem | contexts/CartContext.tsx:26-38 | adding grows the cart by one line exactly when its serviceId is new, and never changes an existing line's id, name or price |
| Cart.RemoveItem | contexts/CartContext.tsx:40-42 | removal never grows the cart, and every remaining line was in the cart and carries another id |
| Cart.UpdateQuantity | contexts/CartContext.tsx:44-50 | updating keeps the number of lines and every line's serviceId in place |
| Cart.Total | contexts/CartContext.tsx:56 | a cart without negative prices or quantities has a non-negative total |
| Cart.Decrement | components/Cart.tsx:88 | the "-" button keeps the number of lines, and line k keeps its id with a quantity of at least 0 |
| Cart.ClearCart | contexts/CartContext.tsx:52-54 | clearing yields the empty cart, whose total is 0 |
| Cart.TotalAppend | contexts/CartContext.tsx:56 | the total (Σ price×quantity) of two carts laid end to end is the sum of their totals |
| Cart.TotalMerged | contexts/CartContext.tsx:32 | raising line k's quantity by n raises the total by that line's price times n |
| Cart.TotalReplace | contexts/CartContext.tsx:56 | replacing one line moves the total by exactly the difference of the two lines' costs |
| Cart.TotalRemoveAt | contexts/CartContext.tsx:56 | dropping one line lowers the total by exactly that line's price×quantity |
| Cart.AddItemNew | contexts/CartContext.tsx:28-36 | an item whose serviceId is absent is appended: length +1, earlier lines unchanged, total grows by its cost |
| Cart.AddItemExisting | contexts/CartContext.tsx:29-34 | an item whose serviceId is present raises only that line's quantity; length, name, price and the other lines are unchanged, and the total grows by the cart's price times the added quantity |
| Cart.AddItemKeepsIdsUnique | contexts/CartContext.tsx:26-38 | adding keeps serviceIds unique |
| Cart.RemoveItemDropsOnlyId | contexts/CartContext.tsx:40-42 | after removal no line carries the id, and every line with another id survives |
| Cart.RemoveItemAbsent | contexts/CartContext.tsx:40-42 | removing an absent id changes nothing |
| Cart.RemoveItemAt | contexts/CartContext.tsx:40-42 | with unique ids, removing line k's id cuts out exactly line k, keeps the rest in order, and lowers the total by that line's cost |
| Cart.RemoveItemKeepsIdsUnique | contexts/CartContext.tsx:40-42 | removing keeps serviceIds unique |
| Cart.UpdateQuantityOnlyQuantity | contexts/CartContext.tsx:44-50 | length, order, ids, names and prices are unchanged; only matching lines take the new quantity, and a quantity of 0 removes nothing |
| Cart.UpdateQuantityAbsent | contexts/CartContext.tsx:44-50 | updating an absent id is a no-op |
| Cart.UpdateQuantityAt | contexts/CartContext.tsx:44-50 | with unique ids, updating line k's id rewrites exactly line k, and the total moves from its old cost to its new one |
| Cart.UpdateQuantityKeepsIdsUnique | contexts/CartContext.tsx:44-50 | updating keeps serviceIds unique |
| Cart.DecrementClampsAtZero | components/Cart.tsx:88 | with unique ids, the "-" button rewrites only line k's quantity, to one lower but never below 0; the line stays in the cart and the other lines are unchanged |
| Middleware.Guard | middleware.ts:6-34 | public paths pass; a tokenless non-public path redirects to login with callbackUrl = path (iff); a redirect to /dashboard happens iff the path starts with another role's area prefix |
| Middleware.Authorized | middleware.ts:38-46 | the callback admits a request exactly when the guard's body would not send it to log in, so the body's own login test and the callback agree on every path and token |
| Middleware.Matches | middleware.ts:51-58 | the guard runs on every public page and on every path inside a role's dashboard area |
| Middleware.HandleRequest | middleware.ts:4-58 | unmatched paths and matched public paths pass; next-auth's sign-in redirect happens iff a matched non-public path has no token, carrying the path; with a token the guard's body decides, redirecting to /dashboard iff the path is in another role's area; the body's own login redirect is never reached |
| Middleware.CallbackPrecedesLoginRedirect | middleware.ts:15-19 | the body would redirect to login exactly when the callback has already refused the request |
| Middleware.AreasDisjoint | middleware.ts:22-32 | no path lies in two role areas |
| Middleware.OwnAreaAllowed | middleware.ts:22-34 | every role may open any path in its own area |
| Middleware.UnguardedOpenToAll | middleware.ts:22-34 | /dashboard and every path outside the three areas pass for every role |
| Middleware.RedirectsDoNotLoop | middleware.ts:22-34 | a wrong-role redirect lands on /dashboard, which then passes for the same token; the login target is public |
| Middleware.PrefixIsTextual | middleware.ts:26 | area checks are plain prefix tests: a customer opening /dashboard/shopping is redirected |
| Middleware.UnmatchedPathsPass | middleware.ts:51-58 | paths outside the matcher, such as /dashboardx or /api/orders, pass untouched even without a session |
| Records.OwnerShop | app/api/shops/route.ts:20-22 | the lookup by ownerId finds a shop of that owner, or reports that there is none |
| Records.FindShop | app/api/orders/route.ts:28-31 | the lookup by id finds a shop with that id, or reports that there is none |
| Records.ServicesOf | app/api/shops/services/route.ts:72-74 | a service is selected iff it is in the table and its shopId is the given shop |
| Pricing.FindService | app/api/orders/route.ts:41 | the service found has the requested id and belongs to the shop's services; none found iff the shop has no such service |
| Pricing.PriceSpec | app/api/orders/route.ts:38-53 | a priced request has one line per item and the sum of the lines as total; a failure names an item whose service the shop lacks |
| Pricing.PriceItems | app/api/orders/route.ts:38-53 | the pricing loop computes exactly PriceSpec: it stops at the first unknown service, and otherwise yields one priced line per item and their running total |
| Pricing.PriceSpecStops | app/api/orders/route.ts:40-46 | when item i is the first whose service the shop lacks, pricing reports item i's service id |
| Pricing.PriceSpecAllKnown | app/api/orders/route.ts:38-53 | when every item's service is found, pricing yields exactly one snapshot line per item and their total |
| Pricing.PriceSpecMissing | app/api/orders/route.ts:40-46 | pricing fails iff some item names a service the shop lacks, and then names the first such item |
| Pricing.PriceSpecLines | app/api/orders/route.ts:39-52 | the lines match the items one for one and in order: the requested serviceId, the requested quantity, the service record's price |
| Pricing.LinesTotalIsRequestCost | app/api/orders/route.ts:47 | the loop's left-to-right total equals Σ service.price × item.quantity |
| Pricing.PricedTotal | app/api/orders/route.ts:38-53 | the total of a priced request is Σ service.price × item.quantity over the shop's own service records |
| Pricing.ClientPriceIgnored | app/api/orders/route.ts:48-52 | requests differing only in client-sent prices are priced identically |
| Pricing.WashScenario | app/api/orders/route.ts:38-53 | three Wash at 10.00 give one line at 10.00 and a total of 30.00 |
| Store.Database.constructor | app/api/shops/route.ts:20-22 | the three tables start empty, and the empty database meets the invariant that keys are unique and one shop per owner |
| Store.AppendOrderKeepsInvariants | app/api/orders/route.ts:56-67 | inserting an order with a fresh id, an existing shop and lines from that shop keeps the order-table invariants |
| Orders.CheckOrder | app/api/orders/route.ts:9-53 | an accepted request came from a customer with every field, a non-empty items array and an existing shop, and its placement carries the caller, the shop, the times, one line per item and their total; a refusal is one of the five errors |
| Orders.Post | app/api/orders/route.ts:9-67 | every failure answers CheckOrder's error and writes nothing; success appends exactly the order NewOrder builds from the checked request, and keeps Valid |
| Orders.CheckOrderAccepts | app/api/orders/route.ts:9-53 | the request is accepted iff a customer sent every field, a non-empty item array, an existing shop id, and only services of that shop |
| Orders.CheckOrderFirstFailureWins | app/api/orders/route.ts:9-46 | role, then fields, then items array, then shop, then services: the first failing check decides the error; when only the services check fails, the error names the first requested id the shop does not offer; a service error always names a requested id the shop lacks |
| Orders.FirstUnofferedServiceNamed | app/api/orders/route.ts:38-46 | after the earlier checks pass, a request naming a service the shop does not offer is answered ServiceNotFound with the first such item's id |
| Orders.ShopOffers | app/api/orders/route.ts:29-41 | looking a service id up among the shop's included services succeeds iff that shop offers a service with that id |
| Orders.PlacedOrder | app/api/orders/route.ts:38-67 | the new order is PENDING, belongs to the caller and the requested shop, and has lines matching the items priced from the shop's records; its total is Σ price × quantity |
| Orders.ShopPricedLines | app/api/orders/route.ts:39-52 | each priced line is the requested quantity at the price of a service of that shop with the requested id |
| Orders.PlacedLinesFromShop | app/api/orders/route.ts:38-53 | every line of an accepted order names a service of the order's shop, which exists |
| Orders.List | app/api/orders/route.ts:88-191 | 401 iff no session; 404 iff an owner without a shop; otherwise exactly the visible orders (own shop, own orders, or all) with their multiplicities, sorted by createdAt descending |
| Orders.PlacedOrderListed | app/api/orders/route.ts:97-161 | an order just placed appears in its customer's listing and in its shop owner's listing |
| Shops.AppendShopKeepsInvariants | app/api/shops/route.ts:19-40 | inserting a shop with a fresh id for an owner without a shop keeps one shop per owner and every other table invariant |
| Shops.Post | app/api/shops/route.ts:8-40 | 401 unless a shop owner; 400 and nothing written if the owner already has a shop; otherwise exactly one unapproved shop owned by the caller is appended, and Valid (one shop per owner) holds after every call |
| Shops.List | app/api/shops/route.ts:63-120 | 401 iff no session; otherwise exactly the visible shops (all, own, or approved) with their multiplicities, and for an administrator sorted by createdAt descending |
| Shops.RegisteredShopListed | app/api/shops/route.ts:31-110 | right after registering, the owner's listing is exactly the new shop, and no customer sees it |
| ShopServices.AppendServiceKeepsInvariants | app/api/shops/services/route.ts:31-38 | inserting a service with a fresh id for an existing shop keeps the service-table invariants and every order line's service |
| ShopServices.Post | app/api/shops/services/route.ts:8-38 | 401 unless a shop owner; 404 and nothing written without a shop; otherwise exactly one service is appended, with the body's name, description and price and the owner's shop id; nothing else changes |
| ShopServices.List | app/api/shops/services/route.ts:52-74 | 401 unless a shop owner; 404 iff the owner has no shop; otherwise exactly the services of the owner's shop, with their multiplicities |
| ShopServices.AddedServiceListed | app/api/shops/services/route.ts:31-74 | a service the owner has just added appears in the owner's next listing, and every earlier one still does; in the model's table order it comes last |

## Left out

- The pages, components and layout are presentation. The one rule taken from them is the cart's "-" button, which clamps at 0.
- Sessions are an `Option<Actor>` parameter. How next-auth reads a session, and where its sign-in redirect leads, are library behaviour. `Middleware.SignInRequired` stands for that redirect.
- Prisma's `include`/`select` projections only shape the JSON, so they are not modelled. Neither is the parsing of the request body.
- The `catch` blocks answer 500 for a store failure or a malformed body. Store failures are not modelled. A POST body field the shop or service insert needs but the client left out is also such a failure, so the model's field records are always complete.
- `pickupTime` and `deliveryTime` are kept as the strings sent; `new Date(...)` parsing is not modelled.
- Prices are JavaScript floating-point numbers; the model uses integer cents and no rounding.
- Quantities are never validated, so a quantity may be zero or negative, and so may a total.
- The order status values are defined. Status changes happen in a PATCH handler that is not part of this model, so no transition table is given.
- The database generates ids and timestamps; the model takes them as `newId` and `now`.
- Concurrent requests, and the race between the shop POST's existence check and its insert, are not modelled. The unique `ownerId` column that settles that race is the invariant `Store.OneShopPerOwner`.
- `Shops.List`: for an owner or a customer the table order is kept, but the contract states only which shops are listed and how often.
- `Middleware.HandleRequest`: next-auth's sign-in redirect carries the path and its query string as `callbackUrl`; the model carries the path only, because query strings are not modelled.
- `ShopServices.List`: `findMany` has no `orderBy`, so the database may return the services in any order. The model returns them in table order, and `ShopServices.AddedServiceListed` puts the new service last in that order. The contract of `ShopServices.List` states only which services are listed and how often.
- `Middleware.Matches`: `/dashboard/:path*` is modelled as `/dashboard` or any path starting with `/dashboard/`. The router's handling of an empty trailing segment is not modelled.
- An unknown service in an order is answered with 400, not 404 (app/api/orders/route.ts:43-45). The model follows the code.
- When two services of a shop share an id, `shop.services.find` takes the first in table order, and so does `Pricing.FindService`. `Database.Valid` rules the case out.
