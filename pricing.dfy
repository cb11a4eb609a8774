/** Pricing of an order request against the services of one shop: every
    requested service must be one of the shop's, the price of each line is
    copied from the service record, and the total is the sum of the lines. */
module Pricing {
  import opened Seqs
  import opened Records

  /** One element of the request's `items` array. A `price` sent by the client is carried along but never read. */
  datatype RequestItem = RequestItem(serviceId: string, quantity: int, clientPrice: Option<int>)

  /** The test `s.id === serviceId` used to look a service up. */
  function HasId(id: string): (p: Service -> bool) {
    (s: Service) => s.id == id
  }

  /** The first of `services` whose id is `id`. */
  function FindService(services: seq<Service>, id: string): (r: Option<Service>)
    ensures r.Some? ==> r.value in services && r.value.id == id
    ensures r.None? <==> forall s :: s in services ==> s.id != id
  {
    First(services, HasId(id))
  }

  predicate Known(services: seq<Service>, item: RequestItem) {
    FindService(services, item.serviceId).Some?
  }

  /** The test that a requested item names no service of the shop. */
  function IsUnknown(services: seq<Service>): (p: RequestItem -> bool) {
    (item: RequestItem) => !Known(services, item)
  }

  /** The order line for `item`: the service's id and price, the request's quantity. */
  function Snapshot(services: seq<Service>, item: RequestItem): (line: OrderItem)
    requires Known(services, item)
  {
    var s := FindService(services, item.serviceId).value;
    OrderItem(s.id, item.quantity, s.price)
  }

  /** Sum of price times quantity over the lines, accumulated left to right as the loop does. */
  function LinesTotal(lines: seq<OrderItem>): (t: int) {
    if lines == [] then 0
    else LinesTotal(lines[..|lines| - 1]) + lines[|lines| - 1].price * lines[|lines| - 1].quantity
  }

  /** The outcome of pricing: the lines and their total, or the id of the first requested service the shop lacks. */
  datatype PricingResult = Priced(lines: seq<OrderItem>, total: int) | MissingService(serviceId: string)

  /** What pricing a request computes. */
  function PriceSpec(services: seq<Service>, items: seq<RequestItem>): (r: PricingResult)
    ensures r.Priced? ==> |r.lines| == |items| && r.total == LinesTotal(r.lines)
    ensures r.MissingService? ==> exists k :: 0 <= k < |items| && !Known(services, items[k]) && items[k].serviceId == r.serviceId
  {
    match FirstIndex(items, IsUnknown(services))
    case Some(k) => MissingService(items[k].serviceId)
    case None =>
      var lines := seq(|items|, k requires 0 <= k < |items| => Snapshot(services, items[k]));
      Priced(lines, LinesTotal(lines))
  }

  /** The pricing loop: looks each item's service up, stops at the first one missing, and otherwise
      accumulates the total and appends one line per item. */
  method PriceItems(services: seq<Service>, items: seq<RequestItem>) returns (r: PricingResult)
    ensures r == PriceSpec(services, items)
  {
    var total := 0;
    var lines: seq<OrderItem> := [];
    for i := 0 to |items|
      invariant forall j :: 0 <= j < i ==> Known(services, items[j])
      invariant |lines| == i
      invariant forall j :: 0 <= j < i ==> lines[j] == Snapshot(services, items[j])
      invariant total == LinesTotal(lines)
    {
      var service := FindService(services, items[i].serviceId);
      if service.None? {
        PriceSpecStops(services, items, i);
        return MissingService(items[i].serviceId);
      }
      ghost var before := lines;
      var line := OrderItem(service.value.id, items[i].quantity, service.value.price);
      total := total + service.value.price * items[i].quantity;
      lines := lines + [line];
      assert lines[..|lines| - 1] == before;
      KnownPrefixGrows(services, items, i);
    }
    PriceSpecAllKnown(services, items, lines);
    r := Priced(lines, total);
  }

  /** One more known item extends the known prefix. */
  lemma KnownPrefixGrows(services: seq<Service>, items: seq<RequestItem>, i: nat)
    requires i < |items| && Known(services, items[i])
    requires forall j :: 0 <= j < i ==> Known(services, items[j])
    ensures forall j :: 0 <= j < i + 1 ==> Known(services, items[j])
  {
  }

  /** When the first unknown item is item `i`, pricing reports item `i`'s service id. */
  lemma PriceSpecStops(services: seq<Service>, items: seq<RequestItem>, i: nat)
    requires i < |items| && !Known(services, items[i])
    requires forall j :: 0 <= j < i ==> Known(services, items[j])
    ensures PriceSpec(services, items) == MissingService(items[i].serviceId)
  {
    FirstIndexIs(items, IsUnknown(services), i);
  }

  /** When every item is known, pricing yields exactly one snapshot line per item and their total. */
  lemma PriceSpecAllKnown(services: seq<Service>, items: seq<RequestItem>, lines: seq<OrderItem>)
    requires forall j :: 0 <= j < |items| ==> Known(services, items[j])
    requires |lines| == |items|
    requires forall j :: 0 <= j < |items| ==> lines[j] == Snapshot(services, items[j])
    ensures PriceSpec(services, items) == Priced(lines, LinesTotal(lines))
  {
    assert FirstIndex(items, IsUnknown(services)).None?;
  }

  /** Pricing fails exactly when some item names a service the shop lacks, and then names the first such item. */
  lemma PriceSpecMissing(services: seq<Service>, items: seq<RequestItem>)
    ensures PriceSpec(services, items).MissingService? <==>
      exists k :: 0 <= k < |items| && FindService(services, items[k].serviceId).None?
    ensures PriceSpec(services, items).MissingService? ==>
      exists k :: && 0 <= k < |items|
                  && FindService(services, items[k].serviceId).None?
                  && (forall j :: 0 <= j < k ==> FindService(services, items[j].serviceId).Some?)
                  && PriceSpec(services, items).serviceId == items[k].serviceId
  {
    match FirstIndex(items, IsUnknown(services))
    case Some(k) =>
      assert !Known(services, items[k]);
    case None =>
      assert forall k :: 0 <= k < |items| ==> Known(services, items[k]);
  }

  /** A priced request has one line per item, in order, each naming the requested service, carrying the
      requested quantity and the price of the service record found for it. */
  lemma PriceSpecLines(services: seq<Service>, items: seq<RequestItem>)
    requires PriceSpec(services, items).Priced?
    ensures |PriceSpec(services, items).lines| == |items|
    ensures forall k :: 0 <= k < |items| ==>
      var line := PriceSpec(services, items).lines[k];
      && FindService(services, items[k].serviceId).Some?
      && line.serviceId == items[k].serviceId
      && line.quantity == items[k].quantity
      && line.price == FindService(services, items[k].serviceId).value.price
  {
    match FirstIndex(items, IsUnknown(services))
    case Some(k) =>
    case None =>
      assert forall k :: 0 <= k < |items| ==> Known(services, items[k]);
  }

  /** The price of the service record a known item names. */
  function PriceOf(services: seq<Service>, item: RequestItem): (price: int)
    requires Known(services, item)
  {
    FindService(services, item.serviceId).value.price
  }

  /** Sum of service price times requested quantity over the request, taken from the front. */
  function RequestCost(services: seq<Service>, items: seq<RequestItem>): (cost: int)
    requires forall k :: 0 <= k < |items| ==> Known(services, items[k])
  {
    if items == [] then 0
    else PriceOf(services, items[0]) * items[0].quantity + RequestCost(services, items[1..])
  }

  /** The left-to-right line total also splits off its first line. */
  lemma {:induction false} LinesTotalCons(line: OrderItem, lines: seq<OrderItem>)
    ensures LinesTotal([line] + lines) == line.price * line.quantity + LinesTotal(lines)
  {
    if lines != [] {
      var all := [line] + lines;
      assert all[..|all| - 1] == [line] + lines[..|lines| - 1];
      LinesTotalCons(line, lines[..|lines| - 1]);
    } else {
      assert [line] + lines == [line];
      assert [line][..0] == [];
    }
  }

  /** Lines whose price and quantity match the request's services total to the request's cost. */
  lemma {:induction false} LinesTotalIsRequestCost(services: seq<Service>, items: seq<RequestItem>, lines: seq<OrderItem>)
    requires forall k :: 0 <= k < |items| ==> Known(services, items[k])
    requires |lines| == |items|
    requires forall k :: 0 <= k < |items| ==>
      lines[k].price == PriceOf(services, items[k]) && lines[k].quantity == items[k].quantity
    ensures LinesTotal(lines) == RequestCost(services, items)
  {
    if items != [] {
      LinesTotalIsRequestCost(services, items[1..], lines[1..]);
      assert lines == [lines[0]] + lines[1..];
      LinesTotalCons(lines[0], lines[1..]);
    }
  }

  /** The total of a priced request is the sum of each requested service's own price times the requested quantity. */
  lemma PricedTotal(services: seq<Service>, items: seq<RequestItem>)
    requires PriceSpec(services, items).Priced?
    ensures forall k :: 0 <= k < |items| ==> Known(services, items[k])
    ensures PriceSpec(services, items).total == RequestCost(services, items)
  {
    PriceSpecLines(services, items);
    LinesTotalIsRequestCost(services, items, PriceSpec(services, items).lines);
  }

  /** Pricing reads only the ids and quantities of the request: client-sent prices change nothing. */
  lemma ClientPriceIgnored(services: seq<Service>, items: seq<RequestItem>, other: seq<RequestItem>)
    requires |items| == |other|
    requires forall k :: 0 <= k < |items| ==>
      items[k].serviceId == other[k].serviceId && items[k].quantity == other[k].quantity
    ensures PriceSpec(services, items) == PriceSpec(services, other)
  {
    var p := IsUnknown(services);
    assert forall k :: 0 <= k < |items| ==> p(items[k]) == p(other[k]);
    match FirstIndex(items, p)
    case Some(k) =>
      FirstIndexIs(other, p, k);
    case None =>
      assert forall k :: 0 <= k < |items| ==> Known(services, items[k]) && Known(services, other[k]);
      var lines := seq(|items|, k requires 0 <= k < |items| => Snapshot(services, items[k]));
      assert forall k :: 0 <= k < |items| ==> lines[k] == Snapshot(services, other[k]);
      PriceSpecAllKnown(services, items, lines);
      PriceSpecAllKnown(services, other, lines);
  }

  /** A shop offers Wash at 10.00; three of them are priced at 30.00 in one line at 10.00. */
  lemma WashScenario()
    ensures PriceSpec([Service("wash", "Wash", "", 1000, "shop")], [RequestItem("wash", 3, None)])
         == Priced([OrderItem("wash", 3, 1000)], 3000)
  {
    var services := [Service("wash", "Wash", "", 1000, "shop")];
    var items := [RequestItem("wash", 3, None)];
    assert FindService(services, "wash") == Some(services[0]) by {
      FirstIndexIs(services, HasId("wash"), 0);
    }
    var lines := [OrderItem("wash", 3, 1000)];
    PriceSpecAllKnown(services, items, lines);
    assert lines[..0] == [];
  }
}
