/** Market orders of the ESI crate (crates/esi/src/market.rs): conversion of
    a raw order, the price ordering, the per-item order book, and
    `Market::fetch_region`, which loads every page of a region's orders and
    groups them into one book per type id.

    Date parsing (RFC 3339 and RFC 2822) and `StationID::try_from`, whose
    definition is not part of this model, are oracles collected in `Parsers`. */
module EsiMarket {
  import opened Wrappers
  import opened Numbers
  import Decimal
  import opened MarketWire
  import EsiUniverse

  datatype StationId = StationId(value: U64)

  datatype ConversionError = ParseError | InvalidIdError(error: EsiUniverse.InvalidIdError)

  datatype Order = Order(
    id: U64,
    isBuyOrder: bool,
    price: Price,
    issued: Instant,
    expiry: Instant,
    locationId: StationId,
    systemId: U32,
    minVolume: U32,
    range: MarketOrderRange,
    volumeRemain: U32,
    volumeTotal: U32)

  /** The parsers the market code calls but that are not modelled here. */
  datatype Parsers = Parsers(
    rfc3339: string -> Option<Instant>,
    rfc2822: string -> Option<Instant>,
    stationId: U64 -> Result<StationId, EsiUniverse.InvalidIdError>)

  /** `Order::try_from(MarketAPIResponseOrder)`. The issue date is parsed
      first, so a bad date is reported even when the location is also bad. */
  function Convert(raw: RawOrder, ps: Parsers): (r: Result<Order, ConversionError>)
    ensures ps.rfc3339(raw.issued).None? ==> r == Failure(ParseError)
    ensures ps.rfc3339(raw.issued).Some? && ps.stationId(raw.locationId).Failure? ==>
              r == Failure(InvalidIdError(ps.stationId(raw.locationId).error))
    ensures r.Success? <==> ps.rfc3339(raw.issued).Some? && ps.stationId(raw.locationId).Success?
    ensures r.Success? ==>
              && r.value.id == raw.orderId
              && r.value.issued == ps.rfc3339(raw.issued).value
              && r.value.expiry - r.value.issued == raw.duration * NANOS_PER_DAY
              && r.value.locationId == ps.stationId(raw.locationId).value
    ensures r.Success? ==>
              && r.value.isBuyOrder == raw.isBuyOrder && r.value.price == raw.price
              && r.value.systemId == raw.systemId && r.value.minVolume == raw.minVolume
              && r.value.range == raw.range && r.value.volumeRemain == raw.volumeRemain
              && r.value.volumeTotal == raw.volumeTotal
  {
    match ps.rfc3339(raw.issued)
    case None => Failure(ParseError)
    case Some(issued) =>
      match ps.stationId(raw.locationId)
      case Failure(e) => Failure(InvalidIdError(e))
      case Success(location) =>
        Success(Order(raw.orderId, raw.isBuyOrder, raw.price, issued, AddDays(issued, raw.duration), location,
                      raw.systemId, raw.minVolume, raw.range, raw.volumeRemain, raw.volumeTotal))
  }

  datatype Ordering = Less | Equal | Greater {
    function Reverse(): Ordering {
      match this
      case Less => Greater
      case Equal => Equal
      case Greater => Less
    }
  }

  /** `Ord for Order`: by price, highest first; nothing but the price counts. */
  function Cmp(a: Order, b: Order): (r: Ordering)
    ensures r == Less <==> a.price > b.price
    ensures r == Greater <==> a.price < b.price
    ensures r == Equal <==> a.price == b.price
  {
    if a.price < b.price then Greater
    else if a.price > b.price then Less
    else Equal
  }

  /** `PartialOrd for Order` defers to `cmp`, so it never answers `None`. */
  function PartialCmp(a: Order, b: Order): (r: Option<Ordering>)
    ensures r.Some? && r.value == Cmp(a, b)
  {
    Some(Cmp(a, b))
  }

  /** `Cmp` is a total preorder: reflexive, transitive, and any two orders are
      comparable. */
  lemma CmpTotalPreorder(a: Order, b: Order, c: Order)
    ensures Cmp(a, a) == Equal
    ensures Cmp(b, a) == Cmp(a, b).Reverse()
    ensures Cmp(a, b) != Greater && Cmp(b, c) != Greater ==> Cmp(a, c) != Greater
    ensures Cmp(a, b) == Equal && Cmp(b, c) == Equal ==> Cmp(a, c) == Equal
  {
  }

  /** Book contents in `BTreeSet` iteration order: each price strictly below
      the one before it. */
  predicate Descending(os: seq<Order>)
    decreases |os|
  {
    |os| < 2 || (os[0].price > os[1].price && Descending(os[1..]))
  }

  /** Neighbouring prices falling means every later price is lower than every
      earlier one. */
  lemma {:induction false} DescendingPairwise(os: seq<Order>)
    requires Descending(os)
    ensures forall i, j | 0 <= i < j < |os| :: os[i].price > os[j].price
    decreases |os|
  {
    if |os| >= 2 {
      var t := os[1..];
      DescendingPairwise(t);
      forall i, j | 0 <= i < j < |os| ensures os[i].price > os[j].price {
        assert os[j] == t[j - 1];
        if i > 0 {
          assert os[i] == t[i - 1];
        } else if j > 1 {
          assert t[0].price > t[j - 1].price;
        }
      }
    }
  }

  /** The prices present in a sequence of orders. */
  function Prices(os: seq<Order>): set<Price>
    decreases |os|
  {
    if |os| == 0 then {} else {os[0].price} + Prices(os[1..])
  }

  /** `Prices` is the image of the sequence under `price`. */
  lemma {:induction false} PricesImage(os: seq<Order>)
    ensures Prices(os) == set x | x in os :: x.price
    decreases |os|
  {
    if |os| > 0 {
      PricesImage(os[1..]);
      assert forall x | x in os :: x == os[0] || x in os[1..];
    }
  }

  /** The head of a descending sequence carries its highest price. */
  lemma {:induction false} HeadIsHighest(os: seq<Order>)
    requires Descending(os) && |os| > 0
    ensures forall p | p in Prices(os) :: p <= os[0].price
    decreases |os|
  {
    if |os| > 1 {
      HeadIsHighest(os[1..]);
    }
  }

  lemma TailBelowHead(os: seq<Order>)
    requires Descending(os) && |os| > 0
    ensures forall x | x in os[1..] :: x.price < os[0].price
  {
    DescendingPairwise(os);
    forall x | x in os[1..] ensures x.price < os[0].price {
      var k :| 0 <= k < |os[1..]| && os[1..][k] == x;
      assert os[k + 1] == x;
    }
  }

  lemma PricesCons(a: Order, t: seq<Order>)
    ensures Prices([a] + t) == {a.price} + Prices(t)
  {
    assert ([a] + t)[1..] == t;
  }

  lemma DescendingCons(a: Order, t: seq<Order>)
    requires Descending(t)
    requires forall x | x in t :: x.price < a.price
    ensures Descending([a] + t)
  {
    assert ([a] + t)[1..] == t;
    if |t| > 0 {
      assert t[0] in t;
    }
  }

  /** Carries the orders for one item: a `BTreeSet<Order>`. */
  datatype OrderBook = OrderBook(item: U32, orders: seq<Order>)

  /** `OrderBook::new`. */
  function NewBook(item: U32): (b: OrderBook)
    ensures b.item == item && |b.orders| == 0 && Descending(b.orders)
  {
    OrderBook(item, [])
  }

  /** `BTreeSet::insert`: an order whose price is already present compares
      `Equal` to the stored one, so the set keeps the stored order and drops
      the new one; otherwise the order joins at its place in the ordering. */
  function Insert(os: seq<Order>, o: Order): (r: seq<Order>)
    requires Descending(os)
    ensures Descending(r)
    ensures o.price in Prices(os) ==> r == os
    ensures o.price !in Prices(os) ==> multiset(r) == multiset(os) + multiset{o}
    decreases |os|, 0
  {
    if |os| == 0 then
      [o]
    else if o.price > os[0].price then
      InsertAbove(os, o);
      [o] + os
    else if o.price == os[0].price then os
    else
      var tail := Insert(os[1..], o);
      TailBelowHead(os);
      InsertBelow(os[1..], o, os[0].price);
      InsertUnder(os, o, tail);
      [os[0]] + tail
  }

  /** An order priced above the head of a descending sequence goes in front. */
  lemma InsertAbove(os: seq<Order>, o: Order)
    requires Descending(os) && |os| > 0 && o.price > os[0].price
    ensures Descending([o] + os)
    ensures o.price !in Prices(os)
  {
    HeadIsHighest(os);
    TailBelowHead(os);
    assert forall x | x in os :: x == os[0] || x in os[1..];
    DescendingCons(o, os);
  }

  /** An order priced below the head is inserted into the tail. */
  lemma InsertUnder(os: seq<Order>, o: Order, tail: seq<Order>)
    requires Descending(os) && |os| > 0 && o.price < os[0].price
    requires Descending(tail) && forall x | x in tail :: x.price < os[0].price
    ensures Descending([os[0]] + tail)
    ensures o.price in Prices(os) <==> o.price in Prices(os[1..])
    ensures os == [os[0]] + os[1..]
  {
    PricesCons(os[0], os[1..]);
    assert os == [os[0]] + os[1..];
    DescendingCons(os[0], tail);
  }

  /** Inserting below a bound keeps every price below it. */
  lemma InsertBelow(os: seq<Order>, o: Order, bound: Price)
    requires Descending(os)
    requires forall x | x in os :: x.price < bound
    requires o.price < bound
    ensures forall x | x in Insert(os, o) :: x.price < bound
    decreases |os|, 1
  {
    var r := Insert(os, o);
    forall x | x in r ensures x.price < bound {
      assert x in multiset(r);
    }
  }

  /** An insert keeps every stored order and adds at most the new one. */
  lemma InsertMembers(os: seq<Order>, o: Order)
    requires Descending(os)
    ensures forall x | x in Insert(os, o) :: x in os || x == o
    ensures forall x | x in os :: x in Insert(os, o)
    ensures o.price !in Prices(os) ==> o in Insert(os, o)
  {
    if o.price !in Prices(os) {
      AddedMembers(os, o, Insert(os, o));
    }
  }

  /** A sequence holding one more copy of `o` than `os` holds the members of
      `os` and `o`, and nothing else. */
  lemma AddedMembers(os: seq<Order>, o: Order, r: seq<Order>)
    requires multiset(r) == multiset(os) + multiset{o}
    ensures forall x | x in r :: x in os || x == o
    ensures forall x | x in os :: x in r
    ensures o in r
  {
    forall x | x in r ensures x in os || x == o {
      assert x in multiset(r);
    }
    forall x | x in os ensures x in r {
      assert x in multiset(os);
      assert x in multiset(r);
    }
    assert o in multiset(r);
  }

  /** After an insert the book's prices are the old ones plus the new order's. */
  lemma InsertPrices(os: seq<Order>, o: Order)
    requires Descending(os)
    ensures Prices(Insert(os, o)) == Prices(os) + {o.price}
  {
    var r := Insert(os, o);
    PricesImage(os);
    PricesImage(r);
    InsertMembers(os, o);
    if o.price in Prices(os) {
      assert r == os;
    } else {
      assert Prices(r) == Prices(os) + {o.price};
    }
  }

  /** A book holds at most one order per price. */
  lemma OnePerPrice(b: OrderBook, i: int, j: int)
    requires Descending(b.orders)
    requires 0 <= i < |b.orders| && 0 <= j < |b.orders|
    requires b.orders[i].price == b.orders[j].price
    ensures i == j
  {
    DescendingPairwise(b.orders);
  }

  predicate TypesOf(raws: seq<RawOrder>, keys: set<U32>) {
    keys == set r | r in raws :: r.typeId
  }

  /** One turn of the grouping loop: make sure the order's type has a book,
      then insert the order if it converts. */
  function GroupStep(books: map<U32, OrderBook>, r: RawOrder, ps: Parsers): (books': map<U32, OrderBook>)
    requires forall k | k in books :: books[k].item == k && Descending(books[k].orders)
    ensures forall k | k in books' :: books'[k].item == k && Descending(books'[k].orders)
    ensures books'.Keys == books.Keys + {r.typeId}
    ensures forall k | k in books && k != r.typeId :: books'[k] == books[k]
    ensures Convert(r, ps).Failure? && r.typeId in books ==> books'[r.typeId] == books[r.typeId]
    ensures Convert(r, ps).Failure? && r.typeId !in books ==> books'[r.typeId] == NewBook(r.typeId)
    ensures Convert(r, ps).Success? ==>
              books'[r.typeId].orders == Insert(if r.typeId in books then books[r.typeId].orders else [], Convert(r, ps).value)
  {
    var book := if r.typeId in books then books[r.typeId] else NewBook(r.typeId);
    books[r.typeId := AddOrder(book, Convert(r, ps))]
  }

  /** The book after offering it one conversion result. */
  function AddOrder(book: OrderBook, c: Result<Order, ConversionError>): (b: OrderBook)
    requires Descending(book.orders)
    ensures b.item == book.item && Descending(b.orders)
  {
    match c
    case Success(o) => book.(orders := Insert(book.orders, o))
    case Failure(_) => book
  }

  /** The grouping loop at the end of `fetch_region`, over the collected raw
      orders in turn. */
  function Group(raws: seq<RawOrder>, ps: Parsers): (books: map<U32, OrderBook>)
    ensures forall k | k in books :: books[k].item == k && Descending(books[k].orders)
    decreases |raws|
  {
    if |raws| == 0 then map[] else GroupStep(Group(raws[..|raws| - 1], ps), raws[|raws| - 1], ps)
  }

  /** Every raw order's type gets a book, even when none of its orders
      converts, and no other type does. */
  lemma {:induction false} GroupKeys(raws: seq<RawOrder>, ps: Parsers)
    ensures TypesOf(raws, Group(raws, ps).Keys)
    decreases |raws|
  {
    if |raws| > 0 {
      var pre := raws[..|raws| - 1];
      GroupKeys(pre, ps);
      TypesSnoc(raws);
    }
  }

  lemma TypesSnoc(raws: seq<RawOrder>)
    requires |raws| > 0
    ensures (set r | r in raws :: r.typeId) == (set r | r in raws[..|raws| - 1] :: r.typeId) + {raws[|raws| - 1].typeId}
  {
    assert raws == raws[..|raws| - 1] + [raws[|raws| - 1]];
  }

  /** What one grouping step can add to a book: the step's own conversion. */
  lemma StepSource(books: map<U32, OrderBook>, r: RawOrder, ps: Parsers, k: U32, o: Order)
    requires forall k | k in books :: books[k].item == k && Descending(books[k].orders)
    requires k in GroupStep(books, r, ps) && o in GroupStep(books, r, ps)[k].orders
    ensures (k in books && o in books[k].orders) || (k == r.typeId && Convert(r, ps) == Success(o))
  {
    var after := GroupStep(books, r, ps);
    if k == r.typeId && Convert(r, ps).Success? {
      var c := Convert(r, ps).value;
      var prior := if k in books then books[k].orders else [];
      InsertMembers(prior, c);
    }
  }

  /** `o` is the conversion of one of `raws` of type `k`. */
  predicate ConvertedFrom(raws: seq<RawOrder>, ps: Parsers, k: U32, o: Order) {
    exists r | r in raws :: r.typeId == k && Convert(r, ps) == Success(o)
  }

  /** A book only holds conversions of raw orders of its own type. */
  lemma {:induction false} GroupProvenance(raws: seq<RawOrder>, ps: Parsers)
    ensures forall k, o | k in Group(raws, ps) && o in Group(raws, ps)[k].orders :: ConvertedFrom(raws, ps, k, o)
    decreases |raws|
  {
    if |raws| > 0 {
      var pre := raws[..|raws| - 1];
      var last := raws[|raws| - 1];
      GroupProvenance(pre, ps);
      var before := Group(pre, ps);
      forall k, o | k in Group(raws, ps) && o in Group(raws, ps)[k].orders
        ensures ConvertedFrom(raws, ps, k, o)
      {
        StepSource(before, last, ps, k, o);
        if k in before && o in before[k].orders {
          assert ConvertedFrom(pre, ps, k, o);
          var r :| r in pre && r.typeId == k && Convert(r, ps) == Success(o);
          assert r in raws;
        } else {
          assert last in raws;
        }
      }
    }
  }

  /** Every converted order is represented in its type's book: the book holds
      an order at its price (the first one inserted at that price). */
  lemma {:induction false} GroupCoverage(raws: seq<RawOrder>, ps: Parsers)
    ensures var books := Group(raws, ps);
            forall r | r in raws && Convert(r, ps).Success? ::
              r.typeId in books && Convert(r, ps).value.price in Prices(books[r.typeId].orders)
    decreases |raws|
  {
    if |raws| > 0 {
      var pre := raws[..|raws| - 1];
      var last := raws[|raws| - 1];
      GroupCoverage(pre, ps);
      var before := Group(pre, ps);
      var books := Group(raws, ps);
      forall r | r in raws && Convert(r, ps).Success?
        ensures r.typeId in books && Convert(r, ps).value.price in Prices(books[r.typeId].orders)
      {
        if r == last {
          var prior := if r.typeId in before then before[r.typeId].orders else [];
          assert books[r.typeId].orders == Insert(prior, Convert(r, ps).value);
          InsertPrices(prior, Convert(r, ps).value);
        } else {
          assert r in pre;
          assert r.typeId in before && Convert(r, ps).value.price in Prices(before[r.typeId].orders);
          if r.typeId == last.typeId && Convert(last, ps).Success? {
            assert books[r.typeId].orders == Insert(before[r.typeId].orders, Convert(last, ps).value);
            InsertPrices(before[r.typeId].orders, Convert(last, ps).value);
          }
        }
      }
    }
  }

  const NO_LAST_MODIFIED := "No LAST_MODIFIED header in market data response?"
  const NO_EXPIRES := "No EXPIRES header in market data response?"
  const UNWRAP_ON_ERR := "called `Result::unwrap()` on an `Err` value"
  const BAD_DATE := "input contains invalid characters"
  const BAD_JSON := "error decoding response body"
  const TASK_FAILED := "task panicked"

  datatype Market = Market(items: map<U32, OrderBook>, lastModified: Instant, expires: Instant)

  /** The page count: `x-pages`, or 1 when the header is absent; a value that
      is not a `usize` panics. */
  function NumPages(h: map<string, string>): (r: Outcome<nat>)
    ensures X_PAGES !in h ==> r == Ok(1)
    ensures X_PAGES in h ==>
              (r.Ok? <==> Decimal.ParseUsize(h[X_PAGES]).Some?) &&
              (r.Ok? ==> Decimal.ParseUsize(h[X_PAGES]) == Some(r.value))
    ensures !r.Err?
  {
    if X_PAGES !in h then Ok(1)
    else
      match Decimal.ParseUsize(h[X_PAGES])
      case None => Panic(UNWRAP_ON_ERR)
      case Some(n) => Ok(n)
  }

  /** A date header: missing panics with `missing`; one that fails to parse as
      RFC 2822 is returned as an error. */
  function DateHeader(h: map<string, string>, name: string, missing: string, rfc2822: string -> Option<Instant>): (r: Outcome<Instant>)
    ensures name !in h ==> r == Panic(missing)
    ensures name in h ==> (r.Ok? <==> rfc2822(h[name]).Some?) && !r.Panic?
    ensures r.Ok? ==> name in h && rfc2822(h[name]) == Some(r.value)
  {
    if name !in h then Panic(missing)
    else
      match rfc2822(h[name])
      case None => Err(BAD_DATE)
      case Some(t) => Ok(t)
  }

  /** What `fetch_region` did: the extra pages it requested, and its result. */
  datatype RegionFetch = RegionFetch(requested: seq<nat>, result: Outcome<Market>)

  /** Page one of a region as `fetch_region` needs it: it arrived, its page
      count and both dates read, and its body decoded. */
  predicate Usable(first: Outcome<Page>, ps: Parsers) {
    && first.Ok?
    && var h := first.value.headers;
       && NumPages(h).Ok?
       && DateHeader(h, LAST_MODIFIED, NO_LAST_MODIFIED, ps.rfc2822).Ok?
       && DateHeader(h, EXPIRES, NO_EXPIRES, ps.rfc2822).Ok?
       && first.value.body.Some?
  }

  /** `Market::fetch_region`. Page one comes from `esi_get`: its error is
      returned and its panic unwinds through. The page count, `last-modified`
      and `expires` come from its headers, in that order; pages 2 to the page
      count are requested besides, and a failed page fails the join. All
      orders are then grouped. */
  function FetchRegion(first: Outcome<Page>, fetch: nat -> Result<Page, string>, ps: Parsers): (f: RegionFetch)
    ensures !first.Ok? ==> f == RegionFetch([], first.Forward())
    ensures first.Ok? && !NumPages(first.value.headers).Ok? ==>
              f == RegionFetch([], NumPages(first.value.headers).Forward())
    ensures first.Ok? && NumPages(first.value.headers).Ok?
            && !DateHeader(first.value.headers, LAST_MODIFIED, NO_LAST_MODIFIED, ps.rfc2822).Ok? ==>
              f == RegionFetch([], DateHeader(first.value.headers, LAST_MODIFIED, NO_LAST_MODIFIED, ps.rfc2822).Forward())
    ensures first.Ok? && NumPages(first.value.headers).Ok?
            && DateHeader(first.value.headers, LAST_MODIFIED, NO_LAST_MODIFIED, ps.rfc2822).Ok?
            && !DateHeader(first.value.headers, EXPIRES, NO_EXPIRES, ps.rfc2822).Ok? ==>
              f == RegionFetch([], DateHeader(first.value.headers, EXPIRES, NO_EXPIRES, ps.rfc2822).Forward())
    ensures first.Ok? && NumPages(first.value.headers).Ok?
            && DateHeader(first.value.headers, LAST_MODIFIED, NO_LAST_MODIFIED, ps.rfc2822).Ok?
            && DateHeader(first.value.headers, EXPIRES, NO_EXPIRES, ps.rfc2822).Ok?
            && first.value.body.None? ==>
              f == RegionFetch([], Err(BAD_JSON))
    ensures !Usable(first, ps) ==> f.requested == []
    ensures Usable(first, ps) ==> f.requested == PageRange(2, NumPages(first.value.headers).value + 1)
    ensures Usable(first, ps) ==> (f.result.Ok? <==> LoadPages(f.requested, fetch).Some?)
    ensures Usable(first, ps) && !f.result.Ok? ==> f.result == Err(TASK_FAILED)
    ensures f.result.Ok? ==>
              && Usable(first, ps)
              && DateHeader(first.value.headers, LAST_MODIFIED, NO_LAST_MODIFIED, ps.rfc2822) == Ok(f.result.value.lastModified)
              && DateHeader(first.value.headers, EXPIRES, NO_EXPIRES, ps.rfc2822) == Ok(f.result.value.expires)
    ensures f.result.Ok? ==>
              && LoadPages(f.requested, fetch).Some?
              && var raws := first.value.body.value + LoadPages(f.requested, fetch).value;
                 && TypesOf(raws, f.result.value.items.Keys)
                 && f.result.value.items == Group(raws, ps)
  {
    match first
    case Err(_) => RegionFetch([], first.Forward())
    case Panic(_) => RegionFetch([], first.Forward())
    case Ok(page) =>
      var count := NumPages(page.headers);
      var modified := DateHeader(page.headers, LAST_MODIFIED, NO_LAST_MODIFIED, ps.rfc2822);
      var expiry := DateHeader(page.headers, EXPIRES, NO_EXPIRES, ps.rfc2822);
      if !count.Ok? then RegionFetch([], count.Forward())
      else if !modified.Ok? then RegionFetch([], modified.Forward())
      else if !expiry.Ok? then RegionFetch([], expiry.Forward())
      else
        match page.body
        case None => RegionFetch([], Err(BAD_JSON))
        case Some(orders) =>
          var pages := PageRange(2, count.value + 1);
          match LoadPages(pages, fetch)
          case None => RegionFetch(pages, Err(TASK_FAILED))
          case Some(more) =>
            GroupKeys(orders + more, ps);
            RegionFetch(pages, Ok(Market(Group(orders + more, ps), modified.value, expiry.value)))
  }
}
