/** The market crate (crates/market/src/lib.rs): a region's orders loaded
    page by page from ESI and converted one by one into `MarketOrder`s whose
    location is looked up through the universe crate's station cache.

    The spawned page loads and conversions run here one after another, in
    page and order sequence; the station cache is the state they share. */
module Market {
  import opened Wrappers
  import opened Numbers
  import Decimal
  import opened MarketWire
  import Universe

  /** `MarketOrder`: the raw order's duration, price, type and system are not
      kept. */
  datatype MarketOrder = MarketOrder(
    id: U64,
    isBuyOrder: bool,
    issued: Instant,
    location: Universe.Station,
    minVolume: U32,
    range: MarketOrderRange,
    volumeRemain: U32,
    volumeTotal: U32)

  /** `MarketRegion`. */
  datatype MarketRegion = MarketRegion(
    region: Universe.Region,
    orders: seq<MarketOrder>,
    cacheResetTime: Instant,
    fetchTime: Instant)

  /** `MarketRegion::new_with_orders`. */
  function NewWithOrders(region: Universe.Region, orders: seq<MarketOrder>, cacheResetTime: Instant, fetchTime: Instant): (m: MarketRegion)
    ensures m.region == region && m.orders == orders
    ensures m.cacheResetTime == cacheResetTime && m.fetchTime == fetchTime
  {
    MarketRegion(region, orders, cacheResetTime, fetchTime)
  }

  /** `MarketRegion::new`: a region with no orders yet. */
  function New(region: Universe.Region, cacheResetTime: Instant, fetchTime: Instant): (m: MarketRegion)
    ensures m == NewWithOrders(region, [], cacheResetTime, fetchTime)
    ensures |m.orders| == 0
  {
    NewWithOrders(region, [], cacheResetTime, fetchTime)
  }

  /** Adding orders to a new region gives the region built with them. */
  lemma NewThenOrders(region: Universe.Region, orders: seq<MarketOrder>, cacheResetTime: Instant, fetchTime: Instant)
    ensures New(region, cacheResetTime, fetchTime).(orders := orders) == NewWithOrders(region, orders, cacheResetTime, fetchTime)
  {
  }

  /** The fields an order takes over from its raw order unchanged, and its
      issue date as the RFC 3339 parser reads it. */
  predicate CopiedFrom(raw: RawOrder, o: MarketOrder, rfc3339: string -> Option<Instant>) {
    && o.id == raw.orderId && o.isBuyOrder == raw.isBuyOrder
    && rfc3339(raw.issued) == Some(o.issued)
    && o.minVolume == raw.minVolume && o.range == raw.range
    && o.volumeRemain == raw.volumeRemain && o.volumeTotal == raw.volumeTotal
  }

  const BAD_DATE := "input contains invalid characters"

  /** One conversion: the caches afterwards, and the order, the error that
      drops it, or the panic of its task. */
  datatype Conversion = Conversion(caches: Universe.Caches, result: Outcome<MarketOrder>)

  /** `MarketOrder::from_api_response`: the issue date is parsed first, so an
      order with a bad date never looks up its station. */
  function FromApiResponse(c: Universe.Caches, raw: RawOrder, api: Universe.Api, rfc3339: string -> Option<Instant>): (r: Conversion)
    ensures rfc3339(raw.issued).None? ==> r == Conversion(c, Err(BAD_DATE))
    ensures rfc3339(raw.issued).Some? ==>
              var l := Universe.GetStation(c, raw.locationId, api);
              && r.caches == l.caches
              && (r.result.Ok? <==> l.result.Found?)
              && (r.result.Panic? <==> l.result.Panicked?)
              && (l.result.Failed? ==> r.result == Err(Universe.FailureText(l.result.failure)))
              && (r.result.Ok? ==> r.result.value.location == l.result.station)
    ensures r.result.Ok? ==> CopiedFrom(raw, r.result.value, rfc3339)
  {
    match rfc3339(raw.issued)
    case None => Conversion(c, Err(BAD_DATE))
    case Some(issued) =>
      var l := Universe.GetStation(c, raw.locationId, api);
      match l.result
      case Panicked(m) => Conversion(l.caches, Panic(m))
      case Failed(f) => Conversion(l.caches, Err(Universe.FailureText(f)))
      case Found(station) =>
        Conversion(l.caches, Ok(MarketOrder(raw.orderId, raw.isBuyOrder, issued, station, raw.minVolume,
                                            raw.range, raw.volumeRemain, raw.volumeTotal)))
  }

  /** Price, type, system and duration play no part in a conversion. */
  lemma ConversionIgnores(c: Universe.Caches, raw: RawOrder, price: Price, typeId: U32, systemId: U32, duration: U32,
                          api: Universe.Api, rfc3339: string -> Option<Instant>)
    ensures FromApiResponse(c, raw, api, rfc3339) ==
            FromApiResponse(c, raw.(price := price, typeId := typeId, systemId := systemId, duration := duration), api, rfc3339)
  {
  }

  /** The conversions of a whole region: the caches afterwards, and the
      converted orders, or `None` when a conversion task panicked. */
  datatype Batch = Batch(caches: Universe.Caches, orders: Option<seq<MarketOrder>>)

  /** The conversion loop of `fetch_orders`, one raw order after another: an
      order whose conversion fails is dropped, and a panic ends the batch. */
  function ConvertAll(c: Universe.Caches, raws: seq<RawOrder>, api: Universe.Api, rfc3339: string -> Option<Instant>): (b: Batch)
    ensures b.orders.Some? ==> |b.orders.value| <= |raws|
    ensures b.orders.Some? ==> forall o | o in b.orders.value :: exists raw | raw in raws :: CopiedFrom(raw, o, rfc3339)
    ensures c.stations.Keys <= b.caches.stations.Keys
    ensures Universe.SelfKeyed(c) ==> Universe.SelfKeyed(b.caches)
    ensures Universe.SelfKeyed(c) && b.orders.Some? ==> forall o | o in b.orders.value :: o.location.id in b.caches.stations
    ensures b.caches.regions == c.regions && b.caches.types == c.types
    ensures |raws| == 1 ==>
              var one := FromApiResponse(c, raws[0], api, rfc3339);
              && b.caches == one.caches
              && (one.result.Ok? ==> b.orders == Some([one.result.value]))
              && (one.result.Err? ==> b.orders == Some([]))
              && (one.result.Panic? ==> b.orders.None?)
    decreases |raws|
  {
    if |raws| == 0 then Batch(c, Some([]))
    else
      var one := FromApiResponse(c, raws[0], api, rfc3339);
      match one.result
      case Panic(_) => Batch(one.caches, None)
      case Err(_) =>
        var rest := ConvertAll(one.caches, raws[1..], api, rfc3339);
        assert forall raw | raw in raws[1..] :: raw in raws;
        rest
      case Ok(o) =>
        var rest := ConvertAll(one.caches, raws[1..], api, rfc3339);
        assert forall raw | raw in raws[1..] :: raw in raws;
        match rest.orders
        case None => Batch(rest.caches, None)
        case Some(os) =>
          assert |raws| == 1 ==> os == [] && [o] + os == [o];
          Batch(rest.caches, Some([o] + os))
  }

  /** One conversion as a step of a batch. */
  function Step(api: Universe.Api, rfc3339: string -> Option<Instant>): (Universe.Caches, RawOrder) -> Conversion
  {
    (c: Universe.Caches, raw: RawOrder) => FromApiResponse(c, raw, api, rfc3339)
  }

  /** A batch over any conversion step: an `Err` drops the order, a panic
      ends the batch. */
  function Fold(step: (Universe.Caches, RawOrder) -> Conversion, c: Universe.Caches, raws: seq<RawOrder>): Batch
    decreases |raws|
  {
    if |raws| == 0 then Batch(c, Some([]))
    else
      var one := step(c, raws[0]);
      match one.result
      case Panic(_) => Batch(one.caches, None)
      case Err(_) => Fold(step, one.caches, raws[1..])
      case Ok(o) =>
        var rest := Fold(step, one.caches, raws[1..]);
        match rest.orders
        case None => Batch(rest.caches, None)
        case Some(os) => Batch(rest.caches, Some([o] + os))
  }

  /** `ConvertAll` is the batch over `FromApiResponse`. */
  lemma {:induction false} ConvertAllIsFold(c: Universe.Caches, raws: seq<RawOrder>, api: Universe.Api, rfc3339: string -> Option<Instant>)
    ensures ConvertAll(c, raws, api, rfc3339) == Fold(Step(api, rfc3339), c, raws)
    decreases |raws|
  {
    if |raws| > 0 {
      var one := FromApiResponse(c, raws[0], api, rfc3339);
      assert Step(api, rfc3339)(c, raws[0]) == one;
      ConvertAllIsFold(one.caches, raws[1..], api, rfc3339);
    }
  }

  lemma {:induction false} FoldAppend(step: (Universe.Caches, RawOrder) -> Conversion, c: Universe.Caches, a: seq<RawOrder>, b: seq<RawOrder>)
    requires Fold(step, c, a).orders.Some?
    ensures var front := Fold(step, c, a);
            var back := Fold(step, front.caches, b);
            var whole := Fold(step, c, a + b);
            && whole.caches == back.caches
            && (back.orders.None? ==> whole.orders.None?)
            && (back.orders.Some? ==> whole.orders == Some(front.orders.value + back.orders.value))
    decreases |a|
  {
    if |a| == 0 {
      assert a + b == b;
      var back := Fold(step, c, b);
      if back.orders.Some? {
        assert [] + back.orders.value == back.orders.value;
      }
    } else {
      assert (a + b)[0] == a[0] && (a + b)[1..] == a[1..] + b;
      var one := step(c, a[0]);
      FoldAppend(step, one.caches, a[1..], b);
      if one.result.Ok? {
        var front := Fold(step, one.caches, a[1..]);
        var back := Fold(step, front.caches, b);
        if back.orders.Some? {
          assert [one.result.value] + (front.orders.value + back.orders.value)
              == ([one.result.value] + front.orders.value) + back.orders.value;
        }
      }
    }
  }

  lemma {:induction false} FoldStops(step: (Universe.Caches, RawOrder) -> Conversion, c: Universe.Caches, a: seq<RawOrder>, b: seq<RawOrder>)
    requires Fold(step, c, a).orders.None?
    ensures Fold(step, c, a + b) == Fold(step, c, a)
    decreases |a|
  {
    assert (a + b)[0] == a[0] && (a + b)[1..] == a[1..] + b;
    var one := step(c, a[0]);
    if !one.result.Panic? && Fold(step, one.caches, a[1..]).orders.None? {
      FoldStops(step, one.caches, a[1..], b);
    }
  }

  /** Converting two runs of raw orders in one batch is converting the first,
      then the second against the caches the first left. With the
      single-order case of `ConvertAll`, this fixes the batch: every order
      that converts is kept, in raw order. */
  lemma ConvertAllAppend(c: Universe.Caches, a: seq<RawOrder>, b: seq<RawOrder>,
                         api: Universe.Api, rfc3339: string -> Option<Instant>)
    requires ConvertAll(c, a, api, rfc3339).orders.Some?
    ensures var front := ConvertAll(c, a, api, rfc3339);
            var back := ConvertAll(front.caches, b, api, rfc3339);
            var whole := ConvertAll(c, a + b, api, rfc3339);
            && whole.caches == back.caches
            && (back.orders.None? ==> whole.orders.None?)
            && (back.orders.Some? ==> whole.orders == Some(front.orders.value + back.orders.value))
  {
    var front := ConvertAll(c, a, api, rfc3339);
    ConvertAllIsFold(c, a, api, rfc3339);
    ConvertAllIsFold(front.caches, b, api, rfc3339);
    ConvertAllIsFold(c, a + b, api, rfc3339);
    FoldAppend(Step(api, rfc3339), c, a, b);
  }

  /** A panic in the first run of raw orders ends the batch there: the second
      run is never converted. */
  lemma ConvertAllStops(c: Universe.Caches, a: seq<RawOrder>, b: seq<RawOrder>,
                        api: Universe.Api, rfc3339: string -> Option<Instant>)
    requires ConvertAll(c, a, api, rfc3339).orders.None?
    ensures ConvertAll(c, a + b, api, rfc3339) == ConvertAll(c, a, api, rfc3339)
  {
    ConvertAllIsFold(c, a, api, rfc3339);
    ConvertAllIsFold(c, a + b, api, rfc3339);
    FoldStops(Step(api, rfc3339), c, a, b);
  }

  /** Orders whose issue date does not parse are dropped without a station
      lookup: a batch of them converts to nothing and leaves the caches as
      they were. */
  lemma {:induction false} UndatedOrdersDropped(c: Universe.Caches, raws: seq<RawOrder>, api: Universe.Api, rfc3339: string -> Option<Instant>)
    requires forall i | 0 <= i < |raws| :: rfc3339(raws[i].issued).None?
    ensures ConvertAll(c, raws, api, rfc3339) == Batch(c, Some([]))
    decreases |raws|
  {
    if |raws| > 0 {
      UndatedOrdersDropped(c, raws[1..], api, rfc3339);
    }
  }

  const NO_X_PAGES := "Failed to retrieve X-Pages header on region market orders"
  const BAD_X_PAGES := "X-Pages header invalid file format"
  const NO_LAST_MODIFIED := "Failed to retreive last-modified header"
  const BAD_LAST_MODIFIED := "Failed to parse last-modified datetime string"
  const NO_EXPIRES := "Failed to retreive expiry date"
  const BAD_EXPIRES := "Failed to parse expiry date"
  const BAD_JSON := "error decoding response body"
  const PAGES_FAILED := "Error retreiving orders for market region"
  const FORMAT_FAILED := "Error formatting Market Orders"

  /** A header that must be present and must parse: the `expect`s of
      `fetch_orders`, each with its own message. */
  function Required<T>(h: map<string, string>, name: string, parse: string -> Option<T>, missing: string, bad: string): (r: Outcome<T>)
    ensures name !in h ==> r == Panic(missing)
    ensures name in h && parse(h[name]).None? ==> r == Panic(bad)
    ensures r.Ok? <==> name in h && parse(h[name]).Some?
    ensures r.Ok? ==> parse(h[name]) == Some(r.value)
    ensures !r.Err?
  {
    if name !in h then Panic(missing)
    else
      match parse(h[name])
      case None => Panic(bad)
      case Some(v) => Ok(v)
  }

  /** What the market endpoint and the date parser answer. */
  datatype MarketApi = MarketApi(
    firstPage: Result<Page, string>,
    page: nat -> Result<Page, string>,
    rfc2822: string -> Option<Instant>,
    rfc3339: string -> Option<Instant>)

  /** What `fetch_orders` did: the caches afterwards, the extra pages it
      requested, and its result. */
  datatype Fetched = Fetched(caches: Universe.Caches, requested: seq<nat>, result: Outcome<MarketRegion>)

  /** The page count from `x-pages`, parsed as a `u32`. */
  function PageCount(h: map<string, string>): (r: Outcome<U32>)
    ensures X_PAGES !in h ==> r == Panic(NO_X_PAGES)
    ensures X_PAGES in h ==> (r.Ok? <==> Decimal.ParseU32(h[X_PAGES]).Some?)
    ensures X_PAGES in h && !r.Ok? ==> r == Panic(BAD_X_PAGES)
    ensures r.Ok? ==> Decimal.ParseU32(h[X_PAGES]) == Some(r.value)
  {
    Required(h, X_PAGES, Decimal.ParseU32, NO_X_PAGES, BAD_X_PAGES)
  }

  /** The `last-modified` and `expires` headers of page one, as parsed. */
  function Modified(api: MarketApi, h: map<string, string>): Outcome<Instant> {
    Required(h, LAST_MODIFIED, api.rfc2822, NO_LAST_MODIFIED, BAD_LAST_MODIFIED)
  }

  function Expiry(api: MarketApi, h: map<string, string>): Outcome<Instant> {
    Required(h, EXPIRES, api.rfc2822, NO_EXPIRES, BAD_EXPIRES)
  }

  /** Page one as `fetch_orders` needs it: it arrived, its page count and both
      dates read, its body decoded, and `pages + 1` did not overflow. */
  predicate Ready(api: MarketApi, p: Profile) {
    && api.firstPage.Success?
    && var h := api.firstPage.value.headers;
       && PageCount(h).Ok? && Modified(api, h).Ok? && Expiry(api, h).Ok?
       && api.firstPage.value.body.Some?
       && Increment(PageCount(h).value, p).Success?
  }

  /** The pages 2 to `pages` that a ready first page asks for. */
  function ExtraPages(api: MarketApi, p: Profile): seq<nat>
    requires Ready(api, p)
  {
    PageRange(2, Increment(PageCount(api.firstPage.value.headers).value, p).value)
  }

  /** `MarketRegion::fetch_orders`. Page one's headers give the page count
      and both dates, each of which panics when missing or malformed; page
      one's body is the first batch of raw orders; pages 2 to the page count
      are loaded besides (the bound is `pages + 1` on a `u32`), and a failed
      page panics the join; every raw order is then converted, and a panicked
      conversion panics the join too. The region's cache reset time is
      `expires` and its fetch time `last-modified`. */
  function FetchOrders(c: Universe.Caches, region: Universe.Region, api: MarketApi, universe: Universe.Api, p: Profile): (f: Fetched)
    ensures api.firstPage.Failure? ==> f == Fetched(c, [], Err(api.firstPage.error))
    ensures api.firstPage.Success? && !PageCount(api.firstPage.value.headers).Ok? ==>
              f == Fetched(c, [], PageCount(api.firstPage.value.headers).Forward())
    ensures api.firstPage.Success? && X_PAGES !in api.firstPage.value.headers ==> f == Fetched(c, [], Panic(NO_X_PAGES))
    ensures api.firstPage.Success? && PageCount(api.firstPage.value.headers).Ok?
            && !Modified(api, api.firstPage.value.headers).Ok? ==>
              f == Fetched(c, [], Modified(api, api.firstPage.value.headers).Forward())
    ensures api.firstPage.Success? && PageCount(api.firstPage.value.headers).Ok?
            && Modified(api, api.firstPage.value.headers).Ok?
            && !Expiry(api, api.firstPage.value.headers).Ok? ==>
              f == Fetched(c, [], Expiry(api, api.firstPage.value.headers).Forward())
    ensures api.firstPage.Success? && PageCount(api.firstPage.value.headers).Ok?
            && Modified(api, api.firstPage.value.headers).Ok? && Expiry(api, api.firstPage.value.headers).Ok?
            && api.firstPage.value.body.None? ==>
              f == Fetched(c, [], Err(BAD_JSON))
    ensures api.firstPage.Success? && PageCount(api.firstPage.value.headers).Ok?
            && Modified(api, api.firstPage.value.headers).Ok? && Expiry(api, api.firstPage.value.headers).Ok?
            && api.firstPage.value.body.Some?
            && Increment(PageCount(api.firstPage.value.headers).value, p).Failure? ==>
              f == Fetched(c, [], Panic(Increment(PageCount(api.firstPage.value.headers).value, p).error))
    ensures !Ready(api, p) ==> f.requested == [] && f.caches == c && !f.result.Ok?
    ensures Ready(api, p) ==> f.requested == ExtraPages(api, p)
    ensures Ready(api, p) && LoadPages(f.requested, api.page).None? ==> f == Fetched(c, f.requested, Panic(PAGES_FAILED))
    ensures Ready(api, p) && LoadPages(f.requested, api.page).Some? ==>
              var raws := api.firstPage.value.body.value + LoadPages(f.requested, api.page).value;
              var b := ConvertAll(c, raws, universe, api.rfc3339);
              && f.caches == b.caches
              && (b.orders.None? ==> f.result == Panic(FORMAT_FAILED))
              && (b.orders.Some? ==>
                    f.result == Ok(NewWithOrders(region, b.orders.value,
                                                 Expiry(api, api.firstPage.value.headers).value,
                                                 Modified(api, api.firstPage.value.headers).value)))
    ensures f.result.Err? ==> f.requested == [] && f.caches == c
    ensures Universe.SelfKeyed(c) ==> Universe.SelfKeyed(f.caches)
  {
    match api.firstPage
    case Failure(e) => Fetched(c, [], Err(e))
    case Success(first) =>
      var h := first.headers;
      var count := PageCount(h);
      var modified := Modified(api, h);
      var expiry := Expiry(api, h);
      if !count.Ok? then Fetched(c, [], count.Forward())
      else if !modified.Ok? then Fetched(c, [], modified.Forward())
      else if !expiry.Ok? then Fetched(c, [], expiry.Forward())
      else
        match first.body
        case None => Fetched(c, [], Err(BAD_JSON))
        case Some(orders) =>
          match Increment(count.value, p)
          case Failure(m) => Fetched(c, [], Panic(m))
          case Success(end) =>
            var pages := PageRange(2, end);
            match LoadPages(pages, api.page)
            case None => Fetched(c, pages, Panic(PAGES_FAILED))
            case Some(more) =>
              var b := ConvertAll(c, orders + more, universe, api.rfc3339);
              match b.orders
              case None => Fetched(b.caches, pages, Panic(FORMAT_FAILED))
              case Some(os) => Fetched(b.caches, pages, Ok(New(region, expiry.value, modified.value).(orders := os)))
  }

  /** Extra pages are requested only below the overflow: exactly pages 2 to
      the page count. */
  lemma FetchOrdersPages(c: Universe.Caches, region: Universe.Region, api: MarketApi, universe: Universe.Api, p: Profile)
    ensures var f := FetchOrders(c, region, api, universe, p);
            f.requested != [] ==>
              && api.firstPage.Success? && PageCount(api.firstPage.value.headers).Ok?
              && var n := PageCount(api.firstPage.value.headers).value;
                 n + 1 < U32_LIMIT && f.requested == PageRange(2, n + 1)
  {
  }

  /** A fetched region holds no more orders than were loaded, each copied from
      one of the loaded raw orders. */
  lemma FetchOrdersProvenance(c: Universe.Caches, region: Universe.Region, api: MarketApi, universe: Universe.Api, p: Profile)
    ensures var f := FetchOrders(c, region, api, universe, p);
            f.result.Ok? ==>
              && f.result.value.region == region
              && Ready(api, p) && LoadPages(f.requested, api.page).Some?
              && var raws := api.firstPage.value.body.value + LoadPages(f.requested, api.page).value;
                 && |f.result.value.orders| <= |raws|
                 && forall o | o in f.result.value.orders :: exists raw | raw in raws :: CopiedFrom(raw, o, api.rfc3339)
  {
  }

  /** A page count of `u32::MAX` overflows `pages + 1`: a debug build panics
      before any extra page is requested, and a release build wraps the bound
      to 0 and requests no extra page either. */
  lemma PageCountOverflow(c: Universe.Caches, region: Universe.Region, api: MarketApi, universe: Universe.Api)
    requires api.firstPage.Success?
    requires var h := api.firstPage.value.headers;
             && PageCount(h) == Ok(U32_LIMIT - 1)
             && Modified(api, h).Ok? && Expiry(api, h).Ok?
             && api.firstPage.value.body.Some?
    ensures FetchOrders(c, region, api, universe, Debug) == Fetched(c, [], Panic(ADD_OVERFLOW))
    ensures FetchOrders(c, region, api, universe, Release).requested == []
  {
  }
}
