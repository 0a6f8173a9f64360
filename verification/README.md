# everterm ESI core, modelled in Dafny

This project models the sequential core of everterm, a client for EVE Online's
ESI web API written in Rust. Each of its parts is stated as pure functions
over immutable datatypes. The network, the clock, the JSON, base64 and date
parsers, and the `StationID` validator are oracles passed in as arguments.
Everything else is modelled as the code does it: branches, error precedence,
panic messages and constants.

- `Wrappers`, `Numbers`, `Decimal`: shared vocabulary.
  - `Option`, `Result`, and `Outcome`, which is `Ok`, `Err` or `Panic`.
  - `u32`/`u64` as subset types, with the debug-panic and release-wrap behaviour of `x - 1` and `x + 1`.
  - Rust's `Display` and `FromStr` for unsigned integers.
- `EsiClient` (crates/esi/src/lib.rs): the error-budget governor.
  - `errors` starts at 100 and `error_timeout` at 0.
  - The client waits before sending when `errors <= 10`.
  - A transport failure costs one unit and causes one retry.
  - A non-420 4xx status overwrites both counters from the `x-esi-error-limit-*` headers.
- `AuthToken` (crates/esi/src/lib.rs): `auth_tok_valid` and the `Authorization` header it guards.
- `EsiUniverse` (crates/esi/src/universe.rs): `RegionID`, the `InvalidIDError` text, id filtering, and the region cache with `fetch_all`.
- `MarketWire`: what the two market crates share.
  - The `MarketOrderRange` visitor, which exists twice with the same text.
  - The raw order record.
  - Page loading.
- `EsiMarket` (crates/esi/src/market.rs):
  - `Order::try_from` and the price ordering.
  - `OrderBook`, whose `BTreeSet` becomes a strictly descending sequence.
  - `Market::fetch_region`.
- `Cache`: the generic get-or-fetch cache.
- `Universe` (crates/universe/src/lib.rs): the region, system, station and type caches and the two `fetch_all`s.
- `Market` (crates/market/src/lib.rs): `MarketRegion`, `MarketOrder::from_api_response` and `fetch_orders`.

Spawned tasks become a sequential fold in input order, and the first failing task ends the fold. A panic leaves behind the writes made before it, because the tokio mutexes holding the counters and caches do not poison.

## Model

| member | source | states |
|---|---|---|
| EsiClient.New | crates/esi/src/lib.rs:33-36 | A fresh client has budget 100 and reset timer 0, so its first request is not throttled |
| EsiClient.ReadHeader | crates/esi/src/lib.rs:122-137 | A missing budget header fails with its `expect` message, and a value that is not a `u32` fails with the `unwrap` message. Otherwise it yields exactly the parsed value |
| EsiClient.Classify | crates/esi/src/lib.rs:112-156 | Only 200 is delivered. 420 waits the current timer and changes nothing. A non-420 4xx with both headers overwrites both counters with the parsed values. A missing or unparsable remain header aborts with its `expect` or `unwrap` message and changes nothing. A good remain header with a bad reset header aborts with the reset header's message after the budget has already been overwritten. 5xx changes nothing. Any other status aborts in `unwrap_err`. Only a non-420 4xx moves the counters |
| EsiClient.EsiGet | crates/esi/src/lib.rs:68-107 | The gate waits exactly `error_timeout` iff `errors <= 10`. A first response is classified after one request, including the wait after a 420. A first transport failure decrements the budget: in a debug build a budget of 0 panics on the subtraction, and in a release build it wraps to 2^32-1. After the decrement exactly one retry is sent. A failed retry is returned without a second decrement, and a retry response is classified against the decremented budget |
| EsiClient.SessionWithoutClientErrors | crates/esi/src/lib.rs:95-141 | In a release build, over any run of calls with no non-420 client error, the timer is unchanged and the budget equals the start value minus the number of retries, modulo 2^32 |
| Numbers.Decrement | crates/esi/src/lib.rs:100 | `x - 1` on a `u32`: exact above 0; at 0 a debug build panics with the overflow message and a release build wraps |
| Numbers.Increment | crates/market/src/lib.rs:188 | `x + 1` on a `u32`: exact below the maximum; at the maximum a debug build panics and a release build wraps to 0 |
| Decimal.Show | crates/esi/src/universe.rs:34-35 | Formatting gives a non-empty run of digits denoting the number, with no leading zero except for "0" |
| Decimal.CanonicalIsShow | crates/esi/src/universe.rs:34-35 | A digit string is `Display`'s spelling of its value iff it has no leading zero, so every number has exactly one printed form |
| Decimal.ParseUnsigned | crates/esi/src/market.rs:51 | Accepts exactly an optional '+' followed by one or more ASCII digits whose value fits the type, and yields that value. Everything else is rejected |
| Decimal.ParseU32 | crates/esi/src/lib.rs:127-128 | `str::parse::<u32>`: a run of digits parses iff its value is at most 4,294,967,295 |
| Decimal.ParseUsize | crates/esi/src/market.rs:185-191 | `str::parse::<usize>` on a 64-bit target: a run of digits parses iff its value is at most 2^64-1 |
| Decimal.ParseWidths | crates/esi/src/market.rs:185-191 | 2^32-1 is the largest `u32`. 2^32 is refused as a `u32` and accepted as a `usize` |
| Decimal.ParseShow | crates/esi/src/market.rs:51 | Parsing the printed form of a value that fits gives the value back |
| Decimal.OtherSpellings | crates/esi/src/market.rs:51 | `u32::from_str` also accepts a leading '+' or a leading zero, so different strings parse to the same value |
| AuthToken.Split | crates/esi/src/lib.rs:164-165 | Splitting on '.' gives one more part than there are dots, none containing a dot, and joining the parts with dots restores the token |
| AuthToken.SplitJoin | crates/esi/src/lib.rs:164 | Splitting the dot-join of dot-free parts gives exactly those parts |
| AuthToken.Pad | crates/esi/src/lib.rs:172-175 | The padded payload's UTF-8 byte length, which `str::len` counts, is a multiple of 4. The payload is its prefix, followed by fewer than 4 '=' characters. It is unchanged when the byte length is already a multiple of 4 |
| AuthToken.PadIsShortest | crates/esi/src/lib.rs:172-175 | The padding is the shortest '=' suffix that brings the byte length to a multiple of 4 |
| AuthToken.AsciiPad | crates/esi/src/lib.rs:172-175 | For an ASCII payload, which is what base64 text is, the byte count is the character count, so the padded length is a multiple of 4 characters |
| AuthToken.PayloadExp | crates/esi/src/lib.rs:177-197 | An expiry is found iff the padded payload decodes, the bytes parse as JSON, and an `exp` claim that is a `u64` is present. A payload that does not decode has none |
| AuthToken.TokValid | crates/esi/src/lib.rs:160-201 | A token is valid iff it exists, has exactly two dots, and its padded, decoded payload has a `u64` `exp` later than now. A missing token or a wrong part count is invalid |
| AuthToken.ThreePartToken | crates/esi/src/lib.rs:164-192 | A header.payload.signature token is judged by its payload alone |
| AuthToken.UrlSafePayloadRejected | crates/esi/src/lib.rs:177 | With a standard-alphabet decoder (section 4 of RFC 4648), a payload holding '-' or '_' is never valid. JWTs use exactly those characters (section 5 of RFC 4648; section 2 of RFC 7515) |
| AuthToken.Authorization | crates/esi/src/lib.rs:82-84 | A bearer header is attached iff the token is valid, and then it carries that token. The "NOACL" fallback is never sent |
| EsiUniverse.Message | crates/esi/src/universe.rs:30-37 | The error text starts with "Value " and ends with "]". With MessageRoundTrip and MessageExact it is pinned to `Value {v} is outside the valid range [{start}, {end}]` with `Display` numerals |
| EsiUniverse.MessageRoundTrip | crates/esi/src/universe.rs:30-37 | The error text parses back to the same value and range |
| EsiUniverse.MessageExact | crates/esi/src/universe.rs:30-37 | A text reads back as an error iff it is exactly that error's message. The reader only accepts `Display` numerals, so no leading zero or '+' spelling qualifies |
| EsiUniverse.MessageInjective | crates/esi/src/universe.rs:30-37 | Different errors print differently |
| EsiUniverse.TryFrom | crates/esi/src/universe.rs:71-82 | Succeeds iff 10,000,000 <= v < 20,000,000, and `get` then returns v. Otherwise the error carries v and the range 10,000,000..20,000,000 |
| EsiUniverse.Get | crates/esi/src/universe.rs:53-55 | `get` returns the value that determines the id |
| EsiUniverse.TryFromGet | crates/esi/src/universe.rs:53-55 | A region id built from an in-range value gives that id back through `get` then `try_from` |
| EsiUniverse.Set | crates/esi/src/universe.rs:56-58 | `get` after `set` returns the new value |
| EsiUniverse.SetEscapesRange | crates/esi/src/universe.rs:53-58 | `set` skips the range check, so a `RegionID` can hold a value `try_from` refuses |
| EsiUniverse.Deserialize | crates/esi/src/universe.rs:61-68 | Fails exactly when `try_from` fails, and the error text parses back to that `InvalidIDError` |
| EsiUniverse.ValidIds | crates/esi/src/universe.rs:113-123 | Keeps exactly the listed values that are region ids and drops the rest |
| EsiUniverse.ValidIdsAppend | crates/esi/src/universe.rs:119-123 | Filtering distributes over concatenation, so listed order is kept |
| EsiUniverse.DecodeRegion | crates/esi/src/universe.rs:85-91 | A region body decodes iff its `region_id` is a region id |
| EsiUniverse.Download | crates/esi/src/universe.rs:163-176 | A failed request is returned as that error. A download succeeds iff the request succeeds and its `region_id` is a region id, and the region then carries that id and the body's name |
| EsiUniverse.GetRegion | crates/esi/src/universe.rs:153-182 | A hit returns the cached region with no request. A miss downloads and stores the answer under the requested id. A failure stores nothing. Cached ids stay valid |
| EsiUniverse.Gather | crates/esi/src/universe.rs:129-139 | The loads succeed iff every download succeeds. The result is keyed by each region's own id, its keys are exactly the downloaded ids, and every value is one of the downloaded regions |
| EsiUniverse.GatherStep | crates/esi/src/universe.rs:129-139 | The keys and provenance of what the remaining loads gather carry over to the whole list once the first region is inserted |
| EsiUniverse.FetchAll | crates/esi/src/universe.rs:110-150 | A listing error is returned, and a panic in the listing's `esi_get` unwinds through. A failed load panics with "Error in one of the spawned tasks". The load succeeds iff every valid listed id downloads, the map's keys are then the downloaded regions' own valid ids, and each value is the region a download of a listed valid id returned |
| Cache.Fetch | crates/universe/src/lib.rs:56-66 | A miss makes one request, stores a success under the chosen key, and stores no failure |
| Cache.Get | crates/universe/src/lib.rs:43-54 | A hit answers from the cache without a request, and a miss fetches. Keys are never removed |
| Cache.GetTwice | crates/universe/src/lib.rs:56-63 | When answers are stored under the requested id, the second lookup is a hit returning the same value |
| Cache.MismatchedKeyRefetches | crates/universe/src/lib.rs:146-153 | When an answer is stored under a different id than requested, the requested id stays a miss and is requested again |
| Cache.FetchEach | crates/universe/src/lib.rs:79-108 | The fan-out succeeds iff every fetch succeeds. The result is keyed by the answers' own ids and holds only fetched or given answers. Every requested key lands in the cache |
| Cache.FetchEachStores | crates/universe/src/lib.rs:79-108 | After the fan-out every cache entry is either as it was or a fetched answer stored under its key. When every fetch succeeded, each answer's key holds one of the answers filed under that key, the last writer winning |
| MarketWire.ParseRange | crates/esi/src/market.rs:42-57 | "station" gives Station, "region" gives Region, "solarsystem" gives System(1), a `u32` string n gives System(n), and anything else is the error "unexpected string: " followed by the input |
| MarketWire.ParseFormat | crates/esi/src/market.rs:46-55 | Formatting a range and parsing it back gives the range |
| MarketWire.ParseNotInjective | crates/market/src/lib.rs:40-51 | "solarsystem", "1", "+1" and "01" all parse to System(1). This copy of the parser is the same function as the esi one |
| MarketWire.AddDays | crates/esi/src/market.rs:131 | Adding d days moves the instant forward by exactly d days of 86,400 seconds (the model counts nanoseconds) |
| MarketWire.PageRange | crates/esi/src/market.rs:212 | `start..end` lists exactly start, start+1, ..., end-1 |
| MarketWire.LoadPages | crates/esi/src/market.rs:209-227 | The load succeeds iff every page's request and body succeed. Then every order of every page is in the result, and nothing else is |
| MarketWire.LoadOnePage | crates/esi/src/market.rs:222-224 | One page loads as exactly its body's orders, and a failed request or body fails the load |
| MarketWire.LoadPagesAppend | crates/esi/src/market.rs:212-226 | Loading two runs of pages succeeds iff both do, and gives the first run's orders followed by the second's. With LoadOnePage this fixes every page's orders to appear once, as one block, with the blocks in page order. That order is the schedule the model chooses, since the source's tasks append under a mutex in whatever order they finish |
| EsiMarket.Convert | crates/esi/src/market.rs:120-139 | A bad issue date wins over a bad location. Conversion succeeds iff both parse. The expiry is exactly `duration` days after issue, `id` comes from `order_id`, and every other field is copied |
| EsiMarket.Cmp | crates/esi/src/market.rs:104-108 | Less iff the first price is higher, Greater iff it is lower, and Equal iff the prices are equal |
| EsiMarket.PartialCmp | crates/esi/src/market.rs:98-102 | `partial_cmp` is never `None` and always agrees with `cmp` |
| EsiMarket.CmpTotalPreorder | crates/esi/src/market.rs:96-108 | The ordering is reflexive, antisymmetric by reversal, and transitive |
| EsiMarket.NewBook | crates/esi/src/market.rs:148-154 | A new book has the given item and no orders |
| EsiMarket.Insert | crates/esi/src/market.rs:146 | Inserting keeps the book strictly descending. An order whose price is already present is dropped and the book is unchanged. Otherwise the book gains exactly that order |
| EsiMarket.InsertMembers | crates/esi/src/market.rs:250 | An insert keeps every stored order and adds at most the new one |
| EsiMarket.InsertPrices | crates/esi/src/market.rs:250 | After an insert the book's prices are the old ones plus the new order's |
| EsiMarket.OnePerPrice | crates/esi/src/market.rs:104-108 | A book holds at most one order per price |
| EsiMarket.GroupStep | crates/esi/src/market.rs:241-252 | One step gives the raw order's type a book and inserts the order when it converts. Other books are unchanged, and a failed conversion changes nothing |
| EsiMarket.Group | crates/esi/src/market.rs:241-253 | Every book is filed under its own item and is strictly descending |
| EsiMarket.GroupKeys | crates/esi/src/market.rs:241-246 | Exactly the raw orders' type ids get books, even types none of whose orders converts |
| EsiMarket.GroupProvenance | crates/esi/src/market.rs:248-252 | A book only holds conversions of raw orders of its own type |
| EsiMarket.GroupCoverage | crates/esi/src/market.rs:248-252 | Every converted order's price is present in its type's book |
| EsiMarket.NumPages | crates/esi/src/market.rs:185-191 | The page count is 1 when `x-pages` is absent, the parsed value when it is a `usize`, and a panic otherwise |
| EsiMarket.DateHeader | crates/esi/src/market.rs:192-205 | A missing date header panics with its `expect` message, a malformed one is an error, and otherwise the parsed date is returned |
| EsiMarket.FetchRegion | crates/esi/src/market.rs:177-256 | An error on page one is returned, and a panic unwinds through. The headers are then read in order: a bad `x-pages` panics, and each date header panics when missing and fails when malformed. An undecodable body is an error. Once page one is usable, exactly pages 2..=n are requested. The fetch then succeeds iff every page loads; otherwise it fails with the join error. On success both dates come from page one, and the books are the grouping of all pages' raw orders, keyed by exactly those orders' type ids |
| Universe.GetRegion | crates/universe/src/lib.rs:43-66 | A hit returns without a request. A miss is stored under the requested id, and a failure stores nothing |
| Universe.GetSystem | crates/universe/src/lib.rs:133-156 | A hit returns without a request. A miss is stored under the answer's own `system_id`, which keeps the cache self-keyed |
| Universe.GetType | crates/universe/src/lib.rs:299-324 | A hit returns without a request. A miss is stored under the answer's own `type_id`, which keeps the cache self-keyed |
| Universe.SystemRefetchedOnMismatch | crates/universe/src/lib.rs:146-156 | A system answered under another id leaves the requested id a miss, so the next lookup requests it again |
| Universe.RegionCachedUnderRequest | crates/universe/src/lib.rs:56-66 | A region asked for once is a hit the next time, whatever id the server put in it |
| Universe.FailureText | crates/universe/src/lib.rs:226-233 | An out-of-range id reads "Not a Station" |
| Universe.ErrorStatus | crates/universe/src/lib.rs:257 | `error_for_status` refuses exactly the 4xx and 5xx status classes |
| Universe.GetStation | crates/universe/src/lib.rs:236-276 | A hit returns the stored station with no range check and no request. A miss outside 60,000,000..=64,000,000 fails with "Not a Station" and no request. A transport failure or a 4xx/5xx status fails, and a body that does not decode panics; on these paths, as on a hit or a refused id, no cache changes. A decoded answer is found iff its system loads, and a system failure is returned as that failure. A found station carries the answer's id and name and the system from `get_system`, and is cached under its own id |
| Universe.StationOutsideRangeServed | crates/universe/src/lib.rs:243-270 | A station the server filed under an out-of-range id is afterwards served for that id without a request |
| Universe.StationTwice | crates/universe/src/lib.rs:236-272 | A station answered under the requested id is a hit the next time |
| Universe.FetchAllRegions | crates/universe/src/lib.rs:56-108 | A failed listing is an error. A failed region panics with "Error in one of the spawned tasks". On success the map is keyed by `region_id`, each value is some listed id's fetched region, every listed id is cached holding exactly that id's fetched region, and any other changed cache entry is such a region too |
| Universe.FetchAllSystems | crates/universe/src/lib.rs:146-199 | Like regions, but keyed by `system_id`. Each value is some listed id's fetched system, and on success every result key is also a cache key. Each fetched system's `system_id` is cached holding a fetched system with that id, and any other changed cache entry is such a system too |
| Market.NewWithOrders | crates/market/src/lib.rs:112-124 | The region, orders, cache reset time and fetch time are stored as given |
| Market.New | crates/market/src/lib.rs:125-127 | Equals `new_with_orders` with an empty order list |
| Market.NewThenOrders | crates/market/src/lib.rs:112-127 | A new region with orders filled in is the region built with them |
| Market.FromApiResponse | crates/market/src/lib.rs:73-87 | A bad RFC 3339 date fails before any station lookup. Otherwise the order succeeds iff the station lookup does and panics iff it panics. The location is the looked-up station, and id, buy flag, volumes and range are copied |
| Market.ConversionIgnores | crates/market/src/lib.rs:59-87 | Price, type, system and duration play no part in a conversion |
| Market.ConvertAll | crates/market/src/lib.rs:209-239 | A single raw order yields its order when the conversion is `Ok`, nothing on `Err`, and no batch on a panic. There are at most as many orders as raw orders, each copied from one of them. The station cache only grows and stays self-keyed, every order's station is in it, and regions and types are untouched |
| Market.ConvertAllAppend | crates/market/src/lib.rs:209-239 | Converting two runs in one batch is converting the first and then the second against the caches it left. The orders are the two runs' orders concatenated, so every `Ok` conversion is kept in raw order. A panic in the second run panics the batch |
| Market.ConvertAllStops | crates/market/src/lib.rs:235-237 | A panic in the first run ends the batch, and later raw orders are never converted |
| Market.ConvertAllIsFold | crates/market/src/lib.rs:219-237 | The conversion loop is the generic batch fold over `from_api_response` |
| Market.UndatedOrdersDropped | crates/market/src/lib.rs:73-74 | Raw orders whose dates do not parse all vanish without touching the caches |
| Market.Required | crates/market/src/lib.rs:151-175 | A missing header panics with its "retrieve" message, and a malformed one panics with its "parse" message |
| Market.PageCount | crates/market/src/lib.rs:151-157 | A missing `x-pages` panics with "Failed to retrieve X-Pages header on region market orders". A value that is not a `u32` panics with "X-Pages header invalid file format". Otherwise the parsed value is the page count |
| Market.FetchOrders | crates/market/src/lib.rs:147-242 | An error on page one is returned. `x-pages`, `last-modified` and `expires` are read in that order, each panicking with its own message when missing or malformed. An undecodable body is an error, and `pages + 1` overflowing panics in a debug build. Once page one is ready, exactly pages 2..pages+1 are requested. A failed page panics the join. Otherwise the orders are converted: a panicked conversion panics, and success returns `new_with_orders(region, orders, expires, last-modified)` with the caches the conversion left |
| Market.FetchOrdersPages | crates/market/src/lib.rs:188 | Extra pages are requested only when `pages + 1` fits a `u32`, and they are exactly 2..pages+1 |
| Market.FetchOrdersProvenance | crates/market/src/lib.rs:204-241 | A fetched region holds no more orders than were loaded, each copied from one loaded raw order |
| Market.PageCountOverflow | crates/market/src/lib.rs:188 | An `x-pages` of 2^32-1 overflows `pages + 1`. A debug build panics, and a release build requests no extra page |

## Left out

- Concurrency.
  - The `Semaphore` connection pool is left out.
  - Locks are left out, including the budget lock held during the gate's sleep.
  - The completion order of spawned tasks is fixed to input order. A panicking task ends the fold, although the other tasks of the source keep running and keep writing to the caches.
- I/O plumbing.
  - The HTTP client and its cache middleware configuration are left out.
  - So are the User-Agent header text, `load_auth_tok` (an OAuth exchange over the network), and printing.
  - URL building in the `esi!` and `esi_url!` macros is left out.
- Oracles.
  - Base64 and JSON decoding, RFC 3339 and RFC 2822 date parsing, and "now" are function parameters.
  - Each request's answer is a function parameter too.
  - The `StationID` and `SystemID` types are not part of this model. `StationID::try_from` is an oracle, and a system id is a plain `u32`.
- Floating point.
  - A price is an integer standing in for its rank under `f64::total_cmp`.
  - `Point` and `security_status` are not carried.
- Simplified errors and panics.
  - A header value that is not visible ASCII makes `to_str` fail. That failure is folded into the parse failure that follows it.
  - Error and panic messages of library code are representative constants. An `expect` panic's appended error detail is not modelled.
- MarketWire.ParseRange: models `visit_str` only. The source's `deserialize_any` also receives JSON numbers, which reach other visitor methods that are not written, so they fail.
- EsiMarket.Convert: `issued + TimeDelta::days(duration)` panics in chrono beyond its year range. The model's unbounded instants do not model that panic.
- EsiMarket.FetchRegion: the governor updates made by the `esi_get` calls for each page are not threaded through; the pages' answers are oracles. A page's answer is a `Result`, so a panic inside a page's `esi_get` is merged with a failed page. Both panic the page's task, and the join then fails the same way.
- MarketWire.LoadPages: the extra pages' blocks of orders are appended in page order. In the source each page's task appends its whole page under the mutex, so the blocks stay whole, but their order is whichever order the tasks take the lock. Which of two equal-price orders a book keeps can depend on that order, and the model covers only the page-order schedule.
- EsiUniverse.FetchAll: the governor updates made by the `esi_get` calls of the listing and of each region request are not threaded through. The answers are oracles, as they are for the pages of `fetch_region`.
- EsiUniverse.Download: a region request's answer is a `Result`, so a panic inside its `esi_get` is merged into a failed request. Examples are a 4xx without budget headers, a debug-build underflow, and `unwrap_err` on an unexpected status. Within `fetch_all` both end the spawned task, and the caller panics with the join message. A direct `get_region` caller would instead see the panic, which this model does not represent. The listing request of `fetch_all` and page one of `fetch_region` are `Outcome`s and do carry such a panic through.
- Universe.FailureText: the text of a status or transport error is a placeholder. Only "Not a Station" is the source's own text.
- crates/data_fetcher and crates/backend are servers and refresh loops around this core. The commented-out code in crates/esi/src/universe.rs is dead.
