/** Wire types shared by the two market crates: the order `range` field
    (`MarketOrderRange`, deserialized by identical visitors in
    crates/esi/src/market.rs and crates/market/src/lib.rs) and the raw order
    record of the market endpoint (`MarketAPIResponseOrder`). */
module MarketWire {
  import opened Wrappers
  import opened Numbers
  import Decimal

  datatype MarketOrderRange = System(jumps: U32) | Station | Region

  /** `visit_str` of `MarketOrderRangeVisitor`. */
  function ParseRange(s: string): (r: Result<MarketOrderRange, string>)
    ensures r == Success(Station) <==> s == "station"
    ensures r == Success(Region) <==> s == "region"
    ensures forall n: U32 :: r == Success(System(n)) <==> (s == "solarsystem" && n == 1) || Decimal.ParseU32(s) == Some(n)
    ensures r.Failure? <==> s != "station" && s != "region" && s != "solarsystem" && Decimal.ParseU32(s).None?
    ensures r.Failure? ==> r.error == "unexpected string: " + s
  {
    match s
    case "station" => Success(Station)
    case "region" => Success(Region)
    case "solarsystem" => Success(System(1))
    case _ =>
      match Decimal.ParseU32(s)
      case Some(n) => Success(System(n))
      case None => Failure("unexpected string: " + s)
  }

  /** The text ESI sends for a range; a system range is sent as its jump count. */
  function FormatRange(r: MarketOrderRange): string
  {
    match r
    case Station => "station"
    case Region => "region"
    case System(n) => Decimal.Show(n)
  }

  /** Formatting then parsing gives the range back. */
  lemma ParseFormat(r: MarketOrderRange)
    ensures ParseRange(FormatRange(r)) == Success(r)
  {
    if r.System? {
      Decimal.ParseU32Show(r.jumps);
      var s := Decimal.Show(r.jumps);
      assert s != "station" && s != "region" && s != "solarsystem" by {
        assert Decimal.IsDigit(s[0]);
      }
    }
  }

  /** The parser is not injective: "solarsystem", "1", "+1" and "01" all mean
      a one-jump system range. */
  lemma ParseNotInjective()
    ensures ParseRange("solarsystem") == ParseRange("1") == Success(System(1))
    ensures ParseRange("+1") == ParseRange("01") == Success(System(1))
  {
    Decimal.ParseU32Show(1);
    Decimal.OtherSpellings(1, U32_LIMIT);
    assert Decimal.Show(1) == "1";
    assert "+" + "1" == "+1" && "0" + "1" == "01";
  }

  /** An instant on the UTC time line, in nanoseconds from the Unix epoch. */
  type Instant = int

  const NANOS_PER_DAY: int := 86_400_000_000_000

  /** `instant + TimeDelta::days(d)`. */
  function AddDays(t: Instant, d: nat): (r: Instant)
    ensures r >= t && (d > 0 ==> r > t)
    ensures r - t == d * NANOS_PER_DAY
  {
    t + d * NANOS_PER_DAY
  }

  /** Stand-in for an `f64` price: its position in the total order of
      `f64::total_cmp`, the only way the source compares prices. */
  type Price = int

  /** `MarketAPIResponseOrder`, with `range` already deserialized. */
  datatype RawOrder = RawOrder(
    duration: U32,
    isBuyOrder: bool,
    issued: string,
    locationId: U64,
    minVolume: U32,
    orderId: U64,
    price: Price,
    range: MarketOrderRange,
    systemId: U32,
    typeId: U32,
    volumeRemain: U32,
    volumeTotal: U32)

  /** `Vec::from_iter(start..end)` for page numbers: `[start, end)`. */
  function PageRange(start: nat, end: nat): (pages: seq<nat>)
    ensures |pages| == if end <= start then 0 else end - start
    ensures forall i | 0 <= i < |pages| :: pages[i] == start + i
    decreases end - start
  {
    if end <= start then [] else [start] + PageRange(start + 1, end)
  }

  /** Header names of the market endpoint, as `HeaderMap` stores them. */
  const X_PAGES := "x-pages"
  const LAST_MODIFIED := "last-modified"
  const EXPIRES := "expires"

  /** A response: its headers (lower-case names) and its body decoded as a
      list of raw orders, or `None` when the body is not such a list. */
  datatype Page = Page(headers: map<string, string>, body: Option<seq<RawOrder>>)

  /** The raw orders of the extra pages, in page order, or `None` when the
      request or the body of any page fails (which panics that page's task). */
  function LoadPages(pages: seq<nat>, fetch: nat -> Result<Page, string>): (r: Option<seq<RawOrder>>)
    ensures r.Some? <==> forall i | 0 <= i < |pages| :: fetch(pages[i]).Success? && fetch(pages[i]).value.body.Some?
    ensures r.Some? ==> forall i, x | 0 <= i < |pages| && x in fetch(pages[i]).value.body.value :: x in r.value
    ensures r.Some? ==> forall x | x in r.value :: exists i | 0 <= i < |pages| :: x in fetch(pages[i]).value.body.value
    decreases |pages|
  {
    if |pages| == 0 then Some([])
    else
      match fetch(pages[0])
      case Failure(_) => None
      case Success(page) =>
        match page.body
        case None => None
        case Some(orders) =>
          match LoadPages(pages[1..], fetch)
          case None => None
          case Some(rest) =>
            assert forall i | 0 < i < |pages| :: pages[i] == pages[1..][i - 1];
            Some(orders + rest)
  }

  /** One page contributes its own orders, exactly as its body lists them. */
  lemma LoadOnePage(p: nat, fetch: nat -> Result<Page, string>)
    ensures fetch(p).Success? && fetch(p).value.body.Some? ==> LoadPages([p], fetch) == Some(fetch(p).value.body.value)
    ensures !(fetch(p).Success? && fetch(p).value.body.Some?) ==> LoadPages([p], fetch) == None
  {
    assert [p][1..] == [];
    assert LoadPages([], fetch) == Some([]);
    if fetch(p).Success? && fetch(p).value.body.Some? {
      assert fetch(p).value.body.value + [] == fetch(p).value.body.value;
    }
  }

  /** Loading two runs of pages is loading each and concatenating, so every
      page's orders appear once, in page order. */
  lemma {:induction false} LoadPagesAppend(a: seq<nat>, b: seq<nat>, fetch: nat -> Result<Page, string>)
    ensures LoadPages(a + b, fetch).Some? <==> LoadPages(a, fetch).Some? && LoadPages(b, fetch).Some?
    ensures LoadPages(a + b, fetch).Some? ==> LoadPages(a + b, fetch).value == LoadPages(a, fetch).value + LoadPages(b, fetch).value
    decreases |a|
  {
    if |a| == 0 {
      assert a + b == b;
    } else {
      assert (a + b)[0] == a[0];
      assert (a + b)[1..] == a[1..] + b;
      LoadPagesAppend(a[1..], b, fetch);
      if LoadPages(a + b, fetch).Some? {
        var orders := fetch(a[0]).value.body.value;
        assert LoadPages(a + b, fetch).value == orders + LoadPages(a[1..] + b, fetch).value;
        assert LoadPages(a, fetch).value == orders + LoadPages(a[1..], fetch).value;
      }
    }
  }

}
