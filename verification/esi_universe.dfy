/** Region ids and the region cache of the ESI crate (crates/esi/src/universe.rs).

    A `RegionID` is a `u32` that `try_from` only admits in the half-open range
    10,000,000 to 20,000,000; an id outside it is reported as an
    `InvalidIDError` naming the value and the range. `Regions` caches regions
    by the id they were asked for and fetches on a miss. */
module EsiUniverse {
  import opened Wrappers
  import opened Numbers
  import Decimal
  import Cache

  const REGION_START: U32 := 10_000_000
  const REGION_END: U32 := 20_000_000

  /** Rust's `Range<u32>`: `start` included, `end` excluded. */
  datatype IdRange = IdRange(start: U32, end: U32)

  const REGION_RANGE := IdRange(REGION_START, REGION_END)

  datatype InvalidIdError = InvalidIdError(value: U32, acceptable: IdRange)

  const VALUE_WORD := "Value "
  const OUTSIDE := " is outside the valid range ["
  const COMMA := ", "
  const CLOSE := "]"

  /** The `Display` text of an `InvalidIDError`. */
  function Message(e: InvalidIdError): (m: string)
    ensures VALUE_WORD <= m && m[|m| - 1] == ']'
  {
    VALUE_WORD + (Decimal.Show(e.value) + (OUTSIDE + RangeText(e.acceptable)))
  }

  /** The `[start, end]` part of the message, without its opening bracket. */
  function RangeText(r: IdRange): string {
    Decimal.Show(r.start) + (COMMA + (Decimal.Show(r.end) + CLOSE))
  }

  /** `lit` removed from the front of `s`, if `s` starts with it. */
  function Strip(s: string, lit: string): (r: Option<string>)
    ensures r.Some? ==> s == lit + r.value
  {
    if |lit| <= |s| && s[..|lit|] == lit then Some(s[|lit|..]) else None
  }

  lemma StripPrefix(lit: string, t: string)
    ensures Strip(lit + t, lit) == Some(t)
  {
    assert (lit + t)[..|lit|] == lit;
    assert (lit + t)[|lit|..] == t;
  }

  /** A `u32` at the front of `s` written as `Display` writes it (no sign, no
      leading zero), and the text after it. */
  function ReadNumber(s: string): (r: Option<(U32, string)>)
    ensures r.Some? ==> s == Decimal.Show(r.value.0) + r.value.1
  {
    var k := Decimal.DigitRun(s);
    if k == 0 || (k > 1 && s[0] == '0') then None
    else
      var v := Decimal.Value(s[..k]);
      if v < U32_LIMIT then
        Decimal.CanonicalIsShow(s[..k]);
        assert s == s[..k] + s[k..];
        Some((v, s[k..]))
      else None
  }

  lemma ReadShow(n: U32, t: string)
    requires |t| == 0 || !Decimal.IsDigit(t[0])
    ensures ReadNumber(Decimal.Show(n) + t) == Some((n, t))
  {
    var d := Decimal.Show(n);
    Decimal.DigitRunOfShow(d, t);
    assert (d + t)[..|d|] == d;
    assert (d + t)[|d|..] == t;
  }

  /** Reads an `InvalidIDError` back from its `Display` text. */
  function ParseMessage(m: string): (r: Option<InvalidIdError>)
    ensures r.Some? ==> m == Message(r.value)
  {
    match Strip(m, VALUE_WORD)
    case None => None
    case Some(r1) =>
      match ReadNumber(r1)
      case None => None
      case Some((v, r2)) =>
        match Strip(r2, OUTSIDE)
        case None => None
        case Some(r3) =>
          match ParseRange(r3)
          case None => None
          case Some(range) => Some(InvalidIdError(v, range))
  }

  /** Reads `start, end]` back. */
  function ParseRange(s: string): (r: Option<IdRange>)
    ensures r.Some? ==> s == RangeText(r.value)
  {
    match ReadNumber(s)
    case None => None
    case Some((lo, r1)) =>
      match Strip(r1, COMMA)
      case None => None
      case Some(r2) =>
        match ReadNumber(r2)
        case None => None
        case Some((hi, r3)) =>
          if r3 == CLOSE then Some(IdRange(lo, hi)) else None
  }

  lemma RangeRoundTrip(r: IdRange)
    ensures ParseRange(RangeText(r)) == Some(r)
  {
    var tail := Decimal.Show(r.end) + CLOSE;
    ReadShow(r.start, COMMA + tail);
    StripPrefix(COMMA, tail);
    ReadShow(r.end, CLOSE);
  }

  /** The message names the offending value and both ends of the range, each
      in plain decimal, so the error can be read back from its text. */
  lemma MessageRoundTrip(e: InvalidIdError)
    ensures ParseMessage(Message(e)) == Some(e)
  {
    var tail := RangeText(e.acceptable);
    StripPrefix(VALUE_WORD, Decimal.Show(e.value) + (OUTSIDE + tail));
    ReadShow(e.value, OUTSIDE + tail);
    StripPrefix(OUTSIDE, tail);
    RangeRoundTrip(e.acceptable);
  }

  /** The reader accepts exactly the printed texts: a text reads back as an
      error iff it is that error's message, so no other spelling of the
      numbers (a leading zero, a '+') is a message. */
  lemma MessageExact(m: string, e: InvalidIdError)
    ensures ParseMessage(m) == Some(e) <==> m == Message(e)
  {
    if m == Message(e) {
      MessageRoundTrip(e);
    }
  }

  /** Different errors never print the same text. */
  lemma MessageInjective(e1: InvalidIdError, e2: InvalidIdError)
    requires Message(e1) == Message(e2)
    ensures e1 == e2
  {
    MessageRoundTrip(e1);
    MessageRoundTrip(e2);
  }

  datatype RegionId = RegionId(value: U32)

  predicate InRegionRange(v: int) {
    REGION_START <= v < REGION_END
  }

  /** `RegionID::try_from`. */
  function TryFrom(v: U32): (r: Result<RegionId, InvalidIdError>)
    ensures r.Success? <==> 10_000_000 <= v < 20_000_000
    ensures r.Success? ==> Get(r.value) == v
    ensures r.Failure? ==> r.error.value == v && r.error.acceptable == IdRange(10_000_000, 20_000_000)
  {
    if REGION_START <= v < REGION_END then Success(RegionId(v))
    else Failure(InvalidIdError(v, REGION_RANGE))
  }

  /** `RegionID::get`: the wrapped value, which determines the id. */
  function Get(id: RegionId): (v: U32)
    ensures RegionId(v) == id
  {
    id.value
  }

  /** An id holding a region-range value survives `get` then `try_from`. */
  lemma TryFromGet(id: RegionId)
    requires InRegionRange(Get(id))
    ensures TryFrom(Get(id)) == Success(id)
  {
  }

  /** `RegionID::set`: replaces the value with no range check. */
  function Set(id: RegionId, v: U32): (r: RegionId)
    ensures Get(r) == v
  {
    RegionId(v)
  }

  /** Because `set` skips the check, a `RegionID` can hold a value that
      `try_from` refuses. */
  lemma SetEscapesRange(id: RegionId)
    ensures Get(Set(id, 0)) == 0 && TryFrom(Get(Set(id, 0))).Failure?
  {
  }

  /** `Deserialize for RegionID`: a `u32` is read, then `try_from` decides, and
      a refusal becomes a custom serde error holding the `Display` text. */
  function Deserialize(v: U32): (r: Result<RegionId, string>)
    ensures r.Success? <==> TryFrom(v).Success?
    ensures r.Success? ==> Get(r.value) == v
    ensures r.Failure? ==> ParseMessage(r.error) == Some(InvalidIdError(v, REGION_RANGE))
  {
    MessageRoundTrip(InvalidIdError(v, REGION_RANGE));
    TryFrom(v).MapFailure(e => Message(e))
  }

  /** The `try_from` / `filter` / `unwrap` chain of `fetch_all`: the listed
      values that are region ids, in their listed order. */
  function ValidIds(vs: seq<U32>): (ids: seq<RegionId>)
    ensures |ids| <= |vs|
    ensures forall j | 0 <= j < |ids| :: InRegionRange(ids[j].value) && ids[j].value in vs
    ensures forall v | v in vs && InRegionRange(v) :: RegionId(v) in ids
    decreases |vs|
  {
    if |vs| == 0 then []
    else
      var head := match TryFrom(vs[0]) case Success(id) => [id] case Failure(_) => [];
      var ids := head + ValidIds(vs[1..]);
      assert forall v | v in vs :: v == vs[0] || v in vs[1..];
      ids
  }

  /** Filtering distributes over concatenation: it keeps the listed order. */
  lemma {:induction false} ValidIdsAppend(a: seq<U32>, b: seq<U32>)
    ensures ValidIds(a + b) == ValidIds(a) + ValidIds(b)
    decreases |a|
  {
    if |a| == 0 {
      assert a + b == b;
    } else {
      assert (a + b)[1..] == a[1..] + b;
      ValidIdsAppend(a[1..], b);
    }
  }

  /** A region as `fetch_region` deserializes it; its id went through `Deserialize`. */
  datatype Region = Region(id: RegionId, name: string)

  /** The JSON body of a region: `region_id` and `name`. */
  datatype RegionBody = RegionBody(regionId: U32, name: string)

  /** `json::<Region>()` on a body: fails when the body's id is not a region id. */
  function DecodeRegion(b: RegionBody): (r: Result<Region, string>)
    ensures r.Success? <==> InRegionRange(b.regionId)
    ensures r.Success? ==> r.value == Region(RegionId(b.regionId), b.name)
  {
    match Deserialize(b.regionId)
    case Success(id) => Success(Region(id, b.name))
    case Failure(e) => Failure(e)
  }

  /** The request of `fetch_region`: `esi_get` (its failures are the oracle's)
      followed by decoding. */
  function Download(request: RegionId -> Result<RegionBody, string>, id: RegionId): (r: Result<Region, string>)
    ensures request(id).Failure? ==> r == Failure(request(id).error)
    ensures r.Success? <==> request(id).Success? && InRegionRange(request(id).value.regionId)
    ensures r.Success? ==> r.value == Region(RegionId(request(id).value.regionId), request(id).value.name)
    ensures r.Success? ==> InRegionRange(r.value.id.value)
  {
    match request(id)
    case Failure(e) => Failure(e)
    case Success(b) => DecodeRegion(b)
  }

  predicate ValidRegions(cache: map<RegionId, Region>) {
    forall k | k in cache :: InRegionRange(cache[k].id.value)
  }

  /** `Regions::get_region` with `fetch_region` on a miss: a hit returns the
      cached region with no request; a miss requests it and caches a success
      under the id that was asked for. */
  function GetRegion(cache: map<RegionId, Region>, id: RegionId, request: RegionId -> Result<RegionBody, string>): (l: Cache.Lookup<RegionId, Region>)
    ensures id in cache ==> !l.fetched && l.result == Success(cache[id]) && l.cache == cache
    ensures id !in cache ==> l.fetched && l.result == Download(request, id)
    ensures id !in cache && l.result.Success? ==> l.cache == cache[id := l.result.value]
    ensures l.result.Failure? ==> l.cache == cache
    ensures ValidRegions(cache) ==> ValidRegions(l.cache)
  {
    Cache.Get(cache, id, k => Download(request, k), (k, _) => k)
  }

  /** Every cached region is what a download of its key yields. */
  predicate Faithful(cache: map<RegionId, Region>, request: RegionId -> Result<RegionBody, string>) {
    forall k | k in cache :: Download(request, k) == Success(cache[k])
  }

  /** The regions a `Gather` result holds beyond `found`, and where each
      came from: the downloads of `ids`. */
  predicate GatheredFrom(ids: seq<RegionId>, request: RegionId -> Result<RegionBody, string>,
                         found: map<RegionId, Region>, m: map<RegionId, Region>)
  {
    && m.Keys == found.Keys + (set i | i in ids && Download(request, i).Success? :: Download(request, i).value.id)
    && forall k | k in m ::
         (k in found && m[k] == found[k]) || exists i | i in ids :: Download(request, i) == Success(m[k])
  }

  /** One step of `Gather`: what the rest of the ids gathered on top of the
      first region was gathered by the whole list. */
  lemma GatherStep(ids: seq<RegionId>, request: RegionId -> Result<RegionBody, string>,
                   found: map<RegionId, Region>, info: Region, m: map<RegionId, Region>)
    requires |ids| > 0 && Download(request, ids[0]) == Success(info)
    requires forall i | i in ids[1..] :: Download(request, i).Success?
    requires GatheredFrom(ids[1..], request, found[info.id := info], m)
    ensures GatheredFrom(ids, request, found, m)
  {
    assert forall i | i in ids :: i == ids[0] || i in ids[1..];
    forall k | k in m
      ensures (k in found && m[k] == found[k]) || exists i | i in ids :: Download(request, i) == Success(m[k])
    {
      if k == info.id && m[k] == info {
        assert Download(request, ids[0]) == Success(m[k]);
      } else if !(k in found && m[k] == found[k]) {
        var i :| i in ids[1..] && Download(request, i) == Success(m[k]);
        assert i in ids;
      }
    }
  }

  /** The spawned `get_region` calls of `fetch_all`, one id after another;
      each answer is collected under its own `id` field, and the first failure
      ends the walk. */
  function Gather(cache: map<RegionId, Region>, ids: seq<RegionId>, request: RegionId -> Result<RegionBody, string>,
                  found: map<RegionId, Region>): (g: Cache.Gathered<RegionId, Region>)
    requires Faithful(cache, request)
    requires forall k | k in found :: found[k].id == k
    ensures g.found.Some? <==> forall i | i in ids :: Download(request, i).Success?
    ensures g.found.Some? ==> forall k | k in g.found.value :: g.found.value[k].id == k
    ensures g.found.Some? ==> GatheredFrom(ids, request, found, g.found.value)
    decreases |ids|
  {
    if |ids| == 0 then Cache.Gathered(cache, Some(found))
    else
      var l := GetRegion(cache, ids[0], request);
      match l.result
      case Failure(_) => Cache.Gathered(l.cache, None)
      case Success(info) =>
        assert Download(request, ids[0]) == Success(info);
        assert forall i | i in ids :: i == ids[0] || i in ids[1..];
        var g := Gather(l.cache, ids[1..], request, found[info.id := info]);
        if g.found.Some? then GatherStep(ids, request, found, info, g.found.value); g else g
  }

  const TASK_FAILED := "Error in one of the spawned tasks"

  /** `Regions::fetch_all`: list the ids (a failed listing is returned as an
      error), keep the valid ones, load each through the cache, and key the
      result by each region's own id. A failed load panics its task, and the
      join then panics the caller. The listing is `esi_get` and decoding: an
      error is returned, and a panic inside `esi_get` unwinds through. */
  function FetchAll(listing: Outcome<seq<U32>>, request: RegionId -> Result<RegionBody, string>): (r: Outcome<map<RegionId, Region>>)
    ensures listing.Err? ==> r == Err(listing.error)
    ensures listing.Panic? ==> r == Panic(listing.message)
    ensures listing.Ok? ==>
              (r.Ok? <==> forall id | id in ValidIds(listing.value) :: Download(request, id).Success?)
    ensures listing.Ok? && !r.Ok? ==> r == Panic(TASK_FAILED)
    ensures r.Ok? ==> forall k | k in r.value :: r.value[k].id == k && InRegionRange(k.value)
    ensures r.Ok? ==> r.value.Keys == set id | id in ValidIds(listing.value) :: Download(request, id).value.id
    ensures r.Ok? ==> forall k | k in r.value :: exists id | id in ValidIds(listing.value) :: Download(request, id) == Success(r.value[k])
  {
    match listing
    case Err(e) => Err(e)
    case Panic(m) => Panic(m)
    case Ok(vs) =>
      var g := Gather(map[], ValidIds(vs), request, map[]);
      match g.found
      case None => Panic(TASK_FAILED)
      case Some(m) => Ok(m)
  }
}
