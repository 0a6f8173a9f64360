/** The static-data caches of the universe crate (crates/universe/src/lib.rs):
    regions, solar systems, stations and item types, each looked up in a
    process-wide map first and requested from ESI on a miss.

    The four maps are one state value threaded through the lookups; every
    request is an oracle of `Api`. Floating-point fields (a system's position
    and security status) are not carried. */
module Universe {
  import opened Wrappers
  import opened Numbers
  import Cache

  datatype Region = Region(regionId: U32, name: string)

  datatype System = System(systemId: U32, constellationId: U32, name: string)

  datatype Station = Station(id: U64, system: System, name: string)

  datatype Item = Item(typeId: U32, groupId: U32, iconId: U32, marketGroupId: U32, name: string, description: string)

  /** `StationApiResponse`: what the station endpoint sends. */
  datatype StationBody = StationBody(stationId: U64, systemId: U32, name: string)

  /** One station request: no response at all, or a status with a body that
      decodes as a `StationApiResponse` or does not. */
  datatype StationReply =
    | StationTransportFailure(reason: string)
    | StationResponse(status: StatusCode, body: Option<StationBody>)

  /** The requests the crate makes. Each region, system and type request
      already includes decoding its body; a failure of either is an error. */
  datatype Api = Api(
    regionIds: Result<seq<U32>, string>,
    systemIds: Result<seq<U32>, string>,
    region: U32 -> Result<Region, string>,
    system: U32 -> Result<System, string>,
    station: U64 -> StationReply,
    item: U32 -> Result<Item, string>)

  /** The `REGIONS`, `SYSTEMS`, `STATIONS` and `TYPES` statics. */
  datatype Caches = Caches(
    regions: map<U32, Region>,
    systems: map<U32, System>,
    stations: map<U64, Station>,
    types: map<U32, Item>)

  const EMPTY := Caches(map[], map[], map[], map[])

  /** The caches whose entries are stored under the entry's own id. Regions
      are stored under the id asked for instead, so they are not included. */
  predicate SelfKeyed(c: Caches) {
    && (forall k | k in c.systems :: c.systems[k].systemId == k)
    && (forall k | k in c.stations :: c.stations[k].id == k)
    && (forall k | k in c.types :: c.types[k].typeId == k)
  }

  /** The result of a lookup against the caches. */
  datatype Loaded<T> = Loaded(caches: Caches, result: Outcome<T>)

  /** `Region::get_region`: a miss is stored under the id asked for. */
  function GetRegion(c: Caches, id: U32, api: Api): (l: Cache.Lookup<U32, Region>)
    ensures id in c.regions ==> !l.fetched && l.cache == c.regions && l.result == Success(c.regions[id])
    ensures id !in c.regions ==> l.fetched && l.result == api.region(id)
    ensures id !in c.regions && l.result.Success? ==> l.cache == c.regions[id := l.result.value]
    ensures l.result.Failure? ==> l.cache == c.regions
  {
    Cache.Get(c.regions, id, api.region, (k, _) => k)
  }

  /** `System::get_system`: a miss is stored under the system's own id. */
  function GetSystem(c: Caches, id: U32, api: Api): (l: Cache.Lookup<U32, System>)
    ensures id in c.systems ==> !l.fetched && l.cache == c.systems && l.result == Success(c.systems[id])
    ensures id !in c.systems ==> l.fetched && l.result == api.system(id)
    ensures id !in c.systems && l.result.Success? ==> l.cache == c.systems[l.result.value.systemId := l.result.value]
    ensures l.result.Failure? ==> l.cache == c.systems
    ensures (forall k | k in c.systems :: c.systems[k].systemId == k) ==> forall k | k in l.cache :: l.cache[k].systemId == k
  {
    Cache.Get(c.systems, id, api.system, (_, s: System) => s.systemId)
  }

  /** `Item::get_type`: a miss is stored under the item's own type id. */
  function GetType(c: Caches, id: U32, api: Api): (l: Cache.Lookup<U32, Item>)
    ensures id in c.types ==> !l.fetched && l.cache == c.types && l.result == Success(c.types[id])
    ensures id !in c.types ==> l.fetched && l.result == api.item(id)
    ensures id !in c.types && l.result.Success? ==> l.cache == c.types[l.result.value.typeId := l.result.value]
    ensures l.result.Failure? ==> l.cache == c.types
    ensures (forall k | k in c.types :: c.types[k].typeId == k) ==> forall k | k in l.cache :: l.cache[k].typeId == k
  {
    Cache.Get(c.types, id, api.item, (_, t: Item) => t.typeId)
  }

  /** A system fetched under one id but answering with another is stored
      under the other: the id asked for stays a miss and is requested again. */
  lemma SystemRefetchedOnMismatch(c: Caches, id: U32, api: Api)
    requires id !in c.systems
    requires api.system(id).Success? && api.system(id).value.systemId != id
    ensures var first := GetSystem(c, id, api);
            id !in first.cache && GetSystem(c.(systems := first.cache), id, api).fetched
  {
    Cache.MismatchedKeyRefetches(c.systems, id, api.system, (_, s: System) => s.systemId);
  }

  /** A region asked for once is answered from the cache afterwards, whatever
      id the server put in it. */
  lemma RegionCachedUnderRequest(c: Caches, id: U32, api: Api)
    requires GetRegion(c, id, api).result.Success?
    ensures var first := GetRegion(c, id, api);
            var second := GetRegion(c.(regions := first.cache), id, api);
            !second.fetched && second.result == first.result
  {
    Cache.GetTwice(c.regions, id, api.region, (k, _) => k);
  }

  const STATION_MIN: U64 := 60_000_000
  const STATION_MAX: U64 := 64_000_000

  /** The error of a station lookup: the id is outside the station range,
      the request failed, the server answered with a client or server error
      status, or the station's system could not be loaded. */
  datatype StationFailure =
    | NotAStation
    | RequestFailed(reason: string)
    | StatusFailed(status: StatusCode)
    | SystemFailed(reason: string)

  const NOT_A_STATION := "Not a Station"
  const UNWRAP_ON_ERR := "called `Result::unwrap()` on an `Err` value"

  /** The text of a failure; a range miss reads as `StationError` prints it. */
  function FailureText(f: StationFailure): (t: string)
    ensures f.NotAStation? ==> t == NOT_A_STATION
  {
    match f
    case NotAStation => NOT_A_STATION
    case RequestFailed(reason) => reason
    case StatusFailed(_) => "HTTP status error"
    case SystemFailed(reason) => reason
  }

  /** What a station lookup did: the caches afterwards, whether the station
      endpoint was requested, and the answer. */
  datatype StationLookup = StationLookup(caches: Caches, requested: bool, result: StationAnswer)

  datatype StationAnswer = Found(station: Station) | Failed(failure: StationFailure) | Panicked(message: string)

  /** `error_for_status`: a client (4xx) or server (5xx) error status. */
  function ErrorStatus(s: StatusCode): (e: bool)
    ensures e <==> s / 100 == 4 || s / 100 == 5
  {
    400 <= s < 600
  }

  /** A station answer that gets past the status check and decodes: only such
      an answer leads on to the system cache. */
  predicate Decoded(a: StationReply) {
    a.StationResponse? && !ErrorStatus(a.status) && a.body.Some?
  }

  /** `Station::get_station` and `fetch_station`. A hit is answered without
      any check; a miss outside 60 000 000..=64 000 000 is refused without a
      request; otherwise the station is requested, its system is loaded
      through the system cache, and the station is stored under the id the
      server put in its answer. A body that does not decode panics. */
  function GetStation(c: Caches, id: U64, api: Api): (l: StationLookup)
    ensures id in c.stations ==> l == StationLookup(c, false, Found(c.stations[id]))
    ensures id !in c.stations && !(STATION_MIN <= id <= STATION_MAX) ==> l == StationLookup(c, false, Failed(NotAStation))
    ensures l.requested <==> id !in c.stations && STATION_MIN <= id <= STATION_MAX
    ensures l.result.Failed? && l.result.failure.NotAStation? ==> !l.requested
    ensures l.requested && api.station(id).StationTransportFailure? ==> l.result == Failed(RequestFailed(api.station(id).reason))
    ensures l.requested && api.station(id).StationResponse? && ErrorStatus(api.station(id).status) ==>
              l.result == Failed(StatusFailed(api.station(id).status))
    ensures l.result.Panicked? <==>
              l.requested && api.station(id).StationResponse? && !ErrorStatus(api.station(id).status) && api.station(id).body.None?
    ensures l.result.Panicked? ==> l.result.message == UNWRAP_ON_ERR
    ensures l.requested && api.station(id).StationResponse? && !ErrorStatus(api.station(id).status)
            && api.station(id).body.Some? ==>
              var sys := GetSystem(c, api.station(id).body.value.systemId, api);
              && (l.result.Found? <==> sys.result.Success?)
              && (sys.result.Failure? ==> l.result == Failed(SystemFailed(sys.result.error)) && l.caches.systems == sys.cache)
    ensures l.requested && l.result.Found? ==>
              && api.station(id).StationResponse? && api.station(id).body.Some?
              && var b := api.station(id).body.value;
                 && l.result.station.id == b.stationId && l.result.station.name == b.name
                 && GetSystem(c, b.systemId, api).result == Success(l.result.station.system)
                 && l.caches == c.(systems := GetSystem(c, b.systemId, api).cache,
                                   stations := c.stations[b.stationId := l.result.station])
    ensures !l.result.Found? ==> l.caches.stations == c.stations && l.caches.regions == c.regions && l.caches.types == c.types
    ensures !(l.requested && Decoded(api.station(id))) ==> l.caches == c
    ensures SelfKeyed(c) ==> SelfKeyed(l.caches)
    ensures c.stations.Keys <= l.caches.stations.Keys && c.systems.Keys <= l.caches.systems.Keys
    ensures SelfKeyed(c) && l.result.Found? ==> l.result.station.id in l.caches.stations
  {
    if id in c.stations then StationLookup(c, false, Found(c.stations[id]))
    else if !(STATION_MIN <= id <= STATION_MAX) then StationLookup(c, false, Failed(NotAStation))
    else
      match api.station(id)
      case StationTransportFailure(reason) => StationLookup(c, true, Failed(RequestFailed(reason)))
      case StationResponse(status, body) =>
        if ErrorStatus(status) then StationLookup(c, true, Failed(StatusFailed(status)))
        else
          match body
          case None => StationLookup(c, true, Panicked(UNWRAP_ON_ERR))
          case Some(b) =>
            var sys := GetSystem(c, b.systemId, api);
            var c' := c.(systems := sys.cache);
            match sys.result
            case Failure(e) => StationLookup(c', true, Failed(SystemFailed(e)))
            case Success(system) =>
              var station := Station(b.stationId, system, b.name);
              StationLookup(c'.(stations := c.stations[station.id := station]), true, Found(station))
  }

  /** The range check guards requests only: a station the server filed under
      an id outside the range is a hit for that id afterwards. */
  lemma StationOutsideRangeServed(c: Caches, id: U64, api: Api)
    requires GetStation(c, id, api).requested && GetStation(c, id, api).result.Found?
    requires var s := GetStation(c, id, api).result.station; !(STATION_MIN <= s.id <= STATION_MAX)
    ensures var first := GetStation(c, id, api);
            var again := GetStation(first.caches, first.result.station.id, api);
            !again.requested && again.result == first.result
  {
  }

  /** A station answered under the id asked for is a hit the next time. */
  lemma StationTwice(c: Caches, id: U64, api: Api)
    requires GetStation(c, id, api).result.Found?
    requires GetStation(c, id, api).requested ==> api.station(id).body.value.stationId == id
    ensures var first := GetStation(c, id, api);
            GetStation(first.caches, id, api) == StationLookup(first.caches, false, first.result)
  {
  }

  const TASK_FAILED := "Error in one of the spawned tasks"

  /** `Regions::fetch_all`: list the ids (a failed listing is an error), load
      each region without consulting the cache (each load still stores its
      answer under the id asked for), and key the result by each region's own
      `region_id`. A failed load panics its task, and the join panics the
      caller. */
  function FetchAllRegions(c: Caches, api: Api): (l: Loaded<map<U32, Region>>)
    ensures api.regionIds.Failure? ==> l == Loaded(c, Err(api.regionIds.error))
    ensures api.regionIds.Success? ==>
              (l.result.Ok? <==> forall id | id in api.regionIds.value :: api.region(id).Success?)
    ensures api.regionIds.Success? && !l.result.Ok? ==> l.result == Panic(TASK_FAILED)
    ensures l.result.Ok? ==> forall k | k in l.result.value :: l.result.value[k].regionId == k
    ensures l.result.Ok? ==>
              l.result.value.Keys == set id | id in api.regionIds.value :: api.region(id).value.regionId
    ensures l.result.Ok? ==> forall k | k in l.result.value :: exists id | id in api.regionIds.value :: api.region(id) == Success(l.result.value[k])
    ensures l.result.Ok? ==> forall id | id in api.regionIds.value :: id in l.caches.regions
    ensures l.result.Ok? ==> forall id | id in api.regionIds.value :: l.caches.regions[id] == api.region(id).value
    ensures api.regionIds.Success? ==>
              forall k | k in l.caches.regions ::
                (k in c.regions && l.caches.regions[k] == c.regions[k]) || (k in api.regionIds.value && api.region(k) == Success(l.caches.regions[k]))
    ensures l.caches.systems == c.systems && l.caches.stations == c.stations && l.caches.types == c.types
    ensures c.regions.Keys <= l.caches.regions.Keys
  {
    match api.regionIds
    case Failure(e) => Loaded(c, Err(e))
    case Success(ids) =>
      var g := Cache.FetchEach(c.regions, ids, api.region, (k, _) => k, (r: Region) => r.regionId, map[]);
      Cache.FetchEachStores(c.regions, ids, api.region, (k, _) => k, (r: Region) => r.regionId, map[]);
      var c' := c.(regions := g.cache);
      match g.found
      case None => Loaded(c', Panic(TASK_FAILED))
      case Some(m) => Loaded(c', Ok(m))
  }

  /** `Systems::fetch_all`: as for regions, but each load stores its answer
      under the system's own id, in the cache as in the result. */
  function FetchAllSystems(c: Caches, api: Api): (l: Loaded<map<U32, System>>)
    ensures api.systemIds.Failure? ==> l == Loaded(c, Err(api.systemIds.error))
    ensures api.systemIds.Success? ==>
              (l.result.Ok? <==> forall id | id in api.systemIds.value :: api.system(id).Success?)
    ensures api.systemIds.Success? && !l.result.Ok? ==> l.result == Panic(TASK_FAILED)
    ensures l.result.Ok? ==> forall k | k in l.result.value :: l.result.value[k].systemId == k
    ensures l.result.Ok? ==>
              l.result.value.Keys == set id | id in api.systemIds.value :: api.system(id).value.systemId
    ensures l.result.Ok? ==> forall k | k in l.result.value :: exists id | id in api.systemIds.value :: api.system(id) == Success(l.result.value[k])
    ensures l.result.Ok? ==> l.result.value.Keys <= l.caches.systems.Keys
    ensures l.result.Ok? ==>
              forall id | id in api.systemIds.value ::
                var k := api.system(id).value.systemId;
                k in l.caches.systems && l.caches.systems[k].systemId == k
                && exists j | j in api.systemIds.value :: api.system(j) == Success(l.caches.systems[k])
    ensures api.systemIds.Success? ==>
              forall k | k in l.caches.systems ::
                || (k in c.systems && l.caches.systems[k] == c.systems[k])
                || (l.caches.systems[k].systemId == k
                    && exists j | j in api.systemIds.value :: api.system(j) == Success(l.caches.systems[k]))
    ensures l.caches.regions == c.regions && l.caches.stations == c.stations && l.caches.types == c.types
    ensures c.systems.Keys <= l.caches.systems.Keys
  {
    match api.systemIds
    case Failure(e) => Loaded(c, Err(e))
    case Success(ids) =>
      var g := Cache.FetchEach(c.systems, ids, api.system, (_, s: System) => s.systemId, (s: System) => s.systemId, map[]);
      Cache.FetchEachStores(c.systems, ids, api.system, (_, s: System) => s.systemId, (s: System) => s.systemId, map[]);
      var c' := c.(systems := g.cache);
      match g.found
      case None => Loaded(c', Panic(TASK_FAILED))
      case Some(m) => Loaded(c', Ok(m))
  }
}
