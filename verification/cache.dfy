/** Get-or-fetch caches: a map consulted first, and a fetch oracle standing for
    the network request made on a miss. The key an answer is stored under is
    chosen per cache by `keyOf`, which sees both the requested id and the
    answer: some caches of the source use the id asked for, others the id the
    server put in its answer. */
module Cache {
  import opened Wrappers

  /** The effect of one lookup: the cache afterwards, what the caller gets,
      and whether a request went out. */
  datatype Lookup<K, V> = Lookup(cache: map<K, V>, result: Result<V, string>, fetched: bool)

  /** The miss path: one request; a success is stored under `keyOf(id, answer)`,
      a failure leaves the cache alone. */
  function Fetch<K, V>(cache: map<K, V>, id: K, fetch: K -> Result<V, string>, keyOf: (K, V) -> K): (l: Lookup<K, V>)
    ensures l.fetched && l.result == fetch(id)
    ensures l.result.Success? ==> l.cache == cache[keyOf(id, l.result.value) := l.result.value]
    ensures l.result.Failure? ==> l.cache == cache
  {
    match fetch(id)
    case Success(v) => Lookup(cache[keyOf(id, v) := v], Success(v), true)
    case Failure(e) => Lookup(cache, Failure(e), true)
  }

  /** A hit answers from the cache without a request; a miss fetches. */
  function Get<K, V>(cache: map<K, V>, id: K, fetch: K -> Result<V, string>, keyOf: (K, V) -> K): (l: Lookup<K, V>)
    ensures id in cache ==> !l.fetched && l.cache == cache && l.result == Success(cache[id])
    ensures id !in cache ==> l.fetched && l.result == fetch(id)
    ensures id !in cache && l.result.Success? ==> l.cache == cache[keyOf(id, l.result.value) := l.result.value]
    ensures l.result.Failure? ==> l.cache == cache
    ensures cache.Keys <= l.cache.Keys
  {
    if id in cache then Lookup(cache, Success(cache[id]), false) else Fetch(cache, id, fetch, keyOf)
  }

  /** When answers are stored under the id asked for, a second lookup of an id
      that the first one found is a hit returning the same value. */
  lemma GetTwice<K, V>(cache: map<K, V>, id: K, fetch: K -> Result<V, string>, keyOf: (K, V) -> K)
    requires Get(cache, id, fetch, keyOf).result.Success?
    requires id in cache || keyOf(id, fetch(id).value) == id
    ensures var first := Get(cache, id, fetch, keyOf);
            var second := Get(first.cache, id, fetch, keyOf);
            !second.fetched && second.cache == first.cache && second.result == first.result
  {
  }

  /** When answers are stored under the server's own id and that id differs
      from the one asked for, the id asked for stays a miss: the next lookup
      requests it again. */
  lemma MismatchedKeyRefetches<K, V>(cache: map<K, V>, id: K, fetch: K -> Result<V, string>, keyOf: (K, V) -> K)
    requires id !in cache
    requires fetch(id).Success? && keyOf(id, fetch(id).value) != id
    ensures var first := Get(cache, id, fetch, keyOf);
            id !in first.cache && Get(first.cache, id, fetch, keyOf).fetched
  {
  }

  /** Outcome of fetching a whole list: the shared cache afterwards, and the
      answers collected by their own key, or `None` when a fetch failed. */
  datatype Gathered<K, V> = Gathered(cache: map<K, V>, found: Option<map<K, V>>)

  /** `v` is the successful answer to one of `ids`, stored under `k`. */
  ghost predicate Filed<K, V>(ids: seq<K>, fetch: K -> Result<V, string>, keyOf: (K, V) -> K, k: K, v: V) {
    exists i | i in ids :: fetch(i) == Success(v) && keyOf(i, v) == k
  }

  /** Every entry of `c` is either as `before` had it or a successful answer
      to one of `ids`, stored under its key. */
  ghost predicate Written<K, V>(before: map<K, V>, ids: seq<K>, fetch: K -> Result<V, string>, keyOf: (K, V) -> K, c: map<K, V>) {
    forall k | k in c :: (k in before && c[k] == before[k]) || Filed(ids, fetch, keyOf, k, c[k])
  }

  /** Every successful answer to `ids` left its key in `c`, holding an answer
      to one of `ids` filed under that key (a later answer may overwrite it). */
  ghost predicate Stored<K, V>(ids: seq<K>, fetch: K -> Result<V, string>, keyOf: (K, V) -> K, c: map<K, V>) {
    forall i | i in ids && fetch(i).Success? ::
      var k := keyOf(i, fetch(i).value);
      k in c && Filed(ids, fetch, keyOf, k, c[k])
  }

  /** One step of the fan-out: what the rest of the list wrote on top of the
      first answer, the whole list wrote. */
  lemma FetchEachStep<K, V>(before: map<K, V>, ids: seq<K>, fetch: K -> Result<V, string>, keyOf: (K, V) -> K, v: V, c: map<K, V>)
    requires |ids| > 0 && fetch(ids[0]) == Success(v)
    requires keyOf(ids[0], v) in c
    requires Written(before[keyOf(ids[0], v) := v], ids[1..], fetch, keyOf, c)
    ensures Written(before, ids, fetch, keyOf, c)
    ensures Stored(ids[1..], fetch, keyOf, c) ==> Stored(ids, fetch, keyOf, c)
  {
    assert forall i | i in ids :: i == ids[0] || i in ids[1..];
    forall k, w | Filed(ids[1..], fetch, keyOf, k, w)
      ensures Filed(ids, fetch, keyOf, k, w)
    {
      var i :| i in ids[1..] && fetch(i) == Success(w) && keyOf(i, w) == k;
      assert i in ids;
    }
    assert Filed(ids, fetch, keyOf, keyOf(ids[0], v), v);
  }

  /** The `fetch_all` fan-out, done one id after another: every id is fetched
      (the cache is written but never read), each answer is also collected
      under `mapKey(answer)`, and the first failure ends the walk. */
  function FetchEach<K, V>(cache: map<K, V>, ids: seq<K>, fetch: K -> Result<V, string>,
                           keyOf: (K, V) -> K, mapKey: V -> K, found: map<K, V>): (g: Gathered<K, V>)
    requires forall k | k in found :: mapKey(found[k]) == k
    ensures g.found.Some? <==> forall i | i in ids :: fetch(i).Success?
    ensures g.found.Some? ==> forall k | k in g.found.value :: mapKey(g.found.value[k]) == k
    ensures g.found.Some? ==>
              g.found.value.Keys == found.Keys + (set i | i in ids && fetch(i).Success? :: mapKey(fetch(i).value))
    ensures g.found.Some? ==>
              forall k | k in g.found.value :: (k in found && g.found.value[k] == found[k]) || exists i | i in ids :: fetch(i) == Success(g.found.value[k])
    ensures g.found.Some? ==> forall i | i in ids :: keyOf(i, fetch(i).value) in g.cache
    ensures cache.Keys <= g.cache.Keys
    decreases |ids|
  {
    if |ids| == 0 then Gathered(cache, Some(found))
    else
      match fetch(ids[0])
      case Failure(_) => Gathered(cache, None)
      case Success(v) =>
        var rest := FetchEach(cache[keyOf(ids[0], v) := v], ids[1..], fetch, keyOf, mapKey, found[mapKey(v) := v]);
        assert forall i | i in ids :: i == ids[0] || i in ids[1..];
        rest
  }

  /** What the fan-out leaves in the cache: every entry is as before or a
      fetched answer filed under its key, and when every fetch succeeded each
      answer's key holds one of the answers filed under it. */
  lemma {:induction false} FetchEachStores<K, V>(cache: map<K, V>, ids: seq<K>, fetch: K -> Result<V, string>,
                                                 keyOf: (K, V) -> K, mapKey: V -> K, found: map<K, V>)
    requires forall k | k in found :: mapKey(found[k]) == k
    ensures var g := FetchEach(cache, ids, fetch, keyOf, mapKey, found);
            Written(cache, ids, fetch, keyOf, g.cache) && (g.found.Some? ==> Stored(ids, fetch, keyOf, g.cache))
    decreases |ids|
  {
    if |ids| > 0 && fetch(ids[0]).Success? {
      var v := fetch(ids[0]).value;
      FetchEachStores(cache[keyOf(ids[0], v) := v], ids[1..], fetch, keyOf, mapKey, found[mapKey(v) := v]);
      var rest := FetchEach(cache[keyOf(ids[0], v) := v], ids[1..], fetch, keyOf, mapKey, found[mapKey(v) := v]);
      FetchEachStep(cache, ids, fetch, keyOf, v, rest.cache);
    }
  }
}
