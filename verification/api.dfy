/**
 * The fetch layer of internal/api.go: `fetchApi` as a transition over
 * (cache, network answer), and the `Get...` wrappers that return the
 * zero value on error.
 *
 * The network is not called: `net` is what `http.Get` followed by
 * `io.ReadAll` WOULD answer for the requested URL, and the result records
 * whether it was asked. JSON decoding is the caller-supplied `decode`.
 */
module Api {
  import opened Wrappers
  import opened PokeCache

  /** What `io.ReadAll` gives back: the whole body, or an error together
      with whatever was read before it. */
  datatype ReadResult = ReadOk(body: Bytes) | ReadErr(partial: Bytes)

  /** What the network answers for one request. */
  datatype Network = NetErr | Resp(status: int, read: ReadResult)

  /** The error `fetchApi` returns. A status error reports the code and the
      bytes read, whether or not reading finished. */
  datatype FetchError = NetworkError | StatusError(code: int, body: Bytes) | ReadError | DecodeError

  /** The outcome of one `fetchApi` call: the cache afterwards, the decoded
      value or the error, and whether the network was asked. */
  datatype Fetched<T> = Fetched(cache: Cache, result: Result<T, FetchError>, usedNetwork: bool)

  /** The bytes a response carried, read completely or not. */
  function BytesRead(read: ReadResult): Bytes
  {
    match read
    case ReadOk(b) => b
    case ReadErr(p) => p
  }

  /** `json.Unmarshal` as a `Result`. */
  function Decoded<T>(d: Option<T>): (r: Result<T, FetchError>)
    ensures r.Ok? <==> d.Some?
    ensures r.Ok? ==> r.value == d.value
    ensures r.Err? ==> r.error == DecodeError
  {
    match d
    case Some(v) => Ok(v)
    case None => Err(DecodeError)
  }

  /** True when the network answer carries a body the fetch layer stores:
      a status of at most 299 and a complete read. */
  predicate Storable(net: Network)
  {
    net.Resp? && net.status <= 299 && net.read.ReadOk?
  }

  /** `fetchApi`: a hit is decoded without asking the network; a miss asks
      it, and stores the body BEFORE decoding it, so a body that does not
      decode stays cached. The status is checked before the read error. */
  function FetchApi<T>(url: string, cache: Cache, now: nat, net: Network, decode: Bytes -> Option<T>): (r: Fetched<T>)
    // a hit: no network, cache unchanged, the cached bytes decoded
    ensures url in cache.entries ==>
              !r.usedNetwork && r.cache == cache && r.result == Decoded(decode(cache.entries[url].val))
    // a miss always asks the network
    ensures url !in cache.entries ==> r.usedNetwork
    // network error
    ensures url !in cache.entries && net.NetErr? ==> r.cache == cache && r.result == Err(NetworkError)
    // status above 299, reported even when reading also failed
    ensures url !in cache.entries && net.Resp? && net.status > 299 ==>
              r.cache == cache && r.result == Err(StatusError(net.status, BytesRead(net.read)))
    // read error with an acceptable status
    ensures url !in cache.entries && net.Resp? && net.status <= 299 && net.read.ReadErr? ==>
              r.cache == cache && r.result == Err(ReadError)
    // a complete acceptable response is cached whether or not it decodes
    ensures url !in cache.entries && Storable(net) ==>
              r.cache == Add(cache, url, net.read.body, now) && r.result == Decoded(decode(net.read.body))
    // errors other than decoding are never cached
    ensures r.result.Err? && r.result.error != DecodeError ==> r.cache == cache
  {
    match Get(cache, url)
    case Some(data) => Fetched(cache, Decoded(decode(data)), false)
    case None =>
      match net
      case NetErr => Fetched(cache, Err(NetworkError), true)
      case Resp(status, read) =>
        if status > 299 then
          Fetched(cache, Err(StatusError(status, BytesRead(read))), true)
        else if read.ReadErr? then
          Fetched(cache, Err(ReadError), true)
        else
          Fetched(Add(cache, url, read.body, now), Decoded(decode(read.body)), true)
  }

  /** The cache only ever changes at the requested key. */
  lemma FetchChangesOnlyUrl<T>(url: string, cache: Cache, now: nat, net: Network, decode: Bytes -> Option<T>, k: string)
    requires k != url
    ensures Get(FetchApi(url, cache, now, net, decode).cache, k) == Get(cache, k)
    ensures FetchApi(url, cache, now, net, decode).cache.interval == cache.interval
  {
  }

  /** Deduplication: once a fetch has stored a body, the next fetch of the
      same URL does not ask the network, whatever it would answer, and
      decodes the stored body, also when that body did not decode. */
  lemma SecondFetchHits<T>(url: string, cache: Cache, t1: nat, net1: Network, t2: nat, net2: Network, decode: Bytes -> Option<T>)
    requires url !in cache.entries && Storable(net1)
    ensures var first := FetchApi(url, cache, t1, net1, decode);
            var second := FetchApi(url, first.cache, t2, net2, decode);
            !second.usedNetwork && second.cache == first.cache && second.result == first.result
  {
  }

  /** Failures are not cached: after a miss that failed for any reason but
      decoding, a retry goes to the network again. */
  lemma FailureRetries<T>(url: string, cache: Cache, t1: nat, net1: Network, t2: nat, net2: Network, decode: Bytes -> Option<T>)
    requires url !in cache.entries
    requires !Storable(net1)
    ensures FetchApi(url, cache, t1, net1, decode).result.Err?
    ensures FetchApi(url, FetchApi(url, cache, t1, net1, decode).cache, t2, net2, decode).usedNetwork
  {
  }

  /** What a `Get...` wrapper returns: the value (the zero value on error),
      the error if any, the cache afterwards, and whether the network was
      asked. */
  datatype Reply<T> = Reply(value: T, err: Option<FetchError>, cache: Cache, usedNetwork: bool)

  /** The shared shape of `GetLocations` and `GetPokemons`: fetch `url`,
      and discard a partially decoded value on error. */
  function GetResource<T>(url: string, zero: T, cache: Cache, now: nat, net: Network, decode: Bytes -> Option<T>): (r: Reply<T>)
    ensures r.err.Some? ==> r.value == zero
    ensures r.err.None? ==> url in r.cache.entries && decode(r.cache.entries[url].val) == Some(r.value)
    ensures r.err.Some? <==> FetchApi(url, cache, now, net, decode).result.Err?
    ensures FetchApi(url, cache, now, net, decode).result.Err? ==>
              r.err == Some(FetchApi(url, cache, now, net, decode).result.error)
    ensures FetchApi(url, cache, now, net, decode).result.Ok? ==>
              r.value == FetchApi(url, cache, now, net, decode).result.value
    ensures r.cache == FetchApi(url, cache, now, net, decode).cache
    ensures r.usedNetwork <==> url !in cache.entries
  {
    var f := FetchApi(url, cache, now, net, decode);
    match f.result
    case Ok(v) => Reply(v, None, f.cache, f.usedNetwork)
    case Err(e) => Reply(zero, Some(e), f.cache, f.usedNetwork)
  }

  /** One page of location areas; `next` and `previous` are page URLs,
      empty when there is no such page. */
  datatype Locations = Locations(next: string, previous: string, results: seq<string>)

  /** Go's zero `Locations{}`. */
  const NoLocations := Locations("", "", [])

  /** `GetLocations`: the page at `url`, or the zero page on error. */
  function GetLocations(url: string, cache: Cache, now: nat, net: Network, decode: Bytes -> Option<Locations>): (r: Reply<Locations>)
    ensures r.err.Some? ==> r.value == NoLocations
    ensures r.err.None? ==> url in r.cache.entries && decode(r.cache.entries[url].val) == Some(r.value)
    ensures url in cache.entries ==> !r.usedNetwork && r.cache == cache
    ensures r.usedNetwork <==> url !in cache.entries
    ensures r.err.Some? && r.err.value != DecodeError ==> r.cache == cache
    ensures r.cache == FetchApi(url, cache, now, net, decode).cache
    ensures FetchApi(url, cache, now, net, decode).result.Err? ==>
              r.err == Some(FetchApi(url, cache, now, net, decode).result.error)
    ensures FetchApi(url, cache, now, net, decode).result.Ok? ==>
              r.err == None && r.value == FetchApi(url, cache, now, net, decode).result.value
  {
    GetResource(url, NoLocations, cache, now, net, decode)
  }

  /** `GetPokemons`: the resource named `name` under `url`; the cache key
      is the concatenation `url + name`. */
  function GetPokemons<T>(url: string, name: string, zero: T, cache: Cache, now: nat, net: Network, decode: Bytes -> Option<T>): (r: Reply<T>)
    ensures r.err.Some? ==> r.value == zero
    ensures r.err.None? ==> url + name in r.cache.entries && decode(r.cache.entries[url + name].val) == Some(r.value)
    ensures url + name in cache.entries ==> !r.usedNetwork && r.cache == cache
    ensures r.usedNetwork <==> url + name !in cache.entries
    ensures forall k :: k != url + name ==> Get(r.cache, k) == Get(cache, k)
    ensures r.cache == FetchApi(url + name, cache, now, net, decode).cache
    ensures FetchApi(url + name, cache, now, net, decode).result.Err? ==>
              r.err == Some(FetchApi(url + name, cache, now, net, decode).result.error)
    ensures FetchApi(url + name, cache, now, net, decode).result.Ok? ==>
              r.err == None && r.value == FetchApi(url + name, cache, now, net, decode).result.value
  {
    GetResource(url + name, zero, cache, now, net, decode)
  }
}
