# PokedexCli: the expiring response cache and the logic around it

This project is a Dafny model of the command-line Pokedex client. The client
pages through location areas, explores areas and catches creatures. Its one
real data structure is the **expiring response cache**. The cache maps a
request URL to the raw response body and the time it was stored. A periodic
reaper deletes every entry older than the cache's interval.

The model has four layers, one Dafny module each:

- `PokeCache` (`internal/pokecache.go`) holds the cache state and `NewCache`,
  `Add` and `Get`. It also holds the reaper's sweep, twice: `Swept` is the
  set-comprehension definition, and `Reap` is the key-by-key deletion loop the
  source runs. `Reap` is proved equal to `Swept`. An `Op` trace and `Run`
  state properties over time: no spurious hits, the freshness window, and
  the staleness bound of one sweep.
- `Api` (`internal/api.go`) holds `fetchApi` as a transition over the cache
  and the network's answer. It keeps the source's order: hit check, network
  error, status above 299, read error, store the body, then decode. It also
  holds `GetLocations`/`GetPokemons`, which return the zero value on error.
- `Fields` models the tokenisation that `main` applies to each input line
  (Go's `strings.Fields` with `unicode.IsSpace`). The module proves that
  splitting inverts joining words with any non-empty runs of white space,
  including leading and trailing runs. Every line can be written that way
  as its own gaps and fields.
- `Repl` (`main.go`) holds the `map`/`mapb` paging state, the argument checks
  of `explore` and `catch`, the catch threshold and the Pokedex update, and
  the dispatch of one line.

The clock is a `nat` of nanoseconds. The network's answer is a `Network`
value (`NetErr | Resp(status, ReadOk(body) | ReadErr(partial))`). JSON
decoding is a caller-supplied `Bytes -> Option<T>`. The random roll is a
parameter in `[0, 100]`. Each result records whether the network was asked.

## Model

| member | source | states |
|---|---|---|
| PokeCache.NewCache | internal/pokecache.go:19-23 | a new cache answers every lookup with a miss and keeps the given interval |
| PokeCache.Add | internal/pokecache.go:47-51 | after storing, the key yields the stored value with the call's time; the key set grows by exactly that key; every other entry and the interval are unchanged |
| PokeCache.Get | internal/pokecache.go:53-60 | a lookup hits exactly for stored keys and returns the stored value however old the entry is; a miss is `None` (Go's `nil, false`) |
| PokeCache.Swept | internal/pokecache.go:37-42 | a sweep keeps exactly the entries whose age is at most the interval, unchanged, adds no key and keeps the interval |
| PokeCache.Reap | internal/pokecache.go:36-43 | the source's delete-while-iterating loop produces exactly the swept cache, in any visiting order |
| PokeCache.AddOverwrites | internal/pokecache.go:50 | storing twice under a key is storing once with the second value and the second time |
| PokeCache.SweepIdempotent | internal/pokecache.go:38-42 | a second sweep at the same instant removes nothing |
| PokeCache.LaterSweepSubsumes | internal/pokecache.go:37-41 | a sweep at `t1` followed by one at `t2 >= t1` equals the sweep at `t2` alone |
| PokeCache.SweepBoundary | internal/pokecache.go:39 | an entry exactly `interval` old survives a sweep (the comparison is strict); one a nanosecond older is removed |
| PokeCache.NoSpuriousHits | internal/pokecache.go:47-60 | a key that is absent and never stored stays a miss through any lookups and sweeps |
| PokeCache.PresentWhileFresh | internal/pokecache.go:36-60 | an entry stored at `t` keeps being returned until overwritten, through every sweep at most `interval` after `t` |
| PokeCache.GoneAfterStaleTick | internal/pokecache.go:36-43 | if every store under a key happened no later than `t`, a sweep more than `interval` after `t` removes it, and it stays a miss until stored again |
| PokeCache.ExampleScenario | internal/pokecache.go:19-60 | with a 50 ms interval, `[1,2,3]` stored at 0 is found at once and gone after a sweep at 120 ms; storing `[9]` then `[8]` under one key yields `[8]` |
| Api.FetchApi | internal/api.go:10-38 | a hit asks no network, keeps the cache and decodes the cached bytes; a miss asks the network; a network error, a status above 299 (checked before the read error) or a read error keeps the cache and reports that error; a complete response with status at most 299 is stored under the URL before decoding, so it stays cached when decoding fails |
| Api.FetchChangesOnlyUrl | internal/api.go:30 | a fetch changes the cache at most at the requested URL and never changes the interval |
| Api.SecondFetchHits | internal/api.go:11-35 | once a fetch has stored a body, the next fetch of that URL asks no network and gives the same result, whatever the network would say |
| Api.FailureRetries | internal/api.go:15-28 | a miss whose response is not stored is an error, and a retry of the same URL asks the network again |
| Api.GetResource | internal/api.go:51-59 | the error is reported exactly when the fetch errs, and it is the fetch's error; the value is then the zero value; otherwise the value is the fetched one, and the URL is cached and its bytes decode to it; the cache is the fetch's, and the network is asked exactly on a miss |
| Api.GetLocations | internal/api.go:51-59 | the cache after the call is the fetch's; the error is the fetch's error, and then the page is the zero page; on success the page is the fetched value, and the URL is cached and decodes to it; the network is asked exactly when the URL is not cached |
| Api.GetPokemons | internal/api.go:40-49 | the fetch uses the cache key `url + name`; the cache after the call is that fetch's; the error is the fetch's error, and then the value is the zero value; on success the value is the fetched one; the network is asked exactly when `url + name` is not cached; no other key of the cache changes |
| Fields.Fields | main.go:265 | the fields are non-empty, contain no white space, and laid end to end give the line without its white space |
| Fields.NoFieldsIffAllSpace | main.go:265-268 | a line has no fields exactly when it is empty or all white space |
| Fields.FieldsSplitAtSpace | main.go:265 | cutting a line just before white space cuts its list of fields at the same place |
| Fields.FieldsOfJoin | main.go:265 | splitting words joined by single spaces gives back the words |
| Fields.FieldsSkipSpace | main.go:265 | leading white space does not change the fields of a line |
| Fields.FieldsOfSpaced | main.go:265 | splitting words separated by any non-empty runs of white space, with optional white space before the first and after the last, gives back the words |
| Fields.FieldsAndGapsRebuildLine | main.go:265 | every line is its white-space gaps interleaved with its fields, with non-empty inner gaps, so the previous row covers every line |
| Repl.Tokenise | main.go:265-271 | no command exactly for an empty or all-space line; otherwise the command is the first field and the arguments are the remaining fields in order |
| Repl.TokeniseJoin | main.go:265-271 | a command typed with single spaces between its words is read back as that command and those arguments |
| Repl.TokeniseLooseSpacing | main.go:265-271 | the one line `"  catch \t pikachu "`, with leading, trailing and mixed tab-and-space runs, tokenises to `catch` with the argument `pikachu`; `Fields.FieldsOfSpaced` states the general case |
| Repl.Browse | main.go:101-106 | the cache after the call is that of fetching the URL; a failed fetch reports its error and leaves the zero page, so both links become empty; otherwise the page is the fetched one and the links become its links; the network is asked exactly when the URL is not cached |
| Repl.CommandMap | main.go:96-106 | `map` fetches the base location-area URL when there is no next link and the next link otherwise; the cache, the error and the page are that fetch's, and the links become the page's links, empty on error; the network is asked exactly when the requested URL is not cached |
| Repl.CommandMapb | main.go:113-123 | `mapb` without a previous link fetches nothing and changes nothing; otherwise it fetches the previous link, and the cache, the error, the page, the links and whether the network is asked follow that fetch as in `map`; without a fetch the page is the zero page |
| Repl.MapThenMapbAsksForPrevious | main.go:96-123 | after a successful `map`, `mapb` asks for exactly the loaded page's previous link, or does nothing when it is empty |
| Repl.CommandExplore | main.go:130-142 | no argument is an error before any fetch; otherwise the area is fetched under the location-area URL plus the first argument, the cache is that fetch's, a fetch error is reported as the command's error, and on success the area is the fetched value |
| Repl.TruncDiv10 | main.go:171 | Go's division by 10 truncates toward zero, for negative dividends too |
| Repl.CommandCatch | main.go:155-188 | no argument is an error before any fetch; otherwise the creature is fetched under the Pokemon URL plus the first argument and the cache is that fetch's; a fetch error is reported and changes no Pokedex; on success the details are the fetched value, the catch succeeds exactly when the roll exceeds `100 - baseExp/10`, and only then is the creature recorded, under its own name |
| Repl.ThresholdAntitone | main.go:171-179 | more base experience never raises the threshold, so a stronger creature is never harder to catch: every roll that catches a creature also catches any creature with more base experience |
| Repl.NoRollCatchesAtThreshold100 | main.go:171-183 | with non-negative base experience and a threshold of at least 100, no roll in `[0, 100]` catches |
| Repl.EveryRollCatchesFrom1010 | main.go:171-183 | from base experience 1010 on, every roll in `[0, 100]` catches |
| Repl.CatchOdds | main.go:176-179 | of the rolls `0..n-1`, the number that catch (roll above the catch threshold) is `n` when the threshold is negative, 0 when it is at least `n - 1`, and `n - 1 - threshold` otherwise; with the source's 101 rolls this is the catch chance |
| Repl.NewSession | main.go:91-94 | a session starts with empty paging links, an empty Pokedex and an empty one-minute cache |
| Repl.Step | main.go:265-279 | a blank line does nothing; an unknown command or `exit` changes no state; `map`, `mapb`, `explore` and `catch` run their handler on the line's arguments, and the session and the reported error are exactly the handler's; `inspect` reports only a missing argument; `help` and `pokedex` change nothing; only `catch` changes the Pokedex; only `map`/`mapb` change the paging links; no command changes the cache interval |

## Left out

- Concurrency: the reaper goroutine, its ticker and the mutex. Each operation is one atomic step. The sweep is an explicit step at a given time, not a timed tick. The "gone within two intervals" bound therefore appears only as what one sweep guarantees (`PokeCache.GoneAfterStaleTick`).
- `time.Now` is replaced by explicit `nat` times in nanoseconds. The age is computed as an `int`, so a clock reading earlier than the entry gives a negative age, as `time.Sub` would.
- `PokeCache.NewCache` requires a positive interval. The source's ticker panics on a non-positive one.
- `http.Get`, `io.ReadAll`, `res.Body.Close` and `json.Unmarshal` are foreign I/O and decoding. They are replaced by the `Network` answer and a `decode` function. The two decode-error messages of `fetchApi` (the raw error on a hit, a wrapped one on a miss) are both `DecodeError`.
- Go's slice aliasing: `Get` returns the stored slice itself. Payloads are modelled as immutable byte sequences.
- `internal/pokeApi.go` is a cache-less duplicate of `GetLocations` and is not part of this model.
- `GetPokemonsInArea` and `GetPokemon`, which `main.go` calls, are not among the modelled files. `CommandExplore` and `CommandCatch` model their calls as `GetPokemons`, that is, a fetch of the URL plus the name.
- Go strings are byte strings. The input line and the URLs are modelled as Dafny `string`s of Unicode characters. Where a line splits does not change, because `strings.Fields` treats a byte that is not valid UTF-8 as a non-space character.
- `internal/pokemons.go` holds JSON schema types only. `Locations`, `Area` and `PokemonDetails` keep just the fields the logic reads.
- All printing, `commandHelp`, `commandInspect` and `commandPokedex` formatting, the stdin scanner loop and `os.Exit` are I/O. `exit` is the `Exit` outcome. The only logic kept from `inspect` is its missing-argument error.
- The loop in `main` discards each command's error. `Repl.Step` still reports it in the `Done` outcome.
- The `math/rand` seeding and draw are left out. The roll is a parameter in `[0, 100]`.
