/**
 * The decision logic of the REPL in main.go: tokenising a line, the
 * `map`/`mapb` paging state, the argument checks of `explore` and
 * `catch`, the catch rule and its update of the Pokedex, and the dispatch
 * of one input line.
 *
 * Printing, the stdin scanner, random seeding and `os.Exit` are not
 * modelled: the random roll, the clock, the network's answer and the JSON
 * decoders are carried in an `Env` supplied with each line.
 */
module Repl {
  import opened Wrappers
  import opened PokeCache
  import opened Api
  import opened Fields

  const LocationAreaUrl: string := "https://pokeapi.co/api/v2/location-area/"
  const PokemonUrl: string := "https://pokeapi.co/api/v2/pokemon/"

  /** The cache interval a session is created with: one minute, in
      nanoseconds. */
  const SessionInterval: nat := 60_000_000_000

  /** A tokenised line: the command word and its arguments. */
  datatype Command = Command(name: string, args: seq<string>)

  /** The first field is the command, the remaining fields in order are the
      arguments; a line without fields yields no command. */
  function Tokenise(line: string): (r: Option<Command>)
    ensures r.None? <==> AllSpace(line)
    ensures r.Some? ==> [r.value.name] + r.value.args == Fields.Fields(line)
    ensures r.Some? ==> IsWord(r.value.name)
    ensures r.Some? ==> forall i :: 0 <= i < |r.value.args| ==> IsWord(r.value.args[i])
  {
    var parts := Fields.Fields(line);
    NoFieldsIffAllSpace(line);
    if |parts| == 0 then None else Some(Command(parts[0], parts[1..]))
  }

  /** A command typed with single spaces between its words is read back
      exactly. */
  lemma TokeniseJoin(name: string, args: seq<string>)
    requires IsWord(name)
    requires forall i :: 0 <= i < |args| ==> IsWord(args[i])
    ensures Tokenise(Join([name] + args)) == Some(Command(name, args))
  {
    var ws := [name] + args;
    forall i | 0 <= i < |ws|
      ensures IsWord(ws[i])
    {
      if i > 0 { assert ws[i] == args[i - 1]; }
    }
    FieldsOfJoin(ws);
    assert ws[1..] == args;
  }

  /** One concrete line with leading, trailing and mixed tab-and-space
      runs; `Fields.FieldsOfSpaced` is the general statement. */
  lemma TokeniseLooseSpacing()
    ensures Tokenise("  catch \t pikachu ") == Some(Command("catch", ["pikachu"]))
  {
    var seps, ws := ["  ", " \t ", " "], ["catch", "pikachu"];
    assert Spaced(seps, ws) == "  catch \t pikachu " by {
      assert Spaced(seps[2..], ws[2..]) == " ";
      assert Spaced(seps[1..], ws[1..]) == " \t " + "pikachu" + " ";
    }
    FieldsOfSpaced(seps, ws);
  }

  /** The paging state shared by `map` and `mapb`; an empty string means
      there is no such page. */
  datatype Config = Config(next: string, previous: string)

  /** What a paging command did: the new paging state and cache, the URL it
      asked for (none when it did not fetch), the page it got (the zero
      page on error or when it did not fetch), the error, and whether the
      network was asked. */
  datatype PageReply = PageReply(config: Config, cache: Cache, requested: Option<string>,
                                 page: Locations, err: Option<FetchError>, usedNetwork: bool)

  /** Fetch one page and overwrite the paging state with the page's links.
      On error the page is the zero page, so both links become empty. */
  function Browse(url: string, cache: Cache, now: nat, net: Network, decode: Bytes -> Option<Locations>): (r: PageReply)
    ensures r.requested == Some(url)
    ensures r.cache == FetchApi(url, cache, now, net, decode).cache
    ensures FetchApi(url, cache, now, net, decode).result.Err? ==>
              r.err == Some(FetchApi(url, cache, now, net, decode).result.error) && r.page == NoLocations
    ensures FetchApi(url, cache, now, net, decode).result.Ok? ==>
              r.err == None && r.page == FetchApi(url, cache, now, net, decode).result.value
    ensures r.config == Config(r.page.next, r.page.previous)
    ensures r.err.Some? ==> r.config == Config("", "")
    ensures r.err.None? ==> url in r.cache.entries && decode(r.cache.entries[url].val) == Some(r.page)
    ensures url in cache.entries ==> !r.usedNetwork && r.cache == cache
    ensures r.usedNetwork <==> url !in cache.entries
    ensures r.err.Some? && r.err.value != DecodeError ==> r.cache == cache
    ensures forall k :: k != url ==> Get(r.cache, k) == Get(cache, k)
  {
    var reply := GetLocations(url, cache, now, net, decode);
    PageReply(Config(reply.value.next, reply.value.previous), reply.cache, Some(url),
              reply.value, reply.err, reply.usedNetwork)
  }

  /** `commandMap`: the first page when there is no next link, the next
      page otherwise. */
  function CommandMap(cfg: Config, cache: Cache, now: nat, net: Network, decode: Bytes -> Option<Locations>): (r: PageReply)
    ensures cfg.next == "" ==> r.requested == Some(LocationAreaUrl)
    ensures cfg.next != "" ==> r.requested == Some(cfg.next)
    ensures r.requested.Some? ==> r.cache == FetchApi(r.requested.value, cache, now, net, decode).cache
    ensures r.requested.Some? ==> (r.usedNetwork <==> r.requested.value !in cache.entries)
    ensures r.requested.Some? && FetchApi(r.requested.value, cache, now, net, decode).result.Err? ==>
              r.err == Some(FetchApi(r.requested.value, cache, now, net, decode).result.error) && r.page == NoLocations
    ensures r.requested.Some? && FetchApi(r.requested.value, cache, now, net, decode).result.Ok? ==>
              r.err == None && r.page == FetchApi(r.requested.value, cache, now, net, decode).result.value
    ensures r.config == Config(r.page.next, r.page.previous)
    ensures r.err.Some? ==> r.config == Config("", "")
  {
    Browse(if cfg.next == "" then LocationAreaUrl else cfg.next, cache, now, net, decode)
  }

  /** `commandMapb`: the previous page; without a previous link nothing is
      fetched, nothing changes and no error is reported. */
  function CommandMapb(cfg: Config, cache: Cache, now: nat, net: Network, decode: Bytes -> Option<Locations>): (r: PageReply)
    ensures r.requested.None? <==> cfg.previous == ""
    ensures r.requested.None? ==> r.config == cfg && r.cache == cache && r.err.None? && !r.usedNetwork
    ensures r.requested.None? ==> r.page == NoLocations
    ensures r.requested.Some? ==> r.requested.value == cfg.previous && r.config == Config(r.page.next, r.page.previous)
    ensures r.requested.Some? ==> r.cache == FetchApi(r.requested.value, cache, now, net, decode).cache
    ensures r.requested.Some? ==> (r.usedNetwork <==> r.requested.value !in cache.entries)
    ensures r.requested.Some? && FetchApi(r.requested.value, cache, now, net, decode).result.Err? ==>
              r.err == Some(FetchApi(r.requested.value, cache, now, net, decode).result.error) && r.page == NoLocations
    ensures r.requested.Some? && FetchApi(r.requested.value, cache, now, net, decode).result.Ok? ==>
              r.err == None && r.page == FetchApi(r.requested.value, cache, now, net, decode).result.value
    ensures r.err.Some? ==> r.config == Config("", "")
  {
    if cfg.previous == "" then PageReply(cfg, cache, None, NoLocations, None, false)
    else Browse(cfg.previous, cache, now, net, decode)
  }

  /** Paging forward then back returns to the first page's URL: after `map`
      loads a page whose previous link is `p`, `mapb` asks for `p`. */
  lemma MapThenMapbAsksForPrevious(cfg: Config, cache: Cache, t1: nat, net1: Network, t2: nat, net2: Network,
                                   decode: Bytes -> Option<Locations>)
    requires CommandMap(cfg, cache, t1, net1, decode).err.None?
    ensures var first := CommandMap(cfg, cache, t1, net1, decode);
            var back := CommandMapb(first.config, first.cache, t2, net2, decode);
            first.page.previous == "" ==> back.requested.None? && back.config == first.config
    ensures var first := CommandMap(cfg, cache, t1, net1, decode);
            var back := CommandMapb(first.config, first.cache, t2, net2, decode);
            first.page.previous != "" ==> back.requested == Some(first.page.previous)
  {
  }

  /** Errors reported by the commands themselves. */
  datatype CmdError = MissingArgument | FetchFailed(cause: FetchError)

  /** The creatures met in one location area. */
  datatype Area = Area(encounters: seq<string>)

  datatype ExploreReply = ExploreReply(cache: Cache, area: Area, err: Option<CmdError>, usedNetwork: bool)

  /** `commmandExplore`: the area named by the first argument; without an
      argument, an error before any fetch. */
  function CommandExplore(args: seq<string>, cache: Cache, now: nat, net: Network, decode: Bytes -> Option<Area>): (r: ExploreReply)
    ensures args == [] ==> r.err == Some(MissingArgument) && r.cache == cache && !r.usedNetwork
    ensures args != [] ==> (r.usedNetwork <==> LocationAreaUrl + args[0] !in cache.entries)
    ensures args != [] ==> r.cache == FetchApi(LocationAreaUrl + args[0], cache, now, net, decode).cache
    ensures args != [] && FetchApi(LocationAreaUrl + args[0], cache, now, net, decode).result.Err? ==>
              r.err == Some(FetchFailed(FetchApi(LocationAreaUrl + args[0], cache, now, net, decode).result.error))
    ensures args != [] && FetchApi(LocationAreaUrl + args[0], cache, now, net, decode).result.Ok? ==>
              r.err == None && r.area == FetchApi(LocationAreaUrl + args[0], cache, now, net, decode).result.value
    ensures args != [] && r.err.None? ==>
              LocationAreaUrl + args[0] in r.cache.entries && decode(r.cache.entries[LocationAreaUrl + args[0]].val) == Some(r.area)
    ensures r.err.Some? ==> r.area == Area([])
  {
    if args == [] then ExploreReply(cache, Area([]), Some(MissingArgument), false)
    else
      var reply := GetPokemons(LocationAreaUrl, args[0], Area([]), cache, now, net, decode);
      ExploreReply(reply.cache, reply.value,
                   if reply.err.Some? then Some(FetchFailed(reply.err.value)) else None,
                   reply.usedNetwork)
  }

  /** The fields of a creature the catch rule needs. */
  datatype PokemonDetails = PokemonDetails(name: string, baseExperience: int)

  const NoPokemon := PokemonDetails("", 0)

  /** Go's integer division by 10, which truncates toward zero. */
  function TruncDiv10(a: int): (q: int)
    ensures a >= 0 ==> 10 * q <= a < 10 * q + 10
    ensures a < 0 ==> 10 * q - 10 < a <= 10 * q
  {
    if a >= 0 then a / 10 else -((-a) / 10)
  }

  /** The highest roll that fails; smaller means easier. */
  function CatchThreshold(baseExp: int): int
  {
    100 - TruncDiv10(baseExp)
  }

  /** The catch rule: the roll must exceed the threshold. */
  predicate Caught(roll: int, baseExp: int)
  {
    roll > CatchThreshold(baseExp)
  }

  datatype CatchReply = CatchReply(pokedex: map<string, PokemonDetails>, cache: Cache, pokemon: PokemonDetails,
                                   caught: bool, err: Option<CmdError>, usedNetwork: bool)

  /** `commandCatch` with `roll` the random number drawn from [0, 100]: no
      argument is an error before any fetch; a failed fetch is reported and
      changes no Pokedex; otherwise the creature is caught exactly when the
      roll exceeds its threshold, and then it is recorded under its own
      name, nothing else changing. */
  function CommandCatch(args: seq<string>, pokedex: map<string, PokemonDetails>, cache: Cache, now: nat,
                        net: Network, decode: Bytes -> Option<PokemonDetails>, roll: int): (r: CatchReply)
    requires 0 <= roll <= 100
    ensures args == [] ==> r.err == Some(MissingArgument) && r.cache == cache && !r.usedNetwork
    ensures args != [] ==> (r.usedNetwork <==> PokemonUrl + args[0] !in cache.entries)
    ensures args != [] ==> r.cache == FetchApi(PokemonUrl + args[0], cache, now, net, decode).cache
    ensures args != [] && FetchApi(PokemonUrl + args[0], cache, now, net, decode).result.Err? ==>
              r.err == Some(FetchFailed(FetchApi(PokemonUrl + args[0], cache, now, net, decode).result.error))
    ensures args != [] && FetchApi(PokemonUrl + args[0], cache, now, net, decode).result.Ok? ==>
              r.err == None && r.pokemon == FetchApi(PokemonUrl + args[0], cache, now, net, decode).result.value
    ensures r.err.Some? ==> !r.caught && r.pokedex == pokedex
    ensures r.err.None? ==> args != [] && PokemonUrl + args[0] in r.cache.entries
                            && decode(r.cache.entries[PokemonUrl + args[0]].val) == Some(r.pokemon)
    ensures r.err.None? ==> (r.caught <==> roll > 100 - TruncDiv10(r.pokemon.baseExperience))
    ensures r.caught ==> r.pokedex == pokedex[r.pokemon.name := r.pokemon]
    ensures !r.caught ==> r.pokedex == pokedex
  {
    if args == [] then CatchReply(pokedex, cache, NoPokemon, false, Some(MissingArgument), false)
    else
      var reply := GetPokemons(PokemonUrl, args[0], NoPokemon, cache, now, net, decode);
      if reply.err.Some? then
        CatchReply(pokedex, reply.cache, NoPokemon, false, Some(FetchFailed(reply.err.value)), reply.usedNetwork)
      else
        var p := reply.value;
        var caught := Caught(roll, p.baseExperience);
        CatchReply(if caught then pokedex[p.name := p] else pokedex, reply.cache, p, caught, None, reply.usedNetwork)
  }

  /** More base experience never raises the threshold, so a creature with
      more base experience is never harder to catch: every roll that
      catches the weaker one also catches the stronger one. */
  lemma ThresholdAntitone(a: int, b: int)
    requires a <= b
    ensures CatchThreshold(a) >= CatchThreshold(b)
    ensures forall roll :: Caught(roll, a) ==> Caught(roll, b)
  {
  }

  /** With non-negative base experience and a threshold of 100 or more
      (base experience below 10), no roll catches. */
  lemma NoRollCatchesAtThreshold100(baseExp: int)
    requires baseExp >= 0 && CatchThreshold(baseExp) >= 100
    ensures baseExp < 10
    ensures forall roll :: 0 <= roll <= 100 ==> !Caught(roll, baseExp)
  {
  }

  /** From base experience 1010 on, every roll catches. */
  lemma EveryRollCatchesFrom1010(baseExp: int)
    requires baseExp >= 1010
    ensures forall roll :: 0 <= roll <= 100 ==> Caught(roll, baseExp)
  {
  }

  /** How many of the rolls 0, 1, ..., n - 1 catch a creature with base
      experience `baseExp`. */
  function CatchingRolls(n: nat, baseExp: int): nat
  {
    if n == 0 then 0 else CatchingRolls(n - 1, baseExp) + (if Caught(n - 1, baseExp) then 1 else 0)
  }

  /** The odds of the catch rule: of the rolls 0, ..., n - 1, exactly
      `n - 1 - CatchThreshold(baseExp)` catch, clamped to [0, n]. With the
      source's 101 equally likely rolls, `100 - threshold` of them catch. */
  lemma {:induction false} CatchOdds(n: nat, baseExp: int)
    ensures CatchThreshold(baseExp) < 0 ==> CatchingRolls(n, baseExp) == n
    ensures CatchThreshold(baseExp) >= n - 1 ==> CatchingRolls(n, baseExp) == 0
    ensures 0 <= CatchThreshold(baseExp) < n ==> CatchingRolls(n, baseExp) == n - 1 - CatchThreshold(baseExp)
  {
    if n > 0 {
      CatchOdds(n - 1, baseExp);
    }
  }

  /** The state one REPL session keeps between lines. */
  datatype Session = Session(config: Config, cache: Cache, pokedex: map<string, PokemonDetails>)

  /** `newConfig` together with the empty Pokedex. */
  function NewSession(): (s: Session)
    ensures s.config == Config("", "") && s.pokedex == map[]
    ensures s.cache.interval == SessionInterval
    ensures forall k :: Get(s.cache, k) == None
  {
    Session(Config("", ""), NewCache(SessionInterval), map[])
  }

  /** The JSON decoders of the three response shapes. */
  datatype Decoders = Decoders(locations: Bytes -> Option<Locations>, area: Bytes -> Option<Area>,
                               pokemon: Bytes -> Option<PokemonDetails>)

  /** Everything outside the program that one line's handling consults. */
  datatype Env = Env(now: nat, net: Network, roll: int, decoders: Decoders)

  /** What happened to one input line. */
  datatype Outcome = Blank | Unknown(name: string) | Done(name: string, err: Option<CmdError>) | Exit

  datatype StepResult = StepResult(session: Session, outcome: Outcome)

  /** A fetch error as the error of the command that fetched. */
  function Failed(e: Option<FetchError>): (r: Option<CmdError>)
    ensures r.None? <==> e.None?
    ensures r.Some? ==> r.value == FetchFailed(e.value)
  {
    match e
    case None => None
    case Some(fe) => Some(FetchFailed(fe))
  }

  /** The names in the command table. */
  predicate Known(name: string)
  {
    name in {"help", "exit", "map", "mapb", "explore", "catch", "inspect", "pokedex"}
  }

  /** One line of the REPL: tokenise, look the command up, run it. `help`,
      `inspect` and `pokedex` only print, and `inspect` without an argument
      reports an error. */
  function Step(s: Session, line: string, env: Env): (r: StepResult)
    requires 0 <= env.roll <= 100
    ensures r.outcome.Blank? <==> AllSpace(line)
    ensures r.outcome.Unknown? <==> Tokenise(line).Some? && !Known(Tokenise(line).value.name)
    ensures r.outcome.Exit? <==> Tokenise(line).Some? && Tokenise(line).value.name == "exit"
    ensures r.outcome.Blank? || r.outcome.Unknown? || r.outcome.Exit? ==> r.session == s
    ensures r.session.pokedex != s.pokedex ==> Tokenise(line).Some? && Tokenise(line).value.name == "catch"
    ensures r.session.config != s.config ==> Tokenise(line).Some? && Tokenise(line).value.name in {"map", "mapb"}
    ensures r.session.cache.interval == s.cache.interval
    // a known command runs its handler on the line's arguments
    ensures Tokenise(line).Some? && Tokenise(line).value.name == "map" ==>
              var p := CommandMap(s.config, s.cache, env.now, env.net, env.decoders.locations);
              r.session == Session(p.config, p.cache, s.pokedex) && r.outcome == Done("map", Failed(p.err))
    ensures Tokenise(line).Some? && Tokenise(line).value.name == "mapb" ==>
              var p := CommandMapb(s.config, s.cache, env.now, env.net, env.decoders.locations);
              r.session == Session(p.config, p.cache, s.pokedex) && r.outcome == Done("mapb", Failed(p.err))
    ensures Tokenise(line).Some? && Tokenise(line).value.name == "explore" ==>
              var e := CommandExplore(Tokenise(line).value.args, s.cache, env.now, env.net, env.decoders.area);
              r.session == s.(cache := e.cache) && r.outcome == Done("explore", e.err)
    ensures Tokenise(line).Some? && Tokenise(line).value.name == "catch" ==>
              var c := CommandCatch(Tokenise(line).value.args, s.pokedex, s.cache, env.now, env.net,
                                    env.decoders.pokemon, env.roll);
              r.session == s.(cache := c.cache, pokedex := c.pokedex) && r.outcome == Done("catch", c.err)
    ensures Tokenise(line).Some? && Tokenise(line).value.name == "inspect" ==>
              r.session == s && r.outcome == Done("inspect", if Tokenise(line).value.args == [] then Some(MissingArgument) else None)
    ensures Tokenise(line).Some? && Tokenise(line).value.name in {"help", "pokedex"} ==>
              r.session == s && r.outcome == Done(Tokenise(line).value.name, None)
  {
    match Tokenise(line)
    case None => StepResult(s, Blank)
    case Some(Command(name, args)) =>
      if name == "map" || name == "mapb" then
        var p := if name == "map" then CommandMap(s.config, s.cache, env.now, env.net, env.decoders.locations)
                 else CommandMapb(s.config, s.cache, env.now, env.net, env.decoders.locations);
        StepResult(Session(p.config, p.cache, s.pokedex), Done(name, Failed(p.err)))
      else if name == "explore" then
        var e := CommandExplore(args, s.cache, env.now, env.net, env.decoders.area);
        StepResult(s.(cache := e.cache), Done(name, e.err))
      else if name == "catch" then
        var c := CommandCatch(args, s.pokedex, s.cache, env.now, env.net, env.decoders.pokemon, env.roll);
        StepResult(s.(cache := c.cache, pokedex := c.pokedex), Done(name, c.err))
      else if name == "inspect" then
        StepResult(s, Done(name, if args == [] then Some(MissingArgument) else None))
      else if name == "help" || name == "pokedex" then
        StepResult(s, Done(name, None))
      else if name == "exit" then
        StepResult(s, Exit)
      else
        StepResult(s, Unknown(name))
  }
}
