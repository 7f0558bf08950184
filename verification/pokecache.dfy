/**
 * The expiring response cache of internal/pokecache.go.
 *
 * The cache is a map from request key to a timestamped payload plus one
 * fixed interval. Every operation is one atomic step: the mutex that
 * serialises them and the reaper goroutine that calls the sweep are left
 * out, and the clock is an explicit `now` argument (nanoseconds).
 */
module PokeCache {
  import opened Wrappers

  /** A raw response payload. */
  type Bytes = seq<bv8>

  /** One stored response: when it was stored and what was stored. */
  datatype Entry = Entry(createdAt: nat, val: Bytes)

  /** The cache state: at most one entry per key, and the reap interval. */
  datatype Cache = Cache(entries: map<string, Entry>, interval: nat)

  /** The sweep's staleness test: the entry's age is STRICTLY greater than
      the interval. The age is an `int` because the clock may have been
      read before the entry was stored. */
  predicate Expired(e: Entry, interval: nat, now: nat)
  {
    now - e.createdAt > interval
  }

  /** A fresh, empty cache. Starting the reaper is not part of the state;
      the source's ticker refuses a non-positive interval, hence the
      requires. */
  function NewCache(interval: nat): (c: Cache)
    requires interval > 0
    ensures forall k :: Get(c, k) == None
    ensures c.interval == interval
  {
    Cache(map[], interval)
  }

  /** Stores `val` under `key` with the time of the call, replacing any
      entry already there. */
  function Add(c: Cache, key: string, val: Bytes, now: nat): (c': Cache)
    ensures Get(c', key) == Some(val)
    ensures key in c'.entries && c'.entries[key].createdAt == now
    ensures c'.entries.Keys == c.entries.Keys + {key}
    ensures forall k :: k in c.entries && k != key ==> c'.entries[k] == c.entries[k]
    ensures c'.interval == c.interval
  {
    Cache(c.entries[key := Entry(now, val)], c.interval)
  }

  /** Looks `key` up. The entry's age is not consulted: an entry is
      returned however old it is, until a sweep has removed it. */
  function Get(c: Cache, key: string): (r: Option<Bytes>)
    ensures r.Some? <==> key in c.entries
    ensures r.Some? ==> r.value == c.entries[key].val
  {
    if key in c.entries then Some(c.entries[key].val) else None
  }

  /** The result of one reaper tick at time `now`, as a set comprehension:
      exactly the entries that have not expired, unchanged. */
  function Swept(c: Cache, now: nat): (c': Cache)
    ensures c'.interval == c.interval
    ensures c'.entries.Keys <= c.entries.Keys
    ensures forall k :: k in c'.entries ==> c'.entries[k] == c.entries[k]
    ensures forall k :: k in c'.entries ==> !Expired(c'.entries[k], c.interval, now)
    ensures forall k :: k in c.entries && !Expired(c.entries[k], c.interval, now) ==> k in c'.entries
  {
    Cache(map k | k in c.entries && !Expired(c.entries[k], c.interval, now) :: c.entries[k], c.interval)
  }

  /** One reaper tick as the source performs it: visit every key once, in
      no particular order, deleting the expired ones. */
  method Reap(c: Cache, now: nat) returns (c': Cache)
    ensures c' == Swept(c, now)
  {
    var m := c.entries;
    var todo := c.entries.Keys;
    while todo != {}
      invariant todo <= c.entries.Keys
      invariant m.Keys <= c.entries.Keys
      invariant todo <= m.Keys
      invariant forall k :: k in m ==> m[k] == c.entries[k]
      invariant forall k :: k in c.entries && k !in todo ==> (k in m <==> !Expired(c.entries[k], c.interval, now))
      decreases todo
    {
      var k :| k in todo;
      if Expired(m[k], c.interval, now) {
        m := m - {k};
      }
      todo := todo - {k};
    }
    c' := Cache(m, c.interval);
  }

  /** Storing twice under one key keeps only the second value and the
      second call's timestamp. */
  lemma AddOverwrites(c: Cache, key: string, v1: Bytes, t1: nat, v2: Bytes, t2: nat)
    ensures Add(Add(c, key, v1, t1), key, v2, t2) == Add(c, key, v2, t2)
    ensures Get(Add(Add(c, key, v1, t1), key, v2, t2), key) == Some(v2)
  {
  }

  /** A sweep at the same instant finds nothing more to remove. */
  lemma SweepIdempotent(c: Cache, now: nat)
    ensures Swept(Swept(c, now), now) == Swept(c, now)
  {
  }

  /** A later sweep subsumes an earlier one: an entry expired at `t1` is
      still expired at `t2 >= t1`. */
  lemma LaterSweepSubsumes(c: Cache, t1: nat, t2: nat)
    requires t1 <= t2
    ensures Swept(Swept(c, t1), t2) == Swept(c, t2)
  {
  }

  /** The boundary case of the strict comparison: an entry exactly
      `interval` old survives the sweep, one a nanosecond older does not. */
  lemma SweepBoundary(c: Cache, key: string, val: Bytes, t: nat)
    ensures Get(Swept(Add(c, key, val, t), t + c.interval), key) == Some(val)
    ensures Get(Swept(Add(c, key, val, t), t + c.interval + 1), key) == None
  {
  }

  /** The cache operations as the program issues them over time. */
  datatype Op = Put(key: string, val: Bytes, at: nat) | Lookup(key: string) | Tick(at: nat)

  function Apply(c: Cache, op: Op): Cache
  {
    match op
    case Put(k, v, t) => Add(c, k, v, t)
    case Lookup(_) => c
    case Tick(t) => Swept(c, t)
  }

  /** The cache after a sequence of operations. */
  function Run(c: Cache, ops: seq<Op>): Cache
    decreases |ops|
  {
    if ops == [] then c else Run(Apply(c, ops[0]), ops[1..])
  }

  /** No operation in `ops` stores under `key`. */
  predicate NoPut(ops: seq<Op>, key: string)
  {
    forall i :: 0 <= i < |ops| ==> !(ops[i].Put? && ops[i].key == key)
  }

  /** No operation changes the interval. */
  lemma {:induction false} RunKeepsInterval(c: Cache, ops: seq<Op>)
    ensures Run(c, ops).interval == c.interval
    decreases |ops|
  {
    if ops != [] {
      RunKeepsInterval(Apply(c, ops[0]), ops[1..]);
    }
  }

  /** Running two sequences one after the other. */
  lemma {:induction false} RunAppend(c: Cache, a: seq<Op>, b: seq<Op>)
    ensures Run(c, a + b) == Run(Run(c, a), b)
    decreases |a|
  {
    if a == [] {
      assert a + b == b;
    } else {
      assert (a + b)[1..] == a[1..] + b;
      RunAppend(Apply(c, a[0]), a[1..], b);
    }
  }

  /** No spurious hits: a key that was absent and is never stored stays a
      miss, whatever lookups and sweeps happen meanwhile. */
  lemma {:induction false} NoSpuriousHits(c: Cache, ops: seq<Op>, key: string)
    requires key !in c.entries
    requires NoPut(ops, key)
    ensures Get(Run(c, ops), key) == None
    decreases |ops|
  {
    if ops != [] {
      assert !(ops[0].Put? && ops[0].key == key);
      assert NoPut(ops[1..], key) by {
        forall i | 0 <= i < |ops[1..]|
          ensures !(ops[1..][i].Put? && ops[1..][i].key == key)
        {
          assert ops[1..][i] == ops[i + 1];
        }
      }
      NoSpuriousHits(Apply(c, ops[0]), ops[1..], key);
    }
  }

  /** The freshness window: an entry stored at `t` is returned by `Get`
      until it is overwritten, through every sweep that happens no more
      than `interval` after `t`. */
  lemma {:induction false} PresentWhileFresh(c: Cache, ops: seq<Op>, key: string, val: Bytes, t: nat)
    requires key in c.entries && c.entries[key] == Entry(t, val)
    requires NoPut(ops, key)
    requires forall i :: 0 <= i < |ops| && ops[i].Tick? ==> ops[i].at - t <= c.interval
    ensures Get(Run(c, ops), key) == Some(val)
    decreases |ops|
  {
    if ops != [] {
      var c1 := Apply(c, ops[0]);
      assert !(ops[0].Put? && ops[0].key == key);
      assert key in c1.entries && c1.entries[key] == Entry(t, val) by {
        if ops[0].Tick? {
          assert !Expired(c.entries[key], c.interval, ops[0].at);
        }
      }
      assert c1.interval == c.interval;
      var rest := ops[1..];
      forall i | 0 <= i < |rest|
        ensures !(rest[i].Put? && rest[i].key == key)
        ensures rest[i].Tick? ==> rest[i].at - t <= c1.interval
      {
        assert rest[i] == ops[i + 1];
      }
      PresentWhileFresh(c1, rest, key, val, t);
    }
  }

  /** While no operation stores under `key` later than `t`, the entry for
      `key` (if any) was created no later than `t`. */
  lemma {:induction false} StoredNoLaterThan(c: Cache, ops: seq<Op>, key: string, t: nat)
    requires key in c.entries ==> c.entries[key].createdAt <= t
    requires forall i :: 0 <= i < |ops| && ops[i].Put? && ops[i].key == key ==> ops[i].at <= t
    ensures key in Run(c, ops).entries ==> Run(c, ops).entries[key].createdAt <= t
    decreases |ops|
  {
    if ops != [] {
      var rest := ops[1..];
      forall i | 0 <= i < |rest| && rest[i].Put? && rest[i].key == key
        ensures rest[i].at <= t
      {
        assert rest[i] == ops[i + 1];
      }
      StoredNoLaterThan(Apply(c, ops[0]), rest, key, t);
    }
  }

  /** The staleness bound of one sweep: if every store under `key` so far
      happened no later than `t`, a sweep at a time more than `interval`
      after `t` removes the key, and it stays a miss until stored again. */
  lemma GoneAfterStaleTick(c: Cache, before: seq<Op>, now: nat, after: seq<Op>, key: string, t: nat)
    requires key in c.entries ==> c.entries[key].createdAt <= t
    requires forall i :: 0 <= i < |before| && before[i].Put? && before[i].key == key ==> before[i].at <= t
    requires now - t > c.interval
    requires NoPut(after, key)
    ensures Get(Run(c, before + [Tick(now)] + after), key) == None
  {
    var mid := Run(c, before);
    StoredNoLaterThan(c, before, key, t);
    RunKeepsInterval(c, before);
    var swept := Swept(mid, now);
    assert key !in swept.entries;
    assert Run(mid, [Tick(now)]) == swept by {
      assert [Tick(now)][1..] == [];
    }
    RunAppend(c, before, [Tick(now)]);
    RunAppend(c, before + [Tick(now)], after);
    NoSpuriousHits(swept, after, key);
  }

  /** The example run of the cache's behaviour: with a 50 ms interval, a
      payload stored at time 0 is found at once and gone after a sweep at
      120 ms; a second store under a key replaces the first. */
  lemma ExampleScenario()
    ensures var c := Add(NewCache(50_000_000), "a", [1, 2, 3], 0);
            Get(c, "a") == Some([1, 2, 3]) && Get(Swept(c, 120_000_000), "a") == None
    ensures Get(Add(Add(NewCache(50_000_000), "x", [9], 0), "x", [8], 1), "x") == Some([8])
  {
  }
}
