/**
  The gateway's search-response cache (apps/gateway/src/cache.rs): entries with
  a time to live, a bounded size, invalidation by repository, and the in-flight
  table of the singleflight scheme.
 */
module SearchCache {
  import opened Sets
  import opened Wrappers

  datatype Key = Key(repo: string, digest: string)

  /** A stored response, body and content type together, with its insertion time. */
  datatype Cached<+R> = Cached(response: R, inserted: nat)

  type Entries<+R> = map<Key, Cached<R>>

  /** Age is the saturating difference, as `Instant::elapsed` is. */
  predicate Fresh<R>(cached: Cached<R>, ttl: nat, now: nat) {
    now <= cached.inserted || now - cached.inserted <= ttl
  }

  function Lookup<R>(entries: Entries<R>, ttl: nat, now: nat, key: Key): Option<R> {
    if key in entries && Fresh(entries[key], ttl, now) then Some(entries[key].response) else None
  }

  function Sweep<R>(entries: Entries<R>, ttl: nat, now: nat): Entries<R> {
    map k | k in entries && Fresh(entries[k], ttl, now) :: entries[k]
  }

  function Insert<R>(entries: Entries<R>, ttl: nat, maxEntries: nat, now: nat, key: Key, response: R): Entries<R> {
    var kept :=
      if |entries| < maxEntries then entries
      else if |Sweep(entries, ttl, now)| < maxEntries then Sweep(entries, ttl, now)
      else map[];
    kept[key := Cached(response, now)]
  }

  function Without<R>(entries: Entries<R>, repo: string): Entries<R> {
    map k | k in entries && k.repo != repo :: entries[k]
  }

  /** No older than the time to live. */
  predicate WithinTtl<R>(cached: Cached<R>, ttl: nat, now: nat) {
    now <= cached.inserted + ttl
  }

  function Young<R>(entries: Entries<R>, ttl: nat, now: nat): set<Key> {
    set k | k in entries && WithinTtl(entries[k], ttl, now)
  }

  /**
    What a put keeps: everything below the maximum; at the maximum the entries within
    their time to live, if these are fewer; else nothing.  The new entry is stored
    in every case, with its time.
   */
  lemma PutKeepsExactly<R>(entries: Entries<R>, ttl: nat, maxEntries: nat, now: nat, key: Key, response: R, k: Key)
    ensures var after := Insert(entries, ttl, maxEntries, now, key, response);
            && key in after && after[key] == Cached(response, now)
            && (k != key ==>
                  && (k in after <==>
                        k in entries && (|entries| < maxEntries ||
                                         (WithinTtl(entries[k], ttl, now) && |Young(entries, ttl, now)| < maxEntries)))
                  && (k in after ==> after[k] == entries[k]))
  {
    assert Sweep(entries, ttl, now).Keys == Young(entries, ttl, now);
    assert |Sweep(entries, ttl, now)| == |Young(entries, ttl, now)|;
  }

  /** A lookup answers exactly with an entry of its key that is no older than the time to live. */
  lemma LookupExactly<R>(entries: Entries<R>, ttl: nat, now: nat, key: Key, response: R)
    ensures Lookup(entries, ttl, now, key) == Some(response) <==>
            key in entries && WithinTtl(entries[key], ttl, now) && entries[key].response == response
  {
  }

  /** The flight a caller joined: its leader, or a follower of the numbered channel. */
  datatype Flight = Leader(channel: nat) | Follower(channel: nat)

  class Cache<R> {
    var entries: Entries<R>
    var inflight: map<Key, nat>
    /** Channels made so far: each `watch::channel` call makes a new one. */
    var channels: nat
    const ttl: nat
    const maxEntries: nat

    constructor (ttl: nat, maxEntries: nat)
      ensures this.ttl == ttl && this.maxEntries == maxEntries
      ensures entries == map[] && inflight == map[] && channels == 0
    {
      this.ttl, this.maxEntries := ttl, maxEntries;
      entries, inflight, channels := map[], map[], 0;
    }

    method BeginFlight(key: Key) returns (flight: Flight)
      modifies this`inflight, this`channels
      ensures key in old(inflight) ==>
                flight == Follower(old(inflight)[key]) && inflight == old(inflight) && channels == old(channels)
      ensures key !in old(inflight) ==>
                && flight == Leader(old(channels))
                && inflight == old(inflight)[key := old(channels)]
                && channels == old(channels) + 1
    {
      if key in inflight {
        return Follower(inflight[key]);
      }
      flight := Leader(channels);
      inflight := inflight[key := channels];
      channels := channels + 1;
    }

    method FinishFlight(key: Key)
      modifies this`inflight
      ensures inflight == old(inflight) - {key}
    {
      inflight := inflight - {key};
    }

    method Get(key: Key, now: nat) returns (hit: Option<R>)
      ensures hit == Lookup(entries, ttl, now, key)
    {
      hit := None;
      if key in entries {
        var cached := entries[key];
        if now <= cached.inserted || now - cached.inserted <= ttl {
          hit := Some(cached.response);
        }
      }
    }

    method Put(key: Key, response: R, now: nat)
      modifies this`entries
      ensures entries == Insert(old(entries), ttl, maxEntries, now, key, response)
    {
      if |entries| >= maxEntries {
        entries := map k | k in entries && Fresh(entries[k], ttl, now) :: entries[k];
        if |entries| >= maxEntries {
          entries := map[];
        }
      }
      entries := entries[key := Cached(response, now)];
    }

    method InvalidateRepo(repo: string)
      modifies this`entries
      ensures entries == Without(old(entries), repo)
    {
      entries := map k | k in entries && k.repo != repo :: entries[k];
    }
  }

  // ----- Refinement of the history -----

  datatype Event<+R> = Tick(elapsed: nat) | Put(key: Key, response: R) | Invalidate(repo: string)

  datatype Config = Config(ttl: nat, maxEntries: nat)

  function Clock<R>(history: seq<Event<R>>): nat {
    if history == [] then 0 else
    var last := history[|history| - 1];
    Clock(history[..|history| - 1]) + if last.Tick? then last.elapsed else 0
  }

  function Replay<R>(cfg: Config, history: seq<Event<R>>): Entries<R> {
    if history == [] then map[] else
    var entries := Replay(cfg, history[..|history| - 1]);
    match history[|history| - 1]
    case Tick(_) => entries
    case Put(key, response) => Insert(entries, cfg.ttl, cfg.maxEntries, Clock(history), key, response)
    case Invalidate(repo) => Without(entries, repo)
  }

  /** Reference definition: the last put of `key` with no later invalidation of its repository. */
  function Latest<R>(history: seq<Event<R>>, key: Key): Option<Cached<R>> {
    if history == [] then None else
    var before := Latest(history[..|history| - 1], key);
    match history[|history| - 1]
    case Tick(_) => before
    case Put(k, response) => if k == key then Some(Cached(response, Clock(history))) else before
    case Invalidate(repo) => if key.repo == repo then None else before
  }

  lemma {:induction false} EntriesAreLatest<R>(cfg: Config, history: seq<Event<R>>)
    ensures forall key :: key in Replay(cfg, history) ==>
              Latest(history, key) == Some(Replay(cfg, history)[key])
  {
    if history != [] {
      EntriesAreLatest(cfg, history[..|history| - 1]);
    }
  }

  lemma {:induction false} InsertedNoLaterThanClock<R>(history: seq<Event<R>>, key: Key)
    ensures Latest(history, key).Some? ==> Latest(history, key).value.inserted <= Clock(history)
  {
    if history != [] {
      InsertedNoLaterThanClock(history[..|history| - 1], key);
    }
  }

  /** A hit replays the latest uninvalidated put of its key, no older than the time to live. */
  lemma HitIsTheLatestPut<R>(cfg: Config, history: seq<Event<R>>, key: Key)
    ensures var hit := Lookup(Replay(cfg, history), cfg.ttl, Clock(history), key);
            hit.Some? ==>
              && Latest(history, key).Some?
              && hit == Some(Latest(history, key).value.response)
              && 0 <= Clock(history) - Latest(history, key).value.inserted <= cfg.ttl
  {
    EntriesAreLatest(cfg, history);
    InsertedNoLaterThanClock(history, key);
  }

  /** The cache never holds more than `maxEntries` responses, or one when `maxEntries` is 0. */
  lemma {:induction false} SizeIsBounded<R>(cfg: Config, history: seq<Event<R>>)
    ensures |Replay(cfg, history)| <= if cfg.maxEntries == 0 then 1 else cfg.maxEntries
  {
    if history != [] {
      var before := history[..|history| - 1];
      SizeIsBounded(cfg, before);
      var entries := Replay(cfg, before);
      match history[|history| - 1]
      case Tick(_) =>
      case Put(key, response) =>
      case Invalidate(repo) => SubmapIsNoLarger(Without(entries, repo), entries);
    }
  }

  lemma SubmapIsNoLarger<R>(small: Entries<R>, large: Entries<R>)
    requires small.Keys <= large.Keys
    ensures |small| <= |large|
  {
    SubsetIsNoLarger(small.Keys, large.Keys);
  }

  function KeysPut<R>(history: seq<Event<R>>): set<Key> {
    set i | 0 <= i < |history| && history[i].Put? :: history[i].key
  }

  /** Below capacity nothing is evicted, and the cache is exactly its history. */
  lemma {:induction false} BelowCapacityIsExact<R>(cfg: Config, history: seq<Event<R>>)
    requires |KeysPut(history)| < cfg.maxEntries
    ensures Replay(cfg, history).Keys <= KeysPut(history)
    ensures forall key :: key in Replay(cfg, history) <==> Latest(history, key).Some?
    ensures forall key :: Lookup(Replay(cfg, history), cfg.ttl, Clock(history), key) ==
              match Latest(history, key)
              case None => None
              case Some(cached) => if Fresh(cached, cfg.ttl, Clock(history)) then Some(cached.response) else None
  {
    EntriesAreLatest(cfg, history);
    if history != [] {
      var before := history[..|history| - 1];
      assert KeysPut(before) <= KeysPut(history) by {
        forall k | k in KeysPut(before) ensures k in KeysPut(history) {
          var i :| 0 <= i < |before| && before[i].Put? && before[i].key == k;
          assert history[i] == before[i];
        }
      }
      SubsetIsNoLarger(KeysPut(before), KeysPut(history));
      BelowCapacityIsExact(cfg, before);
      SubsetIsNoLarger(Replay(cfg, before).Keys, KeysPut(before));
      var last := history[|history| - 1];
      if last.Put? {
        assert last.key in KeysPut(history);
      }
    }
  }
}
