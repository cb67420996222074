/** Reading compiled configurations through Redis (backend/app/services/cache.py). */
module Cache {
  import opened Prelude
  import opened Sorting
  import opened Configuration

  /** A stored payload; Redis drops it when `expires` comes. */
  datatype Entry = Entry(config: FlagConfiguration, expires: int)

  datatype Event = Event(channel: string, flagKey: string, version: int, revision: int)

  datatype LoadError = FlagNotFound | FlagsNotFound(missing: seq<string>)

  /** How the calls to Redis go; a call that fails may still have taken effect. */
  datatype Weather = Weather(readFails: bool, writeTakes: set<string>)

  function CacheKey(projectId: string, environmentId: string, flagKey: string): string {
    "cohortswitch:config:" + projectId + ":" + environmentId + ":" + flagKey
  }

  /** Ids of one length, as UUIDs are, keep the keys of different flags apart. */
  lemma {:induction false} CacheKeysDiffer(p: string, e: string, k: string, q: string, f: string, l: string)
    requires |p| == |q| && |e| == |f|
    ensures CacheKey(p, e, k) == CacheKey(q, f, l) <==> p == q && e == f && k == l
  {
    var a, b := CacheKey(p, e, k), CacheKey(q, f, l);
    var n := |"cohortswitch:config:"|;
    if a == b {
      assert a[n..n + |p|] == p && b[n..n + |q|] == q;
      assert a[n + |p| + 1..n + |p| + 1 + |e|] == e && b[n + |p| + 1..n + |p| + 1 + |e|] == f;
      assert a[n + |p| + |e| + 2..] == k && b[n + |p| + |e| + 2..] == l;
    }
  }

  predicate Fresh(entries: map<string, Entry>, key: string, now: int) {
    key in entries && now < entries[key].expires
  }

  /** What a read of the cache gives. */
  function Cached(entries: map<string, Entry>, readFails: bool, now: int, key: string): Option<FlagConfiguration> {
    if !readFails && Fresh(entries, key, now) then Some(entries[key].config) else None
  }

  /** What one load answers: the cached payload if Redis gives it, else the database row. */
  function Lookup(
    entries: map<string, Entry>, db: map<string, FlagConfiguration>, readFails: bool, now: int, key: string)
    : Option<FlagConfiguration>
  {
    var cached := Cached(entries, readFails, now, key);
    if cached.Some? then cached else if key in db then Some(db[key]) else None
  }

  function Invalidated(entries: map<string, Entry>, key: string, takes: bool): map<string, Entry> {
    if takes then entries - {key} else entries
  }

  /** `get_configs_by_keys`. */
  function Found(db: map<string, FlagConfiguration>, keys: seq<string>): map<string, FlagConfiguration> {
    map k | k in keys && k in db :: db[k]
  }

  /** The entries a batch load writes: the keys it missed in the cache and found in the database. */
  function Refilled(
    entries: map<string, Entry>, db: map<string, FlagConfiguration>, keys: seq<string>, weather: Weather, now: int,
    expires: int)
    : map<string, Entry>
  {
    map k | k in db && k in keys && Cached(entries, weather.readFails, now, k).None? && k in weather.writeTakes
      :: Entry(db[k], expires)
  }

  function Stored(configs: map<string, FlagConfiguration>, takes: set<string>, expires: int): map<string, Entry> {
    map k | k in configs && k in takes :: Entry(configs[k], expires)
  }

  lemma {:induction false} StoredIsRefilled(
    entries: map<string, Entry>, db: map<string, FlagConfiguration>, keys: seq<string>, misses: seq<string>,
    weather: Weather, now: int, expires: int)
    requires forall k :: k in misses <==> k in keys && Cached(entries, weather.readFails, now, k).None?
    ensures Stored(Found(db, misses), weather.writeTakes, expires)
         == Refilled(entries, db, keys, weather, now, expires)
  {
    hide Cached;
  }

  /** Cache hits and loaded misses together are what single loads would answer. */
  lemma {:induction false} BatchIsLookups(
    entries: map<string, Entry>, db: map<string, FlagConfiguration>, keys: seq<string>, readFails: bool, now: int,
    hits: map<string, FlagConfiguration>, misses: seq<string>)
    requires forall k :: k in misses <==> k in keys && Cached(entries, readFails, now, k).None?
    requires forall k :: k in hits <==> k in keys && Cached(entries, readFails, now, k).Some?
    requires forall k :: k in hits ==> Some(hits[k]) == Cached(entries, readFails, now, k)
    ensures var all := hits + Found(db, misses);
      && (forall k :: k in all <==> k in keys && Lookup(entries, db, readFails, now, k).Some?)
      && forall k :: k in all ==> Lookup(entries, db, readFails, now, k) == Some(all[k])
  {
    hide Cached;
  }

  class Redis {
    var entries: map<string, Entry>
    var events: seq<Event>

    constructor ()
      ensures entries == map[] && events == []
    {
      entries, events := map[], [];
    }

    method Get(key: string, fails: bool, now: int) returns (r: Outcome<Option<FlagConfiguration>>)
      ensures r == if fails then Raised else Returned(Cached(entries, false, now, key))
    {
      if fails {
        return Raised;
      }
      return Returned(if key in entries && now < entries[key].expires then Some(entries[key].config) else None);
    }

    method MGet(keys: seq<string>, fails: bool, now: int) returns (r: Outcome<seq<Option<FlagConfiguration>>>)
      ensures r.Raised? <==> fails
      ensures r.Returned? ==>
        && |r.value| == |keys|
        && forall i :: 0 <= i < |keys| ==> r.value[i] == Cached(entries, false, now, keys[i])
    {
      if fails {
        return Raised;
      }
      var found: seq<Option<FlagConfiguration>> := [];
      for i := 0 to |keys|
        invariant |found| == i
        invariant forall j :: 0 <= j < i ==> found[j] == Cached(entries, false, now, keys[j])
      {
        found := found + [if Fresh(entries, keys[i], now) then Some(entries[keys[i]].config) else None];
      }
      return Returned(found);
    }

    /** The set commands for `configs`, of which those named in `takes` reach the store. */
    method SetAll(configs: map<string, FlagConfiguration>, takes: set<string>, expires: int)
      modifies this`entries
      ensures entries == old(entries) + Stored(configs, takes, expires)
    {
      var rest := configs.Keys;
      while rest != {}
        invariant rest <= configs.Keys
        invariant entries == old(entries) + map k | k in configs && k in takes && k !in rest ::
          Entry(configs[k], expires)
        decreases |rest|
      {
        var key := Pick(rest);
        rest := rest - {key};
        if key in takes {
          entries := entries[key := Entry(configs[key], expires)];
        }
      }
    }

    /** `load_configuration`. */
    method LoadConfiguration(db: map<string, FlagConfiguration>, key: string, weather: Weather, now: int, ttl: int)
      returns (r: Result<FlagConfiguration, LoadError>)
      modifies this`entries
      ensures r == match Lookup(old(entries), db, weather.readFails, now, key)
                   case Some(config) => Ok(config)
                   case None => Err(FlagNotFound)
      ensures entries == old(entries) + Refilled(old(entries), db, [key], weather, now, now + ttl)
    {
      var payload := Get(key, weather.readFails, now);
      if payload.Returned? && payload.value.Some? {
        return Ok(payload.value.value);
      }
      if key !in db {
        return Err(FlagNotFound);
      }
      if key in weather.writeTakes {
        entries := entries[key := Entry(db[key], now + ttl)];
      }
      return Ok(db[key]);
    }

    /**
     * `load_configurations`: every requested key once, each with what a load of its own would give
     * it from the same cache and database; or an error that names exactly the keys found nowhere.
     */
    method LoadConfigurations(
      db: map<string, FlagConfiguration>, keys: seq<string>, weather: Weather, now: int, ttl: int)
      returns (r: Result<map<string, FlagConfiguration>, LoadError>)
      modifies this`entries
      ensures r.Ok? <==> forall k :: k in keys ==> Lookup(old(entries), db, weather.readFails, now, k).Some?
      ensures r.Ok? ==>
        && (forall k :: k in r.value <==> k in keys)
        && forall k :: k in r.value ==> Lookup(old(entries), db, weather.readFails, now, k) == Some(r.value[k])
      ensures r.Err? ==>
        && r.error.FlagsNotFound? && Alphabetical(r.error.missing)
        && forall k :: k in r.error.missing <==> k in keys && Lookup(old(entries), db, weather.readFails, now, k).None?
      ensures entries == old(entries) + Refilled(old(entries), db, keys, weather, now, now + ttl)
    {
      hide Cached, Stored, Refilled, Lookup, Found;
      ghost var before := entries;
      var configs, misses := ReadBatch(keys, weather.readFails, now);
      var loaded := Found(db, misses);
      SetAll(loaded, weather.writeTakes, now + ttl);
      StoredIsRefilled(before, db, keys, misses, weather, now, now + ttl);
      BatchIsLookups(before, db, keys, weather.readFails, now, configs, misses);
      configs := configs + loaded;
      r := NameMissing(keys, configs);
    }

    /** The first half of a batch: one MGET, and what it leaves to be loaded. */
    method ReadBatch(keys: seq<string>, readFails: bool, now: int)
      returns (configs: map<string, FlagConfiguration>, misses: seq<string>)
      ensures forall k :: k in misses <==> k in keys && Cached(entries, readFails, now, k).None?
      ensures forall k :: k in configs <==> k in keys && Cached(entries, readFails, now, k).Some?
      ensures forall k :: k in configs ==> Some(configs[k]) == Cached(entries, readFails, now, k)
    {
      hide Cached;
      var uniqueKeys := Unique(keys);
      var cached := seq(|uniqueKeys|, _ => None);
      var answer := MGet(uniqueKeys, readFails, now);
      if answer.Returned? {
        cached := answer.value;
      }
      ghost var before := entries;
      ghost var hit := k => Cached(before, readFails, now, k);
      ReadFailure(before, now);
      configs, misses := Split(uniqueKeys, cached, hit);
    }

    /**
     * `invalidate_and_publish`. Other flags keep their entries, and subscribers hear of the write only
     * when the call that deletes did not raise.
     */
    method InvalidateAndPublish(key: string, event: Event, deleteTakes: bool, deleteFails: bool, publishTakes: bool)
      requires deleteTakes || deleteFails
      modifies this
      ensures entries == Invalidated(old(entries), key, deleteTakes)
      ensures deleteFails ==> events == old(events)
      ensures !deleteFails ==> key !in entries && events == old(events) + if publishTakes then [event] else []
    {
      if deleteTakes {
        entries := entries - {key};
      }
      if deleteFails {
        return;
      }
      if publishTakes {
        events := events + [event];
      }
    }
  }

  lemma {:induction false} ReadFailure(entries: map<string, Entry>, now: int)
    ensures forall k :: Cached(entries, true, now, k) == None
  {
  }

  /** `list(dict.fromkeys(keys))`. */
  method Unique(keys: seq<string>) returns (unique: seq<string>)
    ensures forall k :: k in unique <==> k in keys
    ensures forall i, j :: 0 <= i < j < |unique| ==> unique[i] != unique[j]
  {
    unique := [];
    for i := 0 to |keys|
      invariant forall k :: k in unique <==> k in keys[..i]
      invariant forall i, j :: 0 <= i < j < |unique| ==> unique[i] != unique[j]
    {
      assert keys[..i + 1] == keys[..i] + [keys[i]];
      if keys[i] !in unique {
        unique := unique + [keys[i]];
      }
    }
    assert keys[..|keys|] == keys;
  }

  method NameMissing(keys: seq<string>, configs: map<string, FlagConfiguration>)
    returns (r: Result<map<string, FlagConfiguration>, LoadError>)
    ensures r.Ok? <==> forall k :: k in keys ==> k in configs
    ensures r.Ok? ==> r.value == configs
    ensures r.Err? ==>
      && r.error.FlagsNotFound? && Alphabetical(r.error.missing)
      && forall k :: k in r.error.missing <==> k in keys && k !in configs
  {
    var missing := (set k | k in keys) - configs.Keys;
    if missing != {} {
      ghost var gone := Member(missing);
      var names := SortTexts(missing);
      return Err(FlagsNotFound(names));
    }
    assert forall k :: k in keys ==> k !in missing;
    return Ok(configs);
  }

  /** The loop that fills `configs` and `misses`, told what the cache gave for each key. */
  method Split(
    keys: seq<string>, cached: seq<Option<FlagConfiguration>>, ghost hit: string -> Option<FlagConfiguration>)
    returns (configs: map<string, FlagConfiguration>, misses: seq<string>)
    requires |cached| == |keys| && forall i :: 0 <= i < |keys| ==> cached[i] == hit(keys[i])
    ensures forall k :: k in misses <==> k in keys && hit(k).None?
    ensures forall k :: k in configs <==> k in keys && hit(k).Some?
    ensures forall k :: k in configs ==> Some(configs[k]) == hit(k)
  {
    configs, misses := map[], [];
    for i := 0 to |keys|
      invariant forall k :: k in misses <==> k in keys[..i] && hit(k).None?
      invariant forall k :: k in configs <==> k in keys[..i] && hit(k).Some?
      invariant forall k :: k in configs ==> Some(configs[k]) == hit(k)
    {
      assert keys[..i + 1] == keys[..i] + [keys[i]];
      if cached[i].Some? {
        configs := configs[keys[i] := cached[i].value];
      } else {
        misses := misses + [keys[i]];
      }
    }
    assert keys[..|keys|] == keys;
  }
}
