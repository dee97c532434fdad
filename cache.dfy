/** The TTL cache of `utils/cache.py`: a string-keyed dictionary of
    `(data, timestamp)` entries with expiry on read and a periodic sweep.

    Every operation is a class method that changes the dictionary in place, as
    the source does, and is specified by a pure step function over the cache's
    state (`CacheState`); the properties of the cache are lemmas about those
    step functions. The clock is the explicit parameter `now`. */
module TtlCache {
  import opened Common

  datatype CacheEntry<T> = CacheEntry(data: T, timestamp: int)

  /** The mutable part of a cache: the dictionary and the time of the last sweep. */
  datatype CacheState<T> = CacheState(entries: map<string, CacheEntry<T>>, lastCleanup: int)

  /** The result of a read: the state afterwards and the value returned. */
  datatype Lookup<T> = Lookup(state: CacheState<T>, value: Option<T>)

  /** The result of a batched read. */
  datatype LookupMany<T> = LookupMany(entries: map<string, CacheEntry<T>>, result: map<string, Option<T>>)

  /** `_is_expired`: strictly more than `expiry` seconds old. */
  predicate IsExpired(timestamp: int, now: int, expiry: int)
  {
    now - timestamp > expiry
  }

  /** `_should_cleanup` together with the non-emptiness test its callers make. */
  predicate CleanupDue<T>(s: CacheState<T>, now: int, interval: int)
  {
    |s.entries| > 0 && now - s.lastCleanup > interval
  }

  /** The entries a sweep at time `now` keeps. */
  function LiveEntries<T>(m: map<string, CacheEntry<T>>, now: int, expiry: int): (r: map<string, CacheEntry<T>>)
    ensures forall k :: k in r <==> k in m && !IsExpired(m[k].timestamp, now, expiry)
    ensures forall k :: k in r ==> r[k] == m[k]
  {
    map k | k in m && !IsExpired(m[k].timestamp, now, expiry) :: m[k]
  }

  /** `_cleanup`: keep the live entries and record the sweep time. */
  function CleanupOf<T>(s: CacheState<T>, now: int, expiry: int): CacheState<T>
  {
    CacheState(LiveEntries(s.entries, now, expiry), now)
  }

  /** The optional sweep that `get` and `get_many` run first. */
  function SweepOf<T>(s: CacheState<T>, now: int, expiry: int, interval: int): CacheState<T>
  {
    if CleanupDue(s, now, interval) then CleanupOf(s, now, expiry) else s
  }

  /** Reading one key without a sweep: expired entries are deleted. */
  function ReadKey<T>(s: CacheState<T>, key: string, now: int, expiry: int): Lookup<T>
  {
    if key !in s.entries then Lookup(s, None)
    else if IsExpired(s.entries[key].timestamp, now, expiry) then
      Lookup(s.(entries := s.entries - {key}), None)
    else Lookup(s, Some(s.entries[key].data))
  }

  /** `get(key)`. */
  function GetOf<T>(s: CacheState<T>, key: string, now: int, expiry: int, interval: int): Lookup<T>
  {
    if key == "" then Lookup(s, None)
    else ReadKey(SweepOf(s, now, expiry, interval), key, now, expiry)
  }

  /** `set(key, value)`. */
  function SetOf<T>(s: CacheState<T>, key: string, value: T, now: int): CacheState<T>
  {
    if key == "" then s else s.(entries := s.entries[key := CacheEntry(value, now)])
  }

  /** The dictionary and partial result after the loop reads `key`. */
  function NextRead<T>(m: map<string, CacheEntry<T>>, key: string, now: int, expiry: int,
                       acc: map<string, Option<T>>): (map<string, CacheEntry<T>>, map<string, Option<T>>)
  {
    if key !in m then (m, acc[key := None])
    else if IsExpired(m[key].timestamp, now, expiry) then (m - {key}, acc[key := None])
    else (m, acc[key := Some(m[key].data)])
  }

  /** The loop of `get_many` over the keys still to read, starting from the
      dictionary `m` and the partial result `acc`. */
  function ReadKeys<T>(m: map<string, CacheEntry<T>>, keys: seq<string>, now: int, expiry: int,
                       acc: map<string, Option<T>>): LookupMany<T>
    decreases |keys|
  {
    if keys == [] then LookupMany(m, acc)
    else
      var next := NextRead(m, keys[0], now, expiry, acc);
      ReadKeys(next.0, keys[1..], now, expiry, next.1)
  }

  /** One turn of the `get_many` loop reads its key as `get` would without a sweep. */
  lemma ReadKeysStep<T>(m: map<string, CacheEntry<T>>, key: string, rest: seq<string>, now: int, expiry: int,
                        acc: map<string, Option<T>>, lastCleanup: int)
    ensures var l := ReadKey(CacheState(m, lastCleanup), key, now, expiry);
      ReadKeys(m, [key] + rest, now, expiry, acc) == ReadKeys(l.state.entries, rest, now, expiry, acc[key := l.value])
  {
    assert ([key] + rest)[0] == key && ([key] + rest)[1..] == rest;
  }

  /** `get_many(keys)`: one optional sweep, then every key in order. */
  function GetManyOf<T>(s: CacheState<T>, keys: seq<string>, now: int, expiry: int, interval: int): (CacheState<T>, map<string, Option<T>>)
  {
    var swept := SweepOf(s, now, expiry, interval);
    var r := ReadKeys(swept.entries, keys, now, expiry, map[]);
    (CacheState(r.entries, swept.lastCleanup), r.result)
  }

  class Cache<T> {
    var entries: map<string, CacheEntry<T>>
    const expirySeconds: int
    const cleanupInterval: int
    var lastCleanup: int

    function State(): CacheState<T>
      reads this
    {
      CacheState(entries, lastCleanup)
    }

    constructor (expirySeconds: int, cleanupInterval: int, now: int)
      ensures this.expirySeconds == expirySeconds && this.cleanupInterval == cleanupInterval
      ensures State() == CacheState(map[], now)
    {
      this.entries := map[];
      this.expirySeconds := expirySeconds;
      this.cleanupInterval := cleanupInterval;
      this.lastCleanup := now;
    }

    method Get(key: string, now: int) returns (value: Option<T>)
      modifies this
      ensures var r := GetOf(old(State()), key, now, expirySeconds, cleanupInterval);
              State() == r.state && value == r.value
    {
      if key == "" {
        return None;
      }
      if |entries| > 0 && now - lastCleanup > cleanupInterval {
        Cleanup(now);
      }
      value := Read(key, now);
    }

    /** The lookup of one key shared by `get` and `get_many`, without a sweep. */
    method Read(key: string, now: int) returns (value: Option<T>)
      modifies this
      ensures var r := ReadKey(old(State()), key, now, expirySeconds);
              State() == r.state && value == r.value
    {
      if key !in entries {
        return None;
      }
      var entry := entries[key];
      if IsExpired(entry.timestamp, now, expirySeconds) {
        entries := entries - {key};
        return None;
      }
      return Some(entry.data);
    }

    method GetMany(keys: seq<string>, now: int) returns (result: map<string, Option<T>>)
      modifies this
      ensures var r := GetManyOf(old(State()), keys, now, expirySeconds, cleanupInterval);
              State() == r.0 && result == r.1
    {
      if |entries| > 0 && now - lastCleanup > cleanupInterval {
        Cleanup(now);
      }
      ghost var swept := State();
      assert swept == SweepOf(old(State()), now, expirySeconds, cleanupInterval);
      result := map[];
      var i := 0;
      while i < |keys|
        invariant 0 <= i <= |keys|
        invariant ReadKeys(entries, keys[i..], now, expirySeconds, result)
               == ReadKeys(swept.entries, keys, now, expirySeconds, map[])
        invariant lastCleanup == swept.lastCleanup
      {
        var key := keys[i];
        ghost var goal := ReadKeys(swept.entries, keys, now, expirySeconds, map[]);
        ghost var rest := keys[i + 1..];
        assert keys[i..] == [key] + rest;
        ReadKeysStep(entries, key, rest, now, expirySeconds, result, lastCleanup);
        var value := Read(key, now);
        result := result[key := value];
        assert ReadKeys(entries, rest, now, expirySeconds, result) == goal;
        i := i + 1;
        assert keys[i..] == rest;
      }
    }

    method Set(key: string, value: T, now: int)
      modifies this
      ensures State() == SetOf(old(State()), key, value, now)
    {
      if key == "" {
        return;
      }
      entries := entries[key := CacheEntry(value, now)];
    }

    method Cleanup(now: int)
      modifies this
      ensures State() == CleanupOf(old(State()), now, expirySeconds)
    {
      entries := map k | k in entries && !IsExpired(entries[k].timestamp, now, expirySeconds) :: entries[k];
      lastCleanup := now;
    }
  }

  // ---------------------------------------------------------------------------
  // Properties of the cache operations

  /** `get("")` returns nothing and leaves the dictionary and the sweep time alone. */
  lemma GetEmptyKeyIsNoop<T>(s: CacheState<T>, now: int, expiry: int, interval: int)
    ensures GetOf(s, "", now, expiry, interval) == Lookup(s, None)
  {
  }

  /** `set("", v)` changes nothing; any other key is overwritten with a fresh
      timestamp and every other key keeps its entry. */
  lemma SetOverwritesOnlyKey<T>(s: CacheState<T>, key: string, value: T, now: int)
    ensures key == "" ==> SetOf(s, key, value, now) == s
    ensures key != "" ==> var s' := SetOf(s, key, value, now);
      && s'.entries.Keys == s.entries.Keys + {key}
      && s'.entries[key] == CacheEntry(value, now)
      && s'.lastCleanup == s.lastCleanup
      && forall k :: k in s.entries && k != key ==> s'.entries[k] == s.entries[k]
  {
  }

  /** A value set at `t` is read back at `t'` exactly when it is at most
      `expiry` seconds old, whether or not a sweep runs in between. */
  lemma SetThenGet<T>(s: CacheState<T>, key: string, value: T, t: int, t': int, expiry: int, interval: int)
    requires key != ""
    ensures GetOf(SetOf(s, key, value, t), key, t', expiry, interval).value
         == if t' - t <= expiry then Some(value) else None
  {
    var s1 := SetOf(s, key, value, t);
    var swept := SweepOf(s1, t', expiry, interval);
    if t' - t <= expiry {
      assert key in swept.entries && swept.entries[key] == CacheEntry(value, t);
    } else if key in swept.entries {
      assert swept.entries[key] == CacheEntry(value, t);
    }
  }

  /** Reading an expired key returns nothing and removes the key: the entry
      is deleted, not merely hidden. */
  lemma ExpiredReadDeletes<T>(s: CacheState<T>, key: string, now: int, expiry: int, interval: int)
    requires key != "" && key in s.entries
    requires IsExpired(s.entries[key].timestamp, now, expiry)
    ensures var r := GetOf(s, key, now, expiry, interval);
      r.value == None && key !in r.state.entries
  {
  }

  /** A read sweeps (and moves the sweep time to `now`) only when the cache is
      non-empty and more than `interval` seconds have passed since the last
      sweep; otherwise it removes at most the key it reads. */
  lemma GetSweepsOnlyWhenDue<T>(s: CacheState<T>, key: string, now: int, expiry: int, interval: int)
    requires key != ""
    ensures var r := GetOf(s, key, now, expiry, interval);
      && r.state.lastCleanup == (if CleanupDue(s, now, interval) then now else s.lastCleanup)
      && (!CleanupDue(s, now, interval) ==> r.state.entries.Keys >= s.entries.Keys - {key})
  {
  }

  /** A sweep keeps exactly the non-expired entries, with unchanged data. */
  lemma CleanupKeepsExactlyLive<T>(s: CacheState<T>, now: int, expiry: int)
    ensures var c := CleanupOf(s, now, expiry);
      && c.lastCleanup == now
      && (forall k :: k in c.entries <==> k in s.entries && !IsExpired(s.entries[k].timestamp, now, expiry))
      && (forall k :: k in c.entries ==> c.entries[k] == s.entries[k])
  {
  }

  /** The loop of `get_many` answers exactly the keys it reads (besides the
      partial result it started from) and only ever removes entries. */
  lemma {:induction false} ReadKeysDomain<T>(m: map<string, CacheEntry<T>>, keys: seq<string>, now: int, expiry: int,
                                             acc: map<string, Option<T>>)
    ensures var r := ReadKeys(m, keys, now, expiry, acc);
      && (forall k :: k in r.result <==> k in acc || k in keys)
      && (forall k :: k in r.entries ==> k in m && r.entries[k] == m[k])
    decreases |keys|
  {
    if keys != [] {
      var key := keys[0];
      assert forall k :: k in keys <==> k == key || k in keys[1..];
      var next := NextRead(m, key, now, expiry, acc);
      var m', acc' := next.0, next.1;
      ReadKeysDomain(m', keys[1..], now, expiry, acc');
    }
  }

  /** Every key the loop reads ends up either answered with its live data (and
      still cached) or answered with nothing (and no longer cached). */
  lemma {:induction false} ReadKeysAnswers<T>(m: map<string, CacheEntry<T>>, keys: seq<string>, now: int, expiry: int,
                                              acc: map<string, Option<T>>)
    ensures var r := ReadKeys(m, keys, now, expiry, acc);
      forall k :: k in keys ==>
        (k in r.result &&
         if k in m && !IsExpired(m[k].timestamp, now, expiry)
         then r.result[k] == Some(m[k].data) && k in r.entries
         else r.result[k] == None && k !in r.entries)
    decreases |keys|
  {
    if keys != [] {
      var key := keys[0];
      var next := NextRead(m, key, now, expiry, acc);
      var m', acc' := next.0, next.1;
      ReadKeysAnswers(m', keys[1..], now, expiry, acc');
      ReadKeysDomain(m', keys[1..], now, expiry, acc');
      if key !in keys[1..] {
        ReadKeysKeepsLater(m', keys[1..], now, expiry, acc', key);
      }
    }
  }

  /** A key the loop does not read keeps its cached entry and its partial answer. */
  lemma {:induction false} ReadKeysKeepsLater<T>(m: map<string, CacheEntry<T>>, keys: seq<string>, now: int, expiry: int,
                                                 acc: map<string, Option<T>>, k: string)
    requires k !in keys
    ensures var r := ReadKeys(m, keys, now, expiry, acc);
      && (k in r.entries <==> k in m)
      && (k in acc ==> k in r.result && r.result[k] == acc[k])
    decreases |keys|
  {
    if keys != [] {
      var next := NextRead(m, keys[0], now, expiry, acc);
      var m', acc' := next.0, next.1;
      ReadKeysKeepsLater(m', keys[1..], now, expiry, acc', k);
    }
  }

  /** `get_many(keys)` returns a map whose domain is exactly the keys asked
      for; each value is the live data or nothing, and every expired key that
      was present is gone afterwards. */
  lemma GetManyDomainAndValues<T>(s: CacheState<T>, keys: seq<string>, now: int, expiry: int, interval: int)
    ensures var r := GetManyOf(s, keys, now, expiry, interval);
      && (forall k :: k in r.1 <==> k in keys)
      && (forall k :: k in r.0.entries ==> k in s.entries && r.0.entries[k] == s.entries[k])
      && (forall k :: k in keys ==>
            if k in s.entries && !IsExpired(s.entries[k].timestamp, now, expiry)
            then r.1[k] == Some(s.entries[k].data)
            else r.1[k] == None && k !in r.0.entries)
  {
    var swept := SweepOf(s, now, expiry, interval);
    ReadKeysDomain(swept.entries, keys, now, expiry, map[]);
    ReadKeysAnswers(swept.entries, keys, now, expiry, map[]);
  }
}
