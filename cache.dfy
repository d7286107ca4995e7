/** `CacheManager`: a namespaced key/value cache over a Redis store, with
    five counters that every operation updates.

    The store is modelled by its contents: a map from full keys to the
    stored bytes and an optional expiry instant, read at the instant `now`
    each operation is given (an entry whose expiry has passed is gone, as
    Redis treats it). Each store command either answers as Redis does or
    raises `RedisError`; a `fault` argument says which. `KEYS`' glob
    matching is the `matches` function the manager is built with. */
module Cache {
  import opened Wrappers
  import opened Json

  const DefaultPrefix: string := "agi_prompt:"
  const FallbackTtl: int := 86400
  const BatchSize: nat := 1000

  // ---- the store ------------------------------------------------------------------

  datatype Entry = Entry(data: seq<byte>, expiresAt: Option<int>)

  type Store = map<string, Entry>

  /** Whether an entry still exists at `now`. */
  predicate Live(e: Entry, now: int) {
    e.expiresAt.None? || now < e.expiresAt.value
  }

  /** `GET k` */
  function StoreGet(s: Store, k: string, now: int): Option<seq<byte>> {
    if k in s && Live(s[k], now) then Some(s[k].data) else None
  }

  /** `SETEX k ttl data` when `ttl > 0`, `SET k data` (no expiry) otherwise. */
  function StoreSet(s: Store, k: string, data: seq<byte>, ttl: int, now: int): Store {
    s[k := Entry(data, if ttl > 0 then Some(now + ttl) else None)]
  }

  /** `DEL k1 k2 ...`: the store without those keys, and how many of them
      existed. */
  function StoreDelete(s: Store, ks: seq<string>, now: int): (r: (Store, nat))
    decreases |ks|
  {
    if ks == [] then (s, 0)
    else
      var rest := StoreDelete(s - {ks[0]}, ks[1..], now);
      (rest.0, rest.1 + if StoreGet(s, ks[0], now).Some? then 1 else 0)
  }

  /** `TTL k`: -2 for a missing key, -1 for a key without expiry, else the
      seconds left. */
  function StoreTtl(s: Store, k: string, now: int): int {
    if StoreGet(s, k, now).None? then -2
    else if s[k].expiresAt.None? then -1
    else s[k].expiresAt.value - now
  }

  /** The keys `KEYS pattern` answers at `now`. */
  function MatchingKeys(s: Store, matches: (string, string) -> bool, pattern: string, now: int): set<string> {
    set k | k in s && Live(s[k], now) && matches(pattern, k)
  }

  function Elements(ks: seq<string>): set<string> {
    set k | k in ks
  }

  predicate Distinct(ks: seq<string>) {
    forall i, j :: 0 <= i < j < |ks| ==> ks[i] != ks[j]
  }

  // ---- lemmas about the store -------------------------------------------------------

  /** A key reads back what was last written to it, until its expiry (a
      non-positive ttl writes without expiry); other keys are unaffected. */
  lemma GetAfterSet(s: Store, k: string, data: seq<byte>, ttl: int, now: int, later: int, k': string)
    requires now <= later && (ttl <= 0 || later < now + ttl)
    ensures StoreGet(StoreSet(s, k, data, ttl, now), k, later) == Some(data)
    ensures k' != k ==> StoreGet(StoreSet(s, k, data, ttl, now), k', later) == StoreGet(s, k', later)
  {
  }

  /** An expiring write is gone once its ttl has run out. */
  lemma GoneAfterExpiry(s: Store, k: string, data: seq<byte>, ttl: int, now: int, later: int)
    requires ttl > 0 && later >= now + ttl
    ensures StoreGet(StoreSet(s, k, data, ttl, now), k, later) == None
  {
  }

  /** Right after a write, `TTL` reports the ttl given, or -1 for a write
      without expiry. */
  lemma TtlAfterSet(s: Store, k: string, data: seq<byte>, ttl: int, now: int)
    ensures StoreTtl(StoreSet(s, k, data, ttl, now), k, now) == if ttl > 0 then ttl else -1
  {
  }

  /** `DEL` removes exactly the keys it names, and counts at most one per
      key named. */
  lemma {:induction false} DeleteRemoves(s: Store, ks: seq<string>, now: int)
    ensures StoreDelete(s, ks, now).0 == s - Elements(ks)
    ensures StoreDelete(s, ks, now).1 <= |ks|
    ensures StoreDelete(s, ks, now).1 == 0 <==> forall i :: 0 <= i < |ks| ==> StoreGet(s, ks[i], now).None?
    decreases |ks|
  {
    if ks != [] {
      var s' := s - {ks[0]};
      DeleteRemoves(s', ks[1..], now);
      assert Elements(ks) == {ks[0]} + Elements(ks[1..]);
      forall i | 1 <= i < |ks| && StoreGet(s', ks[i], now) != StoreGet(s, ks[i], now)
        ensures ks[i] == ks[0]
      {
      }
    }
  }

  /** Deleting distinct keys that all exist counts every one of them. */
  lemma {:induction false} DeleteCountsLiveKeys(s: Store, ks: seq<string>, now: int)
    requires Distinct(ks)
    requires forall i :: 0 <= i < |ks| ==> StoreGet(s, ks[i], now).Some?
    ensures StoreDelete(s, ks, now).1 == |ks|
    decreases |ks|
  {
    if ks != [] {
      var s' := s - {ks[0]};
      forall i | 0 <= i < |ks[1..]|
        ensures StoreGet(s', ks[1..][i], now).Some?
      {
        assert ks[1..][i] == ks[i + 1] != ks[0];
      }
      assert Distinct(ks[1..]) by {
        forall i, j | 0 <= i < j < |ks[1..]| ensures ks[1..][i] != ks[1..][j] {
          assert ks[1..][i] == ks[i + 1] && ks[1..][j] == ks[j + 1];
        }
      }
      DeleteCountsLiveKeys(s', ks[1..], now);
    }
  }

  // ---- batches --------------------------------------------------------------------

  /** `keys[i:i + 1000] for i in range(0, len(keys), 1000)` */
  function Batches(keys: seq<string>): (bs: seq<seq<string>>)
    decreases |keys|
  {
    if keys == [] then []
    else if |keys| <= BatchSize then [keys]
    else [keys[..BatchSize]] + Batches(keys[BatchSize..])
  }

  function Flatten(bs: seq<seq<string>>): seq<string>
  {
    if bs == [] then [] else bs[0] + Flatten(bs[1..])
  }

  /** The batches are non-empty, hold at most 1000 keys each, all but the
      last exactly 1000, and taken in order they are the keys. */
  lemma {:induction false} BatchesPartition(keys: seq<string>)
    ensures Flatten(Batches(keys)) == keys
    ensures forall b :: 0 <= b < |Batches(keys)| ==> 0 < |Batches(keys)[b]| <= BatchSize
    ensures forall b :: 0 <= b < |Batches(keys)| - 1 ==> |Batches(keys)[b]| == BatchSize
    ensures |Batches(keys)| == (|keys| + BatchSize - 1) / BatchSize
    decreases |keys|
  {
    if |keys| > BatchSize {
      var rest := keys[BatchSize..];
      BatchesPartition(rest);
      assert keys[..BatchSize] + rest == keys;
      var bs := Batches(keys);
      assert bs[1..] == Batches(rest);
      forall b | 1 <= b < |bs|
        ensures bs[b] == Batches(rest)[b - 1]
      {
      }
    }
  }

  /** Batch `b` is the slice of the keys the loop's index `b * 1000` starts. */
  lemma {:induction false} BatchAt(keys: seq<string>, b: nat)
    requires b * BatchSize < |keys|
    ensures b < |Batches(keys)|
    ensures Batches(keys)[b] == keys[b * BatchSize .. if (b + 1) * BatchSize < |keys| then (b + 1) * BatchSize else |keys|]
    decreases b
  {
    if b > 0 {
      BatchAt(keys[BatchSize..], b - 1);
      assert keys[BatchSize..][(b - 1) * BatchSize ..] == keys[b * BatchSize ..];
    }
  }

  // ---- the manager ------------------------------------------------------------------

  datatype Stats = Stats(hits: nat, misses: nat, sets: nat, deletes: nat, errors: nat)

  const ZeroStats: Stats := Stats(0, 0, 0, 0, 0)

  /** `f"{prefix}{key}"`: the key with the namespace in front. */
  function Namespaced(prefix: string, key: string): (r: string)
    ensures |r| == |prefix| + |key|
    ensures r[..|prefix|] == prefix && r[|prefix|..] == key
  {
    prefix + key
  }

  /** Distinct keys stay distinct once namespaced. */
  lemma NamespacedInjective(prefix: string, a: string, b: string)
    requires Namespaced(prefix, a) == Namespaced(prefix, b)
    ensures a == b
  {
    assert a == Namespaced(prefix, a)[|prefix|..];
  }

  /** The namespace: the configured prefix and a colon, or `agi_prompt:`
      when none is configured. */
  function PrefixOf(configured: Option<string>): (p: string)
    ensures configured.Some? ==> p == configured.value + ":"
    ensures configured.None? ==> p == "agi_prompt:"
    ensures |p| >= 1 && p[|p| - 1] == ':'
  {
    match configured
    case Some(c) => c + ":"
    case None => DefaultPrefix
  }

  class CacheManager {
    const prefix: string
    const defaultTtl: int
    const matches: (string, string) -> bool
    var store: Store
    var stats: Stats

    constructor (configuredPrefix: Option<string>, configuredTtl: Option<int>,
                 matches: (string, string) -> bool, contents: Store)
      ensures prefix == PrefixOf(configuredPrefix)
      ensures defaultTtl == configuredTtl.GetOr(FallbackTtl)
      ensures this.matches == matches
      ensures store == contents && stats == ZeroStats
    {
      prefix := PrefixOf(configuredPrefix);
      defaultTtl := configuredTtl.GetOr(FallbackTtl);
      this.matches := matches;
      store := contents;
      stats := ZeroStats;
    }

    /** `_make_key` */
    function MakeKey(key: string): string {
      Namespaced(prefix, key)
    }

    /** The ttl a `set` writes with: the one given, else the default. */
    function EffectiveTtl(ttl: Option<int>): int {
      ttl.GetOr(defaultTtl)
    }

    /** `get`: a present key counts a hit and answers its decoded value
        (`None` for bytes that do not decode); an absent key counts a miss
        and answers `default`; a store error counts an error and answers
        `default`. The store is not changed. */
    method Get(key: string, default: Value, now: int, fault: bool) returns (v: Value)
      modifies this
      ensures store == old(store)
      ensures fault ==> v == default && stats == old(stats).(errors := old(stats).errors + 1)
      ensures !fault && StoreGet(old(store), MakeKey(key), now).Some? ==>
        v == Deserialize(StoreGet(old(store), MakeKey(key), now).value)
        && stats == old(stats).(hits := old(stats).hits + 1)
      ensures !fault && StoreGet(old(store), MakeKey(key), now).None? ==>
        v == default && stats == old(stats).(misses := old(stats).misses + 1)
      ensures stats == CountGet(old(stats), fault, !fault && StoreGet(old(store), MakeKey(key), now).Some?)
    {
      if fault {
        stats := stats.(errors := stats.errors + 1);
        return default;
      }
      var value := StoreGet(store, MakeKey(key), now);
      if value.Some? {
        stats := stats.(hits := stats.hits + 1);
        v := Deserialize(value.value);
      } else {
        stats := stats.(misses := stats.misses + 1);
        v := default;
      }
    }

    /** `set`: a value JSON cannot represent raises `ValueError` before the
        store or a counter is touched; otherwise the encoded value is
        written (expiring when the ttl is positive) and `sets` counted, or a
        store error counts an error and answers `False`. */
    method Set(key: string, value: Value, ttl: Option<int>, now: int, fault: bool) returns (r: Reply<bool>)
      modifies this
      ensures !Representable(value) ==>
        r == Raised("ValueError: Could not serialize value to JSON") && store == old(store) && stats == old(stats)
      ensures Representable(value) && fault ==>
        r == Ok(false) && store == old(store) && stats == old(stats).(errors := old(stats).errors + 1)
      ensures Representable(value) && !fault ==>
        r == Ok(true)
        && store == StoreSet(old(store), MakeKey(key), Encode(value), EffectiveTtl(ttl), now)
        && stats == old(stats).(sets := old(stats).sets + 1)
      ensures stats == CountSet(old(stats), Representable(value), fault)
      ensures store == if !Representable(value) || fault then old(store)
                       else StoreSet(old(store), MakeKey(key), Encode(value), EffectiveTtl(ttl), now)
    {
      var t := EffectiveTtl(ttl);
      var serialized := Serialize(value);
      if serialized.Raised? {
        return Raised(serialized.error);
      }
      if fault {
        stats := stats.(errors := stats.errors + 1);
        return Ok(false);
      }
      store := StoreSet(store, MakeKey(key), serialized.value, t, now);
      stats := stats.(sets := stats.sets + 1);
      r := Ok(true);
    }

    /** `delete`: removes the key and answers whether it existed; `deletes`
        is counted whether or not it did. A store error counts an error and
        answers `False`. */
    method Delete(key: string, now: int, fault: bool) returns (removed: bool)
      modifies this
      ensures fault ==> !removed && store == old(store) && stats == old(stats).(errors := old(stats).errors + 1)
      ensures !fault ==>
        removed == StoreGet(old(store), MakeKey(key), now).Some?
        && store == old(store) - {MakeKey(key)}
        && stats == old(stats).(deletes := old(stats).deletes + 1)
    {
      if fault {
        stats := stats.(errors := stats.errors + 1);
        return false;
      }
      var result := StoreDelete(store, [MakeKey(key)], now);
      DeleteRemoves(store, [MakeKey(key)], now);
      assert Elements([MakeKey(key)]) == {MakeKey(key)};
      store := result.0;
      stats := stats.(deletes := stats.deletes + 1);
      removed := result.1 > 0;
    }

    /** `clear`: asks `KEYS` for the live keys matching the namespaced
        pattern and deletes them in batches of 1000, adding the number
        deleted to `deletes`. `fault == Some(0)` makes `KEYS` fail and
        `fault == Some(b + 1)` makes the `DEL` of batch `b` fail: then the
        earlier batches stay deleted, an error is counted and the answer is
        0. The ghost `keys` is the order `KEYS` answered in. */
    method Clear(pattern: string, now: int, fault: Option<nat>) returns (deleted: nat, ghost keys: seq<string>)
      modifies this
      ensures Distinct(keys) && Elements(keys) == MatchingKeys(old(store), matches, MakeKey(pattern), now)
      ensures fault == Some(0) ==> deleted == 0 && store == old(store) && stats == old(stats).(errors := old(stats).errors + 1)
      ensures fault.None? || (fault.value > 0 && (fault.value - 1) * BatchSize >= |keys|) ==>
        deleted == |keys| && store == old(store) - Elements(keys)
        && stats == old(stats).(deletes := old(stats).deletes + deleted)
      ensures fault.Some? && 0 < fault.value && (fault.value - 1) * BatchSize < |keys| ==>
        deleted == 0 && store == old(store) - Elements(keys[..(fault.value - 1) * BatchSize])
        && stats == old(stats).(errors := old(stats).errors + 1)
    {
      var found := KeysReply(store, MakeKey(pattern), now);
      keys := found;
      if fault == Some(0) {
        stats := stats.(errors := stats.errors + 1);
        return 0, keys;
      }
      if found == [] {
        return 0, keys;
      }
      assert forall t :: 0 <= t < |found| ==> found[t] in Elements(found);
      var ok;
      deleted, ok := DeleteBatches(found, now, fault);
      if ok {
        stats := stats.(deletes := stats.deletes + deleted);
      } else {
        stats := stats.(errors := stats.errors + 1);
        deleted := 0;
      }
    }

    /** The batch loop of `clear`: deletes `found` 1000 keys at a time until
        the `DEL` that `fault` names fails. `ok` says whether every batch
        went through; `deleted` counts the keys the completed batches
        removed. */
    method DeleteBatches(found: seq<string>, now: int, fault: Option<nat>) returns (deleted: nat, ok: bool)
      requires Distinct(found) && forall t :: 0 <= t < |found| ==> StoreGet(store, found[t], now).Some?
      requires fault != Some(0)
      modifies this
      ensures ok <==> fault.None? || (fault.value - 1) * BatchSize >= |found|
      ensures ok ==> deleted == |found| && store == old(store) - Elements(found)
      ensures !ok ==> store == old(store) - Elements(found[..(fault.value - 1) * BatchSize])
      ensures stats == old(stats)
    {
      ghost var start := store;
      deleted := 0;
      var i := 0;
      var b := 0;
      while i < |found|
        invariant 0 <= i <= |found| && i == if b * BatchSize < |found| then b * BatchSize else |found|
        invariant store == start - Elements(found[..i])
        invariant deleted == i
        invariant stats == old(stats)
        invariant fault.Some? ==> fault.value > b
        decreases |found| - i
      {
        if fault == Some(b + 1) {
          return deleted, false;
        }
        var j := if i + BatchSize < |found| then i + BatchSize else |found|;
        var batch := found[i..j];
        BatchIsSlice(found, b, i, j);
        ClearStep(start, found, i, j, now);
        var result := StoreDelete(store, batch, now);
        store := result.0;
        deleted := deleted + result.1;
        i := j;
        b := b + 1;
      }
      assert found[..i] == found;
      ok := true;
    }

    /** `KEYS`: the matching live keys, each once, in some order. */
    method KeysReply(s: Store, pattern: string, now: int) returns (keys: seq<string>)
      ensures Distinct(keys) && Elements(keys) == MatchingKeys(s, matches, pattern, now)
    {
      var left := MatchingKeys(s, matches, pattern, now);
      keys := [];
      while left != {}
        invariant Distinct(keys)
        invariant Elements(keys) + left == MatchingKeys(s, matches, pattern, now)
        invariant Elements(keys) !! left
        decreases |left|
      {
        var k :| k in left;
        keys := keys + [k];
        left := left - {k};
      }
    }

    /** `get_stats`: a copy of the counters. */
    function GetStats(): (r: Stats)
      reads this
      ensures r == stats
    {
      stats
    }

    /** `reset_stats`: every counter back to 0, the store untouched. */
    method ResetStats()
      modifies this
      ensures stats == ZeroStats && store == old(store)
    {
      stats := ZeroStats;
    }

    /** `get_ttl`: the seconds left on an expiring key; `None` for a key
        without expiry, a missing key, or a store error (which is counted). */
    method GetTtl(key: string, now: int, fault: bool) returns (ttl: Option<int>)
      modifies this
      ensures store == old(store)
      ensures fault ==> ttl.None? && stats == old(stats).(errors := old(stats).errors + 1)
      ensures !fault ==> stats == old(stats)
      ensures !fault ==>
        ttl == (if StoreTtl(old(store), MakeKey(key), now) >= 0 then Some(StoreTtl(old(store), MakeKey(key), now)) else None)
    {
      if fault {
        stats := stats.(errors := stats.errors + 1);
        return None;
      }
      var t := StoreTtl(store, MakeKey(key), now);
      ttl := if t >= 0 then Some(t) else None;
    }

    /** `exists`: whether the key is present; a store error is counted and
        answers `False`. */
    method Exists(key: string, now: int, fault: bool) returns (present: bool)
      modifies this
      ensures store == old(store)
      ensures fault ==> !present && stats == old(stats).(errors := old(stats).errors + 1)
      ensures !fault ==> present == StoreGet(old(store), MakeKey(key), now).Some? && stats == old(stats)
    {
      if fault {
        stats := stats.(errors := stats.errors + 1);
        return false;
      }
      present := StoreGet(store, MakeKey(key), now).Some?;
    }

    /** The wrapper `cache_result` puts around a function `f`, applied to
        `a`. When `unless` holds it just calls `f`. Otherwise it looks the
        key up: a cached value other than `None` is the answer; else `f(a)`
        is computed, written with the given ttl and returned. A result JSON
        cannot represent makes the write raise, and the wrapper with it.
        The key is `keyFunc(a)`, or `defaultKey(a)` (the md5 digest of the
        function's name and arguments) when there is no `keyFunc`. */
    method CacheResult<A>(f: A -> Value, a: A, keyFunc: Option<A -> string>, defaultKey: A -> string,
                          unless: Option<A -> bool>, ttl: Option<int>, now: int,
                          getFault: bool, setFault: bool) returns (r: Reply<Value>)
      modifies this
      ensures unless.Some? && unless.value(a) ==> r == Ok(f(a)) && store == old(store) && stats == old(stats)
      ensures !(unless.Some? && unless.value(a)) ==>
        var k := MakeKey(ResultKey(keyFunc, defaultKey, a));
        var found := !getFault && StoreGet(old(store), k, now).Some?;
        var cached := if found then Deserialize(StoreGet(old(store), k, now).value) else Null;
        if cached != Null then
          r == Ok(cached) && store == old(store) && stats == CountGet(old(stats), getFault, found)
        else
          r == (if Representable(f(a)) then Ok(f(a)) else Raised("ValueError: Could not serialize value to JSON"))
          && store == (if Representable(f(a)) && !setFault then StoreSet(old(store), k, Encode(f(a)), EffectiveTtl(ttl), now) else old(store))
          && stats == CountSet(CountGet(old(stats), getFault, found), Representable(f(a)), setFault)
    {
      if unless.Some? && unless.value(a) {
        return Ok(f(a));
      }
      var cacheKey := ResultKey(keyFunc, defaultKey, a);
      var cached := Get(cacheKey, Null, now, getFault);
      if cached != Null {
        return Ok(cached);
      }
      var result := f(a);
      var written := Set(cacheKey, result, ttl, now, setFault);
      if written.Raised? {
        return Raised(written.error);
      }
      r := Ok(result);
    }
  }

  /** The counters after a `get`: an error, a hit or a miss. */
  function CountGet(st: Stats, fault: bool, found: bool): Stats {
    if fault then st.(errors := st.errors + 1)
    else if found then st.(hits := st.hits + 1)
    else st.(misses := st.misses + 1)
  }

  /** The counters after a `set`: unchanged when it raised `ValueError`,
      else an error or a write. */
  function CountSet(st: Stats, representable: bool, fault: bool): Stats {
    if !representable then st
    else if fault then st.(errors := st.errors + 1)
    else st.(sets := st.sets + 1)
  }

  /** What the wrapper writes on a miss is what a later call finds, until
      it expires: the second call with the same key is answered from the
      cache, unless the result was `None`, which reads as a miss and is
      computed again. */
  lemma MemoisedResult(s: Store, k: string, v: Value, ttl: int, now: int, later: int)
    requires Representable(v)
    requires now <= later && (ttl <= 0 || later < now + ttl)
    ensures StoreGet(StoreSet(s, k, Encode(v), ttl, now), k, later).Some?
    ensures Deserialize(StoreGet(StoreSet(s, k, Encode(v), ttl, now), k, later).value) == v
  {
    GetAfterSet(s, k, Encode(v), ttl, now, later, k);
    RoundTrip(v);
  }

  /** The key the wrapper caches under. */
  function ResultKey<A>(keyFunc: Option<A -> string>, defaultKey: A -> string, a: A): string {
    match keyFunc
    case Some(kf) => kf(a)
    case None => defaultKey(a)
  }

  /** The slice the loop deletes at index `i = b * 1000` is batch `b`. */
  lemma BatchIsSlice(keys: seq<string>, b: nat, i: nat, j: nat)
    requires i == b * BatchSize < |keys| && j == if i + BatchSize < |keys| then i + BatchSize else |keys|
    ensures b < |Batches(keys)| && keys[i..j] == Batches(keys)[b]
  {
    BatchAt(keys, b);
  }

  /** One batch of `clear`: the keys of `keys[i..j]` are all still live, and
      deleting them counts all of them and removes them. */
  lemma ClearStep(start: Store, keys: seq<string>, i: nat, j: nat, now: int)
    requires i <= j <= |keys| && Distinct(keys)
    requires forall t :: 0 <= t < |keys| ==> StoreGet(start, keys[t], now).Some?
    ensures var r := StoreDelete(start - Elements(keys[..i]), keys[i..j], now);
      r.1 == j - i && r.0 == start - Elements(keys[..j])
  {
    var s := start - Elements(keys[..i]);
    var batch := keys[i..j];
    forall t | 0 <= t < |batch|
      ensures StoreGet(s, batch[t], now).Some?
    {
      assert batch[t] == keys[i + t];
      assert keys[i + t] !in Elements(keys[..i]);
    }
    assert Distinct(batch);
    DeleteCountsLiveKeys(s, batch, now);
    DeleteRemoves(s, batch, now);
    assert Elements(keys[..j]) == Elements(keys[..i]) + Elements(batch) by {
      assert keys[..j] == keys[..i] + batch;
    }
  }
}
