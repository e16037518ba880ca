/**
 * The cache adapter over a Redis key-value store. Values are written as
 * their JSON text with a lifetime in milliseconds (`PSETEX`), read back and
 * parsed (`GET`), and removed several keys at a time (`DEL`). Redis reports
 * failures through a callback; the adapter rejects with that error as it
 * is. Which command fails is not in the model's control, so each command
 * takes the failure Redis would report, if any, as a parameter.
 */
module Cache {
  import opened Wrappers
  import opened Json
  import Config

  /** An error as the Redis client reports it. */
  datatype RedisError = RedisError(message: string)

  /** What Redis answers to a `DEL` with no keys. */
  const DelWithoutKeys := RedisError("ERR wrong number of arguments for 'del' command")

  /** What Redis answers to a `PSETEX` whose lifetime is not positive. */
  const InvalidExpireTime := RedisError("ERR invalid expire time in 'psetex' command")

  datatype CacheError =
    | Redis(err: RedisError)   // passed through from the client unchanged
    | Syntax(raw: string)      // `JSON.parse` rejected the stored text

  /** A stored value: its JSON text and the lifetime it was written with. */
  datatype Entry = Entry(raw: string, ttlMs: int)

  /** The Redis keyspace, and the lifetime used when a caller gives none. */
  datatype CacheState = CacheState(entries: map<string, Entry>, defaultTtl: int)

  /** `get(key)`: the parsed value, or `null` when Redis holds nothing (or empty text) there. */
  function CacheGet(c: CacheState, key: string, fault: Option<RedisError>): Result<Json, CacheError> {
    if fault.Some? then Err(Redis(fault.value))
    else if key !in c.entries || c.entries[key].raw == "" then Ok(Null)
    else match Parse(c.entries[key].raw)
      case Some(v) => Ok(v)
      case None => Err(Syntax(c.entries[key].raw))
  }

  /** The lifetime `set` passes to Redis: the caller's, else the configured one. */
  function EffectiveTtl(c: CacheState, ttl: Option<int>): int {
    ttl.GetOr(c.defaultTtl)
  }

  /** `set(key, val, ttl?)`: the keyspace after `PSETEX key ttl JSON.stringify(val)`. */
  function CacheSet(c: CacheState, key: string, val: Json, ttl: Option<int>, fault: Option<RedisError>): Result<CacheState, CacheError> {
    if fault.Some? then Err(Redis(fault.value))
    else if EffectiveTtl(c, ttl) <= 0 then Err(Redis(InvalidExpireTime))
    else Ok(c.(entries := c.entries[key := Entry(Serialize(val), EffectiveTtl(c, ttl))]))
  }

  /** `delete(...keys)`: the keyspace after one `DEL` of all the keys. */
  function CacheDelete(c: CacheState, keys: seq<string>, fault: Option<RedisError>): Result<CacheState, CacheError> {
    if fault.Some? then Err(Redis(fault.value))
    else if keys == [] then Err(Redis(DelWithoutKeys))
    else Ok(c.(entries := c.entries - set k | k in keys))
  }

  // ---------------------------------------------------------------- properties

  /** What was set is what is read back: the JSON text parses to the value written. */
  lemma SetThenGet(c: CacheState, key: string, val: Json, ttl: Option<int>)
    requires CacheSet(c, key, val, ttl, None).Ok?
    ensures CacheGet(CacheSet(c, key, val, ttl, None).value, key, None) == Ok(val)
  {
    ParseSerialize(val);
    SerializeNonEmpty(val);
  }

  /** A key Redis does not hold reads as `null`. */
  lemma GetAbsentIsNull(c: CacheState, key: string)
    requires key !in c.entries
    ensures CacheGet(c, key, None) == Ok(Null)
  {
  }

  /** `set` writes only its own key, with the caller's lifetime or else the configured one. */
  lemma SetWritesOneKey(c: CacheState, key: string, val: Json, ttl: Option<int>)
    ensures CacheSet(c, key, val, ttl, None).Ok? <==> (if ttl.Some? then ttl.value else c.defaultTtl) > 0
    ensures CacheSet(c, key, val, ttl, None).Ok? ==>
      var c' := CacheSet(c, key, val, ttl, None).value;
      && c'.defaultTtl == c.defaultTtl
      && key in c'.entries
      && c'.entries[key].ttlMs == (if ttl.Some? then ttl.value else c.defaultTtl)
      && (forall k :: k != key ==> (k in c'.entries <==> k in c.entries))
      && (forall k :: k != key && k in c.entries ==> c'.entries[k] == c.entries[k])
  {
  }

  /** One `delete` removes every listed key and leaves every other entry as it was. */
  lemma DeleteRemovesExactly(c: CacheState, keys: seq<string>)
    ensures CacheDelete(c, keys, None).Ok? <==> keys != []
    ensures CacheDelete(c, keys, None).Ok? ==>
      var c' := CacheDelete(c, keys, None).value;
      && c'.defaultTtl == c.defaultTtl
      && (forall k :: k in c'.entries <==> k in c.entries && k !in keys)
      && (forall k :: k in c'.entries ==> c'.entries[k] == c.entries[k])
  {
  }

  /** A Redis failure of a command is the adapter's failure, unchanged. */
  lemma ErrorsPassThrough(c: CacheState, key: string, val: Json, ttl: Option<int>, keys: seq<string>, e: RedisError)
    ensures CacheGet(c, key, Some(e)) == Err(Redis(e))
    ensures CacheSet(c, key, val, ttl, Some(e)) == Err(Redis(e))
    ensures CacheDelete(c, keys, Some(e)) == Err(Redis(e))
  {
  }

  /** The configured lifetime, `REDIS_TTL_MS`, is what a `set` without a lifetime uses. */
  lemma DefaultTtlFromConfig(env: Config.Env, entries: map<string, Entry>, key: string, val: Json)
    requires env.redisTtlMs > 0
    ensures var c' := CacheSet(CacheState(entries, env.redisTtlMs), key, val, None, None);
      c'.Ok? && c'.value.entries[key] == Entry(Serialize(val), env.redisTtlMs)
  {
  }

  /**
   * The adapter. Its state is the Redis keyspace it talks to; the lifetime
   * default is read from the configuration once, when it is built.
   */
  class CacheService {
    var entries: map<string, Entry>
    const defaultTtl: int

    function State(): CacheState
      reads this
    {
      CacheState(entries, defaultTtl)
    }

    constructor(config: Config.Env, keyspace: map<string, Entry>)
      ensures State() == CacheState(keyspace, config.redisTtlMs)
    {
      entries := keyspace;
      defaultTtl := config.redisTtlMs;
    }

    method Get(key: string, fault: Option<RedisError>) returns (r: Result<Json, CacheError>)
      ensures r == CacheGet(State(), key, fault)
    {
      if fault.Some? {
        return Err(Redis(fault.value));
      }
      if key !in entries || entries[key].raw == "" {
        return Ok(Null);
      }
      var raw := entries[key].raw;
      var parsed := Parse(raw);
      if parsed.None? {
        return Err(Syntax(raw));
      }
      return Ok(parsed.value);
    }

    method Set(key: string, val: Json, ttl: Option<int>, fault: Option<RedisError>) returns (r: Result<(), CacheError>)
      modifies this
      ensures var expected := CacheSet(old(State()), key, val, ttl, fault);
        && (expected.Ok? ==> r == Ok(()) && State() == expected.value)
        && (expected.Err? ==> r == Err(expected.error) && State() == old(State()))
    {
      var ttlMs := if ttl.Some? then ttl.value else defaultTtl;
      var raw := Serialize(val);
      if fault.Some? {
        return Err(Redis(fault.value));
      }
      if ttlMs <= 0 {
        return Err(Redis(InvalidExpireTime));
      }
      entries := entries[key := Entry(raw, ttlMs)];
      return Ok(());
    }

    method Delete(keys: seq<string>, fault: Option<RedisError>) returns (r: Result<(), CacheError>)
      modifies this
      ensures var expected := CacheDelete(old(State()), keys, fault);
        && (expected.Ok? ==> r == Ok(()) && State() == expected.value)
        && (expected.Err? ==> r == Err(expected.error) && State() == old(State()))
    {
      if fault.Some? {
        return Err(Redis(fault.value));
      }
      if keys == [] {
        return Err(Redis(DelWithoutKeys));
      }
      entries := entries - set k | k in keys;
      return Ok(());
    }

    /** Redis drops a key once its lifetime has passed; the clock is not modelled, only the drop. */
    method Expire(key: string)
      modifies this
      ensures entries == old(entries) - {key}
    {
      entries := entries - {key};
    }
  }
}
