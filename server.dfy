/**
 * The two pieces of backend/cmd/server/main.go that carry logic: the
 * automatic-persisted-query cache, whose map is allocated on first write,
 * and the listening port's fallback.
 */
module Server {
  import opened Wrappers
  import Config

  /**
   * MapCache. `data` is None while Go's map is still nil; a nil map reads
   * as empty, and `Add` allocates it before the first write.
   */
  class MapCache<V> {
    var data: Option<map<string, V>>

    /** What the cache holds, an unallocated map holding nothing. */
    function Contents(): map<string, V>
      reads this
    {
      if data.None? then map[] else data.value
    }

    /** `&MapCache{}`: nothing allocated yet. */
    constructor ()
      ensures data == None
    {
      data := None;
    }

    /**
     * Get: the value stored under `key` and `ok == true`, or no value and
     * `ok == false` when the key is absent or the map is still nil.
     */
    function Get(key: string): (r: Option<V>)
      reads this
      ensures data.None? ==> r == None
      ensures r.Some? <==> key in Contents()
      ensures r.Some? ==> r.value == Contents()[key]
    {
      if data.None? then None
      else if key in data.value then Some(data.value[key])
      else None
    }

    /**
     * Add: allocates the map if it is nil, then stores the value, replacing
     * any earlier one under the same key and leaving other keys alone.
     */
    method Add(key: string, value: V)
      modifies this
      ensures data.Some?
      ensures Contents() == old(Contents())[key := value]
      ensures Get(key) == Some(value)
      ensures forall k :: k != key ==> Get(k) == old(Get(k))
    {
      if data.None? {
        data := Some(map[]);
      }
      data := Some(data.value[key := value]);
    }
  }

  /** A fresh cache answers every lookup with no value; a written key reads back. */
  method CacheScenario<V>(key: string, other: string, v: V, w: V) returns (first: Option<V>, afterAdd: Option<V>, afterOverwrite: Option<V>, untouched: Option<V>)
    requires key != other
    ensures first == None
    ensures afterAdd == Some(v)
    ensures afterOverwrite == Some(w)
    ensures untouched == None
  {
    var cache := new MapCache<V>();
    first := cache.Get(key);
    cache.Add(key, v);
    afterAdd := cache.Get(key);
    cache.Add(key, w);
    afterOverwrite := cache.Get(key);
    untouched := cache.Get(other);
  }

  /** The listening port: the configured one, or "8080" when it is empty. */
  function ServerPort(configured: string): (port: string)
    ensures port != ""
    ensures configured != "" ==> port == configured
    ensures configured == "" ==> port == "8080"
  {
    if configured == "" then "8080" else configured
  }

  /**
   * getEnv never yields "" for PORT (its default is "8080"), so the
   * fallback never changes the port Load produced.
   */
  lemma ServerPortOfLoad(env: Config.Env, parse: string -> Option<int>)
    ensures ServerPort(Config.Load(env, parse).port) == Config.Load(env, parse).port
  {
    Config.GetEnvNonEmpty(env, "PORT", "8080");
  }
}
