/** The Redis client wrapper: a key-value store of JSON payloads with a time-to-live. */
module RedisCache {
  import opened Wrappers
  import Schemas

  /** A stored payload and the ttl it was stored with (expiry over time is not modelled). */
  datatype Entry = Entry(value: Schemas.Payload, ttl: int)

  /** The time-to-live, in seconds, the list handlers store with. */
  const ListTtl: int := 60

  class Redis {
    var entries: map<string, Entry>

    constructor ()
      ensures entries == map[]
    {
      entries := map[];
    }

    /** `get_cached`: the stored payload, or None on a miss. */
    method GetCached(key: string) returns (r: Option<Schemas.Payload>)
      ensures r.Some? <==> key in entries
      ensures r.Some? ==> r.value == entries[key].value
    {
      if key in entries {
        r := Some(entries[key].value);
      } else {
        r := None;
      }
    }

    /** `set_cached`: store (or overwrite) the payload under the key. */
    method SetCached(key: string, value: Schemas.Payload, ttl: int)
      modifies this
      ensures entries == old(entries)[key := Entry(value, ttl)]
    {
      entries := entries[key := Entry(value, ttl)];
    }
  }
}
