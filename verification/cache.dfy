/** The process-wide in-memory cache with per-entry expiry
    (src/utils/cache.js). The clock reading `Date.now()` is the parameter
    `now`, in milliseconds; a time-to-live is in seconds. */
module Cache {

  import opened Common

  /** A stored value with the instant after which it is stale. */
  datatype Entry<V> = Entry(value: V, expiration: int)

  /** The time-to-live `set` uses when none is given: five minutes. */
  const DefaultTtl: int := 300

  /** The expiry instant `set` records. */
  function Expiration(now: int, ttl: int): int
  {
    now + ttl * 1000
  }

  /** An entry is still served at `now` up to and including its expiration,
      because only `now > expiration` counts as expired. */
  predicate Live<V>(e: Entry<V>, now: int)
  {
    now <= e.expiration
  }

  /** What `get(key)` answers on this content at `now`. */
  function Lookup<V>(entries: map<string, Entry<V>>, key: string, now: int): (r: Option<V>)
    ensures r.Some? <==> key in entries && Live(entries[key], now)
    ensures r.Some? ==> r.value == entries[key].value
  {
    if key in entries && Live(entries[key], now) then Some(entries[key].value) else None
  }

  /** The content after `get(key)` at `now`: an expired entry for that key is evicted. */
  function AfterLookup<V>(entries: map<string, Entry<V>>, key: string, now: int): (r: map<string, Entry<V>>)
    ensures key in entries && !Live(entries[key], now) ==> r == entries - {key}
    ensures !(key in entries && !Live(entries[key], now)) ==> r == entries
  {
    if key in entries && !Live(entries[key], now) then entries - {key} else entries
  }

  class SimpleCache<V> {
    var cache: map<string, Entry<V>>

    constructor ()
      ensures cache == map[]
    {
      cache := map[];
    }

    /** `set`: the key now holds the value until `now + ttl * 1000`,
        replacing any earlier value and expiry; other keys are untouched. */
    method Set(key: string, value: V, now: int, ttl: int := DefaultTtl)
      modifies this
      ensures cache == old(cache)[key := Entry(value, Expiration(now, ttl))]
    {
      cache := cache[key := Entry(value, Expiration(now, ttl))];
    }

    /** `get`: the live value of the key, or null; an expired entry is
        removed on the way. */
    method Get(key: string, now: int) returns (r: Option<V>)
      modifies this
      ensures r == Lookup(old(cache), key, now)
      ensures cache == AfterLookup(old(cache), key, now)
    {
      if key !in cache {
        return None;
      }
      var item := cache[key];
      if now > item.expiration {
        cache := cache - {key};
        return None;
      }
      return Some(item.value);
    }

    /** `delete`: removes the key, answering whether it was there. */
    method Delete(key: string) returns (present: bool)
      modifies this
      ensures present <==> key in old(cache)
      ensures cache == old(cache) - {key}
    {
      present := key in cache;
      cache := cache - {key};
    }

    /** `clear`: removes every entry. */
    method Clear()
      modifies this
      ensures cache == map[]
    {
      cache := map[];
    }
  }

  /** A key that was never set, or has been deleted, reads as null. */
  lemma AbsentKeyReadsNull<V>(entries: map<string, Entry<V>>, key: string, now: int)
    requires key !in entries
    ensures Lookup(entries, key, now).None?
    ensures Lookup(entries - {key}, key, now).None?
    ensures AfterLookup(entries, key, now) == entries
  {
  }

  /** After `set`, the value is read back at every instant up to and
      including the expiration, and null afterwards; a `set` with the default
      time-to-live lasts 300000 milliseconds. */
  lemma SetThenLookup<V>(entries: map<string, Entry<V>>, key: string, value: V, now: int, ttl: int, later: int)
    ensures var stored := entries[key := Entry(value, Expiration(now, ttl))];
            && (later <= now + ttl * 1000 ==> Lookup(stored, key, later) == Some(value))
            && (later > now + ttl * 1000 ==>
                  Lookup(stored, key, later).None? && AfterLookup(stored, key, later) == entries - {key})
    ensures Expiration(now, DefaultTtl) == now + 300000
  {
    var stored := entries[key := Entry(value, Expiration(now, ttl))];
    if later > now + ttl * 1000 {
      assert stored - {key} == entries - {key};
    }
  }

  /** Setting, deleting or evicting one key leaves what every other key reads. */
  lemma OtherKeysUnaffected<V>(entries: map<string, Entry<V>>, key: string, other: string, value: V, now: int, ttl: int, at: int)
    requires other != key
    ensures Lookup(entries[key := Entry(value, Expiration(now, ttl))], other, at) == Lookup(entries, other, at)
    ensures Lookup(entries - {key}, other, at) == Lookup(entries, other, at)
    ensures Lookup(AfterLookup(entries, key, now), other, at) == Lookup(entries, other, at)
  {
  }

  /** A read that finds a live entry changes nothing. */
  lemma LiveReadChangesNothing<V>(entries: map<string, Entry<V>>, key: string, now: int)
    requires Lookup(entries, key, now).Some?
    ensures AfterLookup(entries, key, now) == entries
  {
  }
}
