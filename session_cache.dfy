/**
 * The redis key-value store the user manager keeps its sessions in, reduced to the four
 * commands it issues. Wall-clock expiry is not modelled: a TTL is an attribute that is set and
 * reset, never counted down.
 */
module SessionStore {
  import opened Wrappers

  /** A stored value and its time-to-live in seconds; `None` means the key never expires. */
  datatype Entry = Entry(value: string, ttl: Option<nat>)

  /** What `GET key` answers: the stored value, or nothing when the key is absent. */
  function Lookup(entries: map<string, Entry>, key: string): (r: Option<string>)
    ensures r.Some? <==> key in entries
    ensures r.Some? ==> r.value == entries[key].value
  {
    if key in entries then Some(entries[key].value) else None
  }

  class SessionCache {
    var entries: map<string, Entry>

    constructor (initial: map<string, Entry>)
      ensures entries == initial
    {
      entries := initial;
    }

    /** `GET key`. */
    method Get(key: string) returns (v: Option<string>)
      ensures v == Lookup(entries, key)
    {
      v := if key in entries then Some(entries[key].value) else None;
    }

    /** `SET key value [EX ttl]`: a plain SET also drops any earlier expiry. */
    method Set(key: string, value: string, ttl: Option<nat>)
      modifies this
      ensures entries == old(entries)[key := Entry(value, ttl)]
    {
      entries := entries[key := Entry(value, ttl)];
    }

    /** `DEL key`: answers how many keys were removed. */
    method Del(key: string) returns (removed: nat)
      modifies this
      ensures removed == if key in old(entries) then 1 else 0
      ensures key !in entries
      ensures entries == old(entries) - {key}
    {
      removed := if key in entries then 1 else 0;
      entries := entries - {key};
    }

    /** `EXPIRE key seconds`: resets the TTL of a present key and keeps its value; absent keys are left alone. */
    method Expire(key: string, seconds: nat) returns (applied: bool)
      modifies this
      ensures applied <==> key in old(entries)
      ensures entries == if applied then old(entries)[key := Entry(old(entries)[key].value, Some(seconds))]
                         else old(entries)
    {
      applied := key in entries;
      if applied {
        entries := entries[key := Entry(entries[key].value, Some(seconds))];
      }
    }
  }
}
