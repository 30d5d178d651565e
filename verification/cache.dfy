/** The in-process TTL cache; one instance stands for one namespace. */
module Cache {
  import opened Text

  datatype Entry<V> = Entry(exp: real, val: V)

  /** What `get` answers: an entry is gone from the instant it expires. */
  function Lookup<K, V>(entries: map<K, Entry<V>>, key: K, now: real): Option<V> {
    if key in entries && entries[key].exp > now then Some(entries[key].val) else None
  }

  function Lifetime(ttl: real): (life: real)
    ensures life >= 0.0
  {
    if ttl < 0.0 then 0.0 else ttl
  }

  /** A call on the cache, with the clock it reads. */
  datatype Call<K, V> =
    | GetCall(key: K, now: real)
    | SetCall(key: K, value: V, ttl: real, now: real)
    | DeleteCall(key: K)

  function Next<K, V>(entries: map<K, Entry<V>>, call: Call<K, V>): map<K, Entry<V>> {
    match call
    case GetCall(key, now) => if Lookup(entries, key, now).None? then entries - {key} else entries
    case SetCall(key, value, ttl, now) => entries[key := Entry(now + Lifetime(ttl), value)]
    case DeleteCall(key) => entries - {key}
  }

  /** The contents of a new cache after some calls. */
  function Contents<K, V>(calls: seq<Call<K, V>>): map<K, Entry<V>> {
    if calls == [] then map[] else Next(Contents(calls[..|calls| - 1]), calls[|calls| - 1])
  }

  /** Call number `i` is the last write of the key. */
  predicate LastWrites<K(==), V>(calls: seq<Call<K, V>>, key: K, i: nat) {
    && i < |calls| && !calls[i].GetCall? && calls[i].key == key
    && forall j :: i < j < |calls| ==> calls[j].GetCall? || calls[j].key != key
  }

  /** Call number `i` sets the key to `v`, is its last write, and still counts at `now`: its
      lifetime, no less than zero, has not passed. */
  predicate StillLives<K(==), V(==)>(calls: seq<Call<K, V>>, key: K, v: V, now: real, i: nat) {
    && LastWrites(calls, key, i) && calls[i].SetCall? && calls[i].value == v
    && now < calls[i].now + if calls[i].ttl >= 0.0 then calls[i].ttl else 0.0
  }

  /** Over any run of calls a key is answered with what was last set there, until one lifetime
      after that set or a delete; that reads evict expired entries never shows. */
  lemma {:induction false} LastWriteIsAnswered<K, V>(calls: seq<Call<K, V>>, key: K, v: V, now: real)
    requires forall k :: 0 <= k < |calls| && calls[k].GetCall? ==> calls[k].now <= now
    ensures Lookup(Contents(calls), key, now) == Some(v) <==> exists i: nat :: StillLives(calls, key, v, now, i)
  {
    if calls != [] {
      var n, before := |calls| - 1, calls[..|calls| - 1];
      LastWriteIsAnswered(before, key, v, now);
      if calls[n].GetCall? || calls[n].key != key {
        forall i: nat ensures StillLives(calls, key, v, now, i) <==> StillLives(before, key, v, now, i) {
        }
      } else {
        assert forall i: nat :: i < n ==> !LastWrites(calls, key, i);
        assert StillLives(calls, key, v, now, n) <==> Lookup(Contents(calls), key, now) == Some(v);
      }
    }
  }

  class CacheManager<K(==), V> {
    var entries: map<K, Entry<V>>

    constructor ()
      ensures entries == map[]
    {
      entries := map[];
    }

    method Get(key: K, now: real) returns (v: Option<V>)
      modifies this
      ensures v == Lookup(old(entries), key, now)
      ensures v.Some? <==> key in old(entries) && old(entries)[key].exp > now
      ensures v.Some? ==> v.value == old(entries)[key].val && entries == old(entries)
      ensures v.None? ==> entries == old(entries) - {key}
      ensures entries == Next(old(entries), GetCall(key, now))
    {
      if key !in entries {
        assert entries - {key} == entries;
        return None;
      }
      if entries[key].exp <= now {
        entries := entries - {key};
        return None;
      }
      v := Some(entries[key].val);
    }

    method Set(key: K, value: V, ttl: real, now: real)
      modifies this
      ensures entries == Next(old(entries), SetCall(key, value, ttl, now))
      ensures entries == old(entries)[key := Entry(if ttl > 0.0 then now + ttl else now, value)]
    {
      entries := entries[key := Entry(now + Lifetime(ttl), value)];
    }

    method Delete(key: K)
      modifies this
      ensures entries == Next(old(entries), DeleteCall(key))
    {
      entries := entries - {key};
    }
  }
}
