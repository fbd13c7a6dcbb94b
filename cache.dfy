/**
 * The server's in-memory TTL cache. Time is an input: `now` stands for
 * `time.Now()` at the moment of the call, in nanoseconds.
 */
module TtlCache {
  import opened Common

  datatype Entry<V> = Entry(value: V, expiresAt: int)

  predicate HasPrefix(key: string, prefix: string) {
    |key| >= |prefix| && key[..|prefix|] == prefix
  }

  /** An entry is served while `now` is not after its expiry instant. */
  function Lookup<V>(items: map<string, Entry<V>>, key: string, now: int): (r: Option<V>)
    ensures r.Some? <==> key in items && now <= items[key].expiresAt
    ensures r.Some? ==> r.value == items[key].value
  {
    if key !in items then None
    else if now > items[key].expiresAt then None
    else Some(items[key].value)
  }

  class Cache<V> {
    var items: map<string, Entry<V>>
    const ttl: int

    constructor (ttl: int)
      ensures items == map[] && this.ttl == ttl
    {
      items := map[];
      this.ttl := ttl;
    }

    /** `Get`: a miss for an absent key or an expired entry, otherwise the stored value. */
    function Get(key: string, now: int): (r: Option<V>)
      reads this
      ensures r == Lookup(items, key, now)
    {
      Lookup(items, key, now)
    }

    /** `Set`: stores the value with expiry `now + ttl`, replacing any entry under that key. */
    method Set(key: string, value: V, now: int)
      modifies this
      ensures items == old(items)[key := Entry(value, now + ttl)]
    {
      items := items[key := Entry(value, now + ttl)];
    }

    /** `Delete`: removes that key and nothing else. */
    method Delete(key: string)
      modifies this
      ensures items == old(items) - {key}
    {
      items := items - {key};
    }

    /** `Invalidate`: removes exactly the keys that start with `prefix`, visiting keys in any order. */
    method Invalidate(prefix: string)
      modifies this
      ensures items.Keys == set k | k in old(items) && !HasPrefix(k, prefix)
      ensures forall k :: k in items ==> items[k] == old(items)[k]
    {
      var toVisit := items.Keys;
      while toVisit != {}
        invariant toVisit <= old(items).Keys
        invariant items.Keys == (set k | k in old(items) && (k in toVisit || !HasPrefix(k, prefix)))
        invariant forall k :: k in items ==> items[k] == old(items)[k]
        decreases toVisit
      {
        var key :| key in toVisit;
        if HasPrefix(key, prefix) {
          items := items - {key};
        }
        toVisit := toVisit - {key};
      }
    }

    /** `Clear`: replaces the map with an empty one. */
    method Clear()
      modifies this
      ensures items == map[]
    {
      items := map[];
    }

    /** One sweep of the background cleanup: drops every entry already expired at `now`. */
    method Sweep(now: int)
      modifies this
      ensures items.Keys == set k | k in old(items) && now <= old(items)[k].expiresAt
      ensures forall k :: k in items ==> items[k] == old(items)[k]
    {
      var toVisit := items.Keys;
      while toVisit != {}
        invariant toVisit <= old(items).Keys
        invariant items.Keys == (set k | k in old(items) && (k in toVisit || now <= old(items)[k].expiresAt))
        invariant forall k :: k in items ==> items[k] == old(items)[k]
        decreases toVisit
      {
        var key :| key in toVisit;
        if now > items[key].expiresAt {
          items := items - {key};
        }
        toVisit := toVisit - {key};
      }
    }
  }

  /** A value stored at `t` is served under that key at any `now` up to `t + ttl`. */
  lemma SetThenGet<V>(items: map<string, Entry<V>>, key: string, value: V, t: int, ttl: int, now: int)
    requires now <= t + ttl
    ensures Lookup(items[key := Entry(value, t + ttl)], key, now) == Some(value)
  {
  }

  /** Deleting a key leaves every other key's lookup unchanged and makes that key miss. */
  lemma DeleteOnlyThatKey<V>(items: map<string, Entry<V>>, key: string, other: string, now: int)
    ensures Lookup(items - {key}, key, now) == None
    ensures other != key ==> Lookup(items - {key}, other, now) == Lookup(items, other, now)
  {
  }

  /** The cleanup sweep never changes what `Get` answers at the same instant. */
  lemma SweepIsUnobservable<V>(items: map<string, Entry<V>>, swept: map<string, Entry<V>>, key: string, now: int)
    requires swept.Keys == set k | k in items && now <= items[k].expiresAt
    requires forall k :: k in swept ==> swept[k] == items[k]
    ensures Lookup(swept, key, now) == Lookup(items, key, now)
  {
    if key in items && now <= items[key].expiresAt {
      assert key in swept;
    }
  }
}
