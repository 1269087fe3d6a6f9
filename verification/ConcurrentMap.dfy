/** The thread-safe cache of src/outmdsd/ConcurrentMap.h.  Every method body runs under
    `m_cacheMutex`, so one call is one atomic step. */
module ConcurrentMaps {
  import opened Text

  function Elements<T>(s: seq<T>): set<T> {
    set x | x in s
  }

  lemma SizeWithout<V>(m: map<string, V>, key: string)
    ensures |m - {key}| == if key in m then |m| - 1 else |m|
  {
    var left := m - {key};
    assert left.Keys == m.Keys - {key};
    assert |left.Keys| == |left| && |m.Keys| == |m|;
  }

  lemma EraseNext<V>(m: map<string, V>, keylist: seq<string>, i: nat)
    requires i < |keylist|
    ensures m - Elements(keylist[..i]) - {keylist[i]} == m - Elements(keylist[..i + 1])
  {
    assert Elements(keylist[..i + 1]) == Elements(keylist[..i]) + {keylist[i]};
  }

  class ConcurrentMap<V(==)> {
    var cache: map<string, V>

    constructor ()
      ensures cache == map[]
    {
      cache := map[];
    }

    /** The copy constructor, used as a snapshot: later changes to `other` do not show. */
    constructor Snapshot(other: ConcurrentMap<V>)
      ensures cache == other.cache
    {
      cache := other.cache;
    }

    method Add(key: string, value: V) returns (r: Result<()>)
      modifies this
      ensures key == "" ==> r == Err(InvalidArgument) && cache == old(cache)
      ensures key != "" ==> r == Ok(()) && cache == old(cache)[key := value]
    {
      if key == "" {
        return Err(InvalidArgument);
      }
      cache := cache[key := value];
      return Ok(());
    }

    method Erase(key: string) returns (erased: nat)
      modifies this
      ensures cache == if key == "" then old(cache) else old(cache) - {key}
      ensures erased == if key != "" && key in old(cache) then 1 else 0
    {
      if key == "" {
        return 0;
      }
      erased := if key in cache then 1 else 0;
      cache := cache - {key};
    }

    /** Removes exactly the listed keys; a key listed twice is counted once. */
    method EraseAll(keylist: seq<string>) returns (total: nat)
      modifies this
      ensures cache == old(cache) - Elements(keylist)
      ensures total == |old(cache)| - |cache|
    {
      total := 0;
      ghost var before := cache;
      for i := 0 to |keylist|
        invariant cache == before - Elements(keylist[..i])
        invariant total == |before| - |cache|
      {
        SizeWithout(cache, keylist[i]);
        EraseNext(before, keylist, i);
        total := total + if keylist[i] in cache then 1 else 0;
        cache := cache - {keylist[i]};
      }
      assert keylist[..|keylist|] == keylist;
    }

    /** The map's iteration order is unspecified, so is the order of the result. */
    method FilterEach(fn: V ~> bool) returns (keylist: seq<string>)
      requires forall k :: k in cache ==> fn.requires(cache[k])
      ensures forall k :: k in keylist <==> k in cache && fn(cache[k])
      ensures forall i, j :: 0 <= i < j < |keylist| ==> keylist[i] != keylist[j]
    {
      keylist := [];
      var rest := cache.Keys;
      while rest != {}
        invariant rest <= cache.Keys
        invariant forall k :: k in keylist <==> k in cache.Keys - rest && fn(cache[k])
        invariant forall i, j :: 0 <= i < j < |keylist| ==> keylist[i] != keylist[j]
        decreases rest
      {
        var k :| k in rest;
        if fn(cache[k]) {
          keylist := keylist + [k];
        }
        rest := rest - {k};
      }
    }

    method Get(key: string) returns (r: Result<V>)
      ensures r == if key == "" then Err(InvalidArgument)
                   else if key in cache then Ok(cache[key])
                   else Err(OutOfRange)
    {
      if key == "" {
        return Err(InvalidArgument);
      }
      if key !in cache {
        return Err(OutOfRange);
      }
      return Ok(cache[key]);
    }
  }
}
