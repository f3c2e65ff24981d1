/** A memo of access decisions keyed by string. */
module Caches {

  import opened Wrappers

  datatype AccessCache = AccessCache(cache: map<string, bool>)

  function New(): (c: AccessCache)
    ensures forall key :: CheckCache(c, key) == None
  {
    AccessCache(map[])
  }

  /** `AccessCache::check_cache`: the stored decision, if any. */
  function CheckCache(c: AccessCache, key: string): (r: Option<bool>)
    ensures r.None? <==> key !in c.cache
    ensures r.Some? ==> c.cache[key] == r.value
  {
    if key in c.cache then Some(c.cache[key]) else None
  }

  /** `AccessCache::add_to_cache`: insert or overwrite one key. */
  function AddToCache(c: AccessCache, key: string, accessGranted: bool): (c': AccessCache)
    ensures CheckCache(c', key) == Some(accessGranted)
    ensures forall k :: k != key ==> CheckCache(c', k) == CheckCache(c, k)
  {
    AccessCache(c.cache[key := accessGranted])
  }

  /** The later of two writes to a key wins. */
  lemma OverwriteWins(c: AccessCache, key: string, b1: bool, b2: bool)
    ensures AddToCache(AddToCache(c, key, b1), key, b2) == AddToCache(c, key, b2)
  {
  }
}
