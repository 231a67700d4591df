/**
 * The module-level page cache the two cached list hooks share
 * (`pageCache` in src/hooks/useDinosaurDataNoScroll.ts and
 * src/hooks/useDinosaurDataImproved.ts): a map from a request key to the rows
 * fetched for it and the time they were stored. Time is the caller's
 * `Date.now()` reading, passed in as milliseconds.
 */
module PageCache {

  import opened Options
  import opened Records

  /** Five minutes, in milliseconds. */
  const CacheDuration: nat := 300000

  datatype Entry = Entry(data: seq<Dinosaur>, timestamp: nat)

  /** A lookup at `now` may serve the entry: it is strictly younger than the duration. */
  predicate Usable(e: Entry, now: nat) {
    now - e.timestamp < CacheDuration
  }

  /** The sweep after each store deletes an entry strictly older than the duration. */
  predicate Expired(e: Entry, now: nat) {
    now - e.timestamp > CacheDuration
  }

  /** The cache after a sweep at `now`. */
  function Swept(entries: map<string, Entry>, now: nat): map<string, Entry>
  {
    map k | k in entries && !Expired(entries[k], now) :: entries[k]
  }

  /**
   * A sweep never removes an entry a lookup could still serve, and it keeps
   * the entries it does not remove unchanged.
   */
  lemma SweptKeepsUsable(entries: map<string, Entry>, now: nat)
    ensures forall k :: k in entries && Usable(entries[k], now) ==> k in Swept(entries, now)
    ensures forall k :: k in Swept(entries, now) ==> k in entries && Swept(entries, now)[k] == entries[k]
  {
  }

  /**
   * The two tests use different comparisons, so an entry exactly one duration
   * old is no longer served, yet survives the sweep.
   */
  lemma BoundaryEntryLingers(data: seq<Dinosaur>, stored: nat)
    ensures var e := Entry(data, stored);
      !Usable(e, stored + CacheDuration) && !Expired(e, stored + CacheDuration)
      && Swept(map["k" := e], stored + CacheDuration) == map["k" := e]
  {
    var e := Entry(data, stored);
    assert Swept(map["k" := e], stored + CacheDuration).Keys == {"k"};
  }

  class PageCache {

    var entries: map<string, Entry>

    constructor()
      ensures entries == map[]
    {
      entries := map[];
    }

    /** `pageCache.get(key)` followed by the freshness test of the hooks. */
    method Lookup(key: string, now: nat) returns (cached: Option<seq<Dinosaur>>)
      ensures cached.Some? <==> key in entries && Usable(entries[key], now)
      ensures cached.Some? ==> cached.value == entries[key].data
    {
      if key in entries && now - entries[key].timestamp < CacheDuration {
        cached := Some(entries[key].data);
      } else {
        cached := None;
      }
    }

    /** `pageCache.set(key, {data, timestamp: now})`. */
    method Store(key: string, data: seq<Dinosaur>, now: nat)
      modifies this
      ensures entries == old(entries)[key := Entry(data, now)]
    {
      entries := entries[key := Entry(data, now)];
    }

    /** `clearOldCache()`: one pass over the entries deleting the expired ones. */
    method ClearOld(now: nat)
      modifies this
      ensures entries == Swept(old(entries), now)
    {
      ghost var original := entries;
      var pending := entries.Keys;
      while pending != {}
        invariant pending <= original.Keys
        invariant forall k :: k in entries <==> k in original && (k in pending || !Expired(original[k], now))
        invariant forall k :: k in entries ==> entries[k] == original[k]
        decreases pending
      {
        var k :| k in pending;
        if now - entries[k].timestamp > CacheDuration {
          entries := entries - {k};
        }
        pending := pending - {k};
      }
      assert entries.Keys == Swept(original, now).Keys;
    }

    /** `pageCache.clear()`. */
    method Clear()
      modifies this
      ensures entries == map[]
    {
      entries := map[];
    }
  }
}
