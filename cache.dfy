/**
 * The update cache: one persisted record holding the latest version seen on
 * the registry and, optionally, the version the user chose to skip. The file
 * itself is the `cache` field of `CacheFile`; a missing or corrupt file reads
 * as `None`, and a write that fails is swallowed and leaves the file as it was.
 */
module UpdateCache {
  import opened Wrappers

  /** The JSON object `{ latestVersion, dismissedVersion? }` kept in the cache file. */
  datatype VersionCache = VersionCache(latestVersion: string, dismissedVersion: Option<string>)

  /** `readCache()?.dismissedVersion`: the dismissal on file, absent when there is no cache. */
  function DismissedIn(cache: Option<VersionCache>): (d: Option<string>)
    ensures d.Some? ==> cache.Some? && cache.value.dismissedVersion == d
    ensures cache.Some? ==> d == cache.value.dismissedVersion
  {
    match cache
    case None => None
    case Some(c) => c.dismissedVersion
  }

  /**
   * The cache `dismissVersion(version)` leaves once its write succeeds:
   * nothing when there is no cache, otherwise the same latest version with
   * `version` as the dismissal.
   */
  function Dismissed(cache: Option<VersionCache>, version: string): (r: Option<VersionCache>)
    ensures r.Some? <==> cache.Some?
    ensures r.Some? ==> r.value.latestVersion == cache.value.latestVersion
    ensures r.Some? ==> r.value.dismissedVersion == Some(version)
  {
    match cache
    case None => None
    case Some(c) => Some(c.(dismissedVersion := Some(version)))
  }

  /**
   * The record written when a fetched latest version is stored: the new latest
   * version, with the dismissal that is on file at the moment of the write.
   */
  function Refreshed(cache: Option<VersionCache>, latest: string): (r: VersionCache)
    ensures r.latestVersion == latest
    ensures r.dismissedVersion == DismissedIn(cache)
  {
    VersionCache(latest, DismissedIn(cache))
  }

  /** Dismissing the same version twice is dismissing it once. */
  lemma DismissIdempotent(cache: Option<VersionCache>, version: string)
    ensures Dismissed(Dismissed(cache, version), version) == Dismissed(cache, version)
  {
  }

  /** Of two dismissals, the later one is what stays on file. */
  lemma LaterDismissalWins(cache: Option<VersionCache>, first: string, second: string)
    ensures Dismissed(Dismissed(cache, first), second) == Dismissed(cache, second)
  {
  }

  /** A refresh landing after a dismissal keeps that dismissal next to the new latest version. */
  lemma RefreshKeepsDismissal(cache: Option<VersionCache>, version: string, latest: string)
    requires cache.Some?
    ensures Refreshed(Dismissed(cache, version), latest) == VersionCache(latest, Some(version))
  {
  }

  /**
   * When a cache exists, a dismissal and a refresh write give the same file in
   * either order; when none exists, a dismissal before the refresh is lost (it
   * was a no-op) while one after it is kept.
   */
  lemma DismissRefreshOrder(cache: Option<VersionCache>, version: string, latest: string)
    ensures cache.Some? ==>
      Some(Refreshed(Dismissed(cache, version), latest)) == Dismissed(Some(Refreshed(cache, latest)), version)
    ensures cache.None? ==>
      && Refreshed(Dismissed(cache, version), latest) == VersionCache(latest, None)
      && Dismissed(Some(Refreshed(cache, latest)), version) == Some(VersionCache(latest, Some(version)))
  {
  }

  /** The cache file, read and written whole. */
  class CacheFile {
    /** What `readCache` returns: `None` for a missing or unreadable file. */
    var cache: Option<VersionCache>

    constructor (initial: Option<VersionCache>)
      ensures cache == initial
    {
      cache := initial;
    }

    /** `readCache()`. */
    method Read() returns (c: Option<VersionCache>)
      ensures c == cache
    {
      c := cache;
    }

    /** `writeCache(c)`: replaces the file when the write succeeds; a failure is swallowed. */
    method Write(c: VersionCache, writeOk: bool)
      modifies this
      ensures cache == if writeOk then Some(c) else old(cache)
    {
      if writeOk {
        cache := Some(c);
      }
    }

    /** `dismissVersion(version)`: a no-op without a cache; otherwise sets only the dismissal. */
    method Dismiss(version: string, writeOk: bool)
      modifies this
      ensures cache == if writeOk then Dismissed(old(cache), version) else old(cache)
    {
      var c := Read();
      if c.None? {
        return;
      }
      var updated := c.value.(dismissedVersion := Some(version));
      Write(updated, writeOk);
    }

    /**
     * `writeCache({ latestVersion: latest, dismissedVersion: readCache()?.dismissedVersion })`:
     * stores a fetched latest version, re-reading the dismissal at write time.
     */
    method RecordLatest(latest: string, writeOk: bool)
      modifies this
      ensures cache == if writeOk then Some(Refreshed(old(cache), latest)) else old(cache)
    {
      var current := Read();
      Write(VersionCache(latest, DismissedIn(current)), writeOk);
    }
  }
}
