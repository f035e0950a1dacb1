/**
 * The stateful part of `ContributorsAPI`: the single `localStorage` slot
 * that caches the merged table for five minutes, and `fetchContributors`,
 * which serves a fresh cache entry, else fetches both repositories and
 * merges them, else falls back to the cache with expiry ignored, else
 * returns an empty table. It never throws.
 *
 * The clock is passed in (`now`), the browser check is the flag
 * `hasWindow`, and the two retrievals are scripts of attempt outcomes.
 */
module Contributors {
  import opened Wrappers
  import opened ContributorMerge
  import opened ContributorRetry

  /** `CACHE_DURATION`: 5 minutes in milliseconds. */
  const CacheDuration: int := 5 * 60 * 1000

  /**
   * The storage slot under `CACHE_KEY`: nothing, a value that does not
   * parse as a cache envelope, or the envelope `{ contributors, timestamp }`.
   */
  datatype Slot =
    | Empty
    | Malformed
    | Stored(contributors: seq<ContributorData>, timestamp: int)

  /** What `getFromCache` returns and the slot it leaves behind. */
  datatype CacheRead = CacheRead(value: Option<seq<ContributorData>>, slot: Slot)

  /**
   * `getFromCache(ignoreExpiry)` at time `now`: a missing or unparseable
   * slot reads as `null` and is left alone; an entry older than
   * `CacheDuration` is removed and reads as `null` unless expiry is ignored.
   */
  function ReadCache(slot: Slot, ignoreExpiry: bool, now: int): CacheRead
  {
    match slot
    case Empty => CacheRead(None, Empty)
    case Malformed => CacheRead(None, Malformed)
    case Stored(contributors, timestamp) =>
      if !ignoreExpiry && now - timestamp > CacheDuration then CacheRead(None, Empty)
      else CacheRead(Some(contributors), slot)
  }

  /** `saveToCache` at time `now`; a failing `setItem` (storage full) leaves the slot unchanged. */
  function WriteCache(slot: Slot, contributors: seq<ContributorData>, now: int, storageFull: bool): Slot
  {
    if storageFull then slot else Stored(contributors, now)
  }

  /** Whether both retrievals produced a response and both bodies parsed. */
  function FetchedBodies(framework: seq<Attempt>, skeleton: seq<Attempt>)
    : Option<(seq<GitHubContributor>, seq<GitHubContributor>)>
    requires DefaultRetries <= |framework| && DefaultRetries <= |skeleton|
  {
    var fw := Retrieval(framework, DefaultRetries).result;
    var sk := Retrieval(skeleton, DefaultRetries).result;
    if fw.Succeeded? && sk.Succeeded? && fw.response.body.Some? && sk.response.body.Some? then
      Some((fw.response.body.value, sk.response.body.value))
    else None
  }

  /** What one call of `fetchContributors` returns, leaves in the slot, and how many requests it made. */
  datatype FetchResult = FetchResult(contributors: seq<ContributorData>, slot: Slot, requests: nat)

  /**
   * `fetchContributors` over the slot's state: the first read, the two
   * retrievals, the merge and the write, or the fallback read.
   */
  function FetchContributorsSpec(hasWindow: bool, slot: Slot, now: int, savedAt: int, storageFull: bool,
                                 framework: seq<Attempt>, skeleton: seq<Attempt>): FetchResult
    requires DefaultRetries <= |framework| && DefaultRetries <= |skeleton|
  {
    var first := if hasWindow then ReadCache(slot, false, now) else CacheRead(None, slot);
    if first.value.Some? then FetchResult(first.value.value, first.slot, 0)
    else
      var requests := Retrieval(framework, DefaultRetries).used + Retrieval(skeleton, DefaultRetries).used;
      match FetchedBodies(framework, skeleton)
      case Some((fw, sk)) =>
        var merged := Merge(fw, sk);
        FetchResult(merged, if hasWindow then WriteCache(first.slot, merged, savedAt, storageFull) else first.slot, requests)
      case None =>
        var fallback := if hasWindow then ReadCache(first.slot, true, now) else CacheRead(None, first.slot);
        FetchResult(fallback.value.GetOr([]), fallback.slot, requests)
  }

  /** The `ContributorsAPI` class; its only state is the browser's storage slot. */
  class ContributorsApi {
    var storage: Slot

    constructor (initial: Slot)
      ensures storage == initial
    {
      storage := initial;
    }

    /** `getFromCache(ignoreExpiry)` at time `now`. */
    method GetFromCache(ignoreExpiry: bool, now: int) returns (cached: Option<seq<ContributorData>>)
      modifies this
      ensures cached == ReadCache(old(storage), ignoreExpiry, now).value
      ensures storage == ReadCache(old(storage), ignoreExpiry, now).slot
    {
      match storage {
        case Empty =>
          cached := None;
        case Malformed =>
          cached := None;
        case Stored(contributors, timestamp) =>
          if !ignoreExpiry && now - timestamp > CacheDuration {
            storage := Empty;
            cached := None;
          } else {
            cached := Some(contributors);
          }
      }
    }

    /** `saveToCache(contributors)` at time `now`. */
    method SaveToCache(contributors: seq<ContributorData>, now: int, storageFull: bool)
      modifies this
      ensures storage == WriteCache(old(storage), contributors, now, storageFull)
    {
      if !storageFull {
        storage := Stored(contributors, now);
      }
    }

    /**
     * `fetchContributors()`. `now` is the clock when the cache is first
     * read, `savedAt` the clock when the merged table is written.
     */
    method FetchContributors(hasWindow: bool, now: int, savedAt: int, storageFull: bool,
                             framework: seq<Attempt>, skeleton: seq<Attempt>)
      returns (contributors: seq<ContributorData>, requests: nat)
      requires DefaultRetries <= |framework| && DefaultRetries <= |skeleton|
      modifies this
      ensures FetchResult(contributors, storage, requests) ==
              FetchContributorsSpec(hasWindow, old(storage), now, savedAt, storageFull, framework, skeleton)
    {
      if hasWindow {
        var cached := GetFromCache(false, now);
        if cached.Some? {
          return cached.value, 0;
        }
      }
      var frameworkResponse := FetchWithRetry(framework, DefaultRetries);
      var skeletonResponse := FetchWithRetry(skeleton, DefaultRetries);
      requests := frameworkResponse.used + skeletonResponse.used;
      if frameworkResponse.result.Succeeded? && skeletonResponse.result.Succeeded? &&
         frameworkResponse.result.response.body.Some? && skeletonResponse.result.response.body.Some? {
        contributors := MergeContributorData(frameworkResponse.result.response.body.value,
                                             skeletonResponse.result.response.body.value);
        if hasWindow {
          SaveToCache(contributors, savedAt, storageFull);
        }
        return;
      }
      // The catch block: serve whatever the slot still holds, ignoring expiry.
      if hasWindow {
        var cached := GetFromCache(true, now);
        if cached.Some? {
          return cached.value, requests;
        }
      }
      contributors := [];
    }
  }

  /* ---------------------------------------------------------------- */
  /* Properties of the cache                                          */
  /* ---------------------------------------------------------------- */

  /** A list saved at `t` is read back unchanged at any `t'` up to and including `t + CacheDuration`. */
  lemma CacheRoundTrip(slot: Slot, contributors: seq<ContributorData>, t: int, t': int)
    requires t' - t <= CacheDuration
    ensures ReadCache(WriteCache(slot, contributors, t, false), false, t') ==
            CacheRead(Some(contributors), Stored(contributors, t))
  {
  }

  /** An entry older than `CacheDuration` is removed by a normal read, which returns nothing. */
  lemma CacheExpiry(contributors: seq<ContributorData>, t: int, now: int)
    requires now - t > CacheDuration
    ensures ReadCache(Stored(contributors, t), false, now) == CacheRead(None, Empty)
  {
  }

  /** Ignoring expiry, a stored entry is returned whatever its age, and kept. */
  lemma CacheIgnoreExpiry(contributors: seq<ContributorData>, t: int, now: int)
    ensures ReadCache(Stored(contributors, t), true, now) ==
            CacheRead(Some(contributors), Stored(contributors, t))
  {
  }

  /** A missing or unparseable slot reads as nothing and is not removed. */
  lemma CacheMiss(slot: Slot, ignoreExpiry: bool, now: int)
    requires slot.Empty? || slot.Malformed?
    ensures ReadCache(slot, ignoreExpiry, now) == CacheRead(None, slot)
  {
  }

  /**
   * After a normal read that found nothing, a read that ignores expiry
   * finds nothing either: the normal read has already deleted any expired
   * entry, and an empty or unparseable slot stays so.
   */
  lemma FallbackAfterMiss(slot: Slot, now: int, later: int)
    requires ReadCache(slot, false, now).value.None?
    ensures ReadCache(ReadCache(slot, false, now).slot, true, later).value.None?
  {
  }

  /* ---------------------------------------------------------------- */
  /* Properties of fetchContributors                                  */
  /* ---------------------------------------------------------------- */

  /** A fresh cache entry is returned at once, without a request and with the slot untouched. */
  lemma FetchServesFreshCache(slot: Slot, now: int, savedAt: int, storageFull: bool,
                              framework: seq<Attempt>, skeleton: seq<Attempt>)
    requires DefaultRetries <= |framework| && DefaultRetries <= |skeleton|
    requires slot.Stored? && now - slot.timestamp <= CacheDuration
    ensures FetchContributorsSpec(true, slot, now, savedAt, storageFull, framework, skeleton) ==
            FetchResult(slot.contributors, slot, 0)
  {
  }

  /**
   * With no fresh entry and both retrievals answered, the result is the
   * merge of the two bodies, and in a browser it is cached unless the
   * storage is full; the slot is otherwise as the first read left it.
   */
  lemma FetchMergesOnSuccess(hasWindow: bool, slot: Slot, now: int, savedAt: int, storageFull: bool,
                             framework: seq<Attempt>, skeleton: seq<Attempt>)
    requires DefaultRetries <= |framework| && DefaultRetries <= |skeleton|
    requires !(hasWindow && ReadCache(slot, false, now).value.Some?)
    requires FetchedBodies(framework, skeleton).Some?
    ensures var (fw, sk) := FetchedBodies(framework, skeleton).value;
            var r := FetchContributorsSpec(hasWindow, slot, now, savedAt, storageFull, framework, skeleton);
            && r.contributors == Merge(fw, sk)
            && r.slot == (if hasWindow && !storageFull then Stored(Merge(fw, sk), savedAt)
                          else if hasWindow then ReadCache(slot, false, now).slot
                          else slot)
            && r.requests >= 2
  {
    DefaultRetryDelays(framework);
    DefaultRetryDelays(skeleton);
  }

  /**
   * Any failure of either retrieval or either body gives the empty table:
   * the stale fallback never serves an entry, because the first read of the
   * same call already removed any expired one.
   */
  lemma {:induction false} FetchFailureIsEmpty(hasWindow: bool, slot: Slot, now: int, savedAt: int, storageFull: bool,
                                               framework: seq<Attempt>, skeleton: seq<Attempt>)
    requires DefaultRetries <= |framework| && DefaultRetries <= |skeleton|
    requires !(hasWindow && ReadCache(slot, false, now).value.Some?)
    requires FetchedBodies(framework, skeleton).None?
    ensures FetchContributorsSpec(hasWindow, slot, now, savedAt, storageFull, framework, skeleton).contributors == []
    ensures FetchContributorsSpec(hasWindow, slot, now, savedAt, storageFull, framework, skeleton).slot ==
            (if hasWindow then ReadCache(slot, false, now).slot else slot)
  {
    if hasWindow {
      FallbackAfterMiss(slot, now, now);
    }
  }

  /** Outside a browser the slot is never read nor written. */
  lemma FetchWithoutWindowKeepsSlot(slot: Slot, now: int, savedAt: int, storageFull: bool,
                                    framework: seq<Attempt>, skeleton: seq<Attempt>)
    requires DefaultRetries <= |framework| && DefaultRetries <= |skeleton|
    ensures FetchContributorsSpec(false, slot, now, savedAt, storageFull, framework, skeleton).slot == slot
  {
  }

  /** Both retrievals failing on all three attempts with nothing cached gives the empty table. */
  lemma FetchBothFailEmpty(hasWindow: bool, now: int, savedAt: int, framework: seq<Attempt>, skeleton: seq<Attempt>)
    requires |framework| >= DefaultRetries && |skeleton| >= DefaultRetries
    requires forall i :: 0 <= i < DefaultRetries ==> !IsOk(framework[i]) && !IsOk(skeleton[i])
    ensures FetchContributorsSpec(hasWindow, Empty, now, savedAt, false, framework, skeleton) ==
            FetchResult([], Empty, 2 * DefaultRetries)
  {
    FirstOkNone(framework[..DefaultRetries]);
    FirstOkNone(skeleton[..DefaultRetries]);
  }
}
