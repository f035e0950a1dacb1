# Orionis documentation site: contributors aggregator and SEO helpers

This project is a Dafny model of the two client-side utilities of the
Orionis Framework documentation site.

`src/utils/contributors.ts` (`ContributorsAPI`) fetches the contributor
lists of the `framework` and `skeleton` repositories from GitHub. It
makes up to three attempts per request, with exponential backoff between
them. It then
merges the two lists into one table keyed by login and sorts the table by
total contributions. Each row gets a 1-based rank. The table is cached in
`localStorage` for five minutes. The class also turns a rank into a badge
and a CSS class, and a count into a progress-bar width.

`src/utils/seo.ts` builds page titles, descriptions, keywords, the Open
Graph image URL and a JSON-LD `TechArticle` object. Each uses per-language
defaults for `en` and `es`; any other language falls back to `en`.

Modules:

- `Wrappers` (`wrappers.dfy`): `Option`.
- `ContributorMerge` (`contributor_merge.dfy`): `mergeContributorData`.
  - The method runs the source's loops over a JavaScript `Map`. The map is
    modelled as insertion-ordered keys plus entries.
  - The method is proved equal to `Merge`, a specification built from two
    folds, a reference stable sort and the rank assignment.
  - Lemmas describe every row per login and prove the order, the ties and
    the ranks.
- `ContributorRetry` (`contributor_retry.dfy`): `fetchWithRetry`.
  - The method is a loop over a script of attempt outcomes.
  - It is proved equal to the closed form `Retrieval`.
- `Contributors` (`contributors.dfy`): the cache slot and `fetchContributors`.
  - Both are methods of the class `ContributorsApi`, whose one field is the
    storage slot.
  - Each is proved against a specification function.
- `ContributorRanks` (`contributor_ranks.dfy`): `getRankBadge` and
  `getRankClass`, including the decimal spelling of `#<rank>` and its round
  trip.
- `ContributorProgress` (`contributor_progress.dfy`): `getProgressPercentage`
  on exact rationals.
- `Seo` (`seo.dfy`): the functions of `seo.ts`.

The clock, the browser check (`globalThis.window`), a full storage and the
network are parameters:

- `now` and `savedAt` are the clock.
- `hasWindow` is the browser check.
- `storageFull` says whether `setItem` fails.
- The network is one `seq<Attempt>` per repository. Element `i` is what
  request `i` would return.

### Behaviour worth noting

- **Identity fields.** A login present in the framework list keeps the
  avatar and profile URL of its last framework record. A login found only
  in the skeleton list keeps its first skeleton record's fields, because
  later skeleton records only update the counts (`MergeIdentity`).
- **Repeated skeleton login.** A repeated skeleton login overwrites
  `skeletonContributions` with the last record's count but adds every
  record to `totalContributions` (`RepeatedSkeletonLogin`). The total is
  the sum of the two counts for every login that occurs at most once in
  the skeleton list (`MergeCounts`).
- **Stale fallback.** The expiry-ignoring fallback read never finds an
  entry in the same call. The first, expiry-respecting read has already
  removed any expired entry, so a failed fetch returns the empty table
  (`FallbackAfterMiss`, `FetchFailureIsEmpty`).
- **Backoff delays.** There is no wait after the last attempt, so with
  three attempts the only waits are 1000 ms and 2000 ms
  (`DefaultRetryDelays`).

## Model

| member | source | states |
|---|---|---|
| ContributorMerge.MergeContributorData | src/utils/contributors.ts:110-158 | the two loops over a login-keyed map, the sort and the rank loop return exactly `Merge(fw, sk)` |
| ContributorMerge.FrameworkPassSpec | src/utils/contributors.ts:117-127 | after the framework loop the map has one row per distinct framework login, keys in order of first appearance, each row built from the login's last record with skeleton count 0 |
| ContributorMerge.PutValid | src/utils/contributors.ts:118 | `Map.set` keeps keys distinct and entries keyed by their own login; a present key keeps its position, a new one is appended |
| ContributorMerge.SkeletonStepSpec | src/utils/contributors.ts:130-146 | one skeleton record overwrites an existing row's skeleton count and adds to its total, or appends a fresh skeleton-only row; no other row changes |
| ContributorMerge.SkeletonPassKeys | src/utils/contributors.ts:130-146 | the skeleton loop appends new logins in order of first appearance and keeps the map well formed |
| ContributorMerge.SkeletonPassEntries | src/utils/contributors.ts:130-146 | after the skeleton loop a login has a row iff it had one before or occurs in the skeleton list, and the row is the per-login expectation `SkeletonEntry` |
| ContributorMerge.MergedMap | src/utils/contributors.ts:114-146 | the map after both loops: well formed, keys are the distinct logins of framework then skeleton, each row is `ExpectedEntry` |
| ContributorMerge.SkeletonEntryIsExpected | src/utils/contributors.ts:130-146 | starting from the framework map, the skeleton loop's row for a login is the last framework record's identity (else the first skeleton record's), the last counts, and a total of framework count plus every skeleton count |
| ContributorMerge.DedupSpec | src/utils/contributors.ts:114 | the map's key order holds every login exactly once |
| ContributorMerge.SortByTotalSpec | src/utils/contributors.ts:149-150 | the comparator `b.total - a.total` under a stable sort gives a non-increasing permutation of the map values, with rows of equal total in their original order |
| ContributorMerge.InsertTies | src/utils/contributors.ts:149-150 | an inserted row goes ahead of every existing row with the same total; since the sort inserts the earliest remaining row last, rows of equal total keep their input order |
| ContributorMerge.InsertionOrderLogins | src/utils/contributors.ts:149 | `Array.from(map.values())` lists the distinct logins of framework then skeleton, each row equal to its per-login expectation |
| ContributorMerge.MergeLogins | src/utils/contributors.ts:110-158 | the result has exactly one row per login occurring in either input, and no other |
| ContributorMerge.MergeEntries | src/utils/contributors.ts:117-155 | the row at position i is the per-login expectation for its login with rank i + 1 |
| ContributorMerge.MergeOrder | src/utils/contributors.ts:149-155 | totals never increase down the table, ranks are exactly 1..N by position, and ties keep the map's insertion order |
| ContributorMerge.MergeIdentity | src/utils/contributors.ts:117-144 | a framework login keeps its last framework record's avatar and profile URL; a skeleton-only login keeps its first skeleton record's |
| ContributorMerge.MergeCounts | src/utils/contributors.ts:122-142 | a login absent from one list has 0 for that list; a login occurring at most once in the skeleton list, and so every login when skeleton logins are distinct, has a total equal to the sum of its two counts |
| ContributorMerge.SumForUnique | src/utils/contributors.ts:133-134 | when a login occurs exactly once in the skeleton list, the accumulated total adds exactly that record's count |
| ContributorMerge.RepeatedSkeletonLogin | src/utils/contributors.ts:133-134 | skeleton records `a:1, a:2` give skeleton count 2 but total 3 |
| ContributorMerge.MergeScenario | src/utils/contributors.ts:110-158 | framework `[a:10]` and skeleton `[a:5, b:20]` give `b` (0, 20, 20, rank 1) then `a` (10, 5, 15, rank 2) |
| ContributorRetry.FetchWithRetry | src/utils/contributors.ts:77-105 | the retry loop returns exactly `Retrieval(attempts, retries)`: attempts made, waits and outcome |
| ContributorRetry.FirstOk | src/utils/contributors.ts:87-91 | the index of the first response with an OK status, every earlier attempt failing |
| ContributorRetry.FirstOkAt | src/utils/contributors.ts:87-91 | an OK attempt preceded only by failures is the first success |
| ContributorRetry.RetrievalOutcome | src/utils/contributors.ts:77-105 | at most `retries` attempts; success iff some attempt among the first `retries` is OK, and then it is the first such; otherwise the last attempt's failure is rethrown; the final `throw` only when `retries <= 0` |
| ContributorRetry.RetrievalDelays | src/utils/contributors.ts:95-100 | one wait after each failed attempt except the last, the i-th being 2^i * 1000 ms |
| ContributorRetry.DefaultRetryDelays | src/utils/contributors.ts:77-100 | with the default of 3 attempts at least one request is made and the waits are a prefix of 1000, 2000 |
| Contributors.ContributorsApi.GetFromCache | src/utils/contributors.ts:163-181 | returns the stored list unless the slot is empty, unparseable, or expired and expiry is not ignored; an expired entry is removed |
| Contributors.ContributorsApi.SaveToCache | src/utils/contributors.ts:186-196 | stores the list with the current time, or leaves the slot as it was when the write fails |
| Contributors.ContributorsApi.FetchContributors | src/utils/contributors.ts:31-72 | returns and stores exactly what `FetchContributorsSpec` gives for the old slot: fresh cache, else merge and save, else fallback read, else empty |
| Contributors.CacheRoundTrip | src/utils/contributors.ts:163-196 | a list saved at t is read back unchanged at any time up to t + 300000 ms |
| Contributors.CacheExpiry | src/utils/contributors.ts:171-174 | an entry older than 300000 ms reads as nothing and is removed |
| Contributors.CacheIgnoreExpiry | src/utils/contributors.ts:171-176 | ignoring expiry, a stored entry of any age is returned and kept |
| Contributors.CacheMiss | src/utils/contributors.ts:165-180 | an empty or unparseable slot reads as nothing and is left as is |
| Contributors.FallbackAfterMiss | src/utils/contributors.ts:35-63 | after a normal read that found nothing, a read ignoring expiry finds nothing either |
| Contributors.FetchServesFreshCache | src/utils/contributors.ts:34-39 | a fresh entry is returned in a browser with no request and the slot untouched |
| Contributors.FetchMergesOnSuccess | src/utils/contributors.ts:42-57 | with both bodies fetched the result is their merge, saved at `savedAt` in a browser unless storage is full, after at least two requests |
| Contributors.FetchFailureIsEmpty | src/utils/contributors.ts:58-71 | any failed retrieval or body gives the empty table, the slot being as the first read left it |
| Contributors.FetchWithoutWindowKeepsSlot | src/utils/contributors.ts:31-72 | outside a browser the slot is neither read nor written |
| Contributors.FetchBothFailEmpty | src/utils/contributors.ts:42-70 | both repositories failing three times with nothing cached gives the empty table after 6 requests |
| ContributorRanks.RankBadge | src/utils/contributors.ts:208-215 | a one-character medal exactly for ranks 1, 2 and 3; every other rank gets `#` followed by its decimal spelling |
| ContributorRanks.RankClass | src/utils/contributors.ts:220-227 | `rank-default` exactly for ranks other than 1, 2 and 3 |
| ContributorRanks.NatToDecimal | src/utils/contributors.ts:213 | the decimal spelling is non-empty, all digits, without a leading zero |
| ContributorRanks.NatToDecimalRoundTrip | src/utils/contributors.ts:213 | reading the digits back gives the number |
| ContributorRanks.IntToDecimalRoundTrip | src/utils/contributors.ts:213 | `${rank}` read back, sign included, gives the rank |
| ContributorRanks.RankTiers | src/utils/contributors.ts:208-227 | badge and class are gold, silver, bronze exactly for ranks 1, 2, 3; every other rank gets `rank-default` and a badge `#` followed by its own decimal |
| ContributorRanks.RankBadgeInjective | src/utils/contributors.ts:208-215 | different ranks get different badges |
| ContributorRanks.MergedBadgesDistinct | src/utils/contributors.ts:153-155 | no two rows of a merged table share a badge |
| ContributorProgress.ProgressPercentage | src/utils/contributors.ts:232-234 | for a positive maximum and non-negative count the width is in [0, 100] and is 100 once the count reaches the maximum; a zero maximum gives 100 exactly for a positive count |
| ContributorProgress.Ratio | src/utils/contributors.ts:233 | the unclamped ratio is non-negative for a non-negative count and at least 100 from the maximum on |
| ContributorProgress.ProgressMonotone | src/utils/contributors.ts:232-234 | for a positive maximum a larger count never gives a narrower bar |
| Seo.GenerateSEOTitle | src/utils/seo.ts:26-29 | `<title> - Orionis Framework` for a non-empty title, else `Orionis Framework`, in every language |
| Seo.GenerateSEODescription | src/utils/seo.ts:31-33 | a non-empty description is kept; an empty one becomes the language's default description (Spanish for `es`, English otherwise); never empty |
| Seo.GenerateKeywords | src/utils/seo.ts:35-38 | the page keywords followed by `, ` and the language's default keywords, or the defaults alone; always ends with the defaults |
| Seo.GenerateOGImageURL | src/utils/seo.ts:44-48 | the base URL (default `https://docs.orionis-framework.com`) followed by `/og-image.png` |
| Seo.GenerateTechArticleSchema | src/utils/seo.ts:51-83 | headline, description, url and language copied from the props; author the language's author with English fallback; publisher `Orionis Framework` |
| Seo.LocalFieldIsLocale | src/utils/seo.ts:11-24 | the field-by-field fallback from `defaultSEO[lang]` to `defaultSEO.en` equals taking the whole `es` entry for `es` and the `en` entry otherwise, because no default is empty |
| Seo.TitleIgnoresLang | src/utils/seo.ts:26-29 | the title does not depend on the language |
| Seo.OGImageIgnoresTitle | src/utils/seo.ts:44-48 | the image URL does not depend on the title |

## Left out

- The HTTP layer: the URLs, the request headers, `Response.json()`, and
  `Promise.all`'s interleaving of the two retrievals. A retrieval is
  modelled by its script of outcomes, and a body by whether it parsed
  (`Option`). The sleeps of `delay` are recorded as waits, not slept.
- `console.warn`, `console.error` and `console.log`: they have no effect on
  the results.
- `localStorage` is a single slot. `JSON.stringify` and `JSON.parse` are
  not modelled: a slot holds either the envelope or something that does
  not parse.
  - JSON that parses but is not an envelope is not modelled. For example,
    `null` throws on `.timestamp`, and an object without `contributors`
    reads as `undefined`.
- A body that parses as an array of malformed records is not modelled.
  Every body is a list of well-typed records.
- Concurrent calls of `fetchContributors`: a call cannot observe another
  call's cache write.
- `Array.prototype.sort` is modelled by a reference stable insertion sort
  on integer totals. Engine sorts are stable, so the result is the same.
  Comparator results that are NaN are out of scope.
- ContributorRanks.RankBadge: the model prints only integer ranks. It does
  not model non-integer numbers or the exponent notation JavaScript uses
  from 1e21 up.
- ContributorProgress.ProgressPercentage: the division is exact rather than
  IEEE 754 double precision. The inputs are integers, and a zero maximum
  is never negative zero.
- Seo.GenerateTechArticleSchema: leaves out `datePublished` and
  `dateModified`. Those read the clock (`new Date().toISOString()`) when
  the props omit them.
- `generateCanonicalURL` (`seo.ts:40-42`) is left out because it depends
  on the WHATWG URL parser.
- `SEOProps` is a type-only interface with no behaviour.
- Seo: `lang` keys that name `Object.prototype` members (such as
  `toString`) are not modelled. They yield `undefined` fields and so fall
  back to English, as any other unknown language does.
- Site configuration, the sidebar, the components and the markdown content
  are not part of this model.
