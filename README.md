# falcor-router-demo core, modelled in Dafny

This project models the server side of the Falcor router demo. It covers:

- The two promise combinators the services are built from: `batch(fun)` and `cache(fun)`.
- The rating service: `coerce`, the `userId + "," + id` document keys, and how `getRatings` and `setRatings` assemble their answers from the document store's responses.
- The genre-list service: the memoised `getGenreList` and `addTitleToGenreList`.
- The route handlers of the Netflix router:
  - `titlesById[..].userRating` get and set;
  - `genrelist[..]['name', ..]`;
  - `genrelist[..].titles[..]`;
  - `titlesById[..][fields]`;
  - `genrelist[..].titles.length`;
  - `genrelist[..].titles.push`.

JavaScript values are a datatype (`Js.Value`). A property read (`Js.Get`) throws a `TypeError` exactly on `null` and `undefined`. A thrown exception or a rejected promise is `Err`.

The document store's answers enter as parameters:

- the `allDocs` rows and the `bulkDocs` results;
- the recommendations documents, which sit in a `RecommendationsDb` object.

The store's own guarantees are `requires` clauses. For example, an `allDocs` answer holds one row per requested key, in request order, carrying that key (`RatingService.Echoes`).

Asynchrony becomes explicit steps:

- `Batch.Batcher` splits a call into its synchronous part (`Request`), the flush callback (`Flush`) and what the caller's promise settles to (`Deliver`).
- `Cache.ReadThroughCache.Get` runs a call from start to finish.

Modules, one per file:

| file | module | models |
|---|---|---|
| js.dfy | `Js` | JS values, truthiness, `== null`, property read and write, `String(n)` for integers |
| json_graph.dfy | `JsonGraph` | paths, PathValues, `$atom`/`$ref`/`$error`, the envelope and the router's merge of PathValues into it |
| batch.dfy | `Batch` | batch.js |
| cache.dfy | `Cache` | cache.js |
| rows.dfy | `Rows` | the store's row and write-result shapes |
| rating_service.dfy | `RatingService` | rating-service.js |
| recommendation_service.dfy | `RecommendationService` | recommendation-service.js |
| routes.dfy | `Routes` | the route handlers of index.js |

Two differences between the two guards, as index.js writes them:

- The `userRating` set route refuses only an `undefined` user (`=== undefined`), so a `null` user passes.
- The push route refuses both (`== undefined`).

`UserId` keeps `undefined`, `null` and a string apart so that both guards can be stated.

## Model

| member | source | states |
|---|---|---|
| Js.Get | index.js:241 | a property read throws exactly when the object is null or undefined; on an object it is the field, or undefined when absent |
| Js.Put | recommendation-service.js:28 | after `v[k] = x`, reading `k` gives `x` and every other property reads as before |
| Js.DecimalInjective | index.js:166-167 | two integer ids with the same string key are the same id, so keying a result object by `String(titleId)` loses nothing |
| JsonGraph.ValueAtInsert | index.js:137-155 | merging one PathValue into an envelope puts its value at its path and leaves every path off that line as it was |
| JsonGraph.MergeDescribesSameValues | index.js:137-155 | for PathValues whose paths are not prefixes of each other, the merged envelope holds a value at a path exactly when some PathValue sits there, and that value is the PathValue's |
| Batch.MarkAll | batch.js:20-22 | marking the ids of a call makes the accumulator hold exactly the old keys plus those ids |
| Batch.Batcher.constructor | batch.js:4-6 | a fresh combinator has an empty accumulator and no flush scheduled |
| Batch.Batcher.Request | batch.js:8-22 | a call schedules a new flush exactly when the accumulator is empty, adds its ids, and reads the latest scheduled flush |
| Batch.Batcher.Flush | batch.js:14-17 | a flush sends `fun` exactly the accumulated keys, the ids of every call since the previous flush, and empties the accumulator |
| Batch.Batcher.Deliver | batch.js:24-30 | a caller whose flush ran gets exactly its own ids, each with `fun`'s value for it or undefined; a rejected `fun` rejects it |
| Batch.TwoCallersOneFetch | batch.js:8-30 | two calls before a flush share one `fun` call on the union of their ids, and each gets only its own ids |
| Batch.EmptyCallStarvesNextCaller | batch.js:10-22 | a call with no ids followed by a call with id 1 makes two flushes; the second caller reads the empty one and gets undefined for an id `fun` knows |
| Batch.InFlightBatcher.Request | batch.js:8-22 | a call schedules a flush only when none is pending, adds its ids, and reads the pending flush |
| Batch.InFlightBatcher.Flush | batch.js:14-17 | a flush sends `fun` exactly the accumulated keys and empties the accumulator |
| Batch.InFlightBatcher.Deliver | batch.js:24-30 | a caller whose flush ran gets exactly its own ids, each of which `fun` received |
| Batch.EmptyCallThenServed | batch.js:10-22 | the same two calls make one flush, and the second caller gets its value |
| Cache.Misses | cache.js:22-24 | the ids asked of `fun` are the requested ids whose cached value is falsy, with their repetitions, and no others |
| Cache.MissExactlyWhenFalsy | cache.js:22-24 | a requested id is asked for exactly when its cached value is not truthy |
| Cache.EmptyCacheMissesAll | cache.js:22-24 | with nothing cached every requested id is asked for, in order |
| Cache.AllHitsNoMisses | cache.js:22-30 | when every requested id holds a truthy value, nothing is asked of `fun` |
| Cache.StoredAnswerLeavesNoMisses | cache.js:9-30 | once an answer holding a truthy value for every miss is stored, repeating the request asks `fun` for nothing |
| Cache.ReadThroughCache.constructor | cache.js:4-5 | a fresh cache is empty |
| Cache.ReadThroughCache.Assemble | cache.js:9-20 | every fetched entry overwrites the cache, and the answer holds the fetched keys and the requested ids, each with its cached value |
| Cache.ReadThroughCache.Get | cache.js:7-31 | with no misses `fun` is not called; otherwise it is called once with the misses, a rejection leaves the cache alone, and an answer is merged into the cache and completed from it |
| RatingService.Coerce | rating-service.js:33-40 | a rating is clamped into 1..5, and ratings already in range are kept |
| RatingService.CoerceIdempotent | rating-service.js:33-40 | clamping twice is clamping once |
| RatingService.CoerceMonotone | rating-service.js:33-40 | clamping keeps the order of ratings |
| RatingService.EncodeKey | rating-service.js:17-19 | a document key is the user's text, a comma, then the title id |
| RatingService.DecodeKeyParts | rating-service.js:24 | decoding drops the user's prefix, and gives the empty string for a key shorter than it |
| RatingService.DecodeEncode | rating-service.js:17-24 | decoding an encoded key gives back the title id |
| RatingService.EncodeDecode | rating-service.js:17-24 | a key that carries the user's prefix is the encoding of its decoded id |
| RatingService.RatingsIndexKeys | rating-service.js:22-26 | the ratings object has a title exactly when some row decodes to it |
| RatingService.RatingsIndexLast | rating-service.js:23-25 | a title's entry is the last row that decodes to it |
| RatingService.RatingsByTitle | rating-service.js:13-27 | given the store's echo, every requested title id has an entry, and it is that title's own row |
| RatingService.GetRatings | rating-service.js:21-27 | the forEach over the rows builds the ratings object described by the two lemmas above |
| RatingService.WriteDocs | rating-service.js:62-69 | one document per requested title, in order, under a key that decodes back to that title, with the revision read when the read found the document, and the clamped rating |
| RatingService.Reported | rating-service.js:71-94 | a title's entry reports an error exactly when its write failed; a successful write reports a document carrying the new revision and the rating written |
| RatingService.ReportedAsWritten | rating-service.js:73-92 | as written: a failed write is reported by its error; a successful write over an existing document by the row read before the write; one that created the document by a made-up document with the new revision and rating |
| RatingService.ReportingDiffersOnlyOnOverwrite | rating-service.js:73-92 | the as-written and intended entries agree except for a successful write over an existing document, where the as-written entry carries the rating read before the write |
| RatingService.StaleRatingReported | rating-service.js:87-89 | overwriting a stored rating of 2 with 4: as written the answer reports 2, the corrected entry reports 4 |
| RatingService.EchoDecodes | rating-service.js:72-75 | under the store's echo, each read row decodes to its own requested title |
| RatingService.SetResultsKeys | rating-service.js:71-94 | under either way of reporting, the `setRatings` answer has a title exactly when some read row decodes to it |
| RatingService.SetResultsLast | rating-service.js:71-94 | a title's entry is built, as written or as intended, from the last read row for it and that row's write result |
| RatingService.SetResultsPerTitle | rating-service.js:55-94 | for distinct requested titles, the answer has exactly those titles, each with the entry (as written or as intended) built from its own read row and write result |
| RatingService.AssembleSetResults | rating-service.js:71-94 | the forEach over the read rows builds the answer described by the lemmas above, with the as-written entries for the route and the intended ones for the corrected route |
| RecommendationService.AppendTitle | recommendation-service.js:28 | a push appends the title to that genre's list and returns the new length, changes nothing else, and throws exactly when the genre or its titles list is missing |
| RecommendationService.GenreListKey | recommendation-service.js:17 | a user with a non-empty id reads their own document; any other user reads `all` |
| RecommendationService.RememberedAnswersEveryone | recommendation-service.js:14-21 | once a read has remembered a truthy list, every later read by any user answers that list, whatever the store then holds, and the memo stays put |
| RecommendationService.PushReportsWrittenList | recommendation-service.js:28-43 | the two reported PathValues read back from the written list: the new last title and the new length |
| RecommendationService.GenreListService.constructor | recommendation-service.js:10-11 | the service starts with nothing remembered |
| RecommendationService.GenreListService.GetGenreList | recommendation-service.js:12-23 | a truthy memo answers every caller without a read; otherwise the document of the user (or `all`) is read and remembered, or the read fails and the memo is kept |
| RecommendationService.GenreListService.AddTitleToGenreList | recommendation-service.js:24-46 | the user's document is written back with the title pushed and the next revision, and the PathValues report the new slot and length; a missing document or genre writes nothing |
| RecommendationService.PushLeavesMemoStale | recommendation-service.js:12-46 | after a push, the remembered list still lacks the pushed title, for the pusher and for other users alike |
| Routes.ConcatOk | index.js:255-257 | the concatenated answers throw exactly when one of them does |
| Routes.ConcatCovers | index.js:255-257 | a path accounted for by one answer is accounted for by the concatenation |
| Routes.RatingPathValue | index.js:167-181 | the PathValue sits at the requested `userRating` path or at its title; it is an error, on the title, exactly for a failure other than `not_found`; a document gives its rating and `not_found` the undefined marker |
| Routes.UserRatingGet | index.js:166-183 | one PathValue per requested title, in order: the rating, `undefined` for `not_found`, or an error on the title itself; a title missing from the ratings object throws |
| Routes.UserRatingGetCovers | index.js:166-183 | every requested `[titlesById, id, userRating]` is accounted for |
| Routes.UserRatingGetRoute | index.js:162-185 | the route answers from the ratings `getRatings` builds, and under the store's echo it never throws |
| Routes.SetPathValue | index.js:195-205 | a title is reported at its `userRating` with the entry's `doc.rating` exactly when the entry holds no error; otherwise it is an error on the title, carrying a refused write's message, or `undefined` for a failed read |
| Routes.SetPathValues | index.js:194-206 | one PathValue per requested id, in order, and it throws exactly when some id has no entry |
| Routes.UserRatingSet | index.js:186-208 | an undefined user is refused before anything is written; otherwise each title whose write succeeded is reported at `userRating` with the rating read before the write when the document existed, or the clamped rating when it was created; a refused write is the store's error on the title |
| Routes.UserRatingSetIntended | index.js:186-208 | the route as intended: every successful write is reported with the clamped rating written |
| Routes.OverwriteReportsOldRating | index.js:186-208 | overwriting a stored rating of 2 with 4: the route reports 2 as written and 4 as intended |
| Routes.GenreNames | index.js:234-257 | the loop pushes, index by index, either the atom of a missing genre or one PathValue per requested key |
| Routes.NamesBlock | index.js:241-254 | one index throws exactly when the genre list is null; a null genre is an atom at `[genrelist, index]`; otherwise each requested key, in order, holds what reading `[index, key]` from the list gives |
| Routes.GenreKeys | index.js:248-253 | the `forEach` over the requested keys of a genre that is there pushes, in key order, one `[genrelist, index, key]` PathValue holding that key of the genre |
| Routes.GenreNamesOutcome | index.js:241-257 | the route throws exactly when the genre list itself is null and some index is asked for; otherwise every requested `[genrelist, index, key]` is accounted for |
| Routes.GenreTitles | index.js:277-292 | the nested loops push one PathValue per (index, title index) pair, in order, and stop at the first read that throws |
| Routes.TitleSlot | index.js:280-289 | a slot throws exactly when reading `genrelist[index].titles[titleIndex]` does; otherwise it sits at that path and is an atom of a null slot, else a reference to `titlesById` of the id read |
| Routes.GenreSlots | index.js:279-289 | the inner loop collects the slots of one index, in order, and throws with the first read that throws |
| Routes.SlotsOutcome | index.js:279-289 | one index's answer holds one PathValue per title index, in order, when none of its reads throws |
| Routes.GenreTitlesThrows | index.js:280 | the route throws exactly when some slot read throws, which needs at least one title index |
| Routes.GenreTitlesLength | index.js:277-292 | an answer holds exactly the number of indices times the number of title indices PathValues |
| Routes.GenreTitlesAt | index.js:278-291 | the PathValue for `(indices[a], titleIndices[b])` sits at position `a * |titleIndices| + b` |
| Routes.TitleFieldsHas | index.js:349-352 | a title object has exactly the requested keys, each with the document's value |
| Routes.TitleObject | index.js:349-352 | the forEach over the keys builds that title object |
| Routes.MissingTitleThrows | index.js:344-345 | as written, a title the store lacks makes the route throw where the undefined marker is intended; on every other row the two agree |
| Routes.TitleEntryAsWritten | index.js:344-353 | as written, a title entry throws exactly for a `not_found` row; another failure is its error, and a document is an object with exactly the requested keys |
| Routes.TitlesByIdEnvelope | index.js:336-355 | the envelope has exactly the requested titles, each with its entry; a title missing from the answer throws |
| Routes.TitleEntryResolves | index.js:340-353 | a reader finds, at every requested `[id, key]`, the field's value, or the marker or error of its title |
| Routes.TitlesLength | index.js:366-376 | one PathValue per index, always at `titles.length`: the atom of a missing genre, or the length of its titles list |
| Routes.LengthPathValue | index.js:367-375 | always at `[genrelist, index, titles, length]`: an atom of a null genre, else what reading `genrelist[index].titles.length` gives; it throws exactly when the list is null or that read throws |
| Routes.LengthAfterPush | index.js:372-375 | read from the list the push wrote, the titles length is the one the push reported |
| Routes.GenreNamesRoute | index.js:231-258 | the name route answers from the list `getGenreList` gives, or fails with it, and leaves the memo as that read does |
| Routes.GenreTitlesRoute | index.js:274-293 | the titles route answers from the list `getGenreList` gives, or fails with it, and leaves the memo as that read does |
| Routes.TitlesLengthRoute | index.js:364-377 | the length route reads the list for `userId` or `all`, which names the same document, answers from it, and leaves the memo as that read does |
| Routes.TitlesPush | index.js:382-388 | a null or undefined user is refused and nothing is written; otherwise the title is pushed onto the user's own document at the first index |
| Routes.PushThenLengthIsStale | index.js:364-388 | the length route answers from the remembered list, which a push does not refresh: after a push that reports length 1, the length route still reports 0 |

## Left out

- title-service.js is not part of this model. The titles route takes its answer, keyed by the title id's string, as a parameter.
- `spliceTitleFromGenreList` is left out. No route calls it, and its body refers to names it never defines (`genreIndex`, `titles`).
- The restify server, the router wiring, logging and the PouchDB database objects are left out. Store answers are parameters, and the recommendations store is a map from id to document.
- Promise scheduling is explicit steps. Any interleaving of `Request` and `Flush` can be expressed. In the cache, other calls between the fetch and the assembly are not modelled: `Get` runs from start to finish.
- The fetchers are deterministic functions. `None` stands for a rejected promise.
- Ratings and lengths are integers. `coerce` on a missing or non-numeric rating (`coerce(undefined)`) is not modelled.
- In the recommendations store, revisions are generation numbers: its `rev` strings are not modelled. A `put` with a stale revision does not happen there, because each step is atomic. The ratings store keeps its `rev` strings, and a conflicting write there is a refused write.
- Batch and cache keys are kept generic rather than converted to strings by `Object.keys`. Ids that stringify alike are not merged.
- Numeric strings used as array indices, and deleted rows in an `allDocs` answer, are not modelled.
- Js.Get: reading an index of a string (`s[i]`, one character) gives `undefined`; only `length` is modelled on strings. A genre whose `titles` is a string would get an atom where JavaScript gives a reference to a one-character title id.
- The route handlers take `Object.keys(jsonGraph.titlesById)` as a list of distinct ids matching the request's keys. Its order is not modelled.
- Cache.ReadThroughCache.Get: a repeated call served from the cache is stated by the lemmas `Cache.StoredAnswerLeavesNoMisses` and `Cache.AllHitsNoMisses`, not by a scenario method.
- Routes.TitlesByIdEnvelope: the merge of this envelope with the other routes' answers is stated only for PathValue arrays (`JsonGraph.MergeDescribesSameValues`).

## Findings

| source | as written | input that shows it | evidently intended | confidence | as-written member | corrected member |
|---|---|---|---|---|---|---|
| index.js:344-345 | the `not_found` branch calls `jsonGraph.undefined()` on the local envelope object, which has no such method, so the route throws | a requested title whose row is `{error: "not_found"}` | answer `undefined` for that title | not executed | Routes.MissingTitleThrows | Routes.TitlesByIdEnvelope |
| rating-service.js:87-89 | a successful write over an existing document reports the row read before the write, which `index.js:198` then reports | stored rating 2, the `userRating` set route with rating 4: the answer reports 2 | report the rating written | not executed | Routes.OverwriteReportsOldRating | Routes.UserRatingSetIntended |
| batch.js:10-22 | a call with no ids leaves the accumulator empty, so the next call schedules a second flush while the first is pending; the first flush takes that caller's ids and the caller reads the second, empty, flush | `batched([])` then `batched([1])` before the flush: the second caller gets `{1: undefined}` | the second caller gets `fun`'s value for 1 | not executed | Batch.EmptyCallStarvesNextCaller | Batch.EmptyCallThenServed |
