# Post import pipeline: a verified Dafny model

This project models the import pipeline of the posts service, the core of
`PostImportService`. The pipeline fetches the posts collection over HTTP with
retry and backoff. It decodes the JSON array into transfer records and maps
each one to a `PostModel` entity. It then stores the entities with one bulk
`saveAll`, and falls back to one `save` per entity when the bulk save throws a
`DataAccessException`.

The model is split into modules along the program's structure:

- `Wrappers` (wrappers.dfy): `Option` and `Result`.
- `PostModels` (post_models.dfy): the `Post` entity, the `PostDto` transfer
  record and the field-for-field mapping between them.
- `Retry` and `RetryProperties` (retry.dfy): `fetchWithRetry` as a recursive
  function. Each HTTP send takes the next scripted `Response` (`Exn` or
  `Status(code, body)`). The result is a `Fetch`: the outcome, the unconsumed
  script, the responses received in order, the level (the `remainingAttempts`
  of the recursive call) that sent each request, and the delays waited.
  `delays[i]` is waited before request `i + 1`, so the first request goes out
  at once.
- `Repository` (repository.dfy): the `PostRepository` class. It holds the
  table as a `map<int, Post>` keyed by id, with ghost logs of the `saveAll`
  and `save` calls made. Two specification functions describe the store:
  `Upserted` is a bulk upsert in list order, and `SavedEach` is a sequence of
  single saves, some of which throw.
- `ImportService` (import_service.dfy): the `PostImportService` class.
  `ParseAndSaveBatch` holds the per-row fallback loop, and
  `FetchAndSaveAllPosts` composes fetch, parse and save.

Collaborators that cannot be seen become parameters:

- The HTTP responses are a script.
- The JSON decoder is a function `string -> Option<Decoded>`. `None` is an
  `IOException`. A `Decoded` value is either a null list (the body `null`) or
  a list whose elements may be null (the body `[null]`).
- Whether `saveAll` throws, and what kind of exception, is an
  `Option<StoreFault>`.
- Whether the `i`-th fallback `save` throws is `rowThrows(i)`.

Behaviour of the code that a reader of its comments might not expect (the
model follows the code):

- Only status 200 counts as success; any other 2xx status is retried like an
  error.
- The backoff is `2^(4 - remaining) * 250` ms with a hard-coded 4. From the
  initial call with 3 attempts, the delays are 500 ms and then 1000 ms, not
  250 ms and 500 ms.
- `exceptionallyCompose` is attached after `thenCompose`. It therefore also
  catches the failure of the retry chain that a non-200 status started, and
  retries a second time from the same level. When every send throws, three
  attempts send exactly 3 requests. When every response is a non-200 status,
  they send 7 requests (`MaxRequests(3)`, where A(r) = 2^r - 1).
- Per-row failures in the fallback are swallowed, and the import reports
  success. No per-row failure list is produced.

## Model

| member | source | states |
|---|---|---|
| `PostModels.ToEntity` | src/main/java/com/aspacelifetechnology/aspace_life_technology/services/PostImportService.java:108-113 | one entity per transfer record, with its id, userId, title and body |
| `PostModels.ToEntities` | src/main/java/com/aspacelifetechnology/aspace_life_technology/services/PostImportService.java:107-114 | the mapped list has the record list's length, and its i-th entity carries the i-th record's four fields |
| `PostModels.MappingRoundTrip` | src/main/java/com/aspacelifetechnology/aspace_life_technology/services/PostImportService.java:107-114 | the mapping loses nothing: every transfer record is recovered from its entity |
| `PostModels.MappingConcat` | src/main/java/com/aspacelifetechnology/aspace_life_technology/services/PostImportService.java:107-114 | the mapping keeps list order: it distributes over concatenation |
| `Retry.Backoff` | src/main/java/com/aspacelifetechnology/aspace_life_technology/services/PostImportService.java:76 | up to 4 remaining attempts the delay times 2^remaining is 4000 ms, so it halves with each extra attempt; the delay is 0 exactly when 5 or more attempts remain |
| `Retry.BackoffTruncatesPower` | src/main/java/com/aspacelifetechnology/aspace_life_technology/services/PostImportService.java:76 | the delay is the real power 2^(4 - remaining) that Math.pow returns, truncated to an int by the cast, times 250; this is where 0 from 5 attempts on comes from |
| `Retry.BackoffDoubles` | src/main/java/com/aspacelifetechnology/aspace_life_technology/services/PostImportService.java:75-77 | the backoff doubles at each level down: 250, 500, 1000, 2000 ms at 4, 3, 2, 1 attempts left |
| `Retry.FetchWithRetry` | src/main/java/com/aspacelifetechnology/aspace_life_technology/services/PostImportService.java:59-94 | a fetch sends at least one and at most MaxRequests(remaining) requests, records the level of each, waits exactly one delay before each request after the first, and never consumes more script than it is given |
| `RetryProperties.FetchConsumesScript` | src/main/java/com/aspacelifetechnology/aspace_life_technology/services/PostImportService.java:67-93 | the requests take the script's responses in order, one each, and the fetch returns the rest untouched |
| `RetryProperties.FetchOkIffLast200` | src/main/java/com/aspacelifetechnology/aspace_life_technology/services/PostImportService.java:68-93 | a fetch succeeds exactly when its last response has status 200, and then returns that body unchanged; no earlier response was a 200, so nothing is sent after a 200; a failure reports the last response as a transport or status error |
| `RetryProperties.FirstResponseOk` | src/main/java/com/aspacelifetechnology/aspace_life_technology/services/PostImportService.java:69-70 | a 200 on the first request returns its body after one request, with no delay and no retry |
| `RetryProperties.LastAttemptFails` | src/main/java/com/aspacelifetechnology/aspace_life_technology/services/PostImportService.java:73-92 | with one attempt left, a send exception or a non-200 status fails at once, after exactly one request and with no delay |
| `RetryProperties.FetchDelays` | src/main/java/com/aspacelifetechnology/aspace_life_technology/services/PostImportService.java:73-89 | the first request is sent by the initial call, every later one by a retry at a level from remaining - 1 down to 1, one level below the request before it unless that one failed at level 1; the delay before a request sent at level l is Backoff(l + 1), so a retry at level r always waits Backoff(r) |
| `RetryProperties.FailsOnlyAtLastLevel` | src/main/java/com/aspacelifetechnology/aspace_life_technology/services/PostImportService.java:68-93 | a fetch gives up only at its last level: a failed fetch from remaining >= 1 sent at least remaining requests, the last of them with one attempt left |
| `RetryProperties.FirstReachable200Returned` | src/main/java/com/aspacelifetechnology/aspace_life_technology/services/PostImportService.java:68-89 | a 200 within reach is returned: if the first k responses fail and k < remaining, the fetch returns the body of the (k + 1)-th response after exactly the first k + 1 responses, and leaves the rest of the script |
| `RetryProperties.AllSendsThrow` | src/main/java/com/aspacelifetechnology/aspace_life_technology/services/PostImportService.java:84-92 | if every send throws, exactly `remaining` requests are sent (at least one), the delays are Backoff(remaining), ..., Backoff(2), and the fetch fails with the transport error |
| `RetryProperties.AllResponsesNon200` | src/main/java/com/aspacelifetechnology/aspace_life_technology/services/PostImportService.java:68-93 | if every response is a non-200 status, each level retries twice, so exactly MaxRequests(remaining) requests consume that many responses, the delays are Backoff(r), the first chain's delays, Backoff(r), the second chain's delays, and the fetch fails with a status error |
| `RetryProperties.MaxRequestsClosedForm` | src/main/java/com/aspacelifetechnology/aspace_life_technology/services/PostImportService.java:68-93 | the request bound A(1) = 1, A(r) = 1 + 2 A(r - 1) equals 2^r - 1 |
| `RetryProperties.RecoversOnSecondAttempt` | src/main/java/com/aspacelifetechnology/aspace_life_technology/services/PostImportService.java:68-89 | one failure followed by a 200 succeeds with the second body, after two requests and one delay of Backoff(remaining) |
| `RetryProperties.ThreeAttemptsAllThrow` | src/main/java/com/aspacelifetechnology/aspace_life_technology/services/PostImportService.java:52-92 | the call with 3 attempts, every send throwing: 3 requests, delays 500 ms then 1000 ms, transport failure |
| `RetryProperties.ThreeAttemptsAllNon200` | src/main/java/com/aspacelifetechnology/aspace_life_technology/services/PostImportService.java:52-93 | the call with 3 attempts, every response a non-200 status: 7 requests, delays 500, 1000, 1000, 500, 1000, 1000 ms, and the script after the seventh response is left |
| `Repository.UpsertedAt` | src/main/java/com/aspacelifetechnology/aspace_life_technology/models/PostModel.java:14-15 | after a bulk upsert, each id holds the last post in the list with that id, or else what it held before |
| `Repository.UpsertIdempotent` | src/main/java/com/aspacelifetechnology/aspace_life_technology/models/PostModel.java:14-15 | importing the same list twice leaves the same rows as importing it once, one row per id |
| `Repository.UpsertedContents` | src/main/java/com/aspacelifetechnology/aspace_life_technology/services/PostImportService.java:118 | after saveAll the table's ids are the old ids plus the list's ids, and ids the list does not mention keep their rows |
| `Repository.SavedEachIsUpsertOfKept` | src/main/java/com/aspacelifetechnology/aspace_life_technology/services/PostImportService.java:123-129 | the fallback loop leaves what one upsert of exactly the rows whose save did not throw leaves, in list order |
| `Repository.SavedEachWithoutFaults` | src/main/java/com/aspacelifetechnology/aspace_life_technology/services/PostImportService.java:123-129 | when no row throws, the fallback loop stores what saveAll would have stored |
| `Repository.SavedEachIsolatesFailures` | src/main/java/com/aspacelifetechnology/aspace_life_technology/services/PostImportService.java:123-129 | with distinct ids, a failing row does not stop later rows: each row whose save succeeded is stored, and a failed row's id keeps its previous contents |
| `Repository.SavedEachUntouched` | src/main/java/com/aspacelifetechnology/aspace_life_technology/services/PostImportService.java:123-129 | the fallback loop leaves every id outside the list unchanged |
| `Repository.PostRepository.SaveAll` | src/main/java/com/aspacelifetechnology/aspace_life_technology/services/PostImportService.java:118 | saveAll upserts the whole list, or throws and changes nothing; the call is recorded |
| `Repository.PostRepository.Save` | src/main/java/com/aspacelifetechnology/aspace_life_technology/services/PostImportService.java:125 | save upserts one post by id, or throws and changes nothing; the call is recorded |
| `PostModels.NonNullElements` | src/main/java/com/aspacelifetechnology/aspace_life_technology/services/PostImportService.java:102-109 | a decoded list maps only when none of its elements is null (dto.getId() is called on each), and then yields every element in order |
| `ImportService.PostImportService.ParseAndSaveBatch` | src/main/java/com/aspacelifetechnology/aspace_life_technology/services/PostImportService.java:99-132 | a parse failure returns "Failed to parse JSON" before any store call; a null list or a null element fails with a NullPointerException, also before any store call; otherwise exactly one saveAll of the mapped entities. If it succeeds, no save is called. On a DataAccessException, save is called once per entity in list order, each row's exception is swallowed, and the stage succeeds. Any other exception fails the stage with the table unchanged |
| `ImportService.PostImportService.FetchAndSaveAllPosts` | src/main/java/com/aspacelifetechnology/aspace_life_technology/services/PostImportService.java:51-54 | the fetch is fetchWithRetry(3) on the script. A failed fetch fails the import with its error and touches nothing. A successful fetch hands its body to ParseAndSaveBatch |
| `ImportService.ImportOnePostScenario` | src/main/java/com/aspacelifetechnology/aspace_life_technology/services/PostImportService.java:51-54 | one post fetched on the first attempt and saved in bulk into an empty table gives a successful import with exactly that row |

## Left out

- The HTTP client, request building, the `Accept` header and the timeouts
  (PostImportService.java:41-44, 60-67) are network I/O. Each send is the
  next scripted response, and an exhausted script answers with a send
  exception.
- Jackson's `readValue` and the `PostDto` class are a foreign library and a
  class not shown. Decoding is the `parse` parameter, and `PostDto` is a
  record of the four fields the mapping reads. The message of the
  NullPointerException from a null list or element is not kept.
- `CompletableFuture` scheduling and `runAsync` on `blockingDbExecutor` are
  left out, and so are the thread-pool sizes and caller-runs policy
  (AsyncConfig.java). They decide where and when the stages run, not what
  they compute. The stages are modelled as sequential code.
- `delayedFuture` sleeps on a daemon thread; the model records only the
  number of milliseconds. An interrupted sleep, which fails the delay, is a
  concurrency detail and is not modelled.
- Log calls are not modelled. The repository's ghost call records are not
  logs: they record which store calls were made, for the contracts.
- The exception messages of a failed fetch are not kept. The fetch error
  keeps only the classification: a transport error, or the status code.
- The transaction behaviour of JPA is not visible. A `saveAll` or `save` that
  throws is assumed to leave the table unchanged; this is an assumption of
  the model.
- The fields of a decoded record (id, userId, title, body) are never null in
  the model, although `Long` and `String` could be null in Java. The column
  lengths (2000 and 5000 characters) are database schema and are not
  checked.
- The `PostController` endpoints are not modelled. `importPosts` is a
  two-line HTTP wrapper around `fetchAndSaveAllPosts`, and `listAll`
  delegates paging and sorting to Spring Data, whose code is not part of
  this model.
- `AspaceLifeTechnologyApplication` (framework bootstrap) and the empty
  `PostRepository` interface are not modelled, beyond the upsert-by-id store
  they provide.
