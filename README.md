# kraicklist search core, modelled in Dafny

kraicklist is a classified-ads service written in Go. Its core is the code that decides
things around three search backends and a few helper libraries:

- the bleve index (`external/index/bleve.go`);
- the Elasticsearch index (`external/index/elastic.go`);
- the PostgreSQL full-text search, and the repository that dispatches searches and indexing
  to whichever backend is activated (`domain/repository/advertisement.go`);
- the conversion of advertisements into index documents (`domain/model/advertisement.go`);
- the coded error type, its HTTP status table and the SQL debug formatter (`helper/errors`);
- the JSON response envelopes (`helper/response`);
- the health endpoint with its persistence pings and its shutting-down flag (`helper/health`);
- the version-4 UUID generator (`helper/uuid`);
- the stand-alone in-memory search server (`main.go`).

The engines themselves are not modelled. Their answers come in as parameters: what bleve's
`Index` and `SearchInContext` return, the Elasticsearch search response, what the bulk indexer
does with each document, the cluster-health result of each ping attempt, and what the SQL
select returns. The model then states what the repository's own code does with those answers.

One module per source package or file:

| file | module | source |
|---|---|---|
| base.dfy | Base | Go's nil-able values, `(value, error)` returns, JSON values, `int64` |
| strs.dfy | Strs | the `strings` and `fmt` behaviour the core relies on |
| errors.dfy | Errors | helper/errors/error.go, helper/errors/const.go |
| sqlerror.dfy | SqlError | helper/errors/sqlerror.go |
| response.dfy | Response | helper/response/response.go |
| health.dfy | Health | helper/health/persistence.go, helper/health/health.go |
| uuid.dfy | Uuid | helper/uuid/uuid.go |
| bleve.dfy | Bleve | external/index/bleve.go |
| elastic.dfy | Elastic | external/index/elastic.go |
| model.dfy | Model | domain/model/advertisement.go |
| repository.dfy | Repository | domain/repository/advertisement.go |
| searchserver.dfy | SearchServer | main.go |

Some code loops or updates state in place. That code is written as methods, each proved
against a specification function:

- `Persistences.Ping` updates an `array` in place.
- `HealthHandler` is a class. Its token is set by `WithToken`, and it shares the
  shutting-down flag.
- `ElasticRootQuery` is a class whose query is filled in by
  `ConstructElasticMultiMatchQuery`.
- The Searcher of `main.go` is a class.
- The collecting loops of `BulkIndex` and `BulkIndexDocs`, the keyword loop of
  `searchAdsSQL`, `AppendMessage`, `FormatQueryError` and `PingWithRetry` are `while` or
  `for` loops.

## Model

| member | source | states |
|---|---|---|
| Strs.ContainsIffOccurs | main.go:102 | `strings.Contains` holds exactly when the pattern occurs at some position |
| Strs.Split | domain/repository/advertisement.go:96 | `strings.Split` never returns an empty list |
| Strs.JoinSplitIsReplaceAll | domain/repository/advertisement.go:96-103 | Splitting on a separator and joining with another equals replacing every occurrence |
| Strs.ReplaceAllAbsent | helper/errors/sqlerror.go:11 | Replacing a pattern that does not occur leaves the text unchanged |
| Strs.SplitAbsent | domain/repository/advertisement.go:96 | Splitting on a separator that does not occur gives the text alone |
| Strs.JoinSnoc | domain/repository/advertisement.go:98-103 | Adding one more part to a join appends the separator and that part |
| Strs.ReplaceAllConcat | domain/repository/advertisement.go:96-103 | Replacing a one-character pattern distributes over concatenation |
| Strs.TrimSpace | helper/errors/error.go:45 | `strings.TrimSpace` gives a contiguous run of the input that neither starts nor ends with white space, with only white space around it |
| Strs.TrimSpaceFixed | helper/errors/error.go:45 | A text that neither starts nor ends with white space is its own trim |
| Strs.TrimSpaceIdempotent | helper/errors/error.go:45 | Trimming twice is trimming once |
| Strs.IntToDecimal | domain/model/advertisement.go:27 | `fmt.Sprint` of an integer is a minus sign exactly for negatives, followed by digits |
| Strs.ParseNatToDecimal | domain/model/advertisement.go:27 | Decimal digits of a natural number read back as that number |
| Strs.DecimalRoundTrip | domain/model/advertisement.go:27 | Decimal text of any integer reads back as that integer |
| Strs.DecimalInjective | domain/model/advertisement.go:27 | Distinct integers have distinct decimal texts |
| Errors.ErrorTextDeterminesMessage | helper/errors/error.go:14-16 | For one code, `Error()` text determines the message |
| Errors.WithMessage | helper/errors/error.go:18-23 | The error has the given code and message and no data |
| Errors.GetMessageOnly | helper/errors/error.go:25-30 | A coded error becomes a plain error with its message; any other error is returned unchanged |
| Errors.GetCodeFromError | helper/errors/error.go:32-37 | A coded error gives its code; any other error gives its `Error()` text |
| Errors.AppendMessage | helper/errors/error.go:39-48 | Returns the copy with the appended message. Code and data are kept. No arguments changes nothing. One argument replaces the message |
| Errors.AppendedForgetsMessage | helper/errors/error.go:39-46 | With at least one argument, the resulting message does not depend on the original one |
| Errors.AppendedIsTrimmed | helper/errors/error.go:45 | With two or more arguments, the message neither starts nor ends with white space |
| Errors.AppendedTwice | helper/errors/error.go:39-48 | Two AppendMessage calls, the second with arguments, equal the second call alone |
| Errors.SetData | helper/errors/error.go:50-53 | Only the data changes |
| Errors.IsEqualReflexiveSymmetric | helper/errors/error.go:55-63 | IsEqual is reflexive and symmetric |
| Errors.IsEqualSameCode | helper/errors/error.go:59-61 | Two coded errors with one code are equal whatever their messages |
| Errors.IsEqualNotTransitive | helper/errors/error.go:55-63 | IsEqual is not transitive: a plain error whose text is `A: n` bridges two different `A` errors |
| Errors.GetStatusCode | helper/errors/const.go:20-31 | ParamInvalidError gives 400. ThirdPartyError gives 502. Any other code gives 0, the map's zero value. A non-coded error gives 500 |
| Errors.StatusKeptByAppendAndSetData | helper/errors/const.go:25-28 | AppendMessage and SetData keep the status an error maps to |
| Errors.MissingKeywordIsBadRequest | helper/errors/const.go:14 | ErrorParamInvalid with "q param is necessary." appended keeps its code and has that message. It maps to 400 |
| SqlError.AnyToQueryParam | helper/errors/sqlerror.go:20-31 | A string argument is quoted in single quotes with no escaping. A nil argument is `null`. Anything else is its default print form |
| SqlError.Placeholder | helper/errors/sqlerror.go:10 | The placeholder is `$` followed by the index |
| SqlError.FormatQueryError | helper/errors/sqlerror.go:8-18 | Replaces $1..$n in turn, each over the text left by the previous replacements. With no arguments, or an empty result, it gives the `query: …\targs: […]` rendering |
| SqlError.SubstitutedAbsent | helper/errors/sqlerror.go:9-13 | A query without any of the placeholders is left unchanged by the substitutions |
| SqlError.PlaceholderFreeQueryUnchanged | helper/errors/sqlerror.go:8-18 | A non-empty query without placeholders comes back as it is |
| SqlError.NoDollarNoPlaceholder | helper/errors/sqlerror.go:10-11 | Text without `$` contains no placeholder |
| SqlError.OneIsReplacedInsideTen | helper/errors/sqlerror.go:9-13 | With ten arguments, `$10` is rewritten by the first argument followed by a literal `0` |
| Response.Success | helper/response/response.go:13-29 | A JSON reply with the given status whose body has exactly `data` and `error`. On success, `data` is the payload and `error` is null. A marshal failure gives null data and the error text |
| Response.ErrorObject | helper/response/response.go:34-49 | A coded error gives its code and message, plus `data` only when the data is non-nil. Any other error gives code `InternalServerError` and its `Error()` text |
| Response.Failed | helper/response/response.go:32-59 | A JSON reply with the given status, null `data`, and `error` null for a nil error, else the error object |
| Response.FailedErrorReadsBack | helper/response/response.go:38-49 | The error object of a failed reply reads back as the coded error it was built from |
| Response.FailedPlainReadsBack | helper/response/response.go:34-46 | A plain error reads back with code `InternalServerError`, its text as message, and no data |
| Response.SuccessAndFailedDiffer | helper/response/response.go:13-59 | A success reply has a null `error`; a failed reply with an error does not |
| Health.NewPersistence | helper/health/persistence.go:16-22 | The name, type and checker are as given, with an empty status and no ping error |
| Health.Pinged | helper/health/persistence.go:34-43 | The status is "OK" exactly when the checker answers nil. A failure gives "FAILED" and the error text. Name, type and checker are kept |
| Health.PingAll | helper/health/persistence.go:31-46 | Same length and order; every entry is pinged |
| Health.AllUpIffStatusesOk | helper/health/persistence.go:31-46 | Ping reports true exactly when every entry shows status "OK" afterwards |
| Health.PingAllIdempotent | helper/health/persistence.go:31-46 | Pinging twice with the same answers is pinging once |
| Health.Ping | helper/health/persistence.go:31-46 | Rewrites the array in place to the pinged entries. Returns the AND of all answers; a failure does not stop the loop |
| Health.PersistenceJson | helper/health/persistence.go:6-13 | Exactly the keys name, type, status and ping_error; the first three always carry the persistence's values; ping_error is present exactly when set and then carries the error text |
| Health.HealthJson | helper/health/health.go:34-37 | The message is always present; persistences is present exactly when the pointer is set; an empty (nil) list is null, otherwise an array whose i-th entry is the i-th persistence's JSON |
| Health.ShutdownFlag.Raise | helper/health/health.go:80-88 | The signal listener only ever sets the flag |
| Health.TokenCheckedFirst | helper/health/health.go:95-100 | A configured token missing from the request gives 401 before anything else |
| Health.ShutdownBeforePing | helper/health/health.go:102-106 | While shutting down, the reply is 503 with the unavailable error and the shutting-down message, whatever the pings |
| Health.HealthyIff | helper/health/health.go:91-115 | The endpoint answers 200 exactly when the token passes, no shutdown is under way and every persistence pings |
| Health.UnhealthyCarriesMessage | helper/health/health.go:108-114 | When a ping fails, the reply is 503 and the unhealthy message travels as the error's data |
| Health.HealthHandler.IsShuttingDown | helper/health/health.go:65-72 | Returns true and the shutting-down response exactly when the flag is set, otherwise false and nil |
| Health.HealthHandler.WithToken | helper/health/health.go:61-63 | From then on the handler requires this token |
| Health.HealthHandler.GetHealth | helper/health/health.go:91-115 | The reply is the one HealthReply decides. The list is pinged in place only when the token and the flag let the request through, and is otherwise left untouched |
| Health.NewHealthHandler | helper/health/health.go:48-59 | A nil list is refused with "persistences can't be nil". Otherwise a fresh handler over the list, with no token |
| Uuid.WithVersionAndVariant | helper/uuid/uuid.go:12-15 | The high nibble of byte 6 is 4 and the top two bits of byte 8 are 10. Every other bit of the 16 bytes is kept |
| Uuid.WithVersionAndVariantIdempotent | helper/uuid/uuid.go:12-15 | Setting version and variant twice is setting them once |
| Uuid.Hex | helper/uuid/uuid.go:17 | `%x` of bytes gives two lower-case hex digits per byte, high nibble first |
| Uuid.FormatShape | helper/uuid/uuid.go:17 | The text is 36 characters, with dashes exactly at 8, 13, 18 and 23 and lower-case hex elsewhere |
| Uuid.FormatDigits | helper/uuid/uuid.go:17 | Byte i is written at its position in the 8-4-4-4-12 layout |
| Uuid.HexValueOfDigit | helper/uuid/uuid.go:17 | A hex digit reads back as its value |
| Uuid.ParseFormat | helper/uuid/uuid.go:17 | The formatted text parses back to the 16 bytes |
| Uuid.VersionAndVariantDigits | helper/uuid/uuid.go:12-17 | Character 14 is `4` and character 19 is one of `8 9 a b` |
| Uuid.UUIDv4 | helper/uuid/uuid.go:9-18 | The result is a well-formed UUID text. It parses back to the random bytes with version and variant set, and shows version 4 and variant 10 |
| Bleve.DocumentFields | external/index/bleve.go:21-26 | One field map per hit, in hit order |
| Bleve.GetDocumentFields | external/index/bleve.go:21-26 | The loop collects exactly the hits' field maps |
| Bleve.ToError | external/index/bleve.go:43-45 | Never an error, whatever the failure list holds |
| Bleve.SearchQuery | external/index/bleve.go:72-98 | An empty keyword gives "keyword can't be empty" without a search. An index error gives "external-bleve: " and its text. Success gives the hits, and the destination receives their fields |
| Bleve.EmptyKeywordSkipsIndex | external/index/bleve.go:73-76 | With an empty keyword the answer does not depend on the index |
| Bleve.Failures | external/index/bleve.go:109-114 | The failure list is never longer than the batch |
| Bleve.FailuresMembership | external/index/bleve.go:109-114 | An entry is listed exactly when a document with that ID failed with that error |
| Bleve.FailuresEmptyIff | external/index/bleve.go:101-131 | No failures exactly when every document is indexed |
| Bleve.AllFailedAllListed | external/index/bleve.go:109-128 | When every document fails, every one is listed |
| Bleve.BulkIndex | external/index/bleve.go:101-131 | Index is called once per document. The list stays nil exactly when every document is indexed. Otherwise it holds the failures, in some order (a multiset) |
| Elastic.MultiMatchJson | external/index/elastic.go:50-55 | The clause carries query, fields in order (null for the nil slice of a call with no fields), fuzziness and prefix_length under their JSON tags |
| Elastic.ElasticRootQuery.ConstructElasticMultiMatchQuery | external/index/elastic.go:40-48 | The query becomes one `multi_match` over the keyword and fields, with fuzziness "AUTO" and prefix length 2 |
| Elastic.RootQueryJson | external/index/elastic.go:36-38 | The body is `{"query": …}`, null for a nil query, with one clause object per key |
| Elastic.MultiMatchBody | external/index/elastic.go:40-48 | A constructed query's body carries the keyword, the fields in order (null when none is passed), "AUTO" and 2 |
| Elastic.HitSources | external/index/elastic.go:83-88 | One `_source` per hit, in hit order |
| Elastic.GetHitSources | external/index/elastic.go:83-88 | The loop collects exactly the hits' sources |
| Elastic.Prefixed | external/index/elastic.go:213 | The error text is "external-elastic: " followed by the cause |
| Elastic.SearchQuery | external/index/elastic.go:183-228 | A failed request or an error status gives ErrorThirdParty. An undecodable body gives a prefixed error. Success gives the result, and the destination receives the hits' sources |
| Elastic.ToError | external/index/elastic.go:93-95 | Never an error, whatever the failure list holds |
| Elastic.FailureEntry | external/index/elastic.go:145-158 | A transport error is kept. An item error becomes "ERROR: type: reason" |
| Elastic.FailureEntries | external/index/elastic.go:145-158 | One entry per failure callback, as many as NumFailed |
| Elastic.FailedCount | external/index/elastic.go:172 | NumFailed never exceeds the documents added |
| Elastic.FailedCountZeroIff | external/index/elastic.go:146-158 | NumFailed is 0 exactly when no failure callback fired |
| Elastic.FailedCountFullIff | external/index/elastic.go:172 | NumFailed equals NumAdded exactly when every document failed |
| Elastic.BulkIndexDocs | external/index/elastic.go:119-181 | A failed indexer creation gives ErrorThirdParty with no list. Otherwise every document is added. The list is nil exactly when nothing failed, and otherwise holds the failure entries (a multiset). The error is Close's error, or ErrorThirdParty when all failed |
| Elastic.EmptyBatchEscalates | external/index/elastic.go:171-177 | An empty batch reports ErrorThirdParty, because 0 failed equals 0 added |
| Elastic.EscalatesIffAllFailed | external/index/elastic.go:166-180 | After a clean close, the call fails exactly when every document failed, and then with ErrorThirdParty |
| Elastic.RejectedBatchReportsSuccess | external/index/elastic.go:162-180 | Documents rejected by Add never fail, so a batch rejected entirely is reported as indexed |
| Elastic.Ping | external/index/elastic.go:244-252 | nil exactly when the health call succeeds; otherwise its error, prefixed |
| Elastic.FirstUp | external/index/elastic.go:256-259 | The first successful attempt, every earlier attempt having failed |
| Elastic.PingWithRetry | external/index/elastic.go:254-266 | Retries at most `retry` times and stops at the first success. A positive retry that never succeeds gives the last attempt's prefixed error. Zero or fewer attempts gives nil. It sleeps only between attempts |
| Elastic.FirstUpIffSomeUp | external/index/elastic.go:254-266 | PingWithRetry finds a success exactly when some attempt within `retry` succeeds |
| Model.DocIdRoundTrip | domain/model/advertisement.go:27 | A document ID reads back as the ad's int64 ID |
| Model.DocIdInjective | domain/model/advertisement.go:27 | Two ads share a document ID only when they share an ID |
| Model.ToBleveDocs | domain/model/advertisement.go:20-32 | An empty batch gives the error and no documents. Otherwise one document per ad, in order, keyed by the ad's decimal ID and carrying the ad |
| Model.ToElasticDocs | domain/model/advertisement.go:34-46 | The same conversion into Elasticsearch documents, with its own error text |
| Model.DistinctIdsDistinctDocs | domain/model/advertisement.go:20-46 | Ads with distinct IDs get distinct document IDs |
| Repository.KeywordToTsQuery | domain/repository/advertisement.go:96-103 | The keyword loop joins the space-split parts with " & ". That is the same as replacing every space |
| Repository.TsQueryNoSpace | domain/repository/advertisement.go:96-103 | A keyword without a space is passed on unchanged |
| Repository.TsQueryKeepsEmptyTerm | domain/repository/advertisement.go:96-103 | Two spaces in a row leave an empty term between two " & " |
| Repository.SqlSearch | domain/repository/advertisement.go:121-132 | A nil handle panics. Otherwise the select runs the fixed query with the tsquery argument. Its error is wrapped as "failed to sqlDB.GetContext due: …" |
| Repository.SearchAdsSQL | domain/repository/advertisement.go:95-133 | searchAdsSQL gives exactly the outcome SqlSearch describes |
| Repository.BleveSearchAds | domain/repository/advertisement.go:46-50 | An empty keyword gives no ads and bleve's keyword error; an engine error gives no ads and the prefixed error; on success the ads decoded from the hits' fields, in order, and no error |
| Repository.SearchAds | domain/repository/advertisement.go:36-55 | SearchAds as written: the elastic branch returns its own result; every other indexer ends in the SQL search |
| Repository.ElasticSearchSkipsSql | domain/repository/advertisement.go:37-44 | Under elastic, the multi_match is over title, content and tags. The error is the search's own, and the database plays no part |
| Repository.NonElasticEndsInSql | domain/repository/advertisement.go:46-54 | Under any other indexer, the answer is the SQL search's from what bleve left in the destination: its rows, and its error alone, wrapped |
| Repository.BleveErrorDiscarded | domain/repository/advertisement.go:46-54 | Bleve refuses an empty keyword, yet the search still answers without error when the select succeeds |
| Repository.BleveSearchReachesNilDatabase | domain/repository/advertisement.go:46-53 | Under bleve, with no database handle, every search reaches the nil handle |
| Repository.IntendedBleveUsesBleve | domain/repository/advertisement.go:36-55 | In the intended search, the bleve branch's answer is exactly BleveSearchAds (bleve's own ads and error) and needs no database. The other branches are as written |
| Repository.IndexAds | domain/repository/advertisement.go:57-93 | IndexAds gives exactly the error IndexAdsResult describes |
| Repository.EmptyBatchRefused | domain/repository/advertisement.go:63-86 | An empty batch is refused with the wrapped conversion error under elastic and under bleve |
| Repository.PartialFailureIsSuccess | domain/repository/advertisement.go:70-78 | Under elastic, a batch in which some document did not fail is reported as indexed |
| Repository.BleveIndexingNeverFails | domain/repository/advertisement.go:81-92 | Under bleve, a non-empty batch is reported as indexed whatever the index answered |
| Repository.OtherIndexerIsNoop | domain/repository/advertisement.go:57-93 | Under any other indexer, IndexAds does nothing and reports nil |
| SearchServer.MatchIndicesLength | main.go:101-105 | There is one matching position per ad in the result |
| SearchServer.MatchIndicesIncreasing | main.go:101-105 | The matching positions are valid and strictly increasing: the result keeps the load order |
| SearchServer.MatchIndicesPick | main.go:101-105 | The k-th ad of the result is the loaded ad at the k-th matching position |
| SearchServer.MatchIndicesComplete | main.go:101-105 | A position is listed exactly when its ad's title or content contains the query |
| SearchServer.MatchingIsFilter | main.go:99-107 | The result is exactly the filter of the loaded ads by the substring test: ads at increasing positions, a position listed exactly when its ad matches |
| SearchServer.MatchingMembership | main.go:101-105 | An ad is in the result exactly when it was loaded and its title or content contains the query |
| SearchServer.MatchingIdempotent | main.go:101-105 | Filtering the result again by the same query changes nothing |
| SearchServer.EmptyQueryMatchesAll | main.go:102 | The empty query would match every ad, which is why the handler refuses it |
| SearchServer.Searcher.Search | main.go:99-107 | Returns the matching ads in load order and never an error. It does not change the loaded ads |
| SearchServer.AdJsonInjective | main.go:58-60 | An ad's JSON encoding under its struct tags loses nothing |
| SearchServer.AdsJson | main.go:58-60 | An empty (nil) result is encoded as null. Otherwise one encoded ad per result, in order |
| SearchServer.HandleSearch | main.go:40-65 | An empty q is answered 400 without calling Search. Otherwise the answer is 200 with the JSON of the matching ads |
| SearchServer.EmptyQueryRefused | main.go:44-49 | An empty q gives 400 "missing search query in query params", whatever is loaded |
| SearchServer.AnswerListsMatches | main.go:50-62 | A non-empty q is answered 200: null when nothing matches, otherwise exactly the encodings of the matching ads |

## Left out

- Errors.GetMessageOnly: `fmt.Errorf(f.Message)` treats the message as a format string. The model keeps the message verbatim, which is right only for messages without `%` verbs.
- Elastic.BulkIndexDocs: the list entries carry no document ID. The failure callback reads the loop variable `doc`, which, once the callback runs, need not be the failing document. The list is promised as a multiset because the callbacks run concurrently.
- Elastic.BulkIndexDocs: the indexer's statistics are assumed to count every document handed to `Add` as added, and every failure callback as failed. The esutil library itself is not part of this model.
- Elastic.SearchQuery: the failure to marshal the query, and to re-encode the hits into the destination, is not modelled. Both JSON round trips are taken to succeed.
- Bleve.SearchQuery: the JSON round trip of the document fields into the destination is taken to succeed.
- Bleve.BulkIndex: the goroutines and the channel are sequentialised. The order of the failure list is promised only as a multiset.
- Repository.SearchAds: decoding hits and rows into advertisements is the given functions `decodeSources`/`decodeFields`. SQL semantics, such as what `to_tsquery` matches, belong to the select parameter. The select appends to what the destination already holds, so it receives that.
- Elastic.PingWithRetry: `waitTime` is unused by the source, which always sleeps five seconds. Sleeps and logging are counted ghosts, not modelled time.
- Health.HealthHandler.GetHealth: `errors.ErrorUnauthorized` and `errors.ErrorServiceUnavailable` are not defined in helper/errors/const.go, so both are parameters. The shutdown delay, the signal channel, the sleep and `os.Exit` in `listenToSigTerm` are reduced to `ShutdownFlag.Raise`.
- Uuid.UUIDv4: `crypto/rand` is the `random` parameter. Its ignored error is not modelled.
- SearchServer.Searcher: `Load` (file I/O, gzip and per-line JSON decoding) is not modelled. A Searcher is built from the ads Load would have read.
- SearchServer.HandleSearch: the 500 branch is written as a dead branch (`assert false`), discharged by `Searcher.Search`'s guarantee that it never returns an error. `Write` errors and the HTTP plumbing are left out.
- Response.Success: JSON marshalling is not modelled. A payload that cannot be marshalled is an `Err` input carrying the marshal error's text.
- `InitBleveIndex`, `InitESIndex`, `DeleteIndex` and bleve's `Close` only wrap engine calls. They are not modelled.
- Logging, contexts and the numeric side of JSON (floats) are not modelled.
- Strs: strings are sequences of characters, while Go's are UTF-8 bytes. The two views agree on every operation here for valid UTF-8; invalid UTF-8 (for example in a decoded `q` parameter) is outside the model.
- Errors.GetStatusCode: there is no nil error, and no call site in the modelled core passes one, so Go's answer 500 for nil is not modelled.
- Errors.GetMessageOnly: the nil case, where Go returns nil, is not modelled, for the same reason.
- Errors.GetCodeFromError: Go panics on a nil error. That case is not modelled, for the same reason.
- Errors.IsEqual: Go panics when either argument is nil. That case is not modelled, for the same reason.

## Findings

| source | as written | input that shows it | evidently intended | confidence | as-written member | corrected member |
|---|---|---|---|---|---|---|
| domain/repository/advertisement.go:46-54 | The bleve branch of `SearchAds` has no `return`, so it falls through to the SQL search. Bleve's error is overwritten and the SQL rows are appended to bleve's results. Under the bleve indexer the service opens no database handle, so every search reaches a nil handle | indexer "bleve", no database handle, any query; or indexer "bleve", the keyword "" and a select that succeeds | The bleve branch returns bleve's own result and error, like the elastic branch | not executed; follows from the control flow and from the wiring in infra/api/api.go | Repository.BleveSearchReachesNilDatabase | Repository.IntendedBleveUsesBleve |
