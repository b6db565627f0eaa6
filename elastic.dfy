/**
 * external/index/elastic.go: the Elasticsearch backend. The client is not part of this
 * model. Its answers are parameters: the search response, the cluster health result of each
 * ping attempt, and, for the bulk indexer, whether it could be created, the fate of each
 * added document and the result of Close.
 */
module Elastic {
  import opened Base
  import opened Errors

  const PrefixElastic := "external-elastic:"
  const IndexElastic := "elastic"

  /** A document to index: its ID and its payload. */
  datatype ElasticDoc<D> = ElasticDoc(id: string, data: D)

  /** ElasticMultiMatchQuery. */
  datatype MultiMatchQuery = MultiMatchQuery(query: string, fields: seq<string>, fuzziness: string, prefixLength: int)

  const Fuzziness := "AUTO"
  const PrefixLength := 2

  /**
   * The JSON form of a multi_match clause, under its json tags. The fields come from a
   * variadic parameter, which is a nil slice when no field is passed; "fields" has no
   * omitempty, so that nil slice is written as null.
   */
  function MultiMatchJson(m: MultiMatchQuery): (j: Json)
    ensures j.Object? && j.fields.Keys == {"query", "fields", "fuzziness", "prefix_length"}
    ensures j.fields["query"] == Str(m.query) && j.fields["fuzziness"] == Str(m.fuzziness)
    ensures j.fields["prefix_length"] == Number(m.prefixLength)
    ensures |m.fields| == 0 <==> j.fields["fields"].Null?
    ensures |m.fields| > 0 ==> j.fields["fields"].Array? && |j.fields["fields"].items| == |m.fields|
    ensures |m.fields| > 0 ==> forall i :: 0 <= i < |m.fields| ==> j.fields["fields"].items[i] == Str(m.fields[i])
  {
    var list := if |m.fields| == 0 then Null else Array(seq(|m.fields|, i requires 0 <= i < |m.fields| => Str(m.fields[i])));
    Object(map["query" := Str(m.query),
               "fields" := list,
               "fuzziness" := Str(m.fuzziness),
               "prefix_length" := Number(m.prefixLength)])
  }

  /** ElasticRootQuery: its Query field starts nil (None) and is filled in by the constructor method. */
  class ElasticRootQuery {
    var query: Option<map<string, MultiMatchQuery>>

    constructor ()
      ensures query.None?
    {
      query := None;
    }

    /**
     * ConstructElasticMultiMatchQuery: Query becomes a single "multi_match" entry over the
     * given query and fields, in the given order, with fuzziness "AUTO" and prefix length 2.
     */
    method ConstructElasticMultiMatchQuery(q: string, fields: seq<string>)
      modifies this
      ensures query == Some(map["multi_match" := MultiMatchQuery(q, fields, Fuzziness, PrefixLength)])
    {
      query := Some(map["multi_match" := MultiMatchQuery(q, fields, Fuzziness, PrefixLength)]);
    }
  }

  /** The request body: {"query": ...}, with null for a nil Query. */
  function RootQueryJson(query: Option<map<string, MultiMatchQuery>>): (j: Json)
    ensures j.Object? && j.fields.Keys == {"query"}
    ensures query.None? ==> j.fields["query"] == Null
    ensures query.Some? ==> j.fields["query"].Object? && j.fields["query"].fields.Keys == query.value.Keys
    ensures query.Some? ==> forall k :: k in query.value ==> j.fields["query"].fields[k] == MultiMatchJson(query.value[k])
  {
    match query
    case None => Object(map["query" := Null])
    case Some(clauses) => Object(map["query" := Object(map k | k in clauses :: MultiMatchJson(clauses[k]))])
  }

  /**
   * The body of a constructed multi-match query carries the keyword, the fields in order (null
   * when none is passed), "AUTO" and 2.
   */
  lemma MultiMatchBody(q: string, fields: seq<string>)
    ensures var body := RootQueryJson(Some(map["multi_match" := MultiMatchQuery(q, fields, Fuzziness, PrefixLength)]));
            var clause := body.fields["query"].fields["multi_match"];
            && body.fields["query"].fields.Keys == {"multi_match"}
            && clause.fields["query"] == Str(q)
            && clause.fields["fuzziness"] == Str("AUTO")
            && clause.fields["prefix_length"] == Number(2)
            && (|fields| == 0 ==> clause.fields["fields"] == Null)
            && (|fields| > 0 ==> |clause.fields["fields"].items| == |fields|)
            && forall i :: 0 <= i < |fields| ==> clause.fields["fields"].items[i] == Str(fields[i])
  {
  }

  /** One search hit; its score is left out. */
  datatype EsHit = EsHit(index: string, docType: string, id: string, source: Json)

  /** ElasticQueryResult: the summary fields and the hits. */
  datatype ElasticQueryResult = ElasticQueryResult(took: int, timedOut: bool, total: int, hits: seq<EsHit>)

  const EmptyResult := ElasticQueryResult(0, false, 0, [])

  /** The sources of the hits: one per hit, in hit order. */
  function HitSources(hits: seq<EsHit>): (srcs: seq<Json>)
    ensures |srcs| == |hits|
    ensures forall i :: 0 <= i < |hits| ==> srcs[i] == hits[i].source
  {
    seq(|hits|, i requires 0 <= i < |hits| => hits[i].source)
  }

  /** ElasticQueryResult.GetHitSources: appends each hit's _source in turn. */
  method GetHitSources(q: ElasticQueryResult) returns (documentFields: seq<Json>)
    ensures documentFields == HitSources(q.hits)
  {
    documentFields := [];
    for i := 0 to |q.hits|
      invariant documentFields == HitSources(q.hits[..i])
    {
      documentFields := documentFields + [q.hits[i].source];
    }
    assert q.hits[..|q.hits|] == q.hits;
  }

  /** What the search call gives back. */
  datatype SearchResponse =
    | TransportFailed(err: GoError)            // the request could not be made
    | ErrorStatus(status: int)                 // the cluster answered with an error status
    | Undecodable(err: GoError)                // the body did not decode into a query result
    | Decoded(result: ElasticQueryResult)

  /** An error text behind this backend's prefix, as fmt.Errorf("%s %v", prefix, err) renders it. */
  function Prefixed(e: GoError): (r: GoError)
    ensures r.Plain? && r.text == PrefixElastic + " " + Text(e)
  {
    Plain(PrefixElastic + " " + Text(e))
  }

  /** What SearchQuery hands back: the decoded result, what the destination receives, and the error. */
  datatype ElasticSearch = ElasticSearch(result: ElasticQueryResult, dest: seq<Json>, err: Option<GoError>)

  /**
   * ElasticIndex.SearchQuery. A failed request or an error status becomes ErrorThirdParty;
   * a body that does not decode becomes a prefixed error. On success the destination
   * receives the hits' sources.
   */
  function SearchQuery(query: Option<map<string, MultiMatchQuery>>, search: Json -> SearchResponse): (r: ElasticSearch)
    ensures var res := search(RootQueryJson(query));
            && ((res.TransportFailed? || res.ErrorStatus?) ==> r.err == Some(Coded(ErrorThirdParty)) && r.dest == [])
            && (res.Undecodable? ==> r.err == Some(Prefixed(res.err)) && r.dest == [])
            && (res.Decoded? ==> r.err.None? && r.result == res.result && r.dest == HitSources(res.result.hits))
  {
    match search(RootQueryJson(query))
    case TransportFailed(_) => ElasticSearch(EmptyResult, [], Some(Coded(ErrorThirdParty)))
    case ErrorStatus(_) => ElasticSearch(EmptyResult, [], Some(Coded(ErrorThirdParty)))
    case Undecodable(e) => ElasticSearch(EmptyResult, [], Some(Prefixed(e)))
    case Decoded(res) => ElasticSearch(res, HitSources(res.hits), None)
  }

  /** Why the bulk indexer reported an item as failed. */
  datatype FailureCause =
    | Transport(err: GoError)                  // OnFailure received an error
    | ItemError(errType: string, reason: string) // OnFailure received the item's error object

  /** The fate of one document handed to the bulk indexer. */
  datatype ItemOutcome =
    | Rejected(addErr: GoError)                // Add returned an error: logged, nothing else
    | Indexed                                  // OnSuccess fired
    | Failed(cause: FailureCause)              // OnFailure fired

  /**
   * One entry of the failure list. Its DocID is left out: the callback reads the loop
   * variable, which by the time it runs need not be the failing document.
   */
  datatype ElasticDocError = ElasticDocError(err: GoError)

  /** ElasticDocErrors.ToError: never an error, whatever the list holds. */
  function ToError(errs: seq<ElasticDocError>): (r: Option<GoError>)
    ensures r.None?
  {
    None
  }

  /** The entry the failure callback appends for a failure cause. */
  function FailureEntry(c: FailureCause): (e: ElasticDocError)
    ensures c.Transport? ==> e.err == c.err
    ensures c.ItemError? ==> e.err == Plain("ERROR: " + c.errType + ": " + c.reason)
  {
    match c
    case Transport(err) => ElasticDocError(err)
    case ItemError(t, r) => ElasticDocError(Plain("ERROR: " + t + ": " + r))
  }

  /** The failure list after the first n documents: one entry per failure callback, in order. */
  function FailureEntries(outcome: nat -> ItemOutcome, n: nat): (errs: seq<ElasticDocError>)
    ensures |errs| == FailedCount(outcome, n)
    decreases n
  {
    if n == 0 then []
    else
      var prev := FailureEntries(outcome, n - 1);
      match outcome(n - 1)
      case Failed(c) => prev + [FailureEntry(c)]
      case _ => prev
  }

  /** The indexer's NumFailed after the first n documents. */
  function FailedCount(outcome: nat -> ItemOutcome, n: nat): (k: nat)
    ensures k <= n
    decreases n
  {
    if n == 0 then 0 else FailedCount(outcome, n - 1) + (if outcome(n - 1).Failed? then 1 else 0)
  }

  /** No failure callback among the first n documents. */
  predicate NoneFailed(outcome: nat -> ItemOutcome, n: nat) {
    forall i :: 0 <= i < n ==> !outcome(i).Failed?
  }

  /** Every one of the first n documents failed. */
  predicate AllFailed(outcome: nat -> ItemOutcome, n: nat) {
    forall i :: 0 <= i < n ==> outcome(i).Failed?
  }

  lemma {:induction false} FailedCountZeroIff(outcome: nat -> ItemOutcome, n: nat)
    ensures FailedCount(outcome, n) == 0 <==> NoneFailed(outcome, n)
    decreases n
  {
    if n > 0 {
      FailedCountZeroIff(outcome, n - 1);
    }
  }

  lemma {:induction false} FailedCountFullIff(outcome: nat -> ItemOutcome, n: nat)
    ensures FailedCount(outcome, n) == n <==> AllFailed(outcome, n)
    decreases n
  {
    if n > 0 {
      FailedCountFullIff(outcome, n - 1);
    }
  }

  /**
   * The bulk indexer as seen from BulkIndexDocs: the error of NewBulkIndexer, the fate of
   * the i-th document handed to Add, and the error of Close.
   */
  datatype BulkIndexer = BulkIndexer(initErr: Option<GoError>, outcome: nat -> ItemOutcome, closeErr: Option<GoError>)

  /**
   * The error BulkIndexDocs returns: ErrorThirdParty when the indexer cannot be created,
   * Close's error when it has one, ErrorThirdParty again when NumFailed equals NumAdded
   * (every document is counted as added), and nil otherwise.
   */
  function BulkError(bi: BulkIndexer, n: nat): Option<GoError> {
    if bi.initErr.Some? then Some(Coded(ErrorThirdParty))
    else if bi.closeErr.Some? then bi.closeErr
    else if FailedCount(bi.outcome, n) == n then Some(Coded(ErrorThirdParty))
    else None
  }

  /**
   * ElasticIndex.BulkIndexDocs, sequentialised: every document is handed to Add, whatever
   * happened to the ones before; the failure callback allocates the list on its first call
   * and appends one entry per call. added counts the Add calls.
   */
  method BulkIndexDocs<D>(docs: seq<ElasticDoc<D>>, bi: BulkIndexer)
    returns (docErrors: Option<seq<ElasticDocError>>, err: Option<GoError>, ghost added: nat)
    ensures err == BulkError(bi, |docs|)
    ensures bi.initErr.Some? ==> docErrors.None? && added == 0
    ensures bi.initErr.None? ==> added == |docs|
    ensures bi.initErr.None? ==> (docErrors.None? <==> NoneFailed(bi.outcome, |docs|))
    ensures docErrors.Some? ==> multiset(docErrors.value) == multiset(FailureEntries(bi.outcome, |docs|))
  {
    docErrors := None;
    added := 0;
    if bi.initErr.Some? {
      err := Some(Coded(ErrorThirdParty));
      return;
    }
    var countFailed := 0;
    for i := 0 to |docs|
      invariant added == i
      invariant countFailed == FailedCount(bi.outcome, i)
      invariant docErrors.None? ==> countFailed == 0
      invariant docErrors.Some? ==> docErrors.value == FailureEntries(bi.outcome, i) && countFailed > 0
    {
      added := added + 1;
      match bi.outcome(i) {
        case Failed(c) =>
          var errs := if docErrors.None? then [] else docErrors.value;
          docErrors := Some(errs + [FailureEntry(c)]);
          countFailed := countFailed + 1;
        case Indexed =>
        case Rejected(_) =>
      }
    }
    FailedCountZeroIff(bi.outcome, |docs|);
    if bi.closeErr.Some? {
      err := bi.closeErr;
      return;
    }
    if countFailed == |docs| {
      err := Some(Coded(ErrorThirdParty));
      return;
    }
    err := None;
  }

  /** An empty batch is reported as a third-party failure: 0 failed equals 0 added. */
  lemma EmptyBatchEscalates(bi: BulkIndexer)
    requires bi.initErr.None? && bi.closeErr.None?
    ensures BulkError(bi, 0) == Some(Coded(ErrorThirdParty))
  {
  }

  /** After a clean close, the call fails exactly when every document's failure callback fired. */
  lemma EscalatesIffAllFailed(bi: BulkIndexer, n: nat)
    requires bi.initErr.None? && bi.closeErr.None?
    ensures BulkError(bi, n).Some? <==> AllFailed(bi.outcome, n)
    ensures BulkError(bi, n).Some? ==> BulkError(bi, n) == Some(Coded(ErrorThirdParty))
  {
    FailedCountFullIff(bi.outcome, n);
  }

  /**
   * Documents that Add rejects count as added but never fail, so a non-empty batch that Add
   * rejects entirely is reported as a success with no failure list.
   */
  lemma RejectedBatchReportsSuccess(bi: BulkIndexer, n: nat)
    requires bi.initErr.None? && bi.closeErr.None? && n > 0
    requires forall i :: 0 <= i < n ==> bi.outcome(i).Rejected?
    ensures BulkError(bi, n).None? && FailureEntries(bi.outcome, n) == []
  {
    FailedCountZeroIff(bi.outcome, n);
  }

  /** ElasticIndex.Ping: the cluster health call's error, behind this backend's prefix. */
  function Ping(health: Option<GoError>): (err: Option<GoError>)
    ensures health.None? <==> err.None?
    ensures health.Some? ==> err == Some(Prefixed(health.value))
  {
    match health
    case None => None
    case Some(e) => Some(Prefixed(e))
  }

  /** The first attempt in [lo, hi) whose cluster health call succeeds, or hi if none does. */
  function FirstUp(health: nat -> Option<GoError>, lo: nat, hi: nat): (k: nat)
    requires lo <= hi
    ensures lo <= k <= hi
    ensures forall j :: lo <= j < k ==> health(j).Some?
    ensures k < hi ==> health(k).None?
    decreases hi - lo
  {
    if lo == hi then hi else if health(lo).None? then lo else FirstUp(health, lo + 1, hi)
  }

  /**
   * ElasticIndex.PingWithRetry. health(k) is the outcome of the cluster health call on the
   * k-th attempt. It counts down from retry, stops at the first success or after the
   * attempt made with one retry left, and sleeps (a fixed five seconds; waitTime is not
   * used) between attempts only. pings and sleeps count what it does.
   */
  method PingWithRetry(retry: int, waitTime: int, health: nat -> Option<GoError>)
    returns (err: Option<GoError>, ghost pings: nat, ghost sleeps: nat)
    ensures retry <= 0 ==> err.None? && pings == 0 && sleeps == 0
    ensures retry > 0 ==> var k := FirstUp(health, 0, retry);
              && (k < retry ==> err.None? && pings == k + 1)
              && (k == retry ==> err == Ping(health(retry - 1)) && err.Some? && pings == retry)
              && sleeps == pings - 1
  {
    err := None;
    pings, sleeps := 0, 0;
    var i := retry;
    while i > 0
      invariant i <= retry
      invariant retry > 0 ==> i >= 1
      invariant pings == (if retry > 0 then retry - i else 0) && sleeps == pings
      invariant forall j :: 0 <= j < pings ==> health(j).Some?
      invariant pings == 0 ==> err.None?
      decreases i
    {
      err := Ping(health(retry - i));
      pings := pings + 1;
      if err.None? || i == 1 {
        break;
      }
      sleeps := sleeps + 1;
      i := i - 1;
    }
  }

  /** Some attempt within retry succeeds exactly when PingWithRetry returns no error. */
  lemma FirstUpIffSomeUp(health: nat -> Option<GoError>, n: nat)
    ensures FirstUp(health, 0, n) < n <==> exists j :: 0 <= j < n && health(j).None?
  {
    var k := FirstUp(health, 0, n);
    if k < n {
      assert health(k).None?;
    }
  }
}
