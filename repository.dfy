/**
 * domain/repository/advertisement.go: the advertisement repository, which sends searches
 * and indexing to the activated backend. The backends enter as the parts of a Repo value.
 * The PostgreSQL select is a function of the query text, the arguments and what the
 * destination holds before the call; it returns what the destination holds afterwards and
 * the error. A nil database handle is None. The JSON decoding of search results into
 * advertisements is a given function.
 */
module Repository {
  import opened Base
  import opened Strs
  import opened Errors
  import opened SqlError
  import opened Model
  import Bleve
  import Elastic

  /** sqlDB.Unsafe().SelectContext(ctx, dest, query, args...): dest afterwards, and the error. */
  type SqlSelect = (string, seq<QueryArg>, seq<Advertisement>) -> (seq<Advertisement>, Option<GoError>)

  /** The repository: the activated indexer's name and the three backends. */
  datatype Repo = Repo(
    indexer: string,
    esSearch: Json -> Elastic.SearchResponse,
    esBulk: Elastic.BulkIndexer,
    decodeSources: seq<Json> -> seq<Advertisement>,
    bleveSearch: Bleve.SearchRequest -> Result<seq<Bleve.Hit>, GoError>,
    bleveIndex: (string, Advertisement) -> Option<GoError>,
    decodeFields: seq<map<string, Json>> -> seq<Advertisement>,
    sqlDB: Option<SqlSelect>)

  /** What a search ends with: the ads and the error, or the panic of a nil database handle. */
  datatype SearchOutcome = Searched(out: seq<Advertisement>, err: Option<GoError>) | NilDatabase

  /** The full-text query searchAdsSQL runs, byte for byte. */
  const SearchAdsQuery := "\n\t\tSELECT \n\t\t\ta.id,\n\t\t\ta.title,\n\t\t\ta.content,\n\t\t\ta.thumb_url,\n\t\t\ta.tags,\n\t\t\ta.updated_at,\n\t\t\ta.image_urls\n\t\tFROM \n\t\t\tadvertisement a\n\t\tWHERE \n\t\t\ta.content_tokens @@ to_tsquery($1) \n\t\t\tOR a.title_tokens @@ to_tsquery($1)\n\t"

  /** The fields the Elasticsearch search matches, in order. */
  const SearchFields := ["title", "content", "tags"]

  /** The to_tsquery argument for a keyword: every single space becomes " & ". */
  function TsQuery(keyword: string): string {
    ReplaceAll(keyword, " ", " & ")
  }

  /** The keyword rewriting of searchAdsSQL: split on " ", then joined with " & " by hand. */
  method KeywordToTsQuery(keyword: string) returns (arg: string)
    ensures arg == Join(Split(keyword, " "), " & ")
    ensures arg == TsQuery(keyword)
  {
    var separatedKey := Split(keyword, " ");
    arg := "";
    for i := 0 to |separatedKey|
      invariant arg == Join(separatedKey[..i], " & ")
    {
      if i > 0 {
        arg := arg + " & ";
      }
      arg := arg + separatedKey[i];
      if i > 0 {
        JoinSnoc(separatedKey[..i], separatedKey[i], " & ");
      }
      assert separatedKey[..i + 1] == separatedKey[..i] + [separatedKey[i]];
    }
    assert separatedKey[..|separatedKey|] == separatedKey;
    JoinSplitIsReplaceAll(keyword, " ", " & ");
  }

  /** A keyword without a space is its own tsquery argument. */
  lemma TsQueryNoSpace(keyword: string)
    requires !Contains(keyword, " ")
    ensures TsQuery(keyword) == keyword
  {
    ReplaceAllAbsent(keyword, " ", " & ");
  }

  /** Two spaces in a row leave an empty term between two " & ". */
  lemma TsQueryKeepsEmptyTerm(a: string, b: string)
    requires !Contains(a, " ") && !Contains(b, " ")
    ensures TsQuery(a + "  " + b) == a + " &  & " + b
  {
    ReplaceAllConcat(a + "  ", b, " ", " & ");
    ReplaceAllConcat(a, "  ", " ", " & ");
    TsQueryNoSpace(a);
    TsQueryNoSpace(b);
    assert ReplaceAll("  ", " ", " & ") == " &  & " by {
      assert ReplaceAll(" ", " ", " & ") == " & " + ReplaceAll("", " ", " & ");
    }
  }

  /** The error searchAdsSQL wraps a select error in. */
  function SelectFailed(e: GoError): GoError {
    Plain("failed to sqlDB.GetContext due: " + Text(e))
  }

  /**
   * searchAdsSQL: the select with the tsquery argument as $1. prior is what the destination
   * holds before the call. A nil handle panics.
   */
  function SqlSearch(db: Option<SqlSelect>, keyword: string, prior: seq<Advertisement>): (r: SearchOutcome)
    ensures db.None? <==> r.NilDatabase?
    ensures db.Some? ==> var (rows, e) := db.value(SearchAdsQuery, [StrArg(TsQuery(keyword))], prior);
                         r.out == rows && (e.None? <==> r.err.None?) && (e.Some? ==> r.err == Some(SelectFailed(e.value)))
  {
    match db
    case None => NilDatabase
    case Some(select) =>
      var (rows, e) := select(SearchAdsQuery, [StrArg(TsQuery(keyword))], prior);
      Searched(rows, if e.Some? then Some(SelectFailed(e.value)) else None)
  }

  /** Advertisement.searchAdsSQL. */
  method SearchAdsSQL(db: Option<SqlSelect>, keyword: string, dest: seq<Advertisement>) returns (outcome: SearchOutcome)
    ensures outcome == SqlSearch(db, keyword, dest)
  {
    var arg := KeywordToTsQuery(keyword);
    var args := [StrArg(arg)];
    if db.None? {
      return NilDatabase;
    }
    var (rows, e) := db.value(SearchAdsQuery, args, dest);
    if e.Some? {
      return Searched(rows, Some(SelectFailed(e.value)));
    }
    return Searched(rows, None);
  }

  /** The multi-match query the elastic branch builds for a keyword. */
  function ElasticQuery(query: string): map<string, Elastic.MultiMatchQuery> {
    map["multi_match" := Elastic.MultiMatchQuery(query, SearchFields, Elastic.Fuzziness, Elastic.PrefixLength)]
  }

  /** The elastic branch: the multi-match search, its sources decoded on success. */
  function ElasticSearchAds(repo: Repo, query: string): SearchOutcome {
    var r := Elastic.SearchQuery(Some(ElasticQuery(query)), repo.esSearch);
    Searched(if r.err.None? then repo.decodeSources(r.dest) else [], r.err)
  }

  /**
   * What the bleve search leaves in the destination, and its error: an empty keyword is
   * refused without a search; an engine error is prefixed and leaves nothing; on success the
   * destination holds the decoded fields of the hits, in hit order.
   */
  function BleveSearchAds(repo: Repo, query: string): (r: SearchOutcome)
    ensures r.Searched?
    ensures query == "" ==> r == Searched([], Some(Bleve.KeywordEmpty))
    ensures query != "" ==> var answer := repo.bleveSearch(Bleve.SearchRequest(query, ["*"]));
              && (answer.Err? ==> r == Searched([], Some(Plain(Bleve.PrefixBleve + " " + Text(answer.error)))))
              && (answer.Ok? ==> r == Searched(repo.decodeFields(Bleve.DocumentFields(answer.value)), None))
  {
    var b := Bleve.SearchQuery(query, repo.bleveSearch);
    Searched(if b.err.None? then repo.decodeFields(b.dest) else [], b.err)
  }

  /**
   * SearchAds as written: the elastic branch returns its own result; every other indexer,
   * bleve included, ends with the SQL search, which starts from what bleve left in the
   * destination.
   */
  function SearchAdsResult(repo: Repo, query: string): SearchOutcome {
    if repo.indexer == Elastic.IndexElastic then ElasticSearchAds(repo, query)
    else
      var prior := if repo.indexer == Bleve.IndexBleve then BleveSearchAds(repo, query).out else [];
      SqlSearch(repo.sqlDB, query, prior)
  }

  /** Advertisement.SearchAds. */
  method SearchAds(repo: Repo, query: string) returns (outcome: SearchOutcome)
    ensures outcome == SearchAdsResult(repo, query)
  {
    if repo.indexer == Elastic.IndexElastic {
      var esQuery := new Elastic.ElasticRootQuery();
      esQuery.ConstructElasticMultiMatchQuery(query, ["title", "content", "tags"]);
      var r := Elastic.SearchQuery(esQuery.query, repo.esSearch);
      var out := if r.err.None? then repo.decodeSources(r.dest) else [];
      return Searched(out, r.err);
    }
    var out := [];
    if repo.indexer == Bleve.IndexBleve {
      var b := Bleve.SearchQuery(query, repo.bleveSearch);
      if b.err.None? {
        out := repo.decodeFields(b.dest);
      }
    }
    outcome := SearchAdsSQL(repo.sqlDB, query, out);
  }

  /**
   * Under elastic, the request is the multi-match over title, content and tags with
   * fuzziness AUTO and prefix length 2, and the database plays no part.
   */
  lemma ElasticSearchSkipsSql(repo: Repo, query: string, db: Option<SqlSelect>)
    requires repo.indexer == Elastic.IndexElastic
    ensures SearchAdsResult(repo, query) == SearchAdsResult(repo.(sqlDB := db), query)
    ensures SearchAdsResult(repo, query).Searched?
    ensures SearchAdsResult(repo, query).err == Elastic.SearchQuery(Some(ElasticQuery(query)), repo.esSearch).err
    ensures ElasticQuery(query)["multi_match"].fields == ["title", "content", "tags"]
  {
  }

  /**
   * Under any other indexer, the answer is the SQL search's, started from what bleve left in
   * the destination: its rows, and its error alone, wrapped.
   */
  lemma NonElasticEndsInSql(repo: Repo, query: string)
    requires repo.indexer != Elastic.IndexElastic && repo.sqlDB.Some?
    ensures var prior := if repo.indexer == Bleve.IndexBleve then BleveSearchAds(repo, query).out else [];
            var (rows, e) := repo.sqlDB.value(SearchAdsQuery, [StrArg(TsQuery(query))], prior);
            && SearchAdsResult(repo, query) == SqlSearch(repo.sqlDB, query, prior)
            && SearchAdsResult(repo, query).Searched?
            && SearchAdsResult(repo, query).out == rows
            && SearchAdsResult(repo, query).err == (if e.Some? then Some(SelectFailed(e.value)) else None)
  {
  }

  /**
   * As written, the bleve branch's error is lost: an empty keyword, which bleve refuses, is
   * answered without error when the SQL select succeeds.
   */
  lemma BleveErrorDiscarded(repo: Repo)
    requires repo.indexer == Bleve.IndexBleve && repo.sqlDB.Some?
    requires repo.sqlDB.value(SearchAdsQuery, [StrArg("")], []).1.None?
    ensures BleveSearchAds(repo, "").err == Some(Bleve.KeywordEmpty)
    ensures SearchAdsResult(repo, "") == Searched(repo.sqlDB.value(SearchAdsQuery, [StrArg("")], []).0, None)
  {
    assert TsQuery("") == "";
  }

  /**
   * As written, with the bleve indexer and no database handle (the only handle the service
   * opens is for the SQL indexer), every search reaches the nil handle.
   */
  lemma BleveSearchReachesNilDatabase(repo: Repo, query: string)
    requires repo.indexer == Bleve.IndexBleve && repo.sqlDB.None?
    ensures SearchAdsResult(repo, query) == NilDatabase
  {
  }

  /** SearchAds as evidently intended: the bleve branch returns its own result, like the elastic one. */
  function SearchAdsIntended(repo: Repo, query: string): SearchOutcome {
    if repo.indexer == Elastic.IndexElastic then ElasticSearchAds(repo, query)
    else if repo.indexer == Bleve.IndexBleve then BleveSearchAds(repo, query)
    else SqlSearch(repo.sqlDB, query, [])
  }

  /**
   * The intended bleve branch answers with bleve's own result and error, needs no database
   * handle, and the other branches are as written.
   */
  lemma IntendedBleveUsesBleve(repo: Repo, query: string, db: Option<SqlSelect>)
    ensures repo.indexer == Bleve.IndexBleve ==>
              && SearchAdsIntended(repo, query) == BleveSearchAds(repo, query)
              && SearchAdsIntended(repo, query).Searched?
              && SearchAdsIntended(repo, query) == SearchAdsIntended(repo.(sqlDB := db), query)
              && SearchAdsIntended(repo, query).err == Bleve.SearchQuery(query, repo.bleveSearch).err
    ensures repo.indexer != Bleve.IndexBleve ==> SearchAdsIntended(repo, query) == SearchAdsResult(repo, query)
  {
  }

  const ElasticConversionPrefix := "failed to convert to elasticDocs, err:"
  const BleveConversionPrefix := "failed to convert to bleveDocs, err:"

  /**
   * IndexAds: under elastic, a conversion error or the bulk call's own error (a partial
   * failure list turns into nil); under bleve, a conversion error or nil whatever the
   * index did; under any other indexer, nil.
   */
  function IndexAdsResult(repo: Repo, ads: seq<Advertisement>): Option<GoError> {
    if repo.indexer == Elastic.IndexElastic then
      if |ads| == 0 then Some(Plain(ElasticConversionPrefix + Text(NoElasticDocs)))
      else Elastic.BulkError(repo.esBulk, |ads|)
    else if repo.indexer == Bleve.IndexBleve then
      if |ads| == 0 then Some(Plain(BleveConversionPrefix + Text(NoBleveDocs))) else None
    else None
  }

  /** Advertisement.IndexAds. */
  method IndexAds(repo: Repo, ads: seq<Advertisement>) returns (err: Option<GoError>)
    ensures err == IndexAdsResult(repo, ads)
  {
    if repo.indexer == Elastic.IndexElastic {
      var elasticDocs, convErr := ToElasticDocs(ads);
      if convErr.Some? {
        return Some(Plain(ElasticConversionPrefix + Text(convErr.value)));
      }
      var errorElasticDocs, bulkErr, _ := Elastic.BulkIndexDocs(elasticDocs, repo.esBulk);
      if bulkErr.Some? {
        return bulkErr;
      }
      if errorElasticDocs.Some? {
        return Elastic.ToError(errorElasticDocs.value);
      }
      return None;
    }
    if repo.indexer == Bleve.IndexBleve {
      var bleveDocs, convErr := ToBleveDocs(ads);
      if convErr.Some? {
        return Some(Plain(BleveConversionPrefix + Text(convErr.value)));
      }
      var errorDocs, _ := Bleve.BulkIndex(bleveDocs, repo.bleveIndex);
      if errorDocs.Some? {
        return Bleve.ToError(errorDocs.value);
      }
    }
    return None;
  }

  /** An empty batch is refused with a conversion error under elastic and under bleve. */
  lemma EmptyBatchRefused(repo: Repo)
    requires repo.indexer == Elastic.IndexElastic || repo.indexer == Bleve.IndexBleve
    ensures IndexAdsResult(repo, []).Some?
    ensures repo.indexer == Elastic.IndexElastic ==>
              IndexAdsResult(repo, []) == Some(Plain(ElasticConversionPrefix + "no ads to be converted to elastic docs"))
    ensures repo.indexer == Bleve.IndexBleve ==>
              IndexAdsResult(repo, []) == Some(Plain(BleveConversionPrefix + "no ads to be converted to bleve docs"))
  {
  }

  /** Under elastic, a batch in which some document did not fail is reported as indexed. */
  lemma PartialFailureIsSuccess(repo: Repo, ads: seq<Advertisement>, i: nat)
    requires repo.indexer == Elastic.IndexElastic && repo.esBulk.initErr.None? && repo.esBulk.closeErr.None?
    requires i < |ads| && !repo.esBulk.outcome(i).Failed?
    ensures IndexAdsResult(repo, ads).None?
  {
    Elastic.EscalatesIffAllFailed(repo.esBulk, |ads|);
  }

  /** Under bleve, a non-empty batch is reported as indexed whatever the index answered. */
  lemma BleveIndexingNeverFails(repo: Repo, ads: seq<Advertisement>)
    requires repo.indexer == Bleve.IndexBleve && |ads| > 0
    ensures IndexAdsResult(repo, ads).None?
    ensures forall index: (string, Advertisement) -> Option<GoError> :: IndexAdsResult(repo.(bleveIndex := index), ads).None?
  {
  }

  /** Under any other indexer, IndexAds does nothing and reports nothing. */
  lemma OtherIndexerIsNoop(repo: Repo, ads: seq<Advertisement>)
    requires repo.indexer != Elastic.IndexElastic && repo.indexer != Bleve.IndexBleve
    ensures IndexAdsResult(repo, ads).None?
  {
  }
}
