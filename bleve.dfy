/**
 * external/index/bleve.go: the bleve backend. The bleve index itself is not part of this
 * model: its Index call is the parameter index (None for success, Some(err) for an error)
 * and its search is the parameter engine.
 */
module Bleve {
  import opened Base
  import opened Errors

  const PrefixBleve := "external-bleve:"
  const IndexBleve := "bleve"

  /** A search hit: the document's ID and its stored fields. */
  datatype Hit = Hit(id: string, fields: map<string, Json>)

  /** The document fields of the hits: one field map per hit, in hit order. */
  function DocumentFields(hits: seq<Hit>): (fs: seq<map<string, Json>>)
    ensures |fs| == |hits|
    ensures forall i :: 0 <= i < |hits| ==> fs[i] == hits[i].fields
  {
    seq(|hits|, i requires 0 <= i < |hits| => hits[i].fields)
  }

  /** SearchResultCustom.GetDocumentFields: appends each hit's fields in turn. */
  method GetDocumentFields(hits: seq<Hit>) returns (documentFields: seq<map<string, Json>>)
    ensures documentFields == DocumentFields(hits)
  {
    documentFields := [];
    for i := 0 to |hits|
      invariant documentFields == DocumentFields(hits[..i])
    {
      documentFields := documentFields + [hits[i].fields];
    }
    assert hits[..|hits|] == hits;
  }

  /** A document to index: its ID and its payload. */
  datatype BleveDoc<D> = BleveDoc(id: string, data: D)

  /** A document the index refused, with the error it gave. */
  datatype BleveDocError = BleveDocError(docId: string, err: GoError)

  /** BleveDocErrors.ToError: never an error, whatever the list holds. */
  function ToError(errs: seq<BleveDocError>): (r: Option<GoError>)
    ensures r.None?
  {
    None
  }

  /** The query string query and the fields the search asks for. */
  datatype SearchRequest = SearchRequest(queryString: string, fields: seq<string>)

  const KeywordEmpty := Plain("keyword can't be empty")

  /** What SearchQuery hands back: the hits, what the destination receives, and the error. */
  datatype BleveSearch = BleveSearch(result: seq<Hit>, dest: seq<map<string, Json>>, err: Option<GoError>)

  /**
   * BleveIndex.SearchQuery. An empty keyword is refused before the index is asked; an
   * index error is prefixed with "external-bleve: ". On success the destination receives
   * the hits' document fields.
   */
  function SearchQuery(keyword: string, engine: SearchRequest -> Result<seq<Hit>, GoError>): (r: BleveSearch)
    ensures keyword == "" ==> r == BleveSearch([], [], Some(KeywordEmpty))
    ensures keyword != "" ==> var answer := engine(SearchRequest(keyword, ["*"]));
              && (answer.Err? ==> r.err == Some(Plain(PrefixBleve + " " + Text(answer.error))) && r.dest == [])
              && (answer.Ok? ==> r.err.None? && r.result == answer.value && r.dest == DocumentFields(answer.value))
  {
    if keyword == "" then BleveSearch([], [], Some(KeywordEmpty))
    else
      match engine(SearchRequest(keyword, ["*"]))
      case Err(e) => BleveSearch([], [], Some(Plain(PrefixBleve + " " + Text(e))))
      case Ok(hits) => BleveSearch(hits, DocumentFields(hits), None)
  }

  /** An empty keyword never reaches the index: the answer does not depend on it. */
  lemma EmptyKeywordSkipsIndex(e1: SearchRequest -> Result<seq<Hit>, GoError>, e2: SearchRequest -> Result<seq<Hit>, GoError>)
    ensures SearchQuery("", e1) == SearchQuery("", e2)
    ensures SearchQuery("", e1).err == Some(Plain("keyword can't be empty"))
  {
  }

  /** The documents whose Index call fails, each with its error, in document order. */
  function Failures<D>(docs: seq<BleveDoc<D>>, index: (string, D) -> Option<GoError>): (errs: seq<BleveDocError>)
    ensures |errs| <= |docs|
    decreases |docs|
  {
    if |docs| == 0 then []
    else
      var last := docs[|docs| - 1];
      var prev := Failures(docs[..|docs| - 1], index);
      match index(last.id, last.data)
      case Some(e) => prev + [BleveDocError(last.id, e)]
      case None => prev
  }

  /** Index succeeds on every document. */
  predicate AllIndexed<D>(docs: seq<BleveDoc<D>>, index: (string, D) -> Option<GoError>) {
    forall i :: 0 <= i < |docs| ==> index(docs[i].id, docs[i].data).None?
  }

  /** A document failed at position i with error e. */
  predicate FailedAt<D>(docs: seq<BleveDoc<D>>, index: (string, D) -> Option<GoError>, i: int, e: GoError) {
    0 <= i < |docs| && index(docs[i].id, docs[i].data) == Some(e)
  }

  /** An entry is in the failure list exactly when some document with that ID failed with that error. */
  lemma {:induction false} FailuresMembership<D>(docs: seq<BleveDoc<D>>, index: (string, D) -> Option<GoError>, x: BleveDocError)
    ensures x in Failures(docs, index) <==> exists i :: FailedAt(docs, index, i, x.err) && docs[i].id == x.docId
    decreases |docs|
  {
    if |docs| > 0 {
      var init := docs[..|docs| - 1];
      FailuresMembership(init, index, x);
      if exists i :: FailedAt(init, index, i, x.err) && init[i].id == x.docId {
        var i :| FailedAt(init, index, i, x.err) && init[i].id == x.docId;
        assert FailedAt(docs, index, i, x.err) && docs[i].id == x.docId;
      }
      if exists i :: FailedAt(docs, index, i, x.err) && docs[i].id == x.docId {
        var i :| FailedAt(docs, index, i, x.err) && docs[i].id == x.docId;
        if i < |docs| - 1 {
          assert FailedAt(init, index, i, x.err) && init[i].id == x.docId;
        }
      }
    }
  }

  /** The failure list is empty exactly when every document was indexed. */
  lemma {:induction false} FailuresEmptyIff<D>(docs: seq<BleveDoc<D>>, index: (string, D) -> Option<GoError>)
    ensures Failures(docs, index) == [] <==> AllIndexed(docs, index)
    decreases |docs|
  {
    if |docs| > 0 {
      var init := docs[..|docs| - 1];
      FailuresEmptyIff(init, index);
      if AllIndexed(docs, index) {
        assert AllIndexed(init, index) by {
          forall i | 0 <= i < |init| ensures index(init[i].id, init[i].data).None? {
            assert init[i] == docs[i];
          }
        }
      }
      if Failures(docs, index) == [] {
        forall i | 0 <= i < |docs| ensures index(docs[i].id, docs[i].data).None? {
          if i < |docs| - 1 {
            assert init[i] == docs[i];
          }
        }
      }
    }
  }

  /** When every document fails, every one of them is in the list. */
  lemma {:induction false} AllFailedAllListed<D>(docs: seq<BleveDoc<D>>, index: (string, D) -> Option<GoError>)
    requires forall i :: 0 <= i < |docs| ==> index(docs[i].id, docs[i].data).Some?
    ensures |Failures(docs, index)| == |docs|
    decreases |docs|
  {
    if |docs| > 0 {
      var init := docs[..|docs| - 1];
      assert forall i :: 0 <= i < |init| ==> init[i] == docs[i];
      AllFailedAllListed(init, index);
    }
  }

  /**
   * BleveIndex.BulkIndex, sequentialised: the goroutines' Index calls in document order and
   * the collecting loop that allocates the list on the first failure. The goroutines finish
   * in any order, so the list is promised only as a multiset. attempted records the ID of
   * every Index call.
   */
  method BulkIndex<D>(docs: seq<BleveDoc<D>>, index: (string, D) -> Option<GoError>)
    returns (docErrors: Option<seq<BleveDocError>>, ghost attempted: seq<string>)
    ensures attempted == seq(|docs|, i requires 0 <= i < |docs| => docs[i].id)
    ensures docErrors.None? <==> AllIndexed(docs, index)
    ensures docErrors.Some? ==> multiset(docErrors.value) == multiset(Failures(docs, index))
  {
    docErrors := None;
    attempted := [];
    for i := 0 to |docs|
      invariant attempted == seq(i, k requires 0 <= k < i => docs[k].id)
      invariant docErrors.None? ==> Failures(docs[..i], index) == []
      invariant docErrors.Some? ==> docErrors.value == Failures(docs[..i], index) && docErrors.value != []
    {
      var d := docs[i];
      attempted := attempted + [d.id];
      assert docs[..i + 1][..i] == docs[..i];
      match index(d.id, d.data) {
        case Some(e) =>
          var errs := if docErrors.None? then [] else docErrors.value;
          docErrors := Some(errs + [BleveDocError(d.id, e)]);
        case None =>
      }
    }
    assert docs[..|docs|] == docs;
    FailuresEmptyIff(docs, index);
  }
}
