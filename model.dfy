/**
 * domain/model/advertisement.go: the advertisement record and its conversion into the
 * documents the two search indexes take.
 */
module Model {
  import opened Base
  import opened Strs
  import opened Errors
  import opened Bleve
  import opened Elastic

  /** Advertisement. Tags and image URLs are free-form JSON values (interface{}). */
  datatype Advertisement = Advertisement(id: Int64, title: string, content: string, thumbUrl: string,
                                         tags: Json, updatedAt: Int64, imageUrls: Json)

  /** fmt.Sprint of the ad's int64 ID: the ID of its document in either index. */
  function DocId(ad: Advertisement): string {
    IntToDecimal(ad.id)
  }

  /** A document ID reads back as the ad's ID. */
  lemma DocIdRoundTrip(ad: Advertisement)
    ensures ParseDecimal(DocId(ad)) == ad.id
  {
    DecimalRoundTrip(ad.id);
  }

  /** Two ads share a document ID only when they share an ID. */
  lemma DocIdInjective(a: Advertisement, b: Advertisement)
    requires DocId(a) == DocId(b)
    ensures a.id == b.id
  {
    DecimalInjective(a.id, b.id);
  }

  const NoBleveDocs := Plain("no ads to be converted to bleve docs")
  const NoElasticDocs := Plain("no ads to be converted to elastic docs")

  /**
   * Advertisements.ToBleveDocs: an error and no documents for an empty batch; otherwise
   * one document per ad, in order, keyed by the ad's decimal ID and carrying the ad.
   */
  method ToBleveDocs(ads: seq<Advertisement>) returns (out: seq<BleveDoc<Advertisement>>, err: Option<GoError>)
    ensures |ads| == 0 ==> out == [] && err == Some(NoBleveDocs)
    ensures |ads| > 0 ==> err.None? && |out| == |ads|
    ensures forall i :: 0 <= i < |out| ==> out[i].id == DocId(ads[i]) && out[i].data == ads[i]
  {
    out := [];
    if |ads| == 0 {
      err := Some(NoBleveDocs);
      return;
    }
    for i := 0 to |ads|
      invariant |out| == i
      invariant forall k :: 0 <= k < i ==> out[k].id == DocId(ads[k]) && out[k].data == ads[k]
    {
      out := out + [BleveDoc(DocId(ads[i]), ads[i])];
    }
    err := None;
  }

  /** Advertisements.ToElasticDocs: the same conversion, into Elasticsearch documents. */
  method ToElasticDocs(ads: seq<Advertisement>) returns (out: seq<ElasticDoc<Advertisement>>, err: Option<GoError>)
    ensures |ads| == 0 ==> out == [] && err == Some(NoElasticDocs)
    ensures |ads| > 0 ==> err.None? && |out| == |ads|
    ensures forall i :: 0 <= i < |out| ==> out[i].id == DocId(ads[i]) && out[i].data == ads[i]
  {
    out := [];
    if |ads| == 0 {
      err := Some(NoElasticDocs);
      return;
    }
    for i := 0 to |ads|
      invariant |out| == i
      invariant forall k :: 0 <= k < i ==> out[k].id == DocId(ads[k]) && out[k].data == ads[k]
    {
      out := out + [ElasticDoc(DocId(ads[i]), ads[i])];
    }
    err := None;
  }

  /** Ads with distinct IDs become documents with distinct IDs. */
  lemma DistinctIdsDistinctDocs(ads: seq<Advertisement>, i: int, j: int)
    requires 0 <= i < |ads| && 0 <= j < |ads| && ads[i].id != ads[j].id
    ensures DocId(ads[i]) != DocId(ads[j])
  {
    if DocId(ads[i]) == DocId(ads[j]) {
      DocIdInjective(ads[i], ads[j]);
    }
  }
}
