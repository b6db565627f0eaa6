/**
 * main.go: the stand-alone search server. A Searcher holds the advertisements it has loaded
 * and filters them by a case-sensitive substring of the title or the content; the /search
 * handler refuses an empty query and otherwise answers with the matching ads as JSON.
 * Loading the gzip file and the HTTP plumbing are not part of this model: a Searcher is
 * built from the ads Load would have read, and the handler's answer is a value.
 */
module SearchServer {
  import opened Base
  import opened Strs
  import opened Model

  /** An ad matches a query when its title or its content contains the query. */
  predicate Matches(ad: Advertisement, query: string) {
    Contains(ad.title, query) || Contains(ad.content, query)
  }

  /** The matching ads, in the order they were loaded. */
  function Matching(ads: seq<Advertisement>, query: string): seq<Advertisement>
    decreases |ads|
  {
    if |ads| == 0 then []
    else
      var last := ads[|ads| - 1];
      Matching(ads[..|ads| - 1], query) + if Matches(last, query) then [last] else []
  }

  /** The positions of the matching ads, in increasing order. */
  function MatchIndices(ads: seq<Advertisement>, query: string): seq<int>
    decreases |ads|
  {
    if |ads| == 0 then []
    else
      var n := |ads| - 1;
      MatchIndices(ads[..n], query) + if Matches(ads[n], query) then [n] else []
  }

  /** One position per matching ad. */
  lemma {:induction false} MatchIndicesLength(ads: seq<Advertisement>, query: string)
    ensures |MatchIndices(ads, query)| == |Matching(ads, query)|
    decreases |ads|
  {
    if |ads| > 0 {
      MatchIndicesLength(ads[..|ads| - 1], query);
    }
  }

  /** The positions are valid and increasing. */
  lemma {:induction false} MatchIndicesIncreasing(ads: seq<Advertisement>, query: string)
    ensures forall k :: 0 <= k < |MatchIndices(ads, query)| ==> 0 <= MatchIndices(ads, query)[k] < |ads|
    ensures forall k, l :: 0 <= k < l < |MatchIndices(ads, query)| ==> MatchIndices(ads, query)[k] < MatchIndices(ads, query)[l]
    decreases |ads|
  {
    if |ads| > 0 {
      MatchIndicesIncreasing(ads[..|ads| - 1], query);
    }
  }

  /** The k-th matching ad is the ad at the k-th matching position. */
  lemma {:induction false} MatchIndicesPick(ads: seq<Advertisement>, query: string)
    ensures |MatchIndices(ads, query)| == |Matching(ads, query)|
    ensures forall k :: 0 <= k < |MatchIndices(ads, query)| ==>
              0 <= MatchIndices(ads, query)[k] < |ads| && Matching(ads, query)[k] == ads[MatchIndices(ads, query)[k]]
    decreases |ads|
  {
    MatchIndicesLength(ads, query);
    MatchIndicesIncreasing(ads, query);
    if |ads| > 0 {
      var n := |ads| - 1;
      var init := ads[..n];
      MatchIndicesPick(init, query);
      MatchIndicesIncreasing(init, query);
      var idx, prev := MatchIndices(init, query), Matching(init, query);
      forall k | 0 <= k < |idx| ensures ads[idx[k]] == init[idx[k]] {
      }
    }
  }

  /** A position is listed exactly when its ad matches. */
  lemma {:induction false} MatchIndicesComplete(ads: seq<Advertisement>, query: string)
    ensures forall i :: 0 <= i < |ads| ==> (Matches(ads[i], query) <==> i in MatchIndices(ads, query))
    decreases |ads|
  {
    if |ads| > 0 {
      var n := |ads| - 1;
      var init := ads[..n];
      MatchIndicesComplete(init, query);
      MatchIndicesIncreasing(init, query);
      assert forall i :: 0 <= i < n ==> init[i] == ads[i];
    }
  }

  /**
   * Matching is exactly the filter of the ads by Matches: its k-th ad is the ad at the k-th
   * matching position, the positions increase, and a position is listed exactly when its ad
   * matches.
   */
  lemma MatchingIsFilter(ads: seq<Advertisement>, query: string)
    ensures |MatchIndices(ads, query)| == |Matching(ads, query)|
    ensures forall k :: 0 <= k < |MatchIndices(ads, query)| ==>
              0 <= MatchIndices(ads, query)[k] < |ads| && Matching(ads, query)[k] == ads[MatchIndices(ads, query)[k]]
    ensures forall k, l :: 0 <= k < l < |MatchIndices(ads, query)| ==> MatchIndices(ads, query)[k] < MatchIndices(ads, query)[l]
    ensures forall i :: 0 <= i < |ads| ==> (Matches(ads[i], query) <==> i in MatchIndices(ads, query))
  {
    MatchIndicesPick(ads, query);
    MatchIndicesIncreasing(ads, query);
    MatchIndicesComplete(ads, query);
  }

  /** An ad is in the result exactly when it was loaded and matches. */
  lemma {:induction false} MatchingMembership(ads: seq<Advertisement>, query: string, ad: Advertisement)
    ensures ad in Matching(ads, query) <==> ad in ads && Matches(ad, query)
    decreases |ads|
  {
    if |ads| > 0 {
      var n := |ads| - 1;
      MatchingMembership(ads[..n], query, ad);
      assert ads == ads[..n] + [ads[n]];
    }
  }

  /** Filtering twice by the same query changes nothing. */
  lemma {:induction false} MatchingIdempotent(ads: seq<Advertisement>, query: string)
    ensures Matching(Matching(ads, query), query) == Matching(ads, query)
    decreases |ads|
  {
    if |ads| > 0 {
      var n := |ads| - 1;
      var prev := Matching(ads[..n], query);
      MatchingIdempotent(ads[..n], query);
      if Matches(ads[n], query) {
        var r := prev + [ads[n]];
        assert r[..|r| - 1] == prev;
        assert r[|r| - 1] == ads[n];
        assert Matching(ads, query) == r;
        assert Matching(r, query) == Matching(r[..|r| - 1], query) + [ads[n]];
      } else {
        assert Matching(ads, query) == prev;
      }
    }
  }

  /** The empty query is contained in every text, so it would match every ad. */
  lemma {:induction false} EmptyQueryMatchesAll(ads: seq<Advertisement>)
    ensures Matching(ads, "") == ads
    decreases |ads|
  {
    if |ads| > 0 {
      var n := |ads| - 1;
      EmptyQueryMatchesAll(ads[..n]);
      assert HasPrefix(ads[n].title, "");
      assert ads == ads[..n] + [ads[n]];
    }
  }

  /** Searcher: the loaded advertisements. */
  class Searcher {
    var ads: seq<Advertisement>

    /** A Searcher after Load has read these ads. */
    constructor(ads: seq<Advertisement>)
      ensures this.ads == ads
    {
      this.ads := ads;
    }

    /** Searcher.Search: every loaded ad that matches, in order; never an error. */
    method Search(query: string) returns (result: seq<Advertisement>, err: Option<string>)
      ensures result == Matching(ads, query)
      ensures err.None?
    {
      result := [];
      for i := 0 to |ads|
        invariant result == Matching(ads[..i], query)
      {
        var record := ads[i];
        assert ads[..i + 1][..i] == ads[..i];
        if Contains(record.title, query) || Contains(record.content, query) {
          result := result + [record];
        }
      }
      assert ads[..|ads|] == ads;
      err := None;
    }
  }

  /** What the /search handler writes: a status with a plain-text body, or a JSON body. */
  datatype Answer = TextAnswer(status: int, text: string) | JsonAnswer(status: int, contentType: string, body: Json)

  const StatusOK := 200
  const StatusBadRequest := 400
  const StatusInternalServerError := 500
  const MissingQuery := "missing search query in query params"
  const JsonContentType := "application/json"

  /** An advertisement as encoding/json writes it, under its struct tags. */
  function AdJson(ad: Advertisement): Json {
    Object(map[
      "id" := Number(ad.id),
      "title" := Str(ad.title),
      "content" := Str(ad.content),
      "thumb_url" := Str(ad.thumbUrl),
      "tags" := ad.tags,
      "updated_at" := Number(ad.updatedAt),
      "image_urls" := ad.imageUrls])
  }

  /** Distinct ads are encoded differently: the encoding loses nothing. */
  lemma AdJsonInjective(a: Advertisement, b: Advertisement)
    requires AdJson(a) == AdJson(b)
    ensures a == b
  {
    var fa, fb := AdJson(a).fields, AdJson(b).fields;
    assert fa["id"] == fb["id"] && fa["title"] == fb["title"] && fa["content"] == fb["content"];
    assert fa["thumb_url"] == fb["thumb_url"] && fa["tags"] == fb["tags"];
    assert fa["updated_at"] == fb["updated_at"] && fa["image_urls"] == fb["image_urls"];
  }

  /** The search result as encoding/json writes it: a nil slice (no match was appended) is null. */
  function AdsJson(result: seq<Advertisement>): (j: Json)
    ensures |result| == 0 <==> j.Null?
    ensures j.Array? ==> |j.items| == |result| && forall k :: 0 <= k < |result| ==> j.items[k] == AdJson(result[k])
  {
    if |result| == 0 then Null else Array(seq(|result|, k requires 0 <= k < |result| => AdJson(result[k])))
  }

  /** The handler's answer to a query over the loaded ads. */
  function SearchAnswer(ads: seq<Advertisement>, q: string): Answer {
    if |q| == 0 then TextAnswer(StatusBadRequest, MissingQuery)
    else JsonAnswer(StatusOK, JsonContentType, AdsJson(Matching(ads, q)))
  }

  /**
   * handleSearch: an empty q is answered 400 without a search; a search error would be
   * answered 500 with its text; otherwise the result is written as JSON. searched records
   * whether Search was called.
   */
  method HandleSearch(s: Searcher, q: string) returns (answer: Answer, ghost searched: bool)
    ensures answer == SearchAnswer(s.ads, q)
    ensures searched <==> |q| > 0
  {
    if |q| == 0 {
      return TextAnswer(StatusBadRequest, MissingQuery), false;
    }
    var ads, err := s.Search(q);
    searched := true;
    if err.Some? {
      // Search never fails, so the 500 answer is never written.
      assert false;
    }
    answer := JsonAnswer(StatusOK, JsonContentType, AdsJson(ads));
  }

  /** An empty query is refused with 400 whatever has been loaded. */
  lemma EmptyQueryRefused(ads1: seq<Advertisement>, ads2: seq<Advertisement>)
    ensures SearchAnswer(ads1, "") == SearchAnswer(ads2, "")
    ensures SearchAnswer(ads1, "") == TextAnswer(400, "missing search query in query params")
  {
  }

  /**
   * A non-empty query is answered 200, with null when nothing matches and otherwise with
   * an array holding exactly the encodings of the matching ads, in load order.
   */
  lemma AnswerListsMatches(ads: seq<Advertisement>, q: string)
    requires |q| > 0
    ensures SearchAnswer(ads, q).JsonAnswer? && SearchAnswer(ads, q).status == 200
    ensures SearchAnswer(ads, q).body.Null? <==> forall ad :: ad in ads ==> !Matches(ad, q)
    ensures SearchAnswer(ads, q).body.Array? ==>
              forall ad :: ad in ads && Matches(ad, q) <==> AdJson(ad) in SearchAnswer(ads, q).body.items
  {
    var r := Matching(ads, q);
    forall ad ensures ad in r <==> ad in ads && Matches(ad, q) {
      MatchingMembership(ads, q, ad);
    }
    if |r| > 0 {
      var items := SearchAnswer(ads, q).body.items;
      assert r[0] in r;
      forall ad ensures AdJson(ad) in items <==> ad in r {
        if AdJson(ad) in items {
          var k :| 0 <= k < |items| && items[k] == AdJson(ad);
          AdJsonInjective(ad, r[k]);
        }
        if ad in r {
          var k :| 0 <= k < |r| && r[k] == ad;
          assert items[k] == AdJson(ad);
        }
      }
    }
  }
}
